/** The onboarding questionnaire: seven anxiety-screening items (the wording
    of the GAD-7 screener, labelled "GAD-9" in the app), each answered on a
    0..3 scale. Answers are collected one at a time; after the last item the
    total is sent to the risk-analysis service, whose verdict is stored with
    the score and, on "Start Chatting", handed to the page. */
module Gad9Onboarding {
  import opened Common

  /** `gad9Questions` */
  const Questions: seq<string> := [
    "Over the last 2 weeks, how often have you been bothered by feeling nervous, anxious, or on edge?",
    "Over the last 2 weeks, how often have you been bothered by not being able to stop or control worrying?",
    "Over the last 2 weeks, how often have you been bothered by worrying too much about different things?",
    "Over the last 2 weeks, how often have you been bothered by having trouble relaxing?",
    "Over the last 2 weeks, how often have you been bothered by being so restless that it is hard to sit still?",
    "Over the last 2 weeks, how often have you been bothered by becoming easily annoyed or irritable?",
    "Over the last 2 weeks, how often have you been bothered by feeling afraid as if something awful might happen?"
  ]

  datatype AnswerOption = AnswerOption(text: string, value: int)

  /** `answerOptions` */
  const AnswerOptions: seq<AnswerOption> := [
    AnswerOption("Not at all", 0),
    AnswerOption("Several days", 1),
    AnswerOption("More than half the days", 2),
    AnswerOption("Nearly every day", 3)
  ]

  /** The index of the last question (`gad9Questions.length - 1`). */
  const LastIndex := |Questions| - 1

  /** A value one of the answer buttons can send. */
  predicate IsOptionValue(v: int)
  {
    exists k :: 0 <= k < |AnswerOptions| && AnswerOptions[k].value == v
  }

  /** Seven questions, and the option values are exactly 0, 1, 2 and 3. */
  lemma QuestionnaireShape()
    ensures |Questions| == 7 && LastIndex == 6
    ensures forall v :: IsOptionValue(v) <==> 0 <= v <= 3
  {
    forall v | 0 <= v <= 3 ensures IsOptionValue(v) {
      assert AnswerOptions[v].value == v;
    }
  }

  /** `AnalyzeRiskLevelOutput`: the service's level and summary text. */
  datatype RiskAnalysis = RiskAnalysis(riskLevel: Level, summary: string)

  /** `Gad9Result`: the service's verdict together with the total score. */
  datatype Gad9Result = Gad9Result(riskLevel: Level, summary: string, score: int)

  /** The dialog state: open or not, the current question, the answers so
      far, and the stored result. */
  datatype Onboarding = Onboarding(open: bool, index: nat, answers: seq<int>, result: Option<Gad9Result>)

  const Initial := Onboarding(false, 0, [], None)

  /** `startAssessment` */
  function StartAssessment(s: Onboarding): Onboarding
  {
    Onboarding(true, 0, [], None)
  }

  /** Restarting forgets everything: the state after a restart does not
      depend on the state before it, and it is the open dialog at the first
      question with no answers and no result. */
  lemma RestartResets(s: Onboarding, t: Onboarding)
    ensures StartAssessment(s) == StartAssessment(t)
    ensures var r := StartAssessment(s); r.open && r.index == 0 && r.answers == [] && r.result.None?
  {
  }

  /** `calculateAndSetResult` on the final answer list: the total is sent to
      the service; its verdict is stored with the total, a failure stores
      nothing. */
  function Score(s: Onboarding, finalAnswers: seq<int>, analyze: int -> Outcome<RiskAnalysis>): (r: Onboarding)
    ensures r.answers == finalAnswers && r.index == s.index && r.open == s.open
    ensures analyze(Sum(finalAnswers)).Ok? ==>
              && r.result.Some? && r.result.value.score == Sum(finalAnswers)
              && analyze(Sum(finalAnswers)) == Ok(RiskAnalysis(r.result.value.riskLevel, r.result.value.summary))
    ensures analyze(Sum(finalAnswers)).Failed? ==> r.result == s.result
  {
    var total := Sum(finalAnswers);
    match analyze(total)
    case Ok(a) => s.(answers := finalAnswers, result := Some(Gad9Result(a.riskLevel, a.summary, total)))
    case Failed(_) => s.(answers := finalAnswers)
  }

  /** `handleSelectAnswer` exactly as written: the value is appended to
      whatever answers exist, and the list is scored whenever the current
      question is the last one. */
  function SelectAnswerAsWritten(s: Onboarding, value: int, analyze: int -> Outcome<RiskAnalysis>): (r: Onboarding)
    ensures r.answers == s.answers + [value]
  {
    var newAnswers := s.answers + [value];
    if s.index < LastIndex then s.(answers := newAnswers, index := s.index + 1)
    else Score(s, newAnswers, analyze)
  }

  /** When the service fails on the seventh answer no result is stored and
      the loading screen ends, so the seventh question is shown again; the
      next click appends an eighth answer, and the total sent and stored can
      reach 24 on a scale the dialog labels "/ 21". */
  lemma RetryAfterFailureOverflows()
    ensures var fail := (score: int) => Failed("unavailable");
            var ok := (score: int) => Ok(RiskAnalysis(High, "summary"));
            var s := RunAsWritten(StartAssessment(Initial), [3, 3, 3, 3, 3, 3, 3], fail);
            && s.index == LastIndex && s.result.None? && |s.answers| == 7
            && var s' := SelectAnswerAsWritten(s, 3, ok);
               s'.result.Some? && s'.result.value.score == 24 && |s'.answers| == 8
  {
    var fail := (score: int) => Failed("unavailable");
    var ok := (score: int) => Ok(RiskAnalysis(High, "summary"));
    var s := RunAsWritten(StartAssessment(Initial), [3, 3, 3, 3, 3, 3, 3], fail);
    assert s.answers == [3, 3, 3, 3, 3, 3, 3];
    var s' := SelectAnswerAsWritten(s, 3, ok);
    assert s'.answers == [3, 3, 3, 3, 3, 3, 3, 3];
    assert Sum(s'.answers) == 24 by {
      assert s'.answers[..7] == [3, 3, 3, 3, 3, 3, 3];
      assert Sum([3, 3, 3, 3, 3, 3, 3]) == 21 by {
        SumOfThrees(7);
        assert seq(7, i => 3) == [3, 3, 3, 3, 3, 3, 3];
      }
    }
  }

  lemma {:induction false} SumOfThrees(n: nat)
    ensures Sum(seq(n, i => 3)) == 3 * n
  {
    if n > 0 {
      SumOfThrees(n - 1);
      assert seq(n, i => 3)[..n - 1] == seq(n - 1, i => 3);
    }
  }

  /** Clicking through a list of answers with the handler as written. */
  function RunAsWritten(s: Onboarding, values: seq<int>, analyze: int -> Outcome<RiskAnalysis>): Onboarding
    decreases |values|
  {
    if |values| == 0 then s else RunAsWritten(SelectAnswerAsWritten(s, values[0], analyze), values[1..], analyze)
  }

  /** The answers to the questions before `index`. */
  function AnswersBefore(answers: seq<int>, index: nat): seq<int>
  {
    if index <= |answers| then answers[..index] else answers
  }

  /** `handleSelectAnswer` with the retry fixed: the value becomes the answer
      to the current question, replacing an answer already given to it, so a
      retry after a failed analysis re-scores seven answers. */
  function SelectAnswer(s: Onboarding, value: int, analyze: int -> Outcome<RiskAnalysis>): Onboarding
  {
    var newAnswers := AnswersBefore(s.answers, s.index) + [value];
    if s.index < LastIndex then s.(answers := newAnswers, index := s.index + 1)
    else Score(s, newAnswers, analyze)
  }

  /** Before the last question a click stores the value, moves on by one and
      scores nothing; on the last question it stays put and scores. */
  lemma SelectAnswerSteps(s: Onboarding, value: int, analyze: int -> Outcome<RiskAnalysis>)
    requires |s.answers| == s.index
    ensures SelectAnswer(s, value, analyze).answers == s.answers + [value]
    ensures s.index < LastIndex ==>
              SelectAnswer(s, value, analyze) == s.(index := s.index + 1, answers := s.answers + [value])
    ensures s.index >= LastIndex ==> SelectAnswer(s, value, analyze) == Score(s, s.answers + [value], analyze)
  {
    assert s.answers[..s.index] == s.answers;
  }

  /** The two handlers differ only once an answer is already stored for the
      current question, which happens only after a failed analysis. */
  lemma AsWrittenAgreesOnFreshQuestion(s: Onboarding, value: int, analyze: int -> Outcome<RiskAnalysis>)
    requires |s.answers| == s.index
    ensures SelectAnswerAsWritten(s, value, analyze) == SelectAnswer(s, value, analyze)
  {
    assert s.answers[..s.index] == s.answers;
  }

  /** The answer screen is shown (and its buttons can be clicked) only while
      the dialog is neither loading nor showing a result. */
  predicate AnswerScreen(s: Onboarding)
  {
    s.result.None?
  }

  /** What holds of every state reachable from a restart through answer
      clicks handled by the corrected `SelectAnswer`: the index stays on a
      question, one answer is stored per question before it (and the seventh
      once the last question has been answered), every answer is an option
      value, and a stored result carries the sum of exactly seven answers. */
  ghost predicate Valid(s: Onboarding)
  {
    && s.index <= LastIndex
    && (|s.answers| == s.index || (s.index == LastIndex && |s.answers| == |Questions|))
    && (forall i :: 0 <= i < |s.answers| ==> IsOptionValue(s.answers[i]))
    && (s.result.Some? ==> |s.answers| == |Questions| && s.result.value.score == Sum(s.answers))
  }

  /** A restart establishes the invariant, and an option click on the answer
      screen preserves it; before any click the number of answers equals the
      question index. */
  lemma SelectAnswerPreservesValid(s: Onboarding, value: int, analyze: int -> Outcome<RiskAnalysis>)
    requires Valid(s) && AnswerScreen(s) && IsOptionValue(value)
    ensures Valid(StartAssessment(s))
    ensures Valid(SelectAnswer(s, value, analyze))
  {
    var r := SelectAnswer(s, value, analyze);
    assert |r.answers| == s.index + 1;
    forall i | 0 <= i < |r.answers| ensures IsOptionValue(r.answers[i]) {
      if i < s.index { assert r.answers[i] == s.answers[i]; }
    }
  }

  /** In a valid state the stored score is a GAD-7 total: between 0 and 21. */
  lemma ValidScoreInRange(s: Onboarding)
    requires Valid(s) && s.result.Some?
    ensures 0 <= s.result.value.score <= 21
  {
    QuestionnaireShape();
    SumBounds(s.answers, 0, 3);
  }

  /** Clicking through a list of answers with the corrected handler. */
  function Run(s: Onboarding, values: seq<int>, analyze: int -> Outcome<RiskAnalysis>): Onboarding
    decreases |values|
  {
    if |values| == 0 then s else Run(SelectAnswer(s, values[0], analyze), values[1..], analyze)
  }

  /** The first six clicks each store their value and move to the next
      question without scoring. */
  lemma {:induction false} RunBeforeLast(s: Onboarding, values: seq<int>, analyze: int -> Outcome<RiskAnalysis>)
    requires |s.answers| == s.index && s.index + |values| <= LastIndex
    ensures Run(s, values, analyze) == s.(index := s.index + |values|, answers := s.answers + values)
    decreases |values|
  {
    if |values| > 0 {
      SelectAnswerSteps(s, values[0], analyze);
      var next := SelectAnswer(s, values[0], analyze);
      RunBeforeLast(next, values[1..], analyze);
      assert s.answers + [values[0]] + values[1..] == s.answers + values;
    }
  }

  /** Until a result is stored, clicking through at most one answer per
      question with the handler as written gives the same states as the
      corrected handler: the two differ only after a failed analysis. */
  lemma {:induction false} AsWrittenRunAgrees(s: Onboarding, values: seq<int>, analyze: int -> Outcome<RiskAnalysis>)
    requires |s.answers| == s.index && s.result.None? && s.index + |values| <= |Questions|
    ensures RunAsWritten(s, values, analyze) == Run(s, values, analyze)
    decreases |values|
  {
    if |values| > 0 {
      AsWrittenAgreesOnFreshQuestion(s, values[0], analyze);
      if s.index < LastIndex {
        SelectAnswerSteps(s, values[0], analyze);
        AsWrittenRunAgrees(SelectAnswer(s, values[0], analyze), values[1..], analyze);
      } else {
        assert values[1..] == [];
      }
    }
  }

  /** From a fresh question, clicking through the remaining questions moves
      to the last one storing each value, and the last click scores them all. */
  lemma {:induction false} RunToLast(s: Onboarding, values: seq<int>, analyze: int -> Outcome<RiskAnalysis>)
    requires |s.answers| == s.index && s.index + |values| == LastIndex + 1 && |values| > 0
    ensures Run(s, values, analyze)
         == Score(s.(index := LastIndex, answers := s.answers + values[..|values| - 1]), s.answers + values, analyze)
    decreases |values|
  {
    SelectAnswerSteps(s, values[0], analyze);
    var next := SelectAnswer(s, values[0], analyze);
    if s.index == LastIndex {
      assert values[..|values| - 1] == [] && values[1..] == [] && values == [values[0]];
      assert s.(index := LastIndex, answers := s.answers + []) == s;
    } else {
      RunToLast(next, values[1..], analyze);
      assert next.answers + values[1..] == s.answers + values;
      assert next.answers + values[1..][..|values| - 2] == s.answers + values[..|values| - 1];
    }
  }

  /** Seven clicks from a restart: six moves, then the seventh answer scores
      the whole list. */
  lemma RunSeven(s0: Onboarding, values: seq<int>, analyze: int -> Outcome<RiskAnalysis>)
    requires |values| == |Questions|
    ensures Run(StartAssessment(s0), values, analyze)
         == Score(Onboarding(true, LastIndex, values[..LastIndex], None), values, analyze)
  {
    var start := StartAssessment(s0);
    RunToLast(start, values, analyze);
    assert [] + values == values && [] + values[..|values| - 1] == values[..LastIndex];
  }

  /** Answering all seven questions from a restart, with the handler as
      written or the corrected one alike, stores exactly those seven answers
      and, when the service answers, a result whose score is their sum,
      between 0 and 21; pressing "Start Chatting" then hands that result to
      the page. */
  lemma FullQuestionnaire(s0: Onboarding, values: seq<int>, analyze: int -> Outcome<RiskAnalysis>)
    requires |values| == |Questions|
    requires forall i :: 0 <= i < |values| ==> IsOptionValue(values[i])
    ensures RunAsWritten(StartAssessment(s0), values, analyze) == Run(StartAssessment(s0), values, analyze)
    ensures var s := RunAsWritten(StartAssessment(s0), values, analyze);
            && s.answers == values && s.index == LastIndex
            && (s.result.Some? <==> analyze(Sum(values)).Ok?)
            && (s.result.Some? ==> s.result.value.score == Sum(values) && 0 <= Sum(values) <= 21)
            && FinishOnboarding(s).0 == s.result
  {
    QuestionnaireShape();
    AsWrittenRunAgrees(StartAssessment(s0), values, analyze);
    RunSeven(s0, values, analyze);
    SumBounds(values, 0, 3);
  }

  /** `finishOnboarding`: hands the stored result, if any, to the page and
      closes the dialog. */
  function FinishOnboarding(s: Onboarding): (r: (Option<Gad9Result>, Onboarding))
    ensures !r.1.open
    ensures r.0 == s.result
    ensures r.1.answers == s.answers && r.1.result == s.result
  {
    (s.result, s.(open := false))
  }

  /** The badge on the result screen: high is destructive, medium secondary,
      low the default style. */
  function ResultBadge(level: Level): BadgeVariant
  {
    if level == High then Destructive else if level == Medium then Secondary else Default
  }
}
