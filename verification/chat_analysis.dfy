/** The "Analyze My Chat" dialog: the transcript is written out as one
    `User:`/`AI:` line per message and sent to the chat-analysis service;
    its intensity is shown as a coloured badge and its suggested action as a
    link to the matching page or as an urgent-support notice. */
module ChatAnalysis {
  import opened Common
  import opened Text
  import opened ChatInterface
  import Gad9Onboarding

  datatype SuggestedAction = SoulSprints | MeetingPods | ProfessionalHelp

  /** `ChatAnalysisOutput` */
  datatype Analysis = Analysis(intensity: Level, recommendation: string, suggestedAction: SuggestedAction)

  /** `getIntensityVariant`: high is destructive, medium secondary, and
      anything else (low, or no intensity) the default style. */
  function IntensityVariant(intensity: Option<Level>): BadgeVariant
  {
    match intensity
    case Some(High) => Destructive
    case Some(Medium) => Secondary
    case _ => Default
  }

  /** Each badge style singles out its intensity: destructive exactly for
      high, secondary exactly for medium, the default style otherwise, and
      the outline style never. */
  lemma IntensityVariantCases(intensity: Option<Level>)
    ensures IntensityVariant(intensity) == Destructive <==> intensity == Some(High)
    ensures IntensityVariant(intensity) == Secondary <==> intensity == Some(Medium)
    ensures IntensityVariant(intensity) == Default <==> intensity == None || intensity == Some(Low)
    ensures IntensityVariant(intensity) != Outline
  {
  }

  /** The questionnaire's result badge uses the same colours for a risk level
      as this dialog uses for an intensity. */
  lemma ResultBadgeAgrees(level: Level)
    ensures Gad9Onboarding.ResultBadge(level) == IntensityVariant(Some(level))
  {
  }

  // ---------------------------------------------------------------------
  // The transcript sent for analysis

  const UserPrefix := "User: "
  const AiPrefix := "AI: "

  /** `${m.sender === 'user' ? 'User' : 'AI'}: ${m.text}` */
  function Line(m: Message): string
  {
    (if m.sender == User then UserPrefix else AiPrefix) + m.text
  }

  /** `messages.map(Line).join('\n')` */
  function Transcript(messages: seq<Message>): string
  {
    Join(seq(|messages|, i requires 0 <= i < |messages| => Line(messages[i])), '\n')
  }

  /** Reads one transcript line back into its speaker and text. */
  function ParseLine(line: string): Option<(Sender, string)>
  {
    if |line| >= |UserPrefix| && line[..|UserPrefix|] == UserPrefix then Some((User, line[|UserPrefix|..]))
    else if |line| >= |AiPrefix| && line[..|AiPrefix|] == AiPrefix then Some((Ai, line[|AiPrefix|..]))
    else None
  }

  /** Reads a whole transcript back, one entry per line. */
  function ParseTranscript(s: string): seq<Option<(Sender, string)>>
  {
    var lines := Split(s, '\n');
    seq(|lines|, i requires 0 <= i < |lines| => ParseLine(lines[i]))
  }

  /** A line says who spoke and what was said. */
  lemma ParseLineInverse(m: Message)
    ensures ParseLine(Line(m)) == Some((m.sender, m.text))
  {
    var l := Line(m);
    if m.sender == User {
      assert l[..|UserPrefix|] == UserPrefix;
      assert l[|UserPrefix|..] == m.text;
    } else {
      assert l[..|AiPrefix|] == AiPrefix;
      assert l[|AiPrefix|..] == m.text;
      assert l[0] == 'A';
    }
  }

  /** The serialised history loses nothing: for a non-empty transcript whose
      messages contain no line break, reading it back line by line gives
      every message's speaker and text, in order, one line per message. */
  lemma TranscriptRoundTrip(messages: seq<Message>)
    requires |messages| > 0
    requires forall i :: 0 <= i < |messages| ==> '\n' !in messages[i].text
    ensures |Split(Transcript(messages), '\n')| == |messages|
    ensures ParseTranscript(Transcript(messages))
         == seq(|messages|, i requires 0 <= i < |messages| => Some((messages[i].sender, messages[i].text)))
  {
    var lines := seq(|messages|, i requires 0 <= i < |messages| => Line(messages[i]));
    forall i | 0 <= i < |lines| ensures '\n' !in lines[i] {
      var prefix := if messages[i].sender == User then UserPrefix else AiPrefix;
      assert lines[i] == prefix + messages[i].text;
      assert '\n' !in prefix;
    }
    SplitJoin(lines, '\n');
    forall i | 0 <= i < |messages| ensures ParseLine(lines[i]) == Some((messages[i].sender, messages[i].text)) {
      ParseLineInverse(messages[i]);
    }
  }

  /** Why the round trip needs line-break-free messages: one AI reply whose
      second line starts with "User: " serialises to the same text as that
      reply's first line followed by a separate user message, so reading the
      transcript back yields two entries for one message. */
  lemma TranscriptAmbiguous()
    ensures var one := [Message(0, "ok\nUser: hi", Ai)];
            var two := [Message(0, "ok", Ai), Message(1, "hi", User)];
            one != two && Transcript(one) == Transcript(two)
              && |ParseTranscript(Transcript(one))| == 2
  {
    var one := [Message(0, "ok\nUser: hi", Ai)];
    var two := [Message(0, "ok", Ai), Message(1, "hi", User)];
    assert Transcript(one) == "AI: ok\nUser: hi";
    var lines := seq(|two|, i requires 0 <= i < |two| => Line(two[i]));
    assert Line(two[0]) == AiPrefix + "ok" == "AI: ok";
    assert Line(two[1]) == UserPrefix + "hi" == "User: hi";
    assert lines == ["AI: ok", "User: hi"];
    assert Join(lines[1..], '\n') == "User: hi";
    assert Transcript(two) == "AI: ok" + ['\n'] + "User: hi";
    TranscriptRoundTrip(two);
  }

  // ---------------------------------------------------------------------
  // The dialog

  /** The dialog state: open, waiting, the analysis shown, the error shown. */
  datatype Panel = Panel(open: bool, loading: bool, analysis: Option<Analysis>, error: Option<string>)

  /** A toast notification. */
  datatype Toast = Toast(title: string, description: string)

  const NoHistory := Toast("No History", "There are no chat messages to analyze yet.")
  const UnexpectedError := "An unexpected error occurred during analysis."

  /** What pressing "Analyze My Chat" produced: the new panel, the toast shown
      if any, and the transcript sent to the service if any. */
  datatype Analyzed = Analyzed(panel: Panel, toast: Option<Toast>, sent: Option<string>)

  /** The part of `handleAnalyze` before the `await`: with no messages only a
      toast is shown; otherwise the dialog opens waiting, with the previous
      analysis and error cleared, and the transcript is sent. */
  function BeginAnalyze(p: Panel, messages: seq<Message>): (r: Analyzed)
    ensures |messages| == 0 ==> r == Analyzed(p, Some(NoHistory), None)
    ensures |messages| > 0 ==>
              && r.panel == Panel(true, true, None, None)
              && r.toast.None? && r.sent == Some(Transcript(messages))
  {
    if |messages| == 0 then Analyzed(p, Some(NoHistory), None)
    else Analyzed(Panel(true, true, None, None), None, Some(Transcript(messages)))
  }

  /** The part after the `await`: the analysis is shown, or the error's
      message (the fixed text when the message is empty). */
  function FinishAnalyze(p: Panel, outcome: Outcome<Analysis>): (r: Panel)
    ensures !r.loading && r.open == p.open
    ensures outcome.Ok? ==> r.analysis == Some(outcome.value) && r.error == p.error
    ensures outcome.Failed? ==> r.analysis == p.analysis && r.error == Some(OrElse(outcome.message, UnexpectedError))
    ensures outcome.Failed? ==> r.error.value != [] && (outcome.message != [] ==> r.error.value == outcome.message)
  {
    match outcome
    case Ok(a) => p.(loading := false, analysis := Some(a))
    case Failed(msg) => p.(loading := false, error := Some(OrElse(msg, UnexpectedError)))
  }

  /** One whole `handleAnalyze`, with the analysis service as a parameter. */
  function Analyze(p: Panel, messages: seq<Message>, service: string -> Outcome<Analysis>): (r: Analyzed)
    // No messages: the panel is untouched, a toast is shown, nothing is sent.
    ensures |messages| == 0 ==> r.panel == p && r.toast == Some(NoHistory) && r.sent.None?
    // Otherwise the transcript is sent and exactly one of analysis and error is shown.
    ensures |messages| > 0 ==>
              && r.sent == Some(Transcript(messages)) && r.toast.None?
              && r.panel.open && !r.panel.loading
              && (r.panel.analysis.Some? <==> r.panel.error.None?)
              && (r.panel.analysis.Some? <==> service(Transcript(messages)).Ok?)
              && (r.panel.analysis.Some? ==> r.panel.analysis.value == service(Transcript(messages)).value)
  {
    var begun := BeginAnalyze(p, messages);
    match begun.sent
    case None => begun
    case Some(history) => begun.(panel := FinishAnalyze(begun.panel, service(history)))
  }

  // ---------------------------------------------------------------------
  // The recommended action

  /** The pages of the authenticated part of the app. */
  const AppRoutes: set<string> := {"/dashboard", "/meeting-pods", "/nirvana-ai", "/race-challenges", "/soul-sprint"}

  /** What `renderRecommendationAction` renders. */
  datatype ActionView = Nothing | LinkButton(href: string, caption: string) | SupportAlert(title: string, description: string)

  const SupportText :=
    "Please consider reaching out to a mental health professional or a support hotline. Your well-being is the top priority."

  /** `renderRecommendationAction` */
  function RecommendationAction(analysis: Option<Analysis>): (v: ActionView)
    ensures v.Nothing? <==> analysis.None?
    ensures v.LinkButton? ==> v.href in AppRoutes
    ensures analysis.Some? && analysis.value.suggestedAction == SoulSprints ==>
              v == LinkButton("/soul-sprint", "Explore Soul Sprints")
    ensures analysis.Some? && analysis.value.suggestedAction == MeetingPods ==>
              v == LinkButton("/meeting-pods", "Find a Meeting Pod")
  {
    match analysis
    case None => Nothing
    case Some(a) =>
      match a.suggestedAction
      case SoulSprints => LinkButton("/soul-sprint", "Explore Soul Sprints")
      case MeetingPods => LinkButton("/meeting-pods", "Find a Meeting Pod")
      case ProfessionalHelp => SupportAlert("Immediate Support", SupportText)
  }

  /** Reads the suggested action back off what was rendered. */
  function ActionShown(v: ActionView): Option<SuggestedAction>
  {
    match v
    case Nothing => None
    case LinkButton(href, _) =>
      if href == "/soul-sprint" then Some(SoulSprints)
      else if href == "/meeting-pods" then Some(MeetingPods)
      else None
    case SupportAlert(_, _) => Some(ProfessionalHelp)
  }

  /** The rendering determines the suggested action: nothing is rendered
      exactly when there is no analysis, the urgent-support notice exactly
      for professional help, and each page link for its own action. */
  lemma RecommendationActionFaithful(analysis: Option<Analysis>)
    ensures ActionShown(RecommendationAction(analysis))
         == if analysis.Some? then Some(analysis.value.suggestedAction) else None
    ensures RecommendationAction(analysis).SupportAlert? <==>
              analysis.Some? && analysis.value.suggestedAction == ProfessionalHelp
    ensures RecommendationAction(analysis).Nothing? <==> analysis.None?
  {
  }
}
