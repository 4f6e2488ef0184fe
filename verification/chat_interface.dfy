/** The chat panel: the user's message is appended to the shared transcript,
    sent to the wellness-guidance service (with the assessed risk level when
    there is one) and, in parallel, to the video-recommendation service; the
    reply, or a fixed apology when either call fails, is appended after it. */
module ChatInterface {
  import opened Common
  import opened Text
  import opened Gad9Onboarding

  datatype Sender = User | Ai

  /** A transcript entry. The source stamps ids from the clock; here they
      come from a counter kept in the chat state, so they are always fresh. */
  datatype Message = Message(id: nat, text: string, sender: Sender)

  /** `WellnessGuidanceChatInput`: the message and the optional risk level. */
  datatype ChatRequest = ChatRequest(message: string, riskLevel: Option<Level>)

  datatype Video = Video(videoId: string, title: string, channel: string, thumbnailUrl: string)

  /** `YouTubeRecommendationOutput` */
  datatype Recommendations = Recommendations(intensity: Level, videos: seq<Video>)

  /** The panel's state together with the page state it writes: the input
      box, the transcript, the loading flag, the recommendations shown next to
      the chat, and the next unused message id. */
  datatype Chat = Chat(
    input: string,
    messages: seq<Message>,
    loading: bool,
    recommendations: Option<Recommendations>,
    nextId: nat)

  const Apology := "Sorry, I'm having trouble connecting. Please try again later."

  /** `messageText || input`: an explicit text wins unless it is missing or empty. */
  function ChooseText(messageText: Option<string>, input: string): (r: string)
    ensures messageText.Some? && messageText.value != [] ==> r == messageText.value
    ensures !(messageText.Some? && messageText.value != []) ==> r == input
  {
    if messageText.Some? then OrElse(messageText.value, input) else input
  }

  /** The request for the guidance service; the risk level is set only when
      an assessment result is present. */
  function RequestFor(text: string, assessment: Option<Gad9Result>): (r: ChatRequest)
    ensures r.message == text
    ensures r.riskLevel.Some? <==> assessment.Some?
    ensures assessment.Some? ==> r.riskLevel.value == assessment.value.riskLevel
  {
    ChatRequest(text, if assessment.Some? then Some(assessment.value.riskLevel) else None)
  }

  /** What the synchronous half of a send produced: the new state and the
      two requests about to be awaited (the chat request and the video query). */
  datatype Sent = Sent(chat: Chat, request: ChatRequest, query: string)

  /** The part of `handleSendMessage` before the `await`: a blank text is
      ignored; otherwise the user message is appended, the input cleared, the
      spinner shown and the previous recommendations cleared. */
  function BeginSend(c: Chat, messageText: Option<string>, assessment: Option<Gad9Result>): (r: Option<Sent>)
    ensures r.None? <==> IsBlank(ChooseText(messageText, c.input))
    ensures r.Some? ==>
              var text := ChooseText(messageText, c.input);
              && r.value.chat.messages == c.messages + [Message(c.nextId, text, User)]
              && r.value.chat.input == [] && r.value.chat.loading
              && r.value.chat.recommendations.None?
              && r.value.chat.nextId == c.nextId + 1
              && r.value.request == RequestFor(text, assessment)
              && r.value.query == text
  {
    var text := ChooseText(messageText, c.input);
    if IsBlank(text) then None
    else
      var chat := c.(messages := c.messages + [Message(c.nextId, text, User)], input := [],
                     loading := true, recommendations := None, nextId := c.nextId + 1);
      Some(Sent(chat, RequestFor(text, assessment), text))
  }

  /** The part after the `await` of both calls (`Promise.all`): if both
      settle, the reply is appended and the recommendations shown; if either
      fails, the apology is appended and the recommendations cleared. */
  function FinishSend(c: Chat, reply: Outcome<string>, recs: Outcome<Recommendations>): (r: Chat)
    ensures |r.messages| == |c.messages| + 1
    ensures r.messages[..|c.messages|] == c.messages
    ensures r.messages[|c.messages|].sender == Ai && r.messages[|c.messages|].id == c.nextId
    ensures r.messages[|c.messages|].text == if reply.Ok? && recs.Ok? then reply.value else Apology
    ensures r.recommendations == if reply.Ok? && recs.Ok? then Some(recs.value) else None
    ensures !r.loading && r.input == c.input && r.nextId == c.nextId + 1
  {
    var ok := reply.Ok? && recs.Ok?;
    var text := if ok then reply.value else Apology;
    var r := c.(messages := c.messages + [Message(c.nextId, text, Ai)], loading := false,
                recommendations := if ok then Some(recs.value) else None, nextId := c.nextId + 1);
    assert r.messages[..|c.messages|] == c.messages;
    r
  }

  /** One whole `handleSendMessage`, with the two services as parameters.
      The second component is the chat request sent, if any. */
  function SendMessage(
    c: Chat, messageText: Option<string>, assessment: Option<Gad9Result>,
    guidance: ChatRequest -> Outcome<string>, videos: string -> Outcome<Recommendations>): (r: (Chat, Option<ChatRequest>))
    // A blank text changes nothing and sends nothing.
    ensures IsBlank(ChooseText(messageText, c.input)) ==> r == (c, None)
    // Otherwise exactly two messages are appended: the user's untrimmed text, then one reply.
    ensures !IsBlank(ChooseText(messageText, c.input)) ==>
              var text := ChooseText(messageText, c.input);
              var req := RequestFor(text, assessment);
              var ok := guidance(req).Ok? && videos(text).Ok?;
              && r.1 == Some(req)
              && |r.0.messages| == |c.messages| + 2
              && r.0.messages[..|c.messages|] == c.messages
              && r.0.messages[|c.messages|].sender == User && r.0.messages[|c.messages|].text == text
              && r.0.messages[|c.messages| + 1].sender == Ai
              && r.0.messages[|c.messages| + 1].text == (if ok then guidance(req).value else Apology)
              && r.0.recommendations == (if ok then Some(videos(text).value) else None)
              && r.0.input == [] && !r.0.loading
              && r.0.messages[|c.messages|].id == c.nextId
              && r.0.messages[|c.messages| + 1].id == c.nextId + 1
              && r.0.nextId == c.nextId + 2
  {
    match BeginSend(c, messageText, assessment)
    case None => (c, None)
    case Some(sent) =>
      var done := FinishSend(sent.chat, guidance(sent.request), videos(sent.query));
      assert done.messages[..|c.messages|] == sent.chat.messages[..|c.messages|];
      (done, Some(sent.request))
  }

  /** A text is accepted exactly when it has a character `trim` would keep. */
  lemma SendAcceptsNonBlank(c: Chat, messageText: Option<string>, assessment: Option<Gad9Result>,
    guidance: ChatRequest -> Outcome<string>, videos: string -> Outcome<Recommendations>)
    ensures SendMessage(c, messageText, assessment, guidance, videos).1.Some?
            <==> exists i :: 0 <= i < |ChooseText(messageText, c.input)| && !IsWhitespace(ChooseText(messageText, c.input)[i])
  {
    BlankIffAllWhitespace(ChooseText(messageText, c.input));
  }

  /** The transcript of a settled chat: user/reply pairs, ids fresh. */
  ghost predicate Settled(c: Chat)
  {
    && !c.loading
    && |c.messages| % 2 == 0
    && (forall i :: 0 <= i < |c.messages| ==> (c.messages[i].sender == User <==> i % 2 == 0))
    && (forall i :: 0 <= i < |c.messages| ==> c.messages[i].id < c.nextId)
    && (forall i, j :: 0 <= i < j < |c.messages| ==> c.messages[i].id < c.messages[j].id)
  }

  /** Appending a user message and then a reply, with the next two ids,
      keeps a settled transcript settled. */
  lemma SettledExtend(c: Chat, r: Chat)
    requires Settled(c) && !r.loading
    requires |r.messages| == |c.messages| + 2 && r.messages[..|c.messages|] == c.messages
    requires r.messages[|c.messages|].sender == User && r.messages[|c.messages|].id == c.nextId
    requires r.messages[|c.messages| + 1].sender == Ai && r.messages[|c.messages| + 1].id == c.nextId + 1
    requires r.nextId == c.nextId + 2
    ensures Settled(r)
  {
    var n := |c.messages|;
    forall i | 0 <= i < n ensures r.messages[i] == c.messages[i] {
      assert r.messages[..n][i] == c.messages[i];
    }
  }

  /** Every accepted send keeps the transcript a sequence of user messages each
      followed by exactly one reply, with strictly increasing (so distinct) ids,
      and never touches an earlier message. */
  lemma SendKeepsSettled(c: Chat, messageText: Option<string>, assessment: Option<Gad9Result>,
    guidance: ChatRequest -> Outcome<string>, videos: string -> Outcome<Recommendations>)
    requires Settled(c)
    ensures Settled(SendMessage(c, messageText, assessment, guidance, videos).0)
  {
    if !IsBlank(ChooseText(messageText, c.input)) {
      SettledExtend(c, SendMessage(c, messageText, assessment, guidance, videos).0);
    }
  }

  /** A turn of the conversation: the text the user submits and how the two
      services answer it. */
  datatype Turn = Turn(
    typed: string,
    guidance: ChatRequest -> Outcome<string>,
    videos: string -> Outcome<Recommendations>)

  /** The user types each turn's text into the box and presses send. */
  function Converse(c: Chat, turns: seq<Turn>, assessment: Option<Gad9Result>): Chat
    decreases |turns|
  {
    if |turns| == 0 then c
    else
      var t := turns[0];
      Converse(SendMessage(c.(input := t.typed), None, assessment, t.guidance, t.videos).0, turns[1..], assessment)
  }

  /** Over any conversation the transcript is append-only: what was there
      stays, unchanged and in place, and the pairing invariant holds after
      every turn. */
  lemma {:induction false} ConverseAppendOnly(c: Chat, turns: seq<Turn>, assessment: Option<Gad9Result>)
    requires Settled(c)
    ensures var r := Converse(c, turns, assessment);
            |r.messages| >= |c.messages| && r.messages[..|c.messages|] == c.messages && Settled(r)
    decreases |turns|
  {
    if |turns| > 0 {
      var t := turns[0];
      var c1 := c.(input := t.typed);
      var next := SendMessage(c1, None, assessment, t.guidance, t.videos).0;
      SendKeepsSettled(c1, None, assessment, t.guidance, t.videos);
      ConverseAppendOnly(next, turns[1..], assessment);
      var r := Converse(next, turns[1..], assessment);
      assert r.messages[..|next.messages|][..|c.messages|] == r.messages[..|c.messages|];
    }
  }
}
