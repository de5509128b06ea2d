/** The chat page: the transcript, the tone picked up from the saved settings,
    sending a message (with the window of earlier messages it carries), the
    reply or fallback that follows, and the label of a suggested-route button. */
module ChatPage {

  import opened Wrappers
  import opened Seqs
  import opened Text
  import opened ChatFlow
  import Settings

  /** A transcript entry. `timestamp` is the clock reading in milliseconds. */
  datatype Message = Message(
    id: string,
    text: string,
    sender: Sender,
    timestamp: nat,
    suggestedNavigation: Option<string>)

  /** The page state: the transcript, the input box, the spinner and the tone. */
  datatype ChatState = ChatState(
    messages: seq<Message>,
    inputText: string,
    isLoading: bool,
    aiTone: string)

  /** The state on first render. */
  const Initial: ChatState := ChatState([], "", false, DefaultTone)

  const GreetingText: string :=
    "Hello! I'm NeuroNest, your AI companion. What's on your mind today, or is there something specific I can help you with in the app?"

  const FallbackText: string :=
    "I seem to be having a little trouble responding right now. Please try again in a moment."

  /** The mount effect. `storedTone` is the `aiTone` field of the saved
      settings, if any were saved: a non-empty one replaces the tone. The
      transcript becomes the greeting alone. */
  function Mount(st: ChatState, storedTone: Option<string>, now: nat): (r: ChatState)
    ensures r.aiTone == (if storedTone.Some? && storedTone.value != [] then storedTone.value else st.aiTone)
    ensures |r.messages| == 1 && r.messages[0].sender == Ai && r.messages[0].text == GreetingText
    ensures r.inputText == st.inputText && r.isLoading == st.isLoading
  {
    var tone := match storedTone
      case Some(t) => if t != [] then t else st.aiTone
      case None => st.aiTone;
    st.(aiTone := tone,
        messages := [Message(NatToString(now), GreetingText, Ai, now, None)])
  }

  /** Messages of the transcript sent along with a new one. */
  const HistoryWindow: nat := 5

  function ToChatMessage(m: Message): ChatMessage {
    ChatMessage(m.sender, m.text)
  }

  /** Messages reduced to sender and text, in order. */
  function ToChatMessages(ms: seq<Message>): (r: seq<ChatMessage>)
    ensures |r| == |ms|
    ensures forall i :: 0 <= i < |ms| ==> r[i] == ToChatMessage(ms[i])
    decreases |ms|
  {
    if ms == [] then [] else [ToChatMessage(ms[0])] + ToChatMessages(ms[1..])
  }

  /** `chatHistoryForFlow`: the last five messages, reduced to sender and text. */
  function HistoryForFlow(messages: seq<Message>): (r: seq<ChatMessage>)
    ensures |r| == Min(HistoryWindow, |messages|)
    ensures forall i :: 0 <= i < |r| ==> r[i] == ToChatMessage(messages[|messages| - |r| + i])
  {
    var k := |messages| - Min(HistoryWindow, |messages|);
    var window := messages[k..];
    assert forall i :: 0 <= i < |window| ==> window[i] == messages[k + i];
    ToChatMessages(window)
  }

  /** The result of pressing send: the new state and the request made of the
      flow, if any. */
  datatype SendOutcome = SendOutcome(state: ChatState, request: Option<ChatInput>)

  /** The synchronous part of `handleSendMessage`. Blank input does nothing.
      Otherwise the user's message goes at the end of the transcript, the box
      is cleared, the spinner starts, and the flow is asked with the text, the
      window of messages from before this send, and the tone. */
  function Send(st: ChatState, now: nat): (r: SendOutcome)
    ensures IsBlank(st.inputText) ==> r.state == st && r.request.None?
    ensures !IsBlank(st.inputText) ==>
      r.state.messages == st.messages + [Message(NatToString(now), st.inputText, User, now, None)]
      && r.state.inputText == [] && r.state.isLoading && r.state.aiTone == st.aiTone
      && r.request == Some(ChatInput(st.inputText, Some(HistoryForFlow(st.messages)), st.aiTone, None))
  {
    if IsBlank(st.inputText) then SendOutcome(st, None)
    else
      var userMessage := Message(NatToString(now), st.inputText, User, now, None);
      var request := ChatInput(st.inputText, Some(HistoryForFlow(st.messages)), st.aiTone, None);
      SendOutcome(st.(messages := st.messages + [userMessage], inputText := [], isLoading := true),
                  Some(request))
  }

  /** The asynchronous part: the flow's answer, or the fixed apology when the
      call failed, goes at the end of the transcript and the spinner stops. The
      reply's id is one millisecond after the clock reading `now`. */
  function Receive(st: ChatState, reply: Result<ChatOutput>, now: nat): (r: ChatState)
    ensures |r.messages| == |st.messages| + 1 && r.messages[..|st.messages|] == st.messages
    ensures r.messages[|st.messages|].sender == Ai
    ensures r.messages[|st.messages|].text == (if reply.Success? then reply.value.responseText else FallbackText)
    ensures r.messages[|st.messages|].suggestedNavigation ==
      (if reply.Success? then reply.value.suggestedNavigation else None)
    ensures !r.isLoading && r.inputText == st.inputText && r.aiTone == st.aiTone
  {
    var message := match reply
      case Success(out) => Message(NatToString(now + 1), out.responseText, Ai, now, out.suggestedNavigation)
      case Failure(_) => Message(NatToString(now + 1), FallbackText, Ai, now, None);
    st.(messages := st.messages + [message], isLoading := false)
  }

  /** A whole exchange adds exactly two messages, the user's and then one from
      the AI, and keeps everything that was there. */
  lemma ExchangeAddsTwo(st: ChatState, reply: Result<ChatOutput>, sentAt: nat, repliedAt: nat)
    requires !IsBlank(st.inputText)
    ensures var r := Receive(Send(st, sentAt).state, reply, repliedAt);
      |r.messages| == |st.messages| + 2
      && r.messages[..|st.messages|] == st.messages
      && r.messages[|st.messages|].sender == User
      && r.messages[|st.messages|].text == st.inputText
      && r.messages[|st.messages| + 1].sender == Ai
      && !r.isLoading && r.inputText == []
  {
    var s1 := Send(st, sentAt).state;
    assert s1.messages[..|st.messages|] == st.messages;
    var r := Receive(s1, reply, repliedAt);
    assert r.messages[..|s1.messages|] == s1.messages;
    assert r.messages[..|st.messages|] == s1.messages[..|st.messages|];
  }

  /** The window the page sends is never cut further by the flow: the prompt
      sees exactly the messages the page chose. */
  lemma PageWindowReachesPrompt(st: ChatState, now: nat)
    requires !IsBlank(st.inputText)
    ensures var req := Send(st, now).request.value;
      PromptInput(req) == req
      && PromptInput(req).chatHistory.value == HistoryForFlow(st.messages)
  {
  }

  /** The request the page builds passes the flow's schema unchanged. */
  lemma RequestIsValid(st: ChatState, now: nat)
    requires !IsBlank(st.inputText)
    ensures ParseInput(ToRaw(Send(st, now).request.value)) == Success(Send(st, now).request.value)
  {
    ParseInputRoundTrip(Send(st, now).request.value);
  }

  /** The tone saved on the settings page is the tone the chat uses. */
  lemma SavedToneReachesChat(store: Settings.Storage, s: Settings.Preferences, st: ChatState, now: nat)
    ensures Mount(st, Settings.StoredTone(Settings.Save(store, s)), now).aiTone == Settings.ToneName(s.aiTone)
  {
    Settings.ToneNamesDistinct(s.aiTone, s.aiTone);
  }

  /** With nothing saved the chat starts `friendly`. */
  lemma DefaultChatTone(now: nat)
    ensures Mount(Initial, None, now).aiTone == "friendly"
  {
  }

  // ----- the suggested-route button -----------------------------------------------

  const WellnessPrefix: string := "/wellness/"

  /** The button text after "Go to": under `/wellness/` the third `/`-segment of
      the path; otherwise the path without its first character, or `page` when
      that leaves nothing. */
  function NavLabel(path: string): (r: string)
    ensures StartsWith(path, WellnessPrefix) ==> '/' !in r
  {
    if StartsWith(path, WellnessPrefix) then
      WellnessSplit(path[|WellnessPrefix|..]);
      assert path == WellnessPrefix + path[|WellnessPrefix|..];
      SplitPartsFree(path, '/');
      Split(path, '/')[2]
    else if |path| > 1 then path[1..]
    else "page"
  }

  /** A path under `/wellness/` splits into an empty segment, `wellness`, and
      the segments of the rest. */
  lemma WellnessSplit(rest: string)
    ensures Split(WellnessPrefix + rest, '/') == [[], "wellness"] + Split(rest, '/')
  {
    var path := WellnessPrefix + rest;
    assert path == [] + ['/'] + ("wellness" + ['/'] + rest);
    SplitAfter([], '/', "wellness" + ['/'] + rest);
    SplitAfter("wellness", '/', rest);
  }

  /** Under `/wellness/` the label is the segment up to the next slash. */
  lemma NavLabelWellness(rest: string)
    ensures NavLabel(WellnessPrefix + rest) == TakeUntil(rest, '/')
  {
    var path := WellnessPrefix + rest;
    assert StartsWith(path, WellnessPrefix);
    assert path[|WellnessPrefix|..] == rest;
    WellnessSplit(rest);
    SplitHead(rest, '/');
  }

  /** Any other path loses its leading character, and the bare root (or an
      empty path) reads `page`. */
  lemma NavLabelOther(path: string)
    requires !StartsWith(path, WellnessPrefix)
    ensures |path| > 1 ==> NavLabel(path) == path[1..]
    ensures |path| <= 1 ==> NavLabel(path) == "page"
  {
  }

  /** A route one level under `/wellness/` is labelled with its last segment. */
  lemma NavLabelWellnessPage(page: string)
    requires '/' !in page
    ensures NavLabel(WellnessPrefix + page) == page
  {
    NavLabelWellness(page);
  }

  /** Top-level routes drop their slash, the root reads `page`, and the
      wellness pages read their own names. */
  lemma NavLabelExamples()
    ensures NavLabel("/journal") == "journal"
    ensures NavLabel("/") == "page"
    ensures NavLabel("/wellness") == "wellness"
    ensures NavLabel("/wellness/meditations") == "meditations"
  {
    assert |"/journal"| < |WellnessPrefix| && |"/wellness"| < |WellnessPrefix|;
    NavLabelWellnessPage("meditations");
    assert WellnessPrefix + "meditations" == "/wellness/meditations";
  }

  /** A message shows the button when it is from the AI and carries a non-empty
      route. */
  predicate ShowsNavButton(m: Message) {
    m.sender == Ai && m.suggestedNavigation.Some? && m.suggestedNavigation.value != []
  }

  /** After a reply, the new message shows the button exactly when the model
      answered with a non-empty route; the fallback never shows it, and the
      user's own messages never do. */
  lemma ReplyShowsNavButton(st: ChatState, reply: Result<ChatOutput>, now: nat, sentAt: nat)
    ensures var m := Receive(st, reply, now).messages[|st.messages|];
      ShowsNavButton(m) <==>
        reply.Success? && reply.value.suggestedNavigation.Some? && reply.value.suggestedNavigation.value != []
    ensures !IsBlank(st.inputText) ==> !ShowsNavButton(Send(st, sentAt).state.messages[|st.messages|])
  {
  }
}
