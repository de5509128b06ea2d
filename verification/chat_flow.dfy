/** The server side of the chat: the input schema of the chat-response flow
    (message senders, the default tone) and the history window the flow keeps
    before it calls the language model. */
module ChatFlow {

  import opened Wrappers
  import opened Seqs

  /** `z.enum(['user', 'ai'])`. */
  datatype Sender = User | Ai

  function SenderName(s: Sender): string {
    match s
      case User => "user"
      case Ai => "ai"
  }

  /** The enum check: exactly the two names are accepted. */
  function ParseSender(name: string): (r: Option<Sender>)
    ensures r.Some? ==> SenderName(r.value) == name
    ensures r.None? ==> name != SenderName(User) && name != SenderName(Ai)
  {
    if name == "user" then Some(User)
    else if name == "ai" then Some(Ai)
    else None
  }

  lemma ParseSenderName(s: Sender)
    ensures ParseSender(SenderName(s)) == Some(s)
  {
  }

  /** `ChatMessageSchema`. */
  datatype ChatMessage = ChatMessage(sender: Sender, text: string)

  /** A message as it arrives, before the schema has checked its sender. */
  datatype RawMessage = RawMessage(sender: string, text: string)

  /** The tone the schema fills in when the caller gives none. */
  const DefaultTone: string := "friendly"

  /** The flow's input after validation: `aiTone` always has a value. */
  datatype ChatInput = ChatInput(
    userInput: string,
    chatHistory: Option<seq<ChatMessage>>,
    aiTone: string,
    userLanguage: Option<string>)

  /** The flow's input as the caller sends it. */
  datatype RawInput = RawInput(
    userInput: string,
    chatHistory: Option<seq<RawMessage>>,
    aiTone: Option<string>,
    userLanguage: Option<string>)

  /** The model's answer: a reply and, optionally, a route to suggest. */
  datatype ChatOutput = ChatOutput(responseText: string, suggestedNavigation: Option<string>)

  /** Checks every sender of a history; fails on the first unknown one. */
  function ParseHistory(raw: seq<RawMessage>): (r: Option<seq<ChatMessage>>)
    ensures r.Some? <==> forall i :: 0 <= i < |raw| ==> ParseSender(raw[i].sender).Some?
    ensures r.Some? ==> |r.value| == |raw|
    ensures r.Some? ==> forall i :: 0 <= i < |r.value| ==>
      SenderName(r.value[i].sender) == raw[i].sender && r.value[i].text == raw[i].text
    decreases |raw|
  {
    if raw == [] then Some([])
    else
      match ParseSender(raw[0].sender)
        case None => None
        case Some(s) =>
          match ParseHistory(raw[1..])
            case None => None
            case Some(rest) => Some([ChatMessage(s, raw[0].text)] + rest)
  }

  /** Schema validation of the flow input: unknown senders are rejected and a
      missing tone becomes `friendly`. */
  function ParseInput(raw: RawInput): (r: Result<ChatInput>)
    ensures r.Success? <==>
      (raw.chatHistory.Some? ==> ParseHistory(raw.chatHistory.value).Some?)
    ensures r.Success? ==>
      r.value.userInput == raw.userInput
      && r.value.userLanguage == raw.userLanguage
      && r.value.chatHistory.Some? == raw.chatHistory.Some?
      && r.value.aiTone == (if raw.aiTone.Some? then raw.aiTone.value else DefaultTone)
    ensures r.Success? && raw.chatHistory.Some? ==>
      r.value.chatHistory == ParseHistory(raw.chatHistory.value)
  {
    var history :=
      match raw.chatHistory
        case None => Success(None)
        case Some(h) =>
          match ParseHistory(h)
            case None => Failure("chatHistory: invalid sender")
            case Some(ms) => Success(Some(ms));
    match history
      case Failure(e) => Failure(e)
      case Success(h) => Success(ChatInput(raw.userInput, h, raw.aiTone.GetOr(DefaultTone), raw.userLanguage))
  }

  function ToRawMessage(m: ChatMessage): RawMessage {
    RawMessage(SenderName(m.sender), m.text)
  }

  /** What a caller sends for a validated input (the tone written out). */
  function ToRaw(x: ChatInput): RawInput {
    RawInput(
      x.userInput,
      match x.chatHistory
        case None => None
        case Some(h) => Some(MapSeq(h, ToRawMessage)),
      Some(x.aiTone),
      x.userLanguage)
  }

  lemma {:induction false} ParseHistoryRoundTrip(h: seq<ChatMessage>)
    ensures ParseHistory(MapSeq(h, ToRawMessage)) == Some(h)
    decreases |h|
  {
    if h != [] {
      ParseSenderName(h[0].sender);
      assert MapSeq(h, ToRawMessage)[1..] == MapSeq(h[1..], ToRawMessage);
      ParseHistoryRoundTrip(h[1..]);
      assert [h[0]] + h[1..] == h;
    }
  }

  /** Validation accepts every well-formed input unchanged. */
  lemma ParseInputRoundTrip(x: ChatInput)
    ensures ParseInput(ToRaw(x)) == Success(x)
  {
    if x.chatHistory.Some? {
      ParseHistoryRoundTrip(x.chatHistory.value);
    }
  }

  /** A caller that leaves the tone out gets `friendly`. */
  lemma DefaultToneApplied(raw: RawInput)
    requires raw.aiTone.None? && raw.chatHistory.None?
    ensures ParseInput(raw).Success? && ParseInput(raw).value.aiTone == "friendly"
  {
  }

  /** `maxHistoryLength`: turns kept, each a user and an AI message. */
  const MaxHistoryLength: nat := 5

  /** `recentHistory`: the last ten messages of the history, or none when the
      history is missing. */
  function RecentHistory(history: Option<seq<ChatMessage>>): (r: seq<ChatMessage>)
    ensures history.None? ==> r == []
    ensures history.Some? ==>
      |r| == Min(MaxHistoryLength * 2, |history.value|)
      && r == history.value[|history.value| - |r|..]
  {
    match history
      case None => []
      case Some(h) => Last(h, MaxHistoryLength * 2)
  }

  /** What the flow hands to the prompt: the input with its history cut to the
      newest ten messages, in their original order; a missing history is sent
      as an empty one. */
  function PromptInput(input: ChatInput): (r: ChatInput)
    ensures r.userInput == input.userInput
    ensures r.aiTone == input.aiTone
    ensures r.userLanguage == input.userLanguage
    ensures r.chatHistory.Some? && |r.chatHistory.value| <= 10
    ensures input.chatHistory.None? ==> r.chatHistory == Some([])
    ensures input.chatHistory.Some? ==>
      var h := input.chatHistory.value;
      |r.chatHistory.value| == Min(MaxHistoryLength * 2, |h|)
      && r.chatHistory.value == h[|h| - |r.chatHistory.value|..]
  {
    input.(chatHistory := Some(RecentHistory(input.chatHistory)))
  }

  /** A history of at most ten messages reaches the prompt as it is. */
  lemma ShortHistoryKept(input: ChatInput)
    requires input.chatHistory.Some? && |input.chatHistory.value| <= 10
    ensures PromptInput(input) == input
  {
  }

  /** Cutting twice is cutting once. */
  lemma PromptInputIdempotent(input: ChatInput)
    ensures PromptInput(PromptInput(input)) == PromptInput(input)
  {
  }

  /** Twelve messages lose the two oldest. */
  lemma TwelveMessages(h: seq<ChatMessage>)
    requires |h| == 12
    ensures RecentHistory(Some(h)) == h[2..]
  {
  }
}
