/**
 * The assistant chat: canned replies looked up by the first key, in table
 * order, that occurs in the lower-cased question; a message list that only
 * grows; and a typing flag. A reply arrives in a second step, after the
 * question was sent; replies still on their way are kept in a queue in the
 * order they were asked, since each is a timer of the same length.
 */
module Chat {
  import opened Wrappers
  import opened Formatting
  import opened Buckets

  datatype Sender = User | Bot

  /** A message: the text the user typed, or one of the bot's fixed texts. */
  datatype Message = UserMessage(text: string) | BotMessage(said: BotText)
  {
    function From(): Sender {
      if UserMessage? then User else Bot
    }

    /** The text shown in the bubble. */
    function Text(): string {
      match this
      case UserMessage(t) => t
      case BotMessage(b) => Wording(b)
    }
  }

  const Greeting := BotMessage(Welcome)

  const SuggestedQuestions: seq<string> := [
    "What was my last visit about?",
    "What medications am I currently on?",
    "When is my next appointment?",
    "Show me my recent lab results",
    "What did Dr. Johnson say last time?"
  ]

  /**
   * The bot's fixed texts: the greeting, one answer per entry of
   * `mockResponses`, and the fallback. Their wording is kept apart in `Wording`.
   */
  datatype BotText = Welcome | LastVisit | Medications | NextAppointment | LabResults | DrJohnson | Fallback

  function Wording(a: BotText): string {
    match a
    case Welcome => "Hello! I'm your medical assistant. I can help you find information about your health records, medications, and appointments. What would you like to know?"
    case LastVisit => "Your last visit was on December 15th with Dr. Sarah Johnson for blood test results. Your complete blood count and lipid panel came back within normal ranges."
    case Medications => "Based on your recent prescription from Dr. Michael Chen, you're currently prescribed Amoxicillin 500mg, to be taken twice daily for 7 days."
    case NextAppointment => "I don't see any upcoming appointments scheduled. Would you like me to help you find available times with your doctors?"
    case LabResults => "Your most recent lab results from December 15th show: Complete Blood Count - Normal, Lipid Panel - Total cholesterol 185 mg/dL (Normal), HDL 55 mg/dL (Good)."
    case DrJohnson => "In your last visit with Dr. Sarah Johnson on December 15th, she reviewed your blood test results and mentioned that your overall health markers look good. She recommended continuing your current lifestyle habits."
    case Fallback => "I understand you're asking about your medical information. In the full version, I'll be able to search through all your documents to provide specific answers. For now, try asking about your last visit, medications, appointments, or lab results."
  }

  /** A canned answer and the key that selects it. */
  datatype Canned = Canned(key: string, answer: BotText)

  /** `mockResponses`, in declaration order, the order `Object.entries` walks it. */
  const MockResponses: seq<Canned> := [
    Canned("what was my last visit", LastVisit),
    Canned("medications", Medications),
    Canned("next appointment", NextAppointment),
    Canned("lab results", LabResults),
    Canned("dr johnson", DrJohnson)
  ]

  // ---------------------------------------------------------------- replies

  /** The answer of the first entry of `table` whose key occurs in `lower`. */
  function FirstMatch(table: seq<Canned>, lower: string): Option<BotText> {
    if table == [] then None
    else if Contains(lower, table[0].key) then Some(table[0].answer)
    else FirstMatch(table[1..], lower)
  }

  /** The answer to a question: the first matching canned answer, or the fallback. */
  function Response(question: string): BotText {
    match FirstMatch(MockResponses, Lower(question))
    case Some(a) => a
    case None => Fallback
  }

  /** `generateResponse`: the loop over the table with its early return. The text sent is `Wording(r)`. */
  method GenerateResponse(userMessage: string) returns (r: BotText)
    ensures r == Response(userMessage)
  {
    var lowerMessage := Lower(userMessage);
    var k := 0;
    while k < |MockResponses|
      invariant 0 <= k <= |MockResponses|
      invariant FirstMatch(MockResponses[k..], lowerMessage) == FirstMatch(MockResponses, lowerMessage)
    {
      if Contains(lowerMessage, MockResponses[k].key) {
        return MockResponses[k].answer;
      }
      assert MockResponses[k..][1..] == MockResponses[k + 1..];
      k := k + 1;
    }
    return Fallback;
  }

  /**
   * First-match lookup: the result is the answer of entry `k` exactly when its key
   * occurs and no earlier key does, and nothing when no key occurs.
   */
  lemma {:induction false} FirstMatchMeaning(table: seq<Canned>, lower: string)
    ensures FirstMatch(table, lower) == None <==> forall k :: 0 <= k < |table| ==> !Contains(lower, table[k].key)
    ensures forall k :: 0 <= k < |table| && Contains(lower, table[k].key)
              && (forall j :: 0 <= j < k ==> !Contains(lower, table[j].key))
              ==> FirstMatch(table, lower) == Some(table[k].answer)
  {
    if table != [] {
      FirstMatchMeaning(table[1..], lower);
      forall k | 0 < k < |table| && Contains(lower, table[k].key)
          && (forall j :: 0 <= j < k ==> !Contains(lower, table[j].key))
        ensures FirstMatch(table, lower) == Some(table[k].answer)
      {
        assert !Contains(lower, table[0].key);
        assert table[1..][k - 1] == table[k];
        forall j | 0 <= j < k - 1
          ensures !Contains(lower, table[1..][j].key)
        {
          assert table[1..][j] == table[j + 1];
        }
      }
    }
  }

  /** A question none of whose keys occur gets the fallback. */
  lemma NoKeyFallback(question: string)
    requires forall k :: 0 <= k < |MockResponses| ==> !Contains(Lower(question), MockResponses[k].key)
    ensures Response(question) == Fallback
  {
    FirstMatchMeaning(MockResponses, Lower(question));
  }

  /** The key of entry `k` occurring in a question, and no earlier key, selects entry `k`. */
  lemma MatchAt(question: string, k: nat)
    requires k < |MockResponses| && Contains(Lower(question), MockResponses[k].key)
    requires forall j :: 0 <= j < k ==> !Contains(Lower(question), MockResponses[j].key)
    ensures Response(question) == MockResponses[k].answer
  {
    FirstMatchMeaning(MockResponses, Lower(question));
  }

  /**
   * The fifth suggestion asks about "dr. johnson", with a full stop, so the key
   * "dr johnson" does not occur in it and it gets the fallback.
   */
  lemma DrJohnsonSuggestionFallsBack()
    ensures Response(SuggestedQuestions[4]) == Fallback
  {
    var q := SuggestedQuestions[4];
    FifthLacks(q, 'v');
    FifthLacks(q, 'c');
    FifthLacks(q, 'x');
    FifthLacks(q, 'b');
    FifthNoDrSpace(q);
    NoKeyIn(q);
  }

  /** A question lacking a letter of each of the first four keys, and "dr" followed by a space, gets the fallback. */
  lemma NoKeyIn(q: string)
    requires 'v' !in Lower(q) && 'c' !in Lower(q) && 'x' !in Lower(q) && 'b' !in Lower(q)
    requires forall i :: 0 <= i <= |Lower(q)| - |"dr johnson"| ==> !Window(Lower(q), "dr johnson", i, 0, 1, 2)
    ensures Response(q) == Fallback
  {
    KeyAbsent(Lower(q), "dr johnson", 0, 1, 2);
    CharAbsent(Lower(q), "what was my last visit", 17);
    CharAbsent(Lower(q), "medications", 4);
    CharAbsent(Lower(q), "next appointment", 2);
    CharAbsent(Lower(q), "lab results", 2);
    NoKeyFallback(q);
  }

  lemma FifthLacks(q: string, c: char)
    requires q == "What did Dr. Johnson say last time?"
    requires c == 'v' || c == 'c' || c == 'x' || c == 'b'
    ensures c !in Lower(q)
  {
  }

  /** "dr" is followed by a full stop, never by a space. */
  lemma FifthNoDrSpace(q: string)
    requires q == "What did Dr. Johnson say last time?"
    ensures forall i :: 0 <= i <= |Lower(q)| - |"dr johnson"| ==> !Window(Lower(q), "dr johnson", i, 0, 1, 2)
  {
  }

  /** The three suggestions shown get the answers of the first three keys. */
  lemma ShownSuggestionsAnswered()
    ensures Response(SuggestedQuestions[0]) == LastVisit
    ensures Response(SuggestedQuestions[1]) == Medications
    ensures Response(SuggestedQuestions[2]) == NextAppointment
  {
    var q0, q1, q2 := SuggestedQuestions[0], SuggestedQuestions[1], SuggestedQuestions[2];
    FirstKey(q0);
    AnsweredFirst(q0);
    SecondLetters(q1);
    SecondKey(q1);
    AnsweredSecond(q1);
    ThirdLetters(q2);
    ThirdKey(q2);
    AnsweredThird(q2);
  }

  lemma FirstKey(q: string)
    requires q == "What was my last visit about?"
    ensures OccursAt(Lower(q), "what was my last visit", 0)
  {
    OccursByChars(Lower(q), "what was my last visit", 0);
  }

  lemma AnsweredFirst(q: string)
    requires OccursAt(Lower(q), "what was my last visit", 0)
    ensures Response(q) == LastVisit
  {
    OccursContains(Lower(q), "what was my last visit", 0);
    MatchAt(q, 0);
  }

  lemma SecondLetters(q: string)
    requires q == "What medications am I currently on?"
    ensures 'v' !in Lower(q)
  {
  }

  lemma SecondKey(q: string)
    requires q == "What medications am I currently on?"
    ensures OccursAt(Lower(q), "medications", 5)
  {
    OccursByChars(Lower(q), "medications", 5);
  }

  lemma AnsweredSecond(q: string)
    requires 'v' !in Lower(q)
    requires OccursAt(Lower(q), "medications", 5)
    ensures Response(q) == Medications
  {
    CharAbsent(Lower(q), "what was my last visit", 17);
    OccursContains(Lower(q), "medications", 5);
    MatchAt(q, 1);
  }

  lemma ThirdLetters(q: string)
    requires q == "When is my next appointment?"
    ensures 'v' !in Lower(q) && 'c' !in Lower(q)
  {
  }

  lemma ThirdKey(q: string)
    requires q == "When is my next appointment?"
    ensures OccursAt(Lower(q), "next appointment", 11)
  {
    OccursByChars(Lower(q), "next appointment", 11);
  }

  lemma AnsweredThird(q: string)
    requires 'v' !in Lower(q) && 'c' !in Lower(q)
    requires OccursAt(Lower(q), "next appointment", 11)
    ensures Response(q) == NextAppointment
  {
    CharAbsent(Lower(q), "what was my last visit", 17);
    CharAbsent(Lower(q), "medications", 4);
    OccursContains(Lower(q), "next appointment", 11);
    MatchAt(q, 2);
  }

  // ---------------------------------------------------------------- the conversation

  /**
   * The characters `trim` removes: the white space of section 12.2 of ECMA-262
   * (tab, vertical tab, form feed, the byte order mark and the space separators
   * of Unicode category Zs) and its line terminators of section 12.3.
   */
  predicate IsSpace(c: char) {
    || c == '\t' || c == '\U{B}' || c == '\U{C}' || c == '\U{FEFF}'
    || c == ' ' || c == '\U{A0}' || c == '\U{1680}' || '\U{2000}' <= c <= '\U{200A}'
    || c == '\U{202F}' || c == '\U{205F}' || c == '\U{3000}'
    || c == '\n' || c == '\r' || c == '\U{2028}' || c == '\U{2029}'
  }

  /** `!text.trim()`: the text is empty or only whitespace. */
  predicate IsBlank(text: string) {
    forall i :: 0 <= i < |text| ==> IsSpace(text[i])
  }

  /** The chat's state: the messages, the input box, the typing flag and the questions awaiting a reply. */
  datatype ChatState = ChatState(messages: seq<Message>, input: string, typing: bool, pending: seq<string>)

  const Initial := ChatState([Greeting], "", false, [])

  /** `handleSendMessage`: blank input is ignored; otherwise the question is added and awaits its reply. */
  function AfterSend(s: ChatState): ChatState {
    if IsBlank(s.input) then s
    else ChatState(s.messages + [UserMessage(s.input)], "", true, s.pending + [s.input])
  }

  /** The delayed step: the oldest waiting question gets its reply, and typing stops. */
  function AfterReply(s: ChatState): ChatState
    requires s.pending != []
  {
    ChatState(s.messages + [BotMessage(Response(s.pending[0]))], s.input, false, s.pending[1..])
  }

  /** `handleKeyPress`: Enter without Shift sends. */
  function AfterKey(s: ChatState, enter: bool, shift: bool): ChatState {
    if enter && !shift then AfterSend(s) else s
  }

  /** The suggestions offered: the first three, while the greeting is the only message. */
  function Suggestions(s: ChatState): seq<string> {
    if |s.messages| == 1 then SuggestedQuestions[..3] else []
  }

  /** The send button's `disabled`. */
  predicate SendDisabled(s: ChatState) {
    IsBlank(s.input) || s.typing
  }

  /** An ideographic space, or a line separator and an em space, are blank to `trim`: sending them changes nothing and the button stays off. */
  lemma WideSpacesIgnored(s: ChatState)
    requires s.input == "\U{3000}" || s.input == "\U{2028}\U{2003}"
    ensures AfterSend(s) == s && SendDisabled(s)
  {
  }

  function SenderFn(): Message -> Sender {
    (m: Message) => m.From()
  }

  function CountOf(messages: seq<Message>, sender: Sender): nat {
    |Members(messages, SenderFn(), sender)|
  }

  /**
   * The conversation opens with the greeting; the typing flag is only up while
   * a reply is on its way; and every question is answered or waiting, so the
   * user's messages plus the greeting equal the bot's plus those waiting.
   */
  predicate Consistent(s: ChatState) {
    && |s.messages| >= 1 && s.messages[0] == Greeting
    && (s.typing ==> s.pending != [])
    && CountOf(s.messages, User) + 1 == CountOf(s.messages, Bot) + |s.pending|
  }

  lemma InitialConsistent()
    ensures Consistent(Initial)
  {
    assert Initial.messages == [] + [Greeting];
    MembersSnoc([], Greeting, SenderFn(), User);
    MembersSnoc([], Greeting, SenderFn(), Bot);
  }

  /** Sending keeps the state consistent; blank input changes nothing at all. */
  lemma SendConsistent(s: ChatState)
    requires Consistent(s)
    ensures Consistent(AfterSend(s))
    ensures AfterSend(s) == s <==> IsBlank(s.input)
  {
    if !IsBlank(s.input) {
      MembersSnoc(s.messages, UserMessage(s.input), SenderFn(), User);
      MembersSnoc(s.messages, UserMessage(s.input), SenderFn(), Bot);
      assert |AfterSend(s).messages| > |s.messages|;
    }
  }

  lemma ReplyConsistent(s: ChatState)
    requires Consistent(s) && s.pending != []
    ensures Consistent(AfterReply(s))
  {
    var m := BotMessage(Response(s.pending[0]));
    MembersSnoc(s.messages, m, SenderFn(), User);
    MembersSnoc(s.messages, m, SenderFn(), Bot);
  }

  /**
   * A question sent when nothing is waiting, and its reply, add exactly the
   * question and the reply to the list, and leave the input empty and the
   * typing flag down.
   */
  lemma Exchange(s: ChatState)
    requires s.pending == [] && !IsBlank(s.input)
    ensures var t := AfterReply(AfterSend(s));
      && t.messages == s.messages + [UserMessage(s.input), BotMessage(Response(s.input))]
      && t.input == "" && !t.typing && t.pending == []
  {
  }

  /** Once a question has been sent the suggestions are gone, and they never come back. */
  lemma SuggestionsOnlyAtStart(s: ChatState)
    requires Consistent(s)
    ensures Suggestions(Initial) == SuggestedQuestions[..3]
    ensures !IsBlank(s.input) ==> Suggestions(AfterSend(s)) == []
    ensures s.pending != [] ==> Suggestions(AfterReply(s)) == []
  {
  }

  /** Outside a reply, the send button is enabled exactly when sending would add a message. */
  lemma SendEnabledIffSendAdds(s: ChatState)
    requires !s.typing
    ensures !SendDisabled(s) <==> |AfterSend(s).messages| == |s.messages| + 1
  {
  }

  // ---------------------------------------------------------------- the component

  class ChatWindow {
    var messages: seq<Message>
    var inputValue: string
    var isTyping: bool
    var pending: seq<string>

    function State(): ChatState
      reads this
    {
      ChatState(messages, inputValue, isTyping, pending)
    }

    constructor ()
      ensures State() == Initial
    {
      messages := [Greeting];
      inputValue := "";
      isTyping := false;
      pending := [];
    }

    /** The input box's `onChange`. */
    method SetInput(text: string)
      modifies this
      ensures State() == old(State()).(input := text)
    {
      inputValue := text;
    }

    /** `handleSuggestedQuestion`: the question is put in the input box, not sent. */
    method SuggestedQuestion(question: string)
      modifies this
      ensures State() == old(State()).(input := question)
    {
      inputValue := question;
    }

    method SendMessage()
      modifies this
      ensures State() == AfterSend(old(State()))
    {
      if IsBlank(inputValue) {
        return;
      }
      messages := messages + [UserMessage(inputValue)];
      pending := pending + [inputValue];
      inputValue := "";
      isTyping := true;
    }

    /** The timer of the oldest waiting question fires. */
    method DeliverReply()
      requires pending != []
      modifies this
      ensures State() == AfterReply(old(State()))
    {
      var reply := GenerateResponse(pending[0]);
      messages := messages + [BotMessage(reply)];
      pending := pending[1..];
      isTyping := false;
    }

    method KeyPress(enter: bool, shift: bool)
      modifies this
      ensures State() == AfterKey(old(State()), enter, shift)
    {
      if enter && !shift {
        SendMessage();
      }
    }
  }
}
