/** The conversation controller of the chat page (`App`): the message list,
    the loading flag, and what one submission does to them. Each `setMessages`
    updater is a pure function on the list; `handleSendMessage` is the
    sequence of those updates, split at the `await` into the part that runs
    before the bot call and the part that runs after it. */
module ChatApp {
  import opened Results
  import opened Types
  import Text
  import BotService

  /** The reserved id of the one typing-indicator message. */
  const TypingIndicatorId := "typing-indicator-message"
  const TypingText := "Bot is typing..."
  const SessionMissingText := "Error: Session ID is missing. Please refresh the page."
  const WelcomeText := "Hello! I'm your AI assistant. How can I help you today?"

  // ---------------------------------------------------------------------------
  // Messages
  // ---------------------------------------------------------------------------

  /** The ids `createMessage` produces: the clock and a random fraction
      written in base 36, so lower-case letters and digits only. */
  predicate IsGeneratedId(id: string) {
    |id| > 0 && forall i :: 0 <= i < |id| ==> ('0' <= id[i] <= '9' || 'a' <= id[i] <= 'z')
  }

  /** A generated id never collides with the typing indicator's. */
  lemma GeneratedIdIsNotSentinel(id: string)
    requires IsGeneratedId(id)
    ensures id != TypingIndicatorId
  {
    assert TypingIndicatorId[6] == '-';
  }

  /** What `createMessage` draws from its environment: a fresh id and the
      current time. */
  datatype Stamp = Stamp(id: string, time: nat)

  function CreateMessage(text: string, sender: MessageSender, st: Stamp): ChatMessage {
    ChatMessage(st.id, text, sender, st.time)
  }

  /** The typing-indicator message: a fresh message whose id is then
      replaced by the reserved one. */
  function TypingMessage(time: nat): ChatMessage {
    ChatMessage(TypingIndicatorId, TypingText, TypingIndicator, time)
  }

  predicate IsTyping(m: ChatMessage) {
    m.id == TypingIndicatorId
  }

  /** The number of messages carrying the reserved id. */
  function CountTyping(msgs: seq<ChatMessage>): nat {
    if msgs == [] then 0 else (if IsTyping(msgs[0]) then 1 else 0) + CountTyping(msgs[1..])
  }

  /** The invariant of the message list: at most one typing indicator. */
  predicate AtMostOneTyping(msgs: seq<ChatMessage>) {
    CountTyping(msgs) <= 1
  }

  // ---------------------------------------------------------------------------
  // List updates
  // ---------------------------------------------------------------------------

  /** `addMessageToList`: the new message goes at the end and the existing
      messages stay as they were. */
  function AddMessageToList(msgs: seq<ChatMessage>, m: ChatMessage): (r: seq<ChatMessage>)
    ensures |r| == |msgs| + 1
    ensures r[..|msgs|] == msgs && r[|msgs|] == m
  {
    msgs + [m]
  }

  /** `removeTypingIndicator`: every message with the reserved id is dropped
      and the others are kept. */
  function RemoveTypingIndicator(msgs: seq<ChatMessage>): (r: seq<ChatMessage>)
    ensures forall i :: 0 <= i < |r| ==> !IsTyping(r[i])
    ensures forall m :: m in r <==> m in msgs && !IsTyping(m)
    ensures |r| == |msgs| - CountTyping(msgs)
  {
    if msgs == [] then []
    else if IsTyping(msgs[0]) then RemoveTypingIndicator(msgs[1..])
    else [msgs[0]] + RemoveTypingIndicator(msgs[1..])
  }

  /** `showTypingIndicator`: any typing indicator is dropped and a fresh one
      appended. */
  function ShowTypingIndicator(msgs: seq<ChatMessage>, time: nat): (r: seq<ChatMessage>)
    ensures |r| > 0 && r[|r| - 1] == TypingMessage(time)
    ensures CountTyping(r) == 1
    ensures RemoveTypingIndicator(r) == RemoveTypingIndicator(msgs)
  {
    var r := RemoveTypingIndicator(msgs) + [TypingMessage(time)];
    CountAppend(RemoveTypingIndicator(msgs), [TypingMessage(time)]);
    NoTypingCount(RemoveTypingIndicator(msgs));
    RemoveAppend(RemoveTypingIndicator(msgs), [TypingMessage(time)]);
    RemoveIdempotent(msgs);
    r
  }

  // ---------------------------------------------------------------------------
  // Facts about the list updates
  // ---------------------------------------------------------------------------

  /** Counting distributes over concatenation. */
  lemma {:induction false} CountAppend(a: seq<ChatMessage>, b: seq<ChatMessage>)
    ensures CountTyping(a + b) == CountTyping(a) + CountTyping(b)
  {
    if a != [] {
      assert (a + b)[0] == a[0];
      assert (a + b)[1..] == a[1..] + b;
      CountAppend(a[1..], b);
    } else {
      assert a + b == b;
    }
  }

  /** A list without a typing indicator counts none. */
  lemma {:induction false} NoTypingCount(msgs: seq<ChatMessage>)
    requires forall i :: 0 <= i < |msgs| ==> !IsTyping(msgs[i])
    ensures CountTyping(msgs) == 0
  {
    if msgs != [] {
      NoTypingCount(msgs[1..]);
    }
  }

  /** Removal distributes over concatenation, so the kept messages stay in
      their original relative order. */
  lemma {:induction false} RemoveAppend(a: seq<ChatMessage>, b: seq<ChatMessage>)
    ensures RemoveTypingIndicator(a + b) == RemoveTypingIndicator(a) + RemoveTypingIndicator(b)
  {
    if a != [] {
      assert (a + b)[0] == a[0];
      assert (a + b)[1..] == a[1..] + b;
      RemoveAppend(a[1..], b);
      if !IsTyping(a[0]) {
        assert [a[0]] + (RemoveTypingIndicator(a[1..]) + RemoveTypingIndicator(b))
               == ([a[0]] + RemoveTypingIndicator(a[1..])) + RemoveTypingIndicator(b);
      }
    } else {
      assert a + b == b;
    }
  }

  /** A list without a typing indicator is left unchanged by removal. */
  lemma {:induction false} RemoveNoTyping(msgs: seq<ChatMessage>)
    requires CountTyping(msgs) == 0
    ensures RemoveTypingIndicator(msgs) == msgs
  {
    if msgs != [] {
      RemoveNoTyping(msgs[1..]);
    }
  }

  /** Removal is idempotent. */
  lemma RemoveIdempotent(msgs: seq<ChatMessage>)
    ensures RemoveTypingIndicator(RemoveTypingIndicator(msgs)) == RemoveTypingIndicator(msgs)
  {
    NoTypingCount(RemoveTypingIndicator(msgs));
    RemoveNoTyping(RemoveTypingIndicator(msgs));
  }

  /** Each list update keeps at most one typing indicator, provided the
      appended message has a generated id. */
  lemma UpdatesKeepInvariant(msgs: seq<ChatMessage>, m: ChatMessage, time: nat)
    requires AtMostOneTyping(msgs) && IsGeneratedId(m.id)
    ensures AtMostOneTyping(AddMessageToList(msgs, m))
    ensures AtMostOneTyping(ShowTypingIndicator(msgs, time))
    ensures CountTyping(RemoveTypingIndicator(msgs)) == 0
  {
    GeneratedIdIsNotSentinel(m.id);
    CountAppend(msgs, [m]);
    NoTypingCount(RemoveTypingIndicator(msgs));
  }

  // ---------------------------------------------------------------------------
  // Submitting a message
  // ---------------------------------------------------------------------------

  /** The controller's state: the messages in display order, and whether a
      reply is awaited (the input is disabled meanwhile). */
  datatype ChatState = ChatState(messages: seq<ChatMessage>, isLoading: bool)

  /** The state after mounting: the welcome message from the bot, under a
      generated id, so no typing indicator yet. */
  function InitialState(st: Stamp): (s: ChatState)
    requires IsGeneratedId(st.id)
    ensures !s.isLoading && |s.messages| == 1
    ensures s.messages[0].sender == Bot && s.messages[0].text == WelcomeText
    ensures CountTyping(s.messages) == 0 && AtMostOneTyping(s.messages)
  {
    GeneratedIdIsNotSentinel(st.id);
    ChatState([CreateMessage(WelcomeText, Bot, st)], false)
  }

  /** `!sessionId` is false: a session id is present and not empty. */
  predicate HasSession(sessionId: Option<string>) {
    sessionId.Some? && sessionId.value != ""
  }

  /** Where `handleSendMessage` stands once its synchronous part has run:
      it returned early, or it awaits the bot with the given session id. */
  datatype Submission = Refused(state: ChatState) | Awaiting(state: ChatState, sessionId: string)

  /** `handleSendMessage` up to the `await`. Without a session id it appends
      an error message and stops; otherwise it appends the user's message,
      raises the loading flag and shows the typing indicator. */
  function BeginSend(s: ChatState, sessionId: Option<string>, text: string, first: Stamp, typingTime: nat): (sub: Submission)
    requires IsGeneratedId(first.id)
    ensures sub.Refused? <==> !HasSession(sessionId)
    ensures sub.Refused? ==>
              && !sub.state.isLoading
              && |sub.state.messages| == |s.messages| + 1
              && sub.state.messages[..|s.messages|] == s.messages
              && sub.state.messages[|s.messages|].sender == Error
              && sub.state.messages[|s.messages|].text == SessionMissingText
    ensures sub.Awaiting? ==>
              && sub.state.isLoading
              && sub.sessionId == sessionId.value
              && CountTyping(sub.state.messages) == 1
              && |sub.state.messages| >= 2
              && sub.state.messages[|sub.state.messages| - 1] == TypingMessage(typingTime)
              && sub.state.messages[|sub.state.messages| - 2] == CreateMessage(text, User, first)
              && RemoveTypingIndicator(sub.state.messages)
                 == RemoveTypingIndicator(s.messages) + [CreateMessage(text, User, first)]
  {
    if !HasSession(sessionId) then
      Refused(ChatState(AddMessageToList(s.messages, CreateMessage(SessionMissingText, Error, first)), false))
    else
      var user := CreateMessage(text, User, first);
      var withUser := AddMessageToList(s.messages, user);
      var shown := ShowTypingIndicator(withUser, typingTime);
      GeneratedIdIsNotSentinel(first.id);
      RemoveAppend(s.messages, [user]);
      assert shown == RemoveTypingIndicator(withUser) + [TypingMessage(typingTime)];
      Awaiting(ChatState(shown, true), sessionId.value)
  }

  /** The message that reports how the bot call settled: the reply from
      the bot, or the error's message. */
  function OutcomeMessage(outcome: Result<string, string>, st: Stamp): ChatMessage {
    match outcome
    case Success(reply) => CreateMessage(reply, Bot, st)
    case Failure(message) => CreateMessage(message, Error, st)
  }

  /** `handleSendMessage` after the `await`: the typing indicator goes, the
      reply or the error message is appended, and the loading flag drops. */
  function CompleteSend(s: ChatState, outcome: Result<string, string>, st: Stamp): (s': ChatState)
    requires IsGeneratedId(st.id)
    ensures !s'.isLoading
    ensures CountTyping(s'.messages) == 0
    ensures |s'.messages| >= 1
    ensures s'.messages[..|s'.messages| - 1] == RemoveTypingIndicator(s.messages)
    ensures outcome.Success? ==> s'.messages[|s'.messages| - 1] == CreateMessage(outcome.value, Bot, st)
    ensures outcome.Failure? ==> s'.messages[|s'.messages| - 1] == CreateMessage(outcome.error, Error, st)
  {
    var kept := RemoveTypingIndicator(s.messages);
    var last := OutcomeMessage(outcome, st);
    GeneratedIdIsNotSentinel(st.id);
    NoTypingCount(kept);
    CountAppend(kept, [last]);
    ChatState(AddMessageToList(kept, last), false)
  }

  /** `handleSendMessage` as a whole, given the session id and what the bot
      call settles to. */
  function HandleSendMessage(s: ChatState, sessionId: Option<string>, text: string,
                             outcome: Result<string, string>, first: Stamp, typingTime: nat, replyStamp: Stamp): ChatState
    requires IsGeneratedId(first.id) && IsGeneratedId(replyStamp.id)
  {
    match BeginSend(s, sessionId, text, first, typingTime)
    case Refused(s') => s'
    case Awaiting(s', _) => CompleteSend(s', outcome, replyStamp)
  }

  // ---------------------------------------------------------------------------
  // Facts about a submission
  // ---------------------------------------------------------------------------

  /** Without a session id the bot is not consulted: the outcome makes no
      difference, and one error message is appended. */
  lemma NoSessionIgnoresOutcome(s: ChatState, sessionId: Option<string>, text: string,
                                o1: Result<string, string>, o2: Result<string, string>,
                                first: Stamp, typingTime: nat, replyStamp: Stamp)
    requires IsGeneratedId(first.id) && IsGeneratedId(replyStamp.id)
    requires !HasSession(sessionId)
    ensures HandleSendMessage(s, sessionId, text, o1, first, typingTime, replyStamp)
            == HandleSendMessage(s, sessionId, text, o2, first, typingTime, replyStamp)
            == ChatState(s.messages + [CreateMessage(SessionMissingText, Error, first)], false)
  {
  }

  /** With a session id, a submission leaves the earlier messages without
      their typing indicator, then the user's message, then the reply or
      the error; no typing indicator remains and the input is enabled. */
  lemma SubmissionResult(s: ChatState, sessionId: Option<string>, text: string,
                         outcome: Result<string, string>, first: Stamp, typingTime: nat, replyStamp: Stamp)
    requires IsGeneratedId(first.id) && IsGeneratedId(replyStamp.id)
    requires HasSession(sessionId)
    ensures var s' := HandleSendMessage(s, sessionId, text, outcome, first, typingTime, replyStamp);
            && !s'.isLoading
            && CountTyping(s'.messages) == 0
            && s'.messages == RemoveTypingIndicator(s.messages)
                              + [CreateMessage(text, User, first), OutcomeMessage(outcome, replyStamp)]
  {
    var sub := BeginSend(s, sessionId, text, first, typingTime);
    var s' := CompleteSend(sub.state, outcome, replyStamp);
    assert HandleSendMessage(s, sessionId, text, outcome, first, typingTime, replyStamp) == s';
    var msgs := s'.messages;
    assert msgs == msgs[..|msgs| - 1] + [msgs[|msgs| - 1]];
    assert msgs[..|msgs| - 1] == RemoveTypingIndicator(s.messages) + [CreateMessage(text, User, first)];
  }

  /** A submission from a state with at most one typing indicator keeps at
      most one, also while a reply is awaited. With `InitialState` as the
      base case, this covers every state reachable by submissions. */
  lemma SubmissionKeepsInvariant(s: ChatState, sessionId: Option<string>, text: string,
                                 outcome: Result<string, string>, first: Stamp, typingTime: nat, replyStamp: Stamp)
    requires IsGeneratedId(first.id) && IsGeneratedId(replyStamp.id)
    requires AtMostOneTyping(s.messages)
    ensures AtMostOneTyping(BeginSend(s, sessionId, text, first, typingTime).state.messages)
    ensures AtMostOneTyping(HandleSendMessage(s, sessionId, text, outcome, first, typingTime, replyStamp).messages)
  {
    if !HasSession(sessionId) {
      UpdatesKeepInvariant(s.messages, CreateMessage(SessionMissingText, Error, first), typingTime);
    }
  }

  /** Talking to the bot client: after a submission the conversation ends
      with a non-empty, trimmed bot reply or with an error message, and the
      caller's messages before it are kept. */
  lemma ConversationWithBot(s: ChatState, sessionId: Option<string>, text: string,
                            f: BotService.FetchOutcome, first: Stamp, typingTime: nat, replyStamp: Stamp)
    requires IsGeneratedId(first.id) && IsGeneratedId(replyStamp.id)
    requires HasSession(sessionId)
    ensures var msgs := HandleSendMessage(s, sessionId, text, BotService.SendMessage(f), first, typingTime, replyStamp).messages;
            var last := msgs[|msgs| - 1];
            && |msgs| == |RemoveTypingIndicator(s.messages)| + 2
            && (last.sender == Bot || last.sender == Error)
            && (last.sender == Bot ==> last.text != "" && Text.Trim(last.text) == last.text)
            && (last.sender == Bot <==> BotService.SendMessage(f).Success?)
  {
    SubmissionResult(s, sessionId, text, BotService.SendMessage(f), first, typingTime, replyStamp);
  }
}
