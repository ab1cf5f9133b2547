/** The chat screen's turn pipeline (src/components/ChatInterface.tsx).

    The screen keeps the visible transcript, the input box, a busy flag and
    an error line. Sending a message appends the user's bubble, then either
    the safety gate's answer or the assistant's reply followed by at most
    one wellness suggestion or safety reminder. Clearing the chat leaves
    only the greeting, and choosing a mood records it and appends one
    acknowledgement. Clock readings, random picks and the model's answer are
    parameters; the state shown is the one after the asynchronous work has
    finished. */
module Chat {
  import opened Common
  import opened Strings
  import opened Types
  import opened Safety
  import opened Gemini
  import opened Assistant
  import opened Mood

  /** What the screen holds, together with the assistant it talks to and
      the browser store the mood ledger writes to. */
  datatype ChatState = ChatState(
    messages: seq<Message>,
    inputText: string,
    isProcessing: bool,
    error: Option<string>,
    assistant: Assistant,
    store: LocalStore)

  /** The outside world during one turn: the clock when the message is sent
      and when the reply is in, the random indices of the gate's refusal and
      of the reminder, and what the model would answer if asked. */
  datatype Luck = Luck(
    sentAt: nat,
    answeredAt: nat,
    refusalPick: nat,
    reminderPick: nat,
    answer: ModelAnswer)

  predicate ValidLuck(luck: Luck)
  {
    luck.refusalPick < |ExploitationResponses| && luck.reminderPick < |SafetyReminders|
  }

  /** The result of a turn and the request the model saw, if any. */
  datatype Turnout = Turnout(state: ChatState, request: Option<seq<Turn>>)

  // The greeting, in pieces short enough for facts about its characters.
  const GreetingOpening: string := "Hello, I'm SerenityAI, "
  const GreetingCompanion: string := "your therapeutic companion. "
  const GreetingSupport: string := "I'm here to provide emotional support "
  const GreetingSpace: string := "and a safe space for conversation."
  const GreetingPrivacy: string := "Your privacy and safety "
  const GreetingPriorities: string := "are my top priorities."

  /** The one bubble a cleared chat starts with. */
  const Greeting: string :=
    GreetingOpening + GreetingCompanion + GreetingSupport + GreetingSpace + "\n\n"
    + GreetingPrivacy + GreetingPriorities

  /** The acknowledgements of a chosen mood, from the lowest band up. */
  const MoodReplies: seq<string> := [
      "I notice you're not feeling well today. Would you like to talk about what's troubling you?",
      "I see you're feeling a bit low. Sometimes sharing what's on your mind can help. Would you like to discuss it?",
      "You seem to be feeling neutral today. Is there anything specific you'd like to explore or discuss?",
      "I'm glad to see you're feeling good! Would you like to share what's contributing to your positive mood?",
      "It's wonderful to see you're feeling great! What's making today so special for you?"
    ]

  /** An assistant bubble stamped with the clock reading `at`. */
  function Bubble(text: string, at: nat): (m: Message)
    ensures !m.isUser && m.text == text && m.timestamp == at && m.feedback == None
    ensures m.id == Decimal(at)
  {
    Message(Decimal(at), text, false, at, None)
  }

  /** The trailing bubble read at clock `at`: its id is one past the clock
      reading, so that it differs from the reply's id, while its timestamp
      is the reading itself. */
  function TrailerBubble(text: string, at: nat): (m: Message)
    ensures !m.isUser && m.text == text && m.timestamp == at && m.feedback == None
    ensures m.id == Decimal(at + 1) && m.id != Bubble(text, at).id
  {
    DecimalInjective(at, at + 1);
    Message(Decimal(at + 1), text, false, at, None)
  }

  /** The texts of a transcript, as `messages.map(msg => msg.text)`. */
  function Texts(messages: seq<Message>): (r: seq<string>)
    ensures |r| == |messages|
    ensures forall i :: 0 <= i < |r| ==> r[i] == messages[i].text
  {
    if messages == [] then [] else [messages[0].text] + Texts(messages[1..])
  }

  // ---------------------------------------------------------------------
  // Sending a message
  // ---------------------------------------------------------------------

  /** The bubble that may follow the reply, decided from the transcript as
      it was before the user's message: the wellness suggestion if there is
      one, otherwise the safety reminder if it is due, never both. */
  function Trailer(before: seq<Message>, reminderPick: nat): (r: Option<string>)
    requires reminderPick < |SafetyReminders|
    ensures var wellness := ShouldSuggestWellness(|before|, LastN(Texts(before), 3));
      && (wellness.Some? ==> r == wellness)
      && (wellness.None? && ShouldShowSafetyReminder(|before|) ==> r == Some(SafetyReminders[reminderPick]))
      && (wellness.None? && !ShouldShowSafetyReminder(|before|) ==> r == None)
  {
    var wellness := ShouldSuggestWellness(|before|, LastN(Texts(before), 3));
    if wellness.Some? then wellness
    else if ShouldShowSafetyReminder(|before|) then Some(GetRandomSafetyReminder(reminderPick))
    else None
  }

  /** The trailing bubble, if any, as a transcript of at most one bubble. */
  function TrailerBubbles(trailer: Option<string>, at: nat): (r: seq<Message>)
    ensures |r| <= 1 && (r == [] <==> trailer.None?)
    ensures trailer.Some? ==> r == [TrailerBubble(trailer.value, at)]
  {
    match trailer
    case Some(extra) => [TrailerBubble(extra, at)]
    case None => []
  }

  /** `handleSendMessage(text)`: nothing happens for a blank text or while a
      turn is in progress; otherwise the turn runs as `Converse` says. */
  function SendMessage(s: ChatState, text: string, luck: Luck): (r: Turnout)
    requires ValidLuck(luck)
    ensures IsBlank(text) || s.isProcessing ==> r == Turnout(s, None)
    ensures !IsBlank(text) && !s.isProcessing ==>
      && r.state.inputText == "" && !r.state.isProcessing
      && r.state.error == s.error && r.state.store == s.store
  {
    if IsBlank(text) || s.isProcessing then Turnout(s, None)
    else Converse(s, text, luck)
  }

  /** A turn past the guard: the gate's answer, when it intercepts, is
      handled by `Intercepted` and the assistant is not asked; otherwise the
      turn goes on as `Passed`. */
  function Converse(s: ChatState, text: string, luck: Luck): (r: Turnout)
    requires ValidLuck(luck)
    ensures r.state.inputText == "" && !r.state.isProcessing
    ensures r.state.error == s.error && r.state.store == s.store
    ensures CheckMessageSafety(text, luck.refusalPick).response.Some? ==>
      r == Turnout(Intercepted(s, text, luck.sentAt, CheckMessageSafety(text, luck.refusalPick).response.value), None)
    ensures CheckMessageSafety(text, luck.refusalPick).response.None? ==> r == Passed(s, text, luck)
  {
    var safetyCheck := CheckMessageSafety(text, luck.refusalPick);
    if !safetyCheck.isValid && safetyCheck.response.Some? then
      Turnout(Intercepted(s, text, luck.sentAt, safetyCheck.response.value), None)
    else
      Passed(s, text, luck)
  }

  /** The user's bubble, stamped with the clock reading `at`. */
  function UserBubble(text: string, at: nat): (m: Message)
    ensures m.isUser && m.text == text && m.timestamp == at && m.feedback == None
    ensures m.id == Decimal(at)
  {
    Message(Decimal(at), text, true, at, None)
  }

  /** The screen after the gate answered: the user's bubble and the answer
      are appended, and nothing else changes but the input and busy flag. */
  function Intercepted(s: ChatState, text: string, at: nat, response: string): (r: ChatState)
    ensures r.messages == s.messages + [UserBubble(text, at), Bubble(response, at)]
    ensures r.inputText == "" && !r.isProcessing
    ensures r.error == s.error && r.store == s.store && r.assistant == s.assistant
  {
    var userMessage := UserBubble(text, at);
    var withUser := s.(messages := s.messages + [userMessage], inputText := "", isProcessing := false);
    var safetyMessage := Bubble(response, at);
    withUser.(messages := withUser.messages + [safetyMessage])
  }

  /** The screen after the message passed the gate: the user's bubble, the
      assistant's reply and the trailing bubble, if any, are appended. */
  function Passed(s: ChatState, text: string, luck: Luck): (r: Turnout)
    requires ValidLuck(luck)
    ensures var reply := GetResponse(s.assistant, text, Texts(s.messages), luck.answer);
      && r.state.messages
         == s.messages + ([UserBubble(text, luck.sentAt), Bubble(reply.response.text, luck.answeredAt)]
                          + TrailerBubbles(Trailer(s.messages, luck.reminderPick), luck.answeredAt))
      && r.state.assistant == reply.assistant && r.request == reply.request
    ensures r.state.inputText == "" && !r.state.isProcessing
    ensures r.state.error == s.error && r.state.store == s.store
  {
    var userMessage := UserBubble(text, luck.sentAt);
    var withUser := s.(messages := s.messages + [userMessage], inputText := "", isProcessing := false);
    var reply := GetResponse(s.assistant, text, Texts(s.messages), luck.answer);
    var trailer := Trailer(s.messages, luck.reminderPick);
    var added := [userMessage, Bubble(reply.response.text, luck.answeredAt)] + TrailerBubbles(trailer, luck.answeredAt);
    var messages := s.messages + added;
    Turnout(withUser.(messages := messages, assistant := reply.assistant), reply.request)
  }

  // ---------------------------------------------------------------------
  // Clearing the chat and choosing a mood
  // ---------------------------------------------------------------------

  /** `confirmClearChat`: the transcript is replaced by the greeting alone.
      The assistant's history is not reset. */
  function ConfirmClearChat(s: ChatState, now: nat): (r: ChatState)
    ensures r.messages == [Bubble(Greeting, now)]
    ensures r.assistant == s.assistant && r.store == s.store
    ensures r.inputText == s.inputText && r.isProcessing == s.isProcessing && r.error == s.error
  {
    s.(messages := [Bubble(Greeting, now)])
  }

  /** The band of a mood value: up to 1, up to 2, up to 3, up to 4, above. */
  function MoodBand(value: real): (band: nat)
    ensures 1 <= band <= |MoodReplies|
    ensures band == 1 <==> value <= 1.0
    ensures band == |MoodReplies| <==> value > 4.0
    ensures 1 < band < |MoodReplies| ==> (band - 1) as real < value <= band as real
  {
    if value <= 1.0 then 1
    else if value <= 2.0 then 2
    else if value <= 3.0 then 3
    else if value <= 4.0 then 4
    else 5
  }

  /** `handleMoodSelect(value)`: the value is recorded in the mood ledger as
      given, and one acknowledgement for its band is appended. */
  function HandleMoodSelect(s: ChatState, now: nat, value: real): (r: ChatState)
    ensures |r.messages| == |s.messages| + 1 && r.messages[..|s.messages|] == s.messages
    ensures r.messages[|s.messages|] == Bubble(MoodReplies[MoodBand(value) - 1], now)
    ensures GetMoodEntries(r.store) == GetMoodEntries(s.store) + [MoodEntry(now, value, None)]
    ensures r.store.sessions == s.store.sessions && r.store.settings == s.store.settings
    ensures r.assistant == s.assistant && r.inputText == s.inputText
    ensures r.isProcessing == s.isProcessing && r.error == s.error
  {
    var store := SaveMoodEntry(s.store, now, value, None);
    var moodMessage := MoodReplies[MoodBand(value) - 1];
    s.(messages := s.messages + [Bubble(moodMessage, now)], store := store)
  }
}
