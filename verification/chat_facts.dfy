/** Properties of the chat screen's turn pipeline. */
module ChatFacts {
  import opened Common
  import opened Strings
  import opened Types
  import opened Safety
  import opened Gemini
  import opened Assistant
  import opened Mood
  import opened Chat
  import SafetyFacts
  import GeminiFacts

  /** Appending keeps the old entries and puts the new ones after them. */
  lemma Appended(before: seq<Message>, added: seq<Message>)
    ensures |before + added| == |before| + |added|
    ensures (before + added)[..|before|] == before
    ensures forall i :: |before| <= i < |before| + |added| ==> (before + added)[i] == added[i - |before|]
  {
  }

  /** A message the gate answers appends the user's bubble and the gate's
      answer, both stamped when it was sent; the assistant is not asked. */
  lemma GateAnswerIsAppended(s: ChatState, text: string, luck: Luck)
    requires ValidLuck(luck) && !IsBlank(text) && !s.isProcessing
    requires !CheckMessageSafety(text, luck.refusalPick).isValid
    ensures var r := SendMessage(s, text, luck);
      var gate := CheckMessageSafety(text, luck.refusalPick).response.value;
      && r.state.messages == s.messages + [UserBubble(text, luck.sentAt), Bubble(gate, luck.sentAt)]
      && r.state.assistant == s.assistant && r.request.None?
  {
    var v := CheckMessageSafety(text, luck.refusalPick);
    assert v.response.Some?;
    assert SendMessage(s, text, luck) == Turnout(Intercepted(s, text, luck.sentAt, v.response.value), None);
  }

  /** A message that passes the gate appends the user's bubble, the
      assistant's reply to it (with the earlier texts as context) and the
      trailing bubble, if any, decided on the transcript before it; the
      assistant and the request are those of the reply. */
  lemma ReplyIsAppended(s: ChatState, text: string, luck: Luck)
    requires ValidLuck(luck) && !IsBlank(text) && !s.isProcessing
    requires CheckMessageSafety(text, luck.refusalPick).isValid
    ensures var r := SendMessage(s, text, luck);
      var reply := GetResponse(s.assistant, text, Texts(s.messages), luck.answer);
      && r.state.messages
         == s.messages + ([UserBubble(text, luck.sentAt), Bubble(reply.response.text, luck.answeredAt)]
                          + TrailerBubbles(Trailer(s.messages, luck.reminderPick), luck.answeredAt))
      && r.state.assistant == reply.assistant && r.request == reply.request
  {
    assert CheckMessageSafety(text, luck.refusalPick).response.None?;
    assert SendMessage(s, text, luck) == Passed(s, text, luck);
  }

  /** The bubbles a turn that goes ahead appends. */
  predicate TurnAppends(before: seq<Message>, after: seq<Message>, text: string, luck: Luck)
  {
    && |before| + 2 <= |after| <= |before| + 3
    && after[..|before|] == before
    && after[|before|] == UserBubble(text, luck.sentAt)
    && forall i :: |before| < i < |after| ==> !after[i].isUser
  }

  /** What a message the gate answers appends. */
  lemma InterceptedShape(s: ChatState, text: string, luck: Luck)
    requires ValidLuck(luck)
    requires !IsBlank(text) && !s.isProcessing
    requires !CheckMessageSafety(text, luck.refusalPick).isValid
    ensures TurnAppends(s.messages, SendMessage(s, text, luck).state.messages, text, luck)
  {
    var gate := CheckMessageSafety(text, luck.refusalPick).response.value;
    var added := [UserBubble(text, luck.sentAt), Bubble(gate, luck.sentAt)];
    assert SendMessage(s, text, luck).state.messages == s.messages + added;
    Appended(s.messages, added);
  }

  /** The user's bubble, the reply and the trailing bubble, if any, make a
      turn's worth of appended bubbles. */
  lemma ReplyAppends(before: seq<Message>, text: string, luck: Luck, reply: string, trailer: Option<string>)
    ensures TurnAppends(before, before + ([UserBubble(text, luck.sentAt), Bubble(reply, luck.answeredAt)]
                                          + TrailerBubbles(trailer, luck.answeredAt)), text, luck)
  {
    Appended(before, [UserBubble(text, luck.sentAt), Bubble(reply, luck.answeredAt)]
                     + TrailerBubbles(trailer, luck.answeredAt));
  }

  /** What a message that passes the gate appends. */
  lemma PassedShape(s: ChatState, text: string, luck: Luck)
    requires ValidLuck(luck)
    requires !IsBlank(text) && !s.isProcessing
    requires CheckMessageSafety(text, luck.refusalPick).isValid
    ensures TurnAppends(s.messages, SendMessage(s, text, luck).state.messages, text, luck)
  {
    var reply := GetResponse(s.assistant, text, Texts(s.messages), luck.answer);
    ReplyAppends(s.messages, text, luck, reply.response.text, Trailer(s.messages, luck.reminderPick));
  }

  /** A turn that goes ahead keeps the transcript, appends the user's bubble
      and then one or two assistant bubbles: the gate's answer or the reply,
      and at most one trailing bubble. */
  lemma TurnShape(s: ChatState, text: string, luck: Luck)
    requires ValidLuck(luck)
    requires !IsBlank(text) && !s.isProcessing
    ensures TurnAppends(s.messages, SendMessage(s, text, luck).state.messages, text, luck)
  {
    if CheckMessageSafety(text, luck.refusalPick).isValid {
      PassedShape(s, text, luck);
    } else {
      InterceptedShape(s, text, luck);
    }
  }

  /** A message the gate answers is never shown to the assistant: the
      assistant, its history included, is left as it was and the model gets
      no request, whatever it would have answered. */
  lemma InterceptedNeverReachesAssistant(s: ChatState, text: string, luck: Luck)
    requires ValidLuck(luck)
    requires !CheckMessageSafety(text, luck.refusalPick).isValid
    ensures SendMessage(s, text, luck).request.None?
    ensures SendMessage(s, text, luck).state.assistant == s.assistant
    ensures SendMessage(s, text, luck) == SendMessage(s, text, luck.(answer := Failed))
  {
  }

  /** The trailing bubble is decided by the transcript before the user's
      message, so with one to four earlier bubbles there is none. */
  lemma NoTrailerEarlyOn(before: seq<Message>, reminderPick: nat)
    requires reminderPick < |SafetyReminders|
    requires 0 < |before| < 5
    ensures Trailer(before, reminderPick) == None
  {
  }

  /** On an empty transcript the count is 0, a multiple of ten, so the first
      message that passes the gate is followed by a safety reminder. */
  lemma ReminderOnEmptyTranscript(reminderPick: nat)
    requires reminderPick < |SafetyReminders|
    ensures Trailer([], reminderPick) == Some(SafetyReminders[reminderPick])
  {
  }

  /** A reminder follows a reply only on an empty transcript or when none of
      its last three texts counts for the wellness check, because every
      count that calls for a reminder also calls for the general wellness
      suggestion. */
  lemma ReminderNeedsEchoes(before: seq<Message>, reminderPick: nat)
    requires reminderPick < |SafetyReminders|
    requires Trailer(before, reminderPick) == Some(SafetyReminders[reminderPick])
    requires ShouldSuggestWellness(|before|, LastN(Texts(before), 3)) == None
    ensures before == [] || forall i :: 0 <= i < |LastN(Texts(before), 3)| ==> IsWellnessEcho(LastN(Texts(before), 3)[i])
  {
    SafetyFacts.ReminderOnlyWithoutGenuineTexts(|before|, LastN(Texts(before), 3));
    GenuineFilters(LastN(Texts(before), 3));
  }

  /** After the chat is cleared, the next message that passes the gate gets
      the reply and nothing after it. */
  lemma ClearedChatHasNoTrailer(s: ChatState, now: nat, text: string, luck: Luck)
    requires ValidLuck(luck)
    requires !IsBlank(text) && !s.isProcessing
    requires CheckMessageSafety(text, luck.refusalPick).isValid
    ensures |SendMessage(ConfirmClearChat(s, now), text, luck).state.messages| == 3
  {
    var c := ConfirmClearChat(s, now);
    NoTrailerEarlyOn(c.messages, luck.reminderPick);
  }

  /** Mood bands never go down as the value goes up. */
  lemma MoodBandMonotone(low: real, high: real)
    requires low <= high
    ensures MoodBand(low) <= MoodBand(high)
  {
  }

  /** A mood chosen into an empty ledger is, at that moment, the average of
      every window. */
  lemma {:induction false} FirstMoodIsTheAverage(s: ChatState, now: nat, value: real, days: nat)
    requires GetMoodEntries(s.store) == []
    ensures AverageMood(HandleMoodSelect(s, now, value).store, now, days) == Some(value)
  {
    var e := MoodEntry(now, value, None);
    var entries := GetMoodEntries(HandleMoodSelect(s, now, value).store);
    assert entries == [e];
    assert InWindow(e, now, days);
    assert Recent(entries, now, days) == [e] by {
      assert entries[1..] == [];
    }
    assert Sum([e]) == value by {
      assert [e][1..] == [];
    }
  }

  // ---------------------------------------------------------------------
  // Example turns
  // ---------------------------------------------------------------------

  /** "i want to die" passes the navigation rules and holds crisis wording
      with "die", so the gate gives the crisis answer. */
  lemma WantToDieGate(pick: nat)
    requires pick < |ExploitationResponses|
    ensures CheckMessageSafety("I want to die", pick) == Verdict(false, Some(CrisisResponse))
  {
    var m := "i want to die";
    assert Lower("I want to die") == m;
    WantToDieRule(m);
    SafetyFacts.GateAnswers("I want to die", pick, CrisisRule);
  }

  // The chain of tests sends "i want to die" to the crisis answer.
  lemma WantToDieRule(m: string)
    requires m == "i want to die"
    ensures Safety.Classify(m) == Some(CrisisRule)
  {
    SafetyFacts.NoNavigation(m, "ccc", "mfh", "scp");
    assert OccursAt(m, "want to die", 2);
    assert Contains(m, CrisisTerms[2]);
    assert OccursAt(m, "die", 10);
    assert Contains(m, SuicideWords[1]);
  }

  /** Saying "I want to die" shows the crisis answer right after the
      user's bubble, and the model is not asked. */
  lemma WantToDieIsAnsweredByTheGate(s: ChatState, luck: Luck)
    requires ValidLuck(luck) && !s.isProcessing
    ensures var r := SendMessage(s, "I want to die", luck);
      && r.state.messages == s.messages + [UserBubble("I want to die", luck.sentAt), Bubble(CrisisResponse, luck.sentAt)]
      && r.request.None? && r.state.assistant == s.assistant
  {
    WantToDieGate(luck.refusalPick);
    TrimUnpadded("I want to die");
  }

  /** How the turn's checks treat "I want to kill myself": the gate
      lets it through, it is not about the user's name, it is not
      gibberish and it is too long to be a short greeting. */
  lemma KillMyselfFacts(pick: nat)
    requires pick < |ExploitationResponses|
    ensures CheckMessageSafety("I want to kill myself", pick).isValid
    ensures !IsBlank("I want to kill myself")
    ensures !IsNameQuestion("I want to kill myself")
    ensures !IsGibberish("I want to kill myself")
  {
    var t := "I want to kill myself";
    SafetyFacts.KillMyselfCapitalisedPasses(pick);
    KillMyselfTrimmed(t);
    KillMyselfNotAboutName("i want to kill myself");
    KillMyselfNotGibberish(t);
  }

  // The sentence has no padding, and lower-casing it gives the gate's form.
  lemma KillMyselfTrimmed(t: string)
    requires t == "I want to kill myself"
    ensures Trim(t) == t && Trim(Lower(t)) == "i want to kill myself"
  {
    assert Lower(t) == "i want to kill myself";
    TrimUnpadded(t);
    TrimUnpadded("i want to kill myself");
  }

  // The lower-cased sentence contains none of the name-question wording.
  lemma KillMyselfNotAboutName(m: string)
    requires m == "i want to kill myself"
    ensures !ContainsAny(m, NameQuestionTerms)
  {
    LacksPair(m, "name");
    NoTermOccurs(m, NameQuestionTerms, "nhhh", 0);
  }

  // The sentence is long enough, has letters, repeats no character five times and is not whitelisted.
  lemma KillMyselfNotGibberish(t: string)
    requires t == "I want to kill myself"
    ensures |t| >= 2 && !NoLetter(t) && !HasRepeat(t)
    ensures Trim(Lower(t)) !in GibberishWhitelist
  {
    assert IsLetter(t[0]);
    forall i | 0 <= i <= |t|
      ensures !RepeatAt(t, i)
    {
      if i + 5 <= |t| {
        assert t[i + 1] != t[i] || t[i + 2] != t[i];
      }
    }
    KillMyselfTrimmed(t);
    GeminiFacts.OffWhitelist(Trim(Lower(t)));
  }

  /** "I want to kill myself" reaches the model, with the system prompt
      and the assistant's history in front of it. */
  lemma KillMyselfReachesTheModel(s: ChatState, luck: Luck)
    requires ValidLuck(luck) && !s.isProcessing
    ensures SendMessage(s, "I want to kill myself", luck).request
         == Some([Turn(UserRole, SystemPrompt(s.assistant.userName))]
                 + (s.assistant.history + [Turn(UserRole, "I want to kill myself")]))
  {
    var t := "I want to kill myself";
    KillMyselfFacts(luck.refusalPick);
    var context := Texts(s.messages);
    var e := GenerateResponse(s.assistant.history, t, context, s.assistant.userName, luck.answer);
    assert !IsShortGreeting(t, |context|);
    assert e.request.Some?;
    GeminiFacts.ModelAlwaysSeesTheMessage(s.assistant.history, t, context, s.assistant.userName, luck.answer);
  }

  /** How the turn's checks treat "hello": the gate lets it through,
      it is not about the user's name, it is whitelisted and it holds a
      short greeting. */
  lemma HelloFacts(pick: nat)
    requires pick < |ExploitationResponses|
    ensures CheckMessageSafety("hello", pick).isValid
    ensures !IsBlank("hello") && !IsNameQuestion("hello") && !IsGibberish("hello")
    ensures ContainsAny(Trim(Lower("hello")), ShortGreetings)
  {
    var m := "hello";
    HelloPasses(pick);
    HelloTrimmed(m);
    HelloNotAboutName(m);
    HelloGreets(m);
  }

  // "hello" is its own trimmed, lower-cased form.
  lemma HelloTrimmed(m: string)
    requires m == "hello"
    ensures Trim(Lower(m)) == m && Trim(m) == m
  {
    assert Lower(m) == m;
    TrimUnpadded(m);
  }

  // "hello" contains none of the name-question wording.
  lemma HelloNotAboutName(m: string)
    requires m == "hello"
    ensures !ContainsAny(m, NameQuestionTerms)
  {
    NoTermOccurs(m, NameQuestionTerms, "nwww", -1);
  }

  // "hello" is whitelisted and is one of the short greetings.
  lemma HelloGreets(m: string)
    requires m == "hello"
    ensures m in GibberishWhitelist && ContainsAny(m, ShortGreetings)
  {
    assert GibberishWhitelist[1] == m;
    assert OccursAt(m, "hello", 0);
    ContainsAnyAt(m, ShortGreetings, 1);
  }

  // The gate lets "hello" through.
  lemma HelloPasses(pick: nat)
    requires pick < |ExploitationResponses|
    ensures CheckMessageSafety("hello", pick).isValid
  {
    assert Lower("hello") == "hello";
    HelloMatchesNoRule("hello");
    SafetyFacts.GatePasses("hello", pick);
  }

  // No rule of the gate fires on "hello".
  lemma HelloMatchesNoRule(m: string)
    requires m == "hello"
    ensures Safety.Classify(m) == None
  {
    SafetyFacts.NoNavigation(m, "ccc", "mfw", "scp");
    HelloNoCrisisOrStress(m);
    HelloNoLaterTerm(m);
  }

  // "hello" holds no crisis or stress wording.
  lemma HelloNoCrisisOrStress(m: string)
    requires m == "hello"
    ensures !ContainsAny(m, CrisisTerms) && !ContainsAny(m, StressTerms)
  {
    NoTermOccurs(m, CrisisTerms, "skwwnusscddb", -1);
    NoTermOccurs(m, StressTerms, "saavpwsccrntpfs", -1);
  }

  // "hello" holds no identity, blocked or manipulation wording.
  lemma HelloNoLaterTerm(m: string)
    requires m == "hello"
    ensures !ContainsAny(m, IdentityQuestions) && !ContainsAny(m, BlockedTerms)
    ensures !ContainsAny(m, InjectionTerms)
  {
    NoTermOccurs(m, IdentityQuestions, "wwwwwwyuww", -1);
    NoTermOccurs(m, BlockedTerms, "ggpcacaxbcs", -1);
    NoTermOccurs(m, InjectionTerms, "prgsy", -1);
  }

  /** A message that passes the gate when no trailing bubble is due gets
      just the reply. */
  lemma WithoutTrailer(s: ChatState, text: string, luck: Luck)
    requires ValidLuck(luck) && !IsBlank(text) && !s.isProcessing
    requires CheckMessageSafety(text, luck.refusalPick).isValid
    requires Trailer(s.messages, luck.reminderPick) == None
    ensures var reply := GetResponse(s.assistant, text, Texts(s.messages), luck.answer);
      var r := SendMessage(s, text, luck);
      && r.state.messages == s.messages + [UserBubble(text, luck.sentAt), Bubble(reply.response.text, luck.answeredAt)]
      && r.request == reply.request && r.state.assistant == reply.assistant
  {
    var reply := GetResponse(s.assistant, text, Texts(s.messages), luck.answer);
    var head := [UserBubble(text, luck.sentAt), Bubble(reply.response.text, luck.answeredAt)];
    assert head + TrailerBubbles(None, luck.answeredAt) == head;
  }

  /** With at most one earlier text, the assistant answers "hello" itself
      with the short greeting. */
  lemma HelloAnsweredByTheAssistant(a: Assistant, context: seq<string>, answer: ModelAnswer)
    requires |context| <= 1
    ensures GetResponse(a, "hello", context, answer)
         == Reply(AIResponse(ShortGreetingReply(a.userName), Positive, EngineConfidence, []), a, None)
  {
    HelloFacts(0);
    assert IsShortGreeting("hello", |context|);
  }

  /** With one bubble in the transcript, "hello" is answered with the local
      short greeting. */
  lemma HelloOnOneBubble(s: ChatState, luck: Luck)
    requires ValidLuck(luck) && !s.isProcessing && |s.messages| == 1
    ensures var r := SendMessage(s, "hello", luck);
      && r.request.None? && r.state.assistant == s.assistant
      && r.state.messages == s.messages + [UserBubble("hello", luck.sentAt),
                                           Bubble(ShortGreetingReply(s.assistant.userName), luck.answeredAt)]
  {
    HelloPasses(luck.refusalPick);
    TrimUnpadded("hello");
    NoTrailerEarlyOn(s.messages, luck.reminderPick);
    HelloAnsweredByTheAssistant(s.assistant, Texts(s.messages), luck.answer);
    WithoutTrailer(s, "hello", luck);
  }

  /** Right after the chat is cleared, "hello" is answered with the local
      short greeting: the model is not asked and nothing follows. */
  lemma HelloAfterClearingIsAnsweredLocally(s: ChatState, now: nat, luck: Luck)
    requires ValidLuck(luck) && !s.isProcessing
    ensures var r := SendMessage(ConfirmClearChat(s, now), "hello", luck);
      && r.request.None? && r.state.assistant == s.assistant
      && r.state.messages == [Bubble(Greeting, now), UserBubble("hello", luck.sentAt),
                              Bubble(ShortGreetingReply(s.assistant.userName), luck.answeredAt)]
  {
    HelloOnOneBubble(ConfirmClearChat(s, now), luck);
  }

  /** Once the transcript holds two bubbles, "hello" goes to the model. */
  lemma LaterHelloReachesTheModel(s: ChatState, luck: Luck)
    requires ValidLuck(luck) && !s.isProcessing && |s.messages| >= 2
    ensures SendMessage(s, "hello", luck).request.Some?
  {
    HelloFacts(luck.refusalPick);
    var context := Texts(s.messages);
    assert !IsShortGreeting("hello", |context|);
  }
}
