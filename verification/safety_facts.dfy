/** Properties of the safety gate and of the wellness cadence
    (src/services/SafetyService.ts), including the places where the code
    behaves differently from what its comments suggest. */
module SafetyFacts {
  import opened Common
  import opened Strings
  import opened Safety

  /** The gate only ever sees the lower-cased message. */
  lemma {:induction false} CheckIsCaseInsensitive(message: string, pick: nat)
    requires pick < |ExploitationResponses|
    ensures CheckMessageSafety(Lower(message), pick) == CheckMessageSafety(message, pick)
  {
    LowerIdempotent(message);
  }

  /** The empty message is never intercepted. */
  lemma EmptyMessagePasses(pick: nat)
    requires pick < |ExploitationResponses|
    ensures CheckMessageSafety("", pick) == Verdict(true, None)
  {
    assert Lower("") == "";
    EmptyContainsNone(ClearChatTerms);
    EmptyContainsNone(MenuTerms);
    EmptyContainsNone(SettingsTerms);
    EmptyContainsNone(CrisisTerms);
    EmptyContainsNone(StressTerms);
    EmptyContainsNone(IdentityQuestions);
    EmptyContainsNone(BlockedTerms);
    EmptyContainsNone(InjectionTerms);
  }

  /** Navigation is tested before crisis wording: a request to clear the
      chat that also says "i want to die" gets the clear-chat help. */
  lemma NavigationBeforeCrisis(pick: nat)
    requires pick < |ExploitationResponses|
    ensures ContainsAny("clear chat, i want to die", CrisisTerms)
    ensures CheckMessageSafety("clear chat, i want to die", pick) == Verdict(false, Some(ClearChatHelp))
  {
    var m := "clear chat, i want to die";
    WantToDieIsCrisis(m);
    NavigationAnswered(m, pick);
  }

  // The navigation-then-crisis sentence gets the clear-chat help.
  lemma NavigationAnswered(m: string, pick: nat)
    requires pick < |ExploitationResponses|
    requires m == "clear chat, i want to die"
    ensures CheckMessageSafety(m, pick) == Verdict(false, Some(ClearChatHelp))
  {
    NavigationLowered(m);
    ClearChatFirst(m);
    ClearChatAnswered(m, pick);
  }

  // The navigation-then-crisis sentence is already lower-case.
  lemma NavigationLowered(m: string)
    requires m == "clear chat, i want to die"
    ensures Lower(m) == m
  {
    LowerCaseFixed(m);
  }

  // A lower-case text whose first firing rule is clear chat gets the clear-chat help.
  lemma ClearChatAnswered(m: string, pick: nat)
    requires pick < |ExploitationResponses|
    requires Lower(m) == m && Classify(m) == Some(ClearChatRule)
    ensures CheckMessageSafety(m, pick) == Verdict(false, Some(ClearChatHelp))
  {
    GateAnswers(m, pick, ClearChatRule);
  }

  /** The gate's verdict when the chain of tests picks `rule`. */
  lemma GateAnswers(message: string, pick: nat, rule: Rule)
    requires pick < |ExploitationResponses|
    requires Classify(Lower(message)) == Some(rule)
    ensures CheckMessageSafety(message, pick) == Verdict(false, Some(Respond(rule, pick)))
  {
  }

  /** The gate's verdict when no test of the chain matches. */
  lemma GatePasses(message: string, pick: nat)
    requires pick < |ExploitationResponses|
    requires Classify(Lower(message)) == None
    ensures CheckMessageSafety(message, pick) == Verdict(true, None)
  {
  }

  // The sentence holds crisis wording and the qualifier "die".
  lemma WantToDieIsCrisis(m: string)
    requires m == "clear chat, i want to die"
    ensures ContainsAny(m, CrisisTerms)
  {
    assert OccursAt(m, "want to die", 14);
    assert Contains(m, CrisisTerms[2]);
  }

  // The sentence holds clear-chat wording, so the first rule fires.
  lemma ClearChatFirst(m: string)
    requires m == "clear chat, i want to die"
    ensures Classify(m) == Some(ClearChatRule)
  {
    assert OccursAt(m, "clear chat", 0);
    assert Contains(m, ClearChatTerms[0]);
  }

  /** Crisis wording takes the crisis answer when it mentions suicide or
      dying, else the self-harm answer when it mentions hurt or harm. */
  lemma CrisisSubBranches(message: string, pick: nat)
    requires pick < |ExploitationResponses|
    requires !Fires(RuleTable[0], Lower(message)) && !Fires(RuleTable[1], Lower(message))
    requires !Fires(RuleTable[2], Lower(message))
    requires ContainsAny(Lower(message), CrisisTerms)
    ensures ContainsAny(Lower(message), SuicideWords) ==>
      CheckMessageSafety(message, pick) == Verdict(false, Some(CrisisResponse))
    ensures !ContainsAny(Lower(message), SuicideWords) && ContainsAny(Lower(message), HarmWords) ==>
      CheckMessageSafety(message, pick) == Verdict(false, Some(SelfHarmResponse))
  {
  }

  /** Crisis wording with none of "suicide", "die", "hurt", "harm" gets no
      crisis answer: the verdict is whatever the later rules decide. */
  lemma CrisisWithoutQualifierFallsThrough(message: string, pick: nat)
    requires pick < |ExploitationResponses|
    requires ContainsAny(Lower(message), CrisisTerms)
    requires !ContainsAny(Lower(message), SuicideWords) && !ContainsAny(Lower(message), HarmWords)
    ensures Classify(Lower(message)) != Some(CrisisRule) && Classify(Lower(message)) != Some(SelfHarmRule)
    ensures CheckMessageSafety(message, pick).isValid <==>
      forall k :: 0 <= k < |RuleTable| && k != 3 && k != 4 ==> !Fires(RuleTable[k], Lower(message))
  {
    QualifiersMissing(Lower(message));
    GateIgnoresSilentRules(message, pick);
  }

  // Without a qualifier neither crisis rule fires.
  lemma QualifiersMissing(lower: string)
    requires ContainsAny(lower, CrisisTerms)
    requires !ContainsAny(lower, SuicideWords) && !ContainsAny(lower, HarmWords)
    ensures Classify(lower) != Some(CrisisRule) && Classify(lower) != Some(SelfHarmRule)
    ensures !Fires(RuleTable[3], lower) && !Fires(RuleTable[4], lower)
  {
  }

  // When neither crisis rule fires, the gate follows the remaining rules.
  lemma GateIgnoresSilentRules(message: string, pick: nat)
    requires pick < |ExploitationResponses|
    requires !Fires(RuleTable[3], Lower(message)) && !Fires(RuleTable[4], Lower(message))
    ensures CheckMessageSafety(message, pick).isValid <==>
      forall k :: 0 <= k < |RuleTable| && k != 3 && k != 4 ==> !Fires(RuleTable[k], Lower(message))
  {
    GateFollowsTable(message, pick);
  }

  /** "i want to kill myself" holds the crisis term "kill myself", yet it
      passes the gate and goes on to the assistant. */
  lemma KillMyselfPasses(pick: nat)
    requires pick < |ExploitationResponses|
    ensures ContainsAny("i want to kill myself", CrisisTerms)
    ensures CheckMessageSafety("i want to kill myself", pick) == Verdict(true, None)
  {
    var m := "i want to kill myself";
    LowerCaseFixed(m);
    assert OccursAt(m, "kill myself", 10);
    assert Contains(m, CrisisTerms[1]);
    KillMyselfMatchesNoRule(m);
    GatePasses(m, pick);
  }

  // No rule of the gate fires on "i want to kill myself".
  lemma KillMyselfMatchesNoRule(m: string)
    requires m == "i want to kill myself"
    ensures Classify(m) == None
  {
    NoNavigation(m, "cdr", "uuh", "gcp");
    KillMyselfNoQualifier(m);
    KillMyselfNoStress(m);
    KillMyselfNoIdentity(m);
    KillMyselfNoBlocked(m);
    KillMyselfNoInjection(m);
    MatchesNoRule(m);
  }

  /** The chain of tests finds nothing when no rule's wording occurs. */
  lemma MatchesNoRule(lower: string)
    requires !ContainsAny(lower, ClearChatTerms) && !ContainsAny(lower, MenuTerms)
    requires !ContainsAny(lower, SettingsTerms)
    requires !ContainsAny(lower, SuicideWords) && !ContainsAny(lower, HarmWords)
    requires !ContainsAny(lower, StressTerms) && !ContainsAny(lower, IdentityQuestions)
    requires !ContainsAny(lower, BlockedTerms) && !ContainsAny(lower, InjectionTerms)
    ensures Classify(lower) == None
  {
  }

  /** None of the navigation wording occurs in `m` when, for each term of
      the three navigation lists, `m` lacks the character given for it. */
  lemma NoNavigation(m: string, clear: seq<char>, menu: seq<char>, settings: seq<char>)
    requires |clear| == |ClearChatTerms| && |menu| == |MenuTerms| && |settings| == |SettingsTerms|
    requires forall k :: 0 <= k < |clear| ==> clear[k] in ClearChatTerms[k] && clear[k] !in m
    requires forall k :: 0 <= k < |menu| ==> menu[k] in MenuTerms[k] && menu[k] !in m
    requires forall k :: 0 <= k < |settings| ==> settings[k] in SettingsTerms[k] && settings[k] !in m
    ensures !ContainsAny(m, ClearChatTerms) && !ContainsAny(m, MenuTerms) && !ContainsAny(m, SettingsTerms)
  {
    NoTermOccurs(m, ClearChatTerms, clear, -1);
    NoTermOccurs(m, MenuTerms, menu, -1);
    NoTermOccurs(m, SettingsTerms, settings, -1);
  }

  // The sentence holds none of "suicide", "die", "hurt" or "harm".
  lemma KillMyselfNoQualifier(m: string)
    requires m == "i want to kill myself"
    ensures !ContainsAny(m, SuicideWords) && !ContainsAny(m, HarmWords)
  {
    NoTermOccurs(m, SuicideWords, "ud", -1);
    NoTermOccurs(m, HarmWords, "hh", -1);
  }

  // The sentence holds no stress wording.
  lemma KillMyselfNoStress(m: string)
    requires m == "i want to kill myself"
    ensures !ContainsAny(m, StressTerms)
  {
    assert StressTerms[11] == "tense";
    KillMyselfNoTense(m);
    NoTermOccurs(m, StressTerms, "rxxvprrccrr-prc", 11);
  }

  // The sentence does not contain "tense".
  lemma KillMyselfNoTense(m: string)
    requires m == "i want to kill myself"
    ensures !Contains(m, "tense")
  {
    if Contains(m, "tense") {
      ContainsPair(m, "tense");
    }
  }

  // The sentence asks no identity question.
  lemma KillMyselfNoIdentity(m: string)
    requires m == "i want to kill myself"
    ensures !ContainsAny(m, IdentityQuestions)
  {
    NoTermOccurs(m, IdentityQuestions, "hhhhhhuuhh", -1);
  }

  // The sentence holds no manipulation wording.
  lemma KillMyselfNoInjection(m: string)
    requires m == "i want to kill myself"
    ensures !ContainsAny(m, InjectionTerms)
  {
    NoTermOccurs(m, InjectionTerms, "prgpu", -1);
  }

  // The sentence holds no blocked term.
  lemma KillMyselfNoBlocked(m: string)
    requires m == "i want to kill myself"
    ensures !ContainsAny(m, BlockedTerms)
  {
    KillMyselfNoSteal(m);
    KillMyselfLacks(m);
    NoTermOccurs(m, BlockedTerms, "ggpchchxbc-", 10);
  }

  // The sentence does not contain "steal".
  lemma KillMyselfNoSteal(m: string)
    requires m == "i want to kill myself"
    ensures !Contains(m, BlockedTerms[10])
  {
    // Every 's' sits in "self", which has no 't' after it.
    var a, b := "i want to kill my", "self";
    assert m == a + b;
    assert 's' !in a && 't' !in b;
    if Contains(m, "steal") {
      ContainsPair(m, "steal");
    }
  }

  // Characters that the sentence does not contain.
  lemma KillMyselfLacks(m: string)
    requires m == "i want to kill myself"
    ensures 'g' !in m && 'p' !in m && 'c' !in m && 'h' !in m && 'x' !in m && 'b' !in m && '-' !in m
  {
  }

  /** The same message with a capital letter behaves the same. */
  lemma KillMyselfCapitalisedPasses(pick: nat)
    requires pick < |ExploitationResponses|
    ensures CheckMessageSafety("I want to kill myself", pick) == Verdict(true, None)
  {
    assert Lower("I want to kill myself") == "i want to kill myself";
    CheckIsCaseInsensitive("I want to kill myself", pick);
    KillMyselfPasses(pick);
  }

  // ---------------------------------------------------------------------
  // Wellness cadence
  // ---------------------------------------------------------------------

  /** The breathing suggestion is recognised by the filter. */
  lemma BreathingIsEcho()
    ensures IsWellnessEcho(BreathingSuggestion)
  {
    var b := BreathingSuggestion[|NoticeFeeling|..];
    assert BreathingSuggestion == "" + NoticeFeeling + b;
    ContainsSelf(NoticeFeeling);
    ContainsInfix("", NoticeFeeling, b, NoticeFeeling);
    ContainsAnyAt(BreathingSuggestion, WellnessMarkers, 1);
  }

  /** The mood-tracking suggestion is recognised by the filter. */
  lemma MoodTrackingIsEcho()
    ensures IsWellnessEcho(MoodTrackingSuggestion)
  {
    var m1 := "I'd like to check in on how you're feeling. Would you like to track your mood? You can:\n\U{2022} ";
    var m2 := MoodTrackingSuggestion[|m1| + |ClickOutside|..];
    assert MoodTrackingSuggestion == m1 + ClickOutside + m2;
    ContainsSelf(ClickOutside);
    ContainsInfix(m1, ClickOutside, m2, ClickOutside);
    ContainsAnyAt(MoodTrackingSuggestion, WellnessMarkers, 0);
  }

  /** The general suggestion is recognised by the filter. */
  lemma GeneralWellnessIsEcho()
    ensures IsWellnessEcho(GeneralWellnessSuggestion)
  {
    var g := GeneralWellnessSuggestion[|CareWellBeing|..];
    assert GeneralWellnessSuggestion == "" + CareWellBeing + g;
    ContainsSelf(CareWellBeing);
    ContainsInfix("", CareWellBeing, g, CareWellBeing);
    ContainsAnyAt(GeneralWellnessSuggestion, WellnessMarkers, 2);
  }

  // Filtering out the echoes distributes over concatenation.
  lemma {:induction false} GenuineConcat(a: seq<string>, b: seq<string>)
    ensures Genuine(a + b) == Genuine(a) + Genuine(b)
    decreases |a|
  {
    if a == [] {
      assert a + b == b;
    } else {
      assert (a + b)[0] == a[0];
      assert (a + b)[1..] == a[1..] + b;
      GenuineConcat(a[1..], b);
    }
  }

  /** The decision depends on the recent texts only through whether any is
      genuine and through the focus text. */
  lemma SameFocusSameSuggestion(messageCount: nat, a: seq<string>, b: seq<string>)
    requires (Genuine(a) == []) == (Genuine(b) == [])
    requires WellnessFocus(a) == WellnessFocus(b)
    ensures ShouldSuggestWellness(messageCount, a) == ShouldSuggestWellness(messageCount, b)
  {
  }

  /** A suggestion that has been shown never feeds the next decision. */
  lemma EchoesDoNotCount(messageCount: nat, recent: seq<string>, echo: string)
    requires IsWellnessEcho(echo)
    ensures ShouldSuggestWellness(messageCount, recent + [echo]) == ShouldSuggestWellness(messageCount, recent)
  {
    GenuineConcat(recent, [echo]);
    assert Genuine([echo]) == [];
    assert Genuine(recent + [echo]) == Genuine(recent);
    SameFocusSameSuggestion(messageCount, recent + [echo], recent);
  }

  /** Only the last three genuine texts are looked at. */
  lemma OnlyLastThreeGenuineCount(messageCount: nat, older: seq<string>, recent: seq<string>)
    requires |Genuine(recent)| >= 3
    ensures ShouldSuggestWellness(messageCount, older + recent) == ShouldSuggestWellness(messageCount, recent)
  {
    GenuineConcat(older, recent);
    var gr := Genuine(recent);
    var g := Genuine(older) + gr;
    assert g[|g| - 3..] == gr[|gr| - 3..];
    assert LastN(Genuine(older + recent), 3) == LastN(gr, 3);
    SameFocusSameSuggestion(messageCount, older + recent, recent);
  }

  /** The space-joined texts end with the last text. */
  function JoinInit(xs: seq<string>, sep: string): (pre: string)
    requires xs != []
    ensures Join(xs, sep) == pre + xs[|xs| - 1]
  {
    if |xs| == 1 then "" else Join(xs[..|xs| - 1], sep) + sep
  }

  /** Stress wording in the newest genuine text is enough for the breathing
      suggestion, once five messages have been exchanged. */
  lemma StressInLatestTextSuggestsBreathing(messageCount: nat, recent: seq<string>)
    requires 5 <= messageCount && recent != []
    requires !IsWellnessEcho(recent[|recent| - 1])
    requires ContainsAny(Lower(recent[|recent| - 1]), StressTerms)
    ensures ShouldSuggestWellness(messageCount, recent) == Some(BreathingSuggestion)
  {
    var window := LatestGenuineLast(recent);
    TermsInFocus(window, recent[|recent| - 1], StressTerms);
  }

  /** The window of the last genuine texts ends with the newest text when
      that one is genuine. */
  lemma LatestGenuineLast(recent: seq<string>) returns (window: seq<string>)
    requires recent != [] && !IsWellnessEcho(recent[|recent| - 1])
    ensures window == LastN(Genuine(recent), 3) && window != []
    ensures window[|window| - 1] == recent[|recent| - 1]
  {
    var last := recent[|recent| - 1];
    assert recent == recent[..|recent| - 1] + [last];
    GenuineConcat(recent[..|recent| - 1], [last]);
    var g := Genuine(recent);
    assert g[|g| - 1] == last;
    window := LastN(g, 3);
  }

  /** Wording in the last text of a window is in its focus text. */
  lemma TermsInFocus(window: seq<string>, last: string, terms: seq<string>)
    requires window != [] && window[|window| - 1] == last
    requires ContainsAny(Lower(last), terms)
    ensures ContainsAny(Lower(Join(window, " ")), terms)
  {
    var pre := FocusEndsWithLast(window);
    var k :| 0 <= k < |terms| && Contains(Lower(last), terms[k]);
    ContainsRight(pre, Lower(last), terms[k]);
    ContainsAnyAt(Lower(Join(window, " ")), terms, k);
  }

  /** The focus text of a window ends with its last text, lower-cased. */
  lemma FocusEndsWithLast(window: seq<string>) returns (pre: string)
    requires window != []
    ensures Lower(Join(window, " ")) == pre + Lower(window[|window| - 1])
  {
    var init := JoinInit(window, " ");
    LowerConcat(init, window[|window| - 1]);
    pre := Lower(init);
  }

  /** On a multiple of five past the first five messages, a suggestion is
      made unless no recent text is genuine. */
  lemma WellnessDueOnFives(messageCount: nat, recent: seq<string>)
    requires 5 <= messageCount && messageCount % 5 == 0
    requires ShouldSuggestWellness(messageCount, recent) == None
    ensures Genuine(recent) == []
  {
  }

  /** A safety reminder is due only on turns where the wellness check would
      already have spoken, unless no message had been exchanged yet or every
      recent text was an earlier suggestion: on a turn that is a multiple of
      10 the general suggestion (a multiple of 5) fires first. */
  lemma ReminderOnlyWithoutGenuineTexts(messageCount: nat, recent: seq<string>)
    requires ShouldShowSafetyReminder(messageCount)
    requires ShouldSuggestWellness(messageCount, recent) == None
    ensures messageCount == 0 || Genuine(recent) == []
  {
    if messageCount != 0 {
      TensAreFives(messageCount);
      WellnessDueOnFives(messageCount, recent);
    }
  }

  // A non-zero multiple of ten is a multiple of five of at least five.
  lemma TensAreFives(n: nat)
    requires n != 0 && n % 10 == 0
    ensures 5 <= n && n % 5 == 0
  {
    var q := n / 10;
    assert n == 5 * (2 * q);
  }

  /** The reminder is due on every tenth count and on none in between: the
      count after a due one repeats the pattern ten later, and the nine
      counts that follow a due one are all not due. */
  lemma RemindersAreTenApart(n: nat)
    ensures ShouldShowSafetyReminder(n + 10) == ShouldShowSafetyReminder(n)
    ensures ShouldShowSafetyReminder(n) ==> forall m :: n < m < n + 10 ==> !ShouldShowSafetyReminder(m)
  {
  }
}
