/** The safety gate and the wellness cadence of the chat
    (src/services/SafetyService.ts).

    The gate is a chain of case-insensitive substring tests over the whole
    message; the first test that matches decides the canned answer, and a
    message no test matches is passed on to the assistant. The wellness
    check looks at the message count and at the last transcript texts. */
module Safety {
  import opened Common
  import opened Strings

  // ---------------------------------------------------------------------
  // Vocabulary
  // ---------------------------------------------------------------------

  const ClearChatTerms: seq<string> := ["clear chat", "delete chat", "reset chat"]
  const MenuTerms: seq<string> := ["menu", "features", "what can you do"]
  const SettingsTerms: seq<string> := ["settings", "customize", "preferences"]

  const CrisisTerms: seq<string> := [
      "suicide",
      "kill myself",
      "want to die",
      "wanna die",
      "end my life",
      "hurt myself",
      "self harm",
      "self-harm",
      "cut myself",
      "don't want to live",
      "dont want to live",
      "better off dead"
    ]

  /** Words that send crisis wording to the crisis answer. */
  const SuicideWords: seq<string> := ["suicide", "die"]
  /** Words that send crisis wording to the self-harm answer. */
  const HarmWords: seq<string> := ["hurt", "harm"]

  const StressTerms: seq<string> := [
      "stressed",
      "anxiety",
      "anxious",
      "overwhelmed",
      "panic",
      "worried",
      "stress",
      "cant breathe",
      "can't breathe",
      "racing",
      "nervous",
      "tense",
      "pressure",
      "freaking out",
      "scared"
    ]

  const IdentityQuestions: seq<string> := [
      "who are you",
      "who r u",
      "what are you",
      "what r u",
      "whats ur name",
      "what's your name",
      "your name",
      "ur name",
      "who is this",
      "what is this"
    ]

  /** Model and vendor names, and hacking vocabulary. */
  const BlockedTerms: seq<string> := [
      "gemini",
      "gpt",
      "openai",
      "chatgpt",
      "anthropic",
      "claude",
      "hack",
      "exploit",
      "bypass",
      "crack",
      "steal"
    ]

  const InjectionTerms: seq<string> :=
    ["pretend", "roleplay", "ignore previous", "system prompt", "you are not"]

  const NegativeMoodTerms: seq<string> := [
      "sad",
      "depressed",
      "lonely",
      "upset",
      "angry",
      "frustrated",
      "tired",
      "exhausted",
      "hopeless",
      "miserable",
      "worthless",
      "hate",
      "crying"
    ]

  // ---------------------------------------------------------------------
  // Canned texts
  // ---------------------------------------------------------------------

  const ClearChatHelp: string :=
    "You can clear the chat in two ways:\n\U{2022} Click outside the text box and press 'C'\n\U{2022} Or click the menu icon and select \"Clear Chat\"\nThis will reset our conversation while keeping the initial greeting."
  const MenuHelp: string :=
    "The menu (plus icon) at the bottom left contains several helpful features:\n\U{2022} Track Mood (M) - Log how you're feeling\n\U{2022} Mood History (H) - View your mood patterns\n\U{2022} Breathing Exercise (B) - Guided breathing\n\U{2022} Emergency Resources (R) - Crisis support\n\U{2022} Settings (S) - Customize the app\n\U{2022} Clear Chat (C) - Reset conversation\nYou can either click these in the menu or use the keyboard shortcuts (shown in parentheses) when not typing."
  const SettingsHelp: string :=
    "You can access settings in two ways:\n\U{2022} Click outside the text box and press 'S'\n\U{2022} Or click the gear icon in the top right\nHere you can customize:\n\U{2022} Theme (light/dark)\n\U{2022} Text size\n\U{2022} Message spacing\n\U{2022} Sound effects\n\U{2022} Notifications\n\U{2022} Keyboard shortcuts\nAnd more!"
  const CrisisResponse: string :=
    "I'm very concerned about what you're telling me. Your life has value, and there are people who want to help:\n\nIMMEDIATE HELP AVAILABLE 24/7:\n\U{2022} Emergency: Call 911 (US) or your local emergency number\n\U{2022} 988 Suicide & Crisis Lifeline: Call or text 988\n\U{2022} Crisis Text Line: Text HOME to 741741\n\nWould you like me to:\n1. Share more crisis resources?\n2. Help you create a safety plan?\n3. Talk about what's causing these feelings?\n\nPlease know you're not alone in this. Professional help is available and can make a real difference."
  const SelfHarmResponse: string :=
    "I'm concerned about your thoughts of self-harm. Your pain is real, but hurting yourself isn't the answer. Help is available:\n\n\U{2022} Call 988 for immediate support (24/7)\n\U{2022} Text HOME to 741741 to reach Crisis Text Line\n\U{2022} Reach out to a trusted friend, family member, or counselor\n\nWould you like to:\n1. Talk about what's causing these thoughts?\n2. Learn about alternatives to self-harm?\n3. Get connected with professional support?\n\nYou deserve support and care, not harm."
  const IdentityResponse: string :=
    "I am SerenityAI, your therapeutic companion. I'm here to provide emotional support and a safe space for conversation. I want to be clear that I'm an AI designed to listen and support you, but I'm not a replacement for professional mental health care."
  const BlockedResponse: string :=
    "I am SerenityAI, focused on providing emotional support within ethical boundaries. I cannot assist with that request."
  /** The rotating refusals for manipulation attempts. */
  const ExploitationResponses: seq<string> := [
      "I am SerenityAI, and I'm designed to provide emotional support within ethical boundaries. I cannot assist with that request.",
      "That goes beyond my ethical guidelines as SerenityAI. I'm here to help with emotional well-being in a safe, responsible way.",
      "As SerenityAI, my purpose is to support your emotional health while maintaining strict ethical standards. I cannot help with that."
    ]

  // Fixed pieces of the suggestion texts, by which the wellness check
  // recognises a suggestion it made earlier.
  const ClickOutside: string := "Click outside the text box"
  const NoticeFeeling: string := "I notice you're feeling"
  const CareWellBeing: string := "I care about your well-being"

  const BreathingSuggestion: string :=
    NoticeFeeling + " stressed. Would you like to try a breathing exercise? You can:\n\U{2022} " + ClickOutside + " and press 'B'\n\U{2022} Or click the menu icon and select \"Breathing Exercise\"\nTaking a few deep breaths together might help you feel more centered."
  const MoodTrackingSuggestion: string :=
    "I'd like to check in on how you're feeling. Would you like to track your mood? You can:\n\U{2022} " + ClickOutside + " and press 'M'\n\U{2022} Or click the menu icon and select \"Track Mood\"\nThis can help us better understand your emotions and track your well-being over time."
  const GeneralWellnessSuggestion: string :=
    CareWellBeing + ". You can access these features by clicking outside the text box and using shortcuts, or using the menu:\n\U{2022} Track your mood (Press 'M' or use menu)\n\U{2022} Try breathing exercises (Press 'B' or use menu)\n\U{2022} View your mood history (Press 'H' or use menu)\n\U{2022} Access support resources (Press 'R' or use menu)\nWould you like to try any of these?"

  const SafetyReminders: seq<string> := [
      "I am SerenityAI, your therapeutic companion focused on emotional support.",
      "I cannot provide medical diagnoses or replace professional medical care.",
      "If you're experiencing a medical emergency, please contact emergency services.",
      "I maintain strict ethical boundaries and cannot assist with harmful activities.",
      "Your privacy and safety are my top priorities."
    ]

  /** Every text the gate can answer with. */
  const CannedResponses: seq<string> :=
    [ClearChatHelp, MenuHelp, SettingsHelp, CrisisResponse, SelfHarmResponse,
     BreathingSuggestion, IdentityResponse, BlockedResponse] + ExploitationResponses

  // ---------------------------------------------------------------------
  // The gate
  // ---------------------------------------------------------------------

  /** The tests of the gate, in the order the gate applies them. */
  datatype Rule =
    | ClearChatRule | MenuRule | SettingsRule
    | CrisisRule | SelfHarmRule
    | StressRule | IdentityRule | BlockedRule | InjectionRule

  /** `{ isValid, response? }`: `isValid` means the message may go on to
      the assistant. */
  datatype Verdict = Verdict(isValid: bool, response: Option<string>)

  /** The chain of tests over the lower-cased message. Crisis wording with
      none of the sub-branch words leaves the crisis block without an answer
      and is tested against the later rules. */
  function Classify(lower: string): Option<Rule>
  {
    if ContainsAny(lower, ClearChatTerms) then Some(ClearChatRule)
    else if ContainsAny(lower, MenuTerms) then Some(MenuRule)
    else if ContainsAny(lower, SettingsTerms) then Some(SettingsRule)
    else if ContainsAny(lower, CrisisTerms) && ContainsAny(lower, SuicideWords) then Some(CrisisRule)
    else if ContainsAny(lower, CrisisTerms) && ContainsAny(lower, HarmWords) then Some(SelfHarmRule)
    else if ContainsAny(lower, StressTerms) then Some(StressRule)
    else if ContainsAny(lower, IdentityQuestions) then Some(IdentityRule)
    else if ContainsAny(lower, BlockedTerms) then Some(BlockedRule)
    else if ContainsAny(lower, InjectionTerms) then Some(InjectionRule)
    else None
  }

  /** The answer of a rule; `pick` is the `Math.floor(Math.random() * 3)`
      index into the rotating refusals. */
  function Respond(rule: Rule, pick: nat): (r: string)
    requires pick < |ExploitationResponses|
    ensures r != ""
    ensures rule == InjectionRule ==> r in ExploitationResponses
  {
    match rule
    case ClearChatRule => ClearChatHelp
    case MenuRule => MenuHelp
    case SettingsRule => SettingsHelp
    case CrisisRule => CrisisResponse
    case SelfHarmRule => SelfHarmResponse
    case StressRule => BreathingSuggestion
    case IdentityRule => IdentityResponse
    case BlockedRule => BlockedResponse
    case InjectionRule => ExploitationResponses[pick]
  }

  /** Every answer is one of the gate's canned texts. */
  lemma AnswersAreCanned(rule: Rule, pick: nat)
    requires pick < |ExploitationResponses|
    ensures Respond(rule, pick) in CannedResponses
  {
  }

  /** The rotating refusals answer manipulation attempts and nothing else. */
  lemma OnlyInjectionIsRefused(rule: Rule, pick: nat)
    requires pick < |ExploitationResponses|
    ensures Respond(rule, pick) in ExploitationResponses <==> rule == InjectionRule
  {
  }

  // The same gate as an ordered rule table, the independent reference the
  // chain of tests is checked against.

  /** A rule fires when the message holds one of its terms and, if it has
      qualifiers, also one of those. */
  datatype RuleSpec = RuleSpec(rule: Rule, terms: seq<string>, qualifiers: seq<string>)

  const RuleTable: seq<RuleSpec> := [
    RuleSpec(ClearChatRule, ClearChatTerms, []),
    RuleSpec(MenuRule, MenuTerms, []),
    RuleSpec(SettingsRule, SettingsTerms, []),
    RuleSpec(CrisisRule, CrisisTerms, SuicideWords),
    RuleSpec(SelfHarmRule, CrisisTerms, HarmWords),
    RuleSpec(StressRule, StressTerms, []),
    RuleSpec(IdentityRule, IdentityQuestions, []),
    RuleSpec(BlockedRule, BlockedTerms, []),
    RuleSpec(InjectionRule, InjectionTerms, [])
  ]

  predicate Fires(spec: RuleSpec, lower: string)
  {
    ContainsAny(lower, spec.terms) && (spec.qualifiers == [] || ContainsAny(lower, spec.qualifiers))
  }

  /** Rule `k` of the table fires and no earlier rule does. */
  predicate IsFirstFiring(lower: string, k: int)
  {
    && 0 <= k < |RuleTable|
    && Fires(RuleTable[k], lower)
    && forall j :: 0 <= j < k ==> !Fires(RuleTable[j], lower)
  }

  /** Index of the first rule at or after `from` that fires. */
  function FirstFiring(table: seq<RuleSpec>, lower: string, from: nat): (r: Option<nat>)
    requires from <= |table|
    ensures r.Some? ==> from <= r.value < |table| && Fires(table[r.value], lower)
    ensures r.Some? ==> forall j :: from <= j < r.value ==> !Fires(table[j], lower)
    ensures r.None? <==> forall j :: from <= j < |table| ==> !Fires(table[j], lower)
    decreases |table| - from
  {
    if from == |table| then None
    else if Fires(table[from], lower) then Some(from)
    else FirstFiring(table, lower, from + 1)
  }

  /** The chain of tests selects exactly the first rule of the table that
      fires: the priority order is the order of the table. */
  lemma ClassifyFollowsTable(lower: string)
    ensures Classify(lower).None? <==> forall k :: 0 <= k < |RuleTable| ==> !Fires(RuleTable[k], lower)
    ensures Classify(lower).Some? ==>
      exists k :: IsFirstFiring(lower, k) && RuleTable[k].rule == Classify(lower).value
  {
    var r := FirstFiring(RuleTable, lower, 0);
    assert Fires(RuleTable[0], lower) <==> ContainsAny(lower, ClearChatTerms);
    assert Fires(RuleTable[1], lower) <==> ContainsAny(lower, MenuTerms);
    assert Fires(RuleTable[2], lower) <==> ContainsAny(lower, SettingsTerms);
    assert Fires(RuleTable[3], lower) <==> ContainsAny(lower, CrisisTerms) && ContainsAny(lower, SuicideWords);
    assert Fires(RuleTable[4], lower) <==> ContainsAny(lower, CrisisTerms) && ContainsAny(lower, HarmWords);
    assert Fires(RuleTable[5], lower) <==> ContainsAny(lower, StressTerms);
    assert Fires(RuleTable[6], lower) <==> ContainsAny(lower, IdentityQuestions);
    assert Fires(RuleTable[7], lower) <==> ContainsAny(lower, BlockedTerms);
    assert Fires(RuleTable[8], lower) <==> ContainsAny(lower, InjectionTerms);
    if r.Some? {
      var k := r.value;
      assert IsFirstFiring(lower, k);
    }
  }

  /** `checkMessageSafety`: answers the message locally when a rule
      fires, and passes it on otherwise. Which rule answers is stated by
      `GateFollowsTable`. */
  function CheckMessageSafety(message: string, pick: nat): (v: Verdict)
    requires pick < |ExploitationResponses|
    ensures v.isValid <==> v.response == None
    ensures v.response.Some? ==> v.response.value != ""
  {
    var lower := Lower(message);
    match Classify(lower)
    case None => Verdict(true, None)
    case Some(rule) => Verdict(false, Some(Respond(rule, pick)))
  }

  /** The gate only ever answers with one of its canned texts. */
  lemma GateAnswersAreCanned(message: string, pick: nat)
    requires pick < |ExploitationResponses|
    ensures var v := CheckMessageSafety(message, pick);
      v.response.Some? ==> v.response.value in CannedResponses
  {
    if Classify(Lower(message)).Some? {
      AnswersAreCanned(Classify(Lower(message)).value, pick);
    }
  }

  /** The gate passes a message exactly when no rule of the table fires on
      its lower-cased text, and otherwise answers with the first rule that
      fires. */
  lemma GateFollowsTable(message: string, pick: nat)
    requires pick < |ExploitationResponses|
    ensures var v := CheckMessageSafety(message, pick);
      && (v.isValid <==> forall k :: 0 <= k < |RuleTable| ==> !Fires(RuleTable[k], Lower(message)))
      && (!v.isValid ==>
            exists k :: IsFirstFiring(Lower(message), k) && v.response == Some(Respond(RuleTable[k].rule, pick)))
  {
    ClassifyFollowsTable(Lower(message));
  }

  // ---------------------------------------------------------------------
  // Wellness suggestions and safety reminders
  // ---------------------------------------------------------------------

  /** A transcript text holding one of these (case-sensitively) is taken
      to be an earlier suggestion. */
  const WellnessMarkers: seq<string> := [ClickOutside, NoticeFeeling, CareWellBeing]

  predicate IsWellnessEcho(text: string)
  {
    ContainsAny(text, WellnessMarkers)
  }

  /** The texts that are not earlier suggestions, in order. */
  function Genuine(texts: seq<string>): (r: seq<string>)
    ensures |r| <= |texts|
  {
    if texts == [] then []
    else if IsWellnessEcho(texts[0]) then Genuine(texts[1..])
    else [texts[0]] + Genuine(texts[1..])
  }

  /** The filter keeps texts of the transcript that are not suggestions,
      and leaves nothing exactly when every text is one. */
  lemma {:induction false} GenuineFilters(texts: seq<string>)
    ensures forall i :: 0 <= i < |Genuine(texts)| ==> Genuine(texts)[i] in texts && !IsWellnessEcho(Genuine(texts)[i])
    ensures Genuine(texts) == [] <==> forall i :: 0 <= i < |texts| ==> IsWellnessEcho(texts[i])
  {
    if texts != [] {
      GenuineFilters(texts[1..]);
      assert forall i :: 1 <= i < |texts| ==> texts[i] == texts[1..][i - 1];
    }
  }

  /** The lower-cased, space-joined last three genuine texts. */
  function WellnessFocus(recent: seq<string>): string
  {
    Lower(Join(LastN(Genuine(recent), 3), " "))
  }

  /** `shouldSuggestWellness`: at most one suggestion, `None` standing for
      `{ shouldShow: false }`. */
  function ShouldSuggestWellness(messageCount: nat, recent: seq<string>): (r: Option<string>)
    ensures messageCount < 5 ==> r == None
    ensures Genuine(recent) == [] ==> r == None
    ensures 5 <= messageCount && messageCount % 5 == 0 && Genuine(recent) != [] ==> r.Some?
  {
    if messageCount >= 5 then
      var userMessages := Genuine(recent);
      if |userMessages| == 0 then None
      else SuggestionFor(messageCount, Lower(Join(LastN(userMessages, 3), " ")))
    else None
  }

  /** The choice among the suggestions once there is a genuine text, from
      the focus text of the last ones. */
  function SuggestionFor(messageCount: nat, lastUserMessages: string): Option<string>
  {
    if ContainsAny(lastUserMessages, StressTerms) then Some(BreathingSuggestion)
    else if ContainsAny(lastUserMessages, NegativeMoodTerms) then Some(MoodTrackingSuggestion)
    else if messageCount % 5 == 0 then Some(GeneralWellnessSuggestion)
    else None
  }

  /** The three suggestions are different texts. */
  lemma SuggestionsDiffer()
    ensures BreathingSuggestion != MoodTrackingSuggestion
    ensures BreathingSuggestion != GeneralWellnessSuggestion
    ensures MoodTrackingSuggestion != GeneralWellnessSuggestion
  {
    assert |BreathingSuggestion| < |MoodTrackingSuggestion| < |GeneralWellnessSuggestion|;
  }

  /** Which suggestion is made: one of the three; the general one only on
      a multiple of five; the breathing one exactly when stress wording is
      in the focus text of the last genuine texts. */
  lemma SuggestionChoice(messageCount: nat, recent: seq<string>)
    ensures var r := ShouldSuggestWellness(messageCount, recent);
      && (r.Some? ==> r.value in [BreathingSuggestion, MoodTrackingSuggestion, GeneralWellnessSuggestion])
      && (r == Some(GeneralWellnessSuggestion) ==> messageCount % 5 == 0)
      && (r == Some(BreathingSuggestion) <==>
            5 <= messageCount && Genuine(recent) != [] && ContainsAny(WellnessFocus(recent), StressTerms))
  {
    SuggestionsDiffer();
  }

  /** The full decision once five messages have been exchanged and a
      genuine text is left: breathing for stress wording in the focus text,
      else mood tracking for negative wording, else the general suggestion
      on a multiple of five, else nothing. */
  lemma SuggestionCases(messageCount: nat, recent: seq<string>)
    requires 5 <= messageCount && Genuine(recent) != []
    ensures var r := ShouldSuggestWellness(messageCount, recent);
      var focus := WellnessFocus(recent);
      && (ContainsAny(focus, StressTerms) ==> r == Some(BreathingSuggestion))
      && (!ContainsAny(focus, StressTerms) && ContainsAny(focus, NegativeMoodTerms) ==>
            r == Some(MoodTrackingSuggestion))
      && (!ContainsAny(focus, StressTerms) && !ContainsAny(focus, NegativeMoodTerms) ==>
            r == (if messageCount % 5 == 0 then Some(GeneralWellnessSuggestion) else None))
  {
  }

  /** `shouldShowSafetyReminder`. */
  predicate ShouldShowSafetyReminder(messageCount: nat)
  {
    messageCount % 10 == 0
  }

  /** `getRandomSafetyReminder`, with the random index passed in. */
  function GetRandomSafetyReminder(pick: nat): (r: string)
    requires pick < |SafetyReminders|
    ensures r in SafetyReminders && r != ""
  {
    SafetyReminders[pick]
  }
}
