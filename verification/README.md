# SerenityAI message pipeline in Dafny

SerenityAI is a browser chat companion. This project models its core: the
path a typed message takes from the chat screen to the language model and
back, plus the small stores the screen writes to.

- **Safety gate** (`Safety`). This is `checkMessageSafety`: a
  priority-ordered, case-insensitive substring classifier. It answers
  navigation questions, crisis and self-harm wording, stress wording,
  identity questions, vendor or hacking terms and manipulation attempts
  locally. Everything else passes.
  - The module also holds the wellness cadence: `shouldSuggestWellness`,
    `shouldShowSafetyReminder` and `getRandomSafetyReminder`.
  - The chain of tests is checked against an independent ordered rule table.
- **Conversation engine** (`Gemini`). This is `generateResponse`.
  - Three early exits answer locally: the opening greeting, the gibberish
    test and the short greeting.
  - Otherwise the user's turn is appended to a bounded history, the history
    goes to the model behind the system prompt, and the reply is tagged with
    a heuristic sentiment.
  - The model is an input (`ModelAnswer`: an answer or a failure). The
    request the engine would send is part of the result.
  - The module also covers `isGibberish`, `getSystemPrompt`,
    `analyzeSentiment` and `resetChat`.
- **Assistant facade** (`Assistant`). This is `AIService.getResponse`. It
  answers questions about the user's name from the stored name and hands
  every other message to the engine. `setUserName` stores the name and
  resets the conversation.
- **Turn pipeline** (`Chat`). These are the chat screen's
  `handleSendMessage`, `confirmClearChat` and `handleMoodSelect`, as
  transitions of the visible transcript.
- **Mood ledger** (`Mood`): append, windowed average and half-split trend.
- **Session store** (`Storage`): a newest-first session list capped at 50,
  the settings round trip and the feedback update.
- **Keyboard shortcuts** (`Shortcuts`): the decision from a key event to at
  most one action, and the shortcut table.

The browser store is modelled as three slots (`Types.LocalStore`). Each
slot holds one of three things:

- nothing (`Absent`);
- unreadable content (`Unreadable`);
- the parsed value (`Holds`).

The clock, `Math.random` and the model's answers are parameters. In `Chat`
they are bundled as `Luck`.

Every `*_facts.dfy` file holds lemmas about the module of the same name.

Where the code behaves differently from what its comments or names suggest,
this model follows the code:

- The comment at `src/services/SafetyService.ts:153` calls the crisis test
  the highest priority. The navigation help (clear chat, menu, settings) at
  lines 132-151 is tested before it, so "clear chat, i want to die" gets the
  clear-chat help.
- "kill myself" is one of the crisis terms (`SafetyService.ts:7-11`). Crisis
  wording that contains none of "suicide", "die", "hurt" or "harm" leaves the
  crisis block at lines 154-166 without an answer. "i want to kill myself"
  matches no later rule, so it passes the gate and reaches the model.
- The gibberish test normalises the text (`GeminiService.ts:30-31`), but its
  length test at line 45 uses the raw length, not the trimmed one.
- The comment at `SafetyService.ts:221` says only user messages are checked
  for wellness wording. The filter at lines 222-226 drops only texts that
  carry one of three phrases, so ordinary assistant replies are kept and
  checked too.
- The comment at `GeminiService.ts:144` says the history keeps the last 10
  messages. A failed model call (lines 155-161) keeps the user turn already
  pushed at lines 120-125 and skips the trim, so the history can grow past
  10.

## Model

| member | source | states |
|---|---|---|
| Safety.CheckMessageSafety | src/services/SafetyService.ts:128-207 | a message passes exactly when no answer is attached, and every attached answer is non-empty |
| Safety.GateFollowsTable | src/services/SafetyService.ts:128-206 | the gate passes a message iff no rule of the ordered table fires on its lower-cased text; otherwise it answers with the response of the first rule that fires |
| Safety.ClassifyFollowsTable | src/services/SafetyService.ts:132-204 | the chain of `if` tests selects exactly the first firing rule of the table (the priority order is the table order); it selects nothing iff no rule fires |
| Safety.Classify | src/services/SafetyService.ts:132-204 | the source's chain of tests on the lower-cased text: navigation, then crisis with a qualifier, stress, identity, blocked and injection wording; its contract is Safety.ClassifyFollowsTable |
| Safety.FirstFiring | src/services/SafetyService.ts:132-204 | the scan returns the first index at or after the start whose rule fires, or nothing iff none fires |
| Safety.Respond | src/services/SafetyService.ts:132-203 | each rule's answer is non-empty, and the injection rule answers with one of the three rotating refusals |
| Safety.AnswersAreCanned | src/services/SafetyService.ts:132-203 | every rule answers with one of the gate's fixed texts |
| Safety.OnlyInjectionIsRefused | src/services/SafetyService.ts:193-203 | an answer is one of the rotating refusals iff the rule is the manipulation rule |
| Safety.GateAnswersAreCanned | src/services/SafetyService.ts:128-206 | whatever the gate answers is one of its fixed texts, whichever random index was drawn |
| Safety.GenuineFilters | src/services/SafetyService.ts:222-226 | the filter keeps only texts from the input that carry none of the three suggestion markers, and leaves nothing iff every text carries one |
| Safety.ShouldSuggestWellness | src/services/SafetyService.ts:218-247 | no suggestion below five messages or without a genuine recent text; with one, a multiple of five always brings a suggestion |
| Safety.SuggestionChoice | src/services/SafetyService.ts:230-243 | a suggestion is one of the three texts; the general one comes only on a multiple of five; breathing comes iff stress wording is in the focus text of the last genuine texts |
| Safety.SuggestionCases | src/services/SafetyService.ts:230-246 | once five messages have passed and a genuine text remains: stress wording gives breathing, else negative wording gives mood tracking, else a multiple of five gives the general suggestion, else nothing |
| Safety.SuggestionsDiffer | src/services/SafetyService.ts:25-42 | the three suggestion texts are pairwise different |
| Safety.GetRandomSafetyReminder | src/services/SafetyService.ts:209-211 | the drawn reminder is one of the fixed reminders and is non-empty |
| Safety.ShouldShowSafetyReminder | src/services/SafetyService.ts:213-216 | a reminder is due when the count is a multiple of ten; its period is stated in SafetyFacts.RemindersAreTenApart |
| SafetyFacts.CheckIsCaseInsensitive | src/services/SafetyService.ts:129 | a message and its lower-cased form get the same verdict |
| SafetyFacts.EmptyMessagePasses | src/services/SafetyService.ts:128-206 | the empty message is never intercepted |
| SafetyFacts.NavigationBeforeCrisis | src/services/SafetyService.ts:132-166 | "clear chat, i want to die" holds crisis wording yet gets the clear-chat help |
| SafetyFacts.CrisisSubBranches | src/services/SafetyService.ts:154-165 | crisis wording with "suicide" or "die" gets the crisis answer; otherwise, with "hurt" or "harm", it gets the self-harm answer |
| SafetyFacts.CrisisWithoutQualifierFallsThrough | src/services/SafetyService.ts:153-206 | crisis wording without any of the four qualifiers gets neither crisis answer, and passes iff none of the other rules fires |
| SafetyFacts.QualifiersMissing | src/services/SafetyService.ts:153-166 | without a qualifier neither crisis rule fires |
| SafetyFacts.KillMyselfPasses | src/services/SafetyService.ts:154-206 | "i want to kill myself" holds the crisis term "kill myself" and still passes the gate |
| SafetyFacts.KillMyselfCapitalisedPasses | src/services/SafetyService.ts:128-206 | "I want to kill myself" passes the gate too |
| SafetyFacts.BreathingIsEcho | src/services/SafetyService.ts:222-226 | the breathing suggestion is removed by the filter |
| SafetyFacts.MoodTrackingIsEcho | src/services/SafetyService.ts:222-226 | the mood-tracking suggestion is removed by the filter |
| SafetyFacts.GeneralWellnessIsEcho | src/services/SafetyService.ts:222-226 | the general suggestion is removed by the filter |
| SafetyFacts.GenuineConcat | src/services/SafetyService.ts:222-226 | filtering a concatenation concatenates the filtered parts |
| SafetyFacts.SameFocusSameSuggestion | src/services/SafetyService.ts:218-247 | the decision depends on the recent texts only through whether a genuine text exists and through the focus text |
| SafetyFacts.EchoesDoNotCount | src/services/SafetyService.ts:222-228 | appending an earlier suggestion to the recent texts never changes the decision |
| SafetyFacts.OnlyLastThreeGenuineCount | src/services/SafetyService.ts:230 | with three genuine texts present, earlier texts never change the decision |
| SafetyFacts.StressInLatestTextSuggestsBreathing | src/services/SafetyService.ts:230-234 | after five messages, stress wording in the newest genuine text gives the breathing suggestion |
| SafetyFacts.WellnessDueOnFives | src/services/SafetyService.ts:240-243 | on a multiple of five (at least five), no suggestion means no genuine recent text |
| SafetyFacts.ReminderOnlyWithoutGenuineTexts | src/services/SafetyService.ts:213-247 | when a reminder is due and no suggestion is made, the count is 0 or no recent text is genuine |
| SafetyFacts.RemindersAreTenApart | src/services/SafetyService.ts:213-216 | the reminder pattern repeats every ten counts, and the nine counts after a due one are not due |
| Gemini.RepeatFrom | src/services/GeminiService.ts:50 | the scan finds a match of `(.)\1{4,}` at or after the start iff one exists |
| Gemini.IsGibberish | src/services/GeminiService.ts:29-52 | a whitelisted greeting (after lower-casing and trimming) is never gibberish; any other text is gibberish iff it is shorter than two characters, has no ASCII letter, or repeats a non-line-break character five times in a row |
| Gemini.SystemPrompt | src/services/GeminiService.ts:54-79 | `getSystemPrompt`: the fixed guidelines, the name in the greeting line and the personalisation block when a name is known; its properties are in GeminiFacts.NamedPromptPersonalizes, GeminiFacts.UnnamedPromptIsNotPersonal and GeminiFacts.PromptEndsWithSafetyProtocol |
| Gemini.IsShortGreeting | src/services/GeminiService.ts:105-110 | the short-greeting test: raw length below ten, at most one context text, not blank, and a greeting word inside the trimmed lower-cased text; GeminiFacts.GreetingInsideAWord shows the substring match |
| Gemini.Hits | src/services/GeminiService.ts:169-170 | the filtered words are list words occurring in the text, each list word occurring in the text is among them, and there are at most as many as the list has |
| GeminiFacts.HitsWithinList | src/services/GeminiService.ts:169-170 | the filter keeps no word more often than the list holds it (a sub-multiset of the list) |
| Gemini.AnalyzeSentiment | src/services/GeminiService.ts:164-175 | positive iff more positive than negative list words occur in the lower-cased text, negative iff the reverse, neutral on a tie |
| Gemini.WithUserTurn | src/services/GeminiService.ts:119-125 | a blank message leaves the history as it is; otherwise exactly one user turn with the message is appended |
| Gemini.AskModel | src/services/GeminiService.ts:119-161 | the request is the system prompt followed by the pushed history; a failure answers with the fixed apology (neutral) and keeps the pushed user turn; an answer is returned with its sentiment, and the history becomes the last ten turns of pushed history plus the answer |
| Gemini.GenerateResponse | src/services/GeminiService.ts:81-162 | the opening greeting, the gibberish notice and the short greeting are answered in that order without a request and without touching the history; the model is asked iff none of them applies |
| Gemini.ResetChat | src/services/GeminiService.ts:177-213 | after a reset the history is empty if the model fails, otherwise it is the unnamed system prompt and the model's answer |
| GeminiFacts.WhitelistEntriesAreLong | src/services/GeminiService.ts:34-37 | every whitelisted greeting has at least two characters |
| GeminiFacts.ShortTextIsGibberish | src/services/GeminiService.ts:39-47 | every text shorter than two characters is gibberish |
| GeminiFacts.BlankIsGibberish | src/services/GeminiService.ts:29-52 | every blank text is gibberish |
| GeminiFacts.NonGibberishIsNotBlank | src/services/GeminiService.ts:97-125 | a text that is not gibberish is not blank, so the guard before the push never skips it |
| GeminiFacts.StretchedGreetingIsGibberish | src/services/GeminiService.ts:50-51 | "heyyyyy" is gibberish |
| GeminiFacts.CapitalisedGreetingIsNot | src/services/GeminiService.ts:31-42 | "Hello" is not gibberish |
| GeminiFacts.NoLetterIsGibberish | src/services/GeminiService.ts:50-51 | "123?!" is gibberish |
| GeminiFacts.RepeatedLineBreaksAreNot | src/services/GeminiService.ts:50-51 | "ok" followed by five line breaks is not gibberish, because `.` does not match a line break |
| GeminiFacts.EmptyMessageLaterIsGibberish | src/services/GeminiService.ts:88-102 | an empty message with a non-empty context gets the gibberish notice, not the opening greeting |
| GeminiFacts.ModelAlwaysSeesTheMessage | src/services/GeminiService.ts:119-133 | whenever the model is asked, the request ends with the user's message as a user turn |
| GeminiFacts.SuccessEndsWithTheExchange | src/services/GeminiService.ts:119-149 | after an answer, the history holds 2 to 10 turns and ends with the user's turn and the model's answer |
| GeminiFacts.FailureOverfillsHistory | src/services/GeminiService.ts:119-161 | a failure on a full history leaves one more turn than before, which is past the cap |
| GeminiFacts.GreetingInsideAWord | src/services/GeminiService.ts:104-117 | "nothing" contains "hi" and is answered with the short greeting |
| GeminiFacts.NamedPromptPersonalizes | src/services/GeminiService.ts:54-79 | with a non-empty name, the prompt contains the personalisation heading and the name |
| GeminiFacts.UnnamedPromptIsNotPersonal | src/services/GeminiService.ts:54-79 | the personalisation block is empty iff no name is known, and the prompt equals the unnamed prompt that `resetChat` sends iff no name is known |
| GeminiFacts.PromptEndsWithSafetyProtocol | src/services/GeminiService.ts:70-76 | every prompt ends with the safety protocol, whether or not a name is given |
| GeminiFacts.ResetForgetsTheName | src/services/GeminiService.ts:177-213 | the prompt installed by a reset is never the prompt of a named conversation |
| GeminiFacts.SentimentIgnoresCase | src/services/GeminiService.ts:168 | a text and its lower-cased form get the same sentiment |
| GeminiFacts.SentimentListsAreDistinct | src/services/GeminiService.ts:165-166 | neither sentiment word list repeats a word |
| GeminiFacts.HitsAreDistinct | src/services/GeminiService.ts:169-170 | over a list without repeats, the filter repeats no word, so its length is the number of distinct list words in the text |
| GeminiFacts.SentimentCountsAreDistinct | src/services/GeminiService.ts:165-170 | the two counts compared by `analyzeSentiment` count each occurring list word exactly once |
| GeminiFacts.NoHits | src/services/GeminiService.ts:169-170 | no list word in the text means no hits |
| GeminiFacts.OnlyPositiveWordsArePositive | src/services/GeminiService.ts:164-175 | a positive word and no negative word make a positive text |
| GeminiFacts.OnlyNegativeWordsAreNegative | src/services/GeminiService.ts:164-175 | a negative word and no positive word make a negative text |
| GeminiFacts.UnhappyReadsPositive | src/services/GeminiService.ts:164-175 | "I am unhappy" is positive, because "happy" is matched as a substring |
| Assistant.SetUserName | src/services/AIService.ts:12-16 | the name is stored and the history is reset: empty on a failed start, otherwise two turns ending with the model's answer |
| Assistant.AnswerNameQuestion | src/services/AIService.ts:86-109 | confidence 1; without a name, the ask-for-a-name reply (neutral, "open settings"); with one, a positive reply with no actions that contains the name, and that is the settings explanation when the question contains "how" and exactly "Your name is N. How can I help you today?" otherwise |
| Assistant.IsNameQuestion | src/services/AIService.ts:82-84 | a name question contains "name", "who am i", "how do you know" or "how did you know" in the trimmed lower-cased message; AssistantFacts.PetNameAnsweredWithUserName shows the substring match |
| Assistant.GetResponse | src/services/AIService.ts:79-119 | a name question is answered without a request and leaves the assistant unchanged; any other message is the engine's reply with confidence 0.9 and no actions, and the engine's history is kept |
| AssistantFacts.ApologyNeverProduced | src/services/AIService.ts:79-129 | every reply has confidence 1 or 0.9; the error handler's apology never appears |
| AssistantFacts.NameQuestionIgnoresModel | src/services/AIService.ts:82-110 | for a name question, the reply does not depend on what the model would answer, and the history is untouched |
| AssistantFacts.PetNameAnsweredWithUserName | src/services/AIService.ts:82-109 | "My dog's name is Rex" gets "Your name is Ana. …" when the stored name is Ana |
| AssistantFacts.HowDoYouKnowExplains | src/services/AIService.ts:95-102 | "How do you know me?" gets the settings explanation with the name |
| AssistantFacts.SetUserNameStartsOver | src/services/AIService.ts:12-16 | after setting a name, the new history opens with the unnamed prompt, not the named one |
| Mood.GetMoodEntries | src/services/MoodTracking.ts:25-42 | the stored list, or empty when the key is absent or unreadable |
| Mood.SaveMoodEntry | src/services/MoodTracking.ts:9-23 | the stored list becomes the list as read plus the new entry with the given value; the other keys are untouched |
| Mood.ClearMoodEntries | src/services/MoodTracking.ts:91-93 | nothing is read back afterwards, and the other keys are untouched |
| Mood.Recent | src/services/MoodTracking.ts:50-52 | every kept entry is a stored entry inside the window, every stored entry inside the window is kept, and the result is a sub-multiset of the stored list |
| MoodFacts.RecentConcat | src/services/MoodTracking.ts:50-52 | the window keeps stored order: the window of a concatenation is the concatenation of the windows |
| MoodFacts.RecentCounts | src/services/MoodTracking.ts:50-52 | each entry inside the window is kept as many times as it is stored, and every other entry is dropped |
| Mood.InWindow | src/services/MoodTracking.ts:50-52 | an entry is in the window when it is at most `days` whole days old; MoodFacts.WindowBoundary states the inclusive bound and future entries |
| Mood.MeanBetween | src/services/MoodTracking.ts:56-57 | a mean lies between any lower and any upper bound of the values |
| Mood.AverageMood | src/services/MoodTracking.ts:44-62 | no value iff the window is empty; otherwise the mean of the windowed values |
| Mood.Insert | src/services/MoodTracking.ts:72 | insertion into a time-ordered list keeps it ordered and adds exactly the new entry |
| Mood.SortByTime | src/services/MoodTracking.ts:70-72 | the sort yields a time-ordered permutation |
| Mood.InsertKeepsOrder | src/services/MoodTracking.ts:72 | insertion puts the entry before the entries with the same stamp and leaves the other stamps' entries as they were |
| Mood.SortIsStable | src/services/MoodTracking.ts:70-72 | for every stamp, the entries with that stamp keep their relative order |
| Mood.Classify | src/services/MoodTracking.ts:82-84 | stable iff the difference is strictly inside (-0.3, 0.3); improving iff it is at least 0.3; declining iff it is at most -0.3 |
| Mood.Timeline | src/services/MoodTracking.ts:70-72 | the windowed entries, as a time-ordered permutation |
| Mood.MoodTrend | src/services/MoodTracking.ts:64-89 | no value iff fewer than two entries are windowed; otherwise both halves are non-empty, the newer half has the extra entry, and the verdict classifies the difference of the half means |
| MoodFacts.SaveAppendsOne | src/services/MoodTracking.ts:9-23 | saving appends exactly one entry, with the value as given, after the earlier entries |
| MoodFacts.SaveOverUnreadable | src/services/MoodTracking.ts:9-42 | saving over unreadable content leaves only the new entry |
| MoodFacts.ClearThenRead | src/services/MoodTracking.ts:91-93 | after clearing, nothing is read and there is no average |
| MoodFacts.WindowBoundary | src/services/MoodTracking.ts:50-52 | an entry exactly `days` days old is inside the window, one a millisecond older is outside, and an entry dated after `now` is inside |
| MoodFacts.AverageBetweenExtremes | src/services/MoodTracking.ts:54-57 | the average lies between the lowest and the highest windowed value |
| MoodFacts.SortKeepsSorted | src/services/MoodTracking.ts:70-72 | sorting a time-ordered list changes nothing |
| MoodFacts.SortIdempotent | src/services/MoodTracking.ts:70-72 | sorting twice is sorting once |
| MoodFacts.RecentKeepsAll | src/services/MoodTracking.ts:50-52 | when every entry is inside the window, the window keeps the list as it is |
| MoodFacts.AverageExample | src/services/MoodTracking.ts:44-57 | values 2 and 4 inside the week average 3 |
| MoodFacts.TrendOfOrderedWindow | src/services/MoodTracking.ts:70-84 | for a time-ordered list entirely in the window, the trend classifies the difference of the means of its two halves |
| MoodFacts.TrendExample | src/services/MoodTracking.ts:64-84 | the ordered values 1, 1, 4, 5 are improving |
| MoodFacts.ThresholdIsNotStable | src/services/MoodTracking.ts:82-84 | the ordered values 1 and 1.3 are improving, not stable |
| MoodFacts.OddCountSplit | src/services/MoodTracking.ts:76-77 | the ordered values 5, 1, 1 compare 5 with 1 and are declining |
| Storage.GetSessions | src/services/StorageService.ts:20-39 | the stored list, or empty when the key is absent or unreadable |
| Storage.SaveSession | src/services/StorageService.ts:8-18 | the new session is first; it is followed by the earlier list cut to 49; the list never exceeds 50; the other keys are untouched |
| Storage.FirstOpen | src/services/StorageService.ts:43 | the position of the first session without an end time, or nothing iff every session has ended |
| Storage.GetCurrentSession | src/services/StorageService.ts:41-44 | the first stored session without an end time (every session before it has ended), or nothing iff every stored session has ended |
| Storage.ClearHistory | src/services/StorageService.ts:65-67 | no sessions are read back afterwards, and the other keys are untouched |
| Storage.SaveSettings | src/services/StorageService.ts:69-71 | the settings key holds the given preferences, and the other keys are untouched |
| Storage.GetSettings | src/services/StorageService.ts:73-81 | the stored preferences, or nothing iff the key is absent or unreadable |
| Storage.FirstWithId | src/services/StorageService.ts:85-87 | the position of the first element with the id (session or message), or nothing iff there is none |
| Storage.WithFeedback | src/services/StorageService.ts:89 | only the chosen message changes, and only by gaining the feedback |
| Storage.AddMessageFeedback | src/services/StorageService.ts:83-93 | an unknown session or message leaves the store as it is; otherwise the session with the feedback on its first matching message is saved in front |
| StorageFacts.SavedOpenSessionIsCurrent | src/services/StorageService.ts:8-44 | a session saved without an end time becomes the current session |
| StorageFacts.ClearThenRead | src/services/StorageService.ts:65-67 | after clearing there are no sessions and no current session |
| StorageFacts.SettingsRoundTrip | src/services/StorageService.ts:69-81 | saved settings are read back unchanged, and the sessions are untouched |
| StorageFacts.NoSettings | src/services/StorageService.ts:73-81 | absent or unreadable settings read as nothing |
| StorageFacts.FeedbackKeepsBound | src/services/StorageService.ts:83-93 | recording feedback never takes the list past 50 |
| StorageFacts.FeedbackKeepsStaleCopy | src/services/StorageService.ts:83-93 | below the cap, feedback puts an updated copy in front and keeps the unchanged stored copy one place further back, so the session id appears twice |
| StorageFacts.FeedbackEvictsOldest | src/services/StorageService.ts:83-93 | at the cap, feedback pushes the oldest session out |
| Chat.Texts | src/components/ChatInterface.tsx:332 | the texts of the transcript, one per bubble, in order |
| Chat.Trailer | src/components/ChatInterface.tsx:345-369 | the bubble after a reply is the wellness suggestion if there is one, otherwise the reminder if one is due, otherwise nothing, all decided on the transcript before the user's message |
| Chat.TrailerBubble | src/components/ChatInterface.tsx:351-356 | the trailing bubble is an assistant bubble with the clock reading as its timestamp and one past the reading as its id, which therefore differs from the reply's id |
| Chat.TrailerBubbles | src/components/ChatInterface.tsx:351-369 | at most one trailing bubble, present iff a trailer was chosen, and then the bubble stamped as `(Date.now() + 1).toString()` / `new Date()` |
| Chat.SendMessage | src/components/ChatInterface.tsx:298-378 | a blank text, or one sent while busy, changes nothing and sends nothing; otherwise the input is cleared, the busy flag ends false, and the error and the store are unchanged |
| Chat.Converse | src/components/ChatInterface.tsx:314-369 | when the gate answers, the turn is the intercepted one and no request is made; otherwise the turn is the passed one |
| Chat.Intercepted | src/components/ChatInterface.tsx:316-328 | the user's bubble and the gate's answer are appended, and the assistant is untouched |
| Chat.Passed | src/components/ChatInterface.tsx:330-369 | the user's bubble, the assistant's reply and the trailing bubble, if any, are appended, the reply and the trailer read at the same clock value; the assistant and the request are those of the reply |
| Chat.ConfirmClearChat | src/components/ChatInterface.tsx:414-422 | the transcript becomes exactly the greeting; everything else, the assistant's history included, stays |
| Chat.MoodBand | src/components/ChatInterface.tsx:501-512 | band 1 iff the value is at most 1, band 5 iff it is above 4, and otherwise the band is the integer interval the value falls in |
| Chat.HandleMoodSelect | src/components/ChatInterface.tsx:496-529 | the value is recorded in the mood ledger as given, and exactly one acknowledgement for its band is appended |
| ChatFacts.GateAnswerIsAppended | src/components/ChatInterface.tsx:316-328 | a message the gate answers appends the user's bubble and the answer, and the assistant is not asked |
| ChatFacts.ReplyIsAppended | src/components/ChatInterface.tsx:330-369 | a message that passes appends the user's bubble, the reply to it (with the earlier texts as context) and the trailer |
| ChatFacts.InterceptedShape | src/components/ChatInterface.tsx:302-328 | an intercepted turn keeps the transcript and appends the user's bubble followed only by assistant bubbles, two or three bubbles in all |
| ChatFacts.PassedShape | src/components/ChatInterface.tsx:302-369 | a passed turn keeps the transcript and appends the user's bubble followed by one or two assistant bubbles |
| ChatFacts.TurnShape | src/components/ChatInterface.tsx:298-369 | every turn that goes ahead keeps the transcript, appends the user's bubble first, and then one or two assistant bubbles |
| ChatFacts.InterceptedNeverReachesAssistant | src/components/ChatInterface.tsx:314-334 | an intercepted message sends no request, leaves the assistant as it was, and does not depend on what the model would answer |
| ChatFacts.NoTrailerEarlyOn | src/components/ChatInterface.tsx:345-369 | with one to four earlier bubbles no trailing bubble follows |
| ChatFacts.ReminderOnEmptyTranscript | src/components/ChatInterface.tsx:360-369 | on an empty transcript the reply is followed by a reminder |
| ChatFacts.ReminderNeedsEchoes | src/components/ChatInterface.tsx:345-369 | a reminder follows a reply only on an empty transcript, or when every one of the last three texts is an earlier suggestion |
| ChatFacts.ClearedChatHasNoTrailer | src/components/ChatInterface.tsx:414-420 | after clearing, a message that passes leaves exactly three bubbles |
| ChatFacts.MoodBandMonotone | src/components/ChatInterface.tsx:501-512 | a higher mood value never gets a lower band |
| ChatFacts.FirstMoodIsTheAverage | src/components/ChatInterface.tsx:496-498 | a mood chosen into an empty ledger is the average of every window |
| ChatFacts.WantToDieIsAnsweredByTheGate | src/components/ChatInterface.tsx:314-328 | "I want to die" shows the crisis answer right after the user's bubble, and no request is made |
| ChatFacts.KillMyselfFacts | src/components/ChatInterface.tsx:314-334 | "I want to kill myself" passes the gate, is not blank, is not a name question and is not gibberish |
| ChatFacts.KillMyselfReachesTheModel | src/components/ChatInterface.tsx:314-334 | "I want to kill myself" is sent to the model after the system prompt and the history |
| ChatFacts.HelloFacts | src/services/GeminiService.ts:97-117 | "hello" passes the gate, is not a name question, is not gibberish and holds a short greeting |
| ChatFacts.WithoutTrailer | src/components/ChatInterface.tsx:343-369 | when no trailer is due, a message that passes appends just the user's bubble and the reply |
| ChatFacts.HelloAnsweredByTheAssistant | src/services/GeminiService.ts:104-117 | with at most one earlier text, "hello" gets the short greeting and no request |
| ChatFacts.HelloOnOneBubble | src/components/ChatInterface.tsx:330-347 | with one bubble on screen, "hello" is answered locally with the short greeting |
| ChatFacts.HelloAfterClearingIsAnsweredLocally | src/components/ChatInterface.tsx:414-420 | right after clearing, "hello" gives exactly the greeting, the user's bubble and the short greeting, and no request |
| ChatFacts.LaterHelloReachesTheModel | src/services/GeminiService.ts:105 | with two or more bubbles on screen, "hello" is sent to the model |
| Shortcuts.Select | src/services/KeyboardShortcuts.ts:20-75 | inside a text field, Enter selects SendMessage iff none of Ctrl, Meta or Shift is held (and nothing otherwise), Escape always selects ClearInput, and nothing else is selected; outside, Ctrl or Meta select nothing, and neither SendMessage nor ClearInput is selected |
| Shortcuts.HandleKeyPress | src/services/KeyboardShortcuts.ts:16-75 | nothing fires when the shortcuts are disabled; an action fires only if it was selected and its handler is installed, and then it does fire |
| ShortcutsFacts.TableLettersDispatch | src/services/KeyboardShortcuts.ts:82-93 | every one-letter label of the table, typed in either case outside a text field without Ctrl or Meta, selects the action it labels |
| ShortcutsFacts.DispatchedLettersAreInTable | src/services/KeyboardShortcuts.ts:33-73 | every action a key selects outside a text field appears in the table under that letter, up to case |
| ShortcutsFacts.LettersIgnoreCase | src/services/KeyboardShortcuts.ts:33 | outside a text field a key and its lower-cased form select the same action |
| ShortcutsFacts.TextFieldKeys | src/services/KeyboardShortcuts.ts:23-30 | inside a text field only Enter and Escape select anything |
| ShortcutsFacts.EscLabelIsNotTheKey | src/services/KeyboardShortcuts.ts:88 | the table labels clearing the input "Esc", but a key reported as "Esc" selects nothing |
| ShortcutsFacts.EnterOutsideTextField | src/services/KeyboardShortcuts.ts:32-74 | Enter outside a text field selects nothing |
| ShortcutsFacts.ModifiersOnLetters | src/services/KeyboardShortcuts.ts:34-38 | Shift does not stop a letter from selecting its action; Ctrl and Meta do |
| Strings.Trim | src/services/GeminiService.ts:31 | the trimmed text is the inner slice with every leading and trailing space removed; a non-empty result starts and ends with a non-space |
| Strings.BlankIffAllSpace | src/components/ChatInterface.tsx:299 | a text is blank iff it consists of whitespace only |
| Strings.LastN | src/services/SafetyService.ts:230 | `slice(-n)`: the last min(n, length) elements |
| Common.Decimal | src/components/ChatInterface.tsx:303 | `Date.now().toString()`: a non-empty string of decimal digits whose value is the number, with no leading zero, and a single digit iff the number is below 10 |

## Left out

- Safety.CheckMessageSafety: to keep proofs small, the contract states only
  the shape of the verdict. Which rule answers is stated by
  Safety.GateFollowsTable, and that every answer is a fixed text is stated
  by Safety.GateAnswersAreCanned.
- Safety.Respond: the contract states only non-emptiness and the injection
  case. Safety.AnswersAreCanned and Safety.OnlyInjectionIsRefused state the
  rest.
- Safety.ShouldSuggestWellness: the contract states only when a suggestion
  is or is not made. Which suggestion is made is stated by
  Safety.SuggestionChoice and Safety.SuggestionCases.
- Chat.SendMessage: the contract states only the guard and the flags. What a
  turn appends is stated by ChatFacts.GateAnswerIsAppended,
  ChatFacts.ReplyIsAppended and ChatFacts.TurnShape.
- Chat.Converse: the contract only dispatches to Chat.Intercepted and
  Chat.Passed. Their contracts hold the content.
- GeminiFacts.UnnamedPromptIsNotPersonal: the converse of
  GeminiFacts.NamedPromptPersonalizes is stated structurally. Without a
  name, the personalisation block is empty and the prompt is the fixed
  unnamed one. That the heading text "Personalization:" occurs nowhere in
  the 786 characters of fixed guidelines is not proved. Facts about single
  characters of a string literal that long are beyond the solver's budget.
- Text: lower-casing covers only the ASCII letters. Lengths count
  characters rather than UTF-16 code units. These match the source for
  ASCII text.
- JSON and `localStorage`: parsing, the `Number(...)` conversions in
  `getMoodEntries`, and quota errors are abstracted into the three slot
  states. The `catch` branches of the mood functions therefore have
  nothing to catch. A slot is unreadable when it is empty or not valid JSON.
  The mood and session lists are also unreadable when they are not arrays:
  `getMoodEntries` tests for an array, and `getSessions` throws into its
  `catch`. Content that parses but has the wrong shape is not modelled:
  - `getSettings` returns any parsed JSON as it is;
  - `getSessions` converts the date fields of whatever objects it finds;
  - `getMoodEntries` turns malformed fields of array entries into `NaN`
    rather than dropping them.
  A readable slot is taken to hold a well-formed value.
- Chat.TrailerBubble: the reply and the trailing bubble are made in the same
  synchronous step, so both read the clock once, as `answeredAt`. A clock
  tick between the two `Date.now()` calls is not modelled.
- The clock and `Math.random` are parameters. No real time passes, and the
  1500 ms delay before a reply is not modelled.
- Floating point: mood values and averages are exact reals.
- The model SDK and its asynchrony: `generateContent` is an input, and so is
  the outcome of `initializeChat`. Gemini.ResetChat gives the history after
  the reset and after the start-up call that follows it. An
  `initializeChat` still in flight when a message is answered, which can
  overwrite that message's history, is not modelled.
- The error branch of `handleSendMessage` (src/components/ChatInterface.tsx:373-377)
  and the apology of `AIService.getResponse`: no modelled operation fails,
  so neither branch is reachable. AssistantFacts.ApologyNeverProduced states
  this for the assistant. The `|| 'neutral'` default for a missing sentiment
  is unreachable for the same reason.
- Presentation: sounds, notifications, scrolling, dialogs and panel flags
  are not modelled. The chat state is the one after the asynchronous work
  has finished; the busy flag's `true` phase is not a separate state.
- `handleResetAll`, `exportSessionHistory` and `downloadChatHistory`: these
  are storage wiping, locale date formatting and a DOM download.
- The placeholder helpers of `AIService` (`therapeuticResponses`,
  `analyzeText`, `selectResponse`): nothing calls them.
- Message ids: ids are the decimal clock reading, so two bubbles made in the
  same millisecond share an id. No operation here looks ids up in the
  transcript.
