/** The conversation engine (src/services/GeminiService.ts).

    The engine keeps a short history of user and model turns. A message is
    answered locally when it is the opening greeting, looks like gibberish or
    is a short greeting; otherwise it is appended to the history and the
    whole history, headed by the system prompt, is sent to the language
    model. The model itself is outside the program: it appears here as the
    `ModelAnswer` the caller supplies, and the request the engine would send
    is part of the result so that contracts can speak about it. */
module Gemini {
  import opened Common
  import opened Strings
  import opened Types

  datatype Role = UserRole | ModelRole

  /** One entry of the history (`{ role, parts: [{ text }] }`). */
  datatype Turn = Turn(role: Role, text: string)

  /** What the language model does with a request: answer with a text, or
      fail (a network error, a refused prompt, an unreadable reply). */
  datatype ModelAnswer = Answered(text: string) | Failed

  /** The outcome of `generateResponse`: the reply, the history afterwards,
      and the request sent to the model, if one was sent. */
  datatype Exchange = Exchange(
    text: string,
    sentiment: Sentiment,
    history: seq<Turn>,
    request: Option<seq<Turn>>)

  /** The history is capped at this many turns after a successful answer. */
  const HistoryCap: nat := 10

  /** A name is used only when it is present and non-empty (JavaScript
      truthiness of `userName`). */
  predicate HasName(userName: Option<string>)
  {
    userName.Some? && userName.value != ""
  }

  // ---------------------------------------------------------------------
  // Gibberish
  // ---------------------------------------------------------------------

  /** Whole messages that are never gibberish, compared after lower-casing
      and trimming. */
  const GibberishWhitelist: seq<string> := [
      "hi", "hello", "hey", "good morning", "good afternoon",
      "good evening", "hi there", "hello there", "greetings"
    ]

  /** The characters the regular-expression `.` does not match. */
  predicate IsLineTerminator(c: char)
  {
    c == '\n' || c == '\r' || c == '\U{2028}' || c == '\U{2029}'
  }

  /** `^[^a-zA-Z]*$`: no ASCII letter anywhere. */
  predicate NoLetter(text: string)
  {
    forall i :: 0 <= i < |text| ==> !IsLetter(text[i])
  }

  /** `(.)\1{4,}` matching at `i`: five equal characters, the first not a
      line terminator. */
  predicate RepeatAt(text: string, i: int)
  {
    0 <= i && i + 5 <= |text| && !IsLineTerminator(text[i])
    && forall j :: i < j < i + 5 ==> text[j] == text[i]
  }

  /** `(.)\1{4,}` matching somewhere in `text`. */
  predicate HasRepeat(text: string)
  {
    exists i | 0 <= i <= |text| :: RepeatAt(text, i)
  }

  /** A left-to-right scan for a repeat, starting at position `from`. */
  function RepeatFrom(text: string, from: nat): (r: bool)
    ensures r <==> exists i | from <= i <= |text| :: RepeatAt(text, i)
    decreases |text| - from
  {
    if from + 5 > |text| then false
    else
      var c := text[from];
      var here := !IsLineTerminator(c) && text[from + 1] == c && text[from + 2] == c
        && text[from + 3] == c && text[from + 4] == c;
      assert here <==> RepeatAt(text, from);
      here || RepeatFrom(text, from + 1)
  }

  /** `isGibberish`: a whitelisted greeting never is; otherwise a message
      shorter than two characters, one without a letter, or one with a
      character repeated five times in a row is. */
  function IsGibberish(text: string): (r: bool)
    ensures Trim(Lower(text)) in GibberishWhitelist ==> !r
    ensures Trim(Lower(text)) !in GibberishWhitelist ==>
      (r <==> |text| < 2 || NoLetter(text) || HasRepeat(text))
  {
    if Trim(Lower(text)) in GibberishWhitelist then false
    else if |text| < 2 then true
    else (forall i | 0 <= i < |text| :: !IsLetter(text[i])) || RepeatFrom(text, 0)
  }

  // ---------------------------------------------------------------------
  // System prompt
  // ---------------------------------------------------------------------

  const PromptHead: string :=
    "You are an empathetic AI therapist. Follow these guidelines:\n"
    + "\n"
    + "Response Style:\n"
    + "- Keep responses concise and natural\n"
    + "- Only provide therapeutic responses to meaningful input\n"
    + "- If input is gibberish or random characters, respond with \"I didn't quite catch that. Could you please rephrase?\"\n"
    + "- For very short or unclear messages, ask for clarification instead of making assumptions\n"
    + "- Initial greeting should be simple: \"Hello"

  const PromptMiddle: string :=
    "! How are you feeling today?\"\n"
    + "\n"
    + "Core Principles:\n"
    + "- Don't over-interpret vague or nonsensical input\n"
    + "- Ask for clarification when needed\n"
    + "- Stay grounded and practical\n"
    + "- Maintain professional boundaries\n"
    + "- Never diagnose or give medical advice\n"

  const PromptTail: string :=
    "\n"
    + "\n"
    + "Safety Protocol:\n"
    + "If crisis signs appear:\n"
    + "1. Provide crisis hotline (988)\n"
    + "2. Urge professional help\n"
    + "3. Offer immediate support"

  const PersonalizationHeading: string := "Personalization:"

  const PersonalizationRest: string :=
    "\n- Use their name occasionally in responses to build rapport"
    + "\n- Use their name especially when:"
    + "\n  * Greeting them"
    + "\n  * Acknowledging important feelings"
    + "\n  * Providing support"
    + "\n  * Making key suggestions"

  /** The block added to the prompt when a name is known. */
  function Personalization(name: string): string
  {
    "\n" + PersonalizationHeading + "\n- Your client's name is " + name + PersonalizationRest
  }

  /** The name as it appears in the greeting line of the prompt. */
  function GreetingName(userName: Option<string>): string
  {
    if HasName(userName) then " " + userName.value else ""
  }

  /** The personalisation block, present only when a name is known. */
  function NameBlock(userName: Option<string>): string
  {
    if HasName(userName) then Personalization(userName.value) else ""
  }

  /** `getSystemPrompt`: the fixed guidelines, with the name in the greeting
      line and a personalisation block when a name is known. */
  function SystemPrompt(userName: Option<string>): string
  {
    PromptHead + GreetingName(userName) + PromptMiddle + NameBlock(userName) + PromptTail
  }

  // ---------------------------------------------------------------------
  // Sentiment of a model reply
  // ---------------------------------------------------------------------

  const PositiveWords: seq<string> := ["hope", "happy", "good", "better", "positive", "strength", "improve"]
  const NegativeWords: seq<string> := ["sad", "angry", "difficult", "hard", "worse", "struggle", "pain"]

  /** `words.filter(word => text.includes(word))`. */
  function Hits(text: string, words: seq<string>): (r: seq<string>)
    ensures |r| <= |words|
    ensures forall k :: 0 <= k < |r| ==> r[k] in words && Contains(text, r[k])
    ensures forall k :: 0 <= k < |words| && Contains(text, words[k]) ==> words[k] in r
  {
    if words == [] then []
    else if Contains(text, words[0]) then [words[0]] + Hits(text, words[1..])
    else Hits(text, words[1..])
  }

  /** No word occurs twice in the list. */
  predicate Distinct(words: seq<string>)
  {
    forall i, j :: 0 <= i < j < |words| ==> words[i] != words[j]
  }

  /** `analyzeSentiment`: whichever list has more words occurring in the
      lower-cased text wins; a tie is neutral. Each word counts once. */
  function AnalyzeSentiment(text: string): (r: Sentiment)
    ensures r == Positive <==>
      |Hits(Lower(text), PositiveWords)| > |Hits(Lower(text), NegativeWords)|
    ensures r == Negative <==>
      |Hits(Lower(text), NegativeWords)| > |Hits(Lower(text), PositiveWords)|
  {
    var lowerText := Lower(text);
    var positiveCount := |Hits(lowerText, PositiveWords)|;
    var negativeCount := |Hits(lowerText, NegativeWords)|;
    if positiveCount > negativeCount then Positive
    else if negativeCount > positiveCount then Negative
    else Neutral
  }

  // ---------------------------------------------------------------------
  // generateResponse and resetChat
  // ---------------------------------------------------------------------

  /** Greetings that trigger the short local reply when they occur
      anywhere in a short message. */
  const ShortGreetings: seq<string> := ["hi", "hello", "hey", "good morning", "good afternoon", "good evening"]

  const RephraseText: string := "I didn't quite catch that. Could you please rephrase?"
  const TroubleText: string := "I'm having trouble understanding. Could you please rephrase that?"

  /** The reply to the opening call with no message and no context. */
  function OpeningGreeting(userName: Option<string>): string
  {
    if HasName(userName) then "Hello " + userName.value + "! How are you feeling today?"
    else "Hello! How are you feeling today?"
  }

  /** The reply to a short greeting early in a conversation. */
  function ShortGreetingReply(userName: Option<string>): string
  {
    if HasName(userName) then "Hi " + userName.value + "! How are you feeling today?"
    else "Hi there! How are you feeling today?"
  }

  /** The short-greeting test: fewer than ten characters, at most one
      earlier context text, not blank, and a greeting somewhere inside. */
  predicate IsShortGreeting(userMessage: string, contextLength: nat)
  {
    |userMessage| < 10 && contextLength <= 1 && !IsBlank(userMessage)
    && ContainsAny(Trim(Lower(userMessage)), ShortGreetings)
  }

  /** The history with the user's message appended, unless it is blank. */
  function WithUserTurn(history: seq<Turn>, userMessage: string): (r: seq<Turn>)
    ensures IsBlank(userMessage) ==> r == history
    ensures !IsBlank(userMessage) ==>
      |r| == |history| + 1 && r[..|history|] == history && r[|history|] == Turn(UserRole, userMessage)
  {
    if IsBlank(userMessage) then history else history + [Turn(UserRole, userMessage)]
  }

  /** The part of `generateResponse` that consults the model: the user's
      turn is appended (unless blank), the history headed by the system
      prompt is sent, and a successful answer is appended and the history
      trimmed to its last `HistoryCap` turns. A failure keeps the user's turn
      and answers with a fixed apology. */
  function AskModel(history: seq<Turn>, userMessage: string, userName: Option<string>,
                    answer: ModelAnswer): (r: Exchange)
    ensures r.request == Some([Turn(UserRole, SystemPrompt(userName))] + WithUserTurn(history, userMessage))
    ensures answer.Failed? ==>
      r.text == TroubleText && r.sentiment == Neutral && r.history == WithUserTurn(history, userMessage)
    ensures answer.Answered? ==>
      r.text == answer.text && r.sentiment == AnalyzeSentiment(answer.text)
      && r.history == LastN(WithUserTurn(history, userMessage) + [Turn(ModelRole, answer.text)], HistoryCap)
  {
    var pushed := WithUserTurn(history, userMessage);
    var request := [Turn(UserRole, SystemPrompt(userName))] + pushed;
    match answer
    case Failed =>
      Exchange(TroubleText, Neutral, pushed, Some(request))
    case Answered(text) =>
      var grown := pushed + [Turn(ModelRole, text)];
      var kept := if |grown| > HistoryCap then grown[|grown| - HistoryCap..] else grown;
      Exchange(text, AnalyzeSentiment(text), kept, Some(request))
  }

  /** `generateResponse`, given the engine's history, the message, the
      transcript texts (only their number matters), the name, and what the
      model would answer if asked. The tests run in the order of the source:
      the opening greeting, gibberish, a short greeting, then the model. */
  function GenerateResponse(history: seq<Turn>, userMessage: string, context: seq<string>,
                            userName: Option<string>, answer: ModelAnswer): (r: Exchange)
    // Answered locally: the history is untouched and nothing is sent.
    ensures r.request.None? ==> r.history == history
    ensures userMessage == "" && context == [] ==>
      r == Exchange(OpeningGreeting(userName), Positive, history, None)
    ensures !(userMessage == "" && context == []) && IsGibberish(userMessage) ==>
      r == Exchange(RephraseText, Neutral, history, None)
    ensures !(userMessage == "" && context == []) && !IsGibberish(userMessage)
            && IsShortGreeting(userMessage, |context|) ==>
      r == Exchange(ShortGreetingReply(userName), Positive, history, None)
    // Everything else goes to the model.
    ensures r.request.Some? <==>
      !(userMessage == "" && context == []) && !IsGibberish(userMessage)
      && !IsShortGreeting(userMessage, |context|)
    ensures r.request.Some? ==> r == AskModel(history, userMessage, userName, answer)
  {
    if userMessage == "" && |context| == 0 then
      Exchange(OpeningGreeting(userName), Positive, history, None)
    else if IsGibberish(userMessage) then
      Exchange(RephraseText, Neutral, history, None)
    else if IsShortGreeting(userMessage, |context|) then
      Exchange(ShortGreetingReply(userName), Positive, history, None)
    else
      AskModel(history, userMessage, userName, answer)
  }

  /** `resetChat` followed by the asynchronous `initializeChat`: the history
      is cleared, then holds the system prompt and the model's answer to it,
      or stays empty when the model fails. */
  function ResetChat(init: ModelAnswer): (h: seq<Turn>)
    ensures init.Failed? ==> h == []
    ensures init.Answered? ==>
      h == [Turn(UserRole, SystemPrompt(None)), Turn(ModelRole, init.text)]
  {
    match init
    case Failed => []
    case Answered(text) => [Turn(UserRole, SystemPrompt(None)), Turn(ModelRole, text)]
  }
}
