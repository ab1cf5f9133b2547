/** The assistant facade (src/services/AIService.ts).

    The assistant remembers the user's display name, answers questions
    about that name itself, and hands every other message to the
    conversation engine, passing the name along. */
module Assistant {
  import opened Common
  import opened Strings
  import opened Types
  import opened Gemini

  /** The assistant's state: the stored name and the engine's history. */
  datatype Assistant = Assistant(userName: Option<string>, history: seq<Turn>)

  /** An answer, the assistant afterwards, and the request sent to the
      model, if any. */
  datatype Reply = Reply(response: AIResponse, assistant: Assistant, request: Option<seq<Turn>>)

  /** Phrases that make a message a question about the user's name. */
  const NameQuestionTerms: seq<string> := ["name", "who am i", "how do you know", "how did you know"]

  const UnknownNameText: string := "I don't know your name yet." + " Would you like to tell me your name?"

  /** Confidence of a reply that comes from the engine. */
  const EngineConfidence: real := 0.9

  /** The reply of the error handler around the whole operation. */
  const ApologyResponse: AIResponse := AIResponse(
    "I apologize, but I'm having trouble processing that right now. Could you rephrase that, or shall we explore a different aspect of what you're feeling?",
    Neutral, 0.5, ["rephrase", "different topic"])

  /** `setUserName`: the name is stored and the conversation is reset,
      `init` being the model's answer to the reset's opening prompt. */
  function SetUserName(a: Assistant, name: Option<string>, init: ModelAnswer): (r: Assistant)
    ensures r.userName == name
    ensures init.Failed? ==> r.history == []
    ensures init.Answered? ==> |r.history| == 2 && r.history[1] == Turn(ModelRole, init.text)
  {
    Assistant(name, ResetChat(init))
  }

  /** A question about the user's name, tested on the lower-cased,
      trimmed message. */
  predicate IsNameQuestion(userMessage: string)
  {
    ContainsAny(Trim(Lower(userMessage)), NameQuestionTerms)
  }

  /** The explanation given when asked how the name is known. */
  function HowKnownText(name: string): string
  {
    "You told me your name is " + name
    + " when you set it in the settings. I use it to make our conversations more personal. Is there something specific you'd like to talk about?"
  }

  function YourNameText(name: string): string
  {
    "Your name is " + name + ". How can I help you today?"
  }

  /** The answer to a name question, from the stored name alone. */
  function AnswerNameQuestion(userName: Option<string>, normalized: string): (r: AIResponse)
    ensures r.confidence == 1.0
    ensures !HasName(userName) <==> r.text == UnknownNameText
    ensures !HasName(userName) ==> r.sentiment == Neutral && r.suggestedActions == ["open settings"]
    ensures HasName(userName) ==>
      r.sentiment == Positive && r.suggestedActions == [] && Contains(r.text, userName.value)
    ensures HasName(userName) && (Contains(normalized, "how") || Contains(normalized, "how'd")) ==>
      r.text == HowKnownText(userName.value)
    ensures HasName(userName) && !(Contains(normalized, "how") || Contains(normalized, "how'd")) ==>
      r.text == YourNameText(userName.value)
  {
    if !HasName(userName) then
      AIResponse(UnknownNameText, Neutral, 1.0, ["open settings"])
    else
      var name := userName.value;
      ContainsSelf(name);
      if Contains(normalized, "how") || Contains(normalized, "how'd") then
        ContainsInfix("You told me your name is ", name, HowKnownText(name)[25 + |name|..], name);
        assert ("You told me your name is " + name)[0] == 'Y';
        assert UnknownNameText[0] == 'I';
        AIResponse(HowKnownText(name), Positive, 1.0, [])
      else
        ContainsInfix("Your name is ", name, ". How can I help you today?", name);
        assert ("Your name is " + name)[0] == 'Y';
        assert UnknownNameText[0] == 'I';
        AIResponse(YourNameText(name), Positive, 1.0, [])
  }

  /** `getResponse`: a name question is answered on the spot; anything else
      goes to the engine with the stored name, and the engine's text and
      sentiment come back with confidence 0.9 and no suggested actions. */
  function GetResponse(a: Assistant, userMessage: string, context: seq<string>,
                       answer: ModelAnswer): (r: Reply)
    ensures r.assistant.userName == a.userName
    ensures IsNameQuestion(userMessage) ==>
      r.request.None? && r.assistant == a
      && r.response == AnswerNameQuestion(a.userName, Trim(Lower(userMessage)))
    ensures !IsNameQuestion(userMessage) ==>
      var e := GenerateResponse(a.history, userMessage, context, a.userName, answer);
      r.response == AIResponse(e.text, e.sentiment, EngineConfidence, [])
      && r.assistant.history == e.history && r.request == e.request
  {
    var normalizedMessage := Trim(Lower(userMessage));
    if ContainsAny(normalizedMessage, NameQuestionTerms) then
      Reply(AnswerNameQuestion(a.userName, normalizedMessage), a, None)
    else
      var e := GenerateResponse(a.history, userMessage, context, a.userName, answer);
      Reply(AIResponse(e.text, e.sentiment, EngineConfidence, []), Assistant(a.userName, e.history), e.request)
  }
}
