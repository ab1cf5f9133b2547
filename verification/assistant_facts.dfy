/** Properties of the assistant facade. */
module AssistantFacts {
  import opened Common
  import opened Strings
  import opened Types
  import opened Gemini
  import opened Assistant
  import GeminiFacts

  /** Every reply comes from the name branch (confidence 1) or the engine
      (confidence 0.9); the error handler's apology (confidence 0.5) is never
      produced, because the engine turns every model failure into a reply of
      its own. */
  lemma ApologyNeverProduced(a: Assistant, userMessage: string, context: seq<string>, answer: ModelAnswer)
    ensures GetResponse(a, userMessage, context, answer).response.confidence in {1.0, EngineConfidence}
    ensures GetResponse(a, userMessage, context, answer).response != ApologyResponse
  {
  }

  /** A name question never consults the model, whatever it would answer,
      and leaves the engine's history as it was. */
  lemma NameQuestionIgnoresModel(a: Assistant, userMessage: string, context: seq<string>,
                                 answer1: ModelAnswer, answer2: ModelAnswer)
    requires IsNameQuestion(userMessage)
    ensures GetResponse(a, userMessage, context, answer1) == GetResponse(a, userMessage, context, answer2)
    ensures GetResponse(a, userMessage, context, answer1).assistant.history == a.history
  {
  }

  /** Normalising a message with no surrounding spaces only lower-cases it. */
  lemma NormalizedUnpadded(message: string, lower: string)
    requires Lower(message) == lower
    requires lower != [] && !IsSpace(lower[0]) && !IsSpace(lower[|lower| - 1])
    ensures Trim(Lower(message)) == lower
  {
    TrimUnpadded(lower);
  }

  /** The lower-cased pet sentence mentions "name" but never "how". */
  lemma PetSentenceFacts()
    ensures Lower("My dog's name is Rex") == "my dog's name is rex"
    ensures ContainsAny("my dog's name is rex", NameQuestionTerms)
    ensures !Contains("my dog's name is rex", "how") && !Contains("my dog's name is rex", "how'd")
  {
    var n := "my dog's name is rex";
    assert OccursAt(n, "name", 9);
    ContainsAnyAt(n, NameQuestionTerms, 0);
    assert 'h' !in n;
    if Contains(n, "how") {
      ContainsChar(n, "how", 0);
    }
    if Contains(n, "how'd") {
      ContainsChar(n, "how'd", 0);
    }
  }

  /** Any mention of "name" is taken as a question about the user's name:
      talking about a pet's name gets the user's own name back. */
  lemma PetNameAnsweredWithUserName(history: seq<Turn>, context: seq<string>, answer: ModelAnswer)
    ensures GetResponse(Assistant(Some("Ana"), history), "My dog's name is Rex", context, answer).response
         == AIResponse(YourNameText("Ana"), Positive, 1.0, [])
  {
    PetSentenceFacts();
    NormalizedUnpadded("My dog's name is Rex", "my dog's name is rex");
  }

  /** The lower-cased question asks how the name is known. */
  lemma HowQuestionFacts()
    ensures Lower("How do you know me?") == "how do you know me?"
    ensures ContainsAny("how do you know me?", NameQuestionTerms)
    ensures Contains("how do you know me?", "how")
  {
    var n := "how do you know me?";
    assert OccursAt(n, "how do you know", 0);
    ContainsAnyAt(n, NameQuestionTerms, 2);
    assert OccursAt(n, "how", 0);
  }

  /** Asking how the name is known gets the explanation, which names the
      user. */
  lemma HowDoYouKnowExplains(history: seq<Turn>, context: seq<string>, answer: ModelAnswer)
    ensures GetResponse(Assistant(Some("Ana"), history), "How do you know me?", context, answer).response
         == AIResponse(HowKnownText("Ana"), Positive, 1.0, [])
  {
    HowQuestionFacts();
    NormalizedUnpadded("How do you know me?", "how do you know me?");
  }

  /** Changing the name starts the conversation over: the previous history
      is gone and, when the model answers the reset, the new history opens
      with the prompt of a conversation without a name. */
  lemma SetUserNameStartsOver(a: Assistant, name: Option<string>, text: string)
    requires HasName(name)
    ensures SetUserName(a, name, Answered(text)).history[0].text == SystemPrompt(None)
    ensures SetUserName(a, name, Answered(text)).history[0].text != SystemPrompt(name)
  {
    GeminiFacts.ResetForgetsTheName(name, text);
  }
}
