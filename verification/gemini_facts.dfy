/** Properties of the conversation engine. */
module GeminiFacts {
  import opened Common
  import opened Strings
  import opened Types
  import opened Gemini

  // ---------------------------------------------------------------------
  // Gibberish
  // ---------------------------------------------------------------------

  /** Every whitelisted greeting has at least two characters. */
  lemma WhitelistEntriesAreLong()
    ensures forall k :: 0 <= k < |GibberishWhitelist| ==> |GibberishWhitelist[k]| >= 2
  {
  }

  /** Any message shorter than two characters is gibberish: no whitelisted
      greeting is that short, so the whitelist cannot rescue it. */
  lemma ShortTextIsGibberish(text: string)
    requires |text| < 2
    ensures IsGibberish(text)
  {
    assert |Trim(Lower(text))| <= |text|;
    WhitelistEntriesAreLong();
  }

  /** A blank message is gibberish: it has no letter, and trimming its
      lower-cased form leaves nothing to compare with the whitelist. */
  lemma BlankIsGibberish(text: string)
    requires IsBlank(text)
    ensures IsGibberish(text)
  {
    BlankIffAllSpace(text);
    var l := Lower(text);
    assert forall i :: 0 <= i < |l| ==> IsSpace(l[i]);
    BlankIffAllSpace(l);
    assert NoLetter(text);
  }

  /** Hence a message that is not gibberish is never blank. */
  lemma NonGibberishIsNotBlank(text: string)
    requires !IsGibberish(text)
    ensures !IsBlank(text)
  {
    if IsBlank(text) {
      BlankIsGibberish(text);
    }
  }

  /** A character typed five times in a row makes even a greeting
      gibberish. */
  lemma StretchedGreetingIsGibberish()
    ensures IsGibberish("heyyyyy")
  {
    assert RepeatAt("heyyyyy", 2);
    assert Lower("heyyyyy") == "heyyyyy";
    TrimUnpadded("heyyyyy");
  }

  /** Capitals do not matter to the whitelist. */
  lemma CapitalisedGreetingIsNot()
    ensures !IsGibberish("Hello")
  {
    assert Lower("Hello") == "hello";
    TrimUnpadded("hello");
  }

  /** Punctuation and digits alone are gibberish. */
  lemma NoLetterIsGibberish()
    ensures IsGibberish("123?!")
  {
    assert Lower("123?!") == "123?!";
    TrimUnpadded("123?!");
  }

  /** Every whitelisted greeting starts with "h" or "g". */
  lemma OffWhitelist(x: string)
    requires x != [] && x[0] != 'h' && x[0] != 'g'
    ensures x !in GibberishWhitelist
  {
    forall k | 0 <= k < |GibberishWhitelist|
      ensures GibberishWhitelist[k] != x
    {
      assert GibberishWhitelist[k][0] == 'h' || GibberishWhitelist[k][0] == 'g';
    }
  }

  /** Line breaks are not matched by the repeat test, so a run of them after
      a word is not gibberish. */
  lemma RepeatedLineBreaksAreNot()
    ensures !IsGibberish("ok\n\n\n\n\n")
  {
    var t := "ok\n\n\n\n\n";
    LineBreaksOffWhitelist(t);
    LineBreaksDoNotRepeat(t);
  }

  // "ok" and five line breaks trims to a text that is not whitelisted.
  lemma LineBreaksOffWhitelist(t: string)
    requires t == "ok\n\n\n\n\n"
    ensures Trim(Lower(t)) !in GibberishWhitelist
  {
    assert Lower(t) == t;
    assert LeadingSpaces(t) == 0;
    assert Trim(t)[0] == 'o';
    OffWhitelist(Trim(t));
  }

  // The text has letters, and `.` does not match a line break, so it has no repeat.
  lemma LineBreaksDoNotRepeat(t: string)
    requires t == "ok\n\n\n\n\n"
    ensures |t| >= 2 && !NoLetter(t) && !HasRepeat(t)
  {
    assert IsLetter(t[0]);
    forall i | 0 <= i <= |t|
      ensures !RepeatAt(t, i)
    {
      if i + 5 <= |t| {
        assert t[i + 1] != t[i] || IsLineTerminator(t[i]);
      }
    }
  }

  // ---------------------------------------------------------------------
  // generateResponse
  // ---------------------------------------------------------------------

  /** An empty message after the conversation has started is answered as
      gibberish, not with the opening greeting. */
  lemma EmptyMessageLaterIsGibberish(history: seq<Turn>, context: seq<string>,
                                     userName: Option<string>, answer: ModelAnswer)
    requires context != []
    ensures GenerateResponse(history, "", context, userName, answer)
         == Exchange(RephraseText, Neutral, history, None)
  {
    ShortTextIsGibberish("");
  }

  /** Whenever the model is consulted, the user's message has been appended
      to the history: the blank-message guard before the append never
      skips it, since a blank message is gibberish. */
  lemma ModelAlwaysSeesTheMessage(history: seq<Turn>, userMessage: string, context: seq<string>,
                                  userName: Option<string>, answer: ModelAnswer)
    requires GenerateResponse(history, userMessage, context, userName, answer).request.Some?
    ensures GenerateResponse(history, userMessage, context, userName, answer).request
         == Some([Turn(UserRole, SystemPrompt(userName))] + (history + [Turn(UserRole, userMessage)]))
  {
    var r := GenerateResponse(history, userMessage, context, userName, answer);
    assert !IsGibberish(userMessage);
    NonGibberishIsNotBlank(userMessage);
    assert WithUserTurn(history, userMessage) == history + [Turn(UserRole, userMessage)];
    assert r == AskModel(history, userMessage, userName, answer);
  }

  /** After a successful answer the history ends with the user's message
      and the model's answer, and holds at most `HistoryCap` turns. */
  lemma {:induction false} SuccessEndsWithTheExchange(history: seq<Turn>, userMessage: string,
                                    context: seq<string>, userName: Option<string>, text: string)
    requires GenerateResponse(history, userMessage, context, userName, Answered(text)).request.Some?
    ensures var h := GenerateResponse(history, userMessage, context, userName, Answered(text)).history;
      |h| <= HistoryCap && |h| >= 2
      && h[|h| - 1] == Turn(ModelRole, text) && h[|h| - 2] == Turn(UserRole, userMessage)
  {
    NonGibberishIsNotBlank(userMessage);
    var grown := history + [Turn(UserRole, userMessage)] + [Turn(ModelRole, text)];
    assert WithUserTurn(history, userMessage) + [Turn(ModelRole, text)] == grown;
    var h := LastN(grown, HistoryCap);
    assert h == grown[|grown| - |h|..];
  }

  /** A failed call keeps the user's turn without an answer, so a history
      that is already full grows past the cap. */
  lemma FailureOverfillsHistory(history: seq<Turn>, userMessage: string, context: seq<string>,
                                userName: Option<string>)
    requires |history| >= HistoryCap
    requires GenerateResponse(history, userMessage, context, userName, Failed).request.Some?
    ensures |GenerateResponse(history, userMessage, context, userName, Failed).history| == |history| + 1
    ensures |GenerateResponse(history, userMessage, context, userName, Failed).history| > HistoryCap
  {
    NonGibberishIsNotBlank(userMessage);
  }

  /** The short-greeting test looks for a greeting anywhere in the
      message, so a word that merely contains "hi" gets the greeting. */
  lemma GreetingInsideAWord(history: seq<Turn>, answer: ModelAnswer)
    ensures GenerateResponse(history, "nothing", [], None, answer).text
         == "Hi there! How are you feeling today?"
  {
    var m := "nothing";
    NothingIsNotGibberish(m);
    NothingHoldsHi(m);
  }

  // "nothing" is long enough, has letters and repeats nothing.
  lemma NothingIsNotGibberish(m: string)
    requires m == "nothing"
    ensures !IsGibberish(m)
  {
    assert Lower(m) == m;
    TrimUnpadded(m);
    OffWhitelist(m);
    assert IsLetter(m[0]);
    forall i | 0 <= i <= |m|
      ensures !RepeatAt(m, i)
    {
      if i + 5 <= |m| {
        assert m[i + 1] != m[i];
      }
    }
  }

  // "nothing" contains "hi".
  lemma NothingHoldsHi(m: string)
    requires m == "nothing"
    ensures Trim(Lower(m)) == m && IsShortGreeting(m, 0)
  {
    assert Lower(m) == m;
    TrimUnpadded(m);
    assert OccursAt(m, "hi", 3);
    ContainsAnyAt(m, ShortGreetings, 0);
  }

  // ---------------------------------------------------------------------
  // System prompt and reset
  // ---------------------------------------------------------------------

  /** With a name, the prompt carries the personalisation heading and the
      name itself. */
  lemma NamedPromptPersonalizes(userName: Option<string>)
    requires HasName(userName)
    ensures Contains(SystemPrompt(userName), PersonalizationHeading)
    ensures Contains(SystemPrompt(userName), userName.value)
  {
    var n := userName.value;
    var block := NameBlock(userName);
    var pre := PromptHead + GreetingName(userName) + PromptMiddle;
    // The heading and the name both sit inside the personalisation block.
    ContainsSelf(PersonalizationHeading);
    ContainsRight("\n", PersonalizationHeading, PersonalizationHeading);
    ContainsLeft("\n" + PersonalizationHeading, "\n- Your client's name is ", PersonalizationHeading);
    ContainsLeft("\n" + PersonalizationHeading + "\n- Your client's name is ", n, PersonalizationHeading);
    ContainsLeft("\n" + PersonalizationHeading + "\n- Your client's name is " + n, PersonalizationRest,
                 PersonalizationHeading);
    ContainsSelf(n);
    ContainsRight("\n" + PersonalizationHeading + "\n- Your client's name is ", n, n);
    ContainsLeft("\n" + PersonalizationHeading + "\n- Your client's name is " + n, PersonalizationRest, n);
    assert block == Personalization(n);
    // The block sits inside the prompt.
    ContainsRight(pre, block, PersonalizationHeading);
    ContainsLeft(pre + block, PromptTail, PersonalizationHeading);
    ContainsRight(pre, block, n);
    ContainsLeft(pre + block, PromptTail, n);
  }

  /** The converse of `NamedPromptPersonalizes`: the personalisation block
      is empty iff no name is known, and every prompt without a name is the
      one `resetChat` sends, which differs from every named prompt. */
  lemma UnnamedPromptIsNotPersonal(userName: Option<string>)
    ensures NameBlock(userName) == "" <==> !HasName(userName)
    ensures SystemPrompt(userName) == SystemPrompt(None) <==> !HasName(userName)
  {
    if HasName(userName) {
      assert |SystemPrompt(None)| < |SystemPrompt(userName)|;
    }
  }

  /** Every prompt ends with the safety protocol. */
  lemma PromptEndsWithSafetyProtocol(userName: Option<string>)
    ensures var p := SystemPrompt(userName);
      |p| >= |PromptTail| && p[|p| - |PromptTail|..] == PromptTail
  {
  }

  /** The prompt without a name is strictly shorter than any prompt with
      one, so a reset always installs a prompt that is not the one a named
      conversation would send, even after a name has been set. */
  lemma ResetForgetsTheName(userName: Option<string>, text: string)
    requires HasName(userName)
    ensures ResetChat(Answered(text))[0].text != SystemPrompt(userName)
  {
    assert |SystemPrompt(None)| < |SystemPrompt(userName)|;
  }

  // ---------------------------------------------------------------------
  // Sentiment
  // ---------------------------------------------------------------------

  /** The sentiment of a text does not depend on its letter case. */
  lemma {:induction false} SentimentIgnoresCase(text: string)
    ensures AnalyzeSentiment(Lower(text)) == AnalyzeSentiment(text)
  {
    LowerIdempotent(text);
  }

  /** The filter keeps no word more often than the list holds it. */
  lemma {:induction false} HitsWithinList(text: string, words: seq<string>)
    ensures multiset(Hits(text, words)) <= multiset(words)
  {
    if words != [] {
      var rest := Hits(text, words[1..]);
      HitsWithinList(text, words[1..]);
      assert words == [words[0]] + words[1..];
      assert multiset(words) == multiset{words[0]} + multiset(words[1..]);
      if Contains(text, words[0]) {
        assert multiset([words[0]] + rest) == multiset{words[0]} + multiset(rest);
      }
    }
  }

  /** Neither sentiment list repeats a word. */
  lemma SentimentListsAreDistinct()
    ensures Distinct(PositiveWords) && Distinct(NegativeWords)
  {
  }

  /** Over a list without repeats, every word of the text is counted once:
      the hits repeat no word, so their number is the number of distinct
      list words occurring in the text. */
  lemma {:induction false} HitsAreDistinct(text: string, words: seq<string>)
    requires Distinct(words)
    ensures Distinct(Hits(text, words))
  {
    if words != [] {
      var rest := words[1..];
      HitsAreDistinct(text, rest);
      assert words[0] !in rest;
      var h := Hits(text, rest);
      assert forall k :: 0 <= k < |h| ==> h[k] in rest;
    }
  }

  /** The counts that decide the sentiment are counts of distinct words. */
  lemma SentimentCountsAreDistinct(text: string)
    ensures Distinct(Hits(Lower(text), PositiveWords)) && Distinct(Hits(Lower(text), NegativeWords))
  {
    SentimentListsAreDistinct();
    HitsAreDistinct(Lower(text), PositiveWords);
    HitsAreDistinct(Lower(text), NegativeWords);
  }

  /** No word hit means an empty filter. */
  lemma NoHits(text: string, words: seq<string>)
    requires !ContainsAny(text, words)
    ensures Hits(text, words) == []
  {
    var r := Hits(text, words);
    assert forall k :: 0 <= k < |words| ==> !Contains(text, words[k]);
    assert forall w :: w in words ==> !Contains(text, w);
    assert forall k :: 0 <= k < |r| ==> Contains(text, r[k]);
  }

  /** One positive word and no negative word make a positive text. */
  lemma OnlyPositiveWordsArePositive(text: string)
    requires ContainsAny(Lower(text), PositiveWords)
    requires !ContainsAny(Lower(text), NegativeWords)
    ensures AnalyzeSentiment(text) == Positive
  {
    NoHits(Lower(text), NegativeWords);
    var k :| 0 <= k < |PositiveWords| && Contains(Lower(text), PositiveWords[k]);
    assert PositiveWords[k] in Hits(Lower(text), PositiveWords);
  }

  /** One negative word and no positive word make a negative text. */
  lemma OnlyNegativeWordsAreNegative(text: string)
    requires ContainsAny(Lower(text), NegativeWords)
    requires !ContainsAny(Lower(text), PositiveWords)
    ensures AnalyzeSentiment(text) == Negative
  {
    NoHits(Lower(text), PositiveWords);
    var k :| 0 <= k < |NegativeWords| && Contains(Lower(text), NegativeWords[k]);
    assert NegativeWords[k] in Hits(Lower(text), NegativeWords);
  }

  /** Words are matched as substrings: "unhappy" contains "happy", so a
      reply saying "I am unhappy" counts as positive. */
  lemma UnhappyReadsPositive()
    ensures AnalyzeSentiment("I am unhappy") == Positive
  {
    assert Lower("I am unhappy") == "i am unhappy";
    UnhappyWordHits("i am unhappy");
    OnlyPositiveWordsArePositive("I am unhappy");
  }

  /** "i am unhappy" holds the positive word "happy" and no negative word. */
  lemma UnhappyWordHits(l: string)
    requires l == "i am unhappy"
    ensures ContainsAny(l, PositiveWords) && !ContainsAny(l, NegativeWords)
  {
    assert OccursAt(l, "happy", 7);
    ContainsAnyAt(l, PositiveWords, 1);
    LacksPair(l, "pain");
    NoTermOccurs(l, NegativeWords, "sgdrws?", 6);
  }
}
