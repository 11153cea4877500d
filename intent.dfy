/** `intent_detector`: answers abusive messages with a refusal and bare
    greetings with a greeting, ending the turn for both; every other message
    goes on to the summarizer. Only the last message is looked at, lower-cased
    and stripped. */
module Intent {
  import opened Wrappers
  import opened Text
  import opened AgentState

  /** Matched as substrings, so "dumbbell" counts as abusive. */
  const AbusiveKeywords: seq<string> :=
    ["stupid", "idiot", "dumb", "hate you", "shut up", "useless", "fuck", "shit", "bitch", "asshole"]

  /** Matched only as the whole (normalised) message. */
  const GreetingPhrases: seq<string> :=
    ["hi", "hello", "hey", "greetings", "good morning", "good afternoon", "good evening"]

  const RefusalText :=
    "I'm here to help you, but I expect respectful communication. "
    + "Please refrain from using offensive language so we can solve your issue constructively."

  const GreetingText := "Hello! How can I assist you with MakTek support today?"

  /** `content.lower().strip()`. */
  function Normalize(content: string): string
  {
    Strip(Lower(content))
  }

  /** `any(word in user_input for word in abusive_keywords)`. */
  predicate IsAbusive(input: string)
  {
    ContainsAny(input, AbusiveKeywords)
  }

  /** `user_input in greeting_keywords`: list membership, not containment. */
  predicate IsGreeting(input: string)
  {
    input in GreetingPhrases
  }

  /** `intent_detector(state)`. */
  function IntentDetector(s: State): (r: Command)
    ensures r.goto == End || r.goto == Summarizer
    ensures r.update.remove == [] && r.update.summary.None? && r.update.docs.None?
    ensures r.goto == Summarizer ==> r.update == NoUpdate
    ensures s.messages == [] ==> r == Command(NoUpdate, End)
  {
    if s.messages == [] then Command(NoUpdate, End)
    else
      var input := Normalize(Last(s.messages).content);
      if IsAbusive(input) then Command(Reply(RefusalText), End)
      else if IsGreeting(input) then Command(Reply(GreetingText), End)
      else Command(NoUpdate, Summarizer)
  }

  // ---------------------------------------------------------------------------
  // Properties

  /** An abusive keyword anywhere in the normalised last message gets the
      refusal and ends the turn, whatever else the message says (greetings
      included: the abuse check comes first). */
  lemma AbuseIsRefused(s: State, k: nat, i: nat)
    requires s.messages != [] && k < |AbusiveKeywords|
    requires OccursAt(Normalize(Last(s.messages).content), AbusiveKeywords[k], i)
    ensures IntentDetector(s) == Command(Reply(RefusalText), End)
  {
    var input := Normalize(Last(s.messages).content);
    ContainsIff(input, AbusiveKeywords[k]);
    ContainsAnyIff(input, AbusiveKeywords);
  }

  /** The greeting is the reply exactly when the normalised last message is
      one of the seven phrases and contains no abusive keyword. */
  lemma GreetingIsExact(s: State)
    ensures IntentDetector(s) == Command(Reply(GreetingText), End)
            <==> s.messages != []
                 && !IsAbusive(Normalize(Last(s.messages).content))
                 && Normalize(Last(s.messages).content) in GreetingPhrases
  {
  }

  /** The turn goes on to the summarizer exactly when the last message is
      neither abusive nor a bare greeting; the state is then unchanged. */
  lemma PassThrough(s: State, freshId: string)
    ensures IntentDetector(s).goto == Summarizer
            <==> s.messages != []
                 && !IsAbusive(Normalize(Last(s.messages).content))
                 && !IsGreeting(Normalize(Last(s.messages).content))
    ensures IntentDetector(s).goto == Summarizer
            ==> Apply(IntentDetector(s).update, s, freshId) == s
  {
    ApplyNoUpdate(s, freshId);
  }

  /** The node either leaves the state alone or appends one AI reply; the
      summary and the retrieved documents are never touched. */
  lemma IntentOnlyReplies(s: State, freshId: string)
    ensures var t := Apply(IntentDetector(s).update, s, freshId);
            t.summary == s.summary && t.retrievedDocs == s.retrievedDocs
            && (t.messages == s.messages
                || (IntentDetector(s).goto == End
                    && exists text :: t.messages == s.messages + [Message(freshId, AI, text)]))
  {
    var r := IntentDetector(s);
    if r.update.reply.Some? {
      ApplyReply(s, r.update.reply.value, freshId);
      assert r.update == Reply(r.update.reply.value);
    } else {
      assert r.update == NoUpdate;
      ApplyNoUpdate(s, freshId);
    }
  }

  /** Two states whose last messages have the same content are classified
      the same way: earlier messages play no part. */
  lemma LooksOnlyAtLastMessage(s: State, t: State)
    requires s.messages != [] && t.messages != []
    requires Last(s.messages).content == Last(t.messages).content
    ensures IntentDetector(s) == IntentDetector(t)
  {
  }

  // ---------------------------------------------------------------------------
  // Examples

  function OneMessage(content: string): State
  {
    State([Message("m1", Human, content)], None, None, None, None)
  }

  // The examples below take their text as a parameter pinned by `requires`,
  // so the string literal is unfolded only where such a lemma is applied.
  lemma NormalizeShoutedHello(x: string)
    requires x == "  HELLO "
    ensures Normalize(x) == "hello"
  {
    var h := Lower(x);
    assert h == "  " + "hello" + " " by {
      forall i | 0 <= i < 8 ensures h[i] == ("  " + "hello" + " ")[i] {
      }
    }
    StripPadded("  ", "hello", " ");
  }

  lemma HelloIsNotAbusive(x: string)
    requires x == "hello"
    ensures !IsAbusive(x)
  {
    NoAbusiveKeyword(x);
  }

  /** "  HELLO " is greeted: case and surrounding blanks do not matter. */
  lemma ShoutedHelloIsGreeted(x: string)
    requires x == "  HELLO "
    ensures IntentDetector(OneMessage(x)) == Command(Reply(GreetingText), End)
  {
    NormalizeShoutedHello(x);
    HelloIsNotAbusive(Normalize(x));
    assert Normalize(x) == GreetingPhrases[1];
  }

  /** A message that is already lower-case and has no surrounding blanks
      is its own normal form. */
  lemma NormalizeKeepsNormal(x: string)
    requires forall c :: c in x ==> !('A' <= c <= 'Z')
    requires x == [] || (!IsSpace(x[0]) && !IsSpace(x[|x| - 1]))
    ensures Normalize(x) == x
  {
    LowerWithoutCapitals(x);
    StripPadded([], x, []);
    assert [] + x + [] == x;
  }

  /** None of the abusive keywords occurs in a text without the letters
      t, d, a and u: each keyword has one of them. */
  lemma NoAbusiveKeyword(input: string)
    requires 't' !in input && 'd' !in input && 'a' !in input && 'u' !in input
    ensures !IsAbusive(input)
  {
    forall k | 0 <= k < |AbusiveKeywords| ensures !Contains(input, AbusiveKeywords[k]) {
      var w := AbusiveKeywords[k];
      if 't' in w {
        var j :| 0 <= j < |w| && w[j] == 't';
        AbsentChar(input, w, j);
      } else if 'd' in w {
        var j :| 0 <= j < |w| && w[j] == 'd';
        AbsentChar(input, w, j);
      } else if 'a' in w {
        var j :| 0 <= j < |w| && w[j] == 'a';
        AbsentChar(input, w, j);
      } else {
        assert w[1] == 'u' || w[0] == 'u';
        if w[0] == 'u' {
          AbsentChar(input, w, 0);
        } else {
          AbsentChar(input, w, 1);
        }
      }
    }
    ContainsAnyIff(input, AbusiveKeywords);
  }

  /** A lower-case, already stripped message that is no greeting phrase and
      avoids the letters t, d, a and u goes on to the summarizer. */
  lemma PlainRequestPassesThrough(s: State)
    requires s.messages != []
    requires var x := Last(s.messages).content;
             (forall c :: c in x ==> !('A' <= c <= 'Z'))
             && (x == [] || (!IsSpace(x[0]) && !IsSpace(x[|x| - 1])))
             && 't' !in x && 'd' !in x && 'a' !in x && 'u' !in x
             && x !in GreetingPhrases
    ensures IntentDetector(s) == Command(NoUpdate, Summarizer)
  {
    var x := Last(s.messages).content;
    NormalizeKeepsNormal(x);
    NoAbusiveKeyword(x);
  }

  /** "hi, my phone is broken" is such a message: a greeting followed by a
      request is not a bare greeting. */
  lemma PhoneProblemIsPlain(x: string)
    requires x == "hi, my phone is broken"
    ensures forall c :: c in x ==> !('A' <= c <= 'Z')
    ensures !IsSpace(x[0]) && !IsSpace(x[|x| - 1])
    ensures 't' !in x && 'd' !in x && 'a' !in x && 'u' !in x
  {
    assert |x| == 22;
  }

  lemma PhoneProblemIsNoGreeting(x: string)
    requires x == "hi, my phone is broken"
    ensures x !in GreetingPhrases
  {
    assert |x| == 22;
  }

  /** So a conversation ending in it goes on to the summarizer. */
  lemma PhoneProblemPassesThrough(s: State)
    requires s.messages != [] && Last(s.messages).content == "hi, my phone is broken"
    ensures IntentDetector(s) == Command(NoUpdate, Summarizer)
  {
    var x := Last(s.messages).content;
    PhoneProblemIsPlain(x);
    PhoneProblemIsNoGreeting(x);
    PlainRequestPassesThrough(s);
  }

  /** "dumbbell" is already normal and starts with "dumb". */
  lemma DumbbellStartsDumb(x: string)
    requires x == "dumbbell"
    ensures Normalize(x) == x && OccursAt(x, AbusiveKeywords[2], 0)
  {
    NormalizeKeepsNormal(x);
    assert x[0..4] == AbusiveKeywords[2];
  }

  /** "dumbbell" is refused: keywords are matched as substrings. */
  lemma DumbbellIsRefused(x: string)
    requires x == "dumbbell"
    ensures IntentDetector(OneMessage(x)) == Command(Reply(RefusalText), End)
  {
    DumbbellStartsDumb(x);
    AbuseIsRefused(OneMessage(x), 2, 0);
  }
}
