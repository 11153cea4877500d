/** `supervisor`: sends the turn to the escalator when the lower-cased last
    message mentions an escalation keyword and to the retriever otherwise.
    It never updates the state and, despite its declared destinations, never
    chooses the generator. */
module Supervisor {
  import opened Text
  import opened AgentState

  /** Matched as substrings of the lower-cased, unstripped message. */
  const EscalationKeywords: seq<string> := ["human", "agent", "support ticket", "escalate"]

  /** `any(keyword in user_input for keyword in escalation_keywords)`. */
  predicate WantsHuman(content: string)
  {
    ContainsAny(Lower(content), EscalationKeywords)
  }

  /** `supervisor(state)`. */
  function Supervisor(s: State): (r: Command)
    ensures r.update == NoUpdate
    ensures r.goto == End || r.goto == Escalator || r.goto == Retriever
    ensures r.goto == End <==> s.messages == []
  {
    if s.messages == [] then Command(NoUpdate, End)
    else if WantsHuman(Last(s.messages).content) then Command(NoUpdate, Escalator)
    else Command(NoUpdate, Retriever)
  }

  // ---------------------------------------------------------------------------
  // Properties

  /** The turn is escalated exactly when some escalation keyword occurs
      somewhere in the lower-cased last message. */
  lemma EscalatesIffKeyword(s: State)
    ensures Supervisor(s).goto == Escalator
            <==> s.messages != []
                 && exists k, i :: 0 <= k < |EscalationKeywords|
                                   && OccursAt(Lower(Last(s.messages).content), EscalationKeywords[k], i)
  {
    if s.messages != [] {
      var input := Lower(Last(s.messages).content);
      ContainsAnyIff(input, EscalationKeywords);
      if WantsHuman(Last(s.messages).content) {
        var k :| 0 <= k < |EscalationKeywords| && Contains(input, EscalationKeywords[k]);
        ContainsIff(input, EscalationKeywords[k]);
        var i :| OccursAt(input, EscalationKeywords[k], i);
        assert 0 <= k < |EscalationKeywords| && OccursAt(Lower(Last(s.messages).content), EscalationKeywords[k], i);
      } else {
        forall k, i | 0 <= k < |EscalationKeywords|
          ensures !OccursAt(input, EscalationKeywords[k], i)
        {
          ContainsIff(input, EscalationKeywords[k]);
        }
      }
    }
  }

  /** Any other non-empty conversation goes to the retriever: the generator
      is never a destination. */
  lemma OtherwiseRetrieves(s: State)
    ensures Supervisor(s).goto != Generator
    ensures Supervisor(s).goto == Retriever
            <==> s.messages != [] && !WantsHuman(Last(s.messages).content)
  {
  }

  /** Whatever it decides, the supervisor leaves the state as it was. */
  lemma SupervisorKeepsState(s: State, freshId: string)
    ensures Apply(Supervisor(s).update, s, freshId) == s
  {
    ApplyNoUpdate(s, freshId);
  }

  /** The decision depends on the last message's content only. */
  lemma LooksOnlyAtLastMessage(s: State, t: State)
    requires s.messages != [] && t.messages != []
    requires Last(s.messages).content == Last(t.messages).content
    ensures Supervisor(s) == Supervisor(t)
  {
  }

  /** Surrounding blanks do not hide a keyword: the message is lower-cased
      but not stripped, and padding only adds characters around it. */
  lemma {:induction false} PaddingKeepsEscalation(pre: string, content: string, post: string)
    requires WantsHuman(content)
    ensures WantsHuman(pre + content + post)
  {
    var lc := Lower(content);
    ContainsAnyIff(lc, EscalationKeywords);
    var k :| 0 <= k < |EscalationKeywords| && Contains(lc, EscalationKeywords[k]);
    var whole := Lower(pre + content + post);
    LowerConcat(pre, content);
    LowerConcat(pre + content, post);
    ContainsWithin(Lower(pre), lc, Lower(post), EscalationKeywords[k]);
    ContainsAnyIff(whole, EscalationKeywords);
  }

  // ---------------------------------------------------------------------------
  // Example

  // The example below takes its text as a parameter pinned by `requires`,
  // so the string literal is unfolded only where the lemma is applied.
  /** "Get me a HUMAN" is escalated: matching is case-insensitive. */
  lemma ShoutedHumanEscalates(x: string)
    requires x == "Get me a HUMAN"
    ensures WantsHuman(x)
  {
    var lc := Lower(x);
    assert lc[9..14] == "human";
    assert OccursAt(lc, EscalationKeywords[0], 9);
    ContainsIff(lc, EscalationKeywords[0]);
    ContainsAnyIff(lc, EscalationKeywords);
  }
}
