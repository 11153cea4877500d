/** `generate`: asks the selected chat model for an answer, with the stored
    documents as context in a system prompt, and accepts the answer only if
    it has at least five non-blank characters. A rejected answer sends the
    turn back to this node with no update and nothing counts the attempts.
    The chat model is a parameter from the selection and the message list
    it is given to the answer text. */
module Generator {
  import opened Wrappers
  import opened Text
  import opened AgentState
  import opened ModelConfig

  /** `state.get("retrieved_docs", [])`. */
  function Docs(s: State): seq<string>
  {
    s.retrievedDocs.GetOr([])
  }

  /** `"\n\n".join(docs)`. */
  function Context(s: State): string
  {
    Join("\n\n", Docs(s))
  }

  const PromptHead := "You are a MakTek support agent. Use the following context to answer the user's question.\n"
  const PromptTail := "If the answer is not in the context, say 'I don't know' or ask to escalate."

  /** The system prompt around the context string. */
  function SystemPrompt(context: string): string
  {
    PromptHead + "Context:\n" + context + "\n" + PromptTail
  }

  /** `[("system", system_prompt)] + messages`: the system entry first, then
      every message of the conversation in order. */
  function GenerationInput(s: State): (r: seq<Entry>)
    ensures |r| == |s.messages| + 1
    ensures r[0] == Entry(System, SystemPrompt(Context(s)))
    ensures forall i :: 0 <= i < |s.messages| ==> r[i + 1] == ToEntry(s.messages[i])
  {
    [Entry(System, SystemPrompt(Context(s)))] + seq(|s.messages|, i requires 0 <= i < |s.messages| => ToEntry(s.messages[i]))
  }

  /** The consistency check: `len(answer.strip()) >= 5`. */
  predicate Accepted(answer: string)
    ensures Accepted(answer) ==> |answer| >= 5
    ensures AllSpace(answer) ==> !Accepted(answer)
  {
    StripBlank(answer);
    |Strip(answer)| >= 5
  }

  /** The answer the model gives for this state. */
  function Answer(s: State, llm: (Selection, seq<Entry>) -> string): string
  {
    llm(GetModel(s.model), GenerationInput(s))
  }

  /** `generate(state)`. */
  function Generate(s: State, llm: (Selection, seq<Entry>) -> string): (r: Command)
    ensures r.update.remove == [] && r.update.summary.None? && r.update.docs.None?
    ensures r.goto == End <==> Accepted(Answer(s, llm))
    ensures r.goto == End || r.goto == Generator
  {
    var answer := Answer(s, llm);
    if Accepted(answer) then Command(Reply(answer), End)
    else Command(NoUpdate, Generator)
  }

  // ---------------------------------------------------------------------------
  // Properties

  /** A rejected answer changes nothing and retries the node. */
  lemma RejectionRetries(s: State, llm: (Selection, seq<Entry>) -> string, freshId: string)
    requires !Accepted(Answer(s, llm))
    ensures Generate(s, llm).goto == Generator
    ensures Apply(Generate(s, llm).update, s, freshId) == s
  {
    ApplyNoUpdate(s, freshId);
  }

  /** An accepted answer is appended as it came, untrimmed, as the one new
      AI message, and the turn ends. */
  lemma AcceptanceReplies(s: State, llm: (Selection, seq<Entry>) -> string, freshId: string)
    requires Accepted(Answer(s, llm))
    ensures Generate(s, llm).goto == End
    ensures Apply(Generate(s, llm).update, s, freshId)
            == s.(messages := s.messages + [Message(freshId, AI, Answer(s, llm))])
  {
    ApplyReply(s, Answer(s, llm), freshId);
  }

  /** Blanks around an answer do not change the verdict. */
  lemma PaddingIsIgnored(pre: string, answer: string, post: string)
    requires AllSpace(pre) && AllSpace(post)
    ensures Accepted(pre + answer + post) <==> Accepted(answer)
  {
    StripIgnoresPadding(pre, answer, post);
  }

  /** Every stored document appears verbatim in the system prompt. */
  lemma PromptHasEveryDocument(s: State, k: nat)
    requires k < |Docs(s)|
    ensures Contains(GenerationInput(s)[0].content, Docs(s)[k])
  {
    JoinHasPart("\n\n", Docs(s), k);
    ContainsWithin(PromptHead + "Context:\n", Context(s), "\n" + PromptTail, Docs(s)[k]);
    assert SystemPrompt(Context(s)) == (PromptHead + "Context:\n") + Context(s) + ("\n" + PromptTail);
  }

  /** Without stored documents the context is empty: the key may be absent
      or hold an empty list. */
  lemma NoDocumentsNoContext(s: State)
    requires s.retrievedDocs.None? || s.retrievedDocs == Some([])
    ensures Context(s) == ""
    ensures SystemPrompt(Context(s)) == PromptHead + "Context:\n\n" + PromptTail
  {
    assert PromptHead + "Context:\n" + "" + "\n" + PromptTail == PromptHead + "Context:\n\n" + PromptTail;
  }

  /** The generator never sees the summary or the user: two states that
      agree on the messages, the documents and the configured model get the
      same answer and the same decision. */
  lemma AnswerIgnoresSummary(s: State, t: State, llm: (Selection, seq<Entry>) -> string)
    requires s.messages == t.messages && s.retrievedDocs == t.retrievedDocs && s.model == t.model
    ensures Answer(s, llm) == Answer(t, llm)
    ensures Generate(s, llm) == Generate(t, llm)
  {
  }

  /** "ok" and "  yes  " are too short; "Thanks" is long enough. */
  lemma ShortAnswers()
    ensures !Accepted("ok")
    ensures !Accepted("  yes  ")
    ensures Accepted("Thanks")
  {
    assert Strip("ok") == "ok" by {
      StripPadded([], "ok", []);
      assert [] + "ok" + [] == "ok";
    }
    assert Strip("  yes  ") == "yes" by {
      StripPadded("  ", "yes", "  ");
      assert "  " + "yes" + "  " == "  yes  ";
    }
    assert Strip("Thanks") == "Thanks" by {
      StripPadded([], "Thanks", []);
      assert [] + "Thanks" + [] == "Thanks";
    }
  }
}
