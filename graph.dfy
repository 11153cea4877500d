/** `graph.py`: the summarizing middleware node and the builder that
    registers the six nodes and the two fixed edges. */
module Graph {
  import opened Wrappers
  import opened Text
  import opened AgentState
  import opened ModelConfig

  // ---------------------------------------------------------------------------
  // summarize_conversation

  /** Summarization starts once the buffer holds more than this many
      messages. */
  const Threshold := 6

  /** Messages kept, most recent last, when the buffer is pruned. */
  const Kept := 2

  const SummaryInstruction := "\n\nSummarize the conversation so far, retaining key details for customer support."

  /** The contents of the buffer's messages, in order. */
  function Contents(ms: seq<Message>): (r: seq<string>)
    ensures |r| == |ms| && forall i :: 0 <= i < |ms| ==> r[i] == ms[i].content
  {
    seq(|ms|, i requires 0 <= i < |ms| => ms[i].content)
  }

  /** The summarization prompt: the previous summary (empty when there is
      none), then every message's content on its own line, then the
      instruction. The previous summary occurs in it. */
  function SummaryPrompt(s: State): (r: string)
    ensures Contains(r, s.summary.GetOr(""))
  {
    var summary := s.summary.GetOr("");
    var p1 := "Previous summary: " + summary;
    var p2 := p1 + "\n\n" + "New lines of conversation:\n";
    var body := Join("\n", Contents(s.messages));
    ContainsSelf(summary);
    ContainsPrepend("Previous summary: ", summary, summary);
    ContainsAppend(p1, "\n\n", summary);
    ContainsAppend(p1 + "\n\n", "New lines of conversation:\n", summary);
    ContainsAppend(p2, body, summary);
    ContainsAppend(p2 + body, SummaryInstruction, summary);
    p2 + body + SummaryInstruction
  }

  /** The one-message request the summarizer sends to the model: the
      summary prompt as a system message. */
  function SummaryRequest(s: State): seq<Entry>
  {
    [Entry(System, SummaryPrompt(s))]
  }

  /** `summarize_conversation(state)`. Above the threshold the model's
      answer replaces the summary and every message but the last two is
      deleted by id; otherwise the update is empty. The model is a
      parameter. */
  function Summarize(s: State, llm: (Selection, seq<Entry>) -> string): (u: Update)
    ensures u.reply.None? && u.docs.None?
    ensures |s.messages| <= Threshold <==> u == NoUpdate
  {
    var n := |s.messages|;
    if n > Threshold then
      var newSummary := llm(GetModel(s.model), SummaryRequest(s));
      Update(None, Ids(s.messages[..n - Kept]), Some(newSummary), None)
    else NoUpdate
  }

  // ---------------------------------------------------------------------------
  // Properties of the summarizer

  /** Above the threshold the deletions name the ids of all messages but the
      last two, in order, and the summary is the model's answer as given. */
  lemma DeletesAllButLastTwo(s: State, llm: (Selection, seq<Entry>) -> string)
    requires |s.messages| > Threshold
    ensures var u := Summarize(s, llm);
            var n := |s.messages|;
            |u.remove| == n - Kept
            && (forall i :: 0 <= i < n - Kept ==> u.remove[i] == s.messages[i].id)
            && u.summary == Some(llm(GetModel(s.model), SummaryRequest(s)))
  {
  }

  /** No recent message carries the id of an older one when ids are
      unique. */
  lemma RecentIdsAreNew(ms: seq<Message>, cut: nat)
    requires cut <= |ms| && UniqueIds(ms)
    ensures forall i :: 0 <= i < |ms[cut..]| ==> ms[cut..][i].id !in Ids(ms[..cut])
  {
    forall i | 0 <= i < |ms[cut..]| ensures ms[cut..][i].id !in Ids(ms[..cut]) {
      assert ms[cut..][i] == ms[cut + i];
    }
  }

  /** Removal from a buffer cut in two is removal from each part. */
  lemma RemoveSplit(ms: seq<Message>, cut: nat, ids: seq<string>)
    requires cut <= |ms|
    ensures RemoveIds(ms, ids) == RemoveIds(ms[..cut], ids) + RemoveIds(ms[cut..], ids)
  {
    assert ms == ms[..cut] + ms[cut..];
    RemoveIdsConcat(ms[..cut], ms[cut..], ids);
  }

  /** Deleting the ids of all but the last two messages leaves at most
      those two. */
  lemma PruneBound(ms: seq<Message>)
    requires |ms| >= Kept
    ensures |RemoveIds(ms, Ids(ms[..|ms| - Kept]))| <= Kept
  {
    var n := |ms|;
    var older, recent := ms[..n - Kept], ms[n - Kept..];
    assert ms == older + recent;
    RemoveIdsConcat(older, recent, Ids(older));
    RemoveListed(older, Ids(older));
  }

  /** With unique ids, exactly the last two messages remain. */
  lemma PruneUnique(ms: seq<Message>)
    requires |ms| >= Kept && UniqueIds(ms)
    ensures RemoveIds(ms, Ids(ms[..|ms| - Kept])) == ms[|ms| - Kept..]
  {
    var cut := |ms| - Kept;
    var older, recent := ms[..cut], ms[cut..];
    var ids := Ids(older);
    RemoveSplit(ms, cut, ids);
    RemoveListed(older, ids);
    RecentIdsAreNew(ms, cut);
    RemoveUnlisted(recent, ids);
    assert [] + recent == recent;
  }

  /** Above the threshold the update is a pure prune: the ids of all but
      the last two messages, a new summary, no reply and no documents. */
  lemma SummarizeAbove(s: State, llm: (Selection, seq<Entry>) -> string)
    requires |s.messages| > Threshold
    ensures var u := Summarize(s, llm);
            u.summary.Some? && u == Update(None, Ids(s.messages[..|s.messages| - Kept]), Some(u.summary.value), None)
  {
  }

  /** Merging a prune of all but the last two messages, whatever the new
      summary: at most two messages stay (exactly the last two when ids
      are unique), the summary is replaced and the documents are kept. */
  lemma PruneUpdate(s: State, summary: string, freshId: string)
    requires |s.messages| >= Kept
    ensures var t := Apply(Update(None, Ids(s.messages[..|s.messages| - Kept]), Some(summary), None), s, freshId);
            |t.messages| <= Kept && t.summary == Some(summary) && t.retrievedDocs == s.retrievedDocs
            && (UniqueIds(s.messages) ==> t.messages == s.messages[|s.messages| - Kept..])
  {
    ApplyPrune(s, Ids(s.messages[..|s.messages| - Kept]), summary, freshId);
    PruneBound(s.messages);
    if UniqueIds(s.messages) {
      PruneUnique(s.messages);
    }
  }

  /** With unique ids, pruning leaves exactly the last two messages, and
      the summary is replaced, not extended. */
  lemma PruneKeepsLastTwo(s: State, llm: (Selection, seq<Entry>) -> string, freshId: string)
    requires |s.messages| > Threshold && UniqueIds(s.messages)
    ensures var t := Apply(Summarize(s, llm), s, freshId);
            t.messages == s.messages[|s.messages| - Kept..]
            && t.summary == Summarize(s, llm).summary
            && t.retrievedDocs == s.retrievedDocs
  {
    SummarizeAbove(s, llm);
    PruneUpdate(s, Summarize(s, llm).summary.value, freshId);
  }

  /** A non-empty buffer with unique ids stays so through the node. */
  lemma SummarizeKeepsBuffer(s: State, llm: (Selection, seq<Entry>) -> string, freshId: string)
    requires s.messages != [] && UniqueIds(s.messages)
    ensures var t := Apply(Summarize(s, llm), s, freshId);
            t.messages != [] && UniqueIds(t.messages)
  {
    if |s.messages| > Threshold {
      PruneKeepsLastTwo(s, llm, freshId);
      RemoveKeepsUnique(s.messages, Summarize(s, llm).remove);
    } else {
      ApplyNoUpdate(s, freshId);
    }
  }

  /** Whatever the ids, a prune leaves at most the last two messages, so a
      second pass right after it does nothing. */
  lemma SummarizeTwiceIsNoop(s: State, llm: (Selection, seq<Entry>) -> string, freshId: string)
    requires |s.messages| > Threshold
    ensures var t := Apply(Summarize(s, llm), s, freshId);
            |t.messages| <= Kept && Summarize(t, llm) == NoUpdate
  {
    SummarizeAbove(s, llm);
    PruneUpdate(s, Summarize(s, llm).summary.value, freshId);
  }

  /** The prompt quotes every message's content. */
  lemma PromptMentionsEveryMessage(s: State, k: nat)
    requires k < |s.messages|
    ensures Contains(SummaryPrompt(s), s.messages[k].content)
  {
    var cs := Contents(s.messages);
    var head := "Previous summary: " + s.summary.GetOr("") + "\n\n" + "New lines of conversation:\n";
    JoinHasPart("\n", cs, k);
    ContainsWithin(head, Join("\n", cs), SummaryInstruction, cs[k]);
  }

  // ---------------------------------------------------------------------------
  // build_graph

  /** The fixed edges: `START -> intent_detector` and
      `summarizer -> supervisor`. Every other node picks its successor with
      the `goto` of the Command it returns. */
  function FixedEdge(n: Node): Option<Node>
  {
    match n
    case Start => Some(IntentDetector)
    case Summarizer => Some(Supervisor)
    case _ => None
  }

  /** The six registered nodes. */
  const GraphNodes: set<Node> := {Supervisor, Retriever, Generator, Escalator, Summarizer, IntentDetector}

  /** The target of the first edge in `edges` leaving `n`. */
  function FirstTarget(edges: seq<(Node, Node)>, n: Node): (r: Option<Node>)
    ensures r.Some? ==> (n, r.value) in edges
    ensures r.None? ==> forall e :: e in edges ==> e.0 != n
  {
    if edges == [] then None
    else if edges[0].0 == n then Some(edges[0].1)
    else FirstTarget(edges[1..], n)
  }

  /** The builder: the nodes registered so far and the edges added so far,
      in order. */
  class StateGraph {
    var nodes: set<Node>
    var edges: seq<(Node, Node)>

    constructor ()
      ensures nodes == {} && edges == []
    {
      nodes := {};
      edges := [];
    }

    /** `add_node(name, fn)`. */
    method AddNode(n: Node)
      modifies this
      ensures nodes == old(nodes) + {n} && edges == old(edges)
    {
      nodes := nodes + {n};
    }

    /** `add_edge(from, to)`. */
    method AddEdge(from: Node, to: Node)
      modifies this
      ensures edges == old(edges) + [(from, to)] && nodes == old(nodes)
    {
      edges := edges + [(from, to)];
    }

    /** Every edge leaves START or a registered node and reaches END or a
        registered node. */
    predicate WellFormed()
      reads this
    {
      forall e :: e in edges ==> (e.0 == Start || e.0 in nodes) && (e.1 == End || e.1 in nodes)
    }

    /** Where a fixed edge leads from `n`. */
    function Successor(n: Node): (r: Option<Node>)
      reads this
      ensures r.Some? ==> (n, r.value) in edges
      ensures r.None? ==> forall e :: e in edges ==> e.0 != n
    {
      FirstTarget(edges, n)
    }
  }

  /** `build_graph()`, up to compilation: six nodes and the two fixed
      edges, which are exactly `FixedEdge`. */
  method BuildGraph() returns (g: StateGraph)
    ensures fresh(g)
    ensures g.nodes == GraphNodes
    ensures g.edges == [(Start, IntentDetector), (Summarizer, Supervisor)]
    ensures g.WellFormed()
    ensures forall n :: g.Successor(n) == FixedEdge(n)
  {
    g := new StateGraph();
    g.AddNode(Supervisor);
    g.AddNode(Retriever);
    g.AddNode(Generator);
    g.AddNode(Escalator);
    g.AddNode(Summarizer);
    g.AddNode(IntentDetector);
    g.AddEdge(Start, IntentDetector);
    g.AddEdge(Summarizer, Supervisor);
  }
}
