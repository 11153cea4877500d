/** `retrieve`: looks the last message up in the FAQ retriever and acts as a
    relevance gate. Without a retriever, with no hits, or with a query that
    mentions the weather, the documents are cleared and the turn goes to
    the escalator; otherwise the hits' texts are stored and the turn goes to
    the generator. The vector store behind the retriever is a parameter:
    `None` when it could not be built, otherwise the search it performs. */
module Retriever {
  import opened Wrappers
  import opened Text
  import opened AgentState

  /** A search hit; only its `page_content` is used. */
  datatype Document = Document(pageContent: string)

  /** `[d.page_content for d in docs]`. */
  function PageContents(docs: seq<Document>): (r: seq<string>)
    ensures |r| == |docs| && forall i :: 0 <= i < |docs| ==> r[i] == docs[i].pageContent
  {
    seq(|docs|, i requires 0 <= i < |docs| => docs[i].pageContent)
  }

  /** The out-of-domain test: `"weather" in query.lower()`. */
  predicate OffTopic(query: string)
  {
    Contains(Lower(query), "weather")
  }

  /** `retrieve(state)`. The source indexes `messages[-1]` unguarded, so an
      empty conversation is excluded here; the graph never routes one to
      this node. */
  function Retrieve(s: State, retriever: Option<string -> seq<Document>>): (r: Command)
    requires s.messages != []
    ensures r.update.reply.None? && r.update.remove == [] && r.update.summary.None?
    ensures r.update.docs.Some?
    ensures r.goto == Generator || r.goto == Escalator
  {
    var query := Last(s.messages).content;
    if retriever.None? then Command(Update(None, [], None, Some([])), Escalator)
    else
      var docs := retriever.value(query);
      if docs == [] || OffTopic(query) then Command(Update(None, [], None, Some([])), Escalator)
      else Command(Update(None, [], None, Some(PageContents(docs))), Generator)
  }

  // ---------------------------------------------------------------------------
  // Properties

  /** The gate: the turn reaches the generator exactly when a retriever
      exists, it returns hits for the last message, and that message does
      not mention the weather. The stored documents are then the hits'
      texts in order; on every other path they are cleared. */
  lemma GateIsDisjunction(s: State, retriever: Option<string -> seq<Document>>)
    requires s.messages != []
    ensures var q := Last(s.messages).content;
            var r := Retrieve(s, retriever);
            (r.goto == Generator <==> retriever.Some? && retriever.value(q) != [] && !OffTopic(q))
            && (r.goto == Generator ==> r.update.docs == Some(PageContents(retriever.value(q))))
            && (r.goto == Escalator ==> r.update.docs == Some([]))
  {
  }

  /** A query about the weather is escalated even when the search found
      documents. */
  lemma WeatherEscalates(s: State, retriever: Option<string -> seq<Document>>)
    requires s.messages != [] && OffTopic(Last(s.messages).content)
    ensures Retrieve(s, retriever) == Command(Update(None, [], None, Some([])), Escalator)
  {
  }

  /** Going on to the generator means there is at least one document, one
      per hit. */
  lemma GeneratorGetsDocuments(s: State, retriever: Option<string -> seq<Document>>, freshId: string)
    requires s.messages != []
    requires Retrieve(s, retriever).goto == Generator
    ensures var t := Apply(Retrieve(s, retriever).update, s, freshId);
            t.retrievedDocs.Some? && t.retrievedDocs.value != []
            && |t.retrievedDocs.value| == |retriever.value(Last(s.messages).content)|
  {
  }

  /** The node overwrites the documents, whatever they were, and leaves
      the messages and the summary alone. */
  lemma RetrieveOverwritesDocs(s: State, retriever: Option<string -> seq<Document>>, freshId: string)
    requires s.messages != []
    ensures var t := Apply(Retrieve(s, retriever).update, s, freshId);
            t.retrievedDocs == Retrieve(s, retriever).update.docs
            && t.messages == s.messages && t.summary == s.summary
  {
    RemoveUnlisted(s.messages, []);
  }

  // The example below takes its text as a parameter pinned by `requires`,
  // so the string literal is unfolded only where the lemma is applied.
  /** "WEATHER" counts too: the test is on the lower-cased query. */
  lemma ShoutedWeatherIsOffTopic(x: string)
    requires x == "WEATHER today?"
    ensures OffTopic(x)
  {
    var lc := Lower(x);
    assert lc[0..7] == "weather";
    assert OccursAt(lc, "weather", 0);
    ContainsIff(lc, "weather");
  }
}
