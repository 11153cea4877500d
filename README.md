# MakTek support chatbot: the dialogue routing state machine

This project models the core of a customer-support chatbot built as a
LangGraph state graph. The model covers three layers:

- **The nodes.** Each is a pure function of the conversation state. All
  but the summarizer return a `Command` (an update plus the next node).
  The summarizer returns a plain update (`Graph.Summarize`), and its
  successor is the fixed edge to the supervisor:
  - the intent detector, which answers greetings and abusive messages at once;
  - the summarizer, which compacts a long conversation into a summary plus
    its last two messages;
  - the supervisor, which routes requests for a human to escalation and
    everything else to retrieval;
  - the retriever, with its relevance gate;
  - the generator, with its "too short, try again" self-check;
  - the escalator, which files a support ticket and apologises.
- **The pieces the nodes rely on:**
  - the `add_messages` reducer of the state (a reply is appended, a
    `RemoveMessage` deletes by id);
  - the ticket tool;
  - the model selection from the configured model name.
- **The graph itself.**
  - `build_graph` registers the nodes and its two fixed edges
    (START → intent detector, summarizer → supervisor).
  - The executor runs a turn node by node from START until END.

Modules follow the source files:

| module | file | source |
|---|---|---|
| `Wrappers` | `wrappers.dfy` | the `Option` type |
| `Text` | `text.dfy` | the ASCII string operations the nodes use: `lower`, `strip`, `in`, `any`, `join` |
| `AgentState` | `state.dfy` | `state.py` and the reducer |
| `ModelConfig` | `model_config.dfy` | `config.py` |
| `Tools` | `tools.dfy` | `tools.py` |
| `Intent`, `Supervisor`, `Retriever`, `Generator`, `Escalator` | `intent.dfy` … `escalator.dfy` | `agents/*.py` |
| `Graph` | `graph.dfy` | `graph.py`: the summarizer and the builder, a `class StateGraph` whose methods add nodes and edges in place |
| `Executor` | `executor.dfy` | the compiled graph's run of one turn, and the whole-turn theorems |

Everything outside the process is a parameter:

- The chat model is a function of the request. In the executor it is also
  a function of the calls made so far in the turn, so a retry may get a
  different answer.
- The FAQ retriever is an `Option` of a search function. `None` stands for
  a vector store that could not be built.
- Python's salted `hash` is a parameter.
- The id the reducer gives a new AI message is a parameter.

The executor records every call to the outside (model call, search, ticket)
in a log. That lets the theorems count tickets and model calls.

The chatbot's design, as its documentation describes it, promises six
things the code does not do. The model follows the code:

- The supervisor never routes to the generator, although its type allows it.
- The generator's retry has no counter. With a model that keeps giving
  short answers the turn never reaches END: the generator runs again at
  every step until LangGraph's recursion limit aborts the run with
  `GraphRecursionError`, which `main.py` does not catch.
  `Executor.UnansweredTurnNeverEnds` states the part before the limit.
- The relevance gate escalates when there are no hits OR the query
  mentions "weather", not when both hold.
- There is no handling of a failed summarization call.
- The new summary is whatever the model answers, so it may be empty; the code does not guarantee a non-empty summary.
- There is no fusion of semantic recall with persisted history. The
  generator sees only the FAQ documents found for the last message.

## Model

| member | source | states |
|---|---|---|
| Text.Lower | agents/intent.py:20 | lower-casing keeps the length and maps each character on its own (ASCII letters only) |
| Text.LowerConcat | agents/supervisor.py:17 | lower-casing a concatenation lower-cases each piece |
| Text.LowerWithoutCapitals | agents/intent.py:20 | text without capitals is left as it is by lower-casing |
| Text.Strip | agents/intent.py:20 | stripping never lengthens a string and leaves no blank at either end |
| Text.StripPadded | agents/intent.py:20 | stripping blank padding from text with non-blank ends gives back exactly that text |
| Text.StripIdempotent | agents/generator.py:43 | stripping twice is stripping once |
| Text.StripIgnoresPadding | agents/generator.py:43 | extra blanks around a string do not change what it strips to |
| Text.Contains | agents/supervisor.py:22 | the empty string occurs in every string and no string occurs in a shorter one; `Text.ContainsIff` gives the exact meaning |
| Text.StripBlank | agents/generator.py:43 | a string made only of blanks strips to the empty string |
| Text.ContainsIff | agents/supervisor.py:22 | Python's substring test holds exactly when the substring occurs at some position |
| Text.ContainsAnyIff | agents/intent.py:26 | `any(word in s for word in keywords)` holds exactly when some keyword occurs in s |
| Text.ContainsWithin | agents/escalator.py:23-26 | a substring of a part is a substring of any text built around that part |
| Text.JoinHasPart | graph.py:40 | every joined part occurs in the joined text |
| AgentState.Ids | state.py:6 | the ids of the messages, in order |
| AgentState.RemoveIds | state.py:6 | deletion by id never grows the list |
| AgentState.RemoveIdsMembers | state.py:6 | deletion by id keeps exactly the messages whose id is not listed |
| AgentState.Apply | state.py:5-10 | merging an update never changes the model or the user, and keeps the summary and documents it does not set |
| AgentState.RemoveUnlisted | state.py:6 | deleting ids no message carries changes nothing |
| AgentState.RemoveIdsConcat | state.py:6 | deletion by id distributes over concatenation |
| AgentState.RemoveListed | state.py:6 | deleting every message's id empties the list |
| AgentState.RemoveKeepsUnique | state.py:6 | deletion keeps message ids unique |
| AgentState.ApplyNoUpdate | state.py:6 | an empty update leaves the state unchanged |
| AgentState.ApplyReply | state.py:6 | a reply appends exactly one AI message with the fresh id and changes nothing else |
| AgentState.ApplyPrune | graph.py:49-56 | a summarizer update deletes the listed messages and replaces the summary, nothing else |
| AgentState.ApplyKeepsUnique | state.py:6 | with a fresh id, every update keeps message ids unique |
| ModelConfig.GetModel | config.py:8-21 | temperature is always 0; the model is the configured name, or else the default served by Groq |
| ModelConfig.FirstRule | config.py:11-18 | finds the first provider rule whose keyword occurs in the name, with no earlier rule matching, or reports that none matches |
| ModelConfig.GetModelIsFirstMatch | config.py:11-21 | the selection is the first matching rule of the `if/elif` chain, else the Groq default |
| ModelConfig.GptWins | config.py:11-12 | any name containing "gpt" goes to OpenAI with that name, whatever else it contains |
| ModelConfig.DefaultSkipsEarlierRules | config.py:9-16 | the default model name matches none of the gpt, claude and gemini rules |
| ModelConfig.DefaultMatchesLlama | config.py:9-18 | the default model name matches the Llama rule |
| ModelConfig.UnconfiguredUsesDefault | config.py:9-18 | with no model configured the selection is the Groq default |
| ModelConfig.UpperCaseFallsThrough | config.py:11-21 | the test is case-sensitive: "GPT-4" falls through to the Groq default |
| ModelConfig.MixtralOnGroq | config.py:17-18 | `mixtral-8x7b` is served by Groq under its own name |
| Tools.TicketNumber | tools.py:8 | the ticket number is Python's `hash(issue) % 10000`: below 10000 and congruent to the hash, negative hashes included |
| Tools.Decimal | tools.py:8 | the decimal rendering is a non-empty string of digits without a leading zero |
| Tools.DecimalRoundTrip | tools.py:8 | reading back a rendered number gives the number |
| Tools.DecimalWidth | tools.py:8 | a number below 10^w renders in at most w digits |
| Tools.CreateSupportTicket | tools.py:5-10 | the confirmation is the fixed prefix, then the ticket number in decimal digits, then the fixed suffix |
| Tools.TicketRoundTrip | tools.py:8-10 | the ticket number can be read back from the tool's confirmation text |
| Tools.TicketLength | tools.py:8-10 | the confirmation text has at most four digits between its fixed prefix and suffix |
| Tools.TicketDependsOnNumberOnly | tools.py:5-10 | the confirmation depends only on the hash modulo 10000, never on the user |
| Tools.SameTicketNumber | tools.py:8 | two issues whose hashes agree modulo 10000 get the same ticket number |
| Intent.IntentDetector | agents/intent.py:15-54 | the detector only ends the turn or passes on to the summarizer. It never deletes, summarises or sets documents, and passing on changes nothing. An empty conversation ends the turn untouched. |
| Intent.AbuseIsRefused | agents/intent.py:23-34 | any abusive keyword anywhere in the normalised last message yields the refusal and ends the turn |
| Intent.GreetingIsExact | agents/intent.py:36-50 | the greeting reply is given exactly when the normalised message is not abusive and is one of the greeting phrases |
| Intent.PassThrough | agents/intent.py:19-54 | the turn goes on exactly when the message is neither abusive nor a bare greeting, and then the state is unchanged |
| Intent.IntentOnlyReplies | agents/intent.py:26-54 | the detector never touches the summary or the documents |
| Intent.LooksOnlyAtLastMessage | agents/intent.py:19-20 | two conversations with the same last message get the same decision |
| Intent.NormalizeKeepsNormal | agents/intent.py:20 | lower-case text without edge blanks is already normal |
| Intent.NoAbusiveKeyword | agents/intent.py:23-26 | text without the letters t, d, a and u contains no abusive keyword |
| Intent.NormalizeShoutedHello | agents/intent.py:20 | "  HELLO " normalises to "hello" |
| Intent.HelloIsNotAbusive | agents/intent.py:23-26 | "hello" is not abusive |
| Intent.ShoutedHelloIsGreeted | agents/intent.py:20-50 | "  HELLO " gets the greeting reply |
| Intent.PlainRequestPassesThrough | agents/intent.py:19-54 | a message that is normal, has no abuse letters and is not a greeting phrase goes on to the summarizer unchanged |
| Intent.PhoneProblemIsPlain | agents/intent.py:38-40 | "hi, my phone is broken" has no capitals, no edge blanks and none of the abuse letters |
| Intent.PhoneProblemIsNoGreeting | agents/intent.py:37-43 | that message is not a greeting phrase |
| Intent.PhoneProblemPassesThrough | agents/intent.py:38-54 | a greeting followed by a problem is handled as a request, not greeted |
| Intent.DumbbellStartsDumb | agents/intent.py:23-26 | "dumbbell" is normal and contains the keyword "dumb" at position 0 |
| Intent.DumbbellIsRefused | agents/intent.py:23-34 | the substring test refuses the harmless word "dumbbell" |
| Supervisor.Supervisor | agents/supervisor.py:12-30 | the supervisor never changes the state. It ends the turn exactly on an empty conversation, and otherwise goes to escalation or retrieval. |
| Supervisor.EscalatesIffKeyword | agents/supervisor.py:16-23 | escalation happens exactly when an escalation keyword occurs in the lower-cased last message |
| Supervisor.OtherwiseRetrieves | agents/supervisor.py:6-30 | the generator is never chosen; any other non-empty conversation goes to retrieval |
| Supervisor.SupervisorKeepsState | agents/supervisor.py:12-30 | merging the supervisor's command leaves the state as it was |
| Supervisor.LooksOnlyAtLastMessage | agents/supervisor.py:16-17 | two conversations with the same last message are routed alike |
| Supervisor.PaddingKeepsEscalation | agents/supervisor.py:21-22 | a request for a human stays one whatever text surrounds it |
| Supervisor.ShoutedHumanEscalates | agents/supervisor.py:17-22 | "Get me a HUMAN" escalates: the test is on the lower-cased text |
| Retriever.PageContents | agents/retriever.py:40 | one text per document found, in order |
| Retriever.Retrieve | agents/retriever.py:14-42 | the retriever always sets the documents and nothing else, and goes to the generator or escalation |
| Retriever.GateIsDisjunction | agents/retriever.py:17-42 | the generator is reached exactly when a retriever exists, it finds something and the query is not about the weather. The found texts go with it; otherwise the documents are cleared. |
| Retriever.WeatherEscalates | agents/retriever.py:31-36 | a weather query is escalated with cleared documents even when hits exist |
| Retriever.GeneratorGetsDocuments | agents/retriever.py:31-42 | going to the generator means at least one document, one per hit |
| Retriever.RetrieveOverwritesDocs | agents/retriever.py:20-42 | earlier documents are overwritten; messages and summary are untouched |
| Retriever.ShoutedWeatherIsOffTopic | agents/retriever.py:31 | "WEATHER today?" is off topic: the test is on the lower-cased query |
| Generator.GenerationInput | agents/generator.py:23-31 | the model sees the system prompt with the context first, then every message in order |
| Generator.Accepted | agents/generator.py:43 | an accepted answer has at least five characters, and an answer made only of blanks is never accepted |
| Generator.Generate | agents/generator.py:16-53 | the turn ends exactly when the answer is accepted, otherwise the generator runs again. Nothing is deleted, summarised or retrieved. |
| Generator.RejectionRetries | agents/generator.py:43-48 | a short answer sends the turn back to the generator with the state unchanged |
| Generator.AcceptanceReplies | agents/generator.py:50-53 | an accepted answer is appended as the one AI reply and ends the turn |
| Generator.PaddingIsIgnored | agents/generator.py:43 | blanks around an answer never change whether it is accepted |
| Generator.PromptHasEveryDocument | agents/generator.py:23-28 | every retrieved document occurs in the system prompt |
| Generator.NoDocumentsNoContext | agents/generator.py:17-28 | without documents the context is empty and the prompt is the bare template |
| Generator.AnswerIgnoresSummary | agents/generator.py:16-34 | the answer and the decision depend only on the messages, the documents and the configured model, never on the summary or the user |
| Generator.ShortAnswers | agents/generator.py:43 | "ok" and "  yes  " are rejected and "Thanks" is accepted |
| Escalator.Escalate | agents/escalator.py:14-31 | escalation always ends the turn with one reply, and deletes, summarises and retrieves nothing |
| Escalator.EscalationReply | agents/escalator.py:23-26 | the reply contains the ticket confirmation it is built around |
| Escalator.ReplyCarriesTicket | agents/escalator.py:21-26 | the reply contains the tool's confirmation, whose number is the issue's ticket number |
| Escalator.EscalationAppendsOneReply | agents/escalator.py:28-31 | the only change to the state is the appended reply |
| Escalator.ReplyIgnoresUser | agents/escalator.py:16-26 | the reply depends on the last message only, not on the user |
| Escalator.AnonymousIsGuest | agents/escalator.py:16 | without a user id the ticket is filed for "guest" |
| Graph.Contents | graph.py:40 | the message texts, in order |
| Graph.SummaryPrompt | graph.py:36-41 | the previous summary (empty when none) occurs in the summary prompt |
| Graph.Summarize | graph.py:21-58 | the summarizer never replies or sets documents, and does nothing exactly when there are at most six messages |
| Graph.DeletesAllButLastTwo | graph.py:44-56 | past the threshold it deletes the ids of all but the last two messages, in order. The new summary is the configured model's answer to the summary prompt. |
| Graph.RecentIdsAreNew | graph.py:49 | with unique ids no kept message shares an id with a deleted one |
| Graph.PruneBound | graph.py:47-49 | whatever the ids, at most two messages survive the deletion |
| Graph.PruneUnique | graph.py:47-49 | with unique ids exactly the last two messages survive |
| Graph.PruneUpdate | graph.py:47-56 | merging such a prune, whatever the summary, leaves at most two messages (the last two when ids are unique), replaces the summary and keeps the documents |
| Graph.PruneKeepsLastTwo | graph.py:47-56 | after the summarizer the buffer is the last two messages, the summary is the new one and the documents are kept |
| Graph.SummarizeKeepsBuffer | graph.py:30-58 | a non-empty buffer with unique ids stays non-empty with unique ids |
| Graph.SummarizeTwiceIsNoop | graph.py:30-56 | after a prune at most two messages remain, so running the summarizer again does nothing |
| Graph.PromptMentionsEveryMessage | graph.py:37-42 | every message's text occurs in the summary prompt |
| Graph.FirstTarget | graph.py:71-80 | the target found is that of an edge from the node; none is found only when the node has no edge |
| Graph.StateGraph.constructor | graph.py:61 | a new builder has no nodes and no edges |
| Graph.StateGraph.AddNode | graph.py:64-69 | adds one node and leaves the edges alone |
| Graph.StateGraph.AddEdge | graph.py:73-80 | appends one edge and leaves the nodes alone |
| Graph.StateGraph.Successor | graph.py:73-80 | a successor is the target of an edge from the node; there is none only when no edge leaves it |
| Graph.BuildGraph | graph.py:60-96 | the built graph has the six nodes and exactly the two fixed edges; it is well formed and its successors are the fixed edges |
| Executor.Step | graph.py:60-96 | a step raises exactly when the retriever or the escalator meets an empty conversation. It never changes the model or the user, and makes at most one outside call, appended to the log. |
| Executor.Run | graph.py:96 | a run started at END does nothing, and no run changes the configured model or the user |
| Executor.RunOnlyAppends | graph.py:60-96 | a run only appends to the log, and any error it stops on is an unguarded `messages[-1]` on an empty list |
| Executor.NeverRaisesFrom | agents/escalator.py:14-15 | from a snapshot that is not at the retriever or the escalator with an empty conversation, the run never stops on an error: every step keeps that guard and no guarded step raises |
| Executor.Turn | agents/retriever.py:14 | a turn from START never stops on an IndexError, even on an empty conversation, and keeps the configured model and the user |
| Executor.ReplyIsLast | state.py:6 | after a reply, the last message is that reply |
| Executor.FinishedTurnEndsWithReply | graph.py:86-90 | every turn on a non-empty conversation that reaches END ends with a fresh AI message last |
| Executor.AtMostOneTicket | agents/escalator.py:21 | a turn files at most one ticket, and none unless it has ended |
| Executor.StepFromStart | graph.py:73 | START leads straight to the intent detector |
| Executor.StepIntentPasses | agents/intent.py:52-54 | a passed-on message reaches the summarizer with nothing else changed |
| Executor.StepSummarizerToSupervisor | graph.py:80 | the summarizer always leads to the supervisor |
| Executor.StepShortSummarizer | graph.py:30-58 | on a short conversation the summarizer step only moves on, with no model call |
| Executor.StepSupervisor | agents/supervisor.py:12-30 | the supervisor step moves to the supervisor's choice and changes nothing else |
| Executor.StepRetriever | agents/retriever.py:14-42 | the retriever step searches once when a retriever exists and stores its documents |
| Executor.StepGeneratorAccepts | agents/generator.py:50-53 | an accepted answer ends the turn after one model call, appended as the reply |
| Executor.StepGeneratorRejects | agents/generator.py:43-48 | a rejected answer costs one model call and changes nothing else |
| Executor.StepEscalator | agents/escalator.py:14-31 | the escalator step files one ticket for the last message and ends with the apology |
| Executor.GeneratorRetriesForever | agents/generator.py:43-48 | with a model that only answers short, the generator loops: after n steps it is still at the generator with n identical model calls |
| Executor.IntentEndsTurn | agents/intent.py:15-50 | a greeting, an abusive message or an empty conversation ends the turn after the detector, with no outside call |
| Executor.ReachesSupervisor | graph.py:73-80 | a passed-on short conversation reaches the supervisor unchanged after three steps |
| Executor.EscalatorEndsRun | agents/escalator.py:28-31 | from the escalator the run ends in one step with the apology and one ticket |
| Executor.SupervisorEscalates | agents/supervisor.py:21-23 | a request for a human goes from the supervisor straight to the escalator |
| Executor.SupervisorToRetriever | agents/supervisor.py:30 | any other message goes from the supervisor to the retriever |
| Executor.RetrieverRuns | agents/retriever.py:14-42 | the retriever step searches once (when it can) and moves to the gate's choice with the documents stored |
| Executor.GeneratorEndsRun | agents/generator.py:50-53 | from the generator with an acceptable answer the run ends with that reply and one model call |
| Executor.EscalatedTurn | agents/supervisor.py:21-23 | a request for a human ends the turn with the apology and exactly one ticket call, and no search or model call |
| Executor.ReachesRetrieval | agents/supervisor.py:30 | any other passed-on message reaches the retriever's choice with the documents stored and at most the one search made |
| Executor.GateFailureEscalates | agents/retriever.py:17-36 | when the relevance gate fails the turn ends with cleared documents, after at most one search and one ticket |
| Executor.AnsweredTurn | agents/generator.py:50-53 | with hits and a long enough answer the turn ends with that answer, after one search and one model call whose prompt carries the hits |
| Executor.UnansweredTurnNeverEnds | agents/generator.py:43-48 | with hits and a model that only answers short, the turn never ends: it stays at the generator, asking again each step |

## Left out

- ASCII only. `Text.Lower` and `Text.Strip` handle ASCII letters and ASCII whitespace. Python's Unicode case mapping and whitespace classes are not modelled.
- Unknown ids. LangGraph's reducer raises on a `RemoveMessage` whose id is not in the list. The model drops unknown ids silently. The summarizer only ever lists ids taken from the list itself.
- Recursion limit. LangGraph stops a run after its recursion limit (25 steps by default). The executor takes a fuel bound instead. A run out of fuel stops where it is, and the limit's exception is not modelled.
- External services:
  - `vector_store.py`'s index and embeddings: the retriever is a search-function parameter.
  - The provider clients of `config.py` and the chat models: model calls are an oracle parameter.
  - `db.py`, `main.py`, `test_db.py` and `verify_fix.py` are not part of this model.
  - The `print` logging is not modelled.
- The checkpoint saver (`MemorySaver`) and the store (`InMemoryStore`) that `build_graph` passes to `compile` are not modelled; only one turn of the compiled graph is.
- The message ids LangGraph assigns are given. The fresh id for an AI reply is a parameter. Some theorems assume the ids in the conversation are unique, as LangGraph makes them.
- Python's `hash` is salted per process, so it is a parameter. Only the `% 10000` is modelled, with Python's non-negative remainder.
- Concurrency and the asynchronous graph API are not modelled.
- Failing outside calls. The model treats every model call, search and ticket call as returning a value. In the program any of them can raise: `model.invoke` in the generator and the summarizer, `retriever.invoke` in the retriever, the ticket tool in the escalator, and a missing provider key (such as `GROQ_API_KEY`) makes the model calls fail. No node catches these errors and `main.py` iterates `app.stream` without a `try`, so the turn aborts uncaught. `Executor.Outcome` has only the `IndexError` outcome.
- AgentState.Apply: appends a reply even when the fresh id is already in the list, where `add_messages` would replace that message in place. LangGraph's ids are uuid4 values, so the theorems that need it assume the fresh id is new.
- Retriever.Retrieve: requires a non-empty conversation. On an empty one the source raises `IndexError` at `messages[-1]`; that outcome is modelled by `Executor.Step` instead.
- Escalator.Escalate: requires a non-empty conversation for the same reason. The `IndexError` is modelled by `Executor.Step`.
- Executor.ReachesSupervisor: covers only conversations of at most six messages, where the summarizer does nothing. A longer one is covered step by step by `Executor.StepSummarizerToSupervisor` and `Graph.PruneKeepsLastTwo`.
- Executor.EscalatedTurn: covers only conversations of at most six messages, as above.
- Executor.ReachesRetrieval: covers only conversations of at most six messages, as above.
- Executor.GateFailureEscalates: covers only conversations of at most six messages, as above.
- Executor.AnsweredTurn: covers only conversations of at most six messages, as above.
- Executor.UnansweredTurnNeverEnds: covers only conversations of at most six messages, as above.
- Executor.FinishedTurnEndsWithReply: assumes unique message ids in the starting conversation.
