/** The compiled graph at work on one turn: from START, each node's Command
    is merged into the state and its `goto` (or the fixed edge) names the
    next node, until END. The outside world is an environment: the chat
    model, the FAQ retriever (absent when it could not be built), Python's
    `hash` and the id the reducer gives a new AI message. Every call to the
    outside is recorded, so that properties can count them. */
module Executor {
  import opened Wrappers
  import opened AgentState
  import opened ModelConfig
  import opened Tools
  import IntentNode = Intent
  import SupervisorNode = Supervisor
  import RetrieverNode = Retriever
  import GeneratorNode = Generator
  import EscalatorNode = Escalator
  import Graph

  /** A call to the outside world. */
  datatype Effect =
    | ModelCall(selection: Selection, input: seq<Entry>)
    | Search(query: string)
    | TicketCall(issue: string, userId: string)

  /** The model's answer may differ from call to call, so it is given the
      calls made so far in the turn besides the request. */
  datatype Env = Env(
    llm: (seq<Effect>, Selection, seq<Entry>) -> string,
    retriever: Option<string -> seq<RetrieverNode.Document>>,
    hash: string -> int,
    freshId: string)

  /** Where the turn is, the state so far and the calls made so far. */
  datatype Snapshot = Snapshot(node: Node, state: State, log: seq<Effect>)

  /** A turn either goes on (or finishes) normally or stops on the
      `IndexError` of `messages[-1]` on an empty list. */
  datatype Outcome = Ok(snap: Snapshot) | IndexError(at: Snapshot)

  /** The model as the node sees it, at this point of the turn. */
  function ModelAt(env: Env, log: seq<Effect>): (Selection, seq<Entry>) -> string
  {
    (sel: Selection, input: seq<Entry>) => env.llm(log, sel, input)
  }

  /** Merges a node's Command and moves to its `goto`. */
  function Follow(env: Env, snap: Snapshot, c: Command, effects: seq<Effect>): Outcome
  {
    Ok(Snapshot(c.goto, Apply(c.update, snap.state, env.freshId), snap.log + effects))
  }

  /** The searches the retriever node makes for `s`. */
  function Searches(env: Env, s: State): seq<Effect>
    requires s.messages != []
  {
    if env.retriever.Some? then [Search(Last(s.messages).content)] else []
  }

  /** The request the generator node sends for `s`. */
  function GeneratorCall(s: State): Effect
  {
    ModelCall(GetModel(s.model), GeneratorNode.GenerationInput(s))
  }

  /** One node's execution; END does nothing. */
  function Step(env: Env, snap: Snapshot): (r: Outcome)
    ensures r.IndexError? <==> (snap.node == Retriever || snap.node == Escalator) && snap.state.messages == []
    ensures r.IndexError? ==> r.at == snap
    ensures r.Ok? ==> r.snap.state.model == snap.state.model && r.snap.state.userId == snap.state.userId
    ensures r.Ok? ==> |snap.log| <= |r.snap.log| <= |snap.log| + 1 && r.snap.log[..|snap.log|] == snap.log
  {
    var s := snap.state;
    match snap.node
    case End => Ok(snap)
    case Start => Ok(snap.(node := Graph.FixedEdge(Start).value))
    case IntentDetector => Follow(env, snap, IntentNode.IntentDetector(s), [])
    case Summarizer =>
      var calls := if |s.messages| > Graph.Threshold
                   then [ModelCall(GetModel(s.model), Graph.SummaryRequest(s))]
                   else [];
      var u := Graph.Summarize(s, ModelAt(env, snap.log));
      Follow(env, snap, Command(u, Graph.FixedEdge(Summarizer).value), calls)
    case Supervisor => Follow(env, snap, SupervisorNode.Supervisor(s), [])
    case Retriever =>
      if s.messages == [] then IndexError(snap)
      else
        Follow(env, snap, RetrieverNode.Retrieve(s, env.retriever), Searches(env, s))
    case Generator =>
      Follow(env, snap, GeneratorNode.Generate(s, ModelAt(env, snap.log)), [GeneratorCall(s)])
    case Escalator =>
      if s.messages == [] then IndexError(snap)
      else
        var (issue, userId) := EscalatorNode.TicketRequest(s);
        Follow(env, snap, EscalatorNode.Escalate(s, env.hash), [TicketCall(issue, userId)])
  }

  /** The runtime's loop, for any step function: at most `fuel` steps,
      stopping at END or on an error. LangGraph's recursion limit is not
      modelled; the fuel stands in for it. */
  function Drive(step: Snapshot -> Outcome, fuel: nat, snap: Snapshot): Outcome
    decreases fuel
  {
    if snap.node == End || fuel == 0 then Ok(snap)
    else
      match step(snap)
      case IndexError(_) => IndexError(snap)
      case Ok(next) => Drive(step, fuel - 1, next)
  }

  function StepOf(env: Env): Snapshot -> Outcome
  {
    (p: Snapshot) => Step(env, p)
  }

  /** The compiled graph run from `snap`: nothing happens at END, and no
      node changes the configured model or the user. */
  function Run(fuel: nat, env: Env, snap: Snapshot): (r: Outcome)
    ensures snap.node == End ==> r == Ok(snap)
    ensures r.Ok? ==> r.snap.state.model == snap.state.model && r.snap.state.userId == snap.state.userId
  {
    DriveKeepsConfig(fuel, env, snap);
    Drive(StepOf(env), fuel, snap)
  }

  /** One turn on `s`, from START. It never stops on an IndexError, even
      on an empty conversation: the intent detector and the supervisor end
      such a turn before the retriever or the escalator is reached. */
  function Turn(fuel: nat, env: Env, s: State): (r: Outcome)
    ensures r.Ok?
    ensures r.snap.state.model == s.model && r.snap.state.userId == s.userId
  {
    NeverRaisesFrom(fuel, env, Snapshot(Start, s, []));
    Run(fuel, env, Snapshot(Start, s, []))
  }

  // ---------------------------------------------------------------------------
  // Facts about the loop, for any step function

  /** What every step preserves holds wherever the loop stops, and an error
      is raised only by a step that raises it. */
  lemma {:induction false} DriveKeeps(step: Snapshot -> Outcome, inv: Snapshot -> bool, fuel: nat, snap: Snapshot)
    requires inv(snap)
    requires forall p :: inv(p) && p.node != End && step(p).Ok? ==> inv(step(p).snap)
    ensures var r := Drive(step, fuel, snap);
            (r.Ok? ==> inv(r.snap))
            && (r.IndexError? ==> inv(r.at) && r.at.node != End && step(r.at).IndexError?)
    decreases fuel
  {
    if snap.node != End && fuel > 0 {
      if step(snap).Ok? {
        DriveKeeps(step, inv, fuel - 1, step(snap).snap);
      }
    }
  }

  /** One step taken inside the loop; the fuel left is passed explicitly
      so that chained steps name the same remaining fuel. */
  lemma DriveStep(step: Snapshot -> Outcome, fuel: nat, rest: nat, p: Snapshot, q: Snapshot)
    requires fuel == rest + 1 && p.node != End && step(p) == Ok(q)
    ensures Drive(step, fuel, p) == Drive(step, rest, q)
  {
  }

  lemma DriveEnd(step: Snapshot -> Outcome, fuel: nat, p: Snapshot)
    requires p.node == End
    ensures Drive(step, fuel, p) == Ok(p)
  {
  }

  /** The loop keeps the configured model and the user, since every step
      does. */
  lemma DriveKeepsConfig(fuel: nat, env: Env, snap: Snapshot)
    ensures var r := Drive(StepOf(env), fuel, snap);
            r.Ok? ==> r.snap.state.model == snap.state.model && r.snap.state.userId == snap.state.userId
  {
    var inv := (p: Snapshot) => p.state.model == snap.state.model && p.state.userId == snap.state.userId;
    DriveKeeps(StepOf(env), inv, fuel, snap);
  }

  /** A step that only ever appends `e` to the log keeps the loop where it
      is. */
  lemma {:induction false} DriveLoops(step: Snapshot -> Outcome, fuel: nat, p: Snapshot, e: Effect)
    requires p.node != End
    requires forall log :: step(p.(log := log)) == Ok(p.(log := log + [e]))
    ensures Drive(step, fuel, p) == Ok(p.(log := p.log + Repeat(e, fuel)))
    decreases fuel
  {
    if fuel == 0 {
      assert p.log + Repeat(e, 0) == p.log;
    } else {
      var q := p.(log := p.log + [e]);
      assert step(p.(log := p.log)) == Ok(q);
      DriveLoops(step, fuel - 1, q, e);
      assert p.log + [e] + Repeat(e, fuel - 1) == p.log + Repeat(e, fuel);
    }
  }

  function Repeat(e: Effect, n: nat): (r: seq<Effect>)
    ensures |r| == n && forall i :: 0 <= i < n ==> r[i] == e
  {
    if n == 0 then [] else Repeat(e, n - 1) + [e]
  }

  // ---------------------------------------------------------------------------
  // What a run does to the log and where it can fail

  /** A run only appends to the calls made so far, at most one per step,
      and can stop with an error only at the retriever or the escalator on
      an empty conversation. */
  lemma RunOnlyAppends(fuel: nat, env: Env, snap: Snapshot)
    ensures var r := Run(fuel, env, snap);
            (r.Ok? ==> |snap.log| <= |r.snap.log| && r.snap.log[..|snap.log|] == snap.log)
            && (r.IndexError? ==> (r.at.node == Retriever || r.at.node == Escalator) && r.at.state.messages == [])
  {
    var inv := (p: Snapshot) => |snap.log| <= |p.log| && p.log[..|snap.log|] == snap.log;
    forall p | inv(p) && p.node != End && StepOf(env)(p).Ok?
      ensures inv(StepOf(env)(p).snap)
    {
      var q := Step(env, p).snap;
      assert q.log[..|p.log|] == p.log;
      assert q.log[..|snap.log|] == q.log[..|p.log|][..|snap.log|];
    }
    DriveKeeps(StepOf(env), inv, fuel, snap);
  }

  // ---------------------------------------------------------------------------
  // The two nodes that index `messages[-1]` without a guard are never
  // reached with an empty conversation.

  ghost predicate Guarded(snap: Snapshot)
  {
    (snap.node == Retriever || snap.node == Escalator) ==> snap.state.messages != []
  }

  lemma StepKeepsGuarded(env: Env, snap: Snapshot)
    requires snap.node != End && Guarded(snap)
    ensures Step(env, snap).Ok? && Guarded(Step(env, snap).snap)
  {
    var s := snap.state;
    match snap.node
    case Supervisor =>
      SupervisorNode.SupervisorKeepsState(s, env.freshId);
    case Retriever =>
      RetrieverNode.RetrieveOverwritesDocs(s, env.retriever, env.freshId);
    case _ =>
  }

  /** From a guarded snapshot the loop never stops on an IndexError: every
      step keeps the guard, and a guarded step does not raise. */
  lemma NeverRaisesFrom(fuel: nat, env: Env, snap: Snapshot)
    requires Guarded(snap)
    ensures Drive(StepOf(env), fuel, snap).Ok?
  {
    var inv := (p: Snapshot) => Guarded(p);
    forall p | inv(p) && p.node != End && StepOf(env)(p).Ok?
      ensures inv(StepOf(env)(p).snap)
    {
      StepKeepsGuarded(env, p);
    }
    forall p | inv(p) && p.node != End
      ensures StepOf(env)(p).Ok?
    {
      StepKeepsGuarded(env, p);
    }
    DriveKeeps(StepOf(env), inv, fuel, snap);
  }

  // ---------------------------------------------------------------------------
  // Every finished turn ends with the AI's reply

  /** Before END the conversation is non-empty with unique ids; at END its
      last message is the AI message the reducer appended. */
  ghost predicate Replied(env: Env, snap: Snapshot)
  {
    snap.state.messages != []
    && (snap.node == End ==> Last(snap.state.messages).id == env.freshId
                             && Last(snap.state.messages).kind == AI)
    && (snap.node != End ==> UniqueIds(snap.state.messages))
  }

  lemma ReplyIsLast(s: State, text: string, freshId: string)
    ensures Last(Apply(Reply(text), s, freshId).messages) == Message(freshId, AI, text)
  {
    ApplyReply(s, text, freshId);
  }

  lemma IntentKeepsReplied(env: Env, snap: Snapshot)
    requires snap.node == IntentDetector && Replied(env, snap)
    ensures Step(env, snap).Ok? && Replied(env, Step(env, snap).snap)
  {
    var s := snap.state;
    var c := IntentNode.IntentDetector(s);
    if c.goto == End {
      assert c.update == Reply(c.update.reply.value);
      ReplyIsLast(s, c.update.reply.value, env.freshId);
    } else {
      ApplyNoUpdate(s, env.freshId);
    }
  }

  lemma SummarizerKeepsReplied(env: Env, snap: Snapshot)
    requires snap.node == Summarizer && Replied(env, snap)
    ensures Step(env, snap).Ok? && Replied(env, Step(env, snap).snap)
  {
    var s := snap.state;
    var llm := ModelAt(env, snap.log);
    assert Step(env, snap).snap.state == Apply(Graph.Summarize(s, llm), s, env.freshId);
    Graph.SummarizeKeepsBuffer(s, llm, env.freshId);
  }

  lemma GeneratorKeepsReplied(env: Env, snap: Snapshot)
    requires snap.node == Generator && Replied(env, snap)
    ensures Step(env, snap).Ok? && Replied(env, Step(env, snap).snap)
  {
    var s := snap.state;
    var answer := GeneratorNode.Answer(s, ModelAt(env, snap.log));
    if GeneratorNode.Accepted(answer) {
      ReplyIsLast(s, answer, env.freshId);
    } else {
      ApplyNoUpdate(s, env.freshId);
    }
  }

  lemma EscalatorKeepsReplied(env: Env, snap: Snapshot)
    requires snap.node == Escalator && Replied(env, snap)
    ensures Step(env, snap).Ok? && Replied(env, Step(env, snap).snap)
  {
    var s := snap.state;
    ReplyIsLast(s, EscalatorNode.Escalate(s, env.hash).update.reply.value, env.freshId);
  }

  lemma StepKeepsReplied(env: Env, snap: Snapshot)
    requires snap.node != End && Replied(env, snap)
    ensures Step(env, snap).Ok? && Replied(env, Step(env, snap).snap)
  {
    match snap.node
    case Start =>
    case IntentDetector => IntentKeepsReplied(env, snap);
    case Summarizer => SummarizerKeepsReplied(env, snap);
    case Supervisor => SupervisorNode.SupervisorKeepsState(snap.state, env.freshId);
    case Retriever => RetrieverNode.RetrieveOverwritesDocs(snap.state, env.retriever, env.freshId);
    case Generator => GeneratorKeepsReplied(env, snap);
    case Escalator => EscalatorKeepsReplied(env, snap);
  }

  lemma RunKeepsReplied(fuel: nat, env: Env, snap: Snapshot)
    requires Replied(env, snap)
    ensures Run(fuel, env, snap).Ok? && Replied(env, Run(fuel, env, snap).snap)
  {
    var inv := (p: Snapshot) => Replied(env, p);
    forall p | inv(p) && p.node != End
      ensures StepOf(env)(p).Ok? && inv(StepOf(env)(p).snap)
    {
      StepKeepsReplied(env, p);
    }
    DriveKeeps(StepOf(env), inv, fuel, snap);
  }

  /** A turn on a non-empty conversation with unique ids that reaches END
      leaves the AI's answer as the last message, whichever node gave it. */
  lemma FinishedTurnEndsWithReply(fuel: nat, env: Env, s: State)
    requires s.messages != [] && UniqueIds(s.messages)
    requires Turn(fuel, env, s).Ok? && Turn(fuel, env, s).snap.node == End
    ensures var ms := Turn(fuel, env, s).snap.state.messages;
            ms != [] && Last(ms).id == env.freshId && Last(ms).kind == AI
  {
    RunKeepsReplied(fuel, env, Snapshot(Start, s, []));
  }

  // ---------------------------------------------------------------------------
  // At most one ticket per turn

  /** How many tickets the calls file. */
  function Tickets(log: seq<Effect>): (n: nat)
    ensures n <= |log|
  {
    if log == [] then 0
    else Tickets(log[..|log| - 1]) + (if log[|log| - 1].TicketCall? then 1 else 0)
  }

  lemma TicketsAppend(log: seq<Effect>, more: seq<Effect>)
    requires |more| <= 1
    ensures Tickets(log + more) == Tickets(log) + (if more != [] && more[0].TicketCall? then 1 else 0)
  {
    if more != [] {
      assert (log + more)[..|log + more| - 1] == log;
    } else {
      assert log + more == log;
    }
  }

  /** No ticket before END, at most one at END. */
  ghost predicate TicketsSoFar(snap: Snapshot)
  {
    Tickets(snap.log) <= (if snap.node == End then 1 else 0)
  }

  lemma StepKeepsTickets(env: Env, snap: Snapshot)
    requires snap.node != End && TicketsSoFar(snap) && Step(env, snap).Ok?
    ensures TicketsSoFar(Step(env, snap).snap)
  {
    var next := Step(env, snap).snap;
    var more := next.log[|snap.log|..];
    assert next.log == snap.log + more;
    TicketsAppend(snap.log, more);
    if more != [] && more[0].TicketCall? {
      assert snap.node == Escalator;
    }
  }

  lemma RunKeepsTickets(fuel: nat, env: Env, snap: Snapshot)
    requires TicketsSoFar(snap)
    ensures Run(fuel, env, snap).Ok? ==> TicketsSoFar(Run(fuel, env, snap).snap)
  {
    var inv := (p: Snapshot) => TicketsSoFar(p);
    forall p | inv(p) && p.node != End && StepOf(env)(p).Ok?
      ensures inv(StepOf(env)(p).snap)
    {
      StepKeepsTickets(env, p);
    }
    DriveKeeps(StepOf(env), inv, fuel, snap);
  }

  /** A turn files at most one support ticket, and none unless it has
      finished. */
  lemma AtMostOneTicket(fuel: nat, env: Env, s: State)
    ensures var r := Turn(fuel, env, s);
            r.Ok? && Tickets(r.snap.log) <= 1
            && (r.snap.node != End ==> Tickets(r.snap.log) == 0)
  {
    RunKeepsTickets(fuel, env, Snapshot(Start, s, []));
  }

  // ---------------------------------------------------------------------------
  // Single steps along the common paths

  lemma StepFromStart(env: Env, p: Snapshot)
    requires p.node == Start
    ensures Step(env, p) == Ok(p.(node := IntentDetector))
  {
  }

  lemma StepIntent(env: Env, p: Snapshot)
    requires p.node == IntentDetector
    ensures var c := IntentNode.IntentDetector(p.state);
            Step(env, p) == Ok(Snapshot(c.goto, Apply(c.update, p.state, env.freshId), p.log))
  {
    assert p.log + [] == p.log;
  }

  lemma StepIntentPasses(env: Env, p: Snapshot)
    requires p.node == IntentDetector && IntentNode.IntentDetector(p.state).goto == Summarizer
    ensures Step(env, p) == Ok(p.(node := Summarizer))
  {
    StepIntent(env, p);
    ApplyNoUpdate(p.state, env.freshId);
  }

  /** The fixed edge out of the summarizer: whatever it did to the state,
      the supervisor comes next. */
  lemma StepSummarizerToSupervisor(env: Env, p: Snapshot)
    requires p.node == Summarizer
    ensures Step(env, p).Ok? && Step(env, p).snap.node == Supervisor
  {
  }

  lemma StepShortSummarizer(env: Env, p: Snapshot)
    requires p.node == Summarizer && |p.state.messages| <= Graph.Threshold
    ensures Step(env, p) == Ok(p.(node := Supervisor))
  {
    ApplyNoUpdate(p.state, env.freshId);
    assert p.log + [] == p.log;
  }

  lemma StepSupervisor(env: Env, p: Snapshot)
    requires p.node == Supervisor
    ensures Step(env, p) == Ok(p.(node := SupervisorNode.Supervisor(p.state).goto))
  {
    SupervisorNode.SupervisorKeepsState(p.state, env.freshId);
    assert p.log + [] == p.log;
  }

  lemma StepRetriever(env: Env, p: Snapshot)
    requires p.node == Retriever && p.state.messages != []
    ensures var c := RetrieverNode.Retrieve(p.state, env.retriever);
            Step(env, p) == Ok(Snapshot(c.goto, p.state.(retrievedDocs := c.update.docs), p.log + Searches(env, p.state)))
  {
    RetrieverNode.RetrieveOverwritesDocs(p.state, env.retriever, env.freshId);
  }

  lemma StepGeneratorAccepts(env: Env, p: Snapshot)
    requires p.node == Generator
    requires GeneratorNode.Accepted(env.llm(p.log, GetModel(p.state.model), GeneratorNode.GenerationInput(p.state)))
    ensures var answer := env.llm(p.log, GetModel(p.state.model), GeneratorNode.GenerationInput(p.state));
            Step(env, p)
            == Ok(Snapshot(End, p.state.(messages := p.state.messages + [Message(env.freshId, AI, answer)]),
                           p.log + [GeneratorCall(p.state)]))
  {
    GeneratorNode.AcceptanceReplies(p.state, ModelAt(env, p.log), env.freshId);
  }

  lemma StepGeneratorRejects(env: Env, p: Snapshot)
    requires p.node == Generator
    requires !GeneratorNode.Accepted(env.llm(p.log, GetModel(p.state.model), GeneratorNode.GenerationInput(p.state)))
    ensures Step(env, p) == Ok(p.(log := p.log + [GeneratorCall(p.state)]))
  {
    GeneratorNode.RejectionRetries(p.state, ModelAt(env, p.log), env.freshId);
  }

  lemma StepEscalator(env: Env, p: Snapshot)
    requires p.node == Escalator && p.state.messages != []
    ensures var s := p.state;
            var issue := Last(s.messages).content;
            var reply := EscalatorNode.EscalationReply(CreateSupportTicket(issue, EscalatorNode.UserIdOf(s), env.hash));
            Step(env, p)
            == Ok(Snapshot(End, s.(messages := s.messages + [Message(env.freshId, AI, reply)]),
                           p.log + [TicketCall(issue, EscalatorNode.UserIdOf(s))]))
  {
    EscalatorNode.EscalationAppendsOneReply(p.state, env.hash, env.freshId);
  }

  // ---------------------------------------------------------------------------
  // The generator's retry loop

  /** If the model only ever gives answers with fewer than five non-blank
      characters, the generator asks again and again with the same request
      and the state never changes: nothing bounds the retries. */
  lemma GeneratorRetriesForever(fuel: nat, env: Env, s: State, log: seq<Effect>)
    requires forall past, sel, input :: !GeneratorNode.Accepted(env.llm(past, sel, input))
    ensures Run(fuel, env, Snapshot(Generator, s, log))
            == Ok(Snapshot(Generator, s, log + Repeat(GeneratorCall(s), fuel)))
  {
    var p := Snapshot(Generator, s, log);
    forall past ensures StepOf(env)(p.(log := past)) == Ok(p.(log := past + [GeneratorCall(s)])) {
      StepGeneratorRejects(env, p.(log := past));
    }
    DriveLoops(StepOf(env), fuel, p, GeneratorCall(s));
  }

  // ---------------------------------------------------------------------------
  // Whole turns

  /** A greeting, an abusive message or an empty conversation is answered
      by the intent detector alone: the turn ends after two steps with no
      call to the model, the retriever or the ticket tool. */
  lemma IntentEndsTurn(fuel: nat, env: Env, s: State)
    requires fuel >= 2 && IntentNode.IntentDetector(s).goto == End
    ensures Turn(fuel, env, s) == Ok(Snapshot(End, Apply(IntentNode.IntentDetector(s).update, s, env.freshId), []))
  {
    var p0 := Snapshot(Start, s, []);
    var p1 := p0.(node := IntentDetector);
    StepFromStart(env, p0);
    DriveStep(StepOf(env), fuel, fuel - 1, p0, p1);
    StepIntent(env, p1);
    var p2 := Snapshot(End, Apply(IntentNode.IntentDetector(s).update, s, env.freshId), []);
    DriveStep(StepOf(env), fuel - 1, fuel - 2, p1, p2);
    DriveEnd(StepOf(env), fuel - 2, p2);
  }

  /** A message that passes the intent detector in a short conversation
      reaches the supervisor unchanged and without outside calls. */
  lemma ReachesSupervisor(fuel: nat, env: Env, s: State)
    requires fuel >= 3 && IntentNode.IntentDetector(s).goto == Summarizer
    requires |s.messages| <= Graph.Threshold
    ensures Turn(fuel, env, s) == Run(fuel - 3, env, Snapshot(Supervisor, s, []))
  {
    var p0 := Snapshot(Start, s, []);
    var p1, p2 := p0.(node := IntentDetector), p0.(node := Summarizer);
    StepFromStart(env, p0);
    DriveStep(StepOf(env), fuel, fuel - 1, p0, p1);
    StepIntentPasses(env, p1);
    DriveStep(StepOf(env), fuel - 1, fuel - 2, p1, p2);
    StepShortSummarizer(env, p2);
    DriveStep(StepOf(env), fuel - 2, fuel - 3, p2, p0.(node := Supervisor));
  }

  // The segments below hold for any fuel left, so that a turn can chain
  // them without arithmetic on the fuel.

  /** From the escalator, one ticket is filed for the last message and the
      run ends with the escalation reply. */
  lemma EscalatorEndsRun(env: Env, s: State, log: seq<Effect>)
    requires s.messages != []
    ensures var issue := Last(s.messages).content;
            var reply := EscalatorNode.EscalationReply(CreateSupportTicket(issue, EscalatorNode.UserIdOf(s), env.hash));
            forall fuel: nat | fuel >= 1 ::
              Run(fuel, env, Snapshot(Escalator, s, log))
              == Ok(Snapshot(End, s.(messages := s.messages + [Message(env.freshId, AI, reply)]),
                             log + [TicketCall(issue, EscalatorNode.UserIdOf(s))]))
  {
    var p := Snapshot(Escalator, s, log);
    var issue := Last(s.messages).content;
    var reply := EscalatorNode.EscalationReply(CreateSupportTicket(issue, EscalatorNode.UserIdOf(s), env.hash));
    var q := Snapshot(End, s.(messages := s.messages + [Message(env.freshId, AI, reply)]),
                      log + [TicketCall(issue, EscalatorNode.UserIdOf(s))]);
    StepEscalator(env, p);
    forall fuel: nat | fuel >= 1 ensures Run(fuel, env, p) == Ok(q) {
      DriveStep(StepOf(env), fuel, fuel - 1, p, q);
      DriveEnd(StepOf(env), fuel - 1, q);
    }
  }

  /** From the supervisor, a message asking for a human goes to the
      escalator and nothing else changes. */
  lemma SupervisorEscalates(env: Env, s: State)
    requires s.messages != [] && SupervisorNode.WantsHuman(Last(s.messages).content)
    ensures forall fuel: nat | fuel >= 1 ::
              Run(fuel, env, Snapshot(Supervisor, s, [])) == Run(fuel - 1, env, Snapshot(Escalator, s, []))
  {
    var p := Snapshot(Supervisor, s, []);
    StepSupervisor(env, p);
    forall fuel: nat | fuel >= 1 ensures Run(fuel, env, p) == Run(fuel - 1, env, p.(node := Escalator)) {
      DriveStep(StepOf(env), fuel, fuel - 1, p, p.(node := Escalator));
    }
  }

  /** From the supervisor, any other message goes to the retriever. */
  lemma SupervisorToRetriever(env: Env, s: State)
    requires s.messages != [] && !SupervisorNode.WantsHuman(Last(s.messages).content)
    ensures forall fuel: nat | fuel >= 1 ::
              Run(fuel, env, Snapshot(Supervisor, s, [])) == Run(fuel - 1, env, Snapshot(Retriever, s, []))
  {
    var p := Snapshot(Supervisor, s, []);
    StepSupervisor(env, p);
    forall fuel: nat | fuel >= 1 ensures Run(fuel, env, p) == Run(fuel - 1, env, p.(node := Retriever)) {
      DriveStep(StepOf(env), fuel, fuel - 1, p, p.(node := Retriever));
    }
  }

  /** The retriever calls the search once when it exists and stores what it
      found. */
  lemma RetrieverRuns(env: Env, s: State)
    requires s.messages != []
    ensures var c := RetrieverNode.Retrieve(s, env.retriever);
            forall fuel: nat | fuel >= 1 ::
              Run(fuel, env, Snapshot(Retriever, s, []))
              == Run(fuel - 1, env, Snapshot(c.goto, s.(retrievedDocs := c.update.docs), Searches(env, s)))
  {
    var p := Snapshot(Retriever, s, []);
    var c := RetrieverNode.Retrieve(s, env.retriever);
    var q := Snapshot(c.goto, s.(retrievedDocs := c.update.docs), Searches(env, s));
    StepRetriever(env, p);
    assert [] + Searches(env, s) == Searches(env, s);
    forall fuel: nat | fuel >= 1 ensures Run(fuel, env, p) == Run(fuel - 1, env, q) {
      DriveStep(StepOf(env), fuel, fuel - 1, p, q);
    }
  }

  /** From the generator, an accepted first answer ends the run as the one
      new AI message. */
  lemma GeneratorEndsRun(env: Env, s: State, log: seq<Effect>)
    requires GeneratorNode.Accepted(env.llm(log, GetModel(s.model), GeneratorNode.GenerationInput(s)))
    ensures var answer := env.llm(log, GetModel(s.model), GeneratorNode.GenerationInput(s));
            forall fuel: nat | fuel >= 1 ::
              Run(fuel, env, Snapshot(Generator, s, log))
              == Ok(Snapshot(End, s.(messages := s.messages + [Message(env.freshId, AI, answer)]),
                             log + [GeneratorCall(s)]))
  {
    var p := Snapshot(Generator, s, log);
    var answer := env.llm(log, GetModel(s.model), GeneratorNode.GenerationInput(s));
    var q := Snapshot(End, s.(messages := s.messages + [Message(env.freshId, AI, answer)]), log + [GeneratorCall(s)]);
    StepGeneratorAccepts(env, p);
    forall fuel: nat | fuel >= 1 ensures Run(fuel, env, p) == Ok(q) {
      DriveStep(StepOf(env), fuel, fuel - 1, p, q);
      DriveEnd(StepOf(env), fuel - 1, q);
    }
  }

  /** Asking for a human files exactly one ticket for the last message and
      ends the turn with the escalation reply; nothing else is called. */
  lemma EscalatedTurn(fuel: nat, env: Env, s: State)
    requires fuel >= 5 && IntentNode.IntentDetector(s).goto == Summarizer
    requires |s.messages| <= Graph.Threshold
    requires SupervisorNode.WantsHuman(Last(s.messages).content)
    ensures var issue := Last(s.messages).content;
            var reply := EscalatorNode.EscalationReply(CreateSupportTicket(issue, EscalatorNode.UserIdOf(s), env.hash));
            Turn(fuel, env, s)
            == Ok(Snapshot(End, s.(messages := s.messages + [Message(env.freshId, AI, reply)]),
                           [TicketCall(issue, EscalatorNode.UserIdOf(s))]))
  {
    ReachesSupervisor(fuel, env, s);
    SupervisorEscalates(env, s);
    EscalatorEndsRun(env, s, []);
    var ticket := TicketCall(Last(s.messages).content, EscalatorNode.UserIdOf(s));
    assert [] + [ticket] == [ticket];
  }

  /** Without a keyword the turn goes through the retriever, which calls
      the search once when it exists and stores what it found. */
  lemma ReachesRetrieval(fuel: nat, env: Env, s: State)
    requires fuel >= 5 && IntentNode.IntentDetector(s).goto == Summarizer
    requires |s.messages| <= Graph.Threshold
    requires !SupervisorNode.WantsHuman(Last(s.messages).content)
    ensures var c := RetrieverNode.Retrieve(s, env.retriever);
            Turn(fuel, env, s) == Run(fuel - 5, env, Snapshot(c.goto, s.(retrievedDocs := c.update.docs), Searches(env, s)))
  {
    ReachesSupervisor(fuel, env, s);
    SupervisorToRetriever(env, s);
    RetrieverRuns(env, s);
  }

  /** When the relevance gate fails (no retriever, no hits, or a question
      about the weather) the documents are cleared and one ticket is
      filed, after the search if there was one. */
  lemma GateFailureEscalates(fuel: nat, env: Env, s: State)
    requires fuel >= 6 && IntentNode.IntentDetector(s).goto == Summarizer
    requires |s.messages| <= Graph.Threshold
    requires !SupervisorNode.WantsHuman(Last(s.messages).content)
    requires RetrieverNode.Retrieve(s, env.retriever).goto == Escalator
    ensures var r := Turn(fuel, env, s);
            r.Ok? && r.snap.node == End && r.snap.state.retrievedDocs == Some([])
            && r.snap.log == Searches(env, s) + [TicketCall(Last(s.messages).content, EscalatorNode.UserIdOf(s))]
  {
    ReachesRetrieval(fuel, env, s);
    RetrieverNode.GateIsDisjunction(s, env.retriever);
    EscalatorEndsRun(env, s.(retrievedDocs := Some([])), Searches(env, s));
  }

  /** The state once the retriever has stored the texts of its hits for
      the last message. */
  function Retrieved(env: Env, s: State): State
    requires s.messages != [] && env.retriever.Some?
  {
    s.(retrievedDocs := Some(RetrieverNode.PageContents(env.retriever.value(Last(s.messages).content))))
  }

  /** The happy path: relevant documents are found and the model's first
      answer is long enough. The turn searches once, asks the model once
      with the documents in the prompt, and ends with that answer. */
  lemma AnsweredTurn(fuel: nat, env: Env, s: State)
    requires fuel >= 6 && IntentNode.IntentDetector(s).goto == Summarizer
    requires |s.messages| <= Graph.Threshold
    requires !SupervisorNode.WantsHuman(Last(s.messages).content)
    requires RetrieverNode.Retrieve(s, env.retriever).goto == Generator
    requires var s1 := Retrieved(env, s);
             GeneratorNode.Accepted(env.llm(Searches(env, s), GetModel(s.model), GeneratorNode.GenerationInput(s1)))
    ensures var s1 := Retrieved(env, s);
            var answer := env.llm(Searches(env, s), GetModel(s.model), GeneratorNode.GenerationInput(s1));
            Turn(fuel, env, s)
            == Ok(Snapshot(End, s1.(messages := s.messages + [Message(env.freshId, AI, answer)]),
                           [Search(Last(s.messages).content), GeneratorCall(s1)]))
  {
    ReachesRetrieval(fuel, env, s);
    RetrieverNode.GateIsDisjunction(s, env.retriever);
    GeneratorEndsRun(env, Retrieved(env, s), Searches(env, s));
    var call := GeneratorCall(Retrieved(env, s));
    assert Searches(env, s) + [call] == [Search(Last(s.messages).content), call];
  }

  /** With relevant documents but a model that only gives answers of fewer
      than five non-blank characters, the turn never ends: after the search
      it asks the model once per step, always with the same request. */
  lemma UnansweredTurnNeverEnds(fuel: nat, env: Env, s: State)
    requires fuel >= 5 && IntentNode.IntentDetector(s).goto == Summarizer
    requires |s.messages| <= Graph.Threshold
    requires !SupervisorNode.WantsHuman(Last(s.messages).content)
    requires RetrieverNode.Retrieve(s, env.retriever).goto == Generator
    requires forall past, sel, input :: !GeneratorNode.Accepted(env.llm(past, sel, input))
    ensures var s1 := Retrieved(env, s);
            Turn(fuel, env, s)
            == Ok(Snapshot(Generator, s1, [Search(Last(s.messages).content)] + Repeat(GeneratorCall(s1), fuel - 5)))
  {
    ReachesRetrieval(fuel, env, s);
    RetrieverNode.GateIsDisjunction(s, env.retriever);
    GeneratorRetriesForever(fuel - 5, env, Retrieved(env, s), Searches(env, s));
  }
}
