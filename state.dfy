/** The conversation state threaded through every node (`AgentState`), the
    partial update a node hands back, and the reducer that merges an update
    into the state: `messages` goes through LangGraph's `add_messages`, every
    other key is overwritten. */
module AgentState {
  import opened Wrappers

  /** The message classes the graph produces or receives: HumanMessage,
      AIMessage and SystemMessage. */
  datatype Kind = Human | AI | System

  /** A chat message with the id the reducer gave it. */
  datatype Message = Message(id: string, kind: Kind, content: string)

  /** A (role, content) pair as it is handed to the language model. */
  datatype Entry = Entry(kind: Kind, content: string)

  /** `AgentState`. The keys nodes read with `.get(key, default)` may be
      absent, hence `Option`. `model` stands for
      `config["configurable"]["model"]` and `userId` for
      `user_info["user_id"]`: no node reads anything else from `config` or
      `user_info`. */
  datatype State = State(
    messages: seq<Message>,
    summary: Option<string>,
    retrievedDocs: Option<seq<string>>,
    model: Option<string>,
    userId: Option<string>)

  /** The six nodes, with LangGraph's START and END (`__end__`). */
  datatype Node =
    | Start
    | IntentDetector
    | Summarizer
    | Supervisor
    | Retriever
    | Generator
    | Escalator
    | End

  /** The `update` a node returns. `reply` is the content of the one
      AIMessage the node appends, `remove` the ids of its RemoveMessage
      entries, `summary` and `docs` the new values of `summary` and
      `retrieved_docs` when the node sets them. */
  datatype Update = Update(
    reply: Option<string>,
    remove: seq<string>,
    summary: Option<string>,
    docs: Option<seq<string>>)

  /** An update with no keys: `{}` or a Command without `update`. */
  const NoUpdate := Update(None, [], None, None)

  /** `{"messages": [AIMessage(content=text)]}`. */
  function Reply(text: string): Update
  {
    Update(Some(text), [], None, None)
  }

  /** LangGraph's `Command(update, goto)`. */
  datatype Command = Command(update: Update, goto: Node)

  function Last(ms: seq<Message>): Message
    requires ms != []
  {
    ms[|ms| - 1]
  }

  function ToEntry(m: Message): Entry
  {
    Entry(m.kind, m.content)
  }

  /** `[m.id for m in ms]`. */
  function Ids(ms: seq<Message>): (r: seq<string>)
    ensures |r| == |ms| && forall i :: 0 <= i < |ms| ==> r[i] == ms[i].id
  {
    seq(|ms|, i requires 0 <= i < |ms| => ms[i].id)
  }

  /** No two messages in the buffer share an id. */
  ghost predicate UniqueIds(ms: seq<Message>)
  {
    forall i, j :: 0 <= i < j < |ms| ==> ms[i].id != ms[j].id
  }

  /** The part of `add_messages` that handles RemoveMessage entries: every
      message whose id is listed is dropped, the rest keep their order. */
  function RemoveIds(ms: seq<Message>, ids: seq<string>): (r: seq<Message>)
    ensures |r| <= |ms|
  {
    if ms == [] then []
    else (if ms[0].id in ids then [] else [ms[0]]) + RemoveIds(ms[1..], ids)
  }

  /** Merges a node's update into the state. A reply becomes an AIMessage
      whose id is `freshId` (the reducer's uuid) appended after the
      removals; `summary` and `retrieved_docs` are overwritten when the
      update sets them; `config` and `user_info` are never written. */
  function Apply(u: Update, s: State, freshId: string): (r: State)
    ensures r.model == s.model && r.userId == s.userId
    ensures u.summary.None? ==> r.summary == s.summary
    ensures u.docs.None? ==> r.retrievedDocs == s.retrievedDocs
  {
    State(
      RemoveIds(s.messages, u.remove)
        + (if u.reply.Some? then [Message(freshId, AI, u.reply.value)] else []),
      if u.summary.Some? then u.summary else s.summary,
      if u.docs.Some? then u.docs else s.retrievedDocs,
      s.model,
      s.userId)
  }

  // ---------------------------------------------------------------------------
  // Properties of the reducer

  /** Exactly the messages whose id is not listed survive a removal. */
  lemma {:induction false} RemoveIdsMembers(ms: seq<Message>, ids: seq<string>)
    ensures forall m :: m in RemoveIds(ms, ids) <==> m in ms && m.id !in ids
  {
    if ms != [] {
      RemoveIdsMembers(ms[1..], ids);
      assert ms == [ms[0]] + ms[1..];
    }
  }

  /** Removing ids that no message carries changes nothing. */
  lemma {:induction false} RemoveUnlisted(ms: seq<Message>, ids: seq<string>)
    requires forall i :: 0 <= i < |ms| ==> ms[i].id !in ids
    ensures RemoveIds(ms, ids) == ms
  {
    if ms != [] {
      RemoveUnlisted(ms[1..], ids);
    }
  }

  /** Removal distributes over concatenation. */
  lemma {:induction false} RemoveIdsConcat(a: seq<Message>, b: seq<Message>, ids: seq<string>)
    ensures RemoveIds(a + b, ids) == RemoveIds(a, ids) + RemoveIds(b, ids)
  {
    if a != [] {
      assert (a + b)[1..] == a[1..] + b;
      RemoveIdsConcat(a[1..], b, ids);
    } else {
      assert a + b == b;
    }
  }

  /** Removing every id a buffer carries empties it. */
  lemma {:induction false} RemoveListed(ms: seq<Message>, ids: seq<string>)
    requires forall i :: 0 <= i < |ms| ==> ms[i].id in ids
    ensures RemoveIds(ms, ids) == []
  {
    if ms != [] {
      RemoveListed(ms[1..], ids);
    }
  }

  /** Removal keeps the ids unique. */
  lemma {:induction false} RemoveKeepsUnique(ms: seq<Message>, ids: seq<string>)
    requires UniqueIds(ms)
    ensures UniqueIds(RemoveIds(ms, ids))
  {
    if ms != [] {
      RemoveKeepsUnique(ms[1..], ids);
      var rest := RemoveIds(ms[1..], ids);
      RemoveIdsMembers(ms[1..], ids);
      forall m | m in rest ensures m.id != ms[0].id {
        var j :| 0 <= j < |ms[1..]| && ms[1..][j] == m;
        assert ms[j + 1] == m;
      }
    }
  }

  /** An empty update leaves the state as it was. */
  lemma ApplyNoUpdate(s: State, freshId: string)
    ensures Apply(NoUpdate, s, freshId) == s
  {
    RemoveUnlisted(s.messages, []);
  }

  /** A reply appends exactly one AIMessage and changes nothing else. */
  lemma ApplyReply(s: State, text: string, freshId: string)
    ensures Apply(Reply(text), s, freshId)
            == s.(messages := s.messages + [Message(freshId, AI, text)])
  {
    RemoveUnlisted(s.messages, []);
  }

  /** A summary with removals and no reply deletes those ids and replaces
      the summary. */
  lemma ApplyPrune(s: State, ids: seq<string>, summary: string, freshId: string)
    ensures Apply(Update(None, ids, Some(summary), None), s, freshId)
            == s.(messages := RemoveIds(s.messages, ids), summary := Some(summary))
  {
    assert RemoveIds(s.messages, ids) + [] == RemoveIds(s.messages, ids);
  }

  /** With a fresh id for the appended message, the reducer keeps message
      ids unique. */
  lemma ApplyKeepsUnique(u: Update, s: State, freshId: string)
    requires UniqueIds(s.messages)
    requires freshId !in Ids(s.messages)
    ensures UniqueIds(Apply(u, s, freshId).messages)
  {
    var kept := RemoveIds(s.messages, u.remove);
    RemoveKeepsUnique(s.messages, u.remove);
    RemoveIdsMembers(s.messages, u.remove);
    forall m | m in kept ensures m.id != freshId {
      var i :| 0 <= i < |s.messages| && s.messages[i] == m;
      assert Ids(s.messages)[i] == m.id;
    }
  }
}
