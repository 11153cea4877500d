/** `escalate`: files a support ticket for the last message and tells the
    user a human will follow up. Always the last node of a turn. */
module Escalator {
  import opened Wrappers
  import opened Text
  import opened AgentState
  import opened Tools

  /** `state.get("user_info", {}).get("user_id", "guest")`. */
  function UserIdOf(s: State): string
  {
    s.userId.GetOr("guest")
  }

  const ApologyText := "I'm sorry I couldn't help with that. "
  const FollowUpText := "\nA human agent will contact you shortly."

  /** The reply around the tool's confirmation text. */
  function EscalationReply(ticket: string): (r: string)
    ensures Contains(r, ticket)
  {
    ContainsSelf(ticket);
    ContainsWithin(ApologyText, ticket, FollowUpText, ticket);
    ApologyText + ticket + FollowUpText
  }

  /** The arguments the ticket tool is invoked with: the last message's
      content as the issue, and the user id. */
  function TicketRequest(s: State): (string, string)
    requires s.messages != []
  {
    (Last(s.messages).content, UserIdOf(s))
  }

  /** `escalate(state)`. The source indexes `messages[-1]` unguarded, so an
      empty conversation is excluded here; the graph never routes one to
      this node. */
  function Escalate(s: State, hash: string -> int): (r: Command)
    requires s.messages != []
    ensures r.goto == End
    ensures r.update.reply.Some? && r.update.remove == []
    ensures r.update.summary.None? && r.update.docs.None?
  {
    var (issue, userId) := TicketRequest(s);
    Command(Reply(EscalationReply(CreateSupportTicket(issue, userId, hash))), End)
  }

  // ---------------------------------------------------------------------------
  // Properties

  /** The reply quotes the ticket confirmation, which carries the number
      derived from the last message. */
  lemma ReplyCarriesTicket(s: State, hash: string -> int)
    requires s.messages != []
    ensures var ticket := CreateSupportTicket(Last(s.messages).content, UserIdOf(s), hash);
            Contains(Escalate(s, hash).update.reply.value, ticket)
            && ReadTicketNumber(ticket) == Some(TicketNumber(Last(s.messages).content, hash))
  {
    TicketRoundTrip(Last(s.messages).content, UserIdOf(s), hash);
  }

  /** Exactly one AI message, the reply, is appended; the summary and the
      documents are untouched. */
  lemma EscalationAppendsOneReply(s: State, hash: string -> int, freshId: string)
    requires s.messages != []
    ensures var t := Apply(Escalate(s, hash).update, s, freshId);
            t == s.(messages := s.messages + [Message(freshId, AI, Escalate(s, hash).update.reply.value)])
  {
    ApplyReply(s, Escalate(s, hash).update.reply.value, freshId);
  }

  /** Who asks does not change the reply: the user id only reaches the
      tool's log line, and a missing one reads as "guest". */
  lemma ReplyIgnoresUser(s: State, t: State, hash: string -> int)
    requires s.messages != [] && t.messages != []
    requires Last(s.messages).content == Last(t.messages).content
    ensures Escalate(s, hash) == Escalate(t, hash)
  {
    TicketDependsOnNumberOnly(Last(s.messages).content, UserIdOf(s), Last(t.messages).content, UserIdOf(t), hash);
  }

  /** An anonymous user is reported as "guest". */
  lemma AnonymousIsGuest(s: State)
    requires s.messages != [] && s.userId.None?
    ensures TicketRequest(s) == (Last(s.messages).content, "guest")
  {
  }
}
