/** Assigning a conversation to an agent or a team. Assigning the id already
    held is a no-op, a team must exist before access is even checked, and
    because assigning a team clears the assigned agent, a new conversation is
    given its team before its agent. */
module Assignment {
  import opened Envelope
  import opened Conversations

  // ---------------------------------------------------------------------------
  // The assignee state the writes leave behind

  /** A team assignment: the team is set and the assigned agent cleared. */
  function AssignTeam(c: Conversation, teamID: int): (d: Conversation)
    ensures d.assignedTeamID == Some(teamID) && d.assignedUserID == None
    ensures d == c.(assignedTeamID := d.assignedTeamID, assignedUserID := d.assignedUserID)
  {
    c.(assignedTeamID := Some(teamID), assignedUserID := None)
  }

  /** An agent assignment: only the assigned agent changes. */
  function AssignUser(c: Conversation, userID: int): (d: Conversation)
    ensures d.assignedUserID == Some(userID)
    ensures d == c.(assignedUserID := d.assignedUserID)
  {
    c.(assignedUserID := Some(userID))
  }

  /** The conversation after the assignee writes among `effects`, in order:
      only the two assignee fields change, and without a team write the team
      stays as it was. Which write decides each field is
      `LastAssigneeWritesDecide`. */
  function ApplyAssignments(c: Conversation, effects: seq<Effect>): (d: Conversation)
    ensures d == c.(assignedTeamID := d.assignedTeamID, assignedUserID := d.assignedUserID)
    ensures (forall e :: e in effects ==> !e.WriteTeamAssignee? && !e.WriteUserAssignee?) ==> d == c
    ensures (forall e :: e in effects ==> !e.WriteTeamAssignee?) ==> d.assignedTeamID == c.assignedTeamID
    decreases |effects|
  {
    if effects == [] then c
    else
      var e := effects[0];
      var next :=
        if e.WriteTeamAssignee? then AssignTeam(c, e.teamID)
        else if e.WriteUserAssignee? then AssignUser(c, e.userID)
        else c;
      ApplyAssignments(next, effects[1..])
  }

  /** The last team write decides the team; the agent is decided by the last
      assignee write of either kind, a team write clearing it. */
  lemma {:induction false} LastAssigneeWritesDecide(c: Conversation, effects: seq<Effect>, i: int)
    requires 0 <= i < |effects|
    ensures effects[i].WriteTeamAssignee? && (forall j :: i < j < |effects| ==> !effects[j].WriteTeamAssignee?)
      ==> ApplyAssignments(c, effects).assignedTeamID == Some(effects[i].teamID)
    ensures effects[i].WriteTeamAssignee? && (forall j :: i < j < |effects| ==> !effects[j].WriteUserAssignee?)
      ==> ApplyAssignments(c, effects).assignedUserID == None
    ensures effects[i].WriteUserAssignee?
      && (forall j :: i < j < |effects| ==> !effects[j].WriteTeamAssignee? && !effects[j].WriteUserAssignee?)
      ==> ApplyAssignments(c, effects).assignedUserID == Some(effects[i].userID)
    decreases |effects|
  {
    var e := effects[0];
    var next :=
      if e.WriteTeamAssignee? then AssignTeam(c, e.teamID)
      else if e.WriteUserAssignee? then AssignUser(c, e.userID)
      else c;
    assert ApplyAssignments(c, effects) == ApplyAssignments(next, effects[1..]);
    if i == 0 {
      var rest := effects[1..];
      if forall j :: 0 < j < |effects| ==> !effects[j].WriteTeamAssignee? {
        assert forall f :: f in rest ==> !f.WriteTeamAssignee?;
      }
      if forall j :: 0 < j < |effects| ==> !effects[j].WriteTeamAssignee? && !effects[j].WriteUserAssignee? {
        assert forall f :: f in rest ==> !f.WriteTeamAssignee? && !f.WriteUserAssignee?;
      }
      if e.WriteTeamAssignee? && forall j :: 0 < j < |effects| ==> !effects[j].WriteUserAssignee? {
        if k :| 0 <= k < |rest| && rest[k].WriteTeamAssignee? {
          var last := LastTeamWrite(rest, k);
          LastAssigneeWritesDecide(next, rest, last);
        } else {
          assert forall f :: f in rest ==> !f.WriteTeamAssignee? && !f.WriteUserAssignee?;
        }
      }
    } else {
      assert forall j :: i - 1 < j < |effects| - 1 ==> effects[1..][j] == effects[j + 1];
      LastAssigneeWritesDecide(next, effects[1..], i - 1);
    }
  }

  /** The position of the last team write at or after `k`. */
  lemma LastTeamWrite(effects: seq<Effect>, k: int) returns (last: int)
    requires 0 <= k < |effects| && effects[k].WriteTeamAssignee?
    ensures k <= last < |effects| && effects[last].WriteTeamAssignee?
    ensures forall j :: last < j < |effects| ==> !effects[j].WriteTeamAssignee?
    decreases |effects| - k
  {
    if j :| k < j < |effects| && effects[j].WriteTeamAssignee? {
      last := LastTeamWrite(effects, j);
    } else {
      last := k;
    }
  }

  // ---------------------------------------------------------------------------
  // The assignee handlers

  /** handleUpdateUserAssignee (cmd/conversation.go:411-431): the agent is
      loaded, the conversation is fetched and authorised, and the write is
      made only if the conversation is not already assigned to that id. */
  function UpdateUserAssignee(
    uuid: string, assigneeID: int, agent: Result<Agent>,
    conversation: Result<Conversation>, authz: ConversationAuthz, write: Outcome): (r: Reply<bool>)
    ensures agent.Err? ==> r == Reply(Err(agent.kind), [])
    ensures agent.Ok? && EnforceConversationAccess(agent.value, conversation, authz).Err? ==>
      r == Reply(Err(EnforceConversationAccess(agent.value, conversation, authz).kind), [])
    ensures agent.Ok? && EnforceConversationAccess(agent.value, conversation, authz).Ok? ==>
      && (r.effects == [] <==> IntOrZero(conversation.value.assignedUserID) == assigneeID)
      && (r.effects != [] ==> r.effects == [WriteUserAssignee(uuid, assigneeID, AgentActor(agent.value.id))])
      && (r.result.Ok? <==> r.effects == [] || write == Pass)
    ensures r.result.Ok? ==> r.result.value
    ensures r.result.Err? && r.effects != [] ==> r.result.kind == write.kind
  {
    match agent
    case Err(k) => Reply(Err(k), [])
    case Ok(a) =>
      match EnforceConversationAccess(a, conversation, authz)
      case Err(k) => Reply(Err(k), [])
      case Ok(conv) =>
        if IntOrZero(conv.assignedUserID) == assigneeID then Reply(Ok(true), [])
        else
          var effects := [WriteUserAssignee(uuid, assigneeID, AgentActor(a.id))];
          if write.Fail? then Reply(Err(write.kind), effects) else Reply(Ok(true), effects)
  }

  /** handleUpdateTeamAssignee (cmd/conversation.go:447-473): as for agents,
      except that the team is looked up after the agent and before the
      conversation, so an unknown team is reported even for a conversation
      the agent may not see. */
  function UpdateTeamAssignee(
    uuid: string, assigneeID: int, agent: Result<Agent>, team: Outcome,
    conversation: Result<Conversation>, authz: ConversationAuthz, write: Outcome): (r: Reply<bool>)
    ensures agent.Err? ==> r == Reply(Err(agent.kind), [])
    ensures agent.Ok? && team.Fail? ==> r == Reply(Err(team.kind), [])
    ensures agent.Ok? && team.Pass? && EnforceConversationAccess(agent.value, conversation, authz).Err? ==>
      r == Reply(Err(EnforceConversationAccess(agent.value, conversation, authz).kind), [])
    ensures agent.Ok? && team.Pass? && EnforceConversationAccess(agent.value, conversation, authz).Ok? ==>
      && (r.effects == [] <==> IntOrZero(conversation.value.assignedTeamID) == assigneeID)
      && (r.effects != [] ==> r.effects == [WriteTeamAssignee(uuid, assigneeID, AgentActor(agent.value.id))])
      && (r.result.Ok? <==> r.effects == [] || write == Pass)
    ensures r.result.Ok? ==> r.result.value
    ensures r.result.Err? && r.effects != [] ==> r.result.kind == write.kind
  {
    match agent
    case Err(k) => Reply(Err(k), [])
    case Ok(a) =>
      if team.Fail? then Reply(Err(team.kind), [])
      else match EnforceConversationAccess(a, conversation, authz)
      case Err(k) => Reply(Err(k), [])
      case Ok(conv) =>
        if IntOrZero(conv.assignedTeamID) == assigneeID then Reply(Ok(true), [])
        else
          var effects := [WriteTeamAssignee(uuid, assigneeID, AgentActor(a.id))];
          if write.Fail? then Reply(Err(write.kind), effects) else Reply(Ok(true), effects)
  }

  /** The team check precedes the access check: an unknown team is reported
      whatever the conversation lookup or the access decision would say. */
  lemma TeamExistenceBeforeAccess(
    uuid: string, assigneeID: int, a: Agent, k: ErrorKind,
    conversation: Result<Conversation>, authz: ConversationAuthz, write: Outcome)
    ensures UpdateTeamAssignee(uuid, assigneeID, Ok(a), Fail(k), conversation, authz, write)
         == UpdateTeamAssignee(uuid, assigneeID, Ok(a), Fail(k), Err(NotFoundError), authz, write)
    ensures UpdateTeamAssignee(uuid, assigneeID, Ok(a), Fail(k), conversation, authz, write).result == Err(k)
  {
  }

  /** A successful agent assignment leaves the conversation assigned to the
      requested id, and asking for the same assignment again is a no-op. */
  lemma UserAssignmentIdempotent(
    uuid: string, assigneeID: int, a: Agent, conv: Conversation,
    authz: ConversationAuthz, write: Outcome, authz2: ConversationAuthz, write2: Outcome)
    requires authz(a, conv) == Ok(true)
    requires UpdateUserAssignee(uuid, assigneeID, Ok(a), Ok(conv), authz, write).result.Ok?
    ensures
      var after := ApplyAssignments(conv, UpdateUserAssignee(uuid, assigneeID, Ok(a), Ok(conv), authz, write).effects);
      && IntOrZero(after.assignedUserID) == assigneeID
      && (authz2(a, after) == Ok(true) ==>
            UpdateUserAssignee(uuid, assigneeID, Ok(a), Ok(after), authz2, write2) == Reply(Ok(true), []))
  {
    var r := UpdateUserAssignee(uuid, assigneeID, Ok(a), Ok(conv), authz, write);
    if r.effects != [] {
      assert ApplyAssignments(conv, r.effects) == ApplyAssignments(AssignUser(conv, assigneeID), []);
    }
  }

  /** A successful team assignment leaves the conversation assigned to the
      requested team, and asking for the same team again is a no-op. */
  lemma TeamAssignmentIdempotent(
    uuid: string, assigneeID: int, a: Agent, conv: Conversation,
    authz: ConversationAuthz, write: Outcome, authz2: ConversationAuthz, write2: Outcome)
    requires authz(a, conv) == Ok(true)
    requires UpdateTeamAssignee(uuid, assigneeID, Ok(a), Pass, Ok(conv), authz, write).result.Ok?
    ensures
      var after := ApplyAssignments(conv, UpdateTeamAssignee(uuid, assigneeID, Ok(a), Pass, Ok(conv), authz, write).effects);
      && IntOrZero(after.assignedTeamID) == assigneeID
      && (authz2(a, after) == Ok(true) ==>
            UpdateTeamAssignee(uuid, assigneeID, Ok(a), Pass, Ok(after), authz2, write2) == Reply(Ok(true), []))
  {
    var r := UpdateTeamAssignee(uuid, assigneeID, Ok(a), Pass, Ok(conv), authz, write);
    if r.effects != [] {
      assert ApplyAssignments(conv, r.effects) == ApplyAssignments(AssignTeam(conv, assigneeID), []);
    }
  }

  // ---------------------------------------------------------------------------
  // Assignment of a newly created conversation

  /** The assignee writes made after a conversation is created
      (cmd/conversation.go:900-907): the team first, then the agent, each only
      when its id is positive. Their errors are ignored. */
  function AssignAtCreation(uuid: string, teamID: int, agentID: int, actor: Actor): (effects: seq<Effect>)
    ensures |effects| <= 2
    ensures forall e :: e in effects ==> e.WriteTeamAssignee? || e.WriteUserAssignee?
    ensures (WriteTeamAssignee(uuid, teamID, actor) in effects) <==> teamID > 0
    ensures (WriteUserAssignee(uuid, agentID, actor) in effects) <==> agentID > 0
    ensures teamID > 0 && agentID > 0 ==>
      effects == [WriteTeamAssignee(uuid, teamID, actor), WriteUserAssignee(uuid, agentID, actor)]
  {
    (if teamID > 0 then [WriteTeamAssignee(uuid, teamID, actor)] else [])
    + (if agentID > 0 then [WriteUserAssignee(uuid, agentID, actor)] else [])
  }

  /** Team first means both requested assignees survive: the new conversation
      ends up with the requested team and the requested agent. */
  lemma CreationKeepsBothAssignees(c: Conversation, uuid: string, teamID: int, agentID: int, actor: Actor)
    ensures
      var d := ApplyAssignments(c, AssignAtCreation(uuid, teamID, agentID, actor));
      && (teamID > 0 ==> d.assignedTeamID == Some(teamID))
      && (agentID > 0 ==> d.assignedUserID == Some(agentID))
      && (teamID <= 0 ==> d.assignedTeamID == c.assignedTeamID)
      && (teamID <= 0 && agentID <= 0 ==> d == c)
  {
    var t := if teamID > 0 then [WriteTeamAssignee(uuid, teamID, actor)] else [];
    var u := if agentID > 0 then [WriteUserAssignee(uuid, agentID, actor)] else [];
    ApplyAssignmentsAppend(c, t, u);
  }

  /** The opposite order would lose the agent: the later team write clears it. */
  lemma AgentFirstLosesAgent(c: Conversation, uuid: string, teamID: int, agentID: int, actor: Actor)
    ensures ApplyAssignments(c, [WriteUserAssignee(uuid, agentID, actor), WriteTeamAssignee(uuid, teamID, actor)])
      .assignedUserID == None
  {
    var d := AssignUser(c, agentID);
    assert ApplyAssignments(c, [WriteUserAssignee(uuid, agentID, actor), WriteTeamAssignee(uuid, teamID, actor)])
      == ApplyAssignments(d, [WriteTeamAssignee(uuid, teamID, actor)]);
  }

  /** Applying two runs of effects is applying the first, then the second. */
  lemma {:induction false} ApplyAssignmentsAppend(c: Conversation, a: seq<Effect>, b: seq<Effect>)
    ensures ApplyAssignments(c, a + b) == ApplyAssignments(ApplyAssignments(c, a), b)
    decreases |a|
  {
    if a == [] {
      assert a + b == b;
    } else {
      var e := a[0];
      var next :=
        if e.WriteTeamAssignee? then AssignTeam(c, e.teamID)
        else if e.WriteUserAssignee? then AssignUser(c, e.userID)
        else c;
      assert (a + b)[0] == e;
      assert (a + b)[1..] == a[1..] + b;
      ApplyAssignmentsAppend(next, a[1..], b);
    }
  }
}
