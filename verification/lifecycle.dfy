/** The status change of a conversation by an agent: the target status is
    resolved by id or by name, the Snoozed and Resolved guards run in a fixed
    order, the status is written, and a resolved conversation may then get a
    CSAT survey. */
module Lifecycle {
  import opened Envelope
  import opened Statuses
  import opened Conversations

  // ---------------------------------------------------------------------------
  // Resolving the target status

  /** Target resolution as written (cmd/conversation.go:527-550). A positive
      id must name a catalogue status; otherwise the name is looked up and
      the first exact match wins. Whether the name matched is judged by the
      id still being 0, so a negative id with an unknown name passes through
      with the negative id. A failure to read the catalogue is an InputError
      on the id path and keeps its kind on the name path. */
  function ResolveTargetAsWritten(statusID: int, name: string, catalogue: Result<seq<Status>>): (r: Result<int>)
    ensures statusID > 0 ==>
      (r.Ok? <==> catalogue.Ok? && FirstWithID(catalogue.value, statusID) >= 0)
    ensures statusID > 0 && r.Ok? ==> r.value == statusID
    ensures statusID <= 0 && name == "" ==> r == Err(InputError)
    ensures statusID < 0 && name != "" && catalogue.Ok? && FirstNamed(catalogue.value, name) < 0
      ==> r == Ok(statusID)
  {
    if statusID > 0 then
      if catalogue.Err? || FirstWithID(catalogue.value, statusID) < 0 then Err(InputError)
      else Ok(statusID)
    else if name != "" then
      var all :- catalogue;
      var k := FirstNamed(all, name);
      var id := if k >= 0 then all[k].id else statusID;
      if id == 0 then Err(InputError) else Ok(id)
    else Err(InputError)
  }

  /** A request with status_id -1 and a status name nobody has passes the
      as-written resolution and goes on with status -1. */
  lemma NegativeIDSlipsThrough()
    ensures ResolveTargetAsWritten(-1, "Nope", Ok([Status(1, "Open")])) == Ok(-1)
  {
    assert FirstNamed([Status(1, "Open")], "Nope") < 0 by {
      assert [Status(1, "Open")][0].name != "Nope";
    }
  }

  /** Target resolution as evidently intended: a positive id must name a
      catalogue status; otherwise a non-empty name must match a catalogue
      status exactly, and the first match gives the id. Both fields empty, an
      unknown id and an unknown name are InputErrors. */
  function ResolveTarget(statusID: int, name: string, catalogue: Result<seq<Status>>): (r: Result<int>)
    ensures statusID > 0 ==>
      (r.Ok? <==> catalogue.Ok? && FirstWithID(catalogue.value, statusID) >= 0)
    ensures statusID > 0 && r.Ok? ==> r.value == statusID
    ensures statusID > 0 && r.Err? ==> r.kind == InputError
    ensures statusID <= 0 && name == "" ==> r == Err(InputError)
    ensures statusID <= 0 && name != "" && catalogue.Err? ==> r == Err(catalogue.kind)
    ensures statusID <= 0 && name != "" && catalogue.Ok? ==>
      (r.Ok? <==> FirstNamed(catalogue.value, name) >= 0)
    ensures statusID <= 0 && name != "" && r.Ok? ==>
      r.value == catalogue.value[FirstNamed(catalogue.value, name)].id
    ensures r.Ok? ==> catalogue.Ok? && exists i :: 0 <= i < |catalogue.value| && catalogue.value[i].id == r.value
    ensures r.Err? && statusID <= 0 && name != "" && catalogue.Ok? ==> r.kind == InputError
  {
    if statusID > 0 then
      if catalogue.Err? || FirstWithID(catalogue.value, statusID) < 0 then Err(InputError)
      else Ok(statusID)
    else if name != "" then
      var all :- catalogue;
      var k := FirstNamed(all, name);
      if k < 0 then Err(InputError) else Ok(all[k].id)
    else Err(InputError)
  }

  /** The two resolutions agree on every request except a negative id with an
      unknown name, the one the as-written code lets through. */
  lemma ResolutionsAgreeOutsideTheGap(statusID: int, name: string, catalogue: Result<seq<Status>>)
    requires statusID >= 0 || name == "" || catalogue.Err?
      || FirstNamed(catalogue.value, name) >= 0
    requires catalogue.Ok? && statusID <= 0 && name != "" && FirstNamed(catalogue.value, name) >= 0
      ==> catalogue.value[FirstNamed(catalogue.value, name)].id != 0
    ensures ResolveTargetAsWritten(statusID, name, catalogue) == ResolveTarget(statusID, name, catalogue)
  {
  }

  // ---------------------------------------------------------------------------
  // The status change handler

  datatype StatusRequest = StatusRequest(uuid: string, status: string, statusID: int, snoozedUntil: string)

  /** What the handler's collaborators answer for this request.
      `durationParses` is `time.ParseDuration`'s verdict on the request's
      snoozed_until, which the model does not compute. */
  datatype StatusEnv = StatusEnv(
    catalogue: Result<seq<Status>>,
    durationParses: bool,
    agent: Result<Agent>,
    conversation: Result<Conversation>,
    authz: ConversationAuthz,
    statusWrite: Outcome,
    inbox: Result<Inbox>,
    csatSend: Outcome)

  /** The Snoozed guard: a non-empty snoozed_until that parses as a duration. */
  predicate SnoozeGuardFails(req: StatusRequest, env: StatusEnv) {
    req.snoozedUntil == "" || !env.durationParses
  }

  /** The guards that stand between a resolved target and the write: the
      Snoozed duration, the agent lookup, the conversation access check, and
      the refusal to resolve an unassigned conversation. */
  predicate Admitted(target: Result<int>, req: StatusRequest, env: StatusEnv) {
    && target.Ok?
    && !(target.value == Snoozed && SnoozeGuardFails(req, env))
    && env.agent.Ok?
    && EnforceConversationAccess(env.agent.value, env.conversation, env.authz).Ok?
    && !(target.value == Resolved && IntOrZero(env.conversation.value.assignedUserID) == 0)
  }

  /** The status handler from the resolved target on
      (cmd/conversation.go:552-595): the guards in order, the status write,
      then for Resolved the inbox lookup and, when the inbox has CSAT on, the
      survey. The write is committed before the CSAT step, so a failure there
      is reported with the write already made. */
  function ChangeStatus(target: Result<int>, req: StatusRequest, env: StatusEnv): (r: Reply<bool>)
    // Resolution failures and the Snoozed guard come before any access check.
    ensures target.Err? ==> r == Reply(Err(target.kind), [])
    ensures target == Ok(Snoozed) && SnoozeGuardFails(req, env) ==> r == Reply(Err(InputError), [])
    ensures target.Ok? && !(target.value == Snoozed && SnoozeGuardFails(req, env)) && env.agent.Err? ==>
      r == Reply(Err(env.agent.kind), [])
    ensures target.Ok? && !(target.value == Snoozed && SnoozeGuardFails(req, env)) && env.agent.Ok?
      && EnforceConversationAccess(env.agent.value, env.conversation, env.authz).Err?
      ==> r == Reply(Err(EnforceConversationAccess(env.agent.value, env.conversation, env.authz).kind), [])
    // Resolving an unassigned conversation is refused without a write.
    ensures target == Ok(Resolved) && env.agent.Ok?
      && EnforceConversationAccess(env.agent.value, env.conversation, env.authz).Ok?
      && IntOrZero(env.conversation.value.assignedUserID) == 0
      ==> r == Reply(Err(InputError), [])
    // The status is written exactly when every guard passed, and it is the first call made.
    ensures r.effects != [] <==> Admitted(target, req, env)
    ensures Admitted(target, req, env) ==>
      r.effects[0] == WriteStatus(req.uuid, target.value, req.snoozedUntil, AgentActor(env.agent.value.id))
    ensures Admitted(target, req, env) && env.statusWrite.Fail? ==> r.result == Err(env.statusWrite.kind)
    // A CSAT survey is attempted only after a successful write to Resolved.
    ensures SendCSAT(req.uuid, if env.agent.Ok? then env.agent.value.id else 0) in r.effects <==>
      && Admitted(target, req, env) && target.value == Resolved
      && env.statusWrite == Pass
      && env.inbox.Ok? && env.inbox.value.csatEnabled
    ensures forall i :: 1 <= i < |r.effects| ==> r.effects[i].SendCSAT?
    // The handler answers true exactly when the write and, for Resolved, the CSAT step went through.
    ensures r.result.Ok? <==>
      && Admitted(target, req, env)
      && env.statusWrite == Pass
      && (target.value == Resolved ==>
            env.inbox.Ok? && (env.inbox.value.csatEnabled ==> env.csatSend == Pass))
    ensures r.result.Ok? ==> r.result.value
    ensures |r.effects| <= 2
  {
    match target
    case Err(k) => Reply(Err(k), [])
    case Ok(statusID) =>
      if statusID == Snoozed && SnoozeGuardFails(req, env) then Reply(Err(InputError), [])
      else match env.agent
      case Err(k) => Reply(Err(k), [])
      case Ok(agent) =>
        match EnforceConversationAccess(agent, env.conversation, env.authz)
        case Err(k) => Reply(Err(k), [])
        case Ok(conv) =>
          if statusID == Resolved && IntOrZero(conv.assignedUserID) == 0 then Reply(Err(InputError), [])
          else
            var write := WriteStatus(req.uuid, statusID, req.snoozedUntil, AgentActor(agent.id));
            if env.statusWrite.Fail? then Reply(Err(env.statusWrite.kind), [write])
            else if statusID != Resolved then Reply(Ok(true), [write])
            else match env.inbox
            case Err(k) => Reply(Err(k), [write])
            case Ok(inbox) =>
              if !inbox.csatEnabled then Reply(Ok(true), [write])
              else
                var survey := SendCSAT(req.uuid, agent.id);
                if env.csatSend.Fail? then Reply(Err(env.csatSend.kind), [write, survey])
                else Reply(Ok(true), [write, survey])
  }

  /** handleUpdateConversationStatus (cmd/conversation.go:527-595) as
      written: a negative status id with an unknown name reaches the write
      with that id. */
  function UpdateStatusAsWritten(req: StatusRequest, env: StatusEnv): (r: Reply<bool>)
    ensures req.statusID < 0 && req.status != "" && env.catalogue.Ok?
      && FirstNamed(env.catalogue.value, req.status) < 0
      && env.agent.Ok? && EnforceConversationAccess(env.agent.value, env.conversation, env.authz).Ok?
      ==> && r.effects != []
          && r.effects[0] == WriteStatus(req.uuid, req.statusID, req.snoozedUntil, AgentActor(env.agent.value.id))
          && (env.statusWrite == Pass ==> r.result == Ok(true))
  {
    ChangeStatus(ResolveTargetAsWritten(req.statusID, req.status, env.catalogue), req, env)
  }

  /** handleUpdateConversationStatus with the corrected target resolution:
      only a status of the catalogue is ever written. */
  function UpdateStatus(req: StatusRequest, env: StatusEnv): (r: Reply<bool>)
    ensures r.effects != [] ==>
      && env.catalogue.Ok? && r.effects[0].WriteStatus?
      && exists i :: 0 <= i < |env.catalogue.value| && env.catalogue.value[i].id == r.effects[0].statusID
    ensures req.status == "" && req.statusID <= 0 ==> r == Reply(Err(InputError), [])
  {
    ChangeStatus(ResolveTarget(req.statusID, req.status, env.catalogue), req, env)
  }

  /** The two handlers differ only on the requests the two resolutions
      disagree on. */
  lemma HandlersAgreeOutsideTheGap(req: StatusRequest, env: StatusEnv)
    requires req.statusID >= 0 || req.status == "" || env.catalogue.Err?
      || FirstNamed(env.catalogue.value, req.status) >= 0
    requires env.catalogue.Ok? && req.statusID <= 0 && req.status != "" && FirstNamed(env.catalogue.value, req.status) >= 0
      ==> env.catalogue.value[FirstNamed(env.catalogue.value, req.status)].id != 0
    ensures UpdateStatusAsWritten(req, env) == UpdateStatus(req, env)
  {
    ResolutionsAgreeOutsideTheGap(req.statusID, req.status, env.catalogue);
  }

  /** The conversation as the status writes among `effects` leave it: the
      last write decides the status, and nothing else changes. */
  function ApplyStatus(conv: Conversation, effects: seq<Effect>): (c: Conversation)
    ensures c == conv.(statusID := c.statusID)
    ensures (forall e :: e in effects ==> !e.WriteStatus?) ==> c == conv
    ensures forall i | 0 <= i < |effects| && effects[i].WriteStatus? ::
              (forall j :: i < j < |effects| ==> !effects[j].WriteStatus?) ==> c.statusID == effects[i].statusID
    decreases |effects|
  {
    if effects == [] then conv
    else
      var c := if effects[0].WriteStatus? then conv.(statusID := effects[0].statusID) else conv;
      assert forall i :: 1 <= i < |effects| ==> effects[1..][i - 1] == effects[i];
      ApplyStatus(c, effects[1..])
  }

  /** A status change the handler answers with true leaves the conversation
      in the target status, whatever the target is. */
  lemma SuccessfulChangeSetsStatus(target: Result<int>, req: StatusRequest, env: StatusEnv, conv: Conversation)
    requires ChangeStatus(target, req, env).result.Ok?
    ensures ApplyStatus(conv, ChangeStatus(target, req, env).effects) == conv.(statusID := target.value)
  {
  }

  /** A permitted change to Open, Closed or a custom status is written and
      answered true once the write goes through; no survey follows. */
  lemma PermittedChangeCommits(target: Result<int>, req: StatusRequest, env: StatusEnv)
    requires target.Ok? && target.value != Snoozed && target.value != Resolved
    requires env.agent.Ok? && env.conversation.Ok?
    requires env.authz(env.agent.value, env.conversation.value) == Ok(true)
    requires env.statusWrite == Pass
    ensures ChangeStatus(target, req, env)
         == Reply(Ok(true), [WriteStatus(req.uuid, target.value, req.snoozedUntil, AgentActor(env.agent.value.id))])
  {
  }

  /** Resolving an unassigned conversation leaves its status as it was. */
  lemma UnassignedStaysUnresolved(req: StatusRequest, env: StatusEnv)
    requires ResolveTarget(req.statusID, req.status, env.catalogue) == Ok(Resolved)
    requires env.agent.Ok? && env.conversation.Ok?
    requires env.authz(env.agent.value, env.conversation.value) == Ok(true)
    requires env.conversation.value.assignedUserID.None?
    ensures UpdateStatus(req, env).result == Err(InputError)
    ensures ApplyStatus(env.conversation.value, UpdateStatus(req, env).effects) == env.conversation.value
  {
  }

  /** The status write commits before the CSAT step: a failing inbox lookup or
      survey is reported as the handler's error while the write stays made. */
  lemma CSATFailureAfterCommit(req: StatusRequest, env: StatusEnv)
    requires ResolveTarget(req.statusID, req.status, env.catalogue) == Ok(Resolved)
    requires env.agent.Ok? && env.conversation.Ok?
    requires env.authz(env.agent.value, env.conversation.value) == Ok(true)
    requires IntOrZero(env.conversation.value.assignedUserID) != 0
    requires env.statusWrite == Pass
    requires env.inbox.Err? || (env.inbox.value.csatEnabled && env.csatSend.Fail?)
    ensures UpdateStatus(req, env).result.Err?
    ensures ApplyStatus(env.conversation.value, UpdateStatus(req, env).effects).statusID == Resolved
  {
  }

  /** Snoozing with a snoozed_until that parses succeeds once the
      conversation is accessible and the write goes through; one that does
      not parse is refused before the conversation is even fetched. */
  lemma SnoozeNeedsDuration(req: StatusRequest, env: StatusEnv)
    requires ResolveTarget(req.statusID, req.status, env.catalogue) == Ok(Snoozed)
    requires req.snoozedUntil != ""
    requires env.agent.Ok? && env.conversation.Ok?
    requires env.authz(env.agent.value, env.conversation.value) == Ok(true)
    requires env.statusWrite == Pass
    ensures env.durationParses ==> UpdateStatus(req, env).result == Ok(true)
    ensures !env.durationParses ==>
      UpdateStatus(req, env) == UpdateStatus(req, env.(agent := Err(GeneralError), conversation := Err(NotFoundError)))
  {
  }
}
