/** An agent opening a conversation on a contact's behalf: the request's
    validation, the contact's automatic organisation membership, the
    organisation the conversation is shared with, the first message, the
    roll-back when that message fails, and the team-first assignment. */
module Creation {
  import opened Envelope
  import opened Conversations
  import opened Sharing
  import opened Assignment
  import opened OrgStore

  /** Who the first message is from. The request names it as a string; any
      value other than the two user types is `OtherInitiator`. */
  datatype Initiator = ContactInitiated | AgentInitiated | OtherInitiator

  datatype CreateRequest = CreateRequest(
    inboxID: int,
    content: string,
    email: string,
    firstName: string,
    initiator: Initiator,
    shareOverride: Option<bool>,
    assignedTeamID: int,
    assignedAgentID: int)

  /** validateCreateConversationRequest (cmd/conversation.go:919-949): the
      fields first, in order (inbox id, content, email, first name, e-mail
      syntax, initiator), each an InputError; then the inbox is looked up,
      its error propagated, and a disabled inbox is an InputError.
      `validEmail` is stringutil.ValidEmail. */
  function ValidateCreateRequest(req: CreateRequest, validEmail: string -> bool, inbox: Result<Inbox>)
    : (r: Outcome)
    ensures r == Pass <==>
      && req.inboxID > 0 && req.content != [] && req.email != [] && req.firstName != []
      && validEmail(req.email) && !req.initiator.OtherInitiator?
      && inbox.Ok? && inbox.value.enabled
    ensures r.Fail? && inbox.Ok? ==> r.kind == InputError
    ensures r.Fail? && r.kind != InputError ==> inbox.Err? && r.kind == inbox.kind
    ensures req.inboxID <= 0 ==> r == Fail(InputError)
  {
    if req.inboxID <= 0 then Fail(InputError)
    else if req.content == [] then Fail(InputError)
    else if req.email == [] then Fail(InputError)
    else if req.firstName == [] then Fail(InputError)
    else if !validEmail(req.email) then Fail(InputError)
    else if req.initiator.OtherInitiator? then Fail(InputError)
    else
      match inbox
      case Err(k) => Fail(k)
      case Ok(i) => if !i.enabled then Fail(InputError) else Pass
  }

  /** The request's own fields are checked before the inbox is looked up, so
      a malformed request is an InputError whatever the inbox lookup says. */
  lemma FieldsCheckedBeforeInbox(req: CreateRequest, validEmail: string -> bool, inbox: Result<Inbox>, other: Result<Inbox>)
    requires req.inboxID <= 0 || req.content == [] || req.email == [] || req.firstName == []
          || !validEmail(req.email) || req.initiator.OtherInitiator?
    ensures ValidateCreateRequest(req, validEmail, inbox) == ValidateCreateRequest(req, validEmail, other) == Fail(InputError)
  {
  }

  /** What the handler consults besides the request and the organisation store. */
  datatype CreateEnv = CreateEnv(
    validEmail: string -> bool,
    inbox: Result<Inbox>,
    agent: Result<Agent>,
    contact: Result<int>,                     // find-or-create: the contact's id
    membership: Result<Option<Membership>>,   // the lookup after auto-membership
    created: Result<string>,                  // the new conversation's uuid
    media: Outcome,                           // fetching the attachments
    send: Outcome)                            // queueing the reply or posting the contact's message

  /** The handler's answer and the organisation store it leaves behind. */
  datatype Created = Created(store: Store, reply: Reply<string>)

  /** The first message, by initiator: an agent's is queued for delivery, a
      contact's is stored as HTML. */
  function FirstMessage(uuid: string, req: CreateRequest): (e: Effect)
    requires !req.initiator.OtherInitiator?
    ensures req.initiator.AgentInitiated? ==> e == QueueAgentReply(uuid, req.content)
    ensures req.initiator.ContactInitiated? ==> e == PostContactMessage(uuid, req.content, Html)
  {
    if req.initiator.AgentInitiated? then QueueAgentReply(uuid, req.content)
    else PostContactMessage(uuid, req.content, Html)
  }

  /** The part of handleCreateConversation after the contact exists
      (cmd/conversation.go:836-916): the conversation is created with the
      organisation the sharing rule picks; attachments are fetched (a failure
      is a GeneralError that leaves the conversation in place); the first
      message is sent, and if that fails the conversation is deleted again;
      last, team then agent are assigned, their failures ignored. The
      handler's guard against an unknown initiator answers an InputError. */
  function OpenConversation(contactID: int, agentID: int, req: CreateRequest, env: CreateEnv): (r: Reply<string>)
    ensures r.effects != [] && r.effects[0] ==
      CreateConversation(contactID, req.inboxID, AgentShareOrgID(MembershipOrNone(env.membership), req.shareOverride))
    ensures r.result.Ok? <==> env.created.Ok? && env.media == Pass && !req.initiator.OtherInitiator? && env.send == Pass
    ensures r.result.Ok? ==>
      && r.result.value == env.created.value
      && r.effects == [r.effects[0], FirstMessage(env.created.value, req)]
                      + AssignAtCreation(env.created.value, req.assignedTeamID, req.assignedAgentID, AgentActor(agentID))
    ensures r.result.Err? && !req.initiator.OtherInitiator? ==> r.result.kind == GeneralError
    // Only a failed first message is rolled back.
    ensures (exists e :: e in r.effects && e.DeleteConversation?) <==>
      env.created.Ok? && env.media == Pass && !req.initiator.OtherInitiator? && env.send.Fail?
    ensures r.result.Err? && |r.effects| > 1 ==>
      env.created.Ok? && r.effects[|r.effects| - 1] == DeleteConversation(env.created.value)
  {
    var orgID := AgentShareOrgID(MembershipOrNone(env.membership), req.shareOverride);
    var create := CreateConversation(contactID, req.inboxID, orgID);
    match env.created
    case Err(_) => Reply(Err(GeneralError), [create])
    case Ok(uuid) =>
      if env.media.Fail? then Reply(Err(GeneralError), [create])
      else if req.initiator.OtherInitiator? then Reply(Err(InputError), [create])
      else
        var message := FirstMessage(uuid, req);
        if env.send.Fail? then
          var effects := [create, message, DeleteConversation(uuid)];
          assert effects[2] in effects;
          Reply(Err(GeneralError), effects)
        else
          var assign := AssignAtCreation(uuid, req.assignedTeamID, req.assignedAgentID, AgentActor(agentID));
          Reply(Ok(uuid), [create, message] + assign)
  }

  /** handleCreateConversation (cmd/conversation.go:798-916): validation,
      the agent, then the contact is found or created (any error is a
      GeneralError) and joins the organisations of its e-mail domain before
      the conversation is opened. */
  function CreateConversationAsAgent(s: Store, req: CreateRequest, env: CreateEnv): (r: Created)
    requires Valid(s)
    ensures Valid(r.store)
    ensures ValidateCreateRequest(req, env.validEmail, env.inbox).Fail? ==>
      r == Created(s, Reply(Err(ValidateCreateRequest(req, env.validEmail, env.inbox).kind), []))
    ensures r.reply.effects == [] ==> r.store == s
    ensures r.reply.effects != [] ==>
      && ValidateCreateRequest(req, env.validEmail, env.inbox) == Pass
      && env.agent.Ok? && env.contact.Ok?
      && r.store == AddContactToOrganizationsByEmailDomain(s, env.contact.value, req.email)
      && r.reply == OpenConversation(env.contact.value, env.agent.value.id, req, env)
    ensures r.reply.result.Ok? <==>
      && ValidateCreateRequest(req, env.validEmail, env.inbox) == Pass
      && env.agent.Ok? && env.contact.Ok? && env.created.Ok? && env.media == Pass && env.send == Pass
    // Past validation and the agent lookup, every failure is a GeneralError.
    ensures r.reply.result.Err? && ValidateCreateRequest(req, env.validEmail, env.inbox) == Pass && env.agent.Ok? ==>
      r.reply.result.kind == GeneralError
  {
    match ValidateCreateRequest(req, env.validEmail, env.inbox)
    case Fail(k) => Created(s, Reply(Err(k), []))
    case Pass =>
      match env.agent
      case Err(k) => Created(s, Reply(Err(k), []))
      case Ok(agent) =>
        match env.contact
        case Err(_) => Created(s, Reply(Err(GeneralError), []))
        case Ok(contactID) =>
          Created(AddContactToOrganizationsByEmailDomain(s, contactID, req.email),
                  OpenConversation(contactID, agent.id, req, env))
  }

  /** A failed attachment fetch reports an error yet leaves the new
      conversation in place, unlike a failed first message. */
  lemma MediaFailureKeepsConversation(contactID: int, agentID: int, req: CreateRequest, env: CreateEnv, k: ErrorKind)
    requires env.created.Ok?
    ensures var r := OpenConversation(contactID, agentID, req, env.(media := Fail(k)));
      && r.result == Err(GeneralError)
      && r.effects == [CreateConversation(contactID, req.inboxID,
                                          AgentShareOrgID(MembershipOrNone(env.membership), req.shareOverride))]
      && DeleteConversation(env.created.value) !in r.effects
  {
  }

  /** A contact that belonged to no organisation and was just added by its
      e-mail domain gets memberships with sharing off, so without an explicit
      override its first conversation is not shared. */
  lemma AutoJoinedContactStartsUnshared(s: Store, req: CreateRequest, env: CreateEnv)
    requires Valid(s)
    requires env.contact.Ok?
    requires forall k :: k in s.members ==> k.contactID != env.contact.value
    requires env.membership.Ok?
    requires MembershipAnswer(AddContactToOrganizationsByEmailDomain(s, env.contact.value, req.email),
                              env.contact.value, env.membership.value)
    requires req.shareOverride.None?
    ensures var r := CreateConversationAsAgent(s, req, env);
      r.reply.effects != [] ==> r.reply.effects[0].organizationID == 0
  {
    var joined := AddContactToOrganizationsByEmailDomain(s, env.contact.value, req.email);
    if env.membership.value.Some? {
      var m := env.membership.value.value;
      var k := MemberKey(m.organizationID, env.contact.value);
      assert k in joined.members && k !in s.members;
      assert !m.shareTicketsByDefault;
    }
  }

  /** The created conversation ends up with both requested assignees, because
      the team is written before the agent. */
  lemma CreatedConversationHasRequestedAssignees(s: Store, req: CreateRequest, env: CreateEnv, conv: Conversation)
    requires Valid(s)
    requires CreateConversationAsAgent(s, req, env).reply.result.Ok?
    requires req.assignedTeamID > 0 && req.assignedAgentID > 0
    ensures var effects := CreateConversationAsAgent(s, req, env).reply.effects;
      var after := ApplyAssignments(conv, effects[2..]);
      after.assignedTeamID == Some(req.assignedTeamID) && after.assignedUserID == Some(req.assignedAgentID)
  {
    var effects := CreateConversationAsAgent(s, req, env).reply.effects;
    var assign := AssignAtCreation(env.created.value, req.assignedTeamID, req.assignedAgentID, AgentActor(env.agent.value.id));
    assert effects[2..] == assign;
    CreationKeepsBothAssignees(conv, env.created.value, req.assignedTeamID, req.assignedAgentID, AgentActor(env.agent.value.id));
  }
}
