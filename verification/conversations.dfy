/** The records the handlers share, the effects they record, and the
    fetch-then-authorise step every agent handler runs before touching a
    conversation. */
module Conversations {
  import opened Envelope

  /** `organizationID` is set only when the conversation is shared with the
      contact's organisation. Nullable columns are options. */
  datatype Conversation = Conversation(
    id: int,
    uuid: string,
    contactID: int,
    assignedUserID: Option<int>,
    assignedTeamID: Option<int>,
    statusID: int,
    organizationID: Option<int>,
    inboxID: int)

  /** An agent as loaded for a request: permissions and team ids come fully
      resolved from the role subsystem. */
  datatype Agent = Agent(id: int, teams: seq<int>, permissions: seq<string>, isAdmin: bool)

  /** A contact's organisation membership as the access logic reads it. */
  datatype Membership = Membership(organizationID: int, shareTicketsByDefault: bool)

  datatype Actor = AgentActor(agentID: int) | ContactActor(contactID: int)

  datatype Inbox = Inbox(id: int, enabled: bool, csatEnabled: bool)

  /** The content type a message is stored with. */
  datatype ContentType = Html | PlainText

  /** The calls a handler makes on its collaborators that change state or
      reach the outside world, in the order it makes them. */
  datatype Effect =
    | WriteStatus(uuid: string, statusID: int, snoozedUntil: string, actor: Actor)
    | SendCSAT(uuid: string, agentID: int)
    | WriteUserAssignee(uuid: string, userID: int, actor: Actor)
    | WriteTeamAssignee(uuid: string, teamID: int, actor: Actor)
    | WriteOrganizationID(uuid: string, organizationID: int)
    | CreateConversation(contactID: int, inboxID: int, organizationID: int)
    | PostContactMessage(uuid: string, content: string, contentType: ContentType)
    | QueueAgentReply(uuid: string, content: string)
    | DeleteConversation(uuid: string)
    | DeleteNote(noteID: int, contactID: int)

  /** What a handler answers (an error kind or a value) together with the
      effects it caused. */
  datatype Reply<+T> = Reply(result: Result<T>, effects: seq<Effect>)

  /** `null.Int`'s `.Int` field: the value, or 0 when null. */
  function IntOrZero(o: Option<int>): (n: int)
    ensures o.Some? ==> n == o.value
    ensures o.None? ==> n == 0
  {
    o.GetOr(0)
  }

  /** `app.authz.EnforceConversationAccess`: its rules are not part of this
      model, so handlers receive it as an uninterpreted decision. */
  type ConversationAuthz = (Agent, Conversation) -> Result<bool>

  /** enforceConversationAccess (cmd/conversation.go:731-744): the conversation
      is fetched first, so a missing conversation is reported as the fetch's
      error before any permission decision; a negative decision is a
      PermissionError; the decision is taken on the freshly fetched record. */
  function EnforceConversationAccess(
    agent: Agent, fetched: Result<Conversation>, authz: ConversationAuthz): (r: Result<Conversation>)
    ensures fetched.Err? ==> r == Err(fetched.kind)
    ensures fetched.Ok? && authz(agent, fetched.value).Err? ==> r == Err(authz(agent, fetched.value).kind)
    ensures fetched.Ok? && authz(agent, fetched.value) == Ok(false) ==> r == Err(PermissionError)
    ensures r.Ok? <==> fetched.Ok? && authz(agent, fetched.value) == Ok(true)
    ensures r.Ok? ==> r.value == fetched.value
  {
    var conv :- fetched;
    var allowed :- authz(agent, conv);
    if !allowed then Err(PermissionError) else Ok(conv)
  }
}
