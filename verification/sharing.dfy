/** Which contacts see a conversation, and which organisation a conversation
    is shared with. A contact sees the conversations they own and, when they
    belong to an organisation, those shared with it. */
module Sharing {
  import opened Envelope
  import opened Conversations

  // ---------------------------------------------------------------------------
  // The contact access guard

  /** The organisation id the portal works with for a contact: the
      membership's organisation, 0 without membership, and the lookup's error
      when the lookup fails (cmd/portal.go:332-341). */
  function PortalContactOrgID(membership: Result<Option<Membership>>): (r: Result<int>)
    ensures membership.Err? ==> r == Err(membership.kind)
    ensures membership == Ok(None) ==> r == Ok(0)
    ensures membership.Ok? && membership.value.Some? ==> r == Ok(membership.value.value.organizationID)
  {
    var m :- membership;
    match m
    case None => Ok(0)
    case Some(mem) => Ok(mem.organizationID)
  }

  /** contactCanAccessConversation (cmd/portal.go:344-352). */
  predicate ContactCanAccess(conv: Conversation, contactID: int, orgID: int) {
    conv.contactID == contactID
    || (orgID > 0 && conv.organizationID.Some? && conv.organizationID.value == orgID)
  }

  /** Who may see a conversation, stated from the membership rather than from
      the organisation id derived from it: its owner, and the members of the
      organisation it is shared with. */
  predicate SeesConversation(conv: Conversation, contactID: int, membership: Option<Membership>) {
    conv.contactID == contactID
    || (membership.Some? && membership.value.organizationID > 0
        && conv.organizationID == Some(membership.value.organizationID))
  }

  /** The guard applied to the organisation id the portal derives from a
      successful membership lookup lets in exactly the owner and the members
      of the conversation's organisation. */
  lemma GuardMatchesMembership(conv: Conversation, contactID: int, membership: Option<Membership>)
    ensures PortalContactOrgID(Ok(membership)).Ok?
    ensures ContactCanAccess(conv, contactID, PortalContactOrgID(Ok(membership)).value)
        <==> SeesConversation(conv, contactID, membership)
  {
  }

  /** The owner always has access, whatever the organisation state. */
  lemma OwnerAlwaysHasAccess(conv: Conversation, orgID: int)
    ensures ContactCanAccess(conv, conv.contactID, orgID)
  {
  }

  /** A conversation that is not shared, or a contact without organisation,
      leaves the owner as the only one with access. Writing organisation id 0
      into a conversation therefore shares it with nobody, whether 0 is stored
      as 0 or as null. */
  lemma UnsharedMeansOwnerOnly(conv: Conversation, contactID: int, orgID: int)
    requires conv.organizationID.None? || conv.organizationID == Some(0) || orgID <= 0
    ensures ContactCanAccess(conv, contactID, orgID) <==> contactID == conv.contactID
  {
  }

  // ---------------------------------------------------------------------------
  // Choosing the organisation a new conversation is shared with

  /** Whether a new conversation is shared: the request's override when it
      gives one, otherwise the member's default; never without membership. */
  predicate EffectiveShare(membership: Option<Membership>, shareOverride: Option<bool>) {
    membership.Some? && shareOverride.GetOr(membership.value.shareTicketsByDefault)
  }

  /** The membership as both creation paths read it: the lookup's error is
      discarded and counts as no membership (cmd/portal.go:462-465,
      cmd/conversation.go:838). */
  function MembershipOrNone(membership: Result<Option<Membership>>): (m: Option<Membership>)
    ensures membership.Err? ==> m.None?
    ensures membership.Ok? ==> m == membership.value
  {
    if membership.Ok? then membership.value else None
  }

  /** The organisation id a conversation created through the portal is
      stored with (cmd/portal.go:461-477): the member's organisation when the
      conversation is shared and that id is positive, else 0. The membership
      lookup's error is ignored, which the caller expresses as None. */
  function PortalShareOrgID(membership: Option<Membership>, shareOverride: Option<bool>): (r: int)
    ensures r != 0 <==> EffectiveShare(membership, shareOverride) && membership.value.organizationID > 0
    ensures r != 0 ==> r == membership.value.organizationID
    ensures r >= 0
  {
    var orgID := if membership.Some? then membership.value.organizationID else 0;
    var share := if membership.Some? then shareOverride.GetOr(membership.value.shareTicketsByDefault) else false;
    if share && orgID > 0 then orgID else 0
  }

  /** The organisation id a conversation created by an agent is stored with
      (cmd/conversation.go:836-847): the member's organisation when the
      conversation is shared, else 0; unlike the portal it does not check the
      id is positive. */
  function AgentShareOrgID(membership: Option<Membership>, shareOverride: Option<bool>): (r: int)
    ensures EffectiveShare(membership, shareOverride) ==> r == membership.value.organizationID
    ensures !EffectiveShare(membership, shareOverride) ==> r == 0
  {
    match membership
    case None => 0
    case Some(m) => if shareOverride.GetOr(m.shareTicketsByDefault) then m.organizationID else 0
  }

  /** The two creation paths share a conversation with the same organisation
      whenever the membership names a real (positive) organisation id, which
      the membership table's foreign key guarantees. */
  lemma CreationPathsAgree(membership: Option<Membership>, shareOverride: Option<bool>)
    requires membership.Some? ==> membership.value.organizationID > 0
    ensures PortalShareOrgID(membership, shareOverride) == AgentShareOrgID(membership, shareOverride)
  {
  }

  /** An explicit override wins over the member's default in both directions. */
  lemma OverrideWinsOverDefault(m: Membership, share: bool)
    requires m.organizationID > 0
    ensures PortalShareOrgID(Some(m), Some(share)) == (if share then m.organizationID else 0)
    ensures PortalShareOrgID(Some(m), None) == (if m.shareTicketsByDefault then m.organizationID else 0)
  {
  }

  // ---------------------------------------------------------------------------
  // Sharing an existing conversation

  /** handleUpdateConversationShareWithOrganization (cmd/conversation.go:602-637):
      agent, access, membership lookup (whose error propagates), then the
      organisation id is written: the member's organisation when sharing is
      asked for and there is a membership, otherwise 0. */
  function UpdateShareWithOrganization(
    uuid: string, shared: bool, agent: Result<Agent>, conversation: Result<Conversation>,
    authz: ConversationAuthz, membership: Result<Option<Membership>>, write: Outcome): (r: Reply<bool>)
    ensures agent.Err? ==> r == Reply(Err(agent.kind), [])
    ensures agent.Ok? && EnforceConversationAccess(agent.value, conversation, authz).Err? ==>
      r == Reply(Err(EnforceConversationAccess(agent.value, conversation, authz).kind), [])
    ensures r.effects != [] ==>
      && agent.Ok? && EnforceConversationAccess(agent.value, conversation, authz).Ok?
      && membership.Ok?
      && r.effects == [WriteOrganizationID(uuid,
           if shared && membership.value.Some? then membership.value.value.organizationID else 0)]
    ensures agent.Ok? && EnforceConversationAccess(agent.value, conversation, authz).Ok? ==>
      (r.effects == [] <==> membership.Err?)
    ensures r.result.Ok? <==> r.effects != [] && write == Pass
    ensures r.result.Ok? ==> r.result.value
  {
    match agent
    case Err(k) => Reply(Err(k), [])
    case Ok(a) =>
      match EnforceConversationAccess(a, conversation, authz)
      case Err(k) => Reply(Err(k), [])
      case Ok(_) =>
        match membership
        case Err(k) => Reply(Err(k), [])
        case Ok(m) =>
          var orgID := if shared && m.Some? then m.value.organizationID else 0;
          var effects := [WriteOrganizationID(uuid, orgID)];
          if write.Fail? then Reply(Err(write.kind), effects) else Reply(Ok(true), effects)
  }

  /** The organisation id a conversation carries after the share writes
      among `effects`: the last one decides it, and nothing else changes. */
  function ApplyOrganization(conv: Conversation, effects: seq<Effect>): (c: Conversation)
    ensures c == conv.(organizationID := c.organizationID)
    ensures (forall e :: e in effects ==> !e.WriteOrganizationID?) ==> c == conv
    ensures forall i | 0 <= i < |effects| && effects[i].WriteOrganizationID? ::
              (forall j :: i < j < |effects| ==> !effects[j].WriteOrganizationID?)
              ==> c.organizationID == Some(effects[i].organizationID)
    decreases |effects|
  {
    if effects == [] then conv
    else
      var next := if effects[0].WriteOrganizationID?
        then conv.(organizationID := Some(effects[0].organizationID)) else conv;
      assert forall i :: 1 <= i < |effects| ==> effects[1..][i - 1] == effects[i];
      ApplyOrganization(next, effects[1..])
  }

  /** Sharing a conversation opens it to every member of the owner's
      organisation; unsharing it leaves the owner as the only one with
      access. */
  lemma ShareToggleGrantsAndRevokes(
    uuid: string, shared: bool, a: Agent, conv: Conversation, authz: ConversationAuthz,
    m: Option<Membership>, reader: int, readerOrgID: int)
    requires authz(a, conv) == Ok(true)
    requires m.Some? ==> m.value.organizationID > 0
    ensures
      var after := ApplyOrganization(conv, UpdateShareWithOrganization(uuid, shared, Ok(a), Ok(conv), authz, Ok(m), Pass).effects);
      && (shared && m.Some? && readerOrgID == m.value.organizationID ==> ContactCanAccess(after, reader, readerOrgID))
      && (!shared || m.None? ==> (ContactCanAccess(after, reader, readerOrgID) <==> reader == conv.contactID))
  {
    var r := UpdateShareWithOrganization(uuid, shared, Ok(a), Ok(conv), authz, Ok(m), Pass);
    var orgID := if shared && m.Some? then m.value.organizationID else 0;
    assert r.effects == [WriteOrganizationID(uuid, orgID)];
    assert ApplyOrganization(conv, r.effects) == ApplyOrganization(conv.(organizationID := Some(orgID)), []);
  }
}
