/** The customer portal: the gate every portal request passes, and the
    handlers a signed-in contact uses to list, read, open, answer and close
    conversations. Every handler takes the contact the gate admitted; the
    store's answers come in as values and the calls that change state are
    recorded as effects. */
module Portal {
  import opened Envelope
  import opened Settings
  import opened Statuses
  import opened Conversations
  import opened Sharing
  import Lifecycle
  import Migrations

  // ---------------------------------------------------------------------------
  // The gate

  datatype UserType = AgentUser | ContactUser

  /** The session the portal cookie resolves to. */
  datatype Session = Session(userID: int, userType: UserType)

  datatype PortalContact = PortalContact(id: int, email: string, enabled: bool)

  /** portalAuth (cmd/portal.go:30-84): `settings` is the app settings read
      (an unreadable or undecodable table is an error), `session` the
      validated portal session, `contact` the contact loaded for the
      session's user id. Checks run in order: settings, portal switch,
      session, user type, contact lookup, contact enabled. */
  function PortalAuth(settings: Result<SettingsMap>, session: Result<Session>,
                      contact: Result<PortalContact>): (r: Result<PortalContact>)
    ensures settings.Err? ==> r == Err(GeneralError)
    ensures settings.Ok? && !PortalEnabled(settings.value) ==> r == Err(PermissionError)
    ensures settings.Ok? && PortalEnabled(settings.value) &&
            (session.Err? || session.value.userID <= 0 || session.value.userType != ContactUser) ==>
            r == Err(GeneralError)
    ensures r.Ok? <==>
      && settings.Ok? && PortalEnabled(settings.value)
      && session.Ok? && session.value.userID > 0 && session.value.userType == ContactUser
      && contact.Ok? && contact.value.enabled
    ensures r.Ok? ==> r == contact
    ensures contact.Ok? && !contact.value.enabled ==> r.Err?
  {
    var s :- (match settings case Ok(s) => Ok(s) case Err(_) => Err(GeneralError));
    if !PortalEnabled(s) then Err(PermissionError)
    else if session.Err? || session.value.userID <= 0 then Err(GeneralError)
    else if session.value.userType != ContactUser then Err(GeneralError)
    else
      var c :- contact;
      if !c.enabled then Err(PermissionError) else Ok(c)
  }

  /** On a fresh installation nobody gets through the portal until an admin
      turns it on: the seeded switch is off. */
  lemma FreshInstallLocksPortal(session: Result<Session>, contact: Result<PortalContact>)
    ensures PortalAuth(Ok(Migrations.MigrateV110(map[])), session, contact) == Err(PermissionError)
  {
    Migrations.FreshInstallPortalOff();
  }

  /** An agent's session never opens the portal, whatever else holds. */
  lemma AgentSessionRefused(settings: Result<SettingsMap>, id: int, contact: Result<PortalContact>)
    ensures PortalAuth(settings, Ok(Session(id, AgentUser)), contact).Err?
  {
  }

  // ---------------------------------------------------------------------------
  // Listing

  const DefaultPortalPageSize: int := 20

  datatype Paging = Paging(page: int, pageSize: int)

  /** The listing's paging defaults (cmd/portal.go:365-372): unparseable
      query values arrive as 0; a page size of 0 or less becomes 20 and a
      page below 1 becomes 1. */
  function PortalPaging(page: int, pageSize: int): (p: Paging)
    ensures p.page >= 1 && p.pageSize >= 1
    ensures page >= 1 ==> p.page == page
    ensures pageSize >= 1 ==> p.pageSize == pageSize
    ensures page < 1 ==> p.page == 1
    ensures pageSize < 1 ==> p.pageSize == DefaultPortalPageSize
  {
    Paging(if page < 1 then 1 else page, if pageSize <= 0 then DefaultPortalPageSize else pageSize)
  }

  /** Paging values the defaults produced are kept as they are. */
  lemma PortalPagingIdempotent(page: int, pageSize: int)
    ensures var p := PortalPaging(page, pageSize); PortalPaging(p.page, p.pageSize) == p
  {
  }

  /** What the listing asks the conversation store for. */
  datatype PortalListQuery = PortalListQuery(contactID: int, organizationID: int, paging: Paging)

  /** handlePortalListConversations (cmd/portal.go:355-386): a failed
      membership lookup is a GeneralError; otherwise the query carries the
      contact, its organisation (0 without one) and the defaulted paging. */
  function PortalList(contactID: int, membership: Result<Option<Membership>>, page: int, pageSize: int)
    : (r: Result<PortalListQuery>)
    ensures r.Err? <==> membership.Err?
    ensures r.Err? ==> r.kind == GeneralError
    ensures r.Ok? ==> r.value.contactID == contactID && r.value.paging == PortalPaging(page, pageSize)
    ensures membership == Ok(None) ==> r.Ok? && r.value.organizationID == 0
    ensures membership.Ok? && membership.value.Some? ==>
      r.Ok? && r.value.organizationID == membership.value.value.organizationID
  {
    match PortalContactOrgID(membership)
    case Err(_) => Err(GeneralError)
    case Ok(orgID) => Ok(PortalListQuery(contactID, orgID, PortalPaging(page, pageSize)))
  }

  // ---------------------------------------------------------------------------
  // One conversation: detail, reply, close

  /** The access step the detail, send and close handlers share
      (cmd/portal.go:394-407, 517-527, 554-564): the conversation is fetched
      first and its error reported as is; then the contact's organisation,
      whose lookup error is `orgErr` when it fails; a conversation the
      contact may not see is reported as missing. */
  function PortalAccess(contactID: int, conversation: Result<Conversation>,
                        membership: Result<Option<Membership>>, orgErr: ErrorKind): (r: Result<Conversation>)
    ensures conversation.Err? ==> r == Err(conversation.kind)
    ensures conversation.Ok? && membership.Err? ==> r == Err(orgErr)
    ensures r.Ok? <==>
      conversation.Ok? && membership.Ok? &&
      ContactCanAccess(conversation.value, contactID, PortalContactOrgID(membership).value)
    ensures (conversation.Ok? && membership.Ok? &&
             !ContactCanAccess(conversation.value, contactID, PortalContactOrgID(membership).value)) ==>
      r == Err(NotFoundError)
    ensures r.Ok? ==> r == conversation
  {
    var conv :- conversation;
    var orgID :- (match PortalContactOrgID(membership) case Ok(o) => Ok(o) case Err(_) => Err(orgErr));
    if !ContactCanAccess(conv, contactID, orgID) then Err(NotFoundError) else Ok(conv)
  }

  /** A conversation the contact may not see is indistinguishable from one
      that does not exist: the portal never confirms another contact's
      conversation by a PermissionError. */
  lemma DenialLooksLikeMissing(contactID: int, conv: Conversation,
                               membership: Result<Option<Membership>>, orgErr: ErrorKind)
    requires membership.Ok?
    requires !ContactCanAccess(conv, contactID, PortalContactOrgID(membership).value)
    ensures PortalAccess(contactID, Ok(conv), membership, orgErr)
         == PortalAccess(contactID, Err(NotFoundError), membership, orgErr)
         == Err(NotFoundError)
  {
  }

  /** handlePortalGetConversation (cmd/portal.go:389-421): access as above
      with a failed organisation lookup reported as a GeneralError, then the
      public messages, whose fetch error propagates. */
  function PortalDetail(contactID: int, conversation: Result<Conversation>,
                        membership: Result<Option<Membership>>, messages: Outcome): (r: Result<Conversation>)
    ensures r.Ok? <==> PortalAccess(contactID, conversation, membership, GeneralError).Ok? && messages == Pass
    ensures PortalAccess(contactID, conversation, membership, GeneralError).Err? ==>
      r == PortalAccess(contactID, conversation, membership, GeneralError)
    ensures r.Ok? ==> r == conversation
  {
    var conv :- PortalAccess(contactID, conversation, membership, GeneralError);
    if messages.Fail? then Err(messages.kind) else Ok(conv)
  }

  /** handlePortalSendMessage (cmd/portal.go:512-546): access (the
      organisation lookup's own error propagates), a non-empty message, then
      the message is posted as HTML. */
  function PortalSend(contactID: int, uuid: string, conversation: Result<Conversation>,
                      membership: Result<Option<Membership>>, message: string, post: Outcome): (r: Reply<bool>)
    ensures PortalAccess(contactID, conversation, membership, GeneralError).Err? ==>
      r == Reply(Err(PortalAccess(contactID, conversation, membership, GeneralError).kind), [])
    ensures PortalAccess(contactID, conversation, membership, GeneralError).Ok? && message == [] ==>
      r == Reply(Err(InputError), [])
    ensures r.effects != [] ==> r.effects == [PostContactMessage(uuid, message, Html)] && message != []
    ensures r.result.Ok? <==>
      PortalAccess(contactID, conversation, membership, GeneralError).Ok? && message != [] && post == Pass
    ensures r.result.Err? && r.effects != [] ==> r.result.kind == post.kind
  {
    // The membership lookup fails only with a GeneralError.
    match PortalAccess(contactID, conversation, membership, GeneralError)
    case Err(k) => Reply(Err(k), [])
    case Ok(_) =>
      if message == [] then Reply(Err(InputError), [])
      else
        var effects := [PostContactMessage(uuid, message, Html)];
        if post.Fail? then Reply(Err(post.kind), effects) else Reply(Ok(true), effects)
  }

  /** handlePortalCloseConversation (cmd/portal.go:549-583): access, a
      non-empty comment, the comment posted as plain text, then the status
      set to Closed with the contact as the actor; each write's error stops
      the handler. */
  function PortalClose(contactID: int, uuid: string, conversation: Result<Conversation>,
                       membership: Result<Option<Membership>>, comment: string,
                       post: Outcome, statusWrite: Outcome): (r: Reply<bool>)
    ensures PortalAccess(contactID, conversation, membership, GeneralError).Err? ==>
      r == Reply(Err(PortalAccess(contactID, conversation, membership, GeneralError).kind), [])
    ensures PortalAccess(contactID, conversation, membership, GeneralError).Ok? && comment == [] ==>
      r == Reply(Err(InputError), [])
    ensures r.effects != [] ==> comment != [] && r.effects[0] == PostContactMessage(uuid, comment, PlainText)
    ensures |r.effects| == 2 <==> r.effects != [] && post == Pass
    ensures |r.effects| == 2 ==> r.effects[1] == WriteStatus(uuid, Closed, "", ContactActor(contactID))
    ensures r.result.Ok? <==>
      PortalAccess(contactID, conversation, membership, GeneralError).Ok? && comment != []
      && post == Pass && statusWrite == Pass
    ensures r.result.Ok? ==> |r.effects| == 2
  {
    match PortalAccess(contactID, conversation, membership, GeneralError)
    case Err(k) => Reply(Err(k), [])
    case Ok(_) =>
      if comment == [] then Reply(Err(InputError), [])
      else
        var message := PostContactMessage(uuid, comment, PlainText);
        if post.Fail? then Reply(Err(post.kind), [message])
        else
          var effects := [message, WriteStatus(uuid, Closed, "", ContactActor(contactID))];
          if statusWrite.Fail? then Reply(Err(statusWrite.kind), effects) else Reply(Ok(true), effects)
  }

  /** A successful close leaves the conversation Closed, and only a posted
      comment can be followed by the status change. */
  lemma CloseEndsClosed(contactID: int, uuid: string, conv: Conversation,
                        membership: Result<Option<Membership>>, comment: string,
                        post: Outcome, statusWrite: Outcome)
    requires PortalClose(contactID, uuid, Ok(conv), membership, comment, post, statusWrite).result.Ok?
    ensures Lifecycle.ApplyStatus(conv, PortalClose(contactID, uuid, Ok(conv), membership, comment, post, statusWrite).effects).statusID
         == Closed
  {
    StatusAfterPair(conv, [PostContactMessage(uuid, comment, PlainText), WriteStatus(uuid, Closed, "", ContactActor(contactID))]);
  }

  lemma StatusAfterPair(conv: Conversation, effects: seq<Effect>)
    requires |effects| == 2 && effects[1].WriteStatus?
    ensures Lifecycle.ApplyStatus(conv, effects).statusID == effects[1].statusID
  {
    assert effects[1..][1..] == [];
  }

  /** A failed comment leaves the status alone. */
  lemma FailedCommentKeepsStatus(contactID: int, uuid: string, conv: Conversation,
                                 membership: Result<Option<Membership>>, comment: string,
                                 k: ErrorKind, statusWrite: Outcome)
    ensures var r := PortalClose(contactID, uuid, Ok(conv), membership, comment, Fail(k), statusWrite);
      r.result.Err? && Lifecycle.ApplyStatus(conv, r.effects) == conv
  {
    var effects := PortalClose(contactID, uuid, Ok(conv), membership, comment, Fail(k), statusWrite).effects;
    assert forall e :: e in effects ==> !e.WriteStatus?;
  }

  // ---------------------------------------------------------------------------
  // Opening a conversation

  /** What the create handler consults besides the request. */
  datatype CreateEnv = CreateEnv(
    settings: Result<SettingsMap>,
    channel: Outcome,                           // ensuring the contact's channel on the inbox
    membership: Result<Option<Membership>>,
    created: Result<string>,                    // the new conversation's uuid
    post: Outcome)                              // posting the first message

  /** handlePortalCreateConversation (cmd/portal.go:424-496): the settings
      (an error propagates), a non-zero default inbox, non-empty content,
      the contact's channel; then the conversation is created with the
      organisation the sharing rule picks and the first message posted as
      HTML. When that post fails the conversation is deleted again. */
  function PortalCreate(contactID: int, content: string, shareOverride: Option<bool>, env: CreateEnv)
    : (r: Reply<string>)
    ensures env.settings.Err? ==> r == Reply(Err(env.settings.kind), [])
    ensures env.settings.Ok? && PortalDefaultInboxID(env.settings.value) == 0 ==> r == Reply(Err(InputError), [])
    ensures r.effects != [] ==>
      && env.settings.Ok? && PortalDefaultInboxID(env.settings.value) != 0
      && content != [] && env.channel == Pass
      && r.effects[0] == CreateConversation(contactID, PortalDefaultInboxID(env.settings.value),
                                            PortalShareOrgID(MembershipOrNone(env.membership), shareOverride))
    ensures env.settings.Ok? && PortalDefaultInboxID(env.settings.value) != 0 && content == [] ==>
      r == Reply(Err(InputError), [])
    ensures env.settings.Ok? && PortalDefaultInboxID(env.settings.value) != 0 && content != [] && env.channel.Fail? ==>
      r == Reply(Err(env.channel.kind), [])
    // A request that passes the settings, inbox, content and channel steps creates the conversation.
    ensures env.settings.Ok? && PortalDefaultInboxID(env.settings.value) != 0 && content != [] && env.channel == Pass
      ==> r.effects != []
    ensures r.result.Ok? <==> r.effects != [] && env.created.Ok? && env.post == Pass
    ensures r.result.Ok? ==>
      r.result.value == env.created.value
      && r.effects == r.effects[..1] + [PostContactMessage(env.created.value, content, Html)]
    // A failed first message leaves no conversation behind.
    ensures r.result.Err? && |r.effects| > 1 ==>
      env.created.Ok? && r.effects[|r.effects| - 1] == DeleteConversation(env.created.value)
    ensures |r.effects| <= 3
  {
    match env.settings
    case Err(k) => Reply(Err(k), [])
    case Ok(settings) =>
      var inboxID := PortalDefaultInboxID(settings);
      if inboxID == 0 then Reply(Err(InputError), [])
      else if content == [] then Reply(Err(InputError), [])
      else if env.channel.Fail? then Reply(Err(env.channel.kind), [])
      else
        var orgID := PortalShareOrgID(MembershipOrNone(env.membership), shareOverride);
        var create := CreateConversation(contactID, inboxID, orgID);
        match env.created
        case Err(k) => Reply(Err(k), [create])
        case Ok(uuid) =>
          var post := PostContactMessage(uuid, content, Html);
          if env.post.Fail? then Reply(Err(env.post.kind), [create, post, DeleteConversation(uuid)])
          else Reply(Ok(uuid), [create, post])
  }

  /** A failing membership lookup does not stop a contact from opening a
      conversation: it is opened unshared, as for a contact without an
      organisation. */
  lemma MembershipErrorOpensUnshared(contactID: int, content: string, shareOverride: Option<bool>,
                                     env: CreateEnv, k: ErrorKind)
    ensures PortalCreate(contactID, content, shareOverride, env.(membership := Err(k)))
         == PortalCreate(contactID, content, shareOverride, env.(membership := Ok(None)))
    ensures PortalCreate(contactID, content, shareOverride, env.(membership := Err(k))).effects != [] ==>
      PortalCreate(contactID, content, shareOverride, env.(membership := Err(k))).effects[0].organizationID == 0
  {
  }

  /** The inbox test only refuses 0: a negative default inbox, which the
      settings form never saves while the portal is on, is not refused here. */
  lemma OnlyZeroInboxRefused(contactID: int, content: string, shareOverride: Option<bool>, env: CreateEnv)
    requires env.settings.Ok? && PortalDefaultInboxID(env.settings.value) < 0
    requires content != [] && env.channel == Pass && env.created.Ok? && env.post == Pass
    ensures PortalCreate(contactID, content, shareOverride, env).result.Ok?
  {
  }
}
