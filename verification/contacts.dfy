/** Contacts as agents manage them: creating one (with an optional
    organisation and the automatic organisation membership by e-mail
    domain), updating one, and deleting notes left on one. */
module Contacts {
  import opened Envelope
  import opened Text
  import opened Conversations
  import opened Settings
  import opened OrgStore

  // ---------------------------------------------------------------------------
  // The inbox a new contact's channel is opened in

  /** defaultInboxIDForContact (cmd/contacts.go:68-85): the portal's default
      inbox when the settings hold a positive number there (a failure to read
      the settings is ignored), otherwise the first inbox; 0 when there are no
      inboxes, and the listing's error when it fails. */
  function DefaultInboxIDForContact(settings: Result<SettingsMap>, inboxes: Result<seq<Inbox>>): (r: Result<int>)
    ensures settings.Ok? && PortalDefaultInboxKey in settings.value
      && settings.value[PortalDefaultInboxKey].JNumber? && settings.value[PortalDefaultInboxKey].n > 0
      ==> r == Ok(settings.value[PortalDefaultInboxKey].n)
    ensures !(settings.Ok? && PortalDefaultInboxKey in settings.value
              && settings.value[PortalDefaultInboxKey].JNumber? && settings.value[PortalDefaultInboxKey].n > 0) ==>
      && (inboxes.Err? ==> r == Err(inboxes.kind))
      && (inboxes == Ok([]) ==> r == Ok(0))
      && (inboxes.Ok? && inboxes.value != [] ==> r == Ok(inboxes.value[0].id))
  {
    if settings.Ok? && PortalDefaultInboxID(settings.value) > 0 then Ok(PortalDefaultInboxID(settings.value))
    else
      var all :- inboxes;
      if all == [] then Ok(0) else Ok(all[0].id)
  }

  // ---------------------------------------------------------------------------
  // Creating a contact

  datatype ContactRecord = ContactRecord(
    id: int,
    email: string,
    firstName: string,
    lastName: string,
    avatarURL: Option<string>,
    phoneNumber: Option<string>,
    phoneCountryCode: Option<string>,
    inboxID: int)

  datatype NewContactRequest = NewContactRequest(
    email: string,
    firstName: string,
    lastName: string,
    avatarURL: string,
    phoneNumber: string,
    phoneCountryCode: string,
    organizationID: Option<int>,
    createOrganizationName: string,
    shareTicketsByDefault: bool)

  /** Why a contact request is refused; each is reported as an InputError. */
  datatype ContactProblem = EmptyEmail | InvalidEmail | BlankFirstName | EmailTaken

  /** The first problem with a new contact (cmd/contacts.go:94-107). The
      address is lower-cased and trimmed before anything is checked, so the
      validity test and the duplicate lookup see the normalised address.
      `validEmail` is stringutil.ValidEmail; `contactWithEmail` is the id of
      the contact holding an address, 0 when none does or the lookup fails. */
  function NewContactProblem(req: NewContactRequest, validEmail: string -> bool,
                             contactWithEmail: string -> int): (p: Option<ContactProblem>)
    ensures Normalize(req.email) == "" <==> p == Some(EmptyEmail)
    ensures p == Some(InvalidEmail) <==> Normalize(req.email) != "" && !validEmail(Normalize(req.email))
    ensures p == Some(BlankFirstName) <==>
      Normalize(req.email) != "" && validEmail(Normalize(req.email)) && TrimSpace(req.firstName) == ""
    ensures p == Some(EmailTaken) <==>
      Normalize(req.email) != "" && validEmail(Normalize(req.email)) && TrimSpace(req.firstName) != ""
      && contactWithEmail(Normalize(req.email)) > 0
  {
    var email := Normalize(req.email);
    if email == "" then Some(EmptyEmail)
    else if !validEmail(email) then Some(InvalidEmail)
    else if TrimSpace(req.firstName) == "" then Some(BlankFirstName)
    else if contactWithEmail(email) > 0 then Some(EmailTaken)
    else None
  }

  /** The organisation a new contact joins (cmd/contacts.go:126-141): a new
      one when a name is given, otherwise the given id when it is positive. */
  datatype OrganizationChoice = NewOrganization(name: string) | ExistingOrganization(id: int) | NoOrganization

  function ChooseOrganization(req: NewContactRequest): (c: OrganizationChoice)
    ensures req.createOrganizationName != "" <==> c.NewOrganization?
    ensures c.NewOrganization? ==> c.name == TrimSpace(req.createOrganizationName)
    ensures c.ExistingOrganization? <==>
      req.createOrganizationName == "" && req.organizationID.Some? && req.organizationID.value > 0
    ensures c.ExistingOrganization? ==> c.id == req.organizationID.value
  {
    if req.createOrganizationName != "" then NewOrganization(TrimSpace(req.createOrganizationName))
    else if req.organizationID.Some? && req.organizationID.value > 0 then ExistingOrganization(req.organizationID.value)
    else NoOrganization
  }

  /** The contact record stored for a request: names and optional fields
      trimmed, empty optional fields null. */
  function NewContactRecord(id: int, email: string, inboxID: int, req: NewContactRequest): (c: ContactRecord)
    ensures c.id == id && c.email == email && c.inboxID == inboxID
    ensures Trimmed(c.firstName) && Trimmed(c.lastName)
    ensures c.avatarURL.None? <==> TrimSpace(req.avatarURL) == ""
    ensures c.phoneNumber.Some? ==> Trimmed(c.phoneNumber.value) && c.phoneNumber.value != ""
    ensures c.phoneCountryCode.Some? ==> Trimmed(c.phoneCountryCode.value) && c.phoneCountryCode.value != ""
  {
    ContactRecord(id, email, TrimSpace(req.firstName), TrimSpace(req.lastName),
                  NullIfEmpty(TrimSpace(req.avatarURL)), NullIfEmpty(TrimSpace(req.phoneNumber)),
                  NullIfEmpty(TrimSpace(req.phoneCountryCode)), inboxID)
  }

  /** Joins the chosen organisation, creating it first when asked to; the
      errors of both steps are the handler's errors. */
  function JoinChosenOrganization(s: Store, contactID: int, choice: OrganizationChoice, share: bool): (r: Step<int>)
    requires Valid(s)
    ensures Valid(r.store)
    ensures r.store.contacts == s.contacts
    ensures choice.NoOrganization? ==> r == Step(s, Ok(0))
    ensures choice.ExistingOrganization? ==> r.store == AddMember(s, choice.id, contactID, share).store
    ensures r.result.Ok? && !choice.NoOrganization? ==>
      && r.result.value in r.store.orgs
      && MemberKey(r.result.value, contactID) in r.store.members
      && r.store.members[MemberKey(r.result.value, contactID)] == share
  {
    match choice
    case NoOrganization => Step(s, Ok(0))
    case ExistingOrganization(id) =>
      var added := AddMember(s, id, contactID, share);
      if added.result.Err? then Step(added.store, Err(added.result.kind)) else Step(added.store, Ok(id))
    case NewOrganization(name) =>
      var created := CreateOrganization(s, name, "");
      if created.result.Err? then Step(created.store, Err(created.result.kind))
      else
        var id := created.result.value.id;
        var added := AddMember(created.store, id, contactID, share);
        if added.result.Err? then Step(added.store, Err(added.result.kind)) else Step(added.store, Ok(id))
  }

  /** handleCreateContact (cmd/contacts.go:88-149). `newID` is the id the
      users table gives the new contact, or its error; `refetch` is the final
      re-read. The contact is created before its organisation is: when that
      step fails, the contact stays. */
  function CreateContact(s: Store, req: NewContactRequest, validEmail: string -> bool,
                         contactWithEmail: string -> int, settings: Result<SettingsMap>,
                         inboxes: Result<seq<Inbox>>, newID: Result<int>, refetch: Outcome): (r: Step<ContactRecord>)
    requires Valid(s)
    requires newID.Ok? ==> newID.value !in s.contacts
    ensures Valid(r.store)
    ensures NewContactProblem(req, validEmail, contactWithEmail).Some? ==> r == Step(s, Err(InputError))
    ensures NewContactProblem(req, validEmail, contactWithEmail).None? ==>
      var inbox := DefaultInboxIDForContact(settings, inboxes);
      && (inbox.Err? || inbox.value <= 0 ==> r == Step(s, Err(GeneralError)))
      && (inbox.Ok? && inbox.value > 0 && newID.Err? ==> r == Step(s, Err(newID.kind)))
      && (inbox.Ok? && inbox.value > 0 && newID.Ok? ==> r.store.contacts == s.contacts + {newID.value})
    ensures r.result.Ok? ==>
      && newID.Ok?
      && r.result.value == NewContactRecord(newID.value, Normalize(req.email),
                                            DefaultInboxIDForContact(settings, inboxes).value, req)
      && validEmail(r.result.value.email)
      && refetch == Pass
    ensures r.result.Ok? && !ChooseOrganization(req).NoOrganization? ==>
      exists o :: o in r.store.orgs && MemberKey(o, newID.value) in r.store.members
    // A valid request with an inbox and a new id succeeds exactly when the
    // organisation step and the re-read go through; the store then holds the
    // chosen membership followed by the automatic ones.
    ensures (&& NewContactProblem(req, validEmail, contactWithEmail).None?
             && DefaultInboxIDForContact(settings, inboxes).Ok? && DefaultInboxIDForContact(settings, inboxes).value > 0
             && newID.Ok?) ==>
      var joined := JoinChosenOrganization(s.(contacts := s.contacts + {newID.value}), newID.value,
                                           ChooseOrganization(req), req.shareTicketsByDefault);
      && (r.result.Ok? <==> joined.result.Ok? && refetch == Pass)
      && (joined.result.Err? ==> r == Step(joined.store, Err(joined.result.kind)))
      && (joined.result.Ok? ==>
            r.store == AddContactToOrganizationsByEmailDomain(joined.store, newID.value, Normalize(req.email)))
      && (joined.result.Ok? && refetch.Fail? ==> r.result == Err(refetch.kind))
  {
    match NewContactProblem(req, validEmail, contactWithEmail)
    case Some(_) => Step(s, Err(InputError))
    case None =>
      var email := Normalize(req.email);
      var inbox := DefaultInboxIDForContact(settings, inboxes);
      if inbox.Err? || inbox.value <= 0 then Step(s, Err(GeneralError))
      else match newID
      case Err(k) => Step(s, Err(k))
      case Ok(id) =>
        FinishCreate(s.(contacts := s.contacts + {id}), id, email, inbox.value, req, refetch)
  }

  /** The steps after the contact row exists: the chosen organisation, the
      automatic membership by domain, and the re-read. */
  function FinishCreate(s: Store, id: int, email: string, inboxID: int, req: NewContactRequest,
                        refetch: Outcome): (r: Step<ContactRecord>)
    requires Valid(s) && id in s.contacts
    ensures Valid(r.store)
    ensures r.store.contacts == s.contacts
    ensures r.result.Ok? ==> r.result.value == NewContactRecord(id, email, inboxID, req) && refetch == Pass
    ensures r.result.Ok? && !ChooseOrganization(req).NoOrganization? ==>
      exists o :: o in r.store.orgs && MemberKey(o, id) in r.store.members
    ensures
      var joined := JoinChosenOrganization(s, id, ChooseOrganization(req), req.shareTicketsByDefault);
      && (r.result.Ok? <==> joined.result.Ok? && refetch == Pass)
      && (joined.result.Err? ==> r == Step(joined.store, Err(joined.result.kind)))
      && (joined.result.Ok? ==> r.store == AddContactToOrganizationsByEmailDomain(joined.store, id, email))
      && (joined.result.Ok? && refetch.Fail? ==> r.result == Err(refetch.kind))
  {
    var joined := JoinChosenOrganization(s, id, ChooseOrganization(req), req.shareTicketsByDefault);
    if joined.result.Err? then Step(joined.store, Err(joined.result.kind))
    else
      var auto := AddContactToOrganizationsByEmailDomain(joined.store, id, email);
      if refetch.Fail? then Step(auto, Err(refetch.kind))
      else
        KeepsChosenMembership(joined, auto, id, ChooseOrganization(req));
        Step(auto, Ok(NewContactRecord(id, email, inboxID, req)))
  }

  lemma KeepsChosenMembership(joined: Step<int>, auto: Store, id: int, choice: OrganizationChoice)
    requires joined.result.Ok?
    requires !choice.NoOrganization? ==>
      joined.result.value in joined.store.orgs && MemberKey(joined.result.value, id) in joined.store.members
    requires auto.orgs == joined.store.orgs
    requires forall k :: k in joined.store.members ==> k in auto.members
    ensures !choice.NoOrganization? ==> exists o :: o in auto.orgs && MemberKey(o, id) in auto.members
  {
    if !choice.NoOrganization? {
      assert joined.result.value in auto.orgs && MemberKey(joined.result.value, id) in auto.members;
    }
  }

  /** A failing organisation step after the contact was created leaves the
      contact in place while the request is answered with the error. */
  lemma ContactSurvivesFailedOrganizationStep(
    s: Store, req: NewContactRequest, validEmail: string -> bool, contactWithEmail: string -> int,
    settings: Result<SettingsMap>, inboxes: Result<seq<Inbox>>, id: int, refetch: Outcome)
    requires Valid(s) && id !in s.contacts
    requires NewContactProblem(req, validEmail, contactWithEmail).None?
    requires DefaultInboxIDForContact(settings, inboxes).Ok? && DefaultInboxIDForContact(settings, inboxes).value > 0
    requires ChooseOrganization(req).ExistingOrganization? && ChooseOrganization(req).id !in s.orgs
    ensures CreateContact(s, req, validEmail, contactWithEmail, settings, inboxes, Ok(id), refetch).result == Err(GeneralError)
    ensures id in CreateContact(s, req, validEmail, contactWithEmail, settings, inboxes, Ok(id), refetch).store.contacts
  {
  }

  /** A valid request naming an existing organisation creates the contact
      as a member of it, with the requested share flag, which the automatic
      membership afterwards leaves alone. */
  lemma CreatedContactJoinsChosenOrganization(
    s: Store, req: NewContactRequest, validEmail: string -> bool, contactWithEmail: string -> int,
    settings: Result<SettingsMap>, inboxes: Result<seq<Inbox>>, id: int)
    requires Valid(s) && id !in s.contacts
    requires NewContactProblem(req, validEmail, contactWithEmail).None?
    requires DefaultInboxIDForContact(settings, inboxes).Ok? && DefaultInboxIDForContact(settings, inboxes).value > 0
    requires ChooseOrganization(req).ExistingOrganization? && ChooseOrganization(req).id in s.orgs
    ensures
      var r := CreateContact(s, req, validEmail, contactWithEmail, settings, inboxes, Ok(id), Pass);
      && r.result.Ok? && r.result.value.id == id
      && MemberKey(ChooseOrganization(req).id, id) in r.store.members
      && r.store.members[MemberKey(ChooseOrganization(req).id, id)] == req.shareTicketsByDefault
  {
  }

  // ---------------------------------------------------------------------------
  // Updating a contact

  datatype ContactForm = ContactForm(
    firstName: string, lastName: string, email: string,
    phoneNumber: string, phoneCountryCode: string, avatarURL: string)

  /** What an update writes. */
  datatype ContactPatch = ContactPatch(
    firstName: string, lastName: string, email: string,
    avatarURL: Option<string>, phoneNumber: Option<string>, phoneCountryCode: Option<string>)

  /** The form sends a cleared field as the text "null" (cmd/contacts.go:255-264). */
  function ClearNullLiteral(v: string): (r: string)
    ensures v == "null" ==> r == ""
    ensures v != "null" ==> r == v
  {
    if v == "null" then "" else v
  }

  /** The optional columns as an update writes them: "null" or empty is null. */
  function OptionalColumn(v: string): (o: Option<string>)
    ensures o.None? <==> v == "" || v == "null"
    ensures o.Some? ==> o.value == v
  {
    NullIfEmpty(ClearNullLiteral(v))
  }

  /** The first problem with an update (cmd/contacts.go:267-281). Unlike
      creation, the address is only trimmed, not lower-cased, and the first
      name is not trimmed; the address may stay the contact's own. */
  function UpdateProblem(id: int, form: ContactForm, validEmail: string -> bool,
                         contactWithEmail: string -> int): (p: Option<ContactProblem>)
    ensures TrimSpace(form.email) == "" <==> p == Some(EmptyEmail)
    ensures p == Some(InvalidEmail) <==> TrimSpace(form.email) != "" && !validEmail(TrimSpace(form.email))
    ensures p == Some(BlankFirstName) <==>
      TrimSpace(form.email) != "" && validEmail(TrimSpace(form.email)) && form.firstName == ""
    ensures p == Some(EmailTaken) <==>
      TrimSpace(form.email) != "" && validEmail(TrimSpace(form.email)) && form.firstName != ""
      && contactWithEmail(TrimSpace(form.email)) > 0 && contactWithEmail(TrimSpace(form.email)) != id
  {
    var email := TrimSpace(form.email);
    if email == "" then Some(EmptyEmail)
    else if !validEmail(email) then Some(InvalidEmail)
    else if form.firstName == "" then Some(BlankFirstName)
    else
      var other := contactWithEmail(email);
      if other > 0 && other != id then Some(EmailTaken) else None
  }

  /** handleUpdateContact (cmd/contacts.go:205-298), up to the automatic
      organisation membership: the id, the contact's existence and the form
      are checked, then the fields; `write` is the update's outcome. */
  function UpdateContact(s: Store, id: int, existing: Outcome, form: Result<ContactForm>,
                         validEmail: string -> bool, contactWithEmail: string -> int, write: Outcome): (r: Step<ContactPatch>)
    requires Valid(s)
    ensures Valid(r.store)
    ensures id <= 0 ==> r == Step(s, Err(InputError))
    ensures id > 0 && existing.Fail? ==> r == Step(s, Err(existing.kind))
    ensures id > 0 && existing.Pass? && form.Err? ==> r == Step(s, Err(GeneralError))
    ensures id > 0 && existing.Pass? && form.Ok? && UpdateProblem(id, form.value, validEmail, contactWithEmail).Some? ==>
      r == Step(s, Err(InputError))
    ensures r.store != s ==> write.Pass? && form.Ok?
    ensures r.result.Ok? ==>
      && form.Ok? && write.Pass?
      && r.result.value.email == TrimSpace(form.value.email)
      && r.result.value.firstName == form.value.firstName != ""
      && r.result.value.avatarURL == OptionalColumn(form.value.avatarURL)
      && r.result.value.phoneNumber == OptionalColumn(form.value.phoneNumber)
      && r.result.value.phoneCountryCode == OptionalColumn(form.value.phoneCountryCode)
      && r.store == AddContactToOrganizationsByEmailDomain(s, id, form.value.email)
    // Past the checks, the update succeeds exactly when its write does.
    ensures r.result.Ok? <==>
      id > 0 && existing.Pass? && form.Ok? && UpdateProblem(id, form.value, validEmail, contactWithEmail).None?
      && write.Pass?
    ensures id > 0 && existing.Pass? && form.Ok? && UpdateProblem(id, form.value, validEmail, contactWithEmail).None?
      && write.Fail?
      ==> r == Step(s, Err(write.kind))
  {
    if id <= 0 then Step(s, Err(InputError))
    else if existing.Fail? then Step(s, Err(existing.kind))
    else match form
    case Err(_) => Step(s, Err(GeneralError))
    case Ok(f) =>
      if UpdateProblem(id, f, validEmail, contactWithEmail).Some? then Step(s, Err(InputError))
      else if write.Fail? then Step(s, Err(write.kind))
      else
        var email := TrimSpace(f.email);
        AutoMembershipIgnoresPadding(s, id, f.email);
        var patch := ContactPatch(f.firstName, f.lastName, email, OptionalColumn(f.avatarURL),
                                  OptionalColumn(f.phoneNumber), OptionalColumn(f.phoneCountryCode));
        Step(AddContactToOrganizationsByEmailDomain(s, id, email), Ok(patch))
  }

  /** A successful update makes the contact a member of every organisation
      that registered the domain of its new address. */
  lemma UpdateJoinsDomainOrganizations(s: Store, id: int, existing: Outcome, form: Result<ContactForm>,
                                       validEmail: string -> bool, contactWithEmail: string -> int, write: Outcome)
    requires Valid(s) && id in s.contacts
    requires UpdateContact(s, id, existing, form, validEmail, contactWithEmail, write).result.Ok?
    requires EmailDomain(form.value.email).Some?
    ensures forall o :: o in OrganizationIDsByEmailDomain(s, EmailDomain(form.value.email).value) ==>
      MemberKey(o, id) in UpdateContact(s, id, existing, form, validEmail, contactWithEmail, write).store.members
  {
  }

  /** Trimming an address before the automatic membership changes nothing,
      since the membership step normalises it anyway. */
  lemma AutoMembershipIgnoresPadding(s: Store, id: int, email: string)
    requires Valid(s)
    ensures AddContactToOrganizationsByEmailDomain(s, id, TrimSpace(email))
         == AddContactToOrganizationsByEmailDomain(s, id, email)
  {
    TrimThenNormalize(email);
  }

  lemma TrimThenNormalize(email: string)
    ensures Normalize(TrimSpace(email)) == Normalize(email)
  {
    var l := TrimLeft(email);
    var t := TrimRight(l);
    var lower := ToLower(email);
    // Lower-casing keeps spaces where they are, so the same spaces are trimmed.
    LowerCommutesWithTrim(email);
  }

  lemma LowerCommutesWithTrim(s: string)
    ensures ToLower(TrimSpace(s)) == TrimSpace(ToLower(s))
  {
    LowerCommutesWithTrimLeft(s);
    LowerCommutesWithTrimRight(TrimLeft(s));
  }

  lemma {:induction false} LowerCommutesWithTrimLeft(s: string)
    ensures ToLower(TrimLeft(s)) == TrimLeft(ToLower(s))
  {
    var t := ToLower(s);
    if s == [] {
      assert t == [];
    } else if IsSpace(s[0]) {
      assert t[0] == s[0];
      assert t[1..] == ToLower(s[1..]);
      assert TrimLeft(t) == TrimLeft(t[1..]);
      assert TrimLeft(s) == TrimLeft(s[1..]);
      LowerCommutesWithTrimLeft(s[1..]);
    } else {
      assert !IsSpace(t[0]);
      assert TrimLeft(s) == s;
      assert TrimLeft(t) == t;
    }
  }

  lemma {:induction false} LowerCommutesWithTrimRight(s: string)
    ensures ToLower(TrimRight(s)) == TrimRight(ToLower(s))
  {
    var t := ToLower(s);
    if s == [] {
      assert t == [];
    } else if IsSpace(s[|s| - 1]) {
      assert t[|s| - 1] == s[|s| - 1];
      assert t[..|s| - 1] == ToLower(s[..|s| - 1]);
      assert TrimRight(t) == TrimRight(t[..|s| - 1]);
      assert TrimRight(s) == TrimRight(s[..|s| - 1]);
      LowerCommutesWithTrimRight(s[..|s| - 1]);
    } else {
      assert !IsSpace(t[|s| - 1]);
      assert TrimRight(s) == s;
      assert TrimRight(t) == t;
    }
  }

  /** A contact may keep their own address: the duplicate check skips them. */
  lemma OwnAddressIsNotTaken(id: int, form: ContactForm, validEmail: string -> bool, contactWithEmail: string -> int)
    requires contactWithEmail(TrimSpace(form.email)) == id
    ensures UpdateProblem(id, form, validEmail, contactWithEmail) != Some(EmailTaken)
  {
  }

  // ---------------------------------------------------------------------------
  // Deleting a note

  datatype Note = Note(id: int, userID: int)

  /** handleDeleteContactNote (cmd/contacts.go:391-427). Admins may delete any
      note; anyone else only their own, and is refused with an InputError
      otherwise. `note` is the note lookup, made for non-admins only. */
  function DeleteContactNote(contactID: int, noteID: int, agent: Result<Agent>, note: Result<Note>,
                             delete: Outcome): (r: Reply<bool>)
    ensures contactID <= 0 || noteID <= 0 ==> r == Reply(Err(InputError), [])
    ensures contactID > 0 && noteID > 0 && agent.Err? ==> r == Reply(Err(agent.kind), [])
    ensures r.effects != [] ==>
      && r.effects == [DeleteNote(noteID, contactID)]
      && agent.Ok?
      && (agent.value.isAdmin || (note.Ok? && note.value.userID == agent.value.id))
    ensures contactID > 0 && noteID > 0 && agent.Ok? ==>
      (r.effects != [] <==> agent.value.isAdmin || (note.Ok? && note.value.userID == agent.value.id))
    ensures r.result.Ok? <==> r.effects != [] && delete.Pass?
  {
    if contactID <= 0 || noteID <= 0 then Reply(Err(InputError), [])
    else match agent
    case Err(k) => Reply(Err(k), [])
    case Ok(a) =>
      if !a.isAdmin && note.Err? then Reply(Err(note.kind), [])
      else if !a.isAdmin && note.value.userID != a.id then Reply(Err(InputError), [])
      else
        var effects := [DeleteNote(noteID, contactID)];
        if delete.Fail? then Reply(Err(delete.kind), effects) else Reply(Ok(true), effects)
  }

  /** An admin's deletion does not depend on the note's author, or even on the
      note lookup. */
  lemma AdminDeletesAnyNote(contactID: int, noteID: int, a: Agent, note: Result<Note>, other: Result<Note>, delete: Outcome)
    requires a.isAdmin
    ensures DeleteContactNote(contactID, noteID, Ok(a), note, delete)
         == DeleteContactNote(contactID, noteID, Ok(a), other, delete)
  {
  }

  // ---------------------------------------------------------------------------
  // The handlers' automatic membership

  /** addContactToOrganizationsByEmailDomain (cmd/contacts.go:430-447), the
      handlers' copy of the manager's operation: it computes the same store. */
  method AddContactByEmailDomain(s: Store, contactID: int, email: string) returns (r: Store)
    requires Valid(s)
    ensures Valid(r)
    ensures r == AddContactToOrganizationsByEmailDomain(s, contactID, email)
  {
    var e := TrimSpace(ToLower(email));
    assert e == Normalize(email);
    if e == [] {
      assert EmailDomain(email).None?;
      return s;
    }
    var at := LastIndexOf(e, '@');
    if at < 0 || at == |e| - 1 {
      assert at < 0 ==> '@' !in e;
      assert EmailDomain(email).None?;
      return s;
    }
    assert EmailDomain(email) == Some(e[at + 1..]);
    r := AddToEachInOrder(s, OrganizationIDsByEmailDomain(s, e[at + 1..]), contactID);
  }

  /** The handler's loop over the matching organisations: one AddMember per
      id, in order, each failure ignored. */
  method AddToEachInOrder(s: Store, ids: seq<int>, contactID: int) returns (r: Store)
    requires Valid(s)
    ensures Valid(r)
    ensures r == AddToEach(s, ids, contactID)
  {
    r := s;
    var i := 0;
    while i < |ids|
      invariant 0 <= i <= |ids|
      invariant Valid(r)
      invariant AddToEach(r, ids[i..], contactID) == AddToEach(s, ids, contactID)
    {
      assert ids[i..][0] == ids[i] && ids[i..][1..] == ids[i + 1..];
      r := AddMember(r, ids[i], contactID, false).store;
      i := i + 1;
    }
    assert ids[i..] == [];
  }
}
