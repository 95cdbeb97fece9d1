/** The organisation store: organisations, their members and their e-mail
    domains, with the integrity rules the schema imposes (column limits,
    foreign keys, unique pairs, cascading deletes) and the organisation
    manager's operations over it. Conversations appear only through the
    organisation they are shared with. */
module OrgStore {
  import opened Envelope
  import opened Text
  import opened Conversations
  import opened Sharing

  // ---------------------------------------------------------------------------
  // Rows and the store

  datatype Organization = Organization(id: int, name: string, description: Option<string>)

  /** The key of a membership row: one row per (organisation, contact) pair. */
  datatype MemberKey = MemberKey(organizationID: int, contactID: int)

  datatype DomainRow = DomainRow(organizationID: int, domain: string)

  /** `members` maps each membership to its share_tickets_by_default flag;
      `conversationOrgs` maps a conversation id to its organization_id column;
      `nextID` is the next value of the organisations' id sequence. Domain rows
      keep their insertion order, which is the order a lookup returns them in. */
  datatype Store = Store(
    orgs: map<int, Organization>,
    contacts: set<int>,
    members: map<MemberKey, bool>,
    domains: seq<DomainRow>,
    conversationOrgs: map<int, Option<int>>,
    nextID: int)

  /** The store after an operation, and what the operation answered. */
  datatype Step<+T> = Step(store: Store, result: Result<T>)

  const MaxNameLength: nat := 140
  const MaxDescriptionLength: nat := 300
  const MinDomainLength: nat := 2
  const MaxDomainLength: nat := 253

  /** The organisations table's checks (internal/migrations/v1.2.0.go:16-19). */
  predicate FitsColumns(o: Organization) {
    |o.name| <= MaxNameLength && (o.description.Some? ==> |o.description.value| <= MaxDescriptionLength)
  }

  /** The organisation_domains table's length check (internal/migrations/v1.3.0.go:18). */
  predicate DomainFits(d: string) {
    MinDomainLength <= |d| <= MaxDomainLength
  }

  predicate NoDuplicates<T(==)>(s: seq<T>) {
    forall i, j :: 0 <= i < j < |s| ==> s[i] != s[j]
  }

  /** Every integrity rule of the three tables. */
  predicate Valid(s: Store) {
    && s.nextID >= 1
    && (forall id :: id in s.orgs ==> s.orgs[id].id == id && 1 <= id < s.nextID && FitsColumns(s.orgs[id]))
    && (forall k :: k in s.members ==> k.organizationID in s.orgs && k.contactID in s.contacts)
    && (forall r :: r in s.domains ==> r.organizationID in s.orgs && DomainFits(r.domain))
    && NoDuplicates(s.domains)
    && (forall c :: c in s.conversationOrgs && s.conversationOrgs[c].Some? ==> s.conversationOrgs[c].value in s.orgs)
  }

  /** The rows of `s` that `keep` accepts, in order. */
  function Filter<T(==,!new)>(s: seq<T>, keep: T -> bool): (r: seq<T>)
    ensures |r| <= |s|
    ensures forall x :: x in r <==> x in s && keep(x)
    ensures NoDuplicates(s) ==> NoDuplicates(r)
  {
    if s == [] then []
    else
      var rest := Filter(s[1..], keep);
      if keep(s[0]) then
        assert s[0] !in s[1..] ==> s[0] !in rest;
        [s[0]] + rest
      else rest
  }

  // ---------------------------------------------------------------------------
  // Error mapping of single-row queries

  /** Get, Update and UpdateMemberShareTicketsByDefault
      (internal/organization/organization.go:81-91, 114-121, 190-196): a
      missing row is NotFoundError, any other failure GeneralError. */
  function SingleRow<T>(q: QueryRow<T>): (r: Result<T>)
    ensures q.Row? <==> r.Ok?
    ensures q.Row? ==> r.value == q.row
    ensures q.NoRows? ==> r == Err(NotFoundError)
    ensures q.QueryFailed? ==> r == Err(GeneralError)
  {
    match q
    case Row(x) => Ok(x)
    case NoRows => Err(NotFoundError)
    case QueryFailed => Err(GeneralError)
  }

  /** GetMembershipForContact (internal/organization/organization.go:145-155):
      no row is an answer, not an error. */
  function MembershipFromRow(q: QueryRow<Membership>): (r: Result<Option<Membership>>)
    ensures q.Row? ==> r == Ok(Some(q.row))
    ensures q.NoRows? ==> r == Ok(None)
    ensures q.QueryFailed? ==> r == Err(GeneralError)
  {
    match q
    case Row(m) => Ok(Some(m))
    case NoRows => Ok(None)
    case QueryFailed => Err(GeneralError)
  }

  /** The membership lookup does not say which of a contact's memberships it
      returns: any answer naming one of them, or none when there is none, is
      an answer the store allows. */
  predicate MembershipAnswer(s: Store, contactID: int, answer: Option<Membership>) {
    match answer
    case None => forall k :: k in s.members ==> k.contactID != contactID
    case Some(m) =>
      var k := MemberKey(m.organizationID, contactID);
      k in s.members && s.members[k] == m.shareTicketsByDefault
  }

  // ---------------------------------------------------------------------------
  // Organisations

  /** A nullable text column written from a string: null when the string is
      empty. Organisation descriptions are stored this way
      (internal/organization/organization.go:96-99, 110-113), and so are a
      contact's optional fields. */
  function NullIfEmpty(s: string): (o: Option<string>)
    ensures o.None? <==> s == ""
    ensures o.Some? ==> o.value == s
  {
    if s == "" then None else Some(s)
  }

  /** Manager.Create (internal/organization/organization.go:94-105): a new
      organisation with the next id, or GeneralError when a column check fails. */
  function CreateOrganization(s: Store, name: string, description: string): (r: Step<Organization>)
    requires Valid(s)
    ensures Valid(r.store)
    ensures r.result.Ok? <==> FitsColumns(Organization(s.nextID, name, NullIfEmpty(description)))
    ensures r.result.Err? ==> r.result.kind == GeneralError && r.store == s
    ensures r.result.Ok? ==>
      && r.result.value.id !in s.orgs
      && r.result.value == Organization(r.result.value.id, name, NullIfEmpty(description))
      && r.store.orgs == s.orgs[r.result.value.id := r.result.value]
      && r.store.members == s.members && r.store.domains == s.domains
  {
    var org := Organization(s.nextID, name, NullIfEmpty(description));
    if !FitsColumns(org) then Step(s, Err(GeneralError))
    else Step(s.(orgs := s.orgs[s.nextID := org], nextID := s.nextID + 1), Ok(org))
  }

  /** Manager.Get against the store: an unknown id is NotFoundError. */
  function GetOrganization(s: Store, id: int): (r: Result<Organization>)
    ensures r.Ok? <==> id in s.orgs
    ensures r.Ok? ==> r.value == s.orgs[id]
    ensures r.Err? ==> r.kind == NotFoundError
  {
    SingleRow(if id in s.orgs then Row(s.orgs[id]) else NoRows)
  }

  /** Manager.Update (internal/organization/organization.go:108-122): an
      unknown id is NotFoundError, a failed column check GeneralError. */
  function UpdateOrganization(s: Store, id: int, name: string, description: string): (r: Step<Organization>)
    requires Valid(s)
    ensures Valid(r.store)
    ensures id !in s.orgs ==> r == Step(s, Err(NotFoundError))
    ensures id in s.orgs && !FitsColumns(Organization(id, name, NullIfEmpty(description))) ==>
      r == Step(s, Err(GeneralError))
    ensures r.result.Ok? ==>
      && r.result.value == Organization(id, name, NullIfEmpty(description))
      && r.store == s.(orgs := s.orgs[id := r.result.value])
  {
    var org := Organization(id, name, NullIfEmpty(description));
    if id !in s.orgs then Step(s, Err(NotFoundError))
    else if !FitsColumns(org) then Step(s, Err(GeneralError))
    else Step(s.(orgs := s.orgs[id := org]), Ok(org))
  }

  /** Manager.Delete (internal/organization/organization.go:125-132) with the
      schema's rules: memberships and domains of the organisation go with it
      (internal/migrations/v1.2.0.go:31, v1.3.0.go:15) and conversations
      shared with it become unshared (internal/migrations/v1.2.0.go:48).
      Deleting an unknown id changes nothing and is not an error. */
  function DeleteOrganization(s: Store, id: int): (r: Store)
    requires Valid(s)
    ensures Valid(r)
    ensures r.orgs == s.orgs - {id}
    ensures forall k :: k in r.members <==> k in s.members && k.organizationID != id
    ensures forall k :: k in r.members ==> r.members[k] == s.members[k]
    ensures forall d :: d in r.domains <==> d in s.domains && d.organizationID != id
    ensures r.conversationOrgs.Keys == s.conversationOrgs.Keys
    ensures forall c :: c in r.conversationOrgs ==>
      r.conversationOrgs[c] == (if s.conversationOrgs[c] == Some(id) then None else s.conversationOrgs[c])
    ensures id !in s.orgs ==> r == s
  {
    if id !in s.orgs then
      assert s.members == map k | k in s.members && k.organizationID != id :: s.members[k];
      assert s.conversationOrgs == map c | c in s.conversationOrgs :: s.conversationOrgs[c];
      assert Filter(s.domains, (d: DomainRow) => d.organizationID != id) == s.domains by {
        FilterKeepsAll(s.domains, (d: DomainRow) => d.organizationID != id);
      }
      s
    else
      s.(
        orgs := s.orgs - {id},
        members := map k | k in s.members && k.organizationID != id :: s.members[k],
        domains := Filter(s.domains, (d: DomainRow) => d.organizationID != id),
        conversationOrgs := map c | c in s.conversationOrgs ::
          if s.conversationOrgs[c] == Some(id) then None else s.conversationOrgs[c])
  }

  /** Filtering with a test every row passes keeps the rows as they are. */
  lemma {:induction false} FilterKeepsAll<T(!new)>(s: seq<T>, keep: T -> bool)
    requires forall x :: x in s ==> keep(x)
    ensures Filter(s, keep) == s
  {
    if s != [] {
      assert forall x :: x in s[1..] ==> x in s;
      FilterKeepsAll(s[1..], keep);
      assert s == [s[0]] + s[1..];
    }
  }

  /** Deleting a contact deletes their memberships (internal/migrations/v1.2.0.go:32). */
  function DeleteContact(s: Store, contactID: int): (r: Store)
    requires Valid(s)
    ensures Valid(r)
    ensures contactID !in r.contacts && r.contacts == s.contacts - {contactID}
    ensures forall k :: k in r.members <==> k in s.members && k.contactID != contactID
    ensures r.orgs == s.orgs && r.domains == s.domains
  {
    s.(contacts := s.contacts - {contactID},
       members := map k | k in s.members && k.contactID != contactID :: s.members[k])
  }

  /** Once an organisation is deleted, a conversation that was shared with it
      is visible to its owner only, whatever membership the contact asking
      has left. */
  lemma DeletingOrganizationRevokesAccess(s: Store, id: int, conv: Conversation, contactID: int, answer: Option<Membership>)
    requires Valid(s)
    requires conv.id in s.conversationOrgs && s.conversationOrgs[conv.id] == Some(id)
    requires MembershipAnswer(DeleteOrganization(s, id), contactID, answer)
    ensures
      var r := DeleteOrganization(s, id);
      var shown := conv.(organizationID := r.conversationOrgs[conv.id]);
      && shown.organizationID.None?
      && (answer.Some? ==> answer.value.organizationID != id)
      && (ContactCanAccess(shown, contactID, PortalContactOrgID(Ok(answer)).value) <==> contactID == conv.contactID)
  {
    var r := DeleteOrganization(s, id);
    if answer.Some? {
      assert MemberKey(answer.value.organizationID, contactID) in r.members;
    }
  }

  // ---------------------------------------------------------------------------
  // Members

  /** Manager.AddMember (internal/organization/organization.go:168-175): the
      insert fails with GeneralError when the organisation or the contact does
      not exist or the pair is already a member (internal/migrations/v1.2.0.go:31-34). */
  function AddMember(s: Store, orgID: int, contactID: int, share: bool): (r: Step<MemberKey>)
    requires Valid(s)
    ensures Valid(r.store)
    ensures r.result.Ok? <==>
      orgID in s.orgs && contactID in s.contacts && MemberKey(orgID, contactID) !in s.members
    ensures r.result.Err? ==> r.result.kind == GeneralError && r.store == s
    ensures r.result.Ok? ==> r.store == s.(members := s.members[MemberKey(orgID, contactID) := share])
  {
    var k := MemberKey(orgID, contactID);
    if orgID !in s.orgs || contactID !in s.contacts || k in s.members then Step(s, Err(GeneralError))
    else Step(s.(members := s.members[k := share]), Ok(k))
  }

  /** Manager.RemoveMember (internal/organization/organization.go:178-185):
      removing a pair that is not a member is not an error. */
  function RemoveMember(s: Store, orgID: int, contactID: int): (r: Store)
    requires Valid(s)
    ensures Valid(r)
    ensures r.members == s.members - {MemberKey(orgID, contactID)}
    ensures r == s.(members := r.members)
  {
    s.(members := s.members - {MemberKey(orgID, contactID)})
  }

  /** Manager.UpdateMemberShareTicketsByDefault
      (internal/organization/organization.go:188-198): NotFoundError when the
      pair is not a member. */
  function UpdateMemberShare(s: Store, orgID: int, contactID: int, share: bool): (r: Step<bool>)
    requires Valid(s)
    ensures Valid(r.store)
    ensures r.result.Ok? <==> MemberKey(orgID, contactID) in s.members
    ensures r.result.Err? ==> r == Step(s, Err(NotFoundError))
    ensures r.result.Ok? ==>
      r.result.value == share && r.store == s.(members := s.members[MemberKey(orgID, contactID) := share])
  {
    var k := MemberKey(orgID, contactID);
    var q := if k in s.members then Row(share) else NoRows;
    match SingleRow(q)
    case Err(e) => Step(s, Err(e))
    case Ok(v) => Step(s.(members := s.members[k := v]), Ok(v))
  }

  /** A contact may belong to several organisations; only each pair is unique. */
  lemma ContactInSeveralOrganizations(s: Store, a: int, b: int, contactID: int)
    requires Valid(s)
    requires a in s.orgs && b in s.orgs && a != b && contactID in s.contacts
    requires s.members == map[]
    ensures
      var s1 := AddMember(s, a, contactID, false);
      var s2 := AddMember(s1.store, b, contactID, true);
      && s1.result.Ok? && s2.result.Ok?
      && MemberKey(a, contactID) in s2.store.members && MemberKey(b, contactID) in s2.store.members
      && AddMember(s2.store, a, contactID, true).result == Err(GeneralError)
  {
  }

  // ---------------------------------------------------------------------------
  // Domains

  /** Manager.AddDomain (internal/organization/organization.go:220-231): the
      domain is lower-cased and trimmed; an empty result is an InputError
      with no insert; a failed insert (unknown organisation, a pair already
      present, a length outside 2..253) is GeneralError. */
  function AddDomain(s: Store, orgID: int, domain: string): (r: Step<DomainRow>)
    requires Valid(s)
    ensures Valid(r.store)
    ensures Normalize(domain) == "" ==> r == Step(s, Err(InputError))
    ensures r.result.Ok? <==>
      && Normalize(domain) != ""
      && orgID in s.orgs
      && DomainFits(Normalize(domain))
      && DomainRow(orgID, Normalize(domain)) !in s.domains
    ensures r.result.Err? ==> r.store == s
    ensures r.result.Ok? ==>
      r.result.value == DomainRow(orgID, Normalize(domain))
      && r.store == s.(domains := s.domains + [r.result.value])
  {
    var d := Normalize(domain);
    if d == "" then Step(s, Err(InputError))
    else
      var row := DomainRow(orgID, d);
      if orgID !in s.orgs || !DomainFits(d) || row in s.domains then Step(s, Err(GeneralError))
      else
        DomainInsertKeepsValid(s, row);
        Step(s.(domains := s.domains + [row]), Ok(row))
  }

  lemma DomainInsertKeepsValid(s: Store, row: DomainRow)
    requires Valid(s)
    requires row.organizationID in s.orgs && DomainFits(row.domain) && row !in s.domains
    ensures Valid(s.(domains := s.domains + [row]))
  {
    AppendKeepsNoDuplicates(s.domains, row);
  }

  /** Appending a row not yet present keeps the rows free of duplicates. */
  lemma AppendKeepsNoDuplicates<T>(s: seq<T>, x: T)
    requires NoDuplicates(s) && x !in s
    ensures NoDuplicates(s + [x])
    ensures forall y :: y in s + [x] <==> y in s || y == x
  {
    var t := s + [x];
    forall i, j | 0 <= i < j < |t|
      ensures t[i] != t[j]
    {
      if j == |s| {
        assert t[i] == s[i];
      }
    }
  }

  /** Manager.RemoveDomain (internal/organization/organization.go:234-242):
      the same normalisation as AddDomain, so any spelling that normalises to
      the stored domain removes it. */
  function RemoveDomain(s: Store, orgID: int, domain: string): (r: Store)
    requires Valid(s)
    ensures Valid(r)
    ensures forall row :: row in r.domains <==> row in s.domains && row != DomainRow(orgID, Normalize(domain))
    ensures r == s.(domains := r.domains)
  {
    var d := Normalize(domain);
    s.(domains := Filter(s.domains, (row: DomainRow) => row != DomainRow(orgID, d)))
  }

  /** A domain added under one spelling is removed under any spelling that
      differs only in letter case or surrounding whitespace. */
  lemma RemoveDomainUndoesAddDomain(s: Store, orgID: int, added: string, removed: string)
    requires Valid(s)
    requires AddDomain(s, orgID, added).result.Ok?
    requires Normalize(removed) == Normalize(added)
    ensures RemoveDomain(AddDomain(s, orgID, added).store, orgID, removed).domains == s.domains
  {
    var row := DomainRow(orgID, Normalize(added));
    var keep := (r: DomainRow) => r != DomainRow(orgID, Normalize(removed));
    FilterAppendDropped(s.domains, row, keep);
    FilterKeepsAll(s.domains, keep);
  }

  /** Filtering a run of rows plus one dropped row is filtering the run. */
  lemma {:induction false} FilterAppendDropped<T(!new)>(s: seq<T>, x: T, keep: T -> bool)
    requires !keep(x)
    ensures Filter(s + [x], keep) == Filter(s, keep)
  {
    if s == [] {
      assert [] + [x] == [x];
      assert Filter([x], keep) == Filter([x][1..], keep);
    } else {
      assert (s + [x])[0] == s[0];
      assert (s + [x])[1..] == s[1..] + [x];
      FilterAppendDropped(s[1..], x, keep);
    }
  }

  /** Manager.OrganizationIDsByEmailDomain (internal/organization/organization.go:246-263):
      the domain is normalised; an empty one has no organisations; otherwise
      one id per matching row, in row order. */
  function OrganizationIDsByEmailDomain(s: Store, domain: string): (ids: seq<int>)
    ensures Normalize(domain) == "" ==> ids == []
    ensures Normalize(domain) != "" ==> ids == MatchingOrgIDs(s.domains, Normalize(domain))
  {
    var d := Normalize(domain);
    if d == "" then [] else MatchingOrgIDs(s.domains, d)
  }

  /** The organisation of every row registered for `domain`, in row order. */
  function MatchingOrgIDs(rows: seq<DomainRow>, domain: string): (ids: seq<int>)
    ensures |ids| <= |rows|
    ensures forall o :: o in ids <==> DomainRow(o, domain) in rows
    ensures NoDuplicates(rows) ==> NoDuplicates(ids)
  {
    if rows == [] then []
    else
      var rest := MatchingOrgIDs(rows[1..], domain);
      if rows[0].domain == domain then
        assert NoDuplicates(rows) ==> rows[0] !in rows[1..];
        [rows[0].organizationID] + rest
      else rest
  }

  /** One domain may belong to several organisations, and a lookup then
      names every one of them once. */
  lemma SharedDomainNamesEveryOrganization(s: Store, a: int, b: int, domain: string)
    requires Valid(s)
    requires Normalize(domain) != ""
    requires DomainRow(a, Normalize(domain)) in s.domains && DomainRow(b, Normalize(domain)) in s.domains
    ensures a in OrganizationIDsByEmailDomain(s, domain) && b in OrganizationIDsByEmailDomain(s, domain)
    ensures NoDuplicates(OrganizationIDsByEmailDomain(s, domain))
  {
  }

  // ---------------------------------------------------------------------------
  // Auto-membership by e-mail domain

  /** Adds the contact to each listed organisation with share=false, ignoring
      every failure, in order. */
  function AddToEach(s: Store, orgIDs: seq<int>, contactID: int): (r: Store)
    requires Valid(s)
    ensures Valid(r)
    ensures r.orgs == s.orgs && r.contacts == s.contacts && r.domains == s.domains
    ensures r.conversationOrgs == s.conversationOrgs
    ensures forall k :: k in s.members ==> k in r.members && r.members[k] == s.members[k]
    ensures forall k :: k in r.members && k !in s.members ==>
      k.contactID == contactID && k.organizationID in orgIDs && !r.members[k]
    ensures contactID in s.contacts ==>
      forall o :: o in orgIDs && o in s.orgs ==> MemberKey(o, contactID) in r.members
    decreases |orgIDs|
  {
    if orgIDs == [] then s
    else AddToEach(AddMember(s, orgIDs[0], contactID, false).store, orgIDs[1..], contactID)
  }

  /** Manager.AddContactToOrganizationsByEmailDomain
      (internal/organization/organization.go:267-284): the contact joins, with
      share=false, every organisation registered for the domain after the
      last '@' of the normalised address; nothing happens without such a
      domain, and failures are ignored. */
  function AddContactToOrganizationsByEmailDomain(s: Store, contactID: int, email: string): (r: Store)
    requires Valid(s)
    ensures Valid(r)
    ensures EmailDomain(email).None? ==> r == s
    ensures EmailDomain(email).Some? ==>
      r == AddToEach(s, OrganizationIDsByEmailDomain(s, EmailDomain(email).value), contactID)
    ensures r.orgs == s.orgs && r.contacts == s.contacts && r.domains == s.domains
    ensures r.conversationOrgs == s.conversationOrgs
    ensures forall k :: k in s.members ==> k in r.members && r.members[k] == s.members[k]
    ensures forall k :: k in r.members && k !in s.members ==> k.contactID == contactID && !r.members[k]
  {
    match EmailDomain(email)
    case None => s
    case Some(domain) => AddToEach(s, OrganizationIDsByEmailDomain(s, domain), contactID)
  }

  /** What auto-membership promises: an existing contact ends up a member of
      every organisation that registered the address's domain; existing
      memberships keep their share flag; every new membership is the
      contact's, with sharing off, in a matching organisation. */
  lemma AutoMembershipJoinsMatchingOrganizations(s: Store, contactID: int, email: string)
    requires Valid(s)
    requires contactID in s.contacts
    requires EmailDomain(email).Some?
    ensures
      var r := AddContactToOrganizationsByEmailDomain(s, contactID, email);
      var ids := OrganizationIDsByEmailDomain(s, EmailDomain(email).value);
      && (forall o :: o in ids ==> MemberKey(o, contactID) in r.members)
      && (forall k :: k in s.members ==> k in r.members && r.members[k] == s.members[k])
      && (forall k :: k in r.members && k !in s.members ==> k.contactID == contactID && k.organizationID in ids && !r.members[k])
  {
    var ids := OrganizationIDsByEmailDomain(s, EmailDomain(email).value);
    forall o | o in ids
      ensures o in s.orgs
    {
      var d := Normalize(EmailDomain(email).value);
      assert DomainRow(o, d) in s.domains;
    }
  }
}
