/** Which conversation lists an agent may query: the saved-view gate, the
    permission-to-list resolution, page arithmetic, and the "previous
    conversations" filter shown beside a conversation. */
module Lists {
  import opened Envelope
  import opened Conversations

  const PermReadAll: string := "conversations:read_all"
  const PermReadUnassigned: string := "conversations:read_unassigned"
  const PermReadAssigned: string := "conversations:read_assigned"
  const PermReadTeamInbox: string := "conversations:read_team_inbox"
  const PermReadTeamAll: string := "conversations:read_team_all"

  /** The list names the conversation store turns into SQL predicates. */
  datatype ListName =
    | AllConversations
    | UnassignedConversations
    | AssignedConversations
    | TeamUnassignedConversations
    | TeamAllConversations

  // ---------------------------------------------------------------------------
  // Permission resolution

  /** What one permission (other than read_all) adds to the lists. The team
      inbox list is skipped when the agent also holds read_team_all, whose list
      is a superset of it. */
  function Contribution(p: string, hasTeamAll: bool): seq<ListName> {
    if p == PermReadUnassigned then [UnassignedConversations]
    else if p == PermReadAssigned then [AssignedConversations]
    else if p == PermReadTeamInbox && !hasTeamAll then [TeamUnassignedConversations]
    else if p == PermReadTeamAll then [TeamAllConversations]
    else []
  }

  /** The contributions of `perms`, concatenated in permission order and not
      deduplicated. */
  function Contributions(perms: seq<string>, hasTeamAll: bool): seq<ListName> {
    if perms == [] then []
    else Contribution(perms[0], hasTeamAll) + Contributions(perms[1..], hasTeamAll)
  }

  /** The reference definition of the lists an agent may query: read_all alone
      when it is held anywhere, otherwise the contributions in order. */
  function AllowedLists(perms: seq<string>): seq<ListName> {
    if PermReadAll in perms then [AllConversations]
    else Contributions(perms, PermReadTeamAll in perms)
  }

  lemma {:induction false} ContributionsAppend(a: seq<string>, b: seq<string>, h: bool)
    ensures Contributions(a + b, h) == Contributions(a, h) + Contributions(b, h)
  {
    if a == [] {
      assert a + b == b;
    } else {
      assert (a + b)[1..] == a[1..] + b;
      ContributionsAppend(a[1..], b, h);
    }
  }

  /** The permission loop of handleGetViewConversations
      (cmd/conversation.go:219-240), statement by statement: read_all replaces
      whatever was collected and stops the loop. */
  method ResolveLists(perms: seq<string>) returns (lists: seq<ListName>)
    ensures PermReadAll in perms ==> lists == [AllConversations]
    ensures PermReadAll !in perms ==> lists == Contributions(perms, PermReadTeamAll in perms)
    ensures lists == AllowedLists(perms)
  {
    lists := [];
    var hasTeamAll := PermReadTeamAll in perms;
    var i := 0;
    while i < |perms|
      invariant 0 <= i <= |perms|
      invariant PermReadAll !in perms[..i]
      invariant lists == Contributions(perms[..i], hasTeamAll)
    {
      if perms[i] == PermReadAll {
        lists := [AllConversations];
        return;
      }
      ContributionsAppend(perms[..i], [perms[i]], hasTeamAll);
      assert perms[..i + 1] == perms[..i] + [perms[i]];
      lists := lists + Contribution(perms[i], hasTeamAll);
      i := i + 1;
    }
    assert perms[..i] == perms;
  }

  /** Which list each permission brings, whatever else the agent holds: the
      team inbox list exactly when read_team_inbox is held without
      read_team_all, and never the all-conversations list. */
  lemma {:induction false} ContributionsMembers(perms: seq<string>, h: bool)
    ensures UnassignedConversations in Contributions(perms, h) <==> PermReadUnassigned in perms
    ensures AssignedConversations in Contributions(perms, h) <==> PermReadAssigned in perms
    ensures TeamUnassignedConversations in Contributions(perms, h) <==> PermReadTeamInbox in perms && !h
    ensures TeamAllConversations in Contributions(perms, h) <==> PermReadTeamAll in perms
    ensures AllConversations !in Contributions(perms, h)
  {
    if perms != [] {
      ContributionsMembers(perms[1..], h);
      assert perms == [perms[0]] + perms[1..];
      assert forall p :: p in perms <==> p == perms[0] || p in perms[1..];
    }
  }

  /** read_all anywhere in the list yields exactly the all-conversations list. */
  lemma ReadAllWins(perms: seq<string>)
    requires PermReadAll in perms
    ensures AllowedLists(perms) == [AllConversations]
  {
  }

  /** Holding read_team_all removes the team inbox list and brings the team
      list, whatever else is held (read_all aside). */
  lemma TeamAllSupersedesTeamInbox(perms: seq<string>)
    requires PermReadAll !in perms
    requires PermReadTeamAll in perms
    ensures TeamAllConversations in AllowedLists(perms)
    ensures TeamUnassignedConversations !in AllowedLists(perms)
  {
    ContributionsMembers(perms, true);
  }

  /** The resolved lists are empty exactly when none of the five read
      permissions is held. */
  lemma NoListsIffNoReadPermission(perms: seq<string>)
    ensures AllowedLists(perms) == [] <==>
      (PermReadAll !in perms && PermReadUnassigned !in perms && PermReadAssigned !in perms
       && PermReadTeamInbox !in perms && PermReadTeamAll !in perms)
  {
    var h := PermReadTeamAll in perms;
    ContributionsMembers(perms, h);
    if AllowedLists(perms) != [] && PermReadAll !in perms {
      var x := AllowedLists(perms)[0];
      assert x in Contributions(perms, h);
      match x
      case UnassignedConversations => assert PermReadUnassigned in perms;
      case AssignedConversations => assert PermReadAssigned in perms;
      case TeamUnassignedConversations => assert PermReadTeamInbox in perms;
      case TeamAllConversations => assert PermReadTeamAll in perms;
    }
  }

  /** Entries are not deduplicated: a permission held twice brings its list
      twice. */
  lemma {:induction false} RepeatedPermissionRepeatsList(perms: seq<string>, h: bool)
    ensures Contributions(perms + perms, h) == Contributions(perms, h) + Contributions(perms, h)
  {
    ContributionsAppend(perms, perms, h);
  }

  // ---------------------------------------------------------------------------
  // Saved views

  datatype Visibility = VisibleToUser | VisibleToAll | VisibleToTeam | OtherVisibility(raw: string)

  datatype View = View(id: int, visibility: Visibility, userID: Option<int>, teamID: Option<int>, filters: string)

  /** Whether an agent may run a saved view (cmd/conversation.go:202-212). */
  function CanUseView(view: View, agentID: int, teams: seq<int>): (ok: bool)
    ensures view.visibility == VisibleToAll ==> ok
    ensures view.visibility == VisibleToUser ==> (ok <==> view.userID == Some(agentID))
    ensures view.visibility == VisibleToTeam ==> (ok <==> view.teamID.Some? && view.teamID.value in teams)
    ensures view.visibility.OtherVisibility? ==> !ok
  {
    match view.visibility
    case VisibleToUser => view.userID.Some? && view.userID.value == agentID
    case VisibleToAll => true
    case VisibleToTeam => view.teamID.Some? && view.teamID.value in teams
    case OtherVisibility(_) => false
  }

  /** The list query a handler hands to the conversation store. */
  datatype ListQuery = ListQuery(
    agentID: int, teams: seq<int>, lists: seq<ListName>, filters: string, page: int, pageSize: int)

  /** handleGetViewConversations (cmd/conversation.go:187-247): the id check,
      the view and agent lookups, the visibility gate, then list resolution;
      only a request that passes all of them reaches the store. */
  function GetViewConversations(
    viewID: int, view: Result<View>, agent: Result<Agent>, page: int, pageSize: int): (r: Result<ListQuery>)
    ensures viewID < 1 ==> r == Err(InputError)
    ensures viewID >= 1 && view.Err? ==> r == Err(view.kind)
    ensures viewID >= 1 && view.Ok? && agent.Err? ==> r == Err(agent.kind)
    ensures viewID >= 1 && view.Ok? && agent.Ok? && !CanUseView(view.value, agent.value.id, agent.value.teams)
      ==> r == Err(PermissionError)
    ensures r.Ok? <==>
      && viewID >= 1 && view.Ok? && agent.Ok?
      && CanUseView(view.value, agent.value.id, agent.value.teams)
      && AllowedLists(agent.value.permissions) != []
    ensures r.Ok? ==>
      && r.value.lists == AllowedLists(agent.value.permissions)
      && r.value.filters == view.value.filters
      && r.value.agentID == agent.value.id
      && r.value.teams == agent.value.teams
  {
    if viewID < 1 then Err(InputError)
    else
      var v :- view;
      var a :- agent;
      if !CanUseView(v, a.id, a.teams) then Err(PermissionError)
      else
        var lists := AllowedLists(a.permissions);
        if |lists| == 0 then Err(PermissionError)
        else Ok(ListQuery(a.id, a.teams, lists, v.filters, page, pageSize))
  }

  /** A view the agent may not use is refused even for an agent holding
      read_all: the view gate runs before the permissions are looked at. */
  lemma ViewGateBeforeLists(viewID: int, v: View, a: Agent, page: int, pageSize: int)
    requires viewID >= 1
    requires !CanUseView(v, a.id, a.teams)
    ensures GetViewConversations(viewID, Ok(v), Ok(a), page, pageSize) == Err(PermissionError)
  {
  }

  // ---------------------------------------------------------------------------
  // Page arithmetic

  /** Go's integer division, which truncates toward zero. */
  function GoDiv(a: int, b: int): int
    requires b != 0
  {
    var q := (if a < 0 then -a else a) / (if b < 0 then -b else b);
    if (a < 0) == (b < 0) then q else -q
  }

  /** `(total + pageSize - 1) / pageSize` (cmd/conversation.go:85): for a
      non-negative total and a positive page size it is the number of pages
      needed to hold `total` rows. */
  function TotalPages(total: int, pageSize: int): (n: int)
    requires pageSize != 0
    ensures total >= 0 && pageSize > 0 ==> n >= 0 && (n - 1) * pageSize < total <= n * pageSize
  {
    var n := GoDiv(total + pageSize - 1, pageSize);
    CeilingDivision(total, pageSize, n);
    n
  }

  lemma CeilingDivision(total: int, pageSize: int, n: int)
    requires pageSize != 0
    requires n == GoDiv(total + pageSize - 1, pageSize)
    ensures total >= 0 && pageSize > 0 ==> n >= 0 && (n - 1) * pageSize < total <= n * pageSize
  {
    if total >= 0 && pageSize > 0 {
      CeilingOfPositive(total, pageSize, n);
    }
  }

  lemma CeilingOfPositive(total: int, pageSize: int, n: int)
    requires total >= 0 && pageSize > 0
    requires n == (total + pageSize - 1) / pageSize
    ensures n >= 0 && (n - 1) * pageSize < total <= n * pageSize
  {
    var m := (total + pageSize - 1) % pageSize;
    assert total + pageSize - 1 == n * pageSize + m;
    assert (n - 1) * pageSize == n * pageSize - pageSize;
  }

  // ---------------------------------------------------------------------------
  // Previous conversations

  datatype PreviousConversation = PreviousConversation(uuid: string, subject: string)

  predicate HasUUID(convs: seq<PreviousConversation>, uuid: string) {
    exists i :: 0 <= i < |convs| && convs[i].uuid == uuid
  }

  /** `convs` with its first entry whose uuid is `uuid` removed, or `convs`
      itself when there is none. */
  function RemoveFirst(convs: seq<PreviousConversation>, uuid: string): (r: seq<PreviousConversation>)
    ensures !HasUUID(convs, uuid) ==> r == convs
    ensures forall i :: (0 <= i < |convs| && convs[i].uuid == uuid
      && (forall j :: 0 <= j < i ==> convs[j].uuid != uuid)
      ==> r == convs[..i] + convs[i + 1..])
  {
    if convs == [] then []
    else if convs[0].uuid == uuid then convs[1..]
    else
      var rest := RemoveFirst(convs[1..], uuid);
      assert forall i :: 1 <= i < |convs| ==> convs[i] == convs[1..][i - 1];
      assert !HasUUID(convs, uuid) ==> !HasUUID(convs[1..], uuid);
      FirstMatchShift(convs, uuid);
      [convs[0]] + rest
  }

  lemma FirstMatchShift(convs: seq<PreviousConversation>, uuid: string)
    requires convs != [] && convs[0].uuid != uuid
    ensures forall i :: (0 <= i < |convs| && convs[i].uuid == uuid
      && (forall j :: 0 <= j < i ==> convs[j].uuid != uuid)
      ==> 1 <= i && convs[..i] + convs[i + 1..] == [convs[0]] + (convs[1..][..i - 1] + convs[1..][i..]))
  {
    forall i | 0 <= i < |convs| && convs[i].uuid == uuid && (forall j :: 0 <= j < i ==> convs[j].uuid != uuid)
      ensures 1 <= i && convs[..i] + convs[i + 1..] == [convs[0]] + (convs[1..][..i - 1] + convs[1..][i..])
    {
      assert convs[..i] == [convs[0]] + convs[1..][..i - 1];
      assert convs[i + 1..] == convs[1..][i..];
    }
  }

  /** filterCurrentPreviousConv as written (cmd/conversation.go:789-796): the
      first entry with the current uuid is removed, and when no entry has it
      the result is empty rather than the list itself. */
  function FilterCurrentPreviousConv(convs: seq<PreviousConversation>, uuid: string): (r: seq<PreviousConversation>)
    ensures !HasUUID(convs, uuid) ==> r == []
    ensures forall i :: (0 <= i < |convs| && convs[i].uuid == uuid
      && (forall j :: 0 <= j < i ==> convs[j].uuid != uuid)
      ==> r == convs[..i] + convs[i + 1..])
  {
    if HasUUID(convs, uuid) then RemoveFirst(convs, uuid) else []
  }

  /** The list of previous conversations shown beside a conversation: the
      current one is left out, and every other conversation is kept. */
  function PreviousConversationsWithoutCurrent(convs: seq<PreviousConversation>, uuid: string): (r: seq<PreviousConversation>)
    ensures !HasUUID(convs, uuid) ==> r == convs
    ensures HasUUID(convs, uuid) ==> |r| == |convs| - 1
    ensures forall c :: c in convs && c.uuid != uuid ==> c in r
  {
    var r := RemoveFirst(convs, uuid);
    RemoveFirstKeepsOthers(convs, uuid);
    r
  }

  lemma RemoveFirstKeepsOthers(convs: seq<PreviousConversation>, uuid: string)
    ensures HasUUID(convs, uuid) ==> |RemoveFirst(convs, uuid)| == |convs| - 1
    ensures forall c :: c in convs && c.uuid != uuid ==> c in RemoveFirst(convs, uuid)
  {
    if HasUUID(convs, uuid) {
      var i := FirstIndexOf(convs, uuid);
      SpliceKeepsOthers(convs, i, RemoveFirst(convs, uuid));
    }
  }

  lemma SpliceKeepsOthers(convs: seq<PreviousConversation>, i: int, r: seq<PreviousConversation>)
    requires 0 <= i < |convs|
    requires r == convs[..i] + convs[i + 1..]
    ensures |r| == |convs| - 1
    ensures forall c :: c in convs && c != convs[i] ==> c in r
  {
    forall c | c in convs && c != convs[i] ensures c in r {
      var k :| 0 <= k < |convs| && convs[k] == c;
      if k < i {
        assert r[k] == c;
      } else {
        assert r[k - 1] == c;
      }
    }
  }

  function FirstIndexOf(convs: seq<PreviousConversation>, uuid: string): (i: int)
    requires HasUUID(convs, uuid)
    ensures 0 <= i < |convs| && convs[i].uuid == uuid
    ensures forall j :: 0 <= j < i ==> convs[j].uuid != uuid
  {
    if convs[0].uuid == uuid then 0
    else
      assert HasUUID(convs[1..], uuid) by {
        var k :| 0 <= k < |convs| && convs[k].uuid == uuid;
        assert convs[1..][k - 1].uuid == uuid;
      }
      1 + FirstIndexOf(convs[1..], uuid)
  }

  /** The as-written filter empties the list of a contact whose current
      conversation is not among the fetched previous conversations. */
  lemma FilterEmptiesListWithoutCurrent()
    ensures var convs := [PreviousConversation("b", "older ticket")];
      && FilterCurrentPreviousConv(convs, "a") == []
      && PreviousConversationsWithoutCurrent(convs, "a") == convs
  {
    var convs := [PreviousConversation("b", "older ticket")];
    assert convs[0].uuid != "a";
    assert !HasUUID(convs, "a");
  }
}
