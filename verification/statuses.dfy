/** The conversation status catalogue: four default statuses with fixed ids,
    plus custom statuses with ids of their own. */
module Statuses {

  const Open: int := 1
  const Snoozed: int := 2
  const Resolved: int := 3
  const Closed: int := 4

  /** The fixed ids of the default statuses, in schema insert order. */
  const DefaultStatusIDs: seq<int> := [Open, Snoozed, Resolved, Closed]

  datatype Status = Status(id: int, name: string)

  /** A status as the backend presents it: `isDefault` is not stored but
      derived from the id. */
  datatype StatusView = StatusView(id: int, name: string, isDefault: bool)

  predicate IsDefault(id: int) {
    id in DefaultStatusIDs
  }

  /** Decorates a stored status with its derived default flag. */
  function Present(s: Status): (v: StatusView)
    ensures v.id == s.id && v.name == s.name
    ensures v.isDefault <==> 1 <= s.id <= 4
  {
    StatusView(s.id, s.name, IsDefault(s.id))
  }

  /** Default statuses may not be deleted; any other status may. */
  function CanDelete(id: int): (ok: bool)
    ensures ok <==> !(Open <= id <= Closed)
  {
    !IsDefault(id)
  }

  /** Every status, default or custom, may be renamed: only the name changes. */
  function Rename(s: Status, name: string): (t: Status)
    ensures t.id == s.id && t.name == name
    ensures Present(t).isDefault == Present(s).isDefault
  {
    s.(name := name)
  }

  /** The default ids are exactly 1 to 4, one per default status. */
  lemma DefaultIDsAreOneToFour()
    ensures DefaultStatusIDs == [1, 2, 3, 4]
    ensures forall id :: IsDefault(id) <==> 1 <= id <= 4
    ensures Open != Snoozed && Snoozed != Resolved && Resolved != Closed && Open != Closed
  {
  }

  /** The first status in catalogue order whose name is exactly `name`. */
  function FirstNamed(statuses: seq<Status>, name: string): (r: int)
    ensures -1 <= r < |statuses|
    ensures r >= 0 ==> statuses[r].name == name
    ensures forall j :: 0 <= j < |statuses| && (r < 0 || j < r) ==> statuses[j].name != name
  {
    if statuses == [] then -1
    else if statuses[0].name == name then 0
    else
      var k := FirstNamed(statuses[1..], name);
      if k < 0 then -1 else k + 1
  }

  /** The status with id `id`, looked up in the catalogue. */
  function FirstWithID(statuses: seq<Status>, id: int): (r: int)
    ensures -1 <= r < |statuses|
    ensures r >= 0 ==> statuses[r].id == id
    ensures r < 0 ==> forall j :: 0 <= j < |statuses| ==> statuses[j].id != id
  {
    if statuses == [] then -1
    else if statuses[0].id == id then 0
    else
      var k := FirstWithID(statuses[1..], id);
      if k < 0 then -1 else k + 1
  }
}
