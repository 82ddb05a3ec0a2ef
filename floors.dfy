/** The static floor and wing catalog of the client
    (frontend/src/data/floors.js), with its lookups. Only the fields that some
    behaviour reads are kept; descriptions, colours of floors, avatars and tips
    are display text. */
module Catalog {
  import opened Wrappers

  const FLOOR_COUNT := 10

  datatype Floor = Floor(id: int, name: string, character: string, wing: string, difficulty: int)

  const FLOORS: map<int, Floor> := map[
    1 := Floor(1, "LOBBY", "Emma", "Ground Floor", 1),
    2 := Floor(2, "SECURITY DESK", "Marcus", "Ground Floor", 2),
    3 := Floor(3, "SURVEILLANCE", "OSCAR", "Security Wing", 2),
    4 := Floor(4, "ACCESS CONTROL", "NOVA", "Security Wing", 3),
    5 := Floor(5, "IT SUPPORT", "Alex", "Operations Wing", 3),
    6 := Floor(6, "HR DEPARTMENT", "Diana", "Operations Wing", 4),
    7 := Floor(7, "ARCHIVES", "ARIA", "Executive Wing", 4),
    8 := Floor(8, "EXECUTIVE ASSISTANT", "Victoria", "Executive Wing", 4),
    9 := Floor(9, "BOARD ROOM", "The Chairman", "Executive Wing", 5),
    10 := Floor(10, "THE VAULT", "SENTINEL", "The Vault", 5)
  ]

  datatype Wing = Wing(floors: seq<int>, color: string)

  /** `WINGS` as `Object.entries` lists it: in insertion order. */
  const WINGS: seq<(string, Wing)> := [
    ("Ground Floor", Wing([1, 2], "#00ff88")),
    ("Security Wing", Wing([3, 4], "#ff6b35")),
    ("Operations Wing", Wing([5, 6], "#00d4ff")),
    ("Executive Wing", Wing([7, 8, 9], "#ffd700")),
    ("The Vault", Wing([10], "#9d4edd"))
  ]

  /** A wing with its name attached, as `getWingForFloor` returns it. */
  datatype NamedWing = NamedWing(name: string, floors: seq<int>, color: string)

  /** `FLOORS` has exactly the keys 1..10 and each entry carries its own key. */
  lemma FloorsTable()
    ensures forall id :: id in FLOORS <==> 1 <= id <= FLOOR_COUNT
    ensures forall id :: id in FLOORS ==> FLOORS[id].id == id
  {
  }

  /** All wing floor lists, concatenated in order. */
  function AllWingFloors(entries: seq<(string, Wing)>): seq<int> {
    if entries == [] then [] else entries[0].1.floors + AllWingFloors(entries[1..])
  }

  /** The wings are disjoint, contiguous, in order, and together cover 1..10:
      read one after the other, their floors are exactly 1, 2, ..., 10. */
  lemma WingsPartitionFloors()
    ensures AllWingFloors(WINGS) == [1, 2, 3, 4, 5, 6, 7, 8, 9, 10]
  {
    assert WINGS[1..][1..][1..][1..][1..] == [];
  }

  /** `getFloor`: the entry for a known id, null otherwise. */
  function GetFloor(id: int): (r: Option<Floor>)
    ensures r.Some? <==> 1 <= id <= FLOOR_COUNT
    ensures r.Some? ==> r.value.id == id && r.value == FLOORS[id]
  {
    if id in FLOORS then Some(FLOORS[id]) else None
  }

  function LookupWing(entries: seq<(string, Wing)>, name: string): (r: Option<Wing>)
    ensures r.Some? <==> exists i :: 0 <= i < |entries| && entries[i].0 == name
    ensures r.Some? ==> exists i :: 0 <= i < |entries| && entries[i] == (name, r.value)
  {
    if entries == [] then None
    else if entries[0].0 == name then Some(entries[0].1)
    else
      var r := LookupWing(entries[1..], name);
      assert forall i :: 1 <= i < |entries| ==> entries[i] == entries[1..][i - 1];
      r
  }

  /** `getWing`: the wing for a known name, null otherwise. */
  function GetWing(name: string): (r: Option<Wing>)
    ensures r.Some? <==> name in {"Ground Floor", "Security Wing", "Operations Wing", "Executive Wing", "The Vault"}
    ensures r.Some? ==> (name, r.value) in WINGS
  {
    LookupWing(WINGS, name)
  }

  /** The first entry whose floor list contains `floorId`, named. */
  function FindWing(entries: seq<(string, Wing)>, floorId: int): (r: Option<NamedWing>)
    ensures r.Some? <==> exists i :: 0 <= i < |entries| && floorId in entries[i].1.floors
    ensures r.Some? ==> exists i :: (0 <= i < |entries| && floorId in entries[i].1.floors
      && r.value == NamedWing(entries[i].0, entries[i].1.floors, entries[i].1.color)
      && forall j :: 0 <= j < i ==> floorId !in entries[j].1.floors)
  {
    if entries == [] then None
    else if floorId in entries[0].1.floors then
      Some(NamedWing(entries[0].0, entries[0].1.floors, entries[0].1.color))
    else
      var r := FindWing(entries[1..], floorId);
      assert forall i :: 1 <= i < |entries| ==> entries[i] == entries[1..][i - 1];
      r
  }

  /** `getWingForFloor`: the wing containing `floorId` with its name, or null. */
  function GetWingForFloor(floorId: int): (r: Option<NamedWing>)
    ensures r.Some? <==> 1 <= floorId <= FLOOR_COUNT
    ensures r.Some? ==> floorId in r.value.floors
  {
    var r := FindWing(WINGS, floorId);
    assert r.Some? <==> 1 <= floorId <= FLOOR_COUNT by {
      assert forall i :: 0 <= i < |WINGS| ==> (floorId in WINGS[i].1.floors ==> 1 <= floorId <= FLOOR_COUNT);
      if 1 <= floorId <= 2 { assert floorId in WINGS[0].1.floors; }
      else if 3 <= floorId <= 4 { assert floorId in WINGS[1].1.floors; }
      else if 5 <= floorId <= 6 { assert floorId in WINGS[2].1.floors; }
      else if 7 <= floorId <= 9 { assert floorId in WINGS[3].1.floors; }
      else if floorId == 10 { assert floorId in WINGS[4].1.floors; }
    }
    r
  }

  /** Each floor's `wing` field names the wing whose list contains it. */
  lemma FloorWingAgrees(id: int)
    requires id in FLOORS
    ensures GetWingForFloor(id).Some? && GetWingForFloor(id).value.name == FLOORS[id].wing
  {
    var r := GetWingForFloor(id);
    var i :| 0 <= i < |WINGS| && id in WINGS[i].1.floors
      && r.value == NamedWing(WINGS[i].0, WINGS[i].1.floors, WINGS[i].1.color);
    assert i == 0 ==> 1 <= id <= 2;
    assert i == 1 ==> 3 <= id <= 4;
    assert i == 2 ==> 5 <= id <= 6;
    assert i == 3 ==> 7 <= id <= 9;
    assert i == 4 ==> id == 10;
  }

  /** A wing counts as cleared when every one of its floors is completed
      (the test the floor list and the wing progress bar draw from). */
  predicate WingCleared(floors: seq<int>, completedFloors: seq<int>) {
    forall f :: f in floors ==> f in completedFloors
  }
}
