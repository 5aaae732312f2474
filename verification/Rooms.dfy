/** Reordering the rooms of a server by one swap (`moveRoom`, client/src/lib/host.ts). */
module Rooms {
  import opened Common

  datatype Room = Room(id: string, slug: string, position: int)

  datatype Renumbering = Renumbering(id: string, position: int)

  /** How a locale's collation orders slugs: any order that tells distinct ones apart. */
  type Collation = string -> int

  predicate Before(rank: Collation, a: Room, b: Room) {
    a.position < b.position || (a.position == b.position && rank(a.slug) < rank(b.slug))
  }

  // ------------------------------------------------------------------- sorting

  function Insert(rank: Collation, room: Room, sorted: seq<Room>): seq<Room> {
    if sorted == [] || Before(rank, room, sorted[0]) then [room] + sorted
    else [sorted[0]] + Insert(rank, room, sorted[1..])
  }

  /** The rail's order: by position, then by slug. */
  function Rail(rank: Collation, rooms: seq<Room>): seq<Room> {
    if rooms == [] then [] else Insert(rank, rooms[|rooms| - 1], Rail(rank, rooms[..|rooms| - 1]))
  }

  ghost predicate InOrder(rank: Collation, rooms: seq<Room>) {
    forall i, j :: 0 <= i < j < |rooms| ==> Before(rank, rooms[i], rooms[j])
  }

  /** Distinct ids, and slugs the collation tells apart. */
  ghost predicate Apart(rank: Collation, rooms: seq<Room>) {
    forall i, j :: 0 <= i < j < |rooms| ==> rooms[i].id != rooms[j].id && rank(rooms[i].slug) != rank(rooms[j].slug)
  }

  ghost predicate Same(a: seq<Room>, b: seq<Room>) {
    |a| == |b| && forall room :: room in a <==> room in b
  }

  lemma {:induction false} InsertOrders(rank: Collation, room: Room, sorted: seq<Room>)
    requires InOrder(rank, sorted)
    requires forall i :: 0 <= i < |sorted| ==> rank(sorted[i].slug) != rank(room.slug)
    ensures InOrder(rank, Insert(rank, room, sorted))
    ensures |Insert(rank, room, sorted)| == |sorted| + 1
    ensures forall x :: x in Insert(rank, room, sorted) <==> x == room || x in sorted
    decreases |sorted|
  {
    if sorted != [] && !Before(rank, room, sorted[0]) {
      InsertOrders(rank, room, sorted[1..]);
      assert sorted == [sorted[0]] + sorted[1..];
      var rest := Insert(rank, room, sorted[1..]);
      forall j | 0 <= j < |rest| ensures Before(rank, sorted[0], rest[j]) {
        assert rest[j] in rest;
      }
    }
  }

  lemma {:induction false} RailOrders(rank: Collation, rooms: seq<Room>)
    requires Apart(rank, rooms)
    ensures InOrder(rank, Rail(rank, rooms)) && Same(Rail(rank, rooms), rooms)
    decreases |rooms|
  {
    if rooms != [] {
      var n := |rooms| - 1;
      RailOrders(rank, rooms[..n]);
      var before := Rail(rank, rooms[..n]);
      assert rooms == rooms[..n] + [rooms[n]];
      forall i | 0 <= i < |before| ensures rank(before[i].slug) != rank(rooms[n].slug) {
        assert before[i] in rooms[..n];
      }
      InsertOrders(rank, rooms[n], before);
    }
  }

  lemma HeadOnce(rank: Collation, a: seq<Room>)
    requires InOrder(rank, a) && a != []
    ensures a[0] !in a[1..]
  {
    assert forall k :: 0 < k < |a| ==> Before(rank, a[0], a[k]);
  }

  /** Two lists in order with the same rooms are the same list. */
  lemma {:induction false} OrderIsUnique(rank: Collation, a: seq<Room>, b: seq<Room>)
    requires InOrder(rank, a) && InOrder(rank, b) && Same(a, b)
    ensures a == b
    decreases |a|
  {
    if a != [] {
      assert a[0] in b && b[0] in a;
      assert a == [a[0]] + a[1..] && b == [b[0]] + b[1..];
      assert a[0] == b[0];
      HeadOnce(rank, a);
      HeadOnce(rank, b);
      assert forall x :: x in a[1..] <==> x in a && x != a[0];
      assert forall x :: x in b[1..] <==> x in b && x != b[0];
      OrderIsUnique(rank, a[1..], b[1..]);
    }
  }

  // ------------------------------------------------------------------ the move

  function IndexOf(rooms: seq<Room>, id: string): (at: int)
    ensures -1 <= at < |rooms|
    ensures at >= 0 ==> rooms[at].id == id
    ensures at < 0 ==> forall k :: 0 <= k < |rooms| ==> rooms[k].id != id
  {
    if rooms == [] then -1
    else if rooms[0].id == id then 0
    else
      var rest := IndexOf(rooms[1..], id);
      if rest < 0 then -1 else rest + 1
  }

  predicate CanMove(order: seq<Room>, id: string, delta: int) {
    IndexOf(order, id) >= 0 && 0 <= IndexOf(order, id) + delta < |order|
  }

  function Swapped(order: seq<Room>, i: nat, j: nat): seq<Room>
    requires i < |order| && j < |order|
  {
    order[i := order[j]][j := order[i]]
  }

  /** Which of the first `k` rooms don't have their place as their number. */
  function Misnumbered(order: seq<Room>, k: nat): seq<Renumbering>
    requires k <= |order|
  {
    if k == 0 then []
    else
      var before := Misnumbered(order, k - 1);
      if order[k - 1].position != k - 1 then before + [Renumbering(order[k - 1].id, k - 1)] else before
  }

  function Moves(rank: Collation, rooms: seq<Room>, id: string, delta: int): seq<Renumbering> {
    var order := Rail(rank, rooms);
    if !CanMove(order, id, delta) then []
    else
      var from := IndexOf(order, id);
      Misnumbered(Swapped(order, from, from + delta), |order|)
  }

  method MoveRoom(rank: Collation, rooms: seq<Room>, id: string, delta: int) returns (changes: seq<Renumbering>)
    requires delta == -1 || delta == 1
    ensures changes == Moves(rank, rooms, id, delta)
  {
    var order := Rail(rank, rooms);
    var from := IndexOf(order, id);
    var to := from + delta;
    changes := [];
    if from < 0 || to < 0 || to >= |order| {
      return;
    }
    ghost var swapped := Swapped(order, from, to);
    var moved, displaced := order[from], order[to];
    order := order[from := displaced];
    order := order[to := moved];
    for index := 0 to |order|
      invariant order == swapped
      invariant changes == Misnumbered(swapped, index)
    {
      if order[index].position != index {
        changes := changes + [Renumbering(order[index].id, index)];
      }
    }
  }

  // ------------------------------------------------------- what the move is for

  function Lookup(changes: seq<Renumbering>, id: string): Option<int> {
    if changes == [] then None
    else if changes[|changes| - 1].id == id then Some(changes[|changes| - 1].position)
    else Lookup(changes[..|changes| - 1], id)
  }

  /** A room once the answer has been sent to the server. */
  function Patched(changes: seq<Renumbering>, room: Room): Room {
    var number := Lookup(changes, room.id);
    if number.Some? then room.(position := number.value) else room
  }

  function Patch(changes: seq<Renumbering>, rooms: seq<Room>): seq<Room> {
    seq(|rooms|, i requires 0 <= i < |rooms| => Patched(changes, rooms[i]))
  }

  /** `order` numbered by place. */
  function Numbered(order: seq<Room>): seq<Room> {
    seq(|order|, i requires 0 <= i < |order| => order[i].(position := i))
  }

  ghost predicate DistinctIds(rooms: seq<Room>) {
    forall i, j :: 0 <= i < j < |rooms| ==> rooms[i].id != rooms[j].id
  }

  /** Exactly the rooms whose number changes are listed, each with its place. */
  lemma {:induction false} ListsExactly(order: seq<Room>, k: nat, j: nat)
    requires DistinctIds(order) && k <= |order| && j < |order|
    ensures Lookup(Misnumbered(order, k), order[j].id) ==
            if j < k && order[j].position != j then Some(j) else None
    decreases k
  {
    if k > 0 {
      ListsExactly(order, k - 1, j);
      var before := Misnumbered(order, k - 1);
      if order[k - 1].position != k - 1 {
        assert (before + [Renumbering(order[k - 1].id, k - 1)])[..|before|] == before;
      }
    }
  }

  lemma PatchNumbers(order: seq<Room>, j: nat)
    requires DistinctIds(order) && j < |order|
    ensures Patched(Misnumbered(order, |order|), order[j]) == order[j].(position := j)
  {
    ListsExactly(order, |order|, j);
  }

  lemma SwapKeeps(order: seq<Room>, i: nat, j: nat)
    requires DistinctIds(order) && i < |order| && j < |order|
    ensures DistinctIds(Swapped(order, i, j)) && Same(Swapped(order, i, j), order)
  {
    var s := Swapped(order, i, j);
    forall room ensures room in s <==> room in order {
      if room in order {
        var k :| 0 <= k < |order| && order[k] == room;
        assert s[if k == i then j else if k == j then i else k] == room;
      }
    }
  }

  lemma PatchedIn(rooms: seq<Room>, order: seq<Room>, i: nat) returns (k: nat)
    requires Same(order, rooms) && DistinctIds(order) && i < |rooms|
    ensures k < |order| && Patch(Misnumbered(order, |order|), rooms)[i] == Numbered(order)[k]
  {
    assert rooms[i] in order;
    k :| 0 <= k < |order| && order[k] == rooms[i];
    PatchNumbers(order, k);
  }

  lemma NumberedIn(rooms: seq<Room>, order: seq<Room>, k: nat) returns (i: nat)
    requires Same(order, rooms) && DistinctIds(order) && k < |order|
    ensures i < |rooms| && Patch(Misnumbered(order, |order|), rooms)[i] == Numbered(order)[k]
  {
    assert order[k] in rooms;
    i :| 0 <= i < |rooms| && rooms[i] == order[k];
    PatchNumbers(order, k);
  }

  lemma PatchedSame(rooms: seq<Room>, order: seq<Room>)
    requires Same(order, rooms) && DistinctIds(order)
    ensures Same(Patch(Misnumbered(order, |order|), rooms), Numbered(order))
  {
    var patched, target := Patch(Misnumbered(order, |order|), rooms), Numbered(order);
    forall room ensures room in patched <==> room in target {
      if room in patched {
        var i :| 0 <= i < |patched| && patched[i] == room;
        var k := PatchedIn(rooms, order, i);
      }
      if room in target {
        var k :| 0 <= k < |target| && target[k] == room;
        var i := NumberedIn(rooms, order, k);
      }
    }
  }

  lemma PatchedRail(rank: Collation, rooms: seq<Room>, order: seq<Room>)
    requires Apart(rank, rooms) && Same(order, rooms) && DistinctIds(order)
    ensures var changes := Misnumbered(order, |order|); Rail(rank, Patch(changes, rooms)) == Numbered(order)
    ensures Apart(rank, Patch(Misnumbered(order, |order|), rooms))
  {
    var patched, target := Patch(Misnumbered(order, |order|), rooms), Numbered(order);
    RailOrders(rank, patched);
    assert Same(patched, target) by { PatchedSame(rooms, order); }
    OrderIsUnique(rank, Rail(rank, patched), target);
  }

  /** Sending the answer and sorting again gives the old order with the room and its
      neighbour swapped, numbered 0..n-1; without such a room or neighbour nothing
      is sent, and otherwise something is. */
  lemma MoveSwaps(rank: Collation, rooms: seq<Room>, id: string, delta: int)
    requires Apart(rank, rooms) && (delta == -1 || delta == 1)
    ensures var order, changes := Rail(rank, rooms), Moves(rank, rooms, id, delta);
            && (changes == [] <==> !CanMove(order, id, delta))
            && (CanMove(order, id, delta) ==>
                  var from := IndexOf(order, id);
                  var swapped := Swapped(order, from, from + delta);
                  && Rail(rank, Patch(changes, rooms)) == Numbered(swapped)
                  && forall k :: 0 <= k < |swapped| ==>
                       Lookup(changes, swapped[k].id) == if swapped[k].position != k then Some(k) else None)
  {
    var order := Rail(rank, rooms);
    RailOrders(rank, rooms);
    RailDistinct(rank, rooms);
    if CanMove(order, id, delta) {
      var from := IndexOf(order, id);
      var to := from + delta;
      var swapped := Swapped(order, from, to);
      SwapKeeps(order, from, to);
      PatchedRail(rank, rooms, swapped);
      forall k | 0 <= k < |swapped|
        ensures Lookup(Misnumbered(swapped, |swapped|), swapped[k].id) == if swapped[k].position != k then Some(k) else None
      {
        ListsExactly(swapped, |swapped|, k);
      }
      var low, high := if from < to then from else to, if from < to then to else from;
      assert Before(rank, order[low], order[high]);
      assert swapped[low].position != low || swapped[high].position != high;
    }
  }

  lemma RailDistinct(rank: Collation, rooms: seq<Room>)
    requires Apart(rank, rooms)
    ensures DistinctIds(Rail(rank, rooms))
  {
    RailOrders(rank, rooms);
    var order := Rail(rank, rooms);
    forall i, j | 0 <= i < j < |order| ensures order[i].id != order[j].id {
      assert order[i] in rooms && order[j] in rooms && Before(rank, order[i], order[j]);
    }
  }

  function Ids(rooms: seq<Room>): seq<string> { seq(|rooms|, i requires 0 <= i < |rooms| => rooms[i].id) }

  lemma IndexIs(rooms: seq<Room>, k: nat)
    requires DistinctIds(rooms) && k < |rooms|
    ensures IndexOf(rooms, rooms[k].id) == k
  {
  }

  /** After the move, the rail is numbered, and the room can go back. */
  lemma MovedOnce(rank: Collation, rooms: seq<Room>, id: string, delta: int)
    requires Apart(rank, rooms) && (delta == -1 || delta == 1) && CanMove(Rail(rank, rooms), id, delta)
    ensures var order := Rail(rank, rooms);
            var from := IndexOf(order, id);
            var once := Patch(Moves(rank, rooms, id, delta), rooms);
            && Apart(rank, once) && Rail(rank, once) == Numbered(Swapped(order, from, from + delta))
            && IndexOf(Rail(rank, once), id) == from + delta && CanMove(Rail(rank, once), id, -delta)
  {
    var order := Rail(rank, rooms);
    var from := IndexOf(order, id);
    RailOrders(rank, rooms);
    RailDistinct(rank, rooms);
    SwapKeeps(order, from, from + delta);
    PatchedRail(rank, rooms, Swapped(order, from, from + delta));
    IndexIs(Numbered(Swapped(order, from, from + delta)), from + delta);
  }

  lemma SwapsBack(order: seq<Room>, i: nat, j: nat)
    requires i < |order| && j < |order|
    ensures Ids(Numbered(Swapped(Numbered(Swapped(order, i, j)), j, i))) == Ids(order)
  {
  }

  /** Moving the room back restores the order. */
  lemma MovesBack(rank: Collation, rooms: seq<Room>, id: string, delta: int)
    requires Apart(rank, rooms) && (delta == -1 || delta == 1) && CanMove(Rail(rank, rooms), id, delta)
    ensures var once := Patch(Moves(rank, rooms, id, delta), rooms);
            var back := Patch(Moves(rank, once, id, -delta), once);
            Ids(Rail(rank, back)) == Ids(Rail(rank, rooms))
  {
    var from := IndexOf(Rail(rank, rooms), id);
    MovedOnce(rank, rooms, id, delta);
    MovedOnce(rank, Patch(Moves(rank, rooms, id, delta), rooms), id, -delta);
    SwapsBack(Rail(rank, rooms), from, from + delta);
  }
}
