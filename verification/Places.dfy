/** Rows with positions: their displayed order, and the exchange of neighbours in it. */
module Places {
  import opened Wrappers
  import opened Ordering

  /** Row identifiers and their positions. */
  type Places = map<int, int>

  lemma SomeOrNone(rows: set<int>)
    ensures rows == {} || exists id :: id in rows
  {
    if forall id: int :: id !in rows { assert rows == {}; }
  }

  /** The displayed order: by position, then by identifier. */
  predicate Precedes(places: Places, a: int, b: int)
    requires a in places && b in places
  {
    places[a] < places[b] || (places[a] == places[b] && a < b)
  }

  ghost predicate InOrder(places: Places, ids: seq<int>) {
    && (forall i | 0 <= i < |ids| :: ids[i] in places)
    && forall i, j | 0 <= i < j < |ids| :: Precedes(places, ids[i], ids[j])
  }

  /** All the rows, in the displayed order. */
  ghost predicate IsOrder(places: Places, ids: seq<int>) {
    InOrder(places, ids) && Elements(ids) == places.Keys
  }

  predicate Distinct(places: Places) {
    forall a, b | a in places && b in places && a != b :: places[a] != places[b]
  }

  /** A row put in its place among others. */
  function InsertRow(places: Places, id: int, ids: seq<int>): seq<int>
    requires id in places && forall i | 0 <= i < |ids| :: ids[i] in places
  {
    if ids == [] || Precedes(places, id, ids[0]) then [id] + ids else [ids[0]] + InsertRow(places, id, ids[1..])
  }

  lemma {:induction false} InsertedInOrder(places: Places, id: int, ids: seq<int>)
    requires InOrder(places, ids) && id in places && id !in ids
    ensures InOrder(places, InsertRow(places, id, ids)) && Elements(InsertRow(places, id, ids)) == Elements(ids) + {id}
  {
    if ids == [] || Precedes(places, id, ids[0]) {
      var all := [id] + ids;
      assert forall i | 0 < i < |all| :: all[i] == ids[i - 1];
      assert all[0] == id && forall x | x in ids :: x in all;
    } else {
      var rest := InsertRow(places, id, ids[1..]);
      assert ids == [ids[0]] + ids[1..];
      InsertedInOrder(places, id, ids[1..]);
      var all := [ids[0]] + rest;
      forall i | 0 < i < |all| ensures Precedes(places, ids[0], all[i]) {
        assert all[i] in Elements(rest);
        assert all[i] == id || all[i] in ids[1..];
      }
      assert Elements(all) == {ids[0]} + Elements(rest);
      assert Elements(ids) == {ids[0]} + Elements(ids[1..]);
    }
  }

  /** There is one displayed order. */
  lemma {:induction false} OrderIsUnique(places: Places, a: seq<int>, b: seq<int>)
    requires InOrder(places, a) && InOrder(places, b) && Elements(a) == Elements(b)
    ensures a == b
  {
    NonEmpty(a);
    NonEmpty(b);
    if a != [] {
      assert a[0] in Elements(b) && b[0] in Elements(a);
      assert a[0] == b[0];
      forall x ensures x in Elements(a[1..]) <==> x in Elements(b[1..]) {
        assert x in Elements(a[1..]) <==> x in Elements(a) && x != a[0];
        assert x in Elements(b[1..]) <==> x in Elements(b) && x != b[0];
      }
      OrderIsUnique(places, a[1..], b[1..]);
      assert a == [a[0]] + a[1..] && b == [b[0]] + b[1..];
    }
  }

  ghost function OrderOf(places: Places, rows: set<int>): (ids: seq<int>)
    requires rows <= places.Keys
    ensures InOrder(places, ids) && Elements(ids) == rows
  {
    if rows == {} then []
    else
      SomeOrNone(rows);
      var id :| id in rows;
      var rest := OrderOf(places, rows - {id});
      assert id !in rest by { assert id !in Elements(rest); }
      InsertedInOrder(places, id, rest);
      InsertRow(places, id, rest)
  }

  ghost function Order(places: Places): (ids: seq<int>)
    ensures IsOrder(places, ids)
  {
    OrderOf(places, places.Keys)
  }

  // ---------- Neighbours ----------

  /** Strictly on the side of a row that a direction points to. */
  predicate Beyond(places: Places, id: int, direction: int, other: int)
    requires id in places && other in places
  {
    if direction > 0 then places[other] > places[id] else places[other] < places[id]
  }

  /** The nearest row by position on one side; of several at that position, the nearest by identifier. */
  predicate IsNeighbour(places: Places, id: int, direction: int, other: int)
    requires id in places
  {
    && other in places && Beyond(places, id, direction, other)
    && forall x | x in places && Beyond(places, id, direction, x) && x != other ::
         if direction > 0 then Precedes(places, other, x) else Precedes(places, x, other)
  }

  lemma NeighbourIsUnique(places: Places, id: int, direction: int, a: int, b: int)
    requires id in places && IsNeighbour(places, id, direction, a) && IsNeighbour(places, id, direction, b)
    ensures a == b
  {
  }

  ghost predicate NoneBeyond(places: Places, id: int, direction: int)
    requires id in places
  {
    forall x | x in places :: !Beyond(places, id, direction, x)
  }

  method FindNeighbour(places: Places, id: int, direction: int) returns (found: Option<int>)
    requires id in places
    ensures found.None? ==> NoneBeyond(places, id, direction)
    ensures found.Some? ==> IsNeighbour(places, id, direction, found.value)
  {
    found := None;
    var rest := places.Keys;
    while rest != {}
      invariant rest <= places.Keys
      invariant found.None? ==> forall x | x in places.Keys - rest :: !Beyond(places, id, direction, x)
      invariant found.Some? ==> found.value in places && Beyond(places, id, direction, found.value)
      invariant found.Some? ==>
        forall x | x in places.Keys - rest && Beyond(places, id, direction, x) && x != found.value ::
          if direction > 0 then Precedes(places, found.value, x) else Precedes(places, x, found.value)
      decreases rest
    {
      SomeOrNone(rest);
      var x :| x in rest;
      if Beyond(places, id, direction, x)
         && (found.None? || if direction > 0 then Precedes(places, x, found.value) else Precedes(places, found.value, x)) {
        found := Some(x);
      }
      rest := rest - {x};
    }
  }

  /** Two rows exchange their positions. */
  function Exchanged(places: Places, a: int, b: int): Places
    requires a in places && b in places
  {
    places[a := places[b]][b := places[a]]
  }

  /** A move by one place; nothing when there is no such row, no such direction, or no row on that side. */
  ghost function Moved(places: Places, id: int, direction: int): Option<Places> {
    if (direction != -1 && direction != 1) || id !in places || NoneBeyond(places, id, direction) then None
    else if exists other :: IsNeighbour(places, id, direction, other) then
      var other :| IsNeighbour(places, id, direction, other);
      Some(Exchanged(places, id, other))
    else None
  }

  method Move(places: Places, id: int, direction: int) returns (moved: Option<Places>)
    ensures moved == Moved(places, id, direction)
  {
    if direction != -1 && direction != 1 {
      return None;
    }
    if id !in places {
      return None;
    }
    var other := FindNeighbour(places, id, direction);
    if other.None? {
      return None;
    }
    assert Beyond(places, id, direction, other.value);
    forall x | x in places && IsNeighbour(places, id, direction, x) ensures x == other.value {
      NeighbourIsUnique(places, id, direction, x, other.value);
    }
    return Some(Exchanged(places, id, other.value));
  }

  // ---------- What a move does to the displayed order ----------

  lemma ExchangeKeepsDistinct(places: Places, a: int, b: int)
    requires Distinct(places) && a in places && b in places
    ensures Distinct(Exchanged(places, a, b)) && Exchanged(places, a, b).Keys == places.Keys
  {
  }

  lemma ExchangeTwice(places: Places, a: int, b: int)
    requires a in places && b in places
    ensures Exchanged(Exchanged(places, a, b), a, b) == places == Exchanged(Exchanged(places, a, b), b, a)
  {
  }

  /** The row next to another one in the order is its neighbour. */
  lemma NextIsNeighbour(places: Places, ids: seq<int>, k: nat)
    requires Distinct(places) && IsOrder(places, ids) && k + 1 < |ids|
    ensures IsNeighbour(places, ids[k], 1, ids[k + 1]) && IsNeighbour(places, ids[k + 1], -1, ids[k])
  {
    forall x | x in places && x != ids[k] && x != ids[k + 1]
      ensures Beyond(places, ids[k], 1, x) ==> Precedes(places, ids[k + 1], x)
      ensures Beyond(places, ids[k + 1], -1, x) ==> Precedes(places, x, ids[k])
    {
      assert x in Elements(ids);
      var i :| 0 <= i < |ids| && ids[i] == x;
      assert i < k ==> Precedes(places, x, ids[k]);
      assert i > k + 1 ==> Precedes(places, ids[k + 1], x);
    }
    assert Precedes(places, ids[k], ids[k + 1]);
  }

  function SwappedAt(ids: seq<int>, k: nat): seq<int>
    requires k + 1 < |ids|
  {
    ids[k := ids[k + 1]][k + 1 := ids[k]]
  }

  lemma ExchangeSwaps(places: Places, ids: seq<int>, k: nat)
    requires Distinct(places) && IsOrder(places, ids) && k + 1 < |ids|
    ensures IsOrder(Exchanged(places, ids[k], ids[k + 1]), SwappedAt(ids, k))
  {
    var after, swapped := Exchanged(places, ids[k], ids[k + 1]), SwappedAt(ids, k);
    assert Precedes(places, ids[k], ids[k + 1]);
    forall i, j | 0 <= i < j < |ids| ensures Precedes(after, swapped[i], swapped[j]) {
      assert Precedes(places, ids[i], ids[j]);
      assert j > k + 1 ==> Precedes(places, ids[k + 1], ids[j]) && Precedes(places, ids[k], ids[j]);
      assert i < k ==> Precedes(places, ids[i], ids[k]) && Precedes(places, ids[i], ids[k + 1]);
    }
    assert Elements(swapped) == Elements(ids) by {
      forall x | x in ids ensures x in swapped {
        var i :| 0 <= i < |ids| && ids[i] == x;
        assert swapped[if i == k then k + 1 else if i == k + 1 then k else i] == x;
      }
    }
  }

  predicate CanMove(count: nat, k: nat, direction: int) {
    (direction == 1 && k + 1 < count) || (direction == -1 && 0 < k < count)
  }

  lemma MoveDown(places: Places, ids: seq<int>, k: nat)
    requires Distinct(places) && IsOrder(places, ids) && k + 1 < |ids|
    ensures Moved(places, ids[k], 1) == Some(Exchanged(places, ids[k], ids[k + 1]))
  {
    NextIsNeighbour(places, ids, k);
    MovedIs(places, ids[k], 1, ids[k + 1]);
  }

  lemma MoveUp(places: Places, ids: seq<int>, k: nat)
    requires Distinct(places) && IsOrder(places, ids) && k + 1 < |ids|
    ensures Moved(places, ids[k + 1], -1) == Some(Exchanged(places, ids[k], ids[k + 1]))
  {
    NextIsNeighbour(places, ids, k);
    MovedIs(places, ids[k + 1], -1, ids[k]);
    assert Exchanged(places, ids[k], ids[k + 1]) == Exchanged(places, ids[k + 1], ids[k]);
  }

  lemma MoveSwaps(places: Places, ids: seq<int>, k: nat, direction: int)
    requires Distinct(places) && IsOrder(places, ids) && k < |ids| && CanMove(|ids|, k, direction)
    ensures var moved := Moved(places, ids[k], direction);
            && moved.Some? && Distinct(moved.value) && moved.value.Keys == places.Keys
            && IsOrder(moved.value, SwappedAt(ids, if direction == 1 then k else k - 1))
  {
    var first := if direction == 1 then k else k - 1;
    if direction == 1 { MoveDown(places, ids, k); } else { MoveUp(places, ids, k - 1); }
    ExchangeKeepsDistinct(places, ids[first], ids[first + 1]);
    ExchangeSwaps(places, ids, first);
  }

  /** With distinct positions a row moves up unless it is first and down unless it is last, and a move
      swaps it with the next row on that side: the displayed order changes by one adjacent swap. */
  lemma MoveIsAdjacentSwap(places: Places, k: nat, direction: int)
    requires Distinct(places) && k < |Order(places)|
    ensures var ids := Order(places); var moved := Moved(places, ids[k], direction);
            && (moved.Some? <==> CanMove(|ids|, k, direction))
            && (moved.Some? ==> Order(moved.value) == SwappedAt(ids, if direction == 1 then k else k - 1))
  {
    var ids := Order(places);
    if CanMove(|ids|, k, direction) {
      MoveSwaps(places, ids, k, direction);
      var after := Moved(places, ids[k], direction).value;
      OrderIsUnique(after, Order(after), SwappedAt(ids, if direction == 1 then k else k - 1));
    } else if direction == 1 || direction == -1 {
      EndHasNoneBeyond(places, ids, k, direction);
    }
  }

  lemma EndHasNoneBeyond(places: Places, ids: seq<int>, k: nat, direction: int)
    requires IsOrder(places, ids) && k < |ids| && (if direction > 0 then k + 1 == |ids| else k == 0)
    ensures NoneBeyond(places, ids[k], direction)
  {
    forall x | x in places ensures !Beyond(places, ids[k], direction, x) {
      assert x in Elements(ids);
      var i :| 0 <= i < |ids| && ids[i] == x;
      assert i < k ==> Precedes(places, ids[i], ids[k]);
      assert i > k ==> Precedes(places, ids[k], ids[i]);
    }
  }

  lemma MovedIs(places: Places, id: int, direction: int, other: int)
    requires id in places && IsNeighbour(places, id, direction, other) && (direction == 1 || direction == -1)
    ensures Moved(places, id, direction) == Some(Exchanged(places, id, other))
  {
    forall x | IsNeighbour(places, id, direction, x) ensures x == other { NeighbourIsUnique(places, id, direction, x, other); }
    assert !NoneBeyond(places, id, direction) by { assert Beyond(places, id, direction, other); }
  }

  /** With distinct positions a move is undone by the opposite move. */
  lemma MoveBack(places: Places, id: int, direction: int)
    requires Distinct(places) && Moved(places, id, direction).Some?
    ensures Moved(Moved(places, id, direction).value, id, -direction) == Some(places)
  {
    var other :| IsNeighbour(places, id, direction, other);
    MovedIs(places, id, direction, other);
    var after := Exchanged(places, id, other);
    ExchangeKeepsDistinct(places, id, other);
    assert IsNeighbour(after, id, -direction, other) by {
      forall x | x in after && Beyond(after, id, -direction, x) && x != other
        ensures if -direction > 0 then Precedes(after, other, x) else Precedes(after, x, other)
      {
        assert x != id && x in places && after[x] == places[x];
      }
    }
    MovedIs(after, id, -direction, other);
    ExchangeTwice(places, id, other);
  }
}
