/** Writing the rows of a difference: the recursion over a shared builder. */
module DifferenceReport {
  import opened Wrappers
  import opened Ordering
  import opened Differences
  import opened DifferenceRows
  import opened DifferenceLaws

  /** Files every item of a list, in one pass. */
  method IndexItems(indexer: Indexer, items: seq<Value>) returns (result: Option<map<string, Value>>)
    ensures result == Index(indexer, items, map[])
  {
    var filed: map<string, Value> := map[];
    for i := 0 to |items|
      invariant Index(indexer, items, map[]) == Index(indexer, items[i..], filed)
    {
      assert items[i..][0] == items[i] && items[i..][1..] == items[i + 1..];
      var entry := indexer(items[i], filed.Keys);
      if entry.None? {
        return None;
      }
      filed := filed[entry.value.0 := entry.value.1];
    }
    assert items[|items|..] == [];
    return Some(filed);
  }

  /** The keys of both sides, sorted. */
  method CollectKeys(left: map<string, Value>, right: map<string, Value>) returns (keys: seq<string>)
    ensures keys == KeysOf(left, right)
  {
    keys := [];
    var rest := left.Keys + right.Keys;
    while rest != {}
      invariant rest <= left.Keys + right.Keys && Sorted(keys) && Elements(keys) == left.Keys + right.Keys - rest
      decreases rest
    {
      var key :| key in rest;
      keys := Insert(key, keys);
      assert left.Keys + right.Keys - (rest - {key}) == left.Keys + right.Keys - rest + {key};
      rest := rest - {key};
    }
    SortedIsUnique(keys, Listing(left.Keys + right.Keys));
  }

  /** Tries one way of pairing after the other. */
  method PairItems(lib: Library, source: seq<Value>, target: seq<Value>) returns (pairing: Option<Pairing>)
    ensures AreKinds(Kinds()) && pairing == Paired(lib, Kinds(), source, target)
  {
    var kinds := Kinds();
    AllKindsAreKinds();
    for i := 0 to |kinds|
      invariant Paired(lib, kinds, source, target) == Paired(lib, kinds[i..], source, target)
    {
      assert kinds[i..][0] == kinds[i] && kinds[i..][1..] == kinds[i + 1..];
      var left := IndexItems(IndexerOf(lib, kinds[i]), source);
      var right := IndexItems(IndexerOf(lib, kinds[i]), target);
      if left.Some? && right.Some? && (kinds[i] == IsScalar || |left.value| + |right.value| > 0) {
        return Some(Pairing(kinds[i], left.value, right.value));
      }
    }
    return None;
  }

  lemma Appended(rows: seq<Row>, a: seq<Row>, b: seq<Row>)
    ensures rows + (a + b) == rows + a + b
  {
  }

  class Report {
    const lib: Library
    var rows: seq<Row>

    constructor (lib: Library)
      ensures this.lib == lib && rows == []
    {
      this.lib, rows := lib, [];
    }

    method Render(path: seq<Step>, source: Value, target: Value)
      modifies this
      ensures rows == old(rows) + Rows(lib, path, source, target)
      decreases Bound(source, target), 2
    {
      ghost var bound := Bound(source, target);
      RowsByCase(lib, path, source, target, bound);
      if source == target {
        return;
      }
      if source.Object? || target.Object? {
        RenderObjects(path, source, target, bound);
      } else if source.List? || target.List? {
        RenderLists(path, source, target, bound);
      } else {
        rows := rows + [Row(path, source, target)];
      }
    }

    method RenderObjects(path: seq<Step>, source: Value, target: Value, ghost bound: nat)
      requires bound == Bound(source, target) && (source.Object? || target.Object?)
      modifies this
      ensures rows == old(rows) + ObjectRows(lib, path, source, target, bound)
      decreases bound, 1
    {
      FieldsAreUnder(source, target);
      var keys := CollectKeys(FieldsOf(source), FieldsOf(target));
      if |keys| == 0 {
        rows := rows + [Row(path, source, target)];
      } else {
        RenderMembers(path, IsField, keys, FieldsOf(source), FieldsOf(target), bound);
      }
    }

    method RenderLists(path: seq<Step>, source: Value, target: Value, ghost bound: nat)
      requires bound == Bound(source, target)
      requires !source.Object? && !target.Object? && (source.List? || target.List?)
      modifies this
      ensures rows == old(rows) + ListRows(lib, path, source, target, bound)
      decreases bound, 1
    {
      PairedIsUnder(lib, source, target);
      ItemsAreUnder(source, target);
      var pairing := PairItems(lib, ItemsOf(source), ItemsOf(target));
      if pairing.Some? {
        var p := pairing.value;
        var keys := CollectKeys(p.left, p.right);
        RenderMembers(path, p.kind, keys, p.left, p.right, bound);
      } else if |ItemsOf(source)| == 0 && |ItemsOf(target)| == 0 {
        rows := rows + [Row(path, source, target)];
      } else {
        RenderElements(path, ItemsOf(source), ItemsOf(target), bound);
      }
    }

    method RenderMembers(
        path: seq<Step>, kind: Kind, keys: seq<string>, left: map<string, Value>, right: map<string, Value>, ghost bound: nat)
      requires Under(left, right, bound)
      modifies this
      ensures rows == old(rows) + MemberRows(lib, path, kind, keys, left, right, bound)
      decreases bound, 0
    {
      ghost var all := MemberRows(lib, path, kind, keys, left, right, bound);
      assert keys[0..] == keys;
      for i := 0 to |keys|
        invariant old(rows) + all == rows + MemberRows(lib, path, kind, keys[i..], left, right, bound)
      {
        assert keys[i..][0] == keys[i] && keys[i..][1..] == keys[i + 1..];
        ghost var before, rest := rows, MemberRows(lib, path, kind, keys[i + 1..], left, right, bound);
        ghost var here := if Skipped(kind, left, right, keys[i]) then []
                          else Rows(lib, path + [Member(kind, keys[i])], At(left, keys[i]), At(right, keys[i]));
        Appended(before, here, rest);
        if !Skipped(kind, left, right, keys[i]) {
          Render(path + [Member(kind, keys[i])], At(left, keys[i]), At(right, keys[i]));
        }
        assert rows == before + here;
      }
      assert keys[|keys|..] == [] && rows + [] == rows;
    }

    method RenderElements(path: seq<Step>, left: seq<Value>, right: seq<Value>, ghost bound: nat)
      requires ItemsUnder(left, right, bound)
      modifies this
      ensures rows == old(rows) + ElementRows(lib, path, 0, left, right, bound)
      decreases bound, 0
    {
      ghost var all := ElementRows(lib, path, 0, left, right, bound);
      for i := 0 to Longer(left, right)
        invariant old(rows) + all == rows + ElementRows(lib, path, i, left, right, bound)
      {
        ghost var before := rows;
        ghost var here := Rows(lib, path + [Element(i)], ItemAt(left, i), ItemAt(right, i));
        Appended(before, here, ElementRows(lib, path, i + 1, left, right, bound));
        Render(path + [Element(i)], ItemAt(left, i), ItemAt(right, i));
      }
      assert rows + [] == rows;
    }
  }
}
