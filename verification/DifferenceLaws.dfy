/** What the rows of a structural difference say, and what they do not. */
module DifferenceLaws {
  import opened Wrappers
  import opened Ordering
  import opened Differences
  import opened DifferenceRows

  /** The case a pair of values falls in. */
  lemma RowsByCase(lib: Library, path: seq<Step>, source: Value, target: Value, bound: nat)
    requires bound == Bound(source, target)
    ensures Rows(lib, path, source, target) ==
            if source == target then []
            else if source.Object? || target.Object? then ObjectRows(lib, path, source, target, bound)
            else if source.List? || target.List? then ListRows(lib, path, source, target, bound)
            else [Row(path, source, target)]
  {
  }

  // ---------- Every row shows a difference ----------

  ghost predicate AllDiffer(rows: seq<Row>) {
    forall i | 0 <= i < |rows| :: rows[i].source != rows[i].target
  }

  lemma {:induction false} RowsDiffer(lib: Library, path: seq<Step>, source: Value, target: Value)
    ensures AllDiffer(Rows(lib, path, source, target))
    decreases Bound(source, target), 2
  {
    var bound := Bound(source, target);
    RowsByCase(lib, path, source, target, bound);
    if source == target {
    } else if source.Object? || target.Object? {
      ObjectRowsDiffer(lib, path, source, target, bound);
    } else if source.List? || target.List? {
      ListRowsDiffer(lib, path, source, target, bound);
    }
  }

  lemma {:induction false} ObjectRowsDiffer(lib: Library, path: seq<Step>, source: Value, target: Value, bound: nat)
    requires bound == Bound(source, target)
    requires source != target && (source.Object? || target.Object?)
    ensures AllDiffer(ObjectRows(lib, path, source, target, bound))
    decreases bound, 1
  {
    FieldsAreUnder(source, target);
    var left, right := FieldsOf(source), FieldsOf(target);
    MemberRowsDiffer(lib, path, IsField, KeysOf(left, right), left, right, bound);
  }

  lemma {:induction false} ListRowsDiffer(lib: Library, path: seq<Step>, source: Value, target: Value, bound: nat)
    requires bound == Bound(source, target)
    requires source != target && !source.Object? && !target.Object? && (source.List? || target.List?)
    ensures AllDiffer(ListRows(lib, path, source, target, bound))
    decreases bound, 1
  {
    PairedIsUnder(lib, source, target);
    ItemsAreUnder(source, target);
    var pairing := PairedItems(lib, source, target);
    if pairing.Some? {
      var p := pairing.value;
      MemberRowsDiffer(lib, path, p.kind, KeysOf(p.left, p.right), p.left, p.right, bound);
    } else {
      ElementRowsDiffer(lib, path, 0, ItemsOf(source), ItemsOf(target), bound);
    }
  }

  lemma {:induction false} MemberRowsDiffer(
      lib: Library, path: seq<Step>, kind: Kind, keys: seq<string>, left: map<string, Value>, right: map<string, Value>, bound: nat)
    requires Under(left, right, bound)
    ensures AllDiffer(MemberRows(lib, path, kind, keys, left, right, bound))
    decreases bound, 0, |keys|
  {
    if keys != [] {
      RowsDiffer(lib, path + [Member(kind, keys[0])], At(left, keys[0]), At(right, keys[0]));
      MemberRowsDiffer(lib, path, kind, keys[1..], left, right, bound);
    }
  }

  lemma {:induction false} ElementRowsDiffer(lib: Library, path: seq<Step>, i: nat, left: seq<Value>, right: seq<Value>, bound: nat)
    requires ItemsUnder(left, right, bound) && i <= Longer(left, right)
    ensures AllDiffer(ElementRows(lib, path, i, left, right, bound))
    decreases bound, 0, Longer(left, right) - i
  {
    if i < Longer(left, right) {
      RowsDiffer(lib, path + [Element(i)], ItemAt(left, i), ItemAt(right, i));
      ElementRowsDiffer(lib, path, i + 1, left, right, bound);
    }
  }

  // ---------- Swapping source and target ----------

  function Swapped(rows: seq<Row>): seq<Row> {
    if rows == [] then [] else [Row(rows[0].path, rows[0].target, rows[0].source)] + Swapped(rows[1..])
  }

  lemma {:induction false} SwappedAppend(a: seq<Row>, b: seq<Row>)
    ensures Swapped(a + b) == Swapped(a) + Swapped(b)
  {
    if a == [] {
      assert a + b == b;
    } else {
      assert (a + b)[1..] == a[1..] + b;
      SwappedAppend(a[1..], b);
    }
  }

  lemma SwappedOne(row: Row)
    ensures Swapped([row]) == [Row(row.path, row.target, row.source)]
  {
    assert [row][1..] == [];
  }

  function Turned(p: Option<Pairing>): Option<Pairing> {
    if p.None? then None else Some(Pairing(p.value.kind, p.value.right, p.value.left))
  }

  lemma {:induction false} PairedTurns(lib: Library, kinds: seq<Kind>, source: seq<Value>, target: seq<Value>)
    requires AreKinds(kinds)
    ensures Paired(lib, kinds, target, source) == Turned(Paired(lib, kinds, source, target))
  {
    if kinds != [] {
      PairedTurns(lib, kinds[1..], source, target);
    }
  }

  lemma PairedItemsTurn(lib: Library, source: Value, target: Value)
    ensures PairedItems(lib, target, source) == Turned(PairedItems(lib, source, target))
  {
    AllKindsAreKinds();
    PairedTurns(lib, Kinds(), ItemsOf(source), ItemsOf(target));
  }

  lemma KeysOfTurned(left: map<string, Value>, right: map<string, Value>)
    ensures KeysOf(right, left) == KeysOf(left, right)
  {
    assert left.Keys + right.Keys == right.Keys + left.Keys;
  }

  /** Swapping source and target gives the same rows with the two values of each swapped. */
  lemma {:induction false} SwapSymmetry(lib: Library, path: seq<Step>, source: Value, target: Value)
    ensures Rows(lib, path, target, source) == Swapped(Rows(lib, path, source, target))
    decreases Bound(source, target), 2
  {
    var bound := Bound(source, target);
    RowsByCase(lib, path, source, target, bound);
    RowsByCase(lib, path, target, source, bound);
    if source == target {
    } else if source.Object? || target.Object? {
      ObjectsSwap(lib, path, source, target, bound);
    } else if source.List? || target.List? {
      ListsSwap(lib, path, source, target, bound);
    } else {
      SwappedOne(Row(path, source, target));
    }
  }

  lemma {:induction false} ObjectsSwap(lib: Library, path: seq<Step>, source: Value, target: Value, bound: nat)
    requires bound == Bound(source, target)
    requires source.Object? || target.Object?
    ensures ObjectRows(lib, path, target, source, bound) == Swapped(ObjectRows(lib, path, source, target, bound))
    decreases bound, 1
  {
    var left, right := FieldsOf(source), FieldsOf(target);
    FieldsAreUnder(source, target);
    FieldsAreUnder(target, source);
    KeysOfTurned(left, right);
    SwappedOne(Row(path, source, target));
    MembersSwap(lib, path, IsField, KeysOf(left, right), left, right, bound);
  }

  lemma {:induction false} ListsSwap(lib: Library, path: seq<Step>, source: Value, target: Value, bound: nat)
    requires bound == Bound(source, target)
    requires !source.Object? && !target.Object? && (source.List? || target.List?)
    ensures ListRows(lib, path, target, source, bound) == Swapped(ListRows(lib, path, source, target, bound))
    decreases bound, 1
  {
    PairedIsUnder(lib, source, target);
    PairedIsUnder(lib, target, source);
    ItemsAreUnder(source, target);
    ItemsAreUnder(target, source);
    PairedItemsTurn(lib, source, target);
    var pairing := PairedItems(lib, source, target);
    if pairing.Some? {
      var p := pairing.value;
      KeysOfTurned(p.left, p.right);
      MembersSwap(lib, path, p.kind, KeysOf(p.left, p.right), p.left, p.right, bound);
    } else {
      SwappedOne(Row(path, source, target));
      ElementsSwap(lib, path, 0, ItemsOf(source), ItemsOf(target), bound);
    }
  }

  lemma {:induction false} MembersSwap(
      lib: Library, path: seq<Step>, kind: Kind, keys: seq<string>, left: map<string, Value>, right: map<string, Value>, bound: nat)
    requires Under(left, right, bound) && Under(right, left, bound)
    ensures MemberRows(lib, path, kind, keys, right, left, bound) == Swapped(MemberRows(lib, path, kind, keys, left, right, bound))
    decreases bound, 0, |keys|
  {
    if keys != [] {
      var here := path + [Member(kind, keys[0])];
      SwapSymmetry(lib, here, At(left, keys[0]), At(right, keys[0]));
      MembersSwap(lib, path, kind, keys[1..], left, right, bound);
      var first := if Skipped(kind, left, right, keys[0]) then [] else Rows(lib, here, At(left, keys[0]), At(right, keys[0]));
      SwappedAppend(first, MemberRows(lib, path, kind, keys[1..], left, right, bound));
    }
  }

  lemma {:induction false} ElementsSwap(lib: Library, path: seq<Step>, i: nat, left: seq<Value>, right: seq<Value>, bound: nat)
    requires ItemsUnder(left, right, bound) && ItemsUnder(right, left, bound) && i <= Longer(left, right)
    ensures ElementRows(lib, path, i, right, left, bound) == Swapped(ElementRows(lib, path, i, left, right, bound))
    decreases bound, 0, Longer(left, right) - i
  {
    if i < Longer(left, right) {
      var here := path + [Element(i)];
      SwapSymmetry(lib, here, ItemAt(left, i), ItemAt(right, i));
      ElementsSwap(lib, path, i + 1, left, right, bound);
      SwappedAppend(Rows(lib, here, ItemAt(left, i), ItemAt(right, i)), ElementRows(lib, path, i + 1, left, right, bound));
    }
  }

  // ---------- When there is no row ----------

  /** What a key adds to the rows of its members. */
  ghost predicate ShowsNothing(
      lib: Library, path: seq<Step>, kind: Kind, left: map<string, Value>, right: map<string, Value>, k: string)
  {
    Skipped(kind, left, right, k) || Rows(lib, path + [Member(kind, k)], At(left, k), At(right, k)) == []
  }

  lemma {:induction false} NoMemberRows(
      lib: Library, path: seq<Step>, kind: Kind, keys: seq<string>, left: map<string, Value>, right: map<string, Value>, bound: nat)
    requires Under(left, right, bound)
    ensures MemberRows(lib, path, kind, keys, left, right, bound) == [] <==>
            forall i | 0 <= i < |keys| :: ShowsNothing(lib, path, kind, left, right, keys[i])
    decreases |keys|
  {
    if keys != [] {
      NoMemberRows(lib, path, kind, keys[1..], left, right, bound);
      forall i | 0 <= i < |keys| ensures keys[i] == if i == 0 then keys[0] else keys[1..][i - 1] {}
      var rest := keys[1..];
      assert forall i | 0 <= i < |rest| :: rest[i] == keys[i + 1];
    }
  }

  lemma FieldKeys(left: map<string, Value>, right: map<string, Value>)
    ensures KeysOf(left, right) == [] <==> left.Keys + right.Keys == {}
    ensures forall i | 0 <= i < |KeysOf(left, right)| :: KeysOf(left, right)[i] in left.Keys + right.Keys
    ensures forall k | k in left.Keys + right.Keys :: k in KeysOf(left, right)
  {
    var keys := KeysOf(left, right);
    NonEmpty(keys);
    forall i | 0 <= i < |keys| ensures keys[i] in left.Keys + right.Keys { assert keys[i] in Elements(keys); }
    forall k | k in left.Keys + right.Keys ensures k in keys { assert k in Elements(keys); }
  }

  /** Members under the union of both sides' keys have no row exactly when none of them shows anything. */
  lemma NoMemberRowsByKey(
      lib: Library, path: seq<Step>, kind: Kind, left: map<string, Value>, right: map<string, Value>, bound: nat)
    requires Under(left, right, bound)
    ensures MemberRows(lib, path, kind, KeysOf(left, right), left, right, bound) == [] <==>
            forall k | k in left.Keys + right.Keys :: ShowsNothing(lib, path, kind, left, right, k)
  {
    NoMemberRows(lib, path, kind, KeysOf(left, right), left, right, bound);
    FieldKeys(left, right);
  }

  predicate HasField(v: Value) {
    v.Object? && v.fields != map[]
  }

  lemma HasFieldKeys(source: Value, target: Value)
    ensures FieldsOf(source).Keys + FieldsOf(target).Keys != {} <==> HasField(source) || HasField(target)
  {
    if HasField(source) { var k :| k in source.fields; }
    if HasField(target) { var k :| k in target.fields; }
  }

  /** Two objects, or an object and anything else, have no row exactly when no member of either has one. */
  lemma NoObjectRows(lib: Library, path: seq<Step>, source: Value, target: Value)
    requires HasField(source) || HasField(target)
    ensures Rows(lib, path, source, target) == [] <==>
            forall k :: Rows(lib, path + [Member(IsField, k)], At(FieldsOf(source), k), At(FieldsOf(target), k)) == []
  {
    var bound := Bound(source, target);
    var left, right := FieldsOf(source), FieldsOf(target);
    forall k | k !in left.Keys + right.Keys || source == target
      ensures Rows(lib, path + [Member(IsField, k)], At(left, k), At(right, k)) == []
    {
      RowsByCase(lib, path + [Member(IsField, k)], At(left, k), At(right, k), Bound(At(left, k), At(right, k)));
    }
    RowsByCase(lib, path, source, target, bound);
    if source != target {
      FieldsAreUnder(source, target);
      HasFieldKeys(source, target);
      FieldKeys(left, right);
      NoMemberRowsByKey(lib, path, IsField, left, right, bound);
      forall k | k in left.Keys + right.Keys
        ensures ShowsNothing(lib, path, IsField, left, right, k) <==>
                Rows(lib, path + [Member(IsField, k)], At(left, k), At(right, k)) == [] {}
    }
  }

  /** What a value holds under a path of field names; nothing is read as null. */
  function Down(v: Value, fields: seq<string>): Value
    decreases |fields|
  {
    if fields == [] then v else Down(At(FieldsOf(v), fields[0]), fields[1..])
  }

  function Steps(fields: seq<string>): seq<Step> {
    if fields == [] then [] else [Member(IsField, fields[0])] + Steps(fields[1..])
  }

  /** Where neither side has fields to go on to, no row is shown. */
  ghost predicate NoLeafRow(lib: Library, path: seq<Step>, source: Value, target: Value, fields: seq<string>) {
    !HasField(Down(source, fields)) && !HasField(Down(target, fields)) ==>
      Rows(lib, path + Steps(fields), Down(source, fields), Down(target, fields)) == []
  }

  lemma StepsOn(path: seq<Step>, k: string, fields: seq<string>)
    ensures path + Steps([k] + fields) == path + [Member(IsField, k)] + Steps(fields)
  {
    assert ([k] + fields)[1..] == fields;
  }

  lemma DownOne(v: Value, k: string, fields: seq<string>)
    ensures Down(v, [k] + fields) == Down(At(FieldsOf(v), k), fields)
  {
    assert ([k] + fields)[1..] == fields;
  }

  lemma {:induction false} DownNothing(v: Value, fields: seq<string>)
    requires !HasField(v) && fields != []
    ensures Down(v, fields) == Null
    decreases |fields|
  {
    if |fields| > 1 { DownNothing(Null, fields[1..]); }
  }

  lemma EqualHasNoRow(lib: Library, path: seq<Step>, v: Value)
    ensures Rows(lib, path, v, v) == []
  {
    RowsByCase(lib, path, v, v, Bound(v, v));
  }

  lemma {:induction false} LeavesHaveNoRow(lib: Library, path: seq<Step>, source: Value, target: Value, fields: seq<string>)
    requires Rows(lib, path, source, target) == []
    ensures NoLeafRow(lib, path, source, target, fields)
    decreases |fields|
  {
    if fields == [] {
      assert path + [] == path;
    } else if HasField(source) || HasField(target) {
      NoObjectRows(lib, path, source, target);
      var k, rest := fields[0], fields[1..];
      assert fields == [k] + rest;
      StepsOn(path, k, rest);
      LeavesHaveNoRow(lib, path + [Member(IsField, k)], At(FieldsOf(source), k), At(FieldsOf(target), k), rest);
    } else {
      DownNothing(source, fields);
      DownNothing(target, fields);
      EqualHasNoRow(lib, path + Steps(fields), Null);
    }
  }

  lemma MemberIsLower(source: Value, target: Value, k: string)
    requires HasField(source) || HasField(target)
    ensures Bound(At(FieldsOf(source), k), At(FieldsOf(target), k)) < Bound(source, target)
  {
    FieldsAreUnder(source, target);
    var left, right := FieldsOf(source), FieldsOf(target);
    assert Height(At(left, k)) + Height(At(right, k)) < Bound(source, target);
  }

  lemma {:induction false} NoLeafRowNoRow(lib: Library, path: seq<Step>, source: Value, target: Value)
    requires forall fields :: NoLeafRow(lib, path, source, target, fields)
    ensures Rows(lib, path, source, target) == []
    decreases Bound(source, target)
  {
    if HasField(source) || HasField(target) {
      forall k ensures Rows(lib, path + [Member(IsField, k)], At(FieldsOf(source), k), At(FieldsOf(target), k)) == [] {
        forall fields ensures NoLeafRow(lib, path + [Member(IsField, k)], At(FieldsOf(source), k), At(FieldsOf(target), k), fields) {
          assert NoLeafRow(lib, path, source, target, [k] + fields);
          StepsOn(path, k, fields);
          DownOne(source, k, fields);
          DownOne(target, k, fields);
        }
        MemberIsLower(source, target, k);
        NoLeafRowNoRow(lib, path + [Member(IsField, k)], At(FieldsOf(source), k), At(FieldsOf(target), k));
      }
      NoObjectRows(lib, path, source, target);
    } else {
      assert NoLeafRow(lib, path, source, target, []);
      assert path + [] == path;
    }
  }

  /** There is no row exactly when there is none wherever neither side has fields to go on to. */
  lemma NoRowByLeaves(lib: Library, path: seq<Step>, source: Value, target: Value)
    ensures Rows(lib, path, source, target) == [] <==> forall fields :: NoLeafRow(lib, path, source, target, fields)
  {
    if Rows(lib, path, source, target) == [] {
      forall fields ensures NoLeafRow(lib, path, source, target, fields) { LeavesHaveNoRow(lib, path, source, target, fields); }
    } else if forall fields :: NoLeafRow(lib, path, source, target, fields) {
      NoLeafRowNoRow(lib, path, source, target);
    }
  }

  /** No list anywhere. */
  ghost predicate IsListFree(v: Value) {
    match v
    case List(_) => false
    case Object(fields) => forall k | k in fields :: IsListFree(fields[k])
    case _ => true
  }

  lemma {:induction false} DownIsListFree(v: Value, fields: seq<string>)
    requires IsListFree(v)
    ensures IsListFree(Down(v, fields))
    decreases |fields|
  {
    if fields != [] { DownIsListFree(At(FieldsOf(v), fields[0]), fields[1..]); }
  }

  lemma LeafRows(lib: Library, path: seq<Step>, source: Value, target: Value)
    requires !HasField(source) && !HasField(target) && !source.List? && !target.List?
    ensures Rows(lib, path, source, target) == [] <==> source == target
  {
    var bound := Bound(source, target);
    RowsByCase(lib, path, source, target, bound);
    if source != target && (source.Object? || target.Object?) {
      FieldKeys(FieldsOf(source), FieldsOf(target));
      HasFieldKeys(source, target);
    }
  }

  /** The two sides agree wherever neither has fields to go on to. */
  ghost predicate SameLeaf(source: Value, target: Value, fields: seq<string>) {
    !HasField(Down(source, fields)) && !HasField(Down(target, fields)) ==> Down(source, fields) == Down(target, fields)
  }

  /** On values without lists there is no row exactly when the two agree under every path of field names at
      which neither has fields to go on to. */
  lemma NoRowMeansSameLeaves(lib: Library, path: seq<Step>, source: Value, target: Value)
    requires IsListFree(source) && IsListFree(target)
    ensures Rows(lib, path, source, target) == [] <==> forall fields :: SameLeaf(source, target, fields)
  {
    NoRowByLeaves(lib, path, source, target);
    forall fields ensures NoLeafRow(lib, path, source, target, fields) <==> SameLeaf(source, target, fields) {
      DownIsListFree(source, fields);
      DownIsListFree(target, fields);
      if !HasField(Down(source, fields)) && !HasField(Down(target, fields)) {
        LeafRows(lib, path + Steps(fields), Down(source, fields), Down(target, fields));
      }
    }
  }

  // ---------- Without nulls ----------

  /** No list and no null anywhere. */
  ghost predicate IsPlain(v: Value) {
    match v
    case Null => false
    case List(_) => false
    case Object(fields) => forall k | k in fields :: IsPlain(fields[k])
    case _ => true
  }

  lemma {:induction false} PlainIsListFree(v: Value)
    requires IsPlain(v) || v.Null?
    ensures IsListFree(v)
  {
    if v.Object? {
      forall k | k in v.fields ensures IsListFree(v.fields[k]) { PlainIsListFree(v.fields[k]); }
    }
  }

  /** A key at which two unequal values differ, when one has fields and neither holds lists or nulls. */
  lemma DifferingKey(source: Value, target: Value) returns (k: string)
    requires source != target && (HasField(source) || HasField(target))
    requires (IsPlain(source) || source.Null?) && (IsPlain(target) || target.Null?)
    ensures At(FieldsOf(source), k) != At(FieldsOf(target), k)
  {
    var left, right := FieldsOf(source), FieldsOf(target);
    if source.Object? && target.Object? {
      FieldsDiffer(left, right);
      k :| At(left, k) != At(right, k);
    } else if HasField(source) {
      k :| k in left;
    } else {
      k :| k in right;
    }
  }

  lemma FieldsDiffer(left: map<string, Value>, right: map<string, Value>)
    requires left != right && (forall k | k in left :: left[k] != Null) && (forall k | k in right :: right[k] != Null)
    ensures exists k :: At(left, k) != At(right, k)
  {
    if left.Keys == right.Keys {
      var k :| k in left && left[k] != right[k];
      assert At(left, k) != At(right, k);
    } else {
      var k :| (k in left && k !in right) || (k in right && k !in left);
      assert At(left, k) != At(right, k);
    }
  }

  /** Unequal values without lists and nulls differ at some leaf. */
  lemma {:induction false} DifferingLeaf(source: Value, target: Value) returns (fields: seq<string>)
    requires source != target && (IsPlain(source) || source.Null?) && (IsPlain(target) || target.Null?)
    ensures !SameLeaf(source, target, fields)
    decreases Bound(source, target)
  {
    fields := [];
    if HasField(source) || HasField(target) {
      var k := DifferingKey(source, target);
      MemberIsLower(source, target, k);
      fields := DifferingLeaf(At(FieldsOf(source), k), At(FieldsOf(target), k));
      DownOne(source, k, fields);
      DownOne(target, k, fields);
      fields := [k] + fields;
    }
  }

  /** On values without lists and nulls there is no row exactly when the two are equal. */
  lemma NoRowMeansEqual(lib: Library, path: seq<Step>, source: Value, target: Value)
    requires (IsPlain(source) || source.Null?) && (IsPlain(target) || target.Null?)
    ensures Rows(lib, path, source, target) == [] <==> source == target
  {
    PlainIsListFree(source);
    PlainIsListFree(target);
    NoRowMeansSameLeaves(lib, path, source, target);
    if source != target {
      var fields := DifferingLeaf(source, target);
    }
  }
}
