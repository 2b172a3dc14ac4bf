/** Where a difference shows no row although the values differ: nulls, lists paired as scalars, empty lists,
    and the order of identified items. */
module DifferenceLimits {
  import opened Wrappers
  import opened Differences
  import opened DifferenceRows
  import opened DifferenceLaws

  // ---------- Nulls ----------

  /** A field set to null is not told from a missing one, whatever the other fields hold. */
  lemma NullReadsAsMissing(lib: Library, path: seq<Step>, fields: map<string, Value>, k: string)
    requires k !in fields
    ensures Object(fields) != Object(fields[k := Null])
    ensures Rows(lib, path, Object(fields), Object(fields[k := Null])) == []
  {
    var source, target := Object(fields), Object(fields[k := Null]);
    assert k in target.fields;
    NoObjectRows(lib, path, source, target);
    forall x ensures Rows(lib, path + [Member(IsField, x)], At(fields, x), At(fields[k := Null], x)) == [] {
      EqualHasNoRow(lib, path + [Member(IsField, x)], At(fields, x));
    }
  }

  const HOLLOW: Value := Object(map["a" := Null])

  lemma {:induction false} NothingInHollow(fields: seq<string>)
    requires fields != []
    ensures Down(HOLLOW, fields) == Null
  {
    var under := At(FieldsOf(HOLLOW), fields[0]);
    assert under == Null;
    if |fields| > 1 { DownNothing(Null, fields[1..]); }
  }

  /** An object of one null shows no difference from any value without fields and lists. */
  lemma HollowIsLike(lib: Library, path: seq<Step>, v: Value)
    requires !HasField(v) && !v.List?
    ensures Rows(lib, path, HOLLOW, v) == []
  {
    assert IsListFree(v) && "a" in HOLLOW.fields;
    NoRowMeansSameLeaves(lib, path, HOLLOW, v);
    forall fields ensures SameLeaf(HOLLOW, v, fields) {
      if fields != [] {
        NothingInHollow(fields);
        DownNothing(v, fields);
      }
    }
  }

  /** So "no row" is not an equivalence: that object shows no difference from the empty object nor from a
      number, which differ visibly from each other. */
  lemma NoRowIsNotTransitive(lib: Library, path: seq<Step>, digits: string)
    ensures Rows(lib, path, HOLLOW, Object(map[])) == [] && Rows(lib, path, HOLLOW, Number(digits)) == []
    ensures Rows(lib, path, Object(map[]), Number(digits)) != []
  {
    HollowIsLike(lib, path, Object(map[]));
    HollowIsLike(lib, path, Number(digits));
    LeafRows(lib, path, Object(map[]), Number(digits));
  }

  // ---------- Paired lists ----------

  /** Lists whose items are paired have no row exactly when they are equal or no key shows anything. */
  lemma NoPairedRows(lib: Library, path: seq<Step>, source: Value, target: Value)
    requires !source.Object? && !target.Object? && (source.List? || target.List?)
    requires PairedItems(lib, source, target).Some?
    ensures var p := PairedItems(lib, source, target).value;
            Rows(lib, path, source, target) == [] <==>
              source == target || forall k | k in p.left.Keys + p.right.Keys :: ShowsNothing(lib, path, p.kind, p.left, p.right, k)
  {
    var bound := Bound(source, target);
    RowsByCase(lib, path, source, target, bound);
    if source != target {
      var p := PairedItems(lib, source, target).value;
      PairedIsUnder(lib, source, target);
      NoMemberRowsByKey(lib, path, p.kind, p.left, p.right, bound);
    }
  }

  // ---------- Lists paired as scalars ----------

  predicate IsScalarValue(v: Value) {
    !v.Object? && !v.List?
  }

  ghost predicate ScalarMap(filed: map<string, Value>) {
    forall k | k in filed :: IsScalarValue(filed[k])
  }

  lemma {:induction false} IndexOfScalars(lib: Library, items: seq<Value>, filed: map<string, Value>)
    requires ScalarMap(filed) && Index(IndexerOf(lib, IsScalar), items, filed).Some?
    ensures ScalarMap(Index(IndexerOf(lib, IsScalar), items, filed).value)
  {
    if items != [] {
      var entry := IndexerOf(lib, IsScalar)(items[0], filed.Keys).value;
      IndexOfScalars(lib, items[1..], filed[entry.0 := entry.1]);
    }
  }

  /** The key is filed on one side only, and not for a null. */
  predicate Odd(p: Pairing, k: string) {
    (k in p.left) != (k in p.right) && (At(p.left, k) != Null || At(p.right, k) != Null)
  }

  lemma ScalarShowsNothing(lib: Library, path: seq<Step>, p: Pairing, k: string)
    requires p.kind == IsScalar && ScalarMap(p.left) && ScalarMap(p.right) && k in p.left.Keys + p.right.Keys
    ensures ShowsNothing(lib, path, IsScalar, p.left, p.right, k) <==> !Odd(p, k)
  {
    if !Skipped(IsScalar, p.left, p.right, k) {
      LeafRows(lib, path + [Member(IsScalar, k)], At(p.left, k), At(p.right, k));
    }
  }

  /** Two values paired as scalars, be it two lists or a list and a scalar, have no row exactly when they
      are equal or no key is filed on one side only for anything but a null: order and repetition do not show. */
  lemma ScalarListsAreSets(lib: Library, path: seq<Step>, source: Value, target: Value)
    requires !source.Object? && !target.Object? && (source.List? || target.List?)
    requires PairedItems(lib, source, target).Some? && PairedItems(lib, source, target).value.kind == IsScalar
    ensures Rows(lib, path, source, target) == [] <==>
            source == target || forall k :: !Odd(PairedItems(lib, source, target).value, k)
  {
    var p := PairedItems(lib, source, target).value;
    AllKindsAreKinds();
    PairedBy(lib, Kinds(), ItemsOf(source), ItemsOf(target));
    IndexOfScalars(lib, ItemsOf(source), map[]);
    IndexOfScalars(lib, ItemsOf(target), map[]);
    NoPairedRows(lib, path, source, target);
    NoOddMembers(lib, path, p);
  }

  lemma NoOddMembers(lib: Library, path: seq<Step>, p: Pairing)
    requires p.kind == IsScalar && ScalarMap(p.left) && ScalarMap(p.right)
    ensures (forall k | k in p.left.Keys + p.right.Keys :: ShowsNothing(lib, path, IsScalar, p.left, p.right, k)) <==> forall k :: !Odd(p, k)
  {
    forall k | k in p.left.Keys + p.right.Keys ensures ShowsNothing(lib, path, IsScalar, p.left, p.right, k) <==> !Odd(p, k) {
      ScalarShowsNothing(lib, path, p, k);
    }
  }

  /** A pairing is made of the two indexes of its kind. */
  lemma {:induction false} PairedBy(lib: Library, kinds: seq<Kind>, a: seq<Value>, b: seq<Value>)
    requires AreKinds(kinds) && Paired(lib, kinds, a, b).Some?
    ensures var p := Paired(lib, kinds, a, b).value;
            && (p.kind.IsNamed? ==> p.kind.candidate < |CANDIDATES|)
            && Index(IndexerOf(lib, p.kind), a, map[]) == Some(p.left) && Index(IndexerOf(lib, p.kind), b, map[]) == Some(p.right)
  {
    if Indexed(IndexerOf(lib, kinds[0]), kinds[0], a, b).None? {
      PairedBy(lib, kinds[1..], a, b);
    }
  }

  // ---------- No items at all ----------

  lemma {:induction false} NothingIsPairedAsScalars(lib: Library, kinds: seq<Kind>)
    requires AreKinds(kinds) && IsScalar in kinds
    ensures Paired(lib, kinds, [], []) == Some(Pairing(IsScalar, map[], map[]))
  {
    var empty: map<string, Value> := map[];
    assert empty.Keys == {} && |empty| == 0;
    if kinds[0] != IsScalar { NothingIsPairedAsScalars(lib, kinds[1..]); }
  }

  /** An empty list shows no difference from anything but an object or a list with items: values without
      items are paired as scalars, so that the row meant for them is never reached. */
  lemma EmptyListShowsNothing(lib: Library, path: seq<Step>, source: Value, target: Value)
    requires !source.Object? && !target.Object? && (source.List? || target.List?)
    requires ItemsOf(source) == [] && ItemsOf(target) == []
    ensures PairedItems(lib, source, target) == Some(Pairing(IsScalar, map[], map[]))
    ensures Rows(lib, path, source, target) == []
  {
    KindsEndInScalars();
    NothingIsPairedAsScalars(lib, Kinds());
    ScalarListsAreSets(lib, path, source, target);
  }

  lemma KindsEndInScalars()
    ensures AreKinds(Kinds()) && IsField !in Kinds() && IsScalar in Kinds()
  {
    assert Kinds()[|Kinds()| - 1] == IsScalar;
  }

  // ---------- Booleans and numbers ----------

  /** A boolean or a number: nothing but a scalar can be made of it. */
  predicate IsBare(v: Value) {
    v.Bool? || v.Number?
  }

  predicate AreBare(items: seq<Value>) {
    forall i | 0 <= i < |items| :: IsBare(items[i])
  }

  lemma OnlyScalarsTakeBare(lib: Library, kind: Kind, v: Value, used: set<string>)
    requires IsBare(v) && (kind.IsNamed? ==> kind.candidate < |CANDIDATES|)
    ensures IndexerOf(lib, kind)(v, used) == if kind.IsScalar? || kind.IsField? then Some((lib.marshal(v), v)) else None
  {
  }

  function Marshalled(lib: Library, items: seq<Value>): set<string> {
    set i | 0 <= i < |items| :: lib.marshal(items[i])
  }

  ghost predicate BareMap(filed: map<string, Value>) {
    forall k | k in filed :: IsBare(filed[k])
  }

  lemma MarshalledOneMore(lib: Library, items: seq<Value>)
    requires items != []
    ensures Marshalled(lib, items) == {lib.marshal(items[0])} + Marshalled(lib, items[1..])
  {
    forall i | 0 <= i < |items| ensures lib.marshal(items[i]) in {lib.marshal(items[0])} + Marshalled(lib, items[1..]) {
      if i > 0 { assert items[i] == items[1..][i - 1]; }
    }
    forall i | 0 <= i < |items[1..]| ensures lib.marshal(items[1..][i]) in Marshalled(lib, items) {
      assert items[1..][i] == items[i + 1];
    }
  }

  lemma {:induction false} IndexOfBare(lib: Library, items: seq<Value>, filed: map<string, Value>)
    requires AreBare(items) && BareMap(filed)
    ensures var m := Index(IndexerOf(lib, IsScalar), items, filed);
            m.Some? && BareMap(m.value) && m.value.Keys == filed.Keys + Marshalled(lib, items)
  {
    if items != [] {
      OnlyScalarsTakeBare(lib, IsScalar, items[0], filed.Keys);
      IndexOfBare(lib, items[1..], filed[lib.marshal(items[0]) := items[0]]);
      MarshalledOneMore(lib, items);
    }
  }

  lemma BareIsNotIndexed(lib: Library, kind: Kind, a: seq<Value>, b: seq<Value>)
    requires AreBare(a) && AreBare(b) && kind != IsScalar && kind != IsField && (kind.IsNamed? ==> kind.candidate < |CANDIDATES|)
    ensures Indexed(IndexerOf(lib, kind), kind, a, b) == None
  {
    if a != [] { OnlyScalarsTakeBare(lib, kind, a[0], {}); }
    if b != [] { OnlyScalarsTakeBare(lib, kind, b[0], {}); }
    var empty: map<string, Value> := map[];
    assert empty.Keys == {};
  }

  lemma {:induction false} BareIsPairedAsScalars(lib: Library, kinds: seq<Kind>, a: seq<Value>, b: seq<Value>)
    requires AreKinds(kinds) && AreBare(a) && AreBare(b) && IsField !in kinds && IsScalar in kinds
    ensures Paired(lib, kinds, a, b).Some? && Paired(lib, kinds, a, b).value.kind == IsScalar
  {
    if kinds[0] == IsScalar {
      IndexOfBare(lib, a, map[]);
      IndexOfBare(lib, b, map[]);
    } else {
      BareIsNotIndexed(lib, kinds[0], a, b);
      BareIsPairedAsScalars(lib, kinds[1..], a, b);
    }
  }

  /** Lists of booleans and numbers have no row exactly when they have the same set of encodings. */
  lemma BareListsAreSets(lib: Library, path: seq<Step>, a: seq<Value>, b: seq<Value>)
    requires AreBare(a) && AreBare(b)
    ensures Rows(lib, path, List(a), List(b)) == [] <==> List(a) == List(b) || Marshalled(lib, a) == Marshalled(lib, b)
  {
    KindsEndInScalars();
    BareIsPairedAsScalars(lib, Kinds(), a, b);
    PairedBy(lib, Kinds(), a, b);
    IndexOfBare(lib, a, map[]);
    IndexOfBare(lib, b, map[]);
    ScalarListsAreSets(lib, path, List(a), List(b));
    NoOddKeys(PairedItems(lib, List(a), List(b)).value);
  }

  lemma NoOddKeys(p: Pairing)
    requires BareMap(p.left) && BareMap(p.right)
    ensures (forall k :: !Odd(p, k)) <==> p.left.Keys == p.right.Keys
  {
    if p.left.Keys != p.right.Keys {
      var k :| (k in p.left) != (k in p.right);
      assert Odd(p, k);
    }
  }

  /** Two different lists without a row. */
  lemma RepetitionDoesNotShow(lib: Library, path: seq<Step>)
    ensures List([Bool(true), Bool(true)]) != List([Bool(true)])
    ensures Rows(lib, path, List([Bool(true), Bool(true)]), List([Bool(true)])) == []
  {
    var a, b := [Bool(true), Bool(true)], [Bool(true)];
    assert List(a) != List(b) by { assert |List(a).items| != |List(b).items|; }
    assert Marshalled(lib, a) == Marshalled(lib, b) by {
      assert lib.marshal(a[0]) in Marshalled(lib, a) && lib.marshal(b[0]) in Marshalled(lib, b);
      assert forall k | k in Marshalled(lib, a) :: k == lib.marshal(Bool(true));
      assert forall k | k in Marshalled(lib, b) :: k == lib.marshal(Bool(true));
    }
    BareListsAreSets(lib, path, a, b);
  }
}
