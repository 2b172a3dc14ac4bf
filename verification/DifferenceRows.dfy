/** The rows of a structural difference. */
module DifferenceRows {
  import opened Wrappers
  import opened Ordering
  import opened Differences

  // ---------- Members are lower than what they are members of ----------

  function AtMostOne(h: nat): nat {
    if h == 0 then 1 else h
  }

  /** An indexer files nothing much higher than the item: at most an object for a string. */
  ghost predicate Light(indexer: Indexer) {
    forall v, used | indexer(v, used).Some? :: Height(indexer(v, used).value.1) <= AtMostOne(Height(v))
  }

  lemma IndexersAreLight(lib: Library, kind: Kind)
    requires kind.IsNamed? ==> kind.candidate < |CANDIDATES|
    ensures Light(IndexerOf(lib, kind))
  {
    var indexer := IndexerOf(lib, kind);
    forall v, used | indexer(v, used).Some? ensures Height(indexer(v, used).value.1) <= AtMostOne(Height(v)) {
      if kind.IsListener? {
        FlatObject(NormalizedListener(lib, v).value);
      } else if kind.IsVirtualHost? {
        FewerFieldsNoHigher(v.fields, v.fields - {"config_line"});
      } else if kind.IsRule? {
        FewerFieldsNoHigher(v.fields, v.fields - {"id"});
      } else if kind.IsCronTask? {
        FewerFieldsNoHigher(v.fields, v.fields - {"line", "id"});
      }
    }
  }

  ghost predicate Bounded(fields: map<string, Value>, bound: nat) {
    forall k | k in fields :: Height(fields[k]) <= bound
  }

  lemma {:induction false} IndexIsBounded(indexer: Indexer, items: seq<Value>, filed: map<string, Value>, bound: nat)
    requires Light(indexer) && Bounded(filed, bound) && bound >= 1
    requires forall i | 0 <= i < |items| :: Height(items[i]) <= bound
    requires Index(indexer, items, filed).Some?
    ensures Bounded(Index(indexer, items, filed).value, bound)
  {
    if items != [] {
      var entry := indexer(items[0], filed.Keys).value;
      assert Height(entry.1) <= AtMostOne(Height(items[0]));
      IndexIsBounded(indexer, items[1..], filed[entry.0 := entry.1], bound);
    }
  }

  function ItemsOf(v: Value): seq<Value> {
    if v.List? then v.items else []
  }

  function FieldsOf(v: Value): map<string, Value> {
    if v.Object? then v.fields else map[]
  }

  /** The members of a value: no higher than this. */
  ghost function Room(v: Value): nat {
    if Height(v) == 0 then 0 else Height(v) - 1
  }

  lemma ItemsAreBounded(lib: Library, kind: Kind, v: Value)
    requires !v.Object? && (kind.IsNamed? ==> kind.candidate < |CANDIDATES|)
    requires Index(IndexerOf(lib, kind), ItemsOf(v), map[]).Some?
    ensures Bounded(Index(IndexerOf(lib, kind), ItemsOf(v), map[]).value, Room(v))
  {
    if v.List? {
      IndexersAreLight(lib, kind);
      forall i | 0 <= i < |v.items| ensures Height(v.items[i]) <= Room(v) { ItemIsLower(v.items, i); }
      IndexIsBounded(IndexerOf(lib, kind), v.items, map[], Room(v));
    }
  }

  lemma FieldsAreBounded(v: Value)
    ensures Bounded(FieldsOf(v), Room(v))
  {
    forall k | k in FieldsOf(v) ensures Height(FieldsOf(v)[k]) <= Room(v) { FieldIsLower(v.fields, k); }
  }

  lemma AllKindsAreKinds()
    ensures AreKinds(Kinds())
  {
  }

  lemma {:induction false} PairedIsBounded(lib: Library, kinds: seq<Kind>, source: Value, target: Value)
    requires AreKinds(kinds) && !source.Object? && !target.Object?
    requires Paired(lib, kinds, ItemsOf(source), ItemsOf(target)).Some?
    ensures var p := Paired(lib, kinds, ItemsOf(source), ItemsOf(target)).value;
            Bounded(p.left, Room(source)) && Bounded(p.right, Room(target))
  {
    if Indexed(IndexerOf(lib, kinds[0]), kinds[0], ItemsOf(source), ItemsOf(target)).Some? {
      ItemsAreBounded(lib, kinds[0], source);
      ItemsAreBounded(lib, kinds[0], target);
    } else {
      PairedIsBounded(lib, kinds[1..], source, target);
    }
  }

  // ---------- The rows ----------

  /** A step from a value to one of its members; the wording of its label is left out. */
  datatype Step = Member(kind: Kind, key: string) | Element(index: nat)

  datatype Row = Row(path: seq<Step>, source: Value, target: Value)

  ghost predicate Under(left: map<string, Value>, right: map<string, Value>, bound: nat) {
    forall k :: Height(At(left, k)) + Height(At(right, k)) < bound
  }

  /** What the recursion decreases. */
  ghost function Bound(source: Value, target: Value): nat {
    Height(source) + Height(target)
  }

  lemma BoundedIsUnder(left: map<string, Value>, right: map<string, Value>, source: Value, target: Value)
    requires Bounded(left, Room(source)) && Bounded(right, Room(target)) && Bound(source, target) > 0
    ensures Under(left, right, Bound(source, target))
  {
    forall k ensures Height(At(left, k)) + Height(At(right, k)) < Bound(source, target) {
      assert Height(At(left, k)) <= Room(source) && Height(At(right, k)) <= Room(target);
    }
  }

  function ItemAt(items: seq<Value>, i: nat): Value {
    if i < |items| then items[i] else Null
  }

  ghost predicate ItemsUnder(left: seq<Value>, right: seq<Value>, bound: nat) {
    forall i: nat :: Height(ItemAt(left, i)) + Height(ItemAt(right, i)) < bound
  }

  lemma ItemsAreUnder(source: Value, target: Value)
    requires source.List? || target.List?
    ensures ItemsUnder(ItemsOf(source), ItemsOf(target), Bound(source, target))
  {
    forall i: nat ensures Height(ItemAt(ItemsOf(source), i)) + Height(ItemAt(ItemsOf(target), i)) < Bound(source, target) {
      if i < |ItemsOf(source)| { ItemIsLower(source.items, i); }
      if i < |ItemsOf(target)| { ItemIsLower(target.items, i); }
    }
  }

  lemma FieldsAreUnder(source: Value, target: Value)
    requires source.Object? || target.Object?
    ensures Under(FieldsOf(source), FieldsOf(target), Bound(source, target))
  {
    FieldsAreBounded(source);
    FieldsAreBounded(target);
    BoundedIsUnder(FieldsOf(source), FieldsOf(target), source, target);
  }

  function PairedItems(lib: Library, source: Value, target: Value): Option<Pairing> {
    AllKindsAreKinds();
    Paired(lib, Kinds(), ItemsOf(source), ItemsOf(target))
  }

  lemma PairedIsUnder(lib: Library, source: Value, target: Value)
    requires !source.Object? && !target.Object? && (source.List? || target.List?)
    ensures var p := PairedItems(lib, source, target);
            p.Some? ==> Under(p.value.left, p.value.right, Bound(source, target))
  {
    AllKindsAreKinds();
    if PairedItems(lib, source, target).Some? {
      PairedIsBounded(lib, Kinds(), source, target);
      var p := PairedItems(lib, source, target).value;
      BoundedIsUnder(p.left, p.right, source, target);
    }
  }

  /** The keys to go through. */
  ghost function KeysOf(left: map<string, Value>, right: map<string, Value>): seq<string> {
    Listing(left.Keys + right.Keys)
  }

  /** A scalar found on both sides is passed over. */
  predicate Skipped(kind: Kind, left: map<string, Value>, right: map<string, Value>, key: string) {
    kind.IsScalar? && key in left && key in right
  }

  ghost function Rows(lib: Library, path: seq<Step>, source: Value, target: Value): seq<Row>
    decreases Bound(source, target), 2
  {
    if source == target then []
    else if source.Object? || target.Object? then ObjectRows(lib, path, source, target, Bound(source, target))
    else if source.List? || target.List? then ListRows(lib, path, source, target, Bound(source, target))
    else [Row(path, source, target)]
  }

  /** The members of both objects under the union of their keys; what is not an object has no members. */
  ghost function ObjectRows(lib: Library, path: seq<Step>, source: Value, target: Value, bound: nat): seq<Row>
    requires bound == Bound(source, target)
    requires source.Object? || target.Object?
    decreases bound, 1
  {
    FieldsAreUnder(source, target);
    var left, right := FieldsOf(source), FieldsOf(target);
    var keys := KeysOf(left, right);
    if keys == [] then [Row(path, source, target)]
    else MemberRows(lib, path, IsField, keys, left, right, bound)
  }

  /** The items of both lists paired by what identifies them, or else by position. */
  ghost function ListRows(lib: Library, path: seq<Step>, source: Value, target: Value, bound: nat): seq<Row>
    requires bound == Bound(source, target)
    requires !source.Object? && !target.Object? && (source.List? || target.List?)
    decreases bound, 1
  {
    PairedIsUnder(lib, source, target);
    ItemsAreUnder(source, target);
    var pairing := PairedItems(lib, source, target);
    if pairing.Some? then
      var p := pairing.value;
      MemberRows(lib, path, p.kind, KeysOf(p.left, p.right), p.left, p.right, bound)
    else if |ItemsOf(source)| == 0 && |ItemsOf(target)| == 0 then [Row(path, source, target)]
    else ElementRows(lib, path, 0, ItemsOf(source), ItemsOf(target), bound)
  }

  ghost function MemberRows(
      lib: Library, path: seq<Step>, kind: Kind, keys: seq<string>, left: map<string, Value>, right: map<string, Value>, bound: nat)
    : seq<Row>
    requires Under(left, right, bound)
    decreases bound, 0, |keys|
  {
    if keys == [] then []
    else
      (if Skipped(kind, left, right, keys[0]) then []
       else Rows(lib, path + [Member(kind, keys[0])], At(left, keys[0]), At(right, keys[0])))
      + MemberRows(lib, path, kind, keys[1..], left, right, bound)
  }

  function Longer(left: seq<Value>, right: seq<Value>): nat {
    if |left| >= |right| then |left| else |right|
  }

  ghost function ElementRows(lib: Library, path: seq<Step>, i: nat, left: seq<Value>, right: seq<Value>, bound: nat): seq<Row>
    requires ItemsUnder(left, right, bound) && i <= Longer(left, right)
    decreases bound, 0, Longer(left, right) - i
  {
    if i == Longer(left, right) then []
    else
      Rows(lib, path + [Element(i)], ItemAt(left, i), ItemAt(right, i)) + ElementRows(lib, path, i + 1, left, right, bound)
  }
}
