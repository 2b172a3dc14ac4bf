/** What a difference of two lists of identified items shows: every change of an item, and no order but that
    of virtual hosts with one name. */
module DifferenceLists {
  import opened Wrappers
  import opened Differences
  import opened DifferenceRows
  import opened DifferenceLaws
  import opened DifferenceLimits

  // ---------- An item on one side only ----------

  /** A text, a boolean or a number, not null, under a path of field names. */
  predicate Holds(v: Value, fields: seq<string>) {
    IsScalarValue(Down(v, fields)) && Down(v, fields) != Null
  }

  lemma {:induction false} NullDown(fields: seq<string>)
    ensures Down(Null, fields) == Null
  {
    if fields != [] { DownNothing(Null, fields); }
  }

  /** A value that holds anything always shows a row against a missing one. */
  lemma HeldValueShows(lib: Library, path: seq<Step>, v: Value, fields: seq<string>)
    requires Holds(v, fields)
    ensures Rows(lib, path, v, Null) != [] && Rows(lib, path, Null, v) != []
  {
    NullDown(fields);
    LeafRows(lib, path + Steps(fields), Down(v, fields), Null);
    LeafRows(lib, path + Steps(fields), Null, Down(v, fields));
    if Rows(lib, path, v, Null) == [] { LeavesHaveNoRow(lib, path, v, Null, fields); }
    if Rows(lib, path, Null, v) == [] { LeavesHaveNoRow(lib, path, Null, v, fields); }
  }

  /** So an item added or removed under a key of its own is never hidden. */
  lemma OneSidedItemShows(lib: Library, path: seq<Step>, source: Value, target: Value, k: string, fields: seq<string>)
    requires !source.Object? && !target.Object? && (source.List? || target.List?) && PairedItems(lib, source, target).Some?
    requires var p := PairedItems(lib, source, target).value;
             (k in p.left) != (k in p.right) && (Holds(At(p.left, k), fields) || Holds(At(p.right, k), fields))
    ensures Rows(lib, path, source, target) != []
  {
    var p := PairedItems(lib, source, target).value;
    NoPairedRows(lib, path, source, target);
    NullDown(fields);
    if Holds(At(p.left, k), fields) {
      HeldValueShows(lib, path + [Member(p.kind, k)], At(p.left, k), fields);
    } else {
      HeldValueShows(lib, path + [Member(p.kind, k)], At(p.right, k), fields);
    }
    assert !ShowsNothing(lib, path, p.kind, p.left, p.right, k);
    if source == target { EqualListsPairAlike(lib, source, p); }
  }

  lemma EqualListsPairAlike(lib: Library, v: Value, p: Pairing)
    requires PairedItems(lib, v, v) == Some(p)
    ensures p.left == p.right
  {
    AllKindsAreKinds();
    PairedBy(lib, Kinds(), ItemsOf(v), ItemsOf(v));
  }

  // ---------- Order ----------

  /** The kinds by which items with fields are identified. */
  predicate Identifies(kind: Kind) {
    !kind.IsField? && !kind.IsScalar? && (kind.IsNamed? ==> kind.candidate < |CANDIDATES|)
  }

  /** The entry of an item in an index that holds no other. */
  function EntryOf(lib: Library, kind: Kind, v: Value): Option<(string, Value)>
    requires Identifies(kind)
  {
    IndexerOf(lib, kind)(v, {})
  }

  /** No item is filed under a key in use; only virtual hosts have a second key for that case. */
  predicate FiledOnce(lib: Library, kind: Kind, items: seq<Value>, used: set<string>)
    requires Identifies(kind)
    decreases |items|
  {
    kind.IsVirtualHost? && items != [] && EntryOf(lib, kind, items[0]).Some? ==>
      && EntryOf(lib, kind, items[0]).value.0 !in used
      && FiledOnce(lib, kind, items[1..], used + {EntryOf(lib, kind, items[0]).value.0})
  }

  /** No two virtual hosts share file, name and port. */
  predicate KeysDiffer(lib: Library, kind: Kind, items: seq<Value>)
    requires Identifies(kind)
  {
    kind.IsVirtualHost? ==>
      forall i, j | 0 <= i < j < |items| && EntryOf(lib, kind, items[i]).Some? && EntryOf(lib, kind, items[j]).Some? ::
        EntryOf(lib, kind, items[i]).value.0 != EntryOf(lib, kind, items[j]).value.0
  }

  lemma {:induction false} DifferingKeysAreFiledOnce(lib: Library, kind: Kind, items: seq<Value>, used: set<string>)
    requires Identifies(kind) && KeysDiffer(lib, kind, items)
    requires kind.IsVirtualHost? ==>
             forall i | 0 <= i < |items| && EntryOf(lib, kind, items[i]).Some? :: EntryOf(lib, kind, items[i]).value.0 !in used
    ensures FiledOnce(lib, kind, items, used)
  {
    if kind.IsVirtualHost? && items != [] && EntryOf(lib, kind, items[0]).Some? {
      var key, rest := EntryOf(lib, kind, items[0]).value.0, items[1..];
      forall i | 0 <= i < |rest| ensures rest[i] == items[i + 1] {}
      DifferingKeysAreFiledOnce(lib, kind, rest, used + {key});
    }
  }

  lemma EntryDecides(lib: Library, kind: Kind, v: Value, used: set<string>)
    requires Identifies(kind)
    requires kind.IsVirtualHost? && EntryOf(lib, kind, v).Some? ==> EntryOf(lib, kind, v).value.0 !in used
    ensures var entry := EntryOf(lib, kind, v);
            IndexerOf(lib, kind)(v, used) == if entry.None? || entry.value.0 in used then None else entry
  {
  }

  ghost predicate Files(lib: Library, kind: Kind, v: Value, filed: map<string, Value>)
    requires Identifies(kind)
  {
    var entry := EntryOf(lib, kind, v);
    entry.Some? && entry.value.0 in filed && filed[entry.value.0] == entry.value.1
  }

  ghost predicate FromItem(lib: Library, kind: Kind, items: seq<Value>, k: string, v: Value)
    requires Identifies(kind)
  {
    exists i :: 0 <= i < |items| && EntryOf(lib, kind, items[i]) == Some((k, v))
  }

  lemma FromItemGrows(lib: Library, kind: Kind, items: seq<Value>, k: string, v: Value)
    requires Identifies(kind) && items != [] && FromItem(lib, kind, items[1..], k, v)
    ensures FromItem(lib, kind, items, k, v)
  {
    var i :| 0 <= i < |items[1..]| && EntryOf(lib, kind, items[1..][i]) == Some((k, v));
    assert items[i + 1] == items[1..][i];
  }

  /** One item of an index that succeeds. */
  lemma IndexOne(lib: Library, kind: Kind, items: seq<Value>, filed: map<string, Value>, m: map<string, Value>)
    returns (k: string, v: Value)
    requires Identifies(kind) && FiledOnce(lib, kind, items, filed.Keys)
    requires Index(IndexerOf(lib, kind), items, filed) == Some(m) && items != []
    ensures EntryOf(lib, kind, items[0]) == Some((k, v)) && k !in filed
    ensures Index(IndexerOf(lib, kind), items[1..], filed[k := v]) == Some(m)
    ensures FiledOnce(lib, kind, items[1..], filed[k := v].Keys)
  {
    EntryDecides(lib, kind, items[0], filed.Keys);
    var entry := EntryOf(lib, kind, items[0]).value;
    k, v := entry.0, entry.1;
    assert filed[k := v].Keys == filed.Keys + {k};
  }

  /** An index keeps what was filed before. */
  lemma {:induction false} IndexKeeps(
      lib: Library, kind: Kind, items: seq<Value>, filed: map<string, Value>, m: map<string, Value>, k: string)
    requires Identifies(kind) && FiledOnce(lib, kind, items, filed.Keys)
    requires Index(IndexerOf(lib, kind), items, filed) == Some(m) && k in filed
    ensures k in m && m[k] == filed[k]
  {
    if items != [] {
      var x, v := IndexOne(lib, kind, items, filed, m);
      IndexKeeps(lib, kind, items[1..], filed[x := v], m, k);
    }
  }

  /** An index holds the entry of every item. */
  lemma {:induction false} IndexHolds(
      lib: Library, kind: Kind, items: seq<Value>, filed: map<string, Value>, m: map<string, Value>, item: Value)
    requires Identifies(kind) && FiledOnce(lib, kind, items, filed.Keys)
    requires Index(IndexerOf(lib, kind), items, filed) == Some(m) && item in items
    ensures Files(lib, kind, item, m)
  {
    var x, v := IndexOne(lib, kind, items, filed, m);
    if item == items[0] {
      IndexKeeps(lib, kind, items[1..], filed[x := v], m, x);
    } else {
      assert items == [items[0]] + items[1..];
      IndexHolds(lib, kind, items[1..], filed[x := v], m, item);
    }
  }

  /** And nothing else. */
  lemma {:induction false} IndexHoldsOnly(
      lib: Library, kind: Kind, items: seq<Value>, filed: map<string, Value>, m: map<string, Value>, k: string)
    requires Identifies(kind) && FiledOnce(lib, kind, items, filed.Keys)
    requires Index(IndexerOf(lib, kind), items, filed) == Some(m) && k in m && k !in filed
    ensures FromItem(lib, kind, items, k, m[k])
  {
    var x, v := IndexOne(lib, kind, items, filed, m);
    if k == x {
      IndexKeeps(lib, kind, items[1..], filed[x := v], m, x);
      assert EntryOf(lib, kind, items[0]) == Some((k, m[k]));
    } else {
      IndexHoldsOnly(lib, kind, items[1..], filed[x := v], m, k);
      FromItemGrows(lib, kind, items, k, m[k]);
    }
  }

  lemma SameItemsFiled(lib: Library, kind: Kind, a: seq<Value>, b: seq<Value>, m: map<string, Value>, n: map<string, Value>)
    requires Identifies(kind) && FiledOnce(lib, kind, a, {}) && FiledOnce(lib, kind, b, {})
    requires Index(IndexerOf(lib, kind), a, map[]) == Some(m) && Index(IndexerOf(lib, kind), b, map[]) == Some(n)
    requires forall v | v in a :: v in b
    ensures forall k | k in m :: k in n && n[k] == m[k]
  {
    var none: map<string, Value> := map[];
    assert none.Keys == {};
    forall k | k in m ensures k in n && n[k] == m[k] {
      IndexHoldsOnly(lib, kind, a, none, m, k);
      var i :| 0 <= i < |a| && EntryOf(lib, kind, a[i]) == Some((k, m[k]));
      assert a[i] in b;
      IndexHolds(lib, kind, b, none, n, a[i]);
    }
  }

  lemma SameItemsPaired(lib: Library, a: seq<Value>, b: seq<Value>, p: Pairing)
    requires (forall v :: v in a <==> v in b) && PairedItems(lib, List(a), List(b)) == Some(p) && Identifies(p.kind)
    requires KeysDiffer(lib, p.kind, a) && KeysDiffer(lib, p.kind, b)
    ensures p.left == p.right
  {
    AllKindsAreKinds();
    PairedBy(lib, Kinds(), a, b);
    DifferingKeysAreFiledOnce(lib, p.kind, a, {});
    DifferingKeysAreFiledOnce(lib, p.kind, b, {});
    SameItemsFiled(lib, p.kind, a, b, p.left, p.right);
    SameItemsFiled(lib, p.kind, b, a, p.right, p.left);
  }

  /** The order of identified items does not show: two lists of the same items have no row. For virtual
      hosts this holds when no two share file, name and port. */
  lemma OrderDoesNotShow(lib: Library, path: seq<Step>, a: seq<Value>, b: seq<Value>)
    requires forall v :: v in a <==> v in b
    requires PairedItems(lib, List(a), List(b)).Some? && Identifies(PairedItems(lib, List(a), List(b)).value.kind)
    requires var kind := PairedItems(lib, List(a), List(b)).value.kind; KeysDiffer(lib, kind, a) && KeysDiffer(lib, kind, b)
    ensures Rows(lib, path, List(a), List(b)) == []
  {
    var p := PairedItems(lib, List(a), List(b)).value;
    SameItemsPaired(lib, a, b, p);
    NoPairedRows(lib, path, List(a), List(b));
    forall k ensures ShowsNothing(lib, path, p.kind, p.left, p.right, k) {
      EqualHasNoRow(lib, path + [Member(p.kind, k)], At(p.left, k));
    }
  }

  // ---------- Virtual hosts with one name ----------

  function LineOf(lib: Library, v: Value): string
    requires v.Object?
  {
    Field(lib, v.fields, "config_line")
  }

  function Longer(key: string, line: string): string {
    key + Zero() + "ligne:" + line
  }

  lemma LongerKeys(key: string, a: string, b: string)
    ensures Longer(key, a) != key && (Longer(key, a) == Longer(key, b) <==> a == b)
  {
    var n := |key + Zero() + "ligne:"|;
    assert Longer(key, a)[n..] == a && Longer(key, b)[n..] == b;
    assert |Longer(key, a)| > |key|;
  }

  /** The index of two hosts that share file, name and port. */
  lemma TwoHosts(lib: Library, v: Value, w: Value, key: string, x: Value, y: Value)
    requires VirtualHost(lib, v, {}) == Some((key, x)) && VirtualHost(lib, w, {}) == Some((key, y)) && LineOf(lib, w) != ""
    ensures Index(IndexerOf(lib, IsVirtualHost), [v, w], map[]) == Some(map[key := x, Longer(key, LineOf(lib, w)) := y])
  {
    var indexer := IndexerOf(lib, IsVirtualHost);
    LongerKeys(key, LineOf(lib, w), "");
    var none: map<string, Value> := map[];
    assert none.Keys == {} && none[key := x].Keys == {key};
    assert indexer(w, {key}) == Some((Longer(key, LineOf(lib, w)), y));
    assert [v, w][1..] == [w] && [w][1..] == [];
    assert Index(indexer, [w], none[key := x]) == Some(none[key := x][Longer(key, LineOf(lib, w)) := y]);
  }

  lemma HostsArePaired(lib: Library, v: Value, w: Value, left: map<string, Value>, right: map<string, Value>, k: string)
    requires Index(IndexerOf(lib, IsVirtualHost), [v, w], map[]) == Some(left) && k in left
    requires Index(IndexerOf(lib, IsVirtualHost), [w, v], map[]) == Some(right)
    ensures PairedItems(lib, List([v, w]), List([w, v])) == Some(Pairing(IsVirtualHost, left, right))
  {
    AllKindsAreKinds();
    assert Kinds()[0] == IsVirtualHost;
    assert k in left.Keys && |left| == |left.Keys| > 0;
  }

  /** The second host's key is made of its line. */
  lemma SwappedHosts(lib: Library, v: Value, w: Value, key: string, x: Value, y: Value, k: string, other: string)
    returns (p: Pairing)
    requires Index(IndexerOf(lib, IsVirtualHost), [v, w], map[]) == Some(map[key := x, k := y])
    requires Index(IndexerOf(lib, IsVirtualHost), [w, v], map[]) == Some(map[key := y, other := x])
    requires k != key && k != other
    ensures PairedItems(lib, List([v, w]), List([w, v])) == Some(p) && k in p.left && k !in p.right && p.left[k] == y
  {
    p := Pairing(IsVirtualHost, map[key := x, k := y], map[key := y, other := x]);
    HostsArePaired(lib, v, w, p.left, p.right, k);
  }

  lemma HostHoldsItsFile(lib: Library, w: Value, key: string, y: Value)
    requires VirtualHost(lib, w, {}) == Some((key, y)) && Holds(At(w.fields, "config_file"), [])
    ensures Holds(y, ["config_file"])
  {
    assert y == Object(w.fields - {"config_line"});
    assert ["config_file"][1..] == [];
  }

  /** Two hosts that share file, name and port and stand on different lines show a row when they change places. */
  lemma HostOrderShows(lib: Library, path: seq<Step>, v: Value, w: Value, key: string)
    requires VirtualHost(lib, v, {}).Some? && VirtualHost(lib, w, {}).Some?
    requires VirtualHost(lib, v, {}).value.0 == key == VirtualHost(lib, w, {}).value.0
    requires LineOf(lib, v) != "" && LineOf(lib, w) != "" && LineOf(lib, v) != LineOf(lib, w)
    requires Holds(At(w.fields, "config_file"), [])
    ensures Rows(lib, path, List([v, w]), List([w, v])) != []
  {
    var x, y := VirtualHost(lib, v, {}).value.1, VirtualHost(lib, w, {}).value.1;
    var k := Longer(key, LineOf(lib, w));
    TwoHosts(lib, v, w, key, x, y);
    TwoHosts(lib, w, v, key, y, x);
    LongerKeys(key, LineOf(lib, w), LineOf(lib, v));
    var p := SwappedHosts(lib, v, w, key, x, y, k, Longer(key, LineOf(lib, v)));
    HostHoldsItsFile(lib, w, key, y);
    OneSidedItemShows(lib, path, List([v, w]), List([w, v]), k, ["config_file"]);
  }

  function Host(file: string, line: string): Value {
    Object(map["config_file" := Text(file), "config_line" := Text(line)])
  }

  /** Such as these two. */
  lemma TwoSuchHosts(lib: Library, path: seq<Step>)
    ensures Rows(lib, path, List([Host("f", "1"), Host("f", "2")]), List([Host("f", "2"), Host("f", "1")])) != []
  {
    var v, w := Host("f", "1"), Host("f", "2");
    assert LineOf(lib, v) == "1" && LineOf(lib, w) == "2";
    HostOrderShows(lib, path, v, w, VirtualHost(lib, v, {}).value.0);
  }
}
