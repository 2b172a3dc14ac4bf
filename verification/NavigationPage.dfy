/** The administration page: grouping the rows of the joined tables. */
module NavigationPage {
  import opened Wrappers
  import opened Ordering
  import opened Places
  import opened Navigation
  import opened NavigationRuns
  import opened NavigationAdmin

  /** A row of categories joined with their modules; a category without modules has one row without a module. */
  datatype Row = Row(category: int, id: Option<int>)

  function RowsOf(category: int, modules: seq<int>): seq<Row> {
    if modules == [] then [] else [Row(category, Some(modules[0]))] + RowsOf(category, modules[1..])
  }

  function EntryRows(entry: Shown): seq<Row> {
    if entry.modules == [] then [Row(entry.category, None)] else RowsOf(entry.category, entry.modules)
  }

  /** The rows of a page, in its order. */
  function JoinedRows(shown: seq<Shown>): seq<Row> {
    if shown == [] then [] else EntryRows(shown[0]) + JoinedRows(shown[1..])
  }

  function IndexOf(items: seq<Shown>, category: int): int {
    if items == [] then -1
    else if items[|items| - 1].category == category then |items| - 1
    else IndexOf(items[..|items| - 1], category)
  }

  lemma {:induction false} IndexIsWithin(items: seq<Shown>, category: int)
    ensures -1 <= IndexOf(items, category) < |items|
    ensures IndexOf(items, category) >= 0 ==> items[IndexOf(items, category)].category == category
    ensures IndexOf(items, category) < 0 <==> forall i | 0 <= i < |items| :: items[i].category != category
  {
    if items != [] && items[|items| - 1].category != category {
      IndexIsWithin(items[..|items| - 1], category);
    }
  }

  function Extended(entry: Shown, id: Option<int>): Shown {
    if id.None? then entry else Shown(entry.category, entry.modules + [id.value])
  }

  /** One row more. */
  function AddRow(items: seq<Shown>, row: Row): seq<Shown> {
    IndexIsWithin(items, row.category);
    var i := IndexOf(items, row.category);
    if i < 0 then items + [Extended(Shown(row.category, []), row.id)] else items[i := Extended(items[i], row.id)]
  }

  function AddRows(items: seq<Shown>, rows: seq<Row>): seq<Shown>
    decreases |rows|
  {
    if rows == [] then items else AddRows(AddRow(items, rows[0]), rows[1..])
  }

  lemma {:induction false} AddRowsAppend(items: seq<Shown>, a: seq<Row>, b: seq<Row>)
    ensures AddRows(items, a + b) == AddRows(AddRows(items, a), b)
    decreases |a|
  {
    if a == [] {
      assert a + b == b;
    } else {
      assert (a + b)[1..] == a[1..] + b;
      AddRowsAppend(AddRow(items, a[0]), a[1..], b);
    }
  }

  lemma {:induction false} AddModules(items: seq<Shown>, category: int, done: seq<int>, modules: seq<int>)
    ensures AddRows(items + [Shown(category, done)], RowsOf(category, modules)) == items + [Shown(category, done + modules)]
    decreases |modules|
  {
    if modules == [] {
      assert done + [] == done;
    } else {
      var all := items + [Shown(category, done)];
      assert IndexOf(all, category) == |items|;
      assert AddRow(all, Row(category, Some(modules[0]))) == items + [Shown(category, done + [modules[0]])];
      AddModules(items, category, done + [modules[0]], modules[1..]);
      assert done + [modules[0]] + modules[1..] == done + modules;
    }
  }

  lemma {:induction false} AddEntry(items: seq<Shown>, entry: Shown)
    requires forall i | 0 <= i < |items| :: items[i].category != entry.category
    ensures AddRows(items, EntryRows(entry)) == items + [entry]
  {
    IndexIsWithin(items, entry.category);
    var c, modules := entry.category, entry.modules;
    if modules == [] {
      assert EntryRows(entry)[1..] == [];
    } else {
      assert [] + [modules[0]] == [modules[0]];
      assert AddRow(items, Row(c, Some(modules[0]))) == items + [Shown(c, [modules[0]])];
      AddModules(items, c, [modules[0]], modules[1..]);
      assert [modules[0]] + modules[1..] == modules;
    }
  }

  predicate DistinctEntries(shown: seq<Shown>) {
    forall i, j | 0 <= i < j < |shown| :: shown[i].category != shown[j].category
  }

  lemma OneOver(items: seq<Shown>, shown: seq<Shown>)
    requires shown != []
    ensures items + [shown[0]] + shown[1..] == items + shown
  {
  }

  lemma NextEntryIsNew(items: seq<Shown>, shown: seq<Shown>)
    requires shown != [] && DistinctEntries(items + shown)
    ensures forall i | 0 <= i < |items| :: items[i].category != shown[0].category
  {
    var all := items + shown;
    forall i | 0 <= i < |items| ensures items[i].category != shown[0].category {
      assert all[i] == items[i] && all[|items|] == shown[0];
    }
  }

  /** Grouping the rows of a page gives the page. */
  lemma {:induction false} GroupsOfJoined(items: seq<Shown>, shown: seq<Shown>)
    requires DistinctEntries(items + shown)
    ensures AddRows(items, JoinedRows(shown)) == items + shown
    decreases |shown|
  {
    if shown == [] {
      assert items + [] == items;
    } else {
      var first, rest := shown[0], shown[1..];
      NextEntryIsNew(items, shown);
      AddEntry(items, first);
      AddRowsAppend(items, EntryRows(first), JoinedRows(rest));
      OneOver(items, shown);
      GroupsOfJoined(items + [first], rest);
    }
  }

  lemma DisplayIsDistinct(t: Tables)
    ensures DistinctEntries(Display(t))
  {
    var ids := Order(CategoryPlaces(t));
    if ids != [] { ShownAt(t, ids, 0); }
    forall i, j | 0 <= i < j < |Display(t)| ensures Display(t)[i].category != Display(t)[j].category {
      ShownAt(t, ids, i);
      ShownAt(t, ids, j);
      assert Precedes(CategoryPlaces(t), ids[i], ids[j]);
    }
  }

  lemma IndexAfterExtending(items: seq<Shown>, i: nat, entry: Shown, category: int)
    requires i < |items| && entry.category == items[i].category
    ensures IndexOf(items[i := entry], category) == IndexOf(items, category)
    decreases |items|
  {
    var n := |items| - 1;
    if items[n].category != category {
      if i < n {
        assert items[i := entry][..n] == items[..n][i := entry];
        IndexAfterExtending(items[..n], i, entry, category);
      } else {
        assert items[i := entry][..n] == items[..n];
      }
    }
  }

  lemma IndexAfterAppending(items: seq<Shown>, entry: Shown, category: int)
    ensures IndexOf(items + [entry], category) == if entry.category == category then |items| else IndexOf(items, category)
  {
    assert (items + [entry])[..|items|] == items;
  }

  ghost predicate Indexes(index: map<int, int>, items: seq<Shown>) {
    forall c :: if c in index then index[c] == IndexOf(items, c) && index[c] >= 0 else IndexOf(items, c) < 0
  }

  /** The loop over the rows of the joined tables. */
  method GroupRows(rows: seq<Row>) returns (items: seq<Shown>)
    ensures items == AddRows([], rows)
  {
    items := [];
    var index: map<int, int> := map[];
    assert rows[0..] == rows;
    for n := 0 to |rows|
      invariant Indexes(index, items) && AddRows([], rows) == AddRows(items, rows[n..])
    {
      var row := rows[n];
      assert rows[n..][0] == row && rows[n..][1..] == rows[n + 1..];
      IndexIsWithin(items, row.category);
      ghost var before := items;
      if row.category !in index {
        index := index[row.category := |items|];
        items := items + [Extended(Shown(row.category, []), row.id)];
        forall c ensures IndexOf(items, c) == if c == row.category then |before| else IndexOf(before, c) {
          IndexAfterAppending(before, items[|before|], c);
        }
      } else {
        var at := index[row.category];
        items := items[at := Extended(items[at], row.id)];
        forall c ensures IndexOf(items, c) == IndexOf(before, c) {
          IndexAfterExtending(before, at, items[at], c);
        }
      }
    }
    assert rows[|rows|..] == [];
  }

  // ---------- What the query promises ----------

  /** A row of categories left-joined with their modules. */
  predicate IsJoinRow(t: Tables, row: Row) {
    && row.category in t.categories
    && match row.id
       case Some(m) => m in t.modules && t.modules[m].category == row.category
       case None => !HasModules(t, row.category)
  }

  /** By category position and identifier, then by module position and identifier. */
  predicate RowBefore(t: Tables, a: Row, b: Row)
    requires IsJoinRow(t, a) && IsJoinRow(t, b)
  {
    if a.category != b.category then Precedes(CategoryPlaces(t), a.category, b.category)
    else a.id.Some? && b.id.Some? && Precedes(ModulePlaces(t, a.category), a.id.value, b.id.value)
  }

  /** The result of the query: every joined row, once, none before one that sorts ahead of it. */
  ghost predicate IsQueryResult(t: Tables, rows: seq<Row>) {
    && (forall row :: row in rows <==> IsJoinRow(t, row))
    && forall i, j | 0 <= i < j < |rows| :: rows[i] != rows[j] && !RowBefore(t, rows[j], rows[i])
  }

  ghost predicate RowsInOrder(t: Tables, rows: seq<Row>) {
    && (forall i | 0 <= i < |rows| :: IsJoinRow(t, rows[i]))
    && forall i, j | 0 <= i < j < |rows| :: RowBefore(t, rows[i], rows[j])
  }

  lemma RowsAreComparable(t: Tables, a: Row, b: Row)
    requires IsJoinRow(t, a) && IsJoinRow(t, b) && a != b
    ensures RowBefore(t, a, b) || RowBefore(t, b, a)
  {
  }

  lemma QueryIsInOrder(t: Tables, rows: seq<Row>)
    requires IsQueryResult(t, rows)
    ensures RowsInOrder(t, rows)
  {
    forall i | 0 <= i < |rows| ensures IsJoinRow(t, rows[i]) { assert rows[i] in rows; }
    forall i, j | 0 <= i < j < |rows| ensures RowBefore(t, rows[i], rows[j]) {
      assert rows[i] in rows && rows[j] in rows;
      RowsAreComparable(t, rows[i], rows[j]);
    }
  }

  lemma TailOfOrder(t: Tables, rows: seq<Row>, row: Row)
    requires RowsInOrder(t, rows) && rows != []
    ensures RowsInOrder(t, rows[1..]) && (row in rows[1..] <==> row in rows && row != rows[0])
  {
    assert rows == [rows[0]] + rows[1..];
    if row in rows[1..] {
      var i :| 0 <= i < |rows[1..]| && rows[1..][i] == row;
      assert RowBefore(t, rows[0], rows[i + 1]);
    }
  }

  lemma FirstRowIsFirst(t: Tables, rows: seq<Row>, row: Row)
    requires RowsInOrder(t, rows) && row in rows
    ensures IsJoinRow(t, row) && (row == rows[0] || RowBefore(t, rows[0], row))
  {
    var i :| 0 <= i < |rows| && rows[i] == row;
  }

  /** Rows have one order. */
  lemma {:induction false} RowOrderIsUnique(t: Tables, a: seq<Row>, b: seq<Row>)
    requires RowsInOrder(t, a) && RowsInOrder(t, b) && forall row :: row in a <==> row in b
    ensures a == b
  {
    NonEmpty(a);
    NonEmpty(b);
    assert Elements(a) == Elements(b);
    if a != [] {
      assert a[0] in b && b[0] in a;
      FirstRowIsFirst(t, a, b[0]);
      FirstRowIsFirst(t, b, a[0]);
      assert a[0] == b[0];
      forall row ensures row in a[1..] <==> row in b[1..] {
        TailOfOrder(t, a, row);
        TailOfOrder(t, b, row);
      }
      RowOrderIsUnique(t, a[1..], b[1..]);
      assert a == [a[0]] + a[1..] && b == [b[0]] + b[1..];
    }
  }

  lemma {:induction false} RowsOfAt(category: int, modules: seq<int>, i: nat)
    requires i < |modules|
    ensures |RowsOf(category, modules)| == |modules| && RowsOf(category, modules)[i] == Row(category, Some(modules[i]))
  {
    if |modules| > 1 { RowsOfAt(category, modules[1..], if i > 0 then i - 1 else 0); }
  }

  lemma RowsOfAre(t: Tables, category: int, modules: seq<int>, rows: seq<Row>)
    requires category in t.categories && IsOrder(ModulePlaces(t, category), modules) && rows == RowsOf(category, modules)
    ensures RowsInOrder(t, rows)
    ensures forall row :: row in rows <==> IsJoinRow(t, row) && row.category == category && row.id.Some?
  {
    var places := ModulePlaces(t, category);
    if modules != [] { RowsOfAt(category, modules, 0); }
    forall i | 0 <= i < |modules| ensures rows[i] == Row(category, Some(modules[i])) && IsJoinRow(t, rows[i]) {
      RowsOfAt(category, modules, i);
      assert modules[i] in places;
    }
    forall row | IsJoinRow(t, row) && row.category == category && row.id.Some? ensures row in rows {
      assert row.id.value in Elements(modules);
      var i :| 0 <= i < |modules| && modules[i] == row.id.value;
      assert rows[i] == row;
    }
  }

  lemma EntryRowsAre(t: Tables, category: int, modules: seq<int>, rows: seq<Row>)
    requires category in t.categories && IsOrder(ModulePlaces(t, category), modules)
    requires rows == EntryRows(Shown(category, modules))
    ensures RowsInOrder(t, rows)
    ensures forall row :: row in rows <==> IsJoinRow(t, row) && row.category == category
  {
    NoModulesNoPlaces(t, category);
    NonEmpty(modules);
    if modules == [] {
      forall row | IsJoinRow(t, row) && row.category == category ensures row == Row(category, None) {}
    } else {
      RowsOfAre(t, category, modules, rows);
    }
  }

  lemma NoModulesNoPlaces(t: Tables, category: int)
    ensures HasModules(t, category) <==> ModulePlaces(t, category).Keys != {}
  {
    if HasModules(t, category) {
      var m :| m in t.modules && t.modules[m].category == category;
      assert m in ModulePlaces(t, category);
    } else {
      SomeOrNone(ModulePlaces(t, category).Keys);
    }
  }

  lemma {:induction false} JoinedRowsAre(t: Tables, categories: seq<int>)
    requires InOrder(CategoryPlaces(t), categories)
    ensures RowsInOrder(t, JoinedRows(ShownAll(t, categories)))
    ensures forall row :: row in JoinedRows(ShownAll(t, categories)) <==> IsJoinRow(t, row) && row.category in categories
  {
    if categories != [] {
      var c, rest := categories[0], categories[1..];
      EntryRowsAre(t, c, Order(ModulePlaces(t, c)), EntryRows(Shown(c, Order(ModulePlaces(t, c)))));
      JoinedRowsAre(t, rest);
      var first, others := EntryRows(Shown(c, Order(ModulePlaces(t, c)))), JoinedRows(ShownAll(t, rest));
      assert JoinedRows(ShownAll(t, categories)) == first + others;
      assert categories == [c] + rest;
      forall d | d in rest ensures Precedes(CategoryPlaces(t), c, d) {
        var i :| 0 <= i < |rest| && rest[i] == d;
        assert categories[i + 1] == d;
      }
      OrderedTogether(t, first, others);
    }
  }

  lemma OrderedTogether(t: Tables, a: seq<Row>, b: seq<Row>)
    requires RowsInOrder(t, a) && RowsInOrder(t, b)
    requires forall x, y | x in a && y in b :: x.category != y.category && IsJoinRow(t, x) && IsJoinRow(t, y) && RowBefore(t, x, y)
    ensures RowsInOrder(t, a + b)
  {
    var all := a + b;
    forall i, j | 0 <= i < j < |all| ensures RowBefore(t, all[i], all[j]) {
      if i < |a| <= j { assert all[i] in a && all[j] in b; }
    }
  }

  lemma InOrderIsResult(t: Tables, rows: seq<Row>)
    requires RowsInOrder(t, rows) && forall row :: row in rows <==> IsJoinRow(t, row)
    ensures IsQueryResult(t, rows)
  {
  }

  /** The rows of the page, in its order, keep the query's promise, and no other rows do. */
  lemma QueryGivesThePage(t: Tables, rows: seq<Row>)
    ensures IsQueryResult(t, rows) <==> rows == JoinedRows(Display(t))
  {
    var categories := Order(CategoryPlaces(t));
    JoinedRowsAre(t, categories);
    forall row: Row | row.category in t.categories ensures row.category in categories { assert row.category in Elements(categories); }
    InOrderIsResult(t, JoinedRows(Display(t)));
    if IsQueryResult(t, rows) {
      QueryIsInOrder(t, rows);
      RowOrderIsUnique(t, rows, JoinedRows(Display(t)));
    }
  }

  /** Reading the navigation: whatever the query returns, grouping it gives the page. */
  method AdminNavigation(navigator: Navigator, rows: seq<Row>) returns (shown: seq<Shown>)
    requires IsQueryResult(navigator.Contents(), rows)
    ensures shown == Display(navigator.Contents())
  {
    ghost var t := navigator.Contents();
    QueryGivesThePage(t, rows);
    shown := GroupRows(rows);
    DisplayIsDistinct(t);
    assert [] + Display(t) == Display(t);
    GroupsOfJoined([], Display(t));
  }
}
