/** Orders kept, read back and undone. */
module NavigationOrder {
  import opened Wrappers
  import opened Ordering
  import opened Places
  import opened Navigation

  // ---------- Placing a list ----------

  lemma NoDuplicatesApart(s: seq<int>, i: nat, j: nat)
    requires NoDuplicates(s) && i < |s| && j < |s| && s[i] == s[j]
    ensures i == j
  {
  }

  /** The first n modules of a list have their places; the others are as before. */
  ghost predicate ListPlaced(modules: map<int, Module>, placed: map<int, Module>, category: int, list: seq<int>, n: nat) {
    && n <= |list| && placed.Keys == modules.Keys
    && (forall j | 0 <= j < n ::
          list[j] in modules && list[j] in placed && placed[list[j]] == modules[list[j]].(category := category, position := j))
    && forall m | m in modules && m !in list[..n] :: m in placed && placed[m] == modules[m]
  }

  lemma PlacedOneMore(modules: map<int, Module>, placed: map<int, Module>, category: int, list: seq<int>, n: nat)
    requires n < |list| && NoDuplicates(list) && list[n] in modules && ListPlaced(modules, placed, category, list, n)
    ensures ListPlaced(modules, PlaceModule(placed, list[n], category, n), category, list, n + 1)
  {
    assert list[n] !in list[..n];
    assert list[..n + 1] == list[..n] + [list[n]];
  }

  lemma NonePlaced(modules: map<int, Module>, category: int, list: seq<int>)
    ensures ListPlaced(modules, modules, category, list, 0)
  {
  }

  lemma {:induction false} PlacedListAt(modules: map<int, Module>, category: int, list: seq<int>, n: nat)
    requires n <= |list| && NoDuplicates(list) && Elements(list) <= modules.Keys
    ensures ListPlaced(modules, PlaceList(modules, category, list, n), category, list, n)
  {
    if n == 0 {
      NonePlaced(modules, category, list);
    } else {
      PlacedListAt(modules, category, list, n - 1);
      assert list[n - 1] in Elements(list);
      PlacedOneMore(modules, PlaceList(modules, category, list, n - 1), category, list, n - 1);
    }
  }

  // ---------- The submitted lists ----------

  lemma Regroup(a: seq<int>, b: seq<int>, c: seq<int>, d: seq<int>)
    ensures a + (b + c + d) == a + b + c + d
  {
  }

  lemma {:induction false} FlatSplits(lists: Lists, categories: seq<int>, i: nat)
    requires i < |categories|
    ensures Flat(lists, categories) ==
            Flat(lists, categories[..i]) + ListOf(lists, categories[i]) + Flat(lists, categories[i + 1..])
  {
    if i == 0 {
      assert categories[..0] == [];
    } else {
      var rest := categories[1..];
      FlatSplits(lists, rest, i - 1);
      assert categories[..i][1..] == rest[..i - 1] && rest[i..] == categories[i + 1..] && rest[i - 1] == categories[i];
      Regroup(ListOf(lists, categories[0]), Flat(lists, rest[..i - 1]), ListOf(lists, categories[i]), Flat(lists, rest[i..]));
    }
  }

  lemma FlatOneMore(lists: Lists, categories: seq<int>, i: nat)
    requires i < |categories|
    ensures Flat(lists, categories[..i + 1]) == Flat(lists, categories[..i]) + ListOf(lists, categories[i])
  {
    FlatSplits(lists, categories[..i + 1], i);
    assert categories[..i + 1][..i] == categories[..i] && categories[..i + 1][i + 1..] == [];
  }

  lemma PartsHaveNoDuplicates(a: seq<int>, b: seq<int>, c: seq<int>)
    requires NoDuplicates(a + b + c)
    ensures NoDuplicates(a) && NoDuplicates(b) && NoDuplicates(c)
    ensures forall x | x in a :: x !in b && x !in c
    ensures forall x | x in b :: x !in c
  {
    var s := a + b + c;
    assert forall i | 0 <= i < |a| :: s[i] == a[i];
    assert forall i | 0 <= i < |b| :: s[|a| + i] == b[i];
    assert forall i | 0 <= i < |c| :: s[|a| + |b| + i] == c[i];
  }

  /** What is known of a complete order after n of its categories. */
  lemma Progress(t: Tables, categories: seq<int>, lists: Lists, n: nat)
    requires Accepts(t, categories, lists) && n < |categories|
    ensures var list := ListOf(lists, categories[n]); var before := Flat(lists, categories[..n]);
            && NoDuplicates(list) && Elements(list) <= t.modules.Keys && (forall x | x in before :: x !in list)
            && Flat(lists, categories[..n + 1]) == before + list && categories[n] in t.categories
            && categories[n] !in categories[..n]
  {
    FlatSplits(lists, categories, n);
    FlatOneMore(lists, categories, n);
    var list, before, after := ListOf(lists, categories[n]), Flat(lists, categories[..n]), Flat(lists, categories[n + 1..]);
    PartsHaveNoDuplicates(before, list, after);
    forall x | x in list ensures x in t.modules { assert x in Elements(Flat(lists, categories)); }
    assert categories[n] in Elements(categories);
  }

  /** Each module of the first n categories is in its category at its place; the rest is untouched. */
  ghost predicate PlacedSoFar(t: Tables, categories: seq<int>, lists: Lists, n: nat, after: Tables)
    requires n <= |categories|
  {
    && after.categories.Keys == t.categories.Keys && after.modules.Keys == t.modules.Keys
    && (forall i | 0 <= i < n :: PlacedCategory(t, categories, lists, i, after))
    && (forall m | m in t.modules && m !in Flat(lists, categories[..n]) :: after.modules[m] == t.modules[m])
    && (forall c | c in t.categories && c !in categories[..n] :: after.categories[c] == t.categories[c])
  }

  ghost predicate PlacedCategory(t: Tables, categories: seq<int>, lists: Lists, i: nat, after: Tables)
    requires i < |categories|
  {
    var c := categories[i];
    && c in t.categories && c in after.categories && after.categories[c] == t.categories[c].(position := i)
    && PlacedModules(t.modules, after.modules, c, ListOf(lists, c))
  }

  ghost predicate PlacedModules(before: map<int, Module>, after: map<int, Module>, category: int, list: seq<int>) {
    forall j | 0 <= j < |list| ::
      list[j] in before && list[j] in after && after[list[j]] == before[list[j]].(category := category, position := j)
  }

  ghost predicate Untouched(list: seq<int>, before: Tables, after: Tables) {
    forall x | x in list && x in before.modules :: x in after.modules && after.modules[x] == before.modules[x]
  }

  lemma StillPlaced(t: Tables, categories: seq<int>, lists: Lists, n: nat, i: nat, before: Tables, after: Tables)
    requires i < n < |categories| && PlacedCategory(t, categories, lists, i, before)
    requires Untouched(Flat(lists, categories[..n]), before, after)
    requires categories[i] in after.categories && after.categories[categories[i]] == before.categories[categories[i]]
    ensures PlacedCategory(t, categories, lists, i, after)
  {
    FlatSplits(lists, categories[..n], i);
    assert categories[..n][i] == categories[i];
    var list := ListOf(lists, categories[i]);
    forall j | 0 <= j < |list|
      ensures list[j] in after.modules && after.modules[list[j]] == t.modules[list[j]].(category := categories[i], position := j)
    {
      assert PlacedModules(t.modules, before.modules, categories[i], list);
      assert list[j] in list;
      UntouchedAt(Flat(lists, categories[..n]), before, after, list[j]);
    }
  }

  lemma UntouchedAt(list: seq<int>, before: Tables, after: Tables, x: int)
    requires Untouched(list, before, after) && x in list && x in before.modules
    ensures x in after.modules && after.modules[x] == before.modules[x]
  {
  }

  lemma OthersUntouched(t: Tables, categories: seq<int>, lists: Lists, n: nat, before: Tables, after: Tables)
    requires Accepts(t, categories, lists) && n < |categories| && PlacedSoFar(t, categories, lists, n, before)
    requires var c := categories[n]; var list := ListOf(lists, c);
             after == Tables(PlaceCategory(before.categories, c, n), PlaceList(before.modules, c, list, |list|))
    ensures after.categories.Keys == t.categories.Keys && after.modules.Keys == t.modules.Keys
    ensures Untouched(Flat(lists, categories[..n]), before, after)
    ensures forall c | c in before.categories && c != categories[n] :: after.categories[c] == before.categories[c]
    ensures forall m | m in t.modules && m !in Flat(lists, categories[..n + 1]) :: after.modules[m] == t.modules[m]
  {
    Progress(t, categories, lists, n);
    var list := ListOf(lists, categories[n]);
    OnlyTheList(before, after, categories[n], list, n);
    OtherModules(t.modules, before.modules, after.modules, Flat(lists, categories[..n]), list);
  }

  lemma OnlyTheList(before: Tables, after: Tables, category: int, list: seq<int>, n: nat)
    requires NoDuplicates(list) && Elements(list) <= before.modules.Keys && category in before.categories
    requires after == Tables(PlaceCategory(before.categories, category, n), PlaceList(before.modules, category, list, |list|))
    ensures after.categories.Keys == before.categories.Keys && after.modules.Keys == before.modules.Keys
    ensures forall c | c in before.categories && c != category :: after.categories[c] == before.categories[c]
    ensures forall m | m in before.modules && m !in list :: after.modules[m] == before.modules[m]
  {
    PlacedListAt(before.modules, category, list, |list|);
    assert list[..|list|] == list;
  }

  /** Modules off the list stay where they were. */
  lemma OtherModules(
      start: map<int, Module>, before: map<int, Module>, after: map<int, Module>, done: seq<int>, list: seq<int>)
    requires after.Keys == before.Keys == start.Keys && forall x | x in done :: x !in list
    requires forall m | m in start && m !in done :: before[m] == start[m]
    requires forall m | m in before && m !in list :: after[m] == before[m]
    ensures forall x | x in done && x in before :: x in after && after[x] == before[x]
    ensures forall m | m in start && m !in done + list :: after[m] == start[m]
  {
  }

  lemma JustPlaced(t: Tables, categories: seq<int>, lists: Lists, n: nat, before: Tables, after: Tables)
    requires Accepts(t, categories, lists) && n < |categories| && PlacedSoFar(t, categories, lists, n, before)
    requires var c := categories[n]; var list := ListOf(lists, c);
             after == Tables(PlaceCategory(before.categories, c, n), PlaceList(before.modules, c, list, |list|))
    ensures PlacedCategory(t, categories, lists, n, after)
  {
    Progress(t, categories, lists, n);
    var c, list := categories[n], ListOf(lists, categories[n]);
    PlacedListAt(before.modules, c, list, |list|);
    forall j | 0 <= j < |list|
      ensures list[j] in t.modules && list[j] in after.modules
      ensures after.modules[list[j]] == t.modules[list[j]].(category := c, position := j)
    {
      assert list[j] in Elements(list) && list[j] !in Flat(lists, categories[..n]);
    }
  }

  lemma AllStillPlaced(t: Tables, categories: seq<int>, lists: Lists, n: nat, before: Tables, after: Tables)
    requires n < |categories| && NoDuplicates(categories) && PlacedSoFar(t, categories, lists, n, before)
    requires Untouched(Flat(lists, categories[..n]), before, after) && after.categories.Keys == before.categories.Keys
    requires forall c | c in before.categories && c != categories[n] :: after.categories[c] == before.categories[c]
    ensures forall i | 0 <= i < n :: PlacedCategory(t, categories, lists, i, after)
  {
    forall i | 0 <= i < n ensures PlacedCategory(t, categories, lists, i, after) {
      assert PlacedCategory(t, categories, lists, i, before);
      StillPlaced(t, categories, lists, n, i, before, after);
    }
  }

  lemma OtherCategories(categories: seq<int>, n: nat, before: map<int, Category>, start: map<int, Category>, after: map<int, Category>)
    requires n < |categories| && after.Keys == before.Keys == start.Keys
    requires forall c | c in start && c !in categories[..n] :: before[c] == start[c]
    requires forall c | c in before && c != categories[n] :: after[c] == before[c]
    ensures forall c | c in start && c !in categories[..n + 1] :: after[c] == start[c]
  {
    assert categories[..n + 1] == categories[..n] + [categories[n]];
  }

  /** One category more. */
  lemma PlaceOneMore(t: Tables, categories: seq<int>, lists: Lists, n: nat, before: Tables, after: Tables)
    requires Accepts(t, categories, lists) && n < |categories| && PlacedSoFar(t, categories, lists, n, before)
    requires var c := categories[n]; var list := ListOf(lists, c);
             after == Tables(PlaceCategory(before.categories, c, n), PlaceList(before.modules, c, list, |list|))
    ensures PlacedSoFar(t, categories, lists, n + 1, after)
  {
    OthersUntouched(t, categories, lists, n, before, after);
    AllStillPlaced(t, categories, lists, n, before, after);
    JustPlaced(t, categories, lists, n, before, after);
    OtherCategories(categories, n, before.categories, t.categories, after.categories);
  }

  lemma NothingPlaced(t: Tables, categories: seq<int>, lists: Lists)
    ensures PlacedSoFar(t, categories, lists, 0, Placed(t, categories, lists, 0))
  {
  }

  lemma PlacedStep(t: Tables, categories: seq<int>, lists: Lists, n: nat) returns (before: Tables, after: Tables)
    requires n < |categories|
    ensures before == Placed(t, categories, lists, n) && after == Placed(t, categories, lists, n + 1)
    ensures var c := categories[n]; var list := ListOf(lists, c);
            after == Tables(PlaceCategory(before.categories, c, n), PlaceList(before.modules, c, list, |list|))
  {
    before, after := Placed(t, categories, lists, n), Placed(t, categories, lists, n + 1);
  }

  lemma {:induction false} ReorderPlaces(t: Tables, categories: seq<int>, lists: Lists, n: nat)
    requires Accepts(t, categories, lists) && n <= |categories|
    ensures PlacedSoFar(t, categories, lists, n, Placed(t, categories, lists, n))
  {
    if n == 0 {
      NothingPlaced(t, categories, lists);
    } else {
      ReorderPlaces(t, categories, lists, n - 1);
      var before, after := PlacedStep(t, categories, lists, n - 1);
      PlaceOneMore(t, categories, lists, n - 1, before, after);
    }
  }

  // ---------- Reading back what was submitted ----------

  lemma {:induction false} FlatHas(lists: Lists, categories: seq<int>, x: int) returns (i: nat)
    requires x in Flat(lists, categories)
    ensures i < |categories| && x in ListOf(lists, categories[i])
  {
    if x in ListOf(lists, categories[0]) {
      i := 0;
    } else {
      i := FlatHas(lists, categories[1..], x);
      i := i + 1;
    }
  }

  lemma AllPlaced(t: Tables, categories: seq<int>, lists: Lists) returns (after: Tables)
    requires Accepts(t, categories, lists)
    ensures after == Placed(t, categories, lists, |categories|)
    ensures after.categories.Keys == t.categories.Keys && after.modules.Keys == t.modules.Keys
    ensures forall i | 0 <= i < |categories| :: PlacedCategory(t, categories, lists, i, after)
  {
    after := Placed(t, categories, lists, |categories|);
    ReorderPlaces(t, categories, lists, |categories|);
  }

  lemma CategoriesInOrder(t: Tables, categories: seq<int>, lists: Lists, after: Tables)
    requires Accepts(t, categories, lists) && after.categories.Keys == t.categories.Keys
    requires forall i | 0 <= i < |categories| :: PlacedCategory(t, categories, lists, i, after)
    ensures IsOrder(CategoryPlaces(after), categories)
    ensures forall i | 0 <= i < |categories| :: CategoryPlaces(after)[categories[i]] == i
  {
    forall i | 0 <= i < |categories| ensures categories[i] in CategoryPlaces(after) && CategoryPlaces(after)[categories[i]] == i {
      assert PlacedCategory(t, categories, lists, i, after);
    }
  }

  /** A module is in the category whose list it is in. */
  lemma CategoryOfModule(t: Tables, categories: seq<int>, lists: Lists, after: Tables, m: int) returns (i: nat, j: nat)
    requires Accepts(t, categories, lists) && m in t.modules
    requires forall i | 0 <= i < |categories| :: PlacedCategory(t, categories, lists, i, after)
    ensures i < |categories| && j < |ListOf(lists, categories[i])| && ListOf(lists, categories[i])[j] == m
    ensures m in after.modules && after.modules[m] == t.modules[m].(category := categories[i], position := j)
  {
    assert m in Elements(Flat(lists, categories));
    i := FlatHas(lists, categories, m);
    j :| 0 <= j < |ListOf(lists, categories[i])| && ListOf(lists, categories[i])[j] == m;
    assert PlacedCategory(t, categories, lists, i, after);
  }

  lemma ModulesInOrder(t: Tables, categories: seq<int>, lists: Lists, after: Tables, i: nat)
    requires Accepts(t, categories, lists) && after.modules.Keys == t.modules.Keys && i < |categories|
    requires forall i | 0 <= i < |categories| :: PlacedCategory(t, categories, lists, i, after)
    ensures IsOrder(ModulePlaces(after, categories[i]), ListOf(lists, categories[i]))
  {
    var c, list := categories[i], ListOf(lists, categories[i]);
    var places := ModulePlaces(after, c);
    assert PlacedModules(t.modules, after.modules, c, list) by { assert PlacedCategory(t, categories, lists, i, after); }
    forall j | 0 <= j < |list| ensures list[j] in places && places[list[j]] == j {}
    forall m | m in places ensures m in list {
      var k, j := CategoryOfModule(t, categories, lists, after, m);
      NoDuplicatesApart(categories, i, k);
    }
  }

  function Submitted(lists: Lists, categories: seq<int>): seq<Shown> {
    if categories == [] then []
    else [Shown(categories[0], ListOf(lists, categories[0]))] + Submitted(lists, categories[1..])
  }

  lemma {:induction false} ShownAsSubmitted(t: Tables, lists: Lists, categories: seq<int>)
    requires forall i | 0 <= i < |categories| :: Order(ModulePlaces(t, categories[i])) == ListOf(lists, categories[i])
    ensures ShownAll(t, categories) == Submitted(lists, categories)
  {
    if categories != [] {
      ShownAsSubmitted(t, lists, categories[1..]);
    }
  }

  lemma ModulesShown(t: Tables, categories: seq<int>, lists: Lists, after: Tables, i: nat)
    requires Accepts(t, categories, lists) && after.modules.Keys == t.modules.Keys && i < |categories|
    requires forall i | 0 <= i < |categories| :: PlacedCategory(t, categories, lists, i, after)
    ensures Order(ModulePlaces(after, categories[i])) == ListOf(lists, categories[i])
  {
    ModulesInOrder(t, categories, lists, after, i);
    OrderIsUnique(ModulePlaces(after, categories[i]), Order(ModulePlaces(after, categories[i])), ListOf(lists, categories[i]));
  }

  lemma DisplayAsSubmitted(t: Tables, categories: seq<int>, lists: Lists, after: Tables)
    requires Accepts(t, categories, lists)
    requires after.categories.Keys == t.categories.Keys && after.modules.Keys == t.modules.Keys
    requires forall i | 0 <= i < |categories| :: PlacedCategory(t, categories, lists, i, after)
    ensures Display(after) == Submitted(lists, categories)
  {
    CategoriesInOrder(t, categories, lists, after);
    OrderIsUnique(CategoryPlaces(after), Order(CategoryPlaces(after)), categories);
    forall i | 0 <= i < |categories| ensures Order(ModulePlaces(after, categories[i])) == ListOf(lists, categories[i]) {
      ModulesShown(t, categories, lists, after, i);
    }
    ShownAsSubmitted(after, lists, categories);
  }

  /** After an accepted reordering the page shows exactly the submitted categories, each with exactly its submitted list. */
  lemma ReorderReadsBack(t: Tables, categories: seq<int>, lists: Lists)
    requires Accepts(t, categories, lists)
    ensures Changed(t, Reorder(categories, lists)).Some?
    ensures Display(Changed(t, Reorder(categories, lists)).value) == Submitted(lists, categories)
  {
    var after := AllPlaced(t, categories, lists);
    DisplayAsSubmitted(t, categories, lists, after);
    ReorderGives(t, categories, lists);
  }

  lemma ReorderGives(t: Tables, categories: seq<int>, lists: Lists)
    ensures Changed(t, Reorder(categories, lists)) ==
            if Accepts(t, categories, lists) then Some(Placed(t, categories, lists, |categories|)) else None
    ensures After(t, Reorder(categories, lists)) ==
            if Accepts(t, categories, lists) then Placed(t, categories, lists, |categories|) else t
  {
  }

  /** It needs no sound tables to leave sound ones. */
  lemma ReorderIsSound(t: Tables, categories: seq<int>, lists: Lists)
    requires Accepts(t, categories, lists)
    ensures Sound(Placed(t, categories, lists, |categories|))
  {
    var after := AllPlaced(t, categories, lists);
    CategoriesInOrder(t, categories, lists, after);
    OrderedByIndexIsDistinct(CategoryPlaces(after), categories);
    forall m | m in after.modules ensures after.modules[m].category in after.categories {
      var i, j := CategoryOfModule(t, categories, lists, after, m);
      assert categories[i] in Elements(categories);
    }
    forall c ensures Distinct(ModulePlaces(after, c)) {
      forall a, b | a in ModulePlaces(after, c) && b in ModulePlaces(after, c) && a != b
        ensures ModulePlaces(after, c)[a] != ModulePlaces(after, c)[b]
      {
        var i, j := CategoryOfModule(t, categories, lists, after, a);
        var k, l := CategoryOfModule(t, categories, lists, after, b);
        NoDuplicatesApart(categories, i, k);
      }
    }
  }

  lemma OrderedByIndexIsDistinct(places: Places, ids: seq<int>)
    requires Elements(ids) == places.Keys && forall i | 0 <= i < |ids| :: ids[i] in places && places[ids[i]] == i
    ensures Distinct(places)
  {
    forall a, b | a in places && b in places && a != b ensures places[a] != places[b] {
      assert a in Elements(ids) && b in Elements(ids);
      var i :| 0 <= i < |ids| && ids[i] == a;
      var j :| 0 <= j < |ids| && ids[j] == b;
    }
  }
}
