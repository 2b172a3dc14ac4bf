/** The navigation administration: each operation as its transaction on the tables. */
module NavigationAdmin {
  import opened Names
  import opened Wrappers
  import opened Ordering
  import opened Places
  import opened Navigation
  import opened NavigationOrder

  lemma SameSize(part: set<int>, whole: set<int>)
    requires part <= whole
    ensures |part| == |whole| <==> part == whole
  {
    if part != whole {
      var more := whole - part;
      assert whole == part + more && part * more == {};
      assert |whole| == |part| + |more|;
    }
  }

  lemma RepeatedIsDuplicate(done: seq<int>, x: int, all: seq<int>)
    requires x in done && done + [x] <= all
    ensures !NoDuplicates(all)
  {
    var i :| 0 <= i < |done| && done[i] == x;
    assert (done + [x])[|done|] == x && (done + [x])[i] == x;
    assert all[i] == all[|done|];
  }

  lemma OneMoreIsDistinct(done: seq<int>, x: int)
    requires NoDuplicates(done) && x !in done
    ensures NoDuplicates(done + [x]) && Elements(done + [x]) == Elements(done) + {x}
  {
  }

  lemma UnknownIsOutside(x: int, all: seq<int>, known: set<int>)
    requires x in all && x !in known
    ensures Elements(all) != known
  {
    assert x in Elements(all);
  }

  /** How far a reordering has come: everything so far is known, distinct, and placed. */
  ghost predicate Underway(
      t: Tables, categories: seq<int>, lists: Lists, n: nat, seenCategories: set<int>, seenModules: set<int>, work: Tables)
  {
    && n <= |categories|
    && (forall c | c in categories[..n] :: c in lists && c in t.categories)
    && NoDuplicates(categories[..n]) && seenCategories == Elements(categories[..n]) <= t.categories.Keys
    && NoDuplicates(Flat(lists, categories[..n])) && seenModules == Elements(Flat(lists, categories[..n])) <= t.modules.Keys
    && work == Placed(t, categories, lists, n)
  }

  /** Within the list of category n, j modules further. */
  ghost predicate WithinList(
      t: Tables, categories: seq<int>, lists: Lists, n: nat, j: nat, seenModules: set<int>, start: map<int, Module>,
      modules: map<int, Module>)
    requires n < |categories|
  {
    var list := ListOf(lists, categories[n]);
    && j <= |list| && modules == PlaceList(start, categories[n], list, j)
    && var done := Flat(lists, categories[..n]) + list[..j];
       NoDuplicates(done) && seenModules == Elements(done) <= t.modules.Keys
  }

  lemma ListIsPartOfFlat(categories: seq<int>, lists: Lists, n: nat, j: nat)
    requires n < |categories| && j < |ListOf(lists, categories[n])|
    ensures var list := ListOf(lists, categories[n]);
            && Flat(lists, categories[..n]) + list[..j] + [list[j]] <= Flat(lists, categories)
            && list[j] in Flat(lists, categories)
            && Flat(lists, categories[..n]) + list[..j + 1] == Flat(lists, categories[..n]) + list[..j] + [list[j]]
  {
    FlatSplits(lists, categories, n);
    var list := ListOf(lists, categories[n]);
    assert list == list[..j] + [list[j]] + list[j + 1..];
    assert list[..j + 1] == list[..j] + [list[j]];
  }

  lemma ListDone(t: Tables, categories: seq<int>, lists: Lists, n: nat, seenModules: set<int>, start: map<int, Module>, modules: map<int, Module>)
    requires n < |categories| && WithinList(t, categories, lists, n, |ListOf(lists, categories[n])|, seenModules, start, modules)
    ensures modules == PlaceList(start, categories[n], ListOf(lists, categories[n]), |ListOf(lists, categories[n])|)
    ensures NoDuplicates(Flat(lists, categories[..n + 1])) && seenModules == Elements(Flat(lists, categories[..n + 1])) <= t.modules.Keys
  {
    FlatOneMore(lists, categories, n);
    assert ListOf(lists, categories[n])[..|ListOf(lists, categories[n])|] == ListOf(lists, categories[n]);
  }

  lemma CategoryDone(t: Tables, categories: seq<int>, lists: Lists, n: nat, seen: set<int>)
    requires n < |categories| && NoDuplicates(categories[..n]) && seen == Elements(categories[..n]) <= t.categories.Keys
    requires categories[n] !in seen && categories[n] in t.categories
    ensures NoDuplicates(categories[..n + 1]) && seen + {categories[n]} == Elements(categories[..n + 1]) <= t.categories.Keys
  {
    assert categories[..n + 1] == categories[..n] + [categories[n]];
    assert categories[n] !in categories[..n] by { assert categories[n] !in Elements(categories[..n]); }
    OneMoreIsDistinct(categories[..n], categories[n]);
  }

  lemma BadCategory(t: Tables, categories: seq<int>, lists: Lists, n: nat)
    requires n < |categories|
    requires categories[n] !in t.categories || categories[n] in categories[..n] || categories[n] !in lists
    ensures !Accepts(t, categories, lists)
  {
    if categories[n] !in t.categories {
      UnknownIsOutside(categories[n], categories, t.categories.Keys);
    } else if categories[n] in categories[..n] {
      assert categories[..n] + [categories[n]] == categories[..n + 1];
      RepeatedIsDuplicate(categories[..n], categories[n], categories);
    } else {
      assert categories[n] in categories;
    }
  }

  /** What the checks on category n decide. */
  lemma CheckCategory(t: Tables, categories: seq<int>, lists: Lists, n: nat, seen: set<int>)
    requires n < |categories| && NoDuplicates(categories[..n]) && seen == Elements(categories[..n]) <= t.categories.Keys
    ensures var c := categories[n];
            if c !in t.categories || c in seen || c !in lists then !Accepts(t, categories, lists)
            else NoDuplicates(categories[..n + 1]) && seen + {c} == Elements(categories[..n + 1]) <= t.categories.Keys
  {
    var c := categories[n];
    if c !in t.categories || c in seen || c !in lists {
      BadCategory(t, categories, lists, n);
    } else {
      CategoryDone(t, categories, lists, n, seen);
    }
  }

  lemma BadModule(t: Tables, categories: seq<int>, lists: Lists, n: nat, j: nat)
    requires n < |categories| && j < |ListOf(lists, categories[n])|
    requires var list := ListOf(lists, categories[n]);
             list[j] !in t.modules || list[j] in Flat(lists, categories[..n]) + list[..j]
    ensures !Accepts(t, categories, lists)
  {
    var list := ListOf(lists, categories[n]);
    ListIsPartOfFlat(categories, lists, n, j);
    if list[j] !in t.modules {
      UnknownIsOutside(list[j], Flat(lists, categories), t.modules.Keys);
    } else {
      RepeatedIsDuplicate(Flat(lists, categories[..n]) + list[..j], list[j], Flat(lists, categories));
    }
  }

  lemma OneCategoryOn(t: Tables, categories: seq<int>, lists: Lists, n: nat, work: Tables, next: Tables)
    requires n < |categories| && work == Placed(t, categories, lists, n)
    requires forall c | c in categories[..n] :: c in lists && c in t.categories
    requires var c := categories[n]; var list := ListOf(lists, c);
             && c in lists && c in t.categories
             && next == Tables(PlaceCategory(work.categories, c, n), PlaceList(work.modules, c, list, |list|))
    ensures next == Placed(t, categories, lists, n + 1)
    ensures forall c | c in categories[..n + 1] :: c in lists && c in t.categories
  {
    assert categories[..n + 1] == categories[..n] + [categories[n]];
  }

  /** Everything submitted is known and distinct: the order is complete when nothing else is known. */
  lemma Complete(t: Tables, categories: seq<int>, lists: Lists, seenCategories: set<int>, seenModules: set<int>, work: Tables)
    requires Underway(t, categories, lists, |categories|, seenCategories, seenModules, work) && 1 <= |categories| <= 100
    ensures Accepts(t, categories, lists) <==> |seenCategories| == |t.categories.Keys| && |seenModules| == |t.modules.Keys|
    ensures Accepts(t, categories, lists) ==> Changed(t, Reorder(categories, lists)) == Some(work)
  {
    assert categories[..|categories|] == categories;
    SameSize(seenCategories, t.categories.Keys);
    SameSize(seenModules, t.modules.Keys);
  }

  class Navigator {
    var categories: map<int, Category>
    var modules: map<int, Module>

    constructor (t: Tables)
      ensures Contents() == t
    {
      categories, modules := t.categories, t.modules;
    }

    function Contents(): Tables
      reads this
    {
      Tables(categories, modules)
    }

    method CommitTables(t: Tables)
      modifies this
      ensures Contents() == t
    {
      categories, modules := t.categories, t.modules;
    }

    /** Puts every category and module in the submitted order, inside a transaction that a refusal rolls back. */
    method ReorderNavigation(order: seq<int>, lists: Lists) returns (ok: bool)
      modifies this
      ensures ok <==> Accepts(old(Contents()), order, lists)
      ensures Contents() == After(old(Contents()), Reorder(order, lists))
    {
      ghost var t := Contents();
      ReorderGives(t, order, lists);
      if |order| == 0 || |order| > 100 {
        return false;
      }
      var knownCategories, knownModules := categories.Keys, modules.Keys;
      var seenCategories: set<int>, seenModules: set<int> := {}, {};
      var workCategories, workModules := categories, modules;
      assert order[..0] == [];
      for n := 0 to |order|
        invariant Contents() == t && knownCategories == t.categories.Keys && knownModules == t.modules.Keys
        invariant Underway(t, order, lists, n, seenCategories, seenModules, Tables(workCategories, workModules))
      {
        var c := order[n];
        ghost var work := Tables(workCategories, workModules);
        CheckCategory(t, order, lists, n, seenCategories);
        if c !in knownCategories || c in seenCategories || c !in lists {
          return false;
        }
        seenCategories := seenCategories + {c};
        workCategories := PlaceCategory(workCategories, c, n);
        var placed: Option<(map<int, Module>, set<int>)> := PlaceModules(t, order, lists, n, knownModules, workModules, seenModules);
        if placed.None? {
          return false;
        }
        OneCategoryOn(t, order, lists, n, work, Tables(workCategories, placed.value.0));
        workModules, seenModules := placed.value.0, placed.value.1;
      }
      Complete(t, order, lists, seenCategories, seenModules, Tables(workCategories, workModules));
      if |seenCategories| != |knownCategories| || |seenModules| != |knownModules| {
        return false;
      }
      categories, modules := workCategories, workModules;
      return true;
    }

    /** The loop over the list of one category. */
    method PlaceModules(
        ghost t: Tables, order: seq<int>, lists: Lists, n: nat, known: set<int>, start: map<int, Module>, startSeen: set<int>)
      returns (placed: Option<(map<int, Module>, set<int>)>)
      requires n < |order| && order[n] in lists && known == t.modules.Keys
      requires NoDuplicates(Flat(lists, order[..n])) && startSeen == Elements(Flat(lists, order[..n])) <= t.modules.Keys
      ensures placed.None? ==> !Accepts(t, order, lists)
      ensures placed.Some? ==>
                && placed.value.0 == PlaceList(start, order[n], ListOf(lists, order[n]), |ListOf(lists, order[n])|)
                && NoDuplicates(Flat(lists, order[..n + 1]))
                && placed.value.1 == Elements(Flat(lists, order[..n + 1])) <= t.modules.Keys
    {
      var list, work, seen := lists[order[n]], start, startSeen;
      assert Flat(lists, order[..n]) + list[..0] == Flat(lists, order[..n]);
      for j := 0 to |list|
        invariant WithinList(t, order, lists, n, j, seen, start, work)
      {
        var m := list[j];
        ghost var done := Flat(lists, order[..n]) + list[..j];
        if m !in known || m in seen {
          assert m in seen ==> m in done;
          BadModule(t, order, lists, n, j);
          return None;
        }
        ListIsPartOfFlat(order, lists, n, j);
        assert m !in done by { assert m !in Elements(done); }
        OneMoreIsDistinct(done, m);
        seen := seen + {m};
        work := PlaceModule(work, m, order[n], j);
      }
      ListDone(t, order, lists, n, seen, start, work);
      return Some((work, seen));
    }

    method MoveCategoryBy(id: int, direction: int) returns (ok: bool)
      modifies this
      ensures ok == Changed(old(Contents()), MoveCategory(id, direction)).Some?
      ensures Contents() == After(old(Contents()), MoveCategory(id, direction))
    {
      var places := Move(CategoryPlaces(Contents()), id, direction);
      if places.None? {
        return false;
      }
      CommitTables(WithCategoryPlaces(Contents(), places.value));
      return true;
    }

    method MoveModuleBy(id: int, direction: int) returns (ok: bool)
      modifies this
      ensures ok == Changed(old(Contents()), MoveModule(id, direction)).Some?
      ensures Contents() == After(old(Contents()), MoveModule(id, direction))
    {
      if id !in modules {
        return false;
      }
      var places := Move(ModulePlaces(Contents(), modules[id].category), id, direction);
      if places.None? {
        return false;
      }
      CommitTables(WithModulePlaces(Contents(), places.value));
      return true;
    }

    method Create(id: int, name: string) returns (ok: bool)
      modifies this
      ensures ok == Changed(old(Contents()), CreateCategory(id, name)).Some?
      ensures Contents() == After(old(Contents()), CreateCategory(id, name))
    {
      if id in categories || !NameFits(name) || exists c | c in categories :: SameName(categories[c].name, name) {
        return false;
      }
      var position := NextFree(CategoryPlaces(Contents()));
      categories := categories[id := Category(name, position)];
      return true;
    }

    method Delete(id: int) returns (ok: bool)
      modifies this
      ensures ok == Changed(old(Contents()), DeleteCategory(id)).Some?
      ensures Contents() == After(old(Contents()), DeleteCategory(id))
    {
      if id !in categories || HasModules(Contents(), id) {
        return false;
      }
      categories := categories - {id};
      return true;
    }
  }

  /** One more than the highest position. */
  method NextFree(places: Places) returns (p: int)
    ensures p == NextPosition(places)
  {
    p := 0;
    var rest := places.Keys;
    while rest != {}
      invariant rest <= places.Keys && IsNext(places, places.Keys - rest, p)
      decreases rest
    {
      SomeOrNone(rest);
      var id :| id in rest;
      ghost var done := places.Keys - rest;
      if rest == places.Keys || places[id] + 1 > p {
        p := places[id] + 1;
      }
      assert places.Keys - (rest - {id}) == done + {id};
      rest := rest - {id};
    }
    NextIsUnique(places, p, NextPosition(places));
  }

  lemma NextIsUnique(places: Places, p: int, q: int)
    requires IsNext(places, places.Keys, p) && IsNext(places, places.Keys, q)
    ensures p == q
  {
  }
}
