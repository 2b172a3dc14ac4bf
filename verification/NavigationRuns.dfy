/** Every run of changes keeps the tables sound; what a move, a creation and a deletion show. */
module NavigationRuns {
  import opened Wrappers
  import opened Ordering
  import opened Places
  import opened Navigation
  import opened NavigationOrder

  // ---------- Positions put back into the tables ----------

  lemma CategoryPlacesOf(t: Tables, places: Places)
    requires places.Keys == t.categories.Keys
    ensures CategoryPlaces(WithCategoryPlaces(t, places)) == places
  {
  }

  lemma ModulePlacesOf(t: Tables, places: Places, category: int, other: int)
    requires places.Keys == ModulePlaces(t, category).Keys
    ensures ModulePlaces(WithModulePlaces(t, places), other) == if other == category then places else ModulePlaces(t, other)
  {
    var after := WithModulePlaces(t, places);
    assert forall m | m in t.modules :: after.modules[m].category == t.modules[m].category;
  }

  lemma MovedIsDistinct(places: Places, id: int, direction: int)
    requires Distinct(places) && Moved(places, id, direction).Some?
    ensures Distinct(Moved(places, id, direction).value) && Moved(places, id, direction).value.Keys == places.Keys
  {
    var other :| IsNeighbour(places, id, direction, other);
    MovedIs(places, id, direction, other);
    ExchangeKeepsDistinct(places, id, other);
  }

  lemma NextIsDistinct(places: Places, id: int)
    requires Distinct(places) && id !in places
    ensures Distinct(places[id := NextPosition(places)])
  {
  }

  // ---------- Soundness is kept ----------

  lemma CreateKeepsSound(t: Tables, id: int, name: string)
    requires Sound(t) && Changed(t, CreateCategory(id, name)).Some?
    ensures Sound(Changed(t, CreateCategory(id, name)).value)
  {
    var after := Changed(t, CreateCategory(id, name)).value;
    var places := CategoryPlaces(t);
    NextIsDistinct(places, id);
    assert CategoryPlaces(after) == places[id := NextPosition(places)];
    forall c ensures Distinct(ModulePlaces(after, c)) { assert ModulePlaces(after, c) == ModulePlaces(t, c); }
  }

  lemma DeleteKeepsSound(t: Tables, id: int)
    requires Sound(t) && Changed(t, DeleteCategory(id)).Some?
    ensures Sound(Changed(t, DeleteCategory(id)).value)
  {
    var after := Changed(t, DeleteCategory(id)).value;
    assert forall c | c in CategoryPlaces(after) :: c in CategoryPlaces(t) && CategoryPlaces(after)[c] == CategoryPlaces(t)[c];
    forall c ensures Distinct(ModulePlaces(after, c)) { assert ModulePlaces(after, c) == ModulePlaces(t, c); }
  }

  lemma EnsureKeepsSound(t: Tables, id: int, category: int)
    requires Sound(t) && Changed(t, EnsureModule(id, category)).Some?
    ensures Sound(Changed(t, EnsureModule(id, category)).value)
  {
    var after := EnsureAdds(t, id, category);
    ModuleAddedKeepsSound(t, id, category, after);
  }

  lemma EnsureAdds(t: Tables, id: int, category: int) returns (after: Tables)
    requires Changed(t, EnsureModule(id, category)).Some?
    ensures after == Changed(t, EnsureModule(id, category)).value && id !in t.modules && category in t.categories
    ensures after == t.(modules := t.modules[id := Module("processes", category, NextPosition(ModulePlaces(t, category)))])
  {
    after := Changed(t, EnsureModule(id, category)).value;
  }

  lemma ModuleAddedKeepsSound(t: Tables, id: int, category: int, after: Tables)
    requires Sound(t) && id !in t.modules && category in t.categories
    requires after == t.(modules := t.modules[id := Module("processes", category, NextPosition(ModulePlaces(t, category)))])
    ensures Sound(after)
  {
    assert CategoryPlaces(after) == CategoryPlaces(t);
    forall c ensures Distinct(ModulePlaces(after, c)) {
      var places := ModulePlaces(t, c);
      if c == category {
        NextIsDistinct(places, id);
        assert ModulePlaces(after, c) == places[id := NextPosition(places)];
      } else {
        assert ModulePlaces(after, c) == places;
      }
    }
  }

  lemma MoveCategoryKeepsSound(t: Tables, id: int, direction: int)
    requires Sound(t) && Changed(t, MoveCategory(id, direction)).Some?
    ensures Sound(Changed(t, MoveCategory(id, direction)).value)
  {
    var places := Moved(CategoryPlaces(t), id, direction).value;
    MovedIsDistinct(CategoryPlaces(t), id, direction);
    CategoryPlacesOf(t, places);
    var after := WithCategoryPlaces(t, places);
    forall c ensures Distinct(ModulePlaces(after, c)) { assert ModulePlaces(after, c) == ModulePlaces(t, c); }
  }

  lemma MoveModuleKeepsSound(t: Tables, id: int, direction: int)
    requires Sound(t) && Changed(t, MoveModule(id, direction)).Some?
    ensures Sound(Changed(t, MoveModule(id, direction)).value)
  {
    var category := t.modules[id].category;
    var places := Moved(ModulePlaces(t, category), id, direction).value;
    MovedIsDistinct(ModulePlaces(t, category), id, direction);
    var after := WithModulePlaces(t, places);
    assert CategoryPlaces(after) == CategoryPlaces(t);
    forall c ensures Distinct(ModulePlaces(after, c)) { ModulePlacesOf(t, places, category, c); }
  }

  /** Every change keeps positions distinct, whether it succeeds or not. */
  lemma ChangeKeepsSound(t: Tables, change: Change)
    requires Sound(t)
    ensures Sound(After(t, change))
  {
    if Changed(t, change).Some? {
      match change
      case CreateCategory(id, name) => CreateKeepsSound(t, id, name);
      case DeleteCategory(id) => DeleteKeepsSound(t, id);
      case EnsureModule(id, category) => EnsureKeepsSound(t, id, category);
      case MoveCategory(id, direction) => MoveCategoryKeepsSound(t, id, direction);
      case MoveModule(id, direction) => MoveModuleKeepsSound(t, id, direction);
      case Reorder(categories, lists) => ReorderIsSound(t, categories, lists);
    }
  }

  /** So does every run of changes. */
  lemma {:induction false} RunKeepsSound(t: Tables, changes: seq<Change>)
    requires Sound(t)
    ensures Sound(AfterAll(t, changes))
    decreases |changes|
  {
    if changes != [] {
      ChangeKeepsSound(t, changes[0]);
      RunKeepsSound(After(t, changes[0]), changes[1..]);
    }
  }

  // ---------- What is shown ----------

  lemma {:induction false} ShownAt(t: Tables, categories: seq<int>, i: nat)
    requires i < |categories|
    ensures |ShownAll(t, categories)| == |categories|
    ensures ShownAll(t, categories)[i] == Shown(categories[i], Order(ModulePlaces(t, categories[i])))
  {
    if |categories| > 1 {
      ShownAt(t, categories[1..], if i > 0 then i - 1 else 0);
    }
  }

  /** Two entries of the page exchanged. */
  function SwappedEntries(shown: seq<Shown>, k: nat): seq<Shown>
    requires k + 1 < |shown|
  {
    shown[k := shown[k + 1]][k + 1 := shown[k]]
  }

  lemma ShownSwapped(t: Tables, after: Tables, categories: seq<int>, k: nat)
    requires k + 1 < |categories| && after.modules == t.modules
    ensures |ShownAll(t, categories)| == |categories|
    ensures ShownAll(after, SwappedAt(categories, k)) == SwappedEntries(ShownAll(t, categories), k)
  {
    ShownAt(t, categories, k);
    ShownAt(after, SwappedAt(categories, k), k);
    forall i | 0 <= i < |categories|
      ensures ShownAll(after, SwappedAt(categories, k))[i] == SwappedEntries(ShownAll(t, categories), k)[i]
    {
      var c := SwappedAt(categories, k)[i];
      ShownAt(after, SwappedAt(categories, k), i);
      ShownAt(t, categories, if i == k then k + 1 else if i == k + 1 then k else i);
      assert ModulePlaces(after, c) == ModulePlaces(t, c);
    }
  }

  /** On sound tables, moving a category exchanges it on the page with the next one on that side, module
      lists and all; it fails exactly at that end of the page. */
  lemma MoveCategoryShows(t: Tables, k: nat, direction: int)
    requires Sound(t) && k < |Order(CategoryPlaces(t))|
    ensures var ids := Order(CategoryPlaces(t)); var after := Changed(t, MoveCategory(ids[k], direction));
            && |Display(t)| == |ids| && (after.Some? <==> CanMove(|ids|, k, direction))
            && (after.Some? ==> Display(after.value) == SwappedEntries(Display(t), if direction == 1 then k else k - 1))
  {
    var places := CategoryPlaces(t);
    var ids := Order(places);
    MoveIsAdjacentSwap(places, k, direction);
    ShownAt(t, ids, k);
    MoveCategoryGives(t, ids[k], direction);
    if CanMove(|ids|, k, direction) {
      var moved := Moved(places, ids[k], direction).value;
      MovedIsDistinct(places, ids[k], direction);
      PageSwapped(t, ids, moved, if direction == 1 then k else k - 1);
    }
  }

  lemma MoveCategoryGives(t: Tables, id: int, direction: int)
    ensures Changed(t, MoveCategory(id, direction)) ==
            var places := Moved(CategoryPlaces(t), id, direction);
            if places.None? then None else Some(WithCategoryPlaces(t, places.value))
  {
  }

  lemma PageSwapped(t: Tables, ids: seq<int>, moved: Places, k: nat)
    requires ids == Order(CategoryPlaces(t)) && k + 1 < |ids|
    requires moved.Keys == t.categories.Keys && Order(moved) == SwappedAt(ids, k)
    ensures |Display(t)| == |ids| && Display(WithCategoryPlaces(t, moved)) == SwappedEntries(Display(t), k)
  {
    CategoryPlacesOf(t, moved);
    ShownSwapped(t, WithCategoryPlaces(t, moved), ids, k);
  }

  lemma MoveModuleGives(t: Tables, id: int, direction: int)
    requires id in t.modules
    ensures Changed(t, MoveModule(id, direction)) ==
            var places := Moved(ModulePlaces(t, t.modules[id].category), id, direction);
            if places.None? then None else Some(WithModulePlaces(t, places.value))
  {
  }

  /** On sound tables, moving a module exchanges it with the next one on that side in its own category's
      list; the categories and every other list are as before. */
  lemma MoveModuleShows(t: Tables, category: int, k: nat, direction: int)
    requires Sound(t) && k < |Order(ModulePlaces(t, category))|
    ensures var ids := Order(ModulePlaces(t, category)); var after := Changed(t, MoveModule(ids[k], direction));
            && (after.Some? <==> CanMove(|ids|, k, direction))
            && (after.Some? ==>
                  && CategoryPlaces(after.value) == CategoryPlaces(t)
                  && Order(ModulePlaces(after.value, category)) == SwappedAt(ids, if direction == 1 then k else k - 1)
                  && forall c | c != category :: ModulePlaces(after.value, c) == ModulePlaces(t, c))
  {
    var places := ModulePlaces(t, category);
    var ids := Order(places);
    assert ids[k] in Elements(ids);
    assert t.modules[ids[k]].category == category;
    MoveModuleGives(t, ids[k], direction);
    MoveIsAdjacentSwap(places, k, direction);
    if CanMove(|ids|, k, direction) {
      var moved := Moved(places, ids[k], direction).value;
      MovedIsDistinct(places, ids[k], direction);
      var after := WithModulePlaces(t, moved);
      assert CategoryPlaces(after) == CategoryPlaces(t);
      forall c ensures ModulePlaces(after, c) == if c == category then moved else ModulePlaces(t, c) {
        ModulePlacesOf(t, moved, category, c);
      }
    }
  }

  /** On sound tables the opposite move undoes a move of a category. */
  lemma MoveCategoryBack(t: Tables, id: int, direction: int)
    requires Sound(t) && Changed(t, MoveCategory(id, direction)).Some?
    ensures Changed(Changed(t, MoveCategory(id, direction)).value, MoveCategory(id, -direction)) == Some(t)
  {
    var places := CategoryPlaces(t);
    var moved := Moved(places, id, direction).value;
    MovedIsDistinct(places, id, direction);
    CategoryPlacesOf(t, moved);
    MoveBack(places, id, direction);
    var back := WithCategoryPlaces(WithCategoryPlaces(t, moved), places);
    assert back.categories == t.categories by {
      forall c | c in t.categories ensures back.categories[c] == t.categories[c] { assert c in moved; }
    }
  }

  /** And of a module. */
  lemma MoveModuleBack(t: Tables, id: int, direction: int)
    requires Sound(t) && Changed(t, MoveModule(id, direction)).Some?
    ensures Changed(Changed(t, MoveModule(id, direction)).value, MoveModule(id, -direction)) == Some(t)
  {
    var category := t.modules[id].category;
    var places := ModulePlaces(t, category);
    var moved := Moved(places, id, direction).value;
    MovedIsDistinct(places, id, direction);
    ModulePlacesOf(t, moved, category, category);
    MoveBack(places, id, direction);
    var after := WithModulePlaces(t, moved);
    assert WithModulePlaces(after, places).modules == t.modules by {
      forall m | m in t.modules ensures WithModulePlaces(after, places).modules[m] == t.modules[m] {
        assert m in places <==> m in moved;
      }
    }
  }

  // ---------- Creating and deleting ----------

  lemma {:induction false} SameShown(t: Tables, after: Tables, categories: seq<int>)
    requires after.modules == t.modules
    ensures ShownAll(after, categories) == ShownAll(t, categories)
  {
    if categories != [] {
      assert ModulePlaces(after, categories[0]) == ModulePlaces(t, categories[0]);
      SameShown(t, after, categories[1..]);
    }
  }

  lemma {:induction false} ShownAppend(t: Tables, a: seq<int>, b: seq<int>)
    ensures ShownAll(t, a + b) == ShownAll(t, a) + ShownAll(t, b)
  {
    if a == [] {
      assert a + b == b;
    } else {
      assert (a + b)[1..] == a[1..] + b;
      ShownAppend(t, a[1..], b);
    }
  }

  lemma LastInOrder(places: Places, id: int)
    requires id !in places
    ensures Order(places[id := NextPosition(places)]) == Order(places) + [id]
  {
    var after := places[id := NextPosition(places)];
    var ids := Order(places);
    var all := ids + [id];
    forall i, j | 0 <= i < j < |all| ensures Precedes(after, all[i], all[j]) {
      assert all[i] in Elements(ids);
      if j < |ids| { assert Precedes(places, ids[i], ids[j]); }
    }
    assert Elements(all) == Elements(ids) + {id};
    OrderIsUnique(after, Order(after), all);
  }

  lemma NewCategoryIsEmpty(t: Tables, after: Tables, id: int)
    requires Sound(t) && id !in t.categories && after.modules == t.modules
    ensures ModulePlaces(after, id) == map[]
  {
    assert forall m | m in t.modules :: t.modules[m].category in t.categories;
    assert ModulePlaces(after, id).Keys == {};
  }

  lemma ShownLast(t: Tables, after: Tables, ids: seq<int>, id: int)
    requires after.modules == t.modules && ModulePlaces(after, id) == map[]
    ensures ShownAll(after, ids + [id]) == ShownAll(t, ids) + [Shown(id, [])]
  {
    ShownAppend(after, ids, [id]);
    SameShown(t, after, ids);
    NonEmpty(Order(ModulePlaces(after, id)));
    assert [id][1..] == [];
  }

  /** A new category is shown last and empty. */
  lemma CreatedIsLast(t: Tables, id: int, name: string)
    requires Sound(t) && Changed(t, CreateCategory(id, name)).Some?
    ensures Display(Changed(t, CreateCategory(id, name)).value) == Display(t) + [Shown(id, [])]
  {
    var after := Changed(t, CreateCategory(id, name)).value;
    var places := CategoryPlaces(t);
    assert CategoryPlaces(after) == places[id := NextPosition(places)];
    LastInOrder(places, id);
    NewCategoryIsEmpty(t, after, id);
    ShownLast(t, after, Order(places), id);
  }
}
