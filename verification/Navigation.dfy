/** The navigation tables: categories, their modules, and the orders they are shown in. */
module Navigation {
  import opened Names
  import opened Wrappers
  import opened Ordering
  import opened Places

  datatype Category = Category(name: string, position: int)

  datatype Module = Module(key: string, category: int, position: int)

  datatype Tables = Tables(categories: map<int, Category>, modules: map<int, Module>)

  function CategoryPlaces(t: Tables): Places {
    map c | c in t.categories :: t.categories[c].position
  }

  function ModulePlaces(t: Tables, category: int): Places {
    map m | m in t.modules && t.modules[m].category == category :: t.modules[m].position
  }

  /** Positions are distinct, among categories and among the modules of each; modules are in known categories. */
  ghost predicate Sound(t: Tables) {
    && Distinct(CategoryPlaces(t))
    && (forall c :: Distinct(ModulePlaces(t, c)))
    && forall m | m in t.modules :: t.modules[m].category in t.categories
  }

  /** A category as shown, with its modules in order. */
  datatype Shown = Shown(category: int, modules: seq<int>)

  ghost function ShownAll(t: Tables, categories: seq<int>): seq<Shown> {
    if categories == [] then []
    else [Shown(categories[0], Order(ModulePlaces(t, categories[0])))] + ShownAll(t, categories[1..])
  }

  /** What the administration page shows. */
  ghost function Display(t: Tables): seq<Shown> {
    ShownAll(t, Order(CategoryPlaces(t)))
  }

  // ---------- Reordering ----------

  /** The lists of modules submitted, by category. */
  type Lists = map<int, seq<int>>

  function ListOf(lists: Lists, category: int): seq<int> {
    if category in lists then lists[category] else []
  }

  /** The submitted lists one after the other. */
  function Flat(lists: Lists, categories: seq<int>): seq<int> {
    if categories == [] then [] else ListOf(lists, categories[0]) + Flat(lists, categories[1..])
  }

  predicate NoDuplicates(s: seq<int>) {
    forall i, j | 0 <= i < j < |s| :: s[i] != s[j]
  }

  /** A complete order: every category once, each with a list, and every module once. */
  predicate Accepts(t: Tables, categories: seq<int>, lists: Lists) {
    && 1 <= |categories| <= 100 && NoDuplicates(categories) && Elements(categories) == t.categories.Keys
    && (forall c | c in categories :: c in lists)
    && NoDuplicates(Flat(lists, categories)) && Elements(Flat(lists, categories)) == t.modules.Keys
  }

  function PlaceCategory(categories: map<int, Category>, id: int, position: int): map<int, Category> {
    if id in categories then categories[id := categories[id].(position := position)] else categories
  }

  function PlaceModule(modules: map<int, Module>, id: int, category: int, position: int): map<int, Module> {
    if id in modules then modules[id := modules[id].(category := category, position := position)] else modules
  }

  /** The first n modules of a list put in a category, in that order. */
  function PlaceList(modules: map<int, Module>, category: int, list: seq<int>, n: nat): map<int, Module>
    requires n <= |list|
  {
    if n == 0 then modules else PlaceModule(PlaceList(modules, category, list, n - 1), list[n - 1], category, n - 1)
  }

  /** The first n categories put in order, each with its modules. */
  function Placed(t: Tables, categories: seq<int>, lists: Lists, n: nat): Tables
    requires n <= |categories|
  {
    if n == 0 then t
    else
      var before := Placed(t, categories, lists, n - 1);
      var c := categories[n - 1];
      Tables(PlaceCategory(before.categories, c, n - 1), PlaceList(before.modules, c, ListOf(lists, c), |ListOf(lists, c)|))
  }

  // ---------- The other changes ----------

  /** One more than the highest position; zero when there is no row. */
  ghost predicate IsNext(places: Places, rows: set<int>, p: int)
    requires rows <= places.Keys
  {
    && (forall a | a in rows :: places[a] < p)
    && if rows == {} then p == 0 else exists a | a in rows :: places[a] + 1 == p
  }

  ghost function NextAmong(places: Places, rows: set<int>): (p: int)
    requires rows <= places.Keys
    ensures IsNext(places, rows, p)
  {
    if rows == {} then 0
    else
      SomeOrNone(rows);
      var id :| id in rows;
      var rest := rows - {id};
      var p := NextAmong(places, rest);
      if rest == {} || places[id] + 1 > p then places[id] + 1 else p
  }

  /** Behind all the rows there are. */
  ghost function NextPosition(places: Places): int {
    NextAmong(places, places.Keys)
  }

  function WithCategoryPlaces(t: Tables, places: Places): Tables {
    t.(categories := map c | c in t.categories :: if c in places then t.categories[c].(position := places[c]) else t.categories[c])
  }

  function WithModulePlaces(t: Tables, places: Places): Tables {
    t.(modules := map m | m in t.modules :: if m in places then t.modules[m].(position := places[m]) else t.modules[m])
  }

  datatype Change =
    | CreateCategory(id: int, name: string)
    | DeleteCategory(id: int)
    | EnsureModule(id: int, category: int)
    | MoveCategory(id: int, direction: int)
    | MoveModule(id: int, direction: int)
    | Reorder(categories: seq<int>, lists: Lists)

  predicate NameFits(name: string) {
    2 <= |Trimmed(name)| <= 64
  }

  predicate HasModules(t: Tables, category: int) {
    exists m | m in t.modules :: t.modules[m].category == category
  }

  /** The tables after a change that succeeds; a new row comes under an identifier never used before. */
  ghost function Changed(t: Tables, change: Change): Option<Tables> {
    match change
    case CreateCategory(id, name) =>
      if id in t.categories || !NameFits(name) || (exists c | c in t.categories :: SameName(t.categories[c].name, name)) then None
      else Some(t.(categories := t.categories[id := Category(name, NextPosition(CategoryPlaces(t)))]))
    case DeleteCategory(id) =>
      if id !in t.categories || HasModules(t, id) then None else Some(t.(categories := t.categories - {id}))
    case EnsureModule(id, category) =>
      if id in t.modules || category !in t.categories || !SameName(t.categories[category].name, "Supervision")
         || (exists m | m in t.modules :: SameName(t.modules[m].key, "processes"))
      then None
      else Some(t.(modules := t.modules[id := Module("processes", category, NextPosition(ModulePlaces(t, category)))]))
    case MoveCategory(id, direction) =>
      var places := Moved(CategoryPlaces(t), id, direction);
      if places.None? then None else Some(WithCategoryPlaces(t, places.value))
    case MoveModule(id, direction) =>
      if id !in t.modules then None
      else
        var places := Moved(ModulePlaces(t, t.modules[id].category), id, direction);
        if places.None? then None else Some(WithModulePlaces(t, places.value))
    case Reorder(categories, lists) =>
      if Accepts(t, categories, lists) then Some(Placed(t, categories, lists, |categories|)) else None
  }

  /** A change that fails leaves the tables as they were. */
  ghost function After(t: Tables, change: Change): Tables {
    if Changed(t, change).None? then t else Changed(t, change).value
  }

  ghost function AfterAll(t: Tables, changes: seq<Change>): Tables
    decreases |changes|
  {
    if changes == [] then t else AfterAll(After(t, changes[0]), changes[1..])
  }
}
