/** The physical devices behind a block device: a walk over a graph that may have cycles. */
module Devices {
  import opened Wrappers
  import opened Strings
  import opened Ordering

  type Path = string

  /** What the walk can see of the file system: where a path leads once its links are followed, which
      real directories hold a `partition` entry, and what each one's `slaves` directory lists. */
  datatype FileSystem = FileSystem(links: map<Path, Path>, partitions: set<Path>, slaves: map<Path, seq<string>>)

  function EvalLinks(fs: FileSystem, path: Path): Option<Path> {
    if path in fs.links then Some(fs.links[path]) else None
  }

  function Slaves(fs: FileSystem, node: Path): seq<string> {
    if node in fs.slaves then fs.slaves[node] else []
  }

  function LastSlash(path: Path): (i: int)
    ensures -1 <= i < |path| && (i >= 0 ==> path[i] == '/')
  {
    if path == "" then -1 else if path[|path| - 1] == '/' then |path| - 1 else LastSlash(path[..|path| - 1])
  }

  /** The parent of a real path. */
  function Dir(path: Path): Path {
    var i := LastSlash(path);
    if i < 0 then "." else if i == 0 then "/" else path[..i]
  }

  /** The last element of a real path. */
  function Base(path: Path): string {
    if path == "" then "." else if path == "/" then "/" else path[LastSlash(path) + 1..]
  }

  function Below(path: Path, name: string): Path {
    (if path == "/" then "" else path) + "/" + name
  }

  // ---------- The graph ----------

  predicate IsLeaf(fs: FileSystem, node: Path) {
    node !in fs.partitions && Slaves(fs, node) == []
  }

  /** The path leads on from this node. */
  predicate LeadsTo(fs: FileSystem, node: Path, path: Path) {
    if node in fs.partitions then path == Dir(node)
    else exists name | name in Slaves(fs, node) :: path == Below(Below(node, "slaves"), name)
  }

  ghost predicate Edge(fs: FileSystem, a: Path, b: Path) {
    exists path | path in fs.links :: LeadsTo(fs, a, path) && fs.links[path] == b
  }

  ghost predicate IsTrail(fs: FileSystem, trail: seq<Path>) {
    trail != [] && forall i | 0 <= i < |trail| - 1 :: Edge(fs, trail[i], trail[i + 1])
  }

  ghost predicate Reaches(fs: FileSystem, a: Path, b: Path) {
    exists trail :: IsTrail(fs, trail) && trail[0] == a && trail[|trail| - 1] == b
  }

  /** The nodes reachable from where a path leads. */
  ghost function Reachable(fs: FileSystem, path: Path): set<Path> {
    set n | n in fs.links.Values && path in fs.links && Reaches(fs, fs.links[path], n)
  }

  ghost function LeafNames(fs: FileSystem, nodes: set<Path>): set<string> {
    set n | n in nodes && IsLeaf(fs, n) && Base(n) != "" && Base(n) != "." :: Base(n)
  }

  ghost predicate Closed(fs: FileSystem, nodes: set<Path>, within: set<Path>) {
    forall a, b | a in nodes && Edge(fs, a, b) :: b in within
  }

  lemma ReachesItself(fs: FileSystem, a: Path)
    ensures Reaches(fs, a, a)
  {
    assert IsTrail(fs, [a]);
  }

  lemma ReachesFurther(fs: FileSystem, a: Path, b: Path, c: Path)
    requires Edge(fs, a, b) && Reaches(fs, b, c)
    ensures Reaches(fs, a, c)
  {
    var trail :| IsTrail(fs, trail) && trail[0] == b && trail[|trail| - 1] == c;
    var longer := [a] + trail;
    forall i | 0 <= i < |longer| - 1 ensures Edge(fs, longer[i], longer[i + 1]) {
      assert i > 0 ==> longer[i] == trail[i - 1];
      assert longer[i + 1] == trail[i];
    }
    assert IsTrail(fs, longer);
  }

  /** A closed set that holds a node holds all a trail from it passes. */
  lemma {:induction false} ClosedHoldsTrail(fs: FileSystem, nodes: set<Path>, trail: seq<Path>)
    requires Closed(fs, nodes, nodes) && IsTrail(fs, trail) && trail[0] in nodes
    ensures trail[|trail| - 1] in nodes
  {
    if |trail| > 1 {
      assert Edge(fs, trail[0], trail[1]);
      forall i | 0 <= i < |trail[1..]| - 1 ensures Edge(fs, trail[1..][i], trail[1..][i + 1]) {
        assert Edge(fs, trail[i + 1], trail[i + 2]);
      }
      ClosedHoldsTrail(fs, nodes, trail[1..]);
    }
  }

  /** A closed set of reachable nodes that holds the start is all of them. */
  lemma ClosedIsReachable(fs: FileSystem, path: Path, nodes: set<Path>)
    requires path in fs.links && fs.links[path] in nodes && Closed(fs, nodes, nodes) && nodes <= Reachable(fs, path)
    ensures nodes == Reachable(fs, path)
  {
    forall n | n in Reachable(fs, path) ensures n in nodes {
      var trail :| IsTrail(fs, trail) && trail[0] == fs.links[path] && trail[|trail| - 1] == n;
      ClosedHoldsTrail(fs, nodes, trail);
    }
  }

  // ---------- The walk ----------

  /** Found by a walk from a path: reachable, and led on from only to visited nodes. */
  ghost predicate Found(fs: FileSystem, path: Path, found: set<Path>, visited: set<Path>) {
    found <= Reachable(fs, path) && Closed(fs, found, visited)
  }

  lemma FoundBelow(fs: FileSystem, path: Path, next: Path, found: set<Path>, visited: set<Path>)
    requires Found(fs, next, found, visited) && path in fs.links && LeadsTo(fs, fs.links[path], next)
    ensures Found(fs, path, found, visited)
  {
    if next in fs.links {
      assert Edge(fs, fs.links[path], fs.links[next]);
      forall n | n in found ensures n in Reachable(fs, path) {
        ReachesFurther(fs, fs.links[path], fs.links[next], n);
      }
    }
  }

  lemma FoundBoth(fs: FileSystem, path: Path, a: set<Path>, before: set<Path>, after: set<Path>)
    requires Found(fs, path, a, before) && Found(fs, path, after - before, after) && before <= after
    ensures Found(fs, path, a + (after - before), after)
  {
  }

  /** Whatever this node leads on to has been visited. */
  ghost predicate LedOn(fs: FileSystem, node: Path, visited: set<Path>) {
    forall next | next in fs.links && LeadsTo(fs, node, next) :: fs.links[next] in visited
  }

  predicate SlavesVisited(fs: FileSystem, node: Path, count: int, visited: set<Path>)
    requires 0 <= count <= |Slaves(fs, node)|
  {
    forall j | 0 <= j < count :: var p := Below(Below(node, "slaves"), Slaves(fs, node)[j]); p in fs.links ==> fs.links[p] in visited
  }

  lemma SlavesLedOn(fs: FileSystem, node: Path, visited: set<Path>)
    requires node !in fs.partitions && SlavesVisited(fs, node, |Slaves(fs, node)|, visited)
    ensures LedOn(fs, node, visited)
  {
  }

  /** The node itself, once all it leads to has been visited. */
  lemma FoundHere(fs: FileSystem, path: Path, node: Path, found: set<Path>, visited: set<Path>)
    requires path in fs.links && fs.links[path] == node && Found(fs, path, found - {node}, visited)
    requires LedOn(fs, node, visited)
    ensures Found(fs, path, found, visited)
  {
    ReachesItself(fs, node);
    forall a, b | a in found && Edge(fs, a, b) ensures b in visited {
      if a == node {
        var next :| next in fs.links && LeadsTo(fs, a, next) && fs.links[next] == b;
      }
    }
  }

  lemma NamesOfBoth(fs: FileSystem, a: set<Path>, b: set<Path>, both: set<Path>)
    requires both == a + b
    ensures LeafNames(fs, both) == LeafNames(fs, a) + LeafNames(fs, b)
  {
  }

  /** A node of whose slaves one more has been walked. */
  lemma FoundMore(fs: FileSystem, path: Path, node: Path, next: Path, start: set<Path>, before: set<Path>, after: set<Path>)
    requires path in fs.links && fs.links[path] == node && LeadsTo(fs, node, next) && start + {node} <= before <= after
    requires Found(fs, path, before - start - {node}, before) && Found(fs, next, after - before, after)
    ensures Found(fs, path, after - start - {node}, after)
    ensures LeafNames(fs, after - start) == LeafNames(fs, before - start) + LeafNames(fs, after - before)
  {
    FoundBelow(fs, path, next, after - before, after);
    FoundBoth(fs, path, before - start - {node}, before, after);
    assert after - start - {node} == before - start - {node} + (after - before);
    NamesOfBoth(fs, before - start, after - before, after - start);
  }

  /** What one node adds to the names. */
  lemma NameOfOne(fs: FileSystem, node: Path)
    ensures LeafNames(fs, {node}) == if IsLeaf(fs, node) && Base(node) != "" && Base(node) != "." then {Base(node)} else {}
  {
    assert node in {node};
  }

  class Walk {
    const fs: FileSystem
    var devices: set<string>
    var visited: set<Path>

    constructor (fs: FileSystem)
      ensures this.fs == fs && devices == {} && visited == {}
    {
      this.fs, devices, visited := fs, {}, {};
    }

    /** The walk itself; it ends on any graph, because it visits no node twice. */
    method Collect(path: Path)
      modifies this
      ensures old(visited) <= visited && (path in fs.links ==> fs.links[path] in visited)
      ensures Found(fs, path, visited - old(visited), visited)
      ensures devices == old(devices) + LeafNames(fs, visited - old(visited))
      decreases fs.links.Values - visited, 0
    {
      var target := EvalLinks(fs, path);
      if target.None? || target.value in visited {
        assert visited - old(visited) == {};
        return;
      }
      var node := target.value;
      assert node in fs.links.Values;
      visited := visited + {node};
      assert visited - old(visited) == {node};
      NameOfOne(fs, node);
      if node in fs.partitions {
        Collect(Dir(node));
        FoundMore(fs, path, node, Dir(node), old(visited), old(visited) + {node}, visited);
        FoundHere(fs, path, node, visited - old(visited), visited);
        return;
      }
      var slaves := Slaves(fs, node);
      if |slaves| > 0 {
        CollectSlaves(path, node, slaves, old(visited));
        FoundHere(fs, path, node, visited - old(visited), visited);
        return;
      }
      FoundHere(fs, path, node, {node}, visited);
      var name := Base(node);
      if name != "" && name != "." {
        devices := devices + {name};
      }
    }

    /** The loop over the slaves of a node the walk has entered. */
    method CollectSlaves(ghost path: Path, node: Path, slaves: seq<string>, ghost start: set<Path>)
      requires path in fs.links && fs.links[path] == node && node !in fs.partitions && slaves == Slaves(fs, node) != []
      requires visited == start + {node} && node !in start
      modifies this
      ensures old(visited) <= visited && LedOn(fs, node, visited)
      ensures Found(fs, path, visited - start - {node}, visited)
      ensures devices == old(devices) + LeafNames(fs, visited - start)
      decreases fs.links.Values - visited, 1
    {
      assert visited - start == {node};
      NameOfOne(fs, node);
      for i := 0 to |slaves|
        invariant start + {node} <= visited && SlavesVisited(fs, node, i, visited)
        invariant Found(fs, path, visited - start - {node}, visited)
        invariant devices == old(devices) + LeafNames(fs, visited - start)
      {
        ghost var before := visited;
        var next := Below(Below(node, "slaves"), slaves[i]);
        assert slaves[i] in Slaves(fs, node);
        Collect(next);
        FoundMore(fs, path, node, next, start, before, visited);
      }
      SlavesLedOn(fs, node, visited);
    }
  }

  /** A walk from nothing finds every reachable node, and names every reachable leaf. */
  method CollectAll(fs: FileSystem, path: Path) returns (devices: set<string>, visited: set<Path>)
    ensures visited == Reachable(fs, path) && devices == LeafNames(fs, Reachable(fs, path))
  {
    var walk := new Walk(fs);
    walk.Collect(path);
    devices, visited := walk.devices, walk.visited;
    assert visited - {} == visited;
    if path in fs.links {
      ClosedIsReachable(fs, path, visited);
    } else {
      assert Reachable(fs, path) == {};
    }
  }

  // ---------- The description of a device ----------

  predicate AreDigits(s: string) {
    s != "" && forall c | c in s :: '0' <= c <= '9'
  }

  predicate IsMajorMinor(s: string) {
    exists i | 0 <= i < |s| :: s[i] == ':' && AreDigits(s[..i]) && AreDigits(s[i + 1..])
  }

  function BlockPath(sysRoot: Path, majorMinor: string): Path {
    Below(Below(Below(sysRoot, "dev"), "block"), majorMinor)
  }

  ghost function DevPaths(names: set<string>): set<string> {
    set name | name in names :: "/dev/" + name
  }

  /** The sorted paths of the leaves reachable from the device; nothing for what is no device. */
  ghost function Described(fs: FileSystem, majorMinor: string, sysRoot: Path): string {
    var path := BlockPath(sysRoot, majorMinor);
    if !IsMajorMinor(majorMinor) || path !in fs.links then ""
    else Join(Listing(DevPaths(LeafNames(fs, Reachable(fs, fs.links[path])))), ", ")
  }

  method ResolvePhysicalDevices(fs: FileSystem, majorMinor: string, sysRoot: Path) returns (text: string)
    ensures text == Described(fs, majorMinor, sysRoot)
  {
    var target := EvalLinks(fs, BlockPath(sysRoot, majorMinor));
    if !IsMajorMinor(majorMinor) || target.None? {
      return "";
    }
    var devices, visited := CollectAll(fs, target.value);
    var names: seq<string> := [];
    var rest := devices;
    while rest != {}
      invariant rest <= devices && Sorted(names) && Elements(names) == DevPaths(devices - rest)
      decreases rest
    {
      var name :| name in rest;
      names := Insert("/dev/" + name, names);
      assert devices - (rest - {name}) == devices - rest + {name};
      rest := rest - {name};
    }
    assert devices - {} == devices;
    SortedIsUnique(names, Listing(DevPaths(devices)));
    return Join(names, ", ");
  }

  /** The same file system but for the order in which slaves are listed. */
  ghost predicate SameButForOrder(fs: FileSystem, other: FileSystem) {
    && fs.links == other.links && fs.partitions == other.partitions
    && forall n :: Elements(Slaves(fs, n)) == Elements(Slaves(other, n))
  }

  lemma SameEdges(fs: FileSystem, other: FileSystem, a: Path, b: Path)
    requires SameButForOrder(fs, other) && Edge(fs, a, b)
    ensures Edge(other, a, b)
  {
    var path :| path in fs.links && LeadsTo(fs, a, path) && fs.links[path] == b;
    assert Elements(Slaves(fs, a)) == Elements(Slaves(other, a));
    assert LeadsTo(other, a, path) by {
      if a !in fs.partitions {
        var name :| name in Slaves(fs, a) && path == Below(Below(a, "slaves"), name);
        assert name in Elements(Slaves(other, a));
      }
    }
  }

  lemma SameReach(fs: FileSystem, other: FileSystem, path: Path)
    requires SameButForOrder(fs, other)
    ensures Reachable(fs, path) <= Reachable(other, path)
  {
    forall n | n in Reachable(fs, path) ensures n in Reachable(other, path) {
      var trail :| IsTrail(fs, trail) && trail[0] == fs.links[path] && trail[|trail| - 1] == n;
      forall i | 0 <= i < |trail| - 1 ensures Edge(other, trail[i], trail[i + 1]) {
        SameEdges(fs, other, trail[i], trail[i + 1]);
      }
      assert IsTrail(other, trail);
    }
  }

  lemma SameNames(fs: FileSystem, other: FileSystem, nodes: set<Path>)
    requires SameButForOrder(fs, other)
    ensures LeafNames(fs, nodes) == LeafNames(other, nodes)
  {
    forall n ensures IsLeaf(fs, n) == IsLeaf(other, n) {
      assert Elements(Slaves(fs, n)) == Elements(Slaves(other, n));
      if Slaves(fs, n) != [] { assert Slaves(fs, n)[0] in Elements(Slaves(fs, n)); }
      if Slaves(other, n) != [] { assert Slaves(other, n)[0] in Elements(Slaves(other, n)); }
    }
  }

  lemma SameLeaves(fs: FileSystem, other: FileSystem, path: Path)
    requires SameButForOrder(fs, other)
    ensures LeafNames(fs, Reachable(fs, path)) == LeafNames(other, Reachable(other, path))
  {
    SameReach(fs, other, path);
    SameReach(other, fs, path);
    SameNames(fs, other, Reachable(fs, path));
  }

  /** The order in which slaves are listed does not show. */
  lemma OrderIsIrrelevant(fs: FileSystem, other: FileSystem, majorMinor: string, sysRoot: Path)
    requires SameButForOrder(fs, other)
    ensures Described(fs, majorMinor, sysRoot) == Described(other, majorMinor, sysRoot)
  {
    var path := BlockPath(sysRoot, majorMinor);
    if path in fs.links {
      SameLeaves(fs, other, fs.links[path]);
    }
  }
}
