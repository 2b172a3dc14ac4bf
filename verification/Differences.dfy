/** The structural difference of two JSON values: which rows are shown, and why the recursion ends. */
module Differences {
  import opened Wrappers
  import opened Ordering

  /** A decoded JSON value; a number keeps its text, and an object its fields without order. */
  datatype Value =
    | Null
    | Bool(b: bool)
    | Number(digits: string)
    | Text(s: string)
    | List(items: seq<Value>)
    | Object(fields: map<string, Value>)

  /** The foreign functions the indexes are built with, whatever they compute: JSON encoding, default
      formatting, letter case and the splitting of a line at white space. */
  datatype Library = Library(
    marshal: Value -> string, sprint: Value -> string, lower: string -> string, upper: string -> string,
    split: string -> seq<string>)

  // ---------- Height ----------

  ghost function Max(s: set<nat>): (m: nat)
    ensures (forall x | x in s :: x <= m) && (m == 0 || m in s)
  {
    if s == {} then 0
    else
      var x :| x in s;
      assert forall y | y in s :: y == x || y in s - {x};
      var m := Max(s - {x});
      if x > m then x else m
  }

  /** How deep a value is, a list counting twice: its strings may be taken apart into objects. */
  ghost function Height(v: Value): nat {
    match v
    case List(items) => 2 + Max(set i | 0 <= i < |items| :: Height(items[i]))
    case Object(fields) => 1 + Max(set k | k in fields :: Height(fields[k]))
    case _ => 0
  }

  lemma FieldIsLower(fields: map<string, Value>, k: string)
    requires k in fields
    ensures Height(fields[k]) < Height(Object(fields))
  {
    var heights := set k | k in fields :: Height(fields[k]);
    assert Height(Object(fields)) == 1 + Max(heights);
    assert Height(fields[k]) in heights;
  }

  lemma ItemIsLower(items: seq<Value>, i: nat)
    requires i < |items|
    ensures Height(items[i]) + 2 <= Height(List(items))
  {
    var heights := set i | 0 <= i < |items| :: Height(items[i]);
    assert Height(List(items)) == 2 + Max(heights);
    assert Height(items[i]) in heights;
  }

  lemma FewerFieldsNoHigher(fields: map<string, Value>, fewer: map<string, Value>)
    requires forall k | k in fewer :: k in fields && fewer[k] == fields[k]
    ensures Height(Object(fewer)) <= Height(Object(fields))
  {
    var heights := set k | k in fewer :: Height(fewer[k]);
    if Max(heights) > 0 {
      var k :| k in fewer && Height(fewer[k]) == Max(heights);
      FieldIsLower(fields, k);
    }
  }

  lemma FlatObject(fields: map<string, Value>)
    requires forall k | k in fields :: fields[k].Text?
    ensures Height(Object(fields)) == 1
  {
    var heights := set k | k in fields :: Height(fields[k]);
    assert forall h | h in heights :: h == 0;
  }

  // ---------- Indexing lists ----------

  function Printed(lib: Library, v: Value): string {
    match v
    case Null => ""
    case Text(s) => s
    case Bool(b) => if b then "true" else "false"
    case Number(digits) => digits
    case _ => lib.sprint(v)
  }

  function At(fields: map<string, Value>, key: string): Value {
    if key in fields then fields[key] else Null
  }

  /** The field as text. */
  function Field(lib: Library, item: map<string, Value>, name: string): string {
    Printed(lib, At(item, name))
  }

  /** The key and value an item is filed under, given the keys already in use. */
  type Indexer = (Value, set<string>) -> Option<(string, Value)>

  function Index(indexer: Indexer, items: seq<Value>, filed: map<string, Value>): Option<map<string, Value>> {
    if items == [] then Some(filed)
    else
      var entry := indexer(items[0], filed.Keys);
      if entry.None? then None else Index(indexer, items[1..], filed[entry.value.0 := entry.value.1])
  }

  function Zero(): string {
    [0 as char]
  }

  function VirtualHost(lib: Library, v: Value, used: set<string>): Option<(string, Value)> {
    if !v.Object? || Field(lib, v.fields, "config_file") == "" then None
    else
      var name, port, line := Field(lib, v.fields, "server_name"), Field(lib, v.fields, "port"), Field(lib, v.fields, "config_line");
      var key := Field(lib, v.fields, "config_file") + Zero()
                 + lib.lower(if name == "" then "(sans ServerName)" else name) + Zero()
                 + (if port == "" then "(port inconnu)" else port);
      var longer := key + Zero() + "ligne:" + line;
      if key !in used then Some((key, Object(v.fields - {"config_line"})))
      else if line == "" || longer in used then None
      else Some((longer, Object(v.fields - {"config_line"})))
  }

  function LastColon(s: string): (i: int)
    ensures -1 <= i < |s|
  {
    if s == "" then -1 else if s[|s| - 1] == ':' then |s| - 1 else LastColon(s[..|s| - 1])
  }

  function WithoutBrackets(s: string): string {
    var t := if s != "" && s[|s| - 1] == ']' then s[..|s| - 1] else s;
    if t != "" && t[0] == '[' then t[1..] else t
  }

  function ListenerFields(protocol: string, state: string, address: string, port: string): map<string, Value> {
    map["protocol" := Text(protocol), "state" := Text(state), "address" := Text(address), "port" := Text(port)]
  }

  /** A listening socket, given as an object or as a line of the socket listing. */
  function NormalizedListener(lib: Library, v: Value): Option<map<string, Value>> {
    match v
    case Object(item) =>
      var protocol, state := Field(lib, item, "protocol"), Field(lib, item, "state");
      var address, port := Field(lib, item, "address"), Field(lib, item, "port");
      if protocol == "" || state == "" || address == "" || port == "" then None
      else Some(ListenerFields(lib.lower(protocol), lib.upper(state), address, port))
    case Text(line) =>
      var fields := lib.split(line);
      if |fields| < 5 || LastColon(fields[4]) < 0 then None
      else
        var at := LastColon(fields[4]);
        var address, port := WithoutBrackets(fields[4][..at]), fields[4][at + 1..];
        if address == "" || port == "" then None
        else Some(ListenerFields(lib.lower(fields[0]), lib.upper(fields[1]), address, port))
    case _ => None
  }

  function Listener(lib: Library, v: Value, used: set<string>): Option<(string, Value)> {
    var item := NormalizedListener(lib, v);
    if item.None? then None
    else
      var key := Field(lib, item.value, "protocol") + Zero() + Field(lib, item.value, "address") + Zero() + Field(lib, item.value, "port");
      if key in used then None else Some((key, Object(item.value)))
  }

  function PutText(s: string, sorted: seq<string>): seq<string> {
    if sorted == [] || s == sorted[0] || Less(s, sorted[0]) then [s] + sorted else [sorted[0]] + PutText(s, sorted[1..])
  }

  function SortedTexts(lib: Library, items: seq<Value>): seq<string> {
    if items == [] then [] else PutText(Printed(lib, items[0]), SortedTexts(lib, items[1..]))
  }

  const RULE_FIELDS: set<string> := {"action", "direction", "protocol", "ports", "source", "destination", "family"}

  function Texts(s: seq<string>): seq<Value> {
    seq(|s|, i requires 0 <= i < |s| => Text(s[i]))
  }

  function Rule(lib: Library, v: Value, used: set<string>): Option<(string, Value)> {
    if !v.Object? || !(RULE_FIELDS <= v.fields.Keys) then None
    else
      var ports := if v.fields["ports"].List? then v.fields["ports"].items else [];
      var identity := map k | k in RULE_FIELDS :: if k == "ports" then List(Texts(SortedTexts(lib, ports))) else v.fields[k];
      var key := lib.marshal(Object(identity));
      if key in used then None else Some((key, Object(v.fields - {"id"})))
  }

  function CronTask(lib: Library, v: Value, used: set<string>): Option<(string, Value)> {
    if !v.Object? then None
    else
      var user, source, command := Field(lib, v.fields, "user"), Field(lib, v.fields, "source"), Field(lib, v.fields, "command");
      if user == "" || source == "" || command == "" || Field(lib, v.fields, "schedule") == "" then None
      else
        var key := "task:" + user + Zero() + source + Zero() + command;
        if key in used then None else Some((key, Object(v.fields - {"line", "id"})))
  }

  const CANDIDATES: seq<string> :=
    ["name", "filename", "config_file", "path", "server_name", "id", "login", "unit", "service", "domain", "package",
     "source", "mount", "address", "device", "port", "interface"]

  function Named(lib: Library, candidate: string, v: Value, used: set<string>): Option<(string, Value)> {
    if !v.Object? || candidate !in v.fields then None
    else
      var key := Field(lib, v.fields, candidate);
      if key == "" || key in used then None else Some((key, v))
  }

  function ScalarEntry(lib: Library, v: Value): Option<(string, Value)> {
    if v.Object? || v.List? then None else Some((lib.marshal(v), v))
  }

  // ---------- Pairing two lists ----------

  /** How the members of two values are paired. */
  datatype Kind = IsField | IsVirtualHost | IsListener | IsRule | IsCronTask | IsNamed(candidate: nat) | IsScalar

  function IndexerOf(lib: Library, kind: Kind): Indexer
    requires kind.IsNamed? ==> kind.candidate < |CANDIDATES|
  {
    match kind
    case IsVirtualHost => (v, used) => VirtualHost(lib, v, used)
    case IsListener => (v, used) => Listener(lib, v, used)
    case IsRule => (v, used) => Rule(lib, v, used)
    case IsCronTask => (v, used) => CronTask(lib, v, used)
    case IsNamed(i) => (v, used) => Named(lib, CANDIDATES[i], v, used)
    case _ => (v, used) => ScalarEntry(lib, v)
  }

  /** The kinds in the order they are tried. */
  function Kinds(): seq<Kind> {
    [IsVirtualHost, IsListener, IsRule, IsCronTask]
    + seq(|CANDIDATES|, i requires 0 <= i < |CANDIDATES| => IsNamed(i))
    + [IsScalar]
  }

  /** Both lists indexed; only scalars may be paired when there is nothing to index. */
  function Indexed(indexer: Indexer, kind: Kind, source: seq<Value>, target: seq<Value>): Option<(map<string, Value>, map<string, Value>)> {
    var left, right := Index(indexer, source, map[]), Index(indexer, target, map[]);
    if left.None? || right.None? then None
    else if kind != IsScalar && |left.value| + |right.value| == 0 then None
    else Some((left.value, right.value))
  }

  datatype Pairing = Pairing(kind: Kind, left: map<string, Value>, right: map<string, Value>)

  predicate AreKinds(kinds: seq<Kind>) {
    forall i | 0 <= i < |kinds| :: kinds[i].IsNamed? ==> kinds[i].candidate < |CANDIDATES|
  }

  /** The first way of pairing that works for both lists. */
  function Paired(lib: Library, kinds: seq<Kind>, source: seq<Value>, target: seq<Value>): Option<Pairing>
    requires AreKinds(kinds)
  {
    if kinds == [] then None
    else
      var maps := Indexed(IndexerOf(lib, kinds[0]), kinds[0], source, target);
      if maps.Some? then Some(Pairing(kinds[0], maps.value.0, maps.value.1)) else Paired(lib, kinds[1..], source, target)
  }
}
