/** Reading a user's crontab into editable records, and how that reading composes. */
module CronParser {
  import opened Wrappers
  import opened CronText
  import opened CronSyntax

  /** A marked task keeps its identifier; any other is named by what it runs and how often it has
      occurred so far, a digest being injective in these. */
  datatype TaskId = Managed(uuid: string) | Legacy(owner: string, schedule: string, command: string, occurrence: nat)

  datatype Record = Record(
    id: TaskId, line: string, schedule: string, command: string, start: int, end: int, enabled: bool, managed: bool)

  type Key = (string, string)

  type Counts = map<Key, nat>

  datatype Parsed = Parsed(records: seq<Record>, counts: Counts) | Malformed

  // ---------- One step ----------

  datatype Chunk =
    | Gap
    | Task(marked: Option<string>, line: string, job: Job, key: Key, enabled: bool, width: int)
    | Bad

  function Width(c: Chunk): int {
    match c
    case Gap => 1
    case Task(_, _, _, _, _, width) => width
    case Bad => 0
  }

  /** What legacy tasks are counted by. */
  function KeyOf(job: Job): Key {
    (Normalize(job.schedule), Trim(job.command))
  }

  function SuspendedTask(m: Marker): Chunk {
    var decoded := DecodeText(m.payload);
    if decoded.None? || decoded.value == "" || !OneLine(decoded.value) then Bad
    else
      var job := ParseJob(decoded.value);
      if job.None? then Bad else Task(Some(m.id), decoded.value, job.value, KeyOf(job.value), false, 1)
  }

  function ActiveTask(m: Marker, lines: seq<string>): Chunk {
    if m.payload != "" || |lines| < 2 || !IsPlain(Trim(lines[1])) then Bad
    else
      var job := ParseJob(lines[1]);
      if job.None? then Bad else Task(Some(m.id), lines[1], job.value, KeyOf(job.value), true, 2)
  }

  /** What the lines start with. */
  function Next(lines: seq<string>): Chunk {
    if lines == [] then Bad
    else
      var line := Trim(lines[0]);
      var marker := ParseMarker(line);
      if marker.Some? then
        if marker.value.suspended then SuspendedTask(marker.value) else ActiveTask(marker.value, lines)
      else if STEM <= line then Bad
      else if !IsPlain(line) then Gap
      else
        var job := ParseJob(lines[0]);
        if job.None? then Bad else Task(None, lines[0], job.value, KeyOf(job.value), true, 1)
  }

  // ---------- Cutting lines into chunks ----------

  /** A reader of one chunk; the laws of cutting hold for any that looks only at the lines it spans. */
  type Reader = seq<string> -> Chunk

  ghost predicate Local(next: Reader) {
    IgnoresTheRest(next) && NeedsItsLines(next)
  }

  ghost predicate IgnoresTheRest(next: Reader) {
    forall a, b | !next(a).Bad? :: next(a + b) == next(a)
  }

  ghost predicate NeedsItsLines(next: Reader) {
    forall a, n | 0 <= n <= |a| && Width(next(a)) <= n && !next(a).Bad? :: next(a[..n]) == next(a)
  }

  function Cut(next: Reader, lines: seq<string>): Option<seq<Chunk>>
    decreases |lines|
  {
    if lines == [] then Some([])
    else
      var c := next(lines);
      if c.Bad? || Width(c) < 1 || Width(c) > |lines| then None
      else
        var rest := Cut(next, lines[Width(c)..]);
        if rest.None? then None else Some([c] + rest.value)
  }

  lemma Associative<T>(a: seq<T>, b: seq<T>, c: seq<T>)
    ensures a + (b + c) == a + b + c
  {
  }

  function Span(chunks: seq<Chunk>): int {
    if chunks == [] then 0 else Width(chunks[0]) + Span(chunks[1..])
  }

  lemma {:induction false} CutSpans(next: Reader, lines: seq<string>)
    requires Cut(next, lines).Some?
    ensures Span(Cut(next, lines).value) == |lines|
    decreases |lines|
  {
    if lines != [] {
      CutSpans(next, lines[Width(next(lines))..]);
    }
  }

  /** What cutting yields once the first chunk is known. */
  lemma CutStep(next: Reader, c: Chunk, lines: seq<string>)
    requires lines != [] && next(lines) == c && !c.Bad? && 1 <= Width(c) <= |lines|
    ensures Cut(next, lines) ==
              var rest := Cut(next, lines[Width(c)..]);
              if rest.None? then None else Some([c] + rest.value)
  {
  }

  lemma CutFirst(next: Reader, lines: seq<string>, chunks: seq<Chunk>)
    requires Cut(next, lines) == Some(chunks) && chunks != []
    ensures next(lines) == chunks[0] && 1 <= Width(chunks[0]) <= |lines|
    ensures Cut(next, lines[Width(chunks[0])..]) == Some(chunks[1..])
  {
  }

  /** Lines that can be cut on their own can be followed by anything. */
  lemma {:induction false} CutAppend(next: Reader, a: seq<string>, b: seq<string>)
    requires Local(next) && Cut(next, a).Some?
    ensures Cut(next, a + b) == if Cut(next, b).None? then None else Some(Cut(next, a).value + Cut(next, b).value)
    decreases |a|
  {
    if a == [] {
      assert a + b == b;
      assert Cut(next, b).None? || Cut(next, a).value + Cut(next, b).value == Cut(next, b).value;
    } else {
      var c := next(a);
      assert next(a + b) == c;
      assert (a + b)[Width(c)..] == a[Width(c)..] + b;
      CutStep(next, c, a + b);
      CutAppend(next, a[Width(c)..], b);
      var rest := Cut(next, a[Width(c)..]).value;
      if Cut(next, b).Some? { Associative([c], rest, Cut(next, b).value); }
    }
  }

  lemma Slices<T>(s: seq<T>, w: nat, i: nat)
    requires w <= i <= |s|
    ensures s[..i][w..] == s[w..][..i - w] && s[i..] == s[w..][i - w..] && s[..i][..w] == s[..w]
  {
  }

  lemma DropTwice<T>(s: seq<T>, i: nat, w: nat)
    requires i + w <= |s|
    ensures s[i..][w..] == s[i + w..]
  {
  }

  lemma HeadAndRest(chunks: seq<Chunk>, j: nat)
    requires 1 <= j <= |chunks|
    ensures chunks[..j] == [chunks[0]] + chunks[1..][..j - 1] && chunks[j..] == chunks[1..][j - 1..]
    ensures Span(chunks[..j]) == Width(chunks[0]) + Span(chunks[1..][..j - 1])
  {
    assert chunks[..j][1..] == chunks[1..][..j - 1];
  }

  lemma CutPrefix(next: Reader, lines: seq<string>, c: Chunk, w: nat, i: nat, rest: seq<Chunk>)
    requires NeedsItsLines(next) && next(lines) == c && !c.Bad? && w == Width(c) && 1 <= w <= i <= |lines|
    requires Cut(next, lines[w..][..i - w]) == Some(rest)
    ensures Cut(next, lines[..i]) == Some([c] + rest)
  {
    assert next(lines[..i]) == c;
    Slices(lines, w, i);
    CutStep(next, c, lines[..i]);
  }

  /** Lines that can be cut can be cut at any chunk boundary. */
  lemma {:induction false} CutAt(next: Reader, lines: seq<string>, chunks: seq<Chunk>, j: nat) returns (i: nat)
    requires Local(next) && Cut(next, lines) == Some(chunks) && j <= |chunks|
    ensures i == Span(chunks[..j]) && i <= |lines|
    ensures Cut(next, lines[..i]) == Some(chunks[..j]) && Cut(next, lines[i..]) == Some(chunks[j..])
    decreases |lines|
  {
    if j == 0 {
      i := 0;
      assert lines[0..] == lines && lines[..0] == [] && chunks[..0] == [] && chunks[0..] == chunks;
    } else {
      CutFirst(next, lines, chunks);
      var c, rest := chunks[0], chunks[1..];
      var w := Width(c);
      i := CutAt(next, lines[w..], rest, j - 1);
      HeadAndRest(chunks, j);
      i := i + w;
      Slices(lines, w, i);
      CutPrefix(next, lines, c, w, i, rest[..j - 1]);
    }
  }

  // ---------- Numbering chunks ----------

  function Count(counts: Counts, key: Key): nat {
    if key in counts then counts[key] else 0
  }

  function Counted(c: Chunk, counts: Counts): Counts {
    if !c.Task? || c.marked.Some? then counts else OneMore(counts, c.key)
  }

  function OneMore(counts: Counts, key: Key): Counts {
    counts[key := Count(counts, key) + 1]
  }

  function RecordOf(owner: string, c: Chunk, at: int, counts: Counts): Record
    requires c.Task?
  {
    var id := if c.marked.Some? then Managed(c.marked.value) else Legacy(owner, c.key.0, c.key.1, Count(counts, c.key) + 1);
    Record(id, c.line, c.job.schedule, c.job.command, at, at + c.width - 1, c.enabled, c.marked.Some?)
  }

  /** The records of the tasks among the chunks, the first chunk standing at line `at`. */
  function Number(owner: string, chunks: seq<Chunk>, at: int, counts: Counts): seq<Record> {
    if chunks == [] then []
    else
      var c := chunks[0];
      Added(owner, c, at, counts) + Number(owner, chunks[1..], at + Width(c), Counted(c, counts))
  }

  function Recount(chunks: seq<Chunk>, counts: Counts): Counts {
    if chunks == [] then counts else Recount(chunks[1..], Counted(chunks[0], counts))
  }

  function ParseBy(next: Reader, owner: string, lines: seq<string>): Parsed {
    var chunks := Cut(next, lines);
    if chunks.None? then Malformed else Parsed(Number(owner, chunks.value, 0, map[]), Recount(chunks.value, map[]))
  }

  function Parse(owner: string, lines: seq<string>): Parsed {
    ParseBy(Next, owner, lines)
  }

  lemma {:induction false} RecountAppend(a: seq<Chunk>, b: seq<Chunk>, counts: Counts)
    ensures Recount(a + b, counts) == Recount(b, Recount(a, counts)) && Span(a + b) == Span(a) + Span(b)
  {
    if a == [] {
      assert a + b == b;
    } else {
      assert (a + b)[1..] == a[1..] + b;
      RecountAppend(a[1..], b, Counted(a[0], counts));
    }
  }

  /** The record, if any, a chunk adds. */
  function Added(owner: string, c: Chunk, at: int, counts: Counts): seq<Record> {
    if c.Task? then [RecordOf(owner, c, at, counts)] else []
  }

  lemma {:induction false} NumberAppend(owner: string, a: seq<Chunk>, b: seq<Chunk>, at: int, counts: Counts)
    ensures Number(owner, a + b, at, counts) == Number(owner, a, at, counts) + Number(owner, b, at + Span(a), Recount(a, counts))
  {
    if a == [] {
      assert a + b == b;
    } else {
      assert (a + b)[1..] == a[1..] + b;
      var next, counted := at + Width(a[0]), Counted(a[0], counts);
      NumberAppend(owner, a[1..], b, next, counted);
      var first, x, y := Added(owner, a[0], at, counts), Number(owner, a[1..], next, counted), Number(owner, b, at + Span(a), Recount(a, counts));
      Associative(first, x, y);
    }
  }

  // ---------- Moving and renumbering ----------

  function Shift(r: Record, offset: int): Record {
    r.(start := r.start + offset, end := r.end + offset)
  }

  function Shifted(records: seq<Record>, offset: int): seq<Record> {
    if records == [] then [] else [Shift(records[0], offset)] + Shifted(records[1..], offset)
  }

  /** One occurrence less of this key. */
  function Lower(r: Record, key: Key): Record {
    if r.id.Legacy? && (r.id.schedule, r.id.command) == key && r.id.occurrence > 0
    then r.(id := r.id.(occurrence := r.id.occurrence - 1)) else r
  }

  function Lowered(records: seq<Record>, key: Key): seq<Record> {
    if records == [] then [] else [Lower(records[0], key)] + Lowered(records[1..], key)
  }

  /** Each record is shifted, or lowered, on its own. */
  lemma {:induction false} ShiftedAndLoweredAt(records: seq<Record>, offset: int, key: Key, i: nat)
    requires i < |records|
    ensures |Shifted(records, offset)| == |records| == |Lowered(records, key)|
    ensures Shifted(records, offset)[i] == Shift(records[i], offset) && Lowered(records, key)[i] == Lower(records[i], key)
  {
    if |records| > 1 {
      ShiftedAndLoweredAt(records[1..], offset, key, if i > 0 then i - 1 else 0);
    }
  }

  lemma {:induction false} ShiftedAppend(a: seq<Record>, b: seq<Record>, offset: int)
    ensures Shifted(a + b, offset) == Shifted(a, offset) + Shifted(b, offset)
  {
    if a == [] {
      assert a + b == b;
    } else {
      assert (a + b)[1..] == a[1..] + b;
      ShiftedAppend(a[1..], b, offset);
    }
  }

  lemma AddedShifts(owner: string, c: Chunk, at: int, to: int, offset: int, counts: Counts)
    requires to == at + offset
    ensures Added(owner, c, to, counts) == Shifted(Added(owner, c, at, counts), offset)
  {
  }

  /** Reading the same chunks further down shifts every span. */
  lemma {:induction false} NumberShifts(owner: string, chunks: seq<Chunk>, at: int, to: int, offset: int, counts: Counts)
    requires to == at + offset
    ensures Number(owner, chunks, to, counts) == Shifted(Number(owner, chunks, at, counts), offset)
  {
    if chunks != [] {
      var c, next, counted := chunks[0], at + Width(chunks[0]), Counted(chunks[0], counts);
      AddedShifts(owner, c, at, to, offset, counts);
      NumberShifts(owner, chunks[1..], next, to + Width(c), offset, counted);
      ShiftedAppend(Added(owner, c, at, counts), Number(owner, chunks[1..], next, counted), offset);
    }
  }

  /** The counts differ in nothing but one occurrence of the key. */
  ghost predicate OneLess(lower: Counts, counts: Counts, key: Key) {
    forall k :: Count(lower, k) == if k == key then Count(counts, k) - 1 else Count(counts, k)
  }

  lemma OneLessKept(lower: Counts, counts: Counts, key: Key, seen: Key)
    requires OneLess(lower, counts, key)
    ensures OneLess(OneMore(lower, seen), OneMore(counts, seen), key)
  {
    assert Count(lower, seen) == if seen == key then Count(counts, seen) - 1 else Count(counts, seen);
    forall k ensures Count(OneMore(lower, seen), k) == if k == key then Count(OneMore(counts, seen), k) - 1 else Count(OneMore(counts, seen), k) {
      assert Count(lower, k) == if k == key then Count(counts, k) - 1 else Count(counts, k);
    }
  }

  lemma RecordLowers(owner: string, c: Chunk, at: int, lower: Counts, counts: Counts, key: Key)
    requires OneLess(lower, counts, key) && c.Task?
    ensures RecordOf(owner, c, at, lower) == Lower(RecordOf(owner, c, at, counts), key)
  {
    var k := c.key;
    assert Count(lower, k) == if k == key then Count(counts, k) - 1 else Count(counts, k);
  }

  lemma CountedLowers(c: Chunk, lower: Counts, counts: Counts, key: Key)
    requires OneLess(lower, counts, key)
    ensures OneLess(Counted(c, lower), Counted(c, counts), key)
  {
    if c.Task? {
      OneLessKept(lower, counts, key, c.key);
    }
  }

  lemma {:induction false} LoweredAppend(a: seq<Record>, b: seq<Record>, key: Key)
    ensures Lowered(a + b, key) == Lowered(a, key) + Lowered(b, key)
  {
    if a == [] {
      assert a + b == b;
    } else {
      assert (a + b)[1..] == a[1..] + b;
      LoweredAppend(a[1..], b, key);
    }
  }

  /** Reading the same chunks with one occurrence of a key less before them lowers its later numbers. */
  lemma {:induction false} NumberLowers(owner: string, chunks: seq<Chunk>, at: int, lower: Counts, counts: Counts, key: Key)
    requires OneLess(lower, counts, key)
    ensures Number(owner, chunks, at, lower) == Lowered(Number(owner, chunks, at, counts), key)
  {
    if chunks != [] {
      var c := chunks[0];
      CountedLowers(c, lower, counts, key);
      AddedLowers(owner, c, at, lower, counts, key);
      NumberLowers(owner, chunks[1..], at + Width(c), Counted(c, lower), Counted(c, counts), key);
      LoweredAppend(Added(owner, c, at, counts), Number(owner, chunks[1..], at + Width(c), Counted(c, counts)), key);
    }
  }

  lemma AddedLowers(owner: string, c: Chunk, at: int, lower: Counts, counts: Counts, key: Key)
    requires OneLess(lower, counts, key)
    ensures Added(owner, c, at, lower) == Lowered(Added(owner, c, at, counts), key)
  {
    if c.Task? {
      RecordLowers(owner, c, at, lower, counts, key);
    }
  }

  // ---------- The reader is local ----------

  lemma NextIgnoresTheRest()
    ensures IgnoresTheRest(Next)
  {
    forall a, b | !Next(a).Bad? ensures Next(a + b) == Next(a) {
      assert (a + b)[0] == a[0];
      if |a| >= 2 { assert (a + b)[1] == a[1]; }
    }
  }

  lemma NextNeedsItsLines()
    ensures NeedsItsLines(Next)
  {
  }

  lemma NextIsLocal()
    ensures Local(Next)
  {
    NextIgnoresTheRest();
    NextNeedsItsLines();
  }
}
