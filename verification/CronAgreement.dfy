/** The two readers of a user's crontab agree. */
module CronAgreement {
  import opened Utf8
  import opened Wrappers
  import opened CronText
  import opened CronSyntax
  import opened CronParser
  import opened CronEditor
  import opened CronEdits
  import opened CronContents
  import opened CronEncoding
  import opened CronLister

  // ---------- Trimming a task line ----------

  lemma {:induction false} TrimRightAppend(a: string, b: string)
    ensures TrimRight(a + b) == if TrimRight(b) == "" then TrimRight(a) else a + TrimRight(b)
    decreases |b|
  {
    if b == "" {
      assert a + b == a;
    } else {
      var n := |b| - 1;
      assert (a + b)[|a + b| - 1] == b[n] && (a + b)[..|a + b| - 1] == a + b[..n];
      if IsSpace(b[n]) { TrimRightAppend(a, b[..n]); }
    }
  }

  lemma TrimRightStays(s: string)
    requires s != "" && !IsSpace(s[0])
    ensures TrimRight(s) != "" && TrimRight(s)[0] == s[0]
  {
    TrimRightIsPrefix(s);
  }

  lemma TokenKeepsItself(t: string)
    requires IsToken(t)
    ensures TrimRight(t) == t && Token(t) == t && AfterToken(t) == ""
  {
    assert t[|t| - 1] in t;
    TokenOf(t, "");
    assert t + "" == t;
  }

  predicate AreSpaces(gap: string) {
    forall c | c in gap :: IsSpace(c)
  }

  lemma {:induction false} SpacesTrim(gap: string, rest: string)
    requires AreSpaces(gap) && (rest != "" ==> !IsSpace(rest[0]))
    ensures TrimLeft(gap + rest) == rest && TrimRight(gap) == ""
    decreases |gap|
  {
    if gap == "" {
      assert gap + rest == rest;
    } else {
      assert gap[0] in gap && gap[|gap| - 1] in gap;
      assert (gap + rest)[1..] == gap[1..] + rest;
      SpacesTrim(gap[1..], rest);
      SpacesTrim(gap[..|gap| - 1], "");
    }
  }

  /** The pieces of a text to scan: a field, white space, and the rest. */
  lemma ScanPieces(s: string) returns (t: string, gap: string, rest: string)
    requires Token(s) != ""
    ensures IsToken(t) && AreSpaces(gap) && (rest != "" ==> !IsSpace(rest[0]) && gap != "") && s == t + (gap + rest)
  {
    TokenIsPrefix(s);
    TrimLeftIsSuffix(AfterToken(s));
    t, rest := Token(s), TrimLeft(AfterToken(s));
    gap := AfterToken(s)[..|AfterToken(s)| - |rest|];
  }

  /** Scanning those pieces. */
  lemma ScanOfPieces(t: string, gap: string, rest: string, n: nat)
    requires n >= 1 && IsToken(t) && AreSpaces(gap) && (rest != "" ==> !IsSpace(rest[0]) && gap != "")
    ensures Scan(t + (gap + rest), n) ==
            if gap == "" then None
            else if n == 1 then
              if rest != "" then Some(([t], rest)) else if |gap| >= 2 then Some(([t], gap[|gap| - 1..])) else None
            else if Scan(rest, n - 1).None? then None
            else Some(([t] + Scan(rest, n - 1).value.0, Scan(rest, n - 1).value.1))
  {
    assert gap != "" ==> gap[0] in gap && (gap + rest)[0] == gap[0];
    TokenOf(t, gap + rest);
    SpacesTrim(gap, rest);
    if rest == "" { assert gap + rest == gap; }
  }

  lemma PiecesTrim(t: string, gap: string, rest: string)
    requires IsToken(t) && AreSpaces(gap) && (rest != "" ==> !IsSpace(rest[0]))
    ensures TrimRight(t + (gap + rest)) == if rest == "" then t else t + (gap + TrimRight(rest))
    ensures rest != "" ==> TrimRight(rest) != "" && !IsSpace(TrimRight(rest)[0])
  {
    SpacesTrim(gap, rest);
    TrimRightAppend(t, gap + rest);
    TrimRightAppend(gap, rest);
    TokenKeepsItself(t);
    if rest != "" { TrimRightStays(rest); }
  }

  lemma LastSpace(gap: string)
    requires AreSpaces(gap) && gap != ""
    ensures TrimRight(gap[|gap| - 1..]) == "" && Trim(gap[|gap| - 1..]) == ""
  {
    var last := gap[|gap| - 1..];
    assert last[0] in gap;
    SpacesTrim(last, "");
    assert last + "" == last;
  }

  /** Scanning a text without its trailing white space gives the same fields and the command without
      its own; a command of white space only is lost. */
  lemma {:induction false} ScanTrimmed(s: string, n: nat)
    requires n >= 1 && Scan(s, n).Some?
    ensures var (fields, command) := Scan(s, n).value;
            Scan(TrimRight(s), n) == if TrimRight(command) == "" then None else Some((fields, TrimRight(command)))
    decreases n
  {
    var t, gap, rest := ScanPieces(s);
    ScanOfPieces(t, gap, rest, n);
    PiecesTrim(t, gap, rest);
    if rest == "" {
      assert t + ("" + "") == t;
      ScanOfPieces(t, "", "", n);
      if n == 1 { LastSpace(gap); }
    } else {
      var short := TrimRight(rest);
      assert TrimRight(s) == t + (gap + short);
      ScanOfPieces(t, gap, short, n);
      if n > 1 { ScanTrimmed(rest, n - 1); }
    }
  }

  lemma {:induction false} ScanCommand(s: string, n: nat)
    requires n >= 1 && Scan(s, n).Some?
    ensures Trim(Scan(s, n).value.1) == TrimRight(Scan(s, n).value.1)
    ensures Scan(s, n).value.1 != "" && Scan(s, n).value.0 != [] && Scan(s, n).value.0[0] != ""
    decreases n
  {
    var t, gap, rest := ScanPieces(s);
    ScanOfPieces(t, gap, rest, n);
    if n > 1 {
      ScanCommand(rest, n - 1);
    } else if rest == "" {
      LastSpace(gap);
    }
  }

  lemma TrimOfTrim(line: string)
    ensures TrimLeft(Trim(line)) == Trim(line) && Trim(Trim(line)) == Trim(line)
  {
    TrimEnds(line);
  }

  /** The listing reader trims a task line first: it sees the same schedule and the trimmed command, and
      cannot read a line whose command is white space only. */
  lemma TrimmedJob(line: string)
    requires ParseJob(line).Some?
    ensures var job := ParseJob(line).value;
            && job.schedule != "" && job.command != ""
            && ParseJob(Trim(line)) == if Trim(job.command) == "" then None else Some(Job(job.schedule, Trim(job.command)))
  {
    TrimOfTrim(line);
    var n := if "@" <= Trim(line) then 1 else 5;
    ScanTrimmed(TrimLeft(line), n);
    ScanCommand(TrimLeft(line), n);
  }

  // ---------- One task, two readers ----------

  /** The command names a periodic directory. */
  predicate Expands(command: string) {
    Periodic(Trim(command)).Some?
  }

  /** A record as one listed task. */
  function ListedAs(r: Record): Listed {
    Listed(r.id, r.schedule, if r.enabled then Trim(r.command) else r.command, r.end + 1, r.enabled, r.managed)
  }

  /** What a record is listed as; `None` when it makes the listing fail. */
  function Entry(scripts: Scripts, r: Record): Option<seq<Listed>> {
    if !r.enabled then Some([ListedAs(r)])
    else if Expands(r.command) then
      var paths := scripts(Periodic(Trim(r.command)).value);
      if r.managed || paths.None? then None else Some(ScriptJobs(paths.value, r.schedule))
    else if Trim(r.command) == "" then None
    else Some([ListedAs(r)])
  }

  function ListAll(scripts: Scripts, records: seq<Record>): Option<seq<Listed>> {
    if records == [] then Some([])
    else if Entry(scripts, records[0]).None? then None
    else Following(Entry(scripts, records[0]).value, ListAll(scripts, records[1..]))
  }

  /** The listing reader does not count a task it lists as scripts. */
  function Seen(c: Chunk, seen: Counts): Counts {
    if c.Task? && c.enabled && Expands(c.job.command) then seen else Counted(c, seen)
  }

  /** Both readers have counted the same tasks, but for those listed as scripts. */
  ghost predicate Agree(seen: Counts, counts: Counts) {
    forall key: Key :: Periodic(key.1).None? ==> Count(seen, key) == Count(counts, key)
  }

  lemma AgreeStill(c: Chunk, seen: Counts, counts: Counts)
    requires Agree(seen, counts) && (c.Task? ==> c.key == KeyOf(c.job) && (c.enabled || c.marked.Some?))
    ensures Agree(Seen(c, seen), Counted(c, counts))
  {
    if c.Task? {
      forall key: Key | Periodic(key.1).None? ensures Count(Seen(c, seen), key) == Count(Counted(c, counts), key) {
        assert Count(seen, key) == Count(counts, key);
      }
    }
  }

  /** The listing reader's outcome for a chunk. */
  function ChunkOut(owner: string, scripts: Scripts, c: Chunk, at: int, counts: Counts, seen: Counts): Option<Out>
    requires c.Task?
  {
    var entry := Entry(scripts, RecordOf(owner, c, at, counts));
    if entry.None? then None else Some(Out(entry.value, None, Seen(c, seen)))
  }

  /** Whatever chunk the lines start with, the line reader makes the same of its lines. */
  ghost predicate SameChunk(
      step: Stepper, next: Reader, owner: string, scripts: Scripts, lines: seq<string>, at: int, counts: Counts, seen: Counts)
  {
    var c := next(lines);
    if lines == [] || c.Bad? then true
    else if c.Gap? then step(lines[0], at + 1, None, seen) == Some(Out([], None, seen))
    else
      var out := ChunkOut(owner, scripts, c, at, counts, seen);
      && Agree(Seen(c, seen), Counted(c, counts))
      && if c.width == 1 then step(lines[0], at + 1, None, seen) == out
         else
           && c.width == 2 && |lines| >= 2 && c.marked.Some?
           && step(lines[0], at + 1, None, seen) == Some(Out([], c.marked, seen))
           && step(lines[1], at + 2, c.marked, seen) == out
  }

  /** What the listing reader makes of a task line, by the job the editing reader sees in it. */
  function Shown(owner: string, scripts: Scripts, job: Job, at: int, pending: Option<string>, seen: Counts): Option<Out> {
    var key := KeyOf(job);
    if Expands(job.command) then
      var paths := scripts(Periodic(Trim(job.command)).value);
      if pending.Some? || paths.None? then None else Some(Out(ScriptJobs(paths.value, job.schedule), pending, seen))
    else if Trim(job.command) == "" then None
    else if pending.Some? then
      Some(Out([Listed(Managed(pending.value), job.schedule, Trim(job.command), at, true, true)], None, seen))
    else
      Some(Out([Listed(Legacy(owner, key.0, key.1, Count(seen, key) + 1), job.schedule, Trim(job.command), at, true, false)],
               None, OneMore(seen, key)))
  }

  /** The line is a task's, already trimmed. */
  lemma JobShown(owner: string, scripts: Scripts, line: string, job: Job, at: int, pending: Option<string>, seen: Counts)
    requires ParseJob(line) == (if Trim(job.command) == "" then None else Some(Job(job.schedule, Trim(job.command))))
    requires owner != "" && job.schedule != "" && Trim(Trim(job.command)) == Trim(job.command)
    ensures JobLine(owner, scripts, line, at, pending, seen) == Shown(owner, scripts, job, at, pending, seen)
  {
  }

  lemma JobLines(owner: string, scripts: Scripts, line: string, job: Job) returns (short: string)
    requires ParseJob(line) == Some(job) && owner != ""
    ensures short == Trim(line)
    ensures ParseJob(short) == (if Trim(job.command) == "" then None else Some(Job(job.schedule, Trim(job.command))))
    ensures job.schedule != "" && Trim(Trim(job.command)) == Trim(job.command)
  {
    short := Trim(line);
    TrimmedJob(line);
    TrimOfTrim(job.command);
  }

  lemma ShownAsEntry(owner: string, scripts: Scripts, c: Chunk, at: int, counts: Counts, seen: Counts)
    requires c.Task? && c.enabled && c.key == KeyOf(c.job) && Agree(seen, counts)
    ensures Shown(owner, scripts, c.job, at + c.width, c.marked, seen) == ChunkOut(owner, scripts, c, at, counts, seen)
  {
  }

  /** A suspended task's marker, by the line in its payload. */
  lemma SuspendedLine(owner: string, m: Marker, line: string, job: Job, at: int, seen: Counts)
    requires m.suspended && m.payload != "" && DecodeText(m.payload) == Some(line) && line != "" && OneLine(line)
    requires ParseJob(line) == Some(job) && !Incomplete(owner, job)
    ensures MarkerLine(owner, m, at, None, seen) ==
            Some(Out([Listed(Managed(m.id), job.schedule, job.command, at, false, true)], None, seen))
  {
  }

  lemma SuspendedOut(owner: string, scripts: Scripts, c: Chunk, at: int, counts: Counts, seen: Counts)
    requires c.Task? && !c.enabled && c.marked.Some? && c.width == 1
    ensures ChunkOut(owner, scripts, c, at, counts, seen) ==
            Some(Out([Listed(Managed(c.marked.value), c.job.schedule, c.job.command, at + 1, false, true)], None, seen))
  {
  }

  lemma SuspendedFacts(m: Marker)
    requires SuspendedTask(m).Task?
    ensures var c := SuspendedTask(m);
            && DecodeText(m.payload) == Some(c.line) && c.line != "" && OneLine(c.line) && ParseJob(c.line) == Some(c.job)
            && c.marked == Some(m.id) && !c.enabled && c.width == 1 && m.payload != "" && c.key == KeyOf(c.job)
            && c.job.schedule != "" && c.job.command != ""
  {
    EmptyDecodes();
    SuspendedTaskFacts(m);
    TrimmedJob(SuspendedTask(m).line);
  }

  lemma SameSuspended(owner: string, scripts: Scripts, m: Marker, at: int, counts: Counts, seen: Counts)
    requires m.suspended && SuspendedTask(m).Task? && owner != ""
    ensures MarkerLine(owner, m, at + 1, None, seen) == ChunkOut(owner, scripts, SuspendedTask(m), at, counts, seen)
  {
    SuspendedFacts(m);
    var c := SuspendedTask(m);
    SuspendedLine(owner, m, c.line, c.job, at + 1, seen);
    SuspendedOut(owner, scripts, c, at, counts, seen);
  }

  lemma EmptyDecodes()
    ensures DecodeText("") == Some("")
  {
    assert EncodeText("") == "";
    TextRoundTrip("");
  }

  lemma MarkersAreComments(line: string)
    requires ParseMarker(line).Some? || STEM <= line
    ensures "#" <= line
  {
    assert line[0] == STEM[0];
  }

  lemma PlainLine(owner: string, scripts: Scripts, raw: string, at: int, pending: Option<string>, counts: Counts)
    requires IsPlain(Trim(raw))
    ensures Line(owner, scripts, raw, at, pending, counts) == JobLine(owner, scripts, Trim(raw), at, pending, counts)
  {
    if ParseMarker(Trim(raw)).Some? || STEM <= Trim(raw) { MarkersAreComments(Trim(raw)); }
  }

  lemma SameJob(owner: string, scripts: Scripts, c: Chunk, at: int, counts: Counts, seen: Counts)
    requires owner != "" && c.Task? && c.enabled && Agree(seen, counts)
    requires ParseJob(c.line) == Some(c.job) && c.key == KeyOf(c.job)
    ensures JobLine(owner, scripts, Trim(c.line), at + c.width, c.marked, seen) == ChunkOut(owner, scripts, c, at, counts, seen)
  {
    var short := JobLines(owner, scripts, c.line, c.job);
    JobShown(owner, scripts, short, c.job, at + c.width, c.marked, seen);
    ShownAsEntry(owner, scripts, c, at, counts, seen);
  }

  /** The line under an active marker, or a legacy task's own line. */
  lemma SameActive(owner: string, scripts: Scripts, lines: seq<string>, at: int, counts: Counts, seen: Counts)
    requires owner != "" && Next(lines).Task? && Next(lines).enabled && Agree(seen, counts)
    ensures var c := Next(lines);
            && 1 <= c.width <= |lines| && c.width == (if c.marked.Some? then 2 else 1)
            && Line(owner, scripts, lines[c.width - 1], at + c.width, c.marked, seen) == ChunkOut(owner, scripts, c, at, counts, seen)
            && Agree(Seen(c, seen), Counted(c, counts))
  {
    TaskFacts(lines);
    var c := Next(lines);
    PlainLine(owner, scripts, c.line, at + c.width, c.marked, seen);
    SameJob(owner, scripts, c, at, counts, seen);
    AgreeStill(c, seen, counts);
  }

  lemma SuspendedMarkerLine(owner: string, scripts: Scripts, lines: seq<string>, at: int, seen: Counts) returns (m: Marker)
    requires Next(lines).Task? && !Next(lines).enabled
    ensures lines != [] && m.suspended && Next(lines) == SuspendedTask(m)
    ensures Line(owner, scripts, lines[0], at, None, seen) == MarkerLine(owner, m, at, None, seen)
  {
    m := ParseMarker(Trim(lines[0])).value;
  }

  lemma SuspendedChunk(owner: string, scripts: Scripts, lines: seq<string>, at: int, counts: Counts, seen: Counts)
    requires owner != "" && Next(lines).Task? && !Next(lines).enabled && Agree(seen, counts)
    ensures SameChunk(LineReader(owner, scripts), Next, owner, scripts, lines, at, counts, seen)
  {
    var m := SuspendedMarkerLine(owner, scripts, lines, at + 1, seen);
    SuspendedFacts(m);
    SameSuspended(owner, scripts, m, at, counts, seen);
    AgreeStill(Next(lines), seen, counts);
  }

  /** The last line of an active task is read alike. */
  ghost predicate SameLast(
      step: Stepper, next: Reader, owner: string, scripts: Scripts, lines: seq<string>, at: int, counts: Counts, seen: Counts)
  {
    var c := next(lines);
    && c.Task? && 1 <= c.width <= |lines| && c.width == (if c.marked.Some? then 2 else 1)
    && step(lines[c.width - 1], at + c.width, c.marked, seen) == ChunkOut(owner, scripts, c, at, counts, seen)
    && Agree(Seen(c, seen), Counted(c, counts))
  }

  lemma LastIs(
      step: Stepper, next: Reader, owner: string, scripts: Scripts, lines: seq<string>, c: Chunk, at: int, counts: Counts, seen: Counts)
    requires next(lines) == c && c.Task? && 1 <= c.width <= |lines| && c.width == (if c.marked.Some? then 2 else 1)
    requires step(lines[c.width - 1], at + c.width, c.marked, seen) == ChunkOut(owner, scripts, c, at, counts, seen)
    requires Agree(Seen(c, seen), Counted(c, counts))
    ensures SameLast(step, next, owner, scripts, lines, at, counts, seen)
  {
  }

  lemma ActiveLast(owner: string, scripts: Scripts, lines: seq<string>, at: int, counts: Counts, seen: Counts)
    requires owner != "" && Next(lines).Task? && Next(lines).enabled && Agree(seen, counts)
    ensures SameLast(LineReader(owner, scripts), Next, owner, scripts, lines, at, counts, seen)
  {
    SameActive(owner, scripts, lines, at, counts, seen);
    LastIs(LineReader(owner, scripts), Next, owner, scripts, lines, Next(lines), at, counts, seen);
  }

  lemma LegacyChunk(
      step: Stepper, next: Reader, owner: string, scripts: Scripts, lines: seq<string>, at: int, counts: Counts, seen: Counts)
    requires SameLast(step, next, owner, scripts, lines, at, counts, seen) && next(lines).marked.None?
    ensures SameChunk(step, next, owner, scripts, lines, at, counts, seen)
  {
  }

  lemma ActiveMarkerLine(owner: string, scripts: Scripts, lines: seq<string>, at: int, seen: Counts)
    requires Next(lines).Task? && Next(lines).enabled && Next(lines).marked.Some?
    ensures |lines| >= 2 && Next(lines).width == 2
    ensures Line(owner, scripts, lines[0], at + 1, None, seen) == Some(Out([], Next(lines).marked, seen))
  {
  }

  lemma ActiveChunk(owner: string, scripts: Scripts, lines: seq<string>, at: int, counts: Counts, seen: Counts)
    requires owner != "" && Next(lines).Task? && Next(lines).enabled && Next(lines).marked.Some? && Agree(seen, counts)
    ensures SameChunk(LineReader(owner, scripts), Next, owner, scripts, lines, at, counts, seen)
  {
    ActiveMarkerLine(owner, scripts, lines, at, seen);
    SameActive(owner, scripts, lines, at, counts, seen);
  }

  lemma GapChunk(owner: string, scripts: Scripts, lines: seq<string>, at: int, counts: Counts, seen: Counts)
    requires lines != [] && Next(lines).Gap?
    ensures SameChunk(LineReader(owner, scripts), Next, owner, scripts, lines, at, counts, seen)
  {
  }

  lemma SameLine(owner: string, scripts: Scripts, lines: seq<string>, at: int, counts: Counts, seen: Counts)
    requires owner != "" && Agree(seen, counts)
    ensures SameChunk(LineReader(owner, scripts), Next, owner, scripts, lines, at, counts, seen)
  {
    var c := Next(lines);
    if lines == [] || c.Bad? {
    } else if c.Gap? {
      GapChunk(owner, scripts, lines, at, counts, seen);
    } else if !c.enabled {
      SuspendedChunk(owner, scripts, lines, at, counts, seen);
    } else if c.marked.Some? {
      ActiveChunk(owner, scripts, lines, at, counts, seen);
    } else {
      ActiveLast(owner, scripts, lines, at, counts, seen);
      LegacyChunk(LineReader(owner, scripts), Next, owner, scripts, lines, at, counts, seen);
    }
  }

  // ---------- The whole file ----------

  predicate AllBlank(lines: seq<string>) {
    forall i | 0 <= i < |lines| :: lines[i] == ""
  }

  ghost predicate SkipsBlanks(step: Stepper) {
    forall at, counts :: step("", at, None, counts) == Some(Out([], None, counts))
  }

  lemma {:induction false} BlanksList(step: Stepper, lines: seq<string>, at: int, counts: Counts)
    requires SkipsBlanks(step) && AllBlank(lines)
    ensures List(step, lines, at, None, counts) == Some([])
  {
    if lines != [] {
      BlanksList(step, lines[1..], at + 1, counts);
      assert step(lines[0], at, None, counts) == Some(Out([], None, counts));
      FollowingNothing(List(step, lines[1..], at + 1, None, counts));
    }
  }

  lemma ListOne(step: Stepper, lines: seq<string>, at: int, pending: Option<string>, counts: Counts, out: Out)
    requires lines != [] && step(lines[0], at, pending, counts) == Some(out)
    ensures List(step, lines, at, pending, counts) == Following(out.jobs, List(step, lines[1..], at + 1, out.pending, out.counts))
  {
  }

  function ChunkEntry(owner: string, scripts: Scripts, c: Chunk, at: int, counts: Counts): Option<seq<Listed>> {
    if c.Task? then Entry(scripts, RecordOf(owner, c, at, counts)) else Some([])
  }

  /** Listing passes over a whole chunk at once. */
  lemma ListChunk(
      step: Stepper, next: Reader, owner: string, scripts: Scripts, lines: seq<string>, more: seq<string>, at: int,
      counts: Counts, seen: Counts)
    requires lines != [] && SameChunk(step, next, owner, scripts, lines, at, counts, seen) && Agree(seen, counts)
    requires var c := next(lines); !c.Bad? && 1 <= Width(c) <= |lines|
    ensures var c := next(lines); var rest := lines[Width(c)..] + more; var entry := ChunkEntry(owner, scripts, c, at, counts);
            && Agree(Seen(c, seen), Counted(c, counts))
            && List(step, lines + more, at + 1, None, seen) ==
                 if entry.None? then None
                 else Following(entry.value, List(step, rest, at + Width(c) + 1, None, Seen(c, seen)))
  {
    var c := next(lines);
    var all := lines + more;
    assert all[1..] == lines[1..] + more && all[0] == lines[0];
    if c.Task? && c.width == 2 {
      assert all[1..][0] == lines[1] && all[1..][1..] == lines[2..] + more;
      ListOne(step, all, at + 1, None, seen, Out([], c.marked, seen));
      FollowingNothing(List(step, all[1..], at + 2, c.marked, seen));
    }
  }

  ghost predicate SameChunks(step: Stepper, next: Reader, owner: string, scripts: Scripts) {
    forall lines, at, counts, seen | Agree(seen, counts) :: SameChunk(step, next, owner, scripts, lines, at, counts, seen)
  }

  lemma ListFirst(
      step: Stepper, next: Reader, owner: string, scripts: Scripts, lines: seq<string>, chunks: seq<Chunk>, more: seq<string>,
      at: int, counts: Counts, seen: Counts)
    returns (rest: seq<string>, to: int)
    requires lines != [] && Cut(next, lines) == Some(chunks) && chunks != []
    requires SameChunks(step, next, owner, scripts) && Agree(seen, counts)
    ensures |rest| < |lines| && to == at + Width(chunks[0]) && Cut(next, rest) == Some(chunks[1..])
    ensures Agree(Seen(chunks[0], seen), Counted(chunks[0], counts))
    ensures var entry := ChunkEntry(owner, scripts, chunks[0], at, counts);
            List(step, lines + more, at + 1, None, seen) ==
              if entry.None? then None
              else Following(entry.value, List(step, rest + more, to + 1, None, Seen(chunks[0], seen)))
  {
    CutFirst(next, lines, chunks);
    assert SameChunk(step, next, owner, scripts, lines, at, counts, seen);
    ListChunk(step, next, owner, scripts, lines, more, at, counts, seen);
    rest, to := lines[Width(chunks[0])..], at + Width(chunks[0]);
  }

  lemma CutNothing(next: Reader, lines: seq<string>, chunks: seq<Chunk>)
    requires Cut(next, lines) == Some(chunks)
    ensures lines == [] <==> chunks == []
  {
  }

  lemma ListedTogether(owner: string, scripts: Scripts, c: Chunk, at: int, counts: Counts, later: seq<Record>)
    ensures var entry := ChunkEntry(owner, scripts, c, at, counts);
            ListAll(scripts, Added(owner, c, at, counts) + later) ==
              if entry.None? then None else Following(entry.value, ListAll(scripts, later))
  {
    if c.Task? {
      assert ([RecordOf(owner, c, at, counts)] + later)[1..] == later;
    } else {
      assert [] + later == later;
      FollowingNothing(ListAll(scripts, later));
    }
  }

  /** Lines that are cut into chunks are listed as the records of those chunks. */
  lemma {:induction false} ListFollows(
      step: Stepper, next: Reader, owner: string, scripts: Scripts, lines: seq<string>, chunks: seq<Chunk>, more: seq<string>,
      at: int, counts: Counts, seen: Counts)
    requires Cut(next, lines) == Some(chunks) && SkipsBlanks(step) && AllBlank(more)
    requires SameChunks(step, next, owner, scripts) && Agree(seen, counts)
    ensures List(step, lines + more, at + 1, None, seen) == ListAll(scripts, Number(owner, chunks, at, counts))
    decreases |lines|
  {
    CutNothing(next, lines, chunks);
    if lines == [] {
      assert lines + more == more;
      BlanksList(step, more, at + 1, seen);
    } else {
      var c := chunks[0];
      var rest, to := ListFirst(step, next, owner, scripts, lines, chunks, more, at, counts, seen);
      ListFollows(step, next, owner, scripts, rest, chunks[1..], more, to, Counted(c, counts), Seen(c, seen));
      NumberFirst(owner, chunks, at, to, counts);
      ListedTogether(owner, scripts, c, at, counts, Number(owner, chunks[1..], to, Counted(c, counts)));
    }
  }

  // ---------- The two readings of a file ----------

  /** The listing reader sees the editing reader's lines and then only blank ones. */
  lemma BlanksAtTheEnd(content: string) returns (more: seq<string>)
    ensures Split(UnixBreaks(content)) == SplitContent(content) + more && AllBlank(more)
  {
    more := BlanksAfter(UnixBreaks(content));
  }

  lemma BlanksAfter(s: string) returns (more: seq<string>)
    ensures var t := if s != "" && s[|s| - 1] == '\n' then s[..|s| - 1] else s;
            Split(s) == (if t == "" then [] else Split(t)) + more
    ensures AllBlank(more)
  {
    if s != "" && s[|s| - 1] == '\n' {
      var t := s[..|s| - 1];
      assert s == t + "\n";
      SplitOfEnded(t);
      more := if t == "" then ["", ""] else [""];
    } else {
      more := if s == "" then [""] else [];
      assert s != "" ==> Split(s) + [] == Split(s);
    }
  }

  lemma LineReaderSkipsBlanks(owner: string, scripts: Scripts)
    ensures SkipsBlanks(LineReader(owner, scripts))
  {
  }

  lemma LinesAgree(owner: string, scripts: Scripts)
    requires owner != ""
    ensures SameChunks(LineReader(owner, scripts), Next, owner, scripts)
  {
    forall lines, at, counts, seen | Agree(seen, counts)
      ensures SameChunk(LineReader(owner, scripts), Next, owner, scripts, lines, at, counts, seen)
    {
      SameLine(owner, scripts, lines, at, counts, seen);
    }
  }

  lemma FilesAgree(
      step: Stepper, next: Reader, owner: string, scripts: Scripts, lines: seq<string>, more: seq<string>, all: seq<string>)
    requires SkipsBlanks(step) && SameChunks(step, next, owner, scripts) && AllBlank(more) && all == lines + more
    requires ParseBy(next, owner, lines).Parsed?
    ensures List(step, all, 1, None, map[]) == ListAll(scripts, ParseBy(next, owner, lines).records)
  {
    assert Agree(map[], map[]);
    ListFollows(step, next, owner, scripts, lines, Cut(next, lines).value, more, 0, map[], map[]);
  }

  lemma LinesAsGiven(content: string)
    requires IsUtf8(content)
    ensures LinesOf(content) == SplitContent(content)
  {
    RepairedExactly(content);
  }

  /** On every crontab the editing reader accepts, the listing reader gives the same tasks in the same
      order, each as its record says; an active task that names a periodic directory is listed as the
      scripts of that directory. Only a file that is not valid UTF-8 is refused outright, where the
      editing reader is given it repaired. */
  lemma ReadersAgree(owner: string, scripts: Scripts, content: string)
    requires owner != "" && Read(owner, content).Parsed?
    ensures ListFile(owner, scripts, content) ==
            if IsUtf8(content) then ListAll(scripts, Read(owner, content).records) else None
  {
    if IsUtf8(content) {
      LinesAsGiven(content);
      LineReaderSkipsBlanks(owner, scripts);
      LinesAgree(owner, scripts);
      var more := BlanksAtTheEnd(content);
      FilesAgree(LineReader(owner, scripts), Next, owner, scripts, SplitContent(content), more, Split(UnixBreaks(content)));
    }
  }

  /** A record without a place in the listing. */
  predicate Unlistable(scripts: Scripts, r: Record) {
    && r.enabled
    && if Expands(r.command) then r.managed || scripts(Periodic(Trim(r.command)).value).None? else Trim(r.command) == ""
  }

  /** The records cannot be listed exactly when one of them cannot. */
  lemma {:induction false} RecordsFail(scripts: Scripts, records: seq<Record>)
    ensures ListAll(scripts, records).None? <==> exists i | 0 <= i < |records| :: Unlistable(scripts, records[i])
  {
    if records != [] {
      RecordsFail(scripts, records[1..]);
      if ListAll(scripts, records[1..]).None? {
        var i :| 0 <= i < |records[1..]| && Unlistable(scripts, records[1..][i]);
        assert Unlistable(scripts, records[i + 1]);
      } else {
        forall i | 0 < i < |records| ensures !Unlistable(scripts, records[i]) {
          assert records[i] == records[1..][i - 1];
        }
      }
    }
  }

  /** The listing fails exactly when the file is not valid UTF-8, or some active task has a command of white
      space only, or is managed and names a periodic directory, or names one that cannot be read. */
  lemma ListingFails(owner: string, scripts: Scripts, content: string)
    requires owner != "" && Read(owner, content).Parsed?
    ensures ListFile(owner, scripts, content).None? <==>
            !IsUtf8(content)
            || exists i | 0 <= i < |Read(owner, content).records| :: Unlistable(scripts, Read(owner, content).records[i])
  {
    ReadersAgree(owner, scripts, content);
    RecordsFail(scripts, Read(owner, content).records);
  }

  /** A listing can be split at any record. */
  lemma {:induction false} ListAllAppend(scripts: Scripts, a: seq<Record>, b: seq<Record>)
    ensures ListAll(scripts, a + b) ==
            if ListAll(scripts, a).None? then None else Following(ListAll(scripts, a).value, ListAll(scripts, b))
  {
    if a == [] {
      assert a + b == b;
      FollowingNothing(ListAll(scripts, b));
    } else {
      assert (a + b)[1..] == a[1..] + b && (a + b)[0] == a[0];
      ListAllAppend(scripts, a[1..], b);
      if Entry(scripts, a[0]).Some? && ListAll(scripts, a[1..]).Some? {
        FollowingTwice(Entry(scripts, a[0]).value, ListAll(scripts, a[1..]).value, ListAll(scripts, b));
      }
    }
  }

  /** Each task stands between what comes before it and what comes after it: itself, with its own fields, or
      the scripts it runs. */
  lemma ListedTaskByTask(scripts: Scripts, records: seq<Record>, k: nat)
    requires k < |records| && ListAll(scripts, records).Some?
    ensures var before, after := ListAll(scripts, records[..k]), ListAll(scripts, records[k + 1..]);
            && before.Some? && after.Some? && Entry(scripts, records[k]).Some?
            && ListAll(scripts, records).value == before.value + Entry(scripts, records[k]).value + after.value
    ensures var r, items := records[k], Entry(scripts, records[k]).value;
            if r.enabled && Expands(r.command) then
              var paths := scripts(Periodic(Trim(r.command)).value);
              !r.managed && paths.Some? && items == ScriptJobs(paths.value, r.schedule)
            else
              && |items| == 1 && items[0].Listed? && items[0].id == r.id && items[0].schedule == r.schedule
              && items[0].enabled == r.enabled && items[0].managed == r.managed && items[0].line == r.end + 1
              && Trim(items[0].command) == Trim(r.command)
  {
    var r := records[k];
    assert records == records[..k] + ([r] + records[k + 1..]);
    ListAllAppend(scripts, records[..k], [r] + records[k + 1..]);
    assert ([r] + records[k + 1..])[1..] == records[k + 1..];
    FollowingTwice(ListAll(scripts, records[..k]).value, Entry(scripts, r).value, ListAll(scripts, records[k + 1..]));
    TrimOfTrim(r.command);
  }

  // ---------- Listing what the editor created ----------

  lemma EntryOfNew(scripts: Scripts, r: Record)
    requires r.enabled && r.managed && Trim(r.command) == r.command && r.command != ""
    ensures ListAll(scripts, [r]) ==
            if Expands(r.command) then None
            else Some([Listed(r.id, r.schedule, r.command, r.end + 1, true, true)])
  {
    assert [r][1..] == [] && [ListedAs(r)] + [] == [ListedAs(r)];
  }

  /** The file left by creating a task is valid, and lists the new task after all the others; if its command
      names a periodic directory, the file cannot be listed any more, even for the tasks that were there. */
  lemma CreatedIsListed(owner: string, scripts: Scripts, content: string, schedule: string, command: string, newId: string)
    returns (after: seq<string>)
    requires IsFile(content) && IsUuid(newId) && IsUtf8(schedule) && IsUtf8(command) && owner != ""
    requires Edited(owner, LinesOf(content), Create(schedule, command), newId).0.Some? && IsPlain(TaskLine(schedule, command))
    ensures Edited(owner, LinesOf(content), Create(schedule, command), newId) == (Some(after), Changed(Managed(newId), true))
    ensures var before := ListFile(owner, scripts, Repaired(content));
            var task := Listed(Managed(newId), Normalize(schedule), Trim(command), |after|, true, true);
            ListFile(owner, scripts, Render(after)) ==
              if before.None? || Expands(command) then None else Some(before.value + [task])
  {
    var line, r;
    line, after, r := InstalledCreate(owner, content, schedule, command, newId);
    RepairedExactly(content);
    NewIsListed(owner, scripts, Repaired(content), Render(after), command, r);
  }

  lemma NewIsListed(owner: string, scripts: Scripts, content: string, other: string, command: string, r: Record)
    requires owner != "" && Read(owner, content).Parsed? && Read(owner, other).Parsed? && IsUtf8(content) && IsUtf8(other)
    requires Read(owner, other).records == Read(owner, content).records + [r]
    requires r.enabled && r.managed && r.command == Trim(command) && Trim(command) != ""
    ensures ListFile(owner, scripts, other) ==
            if ListFile(owner, scripts, content).None? || Expands(command) then None
            else Some(ListFile(owner, scripts, content).value + [Listed(r.id, r.schedule, Trim(command), r.end + 1, true, true)])
  {
    ReadersAgree(owner, scripts, content);
    ReadersAgree(owner, scripts, other);
    AppendedIsListed(scripts, Read(owner, content).records, Read(owner, other).records, r, command);
  }

  lemma AppendedIsListed(scripts: Scripts, records: seq<Record>, all: seq<Record>, r: Record, command: string)
    requires all == records + [r] && r.enabled && r.managed && r.command == Trim(command) && Trim(command) != ""
    ensures ListAll(scripts, all) ==
            if ListAll(scripts, records).None? || Expands(command) then None
            else Some(ListAll(scripts, records).value + [Listed(r.id, r.schedule, Trim(command), r.end + 1, true, true)])
  {
    TrimOfTrim(command);
    EntryOfNew(scripts, r);
    ListAllAppend(scripts, records, [r]);
  }

  // ---------- A file the editing reader accepts and the listing reader refuses ----------

  /** A task line that ends after its schedule: its last white space is the command. */
  lemma OnlySpaces(line: string)
    requires line == "@daily" + ("  " + "")
    ensures Trim(line) == "@daily" && ParseJob(line) == Some(Job("@daily", " ")) && Trim(" ") == ""
  {
    ScanOfPieces("@daily", "  ", "", 1);
    PiecesTrim("@daily", "  ", "");
    assert "  "[1..] == " ";
    LastSpace("  ");
    assert MACROS[5] == "@daily";
  }

  lemma OnlySpacesIsRead(owner: string, line: string)
    requires Trim(line) == "@daily" && ParseJob(line) == Some(Job("@daily", " ")) && Trim(" ") == ""
    ensures Next([line]) == Task(None, line, Job("@daily", " "), KeyOf(Job("@daily", " ")), true, 1)
  {
    NoHashNoMarker(Trim(line));
    assert IsPlain("@daily");
  }

  lemma NoHashNoMarker(line: string)
    requires line != "" && line[0] != '#'
    ensures ParseMarker(line) == None && !(STEM <= line)
  {
    assert STEM[0] == '#' && (STEM + " ")[0] == '#';
  }

  lemma ReadAlone(next: Reader, owner: string, line: string, c: Chunk)
    requires next([line]) == c && c.Task? && c.width == 1
    ensures ParseBy(next, owner, [line]) == Parsed([RecordOf(owner, c, 0, map[])], Counted(c, map[]))
  {
    TaskLinesCut(next, c, [line]);
    assert [] + [c] == [c] && [] + [RecordOf(owner, c, 0, map[])] == [RecordOf(owner, c, 0, map[])];
    NumberOne(owner, [], c);
  }

  /** One active line without a command is read, and listed as nothing at all. */
  lemma UnlistableAlone(owner: string, scripts: Scripts, line: string)
    requires Next([line]) == Task(None, line, Job("@daily", " "), KeyOf(Job("@daily", " ")), true, 1) && Trim(" ") == ""
    ensures Parse(owner, [line]).Parsed? && |Parse(owner, [line]).records| == 1
    ensures ListAll(scripts, Parse(owner, [line]).records) == None
  {
    var c := Next([line]);
    ReadAlone(Next, owner, line, c);
    assert Unlistable(scripts, [RecordOf(owner, c, 0, map[])][0]);
    RecordsFail(scripts, [RecordOf(owner, c, 0, map[])]);
  }

  lemma AloneIsNotListed(owner: string, scripts: Scripts, line: string, content: string)
    requires owner != "" && OneLine(line) && line != "" && IsUtf8(line) && content == Render([line]) && Trim(" ") == ""
    requires Next([line]) == Task(None, line, Job("@daily", " "), KeyOf(Job("@daily", " ")), true, 1)
    ensures Read(owner, content).Parsed? && |Read(owner, content).records| == 1
    ensures ListFile(owner, scripts, content) == None
  {
    InstalledReads(owner, [line]);
    UnlistableAlone(owner, scripts, line);
    ReadersAgree(owner, scripts, content);
  }

  lemma SpacesText(line: string)
    requires line == "@daily" + ("  " + "")
    ensures line == "@daily  " && OneLine(line) && IsUtf8(line) && Render([line]) == "@daily  \n"
  {
    assert IsAscii(line);
    AsciiIsUtf8(line);
  }

  /** Such a file is read for editing, and its listing fails. */
  lemma BlankCommandIsNotListed(owner: string, scripts: Scripts) returns (content: string)
    requires owner != ""
    ensures content == "@daily  \n"
    ensures Read(owner, content).Parsed? && |Read(owner, content).records| == 1
    ensures ListFile(owner, scripts, content) == None
  {
    var line := "@daily" + ("  " + "");
    SpacesText(line);
    OnlySpaces(line);
    OnlySpacesIsRead(owner, line);
    content := Render([line]);
    AloneIsNotListed(owner, scripts, line, content);
  }

  // ---------- Text that is not valid ----------

  lemma LatinText(line: string)
    requires line == "# " + ['t'] + ([0xE2 as char] + "che")
    ensures Repaired(line) == "# " + ['t'] + (REPLACEMENT + "che") && !IsUtf8(line)
  {
    var tail := [0xE2 as char] + "che";
    assert IsAscii("# ") && IsAscii("che");
    AsciiIsUtf8("# ");
    AsciiIsUtf8("che");
    ValidNeedsNoRepair("# ", false);
    ValidNeedsNoRepair("che", true);
    assert RuneWidth(tail) == 0 && tail[1..] == "che";
    RepairAround("# ", 't', tail, false);
    RepairedExactly(line);
    assert Repaired(line)[3] == REPLACEMENT[0] && line[4] != Repaired(line)[4];
  }

  lemma NotAMarker(line: string)
    requires |line| > 2 && line[2] == 't'
    ensures ParseMarker(line) == None && !(STEM <= line)
  {
    assert STEM[2] == 'A';
    assert (STEM + " ")[2] == 'A';
  }

  lemma CommentIsGap(line: string)
    requires |line| > 2 && line[0] == '#' && line[2] == 't' && !IsSpace(line[|line| - 1])
    ensures Next([line]) == Gap
  {
    TrimKeeps(line);
    NotAMarker(line);
  }

  lemma GapAlone(next: Reader, owner: string, line: string)
    requires next([line]) == Gap
    ensures ParseBy(next, owner, [line]) == Parsed([], map[])
  {
    assert [line][1..] == [] && [Gap] + [] == [Gap];
    CutStep(next, Gap, [line]);
    assert [] + [Gap] == [Gap];
    NumberOne(owner, [], Gap);
  }

  /** A file of one comment in another encoding: the editing reader accepts it, with the comment rewritten,
      and holds no task that could stop the listing, which fails. */
  lemma LatinCommentIsNotListed(owner: string, scripts: Scripts) returns (line: string, content: string)
    requires owner != ""
    ensures line == "# " + ['t'] + ([0xE2 as char] + "che") && content == Render([line]) && SplitContent(content) == [line]
    ensures LinesOf(content) == ["# " + ['t'] + (REPLACEMENT + "che")] && LinesOf(content) != [line]
    ensures Read(owner, content) == Parsed([], map[]) && ListFile(owner, scripts, content) == None
  {
    line := "# " + ['t'] + ([0xE2 as char] + "che");
    content := Render([line]);
    LatinText(line);
    assert OneLine(line);
    RenderRoundTrip([line]);
    InstalledLines([line]);
    assert RepairAll([line]) == [Repaired(line)];
    CommentIsGap(Repaired(line));
    GapAlone(Next, owner, Repaired(line));
    assert !AreUtf8([line]) by { assert [line][0] == line; }
    RenderIsUtf8([line]);
  }
}
