/** What an edit does to the records of a crontab, read back from the installed file. */
module CronEdits {
  import opened Wrappers
  import opened CronText
  import opened CronSyntax
  import opened CronParser
  import opened CronEditor

  // ---------- The text of one task ----------

  predicate AreByteLines(lines: seq<string>) {
    AreLines(lines) && forall i | 0 <= i < |lines| :: IsBytes(lines[i])
  }

  lemma ActiveTaskFacts(m: Marker, lines: seq<string>)
    requires ActiveTask(m, lines).Task?
    ensures var c := ActiveTask(m, lines);
            && ParseJob(c.line) == Some(c.job) && c.key == KeyOf(c.job) && c.marked == Some(m.id) && c.enabled && c.width == 2
            && |lines| >= 2 && c.line == lines[1] && IsPlain(Trim(lines[1])) && m.payload == ""
  {
  }

  lemma SuspendedTaskFacts(m: Marker)
    requires SuspendedTask(m).Task?
    ensures var c := SuspendedTask(m);
            && ParseJob(c.line) == Some(c.job) && c.key == KeyOf(c.job) && c.marked == Some(m.id) && !c.enabled && c.width == 1
            && DecodeText(m.payload) == Some(c.line) && OneLine(c.line) && c.line != ""
  {
  }

  lemma MarkerText(line: string, m: Marker)
    requires ParseMarker(line) == Some(m)
    ensures IsUuid(m.id) && (!m.suspended && m.payload == "" ==> line == ActiveMarker(m.id))
  {
    if !m.suspended {
      assert line == line[..|STEM| + 1] + line[|STEM| + 1..|STEM| + 37] + line[|STEM| + 37..];
      assert line[..|STEM| + 1] == STEM + " ";
    }
  }

  /** What the lines start with, by the marker they may start with. */
  lemma NextIs(lines: seq<string>) returns (m: Option<Marker>)
    requires Next(lines).Task?
    ensures lines != [] && m == ParseMarker(Trim(lines[0]))
    ensures m.Some? ==> Next(lines) == if m.value.suspended then SuspendedTask(m.value) else ActiveTask(m.value, lines)
    ensures m.None? ==>
              && ParseJob(lines[0]).Some? && IsPlain(Trim(lines[0]))
              && Next(lines) == Task(None, lines[0], ParseJob(lines[0]).value, KeyOf(ParseJob(lines[0]).value), true, 1)
  {
    m := ParseMarker(Trim(lines[0]));
  }

  lemma DecodedIsBytes(payload: string)
    ensures DecodeText(payload).Some? ==> IsBytes(DecodeText(payload).value)
  {
  }

  lemma NoJobInNothing(line: string)
    requires ParseJob(line).Some?
    ensures line != ""
  {
  }

  /** What is known of a task however it was written down. */
  lemma TaskFacts(lines: seq<string>)
    requires Next(lines).Task?
    ensures var c := Next(lines);
            && ParseJob(c.line) == Some(c.job) && c.key == KeyOf(c.job) && c.line != ""
            && (c.marked.Some? ==> IsUuid(c.marked.value))
            && (c.marked.None? ==> c.enabled && c.width == 1)
            && (c.enabled ==> IsPlain(Trim(c.line)) && c.width <= |lines| && c.line == lines[c.width - 1])
            && (!c.enabled ==> c.width == 1 && OneLine(c.line) && IsBytes(c.line))
            && (c.enabled && c.marked.Some? ==> c.width == 2 && Trim(lines[0]) == ActiveMarker(c.marked.value))
  {
    var m := NextIs(lines);
    if m.None? {
      NoJobInNothing(lines[0]);
    } else {
      MarkerText(Trim(lines[0]), m.value);
      if m.value.suspended {
        SuspendedTaskFacts(m.value);
        DecodedIsBytes(m.value.payload);
      } else {
        ActiveTaskFacts(m.value, lines);
        NoJobInNothing(lines[1]);
      }
    }
  }

  function MarkedChunk(uuid: string, line: string, enabled: bool): Chunk
    requires ParseJob(line).Some?
  {
    var job := ParseJob(line).value;
    Task(Some(uuid), line, job, KeyOf(job), enabled, if enabled then 2 else 1)
  }

  lemma SuspendedReads(uuid: string, line: string)
    requires IsUuid(uuid) && IsBytes(line) && OneLine(line) && ParseJob(line).Some?
    ensures Next([SuspendedMarker(uuid, line)]) == MarkedChunk(uuid, line, false)
  {
    NoJobInNothing(line);
    SuspendedMarkerParses(uuid, line);
  }

  lemma ActiveReads(uuid: string, line: string)
    requires IsUuid(uuid) && IsPlain(Trim(line)) && ParseJob(line).Some?
    ensures Next([ActiveMarker(uuid), line]) == MarkedChunk(uuid, line, true)
  {
    ActiveMarkerParses(uuid);
  }

  /** An active marker over a comment, an assignment or a blank line makes the file unreadable. */
  lemma ActiveFails(uuid: string, line: string, rest: seq<string>)
    requires IsUuid(uuid) && !IsPlain(Trim(line))
    ensures Next([ActiveMarker(uuid), line] + rest).Bad?
  {
    ActiveMarkerParses(uuid);
    var all := [ActiveMarker(uuid), line] + rest;
    assert all[0] == ActiveMarker(uuid) && all[1] == line;
  }

  /** The lines that hold one managed task. */
  function TaskLines(uuid: string, line: string, enabled: bool): seq<string> {
    if enabled then [ActiveMarker(uuid), line] else [SuspendedMarker(uuid, line)]
  }

  lemma TaskLinesCut(next: Reader, c: Chunk, lines: seq<string>)
    requires next(lines) == c && !c.Bad? && Width(c) == |lines| && lines != []
    ensures Cut(next, lines) == Some([c])
  {
    assert lines[Width(c)..] == [];
    assert Cut(next, []) == Some([]);
    CutStep(next, c, lines);
    assert [c] + [] == [c];
  }

  // ---------- Replacing one chunk ----------

  lemma CutAround(next: Reader, a: seq<string>, put: seq<string>, b: seq<string>)
    requires Local(next) && Cut(next, a).Some? && Cut(next, b).Some?
    ensures Cut(next, put).Some? ==>
              Cut(next, a + put + b) == Some(Cut(next, a).value + Cut(next, put).value + Cut(next, b).value)
    ensures put != [] && next(put + b).Bad? ==> Cut(next, a + put + b) == None
  {
    Associative(a, put, b);
    CutAppend(next, a, put + b);
    if Cut(next, put).Some? {
      CutAppend(next, put, b);
      Associative(Cut(next, a).value, Cut(next, put).value, Cut(next, b).value);
    }
  }

  /** The records after a record that was replaced: moved, and renumbered when it was a legacy one. */
  function Followers(rest: seq<Record>, c: Chunk, offset: int): seq<Record>
    requires c.Task?
  {
    Shifted(if c.marked.Some? then rest else Lowered(rest, c.key), offset)
  }

  lemma OneMoreHasOneLess(counts: Counts, key: Key)
    ensures OneLess(counts, OneMore(counts, key), key)
  {
  }

  /** The records read with the chunk before them are its followers' numbers before lowering. */
  lemma UncountedNumbered(owner: string, c: Chunk, after: seq<Chunk>, at: int, counts: Counts, last: seq<Record>)
    requires c.Task? && last == Number(owner, after, at, Counted(c, counts))
    ensures Number(owner, after, at, counts) == if c.marked.Some? then last else Lowered(last, c.key)
  {
    if c.marked.None? {
      OneMoreHasOneLess(counts, c.key);
      NumberLowers(owner, after, at, counts, OneMore(counts, c.key), c.key);
    }
  }

  lemma FollowersNumbered(
      owner: string, c: Chunk, after: seq<Chunk>, before: int, now: int, counts: Counts, last: seq<Record>)
    requires c.Task? && last == Number(owner, after, before, Counted(c, counts))
    ensures Number(owner, after, now, counts) == Followers(last, c, now - before)
  {
    NumberShifts(owner, after, before, now, now - before, counts);
    UncountedNumbered(owner, c, after, before, counts, last);
  }

  /** A managed task, or nothing. */
  predicate IsPut(put: seq<Chunk>) {
    |put| <= 1 && (put != [] ==> put[0].Task? && put[0].marked.Some?)
  }

  lemma PutKeepsCounts(owner: string, put: seq<Chunk>, at: int, counts: Counts)
    requires IsPut(put)
    ensures Recount(put, counts) == counts
    ensures Number(owner, put, at, counts) == if put == [] then [] else [RecordOf(owner, put[0], at, counts)]
  {
    if put != [] {
      assert put[1..] == [];
      assert Number(owner, put, at, counts) == Added(owner, put[0], at, counts) + Number(owner, put[1..], at + Width(put[0]), Counted(put[0], counts));
    }
  }

  lemma NumberAround(
      owner: string, before: seq<Chunk>, put: seq<Chunk>, after: seq<Chunk>, at: int, to: int, counts: Counts,
      first: seq<Record>, later: seq<Record>)
    requires IsPut(put) && at == Span(before) && to == at + Span(put) && counts == Recount(before, map[])
    requires first == Number(owner, before, 0, map[]) && later == Number(owner, after, to, counts)
    ensures Number(owner, before + put + after, 0, map[]) ==
              first + (if put == [] then [] else [RecordOf(owner, put[0], at, counts)]) + later
  {
    RecountAppend(before, put, map[]);
    PutKeepsCounts(owner, put, at, counts);
    NumberTwo(owner, before, put, at, counts, first);
    NumberTwo(owner, before + put, after, to, counts, Number(owner, before + put, 0, map[]));
  }

  lemma NumberTwo(owner: string, a: seq<Chunk>, b: seq<Chunk>, at: int, counts: Counts, first: seq<Record>)
    requires at == Span(a) && counts == Recount(a, map[]) && first == Number(owner, a, 0, map[])
    ensures Number(owner, a + b, 0, map[]) == first + Number(owner, b, at, counts)
  {
    NumberAppend(owner, a, b, 0, map[]);
  }

  /** Replacing a record's chunk by a managed task, or by nothing, changes that record and moves the later ones. */
  lemma NumberReplaced(
      owner: string, before: seq<Chunk>, c: Chunk, after: seq<Chunk>, put: seq<Chunk>, width: int, at: int, counts: Counts,
      first: seq<Record>, last: seq<Record>)
    requires IsPut(put) && width == Span(put) && c.Task? && at == Span(before) && counts == Recount(before, map[])
    requires first == Number(owner, before, 0, map[])
    requires last == Number(owner, after, at + Width(c), Counted(c, counts))
    ensures Number(owner, before + put + after, 0, map[]) ==
              first + (if put == [] then [] else [RecordOf(owner, put[0], at, counts)])
              + Followers(last, c, width - Width(c))
  {
    FollowersNumbered(owner, c, after, at + Width(c), at + width, counts, last);
    NumberAround(owner, before, put, after, at, at + width, counts, first, Followers(last, c, width - Width(c)));
  }

  // ---------- Edits ----------

  /** The task line an action leaves for a record. */
  function NewLine(action: Action, r: Record): string {
    if action.Update? then TaskLine(action.schedule, action.command) else r.line
  }

  /** The record an action leaves in place of another; none when it deletes it. */
  function NewRecord(action: Action, r: Record, newId: string, enabled: bool): seq<Record> {
    var line := NewLine(action, r);
    if action.Delete? || ParseJob(line).None? then []
    else
      var job := ParseJob(line).value;
      [Record(ResultId(r, newId), line, job.schedule, job.command, r.start, r.start + (if enabled then 1 else 0), enabled, true)]
  }

  /** How the later records come out: moved by the change in length, and one occurrence of a
      legacy task less. */
  function LaterRecords(rest: seq<Record>, r: Record, length: int): seq<Record> {
    Shifted(if r.id.Legacy? then Lowered(rest, (r.id.schedule, r.id.command)) else rest, length - (r.end + 1 - r.start))
  }

  /** Whether the task is active after the edit. */
  predicate StateLeft(action: Action, r: Record) {
    !action.Delete? && if action.Update? then r.enabled else !r.enabled
  }

  lemma PutLines(action: Action, c: Chunk, r: Record, newId: string, put: seq<string>, enabled: bool)
    requires !action.Create? && c.Task? && r.line == c.line && r.enabled == c.enabled
    requires Replacement(action, r, UuidFor(r, newId)) == Some((put, enabled)) && !action.Delete?
    requires action.Update? ==> ValidInput(action.schedule, action.command)
    requires ParseJob(c.line) == Some(c.job)
    ensures put == TaskLines(UuidFor(r, newId), NewLine(action, r), enabled) && ParseJob(NewLine(action, r)).Some?
  {
    if action.Update? {
      AcceptedInputParses(action.schedule, action.command);
    }
  }

  predicate BytesGiven(action: Action) {
    (action.Create? || action.Update?) ==> IsBytes(action.schedule) && IsBytes(action.command)
  }

  lemma NewLineIsLine(schedule: string, command: string)
    requires ValidInput(schedule, command) && IsBytes(schedule) && IsBytes(command)
    ensures OneLine(TaskLine(schedule, command)) && IsBytes(TaskLine(schedule, command))
  {
    NormalizeStaysWithin(schedule);
    TrimEnds(command);
    forall c | c in TaskLine(schedule, command) ensures c in schedule || c == ' ' || c in command {}
  }

  /** The lines an action puts read back as its new record's chunk, unless they hold no plain task line. */
  lemma PutReads(put: seq<string>, uuid: string, line: string, enabled: bool)
    requires put == TaskLines(uuid, line, enabled) && IsUuid(uuid) && ParseJob(line).Some?
    requires !enabled ==> IsBytes(line) && OneLine(line)
    ensures !enabled || IsPlain(Trim(line)) ==> Cut(Next, put) == Some([MarkedChunk(uuid, line, enabled)])
    ensures enabled && !IsPlain(Trim(line)) ==> forall rest :: Next(put + rest).Bad?
  {
    if !enabled {
      SuspendedReads(uuid, line);
      TaskLinesCut(Next, MarkedChunk(uuid, line, enabled), put);
    } else if IsPlain(Trim(line)) {
      ActiveReads(uuid, line);
      TaskLinesCut(Next, MarkedChunk(uuid, line, enabled), put);
    } else {
      forall rest ensures Next(put + rest).Bad? { ActiveFails(uuid, line, rest); }
    }
  }

  lemma LaterAreFollowers(owner: string, c: Chunk, at: int, counts: Counts, rest: seq<Record>, width: int)
    requires c.Task?
    ensures LaterRecords(rest, RecordOf(owner, c, at, counts), width) == Followers(rest, c, width - Width(c))
  {
  }

  /** Where a chunk stands: the lines on either side and what they are cut into. */
  datatype Place = Place(a: seq<string>, before: seq<Chunk>, c: Chunk, b: seq<string>, after: seq<Chunk>, at: int, counts: Counts)

  ghost predicate Splits(next: Reader, lines: seq<string>, p: Place) {
    && p.c.Task? && 0 <= p.at < p.at + p.c.width <= |lines| && p.a == lines[..p.at] && p.b == lines[p.at + p.c.width..]
    && Cut(next, p.a) == Some(p.before) && Cut(next, p.b) == Some(p.after)
  }

  ghost predicate Numbers(owner: string, records: seq<Record>, k: nat, p: Place, first: seq<Record>, last: seq<Record>) {
    && p.c.Task? && p.at == Span(p.before) && p.counts == Recount(p.before, map[])
    && first == Number(owner, p.before, 0, map[])
    && last == Number(owner, p.after, p.at + Width(p.c), Counted(p.c, p.counts))
    && k == |first| && records == first + [RecordOf(owner, p.c, p.at, p.counts)] + last
  }

  lemma Placed(next: Reader, lines: seq<string>, chunks: seq<Chunk>, j: nat) returns (p: Place)
    requires Local(next) && Cut(next, lines) == Some(chunks) && j < |chunks| && chunks[j].Task?
    ensures Splits(next, lines, p) && p.before == chunks[..j] && p.c == chunks[j] && p.after == chunks[j + 1..]
    ensures p.at == Span(p.before) && p.counts == Recount(p.before, map[]) && next(lines[p.at..]) == p.c
  {
    var i := ChunkSpan(next, lines, chunks, j);
    p := Place(lines[..i], chunks[..j], chunks[j], lines[i + Width(chunks[j])..], chunks[j + 1..], i, Recount(chunks[..j], map[]));
    IsSplit(next, lines, p);
  }

  lemma IsSplit(next: Reader, lines: seq<string>, p: Place)
    requires p.c.Task? && 0 <= p.at < p.at + Width(p.c) <= |lines| && p.a == lines[..p.at] && p.b == lines[p.at + Width(p.c)..]
    requires Cut(next, p.a) == Some(p.before) && Cut(next, p.b) == Some(p.after)
    ensures Splits(next, lines, p)
  {
  }

  /** The record an action names, and its place in the file. */
  lemma FoundPlace(next: Reader, owner: string, lines: seq<string>, records: seq<Record>, id: TaskId)
    returns (k: nat, p: Place, first: seq<Record>, last: seq<Record>)
    requires Local(next) && ParseBy(next, owner, lines).Parsed? && ParseBy(next, owner, lines).records == records
    requires Find(records, id).Some?
    ensures Splits(next, lines, p) && Numbers(owner, records, k, p, first, last) && next(lines[p.at..]) == p.c
    ensures Find(records, id) == Some(records[k]) && records[k] == RecordOf(owner, p.c, p.at, p.counts)
    ensures first == records[..k] && last == records[k + 1..]
  {
    var chunks, j, i := FoundChunk(next, owner, lines, records, id);
    k := i;
    p := Placed(next, lines, chunks, j);
    first, last := NumbersOf(owner, chunks, j, k, p, records);
  }

  lemma NumbersOf(owner: string, chunks: seq<Chunk>, j: nat, k: nat, p: Place, records: seq<Record>)
    returns (first: seq<Record>, last: seq<Record>)
    requires Sits(owner, chunks, j, k) && records == Number(owner, chunks, 0, map[])
    requires p.before == chunks[..j] && p.c == chunks[j] && p.after == chunks[j + 1..]
    requires p.at == Span(p.before) && p.counts == Recount(p.before, map[])
    ensures Numbers(owner, records, k, p, first, last) && first == records[..k] && last == records[k + 1..]
  {
    first, last := Number(owner, p.before, 0, map[]), Number(owner, p.after, p.at + Width(p.c), Counted(p.c, p.counts));
  }

  /** What is known of the text of a task where it stands in a file. */
  lemma TextFacts(lines: seq<string>, p: Place)
    requires AreByteLines(lines) && Splits(Next, lines, p) && Next(lines[p.at..]) == p.c
    ensures ParseJob(p.c.line) == Some(p.c.job) && p.c.key == KeyOf(p.c.job) && OneLine(p.c.line) && IsBytes(p.c.line)
    ensures p.c.marked.Some? ==> IsUuid(p.c.marked.value)
  {
    TaskFacts(lines[p.at..]);
    assert p.c.enabled ==> p.c.line == lines[p.at + p.c.width - 1];
  }

  lemma ReplaceIsAround(next: Reader, lines: seq<string>, p: Place, r: Record, put: seq<string>)
    requires Splits(next, lines, p) && r.start == p.at && r.end == p.at + p.c.width - 1
    ensures Replace(lines, r.start, r.end, put) == p.a + put + p.b
  {
  }

  /** What is read after a managed task, or nothing, has taken the place of a record. */
  lemma EditReads(
      next: Reader, owner: string, p: Place, put: seq<string>, cut: seq<Chunk>, text: seq<string>, records: seq<Record>,
      k: nat, first: seq<Record>, last: seq<Record>)
    requires Numbers(owner, records, k, p, first, last) && IsPut(cut) && Span(cut) == |put|
    requires Cut(next, text) == Some(p.before + cut + p.after)
    ensures var parsed := ParseBy(next, owner, text);
            && parsed.Parsed?
            && parsed.records == first + (if cut == [] then [] else [RecordOf(owner, cut[0], p.at, p.counts)])
                                 + LaterRecords(last, RecordOf(owner, p.c, p.at, p.counts), |put|)
  {
    ParsedAs(next, owner, text, p.before + cut + p.after);
    NumberReplaced(owner, p.before, p.c, p.after, cut, |put|, p.at, p.counts, first, last);
    LaterAreFollowers(owner, p.c, p.at, p.counts, last, |put|);
  }

  lemma ParsedAs(next: Reader, owner: string, lines: seq<string>, chunks: seq<Chunk>)
    requires Cut(next, lines) == Some(chunks)
    ensures ParseBy(next, owner, lines).Parsed? && ParseBy(next, owner, lines).records == Number(owner, chunks, 0, map[])
  {
  }

  lemma EditCuts(next: Reader, lines: seq<string>, p: Place, put: seq<string>, text: seq<string>)
    requires Local(next) && Splits(next, lines, p) && text == p.a + put + p.b
    ensures Cut(next, put).Some? ==>
              Cut(next, text) == Some(p.before + Cut(next, put).value + p.after) && Span(Cut(next, put).value) == |put|
    ensures put != [] && next(put + p.b).Bad? ==> Cut(next, text) == None
  {
    CutAround(next, p.a, put, p.b);
    if Cut(next, put).Some? { CutSpans(next, put); }
  }

  lemma NewRecordIs(owner: string, action: Action, p: Place, newId: string, enabled: bool)
    requires !action.Create? && !action.Delete? && p.c.Task?
    requires ParseJob(NewLine(action, RecordOf(owner, p.c, p.at, p.counts))).Some?
    ensures var r := RecordOf(owner, p.c, p.at, p.counts);
            NewRecord(action, r, newId, enabled) ==
              [RecordOf(owner, MarkedChunk(UuidFor(r, newId), NewLine(action, r), enabled), p.at, p.counts)]
  {
  }

  /** The record an action names, where it stands, and the lines the action leaves. */
  ghost predicate Targets(
      owner: string, lines: seq<string>, action: Action, newId: string, records: seq<Record>, k: nat, p: Place,
      first: seq<Record>, last: seq<Record>, put: seq<string>, enabled: bool)
  {
    && Splits(Next, lines, p) && Numbers(owner, records, k, p, first, last)
    && !action.Create? && Replacement(action, records[k], UuidFor(records[k], newId)) == Some((put, enabled))
  }

  lemma DeleteReads(
      owner: string, lines: seq<string>, action: Action, newId: string, records: seq<Record>, k: nat, p: Place,
      first: seq<Record>, last: seq<Record>, put: seq<string>, enabled: bool, text: seq<string>)
    requires Targets(owner, lines, action, newId, records, k, p, first, last, put, enabled) && action.Delete?
    requires text == p.a + put + p.b
    ensures Parse(owner, text).Parsed? && Parse(owner, text).records == first + [] + LaterRecords(last, records[k], 0)
  {
    NextIsLocal();
    EditCuts(Next, lines, p, put, text);
    EditReads(Next, owner, p, put, [], text, records, k, first, last);
  }

  lemma PutOutcome(
      owner: string, lines: seq<string>, action: Action, newId: string, records: seq<Record>, k: nat, p: Place,
      first: seq<Record>, last: seq<Record>, put: seq<string>, enabled: bool, text: seq<string>)
    requires Targets(owner, lines, action, newId, records, k, p, first, last, put, enabled) && !action.Delete?
    requires text == p.a + put + p.b && IsUuid(UuidFor(records[k], newId))
    requires var line := NewLine(action, records[k]);
             put == TaskLines(UuidFor(records[k], newId), line, enabled) && ParseJob(line).Some? && IsBytes(line) && OneLine(line)
    ensures if enabled && !IsPlain(Trim(NewLine(action, records[k]))) then Parse(owner, text) == Malformed
            else Parse(owner, text).Parsed?
                 && Parse(owner, text).records ==
                      first + NewRecord(action, records[k], newId, enabled) + LaterRecords(last, records[k], |put|)
  {
    var r := records[k];
    var line, uuid := NewLine(action, r), UuidFor(r, newId);
    NextIsLocal();
    PutReads(put, uuid, line, enabled);
    EditCuts(Next, lines, p, put, text);
    if !(enabled && !IsPlain(Trim(line))) {
      EditReads(Next, owner, p, put, [MarkedChunk(uuid, line, enabled)], text, records, k, first, last);
      NewRecordIs(owner, action, p, newId, enabled);
    }
  }

  lemma EditedIs(owner: string, lines: seq<string>, action: Action, newId: string, records: seq<Record>)
    requires !action.Create? && Edited(owner, lines, action, newId).0.Some?
    requires Parse(owner, lines).Parsed? ==> records == Parse(owner, lines).records
    ensures Parse(owner, lines).Parsed? && Find(records, action.id).Some?
    ensures action.Update? ==> ValidInput(action.schedule, action.command)
    ensures var (after, reply) := Edited(owner, lines, action, newId); var r := Find(records, action.id).value;
            && 0 <= r.start <= r.end < |lines| && Replacement(action, r, UuidFor(r, newId)).Some?
            && var put := Replacement(action, r, UuidFor(r, newId)).value;
               after == Some(Replace(lines, r.start, r.end, put.0)) && reply == Changed(ResultId(r, newId), put.1)
  {
    FoundSpans(owner, lines, action.id);
  }

  /** What an edit of record k is to be read back as: earlier records are the same, later ones only move
      (and a legacy task's later twins count one less). The file cannot be read exactly when the edit
      leaves active a line that is blank, a comment or an assignment. */
  predicate OthersKept(records: seq<Record>, k: nat, action: Action, newId: string, enabled: bool, length: nat, parsed: Parsed)
    requires k < |records|
  {
    if enabled && !IsPlain(Trim(NewLine(action, records[k]))) then parsed == Malformed
    else
      && parsed.Parsed?
      && parsed.records ==
           records[..k] + NewRecord(action, records[k], newId, enabled) + LaterRecords(records[k + 1..], records[k], length)
  }

  /** The record named, and the lines put in its place. */
  lemma Targeted(owner: string, lines: seq<string>, action: Action, newId: string, records: seq<Record>)
    returns (k: nat, p: Place, first: seq<Record>, last: seq<Record>, put: seq<string>, enabled: bool)
    requires AreByteLines(lines) && !action.Create? && IsUuid(newId) && BytesGiven(action)
    requires Edited(owner, lines, action, newId).0.Some? && records == Parse(owner, lines).records
    ensures Targets(owner, lines, action, newId, records, k, p, first, last, put, enabled)
    ensures first == records[..k] && last == records[k + 1..]
    ensures Find(records, action.id) == Some(records[k]) && 0 <= records[k].start <= records[k].end < |lines|
    ensures IsUuid(UuidFor(records[k], newId)) && (action.Update? ==> ValidInput(action.schedule, action.command))
    ensures records[k] == RecordOf(owner, p.c, p.at, p.counts) && ParseJob(p.c.line) == Some(p.c.job)
    ensures OneLine(records[k].line) && IsBytes(records[k].line)
  {
    EditedIs(owner, lines, action, newId, records);
    NextIsLocal();
    k, p, first, last := FoundPlace(Next, owner, lines, records, action.id);
    TextFacts(lines, p);
    var r := records[k];
    var found := Replacement(action, r, UuidFor(r, newId)).value;
    put, enabled := found.0, found.1;
  }

  lemma EditOutcome(
      owner: string, lines: seq<string>, action: Action, newId: string, records: seq<Record>, k: nat, p: Place,
      first: seq<Record>, last: seq<Record>, put: seq<string>, enabled: bool, text: seq<string>)
    requires Targets(owner, lines, action, newId, records, k, p, first, last, put, enabled) && BytesGiven(action)
    requires first == records[..k] && last == records[k + 1..] && text == p.a + put + p.b
    requires IsUuid(UuidFor(records[k], newId)) && (action.Update? ==> ValidInput(action.schedule, action.command))
    requires ParseJob(p.c.line) == Some(p.c.job) && OneLine(records[k].line) && IsBytes(records[k].line)
    ensures put == if action.Delete? then [] else TaskLines(UuidFor(records[k], newId), NewLine(action, records[k]), enabled)
    ensures OthersKept(records, k, action, newId, enabled, |put|, Parse(owner, text))
  {
    if action.Delete? {
      DeleteReads(owner, lines, action, newId, records, k, p, first, last, put, enabled, text);
    } else {
      PutLines(action, p.c, records[k], newId, put, enabled);
      if action.Update? { NewLineIsLine(action.schedule, action.command); }
      PutOutcome(owner, lines, action, newId, records, k, p, first, last, put, enabled, text);
    }
  }

  /** An edit changes or removes the lines and the record it names, and nothing else. */
  lemma EditKeepsOthers(owner: string, lines: seq<string>, action: Action, newId: string)
    returns (k: nat, r: Record, put: seq<string>, after: seq<string>)
    requires AreByteLines(lines) && !action.Create? && IsUuid(newId) && BytesGiven(action)
    requires Edited(owner, lines, action, newId).0.Some?
    ensures k < |Parse(owner, lines).records| && Parse(owner, lines).records[k] == r
    ensures Find(Parse(owner, lines).records, action.id) == Some(r) && 0 <= r.start <= r.end < |lines|
    ensures put == if action.Delete? then [] else TaskLines(UuidFor(r, newId), NewLine(action, r), StateLeft(action, r))
    ensures after == lines[..r.start] + put + lines[r.end + 1..]
    ensures Edited(owner, lines, action, newId) == (Some(after), Changed(ResultId(r, newId), StateLeft(action, r)))
    ensures OthersKept(Parse(owner, lines).records, k, action, newId, StateLeft(action, r), |put|, Parse(owner, after))
  {
    var records := Parse(owner, lines).records;
    var i, p, first, last, text, enabled := Targeted(owner, lines, action, newId, records);
    k, r, put := i, records[i], text;
    EditedIs(owner, lines, action, newId, records);
    ReplaceIsAround(Next, lines, p, r, put);
    after := p.a + put + p.b;
    EditOutcome(owner, lines, action, newId, records, k, p, first, last, put, enabled, after);
  }
}
