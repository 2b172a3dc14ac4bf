/** Editing a user's crontab: the loop that reads records, and the actions on one of them. */
module CronEditor {
  import opened Wrappers
  import opened CronText
  import opened CronSyntax
  import opened CronParser
  import opened CronEncoding

  datatype Action =
    | Create(schedule: string, command: string)
    | Update(id: TaskId, schedule: string, command: string)
    | Suspend(id: TaskId)
    | Resume(id: TaskId)
    | Delete(id: TaskId)

  datatype Reply = Changed(id: TaskId, enabled: bool) | InvalidTask | InvalidState | NotFound | NotInstalled

  /** The one record with this identifier; none when it is missing or ambiguous. */
  function Find(records: seq<Record>, id: TaskId): Option<Record> {
    var found := Matches(records, id);
    if |found| == 1 then Some(found[0]) else None
  }

  function Matches(records: seq<Record>, id: TaskId): seq<Record> {
    if records == [] then []
    else (if records[0].id == id then [records[0]] else []) + Matches(records[1..], id)
  }

  function Replace(lines: seq<string>, start: int, end: int, replacement: seq<string>): seq<string>
    requires 0 <= start <= end < |lines|
  {
    lines[..start] + replacement + lines[end + 1..]
  }

  /** The lines an action puts in place of a record, and the state it leaves; none when the state forbids it. */
  function Replacement(action: Action, r: Record, uuid: string): Option<(seq<string>, bool)>
    requires !action.Create?
  {
    match action
    case Update(_, schedule, command) =>
      var line := TaskLine(schedule, command);
      if r.enabled then Some(([ActiveMarker(uuid), line], true)) else Some(([SuspendedMarker(uuid, line)], false))
    case Suspend(_) => if r.enabled then Some(([SuspendedMarker(uuid, r.line)], false)) else None
    case Resume(_) => if r.enabled then None else Some(([ActiveMarker(uuid), r.line], true))
    case Delete(_) => Some(([], false))
  }

  /** A managed task keeps its identifier; a legacy one is adopted under a fresh one. */
  function UuidFor(r: Record, newId: string): string {
    if r.id.Managed? then r.id.uuid else newId
  }

  function ResultId(r: Record, newId: string): TaskId {
    if r.managed then r.id else Managed(newId)
  }

  /** The new lines and the reply; `None` when nothing is to be installed. */
  function Edited(owner: string, lines: seq<string>, action: Action, newId: string): (Option<seq<string>>, Reply) {
    var parsed := Parse(owner, lines);
    if (action.Create? || action.Update?) && !ValidInput(action.schedule, action.command) then (None, InvalidTask)
    else if parsed.Malformed? then (None, InvalidTask)
    else if action.Create? then
      (Some(lines + [ActiveMarker(newId), TaskLine(action.schedule, action.command)]), Changed(Managed(newId), true))
    else
      var r := Find(parsed.records, action.id);
      if r.None? then (None, NotFound)
      else
        var put := Replacement(action, r.value, UuidFor(r.value, newId));
        if put.None? then (None, InvalidState)
        else
          FoundSpans(owner, lines, action.id);
          (Some(Replace(lines, r.value.start, r.value.end, put.value.0)), Changed(ResultId(r.value, newId), put.value.1))
  }

  // ---------- Records and chunks ----------

  /** Every record comes from one chunk. */
  lemma {:induction false} ChunkOfRecord(owner: string, chunks: seq<Chunk>, at: int, counts: Counts, k: nat) returns (j: nat)
    requires k < |Number(owner, chunks, at, counts)|
    ensures j < |chunks| && chunks[j].Task?
    ensures |Number(owner, chunks[..j], at, counts)| == k
  {
    var c := chunks[0];
    var first := Added(owner, c, at, counts);
    if k < |first| {
      j := 0;
    } else {
      j := ChunkOfRecord(owner, chunks[1..], at + Width(c), Counted(c, counts), k - |first|);
      j := j + 1;
      assert chunks[..j][1..] == chunks[1..][..j - 1];
    }
  }

  /** Chunk j is record k: what the records are before it, at it and after it. */
  ghost predicate Sits(owner: string, chunks: seq<Chunk>, j: nat, k: nat) {
    && j < |chunks| && chunks[j].Task? && k == |Number(owner, chunks[..j], 0, map[])|
    && var at, counts := Span(chunks[..j]), Recount(chunks[..j], map[]);
       Number(owner, chunks, 0, map[]) ==
         Number(owner, chunks[..j], 0, map[]) + [RecordOf(owner, chunks[j], at, counts)]
         + Number(owner, chunks[j + 1..], at + Width(chunks[j]), Counted(chunks[j], counts))
  }

  lemma NumberFirst(owner: string, chunks: seq<Chunk>, at: int, to: int, counts: Counts)
    requires chunks != [] && to == at + Width(chunks[0])
    ensures Number(owner, chunks, at, counts) ==
            Added(owner, chunks[0], at, counts) + Number(owner, chunks[1..], to, Counted(chunks[0], counts))
  {
  }

  lemma SitsSomewhere(owner: string, chunks: seq<Chunk>, k: nat) returns (j: nat)
    requires k < |Number(owner, chunks, 0, map[])|
    ensures Sits(owner, chunks, j, k)
  {
    j := ChunkOfRecord(owner, chunks, 0, map[], k);
    var before, here, after := chunks[..j], chunks[j..], chunks[j + 1..];
    assert chunks == before + here && here[0] == chunks[j];
    DropTwice(chunks, j, 1);
    NumberAppend(owner, before, here, 0, map[]);
    var at, counts := Span(before), Recount(before, map[]);
    NumberFirst(owner, here, at, at + Width(chunks[j]), counts);
    Associative(Number(owner, before, 0, map[]), [RecordOf(owner, chunks[j], at, counts)],
                Number(owner, after, at + Width(chunks[j]), Counted(chunks[j], counts)));
  }

  lemma SpanFrom(next: Reader, lines: seq<string>, chunks: seq<Chunk>, i: nat, j: nat)
    requires i <= |lines| && j < |chunks| && Cut(next, lines[i..]) == Some(chunks[j..])
    ensures var w := Width(chunks[j]);
            && next(lines[i..]) == chunks[j] && 1 <= w <= |lines| - i && Cut(next, lines[i + w..]) == Some(chunks[j + 1..])
  {
    var here, rest := lines[i..], chunks[j..];
    CutFirst(next, here, rest);
    DropTwice(lines, i, Width(chunks[j]));
    DropTwice(chunks, j, 1);
  }

  /** The lines a chunk spans, and the lines on either side. */
  lemma ChunkSpan(next: Reader, lines: seq<string>, chunks: seq<Chunk>, j: nat) returns (i: nat)
    requires Local(next) && Cut(next, lines) == Some(chunks) && j < |chunks|
    ensures i == Span(chunks[..j]) && 1 <= Width(chunks[j]) <= |lines| - i && next(lines[i..]) == chunks[j]
    ensures Cut(next, lines[..i]) == Some(chunks[..j])
    ensures Cut(next, lines[i + Width(chunks[j])..]) == Some(chunks[j + 1..])
  {
    i := CutAt(next, lines, chunks, j);
    SpanFrom(next, lines, chunks, i, j);
  }

  lemma {:induction false} MatchesAreRecords(records: seq<Record>, id: TaskId) returns (k: nat)
    requires |Matches(records, id)| >= 1
    ensures k < |records| && records[k] == Matches(records, id)[0] && records[k].id == id
  {
    if records[0].id == id {
      k := 0;
    } else {
      k := MatchesAreRecords(records[1..], id);
      k := k + 1;
    }
  }

  /** The record found, as a chunk of the file. */
  lemma FoundChunk(next: Reader, owner: string, lines: seq<string>, records: seq<Record>, id: TaskId)
    returns (chunks: seq<Chunk>, j: nat, k: nat)
    requires ParseBy(next, owner, lines).Parsed? && ParseBy(next, owner, lines).records == records && Find(records, id).Some?
    ensures Cut(next, lines) == Some(chunks) && Sits(owner, chunks, j, k) && k < |records|
    ensures records == Number(owner, chunks, 0, map[]) && Some(records[k]) == Find(records, id)
    ensures records[k] == RecordOf(owner, chunks[j], Span(chunks[..j]), Recount(chunks[..j], map[]))
  {
    chunks := Cut(next, lines).value;
    k := MatchesAreRecords(records, id);
    j := SitsSomewhere(owner, chunks, k);
  }

  lemma FoundSpans(owner: string, lines: seq<string>, id: TaskId)
    requires Parse(owner, lines).Parsed? && Find(Parse(owner, lines).records, id).Some?
    ensures var r := Find(Parse(owner, lines).records, id).value; 0 <= r.start <= r.end < |lines|
  {
    NextIsLocal();
    FoundWithin(Next, owner, lines, Parse(owner, lines).records, id);
  }

  lemma FoundWithin(next: Reader, owner: string, lines: seq<string>, records: seq<Record>, id: TaskId)
    requires Local(next) && ParseBy(next, owner, lines).Parsed? && ParseBy(next, owner, lines).records == records
    requires Find(records, id).Some?
    ensures var r := Find(records, id).value; 0 <= r.start <= r.end < |lines|
  {
    var chunks, j, k := FoundChunk(next, owner, lines, records, id);
    var i := ChunkSpan(next, lines, chunks, j);
  }

  // ---------- The editor ----------

  function Joined(done: seq<Chunk>, rest: Option<seq<Chunk>>): Option<seq<Chunk>> {
    if rest.None? then None else Some(done + rest.value)
  }

  /** How far a scan has come: the chunks passed, and what is still to be cut, make up `all`. */
  ghost predicate Passed(next: Reader, all: Option<seq<Chunk>>, lines: seq<string>, done: seq<Chunk>, index: int) {
    0 <= index <= |lines| && index == Span(done) && all == Joined(done, Cut(next, lines[index..]))
  }

  lemma JoinedStep(next: Reader, done: seq<Chunk>, c: Chunk, here: seq<string>, rest: seq<string>)
    requires here != [] && next(here) == c && !c.Bad? && 1 <= Width(c) <= |here| && rest == here[Width(c)..]
    ensures Joined(done, Cut(next, here)) == Joined(done + [c], Cut(next, rest))
  {
    CutStep(next, c, here);
    if Cut(next, rest).Some? { Associative(done, [c], Cut(next, rest).value); }
  }

  lemma PassOne(next: Reader, all: Option<seq<Chunk>>, lines: seq<string>, done: seq<Chunk>, index: int)
    requires Passed(next, all, lines, done, index) && index < |lines|
    ensures var c := next(lines[index..]);
            if c.Bad? || Width(c) < 1 || Width(c) > |lines| - index then all == None
            else Passed(next, all, lines, done + [c], index + Width(c))
  {
    var here := lines[index..];
    var c := next(here);
    SpanOne(done, c);
    if !c.Bad? && 1 <= Width(c) <= |lines| - index {
      var rest := lines[index + Width(c)..];
      assert here[Width(c)..] == rest;
      JoinedStep(next, done, c, here, rest);
    }
  }

  lemma SpanOne(done: seq<Chunk>, c: Chunk)
    ensures Span(done + [c]) == Span(done) + Width(c)
  {
    RecountAppend(done, [c], map[]);
    assert Span([c]) == Width(c) + Span([c][1..]);
  }

  lemma NumberOne(owner: string, done: seq<Chunk>, c: Chunk)
    ensures Number(owner, done + [c], 0, map[]) == Number(owner, done, 0, map[]) + Added(owner, c, Span(done), Recount(done, map[]))
    ensures Recount(done + [c], map[]) == Counted(c, Recount(done, map[]))
  {
    NumberAppend(owner, done, [c], 0, map[]);
    RecountAppend(done, [c], map[]);
    assert [c][1..] == [];
    var at, counts := Span(done), Recount(done, map[]);
    assert Number(owner, [c], at, counts) == Added(owner, c, at, counts) + Number(owner, [], at + Width(c), Counted(c, counts));
    assert Recount([c], counts) == Recount([], Counted(c, counts));
  }

  /** A scan in progress has the records and counts of the chunks it has passed. */
  ghost predicate Reading(
      next: Reader, owner: string, all: Option<seq<Chunk>>, lines: seq<string>, done: seq<Chunk>, index: int, records: seq<Record>, counts: Counts)
  {
    Passed(next, all, lines, done, index) && records == Number(owner, done, 0, map[]) && counts == Recount(done, map[])
  }

  lemma ReadOne(
      next: Reader, owner: string, all: Option<seq<Chunk>>, lines: seq<string>, done: seq<Chunk>, index: int, records: seq<Record>, counts: Counts)
    requires Reading(next, owner, all, lines, done, index, records, counts) && index < |lines|
    ensures var c := next(lines[index..]);
            if c.Bad? || Width(c) < 1 || Width(c) > |lines| - index then all == None
            else Reading(next, owner, all, lines, done + [c], index + Width(c), records + Added(owner, c, index, counts), Counted(c, counts))
  {
    PassOne(next, all, lines, done, index);
    NumberOne(owner, done, next(lines[index..]));
  }

  lemma ReadingStarts(next: Reader, owner: string, lines: seq<string>)
    ensures Reading(next, owner, Cut(next, lines), lines, [], 0, [], map[])
  {
    assert lines[0..] == lines;
    var all := Cut(next, lines);
    assert all.None? || [] + all.value == all.value;
  }

  lemma ReadingEnds(
      next: Reader, owner: string, all: Option<seq<Chunk>>, lines: seq<string>, done: seq<Chunk>, records: seq<Record>, counts: Counts)
    requires Reading(next, owner, all, lines, done, |lines|, records, counts)
    ensures all == Some(done)
  {
    assert lines[|lines|..] == [] && done + [] == done;
  }

  /** One user's crontab. */
  class Crontab {
    const owner: string
    var content: string

    constructor (owner: string, content: string)
      ensures this.owner == owner && this.content == content
    {
      this.owner, this.content := owner, content;
    }

    method ParseRecords(lines: seq<string>) returns (parsed: Parsed)
      ensures parsed == Parse(owner, lines)
    {
      parsed := ParseWith(Next, lines);
    }

    /** The loop over the lines, for any reader of one chunk. */
    method ParseWith(next: Reader, lines: seq<string>) returns (parsed: Parsed)
      ensures parsed == ParseBy(next, owner, lines)
    {
      var records: seq<Record> := [];
      var counts: Counts := map[];
      var index := 0;
      ghost var done: seq<Chunk> := [];
      ghost var all := Cut(next, lines);
      ReadingStarts(next, owner, lines);
      while index < |lines|
        invariant index <= |lines| && Reading(next, owner, all, lines, done, index, records, counts)
      {
        ReadOne(next, owner, all, lines, done, index, records, counts);
        var c := next(lines[index..]);
        if c.Bad? || Width(c) < 1 || Width(c) > |lines| - index {
          return Malformed;
        }
        done := done + [c];
        if c.Task? {
          var id := if c.marked.Some? then Managed(c.marked.value) else Legacy(owner, c.key.0, c.key.1, Count(counts, c.key) + 1);
          records := records + [Record(id, c.line, c.job.schedule, c.job.command, index, index + c.width - 1, c.enabled, c.marked.Some?)];
          if c.marked.None? {
            counts := OneMore(counts, c.key);
          }
        } else {
          assert records + [] == records;
        }
        index := index + Width(c);
      }
      ReadingEnds(next, owner, all, lines, done, records, counts);
      return Parsed(records, counts);
    }

    /** One record more. */
    static lemma MatchesStep(records: seq<Record>, i: nat, id: TaskId, found: seq<Record>)
      requires i < |records|
      ensures found + Matches(records[i..], id) ==
              (if records[i].id == id then found + [records[i]] else found) + Matches(records[i + 1..], id)
    {
      DropTwice(records, i, 1);
      var rest := Matches(records[i + 1..], id);
      if records[i].id == id {
        Associative(found, [records[i]], rest);
      } else {
        assert [] + rest == rest;
      }
    }

    method FindRecord(records: seq<Record>, id: TaskId) returns (found: Option<Record>)
      ensures found == Find(records, id)
    {
      var matches: seq<Record> := [];
      var i := 0;
      while i < |records|
        invariant 0 <= i <= |records|
        invariant Matches(records, id) == matches + Matches(records[i..], id)
      {
        MatchesStep(records, i, id, matches);
        if records[i].id == id {
          matches := matches + [records[i]];
        }
        i := i + 1;
      }
      assert matches + [] == matches;
      return if |matches| == 1 then Some(matches[0]) else None;
    }

    /** Reads, edits and installs; `accepted` is the outcome of the crontab command. */
    method Manage(action: Action, newId: string, accepted: bool) returns (reply: Reply)
      modifies this
      ensures var (lines, r) := Edited(owner, LinesOf(old(content)), action, newId);
              if lines.None? then reply == r && content == old(content)
              else if !accepted then reply == NotInstalled && content == old(content)
              else reply == r && content == Render(lines.value)
    {
      if (action.Create? || action.Update?) && !ValidInput(action.schedule, action.command) {
        return InvalidTask;
      }
      var lines := LinesOf(content);
      var parsed := ParseRecords(lines);
      if parsed.Malformed? {
        return InvalidTask;
      }
      if action.Create? {
        lines := lines + [ActiveMarker(newId), TaskLine(action.schedule, action.command)];
        reply := Changed(Managed(newId), true);
      } else {
        var task := FindRecord(parsed.records, action.id);
        if task.None? {
          return NotFound;
        }
        var put := Replacement(action, task.value, UuidFor(task.value, newId));
        if put.None? {
          return InvalidState;
        }
        FoundSpans(owner, lines, action.id);
        lines := Replace(lines, task.value.start, task.value.end, put.value.0);
        reply := Changed(ResultId(task.value, newId), put.value.1);
      }
      if !accepted {
        return NotInstalled;
      }
      content := Render(lines);
    }
  }
}
