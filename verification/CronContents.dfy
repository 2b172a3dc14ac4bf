/** Whole crontab files: what is read back after each action has been installed. */
module CronContents {
  import opened Wrappers
  import opened Strings
  import opened Utf8
  import opened CronText
  import opened CronSyntax
  import opened CronParser
  import opened CronEditor
  import opened CronEdits
  import opened CronEncoding

  /** A file on disk: bytes, valid text or not, with no carriage return. */
  predicate IsFile(content: string) {
    IsBytes(content) && '\r' !in content
  }

  /** What the editor makes of a file. */
  function Read(owner: string, content: string): Parsed {
    Parse(owner, LinesOf(content))
  }

  lemma {:induction false} SplitStaysWithin(s: string)
    ensures forall i | 0 <= i < |Split(s)| :: forall c | c in Split(s)[i] :: c in s
  {
    if s != "" {
      SplitStaysWithin(s[1..]);
      var rest := Split(s[1..]);
      if s[0] != '\n' {
        assert Split(s) == [[s[0]] + rest[0]] + rest[1..];
        forall i | 0 <= i < |Split(s)| ensures forall c | c in Split(s)[i] :: c in s {
          assert i > 0 ==> Split(s)[i] == rest[i];
        }
      }
    }
  }

  lemma FileHasByteLines(content: string)
    requires IsFile(content)
    ensures AreByteLines(SplitContent(content))
  {
    SplitContentGivesLines(content);
    NoReturnsNoChange(content);
    var t := if content != "" && content[|content| - 1] == '\n' then content[..|content| - 1] else content;
    SplitStaysWithin(t);
    forall i | 0 <= i < |Split(t)| ensures IsBytes(Split(t)[i]) {
      forall c | c in Split(t)[i] ensures c as int < 256 { assert c in t && c in content; }
    }
  }

  lemma RepairedIsFile(content: string)
    requires IsFile(content)
    ensures IsFile(Repaired(content))
  {
    RepairStaysWithin(content, false);
  }

  lemma EditorGetsLines(content: string)
    requires IsFile(content)
    ensures AreByteLines(LinesOf(content)) && AreUtf8(LinesOf(content))
  {
    RepairedIsFile(content);
    FileHasByteLines(Repaired(content));
    LinesAreRepaired(content);
  }

  /** Installed lines are read back repaired: valid lines as the lines themselves. */
  lemma InstalledReads(owner: string, lines: seq<string>)
    requires AreLines(lines)
    ensures Read(owner, Render(lines)) == Parse(owner, RepairAll(lines))
    ensures AreUtf8(lines) ==> Read(owner, Render(lines)) == Parse(owner, lines)
  {
    InstalledLines(lines);
    RepairAllIsUtf8(lines);
    if lines == [""] {
      BlankLineReads(owner);
      assert IsUtf8(lines[0]);
      assert RepairAll([]) == [];
    }
  }

  lemma BlankLineReads(owner: string)
    ensures Parse(owner, [""]) == Parse(owner, []) == Parsed([], map[])
  {
    assert Next([""]) == Gap;
    TaskLessCut(Next);
    assert Number(owner, [Gap], 0, map[]) == [] + Number(owner, [], 1, map[]);
  }

  lemma TaskLessCut(next: Reader)
    requires next([""]) == Gap
    ensures Cut(next, [""]) == Some([Gap]) && Cut(next, []) == Some([])
  {
    assert [""][1..] == [];
    assert [Gap] + [] == [Gap];
    CutStep(next, Gap, [""]);
  }

  // ---------- Creating ----------

  /** A new task is read back after all the old ones, with exactly the normalised schedule and the
      trimmed command, unless its line reads as a comment or an assignment; then nothing is readable. */
  lemma CreateAdds(owner: string, lines: seq<string>, schedule: string, command: string, newId: string)
    requires Edited(owner, lines, Create(schedule, command), newId).0.Some? && IsUuid(newId)
    ensures var line := TaskLine(schedule, command); var after := lines + [ActiveMarker(newId), line];
            && Edited(owner, lines, Create(schedule, command), newId) == (Some(after), Changed(Managed(newId), true))
            && (IsPlain(line) <==> Parse(owner, after).Parsed?)
            && (IsPlain(line) ==>
                  Parse(owner, after).records ==
                    Parse(owner, lines).records
                    + [Record(Managed(newId), line, Normalize(schedule), Trim(command), |lines|, |lines| + 1, true, true)])
  {
    var line := TaskLine(schedule, command);
    AcceptedInputParses(schedule, command);
    NextIsLocal();
    if IsPlain(line) {
      PutReads(TaskLines(newId, line, true), newId, line, true);
      AppendReads(Next, owner, lines, TaskLines(newId, line, true), MarkedChunk(newId, line, true));
    } else {
      ActiveFails(newId, line, []);
      assert TaskLines(newId, line, true) + [] == [ActiveMarker(newId), line];
      AppendFails(Next, lines, TaskLines(newId, line, true));
    }
  }

  lemma AppendReads(next: Reader, owner: string, lines: seq<string>, put: seq<string>, c: Chunk)
    requires Local(next) && Cut(next, lines).Some? && Cut(next, put) == Some([c]) && c.Task? && c.marked.Some?
    ensures ParseBy(next, owner, lines + put).Parsed?
    ensures ParseBy(next, owner, lines + put).records ==
            ParseBy(next, owner, lines).records + [RecordOf(owner, c, |lines|, Recount(Cut(next, lines).value, map[]))]
  {
    var chunks := Cut(next, lines).value;
    CutAppend(next, lines, put);
    CutSpans(next, lines);
    NumberOne(owner, chunks, c);
  }

  lemma AppendFails(next: Reader, lines: seq<string>, put: seq<string>)
    requires Local(next) && Cut(next, lines).Some? && put != [] && next(put).Bad?
    ensures Cut(next, lines + put) == None
  {
    CutAppend(next, lines, put);
  }

  /** The old reading and the new one, with one record more or, unless the line is plain, nothing at all. */
  predicate OneRecordMore(before: Parsed, after: Parsed, line: string, r: Record) {
    && before.Parsed? && (IsPlain(line) <==> after.Parsed?)
    && (IsPlain(line) ==> after.records == before.records + [r])
  }

  lemma CreateAddsOne(
      owner: string, lines: seq<string>, schedule: string, command: string, newId: string, line: string, after: seq<string>, r: Record)
    requires Edited(owner, lines, Create(schedule, command), newId).0.Some? && IsUuid(newId)
    requires line == TaskLine(schedule, command) && after == lines + [ActiveMarker(newId), line]
    requires r == Record(Managed(newId), line, Normalize(schedule), Trim(command), |lines|, |lines| + 1, true, true)
    ensures ValidInput(schedule, command)
    ensures Edited(owner, lines, Create(schedule, command), newId) == (Some(after), Changed(Managed(newId), true))
    ensures OneRecordMore(Parse(owner, lines), Parse(owner, after), line, r)
  {
    CreateAdds(owner, lines, schedule, command, newId);
  }

  /** The same, read from the installed file, which is valid whatever was in the file before. */
  lemma InstalledCreate(owner: string, content: string, schedule: string, command: string, newId: string)
    returns (line: string, after: seq<string>, r: Record)
    requires IsFile(content) && IsUuid(newId) && IsUtf8(schedule) && IsUtf8(command)
    requires Edited(owner, LinesOf(content), Create(schedule, command), newId).0.Some?
    ensures line == TaskLine(schedule, command) && after == LinesOf(content) + [ActiveMarker(newId), line]
    ensures r == Record(Managed(newId), line, Normalize(schedule), Trim(command), |after| - 2, |after| - 1, true, true)
    ensures Edited(owner, LinesOf(content), Create(schedule, command), newId) == (Some(after), Changed(Managed(newId), true))
    ensures LinesOf(Render(after)) == after && IsUtf8(Render(after)) && ValidInput(schedule, command)
    ensures OneRecordMore(Read(owner, content), Read(owner, Render(after)), line, r)
  {
    var lines := LinesOf(content);
    line := TaskLine(schedule, command);
    after := lines + [ActiveMarker(newId), line];
    r := Record(Managed(newId), line, Normalize(schedule), Trim(command), |lines|, |lines| + 1, true, true);
    CreateAddsOne(owner, lines, schedule, command, newId, line, after, r);
    EditorGetsLines(content);
    CreatedIsRead(lines, schedule, command, newId, after);
  }

  lemma CreatedIsRead(lines: seq<string>, schedule: string, command: string, newId: string, after: seq<string>)
    requires AreLines(lines) && AreUtf8(lines) && IsUuid(newId) && IsUtf8(schedule) && IsUtf8(command)
    requires after == lines + [ActiveMarker(newId), TaskLine(schedule, command)] && ValidInput(schedule, command)
    ensures LinesOf(Render(after)) == after && IsUtf8(Render(after))
  {
    Utf8IsBytes(schedule);
    Utf8IsBytes(command);
    NewLineIsLine(schedule, command);
    ActiveMarkerParses(newId);
    MarkersAreUtf8(newId, "");
    TaskLineIsUtf8(schedule, command);
    AddedAreRead(lines, ActiveMarker(newId), TaskLine(schedule, command));
  }

  lemma AddedAreRead(lines: seq<string>, marker: string, line: string)
    requires AreLines(lines) && OneLine(marker) && OneLine(line) && AreUtf8(lines) && IsUtf8(marker) && IsUtf8(line)
    ensures LinesOf(Render(lines + [marker, line])) == lines + [marker, line] && IsUtf8(Render(lines + [marker, line]))
  {
    assert |lines + [marker, line]| >= 2;
    ValidLinesStand(lines + [marker, line]);
  }

  // ---------- Input that is accepted and lost ----------

  lemma WithinIsPlain(schedule: string, first: string)
    requires WithinAndSpaces(schedule, first + "bcde") && IsAscii(first) && !HasBreak(first)
    ensures IsUtf8(schedule) && !HasBreak(schedule)
  {
    forall c | c in schedule ensures Within(c, 0, 0x7F) && c !in {'\n', '\r', 0 as char} {
      assert c in first || c in "bcde" || c == ' ';
    }
    AsciiIsUtf8(schedule);
  }

  /** Five fields and a command, whatever the first field starts with, unless it is an at sign. */
  lemma FiveFieldsAreAccepted(first: string) returns (schedule: string)
    requires IsToken(first) && IsAscii(first) && first[0] != '@' && !HasBreak(first)
    ensures schedule == Join([first, "b", "c", "d", "e"], " ") && IsUtf8(schedule)
    ensures ValidInput(schedule, "f") && first <= TaskLine(schedule, "f")
  {
    var parts := [first, "b", "c", "d", "e"];
    schedule := Join(parts, " ");
    FieldsOfJoin(parts);
    JoinStarts(parts);
    JoinStaysWithin(parts, first + "bcde");
    WithinIsPlain(schedule, first);
    TrimKeeps("f");
  }

  lemma StartsAssignment(line: string)
    requires "A=" <= line
    ensures IsAssignment(line)
  {
    assert line[1..][0] == '=';
  }

  lemma JoinOfFive(first: string)
    ensures Join([first, "b", "c", "d", "e"], " ") == first + " b c d e"
  {
    assert [first, "b", "c", "d", "e"][1..] == ["b", "c", "d", "e"] && ["b", "c", "d", "e"][1..] == ["c", "d", "e"];
    assert ["c", "d", "e"][1..] == ["d", "e"] && ["d", "e"][1..] == ["e"];
    assert Join(["b", "c", "d", "e"], " ") == "b c d e";
  }

  /** A schedule that reads as a comment or as an assignment is accepted for any readable file, and the
      file cannot be read any more: with "# b c d e" or "A= b c d e". */
  lemma AcceptedInputIsLost(owner: string, content: string, first: string, newId: string)
    returns (schedule: string, after: seq<string>)
    requires IsFile(content) && Read(owner, content).Parsed? && IsUuid(newId) && first in {"#", "A="}
    ensures schedule == first + " b c d e"
    ensures Edited(owner, LinesOf(content), Create(schedule, "f"), newId) == (Some(after), Changed(Managed(newId), true))
    ensures Read(owner, Render(after)) == Malformed
  {
    schedule := FiveFieldsAreAccepted(first);
    assert IsAscii("f");
    AsciiIsUtf8("f");
    var line, r;
    line, after, r := InstalledCreate(owner, content, schedule, "f", newId);
    if first == "A=" { StartsAssignment(line); }
    JoinOfFive(first);
  }

  // ---------- Editing ----------

  lemma PutIsLines(uuid: string, line: string, enabled: bool)
    requires IsUuid(uuid) && OneLine(line) && (!enabled ==> IsBytes(line) && line != "")
    ensures AreLines(TaskLines(uuid, line, enabled))
  {
    if enabled {
      ActiveMarkerParses(uuid);
    } else {
      SuspendedMarkerParses(uuid, line);
    }
  }

  lemma AroundIsLines(lines: seq<string>, start: int, end: int, put: seq<string>)
    requires AreLines(lines) && AreLines(put) && 0 <= start <= end < |lines|
    ensures AreLines(lines[..start] + put + lines[end + 1..])
  {
  }

  /** A record keeps or gets exactly this text. */
  lemma NewRecordSays(action: Action, r: Record, newId: string, enabled: bool)
    requires ParseJob(r.line) == Some(Job(r.schedule, r.command))
    requires action.Update? ==> ValidInput(action.schedule, action.command)
    ensures NewRecord(action, r, newId, enabled) ==
            if action.Delete? then []
            else
              var end := r.start + (if enabled then 1 else 0);
              if action.Update? then
                [Record(ResultId(r, newId), TaskLine(action.schedule, action.command), Normalize(action.schedule),
                        Trim(action.command), r.start, end, enabled, true)]
              else [r.(id := ResultId(r, newId), end := end, enabled := enabled, managed := true)]
  {
    if action.Update? { AcceptedInputParses(action.schedule, action.command); }
  }

  /** The record named is a task, whatever its state. */
  lemma FoundIsTask(owner: string, lines: seq<string>, action: Action, newId: string, k: nat)
    requires AreByteLines(lines) && !action.Create? && IsUuid(newId) && BytesGiven(action)
    requires Edited(owner, lines, action, newId).0.Some? && k < |Parse(owner, lines).records|
    requires Find(Parse(owner, lines).records, action.id) == Some(Parse(owner, lines).records[k])
    ensures var r := Parse(owner, lines).records[k];
            && ParseJob(r.line) == Some(Job(r.schedule, r.command)) && OneLine(r.line) && IsBytes(r.line) && r.line != ""
            && IsUuid(UuidFor(r, newId)) && (action.Update? ==> ValidInput(action.schedule, action.command))
  {
    var i, p, first, last, put, enabled := Targeted(owner, lines, action, newId, Parse(owner, lines).records);
    NoJobInNothing(p.c.line);
  }

  lemma NewLineFacts(action: Action, r: Record)
    requires !action.Create? && BytesGiven(action) && (action.Update? ==> ValidInput(action.schedule, action.command))
    requires OneLine(r.line) && IsBytes(r.line) && r.line != ""
    ensures OneLine(NewLine(action, r)) && IsBytes(NewLine(action, r)) && NewLine(action, r) != ""
  {
    if action.Update? {
      NewLineIsLine(action.schedule, action.command);
      AcceptedInputParses(action.schedule, action.command);
    }
  }

  lemma EditGivesLines(lines: seq<string>, action: Action, r: Record, newId: string, put: seq<string>)
    requires AreLines(lines) && !action.Create? && BytesGiven(action) && IsUuid(UuidFor(r, newId))
    requires OneLine(r.line) && IsBytes(r.line) && r.line != "" && 0 <= r.start <= r.end < |lines|
    requires action.Update? ==> ValidInput(action.schedule, action.command)
    requires put == if action.Delete? then [] else TaskLines(UuidFor(r, newId), NewLine(action, r), StateLeft(action, r))
    ensures AreLines(lines[..r.start] + put + lines[r.end + 1..])
  {
    NewLineFacts(action, r);
    if !action.Delete? { PutIsLines(UuidFor(r, newId), NewLine(action, r), StateLeft(action, r)); }
    AroundIsLines(lines, r.start, r.end, put);
  }

  lemma EditedAreLines(owner: string, lines: seq<string>, action: Action, newId: string, k: nat, r: Record, put: seq<string>)
    requires AreByteLines(lines) && !action.Create? && IsUuid(newId) && BytesGiven(action)
    requires Edited(owner, lines, action, newId).0.Some? && k < |Parse(owner, lines).records|
    requires r == Parse(owner, lines).records[k] && Find(Parse(owner, lines).records, action.id) == Some(r)
    requires 0 <= r.start <= r.end < |lines|
    requires put == if action.Delete? then [] else TaskLines(UuidFor(r, newId), NewLine(action, r), StateLeft(action, r))
    ensures AreLines(lines[..r.start] + put + lines[r.end + 1..]) && ParseJob(r.line) == Some(Job(r.schedule, r.command))
  {
    FoundIsTask(owner, lines, action, newId, k);
    EditGivesLines(lines, action, r, newId, put);
  }

  /** Texts of a request are valid. */
  predicate TextsGiven(action: Action) {
    (action.Create? || action.Update?) ==> IsUtf8(action.schedule) && IsUtf8(action.command)
  }

  /** The line the edit leaves in the file, if any, is valid; only a payload can hold one that is not. */
  predicate LeavesUtf8(action: Action, r: Record) {
    StateLeft(action, r) ==> IsUtf8(NewLine(action, r))
  }

  lemma OnlyResumingLeavesInvalid(action: Action, r: Record)
    requires !action.Create? && TextsGiven(action) && (r.enabled ==> IsUtf8(r.line))
    requires (action.Suspend? ==> r.enabled) && (action.Resume? ==> !r.enabled)
    ensures LeavesUtf8(action, r) <==> (action.Resume? ==> IsUtf8(r.line))
  {
    if action.Update? { TaskLineIsUtf8(action.schedule, action.command); }
  }

  lemma PutIsUtf8(action: Action, r: Record, uuid: string, put: seq<string>)
    requires IsUuid(uuid)
    requires put == if action.Delete? then [] else TaskLines(uuid, NewLine(action, r), StateLeft(action, r))
    ensures AreUtf8(put) <==> LeavesUtf8(action, r)
  {
    MarkersAreUtf8(uuid, NewLine(action, r));
    if StateLeft(action, r) {
      assert put[1] == NewLine(action, r);
    }
  }

  lemma AroundIsUtf8(lines: seq<string>, start: int, end: int, put: seq<string>)
    requires AreUtf8(lines) && 0 <= start <= end < |lines|
    ensures AreUtf8(lines[..start] + put + lines[end + 1..]) <==> AreUtf8(put)
  {
    var after := lines[..start] + put + lines[end + 1..];
    forall i | 0 <= i < |put| ensures put[i] == after[start + i] {}
    if AreUtf8(put) {
      forall i | 0 <= i < |after| ensures IsUtf8(after[i]) {
        assert after[i] == if i < start then lines[i] else if i < start + |put| then put[i - start] else lines[i - |put| + end + 1 - start];
      }
    }
  }

  ghost predicate LineIsThere(next: Reader) {
    forall lines :: ShowsItsLine(next(lines), lines)
  }

  predicate ShowsItsLine(c: Chunk, lines: seq<string>) {
    c.Task? && c.enabled ==> 1 <= c.width <= |lines| && c.line == lines[c.width - 1]
  }

  lemma NextShowsItsLine()
    ensures LineIsThere(Next)
  {
    forall lines ensures ShowsItsLine(Next(lines), lines) { OneShowsItsLine(lines); }
  }

  lemma OneShowsItsLine(lines: seq<string>)
    ensures ShowsItsLine(Next(lines), lines)
  {
    if Next(lines).Task? { TaskFacts(lines); }
  }

  /** The line of an active task is a line of the file. */
  lemma {:induction false} ActiveLineIsThere(
      next: Reader, owner: string, lines: seq<string>, chunks: seq<Chunk>, at: int, counts: Counts, k: nat)
    requires LineIsThere(next) && Cut(next, lines) == Some(chunks) && k < |Number(owner, chunks, at, counts)|
    ensures var r := Number(owner, chunks, at, counts)[k]; r.enabled ==> r.line in lines
    decreases |lines|
  {
    var c := chunks[0];
    var to, counted := at + Width(c), Counted(c, counts);
    NumberFirst(owner, chunks, at, to, counts);
    CutFirst(next, lines, chunks);
    assert ShowsItsLine(next(lines), lines);
    var first := Added(owner, c, at, counts);
    if k >= |first| {
      ActiveLineIsThere(next, owner, lines[Width(c)..], chunks[1..], to, counted, k - |first|);
    }
  }

  lemma ActiveLinesAreUtf8(owner: string, lines: seq<string>, k: nat)
    requires AreUtf8(lines) && Parse(owner, lines).Parsed? && k < |Parse(owner, lines).records|
    ensures Parse(owner, lines).records[k].enabled ==> IsUtf8(Parse(owner, lines).records[k].line)
  {
    NextShowsItsLine();
    ActiveLineIsThere(Next, owner, lines, Cut(Next, lines).value, 0, map[], k);
  }

  /** Reading the file an edit installs gives the old records with only the one named changed or removed.
      The file is valid, whatever was in it before, unless a task is resumed whose payload was not: then
      it is read back with that line repaired. */
  lemma InstalledEdit(owner: string, content: string, action: Action, newId: string)
    returns (k: nat, r: Record, put: seq<string>, after: seq<string>)
    requires IsFile(content) && !action.Create? && IsUuid(newId) && TextsGiven(action)
    requires Edited(owner, LinesOf(content), action, newId).0.Some?
    ensures k < |Read(owner, content).records| && Read(owner, content).records[k] == r
    ensures Find(Read(owner, content).records, action.id) == Some(r) && 0 <= r.start <= r.end < |LinesOf(content)|
    ensures ParseJob(r.line) == Some(Job(r.schedule, r.command)) && AreLines(after)
    ensures put == if action.Delete? then [] else TaskLines(UuidFor(r, newId), NewLine(action, r), StateLeft(action, r))
    ensures after == LinesOf(content)[..r.start] + put + LinesOf(content)[r.end + 1..]
    ensures Edited(owner, LinesOf(content), action, newId) == (Some(after), Changed(ResultId(r, newId), StateLeft(action, r)))
    ensures IsUtf8(Render(after)) <==> (action.Resume? ==> IsUtf8(r.line))
    ensures Read(owner, Render(after)) == Parse(owner, RepairAll(after))
    ensures var kept := OthersKept(
              Read(owner, content).records, k, action, newId, StateLeft(action, r), |put|, Read(owner, Render(after)));
            (IsUtf8(Render(after)) ==> kept) && (Read(owner, Render(after)).Parsed? && kept ==> IsUtf8(Render(after)))
  {
    var lines := LinesOf(content);
    EditorGetsLines(content);
    TextsAreBytes(action);
    k, r, put, after := EditKeepsOthers(owner, lines, action, newId);
    EditedAreLines(owner, lines, action, newId, k, r, put);
    InstalledReads(owner, after);
    EditLeaves(owner, lines, action, newId, k, r);
    EditedAreUtf8(lines, action, r, UuidFor(r, newId), put, after);
    if action.Resume? && Read(owner, Render(after)).Parsed?
       && OthersKept(Read(owner, content).records, k, action, newId, StateLeft(action, r), |put|, Read(owner, Render(after))) {
      StateAllowsEdit(owner, lines, action, newId, r);
      RepairAllIsUtf8(after);
      KeptOnlyIfUtf8(owner, RepairAll(after), Read(owner, content).records, k, action, newId, |put|);
    }
  }

  /** A line that is not valid is never read back as it is. */
  lemma KeptOnlyIfUtf8(owner: string, lines: seq<string>, records: seq<Record>, k: nat, action: Action, newId: string, length: nat)
    requires AreUtf8(lines) && Parse(owner, lines).Parsed? && k < |records| && action.Resume?
    requires ParseJob(records[k].line).Some? && OthersKept(records, k, action, newId, true, length, Parse(owner, lines))
    ensures IsUtf8(records[k].line)
  {
    var put := NewRecord(action, records[k], newId, true);
    assert |put| == 1 && put[0].line == records[k].line && put[0].enabled;
    assert Parse(owner, lines).records[k] == put[0];
    ActiveLinesAreUtf8(owner, lines, k);
  }

  lemma TextsAreBytes(action: Action)
    requires TextsGiven(action)
    ensures BytesGiven(action)
  {
    if action.Create? || action.Update? {
      Utf8IsBytes(action.schedule);
      Utf8IsBytes(action.command);
    }
  }

  lemma StateAllowsEdit(owner: string, lines: seq<string>, action: Action, newId: string, r: Record)
    requires Edited(owner, lines, action, newId).0.Some? && !action.Create?
    requires Find(Parse(owner, lines).records, action.id) == Some(r)
    ensures (action.Suspend? ==> r.enabled) && (action.Resume? ==> !r.enabled)
  {
  }

  lemma EditLeaves(owner: string, lines: seq<string>, action: Action, newId: string, k: nat, r: Record)
    requires AreByteLines(lines) && AreUtf8(lines) && !action.Create? && IsUuid(newId) && TextsGiven(action) && BytesGiven(action)
    requires Edited(owner, lines, action, newId).0.Some? && k < |Parse(owner, lines).records|
    requires r == Parse(owner, lines).records[k] && Find(Parse(owner, lines).records, action.id) == Some(r)
    ensures IsUuid(UuidFor(r, newId)) && (LeavesUtf8(action, r) <==> (action.Resume? ==> IsUtf8(r.line)))
  {
    FoundIsTask(owner, lines, action, newId, k);
    ActiveLinesAreUtf8(owner, lines, k);
    StateAllowsEdit(owner, lines, action, newId, r);
    OnlyResumingLeavesInvalid(action, r);
  }

  lemma EditedAreUtf8(lines: seq<string>, action: Action, r: Record, uuid: string, put: seq<string>, after: seq<string>)
    requires AreUtf8(lines) && IsUuid(uuid)
    requires 0 <= r.start <= r.end < |lines| && after == lines[..r.start] + put + lines[r.end + 1..]
    requires put == if action.Delete? then [] else TaskLines(uuid, NewLine(action, r), StateLeft(action, r))
    ensures (IsUtf8(Render(after)) <==> LeavesUtf8(action, r)) && (AreUtf8(after) <==> LeavesUtf8(action, r))
  {
    PutIsUtf8(action, r, uuid, put);
    AroundIsUtf8(lines, r.start, r.end, put);
    RenderIsUtf8(after);
  }

  /** An edit keeps a line outside the record byte for byte exactly when the line is valid; any other comes
      out repaired. */
  lemma OtherLinesKept(content: string, start: nat, end: nat, put: seq<string>, i: nat)
    requires IsFile(content) && start <= end < |LinesOf(content)| && i < |LinesOf(content)| && !(start <= i <= end)
    ensures |SplitContent(content)| == |LinesOf(content)|
    ensures var after := LinesOf(content)[..start] + put + LinesOf(content)[end + 1..];
            var j := if i < start then i else i - (end + 1) + start + |put|;
            && after[j] == Repaired(SplitContent(content)[i])
            && (after[j] == SplitContent(content)[i] <==> IsUtf8(SplitContent(content)[i]))
  {
    LinesAreRepaired(content);
    RepairedExactly(SplitContent(content)[i]);
  }
}
