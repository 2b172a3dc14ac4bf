/** Which files that can be listed can also be edited, and what an edit may do to a listing. */
module CronAcceptance {
  import opened Utf8
  import opened Wrappers
  import opened CronText
  import opened CronSyntax
  import opened CronParser
  import opened CronEditor
  import opened CronEdits
  import opened CronEncoding
  import opened CronContents
  import opened CronResume
  import opened CronLister
  import opened CronAgreement

  // ---------- White space after a task line ----------

  lemma UntrimmedPieces(t: string, gap: string, rest: string, short: string, n: nat)
    requires n >= 1 && IsToken(t) && AreSpaces(gap) && gap != "" && rest != "" && !IsSpace(rest[0])
    requires short != "" && !IsSpace(short[0]) && Scan(t + (gap + short), n).Some?
    ensures n > 1 ==> Scan(short, n - 1).Some?
    ensures n == 1 || Scan(rest, n - 1).Some? ==> Scan(t + (gap + rest), n).Some?
  {
    ScanOfPieces(t, gap, short, n);
    ScanOfPieces(t, gap, rest, n);
  }

  lemma TokenIsNoJob(t: string, n: nat)
    requires n >= 1 && IsToken(t)
    ensures Scan(t, n).None?
  {
    assert t + ("" + "") == t;
    ScanOfPieces(t, "", "", n);
  }

  lemma {:induction false} ScanUntrimmed(s: string, n: nat)
    requires n >= 1 && Scan(TrimRight(s), n).Some?
    ensures Scan(s, n).Some?
    decreases n
  {
    TokenOfTrimmed(s);
    var t, gap, rest := ScanPieces(s);
    PiecesTrim(t, gap, rest);
    TokenIsNoJob(t, n);
    UntrimmedPieces(t, gap, rest, TrimRight(rest), n);
    if n > 1 { ScanUntrimmed(rest, n - 1); }
  }

  lemma TokenOfTrimmed(s: string)
    requires Token(TrimRight(s)) != ""
    ensures Token(s) != ""
  {
    TrimRightIsPrefix(s);
  }

  /** A task line that can be read trimmed can be read as it stands. */
  lemma JobUntrimmed(line: string)
    requires ParseJob(Trim(line)).Some?
    ensures ParseJob(line).Some?
  {
    TrimOfTrim(line);
    ScanUntrimmed(TrimLeft(line), if "@" <= Trim(line) then 1 else 5);
  }

  // ---------- Markers and their tasks ----------

  predicate IsActive(line: string) {
    ParseMarker(Trim(line)).Some? && !ParseMarker(Trim(line)).value.suspended
  }

  /** Every active marker has its task on the very next line. */
  predicate Tight(lines: seq<string>) {
    forall i | 0 <= i < |lines| && IsActive(lines[i]) :: i + 1 < |lines| && IsPlain(Trim(lines[i + 1]))
  }

  lemma TightTail(lines: seq<string>, w: nat)
    requires w <= |lines|
    ensures Tight(lines) ==> Tight(lines[w..])
  {
    forall i | 0 <= i < |lines[w..]| ensures lines[w..][i] == lines[i + w] {}
    if Tight(lines) {
      forall i | 0 <= i < |lines[w..]| && IsActive(lines[w..][i]) ensures i + 1 < |lines[w..]| && IsPlain(Trim(lines[w..][i + 1])) {
        assert IsActive(lines[i + w]);
      }
    }
  }

  /** What a readable chunk says about the lines it spans. */
  predicate SpansTightly(c: Chunk, lines: seq<string>) {
    c.Bad? || lines == [] ||
    (if IsActive(lines[0]) then Width(c) == 2 && |lines| >= 2 && IsPlain(Trim(lines[1])) && !IsActive(lines[1])
     else Width(c) == 1)
  }

  lemma PlainIsNotActive(line: string)
    requires IsPlain(Trim(line))
    ensures !IsActive(line)
  {
    if ParseMarker(Trim(line)).Some? { MarkersAreComments(Trim(line)); }
  }

  lemma NextSpansTightly(lines: seq<string>)
    ensures SpansTightly(Next(lines), lines)
  {
    if |lines| >= 2 && IsPlain(Trim(lines[1])) { PlainIsNotActive(lines[1]); }
  }

  ghost predicate AllSpanTightly(next: Reader) {
    forall lines :: SpansTightly(next(lines), lines)
  }

  lemma TightFromTail(lines: seq<string>, w: nat)
    requires 1 <= w <= |lines| && Tight(lines[w..])
    requires if IsActive(lines[0]) then w == 2 && IsPlain(Trim(lines[1])) && !IsActive(lines[1]) else w == 1
    ensures Tight(lines)
  {
    forall i | 0 <= i < |lines| && IsActive(lines[i]) ensures i + 1 < |lines| && IsPlain(Trim(lines[i + 1])) {
      if i >= w { assert lines[w..][i - w] == lines[i]; }
    }
  }

  /** Lines that can be read for editing have every marker directly above its task. */
  lemma {:induction false} CutIsTight(next: Reader, lines: seq<string>)
    requires AllSpanTightly(next) && Cut(next, lines).Some?
    ensures Tight(lines)
    decreases |lines|
  {
    if lines != [] {
      var w := Width(next(lines));
      assert SpansTightly(next(lines), lines);
      CutIsTight(next, lines[w..]);
      TightFromTail(lines, w);
    }
  }

  // ---------- One line that can be listed ----------

  /** A listed line leads to a chunk, by itself or with the line below it. */
  ghost predicate LeadsOn(step: Stepper, next: Reader, lines: seq<string>, at: int, seen: Counts) {
    lines == [] || step(lines[0], at, None, seen).None?
    || (var out := step(lines[0], at, None, seen).value;
        if !IsActive(lines[0]) then !next(lines).Bad? && Width(next(lines)) == 1 && out.pending.None?
        else
          |lines| >= 2 && IsPlain(Trim(lines[1])) && step(lines[1], at + 1, out.pending, out.counts).Some? ==>
            && !next(lines).Bad? && Width(next(lines)) == 2
            && step(lines[1], at + 1, out.pending, out.counts).value.pending.None?)
  }

  lemma PlainLeadsOn(owner: string, scripts: Scripts, raw: string, at: int, pending: Option<string>, seen: Counts)
    requires IsPlain(Trim(raw)) && Line(owner, scripts, raw, at, pending, seen).Some?
    ensures ParseJob(raw).Some? && Line(owner, scripts, raw, at, pending, seen).value.pending.None?
  {
    PlainLine(owner, scripts, raw, at, pending, seen);
    ListedJob(owner, scripts, Trim(raw), at, pending, seen);
    JobUntrimmed(raw);
  }

  lemma ListedJob(owner: string, scripts: Scripts, line: string, at: int, pending: Option<string>, seen: Counts)
    requires JobLine(owner, scripts, line, at, pending, seen).Some?
    ensures ParseJob(line).Some? && JobLine(owner, scripts, line, at, pending, seen).value.pending.None?
  {
  }

  lemma SuspendedLeadsOn(owner: string, m: Marker, at: int, seen: Counts)
    requires m.suspended && MarkerLine(owner, m, at, None, seen).Some?
    ensures SuspendedTask(m).Task? && SuspendedTask(m).width == 1 && MarkerLine(owner, m, at, None, seen).value.pending.None?
  {
  }

  lemma ActiveLeadsOn(owner: string, m: Marker, lines: seq<string>, at: int, seen: Counts)
    requires !m.suspended && MarkerLine(owner, m, at, None, seen).Some? && |lines| >= 2
    requires IsPlain(Trim(lines[1])) && ParseJob(lines[1]).Some?
    ensures ActiveTask(m, lines).Task? && ActiveTask(m, lines).width == 2
  {
  }

  /** A line under no marker of its own. */
  lemma UnmarkedLeadsOn(owner: string, scripts: Scripts, lines: seq<string>, at: int, seen: Counts)
    requires lines != [] && ParseMarker(Trim(lines[0])).None? && Line(owner, scripts, lines[0], at, None, seen).Some?
    ensures !Next(lines).Bad? && Width(Next(lines)) == 1 && Line(owner, scripts, lines[0], at, None, seen).value.pending.None?
  {
    if IsPlain(Trim(lines[0])) { PlainLeadsOn(owner, scripts, lines[0], at, None, seen); }
  }

  lemma MarkedLineIs(owner: string, scripts: Scripts, raw: string, m: Marker, at: int, seen: Counts)
    requires ParseMarker(Trim(raw)) == Some(m)
    ensures Line(owner, scripts, raw, at, None, seen) == MarkerLine(owner, m, at, None, seen)
  {
  }

  lemma MarkedNextIs(lines: seq<string>, m: Marker)
    requires lines != [] && ParseMarker(Trim(lines[0])) == Some(m)
    ensures Next(lines) == if m.suspended then SuspendedTask(m) else ActiveTask(m, lines)
  {
  }

  lemma SuspendedStep(owner: string, scripts: Scripts, lines: seq<string>, m: Marker, at: int, seen: Counts)
    requires lines != [] && ParseMarker(Trim(lines[0])) == Some(m) && m.suspended
    ensures LeadsOn(LineReader(owner, scripts), Next, lines, at, seen)
  {
    MarkedLineIs(owner, scripts, lines[0], m, at, seen);
    MarkedNextIs(lines, m);
    if MarkerLine(owner, m, at, None, seen).Some? { SuspendedLeadsOn(owner, m, at, seen); }
  }

  lemma ActiveStep(owner: string, scripts: Scripts, lines: seq<string>, m: Marker, at: int, seen: Counts)
    requires lines != [] && ParseMarker(Trim(lines[0])) == Some(m) && !m.suspended
    ensures LeadsOn(LineReader(owner, scripts), Next, lines, at, seen)
  {
    MarkedLineIs(owner, scripts, lines[0], m, at, seen);
    MarkedNextIs(lines, m);
    var first := MarkerLine(owner, m, at, None, seen);
    if first.Some? && |lines| >= 2 && IsPlain(Trim(lines[1]))
       && Line(owner, scripts, lines[1], at + 1, first.value.pending, first.value.counts).Some? {
      PlainLeadsOn(owner, scripts, lines[1], at + 1, first.value.pending, first.value.counts);
      ActiveLeadsOn(owner, m, lines, at, seen);
    }
  }

  lemma EveryLineLeadsOn(owner: string, scripts: Scripts, lines: seq<string>, at: int, seen: Counts)
    ensures LeadsOn(LineReader(owner, scripts), Next, lines, at, seen)
  {
    if lines != [] {
      var marker := ParseMarker(Trim(lines[0]));
      if marker.None? {
        if Line(owner, scripts, lines[0], at, None, seen).Some? { UnmarkedLeadsOn(owner, scripts, lines, at, seen); }
      } else if marker.value.suspended {
        SuspendedStep(owner, scripts, lines, marker.value, at, seen);
      } else {
        ActiveStep(owner, scripts, lines, marker.value, at, seen);
      }
    }
  }

  ghost predicate AllLeadOn(step: Stepper, next: Reader) {
    forall lines, at, seen :: LeadsOn(step, next, lines, at, seen)
  }

  // ---------- Files ----------

  lemma ListedFirst(step: Stepper, lines: seq<string>, at: int, pending: Option<string>, seen: Counts) returns (out: Out)
    requires lines != [] && List(step, lines, at, pending, seen).Some?
    ensures step(lines[0], at, pending, seen) == Some(out) && List(step, lines[1..], at + 1, out.pending, out.counts).Some?
  {
    out := step(lines[0], at, pending, seen).value;
  }

  lemma {:induction false} ListedIsCut(step: Stepper, next: Reader, lines: seq<string>, more: seq<string>, at: int, seen: Counts)
    requires AllLeadOn(step, next) && Tight(lines) && List(step, lines + more, at, None, seen).Some?
    ensures Cut(next, lines).Some?
    decreases |lines|
  {
    if lines != [] {
      var all := lines + more;
      assert all[0] == lines[0] && all[1..] == lines[1..] + more;
      assert LeadsOn(step, next, lines, at, seen);
      var out := ListedFirst(step, all, at, None, seen);
      if IsActive(lines[0]) {
        assert all[1..][0] == lines[1] && all[1..][1..] == lines[2..] + more;
        var second := ListedFirst(step, all[1..], at + 1, out.pending, out.counts);
        TightTail(lines, 2);
        ListedIsCut(step, next, lines[2..], more, at + 2, second.counts);
      } else {
        TightTail(lines, 1);
        ListedIsCut(step, next, lines[1..], more, at + 1, out.counts);
      }
      CutStep(next, next(lines), lines);
    }
  }

  lemma ListedReads(step: Stepper, next: Reader, owner: string, lines: seq<string>, more: seq<string>, all: seq<string>)
    requires AllLeadOn(step, next) && AllSpanTightly(next) && all == lines + more
    requires List(step, all, 1, None, map[]).Some?
    ensures ParseBy(next, owner, lines).Parsed? <==> Tight(lines)
  {
    if Tight(lines) {
      ListedIsCut(step, next, lines, more, 1, map[]);
    } else if Cut(next, lines).Some? {
      CutIsTight(next, lines);
    }
  }

  /** A file that can be listed can be read for editing exactly when every active marker has its task on the
      very next line; the listing passes over blank lines, comments and assignments in between. */
  lemma ListedIsEditable(owner: string, scripts: Scripts, content: string)
    requires ListFile(owner, scripts, content).Some?
    ensures Read(owner, content).Parsed? <==> Tight(LinesOf(content))
  {
    LinesAsGiven(content);
    forall lines, at, seen ensures LeadsOn(LineReader(owner, scripts), Next, lines, at, seen) {
      EveryLineLeadsOn(owner, scripts, lines, at, seen);
    }
    forall lines ensures SpansTightly(Next(lines), lines) { NextSpansTightly(lines); }
    var more := BlanksAtTheEnd(content);
    ListedReads(LineReader(owner, scripts), Next, owner, SplitContent(content), more, Split(UnixBreaks(content)));
  }

  // ---------- A marker apart from its task ----------

  lemma DigitIsPlain(line: string)
    requires line != "" && line[0] == '1'
    ensures IsPlain(line)
  {
  }

  lemma OtherCommand(schedule: string, command: string)
    requires ValidInput(schedule, "f") && command != "" && Trim(command) == command && !HasBreak(command)
    ensures ValidInput(schedule, command) && TaskLine(schedule, command) != ""
    ensures TaskLine(schedule, command)[0] == TaskLine(schedule, "f")[0]
  {
    AcceptedLineIsTrimmed(schedule, "f");
    AcceptedLineIsTrimmed(schedule, command);
  }

  /** A task the editor itself would write, on a schedule of five fields. */
  lemma OrdinaryTask(command: string) returns (schedule: string)
    requires command != "" && Trim(command) == command && !HasBreak(command)
    ensures ValidInput(schedule, command) && IsUtf8(schedule) && IsPlain(TaskLine(schedule, command))
    ensures schedule == "1 b c d e"
  {
    var first := "1";
    assert IsAscii(first) && !HasBreak(first);
    schedule := FiveFieldsAreAccepted(first);
    assert TaskLine(schedule, "f")[0] == first[0];
    OtherCommand(schedule, command);
    DigitIsPlain(TaskLine(schedule, command));
    JoinOfFive(first);
    SameText(schedule, first);
  }

  lemma SameText(schedule: string, first: string)
    requires first == "1" && schedule == first + " b c d e"
    ensures schedule == "1 b c d e"
  {
  }

  lemma ListLoose(
      step: Stepper, marker: string, line: string, more: seq<string>, id: Option<string>, out: Out)
    requires step(marker, 1, None, map[]) == Some(Out([], id, map[])) && step("", 2, id, map[]) == Some(Out([], id, map[]))
    requires step(line, 3, id, map[]) == Some(out) && out.pending.None? && SkipsBlanks(step) && AllBlank(more)
    ensures List(step, [marker, "", line] + more, 1, None, map[]) == Some(out.jobs)
  {
    var all := [marker, "", line] + more;
    ListOne(step, all, 1, None, map[], Out([], id, map[]));
    assert all[1..] == ["", line] + more && all[1..][1..] == [line] + more && all[1..][1..][1..] == more;
    ListOne(step, all[1..], 2, id, map[], Out([], id, map[]));
    ListOne(step, all[1..][1..], 3, id, map[], out);
    BlanksList(step, more, 4, out.counts);
    FollowingNothing(List(step, all[1..], 2, id, map[]));
    FollowingNothing(List(step, all[1..][1..], 3, id, map[]));
    assert out.jobs + [] == out.jobs;
  }

  lemma LooseLines(owner: string, scripts: Scripts, uuid: string, line: string, job: Job)
    requires owner != "" && IsUuid(uuid) && IsPlain(Trim(line)) && ParseJob(line) == Some(job) && !Expands(job.command)
    requires Trim(job.command) != ""
    ensures var id := Some(uuid);
            && Line(owner, scripts, ActiveMarker(uuid), 1, None, map[]) == Some(Out([], id, map[]))
            && Line(owner, scripts, "", 2, id, map[]) == Some(Out([], id, map[]))
            && Line(owner, scripts, line, 3, id, map[]) ==
                 Some(Out([Listed(Managed(uuid), job.schedule, Trim(job.command), 3, true, true)], None, map[]))
  {
    ActiveMarkerParses(uuid);
    MarkedLineIs(owner, scripts, ActiveMarker(uuid), Marker(uuid, false, ""), 1, map[]);
    PlainLine(owner, scripts, line, 3, Some(uuid), map[]);
    var short := JobLines(owner, scripts, line, job);
    JobShown(owner, scripts, short, job, 3, Some(uuid), map[]);
    EmptyLine(owner, scripts, 2, Some(uuid), map[]);
  }

  lemma EmptyLine(owner: string, scripts: Scripts, at: int, pending: Option<string>, seen: Counts)
    ensures Line(owner, scripts, "", at, pending, seen) == Some(Out([], pending, seen))
  {
  }

  lemma LooseIsFile(marker: string, line: string, lines: seq<string>)
    requires OneLine(marker) && IsUtf8(marker) && OneLine(line) && IsUtf8(line) && lines == [marker, "", line]
    ensures LinesOf(Render(lines)) == lines == SplitContent(Render(lines)) && IsUtf8(Render(lines))
  {
    assert IsUtf8("") && OneLine("") && |lines| == 3;
    ValidLinesStand(lines);
  }

  lemma LooseIsListed(
      owner: string, scripts: Scripts, uuid: string, line: string, job: Job, lines: seq<string>, content: string)
    requires owner != "" && IsUuid(uuid) && IsPlain(Trim(line)) && ParseJob(line) == Some(job) && !Expands(job.command)
    requires Trim(job.command) != "" && lines == [ActiveMarker(uuid), "", line]
    requires SplitContent(content) == lines && IsUtf8(content)
    ensures ListFile(owner, scripts, content) ==
            Some([Listed(Managed(uuid), job.schedule, Trim(job.command), 3, true, true)])
  {
    LooseLines(owner, scripts, uuid, line, job);
    LineReaderSkipsBlanks(owner, scripts);
    var more := BlanksAtTheEnd(content);
    var task := Listed(Managed(uuid), job.schedule, Trim(job.command), 3, true, true);
    ListLoose(LineReader(owner, scripts), ActiveMarker(uuid), line, more, Some(uuid), Out([task], None, map[]));
  }

  lemma CommandIsOrdinary()
    ensures Trim("f") == "f" && !HasBreak("f") && !Expands("f") && IsUtf8("f")
  {
    TrimKeeps("f");
    assert IsAscii("f");
    AsciiIsUtf8("f");
    assert Periodic("f"[1..]) == None;
  }

  lemma LooseIsNotTight(uuid: string, lines: seq<string>)
    requires IsUuid(uuid) && |lines| > 1 && lines[0] == ActiveMarker(uuid) && lines[1] == ""
    ensures !Tight(lines)
  {
    ActiveMarkerParses(uuid);
    assert IsActive(lines[0]);
  }

  /** A blank line between a marker and its task: the task is listed, and the file cannot be edited. */
  lemma LooseMarkerIsNotEditable(owner: string, scripts: Scripts, uuid: string) returns (content: string)
    requires owner != "" && IsUuid(uuid)
    ensures content == Render([ActiveMarker(uuid), "", TaskLine("1 b c d e", "f")])
    ensures ListFile(owner, scripts, content).Some? && |ListFile(owner, scripts, content).value| == 1
    ensures Read(owner, content) == Malformed
  {
    CommandIsOrdinary();
    var schedule := OrdinaryTask("f");
    var line := TaskLine(schedule, "f");
    AcceptedInputParses(schedule, "f");
    TaskLineIsUtf8(schedule, "f");
    Utf8IsBytes(schedule);
    NewLineIsLine(schedule, "f");
    var lines := [ActiveMarker(uuid), "", line];
    content := Render(lines);
    ActiveMarkerParses(uuid);
    MarkersAreUtf8(uuid, line);
    LooseIsFile(ActiveMarker(uuid), line, lines);
    LooseIsListed(owner, scripts, uuid, line, Job(Normalize(schedule), "f"), lines, content);
    LooseIsNotTight(uuid, lines);
    ListedIsEditable(owner, scripts, content);
  }

  // ---------- A payload that is not valid text ----------

  lemma OneLineFile(line: string)
    requires OneLine(line) && IsUtf8(line) && line != ""
    ensures LinesOf(Render([line])) == [line] && IsUtf8(Render([line]))
  {
    assert [line][0] == line;
    ValidLinesStand([line]);
  }

  lemma SuspendedIsListed(owner: string, scripts: Scripts, marker: string, c: Chunk, content: string) returns (r: Record)
    requires owner != "" && OneLine(marker) && IsUtf8(marker) && marker != "" && content == Render([marker])
    requires Next([marker]) == c && c.Task? && c.width == 1 && !c.enabled
    ensures r == RecordOf(owner, c, 0, map[]) && Parse(owner, [marker]).Parsed? && Parse(owner, [marker]).records == [r]
    ensures LinesOf(content) == [marker] && ListFile(owner, scripts, content).Some?
  {
    r := RecordOf(owner, c, 0, map[]);
    OneLineFile(marker);
    ReadAlone(Next, owner, marker, c);
    ReadersAgree(owner, scripts, content);
    assert ListAll(scripts, [r][1..]) == Some([]);
  }

  lemma SuspendedAlone(owner: string, scripts: Scripts, uuid: string, line: string) returns (content: string, r: Record)
    requires owner != "" && IsUuid(uuid) && IsBytes(line) && OneLine(line) && ParseJob(line).Some?
    ensures content == Render([SuspendedMarker(uuid, line)]) && LinesOf(content) == [SuspendedMarker(uuid, line)]
    ensures Parse(owner, [SuspendedMarker(uuid, line)]).Parsed? && Parse(owner, [SuspendedMarker(uuid, line)]).records == [r]
    ensures r.id == Managed(uuid) && r.managed && !r.enabled && r.start == r.end == 0 && r.line == line
    ensures ListFile(owner, scripts, content).Some?
  {
    NoJobInNothing(line);
    SuspendedMarkerParses(uuid, line);
    MarkersAreUtf8(uuid, line);
    SuspendedReads(uuid, line);
    content := Render([SuspendedMarker(uuid, line)]);
    r := SuspendedIsListed(owner, scripts, SuspendedMarker(uuid, line), MarkedChunk(uuid, line, false), content);
  }

  lemma InvalidCommand()
    ensures var command := [0xE9 as char];
            command != "" && Trim(command) == command && !HasBreak(command) && IsBytes(command) && !IsUtf8(command)
  {
    TrimKeeps([0xE9 as char]);
  }

  /** A suspended task whose payload holds a byte of another encoding is listed; once it is resumed, the
      whole file cannot be listed any more. */
  lemma ResumedIsNotListed(owner: string, scripts: Scripts, uuid: string, newId: string)
    returns (line: string, content: string, after: seq<string>)
    requires owner != "" && IsUuid(uuid)
    ensures line == TaskLine("1 b c d e", [0xE9 as char]) && content == Render([SuspendedMarker(uuid, line)])
    ensures ListFile(owner, scripts, content).Some?
    ensures Edited(owner, LinesOf(content), Resume(Managed(uuid)), newId) == (Some(after), Changed(Managed(uuid), true))
    ensures ListFile(owner, scripts, Render(after)) == None
  {
    InvalidCommand();
    var command := [0xE9 as char];
    var schedule := OrdinaryTask(command);
    line := TaskLine(schedule, command);
    AcceptedInputParses(schedule, command);
    Utf8IsBytes(schedule);
    NewLineIsLine(schedule, command);
    var r;
    content, r := SuspendedAlone(owner, scripts, uuid, line);
    after := ResumedAlone(owner, uuid, line, r, newId);
    Utf8Around(Normalize(schedule), ' ', command);
    RenderIsUtf8(after);
    assert after[1] == line;
  }

  lemma ResumedAlone(owner: string, uuid: string, line: string, r: Record, newId: string) returns (after: seq<string>)
    requires Parse(owner, [SuspendedMarker(uuid, line)]).Parsed? && Parse(owner, [SuspendedMarker(uuid, line)]).records == [r]
    requires r.id == Managed(uuid) && r.managed && !r.enabled && r.start == r.end == 0 && r.line == line
    ensures after == [ActiveMarker(uuid), line]
    ensures Edited(owner, [SuspendedMarker(uuid, line)], Resume(Managed(uuid)), newId) == (Some(after), Changed(Managed(uuid), true))
  {
    var lines := [SuspendedMarker(uuid, line)];
    MatchesOne(r);
    Resumes(owner, lines, uuid, newId, r);
    after := [ActiveMarker(uuid), line];
    assert lines[..0] + after + lines[1..] == after;
  }
}
