/** Suspending an active managed task and resuming it: what comes back, byte for byte. */
module CronResume {
  import opened Wrappers
  import opened Strings
  import opened Utf8
  import opened CronText
  import opened CronSyntax
  import opened CronParser
  import opened CronEditor
  import opened CronEdits
  import opened CronContents
  import opened CronEncoding

  // ---------- Finding the record again ----------

  lemma {:induction false} MatchesAppend(a: seq<Record>, b: seq<Record>, id: TaskId)
    ensures Matches(a + b, id) == Matches(a, id) + Matches(b, id)
  {
    if a == [] {
      assert a + b == b;
    } else {
      assert (a + b)[1..] == a[1..] + b;
      MatchesAppend(a[1..], b, id);
      var first: seq<Record> := if a[0].id == id then [a[0]] else [];
      Associative(first, Matches(a[1..], id), Matches(b, id));
    }
  }

  lemma {:induction false} ShiftedMatches(records: seq<Record>, offset: int, id: TaskId)
    ensures Matches(Shifted(records, offset), id) == Shifted(Matches(records, id), offset)
    ensures |Shifted(records, offset)| == |records|
  {
    if records != [] {
      ShiftedMatches(records[1..], offset, id);
      assert Shifted(records, offset)[1..] == Shifted(records[1..], offset);
      var rest := Matches(records[1..], id);
      if records[0].id == id {
        assert ([records[0]] + rest)[1..] == rest;
      } else {
        assert [] + rest == rest && [] + Shifted(rest, offset) == Shifted(rest, offset);
      }
    }
  }

  lemma MatchesOne(r: Record)
    ensures Matches([r], r.id) == [r]
  {
    assert [r][1..] == [];
    assert [r] + [] == [r];
  }

  /** The only record with its identifier is still the only one after it has changed and the later ones have moved. */
  lemma FoundAgain(records: seq<Record>, k: nat, s: Record, offset: int)
    requires k < |records| && Find(records, s.id).Some? && records[k].id == s.id
    ensures Find(records[..k] + [s] + Shifted(records[k + 1..], offset), s.id) == Some(s)
  {
    var a, r, b := records[..k], records[k], records[k + 1..];
    MatchesAppend(a + [r], b, s.id);
    MatchesAppend(a, [r], s.id);
    MatchesOne(r);
    assert a + [r] + b == records;
    MatchesAppend(a + [s], Shifted(b, offset), s.id);
    MatchesAppend(a, [s], s.id);
    MatchesOne(s);
    ShiftedMatches(b, offset, s.id);
  }

  // ---------- The two edits ----------

  /** An active managed task as it stands: its marker line and, below it, its own line. */
  lemma ActiveAt(owner: string, lines: seq<string>, uuid: string, records: seq<Record>) returns (r: Record)
    requires AreByteLines(lines) && Parse(owner, lines).Parsed? && Parse(owner, lines).records == records
    requires Find(records, Managed(uuid)).Some? && Find(records, Managed(uuid)).value.enabled
    ensures Find(records, Managed(uuid)) == Some(r) && r.id == Managed(uuid) && r.managed && r.enabled && IsUuid(uuid)
    ensures 0 <= r.start < r.end < |lines| && r.end == r.start + 1
    ensures lines[r.end] == r.line && Trim(lines[r.start]) == ActiveMarker(uuid)
  {
    NextIsLocal();
    var k, p, first, last := FoundPlace(Next, owner, lines, records, Managed(uuid));
    r := records[k];
    MatchesHaveId(records, Managed(uuid));
    TaskFacts(lines[p.at..]);
  }

  lemma {:induction false} MatchesHaveId(records: seq<Record>, id: TaskId)
    ensures forall i | 0 <= i < |Matches(records, id)| :: Matches(records, id)[i].id == id
  {
    if records != [] { MatchesHaveId(records[1..], id); }
  }

  /** Suspending an active managed task leaves it under the same identifier, with its own line kept in the marker. */
  lemma Suspends(owner: string, lines: seq<string>, uuid: string, newId: string) returns (r: Record, s: Record, after: seq<string>)
    requires AreByteLines(lines) && Parse(owner, lines).Parsed? && IsUuid(newId)
    requires Find(Parse(owner, lines).records, Managed(uuid)).Some?
    requires Find(Parse(owner, lines).records, Managed(uuid)).value.enabled
    ensures Find(Parse(owner, lines).records, Managed(uuid)) == Some(r) && IsUuid(uuid) && OneLine(r.line) && r.line != ""
    ensures 0 <= r.start < r.end < |lines| && r.end == r.start + 1
    ensures lines[r.end] == r.line && Trim(lines[r.start]) == ActiveMarker(uuid) && IsBytes(r.line)
    ensures after == lines[..r.start] + [SuspendedMarker(uuid, r.line)] + lines[r.end + 1..]
    ensures Edited(owner, lines, Suspend(Managed(uuid)), newId) == (Some(after), Changed(Managed(uuid), false))
    ensures r.id == Managed(uuid) && r.managed && s == r.(end := r.start, enabled := false)
    ensures Parse(owner, after).Parsed? && Find(Parse(owner, after).records, Managed(uuid)) == Some(s)
  {
    var records, action := Parse(owner, lines).records, Suspend(Managed(uuid));
    r := ActiveAt(owner, lines, uuid, records);
    SuspendIsAllowed(owner, lines, action, newId, r);
    var k, found, put, text := EditKeepsOthers(owner, lines, action, newId);
    after := text;
    FoundIsTask(owner, lines, action, newId, k);
    s := r.(end := r.start, enabled := false);
    SuspendLeaves(records, k, action, newId, r, s, Parse(owner, after));
  }

  lemma SuspendLeaves(records: seq<Record>, k: nat, action: Action, newId: string, r: Record, s: Record, parsed: Parsed)
    requires k < |records| && records[k] == r && action.Suspend? && OthersKept(records, k, action, newId, false, 1, parsed)
    requires r.id.Managed? && r.managed && r.end == r.start + 1 && ParseJob(r.line) == Some(Job(r.schedule, r.command))
    requires Find(records, r.id).Some? && s == r.(end := r.start, enabled := false)
    ensures parsed.Parsed? && Find(parsed.records, r.id) == Some(s)
  {
    NewRecordSays(action, r, newId, false);
    FoundAgain(records, k, s, -1);
  }

  lemma SuspendIsAllowed(owner: string, lines: seq<string>, action: Action, newId: string, r: Record)
    requires Parse(owner, lines).Parsed? && action.Suspend? && Find(Parse(owner, lines).records, action.id) == Some(r) && r.enabled
    ensures Edited(owner, lines, action, newId).0.Some?
  {
  }

  lemma Resumes(owner: string, lines: seq<string>, uuid: string, newId: string, s: Record)
    requires Parse(owner, lines).Parsed? && Find(Parse(owner, lines).records, Managed(uuid)) == Some(s)
    requires s.id == Managed(uuid) && s.managed && !s.enabled && s.start == s.end
    ensures 0 <= s.start < |lines|
    ensures Edited(owner, lines, Resume(Managed(uuid)), newId) ==
            (Some(lines[..s.start] + [ActiveMarker(uuid), s.line] + lines[s.start + 1..]), Changed(Managed(uuid), true))
  {
    FoundSpans(owner, lines, Managed(uuid));
  }

  lemma SwapBack(lines: seq<string>, i: nat, marker: string, held: string)
    requires i + 1 < |lines|
    ensures var after := lines[..i] + [held] + lines[i + 2..];
            && i < |after| && after[i] == held
            && after[..i] + [marker, lines[i + 1]] + after[i + 1..] == lines[i := marker]
  {
  }

  // ---------- The file ----------

  lemma {:induction false} JoinOfSplit(s: string)
    ensures Join(Split(s), "\n") == s
  {
    if s != "" {
      JoinOfSplit(s[1..]);
      var rest := Split(s[1..]);
      assert s == [s[0]] + s[1..];
      if s[0] == '\n' {
        assert ([""] + rest)[1..] == rest;
        assert "" + "\n" + s[1..] == s;
      } else {
        assert Split(s) == [[s[0]] + rest[0]] + rest[1..];
        assert Split(s)[1..] == rest[1..];
        if |rest| > 1 {
          assert ([s[0]] + rest[0]) + "\n" + Join(rest[1..], "\n") == [s[0]] + (rest[0] + "\n" + Join(rest[1..], "\n"));
        }
      }
    }
  }

  lemma RenderOfText(t: string)
    ensures Render(Split(t)) == t + "\n"
  {
    JoinOfSplit(t);
  }

  lemma LinesOfFile(content: string, t: string)
    requires IsFile(content) && content != ""
    requires t == if content[|content| - 1] == '\n' then content[..|content| - 1] else content
    ensures SplitContent(content) == if t == "" then [] else Split(t)
  {
    NoReturnsNoChange(content);
  }

  /** A file that ends in a line break is what its lines render to. */
  lemma RenderOfSplit(content: string)
    requires IsFile(content) && SplitContent(content) != []
    ensures content != "" && (Render(SplitContent(content)) == content <==> content[|content| - 1] == '\n')
  {
    var n := |content| - 1;
    var t := if content[n] == '\n' then content[..n] else content;
    LinesOfFile(content, t);
    RenderOfText(t);
    RestoresBreak(content, t);
  }

  lemma RestoresBreak(content: string, t: string)
    requires content != "" && t == if content[|content| - 1] == '\n' then content[..|content| - 1] else content
    ensures t + "\n" == content <==> content[|content| - 1] == '\n'
  {
    assert |t| == |content| ==> |t + "\n"| == |content| + 1;
  }

  /** Rendering other lines gives another file. */
  lemma RenderIsFaithful(a: seq<string>, content: string)
    requires AreLines(a) && a != [] && a != [""] && SplitContent(content) != [] && Render(a) == content
    ensures a == SplitContent(content)
  {
    RenderRoundTrip(a);
  }

  lemma SameFile(content: string, lines: seq<string>, i: nat, marker: string)
    requires IsFile(content) && lines == SplitContent(content) && i + 1 < |lines|
    requires OneLine(marker) && Trim(marker) == marker && Trim(lines[i]) == marker
    ensures Render(lines[i := marker]) == content <==> content[|content| - 1] == '\n' && Trim(lines[i]) == lines[i]
  {
    FileHasByteLines(content);
    RenderOfSplit(content);
    assert AreLines(lines[i := marker]);
    if Render(lines[i := marker]) == content {
      RenderIsFaithful(lines[i := marker], content);
    } else if lines[i] == marker {
      assert lines[i := marker] == lines;
    }
  }

  lemma HeldIsRead(lines: seq<string>, start: int, end: int, held: string, after: seq<string>)
    requires AreLines(lines) && OneLine(held) && held != "" && 0 <= start < end < |lines|
    requires after == lines[..start] + [held] + lines[end + 1..]
    ensures SplitContent(Render(after)) == after
  {
    assert after[start] == held;
    AroundIsLines(lines, start, end, [held]);
    RenderRoundTrip(after);
  }

  /** The two edits on the lines, each reading what the other left. */
  lemma BothEdits(owner: string, lines: seq<string>, uuid: string, newId: string, otherId: string)
    returns (r: Record, suspended: seq<string>)
    requires AreByteLines(lines) && Parse(owner, lines).Parsed? && IsUuid(newId)
    requires Find(Parse(owner, lines).records, Managed(uuid)).Some?
    requires Find(Parse(owner, lines).records, Managed(uuid)).value.enabled
    ensures Find(Parse(owner, lines).records, Managed(uuid)) == Some(r) && IsUuid(uuid)
    ensures 0 <= r.start < r.end < |lines| && r.end == r.start + 1
    ensures lines[r.end] == r.line && Trim(lines[r.start]) == ActiveMarker(uuid)
    ensures SplitContent(Render(suspended)) == suspended
    ensures suspended == lines[..r.start] + [SuspendedMarker(uuid, r.line)] + lines[r.start + 2..]
    ensures Edited(owner, lines, Suspend(Managed(uuid)), newId) == (Some(suspended), Changed(Managed(uuid), false))
    ensures Edited(owner, suspended, Resume(Managed(uuid)), otherId) ==
            (Some(lines[r.start := ActiveMarker(uuid)]), Changed(Managed(uuid), true))
  {
    var found, s, after := Suspends(owner, lines, uuid, newId);
    r, suspended := found, after;
    SuspendedMarkerParses(uuid, r.line);
    HeldIsRead(lines, r.start, r.end, SuspendedMarker(uuid, r.line), after);
    Resumes(owner, after, uuid, otherId, s);
    SwapBack(lines, r.start, ActiveMarker(uuid), SuspendedMarker(uuid, r.line));
  }

  /** The file comes back only if it was valid, and then as its lines do. */
  lemma SameRepairedFile(content: string, i: nat, marker: string)
    requires IsFile(content) && i + 1 < |LinesOf(content)|
    requires OneLine(marker) && Trim(marker) == marker && Trim(LinesOf(content)[i]) == marker && IsUtf8(marker)
    ensures content != ""
    ensures Render(LinesOf(content)[i := marker]) == content <==>
            IsUtf8(content) && content[|content| - 1] == '\n' && Trim(LinesOf(content)[i]) == LinesOf(content)[i]
  {
    LinesAsTheyAre(content);
    RepairedIsEmpty(content);
    EditorGetsLines(content);
    if IsUtf8(content) {
      SameFile(content, LinesOf(content), i, marker);
    } else {
      RenderIsUtf8(LinesOf(content)[i := marker]);
    }
  }

  lemma SuspendedIsUtf8(lines: seq<string>, start: nat, uuid: string, line: string, after: seq<string>)
    requires AreUtf8(lines) && start + 1 < |lines| && IsUuid(uuid)
    requires after == lines[..start] + [SuspendedMarker(uuid, line)] + lines[start + 2..]
    requires SplitContent(Render(after)) == after
    ensures LinesOf(Render(after)) == after
  {
    MarkersAreUtf8(uuid, line);
    AroundIsUtf8(lines, start, start + 1, [SuspendedMarker(uuid, line)]);
    RenderIsUtf8(after);
    RepairedExactly(Render(after));
  }

  /** Suspending an active managed task and resuming it, each time from the installed file, gives the
      lines back with only the task's marker line trimmed. The whole file comes back exactly when it was
      valid, ended in a line break, and its marker line was already trimmed. */
  lemma SuspendThenResume(owner: string, content: string, uuid: string, newId: string, otherId: string)
    returns (r: Record, suspended: seq<string>)
    requires IsFile(content) && Read(owner, content).Parsed? && IsUuid(newId)
    requires Find(Read(owner, content).records, Managed(uuid)).Some?
    requires Find(Read(owner, content).records, Managed(uuid)).value.enabled
    ensures Find(Read(owner, content).records, Managed(uuid)) == Some(r) && content != ""
    ensures 0 <= r.start < r.end < |LinesOf(content)| && LinesOf(content)[r.end] == r.line
    ensures Edited(owner, LinesOf(content), Suspend(Managed(uuid)), newId) == (Some(suspended), Changed(Managed(uuid), false))
    ensures var lines := LinesOf(content); var resumed := lines[r.start := ActiveMarker(uuid)];
            && Edited(owner, LinesOf(Render(suspended)), Resume(Managed(uuid)), otherId)
                 == (Some(resumed), Changed(Managed(uuid), true))
            && Trim(lines[r.start]) == ActiveMarker(uuid)
            && (Render(resumed) == content <==>
                  IsUtf8(content) && content[|content| - 1] == '\n' && Trim(lines[r.start]) == lines[r.start])
  {
    EditorGetsLines(content);
    r, suspended := BothEdits(owner, LinesOf(content), uuid, newId, otherId);
    ActiveMarkerParses(uuid);
    MarkersAreUtf8(uuid, r.line);
    SuspendedIsUtf8(LinesOf(content), r.start, uuid, r.line, suspended);
    SameRepairedFile(content, r.start, ActiveMarker(uuid));
  }

  // ---------- Creating and deleting ----------

  lemma DeleteIsAllowed(owner: string, lines: seq<string>, id: TaskId, newId: string, r: Record)
    requires Parse(owner, lines).Parsed? && Find(Parse(owner, lines).records, id) == Some(r)
    ensures 0 <= r.start <= r.end < |lines|
    ensures Edited(owner, lines, Delete(id), newId) == (Some(Replace(lines, r.start, r.end, [])), Changed(ResultId(r, newId), false))
  {
    FoundSpans(owner, lines, id);
  }

  lemma WithoutTheEnd(lines: seq<string>, added: seq<string>, end: int)
    requires end + 1 == |lines| + |added| && added != []
    ensures Replace(lines + added, |lines|, end, []) == lines
  {
  }

  /** Deleting a task just created, under an identifier no other record has, gives the lines back as they were. */
  lemma DeleteUndoesCreate(owner: string, lines: seq<string>, schedule: string, command: string, uuid: string, otherId: string)
    requires Edited(owner, lines, Create(schedule, command), uuid).0.Some? && IsUuid(uuid)
    requires Matches(Parse(owner, lines).records, Managed(uuid)) == [] && IsPlain(TaskLine(schedule, command))
    ensures Edited(owner, Edited(owner, lines, Create(schedule, command), uuid).0.value, Delete(Managed(uuid)), otherId)
              == (Some(lines), Changed(Managed(uuid), false))
  {
    CreateAdds(owner, lines, schedule, command, uuid);
    var line := TaskLine(schedule, command);
    var records := Parse(owner, lines).records;
    var r := Record(Managed(uuid), line, Normalize(schedule), Trim(command), |lines|, |lines| + 1, true, true);
    MatchesAppend(records, [r], Managed(uuid));
    MatchesOne(r);
    assert [] + [r] == [r];
    DeleteIsAllowed(owner, lines + [ActiveMarker(uuid), line], Managed(uuid), otherId, r);
    WithoutTheEnd(lines, [ActiveMarker(uuid), line], r.end);
  }

  lemma RenderOfAll(content: string)
    requires IsFile(content)
    ensures Render(LinesOf(content)) == content <==>
            IsUtf8(content) && (content == "" || (LinesOf(content) != [] && content[|content| - 1] == '\n'))
  {
    LinesAsTheyAre(content);
    EditorGetsLines(content);
    RenderIsUtf8(LinesOf(content));
    if IsUtf8(content) && SplitContent(content) != [] { RenderOfSplit(content); }
  }

  /** The same through the installed files. The file comes back exactly when it was valid and either empty
      or a file of lines that ended in a line break. */
  lemma InstalledDelete(owner: string, content: string, schedule: string, command: string, uuid: string, otherId: string)
    returns (created: seq<string>)
    requires IsFile(content) && IsUuid(uuid) && IsUtf8(schedule) && IsUtf8(command)
    requires Edited(owner, LinesOf(content), Create(schedule, command), uuid).0.Some?
    requires Matches(Read(owner, content).records, Managed(uuid)) == [] && IsPlain(TaskLine(schedule, command))
    ensures Edited(owner, LinesOf(content), Create(schedule, command), uuid) == (Some(created), Changed(Managed(uuid), true))
    ensures Edited(owner, LinesOf(Render(created)), Delete(Managed(uuid)), otherId)
              == (Some(LinesOf(content)), Changed(Managed(uuid), false))
    ensures Render(LinesOf(content)) == content <==>
            IsUtf8(content) && (content == "" || (LinesOf(content) != [] && content[|content| - 1] == '\n'))
  {
    var line, after, r := InstalledCreate(owner, content, schedule, command, uuid);
    created := after;
    DeleteUndoesCreate(owner, LinesOf(content), schedule, command, uuid, otherId);
    RenderOfAll(content);
  }
}
