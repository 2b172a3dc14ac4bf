/** The line grammar of a user's crontab: markers, assignments, task lines. */
module CronSyntax {
  import opened Wrappers
  import opened Strings
  import opened Base64
  import opened CronText

  // ---------- Identifiers and markers ----------

  predicate IsHex(c: char) {
    'a' <= c <= 'f' || '0' <= c <= '9'
  }

  /** Version 1 to 5, RFC 4122 variant, lower case. */
  predicate IsUuid(s: string) {
    && |s| == 36
    && s[8] == '-' && s[13] == '-' && s[18] == '-' && s[23] == '-'
    && '1' <= s[14] <= '5' && s[19] in {'8', '9', 'a', 'b'}
    && forall i | 0 <= i < 36 && i !in {8, 13, 18, 23} :: IsHex(s[i])
  }

  function HexDigit(d: int): char
    requires 0 <= d < 16
  {
    if d < 10 then (d + '0' as int) as char else (d - 10 + 'a' as int) as char
  }

  function {:induction false} Hex(b: seq<byte>): (s: string)
    ensures |s| == 2 * |b| && forall i | 0 <= i < |s| :: IsHex(s[i])
    ensures forall i | 0 <= i < |b| :: s[2 * i] == HexDigit(b[i] / 16)
  {
    if b == [] then "" else [HexDigit(b[0] / 16), HexDigit(b[0] % 16)] + Hex(b[1..])
  }

  /** A fresh identifier from sixteen random bytes. */
  function NewUuid(b: seq<byte>): string
    requires |b| == 16
  {
    var v := b[6 := b[6] % 16 + 64][8 := b[8] % 64 + 128];
    Hex(v[..4]) + "-" + Hex(v[4..6]) + "-" + Hex(v[6..8]) + "-" + Hex(v[8..10]) + "-" + Hex(v[10..])
  }

  predicate AllHex(s: string) {
    forall i | 0 <= i < |s| :: IsHex(s[i])
  }

  lemma FivePartsMakeUuid(a: string, b: string, c: string, d: string, e: string)
    requires |a| == 8 && |b| == |c| == |d| == 4 && |e| == 12
    requires AllHex(a) && AllHex(b) && AllHex(c) && AllHex(d) && AllHex(e)
    requires '1' <= c[0] <= '5' && d[0] in {'8', '9', 'a', 'b'}
    ensures IsUuid(a + "-" + b + "-" + c + "-" + d + "-" + e)
  {
  }

  lemma FirstHex(b: seq<byte>)
    requires b != []
    ensures Hex(b)[0] == HexDigit(b[0] / 16)
  {
    assert Hex(b)[2 * 0] == HexDigit(b[0] / 16);
  }

  lemma NewUuidIsUuid(b: seq<byte>)
    requires |b| == 16
    ensures IsUuid(NewUuid(b))
  {
    var v := b[6 := b[6] % 16 + 64][8 := b[8] % 64 + 128];
    assert v[6..8][0] == v[6] && v[8..10][0] == v[8];
    assert v[6] / 16 == 4 && 8 <= v[8] / 16 <= 11;
    FirstHex(v[6..8]);
    FirstHex(v[8..10]);
    FivePartsMakeUuid(Hex(v[..4]), Hex(v[4..6]), Hex(v[6..8]), Hex(v[8..10]), Hex(v[10..]));
  }

  const STEM: string := "# AEGISADMIN-TASK:"

  datatype Marker = Marker(id: string, suspended: bool, payload: string)

  function ActiveMarker(id: string): string {
    STEM + " " + id + " ACTIVE"
  }

  function SuspendedMarker(id: string, line: string): string {
    STEM + " " + id + " SUSPENDED " + EncodeText(line)
  }

  predicate IsPayload(s: string) {
    s != "" && InAlphabet(s)
  }

  function ParseMarker(line: string): Option<Marker> {
    var start := |STEM| + 1;
    if !(STEM + " " <= line) || |line| < start + 36 || !IsUuid(line[start..start + 36]) then None
    else
      var id, tail := line[start..start + 36], line[start + 36..];
      if tail == " ACTIVE" then Some(Marker(id, false, ""))
      else if tail == " SUSPENDED" then Some(Marker(id, true, ""))
      else if " ACTIVE " <= tail && IsPayload(tail[8..]) then Some(Marker(id, false, tail[8..]))
      else if " SUSPENDED " <= tail && IsPayload(tail[11..]) then Some(Marker(id, true, tail[11..]))
      else None
  }

  lemma ActiveMarkerParses(id: string)
    requires IsUuid(id)
    ensures Trim(ActiveMarker(id)) == ActiveMarker(id) && OneLine(ActiveMarker(id))
    ensures ParseMarker(ActiveMarker(id)) == Some(Marker(id, false, ""))
  {
    var line := ActiveMarker(id);
    assert line[0] == '#' && line[|line| - 1] == 'E';
    TrimKeeps(line);
    assert line[|STEM| + 1..|STEM| + 37] == id && line[|STEM| + 37..] == " ACTIVE";
    UuidIsOneLine(id);
  }

  lemma UuidIsOneLine(id: string)
    requires IsUuid(id)
    ensures OneLine(id)
  {
  }

  lemma AlphabetIsOneLine(s: string)
    requires InAlphabet(s)
    ensures OneLine(s) && (s != "" ==> !IsSpace(s[|s| - 1]))
  {
    assert s != "" ==> s[|s| - 1] in s;
  }

  lemma SuspendedTextIsTrimmed(id: string, payload: string)
    requires IsUuid(id) && IsPayload(payload)
    ensures var m := STEM + " " + id + " SUSPENDED " + payload; Trim(m) == m && OneLine(m)
  {
    var m := STEM + " " + id + " SUSPENDED " + payload;
    AlphabetIsOneLine(payload);
    UuidIsOneLine(id);
    assert m[0] == '#' && m[|m| - 1] == payload[|payload| - 1];
    TrimKeeps(m);
  }

  lemma SuspendedTextParses(id: string, payload: string)
    requires IsUuid(id) && IsPayload(payload)
    ensures ParseMarker(STEM + " " + id + " SUSPENDED " + payload) == Some(Marker(id, true, payload))
  {
    var m := STEM + " " + id + " SUSPENDED " + payload;
    var tail := m[|STEM| + 37..];
    assert m[|STEM| + 1..|STEM| + 37] == id && tail == " SUSPENDED " + payload;
    assert tail[1] == 'S' && tail[11..] == payload;
  }

  lemma SuspendedMarkerParses(id: string, line: string)
    requires IsUuid(id) && IsBytes(line) && line != ""
    ensures var m := SuspendedMarker(id, line);
            && Trim(m) == m && OneLine(m)
            && ParseMarker(m) == Some(Marker(id, true, EncodeText(line)))
            && DecodeText(EncodeText(line)) == Some(line)
  {
    TextRoundTrip(line);
    SuspendedTextIsTrimmed(id, EncodeText(line));
    SuspendedTextParses(id, EncodeText(line));
  }

  // ---------- Assignments and comments ----------

  predicate NameStart(c: char) {
    'A' <= c <= 'Z' || 'a' <= c <= 'z' || c == '_'
  }

  predicate NameChar(c: char) {
    NameStart(c) || '0' <= c <= '9'
  }

  function AfterName(s: string): string {
    if s != "" && NameChar(s[0]) then AfterName(s[1..]) else s
  }

  predicate IsAssignment(line: string) {
    line != "" && NameStart(line[0]) && "=" <= TrimLeft(AfterName(line[1..]))
  }

  /** A trimmed line that may stand for a task: not blank, not a comment, not an assignment. */
  predicate IsPlain(line: string) {
    line != "" && !("#" <= line) && !IsAssignment(line)
  }

  // ---------- Task lines ----------

  const MACROS: seq<string> :=
    ["@reboot", "@yearly", "@annually", "@monthly", "@weekly", "@daily", "@midnight", "@hourly"]

  predicate StartsWithMacro(line: string) {
    exists i | 0 <= i < |MACROS| :: MACROS[i] <= line && (|line| == |MACROS[i]| || !NameChar(line[|MACROS[i]|]))
  }

  datatype Job = Job(schedule: string, command: string)

  /** n fields, each followed by white space, then a command of at least one character. When only
      white space follows the last field, its last character is the command. */
  function Scan(s: string, n: nat): Option<(seq<string>, string)>
    requires n >= 1
    decreases n
  {
    TrimLeftIsSuffix(AfterToken(s));
    var after := AfterToken(s);
    var rest := TrimLeft(after);
    var gap := |after| - |rest|;
    if Token(s) == "" || gap == 0 then None
    else if n == 1 then
      if rest != "" then Some(([Token(s)], rest))
      else if gap >= 2 then Some(([Token(s)], after[gap - 1..]))
      else None
    else
      var tail := Scan(rest, n - 1);
      if tail.None? then None else Some(([Token(s)] + tail.value.0, tail.value.1))
  }

  function ParseJob(line: string): Option<Job> {
    var trimmed := Trim(line);
    if "@" <= trimmed && !StartsWithMacro(trimmed) then None
    else
      var parts := Scan(TrimLeft(line), if "@" <= trimmed then 1 else 5);
      if parts.None? then None else Some(Job(Join(parts.value.0, " "), parts.value.1))
  }

  /** A field, one space, and what follows. */
  lemma ScanOne(t: string, rest: string, n: nat)
    requires n >= 1 && IsToken(t) && rest != "" && !IsSpace(rest[0])
    ensures Scan(t + (" " + rest), n) ==
            if n == 1 then Some(([t], rest))
            else if Scan(rest, n - 1).None? then None
            else Some(([t] + Scan(rest, n - 1).value.0, Scan(rest, n - 1).value.1))
  {
    TokenOf(t, " " + rest);
    assert (" " + rest)[1..] == rest;
    assert TrimLeft(" " + rest) == rest;
  }

  lemma JoinOfOne(parts: seq<string>, command: string)
    requires |parts| == 1
    ensures Join(parts, " ") + " " + command == parts[0] + (" " + command) && [parts[0]] == parts
  {
  }

  lemma Regrouped(a: string, b: string, c: string)
    ensures a + " " + b + " " + c == a + (" " + (b + " " + c))
  {
  }

  lemma JoinOfMore(parts: seq<string>, command: string)
    requires |parts| > 1
    ensures Join(parts, " ") + " " + command == parts[0] + (" " + (Join(parts[1..], " ") + " " + command))
    ensures [parts[0]] + parts[1..] == parts
  {
    Regrouped(parts[0], Join(parts[1..], " "), command);
  }

  /** Fields joined by single spaces scan back to themselves. */
  lemma {:induction false} ScanOfJoin(parts: seq<string>, command: string)
    requires parts != [] && forall i | 0 <= i < |parts| :: IsToken(parts[i])
    requires command != "" && !IsSpace(command[0])
    ensures Scan(Join(parts, " ") + " " + command, |parts|) == Some((parts, command))
    decreases |parts|
  {
    if |parts| == 1 {
      JoinOfOne(parts, command);
      ScanOne(parts[0], command, 1);
    } else {
      JoinStarts(parts[1..]);
      ScanOfJoin(parts[1..], command);
      JoinOfMore(parts, command);
      ScanOne(parts[0], Join(parts[1..], " ") + " " + command, |parts|);
    }
  }

  // ---------- Input ----------

  predicate HasBreak(s: string) {
    exists c | c in s :: c in {'\n', '\r', 0 as char}
  }

  /** What the editor accepts for a new or changed task. */
  predicate ValidInput(schedule: string, command: string) {
    && schedule != "" && !HasBreak(schedule) && Trim(command) != "" && !HasBreak(command)
    && var normalized := Normalize(schedule);
       if "@" <= normalized then normalized in MACROS else |Fields(normalized)| == 5
  }

  function TaskLine(schedule: string, command: string): string {
    Normalize(schedule) + " " + Trim(command)
  }

  lemma {:induction false} MacroIsToken(i: nat)
    requires i < |MACROS|
    ensures IsToken(MACROS[i]) && MACROS[i][0] == '@'
  {
  }

  lemma AcceptedLineIsTrimmed(schedule: string, command: string)
    requires ValidInput(schedule, command)
    ensures var line := TaskLine(schedule, command);
            line != "" && Trim(line) == line && TrimLeft(line) == line && line[0] == Normalize(schedule)[0]
  {
    var line := TaskLine(schedule, command);
    FieldsAreTokens(schedule);
    AcceptedFields(schedule, command);
    TrimEnds(command);
    JoinStarts(Fields(schedule));
    assert line[0] == Normalize(schedule)[0] && line[|line| - 1] == Trim(command)[|Trim(command)| - 1];
    TrimKeeps(line);
  }

  lemma AcceptedMacroMatches(schedule: string, command: string)
    requires ValidInput(schedule, command) && "@" <= Normalize(schedule)
    ensures StartsWithMacro(TaskLine(schedule, command))
  {
    var line := TaskLine(schedule, command);
    var i :| 0 <= i < |MACROS| && MACROS[i] == Normalize(schedule);
    assert MACROS[i] <= line && line[|MACROS[i]|] == ' ';
  }

  /** Accepted input makes a line that reads back as exactly the normalised schedule and trimmed command. */
  lemma AcceptedInputParses(schedule: string, command: string)
    requires ValidInput(schedule, command)
    ensures var line := TaskLine(schedule, command);
            && Trim(line) == line && line != ""
            && ParseJob(line) == Some(Job(Normalize(schedule), Trim(command)))
  {
    AcceptedLineIsTrimmed(schedule, command);
    AcceptedFields(schedule, command);
    FieldsAreTokens(schedule);
    TrimEnds(command);
    ScanOfJoin(Fields(schedule), Trim(command));
    if "@" <= Normalize(schedule) {
      AcceptedMacroMatches(schedule, command);
    }
  }

  /** One field for a macro, five otherwise. */
  lemma AcceptedFields(schedule: string, command: string)
    requires ValidInput(schedule, command)
    ensures |Fields(schedule)| == if "@" <= Normalize(schedule) then 1 else 5
  {
    NormalizeTwice(schedule);
    if "@" <= Normalize(schedule) {
      var i :| 0 <= i < |MACROS| && MACROS[i] == Normalize(schedule);
      MacroIsToken(i);
      FieldsOfJoin([MACROS[i]]);
    }
  }
}
