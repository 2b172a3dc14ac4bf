/** Crontab lines as the editor gets them: the output of crontab is made valid UTF-8 before it is cut. */
module CronEncoding {
  import opened Strings
  import opened Base64
  import opened Utf8
  import opened CronText
  import opened CronSyntax

  function LinesOf(content: string): seq<string> {
    SplitContent(Repaired(content))
  }

  function RepairAll(lines: seq<string>): seq<string> {
    seq(|lines|, i requires 0 <= i < |lines| => Repaired(lines[i]))
  }

  predicate AreUtf8(lines: seq<string>) {
    forall i | 0 <= i < |lines| :: IsUtf8(lines[i])
  }

  lemma RepairAllIsUtf8(lines: seq<string>)
    ensures AreUtf8(RepairAll(lines)) && (RepairAll(lines) == lines <==> AreUtf8(lines))
  {
    forall i | 0 <= i < |lines| ensures IsUtf8(Repaired(lines[i])) && (Repaired(lines[i]) == lines[i] <==> IsUtf8(lines[i])) {
      RepairedExactly(lines[i]);
    }
    if RepairAll(lines) == lines {
      forall i | 0 <= i < |lines| ensures IsUtf8(lines[i]) { assert RepairAll(lines)[i] == lines[i]; }
    }
  }

  // ---------- Repair goes line by line ----------

  lemma {:induction false} FirstBreak(s: string) returns (head: string, rest: string)
    requires '\n' in s
    ensures s == head + ['\n'] + rest && '\n' !in head && |rest| < |s|
  {
    if s[0] == '\n' {
      head, rest := "", s[1..];
    } else {
      assert s == [s[0]] + s[1..];
      head, rest := FirstBreak(s[1..]);
      head := [s[0]] + head;
    }
  }

  lemma {:induction false} RepairedSplit(s: string)
    ensures Split(Repaired(s)) == RepairAll(Split(s))
    decreases |s|
  {
    if '\n' in s {
      var head, rest := FirstBreak(s);
      RepairedSplit(rest);
      RepairAround(head, '\n', rest, false);
      RepairStaysWithin(head, false);
      SplitAtBreak(head, rest);
      SplitAtBreak(Repaired(head), Repaired(rest));
      OneLineRepaired(head, Split(rest));
    } else {
      RepairStaysWithin(s, false);
      SplitOneLine(s);
      SplitOneLine(Repaired(s));
    }
  }

  lemma OneLineRepaired(line: string, rest: seq<string>)
    ensures RepairAll([line] + rest) == [Repaired(line)] + RepairAll(rest)
  {
  }

  /** The lines of a file, from its pieces between line breaks. */
  function WithoutEnd(pieces: seq<string>): seq<string>
    requires pieces != []
  {
    var lines := if pieces[|pieces| - 1] == "" then pieces[..|pieces| - 1] else pieces;
    if lines == [""] then [] else lines
  }

  lemma {:induction false} SplitOfEnded(t: string)
    ensures Split(t + "\n") == Split(t) + [""]
  {
    if t == "" {
      assert "" + "\n" == "\n" && "\n"[1..] == "";
    } else {
      assert (t + "\n")[1..] == t[1..] + "\n";
      SplitOfEnded(t[1..]);
    }
  }

  lemma {:induction false} LastPiece(s: string)
    requires s != "" && s[|s| - 1] != '\n'
    ensures Split(s)[|Split(s)| - 1] != ""
  {
    if |s| > 1 {
      LastPiece(s[1..]);
    }
  }

  lemma OneEmptyPiece(s: string)
    ensures Split(s) == [""] <==> s == ""
  {
    if s != "" && s[0] == '\n' {
      assert |Split(s)| > 1;
    } else if s != "" {
      assert Split(s)[0] != "";
    }
  }

  lemma EndedPieces(lines: seq<string>)
    ensures WithoutEnd(lines + [""]) == if lines == [""] then [] else lines
  {
  }

  lemma UnendedPieces(lines: seq<string>)
    requires lines != [] && lines[|lines| - 1] != ""
    ensures WithoutEnd(lines) == lines
  {
  }

  lemma EndedText(t: string)
    ensures WithoutEnd(Split(t + "\n")) == if t == "" then [] else Split(t)
  {
    SplitOfEnded(t);
    OneEmptyPiece(t);
    EndedPieces(Split(t));
  }

  lemma UnendedText(s: string)
    requires s == "" || s[|s| - 1] != '\n'
    ensures WithoutEnd(Split(s)) == if s == "" then [] else Split(s)
  {
    if s == "" {
      assert Split(s) == [""];
    } else {
      LastPiece(s);
      UnendedPieces(Split(s));
    }
  }

  lemma ContentIsPieces(content: string)
    ensures SplitContent(content) == WithoutEnd(Split(UnixBreaks(content)))
  {
    var s := UnixBreaks(content);
    if s != "" && s[|s| - 1] == '\n' {
      var t := s[..|s| - 1];
      assert s == t + "\n";
      EndedText(t);
    } else {
      UnendedText(s);
    }
  }

  lemma WithoutEndRepaired(pieces: seq<string>)
    requires pieces != []
    ensures WithoutEnd(RepairAll(pieces)) == RepairAll(WithoutEnd(pieces))
  {
    var n := |pieces| - 1;
    RepairedIsEmpty(pieces[n]);
    RepairedIsEmpty(pieces[0]);
    assert RepairAll(pieces)[n] == Repaired(pieces[n]) && RepairAll(pieces)[0] == Repaired(pieces[0]);
    assert RepairAll(pieces)[..n] == RepairAll(pieces[..n]);
  }

  lemma RepairedHasNoReturns(content: string)
    requires '\r' !in content
    ensures '\r' !in Repaired(content)
  {
    RepairStaysWithin(content, false);
  }

  /** The editor gets each line of the file repaired on its own, and so just the valid ones as they are. */
  lemma LinesAreRepaired(content: string)
    requires '\r' !in content
    ensures LinesOf(content) == RepairAll(SplitContent(content)) && AreUtf8(LinesOf(content))
  {
    RepairedHasNoReturns(content);
    NoReturnsNoChange(content);
    NoReturnsNoChange(Repaired(content));
    ContentIsPieces(content);
    ContentIsPieces(Repaired(content));
    RepairedSplit(content);
    WithoutEndRepaired(Split(content));
    RepairAllIsUtf8(SplitContent(content));
  }

  // ---------- Files are as valid as their lines ----------

  lemma FirstIsUtf8(line: string, rest: seq<string>)
    ensures AreUtf8([line] + rest) <==> IsUtf8(line) && AreUtf8(rest)
  {
    var lines := [line] + rest;
    assert lines[0] == line;
    forall i | 0 <= i < |lines| ensures lines[i] == if i == 0 then line else rest[i - 1] {}
    forall i | 0 <= i < |rest| ensures rest[i] == lines[i + 1] {}
  }

  lemma {:induction false} JoinIsUtf8(lines: seq<string>, c: char)
    requires Within(c, 0, 0x7F)
    ensures IsUtf8(Join(lines, [c])) <==> AreUtf8(lines)
  {
    if |lines| > 1 {
      var rest := lines[1..];
      JoinIsUtf8(rest, c);
      Utf8Around(lines[0], c, Join(rest, [c]));
      FirstIsUtf8(lines[0], rest);
      assert lines == [lines[0]] + rest;
    }
  }

  lemma RenderIsUtf8(lines: seq<string>)
    ensures IsUtf8(Render(lines)) <==> AreUtf8(lines)
  {
    if lines != [] {
      var text := Join(lines, "\n");
      JoinIsUtf8(lines, '\n');
      Utf8Around(text, '\n', "");
      assert text + ['\n'] + "" == Render(lines);
    }
  }

  lemma {:induction false} SplitIsUtf8(s: string)
    ensures IsUtf8(s) <==> AreUtf8(Split(s))
    decreases |s|
  {
    if '\n' in s {
      var head, rest := FirstBreak(s);
      Utf8Around(head, '\n', rest);
      SplitAtBreak(head, rest);
      SplitIsUtf8(rest);
      FirstIsUtf8(head, Split(rest));
    } else {
      SplitOneLine(s);
      assert Split(s)[0] == s;
    }
  }

  /** What the editor gets back of lines that were installed. */
  lemma InstalledLines(lines: seq<string>)
    requires AreLines(lines)
    ensures LinesOf(Render(lines)) == RepairAll(if lines == [""] then [] else lines)
  {
    RenderRoundTrip(lines);
    assert '\r' !in Render(lines) by { if lines != [] { JoinHasNoReturns(lines); } }
    LinesAreRepaired(Render(lines));
  }

  /** Valid lines make a valid file, and come back from it. */
  lemma ValidLinesStand(lines: seq<string>)
    requires AreLines(lines) && AreUtf8(lines) && lines != [""]
    ensures LinesOf(Render(lines)) == lines == SplitContent(Render(lines)) && IsUtf8(Render(lines))
  {
    RenderRoundTrip(lines);
    InstalledLines(lines);
    RepairAllIsUtf8(lines);
    RenderIsUtf8(lines);
  }

  /** A file without carriage returns comes to the editor as it is exactly when it is valid. */
  lemma LinesAsTheyAre(content: string)
    requires '\r' !in content
    ensures LinesOf(content) == SplitContent(content) <==> IsUtf8(content)
  {
    LinesAreRepaired(content);
    RepairAllIsUtf8(SplitContent(content));
    NoReturnsNoChange(content);
    ContentIsPieces(content);
    SplitIsUtf8(content);
    SamePieces(Split(content));
  }

  lemma SamePieces(pieces: seq<string>)
    requires pieces != []
    ensures AreUtf8(WithoutEnd(pieces)) <==> AreUtf8(pieces)
  {
    var n := |pieces| - 1;
    assert IsUtf8("");
    if AreUtf8(WithoutEnd(pieces)) {
      forall i | 0 <= i < |pieces| ensures IsUtf8(pieces[i]) {
        if i < n || pieces[n] != "" {
          if WithoutEnd(pieces) != [] { assert WithoutEnd(pieces)[i] == pieces[i]; }
        }
      }
    }
  }

  // ---------- What the editor writes is valid ----------

  lemma AsciiTogether(a: string, b: string)
    requires IsAscii(a) && IsAscii(b)
    ensures IsAscii(a + b)
  {
  }

  lemma UuidIsAscii(id: string)
    requires IsUuid(id)
    ensures IsAscii(STEM + " " + id)
  {
    assert IsAscii(STEM) && IsAscii(" ");
    forall c | c in id ensures Within(c, 0, 0x7F) {
      var i :| 0 <= i < |id| && id[i] == c;
    }
  }

  lemma MarkersAreUtf8(id: string, line: string)
    requires IsUuid(id)
    ensures IsUtf8(ActiveMarker(id)) && IsUtf8(SuspendedMarker(id, line))
  {
    UuidIsAscii(id);
    EncodeStaysInAlphabet(Bytes(line));
    AlphabetIsAscii(EncodeText(line));
    AsciiTogether(STEM + " " + id, " ACTIVE");
    AsciiTogether(STEM + " " + id, " SUSPENDED ");
    AsciiTogether(STEM + " " + id + " SUSPENDED ", EncodeText(line));
    AsciiIsUtf8(ActiveMarker(id));
    AsciiIsUtf8(SuspendedMarker(id, line));
  }

  lemma AlphabetIsAscii(s: string)
    requires InAlphabet(s)
    ensures IsAscii(s)
  {
    forall c | c in s ensures Within(c, 0, 0x7F) { assert Value(c).Some?; }
  }

  lemma {:induction false} TrimLeftIsUtf8(s: string)
    ensures IsUtf8(TrimLeft(s)) <==> IsUtf8(s)
  {
    if s != "" && IsSpace(s[0]) {
      TrimLeftIsUtf8(s[1..]);
      Utf8Around("", s[0], s[1..]);
      assert "" + [s[0]] + s[1..] == s;
    }
  }

  lemma {:induction false} TrimRightIsUtf8(s: string)
    ensures IsUtf8(TrimRight(s)) <==> IsUtf8(s)
  {
    if s != "" && IsSpace(s[|s| - 1]) {
      var n := |s| - 1;
      TrimRightIsUtf8(s[..n]);
      Utf8Around(s[..n], s[n], "");
      assert s[..n] + [s[n]] + "" == s;
    }
  }

  lemma TrimIsUtf8(s: string)
    ensures IsUtf8(Trim(s)) <==> IsUtf8(s)
  {
    TrimLeftIsUtf8(s);
    TrimRightIsUtf8(TrimLeft(s));
  }

  lemma TokenIsUtf8(s: string)
    ensures IsUtf8(s) <==> IsUtf8(Token(s)) && IsUtf8(AfterToken(s))
  {
    TokenIsPrefix(s);
    var t, rest := Token(s), AfterToken(s);
    assert s == t + rest;
    if rest != "" {
      Utf8Around(t, rest[0], rest[1..]);
      Utf8Around("", rest[0], rest[1..]);
      assert t + [rest[0]] + rest[1..] == s && "" + [rest[0]] + rest[1..] == rest;
    } else {
      assert s == t;
    }
  }

  lemma {:induction false} FieldsAreUtf8(s: string)
    requires IsUtf8(s)
    ensures AreUtf8(Fields(s))
    decreases |s|
  {
    TrimLeftIsSuffix(s);
    TrimLeftIsUtf8(s);
    var t := TrimLeft(s);
    if t != "" {
      TokenIsUtf8(t);
      TokenIsPrefix(t);
      FieldsAreUtf8(AfterToken(t));
      FirstIsUtf8(Token(t), Fields(AfterToken(t)));
    }
  }

  lemma TaskLineIsUtf8(schedule: string, command: string)
    requires IsUtf8(schedule) && IsUtf8(command)
    ensures IsUtf8(TaskLine(schedule, command))
  {
    FieldsAreUtf8(schedule);
    JoinIsUtf8(Fields(schedule), ' ');
    TrimIsUtf8(command);
    Utf8Around(Normalize(schedule), ' ', Trim(command));
  }
}
