/** Crontab text: white space, fields, lines, and the joining of lines into a file.

    A string is a sequence of bytes, one `char` below 256 each. White space is the
    space and the tab; no line holds a carriage return.
 */
module CronText {
  import opened Wrappers
  import opened Strings
  import opened Base64

  predicate IsSpace(c: char) {
    c == ' ' || c == '\t'
  }

  function TrimLeft(s: string): string {
    if s != "" && IsSpace(s[0]) then TrimLeft(s[1..]) else s
  }

  function TrimRight(s: string): string {
    if s != "" && IsSpace(s[|s| - 1]) then TrimRight(s[..|s| - 1]) else s
  }

  function Trim(s: string): string {
    TrimRight(TrimLeft(s))
  }

  /** The longest run of other characters a text starts with. */
  function Token(s: string): string {
    if s != "" && !IsSpace(s[0]) then [s[0]] + Token(s[1..]) else ""
  }

  lemma {:induction false} TokenIsPrefix(s: string)
    ensures Token(s) <= s && |Token(s)| <= |s|
    ensures |Token(s)| < |s| ==> IsSpace(s[|Token(s)|])
    ensures forall c | c in Token(s) :: !IsSpace(c)
  {
    if s != "" && !IsSpace(s[0]) {
      TokenIsPrefix(s[1..]);
    }
  }

  function AfterToken(s: string): (r: string)
    ensures |r| <= |s| && (Token(s) != "" ==> |r| < |s|)
  {
    TokenIsPrefix(s);
    s[|Token(s)|..]
  }

  lemma {:induction false} TrimLeftIsSuffix(s: string)
    ensures |TrimLeft(s)| <= |s| && TrimLeft(s) == s[|s| - |TrimLeft(s)|..]
    ensures TrimLeft(s) != "" ==> !IsSpace(TrimLeft(s)[0])
    ensures forall i | 0 <= i < |s| - |TrimLeft(s)| :: IsSpace(s[i])
  {
    if s != "" && IsSpace(s[0]) {
      var rest := s[1..];
      TrimLeftIsSuffix(rest);
      var k := |rest| - |TrimLeft(rest)|;
      assert rest[k..] == s[k + 1..];
      forall i | 0 <= i < k + 1 ensures IsSpace(s[i]) {
        if i > 0 { assert s[i] == rest[i - 1]; }
      }
    } else {
      assert s[0..] == s;
    }
  }

  lemma {:induction false} TrimRightIsPrefix(s: string)
    ensures |TrimRight(s)| <= |s| && TrimRight(s) == s[..|TrimRight(s)|]
    ensures TrimRight(s) != "" ==> !IsSpace(TrimRight(s)[|TrimRight(s)| - 1])
    ensures forall i | |TrimRight(s)| <= i < |s| :: IsSpace(s[i])
  {
    if s != "" && IsSpace(s[|s| - 1]) {
      TrimRightIsPrefix(s[..|s| - 1]);
    }
  }

  /** A text that begins and ends with other characters is its own trimming. */
  lemma TrimKeeps(s: string)
    requires s != "" ==> !IsSpace(s[0]) && !IsSpace(s[|s| - 1])
    ensures Trim(s) == s
  {
  }

  lemma TrimEnds(s: string)
    ensures Trim(s) != "" ==> !IsSpace(Trim(s)[0]) && !IsSpace(Trim(s)[|Trim(s)| - 1])
    ensures forall c | c in Trim(s) :: c in s
  {
    TrimLeftIsSuffix(s);
    TrimRightIsPrefix(TrimLeft(s));
  }

  function Fields(s: string): seq<string>
    decreases |s|
  {
    TrimLeftIsSuffix(s);
    var t := TrimLeft(s);
    if t == "" then [] else [Token(t)] + Fields(AfterToken(t))
  }

  function Normalize(schedule: string): string {
    Join(Fields(schedule), " ")
  }

  /** A token: not empty, no white space. */
  predicate IsToken(t: string) {
    t != "" && forall c | c in t :: !IsSpace(c)
  }

  lemma {:induction false} TokenOf(t: string, rest: string)
    requires IsToken(t) && (rest == "" || IsSpace(rest[0]))
    ensures Token(t + rest) == t && AfterToken(t + rest) == rest
    decreases |t|
  {
    assert (t + rest)[0] == t[0] && t[0] in t;
    assert (t + rest)[1..] == t[1..] + rest;
    if |t| > 1 {
      assert forall c | c in t[1..] :: c in t;
      TokenOf(t[1..], rest);
    } else {
      assert t == [t[0]];
      assert t[1..] + rest == rest;
    }
    assert t == [t[0]] + t[1..];
  }

  /** Fields are tokens, and splitting their normal form gives them back. */
  lemma {:induction false} FieldsAreTokens(s: string)
    ensures forall i | 0 <= i < |Fields(s)| :: IsToken(Fields(s)[i])
    decreases |s|
  {
    TrimLeftIsSuffix(s);
    var t := TrimLeft(s);
    if t != "" {
      TokenIsPrefix(t);
      FieldsAreTokens(AfterToken(t));
      var rest := Fields(AfterToken(t));
      assert Fields(s) == [Token(t)] + rest;
    }
  }

  lemma {:induction false} JoinStarts(parts: seq<string>)
    requires parts != [] && forall i | 0 <= i < |parts| :: IsToken(parts[i])
    ensures Join(parts, " ") != "" && !IsSpace(Join(parts, " ")[0])
    ensures parts[0] <= Join(parts, " ")
    ensures !IsSpace(Join(parts, " ")[|Join(parts, " ")| - 1])
  {
    assert parts[0][0] in parts[0] && parts[0][|parts[0]| - 1] in parts[0];
    if |parts| > 1 {
      JoinStarts(parts[1..]);
    }
  }

  lemma {:induction false} FieldsOfJoin(parts: seq<string>)
    requires forall i | 0 <= i < |parts| :: IsToken(parts[i])
    ensures Fields(Join(parts, " ")) == parts
  {
    if parts != [] {
      JoinStarts(parts);
      var s := Join(parts, " ");
      if |parts| == 1 {
        TokenOf(parts[0], "");
        assert s == parts[0] + "";
      } else {
        var rest := " " + Join(parts[1..], " ");
        assert s == parts[0] + rest;
        TokenOf(parts[0], rest);
        FieldsOfJoin(parts[1..]);
        JoinStarts(parts[1..]);
        assert rest[1..] == Join(parts[1..], " ");
        assert Fields(rest) == Fields(rest[1..]);
        assert parts == [parts[0]] + parts[1..];
      }
    }
  }

  lemma NormalizeTwice(s: string)
    ensures Normalize(Normalize(s)) == Normalize(s) && Fields(Normalize(s)) == Fields(s)
  {
    FieldsAreTokens(s);
    FieldsOfJoin(Fields(s));
  }

  predicate WithinAndSpaces(s: string, source: string) {
    forall c | c in s :: c in source || c == ' '
  }

  lemma {:induction false} FieldsStayWithin(s: string)
    ensures forall i | 0 <= i < |Fields(s)| :: WithinAndSpaces(Fields(s)[i], s)
    decreases |s|
  {
    TrimLeftIsSuffix(s);
    var t := TrimLeft(s);
    if t != "" {
      TokenIsPrefix(t);
      FieldsStayWithin(AfterToken(t));
      assert Fields(s) == [Token(t)] + Fields(AfterToken(t));
    }
  }

  lemma {:induction false} JoinStaysWithin(parts: seq<string>, source: string)
    requires forall i | 0 <= i < |parts| :: WithinAndSpaces(parts[i], source)
    ensures WithinAndSpaces(Join(parts, " "), source)
  {
    if |parts| > 1 {
      JoinStaysWithin(parts[1..], source);
    }
  }

  /** Normalising brings in no other character than the space. */
  lemma NormalizeStaysWithin(s: string)
    ensures WithinAndSpaces(Normalize(s), s)
  {
    FieldsStayWithin(s);
    JoinStaysWithin(Fields(s), s);
  }

  // ---------- Bytes ----------

  predicate IsBytes(s: string) {
    forall c | c in s :: c as int < 256
  }

  function Bytes(s: string): seq<byte> {
    seq(|s|, i requires 0 <= i < |s| => s[i] as int % 256)
  }

  function Text(b: seq<byte>): string {
    seq(|b|, i requires 0 <= i < |b| => b[i] as char)
  }

  lemma TextOfBytes(s: string)
    requires IsBytes(s)
    ensures Text(Bytes(s)) == s
  {
    forall i | 0 <= i < |s| ensures Text(Bytes(s))[i] == s[i] {
      assert s[i] in s;
    }
  }

  function EncodeText(s: string): string {
    Encode(Bytes(s))
  }

  function DecodeText(s: string): Option<string> {
    var b := Decode(s, false);
    if b.None? then None else Some(Text(b.value))
  }

  lemma TextRoundTrip(s: string)
    requires IsBytes(s)
    ensures DecodeText(EncodeText(s)) == Some(s)
    ensures InAlphabet(EncodeText(s)) && (s != "" ==> EncodeText(s) != "")
  {
    RoundTrip(Bytes(s), false);
    EncodeStaysInAlphabet(Bytes(s));
    TextOfBytes(s);
  }

  // ---------- Lines ----------

  function UnixBreaks(s: string): string {
    if s == "" then ""
    else if |s| >= 2 && s[0] == '\r' && s[1] == '\n' then "\n" + UnixBreaks(s[2..])
    else [s[0]] + UnixBreaks(s[1..])
  }

  function Split(s: string): (lines: seq<string>)
    ensures lines != []
  {
    if s == "" then [""]
    else if s[0] == '\n' then [""] + Split(s[1..])
    else
      var rest := Split(s[1..]);
      [[s[0]] + rest[0]] + rest[1..]
  }

  /** The file without its last line break, cut at the others. */
  function SplitContent(content: string): seq<string> {
    var s := UnixBreaks(content);
    var t := if s != "" && s[|s| - 1] == '\n' then s[..|s| - 1] else s;
    if t == "" then [] else Split(t)
  }

  function Render(lines: seq<string>): string {
    if lines == [] then "" else Join(lines, "\n") + "\n"
  }

  predicate OneLine(s: string) {
    '\n' !in s && '\r' !in s
  }

  predicate AreLines(lines: seq<string>) {
    forall i | 0 <= i < |lines| :: OneLine(lines[i])
  }

  lemma {:induction false} NoReturnsNoChange(s: string)
    requires '\r' !in s
    ensures UnixBreaks(s) == s
  {
    if s != "" {
      assert s[0] in s;
      NoReturnsNoChange(s[1..]);
    }
  }

  lemma {:induction false} JoinHasNoReturns(lines: seq<string>)
    requires AreLines(lines)
    ensures '\r' !in Join(lines, "\n")
  {
    if |lines| > 1 {
      JoinHasNoReturns(lines[1..]);
    }
  }

  lemma {:induction false} SplitOneLine(s: string)
    requires '\n' !in s
    ensures Split(s) == [s]
  {
    if s != "" {
      assert s[0] in s && s == [s[0]] + s[1..];
      SplitOneLine(s[1..]);
    }
  }

  lemma {:induction false} SplitAtBreak(s: string, rest: string)
    requires '\n' !in s
    ensures Split(s + "\n" + rest) == [s] + Split(rest)
  {
    if s == "" {
      assert s + "\n" + rest == "\n" + rest;
      assert ("\n" + rest)[1..] == rest;
    } else {
      assert s[0] in s && s == [s[0]] + s[1..];
      assert (s + "\n" + rest)[1..] == s[1..] + "\n" + rest;
      SplitAtBreak(s[1..], rest);
    }
  }

  lemma {:induction false} SplitOfJoin(lines: seq<string>)
    requires lines != [] && AreLines(lines)
    ensures Split(Join(lines, "\n")) == lines
  {
    if |lines| == 1 {
      SplitOneLine(lines[0]);
    } else {
      SplitAtBreak(lines[0], Join(lines[1..], "\n"));
      SplitOfJoin(lines[1..]);
      assert lines[0] + "\n" + Join(lines[1..], "\n") == Join(lines, "\n");
    }
  }

  /** Reading back an installed file gives its lines; only a single blank line is lost. */
  lemma RenderRoundTrip(lines: seq<string>)
    requires AreLines(lines)
    ensures SplitContent(Render(lines)) == if lines == [""] then [] else lines
  {
    if lines != [] {
      var s := Join(lines, "\n");
      JoinHasNoReturns(lines);
      NoReturnsNoChange(Render(lines));
      assert Render(lines)[..|s|] == s;
      SplitOfJoin(lines);
      if s == "" {
        assert Split(s) == [""];
      }
    }
  }

  lemma {:induction false} SplitGivesLines(s: string)
    requires '\r' !in s
    ensures AreLines(Split(s))
  {
    if s != "" {
      SplitGivesLines(s[1..]);
      assert s[0] in s;
    }
  }

  /** Any file without carriage returns is cut into proper lines. */
  lemma SplitContentGivesLines(content: string)
    requires '\r' !in content
    ensures AreLines(SplitContent(content))
  {
    NoReturnsNoChange(content);
    var t := if content != "" && content[|content| - 1] == '\n' then content[..|content| - 1] else content;
    SplitGivesLines(t);
  }
}
