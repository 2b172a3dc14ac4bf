/** Unpadded base64 with the URL-safe alphabet, section 5 of RFC 4648 with section 3.2. */
module Base64 {
  import opened Wrappers

  type byte = x: int | 0 <= x < 256

  type digit = x: int | 0 <= x < 64

  function Char(d: digit): char {
    if d < 26 then (d + 'A' as int) as char
    else if d < 52 then (d - 26 + 'a' as int) as char
    else if d < 62 then (d - 52 + '0' as int) as char
    else if d == 62 then '-' else '_'
  }

  function Value(c: char): Option<digit> {
    if 'A' <= c <= 'Z' then Some(c as int - 'A' as int)
    else if 'a' <= c <= 'z' then Some(c as int - 'a' as int + 26)
    else if '0' <= c <= '9' then Some(c as int - '0' as int + 52)
    else if c == '-' then Some(62) else if c == '_' then Some(63) else None
  }

  predicate InAlphabet(s: string) {
    forall c | c in s :: Value(c).Some?
  }

  function Encode(b: seq<byte>): string {
    if |b| == 0 then ""
    else if |b| == 1 then [Char(b[0] / 4), Char(b[0] % 4 * 16)]
    else if |b| == 2 then [Char(b[0] / 4), Char(b[0] % 4 * 16 + b[1] / 16), Char(b[1] % 16 * 4)]
    else [Char(b[0] / 4), Char(b[0] % 4 * 16 + b[1] / 16), Char(b[1] % 16 * 4 + b[2] / 64), Char(b[2] % 64)]
         + Encode(b[3..])
  }

  /** Strict decoding also refuses a last digit with stray low bits. */
  function DecodeDigits(s: string, strict: bool): Option<seq<byte>> {
    if |s| == 0 then Some([])
    else if |s| == 1 || Value(s[0]).None? || Value(s[1]).None? then None
    else
      var a, b := Value(s[0]).value, Value(s[1]).value;
      if |s| == 2 then
        if strict && b % 16 != 0 then None else Some([a * 4 + b / 16])
      else if Value(s[2]).None? then None
      else
        var c := Value(s[2]).value;
        if |s| == 3 then
          if strict && c % 4 != 0 then None else Some([a * 4 + b / 16, b % 16 * 16 + c / 4])
        else if Value(s[3]).None? then None
        else
          var rest := DecodeDigits(s[4..], strict);
          if rest.None? then None
          else Some([a * 4 + b / 16, b % 16 * 16 + c / 4, c % 4 * 64 + Value(s[3]).value] + rest.value)
  }

  function WithoutLineBreaks(s: string): string {
    if s == "" then ""
    else (if s[0] == '\n' || s[0] == '\r' then "" else [s[0]]) + WithoutLineBreaks(s[1..])
  }

  /** Line breaks inside the text are ignored. */
  function Decode(s: string, strict: bool): Option<seq<byte>> {
    DecodeDigits(WithoutLineBreaks(s), strict)
  }

  lemma CharValue(d: digit)
    ensures Value(Char(d)) == Some(d)
  {
  }

  lemma ValueChar(c: char)
    requires Value(c).Some?
    ensures Char(Value(c).value) == c
  {
  }

  lemma {:induction false} EncodeStaysInAlphabet(b: seq<byte>)
    ensures InAlphabet(Encode(b))
    ensures |Encode(b)| == (4 * |b| + 2) / 3
  {
    forall d: digit ensures Value(Char(d)).Some? { CharValue(d); }
    if |b| >= 3 {
      EncodeStaysInAlphabet(b[3..]);
    }
  }

  lemma {:induction false} DigitsHaveNoLineBreaks(s: string)
    requires InAlphabet(s)
    ensures WithoutLineBreaks(s) == s
  {
    if s != "" {
      assert s[0] in s && InAlphabet(s[1..]);
      DigitsHaveNoLineBreaks(s[1..]);
    }
  }

  /** Three bytes come back from their four digits. */
  lemma Regroup(x: byte, y: byte, z: byte)
    ensures var a, b, c, d := x / 4, x % 4 * 16 + y / 16, y % 16 * 4 + z / 64, z % 64;
            && 0 <= a < 64 && 0 <= b < 64 && 0 <= c < 64 && 0 <= d < 64
            && a * 4 + b / 16 == x && b % 16 * 16 + c / 4 == y && c % 4 * 64 + d == z
  {
  }

  /** Four digits come back from their three bytes. */
  lemma Ungroup(a: digit, b: digit, c: digit, d: digit)
    ensures var x, y, z := a * 4 + b / 16, b % 16 * 16 + c / 4, c % 4 * 64 + d;
            && 0 <= x < 256 && 0 <= y < 256 && 0 <= z < 256
            && x / 4 == a && x % 4 * 16 + y / 16 == b && y % 16 * 4 + z / 64 == c && z % 64 == d
  {
  }

  lemma GroupReads(s: string, a: digit, b: digit, c: digit, d: digit, rest: string, strict: bool)
    requires |s| >= 4 && s[4..] == rest
    requires Value(s[0]) == Some(a) && Value(s[1]) == Some(b) && Value(s[2]) == Some(c) && Value(s[3]) == Some(d)
    ensures DecodeDigits(s, strict) ==
              if DecodeDigits(rest, strict).None? then None
              else Some([a * 4 + b / 16, b % 16 * 16 + c / 4, c % 4 * 64 + d] + DecodeDigits(rest, strict).value)
  {
  }

  lemma GroupDecodes(a: digit, b: digit, c: digit, d: digit, rest: string, strict: bool)
    ensures var s := [Char(a), Char(b), Char(c), Char(d)] + rest;
            DecodeDigits(s, strict) ==
              if DecodeDigits(rest, strict).None? then None
              else Some([a * 4 + b / 16, b % 16 * 16 + c / 4, c % 4 * 64 + d] + DecodeDigits(rest, strict).value)
  {
    var s := [Char(a), Char(b), Char(c), Char(d)] + rest;
    CharValue(a);
    CharValue(b);
    CharValue(c);
    CharValue(d);
    GroupReads(s, a, b, c, d, rest, strict);
  }

  lemma OneDecodes(b: seq<byte>, strict: bool)
    requires |b| == 1
    ensures DecodeDigits(Encode(b), strict) == Some(b)
  {
    CharValue(b[0] / 4);
    CharValue(b[0] % 4 * 16);
    assert b == [b[0]];
  }

  lemma TwoDecode(b: seq<byte>, strict: bool)
    requires |b| == 2
    ensures DecodeDigits(Encode(b), strict) == Some(b)
  {
    Regroup(b[0], b[1], 0);
    CharValue(b[0] / 4);
    CharValue(b[0] % 4 * 16 + b[1] / 16);
    CharValue(b[1] % 16 * 4);
    assert b == [b[0], b[1]];
  }

  lemma FirstDigits(b: seq<byte>) returns (w: digit, x: digit, y: digit, z: digit)
    requires |b| >= 3
    ensures Encode(b) == [Char(w), Char(x), Char(y), Char(z)] + Encode(b[3..])
    ensures [w * 4 + x / 16, x % 16 * 16 + y / 4, y % 4 * 64 + z] == [b[0] as int, b[1] as int, b[2] as int]
  {
    Regroup(b[0], b[1], b[2]);
    w, x, y, z := b[0] / 4, b[0] % 4 * 16 + b[1] / 16, b[1] % 16 * 4 + b[2] / 64, b[2] % 64;
  }

  lemma {:induction false} DigitsRoundTrip(b: seq<byte>, strict: bool)
    ensures DecodeDigits(Encode(b), strict) == Some(b)
  {
    if |b| >= 3 {
      DigitsRoundTrip(b[3..], strict);
      var w, x, y, z := FirstDigits(b);
      GroupDecodes(w, x, y, z, Encode(b[3..]), strict);
      assert b == [b[0], b[1], b[2]] + b[3..];
    } else if |b| == 2 {
      TwoDecode(b, strict);
    } else if |b| == 1 {
      OneDecodes(b, strict);
    }
  }

  /** Decoding undoes encoding, strictly or not. */
  lemma RoundTrip(b: seq<byte>, strict: bool)
    ensures Decode(Encode(b), strict) == Some(b)
  {
    EncodeStaysInAlphabet(b);
    DigitsHaveNoLineBreaks(Encode(b));
    DigitsRoundTrip(b, strict);
  }

  lemma PairEncodes(s: string)
    requires |s| == 2 && DecodeDigits(s, true).Some?
    ensures Encode(DecodeDigits(s, true).value) == s
  {
    ValueChar(s[0]);
    ValueChar(s[1]);
    Ungroup(Value(s[0]).value, Value(s[1]).value, 0, 0);
    assert s == [s[0], s[1]];
  }

  lemma TripleEncodes(s: string)
    requires |s| == 3 && DecodeDigits(s, true).Some?
    ensures Encode(DecodeDigits(s, true).value) == s
  {
    var a, b, c := Value(s[0]).value, Value(s[1]).value, Value(s[2]).value;
    var x: byte, y: byte := a as int * 4 + b / 16, b as int % 16 * 16 + c / 4;
    assert DecodeDigits(s, true).value == [x, y];
    assert x / 4 == a && x % 4 * 16 + y / 16 == b && y % 16 * 4 == c by {
      assert c % 4 == 0;
      Ungroup(a, b, c, 0);
    }
    EncodesPair(x, y, a, b, c);
    ValueChar(s[0]);
    ValueChar(s[1]);
    ValueChar(s[2]);
  }

  lemma EncodesPair(x: byte, y: byte, a: digit, b: digit, c: digit)
    requires x / 4 == a && x % 4 * 16 + y / 16 == b && y % 16 * 4 == c
    ensures Encode([x, y]) == [Char(a), Char(b), Char(c)]
  {
  }

  lemma EncodesGroup(x: byte, y: byte, z: byte, a: digit, b: digit, c: digit, d: digit, rest: seq<byte>)
    requires x / 4 == a && x % 4 * 16 + y / 16 == b && y % 16 * 4 + z / 64 == c && z % 64 == d
    ensures Encode([x, y, z] + rest) == [Char(a), Char(b), Char(c), Char(d)] + Encode(rest)
  {
    assert ([x, y, z] + rest)[3..] == rest;
  }

  lemma CharsOf(s: string)
    requires |s| >= 4 && InAlphabet(s[..4])
    ensures s[..4] == [Char(Value(s[0]).value), Char(Value(s[1]).value), Char(Value(s[2]).value), Char(Value(s[3]).value)]
  {
    assert s[0] in s[..4] && s[1] in s[..4] && s[2] in s[..4] && s[3] in s[..4];
    ValueChar(s[0]);
    ValueChar(s[1]);
    ValueChar(s[2]);
    ValueChar(s[3]);
  }

  lemma GroupEncodes(s: string)
    requires |s| >= 4 && DecodeDigits(s, true).Some?
    ensures DecodeDigits(s[4..], true).Some?
    ensures Encode(DecodeDigits(s, true).value) == s[..4] + Encode(DecodeDigits(s[4..], true).value)
  {
    var a, b, c, d := Value(s[0]).value, Value(s[1]).value, Value(s[2]).value, Value(s[3]).value;
    CharsOf(s);
    var out, rest := DecodeDigits(s, true).value, DecodeDigits(s[4..], true).value;
    assert out[0] == a as int * 4 + b / 16 && out[1] == b as int % 16 * 16 + c / 4 && out[2] == c as int % 4 * 64 + d;
    assert out == [out[0], out[1], out[2]] + rest;
    Ungroup(a, b, c, d);
    EncodesGroup(out[0], out[1], out[2], a, b, c, d, rest);
  }

  /** Strict decoding accepts only what encoding writes, so a text has one strict reading and one spelling. */
  lemma {:induction false} StrictDecodingIsInjective(s: string)
    requires DecodeDigits(s, true).Some?
    ensures Encode(DecodeDigits(s, true).value) == s
  {
    if |s| == 2 {
      PairEncodes(s);
    } else if |s| == 3 {
      TripleEncodes(s);
    } else if |s| >= 4 {
      GroupEncodes(s);
      StrictDecodingIsInjective(s[4..]);
      assert s == s[..4] + s[4..];
    }
  }
}
