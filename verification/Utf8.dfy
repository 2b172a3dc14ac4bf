/** Well-formed UTF-8, section 4 of RFC 3629, and the repair of text that is not. */
module Utf8 {

  predicate Within(c: char, low: int, high: int) {
    low <= c as int <= high
  }

  /** The length of the encoded character a text starts with; 0 when it starts with none. */
  function RuneWidth(s: string): (w: nat)
    ensures w <= 4 && w <= |s|
  {
    if s == "" then 0
    else if Within(s[0], 0, 0x7F) then 1
    else if |s| >= 2 && Within(s[0], 0xC2, 0xDF) && Within(s[1], 0x80, 0xBF) then 2
    else if |s| >= 3 && Triple(s[0], s[1]) && Within(s[2], 0x80, 0xBF) then 3
    else if |s| >= 4 && Quadruple(s[0], s[1]) && Within(s[2], 0x80, 0xBF) && Within(s[3], 0x80, 0xBF) then 4
    else 0
  }

  /** No shorter spelling exists, and the character is no surrogate. */
  predicate Triple(a: char, b: char) {
    || (Within(a, 0xE0, 0xE0) && Within(b, 0xA0, 0xBF))
    || (Within(a, 0xE1, 0xEC) && Within(b, 0x80, 0xBF))
    || (Within(a, 0xED, 0xED) && Within(b, 0x80, 0x9F))
    || (Within(a, 0xEE, 0xEF) && Within(b, 0x80, 0xBF))
  }

  /** No shorter spelling exists, and the character is not above U+10FFFF. */
  predicate Quadruple(a: char, b: char) {
    || (Within(a, 0xF0, 0xF0) && Within(b, 0x90, 0xBF))
    || (Within(a, 0xF1, 0xF3) && Within(b, 0x80, 0xBF))
    || (Within(a, 0xF4, 0xF4) && Within(b, 0x80, 0x8F))
  }

  predicate IsUtf8(s: string)
    decreases |s|
  {
    s == "" || (RuneWidth(s) > 0 && IsUtf8(s[RuneWidth(s)..]))
  }

  /** U+FFFD. */
  const REPLACEMENT: string := [0xEF as char, 0xBF as char, 0xBD as char]

  /** Each run of bytes that belong to no character becomes one U+FFFD; `broken` says that such a run goes on. */
  function Repair(s: string, broken: bool): string
    decreases |s|
  {
    var w := RuneWidth(s);
    if s == "" then ""
    else if w > 0 then s[..w] + Repair(s[w..], false)
    else (if broken then "" else REPLACEMENT) + Repair(s[1..], true)
  }

  function Repaired(s: string): string {
    Repair(s, false)
  }

  // ---------- Validity composes ----------

  lemma RuneStays(s: string, rest: string)
    requires RuneWidth(s) > 0
    ensures RuneWidth(s + rest) == RuneWidth(s)
  {
  }

  /** An ASCII character is a character of its own wherever it stands. */
  lemma RuneEnds(s: string, c: char, rest: string)
    requires Within(c, 0, 0x7F) && s != ""
    ensures RuneWidth(s + [c] + rest) == RuneWidth(s)
  {
    var all := s + [c] + rest;
    assert all[|s|] == c && forall i | 0 <= i < |s| :: all[i] == s[i];
  }

  lemma {:induction false} Utf8Append(a: string, b: string)
    requires IsUtf8(a)
    ensures IsUtf8(a + b) <==> IsUtf8(b)
    decreases |a|
  {
    if a == "" {
      assert a + b == b;
    } else {
      var w := RuneWidth(a);
      RuneStays(a, b);
      Utf8Append(a[w..], b);
      assert (a + b)[w..] == a[w..] + b;
    }
  }

  /** Text is valid exactly when the pieces before and after an ASCII character are. */
  lemma {:induction false} Utf8Around(a: string, c: char, b: string)
    requires Within(c, 0, 0x7F)
    ensures IsUtf8(a + [c] + b) <==> IsUtf8(a) && IsUtf8(b)
    decreases |a|
  {
    var all := a + [c] + b;
    if a == "" {
      assert all[0] == c && all[1..] == b;
    } else {
      var w := RuneWidth(a);
      RuneEnds(a, c, b);
      if w > 0 {
        assert all[w..] == a[w..] + [c] + b;
        Utf8Around(a[w..], c, b);
      }
    }
  }

  predicate IsAscii(s: string) {
    forall c | c in s :: Within(c, 0, 0x7F)
  }

  lemma {:induction false} AsciiIsUtf8(s: string)
    requires IsAscii(s)
    ensures IsUtf8(s)
  {
    if s != "" {
      assert s[0] in s;
      AsciiIsUtf8(s[1..]);
    }
  }

  /** Every character of valid text is a byte. */
  lemma {:induction false} Utf8IsBytes(s: string)
    requires IsUtf8(s)
    ensures forall c | c in s :: c as int < 256
    decreases |s|
  {
    if s != "" {
      var w := RuneWidth(s);
      Utf8IsBytes(s[w..]);
      assert s == s[..w] + s[w..];
    }
  }

  // ---------- Repair ----------

  lemma ReplacementIsUtf8()
    ensures RuneWidth(REPLACEMENT) == 3 && IsUtf8(REPLACEMENT)
  {
    assert REPLACEMENT[3..] == "";
  }

  lemma RuneAlone(s: string)
    requires RuneWidth(s) > 0
    ensures IsUtf8(s[..RuneWidth(s)])
  {
    var w := RuneWidth(s);
    assert RuneWidth(s[..w]) == w && s[..w][w..] == "";
  }

  /** Repaired text is valid. */
  lemma {:induction false} RepairIsUtf8(s: string, broken: bool)
    ensures IsUtf8(Repair(s, broken))
    decreases |s|
  {
    var w := RuneWidth(s);
    if s == "" {
    } else if w > 0 {
      RepairIsUtf8(s[w..], false);
      RuneAlone(s);
      Utf8Append(s[..w], Repair(s[w..], false));
    } else {
      RepairIsUtf8(s[1..], true);
      ReplacementIsUtf8();
      Utf8Append(REPLACEMENT, Repair(s[1..], true));
      assert "" + Repair(s[1..], true) == Repair(s[1..], true);
    }
  }

  lemma {:induction false} ValidNeedsNoRepair(s: string, broken: bool)
    requires IsUtf8(s)
    ensures Repair(s, broken) == s
    decreases |s|
  {
    if s != "" {
      var w := RuneWidth(s);
      ValidNeedsNoRepair(s[w..], false);
      assert s == s[..w] + s[w..];
    }
  }

  /** Repair changes nothing exactly when there is nothing to repair, and is done once. */
  lemma RepairedExactly(s: string)
    ensures IsUtf8(Repaired(s)) && Repaired(Repaired(s)) == Repaired(s)
    ensures Repaired(s) == s <==> IsUtf8(s)
  {
    RepairIsUtf8(s, false);
    ValidNeedsNoRepair(Repaired(s), false);
    if IsUtf8(s) { ValidNeedsNoRepair(s, false); }
  }

  lemma Grouped(p: string, x: string, c: char, y: string)
    ensures p + (x + [c] + y) == p + x + [c] + y
  {
  }

  lemma EmptyFirst(s: string, c: char, y: string)
    requires s == [c] + y
    ensures s == "" + [c] + y
  {
  }

  /** Repair is done on either side of an ASCII character separately. */
  lemma {:induction false} RepairAround(a: string, c: char, b: string, broken: bool)
    requires Within(c, 0, 0x7F)
    ensures Repair(a + [c] + b, broken) == Repair(a, broken) + [c] + Repair(b, false)
    decreases |a|
  {
    var all := a + [c] + b;
    if a == "" {
      assert all[0] == c && all[1..] == b && all[..1] == [c];
      EmptyFirst([c] + Repair(b, false), c, Repair(b, false));
    } else {
      var w := RuneWidth(a);
      RuneEnds(a, c, b);
      if w > 0 {
        assert all[w..] == a[w..] + [c] + b && all[..w] == a[..w];
        RepairAround(a[w..], c, b, false);
        Grouped(a[..w], Repair(a[w..], false), c, Repair(b, false));
      } else {
        assert all[1..] == a[1..] + [c] + b;
        RepairAround(a[1..], c, b, true);
        Grouped(if broken then "" else REPLACEMENT, Repair(a[1..], true), c, Repair(b, false));
      }
    }
  }

  /** Repair brings in no character but those of the replacement. */
  lemma {:induction false} RepairStaysWithin(s: string, broken: bool)
    ensures forall c | c in Repair(s, broken) :: c in s || c in REPLACEMENT
    decreases |s|
  {
    if s != "" {
      var w := RuneWidth(s);
      if w > 0 { RepairStaysWithin(s[w..], false); } else { RepairStaysWithin(s[1..], true); }
    }
  }

  lemma RepairedIsEmpty(s: string)
    ensures Repaired(s) == "" <==> s == ""
  {
  }
}
