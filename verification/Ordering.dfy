/** Byte-wise order of strings and the sorted listing of a finite set of them. */
module Ordering {

  predicate Less(a: string, b: string) {
    b != "" && (a == "" || a[0] < b[0] || (a[0] == b[0] && Less(a[1..], b[1..])))
  }

  lemma {:induction false} LessIsTotal(a: string, b: string)
    ensures a == b || Less(a, b) || Less(b, a)
  {
    if a != "" && b != "" && a[0] == b[0] {
      LessIsTotal(a[1..], b[1..]);
      assert a == [a[0]] + a[1..] && b == [b[0]] + b[1..];
    }
  }

  lemma {:induction false} LessIsStrict(a: string, b: string)
    ensures !(Less(a, b) && Less(b, a))
  {
    if a != "" && b != "" && a[0] == b[0] {
      LessIsStrict(a[1..], b[1..]);
    }
  }

  lemma {:induction false} LessIsTransitive(a: string, b: string, c: string)
    requires Less(a, b) && Less(b, c)
    ensures Less(a, c)
  {
    if a != "" && a[0] == b[0] == c[0] {
      LessIsTransitive(a[1..], b[1..], c[1..]);
    }
  }

  predicate Sorted(s: seq<string>) {
    forall i, j | 0 <= i < j < |s| :: Less(s[i], s[j])
  }

  function Elements<T>(s: seq<T>): set<T> {
    set x | x in s
  }

  lemma InsertsFirst(x: string, s: seq<string>)
    requires Sorted(s) && s != [] && Less(x, s[0])
    ensures Sorted([x] + s) && Elements([x] + s) == Elements(s) + {x}
  {
    forall i | 0 < i < |s| ensures Less(x, s[i]) { LessIsTransitive(x, s[0], s[i]); }
    assert forall y | y in s :: y in [x] + s;
  }

  lemma InsertsLater(x: string, s: seq<string>, rest: seq<string>)
    requires Sorted(s) && s != [] && Less(s[0], x) && Sorted(rest) && Elements(rest) == Elements(s[1..]) + {x}
    ensures Sorted([s[0]] + rest) && Elements([s[0]] + rest) == Elements(s) + {x}
  {
    forall y | y in rest ensures Less(s[0], y) {
      assert y in Elements(rest);
      assert y == x || y in s[1..];
    }
    assert s == [s[0]] + s[1..];
    assert Elements(s) == {s[0]} + Elements(s[1..]);
    assert Elements([s[0]] + rest) == {s[0]} + Elements(rest);
  }

  /** x put in its place; nothing changes when it is already listed. */
  function Insert(x: string, s: seq<string>): (r: seq<string>)
    requires Sorted(s)
    ensures Sorted(r) && Elements(r) == Elements(s) + {x}
  {
    if s == [] then [x]
    else if x == s[0] then s
    else if Less(x, s[0]) then
      InsertsFirst(x, s);
      [x] + s
    else
      LessIsTotal(x, s[0]);
      var rest := Insert(x, s[1..]);
      InsertsLater(x, s, rest);
      [s[0]] + rest
  }

  lemma NonEmpty<T>(s: seq<T>)
    ensures s == [] <==> Elements(s) == {}
  {
    if s != [] { assert s[0] in Elements(s); }
  }

  /** A set has only one sorted listing. */
  lemma {:induction false} SortedIsUnique(a: seq<string>, b: seq<string>)
    requires Sorted(a) && Sorted(b) && Elements(a) == Elements(b)
    ensures a == b
  {
    NonEmpty(a);
    NonEmpty(b);
    if a != [] && b != [] {
      FirstIsLeast(a, b);
      assert Elements(a[1..]) == Elements(a) - {a[0]} by { LessIsStrict(a[0], a[0]); }
      assert Elements(b[1..]) == Elements(b) - {b[0]} by { LessIsStrict(b[0], b[0]); }
      SortedIsUnique(a[1..], b[1..]);
      assert a == [a[0]] + a[1..] && b == [b[0]] + b[1..];
    }
  }

  lemma FirstIsLeast(a: seq<string>, b: seq<string>)
    requires Sorted(a) && Sorted(b) && Elements(a) == Elements(b) && a != [] && b != []
    ensures a[0] == b[0]
  {
    assert a[0] in Elements(b) && b[0] in Elements(a);
    assert a[0] == b[0] || Less(b[0], a[0]);
    assert a[0] == b[0] || Less(a[0], b[0]);
    LessIsStrict(a[0], b[0]);
  }

  ghost function Listing(s: set<string>): (r: seq<string>)
    ensures Sorted(r) && Elements(r) == s
  {
    if s == {} then []
    else
      var x :| x in s;
      Insert(x, Listing(s - {x}))
  }
}
