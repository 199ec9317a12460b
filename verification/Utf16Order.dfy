/** UTF-16 code-unit order of well-formed texts, the key order of section 3.2.3 of RFC 8785. */
module Utf16Order {

  /** One scalar value as UTF-16: itself, or a surrogate pair. */
  function Units(c: char): (u: seq<nat>)
    ensures 1 <= |u| <= 2
  {
    var n := c as int;
    if n < 0x10000 then [n] else [0xD800 + (n - 0x10000) / 0x400, 0xDC00 + (n - 0x10000) % 0x400]
  }

  function CodeUnits(s: string): seq<nat> {
    if s == "" then [] else Units(s[0]) + CodeUnits(s[1..])
  }

  /** Lexicographic order of code units, a proper prefix first. */
  predicate UnitsBelow(a: seq<nat>, b: seq<nat>) {
    if b == [] then false
    else if a == [] then true
    else a[0] < b[0] || (a[0] == b[0] && UnitsBelow(a[1..], b[1..]))
  }

  predicate Below(a: string, b: string) {
    UnitsBelow(CodeUnits(a), CodeUnits(b))
  }

  lemma UnitsDiffer(c: char, d: char)
    requires c != d
    ensures Units(c)[0] != Units(d)[0] || (|Units(c)| == 2 && |Units(d)| == 2 && Units(c)[1] != Units(d)[1])
  {
    var m, n := c as int, d as int;
    if m >= 0x10000 && n >= 0x10000 {
      assert m - 0x10000 == (m - 0x10000) / 0x400 * 0x400 + (m - 0x10000) % 0x400;
      assert n - 0x10000 == (n - 0x10000) / 0x400 * 0x400 + (n - 0x10000) % 0x400;
    }
  }

  lemma UnitsPrefixFree(c: char, d: char, x: seq<nat>, y: seq<nat>)
    ensures Units(c) + x == Units(d) + y ==> c == d
  {
    if c != d {
      var u, v := Units(c) + x, Units(d) + y;
      UnitsDiffer(c, d);
      assert u[0] == Units(c)[0] && v[0] == Units(d)[0];
      if |Units(c)| == 2 && |Units(d)| == 2 {
        assert u[1] == Units(c)[1] && v[1] == Units(d)[1];
      }
    }
  }

  /** Code units determine a well-formed text. */
  lemma {:induction false} CodeUnitsInjective(a: string, b: string)
    requires CodeUnits(a) == CodeUnits(b)
    ensures a == b
  {
    if a != "" && b != "" {
      UnitsPrefixFree(a[0], b[0], CodeUnits(a[1..]), CodeUnits(b[1..]));
      assert CodeUnits(a[1..]) == CodeUnits(a)[|Units(a[0])|..] && CodeUnits(b[1..]) == CodeUnits(b)[|Units(b[0])|..];
      CodeUnitsInjective(a[1..], b[1..]);
      assert a == [a[0]] + a[1..] && b == [b[0]] + b[1..];
    }
  }

  lemma {:induction false} UnitsBelowIsOrder(a: seq<nat>, b: seq<nat>, c: seq<nat>)
    ensures !UnitsBelow(a, a)
    ensures UnitsBelow(a, b) ==> !UnitsBelow(b, a)
    ensures a != b ==> UnitsBelow(a, b) || UnitsBelow(b, a)
    ensures UnitsBelow(a, b) && UnitsBelow(b, c) ==> UnitsBelow(a, c)
    decreases |a|
  {
    if a != [] {
      UnitsBelowIsOrder(a[1..], if b == [] then [] else b[1..], if c == [] then [] else c[1..]);
      if b != [] && a[0] == b[0] && a[1..] == b[1..] {
        assert a == [a[0]] + a[1..] && b == [b[0]] + b[1..];
      }
    }
  }

  /** The key order is a strict total order on well-formed texts. */
  lemma BelowIsOrder(a: string, b: string, c: string)
    ensures !Below(a, a)
    ensures Below(a, b) ==> !Below(b, a)
    ensures a != b ==> Below(a, b) || Below(b, a)
    ensures Below(a, b) && Below(b, c) ==> Below(a, c)
  {
    UnitsBelowIsOrder(CodeUnits(a), CodeUnits(b), CodeUnits(c));
    if CodeUnits(a) == CodeUnits(b) {
      CodeUnitsInjective(a, b);
    }
  }

  /** The Go comparison: both texts encoded, then a loop over the common length. */
  method LessUtf16(a: string, b: string) returns (less: bool)
    ensures less == Below(a, b)
  {
    var ua, ub := CodeUnits(a), CodeUnits(b);
    var i := 0;
    assert ua[0..] == ua && ub[0..] == ub;
    while i < |ua| && i < |ub|
      invariant i <= |ua| && i <= |ub| && ua[..i] == ub[..i]
      invariant UnitsBelow(ua, ub) == UnitsBelow(ua[i..], ub[i..])
    {
      if ua[i] != ub[i] {
        return ua[i] < ub[i];
      }
      assert ua[i..][1..] == ua[i + 1..] && ub[i..][1..] == ub[i + 1..];
      i := i + 1;
    }
    return |ua| < |ub|;
  }

  /** It is not the order of code points: a private-use character sorts after every surrogate pair. */
  lemma NotCodePointOrder()
    ensures Below("\U{10000}", "\U{FFFF}") && '\U{FFFF}' < '\U{10000}'
  {
    assert CodeUnits("\U{10000}")[0] == 0xD800 && CodeUnits("\U{FFFF}")[0] == 0xFFFF;
  }

  // ------------------------------------------------------------------ the order in terms of characters

  /** A scalar value's place in the order: the characters above the surrogate block come after every character that needs
      a surrogate pair. */
  function Place(c: char): nat {
    var n := c as int;
    if n < 0xD800 then n else if n < 0x10000 then n + 0x100000 else n - 0x10000 + 0xD800
  }

  /** Lexicographic by those places, a proper prefix first. */
  predicate PlacedBelow(a: string, b: string) {
    if b == "" then false
    else if a == "" then true
    else Place(a[0]) < Place(b[0]) || (a[0] == b[0] && PlacedBelow(a[1..], b[1..]))
  }

  lemma UnitsByPlace(c: char, d: char, x: seq<nat>, y: seq<nat>)
    requires c != d
    ensures UnitsBelow(Units(c) + x, Units(d) + y) <==> Place(c) < Place(d)
  {
    var u, v := Units(c) + x, Units(d) + y;
    UnitsDiffer(c, d);
    if Units(c)[0] == Units(d)[0] {
      assert u[1..][0] == Units(c)[1] && v[1..][0] == Units(d)[1];
    }
  }

  /** Comparing code units is comparing characters, with those above the surrogate block moved to the end. */
  lemma {:induction false} BelowByPlace(a: string, b: string)
    ensures Below(a, b) <==> PlacedBelow(a, b)
  {
    if a != "" && b != "" {
      if a[0] == b[0] {
        BelowByPlace(a[1..], b[1..]);
        SameUnits(Units(a[0]), CodeUnits(a[1..]), CodeUnits(b[1..]));
        UnitsBelowIsOrder(CodeUnits(a), CodeUnits(b), []);
      } else {
        UnitsByPlace(a[0], b[0], CodeUnits(a[1..]), CodeUnits(b[1..]));
      }
    }
  }

  lemma SameUnits(u: seq<nat>, x: seq<nat>, y: seq<nat>)
    requires 1 <= |u| <= 2
    ensures UnitsBelow(u + x, u + y) <==> UnitsBelow(x, y)
  {
    assert (u + x)[1..] == u[1..] + x && (u + y)[1..] == u[1..] + y;
    if |u| == 2 {
      assert (u[1..] + x)[1..] == x && (u[1..] + y)[1..] == y;
    } else {
      assert u[1..] + x == x && u[1..] + y == y;
    }
  }
}
