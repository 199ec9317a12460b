/** Base64url without padding (section 5 of RFC 4648): the streaming decoder over a never-masked 32-bit
    accumulator, the grouping encoder, and the fixed-length patterns of the protocol. */
module Base64Url {
  import opened Ideal
  import opened Text

  type Sextet = n: nat | n < 64

  // ------------------------------------------------------------------ the alphabet

  function Char(v: Sextet): (c: char)
    ensures Value(c) == Some(v)
  {
    if v < 26 then ('A' as int + v) as char
    else if v < 52 then ('a' as int + (v - 26)) as char
    else if v < 62 then ('0' as int + (v - 52)) as char
    else if v == 62 then '-'
    else '_'
  }

  function Value(c: char): Option<Sextet> {
    if 'A' <= c <= 'Z' then Some(c as int - 'A' as int)
    else if 'a' <= c <= 'z' then Some(c as int - 'a' as int + 26)
    else if '0' <= c <= '9' then Some(c as int - '0' as int + 52)
    else if c == '-' then Some(62)
    else if c == '_' then Some(63)
    else None
  }

  lemma ValueIsInverse(c: char)
    requires Value(c).Some?
    ensures Char(Value(c).value) == c
  {
  }

  predicate AllValid(t: string) {
    forall i :: 0 <= i < |t| ==> Value(t[i]).Some?
  }

  // ------------------------------------------------------------------ group by group

  /** The text of a byte string: four characters for three bytes, and a tail with zero slack bits. */
  function Encode(b: seq<Byte>): string {
    if |b| == 0 then ""
    else if |b| == 1 then [Char(b[0] / 4), Char(b[0] % 4 * 16)]
    else if |b| == 2 then [Char(b[0] / 4), Char(b[0] % 4 * 16 + b[1] / 16), Char(b[1] % 16 * 4)]
    else
      [Char(b[0] / 4), Char(b[0] % 4 * 16 + b[1] / 16), Char(b[1] % 16 * 4 + b[2] / 64), Char(b[2] % 64)] + Encode(b[3..])
  }

  function Group(t: string): (g: seq<Byte>)
    requires |t| == 4 && AllValid(t)
    ensures |g| == 3
  {
    var v0, v1, v2, v3 := Value(t[0]).value, Value(t[1]).value, Value(t[2]).value, Value(t[3]).value;
    [v0 * 4 + v1 / 16, v1 % 16 * 16 + v2 / 4, v2 % 4 * 64 + v3]
  }

  function Tail(t: string): Option<seq<Byte>>
    requires |t| < 4 && AllValid(t)
  {
    if |t| == 0 then Some([])
    else if |t| == 1 then None
    else
      var v0, v1 := Value(t[0]).value, Value(t[1]).value;
      if |t| == 2 then if v1 % 16 != 0 then None else Some([v0 * 4 + v1 / 16])
      else
        var v2 := Value(t[2]).value;
        if v2 % 4 != 0 then None else Some([v0 * 4 + v1 / 16, v1 % 16 * 16 + v2 / 4])
  }

  function Decode(t: string): Option<seq<Byte>> {
    if !AllValid(t) then None
    else if |t| < 4 then Tail(t)
    else
      match Decode(t[4..])
      case None => None
      case Some(rest) => Some(Group(t[..4]) + rest)
  }

  // ------------------------------------------------------------------ a bijection

  lemma CutArithmetic(b0: Byte, b1: Byte, b2: Byte)
    ensures var v0, v1, v2, v3 := b0 / 4, b0 % 4 * 16 + b1 / 16, b1 % 16 * 4 + b2 / 64, b2 % 64;
            v0 * 4 + v1 / 16 == b0 && v1 % 16 * 16 + v2 / 4 == b1 && v2 % 4 * 64 + v3 == b2
  {
  }

  lemma GroupBack(b0: Byte, b1: Byte, b2: Byte)
    ensures var t := [Char(b0 / 4), Char(b0 % 4 * 16 + b1 / 16), Char(b1 % 16 * 4 + b2 / 64), Char(b2 % 64)];
            AllValid(t) && Group(t) == [b0, b1, b2]
  {
    hide Char, Value;
    var v0: Sextet, v1: Sextet, v2: Sextet, v3: Sextet := b0 / 4, b0 % 4 * 16 + b1 / 16, b1 % 16 * 4 + b2 / 64, b2 % 64;
    CutArithmetic(b0, b1, b2);
    GroupOfChars(v0, v1, v2, v3);
  }

  lemma GroupOfChars(v0: Sextet, v1: Sextet, v2: Sextet, v3: Sextet)
    ensures var t := [Char(v0), Char(v1), Char(v2), Char(v3)];
            AllValid(t) && Group(t) == [v0 * 4 + v1 / 16, v1 % 16 * 16 + v2 / 4, v2 % 4 * 64 + v3]
  {
    hide Char, Value;
    var t := [Char(v0), Char(v1), Char(v2), Char(v3)];
    assert Value(t[0]) == Some(v0) && Value(t[1]) == Some(v1) && Value(t[2]) == Some(v2) && Value(t[3]) == Some(v3);
  }

  lemma TailBack(b: seq<Byte>)
    requires |b| < 3
    ensures AllValid(Encode(b)) && |Encode(b)| < 4 && Tail(Encode(b)) == Some(b)
  {
    hide Char, Value;
    if |b| == 1 {
      assert b == [b[0]];
    } else if |b| == 2 {
      assert b == [b[0], b[1]];
    }
  }

  lemma {:induction false} DecodeOfEncode(b: seq<Byte>)
    ensures AllValid(Encode(b)) && Decode(Encode(b)) == Some(b)
  {
    hide Char, Value, Group, Tail;
    if |b| >= 3 {
      DecodeOfEncode(b[3..]);
      GroupBack(b[0], b[1], b[2]);
      var t := Encode(b);
      assert t[4..] == Encode(b[3..]);
      assert t[..4] == [Char(b[0] / 4), Char(b[0] % 4 * 16 + b[1] / 16), Char(b[1] % 16 * 4 + b[2] / 64), Char(b[2] % 64)];
      assert t == t[..4] + t[4..];
      assert b == [b[0], b[1], b[2]] + b[3..];
    } else {
      TailBack(b);
    }
  }

  lemma GroupArithmetic(v0: Sextet, v1: Sextet, v2: Sextet, v3: Sextet)
    ensures var g0, g1, g2 := v0 * 4 + v1 / 16, v1 % 16 * 16 + v2 / 4, v2 % 4 * 64 + v3;
            && g0 / 4 == v0 && g0 % 4 * 16 + g1 / 16 == v1 && g1 % 16 * 4 + g2 / 64 == v2 && g2 % 64 == v3
  {
  }

  lemma GroupEncodes(t: string, rest: seq<Byte>)
    requires |t| == 4 && AllValid(t)
    ensures Encode(Group(t) + rest) == t + Encode(rest)
  {
    hide Char, Value;
    var g := Group(t);
    var v0, v1, v2, v3 := Value(t[0]).value, Value(t[1]).value, Value(t[2]).value, Value(t[3]).value;
    GroupArithmetic(v0, v1, v2, v3);
    ValueIsInverse(t[0]);
    ValueIsInverse(t[1]);
    ValueIsInverse(t[2]);
    ValueIsInverse(t[3]);
    EncodeGroup(g, rest);
    assert t == [t[0], t[1], t[2], t[3]];
  }

  lemma EncodeGroup(g: seq<Byte>, rest: seq<Byte>)
    requires |g| == 3
    ensures Encode(g + rest) ==
              [Char(g[0] / 4), Char(g[0] % 4 * 16 + g[1] / 16), Char(g[1] % 16 * 4 + g[2] / 64), Char(g[2] % 64)] + Encode(rest)
  {
    hide Char;
    assert (g + rest)[3..] == rest;
  }

  lemma TailEncodes(t: string)
    requires |t| < 4 && AllValid(t) && Tail(t).Some?
    ensures Encode(Tail(t).value) == t
  {
    hide Char, Value;
    if |t| == 2 {
      ValueIsInverse(t[0]);
      ValueIsInverse(t[1]);
      GroupArithmetic(Value(t[0]).value, Value(t[1]).value, 0, 0);
      assert t == [t[0], t[1]];
    } else if |t| == 3 {
      ValueIsInverse(t[0]);
      ValueIsInverse(t[1]);
      ValueIsInverse(t[2]);
      GroupArithmetic(Value(t[0]).value, Value(t[1]).value, Value(t[2]).value, 0);
      assert t == [t[0], t[1], t[2]];
    }
  }

  /** Decoding accepts a text only if encoding reproduces it. */
  lemma {:induction false} EncodeOfDecode(t: string)
    requires Decode(t).Some?
    ensures Encode(Decode(t).value) == t
  {
    hide Encode, Tail, Group, Value;
    if |t| >= 4 {
      EncodeOfDecode(t[4..]);
      GroupEncodes(t[..4], Decode(t[4..]).value);
      assert t == t[..4] + t[4..];
    } else {
      TailEncodes(t);
    }
  }

  /** A text decodes to bytes exactly when it is their encoding. */
  lemma DecodesExactly(t: string, b: seq<Byte>)
    ensures Decode(t) == Some(b) <==> Encode(b) == t
  {
    DecodeOfEncode(b);
    if Decode(t) == Some(b) {
      EncodeOfDecode(t);
    }
  }

  // ------------------------------------------------------------------ which texts decode

  /** The whole bytes in n characters: three for each group of four, and one less than the tail. */
  function Whole(n: nat): nat {
    n / 4 * 3 + if n % 4 == 0 then 0 else n % 4 - 1
  }

  predicate Canonical(t: string) {
    && AllValid(t) && |t| % 4 != 1
    && (|t| % 4 == 2 ==> Value(t[|t| - 1]).value % 16 == 0)
    && (|t| % 4 == 3 ==> Value(t[|t| - 1]).value % 4 == 0)
  }

  /** Exactly the texts over the alphabet, not one past a group, with zero slack bits decode; three bytes
      come from every four characters. */
  lemma {:induction false} DecodesWhenCanonical(t: string)
    ensures Decode(t).Some? <==> Canonical(t)
    ensures Decode(t).Some? ==> |Decode(t).value| == Whole(|t|)
  {
    if |t| >= 4 && AllValid(t) {
      DecodesWhenCanonical(t[4..]);
    }
  }

  // ------------------------------------------------------------------ the fixed-length patterns

  const NO_SLACK_2 := {'A', 'E', 'I', 'M', 'Q', 'U', 'Y', 'c', 'g', 'k', 'o', 's', 'w', '0', '4', '8'}
  const NO_SLACK_4 := {'A', 'Q', 'g', 'w'}

  predicate Pattern12(t: string) {
    |t| == 16 && AllValid(t)
  }

  predicate Pattern32(t: string) {
    |t| == 43 && AllValid(t[..42]) && t[42] in NO_SLACK_2
  }

  predicate Pattern48(t: string) {
    |t| == 64 && AllValid(t)
  }

  predicate Pattern64(t: string) {
    |t| == 86 && AllValid(t[..85]) && t[85] in NO_SLACK_4
  }

  lemma SlackClasses(c: char)
    ensures c in NO_SLACK_2 <==> Value(c).Some? && Value(c).value % 4 == 0
    ensures c in NO_SLACK_4 <==> Value(c).Some? && Value(c).value % 16 == 0
  {
  }

  /** Each pattern matches exactly the encodings of its number of bytes. */
  lemma PatternsMatchEncodings(t: string)
    ensures Pattern12(t) <==> exists b: seq<Byte> :: |b| == 12 && Encode(b) == t
    ensures Pattern32(t) <==> exists b: seq<Byte> :: |b| == 32 && Encode(b) == t
    ensures Pattern48(t) <==> exists b: seq<Byte> :: |b| == 48 && Encode(b) == t
    ensures Pattern64(t) <==> exists b: seq<Byte> :: |b| == 64 && Encode(b) == t
  {
    hide Encode, Decode, Pattern12, Pattern32, Pattern48, Pattern64;
    PatternsDecode(t);
    LengthMatches(t, 12);
    LengthMatches(t, 32);
    LengthMatches(t, 48);
    LengthMatches(t, 64);
  }

  lemma LengthMatches(t: string, n: nat)
    ensures (Decode(t).Some? && |Decode(t).value| == n) <==> exists b: seq<Byte> :: |b| == n && Encode(b) == t
  {
    if Decode(t).Some? && |Decode(t).value| == n {
      EncodeOfDecode(t);
    }
    if exists b: seq<Byte> :: |b| == n && Encode(b) == t {
      var b: seq<Byte> :| |b| == n && Encode(b) == t;
      DecodeOfEncode(b);
    }
  }

  lemma PatternsDecode(t: string)
    ensures Pattern12(t) <==> Decode(t).Some? && |Decode(t).value| == 12
    ensures Pattern32(t) <==> Decode(t).Some? && |Decode(t).value| == 32
    ensures Pattern48(t) <==> Decode(t).Some? && |Decode(t).value| == 48
    ensures Pattern64(t) <==> Decode(t).Some? && |Decode(t).value| == 64
  {
    DecodesWhenCanonical(t);
    if |t| == 43 || |t| == 86 {
      SlackClasses(t[|t| - 1]);
      assert AllValid(t) <==> AllValid(t[..|t| - 1]) && Value(t[|t| - 1]).Some?;
    }
  }

  // ------------------------------------------------------------------ the loops

  method B64uEncode(bytes: array<Byte>) returns (out: string)
    ensures out == Encode(bytes[..])
  {
    out := "";
    var index := 0;
    ghost var whole := Encode(bytes[..]);
    assert bytes[0..] == bytes[..];
    while index + 3 <= bytes.Length
      invariant 0 <= index <= bytes.Length
      invariant whole == out + Encode(bytes[index..])
    {
      var a, b, c := bytes[index], bytes[index + 1], bytes[index + 2];
      ghost var rest := bytes[index..];
      assert rest[3..] == bytes[index + 3..];
      var group := [Char(a / 4), Char(a % 4 * 16 + b / 16), Char(b % 16 * 4 + c / 64), Char(c % 64)];
      assert Encode(rest) == group + Encode(bytes[index + 3..]);
      assert out + (group + Encode(bytes[index + 3..])) == (out + group) + Encode(bytes[index + 3..]);
      out := out + group;
      index := index + 3;
    }
    var remaining := bytes.Length - index;
    if remaining == 1 {
      var a := bytes[index];
      out := out + [Char(a / 4), Char(a % 4 * 16)];
    } else if remaining == 2 {
      var a, b := bytes[index], bytes[index + 1];
      out := out + [Char(a / 4), Char(a % 4 * 16 + b / 16), Char(b % 16 * 4)];
    }
  }

  /** Two's complement on 32 bits, as JavaScript's shifts give it. */
  function Wrap32(x: int): (w: int)
    ensures -0x8000_0000 <= w < 0x8000_0000
  {
    (x + 0x8000_0000) % 0x1_0000_0000 - 0x8000_0000
  }

  function Pow2(n: nat): nat {
    if n == 0 then 1 else 2 * Pow2(n - 1)
  }

  lemma Pow2s()
    ensures Pow2(0) == 1 && Pow2(2) == 4 && Pow2(4) == 16 && Pow2(6) == 64
  {
    assert Pow2(1) == 2 && Pow2(3) == 8 && Pow2(5) == 32;
  }

  /** Bits the decoder holds after n characters. */
  function Held(n: nat): nat {
    if n % 4 == 0 then 0 else if n % 4 == 1 then 6 else if n % 4 == 2 then 4 else 2
  }

  /** The low bits held are the unread part of the last character. */
  predicate Pending(t: string, n: nat, accumulator: int)
    requires n <= |t| && AllValid(t[..n])
  {
    && (n % 4 == 1 ==> accumulator % 64 == Value(t[n - 1]).value)
    && (n % 4 == 2 ==> accumulator % 16 == Value(t[n - 1]).value % 16)
    && (n % 4 == 3 ==> accumulator % 4 == Value(t[n - 1]).value % 4)
  }

  /** The byte the n-th character completes, unless it opens a group. */
  function Cut(t: string, n: nat): Byte
    requires 2 <= n <= |t| && n % 4 != 1 && Value(t[n - 2]).Some? && Value(t[n - 1]).Some?
  {
    var v, last := Value(t[n - 2]).value, Value(t[n - 1]).value;
    if n % 4 == 2 then v * 4 + last / 16
    else if n % 4 == 3 then v % 16 * 16 + last / 4
    else v % 4 * 64 + last
  }

  lemma ValidAt(t: string, n: nat, i: nat)
    requires i < n <= |t| && AllValid(t[..n])
    ensures Value(t[i]).Some?
  {
    assert t[..n][i] == t[i];
  }

  /** The bytes whole in the first n characters. */
  function Read(t: string, n: nat): (b: seq<Byte>)
    requires n <= |t| && AllValid(t[..n])
    ensures |b| == Whole(n)
  {
    if n == 0 then []
    else
      var before := Read(t, n - 1);
      if n % 4 == 1 then before
      else
        ValidAt(t, n, n - 1);
        ValidAt(t, n, n - 2);
        before + [Cut(t, n)]
  }

  /** Twelve bits survive the shift, the or and the wrap. */
  lemma WrapKeepsLowBits(accumulator: int, v: Sextet)
    ensures (Wrap32(accumulator * 64) + v) % 4096 == accumulator % 64 * 64 + v
  {
    var turns := (accumulator * 64 + 0x8000_0000) / 0x1_0000_0000;
    assert Wrap32(accumulator * 64) == accumulator * 64 - turns * 0x1_0000_0000;
    var k := accumulator / 64 - turns * 0x10_0000;
    assert Wrap32(accumulator * 64) + v == k * 4096 + (accumulator % 64 * 64 + v);
  }

  lemma {:induction false} Multiple(a: nat, d: nat)
    requires a >= 1
    ensures a * d >= d
  {
    if a > 1 {
      Multiple(a - 1, d);
      assert a * d == (a - 1) * d + d;
    }
  }

  lemma Divides(x: int, d: nat, q: int, r: int)
    requires d > 0 && x == q * d + r && 0 <= r < d
    ensures x / d == q && x % d == r
  {
    var p, m := x / d, x % d;
    Divided(x, d);
    assert (p - q) * d == r - m by {
      assert p * d + m == q * d + r;
      Distribute(p, q, d);
    }
    if p > q {
      Multiple(p - q, d);
    } else if p < q {
      Multiple(q - p, d);
      Distribute(q, p, d);
      Distribute(p, q, d);
    }
  }

  lemma Divided(x: int, d: nat)
    requires d > 0
    ensures x == x / d * d + x % d && 0 <= x % d < d
  {
  }

  lemma Distribute(p: int, q: int, d: int)
    ensures (p - q) * d == p * d - q * d
  {
  }

  /** The three cuts a turn can make, from the bits pending and the next six. */
  lemma Cuts(p: Sextet, v: Sextet, x: int)
    requires x % 4096 == p * 64 + v
    ensures x % 64 == v && x % 16 == v % 16 && x % 4 == v % 4
    ensures x / 16 % 256 == p * 4 + v / 16
    ensures x / 4 % 256 == p % 16 * 16 + v / 4
    ensures x % 256 == p % 4 * 64 + v
  {
    var k := x / 4096;
    Divides(x, 64, 64 * k + p, v);
    Divides(x, 16, 256 * k + 4 * p + v / 16, v % 16);
    Divides(256 * k + 4 * p + v / 16, 256, k, 4 * p + v / 16);
    Divides(x, 4, 1024 * k + 16 * p + v / 4, v % 4);
    Divides(1024 * k + 16 * p + v / 4, 256, 4 * k + p / 16, p % 16 * 16 + v / 4);
    Divides(x, 256, 16 * k + p / 4, p % 4 * 64 + v);
  }

  /** One turn of the never-masked accumulator: only its low bits matter, and wrapping keeps those. */
  lemma AccumulatorStep(t: string, n: nat, accumulator: int)
    requires n < |t| && AllValid(t[..n + 1]) && AllValid(t[..n]) && Pending(t, n, accumulator)
    ensures var next := Wrap32(accumulator * 64) + Value(t[n]).value;
            && Pending(t, n + 1, next)
            && (n % 4 == 1 ==> next / 16 % 256 == Value(t[n - 1]).value * 4 + Value(t[n]).value / 16)
            && (n % 4 == 2 ==> next / 4 % 256 == Value(t[n - 1]).value % 16 * 16 + Value(t[n]).value / 4)
            && (n % 4 == 3 ==> next % 256 == Value(t[n - 1]).value % 4 * 64 + Value(t[n]).value)
  {
    hide Wrap32, Value;
    assert t[..n + 1][n] == t[n];
    if n % 4 != 0 {
      assert t[..n][n - 1] == t[n - 1];
    }
    var v, next := Value(t[n]).value, Wrap32(accumulator * 64) + Value(t[n]).value;
    WrapKeepsLowBits(accumulator, v);
    Cuts(accumulator % 64, v, next);
    LowSextet(accumulator);
  }

  lemma LowSextet(x: int)
    ensures x % 16 == x % 64 % 16 && x % 4 == x % 64 % 4
  {
    var k, m := x / 64, x % 64;
    assert x == 16 * (4 * k + m / 16) + m % 16;
    assert x == 4 * (16 * k + m / 4) + m % 4;
  }

  lemma ReadStep(t: string, n: nat)
    requires 0 < n <= |t| && AllValid(t[..n])
    ensures AllValid(t[..n - 1])
    ensures n % 4 == 1 ==> Read(t, n) == Read(t, n - 1)
    ensures n % 4 != 1 ==> n >= 2 && Value(t[n - 2]).Some? && Value(t[n - 1]).Some? && Read(t, n) == Read(t, n - 1) + [Cut(t, n)]
  {
    hide Value, Cut, Whole;
    ValidAt(t, n, n - 1);
    if n >= 2 {
      ValidAt(t, n, n - 2);
    }
    assert t[..n][..n - 1] == t[..n - 1];
  }

  lemma FirstGroup(t: string)
    requires |t| >= 4 && AllValid(t[..4])
    ensures Read(t, 4) == Group(t[..4])
  {
    ReadStep(t, 4);
    ReadStep(t, 3);
    ReadStep(t, 2);
    ReadStep(t, 1);
    assert Read(t, 0) == [];
    hide Value, Whole, Read;
    assert Read(t, 4) == [Cut(t, 2), Cut(t, 3), Cut(t, 4)];
  }

  /** Whole groups read character by character are the groups read four at a time. */
  lemma {:induction false} ReadGroups(t: string, n: nat)
    requires 4 <= n <= |t| && AllValid(t)
    ensures AllValid(t[4..]) && AllValid(t[..4]) && AllValid(t[..n]) && AllValid(t[4..][..n - 4])
    ensures Read(t, n) == Group(t[..4]) + Read(t[4..], n - 4)
    decreases n
  {
    hide Value, Whole, Group;
    if n == 4 {
      FirstGroup(t);
    } else {
      ReadGroups(t, n - 1);
      var u := t[4..];
      assert u[n - 5] == t[n - 1];
      if n % 4 != 1 {
        assert u[n - 6] == t[n - 2];
        assert Cut(t, n) == Cut(u, n - 4);
      }
    }
  }

  lemma {:induction false} ReadIsDecode(t: string)
    requires AllValid(t)
    ensures AllValid(t[..|t|])
    ensures Decode(t).Some? ==> Decode(t).value == Read(t, |t|)
    decreases |t|
  {
    if |t| >= 4 {
      ReadGroups(t, |t|);
      ReadIsDecode(t[4..]);
    } else if |t| >= 2 {
      assert Read(t, 0) == [] && Read(t, 1) == [];
    }
  }

  /** The trailing-bits check decides. */
  lemma Ending(text: string, accumulator: int)
    requires AllValid(text[..|text|]) && Pending(text, |text|, accumulator) && |text| % 4 != 1
    ensures Decode(text).Some? <==> (Held(|text|) == 0 || accumulator % Pow2(Held(|text|)) == 0)
  {
    hide Value, Decode;
    assert text[..|text|] == text;
    DecodesWhenCanonical(text);
    Pow2s();
    if |text| % 4 == 2 || |text| % 4 == 3 {
      LowNibble(Value(text[|text| - 1]).value);
    }
  }

  lemma LowNibble(v: Sextet)
    ensures v % 16 % 16 == v % 16 && v % 4 % 4 == v % 4
  {
  }

  /** One turn in the decoder's own variables: the bits held, and the byte cut off when eight are there. */
  lemma Turn(t: string, n: nat, accumulator: int)
    requires n < |t| && AllValid(t[..n]) && Pending(t, n, accumulator) && Value(t[n]).Some?
    ensures AllValid(t[..n + 1])
    ensures var next, held := Wrap32(accumulator * 64) + Value(t[n]).value, Held(n) + 6;
            && Pending(t, n + 1, next)
            && Held(n + 1) == (if held >= 8 then held - 8 else held)
            && Read(t, n + 1) == (if held >= 8 then Read(t, n) + [next / Pow2(held - 8) % 256] else Read(t, n))
  {
    hide Value, Wrap32, Pending;
    AccumulatorStep(t, n, accumulator);
    Pow2s();
  }

  lemma Grows(n: nat, length: nat)
    requires n <= length
    ensures Whole(n) <= Whole(length)
  {
  }

  /** The decoder's loop: every character in, every whole byte out. */
  method FillBuffer(text: string, out: array<Byte>) returns (ok: bool, accumulator: int)
    requires out.Length == Whole(|text|)
    modifies out
    ensures ok <==> AllValid(text)
    ensures ok ==> AllValid(text[..|text|]) && Pending(text, |text|, accumulator) && out[..] == Read(text, |text|)
  {
    hide Value, Wrap32, Pending, Read, Pow2, Held, Whole;
    NothingPending(text);
    var outIndex, bitsHeld := 0, 0;
    accumulator := 0;
    for n := 0 to |text|
      invariant AllValid(text[..n]) && bitsHeld == Held(n) && Pending(text, n, accumulator)
      invariant outIndex == Whole(n) <= out.Length && out[..outIndex] == Read(text, n)
    {
      var value := Value(text[n]);
      if value.None? {
        return false, accumulator;
      }
      Turn(text, n, accumulator);
      Grows(n + 1, |text|);
      accumulator := Wrap32(accumulator * 64) + value.value;
      bitsHeld := bitsHeld + 6;
      if bitsHeld >= 8 {
        bitsHeld := bitsHeld - 8;
        Pow2Positive(bitsHeld);
        ghost var before := out[..outIndex];
        out[outIndex] := accumulator / Pow2(bitsHeld) % 256;
        assert out[..outIndex + 1] == before + [out[outIndex]];
        outIndex := outIndex + 1;
      }
    }
    assert text[..|text|] == text;
    return true, accumulator;
  }

  /** The decoder: None where it throws. The buffer it sizes beforehand is filled exactly. */
  method B64uDecode(text: string) returns (decoded: Option<seq<Byte>>)
    ensures decoded == Decode(text)
  {
    hide Value, Decode, Pending, Read, Pow2;
    DecodesWhenCanonical(text);
    if |text| % 4 == 1 {
      return None;
    }
    var fullGroups := |text| / 4;
    var tailLength := |text| - fullGroups * 4;
    var tailBytes := if tailLength == 0 then 0 else tailLength - 1;
    var out := new Byte[fullGroups * 3 + tailBytes](_ => 0);
    var ok, accumulator := FillBuffer(text, out);
    if !ok {
      return None;
    }
    ReadIsDecode(text);
    Ending(text, accumulator);
    var bitsHeld := Held(|text|);
    Pow2Positive(bitsHeld);
    if bitsHeld > 0 && accumulator % Pow2(bitsHeld) != 0 {
      return None;
    }
    return Some(out[..]);
  }

  lemma NothingPending(t: string)
    ensures AllValid(t[..0]) && Pending(t, 0, 0) && Read(t, 0) == [] && Held(0) == 0
  {
  }

  lemma Pow2Positive(n: nat)
    ensures Pow2(n) > 0
  {
  }
}
