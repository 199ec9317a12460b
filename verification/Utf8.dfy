/** UTF-8 by section 3 of RFC 3629: what a secret value's size limit counts. */
module Utf8 {
  import opened Ideal
  import opened Text
  import opened VaultTables

  /** One character's bytes: one, a two-byte lead, a three-byte lead or a four-byte lead, and six bits in each further one. */
  function Units(c: char): (bytes: seq<Byte>)
    ensures 1 <= |bytes| <= 4
  {
    var n := c as int;
    if n < 0x80 then [n]
    else if n < 0x800 then [0xC0 + n / 0x40, 0x80 + n % 0x40]
    else if n < 0x10000 then [0xE0 + n / 0x40 / 0x40, 0x80 + n / 0x40 % 0x40, 0x80 + n % 0x40]
    else
      assert n < 0x110000;
      [0xF0 + n / 0x40 / 0x40 / 0x40, 0x80 + n / 0x40 / 0x40 % 0x40, 0x80 + n / 0x40 % 0x40, 0x80 + n % 0x40]
  }

  function Encode(s: string): seq<Byte> {
    if s == "" then [] else Units(s[0]) + Encode(s[1..])
  }

  /** The number that six-bit digits make after a lead. */
  function Number(lead: int, digits: seq<Byte>): int {
    if digits == [] then lead
    else Number(lead, digits[..|digits| - 1]) * 0x40 + digits[|digits| - 1] as int - 0x80
  }

  /** What a first byte carries of the number, and how many bytes it announces. */
  function Lead(b: Byte): (int, nat) {
    if b < 0x80 then (b as int, 0) else if b < 0xE0 then (b as int - 0xC0, 1) else if b < 0xF0 then (b as int - 0xE0, 2)
    else (b as int - 0xF0, 3)
  }

  /** The scalar value the first byte announces, and what follows its bytes. */
  function First(b: seq<Byte>): Option<(int, seq<Byte>)> {
    if b == [] || |b| <= Lead(b[0]).1 then None
    else Some((Number(Lead(b[0]).0, b[1..1 + Lead(b[0]).1]), b[1 + Lead(b[0]).1..]))
  }

  lemma FirstReads(c: char, x: seq<Byte>)
    ensures First(Units(c) + x) == Some((c as int, x))
  {
    var u, b := Units(c), Units(c) + x;
    assert b[0] == u[0] && b[1..|u|] == u[1..] && b[|u|..] == x;
    NumberRead(c);
    hide Units, Number, Lead;
  }

  lemma NumberRead(c: char)
    ensures var u := Units(c); Lead(u[0]).1 == |u| - 1 && Number(Lead(u[0]).0, u[1..]) == c as int
  {
    var n, u := c as int, Units(c);
    hide Number;
    if n < 0x80 {
      NumberOf(n, u[1..]);
    } else if n < 0x800 {
      NumberOf(n / 0x40, u[1..]);
    } else if n < 0x10000 {
      NumberOf(n / 0x40 / 0x40, u[1..]);
    } else {
      assert n < 0x110000;
      NumberOf(n / 0x40 / 0x40 / 0x40, u[1..]);
    }
  }

  lemma NumberOf(lead: int, d: seq<Byte>)
    ensures |d| == 0 ==> Number(lead, d) == lead
    ensures |d| == 1 ==> Number(lead, d) == lead * 0x40 + (d[0] as int - 0x80)
    ensures |d| == 2 ==> Number(lead, d) == (lead * 0x40 + (d[0] as int - 0x80)) * 0x40 + (d[1] as int - 0x80)
    ensures |d| == 3 ==>
              Number(lead, d) == ((lead * 0x40 + (d[0] as int - 0x80)) * 0x40 + (d[1] as int - 0x80)) * 0x40 + (d[2] as int - 0x80)
  {
    if |d| >= 2 {
      assert d[..|d| - 1][..|d| - 2] == d[..|d| - 2];
    }
    if |d| == 3 {
      NumberOf(lead, d[..2]);
    }
  }

  /** No two texts share their bytes, so the length counted is that of an encoding. */
  lemma {:induction false} EncodeInjective(s: string, t: string)
    ensures Encode(s) == Encode(t) <==> s == t
  {
    hide Units, First;
    if s != "" && t != "" && Encode(s) == Encode(t) {
      FirstReads(s[0], Encode(s[1..]));
      FirstReads(t[0], Encode(t[1..]));
      EncodeInjective(s[1..], t[1..]);
      assert s == [s[0]] + s[1..] && t == [t[0]] + t[1..];
    }
  }

  /** A value is stored only if its encoding is at most 64 KiB. */
  lemma {:induction false} LimitCountsBytes(value: string)
    ensures Utf8Length(value) == |Encode(value)|
    ensures ValidValue(value) <==> |Encode(value)| <= 65536
  {
    if value != "" {
      LimitCountsBytes(value[1..]);
    }
  }
}
