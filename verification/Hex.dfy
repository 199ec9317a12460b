/** Lowercase hex: the encoder, and a decoder that accepts either case. */
module Hex {
  import opened Ideal
  import opened Text

  type Nibble = n: nat | n < 16

  function HexChar(v: Nibble): (c: char)
    ensures HexValue(c) == Some(v) && Lower(c) == c
  {
    if v < 10 then ('0' as int + v) as char else ('a' as int + (v - 10)) as char
  }

  function HexValue(c: char): Option<Nibble> {
    if '0' <= c <= '9' then Some(c as int - '0' as int)
    else if 'a' <= c <= 'f' then Some(c as int - 'a' as int + 10)
    else if 'A' <= c <= 'F' then Some(c as int - 'A' as int + 10)
    else None
  }

  const DIGITS := "0123456789abcdef"

  lemma CharsInOrder(v: Nibble)
    ensures HexChar(v) == DIGITS[v]
  {
  }

  function Lower(c: char): char {
    if 'A' <= c <= 'Z' then (c as int + 32) as char else c
  }

  function LowerAll(t: string): string {
    seq(|t|, i requires 0 <= i < |t| => Lower(t[i]))
  }

  function HexOf(b: seq<Byte>): string {
    if b == [] then "" else HexOf(b[..|b| - 1]) + [HexChar(b[|b| - 1] / 16), HexChar(b[|b| - 1] % 16)]
  }

  method HexEncode(bytes: seq<Byte>) returns (out: string)
    ensures out == HexOf(bytes)
  {
    out := "";
    for i := 0 to |bytes|
      invariant out == HexOf(bytes[..i])
    {
      assert bytes[..i + 1][..i] == bytes[..i];
      out := out + [HexChar(bytes[i] / 16)];
      out := out + [HexChar(bytes[i] % 16)];
    }
    assert bytes[..|bytes|] == bytes;
  }

  predicate AllHex(t: string) {
    forall i :: 0 <= i < |t| ==> HexValue(t[i]).Some?
  }

  lemma {:induction false} HexLength(b: seq<Byte>)
    ensures |HexOf(b)| == 2 * |b|
    ensures forall i :: 0 <= i < |b| ==> HexOf(b)[2 * i] == HexChar(b[i] / 16) && HexOf(b)[2 * i + 1] == HexChar(b[i] % 16)
  {
    if b != [] {
      HexLength(b[..|b| - 1]);
    }
  }

  lemma LowerKeepsValue(c: char)
    requires HexValue(c).Some?
    ensures HexValue(Lower(c)) == HexValue(c) && Lower(c) == HexChar(HexValue(c).value)
  {
  }

  /** One pair of characters more. */
  lemma HexPush(text: string, i: nat, out: seq<Byte>, byte: Byte)
    requires 2 * i + 1 < |text| && HexOf(out) == LowerAll(text[..2 * i])
    requires HexValue(text[2 * i]) == Some(byte / 16) && HexValue(text[2 * i + 1]) == Some(byte % 16)
    ensures HexOf(out + [byte]) == LowerAll(text[..2 * (i + 1)])
  {
    hide HexValue, HexChar, Lower;
    LowerKeepsValue(text[2 * i]);
    LowerKeepsValue(text[2 * i + 1]);
    assert (out + [byte])[..|out|] == out;
    assert LowerAll(text[..2 * (i + 1)]) == LowerAll(text[..2 * i]) + [Lower(text[2 * i]), Lower(text[2 * i + 1])];
  }

  lemma Nibbles(high: Nibble, low: Nibble)
    ensures var h: nat, l: nat := high, low; h * 16 + l < 256 && (h * 16 + l) / 16 == h && (h * 16 + l) % 16 == l
  {
  }

  /** None where the decoder throws; otherwise the bytes whose lowercase hex is the text in lower case. */
  method HexDecode(text: string) returns (bytes: Option<seq<Byte>>)
    ensures bytes.Some? <==> |text| % 2 == 0 && AllHex(text)
    ensures bytes.Some? ==> HexOf(bytes.value) == LowerAll(text)
  {
    hide HexValue, HexOf, LowerAll;
    if |text| % 2 != 0 {
      return None;
    }
    var out: seq<Byte> := [];
    NoHex(text);
    for i := 0 to |text| / 2
      invariant AllHex(text[..2 * i]) && HexOf(out) == LowerAll(text[..2 * i])
    {
      var high, low := HexValue(text[2 * i]), HexValue(text[2 * i + 1]);
      if high.None? || low.None? {
        return None;
      }
      var h: nat, l: nat := high.value, low.value;
      Nibbles(h, l);
      HexPush(text, i, out, h * 16 + l);
      out := out + [h * 16 + l];
    }
    assert text[..2 * (|text| / 2)] == text;
    return Some(out);
  }

  lemma NoHex(text: string)
    ensures HexOf([]) == LowerAll(text[..0])
  {
  }

  /** Hex determines the bytes, so decoding what was encoded gives them back. */
  lemma {:induction false} HexInjective(a: seq<Byte>, b: seq<Byte>)
    requires HexOf(a) == HexOf(b)
    ensures a == b
  {
    HexLength(a);
    HexLength(b);
    forall i | 0 <= i < |a| ensures a[i] == b[i] {
      assert HexOf(a)[2 * i] == HexOf(b)[2 * i] && HexOf(a)[2 * i + 1] == HexOf(b)[2 * i + 1];
      assert HexValue(HexChar(a[i] / 16)) == HexValue(HexChar(b[i] / 16));
      assert HexValue(HexChar(a[i] % 16)) == HexValue(HexChar(b[i] % 16));
    }
  }
}
