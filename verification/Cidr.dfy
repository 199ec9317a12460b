/** CIDR blocks: the byte-and-mask comparison against the arithmetic meaning of a prefix. */
module Cidr {
  import opened Ideal
  import opened Text
  import opened IpText

  datatype Block = Block(address: seq<Byte>, prefixLength: nat)

  function Pow2(n: nat): (p: nat)
    ensures p > 0
  {
    if n == 0 then 1 else 2 * Pow2(n - 1)
  }

  /** text.lastIndexOf("/"), the length of the text when there is none. */
  function LastSlash(text: string, upTo: nat): (i: nat)
    requires upTo <= |text|
    ensures i < upTo || i == |text|
    ensures i < |text| ==> text[i] == '/'
    ensures forall j :: (if i < |text| then i + 1 else 0) <= j < upTo ==> text[j] != '/'
  {
    if upTo == 0 then |text| else if text[upTo - 1] == '/' then upTo - 1 else LastSlash(text, upTo - 1)
  }

  /** address/prefix, with a canonical decimal prefix no longer than the address. */
  function ParseCidr(text: string): (block: Option<Block>)
    ensures block.Some? ==> block.value.prefixLength <= |block.value.address| * 8
  {
    var slash := LastSlash(text, |text|);
    if slash == |text| then None
    else
      match ParseIpAddress(text[..slash])
      case None => None
      case Some(address) =>
        var prefix := text[slash + 1..];
        if |prefix| == 0 || |prefix| > 3 || (|prefix| > 1 && prefix[0] == '0') || !Digits(prefix) then None
        else if Value(prefix) > |address| * 8 then None
        else Some(Block(address, Value(prefix)))
  }

  /** A byte under a mask of its leading bits: `x & (0xff << (8 - bits)) & 0xff`. */
  function Masked(x: Byte, bits: nat): nat
    requires bits <= 8
  {
    x / Pow2(8 - bits) * Pow2(8 - bits)
  }

  /** The leading bytes equal and the leading bits of the next one equal. */
  predicate InPrefix(candidate: seq<Byte>, network: seq<Byte>, prefixLength: nat)
    requires |candidate| == |network| && prefixLength <= |network| * 8
  {
    if prefixLength < 8 then prefixLength == 0 || Masked(candidate[0], prefixLength) == Masked(network[0], prefixLength)
    else candidate[0] == network[0] && InPrefix(candidate[1..], network[1..], prefixLength - 8)
  }

  lemma {:induction false} PrefixUnfolds(c: seq<Byte>, n: seq<Byte>, prefixLength: nat, k: nat)
    requires |c| == |n| && prefixLength <= |n| * 8 && 8 * k <= prefixLength
    requires forall i :: 0 <= i < k ==> c[i] == n[i]
    ensures InPrefix(c, n, prefixLength) <==> InPrefix(c[k..], n[k..], prefixLength - 8 * k)
  {
    if k == 0 {
      assert c[0..] == c && n[0..] == n;
    } else {
      PrefixUnfolds(c[1..], n[1..], prefixLength - 8, k - 1);
      assert c[1..][k - 1..] == c[k..] && n[1..][k - 1..] == n[k..];
    }
  }

  /** The loop over full bytes, then the mask. */
  method BytesInPrefix(candidate: seq<Byte>, block: Block) returns (inside: bool)
    requires |candidate| == |block.address| && block.prefixLength <= |block.address| * 8
    ensures inside == InPrefix(candidate, block.address, block.prefixLength)
  {
    var fullBytes := block.prefixLength / 8;
    var spareBits := block.prefixLength % 8;
    for index := 0 to fullBytes
      invariant forall i :: 0 <= i < index ==> candidate[i] == block.address[i]
    {
      if candidate[index] != block.address[index] {
        PrefixUnfolds(candidate, block.address, block.prefixLength, index);
        return false;
      }
    }
    PrefixUnfolds(candidate, block.address, block.prefixLength, fullBytes);
    if spareBits == 0 {
      return true;
    }
    return Masked(candidate[fullBytes], spareBits) == Masked(block.address[fullBytes], spareBits);
  }

  // ------------------------------------------------------------------ the arithmetic meaning

  /** The big-endian value of a byte string. */
  function Number(b: seq<Byte>): (n: nat)
    ensures n < Pow2(8 * |b|)
  {
    if b == [] then 0
    else
      PowAdd(8, 8 * (|b| - 1));
      LeadByte(b[0], Number(b[1..]), Pow2(8 * (|b| - 1)));
      b[0] * Pow2(8 * (|b| - 1)) + Number(b[1..])
  }

  lemma LeadByte(x: Byte, r: nat, m: nat)
    requires r < m
    ensures x * m + r < Pow2(8) * m
  {
    assert Pow2(8) == 256;
    assert x * m <= 255 * m;
  }

  lemma {:induction false} PowAdd(a: nat, b: nat)
    ensures Pow2(a + b) == Pow2(a) * Pow2(b)
  {
    if a > 0 {
      PowAdd(a - 1, b);
      assert Pow2(a) * Pow2(b) == 2 * (Pow2(a - 1) * Pow2(b));
    }
  }

  lemma {:induction false} Multiple(a: nat, d: nat)
    requires a >= 1
    ensures a * d >= d
  {
    if a > 1 {
      Multiple(a - 1, d);
      assert a * d == (a - 1) * d + d;
    }
  }

  lemma Distribute(p: int, q: int, d: int)
    ensures (p - q) * d == p * d - q * d
  {
  }

  lemma Divided(x: nat, d: nat)
    requires d > 0
    ensures x == x / d * d + x % d && 0 <= x % d < d && 0 <= x / d
  {
  }

  /** Quotients are determined by what they leave. */
  lemma Quotient(x: nat, d: nat, q: nat, r: nat)
    requires d > 0 && x == q * d + r && r < d
    ensures x / d == q
  {
    Divided(x, d);
    var p := x / d;
    Distribute(p, q, d);
    Distribute(q, p, d);
    if p > q {
      Multiple(p - q, d);
    } else if p < q {
      Multiple(q - p, d);
    }
  }

  /** Dividing a value by a power that divides its leading weight: the lead stays whole. */
  lemma LeadThrough(x: nat, m: nat, r: nat, d: nat, k: nat)
    requires d > 0 && m == k * d && r < m
    ensures (x * m + r) / d == x * k + r / d && r / d < k
  {
    Divided(r, d);
    assert x * m == x * k * d;
    assert (x * k + r / d) * d == x * k * d + r / d * d;
    Quotient(x * m + r, d, x * k + r / d, r % d);
    if r / d >= k {
      Multiply(r / d, k, d);
    }
  }

  lemma Multiply(a: nat, b: nat, d: nat)
    requires a >= b
    ensures a * d >= b * d
  {
  }

  lemma SameLead(x: nat, y: nat, k: nat, u: nat, v: nat)
    requires u < k && v < k
    ensures x * k + u == y * k + v <==> x == y && u == v
  {
    if x * k + u == y * k + v {
      Distribute(x, y, k);
      Distribute(y, x, k);
      if x > y {
        Multiple(x - y, k);
      } else if y > x {
        Multiple(y - x, k);
      }
    }
  }

  /** Dividing past the lower bytes leaves the leading bits of the first. */
  lemma LeadCut(x: nat, m: nat, r: nat, s: nat)
    requires s > 0 && r < m
    ensures (x * m + r) / (s * m) == x / s
  {
    Divided(x, s);
    var q, t := x / s, x % s;
    assert x * m == (q * s + t) * m == q * (s * m) + t * m;
    assert t * m + r < s * m by {
      assert t + 1 <= s;
      Multiply(s, t + 1, m);
      assert (t + 1) * m == t * m + m;
    }
    assert s * m > 0;
    Quotient(x * m + r, s * m, q, t * m + r);
  }

  lemma MaskedEqual(x: Byte, y: Byte, bits: nat)
    requires bits <= 8
    ensures Masked(x, bits) == Masked(y, bits) <==> x / Pow2(8 - bits) == y / Pow2(8 - bits)
  {
    var s := Pow2(8 - bits);
    Distribute(x / s, y / s, s);
    Distribute(y / s, x / s, s);
    if Masked(x, bits) == Masked(y, bits) {
      if x / s > y / s {
        Multiple(x / s - y / s, s);
      } else if x / s < y / s {
        Multiple(y / s - x / s, s);
      }
    }
  }

  lemma NumberAt(b: seq<Byte>)
    requires b != []
    ensures Number(b) == b[0] * Pow2(8 * |b| - 8) + Number(b[1..]) && Number(b[1..]) < Pow2(8 * |b| - 8)
  {
    hide Pow2;
    assert 8 * (|b| - 1) == 8 * |b| - 8 == 8 * |b[1..]|;
  }

  /** A whole leading byte peeled off both values. */
  lemma PeelByte(c: seq<Byte>, n: seq<Byte>, p: nat)
    requires |c| == |n| && 8 <= p <= |n| * 8
    ensures Number(c) / Pow2(8 * |n| - p) == Number(n) / Pow2(8 * |n| - p) <==>
            c[0] == n[0] && Number(c[1..]) / Pow2(8 * |n| - p) == Number(n[1..]) / Pow2(8 * |n| - p)
  {
    hide Pow2, Number;
    var d, m, k := Pow2(8 * |n| - p), Pow2(8 * |n| - 8), Pow2(p - 8);
    NumberAt(c);
    NumberAt(n);
    PowAdd(p - 8, 8 * |n| - p);
    LeadThrough(c[0], m, Number(c[1..]), d, k);
    LeadThrough(n[0], m, Number(n[1..]), d, k);
    SameLead(c[0], n[0], k, Number(c[1..]) / d, Number(n[1..]) / d);
  }

  /** The masked bits of the leading byte are what is left of the values. */
  lemma CutByte(c: seq<Byte>, n: seq<Byte>, p: nat)
    requires |c| == |n| && 0 < p < 8 && p <= |n| * 8
    ensures Number(c) / Pow2(8 * |n| - p) == Number(n) / Pow2(8 * |n| - p) <==> Masked(c[0], p) == Masked(n[0], p)
  {
    hide Pow2, Number, Masked;
    var m, s := Pow2(8 * |n| - 8), Pow2(8 - p);
    NumberAt(c);
    NumberAt(n);
    PowAdd(8 - p, 8 * |n| - 8);
    LeadCut(c[0], m, Number(c[1..]), s);
    LeadCut(n[0], m, Number(n[1..]), s);
    MaskedEqual(c[0], n[0], p);
  }

  /** An address of w bits is in a block of prefix length p exactly when both big-endian values agree after
      division by two to the w - p. */
  lemma {:induction false} PrefixIsDivision(c: seq<Byte>, n: seq<Byte>, p: nat)
    requires |c| == |n| && p <= |n| * 8
    ensures InPrefix(c, n, p) <==> Number(c) / Pow2(8 * |n| - p) == Number(n) / Pow2(8 * |n| - p)
    decreases p
  {
    hide Masked, Pow2, Number;
    if p >= 8 {
      PrefixIsDivision(c[1..], n[1..], p - 8);
      PeelByte(c, n, p);
    } else if p > 0 {
      CutByte(c, n, p);
    } else {
      Whole(Number(c), Pow2(8 * |n|));
      Whole(Number(n), Pow2(8 * |n|));
    }
  }

  lemma Whole(x: nat, d: nat)
    requires x < d
    ensures x / d == 0
  {
    Quotient(x, d, 0, x);
  }

  // ------------------------------------------------------------------ blocks

  lemma DivideTwice(x: nat, a: nat, b: nat)
    requires a > 0 && b > 0
    ensures a * b > 0 && x / (a * b) == x / a / b
  {
    Divided(x, a);
    Divided(x / a, b);
    var q, r, q', r' := x / a, x % a, x / a / b, x / a % b;
    Multiple(b, a);
    assert x == (q' * b + r') * a + r == q' * (a * b) + (r' * a + r);
    assert r' * a + r < a * b by {
      Multiply(b, r' + 1, a);
      assert (r' + 1) * a == r' * a + a;
    }
    Quotient(x, a * b, q', r' * a + r);
  }

  /** Blocks of one length partition the addresses, and a longer prefix is inside each shorter one. */
  lemma BlocksPartitionAndNest(a: seq<Byte>, b: seq<Byte>, c: seq<Byte>, p: nat, q: nat)
    requires |a| == |b| == |c| && q <= p <= 8 * |a|
    ensures InPrefix(a, a, p)
    ensures InPrefix(a, b, p) <==> InPrefix(b, a, p)
    ensures InPrefix(a, b, p) && InPrefix(b, c, p) ==> InPrefix(a, c, p)
    ensures InPrefix(a, b, p) ==> InPrefix(a, b, q)
  {
    hide InPrefix, Pow2;
    var w := 8 * |a|;
    PrefixIsDivision(a, a, p);
    PrefixIsDivision(a, b, p);
    PrefixIsDivision(b, a, p);
    PrefixIsDivision(b, c, p);
    PrefixIsDivision(a, c, p);
    PrefixIsDivision(a, b, q);
    PowAdd(w - p, p - q);
    DivideTwice(Number(a), Pow2(w - p), Pow2(p - q));
    DivideTwice(Number(b), Pow2(w - p), Pow2(p - q));
  }

  /** Whether an address text is in a block text; texts that do not parse, and mismatched families, never are. */
  predicate IpInCidr(ip: string, cidr: string) {
    var candidate, block := ParseIpAddress(ip), ParseCidr(cidr);
    candidate.Some? && block.Some? && |candidate.value| == |block.value.address|
    && InPrefix(candidate.value, block.value.address, block.value.prefixLength)
  }

  method MatchCidr(ip: string, cidr: string) returns (inside: bool)
    ensures inside == IpInCidr(ip, cidr)
  {
    var candidate := ParseIpAddress(ip);
    var block := ParseCidr(cidr);
    if candidate.None? || block.None? {
      return false;
    }
    if |candidate.value| != |block.value.address| {
      return false;
    }
    inside := BytesInPrefix(candidate.value, block.value);
  }

  /** A token's policy: an empty list allows every address, otherwise one block must hold it. */
  predicate IpAllowed(ip: string, allowed: seq<string>) {
    allowed == [] || exists i :: 0 <= i < |allowed| && IpInCidr(ip, allowed[i])
  }

  /** The policy reads an address, not a spelling: texts of one canonical form are allowed alike. */
  lemma AllowedBySpelling(s: string, t: string, allowed: seq<string>)
    requires NormalizeIpAddress(s).Some? && NormalizeIpAddress(s) == NormalizeIpAddress(t)
    ensures IpAllowed(s, allowed) <==> IpAllowed(t, allowed)
  {
    NormalizeIsCanonical(s, t);
    forall i | 0 <= i < |allowed| ensures IpInCidr(s, allowed[i]) <==> IpInCidr(t, allowed[i]) {
    }
  }

  // ------------------------------------------------------------------ texts

  /** A block's text is an address, a slash and the decimal numeral of a length that fits it, and nothing else is. */
  lemma ParsesExactly(text: string, block: Block)
    ensures ParseCidr(text) == Some(block) <==>
            && block.prefixLength <= |block.address| * 8
            && exists host :: text == host + "/" + Decimal(block.prefixLength) && ParseIpAddress(host) == Some(block.address)
  {
    hide ParseCidr, ParseIpAddress, Decimal;
    if ParseCidr(text) == Some(block) {
      ParsedShape(text, block);
    }
    if host :| text == host + "/" + Decimal(block.prefixLength) && ParseIpAddress(host) == Some(block.address)
               && block.prefixLength <= |block.address| * 8
    {
      ShapeParses(host, block);
    }
  }

  lemma ParsedShape(text: string, block: Block)
    requires ParseCidr(text) == Some(block)
    ensures block.prefixLength <= |block.address| * 8
    ensures exists host :: text == host + "/" + Decimal(block.prefixLength) && ParseIpAddress(host) == Some(block.address)
  {
    hide ParseIpAddress;
    var slash := LastSlash(text, |text|);
    DecimalOfValue(text[slash + 1..]);
    assert text == text[..slash] + "/" + Decimal(block.prefixLength);
  }

  lemma ShapeParses(host: string, block: Block)
    requires ParseIpAddress(host) == Some(block.address) && block.prefixLength <= |block.address| * 8
    ensures ParseCidr(host + "/" + Decimal(block.prefixLength)) == Some(block)
  {
    AddressLength(host);
    hide ParseIpAddress;
    var text := host + "/" + Decimal(block.prefixLength);
    NumeralAfterSlash(host, block.prefixLength);
    assert text[..|host|] == host && text[|host| + 1..] == Decimal(block.prefixLength);
  }

  lemma AddressLength(host: string)
    ensures ParseIpAddress(host).Some? ==> |ParseIpAddress(host).value| <= 16
  {
  }

  lemma NumeralAfterSlash(host: string, n: nat)
    requires n <= 128
    ensures var text := host + "/" + Decimal(n); LastSlash(text, |text|) == |host|
    ensures 1 <= |Decimal(n)| <= 3 && Digits(Decimal(n)) && (|Decimal(n)| > 1 ==> Decimal(n)[0] != '0') && Value(Decimal(n)) == n
  {
    var text := host + "/" + Decimal(n);
    ValueOfDecimal(n);
    NoLeadingZero(n);
    OctetLength(n);
    assert text[|host|] == '/';
    forall i | |host| < i < |text| ensures text[i] != '/' {
      assert text[i] == Decimal(n)[i - |host| - 1];
    }
  }

  /** A policy without blocks lets every address in, and one with blocks exactly those whose value agrees with a block's
      in its leading bits, within the family. */
  lemma PolicyExactly(ip: string, allowed: seq<string>)
    ensures IpAllowed(ip, allowed) <==>
            allowed == [] || exists i :: 0 <= i < |allowed| && Holds(ParseCidr(allowed[i]), ParseIpAddress(ip))
  {
    hide ParseCidr, ParseIpAddress, InPrefix;
    forall i | 0 <= i < |allowed| ensures IpInCidr(ip, allowed[i]) <==> Holds(ParseCidr(allowed[i]), ParseIpAddress(ip)) {
      var candidate, block := ParseIpAddress(ip), ParseCidr(allowed[i]);
      if candidate.Some? && block.Some? && |candidate.value| == |block.value.address| {
        ParsedBlockFits(allowed[i]);
        PrefixIsDivision(candidate.value, block.value.address, block.value.prefixLength);
      }
    }
  }

  lemma ParsedBlockFits(text: string)
    requires ParseCidr(text).Some?
    ensures ParseCidr(text).value.prefixLength <= |ParseCidr(text).value.address| * 8
  {
  }

  /** The arithmetic meaning of a block. */
  predicate Holds(block: Option<Block>, address: Option<seq<Byte>>) {
    && block.Some? && address.Some? && |address.value| == |block.value.address|
    && block.value.prefixLength <= 8 * |address.value|
    && Number(address.value) / Pow2(8 * |address.value| - block.value.prefixLength)
       == Number(block.value.address) / Pow2(8 * |address.value| - block.value.prefixLength)
  }
}
