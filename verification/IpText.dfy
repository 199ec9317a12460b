/** IPv4 and IPv6 texts: the parsers, the printers and the canonical form. */
module IpText {
  import opened Ideal
  import opened Text

  // ------------------------------------------------------------------ IPv4

  function ParseOctet(text: string): (octet: Option<Byte>) {
    if |text| == 0 || |text| > 3 then None
    else if |text| > 1 && text[0] == '0' then None
    else if !Digits(text) then None
    else if Value(text) > 255 then None else Some(Value(text))
  }

  function ParseIpv4(text: string): (bytes: Option<seq<Byte>>)
    ensures bytes.Some? ==> |bytes.value| == 4
  {
    var parts := Split(text, '.');
    if |parts| != 4 then None
    else
      var a, b, c, d := ParseOctet(parts[0]), ParseOctet(parts[1]), ParseOctet(parts[2]), ParseOctet(parts[3]);
      if a.None? || b.None? || c.None? || d.None? then None else Some([a.value, b.value, c.value, d.value])
  }

  function Octets(bytes: seq<Byte>): seq<string> {
    seq(|bytes|, i requires 0 <= i < |bytes| => Decimal(bytes[i]))
  }

  function FormatIpv4(bytes: seq<Byte>): string {
    Join(Octets(bytes), '.')
  }

  lemma NoLeadingZero(n: nat)
    ensures |Decimal(n)| > 1 ==> Decimal(n)[0] != '0'
  {
  }

  lemma OctetLength(n: Byte)
    ensures |Decimal(n)| <= 3
  {
    if n >= 100 {
      assert |Decimal(n / 10 / 10)| == 1;
      assert |Decimal(n / 10)| == 2;
    }
  }

  /** An octet's text is exactly the numeral of its byte. */
  lemma OctetExactly(text: string, n: Byte)
    ensures ParseOctet(text) == Some(n) <==> text == Decimal(n)
  {
    ValueOfDecimal(n);
    NoLeadingZero(n);
    OctetLength(n);
    if ParseOctet(text) == Some(n) {
      DecimalOfValue(text);
    }
  }

  lemma DecimalHasNo(n: nat, sep: char)
    requires !IsDigit(sep)
    ensures sep !in Decimal(n)
  {
  }

  /** A dotted quad parses to four bytes exactly when it is their printed form. */
  lemma Ipv4Exactly(text: string, bytes: seq<Byte>)
    requires |bytes| == 4
    ensures ParseIpv4(text) == Some(bytes) <==> text == FormatIpv4(bytes)
  {
    var octets := Octets(bytes);
    forall i | 0 <= i < 4 ensures '.' !in octets[i] {
      DecimalHasNo(bytes[i], '.');
    }
    SplitOfJoin(octets, '.');
    JoinOfSplit(text, '.');
    var parts := Split(text, '.');
    if |parts| == 4 {
      OctetExactly(parts[0], bytes[0]);
      OctetExactly(parts[1], bytes[1]);
      OctetExactly(parts[2], bytes[2]);
      OctetExactly(parts[3], bytes[3]);
      assert bytes == [bytes[0], bytes[1], bytes[2], bytes[3]];
      assert octets == [octets[0], octets[1], octets[2], octets[3]];
      assert parts == [parts[0], parts[1], parts[2], parts[3]];
    }
  }

  // ------------------------------------------------------------------ hex groups

  type Group16 = n: nat | n < 65536

  function HexDigit(c: char): Option<nat> {
    if '0' <= c <= '9' then Some(c as int - '0' as int)
    else if 'a' <= c <= 'f' then Some(c as int - 'a' as int + 10)
    else if 'A' <= c <= 'F' then Some(c as int - 'A' as int + 10)
    else None
  }

  predicate HexDigits(s: string) {
    forall i :: 0 <= i < |s| ==> HexDigit(s[i]).Some? && HexDigit(s[i]).value < 16
  }

  function HexNumber(s: string): nat
    requires HexDigits(s)
  {
    if s == "" then 0 else 16 * HexNumber(s[..|s| - 1]) + HexDigit(s[|s| - 1]).value
  }

  function ParseHexGroup(text: string): (group: Option<nat>) {
    if |text| == 0 || |text| > 4 || !HexDigits(text) then None else Some(HexNumber(text))
  }

  lemma {:induction false} HexBound(s: string)
    requires HexDigits(s) && |s| <= 4
    ensures HexNumber(s) < (if |s| == 0 then 1 else if |s| == 1 then 16 else if |s| == 2 then 256 else if |s| == 3 then 4096 else 65536)
  {
    if s != "" {
      HexBound(s[..|s| - 1]);
    }
  }

  function LowerHex(v: nat): (c: char)
    requires v < 16
    ensures HexDigit(c) == Some(v) && c != ':' && c != '.'
  {
    if v < 10 then ('0' as int + v) as char else ('a' as int + (v - 10)) as char
  }

  /** group.toString(16). */
  function Rendered(n: nat): (s: string)
    ensures s != "" && HexDigits(s) && ':' !in s && '.' !in s
  {
    if n < 16 then [LowerHex(n)] else Rendered(n / 16) + [LowerHex(n % 16)]
  }

  lemma {:induction false} HexOfRendered(n: nat)
    ensures HexNumber(Rendered(n)) == n
  {
    if n >= 16 {
      HexOfRendered(n / 16);
      assert Rendered(n)[..|Rendered(n)| - 1] == Rendered(n / 16);
    } else {
      assert Rendered(n)[..0] == "";
    }
  }

  lemma GroupRendersBack(n: Group16)
    ensures ParseHexGroup(Rendered(n)) == Some(n)
  {
    HexOfRendered(n);
    assert n / 16 < 4096 && n / 16 / 16 < 256 && n / 16 / 16 / 16 < 16;
    assert |Rendered(n / 16 / 16 / 16)| == 1;
    assert |Rendered(n / 16 / 16)| <= 2;
    assert |Rendered(n / 16)| <= 3;
  }

  // ------------------------------------------------------------------ IPv6

  datatype Section = Section(groups: seq<nat>, ipv4: Option<seq<Byte>>)

  /** One side of the compression: hex groups, and a dotted quad as its last piece, which replaces any the
      other side had. */
  function ReadPieces(pieces: seq<string>, ipv4: Option<seq<Byte>>): (section: Option<Section>)
    ensures section.Some? && ipv4.Some? ==> section.value.ipv4.Some?
    ensures section.Some? && section.value.ipv4.Some? && (ipv4.Some? ==> |ipv4.value| == 4) ==> |section.value.ipv4.value| == 4
    ensures section.Some? ==> forall i :: 0 <= i < |section.value.groups| ==> section.value.groups[i] < 65536
    decreases |pieces|
  {
    if pieces == [] then Some(Section([], ipv4))
    else if '.' in pieces[0] then
      if |pieces| > 1 then None
      else
        match ParseIpv4(pieces[0])
        case None => None
        case Some(bytes) => Some(Section([], Some(bytes)))
    else
      match ParseHexGroup(pieces[0])
      case None => None
      case Some(group) =>
        match ReadPieces(pieces[1..], ipv4)
        case None => None
        case Some(rest) =>
          HexBound(pieces[0]);
          Some(Section([group] + rest.groups, rest.ipv4))
  }

  function ReadSection(text: string, ipv4: Option<seq<Byte>>): Option<Section> {
    if text == "" then Some(Section([], ipv4)) else ReadPieces(Split(text, ':'), ipv4)
  }

  predicate DoubleAt(text: string, i: int) {
    0 <= i < |text| - 1 && text[i] == ':' && text[i + 1] == ':'
  }

  predicate TripleAt(text: string, i: int) {
    0 <= i < |text| - 2 && text[i] == ':' && text[i + 1] == ':' && text[i + 2] == ':'
  }

  /** text.indexOf("::"), the length of the text when there is none. */
  function FirstDouble(text: string, from: nat): (i: nat)
    requires from <= |text|
    ensures from <= i <= |text|
    ensures i < |text| ==> DoubleAt(text, i)
    ensures forall j :: from <= j < i ==> !DoubleAt(text, j)
    decreases |text| - from
  {
    if from == |text| then from else if DoubleAt(text, from) then from else FirstDouble(text, from + 1)
  }

  /** text.lastIndexOf("::"), the length of the text when there is none. */
  function LastDouble(text: string, upTo: nat): (i: nat)
    requires upTo <= |text|
    ensures i < upTo || i == |text|
    ensures i < |text| ==> DoubleAt(text, i)
    ensures forall j :: (if i < |text| then i + 1 else 0) <= j < upTo ==> !DoubleAt(text, j)
  {
    if upTo == 0 then |text| else if DoubleAt(text, upTo - 1) then upTo - 1 else LastDouble(text, upTo - 1)
  }

  function BytesOf(groups: seq<nat>): (bytes: seq<Byte>)
    ensures |bytes| == 2 * |groups|
  {
    if groups == [] then [] else [groups[0] / 256 % 256, groups[0] % 256] + BytesOf(groups[1..])
  }

  function Zeros(n: nat): (bytes: seq<Byte>)
    ensures |bytes| == n
  {
    seq(n, _ => 0)
  }

  /** Both sides of the compression, which stands for at least one group. */
  function ParseSides(headText: string, tailText: string): (bytes: Option<seq<Byte>>)
    ensures bytes.Some? ==> |bytes.value| == 16
  {
    match ReadSection(headText, None)
    case None => None
    case Some(head) =>
      match ReadSection(tailText, head.ipv4)
      case None => None
      case Some(tail) =>
        var tailBytes := |tail.groups| * 2 + if tail.ipv4.None? then 0 else 4;
        var headBytes := |head.groups| * 2;
        if headBytes + tailBytes > 14 then None
        else
          var quad := if tail.ipv4.None? then [] else tail.ipv4.value;
          Some(BytesOf(head.groups) + Zeros(16 - headBytes - tailBytes) + BytesOf(tail.groups) + quad)
  }

  function ParsePlain(text: string): (bytes: Option<seq<Byte>>)
    ensures bytes.Some? ==> |bytes.value| == 16
  {
    match ReadSection(text, None)
    case None => None
    case Some(head) =>
      if |head.groups| != (if head.ipv4.None? then 8 else 6) then None
      else Some(if head.ipv4.None? then BytesOf(head.groups) else BytesOf(head.groups) + head.ipv4.value)
  }

  predicate HasTriple(text: string) {
    exists i :: 0 <= i < |text| && TripleAt(text, i)
  }

  function ParseIpv6(text: string): (bytes: Option<seq<Byte>>)
    ensures bytes.Some? ==> |bytes.value| == 16
  {
    if HasTriple(text) then None
    else
      var at := FirstDouble(text, 0);
      if at != LastDouble(text, |text|) then None
      else if at == |text| then ParsePlain(text)
      else ParseSides(text[..at], text[at + 2..])
  }

  // ------------------------------------------------------------------ printing

  function Word(high: nat, low: nat): nat {
    high * 256 + low
  }

  function GroupsOf(bytes: seq<Byte>): (groups: seq<nat>)
    requires |bytes| % 2 == 0
    ensures |groups| == |bytes| / 2
    ensures forall i :: 0 <= i < |groups| ==> groups[i] < 65536
  {
    if bytes == [] then [] else [Word(bytes[0], bytes[1])] + GroupsOf(bytes[2..])
  }

  lemma WordSplits(high: Byte, low: Byte)
    ensures Word(high, low) / 256 % 256 == high && Word(high, low) % 256 == low && Word(high, low) < 65536
  {
  }

  lemma {:induction false} BytesOfGroups(bytes: seq<Byte>)
    requires |bytes| % 2 == 0
    ensures BytesOf(GroupsOf(bytes)) == bytes
  {
    if bytes != [] {
      BytesOfGroups(bytes[2..]);
      WordSplits(bytes[0], bytes[1]);
      assert GroupsOf(bytes)[1..] == GroupsOf(bytes[2..]);
      assert bytes == [bytes[0], bytes[1]] + bytes[2..];
    }
  }

  /** How many zero groups start at i. */
  function RunAt(groups: seq<nat>, i: nat): (n: nat)
    ensures i + n <= |groups| || n == 0
    ensures forall j :: i <= j < i + n ==> j < |groups| && groups[j] == 0
    ensures i + n < |groups| ==> groups[i + n] != 0
    decreases |groups| - i
  {
    if i >= |groups| || groups[i] != 0 then 0 else 1 + RunAt(groups, i + 1)
  }

  datatype Run = Run(start: nat, length: nat)

  /** The first longest run of zeros, of length 0 when there is none. */
  predicate FirstLongest(groups: seq<nat>, run: Run) {
    && (run.length > 0 ==> RunAt(groups, run.start) == run.length)
    && (forall j: nat :: j <= |groups| ==> RunAt(groups, j) <= run.length)
    && (run.length > 0 ==> forall j: nat :: j < run.start ==> RunAt(groups, j) < run.length)
  }

  function Best(groups: seq<nat>, from: nat): (run: Run)
    requires from <= |groups|
    ensures run.start >= from && (run.length == 0 ==> run.start == |groups|)
    ensures run.length > 0 ==> RunAt(groups, run.start) == run.length
    ensures forall j: nat :: from <= j <= |groups| ==> RunAt(groups, j) <= run.length
    ensures forall j: nat :: from <= j < run.start && j < |groups| && run.length > 0 ==> RunAt(groups, j) < run.length
    decreases |groups| - from
  {
    if from == |groups| then Run(from, 0)
    else
      var later := Best(groups, from + 1);
      var here := RunAt(groups, from);
      if here > 0 && here >= later.length then Run(from, here) else later
  }

  function RenderedGroups(groups: seq<nat>): seq<string> {
    seq(|groups|, i requires 0 <= i < |groups| => Rendered(groups[i]))
  }

  /** The text with the run from start of that length compressed, or none when it is below two. */
  function Printed(groups: seq<nat>, run: Run): string
    requires run.length >= 2 ==> run.start + run.length <= |groups|
  {
    var rendered := RenderedGroups(groups);
    if run.length < 2 then Join(rendered, ':')
    else Join(rendered[..run.start], ':') + "::" + Join(rendered[run.start + run.length..], ':')
  }

  function FormatIpv6(bytes: seq<Byte>): string
    requires |bytes| == 16
  {
    var groups := GroupsOf(bytes);
    var run := Best(groups, 0);
    Printed(groups, run)
  }

  // ------------------------------------------------------------------ where a double colon can be

  predicate NoDouble(text: string) {
    forall i :: 0 <= i < |text| ==> !DoubleAt(text, i)
  }

  /** Neither end of the text is a colon. */
  predicate Bounded(text: string) {
    text != "" ==> text[0] != ':' && text[|text| - 1] != ':'
  }

  lemma {:induction false} JoinedHasNoDouble(parts: seq<string>)
    requires forall i :: 0 <= i < |parts| ==> parts[i] != "" && ':' !in parts[i]
    ensures NoDouble(Join(parts, ':')) && Bounded(Join(parts, ':')) && (parts != [] ==> Join(parts, ':') != "")
    ensures parts != [] ==> Join(parts, ':')[0] == parts[0][0]
  {
    if |parts| > 1 {
      JoinedHasNoDouble(parts[1..]);
      var head, rest := parts[0], Join(parts[1..], ':');
      var text := Join(parts, ':');
      assert text == head + [':'] + rest;
      forall i | 0 <= i < |text| - 1 ensures !DoubleAt(text, i) {
        if i < |head| {
          assert text[i] == head[i];
        } else if i > |head| {
          assert text[i] == rest[i - |head| - 1] && text[i + 1] == rest[i - |head|];
          assert !DoubleAt(rest, i - |head| - 1);
        } else {
          assert text[i + 1] == rest[0];
        }
      }
      assert text[|text| - 1] == rest[|rest| - 1];
    }
  }

  /** Around a compression between two such texts there is exactly one double colon, and no triple. */
  lemma OneDouble(h: string, u: string)
    requires NoDouble(h) && NoDouble(u) && Bounded(h) && Bounded(u)
    ensures var text := h + "::" + u;
            && text[..|h|] == h && text[|h| + 2..] == u && |h| < |text|
            && (forall i :: 0 <= i < |text| ==> !TripleAt(text, i))
            && (forall i :: 0 <= i < |text| ==> (DoubleAt(text, i) <==> i == |h|))
  {
    var text := h + "::" + u;
    forall i | 0 <= i < |text| ensures DoubleAt(text, i) <==> i == |h| {
      if i < |h| - 1 {
        assert text[i] == h[i] && text[i + 1] == h[i + 1];
        assert !DoubleAt(h, i);
      } else if i == |h| - 1 {
        assert text[i] == h[|h| - 1];
      } else if i == |h| + 1 {
        assert i + 1 < |text| ==> text[i + 1] == u[0];
      } else if i > |h| + 1 {
        assert text[i] == u[i - |h| - 2];
        assert i + 1 < |text| ==> text[i + 1] == u[i - |h| - 1];
        assert !DoubleAt(u, i - |h| - 2);
      }
    }
    forall i | 0 <= i < |text| ensures !TripleAt(text, i) {
      assert TripleAt(text, i) ==> DoubleAt(text, i) && DoubleAt(text, i + 1);
    }
  }

  lemma FoundDouble(text: string, at: nat)
    requires at < |text| && forall i :: 0 <= i < |text| ==> (DoubleAt(text, i) <==> i == at)
    ensures FirstDouble(text, 0) == at && LastDouble(text, |text|) == at
  {
    assert DoubleAt(text, at);
  }

  lemma NotFound(text: string)
    requires NoDouble(text)
    ensures FirstDouble(text, 0) == |text| && LastDouble(text, |text|) == |text|
    ensures forall i :: 0 <= i < |text| ==> !TripleAt(text, i)
  {
    forall i | 0 <= i < |text| ensures !TripleAt(text, i) {
      assert !DoubleAt(text, i);
    }
  }

  // ------------------------------------------------------------------ print, then parse

  predicate Groups(groups: seq<nat>) {
    forall i :: 0 <= i < |groups| ==> groups[i] < 65536
  }

  lemma {:induction false} PiecesReadBack(groups: seq<nat>, ipv4: Option<seq<Byte>>)
    requires Groups(groups)
    ensures ReadPieces(RenderedGroups(groups), ipv4) == Some(Section(groups, ipv4))
    decreases |groups|
  {
    if groups != [] {
      var parts := RenderedGroups(groups);
      assert parts[1..] == RenderedGroups(groups[1..]);
      PiecesReadBack(groups[1..], ipv4);
      GroupRendersBack(groups[0]);
      assert groups == [groups[0]] + groups[1..];
    }
  }

  lemma SectionReadsBack(groups: seq<nat>)
    requires Groups(groups)
    ensures ReadSection(Join(RenderedGroups(groups), ':'), None) == Some(Section(groups, None))
    ensures NoDouble(Join(RenderedGroups(groups), ':')) && Bounded(Join(RenderedGroups(groups), ':'))
  {
    var parts := RenderedGroups(groups);
    JoinedHasNoDouble(parts);
    if groups != [] {
      SplitOfJoin(parts, ':');
      PiecesReadBack(groups, None);
    }
  }

  lemma {:induction false} BytesOfConcat(a: seq<nat>, b: seq<nat>)
    ensures BytesOf(a + b) == BytesOf(a) + BytesOf(b)
  {
    if a == [] {
      assert a + b == b;
    } else {
      BytesOfConcat(a[1..], b);
      assert (a + b)[1..] == a[1..] + b;
    }
  }

  lemma {:induction false} BytesOfZeros(groups: seq<nat>)
    requires forall i :: 0 <= i < |groups| ==> groups[i] == 0
    ensures BytesOf(groups) == Zeros(2 * |groups|)
  {
    if groups != [] {
      BytesOfZeros(groups[1..]);
      assert Zeros(2 * |groups|) == [0, 0] + Zeros(2 * |groups[1..]|);
    }
  }

  /** An uncompressed text of eight groups. */
  lemma PlainParses(groups: seq<nat>)
    requires Groups(groups) && |groups| == 8
    ensures ParseIpv6(Join(RenderedGroups(groups), ':')) == Some(BytesOf(groups))
  {
    hide ReadPieces, FirstDouble, LastDouble, Join;
    SectionReadsBack(groups);
    NotFound(Join(RenderedGroups(groups), ':'));
  }

  lemma SidesParse(head: seq<nat>, tail: seq<nat>)
    requires Groups(head) && Groups(tail) && |head| + |tail| <= 6
    ensures ParseSides(Join(RenderedGroups(head), ':'), Join(RenderedGroups(tail), ':'))
         == Some(BytesOf(head) + Zeros(16 - 2 * |head| - 2 * |tail|) + BytesOf(tail) + [])
  {
    hide ReadSection, Join, BytesOf;
    SectionReadsBack(head);
    SectionReadsBack(tail);
  }

  /** A text with a compression between two lists of groups. */
  lemma CompressedParses(head: seq<nat>, tail: seq<nat>)
    requires Groups(head) && Groups(tail) && |head| + |tail| <= 6
    ensures ParseIpv6(Join(RenderedGroups(head), ':') + "::" + Join(RenderedGroups(tail), ':'))
         == Some(BytesOf(head) + Zeros(16 - 2 * |head| - 2 * |tail|) + BytesOf(tail) + [])
  {
    hide ReadSection, ParseSides, ParsePlain, FirstDouble, LastDouble, Join, BytesOf;
    var h, u := Join(RenderedGroups(head), ':'), Join(RenderedGroups(tail), ':');
    SectionReadsBack(head);
    SectionReadsBack(tail);
    OneDouble(h, u);
    FoundDouble(h + "::" + u, |h|);
    SidesParse(head, tail);
  }

  /** Whatever run of two or more zeros is compressed, or none, the printed text parses back. */
  lemma PrintedParses(bytes: seq<Byte>, run: Run)
    requires |bytes| == 16 && run.start + run.length <= 8
    requires forall i :: run.start <= i < run.start + run.length ==> GroupsOf(bytes)[i] == 0
    ensures ParseIpv6(Printed(GroupsOf(bytes), run)) == Some(bytes)
  {
    hide ParseIpv6, Join, GroupsOf, BytesOf, Rendered;
    var groups := GroupsOf(bytes);
    BytesOfGroups(bytes);
    if run.length < 2 {
      PlainParses(groups);
    } else {
      var head, zeros, tail := groups[..run.start], groups[run.start..run.start + run.length], groups[run.start + run.length..];
      assert RenderedGroups(groups)[..run.start] == RenderedGroups(head);
      assert RenderedGroups(groups)[run.start + run.length..] == RenderedGroups(tail);
      CompressedParses(head, tail);
      assert groups == head + (zeros + tail);
      BytesOfConcat(head, zeros + tail);
      BytesOfConcat(zeros, tail);
      BytesOfZeros(zeros);
      assert BytesOf(head) + (Zeros(2 * run.length) + BytesOf(tail)) == BytesOf(head) + Zeros(2 * run.length) + BytesOf(tail) + [];
    }
  }

  /** Printing then parsing is the identity on every 16-byte address, and the text compresses the first longest
      run of zero groups exactly when that run has at least two, as section 4.2 of RFC 5952 asks. */
  lemma Ipv6RoundTrip(bytes: seq<Byte>)
    requires |bytes| == 16
    ensures ParseIpv6(FormatIpv6(bytes)) == Some(bytes)
    ensures exists run :: FirstLongest(GroupsOf(bytes), run) && run.start + run.length <= 8
                          && FormatIpv6(bytes) == Printed(GroupsOf(bytes), run)
  {
    var groups := GroupsOf(bytes);
    var run := Best(groups, 0);
    assert FirstLongest(groups, run);
    if run.length > 0 {
      assert RunAt(groups, run.start) == run.length;
    }
    PrintedParses(bytes, run);
  }

  lemma {:induction false} RunExact(groups: seq<nat>, from: nat, to: nat)
    requires from <= to <= |groups| && forall i :: from <= i < to ==> groups[i] == 0
    requires to == |groups| || groups[to] != 0
    ensures RunAt(groups, from) == to - from
    decreases |groups| - from
  {
    if from < to {
      RunExact(groups, from + 1, to);
    }
  }

  lemma RunIsUnique(groups: seq<nat>, a: Run, b: Run)
    requires FirstLongest(groups, a) && FirstLongest(groups, b)
    requires (a.length > 0 ==> a.start <= |groups|) && (b.length > 0 ==> b.start <= |groups|)
    ensures a.length == b.length && (a.length > 0 ==> a.start == b.start)
  {
    assert b.length > 0 ==> RunAt(groups, b.start) <= a.length;
    assert a.length > 0 ==> RunAt(groups, a.start) <= b.length;
  }

  /** The printer's scan for the run to compress. */
  method FindRun(groups: seq<nat>) returns (bestStart: int, bestLength: nat)
    ensures bestLength == 0 <==> bestStart == -1
    ensures bestLength == Best(groups, 0).length && (bestLength > 0 ==> bestStart == Best(groups, 0).start)
  {
    bestStart, bestLength := -1, 0;
    var runStart := -1;
    for index := 0 to |groups| + 1
      invariant -1 <= runStart < index && (index == |groups| + 1 ==> runStart == -1)
      invariant runStart >= 0 ==> forall i :: runStart <= i < index ==> groups[i] == 0
      invariant bestLength == 0 <==> bestStart == -1
      invariant bestLength > 0 ==> 0 <= bestStart < index && RunAt(groups, bestStart) == bestLength
      invariant forall j: nat :: j < (if runStart >= 0 then runStart else index) ==> RunAt(groups, j) <= bestLength
      invariant forall j: nat :: j < bestStart ==> RunAt(groups, j) < bestLength
    {
      var isZero := index < |groups| && groups[index] == 0;
      if isZero && runStart < 0 {
        runStart := index;
      }
      if !isZero && runStart >= 0 {
        var runLength := index - runStart;
        forall j: nat | runStart <= j <= index && j <= |groups| ensures RunAt(groups, j) == index - j {
          RunExact(groups, j, index);
        }
        if runLength > bestLength {
          bestLength := runLength;
          bestStart := runStart;
        }
        runStart := -1;
      }
    }
    var best := Best(groups, 0);
    assert FirstLongest(groups, best);
    var run := Run(if bestLength > 0 then bestStart else 0, bestLength);
    assert FirstLongest(groups, run);
    RunIsUnique(groups, run, best);
  }

  method ReadGroups(bytes: seq<Byte>) returns (groups: seq<nat>)
    requires |bytes| == 16
    ensures groups == GroupsOf(bytes)
  {
    hide Word;
    groups := [];
    for i := 0 to 8
      invariant |groups| == i && groups + GroupsOf(bytes[2 * i..]) == GroupsOf(bytes)
    {
      var rest := bytes[2 * i..];
      var word := Word(bytes[2 * i], bytes[2 * i + 1]);
      assert rest[2..] == bytes[2 * (i + 1)..];
      assert groups + ([word] + GroupsOf(rest[2..])) == (groups + [word]) + GroupsOf(rest[2..]);
      groups := groups + [word];
    }
    assert bytes[16..] == [];
  }

  /** The printer: what it writes parses back to what it was given. */
  method PrintIpv6(bytes: seq<Byte>) returns (text: string)
    requires |bytes| == 16
    ensures text == FormatIpv6(bytes) && ParseIpv6(text) == Some(bytes)
  {
    hide ParseIpv6, Join, Rendered, GroupsOf, Best, RunAt, FirstLongest;
    var groups := ReadGroups(bytes);
    Ipv6RoundTrip(bytes);
    var bestStart, bestLength := FindRun(groups);
    var rendered := RenderedGroups(groups);
    if bestLength < 2 {
      return Join(rendered, ':');
    }
    return Join(rendered[..bestStart], ':') + "::" + Join(rendered[bestStart + bestLength..], ':');
  }

  // ------------------------------------------------------------------ the canonical form

  const MAPPED: seq<Byte> := [0, 0, 0, 0, 0, 0, 0, 0, 0, 0, 255, 255]

  /** An IPv4-mapped IPv6 address comes back as its four bytes. */
  function ParseIpAddress(text: string): (bytes: Option<seq<Byte>>)
    ensures bytes.Some? ==> |bytes.value| == 4 || (|bytes.value| == 16 && bytes.value[..12] != MAPPED)
  {
    if ':' in text then
      match ParseIpv6(text)
      case None => None
      case Some(bytes) => Some(if bytes[..12] == MAPPED then bytes[12..] else bytes)
    else ParseIpv4(text)
  }

  function Canonical(bytes: seq<Byte>): string
    requires |bytes| == 4 || |bytes| == 16
  {
    if |bytes| == 4 then FormatIpv4(bytes) else FormatIpv6(bytes)
  }

  function NormalizeIpAddress(text: string): Option<string> {
    match ParseIpAddress(text)
    case None => None
    case Some(bytes) => Some(Canonical(bytes))
  }

  lemma {:induction false} JoinAvoids(parts: seq<string>, sep: char, c: char)
    requires c != sep && forall i :: 0 <= i < |parts| ==> c !in parts[i]
    ensures c !in Join(parts, sep)
  {
    if |parts| > 1 {
      JoinAvoids(parts[1..], sep, c);
    }
  }

  lemma Ipv4HasNoColon(bytes: seq<Byte>)
    requires |bytes| == 4
    ensures ':' !in FormatIpv4(bytes)
  {
    forall i | 0 <= i < 4 ensures ':' !in Octets(bytes)[i] {
      DecimalHasNo(bytes[i], ':');
    }
    JoinAvoids(Octets(bytes), '.', ':');
  }

  lemma PrintedHasColon(groups: seq<nat>, run: Run)
    requires |groups| == 8 && (run.length >= 2 ==> run.start + run.length <= 8)
    ensures ':' in Printed(groups, run)
  {
    var rendered := RenderedGroups(groups);
    if run.length < 2 {
      assert Join(rendered, ':') == rendered[0] + [':'] + Join(rendered[1..], ':');
      assert Join(rendered, ':')[|rendered[0]|] == ':';
    } else {
      assert Printed(groups, run)[|Join(rendered[..run.start], ':')|] == ':';
    }
  }

  /** The canonical text of an address parses to that address. */
  lemma CanonicalParses(bytes: seq<Byte>)
    requires |bytes| == 4 || (|bytes| == 16 && bytes[..12] != MAPPED)
    ensures ParseIpAddress(Canonical(bytes)) == Some(bytes)
  {
    if |bytes| == 4 {
      Ipv4HasNoColon(bytes);
      Ipv4Exactly(FormatIpv4(bytes), bytes);
    } else {
      Ipv6RoundTrip(bytes);
      PrintedHasColon(GroupsOf(bytes), Best(GroupsOf(bytes), 0));
    }
  }

  /** Normalising is idempotent and names one address, the IPv4-mapped collapse included: two texts have one
      canonical form exactly when they parse to the same bytes. */
  lemma NormalizeIsCanonical(s: string, t: string)
    requires NormalizeIpAddress(s).Some? && NormalizeIpAddress(t).Some?
    ensures NormalizeIpAddress(NormalizeIpAddress(s).value) == NormalizeIpAddress(s)
    ensures NormalizeIpAddress(s) == NormalizeIpAddress(t) <==> ParseIpAddress(s) == ParseIpAddress(t)
  {
    hide ParseIpAddress, Canonical;
    CanonicalParses(ParseIpAddress(s).value);
    CanonicalParses(ParseIpAddress(t).value);
  }

  lemma QuadText()
    ensures ParseIpv4("1.2.3.4") == Some([1, 2, 3, 4])
  {
    var octets := Octets([1, 2, 3, 4]);
    assert octets == ["1", "2", "3", "4"];
    assert Join(["3", "4"], '.') == "3.4" by {
      assert ["3", "4"][1..] == ["4"];
    }
    assert Join(["2", "3", "4"], '.') == "2.3.4" by {
      assert ["2", "3", "4"][1..] == ["3", "4"];
    }
    assert Join(octets, '.') == "1.2.3.4" by {
      assert octets[1..] == ["2", "3", "4"];
    }
    Ipv4Exactly("1.2.3.4", [1, 2, 3, 4]);
  }

  lemma QuadSection()
    ensures ReadSection("1.2.3.4", None) == Some(Section([], Some([1, 2, 3, 4])))
  {
    hide ParseIpv4, Split;
    var quad := "1.2.3.4";
    SplitPrefix(quad, "", ':');
    QuadText();
    assert quad[1] == '.';
  }

  /** The parser takes more than the address grammar of RFC 4291: a dotted quad before the compression. */
  lemma QuadBeforeCompression()
    ensures ParseIpv6("1.2.3.4::") == Some(Zeros(12) + [1, 2, 3, 4])
  {
    hide ReadPieces, FirstDouble, LastDouble, ParsePlain, Split;
    var quad: string := "1.2.3.4";
    var none: string := "";
    QuadSection();
    OneDouble(quad, none);
    assert quad + "::" + none == "1.2.3.4::";
    FoundDouble("1.2.3.4::", 7);
    assert BytesOf([]) + Zeros(12) + BytesOf([]) + [1, 2, 3, 4] == Zeros(12) + [1, 2, 3, 4];
  }
}
