/** The address grammar of section 2.2 of RFC 4291 with the bytes each text denotes, and exactly where the
    parser agrees with it. */
module Ipv6Grammar {
  import opened Ideal
  import opened Text
  import opened IpText

  /** One to four hexadecimal digits each. */
  predicate GroupTexts(pieces: seq<string>) {
    forall i :: 0 <= i < |pieces| ==> 1 <= |pieces[i]| <= 4 && HexDigits(pieces[i])
  }

  function Values(pieces: seq<string>): (values: seq<nat>)
    requires GroupTexts(pieces)
  {
    seq(|pieces|, i requires 0 <= i < |pieces| => HexNumber(pieces[i]))
  }

  ghost predicate GroupsDenote(text: string, bytes: seq<Byte>) {
    exists pieces :: text == Join(pieces, ':') && GroupTexts(pieces) && bytes == BytesOf(Values(pieces))
  }

  /** Groups, and after them a dotted quad. */
  ghost predicate MixedDenotes(text: string, bytes: seq<Byte>) {
    exists pieces, quad :: |quad| == 4 && text == Join(pieces + [FormatIpv4(quad)], ':') && GroupTexts(pieces)
                           && bytes == BytesOf(Values(pieces)) + quad
  }

  ghost predicate SideDenotes(text: string, bytes: seq<Byte>) {
    GroupsDenote(text, bytes) || MixedDenotes(text, bytes)
  }

  /** What stands before and after one compression of at least one group. */
  ghost predicate Compresses(text: string, h: string, u: string, before: seq<Byte>, after: seq<Byte>) {
    text == h + "::" + u && GroupsDenote(h, before) && SideDenotes(u, after) && |before| + |after| <= 14
  }

  /** The three text forms of an address, and the sixteen bytes each stands for. */
  ghost predicate Denotes(text: string, bytes: seq<Byte>) {
    && |bytes| == 16
    && (SideDenotes(text, bytes)
        || exists h, u, before, after :: Compresses(text, h, u, before, after)
             && bytes == before + Zeros(16 - |before| - |after|) + after)
  }

  // ------------------------------------------------------------------ one side

  function Bytes(section: Section): (bytes: seq<Byte>) {
    BytesOf(section.groups) + if section.ipv4.None? then [] else section.ipv4.value
  }

  lemma GroupHasNo(piece: string)
    requires HexDigits(piece)
    ensures '.' !in piece && ':' !in piece
  {
  }

  lemma QuadHasDot(quad: seq<Byte>)
    requires |quad| == 4
    ensures '.' in FormatIpv4(quad) && ':' !in FormatIpv4(quad) && ParseIpv4(FormatIpv4(quad)) == Some(quad)
  {
    var octets := Octets(quad);
    Ipv4Exactly(FormatIpv4(quad), quad);
    Ipv4HasNoColon(quad);
    assert Join(octets, '.')[|octets[0]|] == '.';
  }

  lemma {:induction false} GroupPieces(pieces: seq<string>)
    requires GroupTexts(pieces)
    ensures ReadPieces(pieces, None) == Some(Section(Values(pieces), None))
  {
    if pieces != [] {
      GroupHasNo(pieces[0]);
      GroupPieces(pieces[1..]);
      assert Values(pieces) == [HexNumber(pieces[0])] + Values(pieces[1..]);
    }
  }

  lemma {:induction false} MixedPieces(pieces: seq<string>, quad: seq<Byte>)
    requires GroupTexts(pieces) && |quad| == 4
    ensures ReadPieces(pieces + [FormatIpv4(quad)], None) == Some(Section(Values(pieces), Some(quad)))
  {
    hide FormatIpv4, ParseIpv4;
    QuadHasDot(quad);
    var all := pieces + [FormatIpv4(quad)];
    if pieces != [] {
      GroupHasNo(pieces[0]);
      MixedPieces(pieces[1..], quad);
      assert all[1..] == pieces[1..] + [FormatIpv4(quad)];
      assert Values(pieces) == [HexNumber(pieces[0])] + Values(pieces[1..]);
    } else {
      assert all == [FormatIpv4(quad)] && Values(pieces) == [];
    }
  }

  /** Whatever pieces are read, they are groups, with a quad at most in the last place. */
  lemma {:induction false} PiecesRead(pieces: seq<string>)
    requires ReadPieces(pieces, None).Some?
    ensures var section, last := ReadPieces(pieces, None).value, |pieces| - 1;
            if section.ipv4.None? then GroupTexts(pieces) && section.groups == Values(pieces)
            else && last >= 0 && GroupTexts(pieces[..last]) && section.groups == Values(pieces[..last])
                 && |section.ipv4.value| == 4 && pieces[last] == FormatIpv4(section.ipv4.value)
    decreases |pieces|
  {
    hide FormatIpv4, ParseIpv4;
    if pieces == [] {
    } else if '.' in pieces[0] {
      assert |pieces| == 1 && pieces[..0] == [];
      Ipv4Exactly(pieces[0], ParseIpv4(pieces[0]).value);
    } else {
      PiecesRead(pieces[1..]);
      var section := ReadPieces(pieces, None).value;
      if section.ipv4.None? {
        assert Values(pieces) == [HexNumber(pieces[0])] + Values(pieces[1..]);
      } else {
        var front := pieces[..|pieces| - 1];
        assert front[1..] == pieces[1..][..|pieces[1..]| - 1];
        assert Values(front) == [HexNumber(pieces[0])] + Values(front[1..]);
      }
    }
  }

  /** Such a text has no double colon and no colon at either end. */
  lemma SideShape(text: string, bytes: seq<Byte>)
    requires SideDenotes(text, bytes)
    ensures NoDouble(text) && Bounded(text) && |bytes| % 2 == 0
    ensures ReadSection(text, None).Some? && Bytes(ReadSection(text, None).value) == bytes
    ensures GroupsDenote(text, bytes) ==> ReadSection(text, None).value.ipv4.None?
  {
    hide FormatIpv4, ParseIpv4, ReadPieces, Join, Split, HexDigits;
    if GroupsDenote(text, bytes) {
      var pieces :| text == Join(pieces, ':') && GroupTexts(pieces) && bytes == BytesOf(Values(pieces));
      forall i | 0 <= i < |pieces| ensures ':' !in pieces[i] {
        GroupHasNo(pieces[i]);
      }
      JoinedHasNoDouble(pieces);
      GroupPieces(pieces);
      NoPieces(pieces);
      if pieces != [] {
        SplitOfJoin(pieces, ':');
      }
    } else {
      var pieces, quad :| |quad| == 4 && text == Join(pieces + [FormatIpv4(quad)], ':') && GroupTexts(pieces)
                          && bytes == BytesOf(Values(pieces)) + quad;
      QuadHasDot(quad);
      var all := pieces + [FormatIpv4(quad)];
      forall i | 0 <= i < |all| ensures ':' !in all[i] && all[i] != "" {
        if i < |pieces| {
          GroupHasNo(pieces[i]);
        }
      }
      JoinedHasNoDouble(all);
      MixedPieces(pieces, quad);
      SplitOfJoin(all, ':');
    }
  }

  lemma NoPieces(pieces: seq<string>)
    ensures pieces == [] ==> Join(pieces, ':') == "" && ReadPieces(pieces, None) == Some(Section([], None))
  {
  }

  /** Whatever the section reader takes is one side of an address, and it has a dot exactly when it has a quad. */
  lemma SectionDenotes(text: string)
    requires ReadSection(text, None).Some?
    ensures var section := ReadSection(text, None).value;
            && SideDenotes(text, Bytes(section))
            && (section.ipv4.None? ==> GroupsDenote(text, Bytes(section)))
            && (section.ipv4.None? <==> '.' !in text)
            && |Bytes(section)| == 2 * |section.groups| + if section.ipv4.None? then 0 else 4
  {
    hide FormatIpv4, ParseIpv4, ReadPieces, Split, HexDigits;
    if text == "" {
      assert Join([], ':') == "" && GroupTexts([]);
      assert Values([]) == [] && BytesOf(Values([])) == [];
    } else {
      var pieces := Split(text, ':');
      JoinOfSplit(text, ':');
      PiecesRead(pieces);
      var section := ReadPieces(pieces, None).value;
      if section.ipv4.None? {
        forall i | 0 <= i < |pieces| ensures '.' !in pieces[i] {
          GroupHasNo(pieces[i]);
        }
        JoinAvoids(pieces, ':', '.');
      } else {
        var front := pieces[..|pieces| - 1];
        assert pieces == front + [FormatIpv4(section.ipv4.value)];
        QuadHasDot(section.ipv4.value);
        LastInJoin(pieces, '.');
      }
    }
  }

  lemma {:induction false} LastInJoin(parts: seq<string>, c: char)
    requires parts != [] && c in parts[|parts| - 1]
    ensures c in Join(parts, ':')
  {
    if |parts| > 1 {
      LastInJoin(parts[1..], c);
      assert c in Join(parts[1..], ':');
    }
  }

  // ------------------------------------------------------------------ the whole text

  /** A dot before the first double colon. */
  predicate QuadBefore(text: string) {
    FirstDouble(text, 0) < |text| && '.' in text[..FirstDouble(text, 0)]
  }

  lemma PlainDenotes(text: string, bytes: seq<Byte>)
    requires NoDouble(text) && |bytes| == 16
    ensures ParseIpv6(text) == Some(bytes) <==> SideDenotes(text, bytes)
  {
    hide ReadSection, FirstDouble, LastDouble, GroupsDenote, MixedDenotes, HasTriple;
    NotFound(text);
    assert !HasTriple(text) by {
      NoTriple(text);
    }
    if SideDenotes(text, bytes) {
      SideShape(text, bytes);
    }
    if ReadSection(text, None).Some? {
      SectionDenotes(text);
      var groups := BytesOf(ReadSection(text, None).value.groups);
      assert groups + [] == groups;
    }
  }

  lemma NoTriple(text: string)
    requires forall i :: 0 <= i < |text| ==> !TripleAt(text, i)
    ensures !HasTriple(text)
  {
  }

  lemma CompressedDenotes(text: string, h: string, u: string, before: seq<Byte>, after: seq<Byte>)
    requires Compresses(text, h, u, before, after)
    ensures ParseIpv6(text) == Some(before + Zeros(16 - |before| - |after|) + after) && !QuadBefore(text) && !NoDouble(text)
  {
    hide ReadSection, FirstDouble, LastDouble, GroupsDenote, MixedDenotes, BytesOf, HasTriple;
    SideShape(h, before);
    SideShape(u, after);
    SectionDenotes(h);
    SectionDenotes(u);
    OneDouble(h, u);
    FoundDouble(text, |h|);
    NoTriple(text);
    assert DoubleAt(text, |h|);
    var quad := if ReadSection(u, None).value.ipv4.None? then [] else ReadSection(u, None).value.ipv4.value;
    var groups := BytesOf(ReadSection(u, None).value.groups);
    assert before + Zeros(16 - |before| - |after|) + groups + quad == before + Zeros(16 - |before| - |after|) + after;
    assert BytesOf(ReadSection(h, None).value.groups) == before;
  }

  lemma ParsedDenotes(text: string)
    requires ParseIpv6(text).Some? && !NoDouble(text) && !QuadBefore(text)
    ensures Denotes(text, ParseIpv6(text).value)
  {
    hide ReadSection, LastDouble, GroupsDenote, MixedDenotes, BytesOf, HasTriple;
    var at := FirstDouble(text, 0);
    var h, u := text[..at], text[at + 2..];
    SectionDenotes(h);
    SectionDenotes(u);
    var head, tail := ReadSection(h, None).value, ReadSection(u, None).value;
    var before, after := Bytes(head), Bytes(tail);
    assert text == h + "::" + u;
    assert Compresses(text, h, u, before, after);
    var quad := if tail.ipv4.None? then [] else tail.ipv4.value;
    assert ParseIpv6(text).value == BytesOf(head.groups) + Zeros(16 - |before| - |after|) + BytesOf(tail.groups) + quad;
    assert ParseIpv6(text).value == before + Zeros(16 - |before| - |after|) + after;
  }

  /** The grammar accepts exactly the texts the parser accepts that have no dotted quad before the compression, with
      the same bytes. With one there the parser may still accept, and the grammar never does. */
  lemma GrammarExactly(text: string, bytes: seq<Byte>)
    requires |bytes| == 16
    ensures Denotes(text, bytes) <==> ParseIpv6(text) == Some(bytes) && !QuadBefore(text)
  {
    hide ParseIpv6, FirstDouble, SideDenotes;
    if NoDouble(text) {
      PlainDenotes(text, bytes);
      NotFound(text);
    }
    if Denotes(text, bytes) {
      if SideDenotes(text, bytes) {
        SideShape(text, bytes);
      } else {
        var h, u, before, after :| Compresses(text, h, u, before, after)
                                   && bytes == before + Zeros(16 - |before| - |after|) + after;
        CompressedDenotes(text, h, u, before, after);
      }
    } else if !NoDouble(text) && ParseIpv6(text) == Some(bytes) && !QuadBefore(text) {
      ParsedDenotes(text);
    }
  }

  /** An IPv4 address written as an IPv6 one is that IPv4 address. */
  lemma MappedCollapses(quad: seq<Byte>)
    requires |quad| == 4
    ensures ParseIpAddress("::ffff:" + FormatIpv4(quad)) == Some(quad)
    ensures NormalizeIpAddress("::ffff:" + FormatIpv4(quad)) == Some(FormatIpv4(quad))
  {
    hide FormatIpv4, ParseIpv6;
    var text, u, after := "::ffff:" + FormatIpv4(quad), "ffff:" + FormatIpv4(quad), [255, 255] + quad;
    MappedTail(quad);
    assert GroupsDenote("", []) by {
      assert Join([], ':') == "" && GroupTexts([]) && Values([]) == [] && BytesOf(Values([])) == [];
    }
    assert text == "" + "::" + u;
    assert Compresses(text, "", u, [], after);
    var bytes := [] + Zeros(10) + after;
    assert Denotes(text, bytes);
    GrammarExactly(text, bytes);
    assert bytes[..12] == MAPPED && bytes[12..] == quad;
    assert ':' in text;
  }

  lemma MappedTail(quad: seq<Byte>)
    requires |quad| == 4
    ensures SideDenotes("ffff:" + FormatIpv4(quad), [255, 255] + quad)
  {
    hide FormatIpv4;
    var pieces := ["ffff"];
    assert "ffff"[..3] == "fff" && "fff"[..2] == "ff" && "ff"[..1] == "f" && "f"[..0] == "";
    assert HexNumber("f") == 15 && HexNumber("ff") == 255 && HexNumber("fff") == 4095 && HexNumber("ffff") == 65535;
    assert Values(pieces) == [65535];
    assert BytesOf([65535]) == [255, 255] + BytesOf([]);
    assert pieces + [FormatIpv4(quad)] == ["ffff", FormatIpv4(quad)];
    assert ["ffff", FormatIpv4(quad)][1..] == [FormatIpv4(quad)];
    assert Join(pieces + [FormatIpv4(quad)], ':') == "ffff:" + FormatIpv4(quad);
    assert MixedDenotes("ffff:" + FormatIpv4(quad), [255, 255] + quad);
  }
}
