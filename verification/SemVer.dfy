/** Release tags: the catalogue's comparator against section 11 of Semantic Versioning 2.0.0. */
module SemVer {
  import opened Ideal
  import opened Text
  import opened Utf16Order

  // ------------------------------------------------------------------ accepted tags

  predicate IsLetter(c: char) {
    'A' <= c <= 'Z' || 'a' <= c <= 'z' || c == '-'
  }

  /** 0, or digits without a leading zero. */
  predicate NumericId(s: string) {
    s != "" && Digits(s) && (|s| > 1 ==> s[0] != '0')
  }

  /** Digits, letters and hyphens with something other than a digit. */
  predicate AlphaId(s: string) {
    (forall i :: 0 <= i < |s| ==> IsDigit(s[i]) || IsLetter(s[i])) && exists i :: 0 <= i < |s| && IsLetter(s[i])
  }

  predicate PreId(s: string) {
    NumericId(s) || AlphaId(s)
  }

  /** tag.slice(1).split("-"): the core, then the pieces of the suffix. */
  function Pieces(tag: string): (pieces: seq<string>)
    ensures |pieces| >= 1
  {
    if tag == "" then [""] else Split(tag[1..], '-')
  }

  function Core(tag: string): seq<string> {
    Split(Pieces(tag)[0], '.')
  }

  function HasSuffix(tag: string): bool {
    |Pieces(tag)| > 1
  }

  /** The suffix's identifiers: joined again on hyphens, split on dots. */
  function Suffix(tag: string): (ids: seq<string>)
    ensures |ids| >= 1
  {
    Split(Join(Pieces(tag)[1..], '-'), '.')
  }

  predicate Accepted(tag: string) {
    && tag != "" && tag[0] == 'v'
    && |Core(tag)| == 3 && (forall i :: 0 <= i < 3 ==> NumericId(Core(tag)[i]))
    && (HasSuffix(tag) ==> forall i :: 0 <= i < |Suffix(tag)| ==> PreId(Suffix(tag)[i]))
  }

  // ------------------------------------------------------------------ the comparator

  function Number(s: string): nat {
    if Digits(s) then Value(s) else 0
  }

  function CompareCore(a: seq<string>, b: seq<string>, i: nat): int
    decreases 3 - i
  {
    if i >= 3 then 0
    else
      var x, y := if i < |a| then Number(a[i]) else 0, if i < |b| then Number(b[i]) else 0;
      if x != y then if x > y then 1 else -1 else CompareCore(a, b, i + 1)
  }

  /** /^[0-9]+$/ */
  predicate AllDigits(s: string) {
    s != "" && Digits(s)
  }

  function CompareIds(x: seq<string>, y: seq<string>, i: nat): int
    decreases |x| + |y| - i
  {
    if i >= |x| && i >= |y| then 0
    else if i >= |x| then -1
    else if i >= |y| then 1
    else
      var l, r := x[i], y[i];
      if l == r then CompareIds(x, y, i + 1)
      else
        var ln, rn := AllDigits(l), AllDigits(r);
        if ln && rn then if Number(l) > Number(r) then 1 else -1
        else if ln != rn then if ln then -1 else 1
        else if Below(r, l) then 1 else -1
  }

  function CompareVersions(left: string, right: string): int {
    var core := CompareCore(Core(left), Core(right), 0);
    if core != 0 then core
    else if !HasSuffix(left) || !HasSuffix(right) then
      (if !HasSuffix(left) then 1 else 0) - (if !HasSuffix(right) then 1 else 0)
    else CompareIds(Suffix(left), Suffix(right), 0)
  }

  /** The index loops with early returns. */
  method Compare(left: string, right: string) returns (sign: int)
    ensures sign == CompareVersions(left, right)
  {
    hide Pieces, Core, Suffix, HasSuffix, Number, AllDigits, Below;
    var a, b := Core(left), Core(right);
    for i := 0 to 3
      invariant CompareCore(a, b, 0) == CompareCore(a, b, i)
    {
      var x := if i < |a| then Number(a[i]) else 0;
      var y := if i < |b| then Number(b[i]) else 0;
      if x != y {
        return if x > y then 1 else -1;
      }
    }
    if !HasSuffix(left) || !HasSuffix(right) {
      return (if !HasSuffix(left) then 1 else 0) - (if !HasSuffix(right) then 1 else 0);
    }
    var x, y := Suffix(left), Suffix(right);
    for i := 0 to if |x| > |y| then |x| else |y|
      invariant CompareIds(x, y, 0) == CompareIds(x, y, i)
    {
      if i >= |x| {
        return -1;
      }
      if i >= |y| {
        return 1;
      }
      var l, r := x[i], y[i];
      if l == r {
        continue;
      }
      var ln, rn := AllDigits(l), AllDigits(r);
      if ln && rn {
        return if Number(l) > Number(r) then 1 else -1;
      }
      if ln != rn {
        return if ln then -1 else 1;
      }
      return if Below(r, l) then 1 else -1;
    }
    return 0;
  }

  // ------------------------------------------------------------------ section 11

  datatype Identifier = Numeric(number: nat) | Alphanumeric(text: string)
  datatype Version = Version(major: nat, minor: nat, patch: nat, prerelease: Option<seq<Identifier>>)

  /** Numbers by value, texts in ASCII order, numbers below texts. */
  predicate IdentifierBelow(a: Identifier, b: Identifier) {
    match (a, b)
    case (Numeric(m), Numeric(n)) => m < n
    case (Numeric(_), Alphanumeric(_)) => true
    case (Alphanumeric(_), Numeric(_)) => false
    case (Alphanumeric(s), Alphanumeric(t)) => Below(s, t)
  }

  /** The first difference decides; if there is none, the shorter list is lower. */
  predicate ListBelow(a: seq<Identifier>, b: seq<Identifier>) {
    if b == [] then false
    else if a == [] then true
    else IdentifierBelow(a[0], b[0]) || (a[0] == b[0] && ListBelow(a[1..], b[1..]))
  }

  /** Precedence: major, minor, patch, and a pre-release below its release. */
  predicate Lower(a: Version, b: Version) {
    || a.major < b.major
    || (a.major == b.major && a.minor < b.minor)
    || (a.major == b.major && a.minor == b.minor && a.patch < b.patch)
    || (a.major == b.major && a.minor == b.minor && a.patch == b.patch
        && a.prerelease.Some? && (b.prerelease.None? || ListBelow(a.prerelease.value, b.prerelease.value)))
  }

  lemma IdentifierOrder(a: Identifier, b: Identifier, c: Identifier)
    ensures !IdentifierBelow(a, a)
    ensures IdentifierBelow(a, b) ==> !IdentifierBelow(b, a)
    ensures a != b ==> IdentifierBelow(a, b) || IdentifierBelow(b, a)
    ensures IdentifierBelow(a, b) && IdentifierBelow(b, c) ==> IdentifierBelow(a, c)
  {
    var s := if a.Alphanumeric? then a.text else "";
    var t := if b.Alphanumeric? then b.text else "";
    var u := if c.Alphanumeric? then c.text else "";
    BelowIsOrder(s, t, u);
  }

  lemma {:induction false} ListOrder(a: seq<Identifier>, b: seq<Identifier>, c: seq<Identifier>)
    ensures !ListBelow(a, a)
    ensures ListBelow(a, b) ==> !ListBelow(b, a)
    ensures a != b ==> ListBelow(a, b) || ListBelow(b, a)
    ensures ListBelow(a, b) && ListBelow(b, c) ==> ListBelow(a, c)
    decreases |a|
  {
    hide IdentifierBelow;
    if a != [] {
      ListOrder(a[1..], if b == [] then [] else b[1..], if c == [] then [] else c[1..]);
      IdentifierOrder(a[0], if b == [] then a[0] else b[0], if c == [] then a[0] else c[0]);
      if b != [] && a[0] == b[0] && a[1..] == b[1..] {
        assert a == [a[0]] + a[1..] && b == [b[0]] + b[1..];
      }
    }
  }

  /** Precedence is a strict total order on versions. */
  lemma PrecedenceIsOrder(a: Version, b: Version, c: Version)
    ensures !Lower(a, a)
    ensures Lower(a, b) ==> !Lower(b, a)
    ensures a != b ==> Lower(a, b) || Lower(b, a)
    ensures Lower(a, b) && Lower(b, c) ==> Lower(a, c)
  {
    hide ListBelow;
    var x := if a.prerelease.Some? then a.prerelease.value else [];
    var y := if b.prerelease.Some? then b.prerelease.value else [];
    var z := if c.prerelease.Some? then c.prerelease.value else [];
    ListOrder(x, y, z);
  }

  // ------------------------------------------------------------------ a tag and its version

  function IdentifierOf(s: string): Identifier {
    if AllDigits(s) then Numeric(Number(s)) else Alphanumeric(s)
  }

  function IdentifiersOf(ids: seq<string>): (list: seq<Identifier>)
    ensures |list| == |ids| && forall i :: 0 <= i < |ids| ==> list[i] == IdentifierOf(ids[i])
  {
    seq(|ids|, i requires 0 <= i < |ids| => IdentifierOf(ids[i]))
  }

  function VersionOf(tag: string): Version
    requires Accepted(tag)
  {
    Version(Number(Core(tag)[0]), Number(Core(tag)[1]), Number(Core(tag)[2]),
            if HasSuffix(tag) then Some(IdentifiersOf(Suffix(tag))) else None)
  }

  /** An identifier is recovered from what it denotes: no leading zeros, no second spelling. */
  lemma IdentifierInjective(s: string, t: string)
    requires PreId(s) && PreId(t) && IdentifierOf(s) == IdentifierOf(t)
    ensures s == t
  {
    if AllDigits(s) {
      DigitsAreNumeric(s);
      DigitsAreNumeric(t);
      DecimalOfValue(s);
      DecimalOfValue(t);
    }
  }

  lemma DigitsAreNumeric(s: string)
    requires PreId(s) && AllDigits(s)
    ensures NumericId(s)
  {
  }

  /** Accepted tags spell versions one to one. */
  lemma TagInjective(l: string, r: string)
    requires Accepted(l) && Accepted(r) && VersionOf(l) == VersionOf(r)
    ensures l == r
  {
    TagSpellsVersion(l);
    TagSpellsVersion(r);
    hide Accepted, VersionOf, Spelled;
  }

  function IdentifierText(i: Identifier): string {
    match i
    case Numeric(number) => Decimal(number)
    case Alphanumeric(text) => text
  }

  function Texts(list: seq<Identifier>): (texts: seq<string>)
    ensures |texts| == |list| && forall i :: 0 <= i < |list| ==> texts[i] == IdentifierText(list[i])
  {
    seq(|list|, i requires 0 <= i < |list| => IdentifierText(list[i]))
  }

  function Numbers(v: Version): string {
    Decimal(v.major) + "." + Decimal(v.minor) + "." + Decimal(v.patch)
  }

  /** A version as sections 2 and 9 write it. */
  function Spelled(v: Version): string {
    "v" + if v.prerelease.Some? then Numbers(v) + "-" + Join(Texts(v.prerelease.value), '.') else Numbers(v)
  }

  /** An accepted tag is the spelling of the version it is compared as. */
  lemma TagSpellsVersion(tag: string)
    requires Accepted(tag)
    ensures tag == Spelled(VersionOf(tag))
  {
    hide Core, Suffix, Pieces, Number, Decimal, Join, Split, Texts, IdentifiersOf, NumericId, PreId;
    CoreSpelled(tag);
    if HasSuffix(tag) {
      SuffixSpelled(tag);
    }
    WholeTag(tag);
    assert Numbers(VersionOf(tag)) == Pieces(tag)[0];
  }

  lemma CoreSpelled(tag: string)
    requires Accepted(tag)
    ensures var core := Core(tag);
            Pieces(tag)[0] == Decimal(Number(core[0])) + "." + Decimal(Number(core[1])) + "." + Decimal(Number(core[2]))
  {
    hide AlphaId, Pieces, Suffix;
    var core := Core(tag);
    JoinOfSplit(Pieces(tag)[0], '.');
    JoinThree(core);
    forall i | 0 <= i < 3 ensures Decimal(Number(core[i])) == core[i] {
      DecimalOfValue(core[i]);
    }
  }

  lemma SuffixSpelled(tag: string)
    requires Accepted(tag) && HasSuffix(tag)
    ensures Join(Texts(IdentifiersOf(Suffix(tag))), '.') == Join(Pieces(tag)[1..], '-')
  {
    hide AlphaId, Pieces, Join, Split, NumericId, AllDigits;
    var ids := Suffix(tag);
    JoinOfSplit(Join(Pieces(tag)[1..], '-'), '.');
    forall i | 0 <= i < |ids| ensures IdentifierText(IdentifierOf(ids[i])) == ids[i] {
      IdentifierSpelled(ids[i]);
    }
    assert Texts(IdentifiersOf(ids)) == ids;
  }

  lemma IdentifierSpelled(s: string)
    requires PreId(s)
    ensures IdentifierText(IdentifierOf(s)) == s
  {
    if AllDigits(s) {
      DigitsAreNumeric(s);
      DecimalOfValue(s);
    }
  }

  lemma WholeTag(tag: string)
    requires Accepted(tag)
    ensures var pieces := Pieces(tag); tag == "v" + if HasSuffix(tag) then pieces[0] + "-" + Join(pieces[1..], '-') else pieces[0]
  {
    hide Core, Suffix, Split;
    JoinOfSplit(tag[1..], '-');
    assert tag == "v" + tag[1..];
  }

  lemma JoinThree(parts: seq<string>)
    requires |parts| == 3
    ensures Join(parts, '.') == parts[0] + "." + parts[1] + "." + parts[2]
  {
    assert parts[1..][1..] == [parts[2]];
    assert Join(parts[1..], '.') == parts[1] + "." + parts[2];
  }

  // ------------------------------------------------------------------ the comparator is precedence

  lemma IdentifierCompare(l: string, r: string)
    requires PreId(l) && PreId(r) && l != r
    ensures var ln, rn := AllDigits(l), AllDigits(r);
            var sign := if ln && rn then if Number(l) > Number(r) then 1 else -1
                        else if ln != rn then if ln then -1 else 1
                        else if Below(r, l) then 1 else -1;
            && (sign == -1 <==> IdentifierBelow(IdentifierOf(l), IdentifierOf(r)))
            && (sign == 1 <==> IdentifierBelow(IdentifierOf(r), IdentifierOf(l)))
            && IdentifierOf(l) != IdentifierOf(r)
  {
    hide Below;
    if IdentifierOf(l) == IdentifierOf(r) {
      IdentifierInjective(l, r);
    }
    BelowIsOrder(l, r, l);
  }

  lemma {:induction false} IdsCompare(x: seq<string>, y: seq<string>, i: nat)
    requires i <= |x| && i <= |y|
    requires (forall j :: 0 <= j < |x| ==> PreId(x[j])) && (forall j :: 0 <= j < |y| ==> PreId(y[j]))
    ensures CompareIds(x, y, i) == -1 <==> ListBelow(IdentifiersOf(x)[i..], IdentifiersOf(y)[i..])
    ensures CompareIds(x, y, i) == 1 <==> ListBelow(IdentifiersOf(y)[i..], IdentifiersOf(x)[i..])
    ensures CompareIds(x, y, i) in {-1, 0, 1}
    decreases |x| + |y| - i
  {
    hide Below, IdentifierOf, IdentifierBelow, AllDigits, Number;
    var a, b := IdentifiersOf(x)[i..], IdentifiersOf(y)[i..];
    if i < |x| && i < |y| {
      assert a[0] == IdentifierOf(x[i]) && b[0] == IdentifierOf(y[i]);
      assert a[1..] == IdentifiersOf(x)[i + 1..] && b[1..] == IdentifiersOf(y)[i + 1..];
      if x[i] == y[i] {
        IdsCompare(x, y, i + 1);
        IdentifierOrder(a[0], a[0], a[0]);
      } else {
        IdentifierCompare(x[i], y[i]);
      }
    }
  }

  lemma CoreCompare(l: string, r: string)
    requires Accepted(l) && Accepted(r)
    ensures var a, b, core := VersionOf(l), VersionOf(r), CompareCore(Core(l), Core(r), 0);
            && core in {-1, 0, 1}
            && (core == 0 <==> a.major == b.major && a.minor == b.minor && a.patch == b.patch)
            && (core == -1 ==> Lower(a, b)) && (core == 1 ==> Lower(b, a))
  {
    hide Core, Number, HasSuffix, Suffix, ListBelow, IdentifiersOf;
    var a, b := Core(l), Core(r);
    assert CompareCore(a, b, 3) == 0;
    assert CompareCore(a, b, 2) == if Number(a[2]) != Number(b[2]) then if Number(a[2]) > Number(b[2]) then 1 else -1 else 0;
    assert CompareCore(a, b, 1) == if Number(a[1]) != Number(b[1]) then if Number(a[1]) > Number(b[1]) then 1 else -1
                                   else CompareCore(a, b, 2);
  }

  /** On accepted tags the comparator is SemVer precedence: negative, positive and zero mean below, above and
      the same tag. */
  lemma ComparesByPrecedence(l: string, r: string)
    requires Accepted(l) && Accepted(r)
    ensures CompareVersions(l, r) in {-1, 0, 1}
    ensures CompareVersions(l, r) == -1 <==> Lower(VersionOf(l), VersionOf(r))
    ensures CompareVersions(l, r) == 1 <==> Lower(VersionOf(r), VersionOf(l))
    ensures CompareVersions(l, r) == 0 <==> l == r
  {
    hide Core, Suffix, HasSuffix, ListBelow, CompareCore, CompareIds, Accepted, IdentifiersOf;
    CoreCompare(l, r);
    PrecedenceIsOrder(VersionOf(l), VersionOf(r), VersionOf(l));
    SuffixIds(l);
    SuffixIds(r);
    if HasSuffix(l) && HasSuffix(r) {
      IdsCompare(Suffix(l), Suffix(r), 0);
      WholeLists(l, r);
    }
    if VersionOf(l) == VersionOf(r) {
      TagInjective(l, r);
    }
  }

  lemma SuffixIds(tag: string)
    requires Accepted(tag)
    ensures HasSuffix(tag) ==> forall i :: 0 <= i < |Suffix(tag)| ==> PreId(Suffix(tag)[i])
    ensures VersionOf(tag).prerelease == if HasSuffix(tag) then Some(IdentifiersOf(Suffix(tag))) else None
  {
  }

  lemma WholeLists(l: string, r: string)
    ensures IdentifiersOf(Suffix(l))[0..] == IdentifiersOf(Suffix(l)) && IdentifiersOf(Suffix(r))[0..] == IdentifiersOf(Suffix(r))
  {
  }

  /** So it is a total order on accepted tags: antisymmetric, transitive, zero only on itself. */
  lemma ComparatorIsTotalOrder(a: string, b: string, c: string)
    requires Accepted(a) && Accepted(b) && Accepted(c)
    ensures CompareVersions(a, b) == -CompareVersions(b, a)
    ensures CompareVersions(a, b) <= 0 && CompareVersions(b, c) <= 0 ==> CompareVersions(a, c) <= 0
    ensures CompareVersions(a, b) == 0 <==> a == b
  {
    hide CompareVersions, Accepted, VersionOf, Lower;
    ComparesByPrecedence(a, b);
    ComparesByPrecedence(b, a);
    ComparesByPrecedence(b, c);
    ComparesByPrecedence(a, c);
    PrecedenceIsOrder(VersionOf(a), VersionOf(b), VersionOf(c));
    PrecedenceIsOrder(VersionOf(b), VersionOf(a), VersionOf(c));
    PrecedenceIsOrder(VersionOf(a), VersionOf(c), VersionOf(a));
  }

  // ------------------------------------------------------------------ the catalogue

  datatype Arch = AMD64 | ARM64
  datatype Binary = Binary(version: string, arch: Arch)

  /** The sort's comparator: newest first, then by architecture name. */
  function CompareBinaries(a: Binary, b: Binary): int {
    var byVersion := CompareVersions(b.version, a.version);
    if byVersion != 0 then byVersion
    else if a.arch == b.arch then 0 else if a.arch == AMD64 then -1 else 1
  }

  /** What a sort leaves: the same rows, no neighbour pair out of order. */
  predicate SortedBinaries(rows: seq<Binary>, sorted: seq<Binary>) {
    && multiset(sorted) == multiset(rows)
    && forall i :: 0 <= i < |sorted| - 1 ==> CompareBinaries(sorted[i], sorted[i + 1]) <= 0
  }

  function Latest(sorted: seq<Binary>): Option<string> {
    if sorted == [] then None else Some(sorted[0].version)
  }

  lemma {:induction false} HeadIsHighest(sorted: seq<Binary>, i: nat)
    requires forall j :: 0 <= j < |sorted| ==> Accepted(sorted[j].version)
    requires forall j :: 0 <= j < |sorted| - 1 ==> CompareBinaries(sorted[j], sorted[j + 1]) <= 0
    requires i < |sorted|
    ensures CompareVersions(sorted[i].version, sorted[0].version) <= 0
  {
    hide CompareVersions, Accepted;
    if i == 0 {
      ComparatorIsTotalOrder(sorted[0].version, sorted[0].version, sorted[0].version);
    } else {
      HeadIsHighest(sorted, i - 1);
      assert CompareBinaries(sorted[i - 1], sorted[i]) <= 0;
      ComparatorIsTotalOrder(sorted[i].version, sorted[i - 1].version, sorted[0].version);
    }
  }

  /** Whatever sort produced it, the catalogue's latest is the highest version there is. */
  lemma LatestIsMaximum(rows: seq<Binary>, sorted: seq<Binary>)
    requires SortedBinaries(rows, sorted) && forall i :: 0 <= i < |rows| ==> Accepted(rows[i].version)
    ensures Latest(sorted).None? <==> rows == []
    ensures rows != [] ==>
              (exists i :: 0 <= i < |rows| && rows[i].version == Latest(sorted).value)
              && forall i :: 0 <= i < |rows| ==>
                   rows[i].version == Latest(sorted).value
                   || (Accepted(Latest(sorted).value) && Lower(VersionOf(rows[i].version), VersionOf(Latest(sorted).value)))
  {
    hide CompareVersions, Accepted, Lower;
    assert |rows| == |multiset(rows)| == |multiset(sorted)| == |sorted|;
    forall j | 0 <= j < |sorted| ensures Accepted(sorted[j].version) {
      assert sorted[j] in multiset(sorted);
      assert sorted[j] in rows;
    }
    if rows != [] {
      assert sorted[0] in multiset(rows);
      var k :| 0 <= k < |rows| && rows[k] == sorted[0];
      forall i | 0 <= i < |rows|
        ensures rows[i].version == sorted[0].version || Lower(VersionOf(rows[i].version), VersionOf(sorted[0].version))
      {
        assert rows[i] in multiset(sorted);
        var j :| 0 <= j < |sorted| && sorted[j] == rows[i];
        HeadIsHighest(sorted, j);
        ComparesByPrecedence(rows[i].version, sorted[0].version);
      }
    }
  }
}
