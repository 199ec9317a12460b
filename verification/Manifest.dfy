/** Canonical JSON of signed manifests: both writers, and unique readability of what they write. */
module Manifest {
  import opened Ideal
  import opened Utf16Order

  /** A JSON tree. The TypeScript tree has no arrays; Go's objects list their members in any order. */
  datatype Tree = TextNode(text: string) | IntegerNode(integer: int) | ObjectNode(entries: seq<Entry>) | ArrayNode(items: seq<Tree>)
  datatype Entry = Entry(key: string, value: Tree)

  predicate DistinctKeys(entries: seq<Entry>) {
    forall i, j :: 0 <= i < j < |entries| ==> entries[i].key != entries[j].key
  }

  /** Only texts and the integer 1, and no key twice in one object. */
  predicate Canonicalisable(t: Tree) {
    match t
    case TextNode(_) => true
    case IntegerNode(n) => n == 1
    case ObjectNode(entries) =>
      DistinctKeys(entries) && forall i :: 0 <= i < |entries| ==> Canonicalisable(entries[i].value)
    case ArrayNode(items) => forall i :: 0 <= i < |items| ==> Canonicalisable(items[i])
  }

  // ------------------------------------------------------------------ string literals

  const HEX_DIGITS := "0123456789abcdef"

  /** One character as JSON.stringify writes it inside a literal. */
  function Escape(c: char): (e: string)
    ensures e != ""
  {
    if c == '"' then ['\\', '"']
    else if c == '\\' then ['\\', '\\']
    else if c == 8 as char then "\\b"
    else if c == 12 as char then "\\f"
    else if c == '\n' then "\\n"
    else if c == '\r' then "\\r"
    else if c == '\t' then "\\t"
    else if c as int < 0x20 then "\\u00" + [HEX_DIGITS[c as int / 16], HEX_DIGITS[c as int % 16]]
    else [c]
  }

  function Escapes(s: string): string {
    if s == "" then "" else Escape(s[0]) + Escapes(s[1..])
  }

  function Quote(s: string): string {
    "\"" + Escapes(s) + "\""
  }

  // ------------------------------------------------------------------ sorting

  predicate SortedKeys(entries: seq<Entry>) {
    forall i, j :: 0 <= i < j < |entries| ==> Below(entries[i].key, entries[j].key)
  }

  function InsertEntry(e: Entry, sorted: seq<Entry>): seq<Entry> {
    if sorted == [] then [e]
    else if Below(e.key, sorted[0].key) then [e] + sorted
    else [sorted[0]] + InsertEntry(e, sorted[1..])
  }

  function SortEntries(entries: seq<Entry>): seq<Entry> {
    if entries == [] then [] else InsertEntry(entries[0], SortEntries(entries[1..]))
  }

  lemma {:induction false} InsertKeeps(e: Entry, sorted: seq<Entry>)
    requires SortedKeys(sorted) && forall i :: 0 <= i < |sorted| ==> sorted[i].key != e.key
    ensures SortedKeys(InsertEntry(e, sorted))
    ensures forall x :: x in InsertEntry(e, sorted) <==> x == e || x in sorted
    ensures |InsertEntry(e, sorted)| == |sorted| + 1
  {
    if sorted != [] {
      BelowIsOrder(e.key, sorted[0].key, e.key);
      if Below(e.key, sorted[0].key) {
        forall j | 0 <= j < |sorted| ensures Below(e.key, sorted[j].key) {
          BelowIsOrder(e.key, sorted[0].key, sorted[j].key);
        }
      } else {
        InsertKeeps(e, sorted[1..]);
        var rest := InsertEntry(e, sorted[1..]);
        forall j | 0 <= j < |rest| ensures Below(sorted[0].key, rest[j].key) {
          assert rest[j] == e || rest[j] in sorted[1..];
        }
        assert sorted == [sorted[0]] + sorted[1..];
      }
    }
  }

  lemma {:induction false} SortKeeps(entries: seq<Entry>)
    requires DistinctKeys(entries)
    ensures SortedKeys(SortEntries(entries)) && |SortEntries(entries)| == |entries|
    ensures forall x :: x in SortEntries(entries) <==> x in entries
  {
    if entries != [] {
      SortKeeps(entries[1..]);
      var rest := SortEntries(entries[1..]);
      forall i | 0 <= i < |rest| ensures rest[i].key != entries[0].key {
        assert rest[i] in entries[1..];
      }
      InsertKeeps(entries[0], rest);
      assert entries == [entries[0]] + entries[1..];
    }
  }

  /** A list of distinct keys has one sorted order. */
  lemma {:induction false} SortedIsUnique(a: seq<Entry>, b: seq<Entry>)
    requires SortedKeys(a) && SortedKeys(b) && (forall x :: x in a <==> x in b)
    ensures a == b
  {
    if a != [] || b != [] {
      assert a != [] ==> a[0] in b;
      assert b != [] ==> b[0] in a;
      HeadsAgree(a, b);
      forall x ensures x in a[1..] <==> x in b[1..] {
        TailMembers(a, x);
        TailMembers(b, x);
      }
      SortedIsUnique(a[1..], b[1..]);
      assert a == [a[0]] + a[1..] && b == [b[0]] + b[1..];
    }
  }

  lemma HeadsAgree(a: seq<Entry>, b: seq<Entry>)
    requires SortedKeys(a) && SortedKeys(b) && a != [] && b != [] && a[0] in b && b[0] in a
    ensures a[0] == b[0]
  {
    var i :| 0 <= i < |b| && b[i] == a[0];
    var j :| 0 <= j < |a| && a[j] == b[0];
    BelowIsOrder(a[0].key, b[0].key, a[0].key);
    BelowIsOrder(b[0].key, a[0].key, b[0].key);
  }

  lemma TailMembers(a: seq<Entry>, x: Entry)
    requires SortedKeys(a) && a != []
    ensures x in a[1..] <==> x in a && x != a[0]
  {
    BelowIsOrder(a[0].key, a[0].key, a[0].key);
    assert a == [a[0]] + a[1..];
    if x in a[1..] {
      var i :| 0 <= i < |a[1..]| && a[1..][i] == x;
      assert Below(a[0].key, a[i + 1].key);
    }
  }

  // ------------------------------------------------------------------ normal form and text

  /** The tree with the entries of every object in key order. */
  function Normal(t: Tree): Tree {
    match t
    case ObjectNode(entries) =>
      ObjectNode(SortEntries(seq(|entries|, i requires 0 <= i < |entries| => Entry(entries[i].key, Normal(entries[i].value)))))
    case ArrayNode(items) => ArrayNode(seq(|items|, i requires 0 <= i < |items| => Normal(items[i])))
    case _ => t
  }

  function Width(t: Tree): nat {
    match t
    case ObjectNode(entries) => |entries| + 2
    case ArrayNode(items) => |items| + 2
    case _ => 0
  }

  /** The text of a tree, entries and items in the order they stand. */
  function Render(t: Tree): string
    decreases t, Width(t)
  {
    match t
    case TextNode(text) => Quote(text)
    case IntegerNode(_) => "1"
    case ObjectNode(entries) => "{" + Members(t, 0) + "}"
    case ArrayNode(items) => "[" + Items(t, 0) + "]"
  }

  function Members(t: Tree, i: nat): string
    requires t.ObjectNode? && i <= |t.entries|
    decreases t, |t.entries| - i + 1
  {
    if i == |t.entries| then ""
    else
      (if i > 0 then "," else "") + Quote(t.entries[i].key) + ":" + Render(t.entries[i].value) + Members(t, i + 1)
  }

  function Items(t: Tree, i: nat): string
    requires t.ArrayNode? && i <= |t.items|
    decreases t, |t.items| - i + 1
  {
    if i == |t.items| then "" else (if i > 0 then "," else "") + Render(t.items[i]) + Items(t, i + 1)
  }

  /** Canonical text; None where a writer refuses. */
  function Canonical(t: Tree): Option<string> {
    if Canonicalisable(t) then Some(Render(Normal(t))) else None
  }

  // ------------------------------------------------------------------ unique readability

  lemma HexDigitsDiffer(i: nat, j: nat)
    requires i < 16 && j < 16 && i != j
    ensures HEX_DIGITS[i] != HEX_DIGITS[j]
  {
  }

  /** No escape is the beginning of another character's escape. */
  lemma EscapePrefixFree(c: char, d: char, x: string, y: string)
    ensures Escape(c) + x == Escape(d) + y ==> c == d
  {
    if c != d {
      var e, f := Escape(c), Escape(d);
      var u, v := e + x, f + y;
      assert u[0] == e[0] && v[0] == f[0];
      if |e| > 1 && |f| > 1 {
        assert u[1] == e[1] && v[1] == f[1];
        if |e| == 6 && |f| == 6 {
          assert u[4] == e[4] && v[4] == f[4] && u[5] == e[5] && v[5] == f[5];
          if c as int / 16 != d as int / 16 {
            HexDigitsDiffer(c as int / 16, d as int / 16);
          } else {
            HexDigitsDiffer(c as int % 16, d as int % 16);
          }
        }
      }
    }
  }

  lemma EscapeIsNotQuote(c: char)
    ensures Escape(c)[0] != '"'
  {
  }

  lemma {:induction false} EscapesReadable(s: string, t: string, x: string, y: string)
    requires Escapes(s) + "\"" + x == Escapes(t) + "\"" + y
    ensures s == t && x == y
  {
    hide Escape;
    var u, v := Escapes(s) + "\"" + x, Escapes(t) + "\"" + y;
    if s != "" {
      EscapeIsNotQuote(s[0]);
      assert u == Escape(s[0]) + (Escapes(s[1..]) + "\"" + x);
      assert u[0] == Escape(s[0])[0];
    }
    if t != "" {
      EscapeIsNotQuote(t[0]);
      assert v == Escape(t[0]) + (Escapes(t[1..]) + "\"" + y);
      assert v[0] == Escape(t[0])[0];
    }
    if s == "" {
      assert u[0] == '"' && u[1..] == x;
    }
    if t == "" {
      assert v[0] == '"' && v[1..] == y;
    }
    if s != "" && t != "" {
      EscapePrefixFree(s[0], t[0], Escapes(s[1..]) + "\"" + x, Escapes(t[1..]) + "\"" + y);
      assert u[|Escape(s[0])|..] == Escapes(s[1..]) + "\"" + x;
      assert v[|Escape(t[0])|..] == Escapes(t[1..]) + "\"" + y;
      EscapesReadable(s[1..], t[1..], x, y);
      assert s == [s[0]] + s[1..] && t == [t[0]] + t[1..];
    }
  }

  lemma QuoteBody(s: string, x: string)
    ensures (Quote(s) + x)[1..] == Escapes(s) + "\"" + x
  {
    hide Escapes;
  }

  lemma QuoteReadable(s: string, t: string, x: string, y: string)
    requires Quote(s) + x == Quote(t) + y
    ensures s == t && x == y
  {
    hide Escapes;
    QuoteBody(s, x);
    QuoteBody(t, y);
    EscapesReadable(s, t, x, y);
  }

  /** The first character of a text tells what kind of value it is. */
  function Lead(t: Tree): char {
    match t
    case TextNode(_) => '"'
    case IntegerNode(_) => '1'
    case ObjectNode(_) => '{'
    case ArrayNode(_) => '['
  }

  lemma RenderLead(t: Tree, x: string)
    ensures Render(t) != "" && (Render(t) + x)[0] == Lead(t)
  {
  }

  /** What follows the lead character. */
  lemma RenderBody(t: Tree, x: string)
    ensures t.ObjectNode? ==> (Render(t) + x)[1..] == Members(t, 0) + "}" + x
    ensures t.ArrayNode? ==> (Render(t) + x)[1..] == Items(t, 0) + "]" + x
    ensures t.IntegerNode? ==> (Render(t) + x)[1..] == x
    ensures t.TextNode? ==> Render(t) == Quote(t.text)
  {
    hide Members, Items, Quote;
  }

  /** One text, whatever follows it, is the text of one tree of texts and ones. */
  lemma {:induction false} RenderReadable(a: Tree, b: Tree, x: string, y: string)
    requires Render(a) + x == Render(b) + y && Ones(a) && Ones(b)
    ensures a == b && x == y
    decreases a, Width(a)
  {
    hide Render, Members, Items, Quote;
    RenderLead(a, x);
    RenderLead(b, y);
    RenderBody(a, x);
    RenderBody(b, y);
    match a
    case TextNode(s) => QuoteReadable(s, b.text, x, y);
    case IntegerNode(_) =>
    case ObjectNode(entries) =>
      MembersReadable(a, b, 0, x, y);
      assert entries == entries[0..] && b.entries == b.entries[0..];
    case ArrayNode(items) =>
      ItemsReadable(a, b, 0, x, y);
      assert items == items[0..] && b.items == b.items[0..];
  }

  predicate Ones(t: Tree) {
    match t
    case TextNode(_) => true
    case IntegerNode(n) => n == 1
    case ObjectNode(entries) => forall i :: 0 <= i < |entries| ==> Ones(entries[i].value)
    case ArrayNode(items) => forall i :: 0 <= i < |items| ==> Ones(items[i])
  }

  /** The text of the members from i on, split at its first member. */
  function MemberText(t: Tree, i: nat): string
    requires t.ObjectNode? && i < |t.entries|
  {
    ":" + Render(t.entries[i].value) + Members(t, i + 1)
  }

  lemma MembersLead(t: Tree, i: nat, x: string)
    requires t.ObjectNode? && i <= |t.entries|
    ensures var text := Members(t, i) + "}" + x;
            if i == |t.entries| then text[0] == '}' && text[1..] == x
            else if i > 0 then text[0] == ',' && text[1..] == Quote(t.entries[i].key) + (MemberText(t, i) + "}" + x)
            else text[0] == '"' && text == Quote(t.entries[i].key) + (MemberText(t, i) + "}" + x)
  {
    hide Quote;
    if i < |t.entries| {
      QuoteLead(t.entries[i].key);
      var text := Members(t, i) + "}" + x;
      var body := Quote(t.entries[i].key) + (MemberText(t, i) + "}" + x);
      if i > 0 {
        assert Members(t, i) == "," + Quote(t.entries[i].key) + ":" + Render(t.entries[i].value) + Members(t, i + 1);
        assert text == "," + body;
      } else {
        assert Members(t, i) == "" + Quote(t.entries[i].key) + ":" + Render(t.entries[i].value) + Members(t, i + 1);
        assert text == body;
      }
    }
  }

  lemma QuoteLead(s: string)
    ensures |Quote(s)| >= 2 && Quote(s)[0] == '"'
  {
  }

  lemma {:induction false} MembersReadable(a: Tree, b: Tree, i: nat, x: string, y: string)
    requires a.ObjectNode? && b.ObjectNode? && i <= |a.entries| && i <= |b.entries| && Ones(a) && Ones(b)
    requires Members(a, i) + "}" + x == Members(b, i) + "}" + y
    ensures a.entries[i..] == b.entries[i..] && x == y
    decreases a, |a.entries| - i + 1
  {
    hide Members, Render, Quote;
    MembersLead(a, i, x);
    MembersLead(b, i, y);
    if i < |a.entries| && i < |b.entries| {
      QuoteReadable(a.entries[i].key, b.entries[i].key, MemberText(a, i) + "}" + x, MemberText(b, i) + "}" + y);
      var u, v := MemberText(a, i) + "}" + x, MemberText(b, i) + "}" + y;
      assert u[1..] == Render(a.entries[i].value) + (Members(a, i + 1) + "}" + x);
      assert v[1..] == Render(b.entries[i].value) + (Members(b, i + 1) + "}" + y);
      RenderReadable(a.entries[i].value, b.entries[i].value, Members(a, i + 1) + "}" + x, Members(b, i + 1) + "}" + y);
      MembersReadable(a, b, i + 1, x, y);
      assert a.entries[i..] == [a.entries[i]] + a.entries[i + 1..] && b.entries[i..] == [b.entries[i]] + b.entries[i + 1..];
    }
  }

  lemma ItemsLead(t: Tree, i: nat, x: string)
    requires t.ArrayNode? && i <= |t.items|
    ensures var text := Items(t, i) + "]" + x;
            if i == |t.items| then text[0] == ']' && text[1..] == x
            else if i > 0 then text[0] == ',' && text[1..] == Render(t.items[i]) + (Items(t, i + 1) + "]" + x)
            else text[0] != ']' && text == Render(t.items[i]) + (Items(t, i + 1) + "]" + x)
  {
    hide Render;
    if i < |t.items| {
      RenderLead(t.items[i], Items(t, i + 1) + "]" + x);
      var text := Items(t, i) + "]" + x;
      var body := Render(t.items[i]) + (Items(t, i + 1) + "]" + x);
      if i > 0 {
        assert Items(t, i) == "," + Render(t.items[i]) + Items(t, i + 1);
        assert text == "," + body;
      } else {
        assert Items(t, i) == "" + Render(t.items[i]) + Items(t, i + 1);
        assert text == body;
      }
    }
  }

  lemma {:induction false} ItemsReadable(a: Tree, b: Tree, i: nat, x: string, y: string)
    requires a.ArrayNode? && b.ArrayNode? && i <= |a.items| && i <= |b.items| && Ones(a) && Ones(b)
    requires Items(a, i) + "]" + x == Items(b, i) + "]" + y
    ensures a.items[i..] == b.items[i..] && x == y
    decreases a, |a.items| - i + 1
  {
    hide Items, Render;
    ItemsLead(a, i, x);
    ItemsLead(b, i, y);
    if i < |a.items| && i < |b.items| {
      RenderReadable(a.items[i], b.items[i], Items(a, i + 1) + "]" + x, Items(b, i + 1) + "]" + y);
      ItemsReadable(a, b, i + 1, x, y);
      assert a.items[i..] == [a.items[i]] + a.items[i + 1..] && b.items[i..] == [b.items[i]] + b.items[i + 1..];
    }
  }

  // ------------------------------------------------------------------ equal up to entry order

  /** Equal trees, the entries of each object in any order. */
  predicate SameUpToOrder(a: Tree, b: Tree)
    decreases a
  {
    match a
    case TextNode(s) => b == a
    case IntegerNode(n) => b == a
    case ArrayNode(items) =>
      b.ArrayNode? && |items| == |b.items| && forall i :: 0 <= i < |items| ==> SameUpToOrder(items[i], b.items[i])
    case ObjectNode(entries) =>
      b.ObjectNode? && |entries| == |b.entries|
      && forall i :: 0 <= i < |entries| ==>
           exists j :: 0 <= j < |b.entries| && b.entries[j].key == entries[i].key && SameUpToOrder(entries[i].value, b.entries[j].value)
  }

  /** The entries of an object with normal values, before sorting. */
  function NormalEntries(t: Tree): (entries: seq<Entry>)
    requires t.ObjectNode?
    ensures |entries| == |t.entries|
    ensures forall i :: 0 <= i < |entries| ==> entries[i] == Entry(t.entries[i].key, Normal(t.entries[i].value))
    ensures Normal(t) == ObjectNode(SortEntries(entries))
  {
    seq(|t.entries|, i requires 0 <= i < |t.entries| => Entry(t.entries[i].key, Normal(t.entries[i].value)))
  }

  lemma {:induction false} NormalIsOnes(t: Tree)
    requires Canonicalisable(t)
    ensures Ones(Normal(t))
    decreases t
  {
    match t
    case ObjectNode(entries) =>
      var normal := NormalEntries(t);
      SortKeeps(normal);
      forall i | 0 <= i < |entries| ensures Ones(normal[i].value) {
        NormalIsOnes(entries[i].value);
      }
      forall i | 0 <= i < |SortEntries(normal)| ensures Ones(SortEntries(normal)[i].value) {
        assert SortEntries(normal)[i] in normal;
      }
    case ArrayNode(items) =>
      forall i | 0 <= i < |items| ensures Ones(Normal(items[i])) {
        NormalIsOnes(items[i]);
      }
    case _ =>
  }

  /** Two lists of distinct keys, the first within the second and as long, have the same members. */
  lemma SameMembers(a: seq<Entry>, b: seq<Entry>)
    requires DistinctKeys(a) && DistinctKeys(b) && |a| == |b| && forall x :: x in a ==> x in b
    ensures forall x :: x in a <==> x in b
  {
    var p, q := set x | x in a, set x | x in b;
    Cardinality(a);
    Cardinality(b);
    SubsetSize(p, q);
    assert p == q;
    forall x ensures x in a <==> x in b {
      assert x in a <==> x in p;
      assert x in b <==> x in q;
    }
  }

  lemma SubsetSize(p: set<Entry>, q: set<Entry>)
    requires p <= q && |p| == |q|
    ensures p == q
  {
    assert |q - p| == |q| - |p|;
    assert q - p == {};
  }

  lemma {:induction false} Cardinality(a: seq<Entry>)
    requires DistinctKeys(a)
    ensures |set x | x in a| == |a|
  {
    if a != [] {
      Cardinality(a[1..]);
      var whole, rest := set x | x in a, set x | x in a[1..];
      assert a[0] !in rest;
      forall x ensures x in whole <==> x in {a[0]} + rest {
        if x in a {
          var i :| 0 <= i < |a| && a[i] == x;
          assert i > 0 ==> a[1..][i - 1] == x;
        }
      }
      assert whole == {a[0]} + rest;
    }
  }

  /** Trees have one normal form exactly when they are equal up to entry order. */
  lemma {:induction false} NormalIsOrder(a: Tree, b: Tree)
    requires Canonicalisable(a) && Canonicalisable(b)
    ensures Normal(a) == Normal(b) <==> SameUpToOrder(a, b)
    decreases a
  {
    match a
    case TextNode(_) =>
    case IntegerNode(_) =>
    case ArrayNode(items) =>
      if b.ArrayNode? && |items| == |b.items| {
        forall i | 0 <= i < |items| ensures Normal(items[i]) == Normal(b.items[i]) <==> SameUpToOrder(items[i], b.items[i]) {
          NormalIsOrder(items[i], b.items[i]);
        }
        ArraysAgree(a, b);
      } else if b.ArrayNode? {
        assert |Normal(a).items| == |items| && |Normal(b).items| == |b.items|;
      }
    case ObjectNode(entries) =>
      if b.ObjectNode? {
        forall i | 0 <= i < |entries|
          ensures Found(a, b, i) <==>
                  exists j :: 0 <= j < |b.entries| && b.entries[j].key == entries[i].key && SameUpToOrder(entries[i].value, b.entries[j].value)
        {
          forall j | 0 <= j < |b.entries|
            ensures Normal(entries[i].value) == Normal(b.entries[j].value) <==> SameUpToOrder(entries[i].value, b.entries[j].value)
          {
            NormalIsOrder(entries[i].value, b.entries[j].value);
          }
        }
        ObjectsAgree(a, b);
      }
  }

  lemma ArraysAgree(a: Tree, b: Tree)
    requires a.ArrayNode? && b.ArrayNode? && |a.items| == |b.items|
    ensures Normal(a) == Normal(b) <==> forall i :: 0 <= i < |a.items| ==> Normal(a.items[i]) == Normal(b.items[i])
  {
    var x, y := Normal(a).items, Normal(b).items;
    assert |x| == |y| == |a.items|;
    assert forall i :: 0 <= i < |x| ==> x[i] == Normal(a.items[i]) && y[i] == Normal(b.items[i]);
  }

  /** Some entry of b is a's i-th up to the normal form of its value. */
  predicate Found(a: Tree, b: Tree, i: nat)
    requires a.ObjectNode? && b.ObjectNode? && i < |a.entries|
  {
    exists j :: 0 <= j < |b.entries| && b.entries[j].key == a.entries[i].key
                && Normal(a.entries[i].value) == Normal(b.entries[j].value)
  }

  lemma SameNormalFinds(a: Tree, b: Tree, i: nat)
    requires a.ObjectNode? && b.ObjectNode? && DistinctKeys(a.entries) && DistinctKeys(b.entries) && Normal(a) == Normal(b)
    requires i < |a.entries|
    ensures |a.entries| == |b.entries| && Found(a, b, i)
  {
    hide SortEntries, Normal;
    var x, y := NormalEntries(a), NormalEntries(b);
    SortKeeps(x);
    SortKeeps(y);
    assert x[i] in y;
    var j :| 0 <= j < |y| && y[j] == x[i];
  }

  lemma FoundIsSameNormal(a: Tree, b: Tree)
    requires a.ObjectNode? && b.ObjectNode? && DistinctKeys(a.entries) && DistinctKeys(b.entries)
    requires |a.entries| == |b.entries| && forall i :: 0 <= i < |a.entries| ==> Found(a, b, i)
    ensures Normal(a) == Normal(b)
  {
    hide SortEntries, Normal;
    var x, y := NormalEntries(a), NormalEntries(b);
    SortKeeps(x);
    SortKeeps(y);
    forall e | e in x ensures e in y {
      var i :| 0 <= i < |x| && x[i] == e;
      assert Found(a, b, i);
      var j :| 0 <= j < |b.entries| && b.entries[j].key == a.entries[i].key && Normal(a.entries[i].value) == Normal(b.entries[j].value);
      assert y[j] == x[i];
    }
    SameMembers(x, y);
    SortedIsUnique(SortEntries(x), SortEntries(y));
  }

  lemma ObjectsAgree(a: Tree, b: Tree)
    requires a.ObjectNode? && b.ObjectNode? && DistinctKeys(a.entries) && DistinctKeys(b.entries)
    ensures Normal(a) == Normal(b) <==> |a.entries| == |b.entries| && forall i :: 0 <= i < |a.entries| ==> Found(a, b, i)
  {
    hide Found;
    if Normal(a) == Normal(b) {
      forall i | 0 <= i < |a.entries| ensures Found(a, b, i) {
        SameNormalFinds(a, b, i);
      }
      SameNormalLength(a, b);
    }
    if |a.entries| == |b.entries| && forall i :: 0 <= i < |a.entries| ==> Found(a, b, i) {
      FoundIsSameNormal(a, b);
    }
  }

  lemma SameNormalLength(a: Tree, b: Tree)
    requires a.ObjectNode? && b.ObjectNode? && DistinctKeys(a.entries) && DistinctKeys(b.entries) && Normal(a) == Normal(b)
    ensures |a.entries| == |b.entries|
  {
    hide SortEntries, Normal;
    SortKeeps(NormalEntries(a));
    SortKeeps(NormalEntries(b));
  }

  /** Unique readability: two canonicalisable trees have one canonical text exactly when they are equal up to
      entry order at every level. */
  lemma CanonicalIsUnique(a: Tree, b: Tree)
    requires Canonicalisable(a) && Canonicalisable(b)
    ensures Canonical(a) == Canonical(b) <==> SameUpToOrder(a, b)
  {
    hide Render, Normal, SameUpToOrder;
    NormalIsOnes(a);
    NormalIsOnes(b);
    NormalIsOrder(a, b);
    if Canonical(a) == Canonical(b) {
      assert Render(Normal(a)) + "" == Render(Normal(b)) + "";
      RenderReadable(Normal(a), Normal(b), "", "");
    }
  }

  // ------------------------------------------------------------------ the typed manifest

  datatype SignedBuildManifest = SignedBuildManifest(
    version: int, repository: string, commit: string, artifactType: string, artifactRepository: string, digest: string,
    builder: string, issuedAt: string)

  function SourceNode(m: SignedBuildManifest): Tree {
    ObjectNode([Entry("repository", TextNode(m.repository)), Entry("commit", TextNode(m.commit))])
  }

  function ArtifactNode(m: SignedBuildManifest): Tree {
    ObjectNode([Entry("type", TextNode(m.artifactType)), Entry("repository", TextNode(m.artifactRepository)),
                Entry("digest", TextNode(m.digest))])
  }

  function ManifestNode(m: SignedBuildManifest): Tree {
    ObjectNode([Entry("version", IntegerNode(m.version)), Entry("source", SourceNode(m)), Entry("artifact", ArtifactNode(m)),
                Entry("builder", TextNode(m.builder)), Entry("issuedAt", TextNode(m.issuedAt))])
  }

  lemma SourceKeys(m: SignedBuildManifest)
    ensures DistinctKeys(SourceNode(m).entries) && Canonicalisable(SourceNode(m))
  {
    var entries := SourceNode(m).entries;
    assert |entries[0].key| == 10 && |entries[1].key| == 6;
  }

  lemma ArtifactKeys(m: SignedBuildManifest)
    ensures DistinctKeys(ArtifactNode(m).entries) && Canonicalisable(ArtifactNode(m))
  {
    var entries := ArtifactNode(m).entries;
    assert |entries[0].key| == 4 && |entries[1].key| == 10 && |entries[2].key| == 6;
  }

  lemma ManifestKeys(m: SignedBuildManifest)
    ensures DistinctKeys(ManifestNode(m).entries)
  {
    hide SourceNode, ArtifactNode;
    var entries := ManifestNode(m).entries;
    assert entries[0].key[0] == 'v' && entries[1].key[0] == 's' && entries[2].key[0] == 'a' && entries[3].key[0] == 'b'
           && entries[4].key[0] == 'i';
  }

  lemma ManifestIsCanonicalisable(m: SignedBuildManifest)
    requires m.version == 1
    ensures Canonicalisable(ManifestNode(m))
  {
    hide SourceNode, ArtifactNode;
    ManifestKeys(m);
    SourceKeys(m);
    ArtifactKeys(m);
    var entries := ManifestNode(m).entries;
    assert forall i :: 0 <= i < |entries| ==> Canonicalisable(entries[i].value);
  }

  /** Under the same distinct keys in the same places, equal up to order is equal place by place. */
  lemma SamePlaces(a: Tree, b: Tree, i: nat)
    requires a.ObjectNode? && b.ObjectNode? && SameUpToOrder(a, b) && i < |a.entries|
    requires DistinctKeys(b.entries) && forall j :: 0 <= j < |b.entries| && j < |a.entries| ==> b.entries[j].key == a.entries[j].key
    ensures i < |b.entries| && SameUpToOrder(a.entries[i].value, b.entries[i].value)
  {
    var j :| 0 <= j < |b.entries| && b.entries[j].key == a.entries[i].key && SameUpToOrder(a.entries[i].value, b.entries[j].value);
    assert j == i;
  }

  lemma SameText(s: string, t: string)
    requires SameUpToOrder(TextNode(s), TextNode(t))
    ensures s == t
  {
  }

  lemma SourcesBind(m: SignedBuildManifest, n: SignedBuildManifest)
    requires SameUpToOrder(SourceNode(m), SourceNode(n))
    ensures m.repository == n.repository && m.commit == n.commit
  {
    hide SameUpToOrder;
    SourceKeys(n);
    SamePlaces(SourceNode(m), SourceNode(n), 0);
    SamePlaces(SourceNode(m), SourceNode(n), 1);
    SameText(m.repository, n.repository);
    SameText(m.commit, n.commit);
  }

  lemma ArtifactsBind(m: SignedBuildManifest, n: SignedBuildManifest)
    requires SameUpToOrder(ArtifactNode(m), ArtifactNode(n))
    ensures m.artifactType == n.artifactType && m.artifactRepository == n.artifactRepository && m.digest == n.digest
  {
    hide SameUpToOrder;
    ArtifactKeys(n);
    SamePlaces(ArtifactNode(m), ArtifactNode(n), 0);
    SamePlaces(ArtifactNode(m), ArtifactNode(n), 1);
    SamePlaces(ArtifactNode(m), ArtifactNode(n), 2);
    SameText(m.artifactType, n.artifactType);
    SameText(m.artifactRepository, n.artifactRepository);
    SameText(m.digest, n.digest);
  }

  lemma FieldsBind(m: SignedBuildManifest, n: SignedBuildManifest)
    requires m.version == n.version && SameUpToOrder(ManifestNode(m), ManifestNode(n))
    ensures m == n
  {
    hide SameUpToOrder, SourceNode, ArtifactNode;
    var a, b := ManifestNode(m), ManifestNode(n);
    ManifestKeys(n);
    SamePlaces(a, b, 1);
    SamePlaces(a, b, 2);
    SamePlaces(a, b, 3);
    SamePlaces(a, b, 4);
    SourcesBind(m, n);
    ArtifactsBind(m, n);
    SameText(m.builder, n.builder);
    SameText(m.issuedAt, n.issuedAt);
  }

  /** The signed text names one manifest: two v1 manifests share it exactly when every field agrees. */
  lemma SignedTextBinds(m: SignedBuildManifest, n: SignedBuildManifest)
    requires m.version == 1 && n.version == 1
    ensures Canonical(ManifestNode(m)).Some? && Canonical(ManifestNode(n)).Some?
    ensures Canonical(ManifestNode(m)) == Canonical(ManifestNode(n)) <==> m == n
  {
    ManifestIsCanonicalisable(m);
    ManifestIsCanonicalisable(n);
    hide Canonicalisable, SameUpToOrder, ManifestNode;
    CanonicalIsUnique(ManifestNode(m), ManifestNode(n));
    if Canonical(ManifestNode(m)) == Canonical(ManifestNode(n)) {
      FieldsBind(m, n);
    }
  }
}
