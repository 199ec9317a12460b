/** The two manifest writers: the Go client's loops into a buffer and the TypeScript recursion over sorted
    entries. Both write the canonical text, or refuse, for the same trees. */
module ManifestWriters {
  import opened Ideal
  import opened Text
  import opened Utf16Order
  import opened Manifest

  // ------------------------------------------------------------------ sorting commutes with rendering values

  function NormalEntry(e: Entry): Entry {
    Entry(e.key, Normal(e.value))
  }

  function NormalAll(entries: seq<Entry>): (normal: seq<Entry>)
    ensures |normal| == |entries| && forall i :: 0 <= i < |entries| ==> normal[i] == NormalEntry(entries[i])
  {
    if entries == [] then [] else [NormalEntry(entries[0])] + NormalAll(entries[1..])
  }

  lemma {:induction false} InsertCommutes(e: Entry, sorted: seq<Entry>)
    ensures InsertEntry(NormalEntry(e), NormalAll(sorted)) == NormalAll(InsertEntry(e, sorted))
  {
    hide Normal, Below;
    if sorted != [] {
      InsertCommutes(e, sorted[1..]);
      assert NormalAll(sorted)[1..] == NormalAll(sorted[1..]);
      assert ([e] + sorted)[1..] == sorted;
      assert ([sorted[0]] + InsertEntry(e, sorted[1..]))[1..] == InsertEntry(e, sorted[1..]);
    }
  }

  lemma {:induction false} SortCommutes(entries: seq<Entry>)
    ensures SortEntries(NormalAll(entries)) == NormalAll(SortEntries(entries))
  {
    hide Normal;
    if entries != [] {
      SortCommutes(entries[1..]);
      assert NormalAll(entries)[1..] == NormalAll(entries[1..]);
      InsertCommutes(entries[0], SortEntries(entries[1..]));
    }
  }

  /** A normal object's entries are its sorted entries, each with its value normal. */
  lemma NormalObject(t: Tree)
    requires t.ObjectNode?
    ensures Normal(t) == ObjectNode(NormalAll(SortEntries(t.entries)))
  {
    hide SortEntries, Normal;
    assert NormalEntries(t) == NormalAll(t.entries);
    SortCommutes(t.entries);
  }

  // ------------------------------------------------------------------ the Go writer

  /** What a decoded document is: no key twice in one object. Numbers and nesting are free. */
  predicate Decoded(t: Tree) {
    match t
    case ObjectNode(entries) => DistinctKeys(entries) && forall i :: 0 <= i < |entries| ==> Decoded(entries[i].value)
    case ArrayNode(items) => forall i :: 0 <= i < |items| ==> Decoded(items[i])
    case _ => true
  }

  method WriteJsonString(s: string) returns (out: string)
    ensures out == Quote(s)
  {
    out := "\"";
    for i := 0 to |s|
      invariant out + Escapes(s[i..]) == "\"" + Escapes(s)
    {
      assert s[i..][1..] == s[i + 1..];
      assert out + (Escape(s[i]) + Escapes(s[i + 1..])) == (out + Escape(s[i])) + Escapes(s[i + 1..]);
      out := out + Escape(s[i]);
    }
    assert s[|s|..] == "";
    out := out + "\"";
  }

  /** Member texts of sorted entries up to i. */
  function Written(entries: seq<Entry>, i: nat): string
    requires i <= |entries|
  {
    if i == 0 then ""
    else Written(entries, i - 1) + (if i > 1 then "," else "") + Quote(entries[i - 1].key) + ":" + Render(entries[i - 1].value)
  }

  lemma WrittenStart(entries: seq<Entry>)
    ensures Written(entries, 0) == ""
  {
  }

  lemma WrittenStep(entries: seq<Entry>, i: nat)
    requires i < |entries|
    ensures Written(entries, i + 1) ==
            Written(entries, i) + ((if i > 0 then "," else "") + Quote(entries[i].key) + ":" + Render(entries[i].value))
  {
    hide Quote, Render;
  }

  lemma {:induction false} WrittenIsMembers(t: Tree, i: nat)
    requires t.ObjectNode? && i <= |t.entries|
    ensures Written(t.entries, i) + Members(t, i) == Members(t, 0)
  {
    hide Quote, Render;
    if i > 0 {
      WrittenIsMembers(t, i - 1);
      var piece := (if i > 1 then "," else "") + Quote(t.entries[i - 1].key) + ":" + Render(t.entries[i - 1].value);
      assert Members(t, i - 1) == piece + Members(t, i);
      assert Written(t.entries, i) == Written(t.entries, i - 1) + piece;
      assert Written(t.entries, i - 1) + (piece + Members(t, i)) == (Written(t.entries, i - 1) + piece) + Members(t, i);
    }
  }

  function WrittenItems(items: seq<Tree>, i: nat): string
    requires i <= |items|
  {
    if i == 0 then "" else WrittenItems(items, i - 1) + (if i > 1 then "," else "") + Render(items[i - 1])
  }

  lemma {:induction false} WrittenIsItems(t: Tree, i: nat)
    requires t.ArrayNode? && i <= |t.items|
    ensures WrittenItems(t.items, i) + Items(t, i) == Items(t, 0)
  {
    hide Render;
    if i > 0 {
      WrittenIsItems(t, i - 1);
      var piece := (if i > 1 then "," else "") + Render(t.items[i - 1]);
      assert Items(t, i - 1) == piece + Items(t, i);
      assert WrittenItems(t.items, i) == WrittenItems(t.items, i - 1) + piece;
      assert WrittenItems(t.items, i - 1) + (piece + Items(t, i)) == (WrittenItems(t.items, i - 1) + piece) + Items(t, i);
    }
  }

  /** Go's writeCanonical: None where it returns an error. */
  method WriteCanonical(t: Tree) returns (out: Option<string>)
    requires Decoded(t)
    ensures out == Canonical(t)
    decreases t, 1
  {
    hide Render, Normal, Quote;
    match t {
      case TextNode(text) =>
        LeafText(t);
        var quoted := WriteJsonString(text);
        out := Some(quoted);
      case IntegerNode(n) =>
        LeafText(t);
        out := if n != 1 then None else Some("1");
      case ObjectNode(entries) => out := WriteObject(t);
      case ArrayNode(items) => out := WriteArray(t);
    }
  }

  lemma LeafText(t: Tree)
    ensures t.TextNode? ==> Canonical(t) == Some(Quote(t.text))
    ensures t.IntegerNode? ==> Canonical(t) == if t.integer == 1 then Some("1") else None
  {
    hide Quote;
  }

  lemma ObjectText(t: Tree)
    requires t.ObjectNode?
    ensures var sorted := NormalAll(SortEntries(t.entries)); Render(Normal(t)) == "{" + Written(sorted, |sorted|) + "}"
  {
    hide Quote, SortEntries;
    NormalObject(t);
    var sorted := NormalAll(SortEntries(t.entries));
    WrittenIsMembers(ObjectNode(sorted), |sorted|);
    assert Written(sorted, |sorted|) + "" == Written(sorted, |sorted|);
  }

  lemma ArrayText(t: Tree)
    requires t.ArrayNode?
    ensures var normal := Normal(t);
            && normal.ArrayNode? && |normal.items| == |t.items|
            && (forall i :: 0 <= i < |t.items| ==> normal.items[i] == Normal(t.items[i]))
            && Render(normal) == "[" + WrittenItems(normal.items, |normal.items|) + "]"
  {
    var normal := Normal(t);
    WrittenIsItems(normal, |normal.items|);
    assert WrittenItems(normal.items, |normal.items|) + "" == WrittenItems(normal.items, |normal.items|);
  }

  lemma EntriesCanonicalisable(t: Tree)
    requires t.ObjectNode? && DistinctKeys(t.entries)
    ensures Canonicalisable(t) <==> forall i :: 0 <= i < |SortEntries(t.entries)| ==> Canonicalisable(SortEntries(t.entries)[i].value)
    ensures forall i :: 0 <= i < |SortEntries(t.entries)| ==> SortEntries(t.entries)[i] in t.entries
  {
    SortKeeps(t.entries);
    var sorted := SortEntries(t.entries);
    assert forall i :: 0 <= i < |sorted| ==> sorted[i] in t.entries;
    assert forall i :: 0 <= i < |t.entries| ==> t.entries[i] in sorted;
  }

  method WriteObject(t: Tree) returns (out: Option<string>)
    requires t.ObjectNode? && Decoded(t)
    ensures out == Canonical(t)
    decreases t, 0
  {
    hide Render, Normal, Quote, SortEntries, Canonicalisable, Written, NormalAll;
    EntriesCanonicalisable(t);
    ObjectText(t);
    var sorted := SortEntries(t.entries);
    ghost var normal := NormalAll(sorted);
    var buf := "{";
    WrittenStart(normal);
    for i := 0 to |sorted|
      invariant buf == "{" + Written(normal, i)
      invariant forall j :: 0 <= j < i ==> Canonicalisable(sorted[j].value)
    {
      assert sorted[i] in t.entries;
      var j :| 0 <= j < |t.entries| && t.entries[j] == sorted[i];
      var key := WriteJsonString(sorted[i].key);
      var value := WriteCanonical(t.entries[j].value);
      if value.None? {
        return None;
      }
      WrittenStep(normal, i);
      buf := buf + ((if i > 0 then "," else "") + key + ":" + value.value);
    }
    return Some(buf + "}");
  }

  method WriteArray(t: Tree) returns (out: Option<string>)
    requires t.ArrayNode? && Decoded(t)
    ensures out == Canonical(t)
    decreases t, 0
  {
    hide Render, Normal, Quote;
    ArrayText(t);
    ghost var normal := Normal(t);
    var buf := "[";
    for i := 0 to |t.items|
      invariant buf == "[" + WrittenItems(normal.items, i)
      invariant forall j :: 0 <= j < i ==> Canonicalisable(t.items[j])
    {
      var item := WriteCanonical(t.items[i]);
      if item.None? {
        return None;
      }
      var piece := (if i > 0 then "," else "") + item.value;
      assert WrittenItems(normal.items, i + 1) == WrittenItems(normal.items, i) + piece;
      buf := buf + piece;
    }
    return Some(buf + "]");
  }

  // ------------------------------------------------------------------ the TypeScript writer

  /** The tagged tree of the signing library has no arrays. */
  predicate Tagged(t: Tree) {
    match t
    case ObjectNode(entries) => forall i :: 0 <= i < |entries| ==> Tagged(entries[i].value)
    case ArrayNode(_) => false
    case _ => true
  }

  /** The duplicate check, a loop over a set of seen keys. */
  method FindDuplicate(entries: seq<Entry>) returns (duplicate: bool)
    ensures duplicate <==> !DistinctKeys(entries)
  {
    var seen: set<string> := {};
    for i := 0 to |entries|
      invariant DistinctKeys(entries[..i]) && seen == set j | 0 <= j < i :: entries[j].key
    {
      if entries[i].key in seen {
        return true;
      }
      seen := seen + {entries[i].key};
    }
    assert entries[..|entries|] == entries;
    return false;
  }

  /** `"key":text` for each entry in turn. */
  function MemberTexts(entries: seq<Entry>, texts: map<string, string>): (parts: seq<string>)
    ensures |parts| == |entries|
  {
    seq(|entries|, i requires 0 <= i < |entries| =>
      Quote(entries[i].key) + ":" + if entries[i].key in texts then texts[entries[i].key] else "")
  }

  /** canonicalizeValue: sort, map each entry to its text, join with commas. None where it throws. */
  function CanonicalizeValue(t: Tree): Option<string>
    requires Tagged(t)
  {
    match t
    case TextNode(text) => Some(Quote(text))
    case IntegerNode(n) => if n != 1 then None else Some("1")
    case ObjectNode(entries) =>
      ObjectValue(entries, seq(|entries|, i requires 0 <= i < |entries| => CanonicalizeValue(entries[i].value)))
  }

  /** An object's text from the texts of its values, or a refusal. */
  function ObjectValue(entries: seq<Entry>, values: seq<Option<string>>): Option<string>
    requires |values| == |entries|
  {
    if !DistinctKeys(entries) || exists i :: 0 <= i < |values| && values[i].None? then None
    else Some("{" + Join(MemberTexts(SortEntries(entries), TextsByKey(entries, values)), ',') + "}")
  }

  function TextsByKey(entries: seq<Entry>, values: seq<Option<string>>): map<string, string>
    requires |values| == |entries| && DistinctKeys(entries) && forall i :: 0 <= i < |values| ==> values[i].Some?
  {
    map i | 0 <= i < |entries| :: entries[i].key := values[i].value
  }

  lemma {:induction false} JoinIsWritten(parts: seq<string>, entries: seq<Entry>)
    requires |parts| == |entries| && forall i :: 0 <= i < |parts| ==> parts[i] == Quote(entries[i].key) + ":" + Render(entries[i].value)
    ensures Join(parts, ',') == Written(entries, |entries|)
    decreases |parts|
  {
    hide Quote, Render;
    if |parts| > 1 {
      var front, last := parts[..|parts| - 1], parts[|parts| - 1];
      JoinIsWritten(front, entries[..|entries| - 1]);
      JoinLast(front, last);
      assert front + [last] == parts;
      WrittenPrefix(entries, |entries| - 1);
    }
  }

  lemma {:induction false} WrittenPrefix(entries: seq<Entry>, i: nat)
    requires i < |entries|
    ensures Written(entries[..|entries| - 1], i) == Written(entries, i)
  {
    hide Quote, Render;
    if i > 0 {
      WrittenPrefix(entries, i - 1);
    }
  }

  lemma {:induction false} JoinLast(parts: seq<string>, last: string)
    requires parts != []
    ensures Join(parts + [last], ',') == Join(parts, ',') + "," + last
  {
    if |parts| > 1 {
      JoinLast(parts[1..], last);
      assert (parts + [last])[1..] == parts[1..] + [last];
      assert parts[0] + [','] + (Join(parts[1..], ',') + "," + last) == (parts[0] + [','] + Join(parts[1..], ',')) + "," + last;
    } else {
      assert (parts + [last])[1..] == [last];
    }
  }

  /** The two writers agree on every tree both accept, and refuse the same trees: a second key, or an integer
      other than one. */
  lemma {:induction false} WritersAgree(t: Tree)
    requires Tagged(t)
    ensures CanonicalizeValue(t) == Canonical(t)
    decreases t
  {
    match t
    case TextNode(_) => LeafText(t);
    case IntegerNode(_) => LeafText(t);
    case ObjectNode(entries) =>
      var values := seq(|entries|, i requires 0 <= i < |entries| => CanonicalizeValue(entries[i].value));
      forall i | 0 <= i < |entries| ensures values[i] == Canonical(entries[i].value) {
        WritersAgree(entries[i].value);
      }
      ObjectsWrittenAlike(t, values);
      assert CanonicalizeValue(t) == ObjectValue(entries, values);
  }

  /** Looked up by key, each sorted entry gets the text of its own value. */
  lemma MemberTextsAre(entries: seq<Entry>, texts: map<string, string>)
    requires DistinctKeys(entries)
    requires forall i :: 0 <= i < |entries| ==> entries[i].key in texts && texts[entries[i].key] == Render(Normal(entries[i].value))
    ensures var sorted, normal := SortEntries(entries), NormalAll(SortEntries(entries));
            && |MemberTexts(sorted, texts)| == |normal| == |sorted|
            && forall i :: 0 <= i < |sorted| ==> MemberTexts(sorted, texts)[i] == Quote(normal[i].key) + ":" + Render(normal[i].value)
  {
    hide Quote, Render, Normal, SortEntries, NormalAll;
    var sorted := SortEntries(entries);
    SortKeeps(entries);
    forall i | 0 <= i < |sorted|
      ensures MemberTexts(sorted, texts)[i] == Quote(NormalAll(sorted)[i].key) + ":" + Render(NormalAll(sorted)[i].value)
    {
      assert sorted[i] in entries;
      var j :| 0 <= j < |entries| && entries[j] == sorted[i];
      assert NormalAll(sorted)[i] == NormalEntry(sorted[i]);
    }
  }

  lemma JoinedTexts(entries: seq<Entry>, texts: map<string, string>)
    requires DistinctKeys(entries)
    requires forall i :: 0 <= i < |entries| ==> entries[i].key in texts && texts[entries[i].key] == Render(Normal(entries[i].value))
    ensures var normal := NormalAll(SortEntries(entries));
            Join(MemberTexts(SortEntries(entries), texts), ',') == Written(normal, |normal|)
  {
    hide Quote, Render, Normal, SortEntries, NormalAll, MemberTexts, Join, DistinctKeys;
    MemberTextsAre(entries, texts);
    JoinIsWritten(MemberTexts(SortEntries(entries), texts), NormalAll(SortEntries(entries)));
  }

  lemma ObjectsWrittenAlike(t: Tree, values: seq<Option<string>>)
    requires t.ObjectNode? && |values| == |t.entries|
    requires forall i :: 0 <= i < |values| ==> values[i] == Canonical(t.entries[i].value)
    ensures ObjectValue(t.entries, values) == Canonical(t)
  {
    hide Quote, Render, Normal, SortEntries, NormalAll, MemberTexts, Join, Written;
    var entries := t.entries;
    if DistinctKeys(entries) && forall i :: 0 <= i < |values| ==> values[i].Some? {
      assert forall i :: 0 <= i < |entries| ==> entries[i].key in TextsByKey(entries, values);
      JoinedTexts(entries, TextsByKey(entries, values));
      ObjectText(t);
    }
  }
}
