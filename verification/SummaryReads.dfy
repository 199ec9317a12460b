/** The canonical summary is JSON: read back by the grammar of RFC 8259 it is the summary, every field under its own name
    and the names of every object in order. */
module SummaryReads {
  import opened Ideal
  import opened Text
  import opened Manifest
  import opened Summary
  import opened JsonReader

  function FactJson(f: Fact): Json {
    var matches := if f.matchesClaim.None? then Null else if f.matchesClaim.value then True else False;
    Object([Member("key", String(f.key)), Member("matchesClaim", matches), Member("value", String(f.value))])
  }

  function VerificationJson(v: Verification): Json {
    Object([Member("facts", ListOf(FactJson, v.facts)), Member("status", String(StatusName(v.status))),
            Member("verifier", String(v.verifier)), Member("warnings", ListOf(StringOf, v.warnings))])
  }

  function StringOf(s: string): Json {
    String(s)
  }

  function ListOf<T>(json: T -> Json, items: seq<T>): Json {
    List(From(json, items, 0))
  }

  function From<T>(json: T -> Json, items: seq<T>, i: nat): seq<Json>
    requires i <= |items|
  {
    seq(|items| - i, k requires 0 <= k < |items| - i => json(items[i + k]))
  }

  // ------------------------------------------------------------------ names and texts

  /** A text that needs no escapes. */
  predicate Plain(s: string) {
    forall i :: 0 <= i < |s| ==> 'A' <= s[i] <= 'z' && s[i] != '\\'
  }

  lemma {:induction false} PlainQuote(s: string)
    requires Plain(s)
    ensures Escapes(s) == s && Quote(s) == "\"" + s + "\""
  {
    hide Escape;
    if s != "" {
      PlainEscape(s[0]);
      PlainQuote(s[1..]);
      assert Escapes(s) == [s[0]] + s[1..];
    }
  }

  lemma PlainEscape(c: char)
    requires 'A' <= c <= 'z' && c != '\\'
    ensures Escape(c) == [c]
  {
  }

  lemma TextReads(s: string, x: string)
    ensures ReadValue(Quote(s) + x) == Some((String(s), x)) && Quote(s) != "" && Quote(s)[0] == '"'
  {
    hide ReadLiteral, Escapes;
    QuotedReads(s, x);
  }

  lemma MatchReads(m: Option<bool>, x: string)
    ensures ReadValue(MatchText(m) + x) == Some((if m.None? then Null else if m.value then True else False, x))
  {
    var t := MatchText(m) + x;
    assert t[|MatchText(m)|..] == x && t[..|MatchText(m)|] == MatchText(m);
  }

  // ------------------------------------------------------------------ lists

  /** What is rendered reads as its JSON, whatever follows. */
  ghost predicate ReadsAs<T(!new)>(render: T -> string, json: T -> Json) {
    forall s, x :: ReadsOne(render, json, s, x)
  }

  predicate ReadsOne<T>(render: T -> string, json: T -> Json, s: T, x: string) {
    render(s) != "" && render(s)[0] in {'"', '{'} && ReadValue(render(s) + x) == Some((json(s), x))
  }

  lemma FromStep<T>(json: T -> Json, items: seq<T>, i: nat)
    requires i < |items|
    ensures From(json, items, i) == [json(items[i])] + if i + 1 < |items| then From(json, items, i + 1) else []
  {
  }

  /** The text of a list from the i-th item on, its closing bracket and what follows. */
  function Rest<T>(render: T -> string, items: seq<T>, i: nat, x: string): string
    requires i <= |items|
  {
    Listed(render, items, i) + ("]" + x)
  }

  lemma RestStep<T>(render: T -> string, items: seq<T>, i: nat, x: string)
    requires i < |items|
    ensures Rest(render, items, i, x) == (if i > 0 then "," else "") + (render(items[i]) + Rest(render, items, i + 1, x))
    ensures Rest(render, items, |items|, x) == "]" + x
  {
  }

  /** From the i-th item on, without the comma that may stand before it. */
  lemma {:induction false} ListReads<T(!new)>(render: T -> string, json: T -> Json, items: seq<T>, i: nat, x: string)
    requires ReadsAs(render, json) && i < |items|
    ensures ReadItems(render(items[i]) + Rest(render, items, i + 1, x)) == Some((From(json, items, i), x))
    decreases |items| - i
  {
    hide ReadValue, ReadItems, From, Rest;
    FromStep(json, items, i);
    RestStep(render, items, i, x);
    var rest := Rest(render, items, i + 1, x);
    assert ReadsOne(render, json, items[i], rest);
    if i + 1 < |items| {
      RestStep(render, items, i + 1, x);
      ListReads(render, json, items, i + 1, x);
      assert rest[1..] == render(items[i + 1]) + Rest(render, items, i + 2, x);
    } else {
      assert rest == "]" + x && rest[1..] == x;
      assert [json(items[i])] + [] == [json(items[i])];
    }
    ItemReads(render(items[i]), json(items[i]), rest);
  }

  lemma FirstItem<T(!new)>(render: T -> string, json: T -> Json, items: seq<T>, x: string)
    requires ReadsAs(render, json) && items != []
    ensures var u := Rest(render, items, 0, x);
            u != "" && u[0] in {'"', '{'} && ReadItems(u) == Some((ListOf(json, items).items, x))
  {
    hide ReadItems, ReadValue, Rest, From;
    ListReads(render, json, items, 0, x);
    RestStep(render, items, 0, x);
    var rest := Rest(render, items, 1, x);
    assert ReadsOne(render, json, items[0], rest);
    assert Rest(render, items, 0, x) == render(items[0]) + rest;
  }

  lemma ArrayReads<T(!new)>(render: T -> string, json: T -> Json, items: seq<T>, x: string)
    requires ReadsAs(render, json)
    ensures ReadValue("[" + (Listed(render, items, 0) + ("]" + x))) == Some((ListOf(json, items), x))
  {
    var u := Rest(render, items, 0, x);
    assert ("[" + u)[1..] == u;
    if items == [] {
      assert u == "]" + x && ("[" + u)[2..] == x && From(json, items, 0) == [];
    } else {
      FirstItem(render, json, items, x);
      hide ReadItems, Listed;
    }
  }

  // ------------------------------------------------------------------ objects

  /** A name and a colon in a fixed text are the quoted name and the colon. */
  lemma NameSpelled(name: string, x: string)
    requires Plain(name)
    ensures "\"" + name + "\":" + x == Quote(name) + (":" + x)
  {
    PlainQuote(name);
    assert "\"" + name + "\":" + x == ("\"" + name + "\"") + (":" + x);
  }

  lemma FactSpelled(f: Fact, x: string)
    ensures FactText(f) + x == "{" + (Quote("key") + (":" + (Quote(f.key) + ("," + (Quote("matchesClaim") + (":" +
              (MatchText(f.matchesClaim) + ("," + (Quote("value") + (":" + (Quote(f.value) + ("}" + x))))))))))))
  {
    hide Quote, MatchText;
    var f4 := Quote(f.value) + ("}" + x);
    var f3 := MatchText(f.matchesClaim) + (",\"value\":" + f4);
    var f2 := Quote(f.key) + (",\"matchesClaim\":" + f3);
    assert FactText(f) + x == "{\"key\":" + f2;
    NameSpelled("key", f2);
    NameSpelled("matchesClaim", f3);
    NameSpelled("value", f4);
    assert ",\"value\":" + f4 == "," + ("\"" + "value" + "\":" + f4);
    assert ",\"matchesClaim\":" + f3 == "," + ("\"" + "matchesClaim" + "\":" + f3);
    assert "{\"key\":" + f2 == "{" + ("\"" + "key" + "\":" + f2);
  }

  lemma FactReads(f: Fact, x: string)
    ensures ReadValue(FactText(f) + x) == Some((FactJson(f), x)) && FactText(f) != "" && FactText(f)[0] == '{'
  {
    var r3 := "}" + x;
    var m3 := Quote("value") + (":" + (Quote(f.value) + r3));
    var r2 := "," + m3;
    var m2 := Quote("matchesClaim") + (":" + (MatchText(f.matchesClaim) + r2));
    var r1 := "," + m2;
    var m1 := Quote("key") + (":" + (Quote(f.key) + r1));
    hide Quote, ReadMembers, MatchText, ReadLiteral, ReadValue;
    FactSpelled(f, x);
    assert r1[1..] == m2 && r2[1..] == m3 && r3[1..] == x;
    TextReads(f.key, r1);
    MatchReads(f.matchesClaim, r2);
    TextReads(f.value, r3);
    MemberReads("value", Quote(f.value), String(f.value), r3);
    MemberReads("matchesClaim", MatchText(f.matchesClaim), FactJson(f).members[1].value, r2);
    MemberReads("key", Quote(f.key), String(f.key), r1);
    TextReads("key", ":" + (Quote(f.key) + r1));
    var members := FactJson(f).members;
    assert [members[0]] + ([members[1]] + [members[2]]) == members;
    ObjectReads(m1, FactJson(f).members, x);
  }

  lemma ObjectReads(t: string, members: seq<Member>, x: string)
    requires t != "" && t[0] == '"' && ReadMembers(t) == Some((members, x))
    ensures ReadValue("{" + t) == Some((Object(members), x))
  {
    hide ReadMembers;
    assert ("{" + t)[1..] == t;
  }

  lemma FactsRead()
    ensures ReadsAs(FactText, FactJson)
  {
    forall f, x ensures ReadsOne(FactText, FactJson, f, x) {
      FactReads(f, x);
    }
  }

  lemma TextsRead()
    ensures ReadsAs(Quote, StringOf)
  {
    forall s, x ensures ReadsOne(Quote, StringOf, s, x) {
      TextReads(s, x);
    }
  }

  // ------------------------------------------------------------------ results

  /** A result's members, each with all that follows it. */
  function WarningsText(v: Verification, x: string): string {
    Quote("warnings") + (":" + ("[" + (Listed(Quote, v.warnings, 0) + ("]" + ("}" + x)))))
  }

  function VerifierText(v: Verification, x: string): string {
    Quote("verifier") + (":" + (Quote(v.verifier) + ("," + WarningsText(v, x))))
  }

  function StatusText(v: Verification, x: string): string {
    Quote("status") + (":" + (Quote(StatusName(v.status)) + ("," + VerifierText(v, x))))
  }

  function FactsText(v: Verification, x: string): string {
    Quote("facts") + (":" + ("[" + (Listed(FactText, v.facts, 0) + ("]" + ("," + StatusText(v, x))))))
  }

  lemma VerificationNames(v: Verification, x: string)
    ensures VerificationText(v) + x == "{" + FactsText(v, x)
  {
    hide Quote, Listed, StatusName;
    VerificationSpelled(v, x);
    var w := Listed(Quote, v.warnings, 0) + ("]" + ("}" + x));
    var v2 := Quote(v.verifier) + (",\"warnings\":[" + w);
    var v1 := Quote(StatusName(v.status)) + (",\"verifier\":" + v2);
    hide Quote, Listed, StatusName;
    WarningsSpelled(w);
    VerifierSpelled(v2);
    StatusSpelled(v1);
    FactsSpelled(Listed(FactText, v.facts, 0) + ("]" + (",\"status\":" + v1)));
  }

  lemma WarningsSpelled(x: string)
    ensures ",\"warnings\":[" + x == "," + (Quote("warnings") + (":" + ("[" + x)))
  {
    FieldSpelled(",", "warnings", "[", ",\"warnings\":[", x);
  }

  lemma VerifierSpelled(x: string)
    ensures ",\"verifier\":" + x == "," + (Quote("verifier") + (":" + x))
  {
    FieldSpelled(",", "verifier", "", ",\"verifier\":", x);
    assert "" + x == x;
  }

  lemma StatusSpelled(x: string)
    ensures ",\"status\":" + x == "," + (Quote("status") + (":" + x))
  {
    FieldSpelled(",", "status", "", ",\"status\":", x);
    assert "" + x == x;
  }

  lemma FactsSpelled(x: string)
    ensures "{\"facts\":[" + x == "{" + (Quote("facts") + (":" + ("[" + x)))
  {
    FieldSpelled("{", "facts", "[", "{\"facts\":[", x);
  }

  /** A name written into a fixed text. */
  lemma FieldSpelled(before: string, name: string, after: string, whole: string, x: string)
    requires Plain(name) && whole == before + ("\"" + name + "\":" + after)
    ensures whole + x == before + (Quote(name) + (":" + (after + x)))
  {
    NameSpelled(name, after + x);
    assert "\"" + name + "\":" + after + x == "\"" + name + "\":" + (after + x);
  }

  lemma VerificationReads(v: Verification, x: string)
    ensures ReadValue(VerificationText(v) + x) == Some((VerificationJson(v), x))
    ensures VerificationText(v) != "" && VerificationText(v)[0] == '{'
  {
    VerificationNames(v, x);
    VerificationLead(v);
    hide ReadMembers, ReadValue, ListOf, VerificationText, FactsText, StatusText, VerifierText, WarningsText;
    FactsMember(v, x);
    TextMember("status", StatusName(v.status), VerifierText(v, x));
    TextMember("verifier", v.verifier, WarningsText(v, x));
    WarningsMember(v, x);
    StatusFirst(v, x);
    var members := VerificationJson(v).members;
    assert [members[0]] + ([members[1]] + ([members[2]] + [members[3]])) == members;
    ObjectReads(FactsText(v, x), members, x);
  }

  lemma VerificationLead(v: Verification)
    ensures VerificationText(v) != "" && VerificationText(v)[0] == '{'
  {
    hide Quote, Listed, StatusName;
  }

  lemma StatusFirst(v: Verification, x: string)
    ensures StatusText(v, x) == Quote("status") + (":" + (Quote(StatusName(v.status)) + ("," + VerifierText(v, x))))
    ensures VerifierText(v, x) == Quote("verifier") + (":" + (Quote(v.verifier) + ("," + WarningsText(v, x))))
    ensures FactsText(v, x) != "" && FactsText(v, x)[0] == '"'
  {
    hide Listed, StatusName, WarningsText;
    TextReads("facts", ":" + ("[" + (Listed(FactText, v.facts, 0) + ("]" + ("," + StatusText(v, x))))));
    hide Quote;
  }

  /** A member whose value is a text, with another after it. */
  lemma TextMember(name: string, text: string, next: string)
    ensures ReadMembers(Quote(name) + (":" + (Quote(text) + ("," + next)))) ==
            match ReadMembers(next)
            case None => None
            case Some((more, after)) => Some(([Member(name, String(text))] + more, after))
  {
    hide Quote, ReadMembers, ReadValue;
    TextReads(text, "," + next);
    assert ("," + next)[1..] == next;
    MemberReads(name, Quote(text), String(text), "," + next);
  }

  lemma FactsMember(v: Verification, x: string)
    ensures ReadMembers(FactsText(v, x)) ==
            match ReadMembers(StatusText(v, x))
            case None => None
            case Some((more, after)) => Some(([Member("facts", ListOf(FactJson, v.facts))] + more, after))
  {
    hide Quote, ReadMembers, ReadValue, Listed, ListOf, ReadsAs, StatusText;
    FactsRead();
    var text, next := "[" + (Listed(FactText, v.facts, 0) + "]"), StatusText(v, x);
    assert text + ("," + next) == "[" + (Listed(FactText, v.facts, 0) + ("]" + ("," + next)));
    ArrayReads(FactText, FactJson, v.facts, "," + next);
    assert ("," + next)[1..] == next;
    MemberReads("facts", text, ListOf(FactJson, v.facts), "," + next);
  }

  lemma WarningsMember(v: Verification, x: string)
    ensures ReadMembers(WarningsText(v, x)) == Some(([Member("warnings", ListOf(StringOf, v.warnings))], x))
  {
    hide Quote, ReadMembers, ReadValue, Listed, ListOf, ReadsAs;
    TextsRead();
    var text := "[" + (Listed(Quote, v.warnings, 0) + "]");
    assert text + ("}" + x) == "[" + (Listed(Quote, v.warnings, 0) + ("]" + ("}" + x)));
    ArrayReads(Quote, StringOf, v.warnings, "}" + x);
    assert ("}" + x)[1..] == x;
    MemberReads("warnings", text, ListOf(StringOf, v.warnings), "}" + x);
  }

  lemma VerificationsRead()
    ensures ReadsAs(VerificationText, VerificationJson)
  {
    forall v, x ensures ReadsOne(VerificationText, VerificationJson, v, x) {
      VerificationReads(v, x);
    }
  }

  /** The whole summary, as JSON. */
  lemma SummarySaysTheResults(results: seq<Verification>)
    ensures ReadValue(CanonicalSummary(results)) == Some((Object([Member("results", ListOf(VerificationJson, results))]), ""))
  {
    hide Quote, ReadMembers, ReadLiteral, ReadValue, Listed, ReadsAs, ListOf, VerificationText, VerificationJson;
    VerificationsRead();
    var inner := Listed(VerificationText, results, 0) + ("]" + "}");
    var text := "[" + (Listed(VerificationText, results, 0) + "]");
    var m := Quote("results") + (":" + (text + "}"));
    NameSpelled("results", "[" + inner);
    assert text + "}" == "[" + inner;
    assert CanonicalSummary(results) == "{" + ("\"" + "results" + "\":" + ("[" + inner));
    ArrayReads(VerificationText, VerificationJson, results, "}");
    assert "}"[1..] == "";
    MemberReads("results", text, ListOf(VerificationJson, results), "}");
    TextReads("results", ":" + (text + "}"));
    ObjectReads(m, [Member("results", ListOf(VerificationJson, results))], "");
  }
}
