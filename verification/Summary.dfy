/** The canonical text of a provenance summary, to whose digest an approval is bound: it determines the summary
    it was made from. */
module Summary {
  import opened Ideal
  import opened AadText
  import opened Manifest

  datatype Status = VERIFIED | UNVERIFIED | FAILED | UNAVAILABLE
  datatype Fact = Fact(key: string, matchesClaim: Option<bool>, value: string)
  datatype Verification = Verification(facts: seq<Fact>, status: Status, verifier: string, warnings: seq<string>)

  function StatusName(status: Status): string {
    match status
    case VERIFIED => "VERIFIED"
    case UNVERIFIED => "UNVERIFIED"
    case FAILED => "FAILED"
    case UNAVAILABLE => "UNAVAILABLE"
  }

  function MatchText(m: Option<bool>): string {
    if m.None? then "null" else if m.value then "true" else "false"
  }

  /** Texts separated by commas, from the i-th on. */
  function Listed<T>(render: T -> string, items: seq<T>, i: nat): string
    requires i <= |items|
    decreases |items| - i
  {
    if i == |items| then "" else (if i > 0 then "," else "") + (render(items[i]) + Listed(render, items, i + 1))
  }

  function FactText(f: Fact): string {
    "{\"key\":" + (Quote(f.key) + (",\"matchesClaim\":" + (MatchText(f.matchesClaim) + (",\"value\":" + (Quote(f.value) + "}")))))
  }

  function VerificationText(v: Verification): string {
    "{\"facts\":[" + (Listed(FactText, v.facts, 0) + ("]" + (",\"status\":" + (Quote(StatusName(v.status))
      + (",\"verifier\":" + (Quote(v.verifier) + (",\"warnings\":[" + (Listed(Quote, v.warnings, 0) + ("]" + "}")))))))))
  }

  function CanonicalSummary(results: seq<Verification>): string {
    "{\"results\":[" + (Listed(VerificationText, results, 0) + ("]" + "}"))
  }

  // ------------------------------------------------------------------ readability

  /** A text tells its value and where it ends, whatever follows. */
  ghost predicate Readable<T(!new)>(render: T -> string) {
    && (forall s, t, x, y :: render(s) + x == render(t) + y ==> s == t && x == y)
    && (forall s :: render(s) != "" && render(s)[0] != ']')
  }

  lemma {:induction false} ListReadable<T(!new)>(render: T -> string, a: seq<T>, b: seq<T>, i: nat, x: string, y: string)
    requires Readable(render) && i <= |a| && i <= |b|
    requires Listed(render, a, i) + ("]" + x) == Listed(render, b, i) + ("]" + y)
    ensures a[i..] == b[i..] && x == y
    decreases |a| - i
  {
    hide Listed;
    var u, v := Listed(render, a, i) + ("]" + x), Listed(render, b, i) + ("]" + y);
    ListedSplits(render, a, i, x);
    ListedSplits(render, b, i, y);
    if i < |a| && i < |b| {
      ListReadable(render, a, b, i + 1, x, y);
      assert a[i..] == [a[i]] + a[i + 1..] && b[i..] == [b[i]] + b[i + 1..];
    }
  }

  /** The first character tells whether the list goes on, and a separator cancels. */
  lemma ListedSplits<T(!new)>(render: T -> string, items: seq<T>, i: nat, x: string)
    requires Readable(render) && i <= |items|
    ensures var u := Listed(render, items, i) + ("]" + x);
            if i == |items| then u[0] == ']' && u[1..] == x
            else
              u[0] != ']' &&
              (if i > 0 then u[1..] else u) == render(items[i]) + (Listed(render, items, i + 1) + ("]" + x))
  {
    if i < |items| {
      var u := Listed(render, items, i) + ("]" + x);
      var rest := render(items[i]) + (Listed(render, items, i + 1) + ("]" + x));
      assert rest[0] == render(items[i])[0];
      if i > 0 {
        assert u == "," + rest;
      } else {
        assert u == "" + rest;
      }
    }
  }

  lemma QuoteIsReadable()
    ensures Readable(Quote)
  {
    forall s, t, x, y | Quote(s) + x == Quote(t) + y ensures s == t && x == y {
      QuoteReadable(s, t, x, y);
    }
    forall s ensures Quote(s) != "" && Quote(s)[0] != ']' {
      QuoteLead(s);
    }
  }

  lemma MatchReadable(m: Option<bool>, n: Option<bool>, x: string, y: string)
    requires MatchText(m) + x == MatchText(n) + y
    ensures m == n && x == y
  {
    assert (MatchText(m) + x)[0] == MatchText(m)[0] && (MatchText(n) + y)[0] == MatchText(n)[0];
    PrefixCancels(MatchText(m), x, y);
  }

  lemma FactsReadable(f: Fact, g: Fact, x: string, y: string)
    requires FactText(f) + x == FactText(g) + y
    ensures f == g && x == y
  {
    hide Quote, MatchText;
    var f5, g5 := "}" + x, "}" + y;
    var f4, g4 := ",\"value\":" + (Quote(f.value) + f5), ",\"value\":" + (Quote(g.value) + g5);
    var f3, g3 := ",\"matchesClaim\":" + (MatchText(f.matchesClaim) + f4), ",\"matchesClaim\":" + (MatchText(g.matchesClaim) + g4);
    assert FactText(f) + x == "{\"key\":" + (Quote(f.key) + f3);
    assert FactText(g) + y == "{\"key\":" + (Quote(g.key) + g3);
    PrefixCancels("{\"key\":", Quote(f.key) + f3, Quote(g.key) + g3);
    QuoteReadable(f.key, g.key, f3, g3);
    PrefixCancels(",\"matchesClaim\":", MatchText(f.matchesClaim) + f4, MatchText(g.matchesClaim) + g4);
    MatchReadable(f.matchesClaim, g.matchesClaim, f4, g4);
    PrefixCancels(",\"value\":", Quote(f.value) + f5, Quote(g.value) + g5);
    QuoteReadable(f.value, g.value, f5, g5);
    PrefixCancels("}", x, y);
  }

  lemma FactIsReadable()
    ensures Readable(FactText)
  {
    forall s, t, x, y | FactText(s) + x == FactText(t) + y ensures s == t && x == y {
      FactsReadable(s, t, x, y);
    }
    forall s ensures FactText(s) != "" && FactText(s)[0] != ']' {
      assert FactText(s)[0] == '{';
    }
  }

  lemma StatusInjective(s: Status, t: Status)
    requires StatusName(s) == StatusName(t)
    ensures s == t
  {
    assert |StatusName(VERIFIED)| == 8 && |StatusName(UNVERIFIED)| == 10 && |StatusName(FAILED)| == 6 && |StatusName(UNAVAILABLE)| == 11;
  }

  lemma VerificationsReadable(v: Verification, w: Verification, x: string, y: string)
    requires VerificationText(v) + x == VerificationText(w) + y
    ensures v == w && x == y
  {
    hide Quote, Listed, StatusName, Readable;
    FactIsReadable();
    QuoteIsReadable();
    var v6, w6 := "}" + x, "}" + y;
    var v5, w5 := ",\"warnings\":[" + (Listed(Quote, v.warnings, 0) + ("]" + v6)), ",\"warnings\":[" + (Listed(Quote, w.warnings, 0) + ("]" + w6));
    var v4, w4 := ",\"verifier\":" + (Quote(v.verifier) + v5), ",\"verifier\":" + (Quote(w.verifier) + w5);
    var v3, w3 := ",\"status\":" + (Quote(StatusName(v.status)) + v4), ",\"status\":" + (Quote(StatusName(w.status)) + w4);
    VerificationSpelled(v, x);
    VerificationSpelled(w, y);
    PrefixCancels("{\"facts\":[", Listed(FactText, v.facts, 0) + ("]" + v3), Listed(FactText, w.facts, 0) + ("]" + w3));
    ListReadable(FactText, v.facts, w.facts, 0, v3, w3);
    PrefixCancels(",\"status\":", Quote(StatusName(v.status)) + v4, Quote(StatusName(w.status)) + w4);
    QuoteReadable(StatusName(v.status), StatusName(w.status), v4, w4);
    StatusInjective(v.status, w.status);
    PrefixCancels(",\"verifier\":", Quote(v.verifier) + v5, Quote(w.verifier) + w5);
    QuoteReadable(v.verifier, w.verifier, v5, w5);
    PrefixCancels(",\"warnings\":[", Listed(Quote, v.warnings, 0) + ("]" + v6), Listed(Quote, w.warnings, 0) + ("]" + w6));
    ListReadable(Quote, v.warnings, w.warnings, 0, v6, w6);
    PrefixCancels("}", x, y);
    assert v.facts[0..] == v.facts && w.facts[0..] == w.facts && v.warnings[0..] == v.warnings && w.warnings[0..] == w.warnings;
  }

  /** A result's text with what follows it pushed inwards. */
  lemma VerificationSpelled(v: Verification, x: string)
    ensures VerificationText(v) + x ==
              "{\"facts\":[" + (Listed(FactText, v.facts, 0) + ("]" + (",\"status\":" + (Quote(StatusName(v.status))
                + (",\"verifier\":" + (Quote(v.verifier) + (",\"warnings\":[" + (Listed(Quote, v.warnings, 0) + ("]" + ("}" + x))))))))))
  {
    hide Quote, Listed, StatusName;
  }

  lemma VerificationIsReadable()
    ensures Readable(VerificationText)
  {
    forall s, t, x, y | VerificationText(s) + x == VerificationText(t) + y ensures s == t && x == y {
      VerificationsReadable(s, t, x, y);
    }
    forall s ensures VerificationText(s) != "" && VerificationText(s)[0] != ']' {
      assert VerificationText(s)[0] == '{';
    }
  }

  /** Two summaries have one canonical text, and so one digest, only when they are the same summary. */
  lemma SummaryBinds(a: seq<Verification>, b: seq<Verification>)
    ensures CanonicalSummary(a) == CanonicalSummary(b) <==> a == b
  {
    hide Readable, VerificationText, Listed;
    if CanonicalSummary(a) == CanonicalSummary(b) {
      VerificationIsReadable();
      var u, v := Listed(VerificationText, a, 0) + ("]" + "}"), Listed(VerificationText, b, 0) + ("]" + "}");
      PrefixCancels("{\"results\":[", u, v);
      ListReadable(VerificationText, a, b, 0, "}", "}");
      assert a[0..] == a && b[0..] == b;
    }
  }
}
