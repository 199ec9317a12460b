/** A reader of JSON text by the grammar of RFC 8259 (no white space, natural numbers, no surrogate escapes), written from that
    grammar alone, and what it makes of canonical text: the tree that was written. */
module JsonReader {
  import opened Ideal
  import opened Text
  import opened Manifest

  datatype Member = Member(name: string, value: Json)
  datatype Json = String(text: string) | Number(value: int) | True | False | Null | Object(members: seq<Member>) | List(items: seq<Json>)

  // ------------------------------------------------------------------ string literals, section 7

  function HexDigitValue(c: char): Option<nat> {
    if '0' <= c <= '9' then Some(c as int - '0' as int)
    else if 'a' <= c <= 'f' then Some(c as int - 'a' as int + 10)
    else if 'A' <= c <= 'F' then Some(c as int - 'A' as int + 10)
    else None
  }

  /** What a two-character escape stands for. */
  function Unescaped(c: char): Option<char> {
    if c == '"' || c == '\\' || c == '/' then Some(c)
    else if c == 'b' then Some(0x8 as char)
    else if c == 'f' then Some(0xC as char)
    else if c == 'n' then Some(0xA as char)
    else if c == 'r' then Some(0xD as char)
    else if c == 't' then Some(0x9 as char)
    else None
  }

  function CodeUnit(h: string): Option<nat>
    requires |h| == 4
  {
    var a, b, c, d := HexDigitValue(h[0]), HexDigitValue(h[1]), HexDigitValue(h[2]), HexDigitValue(h[3]);
    if a.None? || b.None? || c.None? || d.None? then None
    else Some(((a.value * 16 + b.value) * 16 + c.value) * 16 + d.value)
  }

  /** One character of a literal and what follows it. */
  function ReadCharacter(t: string): (r: Option<(char, string)>)
    ensures r.Some? ==> |r.value.1| < |t|
  {
    if t == "" || t[0] == '"' || t[0] as int < 0x20 then None
    else if t[0] != '\\' then Some((t[0], t[1..]))
    else if |t| < 2 then None
    else if t[1] != 'u' then match Unescaped(t[1]) case Some(c) => Some((c, t[2..])) case None => None
    else if |t| < 6 || CodeUnit(t[2..6]).None? then None
    else
      var n := CodeUnit(t[2..6]).value;
      if n < 0xD800 || 0xE000 <= n < 0x10000 then Some((n as char, t[6..])) else None
  }

  /** The rest of a literal after its opening quote, and what follows its closing one. */
  function ReadLiteral(t: string): (r: Option<(string, string)>)
    ensures r.Some? ==> |r.value.1| < |t|
    decreases |t|
  {
    if t == "" then None
    else if t[0] == '"' then Some(("", t[1..]))
    else
      match ReadCharacter(t)
      case None => None
      case Some((c, u)) =>
        match ReadLiteral(u)
        case None => None
        case Some((s, v)) => Some(([c] + s, v))
  }

  // ------------------------------------------------------------------ values, sections 3 to 6

  /** The digits a text begins with. */
  function DigitRun(t: string): (n: nat)
    ensures n <= |t| && Digits(t[..n]) && (n < |t| ==> !IsDigit(t[n]))
  {
    if t == "" || !IsDigit(t[0]) then 0
    else
      assert t[1..][..DigitRun(t[1..])] == t[..1 + DigitRun(t[1..])][1..];
      1 + DigitRun(t[1..])
  }

  function ReadValue(t: string): (r: Option<(Json, string)>)
    ensures r.Some? ==> |r.value.1| < |t|
    decreases |t|, 0
  {
    if t == "" then None
    else if t[0] == '"' then
      match ReadLiteral(t[1..])
      case None => None
      case Some((s, u)) => Some((String(s), u))
    else if t[0] == '{' then
      if |t| > 1 && t[1] == '}' then Some((Object([]), t[2..]))
      else
        match ReadMembers(t[1..])
        case None => None
        case Some((members, u)) => Some((Object(members), u))
    else if t[0] == '[' then
      if |t| > 1 && t[1] == ']' then Some((List([]), t[2..]))
      else
        match ReadItems(t[1..])
        case None => None
        case Some((items, u)) => Some((List(items), u))
    else if "true" <= t then Some((True, t[4..]))
    else if "false" <= t then Some((False, t[5..]))
    else if "null" <= t then Some((Null, t[4..]))
    else
      var n := DigitRun(t);
      if n == 0 || (n > 1 && t[0] == '0') then None else Some((Number(Value(t[..n])), t[n..]))
  }

  /** `"name":value` once or more, separated by commas, to the closing brace. */
  function ReadMembers(t: string): (r: Option<(seq<Member>, string)>)
    ensures r.Some? ==> |r.value.1| < |t|
    decreases |t|, 1
  {
    if t == "" || t[0] != '"' then None
    else
      match ReadLiteral(t[1..])
      case None => None
      case Some((name, u)) =>
        if u == "" || u[0] != ':' then None
        else
          match ReadValue(u[1..])
          case None => None
          case Some((value, v)) =>
            if v == "" then None
            else if v[0] == '}' then Some(([Member(name, value)], v[1..]))
            else if v[0] != ',' then None
            else
              match ReadMembers(v[1..])
              case None => None
              case Some((rest, w)) => Some(([Member(name, value)] + rest, w))
  }

  function ReadItems(t: string): (r: Option<(seq<Json>, string)>)
    ensures r.Some? ==> |r.value.1| < |t|
    decreases |t|, 1
  {
    match ReadValue(t)
    case None => None
    case Some((value, v)) =>
      if v == "" then None
      else if v[0] == ']' then Some(([value], v[1..]))
      else if v[0] != ',' then None
      else
        match ReadItems(v[1..])
        case None => None
        case Some((rest, w)) => Some(([value] + rest, w))
  }

  /** A manifest tree as the JSON value it is. */
  function AsJson(t: Tree): Json {
    match t
    case TextNode(text) => String(text)
    case IntegerNode(n) => Number(n)
    case ObjectNode(entries) => Object(seq(|entries|, i requires 0 <= i < |entries| => Member(entries[i].key, AsJson(entries[i].value))))
    case ArrayNode(items) => List(seq(|items|, i requires 0 <= i < |items| => AsJson(items[i])))
  }

  // ------------------------------------------------------------------ reading back

  lemma HexReads(n: nat)
    requires n < 16
    ensures HexDigitValue(HEX_DIGITS[n]) == Some(n)
  {
  }

  /** Each escape is read as the character it was written for. */
  lemma EscapeReads(c: char, x: string)
    ensures ReadCharacter(Escape(c) + x) == Some((c, x)) && (Escape(c) + x)[0] != '"'
  {
    var t := Escape(c) + x;
    assert t[|Escape(c)|..] == x;
    if c as int < 0x20 && |Escape(c)| == 6 {
      HexReads(c as int / 16);
      HexReads(c as int % 16);
      HexReads(0);
      assert t[2..6] == ['0', '0', HEX_DIGITS[c as int / 16], HEX_DIGITS[c as int % 16]];
      assert HexDigitValue('0') == Some(0);
    }
  }

  lemma {:induction false} LiteralReads(s: string, x: string)
    ensures ReadLiteral(Escapes(s) + "\"" + x) == Some((s, x))
  {
    hide Escape, ReadCharacter;
    if s == "" {
      assert Escapes(s) + "\"" + x == "\"" + x;
    } else {
      var rest := Escapes(s[1..]) + "\"" + x;
      assert Escapes(s) + "\"" + x == Escape(s[0]) + rest;
      EscapeReads(s[0], rest);
      LiteralReads(s[1..], x);
      assert s == [s[0]] + s[1..];
    }
  }

  lemma QuotedReads(s: string, x: string)
    ensures (Quote(s) + x)[0] == '"' && ReadLiteral((Quote(s) + x)[1..]) == Some((s, x))
  {
    LiteralReads(s, x);
    QuoteBody(s, x);
  }

  predicate Stops(x: string) {
    x == "" || !IsDigit(x[0])
  }

  /** Canonical text, and whatever follows it, is read as the tree it was written from. */
  lemma {:induction false} RenderReads(t: Tree, x: string)
    requires Ones(t) && Stops(x)
    ensures ReadValue(Render(t) + x) == Some((AsJson(t), x))
    decreases t, Width(t)
  {
    hide Quote, ReadLiteral, Members, Items;
    RenderLead(t, x);
    RenderBody(t, x);
    match t
    case TextNode(text) => QuotedReads(text, x);
    case IntegerNode(_) =>
      assert Render(t) + x == "1" + x && ("1" + x)[1..] == x;
      OneReads(x);
    case ObjectNode(entries) =>
      if entries == [] {
        NoMembers(t, x);
      } else {
        MembersRead(t, 0, x);
      }
    case ArrayNode(items) =>
      if items == [] {
        NoItems(t, x);
      } else {
        ItemsRead(t, 0, x);
      }
  }

  lemma OneReads(x: string)
    requires Stops(x)
    ensures DigitRun("1" + x) == 1 && ("1" + x)[..1] == "1" && Value("1") == 1 && ("1" + x)[1..] == x
  {
    assert ("1" + x)[1..] == x;
    assert DigitRun(x) == 0;
    assert "1"[..0] == "";
  }

  lemma NoMembers(t: Tree, x: string)
    requires t.ObjectNode? && t.entries == []
    ensures ReadValue(Render(t) + x) == Some((AsJson(t), x))
  {
    assert Render(t) + x == "{}" + x && AsJson(t).members == [];
    assert ("{}" + x)[2..] == x;
  }

  lemma NoItems(t: Tree, x: string)
    requires t.ArrayNode? && t.items == []
    ensures ReadValue(Render(t) + x) == Some((AsJson(t), x))
  {
    assert Render(t) + x == "[]" + x && AsJson(t).items == [];
    assert ("[]" + x)[2..] == x;
  }

  /** One member and what comes after it. */
  lemma MemberReads(name: string, text: string, value: Json, rest: string)
    requires ReadValue(text + rest) == Some((value, rest)) && rest != "" && rest[0] in {',', '}'}
    ensures ReadMembers(Quote(name) + (":" + (text + rest))) ==
            if rest[0] == '}' then Some(([Member(name, value)], rest[1..]))
            else
              match ReadMembers(rest[1..])
              case None => None
              case Some((more, after)) => Some(([Member(name, value)] + more, after))
  {
    hide ReadLiteral, ReadValue, Quote;
    var tail := ":" + (text + rest);
    QuotedReads(name, tail);
    assert tail[1..] == text + rest;
  }

  lemma ItemReads(text: string, value: Json, rest: string)
    requires ReadValue(text + rest) == Some((value, rest)) && rest != "" && rest[0] in {',', ']'}
    ensures ReadItems(text + rest) ==
            if rest[0] == ']' then Some(([value], rest[1..]))
            else
              match ReadItems(rest[1..])
              case None => None
              case Some((more, after)) => Some(([value] + more, after))
  {
    hide ReadValue;
  }

  /** The text of the members from i on, without the comma that may stand before them. */
  function MembersFrom(t: Tree, i: nat, x: string): string
    requires t.ObjectNode? && i < |t.entries|
  {
    if i > 0 then (Members(t, i) + "}" + x)[1..] else Members(t, i) + "}" + x
  }

  lemma {:induction false} MembersRead(t: Tree, i: nat, x: string)
    requires t.ObjectNode? && i < |t.entries| && Ones(t)
    ensures i > 0 ==> (Members(t, i) + "}" + x)[0] == ','
    ensures (Members(t, i) + "}" + x) != "" && MembersFrom(t, i, x) != "" && MembersFrom(t, i, x)[0] == '"'
    ensures ReadMembers(MembersFrom(t, i, x)) == Some((AsJson(t).members[i..], x))
    decreases t, |t.entries| - i
  {
    hide Quote, ReadLiteral, ReadValue, ReadMembers, Render;
    var e := t.entries[i];
    var next := Members(t, i + 1) + "}" + x;
    MembersLead(t, i, x);
    MembersLead(t, i + 1, x);
    assert MemberText(t, i) + "}" + x == ":" + (Render(e.value) + next);
    assert MembersFrom(t, i, x) == Quote(e.key) + (":" + (Render(e.value) + next));
    QuotedReads(e.key, ":" + (Render(e.value) + next));
    RenderReads(e.value, next);
    MemberReads(e.key, Render(e.value), AsJson(e.value), next);
    if i + 1 < |t.entries| {
      MembersRead(t, i + 1, x);
      assert AsJson(t).members[i..] == [Member(e.key, AsJson(e.value))] + AsJson(t).members[i + 1..];
    } else {
      assert AsJson(t).members[i..] == [Member(e.key, AsJson(e.value))];
    }
  }

  function ItemsFrom(t: Tree, i: nat, x: string): string
    requires t.ArrayNode? && i < |t.items|
  {
    if i > 0 then (Items(t, i) + "]" + x)[1..] else Items(t, i) + "]" + x
  }

  lemma {:induction false} ItemsRead(t: Tree, i: nat, x: string)
    requires t.ArrayNode? && i < |t.items| && Ones(t)
    ensures i > 0 ==> (Items(t, i) + "]" + x)[0] == ','
    ensures Items(t, i) + "]" + x != "" && ItemsFrom(t, i, x) != "" && ItemsFrom(t, i, x)[0] != ']'
    ensures ReadItems(ItemsFrom(t, i, x)) == Some((AsJson(t).items[i..], x))
    decreases t, |t.items| - i
  {
    hide Quote, ReadLiteral, Render, ReadValue;
    var next := Items(t, i + 1) + "]" + x;
    ItemsLead(t, i, x);
    ItemsLead(t, i + 1, x);
    assert ItemsFrom(t, i, x) == Render(t.items[i]) + next;
    RenderLead(t.items[i], next);
    LeadIsNotClose(t.items[i]);
    RenderReads(t.items[i], next);
    if i + 1 < |t.items| {
      ItemsRead(t, i + 1, x);
      assert AsJson(t).items[i..] == [AsJson(t.items[i])] + AsJson(t).items[i + 1..];
    } else {
      assert AsJson(t).items[i..] == [AsJson(t.items[i])];
    }
  }

  lemma LeadIsNotClose(t: Tree)
    ensures Lead(t) != ']'
  {
  }

  /** Both writers' canonical text is JSON, and as JSON it says the tree they were given, its keys sorted. */
  lemma CanonicalSaysTheTree(t: Tree)
    requires Canonicalisable(t)
    ensures Canonical(t).Some? && ReadValue(Canonical(t).value) == Some((AsJson(Normal(t)), ""))
  {
    NormalIsOnes(t);
    RenderReads(Normal(t), "");
    assert Render(Normal(t)) + "" == Render(Normal(t));
  }
}
