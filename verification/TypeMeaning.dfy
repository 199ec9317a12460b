/** What the type-alias evaluator computes, said without its captured environments: a reference means its alias's body
    with the arguments put in place of the parameters. */
module TypeMeaning {
  import opened Ideal
  import opened TypeAlias

  // ------------------------------------------------------------------ substitution in one go

  /** Types put in place of bare names, all at once; what is put in is not looked into again. */
  function Put(t: Type, m: map<string, Type>): (u: Type)
    decreases t
  {
    if t.Reference? && t.name.Some? && t.arguments == [] && t.name.value in m then m[t.name.value]
    else
      match t
      case Reference(name, use, arguments) =>
        Reference(name, use, seq(|arguments|, i requires 0 <= i < |arguments| => Put(arguments[i], m)))
      case Other(kind, children) => Other(kind, seq(|children|, i requires 0 <= i < |children| => Put(children[i], m)))
  }

  /** The types captured substitutions stand for. */
  function Expand(s: Substitutions): (m: map<string, Type>)
    ensures m.Keys == s.bound.Keys
    decreases s
  {
    map name | name in s.bound :: Put(s.bound[name].argument, Expand(s.bound[name].captured))
  }

  /** The parameters of an alias in a reference: the explicit arguments, then defaults over the parameters before them. */
  ghost predicate Instantiates(parameters: seq<Parameter>, arguments: seq<Type>, m: map<string, Type>) {
    && m.Keys == NamesBefore(parameters, |parameters|)
    && forall i :: 0 <= i < |parameters| ==> PutsOne(parameters, arguments, m, i)
  }

  ghost predicate PutsOne(parameters: seq<Parameter>, arguments: seq<Type>, m: map<string, Type>, i: nat)
    requires i < |parameters|
  {
    && parameters[i].name in m
    && if i < |arguments| then m[parameters[i].name] == arguments[i]
       else
         && parameters[i].default.Some?
         && m[parameters[i].name] == Put(parameters[i].default.value, map name | name in m && name in NamesBefore(parameters, i) :: m[name])
  }

  /** Matchers look at a type's kind or name and ask about its children. */
  predicate SameHead(t: Type, u: Type) {
    |Children(t)| == |Children(u)| &&
    match (t, u)
    case (Reference(name, use, _), Reference(name', use', _)) => name == name' && use == use'
    case (Other(kind, _), Other(kind', _)) => kind == kind'
    case _ => false
  }

  ghost predicate HeadsOnly(matcher: (Type, seq<bool>) -> bool) {
    forall t, u, answers :: SameHead(t, u) ==> matcher(t, answers) == matcher(u, answers)
  }

  // ------------------------------------------------------------------ closures and substitution

  lemma {:induction false} PutNothing(t: Type)
    ensures Put(t, map[]) == t
    decreases t
  {
    forall i | 0 <= i < |Children(t)| ensures Put(Children(t)[i], map[]) == Children(t)[i] {
      PutNothing(Children(t)[i]);
    }
    assert Children(Put(t, map[])) == Children(t);
  }

  lemma ExpandOne(s: Substitutions, name: string, x: Substitution)
    ensures Expand(Substitutions(s.bound[name := x])) == Expand(s)[name := Put(x.argument, Expand(x.captured))]
  {
  }

  /** Arguments that stand for the same types bind parameters that do. */
  lemma {:induction false} OpenAlike(parameters: seq<Parameter>, a: seq<Type>, b: seq<Type>, i: nat, sBase: Substitutions,
                                     tBase: Substitutions, s: Substitutions, t: Substitutions)
    requires i <= |parameters| && |a| == |b| && Expand(s) == Expand(t)
    requires forall j :: 0 <= j < |a| ==> Put(a[j], Expand(sBase)) == Put(b[j], Expand(tBase))
    ensures var u, w := BindFrom(parameters, a, i, sBase, s), BindFrom(parameters, b, i, tBase, t);
            (u.Some? <==> w.Some?) && (u.Some? ==> Expand(u.value) == Expand(w.value))
    decreases |parameters| - i
  {
    hide Expand, Put;
    if i < |parameters| && (i < |a| || parameters[i].default.Some?) {
      var name := parameters[i].name;
      var x := if i < |a| then Substitution(a[i], sBase) else Substitution(parameters[i].default.value, s);
      var y := if i < |a| then Substitution(b[i], tBase) else Substitution(parameters[i].default.value, t);
      ExpandOne(s, name, x);
      ExpandOne(t, name, y);
      OpenAlike(parameters, a, b, i + 1, sBase, tBase, Substitutions(s.bound[name := x]), Substitutions(t.bound[name := y]));
    }
  }

  predicate Bound(c: Config) {
    c.expr.Reference? && c.expr.name.Some? && c.expr.arguments == [] && c.expr.name.value in c.substitutions.bound
  }

  /** The type a configuration stands for. */
  function Standing(c: Config): Type {
    Put(c.expr, Expand(c.substitutions))
  }

  lemma BoundStands(p: Program, c: Config)
    requires Bound(c)
    ensures Step(p, c).Goto? && Standing(Step(p, c).next) == Standing(c)
    ensures Step(p, c).next.resolving == c.resolving && Depth(Step(p, c).next.substitutions) < Depth(c.substitutions)
  {
    CapturedIsShallower(c.substitutions, c.expr.name.value);
  }

  lemma StandingParts(c: Config)
    requires !Bound(c)
    ensures SameHead(Standing(c), c.expr)
    ensures forall i :: 0 <= i < |Children(c.expr)| ==>
              Children(Standing(c))[i] == Put(Children(c.expr)[i], Expand(c.substitutions))
  {
  }

  /** By the language's scoping, configurations that stand for one type are judged alike. */
  lemma {:induction false} SameMeaning(q: Program, c: Config, d: Config, matcher: (Type, seq<bool>) -> bool)
    requires !q.inherits && HeadsOnly(matcher) && c.resolving == d.resolving && Standing(c) == Standing(d)
    ensures Evaluate(q, c, matcher) == Evaluate(q, d, matcher)
    decreases |q.aliases.Keys - c.resolving|, Depth(c.substitutions) + Depth(d.substitutions), Size(c.expr) + Size(d.expr)
  {
    hide Depth, Size, Put, Expand, Standing, HeadsOnly;
    if Bound(c) {
      BoundStands(q, c);
      SameMeaning(q, Step(q, c).next, d, matcher);
    } else if Bound(d) {
      BoundStands(q, d);
      SameMeaning(q, c, Step(q, d).next, matcher);
    } else {
      StandingParts(c);
      StandingParts(d);
      StepsAlike(q, c, d);
      hide Step, HeadsOnly, SameHead;
      match Step(q, c)
      case Goto(next) =>
        CallsAreSmaller(q, c, next);
        SameMeaning(q, next, Step(q, d).next, matcher);
      case AskMatcher(children) =>
        var others := Step(q, d).children;
        forall i | 0 <= i < |children| ensures Evaluate(q, children[i], matcher) == Evaluate(q, others[i], matcher) {
          ChildIsSmaller(c.expr, i);
          ChildIsSmaller(d.expr, i);
          SameMeaning(q, children[i], others[i], matcher);
        }
        AnswersAlike(q, c, d, matcher);
    }
  }

  /** Two types of one head, with the same answers for their children. */
  lemma AnswersAlike(q: Program, c: Config, d: Config, matcher: (Type, seq<bool>) -> bool)
    requires HeadsOnly(matcher) && SameHead(c.expr, d.expr) && Step(q, c).AskMatcher? && Step(q, d).AskMatcher?
    requires var a, b := Step(q, c).children, Step(q, d).children;
             |a| == |b| && forall i :: 0 <= i < |a| ==> Evaluate(q, a[i], matcher) == Evaluate(q, b[i], matcher)
    ensures Evaluate(q, c, matcher) == Evaluate(q, d, matcher)
  {
    hide Step, SameHead;
    var a, b := Step(q, c).children, Step(q, d).children;
    assert seq(|a|, i requires 0 <= i < |a| => Evaluate(q, a[i], matcher))
        == seq(|b|, i requires 0 <= i < |b| => Evaluate(q, b[i], matcher));
  }

  lemma StepsAlike(q: Program, c: Config, d: Config)
    requires !q.inherits && c.resolving == d.resolving && !Bound(c) && !Bound(d) && SameHead(c.expr, d.expr)
    requires forall i :: 0 <= i < |Children(c.expr)| ==>
               Put(Children(c.expr)[i], Expand(c.substitutions)) == Put(Children(d.expr)[i], Expand(d.substitutions))
    ensures var a, b := Step(q, c), Step(q, d);
            if a.Goto? then
              && b.Goto? && Standing(a.next) == Standing(b.next) && a.next.resolving == b.next.resolving
              && |q.aliases.Keys - a.next.resolving| < |q.aliases.Keys - c.resolving|
            else
              && b.AskMatcher? && |a.children| == |b.children| == |Children(c.expr)|
              && forall i :: 0 <= i < |a.children| ==>
                   && a.children[i] == Config(Children(c.expr)[i], c.substitutions, c.resolving)
                   && b.children[i] == Config(Children(d.expr)[i], d.substitutions, d.resolving)
                   && Standing(a.children[i]) == Standing(b.children[i])
  {
    hide Put, Expand;
    if c.expr.Reference? && c.expr.name.Some? && VisibleAlias(q, c.expr.use).Some? {
      var alias := VisibleAlias(q, c.expr.use).value;
      OpenAlike(q.aliases[alias].parameters, c.expr.arguments, d.expr.arguments, 0, c.substitutions, d.substitutions, NOTHING, NOTHING);
      if alias !in c.resolving {
        assert q.aliases.Keys - (c.resolving + {alias}) == q.aliases.Keys - c.resolving - {alias};
      }
    }
  }

  // ------------------------------------------------------------------ references

  /** At the outset, the parameters stand for the arguments and defaults, read off directly. */
  lemma OpenedInstantiates(parameters: seq<Parameter>, arguments: seq<Type>, next: Substitutions)
    requires DistinctNames(parameters) && BindFrom(parameters, arguments, 0, NOTHING, NOTHING) == Some(next)
    ensures Instantiates(parameters, arguments, Expand(next))
  {
    hide Put, Expand, Before;
    assert Binds(parameters[..0], arguments, NOTHING, NOTHING, NOTHING);
    BindsFrom(parameters, arguments, NOTHING, NOTHING, 0, NOTHING);
    forall i | 0 <= i < |parameters| ensures PutsOne(parameters, arguments, Expand(next), i) {
      assert BindsOne(parameters, arguments, NOTHING, NOTHING, next, i);
      ExpandAt(next, parameters[i].name);
      if i < |arguments| {
        ExpandNothing();
        PutNothing(arguments[i]);
      } else {
        BeforeExpands(parameters, next, i, next.bound[parameters[i].name].captured);
      }
    }
  }

  lemma ExpandAt(s: Substitutions, name: string)
    requires name in s.bound
    ensures Expand(s)[name] == Put(s.bound[name].argument, Expand(s.bound[name].captured))
  {
  }

  lemma ExpandNothing()
    ensures Expand(NOTHING) == map[]
  {
  }

  lemma BeforeExpands(parameters: seq<Parameter>, next: Substitutions, i: nat, captured: Substitutions)
    requires i <= |parameters| && Before(parameters, NOTHING, next, i, captured)
    ensures Expand(captured) == map name | name in Expand(next) && name in NamesBefore(parameters, i) :: Expand(next)[name]
  {
    hide Put;
    forall name | name in captured.bound ensures name in next.bound && captured.bound[name] == next.bound[name] {
      var j :| 0 <= j < i && parameters[j].name == name;
      assert captured.bound[parameters[j].name] == next.bound[parameters[j].name];
    }
  }

  /** Parameters are instantiated in one way only. */
  lemma {:induction false} OneInstance(parameters: seq<Parameter>, arguments: seq<Type>, m: map<string, Type>, n: map<string, Type>, i: nat)
    requires Instantiates(parameters, arguments, m) && Instantiates(parameters, arguments, n) && i <= |parameters|
    ensures forall j :: 0 <= j < i ==> parameters[j].name in m && parameters[j].name in n && m[parameters[j].name] == n[parameters[j].name]
    ensures i == |parameters| ==> m == n
  {
    hide Put;
    if i > 0 {
      OneInstance(parameters, arguments, m, n, i - 1);
      assert PutsOne(parameters, arguments, m, i - 1) && PutsOne(parameters, arguments, n, i - 1);
      assert (map name | name in m && name in NamesBefore(parameters, i - 1) :: m[name])
          == (map name | name in n && name in NamesBefore(parameters, i - 1) :: n[name]);
    }
    if i == |parameters| {
      forall name | name in m ensures m[name] == n[name] {
        var j :| 0 <= j < |parameters| && parameters[j].name == name;
      }
    }
  }

  /** There is an instance exactly when every parameter past the arguments has a default. */
  lemma InstanceExists(parameters: seq<Parameter>, arguments: seq<Type>)
    requires DistinctNames(parameters)
    ensures (exists m :: Instantiates(parameters, arguments, m)) <==>
            forall j :: |arguments| <= j < |parameters| ==> parameters[j].default.Some?
  {
    hide Put;
    BindsWhenCovered(parameters, arguments, 0, NOTHING, NOTHING);
    if m :| Instantiates(parameters, arguments, m) {
      forall j | |arguments| <= j < |parameters| ensures parameters[j].default.Some? {
        assert PutsOne(parameters, arguments, m, j);
      }
    }
    if forall j :: |arguments| <= j < |parameters| ==> parameters[j].default.Some? {
      OpenedInstantiates(parameters, arguments, BindFrom(parameters, arguments, 0, NOTHING, NOTHING).value);
    }
  }

  /** What is put in has no parameter names left in it. */
  lemma {:induction false} PutCloses(names: set<string>, t: Type, own: set<string>, m: map<string, Type>)
    requires Closed(names, t, own) && own <= m.Keys && forall name :: name in m ==> Closed(names, m[name], {})
    ensures Closed(names, Put(t, m), {})
    decreases t
  {
    forall i | 0 <= i < |Children(t)| ensures Closed(names, Put(Children(t)[i], m), {}) {
      PutCloses(names, Children(t)[i], own, m);
    }
    if !(t.Reference? && t.name.Some? && t.arguments == [] && t.name.value in m) {
      assert forall i :: 0 <= i < |Children(t)| ==> Children(Put(t, m))[i] == Put(Children(t)[i], m);
    }
  }

  lemma {:induction false} InstanceIsClosed(names: set<string>, parameters: seq<Parameter>, arguments: seq<Type>, m: map<string, Type>, i: nat)
    requires Instantiates(parameters, arguments, m) && i <= |parameters| && DefaultsClosed(names, parameters)
    requires forall j :: 0 <= j < |arguments| ==> Closed(names, arguments[j], {})
    ensures forall j :: 0 <= j < i ==> parameters[j].name in m && Closed(names, m[parameters[j].name], {})
  {
    hide Put, Closed;
    if i > 0 {
      InstanceIsClosed(names, parameters, arguments, m, i - 1);
      assert PutsOne(parameters, arguments, m, i - 1);
      if i - 1 >= |arguments| {
        var earlier := map name | name in m && name in NamesBefore(parameters, i - 1) :: m[name];
        forall name | name in earlier ensures Closed(names, earlier[name], {}) {
          var j :| 0 <= j < i - 1 && parameters[j].name == name;
        }
        PutCloses(names, parameters[i - 1].default.value, NamesBefore(parameters, i - 1), earlier);
      }
    }
  }

  /** Whether a type without captured environments, with these aliases being resolved, matches. */
  function Matches(p: Program, t: Type, resolving: set<nat>, matcher: (Type, seq<bool>) -> bool): bool {
    Evaluate(p, Config(t, NOTHING, resolving), matcher)
  }

  /** The alias a type refers to and may be replaced by: visible, not being resolved, every parameter provided for. */
  function Replaceable(p: Program, t: Type, resolving: set<nat>): Option<Alias> {
    if t.Other? || t.name.None? || VisibleAlias(p, t.use).None? || VisibleAlias(p, t.use).value in resolving then None
    else
      var alias := p.aliases[VisibleAlias(p, t.use).value];
      if forall j :: |t.arguments| <= j < |alias.parameters| ==> alias.parameters[j].default.Some? then Some(alias) else None
  }

  /** In a scoped program a reference matches exactly when its alias's body does with the arguments put for the parameters;
      any other type is the matcher's, which hears how its children fare. */
  lemma MatchesBySubstitution(p: Program, t: Type, resolving: set<nat>, matcher: (Type, seq<bool>) -> bool, m: map<string, Type>)
    requires p.inherits && Scoped(p) && Closed(ParameterNames(p), t, {}) && HeadsOnly(matcher)
    requires var alias := Replaceable(p, t, resolving);
             alias.Some? ==> DistinctNames(alias.value.parameters) && Instantiates(alias.value.parameters, t.arguments, m)
    ensures Matches(p, t, resolving, matcher) ==
            match Replaceable(p, t, resolving)
            case Some(alias) => Matches(p, Put(alias.body, m), resolving + {VisibleAlias(p, t.use).value}, matcher)
            case None => matcher(t, seq(|Children(t)|, i requires 0 <= i < |Children(t)| => Matches(p, Children(t)[i], resolving, matcher)))
  {
    hide Scoped, Closed, HeadsOnly, DistinctNames, Instantiates, Put;
    if Replaceable(p, t, resolving).Some? {
      ReplacedMatches(p, t, resolving, matcher, m);
    } else {
      Unreplaced(p, t, resolving);
      var c := Config(t, NOTHING, resolving);
      var children := Step(p, c).children;
      hide Step;
      assert seq(|children|, i requires 0 <= i < |children| => Evaluate(p, children[i], matcher))
          == seq(|Children(t)|, i requires 0 <= i < |Children(t)| => Matches(p, Children(t)[i], resolving, matcher));
    }
  }

  lemma Unreplaced(p: Program, t: Type, resolving: set<nat>)
    requires p.inherits && Replaceable(p, t, resolving).None?
    ensures Step(p, Config(t, NOTHING, resolving)) ==
            AskMatcher(seq(|Children(t)|, i requires 0 <= i < |Children(t)| => Config(Children(t)[i], NOTHING, resolving)))
  {
    if t.Reference? && t.name.Some? && VisibleAlias(p, t.use).Some? {
      BindsWhenCovered(p.aliases[VisibleAlias(p, t.use).value].parameters, t.arguments, 0, NOTHING, NOTHING);
    }
  }

  lemma ReplacedMatches(p: Program, t: Type, resolving: set<nat>, matcher: (Type, seq<bool>) -> bool, m: map<string, Type>)
    requires p.inherits && Scoped(p) && Closed(ParameterNames(p), t, {}) && HeadsOnly(matcher) && Replaceable(p, t, resolving).Some?
    requires var alias := Replaceable(p, t, resolving).value;
             DistinctNames(alias.parameters) && Instantiates(alias.parameters, t.arguments, m)
    ensures Matches(p, t, resolving, matcher)
         == Matches(p, Put(Replaceable(p, t, resolving).value.body, m), resolving + {VisibleAlias(p, t.use).value}, matcher)
  {
    var q, names := p.(inherits := false), ParameterNames(p);
    var id := VisibleAlias(p, t.use).value;
    var alias := p.aliases[id];
    var body := Put(alias.body, m);
    assert Closed(names, body, {}) by {
      ReplacedIsClosed(p, t, id, m);
    }
    hide Scoped, Closed, HeadsOnly, Instantiates, Put, Expand, ParameterNames;
    BindsWhenCovered(alias.parameters, t.arguments, 0, NOTHING, NOTHING);
    var next := BindFrom(alias.parameters, t.arguments, 0, NOTHING, NOTHING).value;
    OpenedInstantiates(alias.parameters, t.arguments, next);
    OneInstance(alias.parameters, t.arguments, m, Expand(next), |alias.parameters|);
    ExpandNothing();
    PutNothing(body);
    SameMeaning(q, Config(alias.body, next, resolving + {id}), Config(body, NOTHING, resolving + {id}), matcher);
    GoesTo(q, Config(t, NOTHING, resolving), Config(alias.body, next, resolving + {id}), matcher);
    AgreeAtTheOutset(p, t, resolving, matcher);
    AgreeAtTheOutset(p, body, resolving + {id}, matcher);
  }

  lemma ReplacedIsClosed(p: Program, t: Type, id: nat, m: map<string, Type>)
    requires Scoped(p) && Closed(ParameterNames(p), t, {}) && id in p.aliases && t.Reference?
    requires Instantiates(p.aliases[id].parameters, t.arguments, m)
    ensures Closed(ParameterNames(p), Put(p.aliases[id].body, m), {})
  {
    hide Put, ParameterNames, PutsOne;
    var alias := p.aliases[id];
    assert Children(t) == t.arguments;
    InstanceIsClosed(ParameterNames(p), alias.parameters, t.arguments, m, |alias.parameters|);
    forall name | name in m ensures Closed(ParameterNames(p), m[name], {}) {
      var j :| 0 <= j < |alias.parameters| && alias.parameters[j].name == name;
    }
    PutCloses(ParameterNames(p), alias.body, NamesBefore(alias.parameters, |alias.parameters|), m);
  }

  lemma AgreeAtTheOutset(p: Program, t: Type, resolving: set<nat>, matcher: (Type, seq<bool>) -> bool)
    requires p.inherits && Scoped(p) && Closed(ParameterNames(p), t, {})
    ensures Matches(p, t, resolving, matcher) == Matches(p.(inherits := false), t, resolving, matcher)
  {
    assert NOTHING.bound.Keys == {};
    ScopedAgrees(p, Config(t, NOTHING, resolving), Config(t, NOTHING, resolving), matcher);
  }
}
