/** The lint tool's type-alias evaluator: substitution with captured environments, and why it stops on every
    finite program, mutually recursive aliases and defaulted parameters included. */
module TypeAlias {
  import opened Ideal

  /** A type expression. A reference is a node of its own (`use`), which decides the alias visible there; its
      name is None when it is qualified. Everything else is a kind with children. */
  datatype Type = Reference(name: Option<string>, use: nat, arguments: seq<Type>) | Other(kind: string, children: seq<Type>)

  datatype Parameter = Parameter(name: string, default: Option<Type>)
  datatype Alias = Alias(parameters: seq<Parameter>, body: Type)

  /** The aliases of a program, and the alias each use sees once shadowing is settled. `inherits` is the tool's way of
      opening an alias: its body also sees whatever its user had bound. In the language itself it sees its own
      parameters alone. */
  datatype Program = Program(aliases: map<nat, Alias>, visible: map<nat, nat>, inherits: bool)

  /** A bound argument: its type, and the substitutions in force where it was written. */
  datatype Substitution = Substitution(argument: Type, captured: Substitutions)
  datatype Substitutions = Substitutions(bound: map<string, Substitution>)

  const NOTHING := Substitutions(map[])

  function VisibleAlias(p: Program, use: nat): (alias: Option<nat>)
    ensures alias.Some? ==> alias.value in p.aliases
  {
    if use in p.visible && p.visible[use] in p.aliases then Some(p.visible[use]) else None
  }

  // ------------------------------------------------------------------ binding parameters

  /** Parameters from the i-th on: an explicit argument captures the caller's substitutions, a default the ones
      bound so far. None when a parameter has neither. */
  function BindFrom(parameters: seq<Parameter>, arguments: seq<Type>, i: nat, base: Substitutions, next: Substitutions)
    : Option<Substitutions>
    requires i <= |parameters|
    decreases |parameters| - i
  {
    if i == |parameters| then Some(next)
    else if i < |arguments| then
      BindFrom(parameters, arguments, i + 1, base, Substitutions(next.bound[parameters[i].name := Substitution(arguments[i], base)]))
    else if parameters[i].default.Some? then
      BindFrom(parameters, arguments, i + 1, base,
               Substitutions(next.bound[parameters[i].name := Substitution(parameters[i].default.value, next)]))
    else None
  }

  function AliasSubstitutions(alias: Alias, arguments: seq<Type>, base: Substitutions): Option<Substitutions> {
    BindFrom(alias.parameters, arguments, 0, base, base)
  }

  /** The loop that fills the map. */
  method BindParameters(alias: Alias, arguments: seq<Type>, base: Substitutions) returns (next: Option<Substitutions>)
    ensures next == AliasSubstitutions(alias, arguments, base)
  {
    var bound := base.bound;
    for i := 0 to |alias.parameters|
      invariant AliasSubstitutions(alias, arguments, base) == BindFrom(alias.parameters, arguments, i, base, Substitutions(bound))
    {
      var parameter := alias.parameters[i];
      var argument := if i < |arguments| then Some(arguments[i]) else parameter.default;
      if argument.None? {
        return None;
      }
      var captured := if i < |arguments| then base else Substitutions(bound);
      bound := bound[parameter.name := Substitution(argument.value, captured)];
    }
    return Some(Substitutions(bound));
  }

  /** A reference binds its alias exactly when every parameter past the arguments has a default. */
  lemma {:induction false} BindsWhenCovered(parameters: seq<Parameter>, arguments: seq<Type>, i: nat, base: Substitutions,
                                            next: Substitutions)
    requires i <= |parameters|
    ensures BindFrom(parameters, arguments, i, base, next).Some? <==>
            forall j :: i <= j < |parameters| && j >= |arguments| ==> parameters[j].default.Some?
    decreases |parameters| - i
  {
    if i < |parameters| {
      if i < |arguments| {
        BindsWhenCovered(parameters, arguments, i + 1, base,
                         Substitutions(next.bound[parameters[i].name := Substitution(arguments[i], base)]));
      } else if parameters[i].default.Some? {
        BindsWhenCovered(parameters, arguments, i + 1, base,
                         Substitutions(next.bound[parameters[i].name := Substitution(parameters[i].default.value, next)]));
      }
    }
  }

  function NamesBefore(parameters: seq<Parameter>, i: nat): set<string>
    requires i <= |parameters|
  {
    set j | 0 <= j < i :: parameters[j].name
  }

  predicate IsOther(parameters: seq<Parameter>, name: string) {
    forall i :: 0 <= i < |parameters| ==> parameters[i].name != name
  }

  /** What the parameters of an alias are bound to, read off directly: an explicit argument is bound with the substitutions
      it was written under; a default with those the alias's body starts from and the parameters before it; and every
      other name is as the body starts from. */
  ghost predicate Binds(parameters: seq<Parameter>, arguments: seq<Type>, base: Substitutions, start: Substitutions,
                        next: Substitutions) {
    && next.bound.Keys == start.bound.Keys + NamesBefore(parameters, |parameters|)
    && (forall name :: name in start.bound && IsOther(parameters, name) ==>
          name in next.bound && next.bound[name] == start.bound[name])
    && forall i :: 0 <= i < |parameters| ==> BindsOne(parameters, arguments, base, start, next, i)
  }

  ghost predicate BindsOne(parameters: seq<Parameter>, arguments: seq<Type>, base: Substitutions, start: Substitutions,
                           next: Substitutions, i: nat)
    requires i < |parameters|
  {
    && parameters[i].name in next.bound
    && if i < |arguments| then next.bound[parameters[i].name] == Substitution(arguments[i], base)
       else
         && parameters[i].default.Some? && next.bound[parameters[i].name].argument == parameters[i].default.value
         && Before(parameters, start, next, i, next.bound[parameters[i].name].captured)
  }

  /** Where the body starts from, with the first i parameters bound as they are in the end. */
  ghost predicate Before(parameters: seq<Parameter>, start: Substitutions, next: Substitutions, i: nat, captured: Substitutions)
    requires i <= |parameters|
  {
    && captured.bound.Keys == start.bound.Keys + NamesBefore(parameters, i)
    && (forall j :: 0 <= j < i ==> parameters[j].name in next.bound && captured.bound[parameters[j].name] == next.bound[parameters[j].name])
    && forall name :: name in start.bound && (forall j :: 0 <= j < i ==> parameters[j].name != name) ==>
         captured.bound[name] == start.bound[name]
  }

  predicate DistinctNames(parameters: seq<Parameter>) {
    forall i, j :: 0 <= i < j < |parameters| ==> parameters[i].name != parameters[j].name
  }

  lemma {:induction false} BindsFrom(parameters: seq<Parameter>, arguments: seq<Type>, base: Substitutions, start: Substitutions,
                                     i: nat, middle: Substitutions)
    requires DistinctNames(parameters) && i <= |parameters| && Binds(parameters[..i], arguments, base, start, middle)
    ensures var next := BindFrom(parameters, arguments, i, base, middle);
            next.Some? ==> Binds(parameters, arguments, base, start, next.value)
    decreases |parameters| - i
  {
    if i == |parameters| {
      assert parameters[..i] == parameters;
    } else {
      var name := parameters[i].name;
      var captured := if i < |arguments| then base else middle;
      var argument := if i < |arguments| then Some(arguments[i]) else parameters[i].default;
      if argument.Some? {
        var next := Substitutions(middle.bound[name := Substitution(argument.value, captured)]);
        BindsNext(parameters, arguments, base, start, i, middle, next);
        BindsFrom(parameters, arguments, base, start, i + 1, next);
      }
    }
  }

  lemma BindsNext(parameters: seq<Parameter>, arguments: seq<Type>, base: Substitutions, start: Substitutions, i: nat,
                  middle: Substitutions, next: Substitutions)
    requires DistinctNames(parameters) && i < |parameters| && Binds(parameters[..i], arguments, base, start, middle)
    requires i >= |arguments| ==> parameters[i].default.Some?
    requires next == Substitutions(middle.bound[parameters[i].name :=
                       if i < |arguments| then Substitution(arguments[i], base) else Substitution(parameters[i].default.value, middle)])
    ensures Binds(parameters[..i + 1], arguments, base, start, next)
  {
    hide BindsOne;
    var before, after := parameters[..i], parameters[..i + 1];
    NamesGrow(parameters, i);
    BindsNames(before, arguments, base, start, middle);
    assert forall m :: 0 <= m < i ==> before[m].name == parameters[m].name;
    forall j | 0 <= j < |after| ensures BindsOne(after, arguments, base, start, next, j) {
      if j < i {
        OlderStays(parameters, arguments, base, start, i, middle, next, j);
      } else {
        NewestBinds(parameters, arguments, base, start, i, middle, next);
      }
    }
    OthersStand(parameters, i, start, middle, next);
  }

  lemma NamesGrow(parameters: seq<Parameter>, i: nat)
    requires i < |parameters|
    ensures NamesBefore(parameters[..i + 1], i + 1) == NamesBefore(parameters[..i], i) + {parameters[i].name}
  {
    var before, after := parameters[..i], parameters[..i + 1];
    assert forall m :: 0 <= m < i ==> after[m] == before[m];
    assert after[i] == parameters[i];
  }

  lemma BindsNames(parameters: seq<Parameter>, arguments: seq<Type>, base: Substitutions, start: Substitutions, next: Substitutions)
    requires Binds(parameters, arguments, base, start, next)
    ensures forall m :: 0 <= m < |parameters| ==> parameters[m].name in next.bound
  {
    forall m | 0 <= m < |parameters| ensures parameters[m].name in next.bound {
      assert BindsOne(parameters, arguments, base, start, next, m);
    }
  }

  lemma OthersStand(parameters: seq<Parameter>, i: nat, start: Substitutions, middle: Substitutions, next: Substitutions)
    requires i < |parameters|
    requires forall name :: name in start.bound && IsOther(parameters[..i], name) ==>
               name in middle.bound && middle.bound[name] == start.bound[name]
    requires forall name :: name in middle.bound && name != parameters[i].name ==> name in next.bound && next.bound[name] == middle.bound[name]
    ensures forall name :: name in start.bound && IsOther(parameters[..i + 1], name) ==>
              name in next.bound && next.bound[name] == start.bound[name]
  {
    var before, after := parameters[..i], parameters[..i + 1];
    forall name | name in start.bound && IsOther(after, name)
      ensures name in next.bound && next.bound[name] == start.bound[name]
    {
      assert after[i].name != name;
      assert forall m :: 0 <= m < |before| ==> before[m].name == after[m].name;
    }
  }

  lemma OlderStays(parameters: seq<Parameter>, arguments: seq<Type>, base: Substitutions, start: Substitutions, i: nat,
                   middle: Substitutions, next: Substitutions, j: nat)
    requires DistinctNames(parameters) && j < i < |parameters| && BindsOne(parameters[..i], arguments, base, start, middle, j)
    requires forall m :: 0 <= m < i ==> parameters[m].name in middle.bound
    requires next.bound.Keys == middle.bound.Keys + {parameters[i].name}
    requires forall name :: name in middle.bound && name != parameters[i].name ==> next.bound[name] == middle.bound[name]
    ensures BindsOne(parameters[..i + 1], arguments, base, start, next, j)
  {
    var before, after := parameters[..i], parameters[..i + 1];
    assert forall m :: 0 <= m < i ==> after[m] == before[m] == parameters[m] && parameters[m].name != parameters[i].name;
    assert NamesBefore(after, j) == NamesBefore(before, j);
  }

  lemma NewestBinds(parameters: seq<Parameter>, arguments: seq<Type>, base: Substitutions, start: Substitutions, i: nat,
                    middle: Substitutions, next: Substitutions)
    requires DistinctNames(parameters) && i < |parameters| && Binds(parameters[..i], arguments, base, start, middle)
    requires i >= |arguments| ==> parameters[i].default.Some?
    requires next == Substitutions(middle.bound[parameters[i].name :=
                       if i < |arguments| then Substitution(arguments[i], base) else Substitution(parameters[i].default.value, middle)])
    ensures BindsOne(parameters[..i + 1], arguments, base, start, next, i)
  {
    var before, after := parameters[..i], parameters[..i + 1];
    assert forall m :: 0 <= m < i ==> after[m] == before[m] == parameters[m] && parameters[m].name != parameters[i].name;
    forall m | 0 <= m < i ensures before[m].name in middle.bound {
      assert BindsOne(before, arguments, base, start, middle, m);
    }
    assert NamesBefore(after, i) == NamesBefore(before, i);
  }

  lemma {:induction false} OneBinding(parameters: seq<Parameter>, arguments: seq<Type>, base: Substitutions, start: Substitutions,
                                      a: Substitutions, b: Substitutions, i: nat)
    requires Binds(parameters, arguments, base, start, a) && Binds(parameters, arguments, base, start, b) && i <= |parameters|
    ensures forall j :: 0 <= j < i ==> parameters[j].name in a.bound && parameters[j].name in b.bound
                                       && a.bound[parameters[j].name] == b.bound[parameters[j].name]
  {
    if i > 0 {
      OneBinding(parameters, arguments, base, start, a, b, i - 1);
      assert BindsOne(parameters, arguments, base, start, a, i - 1) && BindsOne(parameters, arguments, base, start, b, i - 1);
      if i - 1 >= |arguments| {
        var x, y := a.bound[parameters[i - 1].name].captured, b.bound[parameters[i - 1].name].captured;
        forall name | name in x.bound ensures x.bound[name] == y.bound[name] {
          if j :| 0 <= j < i - 1 && parameters[j].name == name {
            assert x.bound[parameters[j].name] == a.bound[parameters[j].name];
          }
        }
        assert x.bound == y.bound;
      }
    }
  }

  /** A reference binds its alias's parameters in exactly one way, or gives up on one that has neither argument nor
      default. */
  lemma BindsExactly(alias: Alias, arguments: seq<Type>, base: Substitutions, next: Substitutions)
    requires DistinctNames(alias.parameters)
    ensures AliasSubstitutions(alias, arguments, base) == Some(next) <==> Binds(alias.parameters, arguments, base, base, next)
  {
    var parameters := alias.parameters;
    assert Binds(parameters[..0], arguments, base, base, base);
    BindsFrom(parameters, arguments, base, base, 0, base);
    BindsWhenCovered(parameters, arguments, 0, base, base);
    if Binds(parameters, arguments, base, base, next) {
      forall j | 0 <= j < |parameters| && j >= |arguments| ensures parameters[j].default.Some? {
        assert BindsOne(parameters, arguments, base, base, next, j);
      }
      var r := AliasSubstitutions(alias, arguments, base).value;
      OneBinding(parameters, arguments, base, base, r, next, |parameters|);
      forall name | name in r.bound ensures r.bound[name] == next.bound[name] {
        if j :| 0 <= j < |parameters| && parameters[j].name == name {
          assert r.bound[parameters[j].name] == next.bound[parameters[j].name];
        }
      }
      assert r.bound == next.bound;
    }
  }

  // ------------------------------------------------------------------ one step of the evaluator

  /** What the evaluator is called with: a type, its substitutions and the aliases being resolved. */
  datatype Config = Config(expr: Type, substitutions: Substitutions, resolving: set<nat>)

  /** Where a call goes: on to one other call, or to the matcher, which may ask for each child. */
  datatype Outcome = Goto(next: Config) | AskMatcher(children: seq<Config>)

  function Children(t: Type): seq<Type> {
    match t
    case Reference(_, _, arguments) => arguments
    case Other(_, children) => children
  }

  /** What an alias's body is evaluated under. */
  function Opened(p: Program, alias: Alias, arguments: seq<Type>, base: Substitutions): Option<Substitutions> {
    if p.inherits then AliasSubstitutions(alias, arguments, base)
    else BindFrom(alias.parameters, arguments, 0, base, NOTHING)
  }

  function Step(p: Program, c: Config): Outcome {
    var ask := AskMatcher(seq(|Children(c.expr)|, i requires 0 <= i < |Children(c.expr)| =>
                               Config(Children(c.expr)[i], c.substitutions, c.resolving)));
    if c.expr.Other? || c.expr.name.None? then ask
    else
      var name := c.expr.name.value;
      if name in c.substitutions.bound && c.expr.arguments == [] then
        Goto(Config(c.substitutions.bound[name].argument, c.substitutions.bound[name].captured, c.resolving))
      else
        match VisibleAlias(p, c.expr.use)
        case None => ask
        case Some(alias) =>
          if alias in c.resolving then ask
          else
            match Opened(p, p.aliases[alias], c.expr.arguments, c.substitutions)
            case None => ask
            case Some(next) => Goto(Config(p.aliases[alias].body, next, c.resolving + {alias}))
  }

  predicate Calls(p: Program, c: Config, d: Config) {
    match Step(p, c)
    case Goto(next) => d == next
    case AskMatcher(children) => d in children
  }

  // ------------------------------------------------------------------ the measure

  /** How deep the captured substitutions nest. */
  ghost function Depth(s: Substitutions): nat
    decreases s, 0
  {
    if s.bound == map[] then 0 else 1 + DeepestOf(s, s.bound.Keys)
  }

  ghost function DeepestOf(s: Substitutions, names: set<string>): (depth: nat)
    requires names <= s.bound.Keys
    ensures forall name :: name in names ==> Depth(s.bound[name].captured) <= depth
    decreases s, 0, |names|
  {
    if names == {} then 0
    else
      var name :| name in names;
      var here, rest := Depth(s.bound[name].captured), DeepestOf(s, names - {name});
      if here > rest then here else rest
  }

  function Size(t: Type): nat {
    1 + SizeOf(t, |Children(t)|)
  }

  function SizeOf(t: Type, n: nat): (size: nat)
    requires n <= |Children(t)|
    ensures forall i :: 0 <= i < n ==> Size(Children(t)[i]) <= size
    decreases t, 0, n
  {
    if n == 0 then 0 else SizeOf(t, n - 1) + Size(Children(t)[n - 1])
  }

  /** Aliases not being resolved, nesting depth of captured substitutions, type size, compared in that order. */
  ghost predicate Smaller(p: Program, d: Config, c: Config) {
    var open, left := |p.aliases.Keys - c.resolving|, |p.aliases.Keys - d.resolving|;
    || left < open
    || (left == open && Depth(d.substitutions) < Depth(c.substitutions))
    || (left == open && Depth(d.substitutions) == Depth(c.substitutions) && Size(d.expr) < Size(c.expr))
  }

  lemma ChildIsSmaller(t: Type, i: nat)
    requires i < |Children(t)|
    ensures Size(Children(t)[i]) < Size(t)
  {
    assert Size(Children(t)[i]) <= SizeOf(t, |Children(t)|);
  }

  lemma CapturedIsShallower(s: Substitutions, name: string)
    requires name in s.bound
    ensures Depth(s.bound[name].captured) < Depth(s)
  {
    assert name in s.bound.Keys;
  }

  /** Every call the evaluator makes, directly or through a matcher, is smaller. */
  lemma CallsAreSmaller(p: Program, c: Config, d: Config)
    requires Calls(p, c, d)
    ensures Smaller(p, d, c)
  {
    hide Depth, Size, Opened;
    match Step(p, c)
    case AskMatcher(children) =>
      var i :| 0 <= i < |children| && children[i] == d;
      ChildIsSmaller(c.expr, i);
    case Goto(next) =>
      var name := c.expr.name.value;
      if name in c.substitutions.bound && c.expr.arguments == [] {
        CapturedIsShallower(c.substitutions, name);
      } else {
        var alias := VisibleAlias(p, c.expr.use).value;
        assert alias in p.aliases.Keys - c.resolving;
        assert p.aliases.Keys - d.resolving == p.aliases.Keys - c.resolving - {alias};
      }
  }

  lemma SmallerIsOrder(p: Program, a: Config, b: Config, c: Config)
    ensures !Smaller(p, a, a)
    ensures Smaller(p, a, b) && Smaller(p, b, c) ==> Smaller(p, a, c)
  {
  }

  // ------------------------------------------------------------------ evaluation

  /** The evaluator, total on every finite program: the clause is the lexicographic measure. A matcher sees a
      type it must judge and the answers for its children. */
  function Evaluate(p: Program, c: Config, matcher: (Type, seq<bool>) -> bool): bool
    decreases |p.aliases.Keys - c.resolving|, Depth(c.substitutions), Size(c.expr)
  {
    match Step(p, c)
    case Goto(next) =>
      CallsAreSmaller(p, c, next);
      Evaluate(p, next, matcher)
    case AskMatcher(children) =>
      matcher(c.expr, seq(|children|, i requires 0 <= i < |children| =>
                            (assert children[i] in children; CallsAreSmaller(p, c, children[i]);
                             Evaluate(p, children[i], matcher))))
  }

  function ResolvedTypeMatches(p: Program, t: Type, matcher: (Type, seq<bool>) -> bool): bool {
    Evaluate(p, Config(t, NOTHING, {}), matcher)
  }

  /** A chain of calls. */
  predicate Chain(p: Program, path: seq<Config>) {
    path != [] && forall i :: 0 <= i < |path| - 1 ==> Calls(p, path[i], path[i + 1])
  }

  lemma {:induction false} ChainShrinks(p: Program, path: seq<Config>, i: nat, j: nat)
    requires Chain(p, path) && i < j < |path|
    ensures Smaller(p, path[j], path[i])
    decreases j
  {
    hide Calls, Smaller;
    CallsAreSmaller(p, path[j - 1], path[j]);
    if i < j - 1 {
      ChainShrinks(p, path, i, j - 1);
      SmallerIsOrder(p, path[j], path[j - 1], path[i]);
    }
  }

  /** No chain of calls, however long, comes back to where it was. */
  lemma NothingRepeats(p: Program, path: seq<Config>, i: nat, j: nat)
    requires Chain(p, path) && i < j < |path|
    ensures path[i] != path[j]
  {
    ChainShrinks(p, path, i, j);
    SmallerIsOrder(p, path[i], path[i], path[i]);
  }

  /** Along a chain the aliases being resolved only grow, by one alias of the program at a time. */
  lemma {:induction false} ResolvingGrows(p: Program, path: seq<Config>, i: nat, j: nat)
    requires Chain(p, path) && i <= j < |path| && path[i].resolving <= p.aliases.Keys
    ensures path[i].resolving <= path[j].resolving <= p.aliases.Keys
    decreases j
  {
    hide Opened;
    if i < j {
      ResolvingGrows(p, path, i, j - 1);
      assert Calls(p, path[j - 1], path[j]);
    }
  }

  /** The alias a step opens, if it opens one. */
  predicate Opens(p: Program, c: Config, d: Config) {
    Calls(p, c, d) && d.resolving != c.resolving
  }

  function Openings(p: Program, path: seq<Config>): nat {
    if |path| <= 1 then 0
    else Openings(p, path[..|path| - 1]) + if Opens(p, path[|path| - 2], path[|path| - 1]) then 1 else 0
  }

  /** However aliases refer to each other, no chain opens more of them than the program has. */
  lemma {:induction false} OpeningsAreBounded(p: Program, path: seq<Config>)
    requires Chain(p, path) && path[0].resolving == {}
    ensures Openings(p, path) == |path[|path| - 1].resolving| <= |p.aliases|
  {
    hide Opened;
    if |path| > 1 {
      var front, c, d := path[..|path| - 1], path[|path| - 2], path[|path| - 1];
      OpeningsAreBounded(p, front);
      ResolvingGrows(p, path, 0, |path| - 1);
      assert Calls(p, c, d);
      if d.resolving != c.resolving {
        var alias := VisibleAlias(p, c.expr.use).value;
        assert d.resolving == c.resolving + {alias} && alias !in c.resolving;
      }
      Fits(d.resolving, p.aliases.Keys);
    } else {
      Fits({}, p.aliases.Keys);
    }
  }

  lemma Fits(a: set<nat>, b: set<nat>)
    requires a <= b
    ensures |a| <= |b|
  {
    assert |b - a| == |b| - |a|;
  }

  // ------------------------------------------------------------------ what it computes

  /** A matcher that looks for a property anywhere under a type. */
  function Anywhere(holds: Type -> bool): (Type, seq<bool>) -> bool {
    (t: Type, answers: seq<bool>) => holds(t) || exists i :: 0 <= i < |answers| && answers[i]
  }

  /** A chain that ends where a matcher is asked about a type with the property. */
  ghost predicate Witness(p: Program, c: Config, holds: Type -> bool, path: seq<Config>) {
    Chain(p, path) && path[0] == c && Step(p, path[|path| - 1]).AskMatcher? && holds(path[|path| - 1].expr)
  }

  lemma Prepend(p: Program, c: Config, d: Config, holds: Type -> bool, path: seq<Config>)
    requires Calls(p, c, d) && Witness(p, d, holds, path)
    ensures Witness(p, c, holds, [c] + path)
  {
    var longer := [c] + path;
    forall i | 0 <= i < |longer| - 1 ensures Calls(p, longer[i], longer[i + 1]) {
      if i > 0 {
        assert longer[i] == path[i - 1] && longer[i + 1] == path[i];
      }
    }
  }

  lemma {:induction false} FoundHasWitness(p: Program, c: Config, holds: Type -> bool) returns (path: seq<Config>)
    requires Evaluate(p, c, Anywhere(holds))
    ensures Witness(p, c, holds, path)
    decreases |p.aliases.Keys - c.resolving|, Depth(c.substitutions), Size(c.expr)
  {
    match Step(p, c) {
      case Goto(next) =>
        CallsAreSmaller(p, c, next);
        var rest := FoundHasWitness(p, next, holds);
        Prepend(p, c, next, holds, rest);
        path := [c] + rest;
      case AskMatcher(children) =>
        if holds(c.expr) {
          path := [c];
        } else {
          var i :| 0 <= i < |children| && Evaluate(p, children[i], Anywhere(holds));
          assert children[i] in children;
          CallsAreSmaller(p, c, children[i]);
          var rest := FoundHasWitness(p, children[i], holds);
          Prepend(p, c, children[i], holds, rest);
          path := [c] + rest;
        }
    }
  }

  lemma {:induction false} WitnessIsFound(p: Program, c: Config, holds: Type -> bool, path: seq<Config>)
    requires Witness(p, c, holds, path)
    ensures Evaluate(p, c, Anywhere(holds))
    decreases |path|
  {
    if |path| > 1 {
      var rest := path[1..];
      assert Calls(p, path[0], path[1]);
      forall i | 0 <= i < |rest| - 1 ensures Calls(p, rest[i], rest[i + 1]) {
        assert rest[i] == path[i + 1] && rest[i + 1] == path[i + 2];
      }
      WitnessIsFound(p, path[1], holds, rest);
      match Step(p, c)
      case Goto(next) =>
      case AskMatcher(children) =>
        var i :| 0 <= i < |children| && children[i] == path[1];
        AnswerCounts(p, c, children, holds, i);
    }
  }

  lemma AnswerCounts(p: Program, c: Config, children: seq<Config>, holds: Type -> bool, i: nat)
    requires Step(p, c) == AskMatcher(children) && i < |children| && Evaluate(p, children[i], Anywhere(holds))
    ensures Evaluate(p, c, Anywhere(holds))
  {
    var answers := seq(|children|, j requires 0 <= j < |children| => Evaluate(p, children[j], Anywhere(holds)));
    assert answers[i];
    assert Anywhere(holds)(c.expr, answers);
  }

  /** The evaluator finds a property exactly when some chain of resolutions and children leads to a type that
      has it. */
  lemma FindsWhatIsReachable(p: Program, t: Type, holds: Type -> bool)
    ensures ResolvedTypeMatches(p, t, Anywhere(holds)) <==> exists path :: Witness(p, Config(t, NOTHING, {}), holds, path)
  {
    var c := Config(t, NOTHING, {});
    if ResolvedTypeMatches(p, t, Anywhere(holds)) {
      var path := FoundHasWitness(p, c, holds);
    }
    if exists path :: Witness(p, c, holds, path) {
      var path :| Witness(p, c, holds, path);
      WitnessIsFound(p, c, holds, path);
    }
  }

  /** Only the set of aliases being resolved stops `type A = A`: the call it leads to differs in nothing else. */
  lemma SelfAliasNeedsResolving()
    ensures var self := Reference(Some("A"), 0, []);
            var p := Program(map[0 := Alias([], self)], map[0 := 0], true);
            var c := Config(self, NOTHING, {});
            && Step(p, c) == Goto(Config(self, NOTHING, {0}))
            && Step(p, Config(self, NOTHING, {0})).AskMatcher?
  {
  }

  // ------------------------------------------------------------------ the language's own scoping

  /** The parameter names of a program's aliases. */
  function ParameterNames(p: Program): set<string> {
    set id, i | id in p.aliases && 0 <= i < |p.aliases[id].parameters| :: p.aliases[id].parameters[i].name
  }

  /** Every bare name in a type that some alias has as a parameter is one of these. */
  predicate Closed(names: set<string>, t: Type, own: set<string>) {
    && (t.Reference? && t.name.Some? && t.arguments == [] && t.name.value in names ==> t.name.value in own)
    && forall i :: 0 <= i < |Children(t)| ==> Closed(names, Children(t)[i], own)
  }

  /** No alias's body uses another alias's parameter name bare, and no default a parameter that comes later. */
  predicate Scoped(p: Program) {
    forall id :: id in p.aliases ==>
      && Closed(ParameterNames(p), p.aliases[id].body, NamesBefore(p.aliases[id].parameters, |p.aliases[id].parameters|))
      && DefaultsClosed(ParameterNames(p), p.aliases[id].parameters)
  }

  predicate DefaultsClosed(names: set<string>, parameters: seq<Parameter>) {
    forall i :: 0 <= i < |parameters| && parameters[i].default.Some? ==>
      Closed(names, parameters[i].default.value, NamesBefore(parameters, i))
  }

  /** The tool's substitutions say what the language's do, and perhaps more. */
  ghost predicate Extends(names: set<string>, s: Substitutions, t: Substitutions)
    decreases t
  {
    && t.bound.Keys <= s.bound.Keys <= names
    && forall name :: name in t.bound ==>
         && s.bound[name].argument == t.bound[name].argument
         && Closed(names, t.bound[name].argument, t.bound[name].captured.bound.Keys)
         && Extends(names, s.bound[name].captured, t.bound[name].captured)
  }

  lemma {:induction false} ClosedGrows(names: set<string>, t: Type, own: set<string>, more: set<string>)
    requires Closed(names, t, own) && own <= more
    ensures Closed(names, t, more)
    decreases t
  {
    forall i | 0 <= i < |Children(t)| ensures Closed(names, Children(t)[i], more) {
      ClosedGrows(names, Children(t)[i], own, more);
    }
  }

  lemma {:induction false} OpensAlike(names: set<string>, parameters: seq<Parameter>, arguments: seq<Type>, i: nat,
                                      sBase: Substitutions, tBase: Substitutions, s: Substitutions, t: Substitutions)
    requires i <= |parameters| && Extends(names, sBase, tBase) && Extends(names, s, t) && NamesBefore(parameters, i) <= t.bound.Keys
    requires forall j :: 0 <= j < |arguments| ==> Closed(names, arguments[j], tBase.bound.Keys)
    requires DefaultsClosed(names, parameters) && NamesBefore(parameters, |parameters|) <= names
    ensures var u, w := BindFrom(parameters, arguments, i, sBase, s), BindFrom(parameters, arguments, i, tBase, t);
            && (u.Some? <==> w.Some?)
            && (u.Some? ==> Extends(names, u.value, w.value) && NamesBefore(parameters, |parameters|) <= w.value.bound.Keys)
    decreases |parameters| - i
  {
    if i < |parameters| && (i < |arguments| || parameters[i].default.Some?) {
      var name, argument := parameters[i].name, if i < |arguments| then arguments[i] else parameters[i].default.value;
      var x := Substitution(argument, if i < |arguments| then sBase else s);
      var y := Substitution(argument, if i < |arguments| then tBase else t);
      if i >= |arguments| {
        ClosedGrows(names, argument, NamesBefore(parameters, i), t.bound.Keys);
      }
      assert name in NamesBefore(parameters, |parameters|);
      BoundAlike(names, s, t, name, x, y);
      assert NamesBefore(parameters, i + 1) == NamesBefore(parameters, i) + {name};
      OpensAlike(names, parameters, arguments, i + 1, sBase, tBase, Substitutions(s.bound[name := x]), Substitutions(t.bound[name := y]));
    }
  }

  lemma BoundAlike(names: set<string>, s: Substitutions, t: Substitutions, name: string, x: Substitution, y: Substitution)
    requires Extends(names, s, t) && name in names && x.argument == y.argument
    requires Closed(names, y.argument, y.captured.bound.Keys) && Extends(names, x.captured, y.captured)
    ensures Extends(names, Substitutions(s.bound[name := x]), Substitutions(t.bound[name := y]))
  {
  }

  /** Going on with the same types and the same aliases open. */
  predicate SameCourse(a: Outcome, b: Outcome) {
    if a.Goto? && b.Goto? then a.next.expr == b.next.expr && a.next.resolving == b.next.resolving
    else a.AskMatcher? && b.AskMatcher? && |a.children| == |b.children|
         && forall i :: 0 <= i < |a.children| ==> a.children[i].expr == b.children[i].expr && a.children[i].resolving == b.children[i].resolving
  }

  /** A bare name the tool finds bound only because it was bound for the alias's user. */
  predicate Leaks(t: Type, s: Substitutions, own: Substitutions) {
    t.Reference? && t.name.Some? && t.arguments == [] && t.name.value in s.bound && t.name.value !in own.bound
  }

  /** One step of the tool is the language's step exactly when the name it looks up, if any, does not leak. */
  lemma StepsAgreeExactly(p: Program, expr: Type, s: Substitutions, t: Substitutions, resolving: set<nat>)
    requires p.inherits && t.bound.Keys <= s.bound.Keys && forall name :: name in t.bound ==> s.bound[name].argument == t.bound[name].argument
    ensures SameCourse(Step(p, Config(expr, s, resolving)), Step(p.(inherits := false), Config(expr, t, resolving))) <==>
            !Leaks(expr, s, t)
  {
    if expr.Reference? && expr.name.Some? {
      var alias := VisibleAlias(p, expr.use);
      if alias.Some? && alias.value !in resolving {
        var parameters := p.aliases[alias.value].parameters;
        BindsWhenCovered(parameters, expr.arguments, 0, s, s);
        BindsWhenCovered(parameters, expr.arguments, 0, t, NOTHING);
        assert resolving + {alias.value} != resolving;
      }
    }
  }

  /** Configurations the tool and the language are both in. */
  ghost predicate Alike(p: Program, c: Config, d: Config) {
    && c.expr == d.expr && c.resolving == d.resolving && Extends(ParameterNames(p), c.substitutions, d.substitutions)
    && Closed(ParameterNames(p), c.expr, d.substitutions.bound.Keys)
  }

  /** In a scoped program nothing leaks: the tool judges every type as the language's own scoping would. */
  lemma {:induction false} ScopedAgrees(p: Program, c: Config, d: Config, matcher: (Type, seq<bool>) -> bool)
    requires p.inherits && Scoped(p) && Alike(p, c, d)
    ensures Evaluate(p, c, matcher) == Evaluate(p.(inherits := false), d, matcher)
    decreases |p.aliases.Keys - c.resolving|, Depth(c.substitutions), Size(c.expr)
  {
    var q := p.(inherits := false);
    StepAlike(p, c, d);
    SameExpr(p, c, d);
    hide Depth, Size, Scoped, Alike, Step;
    match Step(p, c)
    case Goto(next) =>
      CallsAreSmaller(p, c, next);
      ScopedAgrees(p, next, Step(q, d).next, matcher);
    case AskMatcher(children) =>
      var others := Step(q, d).children;
      forall i | 0 <= i < |children| ensures Evaluate(p, children[i], matcher) == Evaluate(q, others[i], matcher) {
        assert children[i] in children;
        CallsAreSmaller(p, c, children[i]);
        ScopedAgrees(p, children[i], others[i], matcher);
      }
      assert seq(|children|, i requires 0 <= i < |children| => Evaluate(p, children[i], matcher))
          == seq(|others|, i requires 0 <= i < |others| => Evaluate(q, others[i], matcher));
  }

  lemma SameExpr(p: Program, c: Config, d: Config)
    requires Alike(p, c, d)
    ensures c.expr == d.expr
  {
  }

  lemma StepAlike(p: Program, c: Config, d: Config)
    requires p.inherits && Scoped(p) && Alike(p, c, d)
    ensures var a, b := Step(p, c), Step(p.(inherits := false), d);
            if a.Goto? then b.Goto? && Alike(p, a.next, b.next)
            else b.AskMatcher? && |a.children| == |b.children| && forall i :: 0 <= i < |a.children| ==> Alike(p, a.children[i], b.children[i])
  {
    var names := ParameterNames(p);
    if c.expr.Reference? && c.expr.name.Some? && !(c.expr.name.value in c.substitutions.bound && c.expr.arguments == []) {
      var visible := VisibleAlias(p, c.expr.use);
      if visible.Some? && visible.value !in c.resolving {
        var alias := p.aliases[visible.value];
        assert Children(c.expr) == c.expr.arguments && NOTHING.bound.Keys == {};
        forall i | 0 <= i < |alias.parameters| ensures alias.parameters[i].name in names {
          assert visible.value in p.aliases;
        }
        OpensAlike(names, alias.parameters, c.expr.arguments, 0, c.substitutions, d.substitutions, c.substitutions, NOTHING);
        if Opened(p, alias, c.expr.arguments, c.substitutions).Some? {
          var w := Opened(p.(inherits := false), alias, c.expr.arguments, d.substitutions).value;
          ClosedGrows(names, alias.body, NamesBefore(alias.parameters, |alias.parameters|), w.bound.Keys);
        }
      }
    }
  }

  /** For whole types: the tool's answer is the language's in every scoped program. */
  lemma ScopedMatches(p: Program, t: Type, matcher: (Type, seq<bool>) -> bool)
    requires p.inherits && Scoped(p) && Closed(ParameterNames(p), t, {})
    ensures ResolvedTypeMatches(p, t, matcher) == ResolvedTypeMatches(p.(inherits := false), t, matcher)
  {
    assert NOTHING.bound.Keys == {};
    ScopedAgrees(p, Config(t, NOTHING, {}), Config(t, NOTHING, {}), matcher);
  }

  lemma GoesTo(p: Program, c: Config, d: Config, matcher: (Type, seq<bool>) -> bool)
    requires Step(p, c) == Goto(d)
    ensures Evaluate(p, c, matcher) == Evaluate(p, d, matcher)
  {
  }

  lemma Asks(p: Program, c: Config, matcher: (Type, seq<bool>) -> bool)
    requires Step(p, c) == AskMatcher([])
    ensures Evaluate(p, c, matcher) == matcher(c.expr, [])
  {
    assert seq(0, i requires 0 <= i < 0 => Evaluate(p, c, matcher)) == [];
  }

  /** Without scoping it is not: `type Outer<A> = Inner; type Inner = A; type A = number` makes Outer<string> a string to
      the tool and a number to the language. */
  lemma ParameterLeaks()
    ensures var word, number := Other("string", []), Other("number", []);
            var outer, inner := Reference(Some("Outer"), 0, [word]), Reference(Some("Inner"), 1, []);
            var p := Program(map[0 := Alias([Parameter("A", None)], inner), 1 := Alias([], Reference(Some("A"), 2, [])), 2 := Alias([], number)],
                             map[0 := 0, 1 := 1, 2 := 2], true);
            var isWord := (t: Type, answers: seq<bool>) => t == word;
            && ResolvedTypeMatches(p, outer, isWord) && !ResolvedTypeMatches(p.(inherits := false), outer, isWord)
            && !Scoped(p)
  {
    var word, number := Other("string", []), Other("number", []);
    var inner, bare := Reference(Some("Inner"), 1, []), Reference(Some("A"), 2, []);
    var outer := Reference(Some("Outer"), 0, [word]);
    var p := Program(map[0 := Alias([Parameter("A", None)], inner), 1 := Alias([], bare), 2 := Alias([], number)],
                     map[0 := 0, 1 := 1, 2 := 2], true);
    var q := p.(inherits := false);
    var bound := Substitutions(map["A" := Substitution(word, NOTHING)]);
    var isWord := (t: Type, answers: seq<bool>) => t == word;
    assert {0} + {1} == {0, 1} && {0, 1} + {2} == {0, 1, 2};
    GoesTo(p, Config(outer, NOTHING, {}), Config(inner, bound, {0}), isWord);
    GoesTo(p, Config(inner, bound, {0}), Config(bare, bound, {0, 1}), isWord);
    GoesTo(p, Config(bare, bound, {0, 1}), Config(word, NOTHING, {0, 1}), isWord);
    Asks(p, Config(word, NOTHING, {0, 1}), isWord);
    GoesTo(q, Config(outer, NOTHING, {}), Config(inner, bound, {0}), isWord);
    GoesTo(q, Config(inner, bound, {0}), Config(bare, NOTHING, {0, 1}), isWord);
    GoesTo(q, Config(bare, NOTHING, {0, 1}), Config(number, NOTHING, {0, 1, 2}), isWord);
    Asks(q, Config(number, NOTHING, {0, 1, 2}), isWord);
    assert p.aliases[0].parameters[0].name in ParameterNames(p);
    assert !Closed(ParameterNames(p), p.aliases[1].body, {});
  }

  // ------------------------------------------------------------------ which declaration a use sees

  /** A declaration of the name, at its scope's distance from the use; None when the scope does not enclose it. */
  datatype Candidate = Candidate(binding: nat, distance: Option<nat>)

  predicate Encloses(c: Candidate) {
    c.distance.Some?
  }

  /** The candidates of least distance, in order. */
  function Nearest(candidates: seq<Candidate>, least: nat): seq<Candidate> {
    if candidates == [] then []
    else
      var last := candidates[|candidates| - 1];
      Nearest(candidates[..|candidates| - 1], least) + if last.distance == Some(least) then [last] else []
  }

  lemma {:induction false} NoneNearer(candidates: seq<Candidate>, least: nat)
    requires forall i :: 0 <= i < |candidates| ==> candidates[i].distance != Some(least)
    ensures Nearest(candidates, least) == []
  {
    if candidates != [] {
      NoneNearer(candidates[..|candidates| - 1], least);
    }
  }

  /** The loop: exactly the declarations in the innermost enclosing scope that has any. */
  method NearestTypeBindings(candidates: seq<Candidate>) returns (nearest: seq<Candidate>)
    ensures nearest == [] <==> forall i :: 0 <= i < |candidates| ==> !Encloses(candidates[i])
    ensures nearest != [] ==>
              exists least: nat :: nearest == Nearest(candidates, least)
                && (forall i :: 0 <= i < |candidates| && Encloses(candidates[i]) ==> least <= candidates[i].distance.value)
  {
    var nearestDistance: Option<nat> := None;
    nearest := [];
    for i := 0 to |candidates|
      invariant nearestDistance.None? ==> nearest == [] && forall j :: 0 <= j < i ==> !Encloses(candidates[j])
      invariant nearestDistance.Some? ==>
                  && nearest != [] && nearest == Nearest(candidates[..i], nearestDistance.value)
                  && (exists j :: 0 <= j < i && Encloses(candidates[j]))
                  && (forall j :: 0 <= j < i && Encloses(candidates[j]) ==> nearestDistance.value <= candidates[j].distance.value)
    {
      var candidate := candidates[i];
      assert candidates[..i + 1][..i] == candidates[..i];
      if candidate.distance.None? || (nearestDistance.Some? && candidate.distance.value > nearestDistance.value) {
        continue;
      }
      assert Encloses(candidates[i]);
      if candidate.distance == nearestDistance {
        nearest := nearest + [candidate];
        continue;
      }
      NoneNearer(candidates[..i], candidate.distance.value);
      nearestDistance := candidate.distance;
      nearest := [candidate];
    }
    assert candidates[..|candidates|] == candidates;
  }
}
