/** The child environment: the parent's variables without the stripped ones, with the secrets applied. */
module ChildEnv {
  import opened Ideal
  import opened VaultTables

  datatype Plaintext = Plaintext(name: string, value: string)

  const STRIPPED_NAMES := ["VAULT_BOOTSTRAP_TOKEN", "VAULT_EVIDENCE_FILE"]

  /** strings.Cut(entry, "="): the name before the first equals sign, None when there is none. */
  function NameOf(entry: string): Option<string> {
    if entry == "" then None
    else if entry[0] == '=' then Some("")
    else
      match NameOf(entry[1..])
      case None => None
      case Some(name) => Some([entry[0]] + name)
  }

  function ValueOf(entry: string): string
    requires NameOf(entry).Some?
  {
    NameIsPrefix(entry);
    entry[|NameOf(entry).value| + 1..]
  }

  lemma {:induction false} NameIsPrefix(entry: string)
    ensures NameOf(entry).Some? ==>
              var name := NameOf(entry).value;
              |name| < |entry| && '=' !in name && entry == name + "=" + entry[|name| + 1..]
  {
    if entry != "" && entry[0] != '=' {
      NameIsPrefix(entry[1..]);
    }
  }

  lemma {:induction false} EntryHasName(name: string, value: string)
    requires '=' !in name
    ensures NameOf(name + "=" + value) == Some(name) && ValueOf(name + "=" + value) == value
  {
    var entry := name + "=" + value;
    if name != "" {
      assert entry[1..] == name[1..] + "=" + value;
      EntryHasName(name[1..], value);
      assert [name[0]] + name[1..] == name;
    }
  }

  /** The position of a name in an environment, or its length. */
  function Position(env: seq<string>, name: string): (p: nat)
    ensures p <= |env|
    ensures p < |env| ==> NameOf(env[p]) == Some(name)
    ensures forall i :: 0 <= i < p ==> NameOf(env[i]) != Some(name)
  {
    if env == [] then 0
    else if NameOf(env[0]) == Some(name) then 0
    else
      var p := Position(env[1..], name);
      assert forall i :: 1 <= i < p + 1 ==> env[i] == env[1..][i - 1];
      p + 1
  }

  /** Replace the entry of that name where it stands, or append. */
  function Put(env: seq<string>, name: string, entry: string): seq<string> {
    var p := Position(env, name);
    if p < |env| then env[p := entry] else env + [entry]
  }

  predicate Inherited(entry: string) {
    NameOf(entry).Some? && NameOf(entry).value !in STRIPPED_NAMES
  }

  /** The base variables that stay: a later entry of a name replaces the earlier one in place. */
  function BaseEnv(base: seq<string>): seq<string> {
    if base == [] then []
    else
      var before, last := BaseEnv(base[..|base| - 1]), base[|base| - 1];
      if Inherited(last) then Put(before, NameOf(last).value, last) else before
  }

  function EntryOf(secret: Plaintext): string {
    secret.name + "=" + secret.value
  }

  function WithSecrets(env: seq<string>, secrets: seq<Plaintext>): seq<string> {
    if secrets == [] then env
    else
      var last := secrets[|secrets| - 1];
      Put(WithSecrets(env, secrets[..|secrets| - 1]), last.name, EntryOf(last))
  }

  predicate Buildable(secrets: seq<Plaintext>) {
    && (forall i :: 0 <= i < |secrets| ==> ValidSecretName(secrets[i].name))
    && (forall i, j :: 0 <= i < j < |secrets| ==> secrets[i].name != secrets[j].name)
  }

  /** BuildEnv: None is its error. */
  function Build(base: seq<string>, secrets: seq<Plaintext>): Option<seq<string>> {
    if Buildable(secrets) then Some(WithSecrets(BaseEnv(base), secrets)) else None
  }

  // ------------------------------------------------------------------ the loops

  predicate Named(env: seq<string>) {
    && (forall i :: 0 <= i < |env| ==> NameOf(env[i]).Some?)
    && (forall i, j :: 0 <= i < j < |env| ==> NameOf(env[i]) != NameOf(env[j]))
  }

  predicate Indexed(index: map<string, nat>, env: seq<string>) {
    && Named(env)
    && (forall i :: 0 <= i < |env| ==> NameOf(env[i]).value in index && index[NameOf(env[i]).value] == i)
    && (forall name :: name in index ==> index[name] < |env| && NameOf(env[index[name]]) == Some(name))
  }

  lemma PutKeepsNamed(env: seq<string>, name: string, entry: string)
    requires Named(env) && NameOf(entry) == Some(name)
    ensures Named(Put(env, name, entry))
  {
  }

  lemma IndexIsPosition(index: map<string, nat>, env: seq<string>, name: string)
    requires Indexed(index, env)
    ensures name in index <==> Position(env, name) < |env|
    ensures name in index ==> index[name] == Position(env, name)
  {
  }

  lemma NameHasNoEquals(name: string)
    requires ValidSecretName(name)
    ensures '=' !in name
  {
  }

  /** Overwrite or append through the index map: the branch both loops share. */
  method PutIndexed(index: map<string, nat>, env: seq<string>, name: string, entry: string)
      returns (newIndex: map<string, nat>, out: seq<string>)
    requires Indexed(index, env) && NameOf(entry) == Some(name)
    ensures out == Put(env, name, entry) && Indexed(newIndex, out)
  {
    hide NameOf;
    IndexIsPosition(index, env, name);
    PutKeepsNamed(env, name, entry);
    if name in index {
      newIndex, out := index, env[index[name] := entry];
    } else {
      newIndex, out := index[name := |env|], env + [entry];
    }
  }

  /** The client's loops over an index map and an output slice. */
  method BuildEnv(base: seq<string>, secrets: seq<Plaintext>) returns (env: Option<seq<string>>)
    ensures env == Build(base, secrets)
  {
    hide NameOf, Put, ValidSecretName, Indexed;
    var index: map<string, nat> := map[];
    var out: seq<string> := [];
    assert Indexed(index, out) by {
      EmptyIndex();
    }
    for i := 0 to |base|
      invariant out == BaseEnv(base[..i]) && Indexed(index, out)
    {
      var entry := base[i];
      assert base[..i + 1][..i] == base[..i];
      if Inherited(entry) {
        index, out := PutIndexed(index, out, NameOf(entry).value, entry);
      }
    }
    assert base[..|base|] == base;
    var seen: set<string> := {};
    for i := 0 to |secrets|
      invariant Buildable(secrets[..i]) && seen == set j | 0 <= j < i :: secrets[j].name
      invariant out == WithSecrets(BaseEnv(base), secrets[..i]) && Indexed(index, out)
    {
      var secret := secrets[i];
      assert secrets[..i + 1][..i] == secrets[..i];
      if !ValidSecretName(secret.name) {
        return None;
      }
      if secret.name in seen {
        return None;
      }
      seen := seen + {secret.name};
      NameHasNoEquals(secret.name);
      EntryHasName(secret.name, secret.value);
      index, out := PutIndexed(index, out, secret.name, EntryOf(secret));
    }
    assert secrets[..|secrets|] == secrets;
    return Some(out);
  }

  lemma EmptyIndex()
    ensures Indexed(map[], [])
  {
  }

  // ------------------------------------------------------------------ what the child sees

  /** The value of a name, as getenv finds it. */
  function Lookup(env: seq<string>, name: string): Option<string> {
    var p := Position(env, name);
    if p < |env| then Some(ValueOf(env[p])) else None
  }

  /** The last base entry of a name. */
  function LastIn(base: seq<string>, name: string): Option<string> {
    if base == [] then None
    else if NameOf(base[|base| - 1]) == Some(name) then Some(ValueOf(base[|base| - 1]))
    else LastIn(base[..|base| - 1], name)
  }

  function SecretIn(secrets: seq<Plaintext>, name: string): Option<string> {
    if secrets == [] then None
    else if secrets[|secrets| - 1].name == name then Some(secrets[|secrets| - 1].value)
    else SecretIn(secrets[..|secrets| - 1], name)
  }

  lemma LookupPut(env: seq<string>, name: string, entry: string, other: string)
    requires Named(env) && NameOf(entry) == Some(name)
    ensures Lookup(Put(env, name, entry), other) == if other == name then Some(ValueOf(entry)) else Lookup(env, other)
  {
    PutKeepsNamed(env, name, entry);
    var after := Put(env, name, entry);
    var p, q := Position(env, other), Position(after, other);
    if other != name {
      if p < |env| {
        assert after[p] == env[p];
      }
      if q < |after| {
        assert q < |env| && env[q] == after[q];
      }
    } else {
      assert after[Position(env, name)] == entry;
    }
  }

  lemma {:induction false} LookupBase(base: seq<string>, name: string)
    ensures Named(BaseEnv(base))
    ensures Lookup(BaseEnv(base), name) == if name in STRIPPED_NAMES then None else LastIn(base, name)
  {
    if base != [] {
      var before, last := base[..|base| - 1], base[|base| - 1];
      LookupBase(before, name);
      if Inherited(last) {
        PutKeepsNamed(BaseEnv(before), NameOf(last).value, last);
        LookupPut(BaseEnv(before), NameOf(last).value, last, name);
      }
    }
  }

  lemma {:induction false} LookupSecrets(env: seq<string>, secrets: seq<Plaintext>, name: string)
    requires Named(env) && forall i :: 0 <= i < |secrets| ==> ValidSecretName(secrets[i].name)
    ensures Named(WithSecrets(env, secrets))
    ensures Lookup(WithSecrets(env, secrets), name) == if SecretIn(secrets, name).Some? then SecretIn(secrets, name) else Lookup(env, name)
  {
    if secrets != [] {
      var before, last := secrets[..|secrets| - 1], secrets[|secrets| - 1];
      LookupSecrets(env, before, name);
      NameHasNoEquals(last.name);
      EntryHasName(last.name, last.value);
      PutKeepsNamed(WithSecrets(env, before), last.name, EntryOf(last));
      LookupPut(WithSecrets(env, before), last.name, EntryOf(last), name);
    }
  }

  /** Every name of the child environment: a secret's value if there is one, otherwise the parent's last value,
      except for the stripped names. No name appears twice. */
  lemma ChildSees(base: seq<string>, secrets: seq<Plaintext>, name: string)
    requires Buildable(secrets)
    ensures Named(Build(base, secrets).value)
    ensures Lookup(Build(base, secrets).value, name) ==
              if SecretIn(secrets, name).Some? then SecretIn(secrets, name)
              else if name == "VAULT_BOOTSTRAP_TOKEN" || name == "VAULT_EVIDENCE_FILE" then None
              else LastIn(base, name)
  {
    LookupBase(base, name);
    LookupSecrets(BaseEnv(base), secrets, name);
  }

  /** A list of secrets as a map. */
  function AsMap(secrets: seq<Plaintext>): map<string, string> {
    if secrets == [] then map[]
    else AsMap(secrets[..|secrets| - 1])[secrets[|secrets| - 1].name := secrets[|secrets| - 1].value]
  }

  lemma {:induction false} SecretInMap(secrets: seq<Plaintext>, name: string)
    ensures SecretIn(secrets, name) == if name in AsMap(secrets) then Some(AsMap(secrets)[name]) else None
  {
    if secrets != [] {
      SecretInMap(secrets[..|secrets| - 1], name);
    }
  }

  /** Secrets replace in place and append: no inherited variable changes its position. */
  lemma {:induction false} SecretsKeepPositions(env: seq<string>, secrets: seq<Plaintext>, i: nat)
    requires Named(env) && i < |env| && forall j :: 0 <= j < |secrets| ==> ValidSecretName(secrets[j].name)
    ensures i < |WithSecrets(env, secrets)| && NameOf(WithSecrets(env, secrets)[i]) == NameOf(env[i])
  {
    if secrets != [] {
      var before, last := secrets[..|secrets| - 1], secrets[|secrets| - 1];
      SecretsKeepPositions(env, before, i);
      NameHasNoEquals(last.name);
      EntryHasName(last.name, last.value);
    }
  }

  /** The environment is built exactly when every secret has a valid name and no two the same. */
  lemma BuildsExactly(base: seq<string>, secrets: seq<Plaintext>)
    ensures Build(base, secrets).Some? <==>
            && (forall i :: 0 <= i < |secrets| ==> ValidSecretName(secrets[i].name))
            && forall i, j :: 0 <= i < j < |secrets| ==> secrets[i].name != secrets[j].name
  {
  }

  /** The secrets whose names an environment has not, in the order given. */
  function NewOf(env: seq<string>, secrets: seq<Plaintext>): seq<string> {
    if secrets == [] then []
    else
      var last := secrets[|secrets| - 1];
      NewOf(env, secrets[..|secrets| - 1]) + if exists i :: 0 <= i < |env| && NameOf(env[i]) == Some(last.name) then [] else [EntryOf(last)]
  }

  /** Nothing is inserted or reordered: behind the inherited variables come the new secrets, in the order given. */
  lemma {:induction false} NewSecretsAppend(env: seq<string>, secrets: seq<Plaintext>)
    requires Named(env) && Buildable(secrets)
    ensures |env| <= |WithSecrets(env, secrets)| && WithSecrets(env, secrets)[|env|..] == NewOf(env, secrets)
  {
    if secrets != [] {
      var before, last := secrets[..|secrets| - 1], secrets[|secrets| - 1];
      NewSecretsAppend(env, before);
      NameHasNoEquals(last.name);
      EntryHasName(last.name, last.value);
      var middle := WithSecrets(env, before);
      forall i | 0 <= i < |env| ensures NameOf(middle[i]) == NameOf(env[i]) {
        SecretsKeepPositions(env, before, i);
      }
      NewNames(env, before);
      OneMore(env, middle, before, last);
    }
  }

  lemma OneMore(env: seq<string>, middle: seq<string>, before: seq<Plaintext>, last: Plaintext)
    requires |env| <= |middle| && middle[|env|..] == NewOf(env, before)
    requires forall i :: 0 <= i < |env| ==> NameOf(middle[i]) == NameOf(env[i])
    requires forall k :: 0 <= k < |NewOf(env, before)| ==> NamesOne(before, NewOf(env, before)[k])
    requires forall i :: 0 <= i < |before| ==> before[i].name != last.name
    ensures |env| <= |Put(middle, last.name, EntryOf(last))|
    ensures Put(middle, last.name, EntryOf(last))[|env|..]
         == NewOf(env, before) + if exists i :: 0 <= i < |env| && NameOf(env[i]) == Some(last.name) then [] else [EntryOf(last)]
  {
    hide NewOf, NameOf;
    var p := Position(middle, last.name);
    forall k | |env| <= k < |middle| ensures NameOf(middle[k]) != Some(last.name) {
      assert middle[k] == middle[|env|..][k - |env|];
      assert NamesOne(before, middle[|env|..][k - |env|]);
    }
    if exists i :: 0 <= i < |env| && NameOf(env[i]) == Some(last.name) {
      var i :| 0 <= i < |env| && NameOf(env[i]) == Some(last.name);
      assert NameOf(middle[i]) == Some(last.name) && p < |env|;
      assert middle[p := EntryOf(last)][|env|..] == middle[|env|..];
    } else {
      assert p == |middle|;
      assert (middle + [EntryOf(last)])[|env|..] == middle[|env|..] + [EntryOf(last)];
    }
  }

  predicate NamesOne(secrets: seq<Plaintext>, entry: string) {
    exists i :: 0 <= i < |secrets| && NameOf(entry) == Some(secrets[i].name)
  }

  lemma {:induction false} NewNames(env: seq<string>, secrets: seq<Plaintext>)
    requires forall i :: 0 <= i < |secrets| ==> ValidSecretName(secrets[i].name)
    ensures forall k :: 0 <= k < |NewOf(env, secrets)| ==> NamesOne(secrets, NewOf(env, secrets)[k])
  {
    if secrets != [] {
      var before, last := secrets[..|secrets| - 1], secrets[|secrets| - 1];
      NewNames(env, before);
      NameHasNoEquals(last.name);
      EntryHasName(last.name, last.value);
      assert NamesOne(secrets, EntryOf(last)) by {
        assert secrets[|secrets| - 1] == last;
      }
      forall k | 0 <= k < |NewOf(env, before)| ensures NamesOne(secrets, NewOf(env, before)[k]) {
        assert NamesOne(before, NewOf(env, before)[k]);
        var i :| 0 <= i < |before| && NameOf(NewOf(env, before)[k]) == Some(before[i].name);
        assert secrets[i] == before[i];
      }
    }
  }
}
