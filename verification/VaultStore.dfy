/** The vault service in its own form: one object over the D1 tables, its operations reading, looping and
    writing step by step, each proved to have the effect VaultTables.dfy gives it. */
module VaultStore {
  import opened Ideal
  import opened Protocol
  import opened AadText
  import opened VaultTables
  import opened VaultRefinement
  import VaultRuns

  /** One UPDATE of a rotation's batch, by row id. */
  datatype Rewrite = Rewrite(id: string, nonce: nat, ciphertext: Sealed, envKeyVersion: nat)

  function Rewritten(secrets: map<SecretName, Secret>, rewrite: Rewrite): map<SecretName, Secret> {
    map k | k in secrets ::
      if secrets[k].id == rewrite.id
      then secrets[k].(nonce := rewrite.nonce, ciphertext := rewrite.ciphertext, envKeyVersion := rewrite.envKeyVersion)
      else secrets[k]
  }

  /** What a batch of updates does, in order. */
  function RewrittenAll(secrets: map<SecretName, Secret>, rewrites: seq<Rewrite>): map<SecretName, Secret> {
    if rewrites == [] then secrets
    else Rewritten(RewrittenAll(secrets, rewrites[..|rewrites| - 1]), rewrites[|rewrites| - 1])
  }

  /** A row under the next key, or as it is when it does not decrypt. */
  function MovedRow(v: Vault, k: SecretName, previous: Key, next: Key, version: nat, nonces: map<SecretName, nat>): Secret
    requires k in v.secrets && k.environmentId in v.environments
  {
    match Reencrypted(v, k, previous, next, version, if k in nonces then nonces[k] else 0)
    case Some(secret) => secret
    case None => v.secrets[k]
  }

  /** Some rows of an environment moved to the next key, the others as they were. */
  function PartlyReencrypted(v: Vault, moved: set<SecretName>, previous: Key, next: Key, version: nat, nonces: map<SecretName, nat>)
    : map<SecretName, Secret>
    requires forall k :: k in moved ==> k.environmentId in v.environments
  {
    map k | k in v.secrets :: if k in moved then MovedRow(v, k, previous, next, version, nonces) else v.secrets[k]
  }

  lemma MovedRowShape(v: Vault, k: SecretName, previous: Key, next: Key, version: nat, nonces: map<SecretName, nat>)
    requires k in v.secrets && k.environmentId in v.environments
    ensures MovedRow(v, k, previous, next, version, nonces).id == v.secrets[k].id
    ensures var nonce := if k in nonces then nonces[k] else 0;
            var moved := Reencrypted(v, k, previous, next, version, nonce);
            moved.Some? ==>
              MovedRow(v, k, previous, next, version, nonces) ==
              v.secrets[k].(nonce := nonce, ciphertext := moved.value.ciphertext, envKeyVersion := version)
  {
  }

  lemma ReencryptMore(v: Vault, moved: set<SecretName>, k: SecretName, previous: Key, next: Key, version: nat,
                      nonces: map<SecretName, nat>, rewrite: Rewrite)
    requires IdsDistinct(v.secrets) && k in v.secrets && k !in moved && k.environmentId in v.environments
    requires forall m :: m in moved ==> m.environmentId in v.environments
    requires var nonce := if k in nonces then nonces[k] else 0;
             var secret := Reencrypted(v, k, previous, next, version, nonce);
             secret.Some? && rewrite == Rewrite(v.secrets[k].id, nonce, secret.value.ciphertext, version)
    ensures Rewritten(PartlyReencrypted(v, moved, previous, next, version, nonces), rewrite)
         == PartlyReencrypted(v, moved + {k}, previous, next, version, nonces)
  {
    hide Reencrypted, MovedRow;
    var before, after := PartlyReencrypted(v, moved, previous, next, version, nonces),
                         PartlyReencrypted(v, moved + {k}, previous, next, version, nonces);
    MovedRowShape(v, k, previous, next, version, nonces);
    forall j | j in v.secrets ensures Rewritten(before, rewrite)[j] == after[j] {
      if j in moved {
        MovedRowShape(v, j, previous, next, version, nonces);
      }
      assert before[j].id == v.secrets[j].id;
    }
  }

  class Store {
    var keyring: Keyring
    var projects: map<string, Project>
    var projectKeys: map<KeyId, ProjectKey>
    var environments: map<string, VaultEnvironment>
    var environmentKeys: map<KeyId, EnvironmentKey>
    var secrets: map<SecretName, Secret>

    function View(): Vault
      reads this
    {
      Vault(keyring, projects, projectKeys, environments, environmentKeys, secrets)
    }

    ghost predicate Valid()
      reads this
    {
      Sound(View())
    }

    constructor (version: nat, master: Key)
      ensures Valid() && View() == VaultRuns.EmptyVault(version, master)
    {
      keyring := Keyring(version, map[version := master]);
      projects, projectKeys, environments, environmentKeys, secrets := map[], map[], map[], map[], map[];
    }

    // ---------------------------------------------------------------- secrets

    /** The conditional upsert; None when no row comes back. */
    method UpsertSecretReplace(at: SecretName, expected: nat, secret: Secret) returns (version: Option<nat>)
      modifies this`secrets
      ensures version.Some? <==> Upsert(old(secrets), at, expected, secret).Some?
      ensures secrets == if version.Some? then Upsert(old(secrets), at, expected, secret).value else old(secrets)
      ensures version.Some? ==> at in secrets && secrets[at].version == version.value
    {
      if expected != 0 && !HasVersion(secrets, secret.id, expected) {
        return None;
      }
      if at !in secrets {
        if IdTaken(secrets, secret.id) {
          return None;
        }
        secrets := secrets[at := secret.(version := 1)];
        return Some(1);
      }
      var row := secrets[at];
      if row.id != secret.id || row.version != expected {
        return None;
      }
      secrets := secrets[at := row.(ciphertext := secret.ciphertext, nonce := secret.nonce,
                                    envKeyVersion := secret.envKeyVersion, version := row.version + 1)];
      return Some(row.version + 1);
    }

    method WriteSecret(at: SecretName, dek: Key, keyVersion: nat, value: string, id: string, nonce: nat)
        returns (result: Result<bool>)
      requires at.environmentId in environments
      modifies this`secrets
      ensures (View(), result) == VaultTables.WriteSecret(old(View()), at, dek, keyVersion, value, id, nonce)
    {
      var existing := if at in secrets then Some(secrets[at]) else None;
      var secretId := if existing.Some? then existing.value.id else id;
      var secretVersion := if existing.None? then 1 else existing.value.version + 1;
      var aad := SecretAad(environments[at.environmentId].projectId, at.environmentId, secretId, at.name, secretVersion, keyVersion);
      var row := Secret(secretId, secretVersion, keyVersion, nonce, Sealed(dek, nonce, aad, Text(value)));
      var written := UpsertSecretReplace(at, if existing.Some? then existing.value.version else 0, row);
      result := if written.None? then Err(DatabaseError) else Ok(existing.None?);
    }

    method PutSecret(at: SecretName, value: string, id: string, nonce: nat) returns (result: Result<bool>)
      requires Valid() && FreshSecretId(View(), id)
      modifies this`secrets
      ensures Valid() && Kept(old(View()), View())
      ensures (Abs(View()), result) == PlainPut(Abs(old(View())), at, value)
    {
      hide Sound, Kept, Abs;
      VaultRuns.PutRefines(View(), at, value, id, nonce);
      VaultRuns.KeptSound(View(), VaultTables.PutSecret(View(), at, value, id, nonce).0);
      if at.environmentId !in environments {
        return Err(InputError("environmentId"));
      }
      if environments[at.environmentId].keyMode == COLD {
        return Err(InputError("keyMode"));
      }
      if !ValidSecretName(at.name) {
        return Err(InputError("name"));
      }
      if !ValidValue(value) {
        return Err(InputError("value"));
      }
      var dek := UnwrapEnvironmentDek(View(), at.environmentId);
      if dek.Err? {
        return Err(dek.error);
      }
      result := WriteSecret(at, dek.value, environments[at.environmentId].currentKeyVersion, value, id, nonce);
    }

    /** One upsert for each entry, with nothing around them: `done` is how many D1 performs before it fails. */
    method ImportDotenv(environment: string, entries: seq<Entry>, done: nat) returns (result: Result<Counts>)
      requires Valid() && VaultRuns.FreshEntries(View(), entries)
      modifies this`secrets
      ensures Valid() && Kept(old(View()), View())
      ensures (View(), result) == VaultTables.ImportDotenv(old(View()), environment, entries, done)
      ensures Abs(View()) == PlainImport(Abs(old(View())), environment, entries[..Imported(Abs(old(View())), environment, entries, done)])
    {
      hide Sound, Kept, Abs, ImportRefusal, PlainImport, WriteAll, ValidSecretName, ValidValue, UnwrapEnvironmentDek;
      VaultRuns.ImportRefines(View(), environment, entries, done);
      VaultRuns.KeptSound(View(), VaultTables.ImportDotenv(View(), environment, entries, done).0);
      if environment !in environments {
        return Err(InputError("environmentId"));
      }
      if environments[environment].keyMode == COLD {
        return Err(InputError("keyMode"));
      }
      if entries == [] || exists i :: 0 <= i < |entries| && !ValidSecretName(entries[i].name) {
        return Err(InputError("content"));
      }
      for i := 0 to |entries|
        invariant forall j :: 0 <= j < i ==> ValidValue(entries[j].value)
        invariant View() == old(View())
      {
        if !ValidValue(entries[i].value) {
          return Err(InputError("value"));
        }
      }
      var unwrapped := UnwrapEnvironmentDek(View(), environment);
      if unwrapped.Err? {
        return Err(unwrapped.error);
      }
      result := WriteEntries(environment, unwrapped.value, environments[environment].currentKeyVersion, entries, done);
    }

    /** The import's loop of writes and its two counters. */
    method WriteEntries(environment: string, dek: Key, version: nat, entries: seq<Entry>, done: nat) returns (result: Result<Counts>)
      requires environment in environments
      modifies this`secrets
      ensures (View(), result) == WriteAll(old(View()), environment, dek, version, entries, Counts(0, 0), done)
    {
      hide VaultTables.WriteSecret;
      var created, replaced := 0, 0;
      ghost var whole := WriteAll(View(), environment, dek, version, entries, Counts(0, 0), done);
      assert entries[0..] == entries;
      for i := 0 to |entries|
        invariant i <= done
        invariant whole == WriteAll(View(), environment, dek, version, entries[i..], Counts(created, replaced), done - i)
      {
        if i == done {
          return Err(DatabaseError);
        }
        var entry := entries[i];
        assert entries[i..][0] == entry && entries[i..][1..] == entries[i + 1..];
        var written := WriteSecret(SecretName(environment, entry.name), dek, version, entry.value, entry.id, entry.nonce);
        if written.Err? {
          return Err(written.error);
        }
        if written.value {
          created := created + 1;
        } else {
          replaced := replaced + 1;
        }
      }
      result := Ok(Counts(created, replaced));
    }

    method DeleteSecret(at: SecretName) returns (result: Result<()>)
      modifies this`secrets
      ensures (View(), result) == VaultTables.DeleteSecret(old(View()), at)
    {
      if at.environmentId !in environments {
        return Err(InputError("environmentId"));
      }
      if at !in secrets {
        return Err(InputError("name"));
      }
      secrets := secrets - {at};
      return Ok(());
    }

    // ---------------------------------------------------------------- creating and deleting

    /** Three writes; `done` is how many D1 performs before it fails. */
    method CreateProject(id: string, slug: string, key: Key, nonce: nat, done: nat) returns (result: Result<string>)
      requires Valid() && UsableId(id)
      modifies this
      ensures Valid() && Kept(old(View()), View())
      ensures (View(), result) == VaultTables.CreateProject(old(View()), id, slug, key, nonce, done)
    {
      hide Sound, Kept, Abs, SlugTaken;
      VaultRuns.CreateProjectRefines(View(), id, slug, key, nonce, done);
      VaultRuns.KeptSound(View(), VaultTables.CreateProject(View(), id, slug, key, nonce, done).0);
      if SlugTaken(View(), slug) {
        return Err(InputError("slug"));
      }
      if keyring.activeVersion !in keyring.keys {
        return Err(MasterKeyMissing);
      }
      var sealed := WrapProjectKey(keyring.keys[keyring.activeVersion], key, nonce, id, 1, keyring.activeVersion);
      if done == 0 || id in projects {
        return Err(DatabaseError);
      }
      projects := projects[id := Project(slug, 0)];
      if done == 1 {
        return Err(DatabaseError);
      }
      projectKeys := projectKeys[KeyId(id, 1) := sealed];
      if done == 2 {
        return Err(DatabaseError);
      }
      projects := projects[id := projects[id].(currentKeyVersion := 1)];
      return Ok(id);
    }

    method CreateEnvironment(id: string, project: string, slug: string, keyMode: KeyMode, owner: OwnerKeys, key: Key, nonce: nat,
                             done: nat)
        returns (result: Result<string>)
      requires Valid() && UsableId(id)
      modifies this
      ensures Valid() && Kept(old(View()), View())
      ensures (View(), result) == VaultTables.CreateEnvironment(old(View()), id, project, slug, keyMode, owner, key, nonce, done)
    {
      hide Sound, Kept, Abs, EnvironmentSlugTaken, UnwrapProjectKey, SwitchCurrentEnvironmentKey;
      VaultRuns.CreateEnvironmentRefines(View(), id, project, slug, keyMode, owner, key, nonce, done);
      VaultRuns.KeptSound(View(), VaultTables.CreateEnvironment(View(), id, project, slug, keyMode, owner, key, nonce, done).0);
      if project !in projects {
        return Err(InputError("projectId"));
      }
      if EnvironmentSlugTaken(View(), project, slug) {
        return Err(InputError("slug"));
      }
      var refusal := OwnerRefusal(keyMode, owner);
      if refusal.Some? {
        return Err(refusal.value);
      }
      if keyMode == COLD {
        if done == 0 || id in environments {
          return Err(DatabaseError);
        }
        environments := environments[id := VaultEnvironment(project, slug, keyMode, 0)];
        return Ok(id);
      }
      var projectKey := UnwrapProjectKey(View(), project);
      if projectKey.Err? {
        return Err(projectKey.error);
      }
      var version := projects[project].currentKeyVersion;
      if done == 0 || id in environments {
        return Err(DatabaseError);
      }
      environments := environments[id := VaultEnvironment(project, slug, keyMode, 0)];
      if done == 1 {
        return Err(DatabaseError);
      }
      environmentKeys := environmentKeys[KeyId(id, 1) := WrapEnvironmentKey(projectKey.value, key, nonce, project, id, 1, version)];
      if done == 2 {
        return Err(DatabaseError);
      }
      RunBatch(id, [], 0, 1);
      return Ok(id);
    }

    // ---------------------------------------------------------------- rotation

    /** `batchFails` is D1 refusing the batch after the new key row went in. */
    method RotateEnvironmentKey(environment: string, key: Key, nonce: nat, nonces: map<SecretName, nat>, batchFails: bool)
        returns (result: Result<nat>)
      requires Valid()
      modifies this
      ensures Valid() && Kept(old(View()), View()) && Abs(View()) == Abs(old(View()))
      ensures (View(), result) == VaultTables.RotateEnvironmentKey(old(View()), environment, key, nonce, nonces, if batchFails then 1 else 2)
    {
      hide Sound, Kept, Abs, DekOf, UnwrapProjectKeyVersion, Reencrypted, UnwrapEnvironmentDek, RewrittenAll, Rewritten;
      ghost var v := View();
      VaultRuns.RotateEnvironmentRefines(v, environment, key, nonce, nonces, if batchFails then 1 else 2);
      VaultRuns.KeptSound(v, VaultTables.RotateEnvironmentKey(v, environment, key, nonce, nonces, if batchFails then 1 else 2).0);
      if environment !in environments {
        return Err(InputError("environmentId"));
      }
      if environments[environment].keyMode == COLD {
        return Err(EnvironmentKeyMissing);
      }
      var project, current := environments[environment].projectId, environments[environment].currentKeyVersion;
      var previous := UnwrapEnvironmentDek(View(), environment);
      if previous.Err? {
        return Err(previous.error);
      }
      var projectKey := UnwrapProjectKey(View(), project);
      if projectKey.Err? {
        return Err(projectKey.error);
      }
      var next := current + 1;
      var rewrites := ReencryptSecrets(environment, previous.value, key, next, nonces);
      if rewrites.None? {
        return Err(UnwrapFailed);
      }
      if KeyId(environment, next) in environmentKeys {
        return Err(DatabaseError);
      }
      environmentKeys := environmentKeys[KeyId(environment, next) :=
        WrapEnvironmentKey(projectKey.value, key, nonce, project, environment, next, projects[project].currentKeyVersion)];
      if batchFails {
        return Err(DatabaseError);
      }
      RunBatch(environment, rewrites.value, current, next);
      return Ok(next);
    }

    /** The rotation's loop: decrypt and reseal every secret before anything is written. */
    method ReencryptSecrets(environment: string, previous: Key, key: Key, next: nat, nonces: map<SecretName, nat>)
        returns (rewrites: Option<seq<Rewrite>>)
      requires Valid() && environment in environments
      ensures rewrites.None? <==> exists k :: k in SecretsOf(View(), environment) && Reencrypted(View(), k, previous, key, next, 0).None?
      ensures rewrites.Some? ==> RewrittenAll(secrets, rewrites.value) == ReencryptAll(View(), environment, previous, key, next, nonces)
    {
      hide Sound, Reencrypted, Rewritten, RewrittenAll, MovedRow, PartlyReencrypted, ReencryptAll, IdsDistinct;
      var v := View();
      SoundIds(v);
      NothingRewritten(v, previous, key, next, nonces);
      var todo := set k | k in secrets && k.environmentId == environment;
      var all := todo;
      var statements := [];
      assert all - todo == {};
      while todo != {}
        invariant todo <= all
        invariant forall k :: k in all - todo ==> Reencrypted(v, k, previous, key, next, 0).Some?
        invariant RewrittenAll(secrets, statements) == PartlyReencrypted(v, all - todo, previous, key, next, nonces)
        decreases todo
      {
        var k :| k in todo;
        var nonce := if k in nonces then nonces[k] else 0;
        var sealed := Reencrypted(v, k, previous, key, next, nonce);
        NonceIrrelevant(v, k, previous, key, next, nonce);
        if sealed.None? {
          assert k in SecretsOf(View(), environment) && Reencrypted(View(), k, previous, key, next, 0).None?;
          return None;
        }
        var rewrite := Rewrite(secrets[k].id, nonce, sealed.value.ciphertext, next);
        ReencryptMore(v, all - todo, k, previous, key, next, nonces, rewrite);
        RewrittenMore(secrets, statements, rewrite);
        assert all - (todo - {k}) == (all - todo) + {k};
        statements := statements + [rewrite];
        todo := todo - {k};
      }
      assert all - {} == all;
      WholeIsReencryptAll(v, environment, previous, key, next, nonces);
      return Some(statements);
    }

    /** The rotation's batch: every rewrite, then the switch, as one atomic write. */
    method RunBatch(environment: string, rewrites: seq<Rewrite>, current: nat, next: nat)
      requires environment in environments
      modifies this
      ensures View() == SwitchCurrentEnvironmentKey(old(View()).(secrets := RewrittenAll(old(secrets), rewrites)),
                                                    environment, current, next)
    {
      hide Rewritten;
      var rows := secrets;
      for i := 0 to |rewrites|
        invariant rows == RewrittenAll(secrets, rewrites[..i])
        invariant View() == old(View())
      {
        assert rewrites[..i + 1][..|rewrites[..i + 1]| - 1] == rewrites[..i];
        rows := Rewritten(rows, rewrites[i]);
      }
      assert rewrites[..|rewrites|] == rewrites;
      var switched := SwitchCurrentEnvironmentKey(View(), environment, current, next);
      secrets, environmentKeys, environments := rows, switched.environmentKeys, switched.environments;
    }

    /** The project rotation: rewrap every key of the project's CLOUD environments, then two writes. */
    method RotateProjectKey(project: string, key: Key, nonce: nat, nonces: map<KeyId, nat>, batchFails: bool)
        returns (result: Result<nat>)
      requires Valid()
      modifies this
      ensures Valid() && Kept(old(View()), View()) && Abs(View()) == Abs(old(View()))
      ensures (View(), result) == VaultTables.RotateProjectKey(old(View()), project, key, nonce, nonces, if batchFails then 1 else 2)
    {
      hide Sound, Kept, Abs, DekOf, UnwrapProjectKeyVersion, UnwrapProjectKey, KeysOf, Rewrapped;
      ghost var v := View();
      VaultRuns.RotateProjectRefines(v, project, key, nonce, nonces, if batchFails then 1 else 2);
      VaultRuns.KeptSound(v, VaultTables.RotateProjectKey(v, project, key, nonce, nonces, if batchFails then 1 else 2).0);
      VaultRuns.SoundKeysUnwrap(v, project);
      if project !in projects {
        return Err(InputError("projectId"));
      }
      var unwrapped := UnwrapProjectKey(View(), project);
      if unwrapped.Err? {
        return Err(unwrapped.error);
      }
      if keyring.activeVersion !in keyring.keys {
        return Err(MasterKeyMissing);
      }
      var current := projects[project].currentKeyVersion;
      var next := current + 1;
      var rewrapped := RewrapKeys(project, key, next, nonces);
      if KeyId(project, next) in projectKeys {
        return Err(DatabaseError);
      }
      var master := keyring.keys[keyring.activeVersion];
      projectKeys := projectKeys[KeyId(project, next) := WrapProjectKey(master, key, nonce, project, next, keyring.activeVersion)];
      if batchFails {
        return Err(DatabaseError);
      }
      environmentKeys := rewrapped;
      projectKeys := projectKeys[KeyId(project, current) := projectKeys[KeyId(project, current)].(retired := true)];
      projects := projects[project := projects[project].(currentKeyVersion := next)];
      return Ok(next);
    }

    /** The loop over the project's environment keys, retired ones included. */
    method RewrapKeys(project: string, key: Key, next: nat, nonces: map<KeyId, nat>) returns (rows: map<KeyId, EnvironmentKey>)
      requires forall k :: k in KeysOf(View(), project) ==> DekOf(View(), k).Ok?
      ensures rows == RewrapAll(View(), project, key, next, nonces)
    {
      hide DekOf;
      var v := View();
      rows := environmentKeys;
      var todo := KeysOf(v, project);
      ghost var all := todo;
      while todo != {}
        invariant todo <= all
        invariant rows.Keys == environmentKeys.Keys
        invariant forall k :: k in environmentKeys ==>
                    rows[k] == if k in all - todo then Rewrapped(v, k, key, next, if k in nonces then nonces[k] else 0)
                               else environmentKeys[k]
        decreases todo
      {
        var k :| k in todo;
        rows := rows[k := Rewrapped(v, k, key, next, if k in nonces then nonces[k] else 0)];
        todo := todo - {k};
      }
    }
  }

  lemma NothingRewritten(v: Vault, previous: Key, next: Key, version: nat, nonces: map<SecretName, nat>)
    ensures RewrittenAll(v.secrets, []) == PartlyReencrypted(v, {}, previous, next, version, nonces)
  {
  }

  lemma RewrittenMore(secrets: map<SecretName, Secret>, rewrites: seq<Rewrite>, last: Rewrite)
    ensures RewrittenAll(secrets, rewrites + [last]) == Rewritten(RewrittenAll(secrets, rewrites), last)
  {
    assert (rewrites + [last])[..|rewrites + [last]| - 1] == rewrites;
  }

  lemma SoundIds(v: Vault)
    requires Sound(v)
    ensures IdsDistinct(v.secrets)
  {
  }

  lemma NonceIrrelevant(v: Vault, k: SecretName, previous: Key, next: Key, version: nat, nonce: nat)
    requires k in v.secrets && k.environmentId in v.environments
    ensures Reencrypted(v, k, previous, next, version, nonce).Some? <==> Reencrypted(v, k, previous, next, version, 0).Some?
  {
  }

  lemma WholeIsReencryptAll(v: Vault, environment: string, previous: Key, next: Key, version: nat, nonces: map<SecretName, nat>)
    requires environment in v.environments
    ensures PartlyReencrypted(v, SecretsOf(v, environment), previous, next, version, nonces)
         == ReencryptAll(v, environment, previous, next, version, nonces)
  {
  }
}
