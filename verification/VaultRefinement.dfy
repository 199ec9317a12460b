/** The encrypted vault refines a plain map from environment and name to value: every operation keeps the
    tables sound and does to the decrypted contents what the plain store says. */
module VaultRefinement {
  import opened Ideal
  import opened Protocol
  import opened AadText
  import opened VaultTables

  // ------------------------------------------------------------------ the plain store

  datatype PlainProject = PlainProject(slug: string, ready: bool)
  datatype PlainEnvironment = PlainEnvironment(projectId: string, slug: string, keyMode: KeyMode, ready: bool)

  /** No keys, no ciphertext: what exists, whether it finished being created, and the values. */
  datatype PlainStore =
    PlainStore(projects: map<string, PlainProject>, environments: map<string, PlainEnvironment>, values: map<SecretName, string>)

  /** Why the plain store refuses a write; None when it accepts. */
  function Refusal(p: PlainStore, environment: string): Option<VaultError> {
    if environment !in p.environments then Some(InputError("environmentId"))
    else if p.environments[environment].keyMode == COLD then Some(InputError("keyMode"))
    else None
  }

  function PlainPut(p: PlainStore, at: SecretName, value: string): (PlainStore, Result<bool>) {
    if Refusal(p, at.environmentId).Some? then (p, Err(Refusal(p, at.environmentId).value))
    else if !ValidSecretName(at.name) then (p, Err(InputError("name")))
    else if !ValidValue(value) then (p, Err(InputError("value")))
    else if !p.environments[at.environmentId].ready then (p, Err(EnvironmentKeyMissing))
    else (p.(values := p.values[at := value]), Ok(at !in p.values))
  }

  /** The last assignment of each name wins; a name not there before counts as created once. */
  function PlainImport(p: PlainStore, environment: string, entries: seq<Entry>): PlainStore
    decreases |entries|
  {
    if entries == [] then p
    else PlainImport(p.(values := p.values[SecretName(environment, entries[0].name) := entries[0].value]),
                     environment, entries[1..])
  }

  /** Why an import is refused before it writes anything. */
  function ImportRefusal(p: PlainStore, environment: string, entries: seq<Entry>): Option<VaultError> {
    if Refusal(p, environment).Some? then Refusal(p, environment)
    else if entries == [] || exists i :: 0 <= i < |entries| && !ValidSecretName(entries[i].name) then Some(InputError("content"))
    else if exists i :: 0 <= i < |entries| && !ValidValue(entries[i].value) then Some(InputError("value"))
    else if !p.environments[environment].ready then Some(EnvironmentKeyMissing)
    else None
  }

  /** How many of its entries an import assigns when the database performs `done` writes. */
  function Imported(p: PlainStore, environment: string, entries: seq<Entry>, done: nat): (count: nat)
    ensures count <= |entries|
  {
    if ImportRefusal(p, environment, entries).Some? then 0 else if done < |entries| then done else |entries|
  }

  function PlainWithout(p: PlainStore, gone: set<string>): PlainStore {
    p.(environments := p.environments - gone,
       values := map k | k in p.values && k.environmentId !in gone :: p.values[k])
  }

  // ------------------------------------------------------------------ soundness of the tables

  predicate ProjectKeyOk(v: Vault, k: KeyId) {
    k.owner in v.projects && UnwrapProjectKeyVersion(v, k.owner, k.version).Ok?
  }

  predicate EnvironmentKeyOk(v: Vault, k: KeyId) {
    && k.owner in v.environments && v.environments[k.owner].keyMode == CLOUD && DekOf(v, k).Ok?
    && v.environments[k.owner].projectId in v.projects
    && v.projects[v.environments[k.owner].projectId].currentKeyVersion != 0
  }

  predicate EnvironmentOk(v: Vault, e: string)
    requires e in v.environments
  {
    && v.environments[e].projectId in v.projects && UsableId(e)
    && (v.environments[e].currentKeyVersion != 0 ==> KeyId(e, v.environments[e].currentKeyVersion) in v.environmentKeys)
    && KeyId(e, 0) !in v.environmentKeys
  }

  predicate ProjectOk(v: Vault, p: string)
    requires p in v.projects
  {
    && UsableId(p) && KeyId(p, 0) !in v.projectKeys
    && (v.projects[p].currentKeyVersion != 0 ==> KeyId(p, v.projects[p].currentKeyVersion) in v.projectKeys)
  }

  /** A stored secret is at its environment's current key version and decrypts there. */
  predicate SecretOk(v: Vault, k: SecretName)
    requires k in v.secrets
  {
    && k.environmentId in v.environments && v.environments[k.environmentId].keyMode == CLOUD
    && v.environments[k.environmentId].currentKeyVersion != 0
    && v.secrets[k].envKeyVersion == v.environments[k.environmentId].currentKeyVersion
    && v.secrets[k].version >= 1
    && ValidSecretName(k.name) && UsableId(v.secrets[k].id)
    && ValueOf(v, k).Some?
  }

  predicate IdsDistinct(secrets: map<SecretName, Secret>) {
    forall j, k :: j in secrets && k in secrets && secrets[j].id == secrets[k].id ==> j == k
  }

  predicate ProjectKeysOk(v: Vault) {
    forall k :: k in v.projectKeys ==> ProjectKeyOk(v, k)
  }

  predicate EnvironmentKeysOk(v: Vault) {
    forall k :: k in v.environmentKeys ==> EnvironmentKeyOk(v, k)
  }

  predicate SecretsOk(v: Vault) {
    forall k :: k in v.secrets ==> SecretOk(v, k)
  }

  predicate OwnersOk(v: Vault) {
    && (forall p :: p in v.projects ==> ProjectOk(v, p))
    && (forall e :: e in v.environments ==> EnvironmentOk(v, e))
  }

  predicate Sound(v: Vault) {
    && v.keyring.activeVersion in v.keyring.keys
    && OwnersOk(v) && ProjectKeysOk(v) && EnvironmentKeysOk(v) && SecretsOk(v) && IdsDistinct(v.secrets)
  }

  /** Everything that decrypts; in a sound vault that is every row. */
  function Values(v: Vault): map<SecretName, string> {
    map k | k in v.secrets && ValueOf(v, k).Some? :: ValueOf(v, k).value
  }

  function PlainProjectOf(row: Project): PlainProject {
    PlainProject(row.slug, row.currentKeyVersion != 0)
  }

  function PlainProjects(rows: map<string, Project>): map<string, PlainProject> {
    map p | p in rows :: PlainProjectOf(rows[p])
  }

  function PlainEnvironmentOf(row: VaultEnvironment): PlainEnvironment {
    PlainEnvironment(row.projectId, row.slug, row.keyMode, row.currentKeyVersion != 0)
  }

  function PlainEnvironments(rows: map<string, VaultEnvironment>): map<string, PlainEnvironment> {
    map e | e in rows :: PlainEnvironmentOf(rows[e])
  }

  /** The plain store a vault stands for. */
  function Abs(v: Vault): PlainStore {
    PlainStore(PlainProjects(v.projects), PlainEnvironments(v.environments), Values(v))
  }

  lemma PlainProjectPut(rows: map<string, Project>, p: string, row: Project)
    ensures PlainProjects(rows[p := row]) == PlainProjects(rows)[p := PlainProjectOf(row)]
  {
  }

  lemma PlainEnvironmentPut(rows: map<string, VaultEnvironment>, e: string, row: VaultEnvironment)
    ensures PlainEnvironments(rows[e := row]) == PlainEnvironments(rows)[e := PlainEnvironmentOf(row)]
  {
  }

  lemma PlainOwners(projects: map<string, Project>, environments: map<string, VaultEnvironment>)
    ensures PlainProjects(projects).Keys == projects.Keys && PlainEnvironments(environments).Keys == environments.Keys
    ensures forall gone: set<string> :: PlainProjects(projects - gone) == PlainProjects(projects) - gone
    ensures forall gone: set<string> :: PlainEnvironments(environments - gone) == PlainEnvironments(environments) - gone
  {
  }

  /** Every environment key of `v` still unwraps in `w` to the key it held. */
  predicate DeksKept(v: Vault, w: Vault) {
    forall k :: k in v.environmentKeys && k in w.environmentKeys ==> DekOf(w, k) == DekOf(v, k)
  }

  /** A new id, as the generator gives one: unused, not empty, and without a line feed. */
  predicate FreshSecretId(v: Vault, id: string) {
    !IdTaken(v.secrets, id) && UsableId(id)
  }

  // ------------------------------------------------------------------ what carries over

  predicate SameRows(v: Vault, w: Vault) {
    && (forall m :: m in v.keyring.keys ==> m in w.keyring.keys && w.keyring.keys[m] == v.keyring.keys[m])
    && (forall k :: k in v.projectKeys && k in w.projectKeys ==>
          w.projectKeys[k].(retired := false) == v.projectKeys[k].(retired := false))
    && (forall k :: k in v.environmentKeys && k in w.environmentKeys ==>
          w.environmentKeys[k].(retired := false) == v.environmentKeys[k].(retired := false))
    && (forall e :: e in v.environments && e in w.environments ==>
          w.environments[e].projectId == v.environments[e].projectId && w.environments[e].keyMode == v.environments[e].keyMode)
  }

  /** An environment that stays keeps its project's keys. */
  predicate KeysStay(v: Vault, w: Vault) {
    forall e, k | e in v.environments && e in w.environments && k in v.projectKeys && k.owner == v.environments[e].projectId ::
      k in w.projectKeys
  }

  lemma ProjectKeyCarries(v: Vault, w: Vault, k: KeyId)
    requires ProjectKeyOk(v, k) && SameRows(v, w) && k in w.projectKeys
    ensures UnwrapProjectKeyVersion(w, k.owner, k.version) == UnwrapProjectKeyVersion(v, k.owner, k.version)
  {
    assert KeyId(k.owner, k.version) == k;
    assert k in v.projectKeys;
  }

  lemma DekCarries(v: Vault, w: Vault, k: KeyId)
    requires ProjectKeysOk(v) && EnvironmentKeyOk(v, k) && k in v.environmentKeys && SameRows(v, w) && KeysStay(v, w)
    requires k in w.environmentKeys && k.owner in w.environments
    ensures DekOf(w, k) == DekOf(v, k)
  {
    var project, version := v.environments[k.owner].projectId, v.environmentKeys[k].projectKeyVersion;
    assert w.environmentKeys[k].(retired := false) == v.environmentKeys[k].(retired := false);
    assert KeyId(project, version) in v.projectKeys;
    ProjectKeyCarries(v, w, KeyId(project, version));
  }

  lemma ValueCarries(v: Vault, w: Vault, k: SecretName)
    requires k in v.secrets && k in w.secrets && w.secrets[k] == v.secrets[k]
    requires k.environmentId in v.environments && k.environmentId in w.environments
    requires w.environments[k.environmentId].projectId == v.environments[k.environmentId].projectId
    requires DekOf(w, KeyId(k.environmentId, v.secrets[k].envKeyVersion)) == DekOf(v, KeyId(k.environmentId, v.secrets[k].envKeyVersion))
    ensures ValueOf(w, k) == ValueOf(v, k)
  {
  }

  /** A secret's row stays readable while its environment keeps its key and its current version. */
  lemma SecretCarries(v: Vault, w: Vault, k: SecretName)
    requires Sound(v) && SameRows(v, w) && KeysStay(v, w) && k in v.secrets && k in w.secrets && w.secrets[k] == v.secrets[k]
    requires k.environmentId in w.environments
    requires w.environments[k.environmentId].currentKeyVersion == v.environments[k.environmentId].currentKeyVersion
    requires KeyId(k.environmentId, v.secrets[k].envKeyVersion) in w.environmentKeys
    ensures SecretOk(w, k) && ValueOf(w, k) == ValueOf(v, k)
  {
    assert SecretOk(v, k) && EnvironmentOk(v, k.environmentId);
    assert EnvironmentKeyOk(v, KeyId(k.environmentId, v.secrets[k].envKeyVersion));
    DekCarries(v, w, KeyId(k.environmentId, v.secrets[k].envKeyVersion));
    ValueCarries(v, w, k);
  }

  // ------------------------------------------------------------------ one write each

  /** The step every write below makes: what was sound stays sound, and no key is lost. */
  predicate Kept(v: Vault, w: Vault) {
    Sound(w) && DeksKept(v, w)
  }

  lemma KeptTrans(u: Vault, v: Vault, w: Vault)
    requires Kept(u, v) && Kept(v, w) && v.environmentKeys.Keys >= u.environmentKeys.Keys * w.environmentKeys.Keys
    ensures Kept(u, w)
  {
    forall k | k in u.environmentKeys && k in w.environmentKeys ensures DekOf(w, k) == DekOf(u, k) {
      assert k in u.environmentKeys.Keys * w.environmentKeys.Keys;
    }
  }

  /** A write that only adds to the key tables and owners leaves every secret as it was. */
  predicate Adds(v: Vault, w: Vault) {
    && SameRows(v, w) && w.secrets == v.secrets && w.keyring.activeVersion in w.keyring.keys
    && v.projectKeys.Keys <= w.projectKeys.Keys && v.environmentKeys.Keys <= w.environmentKeys.Keys
    && v.projects.Keys <= w.projects.Keys
    && (forall e :: e in v.environments ==> e in w.environments && w.environments[e] == v.environments[e])
    && (forall p :: p in v.projects ==> w.projects[p].currentKeyVersion >= v.projects[p].currentKeyVersion)
  }

  lemma AddsProjectKeys(v: Vault, w: Vault)
    requires ProjectKeysOk(v) && SameRows(v, w) && v.projects.Keys <= w.projects.Keys
    requires forall k :: k in w.projectKeys && k !in v.projectKeys ==> ProjectKeyOk(w, k)
    ensures ProjectKeysOk(w)
  {
    forall k | k in w.projectKeys ensures ProjectKeyOk(w, k) {
      if k in v.projectKeys {
        assert ProjectKeyOk(v, k);
        ProjectKeyCarries(v, w, k);
      }
    }
  }

  lemma AddsEnvironmentKeys(v: Vault, w: Vault)
    requires ProjectKeysOk(v) && EnvironmentKeysOk(v) && Adds(v, w) && KeysStay(v, w)
    requires forall k :: k in w.environmentKeys && k !in v.environmentKeys ==> EnvironmentKeyOk(w, k)
    ensures EnvironmentKeysOk(w) && DeksKept(v, w)
  {
    hide SameRows, KeysStay, DekOf;
    forall k | k in v.environmentKeys ensures EnvironmentKeyOk(w, k) && DekOf(w, k) == DekOf(v, k) {
      assert EnvironmentKeyOk(v, k);
      DekCarries(v, w, k);
    }
  }

  lemma AddsSecrets(v: Vault, w: Vault)
    requires Sound(v) && Adds(v, w) && KeysStay(v, w)
    ensures SecretsOk(w) && Values(w) == Values(v)
  {
    hide SameRows, KeysStay, SecretOk, ValueOf, OwnersOk, ProjectKeysOk, EnvironmentKeysOk, IdsDistinct;
    forall k | k in w.secrets ensures SecretOk(w, k) && ValueOf(w, k) == ValueOf(v, k) {
      SecretHasKey(v, k);
      SecretCarries(v, w, k);
    }
  }

  lemma AddsKeeps(v: Vault, w: Vault)
    requires Sound(v) && Adds(v, w) && OwnersOk(w)
    requires forall k :: k in w.projectKeys && k !in v.projectKeys ==> ProjectKeyOk(w, k)
    requires forall k :: k in w.environmentKeys && k !in v.environmentKeys ==> EnvironmentKeyOk(w, k)
    ensures Kept(v, w) && Values(w) == Values(v)
  {
    assert KeysStay(v, w);
    hide OwnersOk, ProjectKeysOk, EnvironmentKeysOk, SecretsOk, IdsDistinct, ProjectKeyOk, EnvironmentKeyOk, Values, DeksKept, KeysStay;
    AddsProjectKeys(v, w);
    AddsEnvironmentKeys(v, w);
    AddsSecrets(v, w);
  }

  lemma SecretHasKey(v: Vault, k: SecretName)
    requires Sound(v) && k in v.secrets
    ensures k.environmentId in v.environments && KeyId(k.environmentId, v.secrets[k].envKeyVersion) in v.environmentKeys
    ensures v.secrets[k].envKeyVersion == v.environments[k.environmentId].currentKeyVersion
  {
    assert SecretOk(v, k) && EnvironmentOk(v, k.environmentId);
  }

  lemma ProjectRowKeeps(v: Vault, id: string, slug: string)
    requires Sound(v) && id !in v.projects && UsableId(id)
    ensures var w := v.(projects := v.projects[id := Project(slug, 0)]); Kept(v, w) && Values(w) == Values(v)
  {
    var w := v.(projects := v.projects[id := Project(slug, 0)]);
    forall k | k in v.projectKeys ensures k.owner != id {
      assert ProjectKeyOk(v, k);
    }
    forall p | p in w.projects ensures ProjectOk(w, p) {
      assert p != id ==> ProjectOk(v, p);
    }
    forall e | e in w.environments ensures EnvironmentOk(w, e) {
      assert EnvironmentOk(v, e);
    }
    AddsKeeps(v, w);
  }

  lemma ProjectKeyKeeps(v: Vault, project: string, version: nat, key: Key, nonce: nat)
    requires Sound(v) && project in v.projects && version != 0 && KeyId(project, version) !in v.projectKeys
    ensures var active := v.keyring.activeVersion;
            var w := InsertProjectKey(v, KeyId(project, version),
                                      WrapProjectKey(v.keyring.keys[active], key, nonce, project, version, active));
            && Kept(v, w) && Values(w) == Values(v) && UnwrapProjectKeyVersion(w, project, version) == Ok(key)
  {
    var active := v.keyring.activeVersion;
    var w := InsertProjectKey(v, KeyId(project, version),
                              WrapProjectKey(v.keyring.keys[active], key, nonce, project, version, active));
    assert UnwrapProjectKeyVersion(w, project, version) == Ok(key);
    forall p | p in w.projects ensures ProjectOk(w, p) {
      assert ProjectOk(v, p);
    }
    forall e | e in w.environments ensures EnvironmentOk(w, e) {
      assert EnvironmentOk(v, e);
    }
    AddsKeeps(v, w);
  }

  lemma ProjectVersionKeeps(v: Vault, project: string, version: nat)
    requires Sound(v) && project in v.projects && KeyId(project, version) in v.projectKeys
    requires v.projects[project].currentKeyVersion <= version
    ensures var w := SetProjectVersion(v, project, version); Kept(v, w) && Values(w) == Values(v)
  {
    var w := SetProjectVersion(v, project, version);
    forall p | p in w.projects ensures ProjectOk(w, p) {
      assert ProjectOk(v, p);
    }
    forall e | e in w.environments ensures EnvironmentOk(w, e) {
      assert EnvironmentOk(v, e);
    }
    AddsKeeps(v, w);
  }

  lemma EnvironmentRowKeeps(v: Vault, id: string, project: string, slug: string, keyMode: KeyMode)
    requires Sound(v) && id !in v.environments && UsableId(id) && project in v.projects
    ensures var w := v.(environments := v.environments[id := VaultEnvironment(project, slug, keyMode, 0)]);
            Kept(v, w) && Values(w) == Values(v)
  {
    var w := v.(environments := v.environments[id := VaultEnvironment(project, slug, keyMode, 0)]);
    forall k | k in v.environmentKeys ensures k.owner != id {
      assert EnvironmentKeyOk(v, k);
    }
    forall p | p in w.projects ensures ProjectOk(w, p) {
      assert ProjectOk(v, p);
    }
    forall e | e in w.environments ensures EnvironmentOk(w, e) {
      assert e != id ==> EnvironmentOk(v, e);
    }
    AddsKeeps(v, w);
  }

  lemma MoreKeysOwners(v: Vault, w: Vault)
    requires OwnersOk(v) && w.projects == v.projects && w.environments == v.environments
    requires v.projectKeys.Keys <= w.projectKeys.Keys && v.environmentKeys.Keys <= w.environmentKeys.Keys
    requires forall k :: k in w.projectKeys && k !in v.projectKeys ==> k.version != 0
    requires forall k :: k in w.environmentKeys && k !in v.environmentKeys ==> k.version != 0
    ensures OwnersOk(w)
  {
    forall p | p in w.projects ensures ProjectOk(w, p) {
      assert ProjectOk(v, p);
    }
    forall e | e in w.environments ensures EnvironmentOk(w, e) {
      assert EnvironmentOk(v, e);
    }
  }

  lemma WrappedKeyOpens(v: Vault, w: Vault, environment: string, version: nat, key: Key, nonce: nat, projectKeyVersion: nat)
    requires ProjectKeysOk(v) && environment in v.environments
    requires UnwrapProjectKeyVersion(v, v.environments[environment].projectId, projectKeyVersion).Ok?
    requires var project := v.environments[environment].projectId;
             w == InsertEnvironmentKey(v, KeyId(environment, version),
                    WrapEnvironmentKey(UnwrapProjectKeyVersion(v, project, projectKeyVersion).value, key, nonce, project,
                                       environment, version, projectKeyVersion))
    ensures DekOf(w, KeyId(environment, version)) == Ok(key)
  {
    var k := KeyId(v.environments[environment].projectId, projectKeyVersion);
    assert UnwrapProjectKeyVersion(w, k.owner, k.version) == UnwrapProjectKeyVersion(v, k.owner, k.version);
  }

  /** A fresh environment key, wrapped by a project key version that unwraps. */
  lemma EnvironmentKeyKeeps(v: Vault, environment: string, version: nat, key: Key, nonce: nat, projectKeyVersion: nat)
    requires Sound(v) && environment in v.environments && v.environments[environment].keyMode == CLOUD
    requires version != 0 && KeyId(environment, version) !in v.environmentKeys
    requires v.environments[environment].projectId in v.projects
    requires v.projects[v.environments[environment].projectId].currentKeyVersion != 0
    requires UnwrapProjectKeyVersion(v, v.environments[environment].projectId, projectKeyVersion).Ok?
    ensures var project := v.environments[environment].projectId;
            var projectKey := UnwrapProjectKeyVersion(v, project, projectKeyVersion).value;
            var w := InsertEnvironmentKey(v, KeyId(environment, version),
                       WrapEnvironmentKey(projectKey, key, nonce, project, environment, version, projectKeyVersion));
            Kept(v, w) && Values(w) == Values(v) && DekOf(w, KeyId(environment, version)) == Ok(key)
  {
    hide DekOf, UnwrapProjectKeyVersion, WrapEnvironmentKey, OwnersOk, SecretsOk, EnvironmentKeysOk, ProjectKeysOk, IdsDistinct,
      Values, DeksKept;
    var project := v.environments[environment].projectId;
    var projectKey := UnwrapProjectKeyVersion(v, project, projectKeyVersion).value;
    var w := InsertEnvironmentKey(v, KeyId(environment, version),
               WrapEnvironmentKey(projectKey, key, nonce, project, environment, version, projectKeyVersion));
    WrappedKeyOpens(v, w, environment, version, key, nonce, projectKeyVersion);
    MoreKeysOwners(v, w);
    AddsKeeps(v, w);
  }

  /** A secret row rewritten for the next key: same secret, same value, sealed under that key. */
  predicate Moved(v: Vault, k: SecretName, secret: Secret, dek: Key, version: nat)
    requires k in v.secrets && k.environmentId in v.environments
  {
    && secret.id == v.secrets[k].id && secret.version == v.secrets[k].version && secret.envKeyVersion == version
    && OpenSecret(dek, secret, SecretAadOf(v, k, secret)) == ValueOf(v, k)
  }

  lemma SwitchOwners(v: Vault, w: Vault, environment: string, previous: nat, next: nat)
    requires OwnersOk(v) && environment in v.environments && next != 0 && KeyId(environment, next) in v.environmentKeys
    requires w == SwitchCurrentEnvironmentKey(v.(secrets := w.secrets), environment, previous, next)
    ensures OwnersOk(w)
  {
    forall p | p in w.projects ensures ProjectOk(w, p) {
      assert ProjectOk(v, p);
    }
    forall e | e in w.environments ensures EnvironmentOk(w, e) {
      assert EnvironmentOk(v, e);
    }
  }

  lemma SwitchKeys(v: Vault, w: Vault, environment: string, previous: nat, next: nat)
    requires ProjectKeysOk(v) && EnvironmentKeysOk(v) && environment in v.environments
    requires w == SwitchCurrentEnvironmentKey(v.(secrets := w.secrets), environment, previous, next)
    ensures ProjectKeysOk(w) && EnvironmentKeysOk(w) && DeksKept(v, w) && SameRows(v, w) && KeysStay(v, w)
  {
    hide DekOf, UnwrapProjectKeyVersion;
    assert KeysStay(v, w) && SameRows(v, w);
    forall k | k in w.projectKeys ensures ProjectKeyOk(w, k) {
      assert ProjectKeyOk(v, k);
      ProjectKeyCarries(v, w, k);
    }
    forall k | k in v.environmentKeys ensures EnvironmentKeyOk(w, k) && DekOf(w, k) == DekOf(v, k) {
      assert EnvironmentKeyOk(v, k);
      DekCarries(v, w, k);
    }
  }

  predicate MovedAll(v: Vault, environment: string, next: nat, secrets: map<SecretName, Secret>)
    requires SecretsOk(v) && DekOf(v, KeyId(environment, next)).Ok?
  {
    && secrets.Keys == v.secrets.Keys
    && forall k :: k in v.secrets ==>
         if k.environmentId == environment then Moved(v, k, secrets[k], DekOf(v, KeyId(environment, next)).value, next)
         else secrets[k] == v.secrets[k]
  }

  lemma SameValues(v: Vault, w: Vault)
    requires w.secrets.Keys == v.secrets.Keys
    requires forall k :: k in v.secrets ==> ValueOf(w, k) == ValueOf(v, k)
    ensures Values(w) == Values(v)
  {
    hide ValueOf;
    assert Values(w).Keys == Values(v).Keys;
    assert forall k :: k in Values(v) ==> Values(w)[k] == Values(v)[k];
  }

  lemma SwitchSecret(v: Vault, w: Vault, environment: string, previous: nat, next: nat, k: SecretName)
    requires Sound(v) && environment in v.environments && next != 0 && KeyId(environment, next) in v.environmentKeys
    requires DekOf(v, KeyId(environment, next)).Ok? && MovedAll(v, environment, next, w.secrets)
    requires w == SwitchCurrentEnvironmentKey(v.(secrets := w.secrets), environment, previous, next)
    requires SameRows(v, w) && KeysStay(v, w) && DeksKept(v, w) && k in w.secrets
    ensures SecretOk(w, k) && ValueOf(w, k) == ValueOf(v, k)
  {
    hide OwnersOk, ProjectKeysOk, EnvironmentKeysOk, SameRows, KeysStay, SecretOk, ValueOf, DekOf, Moved, IdsDistinct;
    SecretHasKey(v, k);
    if k.environmentId == environment {
      assert SecretOk(v, k);
      MovedReads(v, w, k, next);
    } else {
      SecretCarries(v, w, k);
    }
  }

  lemma SwitchSecrets(v: Vault, w: Vault, environment: string, previous: nat, next: nat)
    requires Sound(v) && environment in v.environments && next != 0 && KeyId(environment, next) in v.environmentKeys
    requires DekOf(v, KeyId(environment, next)).Ok? && MovedAll(v, environment, next, w.secrets)
    requires w == SwitchCurrentEnvironmentKey(v.(secrets := w.secrets), environment, previous, next)
    ensures SecretsOk(w) && Values(w) == Values(v) && IdsDistinct(w.secrets)
  {
    SwitchKeys(v, w, environment, previous, next);
    assert w.secrets.Keys == v.secrets.Keys;
    hide OwnersOk, ProjectKeysOk, EnvironmentKeysOk, SameRows, KeysStay, SecretOk, ValueOf, DekOf, MovedAll, DeksKept,
      SwitchCurrentEnvironmentKey, Values;
    forall k | k in w.secrets
      ensures SecretOk(w, k) && ValueOf(w, k) == ValueOf(v, k) && w.secrets[k].id == v.secrets[k].id
    {
      SwitchSecret(v, w, environment, previous, next, k);
      MovedIds(v, environment, next, w.secrets, k);
    }
    SameValues(v, w);
  }

  /** The batch that ends a rotation (and, with no secrets, a creation). */
  lemma SwitchKeeps(v: Vault, environment: string, previous: nat, next: nat, secrets: map<SecretName, Secret>)
    requires Sound(v) && environment in v.environments && next != 0 && KeyId(environment, next) in v.environmentKeys
    requires DekOf(v, KeyId(environment, next)).Ok? && MovedAll(v, environment, next, secrets)
    ensures var w := SwitchCurrentEnvironmentKey(v.(secrets := secrets), environment, previous, next);
            Kept(v, w) && Values(w) == Values(v)
  {
    hide OwnersOk, ProjectKeysOk, EnvironmentKeysOk, SecretsOk, IdsDistinct, DekOf, Values, MovedAll, DeksKept;
    var w := SwitchCurrentEnvironmentKey(v.(secrets := secrets), environment, previous, next);
    SwitchOwners(v, w, environment, previous, next);
    SwitchKeys(v, w, environment, previous, next);
    SwitchSecrets(v, w, environment, previous, next);
  }

  lemma MovedIds(v: Vault, environment: string, next: nat, secrets: map<SecretName, Secret>, k: SecretName)
    requires SecretsOk(v) && DekOf(v, KeyId(environment, next)).Ok? && MovedAll(v, environment, next, secrets) && k in secrets
    ensures secrets[k].id == v.secrets[k].id
  {
  }

  lemma MovedReads(v: Vault, w: Vault, k: SecretName, next: nat)
    requires k in v.secrets && k in w.secrets && k.environmentId in v.environments && k.environmentId in w.environments
    requires DekOf(v, KeyId(k.environmentId, next)).Ok? && DekOf(w, KeyId(k.environmentId, next)) == DekOf(v, KeyId(k.environmentId, next))
    requires Moved(v, k, w.secrets[k], DekOf(v, KeyId(k.environmentId, next)).value, next)
    requires w.environments[k.environmentId] == v.environments[k.environmentId].(currentKeyVersion := next) && next != 0
    requires SecretOk(v, k)
    ensures SecretOk(w, k) && ValueOf(w, k) == ValueOf(v, k)
  {
  }

  // ------------------------------------------------------------------ the project rotation's batch

  /** The state after the batch, from the one the new project key row was inserted into. */
  function RewrapBatch(v: Vault, one: Vault, project: string, key: Key, version: nat, next: nat, nonces: map<KeyId, nat>): Vault
    requires project in one.projects && KeyId(project, version) in one.projectKeys
    requires forall k :: k in KeysOf(v, project) ==> DekOf(v, k).Ok?
  {
    SetProjectVersion(
      one.(environmentKeys := RewrapAll(v, project, key, next, nonces),
           projectKeys := one.projectKeys[KeyId(project, version) := one.projectKeys[KeyId(project, version)].(retired := true)]),
      project, next)
  }

  /** What the batch is run against: a sound vault plus one fresh project key row. */
  predicate Rewraps(v: Vault, one: Vault, project: string, key: Key, version: nat, next: nat) {
    && Sound(v) && Sound(one) && project in v.projects && version < next && KeyId(project, version) in v.projectKeys
    && KeyId(project, next) in one.projectKeys && UnwrapProjectKeyVersion(one, project, next) == Ok(key)
    && one == v.(projectKeys := one.projectKeys) && v.projectKeys.Keys <= one.projectKeys.Keys
    && (forall k :: k in v.projectKeys ==> one.projectKeys[k] == v.projectKeys[k])
    && v.projects[project].currentKeyVersion == version
  }

  lemma KeysOfUnwrap(v: Vault, project: string)
    requires EnvironmentKeysOk(v)
    ensures forall k :: k in KeysOf(v, project) ==> DekOf(v, k).Ok?
  {
    forall k | k in KeysOf(v, project) ensures DekOf(v, k).Ok? {
      assert EnvironmentKeyOk(v, k);
    }
  }

  lemma RewrapProjectKeys(v: Vault, one: Vault, w: Vault, project: string, key: Key, version: nat, next: nat, k: KeyId)
    requires Rewraps(v, one, project, key, version, next) && k in one.projectKeys
    requires w.keyring == v.keyring && w.projects.Keys == v.projects.Keys
    requires w.projectKeys == one.projectKeys[KeyId(project, version) := one.projectKeys[KeyId(project, version)].(retired := true)]
    ensures k in w.projectKeys && ProjectKeyOk(w, k)
    ensures UnwrapProjectKeyVersion(w, k.owner, k.version) == UnwrapProjectKeyVersion(one, k.owner, k.version)
    ensures k in v.projectKeys ==> UnwrapProjectKeyVersion(w, k.owner, k.version) == UnwrapProjectKeyVersion(v, k.owner, k.version)
  {
    assert ProjectKeyOk(one, k);
    assert KeyId(k.owner, k.version) == k;
  }

  /** A rewrapped key, retired or not, unwraps to the key it was. */
  lemma RewrapDek(v: Vault, one: Vault, project: string, key: Key, version: nat, next: nat, nonces: map<KeyId, nat>, k: KeyId)
    requires Rewraps(v, one, project, key, version, next) && k in v.environmentKeys
    requires forall j :: j in KeysOf(v, project) ==> DekOf(v, j).Ok?
    ensures var w := RewrapBatch(v, one, project, key, version, next, nonces);
            EnvironmentKeyOk(w, k) && DekOf(w, k) == DekOf(v, k)
  {
    hide OwnersOk, ProjectKeysOk, SecretsOk, IdsDistinct, EnvironmentKeysOk, UnwrapProjectKeyVersion, EnvironmentKeyAad;
    var w := RewrapBatch(v, one, project, key, version, next, nonces);
    assert EnvironmentKeyOk(v, k) by {
      SoundKeys(v, k);
    }
    var owner, row := v.environments[k.owner].projectId, v.environmentKeys[k];
    if k in KeysOf(v, project) {
      RewrapProjectKeys(v, one, w, project, key, version, next, KeyId(project, next));
      assert w.environmentKeys[k] == Rewrapped(v, k, key, next, if k in nonces then nonces[k] else 0);
    } else {
      DekNeedsProjectKey(v, k);
      RewrapProjectKeys(v, one, w, project, key, version, next, KeyId(owner, row.projectKeyVersion));
      assert w.environmentKeys[k] == row;
    }
  }

  lemma SoundKeys(v: Vault, k: KeyId)
    requires EnvironmentKeysOk(v) && k in v.environmentKeys
    ensures EnvironmentKeyOk(v, k)
  {
  }

  lemma DekNeedsProjectKey(v: Vault, k: KeyId)
    requires k in v.environmentKeys && k.owner in v.environments && DekOf(v, k).Ok?
    ensures KeyId(v.environments[k.owner].projectId, v.environmentKeys[k].projectKeyVersion) in v.projectKeys
  {
  }

  lemma SecretByDek(v: Vault, w: Vault, k: SecretName)
    requires Sound(v) && k in v.secrets && k in w.secrets && w.secrets[k] == v.secrets[k]
    requires k.environmentId in w.environments && w.environments[k.environmentId] == v.environments[k.environmentId]
    requires DekOf(w, KeyId(k.environmentId, v.secrets[k].envKeyVersion)) == DekOf(v, KeyId(k.environmentId, v.secrets[k].envKeyVersion))
    ensures SecretOk(w, k) && ValueOf(w, k) == ValueOf(v, k)
  {
    assert SecretOk(v, k);
    ValueCarries(v, w, k);
  }

  lemma RewrapOwners(v: Vault, one: Vault, project: string, key: Key, version: nat, next: nat, nonces: map<KeyId, nat>)
    requires Rewraps(v, one, project, key, version, next)
    requires forall k :: k in KeysOf(v, project) ==> DekOf(v, k).Ok?
    ensures OwnersOk(RewrapBatch(v, one, project, key, version, next, nonces))
  {
    hide ProjectKeysOk, EnvironmentKeysOk, SecretsOk, IdsDistinct, DekOf, UnwrapProjectKeyVersion;
    var w := RewrapBatch(v, one, project, key, version, next, nonces);
    assert w.environmentKeys.Keys == v.environmentKeys.Keys && w.projectKeys.Keys == one.projectKeys.Keys;
    forall p | p in w.projects ensures ProjectOk(w, p) {
      assert ProjectOk(one, p);
    }
    forall e | e in w.environments ensures EnvironmentOk(w, e) {
      assert EnvironmentOk(v, e);
    }
  }

  lemma RewrapKeeps(v: Vault, one: Vault, project: string, key: Key, version: nat, next: nat, nonces: map<KeyId, nat>)
    requires Rewraps(v, one, project, key, version, next)
    requires forall k :: k in KeysOf(v, project) ==> DekOf(v, k).Ok?
    ensures var w := RewrapBatch(v, one, project, key, version, next, nonces); Kept(v, w) && Values(w) == Values(v)
  {
    hide OwnersOk, ProjectKeysOk, EnvironmentKeysOk, SecretsOk, IdsDistinct, DekOf, ProjectKeyOk, EnvironmentKeyOk, SecretOk, ValueOf,
      Values, UnwrapProjectKeyVersion;
    var w := RewrapBatch(v, one, project, key, version, next, nonces);
    RewrapOwners(v, one, project, key, version, next, nonces);
    assert w.environmentKeys.Keys == v.environmentKeys.Keys && w.projectKeys.Keys == one.projectKeys.Keys;
    forall k | k in w.projectKeys ensures ProjectKeyOk(w, k) {
      RewrapProjectKeys(v, one, w, project, key, version, next, k);
    }
    forall k | k in v.environmentKeys ensures EnvironmentKeyOk(w, k) && DekOf(w, k) == DekOf(v, k) {
      RewrapDek(v, one, project, key, version, next, nonces, k);
    }
    forall k | k in w.secrets ensures SecretOk(w, k) && ValueOf(w, k) == ValueOf(v, k) {
      SecretHasKey(v, k);
      SecretByDek(v, w, k);
    }
    RewrapAssembles(v, w);
  }

  /** Row by row soundness is soundness. */
  lemma RewrapAssembles(v: Vault, w: Vault)
    requires Sound(v) && OwnersOk(w) && w.keyring == v.keyring && w.secrets == v.secrets
    requires w.environmentKeys.Keys == v.environmentKeys.Keys
    requires forall k :: k in w.projectKeys ==> ProjectKeyOk(w, k)
    requires forall k :: k in v.environmentKeys ==> EnvironmentKeyOk(w, k) && DekOf(w, k) == DekOf(v, k)
    requires forall k :: k in w.secrets ==> SecretOk(w, k) && ValueOf(w, k) == ValueOf(v, k)
    ensures Kept(v, w) && Values(w) == Values(v)
  {
    hide OwnersOk, DekOf, ProjectKeyOk, EnvironmentKeyOk, SecretOk, ValueOf, Values;
    SameValues(v, w);
  }

  // ------------------------------------------------------------------ removals, keyring, secrets

  /** A cascading delete: some owners go, and exactly the rows they own. */
  predicate Removes(v: Vault, w: Vault) {
    && w.keyring == v.keyring
    && w.projects.Keys <= v.projects.Keys && (forall p :: p in w.projects ==> w.projects[p] == v.projects[p])
    && w.environments.Keys <= v.environments.Keys
    && (forall e :: e in w.environments ==> w.environments[e] == v.environments[e] && v.environments[e].projectId in w.projects)
    && w.projectKeys == (map k | k in v.projectKeys && k.owner in w.projects :: v.projectKeys[k])
    && w.environmentKeys == (map k | k in v.environmentKeys && k.owner in w.environments :: v.environmentKeys[k])
    && w.secrets == (map k | k in v.secrets && k.environmentId in w.environments :: v.secrets[k])
  }

  lemma RemovesOwners(v: Vault, w: Vault)
    requires OwnersOk(v) && Removes(v, w)
    ensures OwnersOk(w)
  {
    forall p | p in w.projects ensures ProjectOk(w, p) {
      assert ProjectOk(v, p);
    }
    forall e | e in w.environments ensures EnvironmentOk(w, e) {
      assert EnvironmentOk(v, e);
    }
  }

  lemma RemovesKeys(v: Vault, w: Vault)
    requires ProjectKeysOk(v) && EnvironmentKeysOk(v) && Removes(v, w)
    ensures ProjectKeysOk(w) && EnvironmentKeysOk(w) && DeksKept(v, w) && SameRows(v, w) && KeysStay(v, w)
  {
    hide DekOf, UnwrapProjectKeyVersion;
    assert KeysStay(v, w) && SameRows(v, w);
    forall k | k in w.projectKeys ensures ProjectKeyOk(w, k) {
      assert ProjectKeyOk(v, k);
      ProjectKeyCarries(v, w, k);
    }
    forall k | k in w.environmentKeys ensures EnvironmentKeyOk(w, k) && DekOf(w, k) == DekOf(v, k) {
      assert EnvironmentKeyOk(v, k);
      DekCarries(v, w, k);
    }
  }

  lemma ValuesAre(w: Vault, expected: map<SecretName, string>)
    requires SecretsOk(w) && expected.Keys == w.secrets.Keys
    requires forall k :: k in w.secrets ==> ValueOf(w, k) == Some(expected[k])
    ensures Values(w) == expected
  {
    hide ValueOf, SecretOk;
    assert forall k :: k in w.secrets ==> SecretOk(w, k);
    assert Values(w).Keys == expected.Keys;
    assert forall k :: k in w.secrets ==> Values(w)[k] == expected[k];
  }

  lemma ValuesAt(v: Vault)
    requires SecretsOk(v)
    ensures Values(v).Keys == v.secrets.Keys
    ensures forall k :: k in v.secrets ==> ValueOf(v, k) == Some(Values(v)[k])
  {
    hide ValueOf;
    assert forall k :: k in v.secrets ==> SecretOk(v, k);
  }

  lemma SoundValues(v: Vault)
    requires Sound(v)
    ensures Values(v).Keys == v.secrets.Keys
    ensures forall k :: k in v.secrets ==> ValueOf(v, k) == Some(Values(v)[k])
  {
    ValuesAt(v);
  }

  function Restricted(values: map<SecretName, string>, environments: set<string>): map<SecretName, string> {
    map k | k in values && k.environmentId in environments :: values[k]
  }

  lemma RemovesSecrets(v: Vault, w: Vault)
    requires Sound(v) && Removes(v, w) && SameRows(v, w) && KeysStay(v, w)
    ensures SecretsOk(w) && Values(w) == Restricted(Values(v), w.environments.Keys)
  {
    hide OwnersOk, ProjectKeysOk, EnvironmentKeysOk, SameRows, KeysStay, SecretOk, ValueOf, DekOf, Values, IdsDistinct;
    ValuesAt(v);
    forall k | k in w.secrets ensures SecretOk(w, k) && ValueOf(w, k) == ValueOf(v, k) {
      SecretHasKey(v, k);
      SecretCarries(v, w, k);
    }
    ValuesAre(w, Restricted(Values(v), w.environments.Keys));
  }

  lemma RemovesKeeps(v: Vault, w: Vault)
    requires Sound(v) && Removes(v, w)
    ensures Kept(v, w) && Values(w) == Restricted(Values(v), w.environments.Keys)
  {
    RemovesOwners(v, w);
    RemovesKeys(v, w);
    assert IdsDistinct(w.secrets);
    hide OwnersOk, ProjectKeysOk, EnvironmentKeysOk, SecretsOk, SameRows, KeysStay, DeksKept, Values, IdsDistinct;
    RemovesSecrets(v, w);
  }

  /** Foreign keys: every row's owner exists. */
  lemma RowsHaveOwners(v: Vault)
    requires Sound(v)
    ensures forall e :: e in v.environments ==> v.environments[e].projectId in v.projects
    ensures forall k :: k in v.projectKeys ==> k.owner in v.projects
    ensures forall k :: k in v.environmentKeys ==> k.owner in v.environments
    ensures forall k :: k in v.secrets ==> k.environmentId in v.environments
  {
    hide DekOf, UnwrapProjectKeyVersion, ValueOf, IdsDistinct;
    assert forall e :: e in v.environments ==> EnvironmentOk(v, e);
    assert forall k :: k in v.projectKeys ==> ProjectKeyOk(v, k);
    assert forall k :: k in v.environmentKeys ==> EnvironmentKeyOk(v, k);
    assert forall k :: k in v.secrets ==> SecretOk(v, k);
  }

  lemma DeleteEnvironmentRemoves(v: Vault, environment: string)
    requires Sound(v)
    ensures Removes(v, WithoutEnvironments(v, {environment}))
  {
    hide Sound;
    RowsHaveOwners(v);
    var w := WithoutEnvironments(v, {environment});
    assert w.projectKeys == map k | k in v.projectKeys && k.owner in w.projects :: v.projectKeys[k];
    assert w.environmentKeys == map k | k in v.environmentKeys && k.owner in w.environments :: v.environmentKeys[k];
    assert w.secrets == map k | k in v.secrets && k.environmentId in w.environments :: v.secrets[k];
  }

  lemma DeleteProjectRemoves(v: Vault, project: string)
    requires Sound(v) && project in v.projects
    ensures Removes(v, DeleteProject(v, project).0)
  {
    hide Sound;
    RowsHaveOwners(v);
    var w := DeleteProject(v, project).0;
    assert w.projectKeys == map k | k in v.projectKeys && k.owner in w.projects :: v.projectKeys[k];
    assert w.environmentKeys == map k | k in v.environmentKeys && k.owner in w.environments :: v.environmentKeys[k];
    assert w.secrets == map k | k in v.secrets && k.environmentId in w.environments :: v.secrets[k];
  }

  lemma AddMasterKeyKeeps(v: Vault, version: nat, key: Key, activate: bool)
    requires Sound(v)
    ensures var w := AddMasterKey(v, version, key, activate); Kept(v, w) && Abs(w) == Abs(v)
  {
    hide ProjectKeysOk, EnvironmentKeysOk, SecretsOk, IdsDistinct, Values, DeksKept, OwnersOk;
    var w := AddMasterKey(v, version, key, activate);
    MoreKeysOwners(v, w);
    AddsKeeps(v, w);
  }

  /** One secret row replaced or added, sealed under the environment's current key. */
  predicate Sealing(v: Vault, at: SecretName, secret: Secret, value: string) {
    && at.environmentId in v.environments && v.environments[at.environmentId].keyMode == CLOUD
    && v.environments[at.environmentId].currentKeyVersion != 0
    && secret.envKeyVersion == v.environments[at.environmentId].currentKeyVersion && secret.version >= 1
    && ValidSecretName(at.name) && UsableId(secret.id)
    && (forall k :: k in v.secrets && k != at ==> v.secrets[k].id != secret.id)
    && DekOf(v, KeyId(at.environmentId, secret.envKeyVersion)).Ok?
    && OpenSecret(DekOf(v, KeyId(at.environmentId, secret.envKeyVersion)).value, secret, SecretAadOf(v, at, secret)) == Some(value)
  }

  lemma SealReads(v: Vault, at: SecretName, secret: Secret, value: string, k: SecretName)
    requires Sound(v) && Sealing(v, at, secret, value)
    requires k == at || k in v.secrets
    ensures var w := v.(secrets := v.secrets[at := secret]);
            SecretOk(w, k) && ValueOf(w, k) == if k == at then Some(value) else ValueOf(v, k)
  {
    hide OwnersOk, ProjectKeysOk, EnvironmentKeysOk, SecretsOk, IdsDistinct, DekOf, OpenSecret, SecretAad;
    var w := v.(secrets := v.secrets[at := secret]);
    DekIgnoresSecrets(v, w, KeyId(k.environmentId, w.secrets[k].envKeyVersion));
    if k != at {
      SecretHasKey(v, k);
      SecretByDek(v, w, k);
    }
  }

  lemma SealedIdsDistinct(v: Vault, at: SecretName, secret: Secret, value: string)
    requires IdsDistinct(v.secrets) && Sealing(v, at, secret, value)
    ensures IdsDistinct(v.secrets[at := secret])
  {
  }

  lemma SealKeeps(v: Vault, at: SecretName, secret: Secret, value: string)
    requires Sound(v) && Sealing(v, at, secret, value)
    ensures var w := v.(secrets := v.secrets[at := secret]);
            Kept(v, w) && Values(w) == Values(v)[at := value]
  {
    hide OwnersOk, ProjectKeysOk, EnvironmentKeysOk, DeksKept, DekOf, Values, ValueOf, SecretOk, Sealing, IdsDistinct;
    var w := v.(secrets := v.secrets[at := secret]);
    SealedIdsDistinct(v, at, secret, value);
    SecretsOnly(v, w);
    ValuesAt(v);
    forall k | k in w.secrets
      ensures SecretOk(w, k) && ValueOf(w, k) == if k == at then Some(value) else ValueOf(v, k)
    {
      SealReads(v, at, secret, value, k);
    }
    ValuesAre(w, Values(v)[at := value]);
  }

  lemma DekIgnoresSecrets(v: Vault, w: Vault, k: KeyId)
    requires w == v.(secrets := w.secrets)
    ensures DekOf(w, k) == DekOf(v, k)
  {
  }

  lemma SecretsOnly(v: Vault, w: Vault)
    requires Sound(v) && w == v.(secrets := w.secrets)
    ensures OwnersOk(w) && ProjectKeysOk(w) && EnvironmentKeysOk(w) && DeksKept(v, w)
  {
    assert forall p :: p in v.projects ==> ProjectOk(v, p);
    assert forall e :: e in v.environments ==> EnvironmentOk(v, e);
    forall k | k in w.projectKeys ensures ProjectKeyOk(w, k) {
      assert ProjectKeyOk(v, k);
    }
    forall k | k in w.environmentKeys ensures EnvironmentKeyOk(w, k) && DekOf(w, k) == DekOf(v, k) {
      assert EnvironmentKeyOk(v, k);
      DekIgnoresSecrets(v, w, k);
    }
  }

  lemma DeleteSecretKeeps(v: Vault, at: SecretName)
    requires Sound(v)
    ensures var w := v.(secrets := v.secrets - {at}); Kept(v, w) && Values(w) == Values(v) - {at}
  {
    var w := v.(secrets := v.secrets - {at});
    assert IdsDistinct(w.secrets);
    hide OwnersOk, ProjectKeysOk, EnvironmentKeysOk, DeksKept, DekOf, Values, ValueOf, SecretOk, IdsDistinct;
    SecretsOnly(v, w);
    ValuesAt(v);
    forall k | k in w.secrets ensures SecretOk(w, k) && ValueOf(w, k) == ValueOf(v, k) {
      DekIgnoresSecrets(v, w, KeyId(k.environmentId, v.secrets[k].envKeyVersion));
      SecretHasKey(v, k);
      SecretByDek(v, w, k);
    }
    ValuesAre(w, Values(v) - {at});
  }
}
