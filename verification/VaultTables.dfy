/** The encrypted vault over values: five D1 tables, the master keyring, and every operation as the effect of
    its writes. `done` says how many of an operation's writes D1 performs before it fails. */
module VaultTables {
  import opened Ideal
  import opened Protocol
  import opened AadText
  import Base64Url

  const SECRET_VALUE_MAX_BYTES := 64 * 1024

  datatype VaultError = InputError(field: string) | ProjectKeyMissing | EnvironmentKeyMissing | MasterKeyMissing
                      | UnwrapFailed | DatabaseError

  datatype Result<+T> = Ok(value: T) | Err(error: VaultError)

  datatype Keyring = Keyring(activeVersion: nat, keys: map<nat, Key>)

  /** A versioned key of a project or an environment. */
  datatype KeyId = KeyId(owner: string, version: nat)

  datatype SecretName = SecretName(environmentId: string, name: string)

  datatype Project = Project(slug: string, currentKeyVersion: nat)
  datatype ProjectKey = ProjectKey(masterKeyVersion: nat, nonce: nat, wrappedKey: Sealed, retired: bool)
  datatype VaultEnvironment = VaultEnvironment(projectId: string, slug: string, keyMode: KeyMode, currentKeyVersion: nat)
  datatype EnvironmentKey = EnvironmentKey(projectKeyVersion: nat, nonce: nat, wrappedKey: Sealed, retired: bool)
  datatype Secret = Secret(id: string, version: nat, envKeyVersion: nat, nonce: nat, ciphertext: Sealed)

  datatype Vault = Vault(
    keyring: Keyring, projects: map<string, Project>, projectKeys: map<KeyId, ProjectKey>,
    environments: map<string, VaultEnvironment>, environmentKeys: map<KeyId, EnvironmentKey>,
    secrets: map<SecretName, Secret>)

  // ------------------------------------------------------------------ unwrapping

  function OpenKey(key: Key, nonce: nat, box: Sealed, aad: string): Result<Key> {
    match Open(key, nonce, box, aad)
    case Some(KeyBytes(inner)) => Ok(inner)
    case _ => Err(UnwrapFailed)
  }

  function UnwrapProjectKeyVersion(v: Vault, project: string, version: nat): Result<Key> {
    if KeyId(project, version) !in v.projectKeys then Err(ProjectKeyMissing)
    else
      var row := v.projectKeys[KeyId(project, version)];
      if row.masterKeyVersion !in v.keyring.keys then Err(MasterKeyMissing)
      else OpenKey(v.keyring.keys[row.masterKeyVersion], row.nonce, row.wrappedKey,
                   ProjectKeyAad(project, version, row.masterKeyVersion))
  }

  /** The project's current key; a project whose creation stopped half-way has none. */
  function UnwrapProjectKey(v: Vault, project: string): Result<Key> {
    if project !in v.projects then Err(ProjectKeyMissing)
    else UnwrapProjectKeyVersion(v, project, v.projects[project].currentKeyVersion)
  }

  /** The key a stored environment key row holds, current or retired. */
  function DekOf(v: Vault, id: KeyId): Result<Key> {
    if id.owner !in v.environments || id !in v.environmentKeys then Err(EnvironmentKeyMissing)
    else
      var project, row := v.environments[id.owner].projectId, v.environmentKeys[id];
      var projectKey := UnwrapProjectKeyVersion(v, project, row.projectKeyVersion);
      if projectKey.Err? then projectKey
      else OpenKey(projectKey.value, row.nonce, row.wrappedKey,
                   EnvironmentKeyAad(project, id.owner, id.version, row.projectKeyVersion))
  }

  /** Master to project to environment, for the environment's current version. */
  function UnwrapEnvironmentDek(v: Vault, environment: string): Result<Key> {
    if environment !in v.environments || v.environments[environment].keyMode == COLD then Err(EnvironmentKeyMissing)
    else DekOf(v, KeyId(environment, v.environments[environment].currentKeyVersion))
  }

  function SecretAadOf(v: Vault, at: SecretName, secret: Secret): string
    requires at.environmentId in v.environments
  {
    SecretAad(v.environments[at.environmentId].projectId, at.environmentId, secret.id, at.name, secret.version,
              secret.envKeyVersion)
  }

  function OpenSecret(dek: Key, secret: Secret, aad: string): Option<string> {
    match Open(dek, secret.nonce, secret.ciphertext, aad)
    case Some(Text(value)) => Some(value)
    case _ => None
  }

  /** The value a stored secret decrypts to, through the whole hierarchy. */
  function ValueOf(v: Vault, at: SecretName): Option<string> {
    if at !in v.secrets || at.environmentId !in v.environments then None
    else
      var dek := DekOf(v, KeyId(at.environmentId, v.secrets[at].envKeyVersion));
      if dek.Err? then None else OpenSecret(dek.value, v.secrets[at], SecretAadOf(v, at, v.secrets[at]))
  }

  // ------------------------------------------------------------------ inputs

  predicate NameStart(c: char) {
    'A' <= c <= 'Z' || c == '_'
  }

  predicate NameChar(c: char) {
    NameStart(c) || '0' <= c <= '9'
  }

  predicate ValidSecretName(name: string) {
    1 <= |name| <= 256 && NameStart(name[0]) && forall i :: 0 <= i < |name| ==> NameChar(name[i])
  }

  /** Bytes of the UTF-8 encoding. */
  function Utf8Length(s: string): nat {
    if s == "" then 0
    else
      var c := s[0] as int;
      (if c < 0x80 then 1 else if c < 0x800 then 2 else if c < 0x10000 then 3 else 4) + Utf8Length(s[1..])
  }

  predicate ValidValue(value: string) {
    Utf8Length(value) <= SECRET_VALUE_MAX_BYTES
  }

  // ------------------------------------------------------------------ creating and deleting

  function WrapProjectKey(master: Key, key: Key, nonce: nat, project: string, version: nat, masterVersion: nat): ProjectKey {
    ProjectKey(masterVersion, nonce, Sealed(master, nonce, ProjectKeyAad(project, version, masterVersion), KeyBytes(key)), false)
  }

  function WrapEnvironmentKey(projectKey: Key, key: Key, nonce: nat, project: string, environment: string, version: nat,
                              projectKeyVersion: nat): EnvironmentKey {
    EnvironmentKey(projectKeyVersion, nonce,
                   Sealed(projectKey, nonce, EnvironmentKeyAad(project, environment, version, projectKeyVersion), KeyBytes(key)),
                   false)
  }

  predicate SlugTaken(v: Vault, slug: string) {
    exists p :: p in v.projects && v.projects[p].slug == slug
  }

  predicate EnvironmentSlugTaken(v: Vault, project: string, slug: string) {
    exists e :: e in v.environments && v.environments[e].projectId == project && v.environments[e].slug == slug
  }

  function InsertProjectKey(v: Vault, id: KeyId, row: ProjectKey): Vault {
    v.(projectKeys := v.projectKeys[id := row])
  }

  function InsertEnvironmentKey(v: Vault, id: KeyId, row: EnvironmentKey): Vault {
    v.(environmentKeys := v.environmentKeys[id := row])
  }

  function SetProjectVersion(v: Vault, project: string, version: nat): Vault
    requires project in v.projects
  {
    v.(projects := v.projects[project := v.projects[project].(currentKeyVersion := version)])
  }

  /** Three writes: the row, its first key, the current version. */
  function CreateProject(v: Vault, id: string, slug: string, key: Key, nonce: nat, done: nat): (Vault, Result<string>) {
    if SlugTaken(v, slug) then (v, Err(InputError("slug")))
    else if v.keyring.activeVersion !in v.keyring.keys then (v, Err(MasterKeyMissing))
    else if done == 0 || id in v.projects then (v, Err(DatabaseError))
    else
      var active := v.keyring.activeVersion;
      var one := v.(projects := v.projects[id := Project(slug, 0)]);
      var two := InsertProjectKey(one, KeyId(id, 1), WrapProjectKey(v.keyring.keys[active], key, nonce, id, 1, active));
      if done == 1 then (one, Err(DatabaseError))
      else if done == 2 then (two, Err(DatabaseError))
      else (SetProjectVersion(two, id, 1), Ok(id))
  }

  function SwitchCurrentEnvironmentKey(v: Vault, environment: string, previous: nat, next: nat): Vault
    requires environment in v.environments
  {
    v.(environmentKeys := map k | k in v.environmentKeys ::
                            if k == KeyId(environment, next) then v.environmentKeys[k].(retired := false)
                            else if k == KeyId(environment, previous) then v.environmentKeys[k].(retired := true)
                            else v.environmentKeys[k],
       environments := v.environments[environment := v.environments[environment].(currentKeyVersion := next)])
  }

  /** The public keys offered with a new environment. The two flags say whether the key libraries take the
      decoded bytes: an import for each, and for encryption one trial agreement. */
  datatype OwnerKeys =
    OwnerKeys(encryption: Option<string>, signing: Option<string>, encryptionUsable: bool, signingUsable: bool)

  const NO_OWNER := OwnerKeys(None, None, false, false)

  predicate Given(text: Option<string>) {
    text.Some? && text.value != ""
  }

  function OwnerKeyRefusal(field: string, text: string, usable: bool): Option<VaultError> {
    match Base64Url.Decode(text)
    case None => Some(InputError(field))
    case Some(bytes) => if |bytes| != 32 || !usable then Some(InputError(field)) else None
  }

  /** A CLOUD environment takes no owner keys; a COLD one needs both, well formed and usable. */
  function OwnerRefusal(keyMode: KeyMode, owner: OwnerKeys): Option<VaultError> {
    if keyMode == CLOUD then
      if owner.encryption.Some? || owner.signing.Some? then Some(InputError("keyMode")) else None
    else if !Given(owner.encryption) || !Given(owner.signing) then Some(InputError("keyMode"))
    else
      var refusal := OwnerKeyRefusal("ownerEncryptionPublicKey", owner.encryption.value, owner.encryptionUsable);
      if refusal.Some? then refusal else OwnerKeyRefusal("ownerSigningPublicKey", owner.signing.value, owner.signingUsable)
  }

  /** A COLD environment is one write and gets no key here; a CLOUD one is three. */
  function CreateEnvironment(v: Vault, id: string, project: string, slug: string, keyMode: KeyMode, owner: OwnerKeys, key: Key,
                             nonce: nat, done: nat): (Vault, Result<string>) {
    if project !in v.projects then (v, Err(InputError("projectId")))
    else if EnvironmentSlugTaken(v, project, slug) then (v, Err(InputError("slug")))
    else if OwnerRefusal(keyMode, owner).Some? then (v, Err(OwnerRefusal(keyMode, owner).value))
    else
      var one := v.(environments := v.environments[id := VaultEnvironment(project, slug, keyMode, 0)]);
      if keyMode == COLD then if done == 0 || id in v.environments then (v, Err(DatabaseError)) else (one, Ok(id))
      else
        var projectKey := UnwrapProjectKey(v, project);
        if projectKey.Err? then (v, Err(projectKey.error))
        else if done == 0 || id in v.environments then (v, Err(DatabaseError))
        else
          var version := v.projects[project].currentKeyVersion;
          var two := InsertEnvironmentKey(one, KeyId(id, 1),
                                          WrapEnvironmentKey(projectKey.value, key, nonce, project, id, 1, version));
          if done == 1 then (one, Err(DatabaseError))
          else if done == 2 then (two, Err(DatabaseError))
          else (SwitchCurrentEnvironmentKey(two, id, 0, 1), Ok(id))
  }

  function WithoutEnvironments(v: Vault, gone: set<string>): Vault {
    v.(environments := v.environments - gone,
       environmentKeys := map k | k in v.environmentKeys && k.owner !in gone :: v.environmentKeys[k],
       secrets := map k | k in v.secrets && k.environmentId !in gone :: v.secrets[k])
  }

  function EnvironmentsOf(v: Vault, project: string): set<string> {
    set e | e in v.environments && v.environments[e].projectId == project
  }

  function DeleteEnvironment(v: Vault, environment: string): (Vault, Result<()>) {
    if environment !in v.environments then (v, Err(InputError("environmentId")))
    else (WithoutEnvironments(v, {environment}), Ok(()))
  }

  /** Cascading foreign keys take its keys, environments, their keys and secrets. */
  function DeleteProject(v: Vault, project: string): (Vault, Result<()>) {
    if project !in v.projects then (v, Err(InputError("projectId")))
    else
      (WithoutEnvironments(v, EnvironmentsOf(v, project)).(
         projects := v.projects - {project},
         projectKeys := map k | k in v.projectKeys && k.owner != project :: v.projectKeys[k]),
       Ok(()))
  }

  // ------------------------------------------------------------------ secrets

  predicate IdTaken(secrets: map<SecretName, Secret>, id: string) {
    exists k :: k in secrets && secrets[k].id == id
  }

  predicate HasVersion(secrets: map<SecretName, Secret>, id: string, version: nat) {
    exists k :: k in secrets && secrets[k].id == id && secrets[k].version == version
  }

  /** INSERT … WHERE expected = 0 OR EXISTS … ON CONFLICT (environment, name) DO UPDATE … WHERE same id and
      version. None when no row comes back or another unique key is violated. */
  function Upsert(secrets: map<SecretName, Secret>, at: SecretName, expected: nat, secret: Secret)
    : Option<map<SecretName, Secret>>
  {
    if expected != 0 && !HasVersion(secrets, secret.id, expected) then None
    else if at in secrets then
      if secrets[at].id == secret.id && secrets[at].version == expected
      then Some(secrets[at := secret.(version := secrets[at].version + 1)])
      else None
    else if IdTaken(secrets, secret.id) then None
    else Some(secrets[at := secret.(version := 1)])
  }

  /** What a write seals, from the row it read: the same id and the next version, or a fresh id at 1. */
  function Replacement(existing: Option<Secret>, project: string, at: SecretName, dek: Key, keyVersion: nat,
                       value: string, id: string, nonce: nat): Secret {
    var secretId := if existing.Some? then existing.value.id else id;
    var version := if existing.Some? then existing.value.version + 1 else 1;
    Secret(secretId, version, keyVersion, nonce,
           Sealed(dek, nonce, SecretAad(project, at.environmentId, secretId, at.name, version, keyVersion), Text(value)))
  }

  function Existing(secrets: map<SecretName, Secret>, at: SecretName): Option<Secret> {
    if at in secrets then Some(secrets[at]) else None
  }

  /** Read, seal, upsert; true when the secret is new. */
  function WriteSecret(v: Vault, at: SecretName, dek: Key, keyVersion: nat, value: string, id: string, nonce: nat)
    : (Vault, Result<bool>)
    requires at.environmentId in v.environments
  {
    var existing := Existing(v.secrets, at);
    var sealed := Replacement(existing, v.environments[at.environmentId].projectId, at, dek, keyVersion, value, id, nonce);
    var rows := Upsert(v.secrets, at, if existing.Some? then existing.value.version else 0, sealed);
    if rows.None? then (v, Err(DatabaseError)) else (v.(secrets := rows.value), Ok(existing.None?))
  }

  function PutSecret(v: Vault, at: SecretName, value: string, id: string, nonce: nat): (Vault, Result<bool>) {
    if at.environmentId !in v.environments then (v, Err(InputError("environmentId")))
    else if v.environments[at.environmentId].keyMode == COLD then (v, Err(InputError("keyMode")))
    else if !ValidSecretName(at.name) then (v, Err(InputError("name")))
    else if !ValidValue(value) then (v, Err(InputError("value")))
    else
      var dek := UnwrapEnvironmentDek(v, at.environmentId);
      if dek.Err? then (v, Err(dek.error))
      else WriteSecret(v, at, dek.value, v.environments[at.environmentId].currentKeyVersion, value, id, nonce)
  }

  /** One assignment of a parsed file, with the id a new secret would get and the nonce of its box. */
  datatype Entry = Entry(name: string, value: string, id: string, nonce: nat)

  datatype Counts = Counts(created: nat, replaced: nat)

  /** The import's fold of writes, stopping at the first that fails. `done` is how many upserts D1 performs. */
  function WriteAll(v: Vault, environment: string, dek: Key, keyVersion: nat, entries: seq<Entry>, counts: Counts, done: nat)
    : (Vault, Result<Counts>)
    requires environment in v.environments
    decreases |entries|
  {
    if entries == [] then (v, Ok(counts))
    else if done == 0 then (v, Err(DatabaseError))
    else
      var e := entries[0];
      var (next, result) := WriteSecret(v, SecretName(environment, e.name), dek, keyVersion, e.value, e.id, e.nonce);
      if result.Err? then (next, Err(result.error))
      else WriteAll(next, environment, dek, keyVersion, entries[1..], Counted(counts, result.value), done - 1)
  }

  function Counted(counts: Counts, created: bool): Counts {
    if created then counts.(created := counts.created + 1) else counts.(replaced := counts.replaced + 1)
  }

  /** Parsing already refused bad names; every value is checked before anything is written. */
  function ImportDotenv(v: Vault, environment: string, entries: seq<Entry>, done: nat): (Vault, Result<Counts>) {
    if environment !in v.environments then (v, Err(InputError("environmentId")))
    else if v.environments[environment].keyMode == COLD then (v, Err(InputError("keyMode")))
    else if entries == [] || exists i :: 0 <= i < |entries| && !ValidSecretName(entries[i].name)
    then (v, Err(InputError("content")))
    else if exists i :: 0 <= i < |entries| && !ValidValue(entries[i].value) then (v, Err(InputError("value")))
    else
      var dek := UnwrapEnvironmentDek(v, environment);
      if dek.Err? then (v, Err(dek.error))
      else WriteAll(v, environment, dek.value, v.environments[environment].currentKeyVersion, entries, Counts(0, 0), done)
  }

  function DeleteSecret(v: Vault, at: SecretName): (Vault, Result<()>) {
    if at.environmentId !in v.environments then (v, Err(InputError("environmentId")))
    else if at !in v.secrets then (v, Err(InputError("name")))
    else (v.(secrets := v.secrets - {at}), Ok(()))
  }

  // ------------------------------------------------------------------ rotation

  function SecretsOf(v: Vault, environment: string): set<SecretName> {
    set k | k in v.secrets && k.environmentId == environment
  }

  /** One secret under the next key, or unchanged when it does not decrypt (the caller then gives up). */
  function Reencrypted(v: Vault, at: SecretName, previous: Key, next: Key, nextVersion: nat, nonce: nat): Option<Secret>
    requires at in v.secrets && at.environmentId in v.environments
  {
    var secret := v.secrets[at];
    match OpenSecret(previous, secret, SecretAadOf(v, at, secret))
    case None => None
    case Some(value) =>
      var moved := secret.(envKeyVersion := nextVersion, nonce := nonce);
      Some(moved.(ciphertext := Sealed(next, nonce, SecretAadOf(v, at, moved), Text(value))))
  }

  function ReencryptAll(v: Vault, environment: string, previous: Key, next: Key, nextVersion: nat, nonces: map<SecretName, nat>)
    : map<SecretName, Secret>
    requires environment in v.environments
  {
    map k | k in v.secrets ::
      if k.environmentId != environment then v.secrets[k]
      else
        match Reencrypted(v, k, previous, next, nextVersion, if k in nonces then nonces[k] else 0)
        case Some(secret) => secret
        case None => v.secrets[k]
  }

  /** Two writes: the new key row, then every rewrite and the switch in one batch. */
  function RotateEnvironmentKey(v: Vault, environment: string, key: Key, nonce: nat, nonces: map<SecretName, nat>, done: nat)
    : (Vault, Result<nat>)
  {
    if environment !in v.environments then (v, Err(InputError("environmentId")))
    else if v.environments[environment].keyMode == COLD then (v, Err(EnvironmentKeyMissing))
    else
      var previous, projectKey := UnwrapEnvironmentDek(v, environment), UnwrapProjectKey(v, v.environments[environment].projectId);
      if previous.Err? then (v, Err(previous.error))
      else if projectKey.Err? then (v, Err(projectKey.error))
      else
        var current := v.environments[environment].currentKeyVersion;
        var next, project := current + 1, v.environments[environment].projectId;
        if exists k :: k in SecretsOf(v, environment) && Reencrypted(v, k, previous.value, key, next, 0).None?
        then (v, Err(UnwrapFailed))
        else if done == 0 || KeyId(environment, next) in v.environmentKeys then (v, Err(DatabaseError))
        else
          var one := InsertEnvironmentKey(v, KeyId(environment, next),
                                          WrapEnvironmentKey(projectKey.value, key, nonce, project, environment, next,
                                                             v.projects[project].currentKeyVersion));
          if done == 1 then (one, Err(DatabaseError))
          else
            (SwitchCurrentEnvironmentKey(
               one.(secrets := ReencryptAll(v, environment, previous.value, key, next, nonces)), environment, current, next),
             Ok(next))
  }

  /** The keys a project rotation rewraps: all of its CLOUD environments', retired ones too. */
  function KeysOf(v: Vault, project: string): set<KeyId> {
    set k | k in v.environmentKeys && k.owner in v.environments && v.environments[k.owner].projectId == project
            && v.environments[k.owner].keyMode == CLOUD
  }

  function Rewrapped(v: Vault, id: KeyId, key: Key, version: nat, nonce: nat): EnvironmentKey
    requires id in v.environmentKeys && id.owner in v.environments && DekOf(v, id).Ok?
  {
    WrapEnvironmentKey(key, DekOf(v, id).value, nonce, v.environments[id.owner].projectId, id.owner, id.version, version)
      .(retired := v.environmentKeys[id].retired)
  }

  function RewrapAll(v: Vault, project: string, key: Key, version: nat, nonces: map<KeyId, nat>): map<KeyId, EnvironmentKey>
    requires forall k :: k in KeysOf(v, project) ==> DekOf(v, k).Ok?
  {
    map k | k in v.environmentKeys ::
      if k in KeysOf(v, project) then Rewrapped(v, k, key, version, if k in nonces then nonces[k] else 0)
      else v.environmentKeys[k]
  }

  /** Two writes: the new project key row, then every rewrap, the retirement and the switch in one batch. */
  function RotateProjectKey(v: Vault, project: string, key: Key, nonce: nat, nonces: map<KeyId, nat>, done: nat)
    : (Vault, Result<nat>)
  {
    if project !in v.projects then (v, Err(InputError("projectId")))
    else
      var current := UnwrapProjectKey(v, project);
      var active := v.keyring.activeVersion;
      if current.Err? then (v, Err(current.error))
      else if active !in v.keyring.keys then (v, Err(MasterKeyMissing))
      else if exists k :: k in KeysOf(v, project) && DekOf(v, k).Err? then (v, Err(UnwrapFailed))
      else
        var version := v.projects[project].currentKeyVersion;
        var next := version + 1;
        if done == 0 || KeyId(project, next) in v.projectKeys then (v, Err(DatabaseError))
        else
          var one := InsertProjectKey(v, KeyId(project, next),
                                      WrapProjectKey(v.keyring.keys[active], key, nonce, project, next, active));
          if done == 1 then (one, Err(DatabaseError))
          else
            var two := one.(environmentKeys := RewrapAll(v, project, key, next, nonces),
                            projectKeys := one.projectKeys[
                              KeyId(project, version) := one.projectKeys[KeyId(project, version)].(retired := true)]);
            (SetProjectVersion(two, project, next), Ok(next))
  }

  /** A further master key on the Worker, perhaps made the active one. */
  function AddMasterKey(v: Vault, version: nat, key: Key, activate: bool): Vault {
    if version in v.keyring.keys then v
    else v.(keyring := Keyring(if activate then version else v.keyring.activeVersion, v.keyring.keys[version := key]))
  }
}
