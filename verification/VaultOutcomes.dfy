/** Row by row what the operations on keys leave behind: which key each row is sealed under, at which versions, and which
    rows are retired; and the error each operation gives. Plain contents and readability are proved beside this. */
module VaultOutcomes {
  import opened Ideal
  import opened Protocol
  import opened AadText
  import opened VaultTables
  import opened VaultRefinement
  import opened VaultRuns
  import Base64Url
  import Utf8

  /** A project key row under that master key version, not retired. */
  predicate HoldsProjectKey(v: Vault, id: KeyId, masterVersion: nat, key: Key) {
    && id in v.projectKeys && masterVersion in v.keyring.keys
    && var row := v.projectKeys[id];
       && row.masterKeyVersion == masterVersion && !row.retired
       && Open(v.keyring.keys[masterVersion], row.nonce, row.wrappedKey, ProjectKeyAad(id.owner, id.version, masterVersion))
          == Some(KeyBytes(key))
  }

  /** An environment key row under that project key. */
  predicate HoldsEnvironmentKey(v: Vault, id: KeyId, project: string, projectVersion: nat, projectKey: Key, dek: Key) {
    && id in v.environmentKeys
    && var row := v.environmentKeys[id];
       && row.projectKeyVersion == projectVersion
       && Open(projectKey, row.nonce, row.wrappedKey, EnvironmentKeyAad(project, id.owner, id.version, projectVersion))
          == Some(KeyBytes(dek))
  }

  /** A project's key rows newer than a version, alone: what is left when every older one is thrown away. */
  function WithoutOlder(v: Vault, project: string, version: nat): Vault {
    v.(projectKeys := map k | k in v.projectKeys && (k.owner != project || k.version >= version) :: v.projectKeys[k])
  }

  // ------------------------------------------------------------------ creating

  /** A new project's first key is sealed under the active master key. */
  lemma ProjectCreated(v: Vault, id: string, slug: string, key: Key, nonce: nat, done: nat)
    ensures var (w, r) := CreateProject(v, id, slug, key, nonce, done);
            && r == (if exists p :: p in v.projects && v.projects[p].slug == slug then Err(InputError("slug"))
                     else if v.keyring.activeVersion !in v.keyring.keys then Err(MasterKeyMissing)
                     else if done < 3 || id in v.projects then Err(DatabaseError) else Ok(id))
            && (r.Ok? ==>
                  && w.projects == v.projects[id := Project(slug, 1)]
                  && HoldsProjectKey(w, KeyId(id, 1), v.keyring.activeVersion, key)
                  && w.projectKeys == v.projectKeys[KeyId(id, 1) := w.projectKeys[KeyId(id, 1)]]
                  && w == v.(projects := w.projects, projectKeys := w.projectKeys))
  {
    hide ProjectKeyAad;
  }

  /** A new CLOUD environment's first key is sealed under its project's current key. */
  lemma EnvironmentCreated(v: Vault, id: string, project: string, slug: string, owner: OwnerKeys, key: Key, nonce: nat, done: nat)
    requires Sound(v)
    ensures var (w, r) := CreateEnvironment(v, id, project, slug, CLOUD, owner, key, nonce, done);
            && r == (if project !in v.projects then Err(InputError("projectId"))
                     else if exists e :: e in v.environments && v.environments[e].projectId == project && v.environments[e].slug == slug
                     then Err(InputError("slug"))
                     else if owner.encryption.Some? || owner.signing.Some? then Err(InputError("keyMode"))
                     else if v.projects[project].currentKeyVersion == 0 then Err(ProjectKeyMissing)
                     else if done < 3 || id in v.environments then Err(DatabaseError) else Ok(id))
            && (r.Ok? ==>
                  && w.environments == v.environments[id := VaultEnvironment(project, slug, CLOUD, 1)]
                  && UnwrapProjectKey(v, project).Ok?
                  && HoldsEnvironmentKey(w, KeyId(id, 1), project, v.projects[project].currentKeyVersion,
                                         UnwrapProjectKey(v, project).value, key)
                  && !w.environmentKeys[KeyId(id, 1)].retired)
  {
    hide Sound, UnwrapProjectKeyVersion, EnvironmentKeyAad;
    if project in v.projects {
      ProjectKeyWhenReady(v, project);
    }
  }

  /** An owner's public key is 32 bytes in base64url that the key libraries take. */
  ghost predicate OwnerKeyGood(text: Option<string>, usable: bool) {
    usable && exists bytes :: |bytes| == 32 && text == Some(Base64Url.Encode(bytes))
  }

  /** A COLD environment needs both owner keys; it is stored at once and without a key of its own. */
  lemma ColdEnvironmentCreated(v: Vault, id: string, project: string, slug: string, owner: OwnerKeys, key: Key, nonce: nat, done: nat)
    ensures var (w, r) := CreateEnvironment(v, id, project, slug, COLD, owner, key, nonce, done);
            && r == (if project !in v.projects then Err(InputError("projectId"))
                     else if exists e :: e in v.environments && v.environments[e].projectId == project && v.environments[e].slug == slug
                     then Err(InputError("slug"))
                     else if owner.encryption in {None, Some("")} || owner.signing in {None, Some("")} then Err(InputError("keyMode"))
                     else if !OwnerKeyGood(owner.encryption, owner.encryptionUsable) then Err(InputError("ownerEncryptionPublicKey"))
                     else if !OwnerKeyGood(owner.signing, owner.signingUsable) then Err(InputError("ownerSigningPublicKey"))
                     else if done == 0 || id in v.environments then Err(DatabaseError) else Ok(id))
            && w == (if r.Ok? then v.(environments := v.environments[id := VaultEnvironment(project, slug, COLD, 0)]) else v)
  {
    hide OwnerKeyRefusal;
    if owner.encryption.Some? {
      OwnerKeyMeans("ownerEncryptionPublicKey", owner.encryption.value, owner.encryptionUsable);
    }
    if owner.signing.Some? {
      OwnerKeyMeans("ownerSigningPublicKey", owner.signing.value, owner.signingUsable);
    }
  }

  lemma OwnerKeyMeans(field: string, text: string, usable: bool)
    ensures OwnerKeyRefusal(field, text, usable) == if OwnerKeyGood(Some(text), usable) then None else Some(InputError(field))
  {
    hide Base64Url.Decode, Base64Url.Encode;
    if Base64Url.Decode(text).Some? {
      Base64Url.DecodesExactly(text, Base64Url.Decode(text).value);
    }
    if OwnerKeyGood(Some(text), usable) {
      var bytes :| |bytes| == 32 && text == Base64Url.Encode(bytes);
      Base64Url.DecodesExactly(text, bytes);
    }
  }

  /** A new master key wraps the projects created after it exactly if it was made the active one. */
  lemma MasterKeyActivates(v: Vault, version: nat, master: Key, activate: bool, id: string, slug: string, key: Key, nonce: nat)
    requires v.keyring.activeVersion in v.keyring.keys && version !in v.keyring.keys
    ensures var (w, r) := CreateProject(AddMasterKey(v, version, master, activate), id, slug, key, nonce, 3);
            var active := if activate then version else v.keyring.activeVersion;
            r.Ok? ==> HoldsProjectKey(w, KeyId(id, 1), active, key)
                      && w.keyring.keys[active] == if activate then master else v.keyring.keys[active]
  {
    hide CreateProject, HoldsProjectKey;
    ProjectCreated(AddMasterKey(v, version, master, activate), id, slug, key, nonce, 3);
  }

  // ------------------------------------------------------------------ secrets

  /** The conditional upsert, said without its redundant half: a row is replaced exactly at the expected id and version,
      and one is added exactly when none was expected and its id is unused. */
  lemma UpsertsExactly(secrets: map<SecretName, Secret>, at: SecretName, expected: nat, secret: Secret)
    ensures Upsert(secrets, at, expected, secret) ==
            if at in secrets && secrets[at].id == secret.id && secrets[at].version == expected
            then Some(secrets[at := secret.(version := expected + 1)])
            else if at !in secrets && expected == 0 && forall k :: k in secrets ==> secrets[k].id != secret.id
            then Some(secrets[at := secret.(version := 1)])
            else None
  {
    if at in secrets && secrets[at].id == secret.id && secrets[at].version == expected {
      assert HasVersion(secrets, secret.id, expected);
    }
  }

  /** A name is at most 256 capital letters, digits and underscores, not beginning with a digit. */
  predicate NameGood(name: string) {
    && 1 <= |name| <= 256 && !('0' <= name[0] <= '9')
    && forall i :: 0 <= i < |name| ==> 'A' <= name[i] <= 'Z' || '0' <= name[i] <= '9' || name[i] == '_'
  }

  /** The error of a put, in the order its causes are met; otherwise it is the one row, at the next version of its id or
      at the first of a new one, sealed under the environment's current key for its own columns. */
  lemma PutsExactly(v: Vault, at: SecretName, value: string, id: string, nonce: nat)
    requires Sound(v) && FreshSecretId(v, id)
    ensures var (w, r), e := PutSecret(v, at, value, id, nonce), at.environmentId;
            && r == (if e !in v.environments then Err(InputError("environmentId"))
                     else if v.environments[e].keyMode == COLD then Err(InputError("keyMode"))
                     else if !NameGood(at.name) then Err(InputError("name"))
                     else if |Utf8.Encode(value)| > 65536 then Err(InputError("value"))
                     else if v.environments[e].currentKeyVersion == 0 then Err(EnvironmentKeyMissing)
                     else Ok(at !in v.secrets))
            && if r.Ok? then
                 && var env, former := v.environments[e], Existing(v.secrets, at);
                 && UnwrapEnvironmentDek(v, e).Ok? && at in w.secrets && w == v.(secrets := v.secrets[at := w.secrets[at]])
                 && var row := w.secrets[at];
                 && row.id == (if former.Some? then former.value.id else id)
                 && row.version == (if former.Some? then former.value.version + 1 else 1)
                 && row.envKeyVersion == env.currentKeyVersion
                 && Open(UnwrapEnvironmentDek(v, e).value, row.nonce, row.ciphertext,
                         SecretAad(env.projectId, e, row.id, at.name, row.version, row.envKeyVersion)) == Some(Text(value))
               else w == v
  {
    hide Sound, DekOf, SecretAad, Utf8.Encode, ValidValue, Utf8Length;
    Utf8.LimitCountsBytes(value);
    assert ValidSecretName(at.name) <==> NameGood(at.name);
    hide NameGood, ValidSecretName, UnwrapEnvironmentDek;
    if at.environmentId in v.environments && v.environments[at.environmentId].keyMode == CLOUD {
      var env := v.environments[at.environmentId];
      DekWhenReady(v, at.environmentId);
      if env.currentKeyVersion != 0 {
        RowVersions(v, at);
        UpsertAccepts(v.secrets, at, env.projectId, UnwrapEnvironmentDek(v, at.environmentId).value, env.currentKeyVersion, value, id, nonce);
      }
    }
  }

  lemma RowVersions(v: Vault, at: SecretName)
    requires Sound(v)
    ensures at in v.secrets ==> v.secrets[at].version >= 1
  {
    if at in v.secrets {
      assert SecretOk(v, at);
    }
  }

  // ------------------------------------------------------------------ the environment rotation

  /** The error of an environment rotation, in the order its causes are met. */
  lemma EnvironmentRotationFails(v: Vault, e: string, key: Key, nonce: nat, nonces: map<SecretName, nat>, done: nat)
    requires Sound(v)
    ensures RotateEnvironmentKey(v, e, key, nonce, nonces, done).1 ==
            if e !in v.environments then Err(InputError("environmentId"))
            else if v.environments[e].keyMode == COLD || v.environments[e].currentKeyVersion == 0 then Err(EnvironmentKeyMissing)
            else if done < 2 || KeyId(e, v.environments[e].currentKeyVersion + 1) in v.environmentKeys then Err(DatabaseError)
            else Ok(v.environments[e].currentKeyVersion + 1)
  {
    hide Sound, DekOf, UnwrapProjectKeyVersion, WrapEnvironmentKey, Reencrypted, ReencryptAll;
    if e in v.environments && v.environments[e].keyMode == CLOUD {
      DekWhenReady(v, e);
      if v.environments[e].currentKeyVersion != 0 {
        ReadyHasProjectKey(v, e);
        forall k | k in SecretsOf(v, e) ensures Reencrypted(v, k, UnwrapEnvironmentDek(v, e).value, key,
                                                            v.environments[e].currentKeyVersion + 1, 0).Some? {
          SecretHasKey(v, k);
          ReencryptedMoves(v, k, UnwrapEnvironmentDek(v, e).value, key, v.environments[e].currentKeyVersion + 1, 0);
        }
      }
    }
  }

  /** A finished environment rotation: the new key row is sealed under the project's current key, the old one retired, no
      other key row touched. */
  lemma EnvironmentRotationKeys(v: Vault, e: string, key: Key, nonce: nat, nonces: map<SecretName, nat>)
    requires Sound(v) && RotateEnvironmentKey(v, e, key, nonce, nonces, 2).1.Ok?
    ensures e in v.environments && v.environments[e].projectId in v.projects && UnwrapProjectKey(v, v.environments[e].projectId).Ok?
    ensures var w, env := RotateEnvironmentKey(v, e, key, nonce, nonces, 2).0, v.environments[e];
            var former, latest, p := KeyId(e, env.currentKeyVersion), KeyId(e, env.currentKeyVersion + 1), env.projectId;
            && w.environments == v.environments[e := env.(currentKeyVersion := env.currentKeyVersion + 1)]
            && w.projects == v.projects && w.projectKeys == v.projectKeys && w.keyring == v.keyring
            && w.environmentKeys.Keys == v.environmentKeys.Keys + {latest} && former in v.environmentKeys
            && HoldsEnvironmentKey(w, latest, p, v.projects[p].currentKeyVersion, UnwrapProjectKey(v, p).value, key)
            && !w.environmentKeys[latest].retired
            && w.environmentKeys[former] == v.environmentKeys[former].(retired := true)
            && forall k :: k in v.environmentKeys && k != former ==> w.environmentKeys[k] == v.environmentKeys[k]
  {
    hide Sound, UnwrapProjectKeyVersion, EnvironmentKeyAad, Reencrypted, ReencryptAll;
    EnvironmentRotationFails(v, e, key, nonce, nonces, 2);
    DekWhenReady(v, e);
    ReadyHasProjectKey(v, e);
    CurrentDekStands(v, e);
  }

  /** And its secrets: every one of the environment keeps id, version and value, and is sealed under the new key at the
      new key version; every other is untouched. */
  lemma EnvironmentRotationSecrets(v: Vault, e: string, key: Key, nonce: nat, nonces: map<SecretName, nat>, k: SecretName)
    requires Sound(v) && RotateEnvironmentKey(v, e, key, nonce, nonces, 2).1.Ok? && k in v.secrets
    ensures k.environmentId in v.environments && ValueOf(v, k).Some?
    ensures var w, next := RotateEnvironmentKey(v, e, key, nonce, nonces, 2).0, v.environments[k.environmentId].currentKeyVersion + 1;
            && w.secrets.Keys == v.secrets.Keys
            && if k.environmentId == e then
                 && var row := w.secrets[k];
                 && row.id == v.secrets[k].id && row.version == v.secrets[k].version && row.envKeyVersion == next
                 && Open(key, row.nonce, row.ciphertext, SecretAad(v.environments[e].projectId, e, row.id, k.name, row.version, next))
                    == Some(Text(ValueOf(v, k).value))
               else w.secrets[k] == v.secrets[k]
  {
    hide Sound, DekOf, UnwrapProjectKeyVersion, WrapEnvironmentKey, SecretAad;
    EnvironmentRotationFails(v, e, key, nonce, nonces, 2);
    DekWhenReady(v, e);
    CurrentDekStands(v, e);
    SecretHasKey(v, k);
    SecretStands(v, k);
    if k.environmentId == e {
      ReencryptedMoves(v, k, UnwrapEnvironmentDek(v, e).value, key, v.environments[e].currentKeyVersion + 1,
                       if k in nonces then nonces[k] else 0);
    }
  }

  lemma SecretStands(v: Vault, k: SecretName)
    requires Sound(v) && k in v.secrets
    ensures k.environmentId in v.environments && ValueOf(v, k).Some?
  {
    assert SecretOk(v, k);
  }

  // ------------------------------------------------------------------ the project rotation

  /** The error of a project rotation, in the order its causes are met. */
  lemma ProjectRotationFails(v: Vault, p: string, key: Key, nonce: nat, nonces: map<KeyId, nat>, done: nat)
    requires Sound(v)
    ensures RotateProjectKey(v, p, key, nonce, nonces, done).1 ==
            if p !in v.projects then Err(InputError("projectId"))
            else if v.projects[p].currentKeyVersion == 0 then Err(ProjectKeyMissing)
            else if done < 2 || KeyId(p, v.projects[p].currentKeyVersion + 1) in v.projectKeys then Err(DatabaseError)
            else Ok(v.projects[p].currentKeyVersion + 1)
  {
    hide Sound, DekOf, UnwrapProjectKeyVersion, WrapProjectKey, KeysOf, RewrapAll;
    ActiveMaster(v);
    if p in v.projects {
      ProjectKeyWhenReady(v, p);
      SoundKeysUnwrap(v, p);
    }
  }

  /** A finished project rotation: the new key row is sealed under the active master key, the old one retired, no other
      project key row touched, and nothing else but environment keys changed. */
  lemma ProjectRotationKeys(v: Vault, p: string, key: Key, nonce: nat, nonces: map<KeyId, nat>)
    requires Sound(v) && RotateProjectKey(v, p, key, nonce, nonces, 2).1.Ok?
    ensures p in v.projects
    ensures var w, version := RotateProjectKey(v, p, key, nonce, nonces, 2).0, v.projects[p].currentKeyVersion;
            var former, latest := KeyId(p, version), KeyId(p, version + 1);
            && w.projects == v.projects[p := v.projects[p].(currentKeyVersion := version + 1)]
            && w.environments == v.environments && w.secrets == v.secrets && w.keyring == v.keyring
            && w.projectKeys.Keys == v.projectKeys.Keys + {latest} && former in v.projectKeys
            && HoldsProjectKey(w, latest, v.keyring.activeVersion, key)
            && w.projectKeys[former] == v.projectKeys[former].(retired := true)
            && forall k :: k in v.projectKeys && k != former ==> w.projectKeys[k] == v.projectKeys[k]
  {
    hide Sound, DekOf, ProjectKeyAad, KeysOf, RewrapAll;
    ProjectRotationFails(v, p, key, nonce, nonces, 2);
    SoundKeysUnwrap(v, p);
  }

  /** Every environment key of the project's CLOUD environments, retired ones included, is at the new project key version
      and sealed under the new project key, holds the key it held, and is retired exactly if it was; every other
      environment key row is untouched. */
  lemma ProjectRotationRewraps(v: Vault, p: string, key: Key, nonce: nat, nonces: map<KeyId, nat>, k: KeyId)
    requires Sound(v) && RotateProjectKey(v, p, key, nonce, nonces, 2).1.Ok? && k in v.environmentKeys
    ensures p in v.projects && k.owner in v.environments && DekOf(v, k).Ok?
    ensures var w, env := RotateProjectKey(v, p, key, nonce, nonces, 2).0, v.environments[k.owner];
            && w.environmentKeys.Keys == v.environmentKeys.Keys
            && if env.projectId == p && env.keyMode == CLOUD then
                 && HoldsEnvironmentKey(w, k, p, v.projects[p].currentKeyVersion + 1, key, DekOf(v, k).value)
                 && w.environmentKeys[k].retired == v.environmentKeys[k].retired
               else w.environmentKeys[k] == v.environmentKeys[k]
  {
    hide Sound, DekOf, UnwrapProjectKeyVersion, WrapProjectKey, EnvironmentKeyAad;
    ProjectRotationFails(v, p, key, nonce, nonces, 2);
    SoundKeysUnwrap(v, p);
    SoundKeyStands(v, k);
  }

  lemma SoundKeyStands(v: Vault, k: KeyId)
    requires Sound(v) && k in v.environmentKeys
    ensures k.owner in v.environments && DekOf(v, k).Ok?
  {
    SoundKeys(v, k);
  }

  /** So the older project keys can go: with all of them thrown away every environment key of the project still unwraps to
      the key it was. */
  lemma OlderProjectKeysCanGo(v: Vault, p: string, key: Key, nonce: nat, nonces: map<KeyId, nat>, k: KeyId)
    requires Sound(v) && RotateProjectKey(v, p, key, nonce, nonces, 2).1.Ok?
    requires p in v.projects && k in v.environmentKeys && k.owner in v.environments
    requires v.environments[k.owner].projectId == p && v.environments[k.owner].keyMode == CLOUD
    ensures var w := RotateProjectKey(v, p, key, nonce, nonces, 2).0;
            DekOf(WithoutOlder(w, p, v.projects[p].currentKeyVersion + 1), k) == DekOf(v, k)
  {
    hide Sound, RotateProjectKey, ProjectKeyAad, EnvironmentKeyAad;
    ProjectRotationKeys(v, p, key, nonce, nonces);
    ProjectRotationRewraps(v, p, key, nonce, nonces, k);
    var w := RotateProjectKey(v, p, key, nonce, nonces, 2).0;
    assert KeyId(k.owner, k.version) == k;
  }

  // ------------------------------------------------------------------ deleting

  /** The errors of the deletes: nothing of that name is there. */
  lemma DeletesFail(v: Vault, at: SecretName, e: string, p: string)
    ensures DeleteSecret(v, at).1 == if at.environmentId !in v.environments then Err(InputError("environmentId"))
                                     else if at !in v.secrets then Err(InputError("name")) else Ok(())
    ensures DeleteEnvironment(v, e).1 == if e in v.environments then Ok(()) else Err(InputError("environmentId"))
    ensures DeleteProject(v, p).1 == if p in v.projects then Ok(()) else Err(InputError("projectId"))
  {
  }
}
