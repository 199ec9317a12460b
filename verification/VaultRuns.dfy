/** Each vault operation against the plain store, and whole runs of them. */
module VaultRuns {
  import opened Ideal
  import opened Protocol
  import opened AadText
  import opened VaultTables
  import opened VaultRefinement

  // ------------------------------------------------------------------ secrets

  /** In a sound vault a CLOUD environment's key unwraps exactly when its creation finished. */
  lemma DekWhenReady(v: Vault, e: string)
    requires Sound(v) && e in v.environments && v.environments[e].keyMode == CLOUD
    ensures if v.environments[e].currentKeyVersion != 0 then UnwrapEnvironmentDek(v, e).Ok?
            else UnwrapEnvironmentDek(v, e) == Err(EnvironmentKeyMissing)
  {
    assert EnvironmentOk(v, e);
    if v.environments[e].currentKeyVersion != 0 {
      assert EnvironmentKeyOk(v, KeyId(e, v.environments[e].currentKeyVersion));
    }
  }

  lemma ReplacementSeals(v: Vault, at: SecretName, value: string, id: string, nonce: nat)
    requires Sound(v) && FreshSecretId(v, id) && at.environmentId in v.environments && ValidSecretName(at.name)
    requires v.environments[at.environmentId].keyMode == CLOUD && v.environments[at.environmentId].currentKeyVersion != 0
    requires UnwrapEnvironmentDek(v, at.environmentId).Ok?
    ensures var env := v.environments[at.environmentId];
            Sealing(v, at, Replacement(Existing(v.secrets, at), env.projectId, at, UnwrapEnvironmentDek(v, at.environmentId).value,
                                       env.currentKeyVersion, value, id, nonce), value)
  {
    hide OwnersOk, ProjectKeysOk, EnvironmentKeysOk, DekOf, SecretAad;
    if at in v.secrets {
      assert SecretOk(v, at);
    }
  }

  lemma UpsertAccepts(secrets: map<SecretName, Secret>, at: SecretName, project: string, dek: Key, keyVersion: nat,
                      value: string, id: string, nonce: nat)
    requires !IdTaken(secrets, id) && (at in secrets ==> secrets[at].version >= 1)
    ensures var existing := Existing(secrets, at);
            var sealed := Replacement(existing, project, at, dek, keyVersion, value, id, nonce);
            Upsert(secrets, at, if existing.Some? then existing.value.version else 0, sealed) == Some(secrets[at := sealed])
  {
    if at in secrets {
      assert HasVersion(secrets, secrets[at].id, secrets[at].version);
    }
  }

  lemma WriteRefines(v: Vault, at: SecretName, value: string, id: string, nonce: nat)
    requires Sound(v) && FreshSecretId(v, id) && at.environmentId in v.environments && ValidSecretName(at.name)
    requires v.environments[at.environmentId].keyMode == CLOUD && v.environments[at.environmentId].currentKeyVersion != 0
    requires UnwrapEnvironmentDek(v, at.environmentId).Ok?
    ensures var env := v.environments[at.environmentId];
            var (w, r) := WriteSecret(v, at, UnwrapEnvironmentDek(v, at.environmentId).value, env.currentKeyVersion, value, id, nonce);
            && Kept(v, w) && w == v.(secrets := w.secrets) && Values(w) == Values(v)[at := value] && r == Ok(at !in v.secrets)
            && (forall other :: FreshSecretId(v, other) && other != id ==> FreshSecretId(w, other))
  {
    var env, dek := v.environments[at.environmentId], UnwrapEnvironmentDek(v, at.environmentId).value;
    var sealed := Replacement(Existing(v.secrets, at), env.projectId, at, dek, env.currentKeyVersion, value, id, nonce);
    ReplacementSeals(v, at, value, id, nonce);
    if at in v.secrets {
      assert SecretOk(v, at);
    }
    UpsertAccepts(v.secrets, at, env.projectId, dek, env.currentKeyVersion, value, id, nonce);
    hide Sound, Kept, Values, Sealing;
    SealKeeps(v, at, sealed, value);
  }

  /** Writing through the whole key hierarchy is writing into a plain map: same result, same error. */
  lemma PutRefines(v: Vault, at: SecretName, value: string, id: string, nonce: nat)
    requires Sound(v) && FreshSecretId(v, id)
    ensures var (w, r) := PutSecret(v, at, value, id, nonce);
            Kept(v, w) && (Abs(w), r) == PlainPut(Abs(v), at, value)
  {
    var (w, r) := PutSecret(v, at, value, id, nonce);
    SoundValues(v);
    if Refusal(Abs(v), at.environmentId).None? {
      DekWhenReady(v, at.environmentId);
      hide Sound, Values, Kept, DeksKept;
      if ValidSecretName(at.name) && ValidValue(value) && v.environments[at.environmentId].currentKeyVersion != 0 {
        WriteRefines(v, at, value, id, nonce);
      } else {
        SelfKept(v);
      }
    } else {
      SelfKept(v);
    }
  }

  lemma SelfKept(v: Vault)
    requires Sound(v)
    ensures Kept(v, v)
  {
  }

  predicate FreshEntries(v: Vault, entries: seq<Entry>) {
    && (forall i :: 0 <= i < |entries| ==> FreshSecretId(v, entries[i].id))
    && (forall i, j :: 0 <= i < j < |entries| ==> entries[i].id != entries[j].id)
  }

  /** The fold of writes, cut after any of them, is the fold of plain assignments cut there; when it is not cut
      the counters count what they say. */
  lemma {:induction false} WriteAllRefines(v: Vault, e: string, entries: seq<Entry>, counts: Counts, done: nat)
    requires Sound(v) && FreshEntries(v, entries) && e in v.environments
    requires v.environments[e].keyMode == CLOUD && v.environments[e].currentKeyVersion != 0 && UnwrapEnvironmentDek(v, e).Ok?
    requires forall i :: 0 <= i < |entries| ==> ValidSecretName(entries[i].name)
    ensures var (w, r) := WriteAll(v, e, UnwrapEnvironmentDek(v, e).value, v.environments[e].currentKeyVersion, entries, counts, done);
            && Kept(v, w) && Abs(w) == PlainImport(Abs(v), e, entries[..Capped(done, |entries|)])
            && (done == 0 ==> w == v) && (r.Ok? <==> done >= |entries|) && (r.Err? ==> r.error == DatabaseError)
            && (r.Ok? ==> && r.value.created + r.value.replaced == counts.created + counts.replaced + |entries|
                          && |Values(w)| == |Values(v)| + r.value.created - counts.created)
    decreases |entries|
  {
    hide Sound, Abs, Values, Kept, WriteSecret, FreshSecretId, ValidSecretName, UnwrapEnvironmentDek, PlainImport, WriteAll;
    var dek, version := UnwrapEnvironmentDek(v, e).value, v.environments[e].currentKeyVersion;
    WriteAllUnfolds(v, e, dek, version, entries, counts, done);
    PlainImportUnfolds(Abs(v), e, entries, done);
    if entries == [] || done == 0 {
      SelfKept(v);
    } else {
      var head, at := entries[0], SecretName(e, entries[0].name);
      FirstWrite(v, e, entries);
      var (next, result) := WriteSecret(v, at, dek, version, head.value, head.id, head.nonce);
      WriteAllRefines(next, e, entries[1..], Counted(counts, result.value), done - 1);
      var w := WriteAll(next, e, dek, version, entries[1..], Counted(counts, result.value), done - 1).0;
      WriteAllKeys(next, e, dek, version, entries[1..], Counted(counts, result.value), done - 1);
      KeptTrans(v, next, w);
    }
  }

  function Capped(done: nat, count: nat): nat {
    if done < count then done else count
  }

  lemma WriteAllUnfolds(v: Vault, e: string, dek: Key, version: nat, entries: seq<Entry>, counts: Counts, done: nat)
    requires e in v.environments
    ensures entries == [] || done == 0 ==>
              WriteAll(v, e, dek, version, entries, counts, done) == (v, if entries == [] then Ok(counts) else Err(DatabaseError))
    ensures entries != [] && done > 0 ==>
              var a := entries[0];
              var (next, result) := WriteSecret(v, SecretName(e, a.name), dek, version, a.value, a.id, a.nonce);
              result.Ok? ==> WriteAll(v, e, dek, version, entries, counts, done)
                             == WriteAll(next, e, dek, version, entries[1..], Counted(counts, result.value), done - 1)
  {
    hide WriteSecret;
  }

  lemma PlainImportUnfolds(p: PlainStore, e: string, entries: seq<Entry>, done: nat)
    ensures entries == [] || done == 0 ==> PlainImport(p, e, entries[..Capped(done, |entries|)]) == p
    ensures entries != [] && done > 0 ==>
              PlainImport(p, e, entries[..Capped(done, |entries|)])
              == PlainImport(p.(values := p.values[SecretName(e, entries[0].name) := entries[0].value]), e,
                             entries[1..][..Capped(done - 1, |entries[1..]|)])
  {
    var k := Capped(done, |entries|);
    assert entries != [] && done > 0 ==> entries[..k][1..] == entries[1..][..k - 1];
  }

  /** What holds after the first write, for the rest of the fold to go on from. */
  lemma FirstWrite(v: Vault, e: string, entries: seq<Entry>)
    requires Sound(v) && FreshEntries(v, entries) && e in v.environments && entries != []
    requires v.environments[e].keyMode == CLOUD && v.environments[e].currentKeyVersion != 0 && UnwrapEnvironmentDek(v, e).Ok?
    requires ValidSecretName(entries[0].name)
    ensures var a := entries[0];
            var (next, result) := WriteSecret(v, SecretName(e, a.name), UnwrapEnvironmentDek(v, e).value,
                                              v.environments[e].currentKeyVersion, a.value, a.id, a.nonce);
            && result.Ok? && Kept(v, next) && Sound(next) && next == v.(secrets := next.secrets) && FreshEntries(next, entries[1..])
            && UnwrapEnvironmentDek(next, e) == UnwrapEnvironmentDek(v, e)
            && Abs(next) == Abs(v).(values := Abs(v).values[SecretName(e, a.name) := a.value])
            && |Values(next)| == |Values(v)| + if result.value then 1 else 0
  {
    hide Sound, Values, Kept, WriteSecret, FreshSecretId, ValidSecretName, UnwrapEnvironmentDek;
    var a := entries[0];
    WriteRefines(v, SecretName(e, a.name), a.value, a.id, a.nonce);
    var next := WriteSecret(v, SecretName(e, a.name), UnwrapEnvironmentDek(v, e).value, v.environments[e].currentKeyVersion,
                            a.value, a.id, a.nonce).0;
    KeptSound(v, next);
    SameCurrentDek(v, next, e);
    SoundValues(v);
  }

  lemma ActiveMaster(v: Vault)
    requires Sound(v)
    ensures v.keyring.activeVersion in v.keyring.keys
  {
  }

  lemma KeptDek(v: Vault, w: Vault, k: KeyId)
    requires Kept(v, w) && k in v.environmentKeys && k in w.environmentKeys
    ensures DekOf(w, k) == DekOf(v, k)
  {
  }

  lemma KeptSound(v: Vault, w: Vault)
    requires Kept(v, w)
    ensures Sound(w)
  {
  }

  lemma SameCurrentDek(v: Vault, w: Vault, e: string)
    requires w == v.(secrets := w.secrets)
    ensures UnwrapEnvironmentDek(w, e) == UnwrapEnvironmentDek(v, e)
  {
  }

  lemma {:induction false} WriteAllKeys(v: Vault, e: string, dek: Key, version: nat, entries: seq<Entry>, counts: Counts, done: nat)
    requires e in v.environments
    ensures var w := WriteAll(v, e, dek, version, entries, counts, done).0; w == v.(secrets := w.secrets)
    decreases |entries|
  {
    if entries != [] && done > 0 {
      var (next, result) := WriteSecret(v, SecretName(e, entries[0].name), dek, version, entries[0].value, entries[0].id, entries[0].nonce);
      if result.Ok? {
        WriteAllKeys(next, e, dek, version, entries[1..], Counted(counts, result.value), done - 1);
      }
    }
  }

  /** Importing a file assigns its entries in order, as many as the database lets through. It succeeds exactly
      when none of its refusals applies and every write went through. */
  lemma ImportRefines(v: Vault, e: string, entries: seq<Entry>, done: nat)
    requires Sound(v) && FreshEntries(v, entries)
    ensures var (w, r) := ImportDotenv(v, e, entries, done);
            var refusal, count := ImportRefusal(Abs(v), e, entries), Imported(Abs(v), e, entries, done);
            && Kept(v, w) && Abs(w) == PlainImport(Abs(v), e, entries[..count]) && (count == 0 ==> w == v)
            && (r.Ok? <==> refusal.None? && done >= |entries|)
            && (r.Err? ==> r.error == if refusal.Some? then refusal.value else DatabaseError)
            && (r.Ok? ==> r.value.created + r.value.replaced == |entries| && |Values(w)| == |Values(v)| + r.value.created)
  {
    hide Sound, Values, Kept, DeksKept, FreshSecretId, ValidSecretName, ValidValue, WriteAll, UnwrapEnvironmentDek;
    SelfKept(v);
    if e in v.environments && v.environments[e].keyMode == CLOUD {
      DekWhenReady(v, e);
      if v.environments[e].currentKeyVersion != 0 && forall i :: 0 <= i < |entries| ==> ValidSecretName(entries[i].name) {
        WriteAllRefines(v, e, entries, Counts(0, 0), done);
      }
    }
  }

  /** The value a list of assignments leaves a name with. */
  function LastAssigned(entries: seq<Entry>, name: string): Option<string> {
    if entries == [] then None
    else
      var later := LastAssigned(entries[1..], name);
      if later.Some? then later else if entries[0].name == name then Some(entries[0].value) else None
  }

  /** What a plain import leaves under each name. */
  lemma {:induction false} PlainImportAt(p: PlainStore, e: string, entries: seq<Entry>, k: SecretName)
    ensures var q := PlainImport(p, e, entries);
            var last := if k.environmentId == e then LastAssigned(entries, k.name) else None;
            && q == p.(values := q.values)
            && (k in q.values <==> last.Some? || k in p.values)
            && (k in q.values ==> q.values[k] == if last.Some? then last.value else p.values[k])
    decreases |entries|
  {
    if entries != [] {
      PlainImportAt(p.(values := p.values[SecretName(e, entries[0].name) := entries[0].value]), e, entries[1..], k);
    }
  }

  lemma {:induction false} AssignsItsNames(entries: seq<Entry>, name: string)
    ensures LastAssigned(entries, name).Some? <==> exists i :: 0 <= i < |entries| && entries[i].name == name
  {
    if entries != [] {
      AssignsItsNames(entries[1..], name);
      if LastAssigned(entries[1..], name).Some? {
        var i :| 0 <= i < |entries[1..]| && entries[1..][i].name == name;
        assert entries[i + 1].name == name;
      }
      forall i | 0 <= i < |entries| && entries[i].name == name ensures LastAssigned(entries, name).Some? {
        assert i > 0 ==> entries[1..][i - 1].name == name;
      }
    }
  }

  /** An entry that leaves its name with the value it already had. */
  predicate Repeats(p: PlainStore, e: string, entries: seq<Entry>, name: string) {
    SecretName(e, name) in p.values && LastAssigned(entries, name) == Some(p.values[SecretName(e, name)])
  }

  /** A plain import changes nothing exactly when each of its entries repeats what was stored. */
  lemma PlainImportRepeats(p: PlainStore, e: string, entries: seq<Entry>)
    ensures PlainImport(p, e, entries) == p <==> forall i :: 0 <= i < |entries| ==> Repeats(p, e, entries, entries[i].name)
  {
    hide PlainImport, LastAssigned;
    var q := PlainImport(p, e, entries);
    PlainImportAt(p, e, entries, SecretName(e, ""));
    forall i | 0 <= i < |entries| ensures q == p ==> Repeats(p, e, entries, entries[i].name) {
      AssignsItsNames(entries, entries[i].name);
      PlainImportAt(p, e, entries, SecretName(e, entries[i].name));
    }
    if forall i :: 0 <= i < |entries| ==> Repeats(p, e, entries, entries[i].name) {
      forall k ensures (k in q.values <==> k in p.values) && (k in q.values ==> q.values[k] == p.values[k]) {
        PlainImportAt(p, e, entries, k);
        AssignsItsNames(entries, k.name);
      }
      assert q.values == p.values;
    }
  }

  /** An import is not all or nothing: whether it was refused, cut or finished, it leaves the contents as they were
      exactly when every assignment that went through repeats what was stored. */
  lemma ImportIsSilentExactly(v: Vault, e: string, entries: seq<Entry>, done: nat)
    requires Sound(v) && FreshEntries(v, entries)
    ensures var through := entries[..Imported(Abs(v), e, entries, done)];
            Abs(ImportDotenv(v, e, entries, done).0) == Abs(v) <==>
            forall i :: 0 <= i < |through| ==> Repeats(Abs(v), e, through, through[i].name)
  {
    hide Sound, Abs, Kept, ImportDotenv, ImportRefusal, FreshSecretId, PlainImport, Repeats, Imported;
    ImportRefines(v, e, entries, done);
    PlainImportRepeats(Abs(v), e, entries[..Imported(Abs(v), e, entries, done)]);
  }

  /** Two entries, cut after the first: the first is stored and the second is not, and the caller gets an error. */
  lemma CutImportKeepsTheFirst(v: Vault, e: string, a: Entry, b: Entry)
    requires Sound(v) && FreshEntries(v, [a, b]) && ImportRefusal(Abs(v), e, [a, b]).None?
    ensures ImportDotenv(v, e, [a, b], 1).1 == Err(DatabaseError)
    ensures Values(ImportDotenv(v, e, [a, b], 1).0) == Values(v)[SecretName(e, a.name) := a.value]
  {
    hide Sound, Kept, ImportDotenv, ImportRefusal, FreshSecretId, Values;
    ImportRefines(v, e, [a, b], 1);
    assert [a, b][..1] == [a] && [a][1..] == [];
    assert PlainImport(Abs(v), e, [a]) == Abs(v).(values := Abs(v).values[SecretName(e, a.name) := a.value]);
  }

  lemma DeleteRefines(v: Vault, at: SecretName)
    requires Sound(v)
    ensures var (w, r) := DeleteSecret(v, at);
            && Kept(v, w) && Abs(w) == Abs(v).(values := Abs(v).values - {at})
            && (r.Ok? <==> at in Abs(v).values)
  {
    hide Sound, Values, Kept, DeksKept;
    SoundValues(v);
    RowsHaveOwners(v);
    SelfKept(v);
    DeleteSecretKeeps(v, at);
    assert at !in v.secrets ==> Values(v) - {at} == Values(v);
  }

  // ------------------------------------------------------------------ creating and deleting

  /** How far a creation of three writes got: nothing, an unready row, or a ready one. */
  lemma CreateProjectRefines(v: Vault, id: string, slug: string, key: Key, nonce: nat, done: nat)
    requires Sound(v) && UsableId(id)
    ensures var (w, r) := CreateProject(v, id, slug, key, nonce, done);
            && Kept(v, w)
            && (r.Ok? <==> !SlugTaken(v, slug) && id !in v.projects && done >= 3)
            && Abs(w) == (if SlugTaken(v, slug) || id in v.projects || done == 0 then Abs(v)
                          else Abs(v).(projects := Abs(v).projects[id := PlainProject(slug, done >= 3)]))
            && (r.Ok? ==> UnwrapProjectKey(w, id) == Ok(key))
  {
    hide Sound, Kept, Values, UnwrapProjectKeyVersion, WrapProjectKey, SlugTaken, PlainProjects, PlainEnvironments;
    SelfKept(v);
    PlainOwners(v.projects, v.environments);
    PlainProjectPut(v.projects, id, Project(slug, 0));
    PlainProjectPut(v.projects[id := Project(slug, 0)], id, Project(slug, 1));
    ActiveMaster(v);
    if !SlugTaken(v, slug) && done != 0 && id !in v.projects {
      CreateProjectSteps(v, id, slug, key, nonce);
    }
  }

  /** The three writes of a project, one by one. */
  lemma CreateProjectSteps(v: Vault, id: string, slug: string, key: Key, nonce: nat)
    requires Sound(v) && UsableId(id) && id !in v.projects && v.keyring.activeVersion in v.keyring.keys
    ensures var active := v.keyring.activeVersion;
            var one := v.(projects := v.projects[id := Project(slug, 0)]);
            var two := InsertProjectKey(one, KeyId(id, 1), WrapProjectKey(v.keyring.keys[active], key, nonce, id, 1, active));
            var three := SetProjectVersion(two, id, 1);
            && Kept(v, one) && Kept(v, two) && Kept(v, three)
            && Values(one) == Values(v) && Values(two) == Values(v) && Values(three) == Values(v)
            && UnwrapProjectKeyVersion(three, id, 1) == Ok(key)
  {
    hide Sound, Kept, Values, UnwrapProjectKeyVersion, WrapProjectKey;
    var active := v.keyring.activeVersion;
    var one := v.(projects := v.projects[id := Project(slug, 0)]);
    var two := InsertProjectKey(one, KeyId(id, 1), WrapProjectKey(v.keyring.keys[active], key, nonce, id, 1, active));
    var three := SetProjectVersion(two, id, 1);
    ProjectRowKeeps(v, id, slug);
    NoKeysYet(v, id);
    KeptSound(v, one);
    ProjectKeyKeeps(one, id, 1, key, nonce);
    KeptSound(one, two);
    ProjectVersionKeeps(two, id, 1);
    KeptTrans(v, one, two);
    KeptTrans(v, two, three);
    SameProjectTables(two, three, id, 1);
  }

  lemma SameProjectTables(v: Vault, w: Vault, p: string, version: nat)
    requires w.projectKeys == v.projectKeys && w.keyring == v.keyring
    ensures UnwrapProjectKeyVersion(w, p, version) == UnwrapProjectKeyVersion(v, p, version)
  {
  }

  lemma NoKeysYet(v: Vault, id: string)
    requires Sound(v)
    ensures id !in v.projects ==> forall k :: k in v.projectKeys ==> k.owner != id
    ensures id !in v.environments ==> forall k :: k in v.environmentKeys ==> k.owner != id
    ensures id !in v.environments ==> forall k :: k in v.secrets ==> k.environmentId != id
  {
    RowsHaveOwners(v);
  }

  lemma ProjectKeyWhenReady(v: Vault, p: string)
    requires Sound(v) && p in v.projects
    ensures if v.projects[p].currentKeyVersion != 0 then UnwrapProjectKey(v, p).Ok?
            else UnwrapProjectKey(v, p) == Err(ProjectKeyMissing)
  {
    assert ProjectOk(v, p);
    if v.projects[p].currentKeyVersion != 0 {
      assert ProjectKeyOk(v, KeyId(p, v.projects[p].currentKeyVersion));
    }
  }

  predicate EnvironmentAccepted(v: Vault, id: string, project: string, slug: string, keyMode: KeyMode, owner: OwnerKeys) {
    OwnerRefusal(keyMode, owner).None? && project in v.projects && !EnvironmentSlugTaken(v, project, slug) && id !in v.environments
  }

  lemma CreateEnvironmentRefines(v: Vault, id: string, project: string, slug: string, keyMode: KeyMode, owner: OwnerKeys, key: Key, nonce: nat,
                                 done: nat)
    requires Sound(v) && UsableId(id)
    ensures var (w, r) := CreateEnvironment(v, id, project, slug, keyMode, owner, key, nonce, done);
            var begun := EnvironmentAccepted(v, id, project, slug, keyMode, owner) && done > 0
                         && (keyMode == CLOUD ==> v.projects[project].currentKeyVersion != 0);
            && Kept(v, w)
            && (r.Ok? <==> begun && (keyMode == CLOUD ==> done >= 3))
            && Abs(w) == (if !begun then Abs(v)
                          else Abs(v).(environments := Abs(v).environments[
                                 id := PlainEnvironment(project, slug, keyMode, keyMode == CLOUD && done >= 3)]))
            && (r.Ok? && keyMode == CLOUD ==> UnwrapEnvironmentDek(w, id) == Ok(key))
  {
    hide Sound, Kept, Values, UnwrapProjectKeyVersion, DekOf, WrapEnvironmentKey, EnvironmentSlugTaken, PlainProjects, PlainEnvironments;
    SelfKept(v);
    PlainEnvironmentPut(v.environments, id, VaultEnvironment(project, slug, keyMode, 0));
    PlainEnvironmentPut(v.environments[id := VaultEnvironment(project, slug, keyMode, 0)], id,
                        VaultEnvironment(project, slug, keyMode, 1));
    if EnvironmentAccepted(v, id, project, slug, keyMode, owner) && done > 0 {
      ProjectKeyWhenReady(v, project);
      var one := v.(environments := v.environments[id := VaultEnvironment(project, slug, keyMode, 0)]);
      EnvironmentRowKeeps(v, id, project, slug, keyMode);
      if keyMode == CLOUD && v.projects[project].currentKeyVersion != 0 {
        CreateKeySteps(v, id, project, slug, key, nonce);
      }
    }
  }

  /** The second and third write of a CLOUD environment. */
  lemma CreateKeySteps(v: Vault, id: string, project: string, slug: string, key: Key, nonce: nat)
    requires Sound(v) && UsableId(id) && project in v.projects && id !in v.environments && UnwrapProjectKey(v, project).Ok?
    requires v.projects[project].currentKeyVersion != 0
    ensures var one := v.(environments := v.environments[id := VaultEnvironment(project, slug, CLOUD, 0)]);
            var version := v.projects[project].currentKeyVersion;
            var two := InsertEnvironmentKey(one, KeyId(id, 1),
                         WrapEnvironmentKey(UnwrapProjectKey(v, project).value, key, nonce, project, id, 1, version));
            var three := SwitchCurrentEnvironmentKey(two, id, 0, 1);
            && Kept(v, one) && Kept(v, two) && Kept(v, three)
            && Values(two) == Values(v) && Values(three) == Values(v) && DekOf(three, KeyId(id, 1)) == Ok(key)
  {
    hide Sound, Kept, Values, DekOf, UnwrapProjectKeyVersion;
    var one := v.(environments := v.environments[id := VaultEnvironment(project, slug, CLOUD, 0)]);
    var version := v.projects[project].currentKeyVersion;
    var two := InsertEnvironmentKey(one, KeyId(id, 1),
                 WrapEnvironmentKey(UnwrapProjectKey(v, project).value, key, nonce, project, id, 1, version));
    EnvironmentRowKeeps(v, id, project, slug, CLOUD);
    NoKeysYet(v, id);
    SameProjectTables(v, one, project, version);
    KeptSound(v, one);
    EnvironmentKeyKeeps(one, id, 1, key, nonce, version);
    KeptSound(one, two);
    KeptTrans(v, one, two);
    NothingToMove(two, id);
    SwitchKeeps(two, id, 0, 1, two.secrets);
    var three := SwitchCurrentEnvironmentKey(two, id, 0, 1);
    assert two.(secrets := two.secrets) == two;
    KeptTrans(v, two, three);
    KeptDek(two, three, KeyId(id, 1));
  }

  lemma NothingToMove(v: Vault, id: string)
    requires SecretsOk(v) && DekOf(v, KeyId(id, 1)).Ok? && forall k :: k in v.secrets ==> k.environmentId != id
    ensures MovedAll(v, id, 1, v.secrets)
  {
  }

  lemma DeleteEnvironmentRefines(v: Vault, e: string)
    requires Sound(v)
    ensures var (w, r) := DeleteEnvironment(v, e);
            && Kept(v, w) && Abs(w) == PlainWithout(Abs(v), {e}) && (r.Ok? <==> e in Abs(v).environments)
  {
    hide Sound, Kept, Values, PlainProjects, PlainEnvironments;
    PlainOwners(v.projects, v.environments);
    DeleteEnvironmentRemoves(v, e);
    var w := WithoutEnvironments(v, {e});
    RemovesKeeps(v, w);
    RowsHaveOwners(v);
    SoundValues(v);
    SelfKept(v);
    assert Restricted(Values(v), w.environments.Keys) == PlainWithout(Abs(v), {e}).values;
    assert e !in v.environments ==> v.environments - {e} == v.environments && w.environments == v.environments;
  }

  lemma DeleteProjectRefines(v: Vault, p: string)
    requires Sound(v)
    ensures var (w, r) := DeleteProject(v, p);
            && Kept(v, w) && (r.Ok? <==> p in Abs(v).projects)
            && Abs(w) == if r.Err? then Abs(v)
                         else PlainWithout(Abs(v), EnvironmentsOf(v, p)).(projects := Abs(v).projects - {p})
  {
    hide Sound, Kept, Values;
    SelfKept(v);
    if p in v.projects {
      DeleteProjectRemoves(v, p);
      var w := DeleteProject(v, p).0;
      RemovesKeeps(v, w);
      RowsHaveOwners(v);
      SoundValues(v);
      var plain := PlainWithout(Abs(v), EnvironmentsOf(v, p));
      assert Restricted(Values(v), w.environments.Keys) == plain.values;
      assert Abs(w).environments == plain.environments;
      assert Abs(w).projects == Abs(v).projects - {p};
    }
  }

  // ------------------------------------------------------------------ rotation

  lemma ReencryptedMoves(v: Vault, k: SecretName, previous: Key, next: Key, nextVersion: nat, nonce: nat)
    requires Sound(v) && k in v.secrets
    requires DekOf(v, KeyId(k.environmentId, v.secrets[k].envKeyVersion)) == Ok(previous)
    ensures k.environmentId in v.environments
    ensures var moved := Reencrypted(v, k, previous, next, nextVersion, nonce);
            moved.Some? && Moved(v, k, moved.value, next, nextVersion)
  {
    hide OwnersOk, ProjectKeysOk, EnvironmentKeysOk, DekOf, SecretAad;
    assert SecretOk(v, k);
  }

  /** Reencrypting an environment moves each of its secrets to the next key, value unchanged. */
  lemma ReencryptMovesAll(v: Vault, one: Vault, e: string, previous: Key, next: Key, nonces: map<SecretName, nat>)
    requires Sound(v) && Sound(one) && e in v.environments && UnwrapEnvironmentDek(v, e) == Ok(previous)
    requires one == v.(environmentKeys := one.environmentKeys)
    requires DekOf(one, KeyId(e, v.environments[e].currentKeyVersion + 1)) == Ok(next)
    requires Kept(v, one) && v.environmentKeys.Keys <= one.environmentKeys.Keys
    ensures MovedAll(one, e, v.environments[e].currentKeyVersion + 1,
                     ReencryptAll(v, e, previous, next, v.environments[e].currentKeyVersion + 1, nonces))
  {
    hide Sound, DekOf, Moved, Reencrypted, Kept;
    var version := v.environments[e].currentKeyVersion + 1;
    var secrets := ReencryptAll(v, e, previous, next, version, nonces);
    forall k | k in v.secrets
      ensures if k.environmentId == e then Moved(one, k, secrets[k], next, version) else secrets[k] == v.secrets[k]
    {
      if k.environmentId == e {
        SecretHasKey(v, k);
        ReencryptedMoves(v, k, previous, next, version, if k in nonces then nonces[k] else 0);
        SameMoved(v, one, k, secrets[k], next, version);
      }
    }
  }

  lemma SameMoved(v: Vault, one: Vault, k: SecretName, secret: Secret, next: Key, version: nat)
    requires Sound(v) && k in v.secrets && k.environmentId in v.environments && one == v.(environmentKeys := one.environmentKeys)
    requires Kept(v, one) && v.environmentKeys.Keys <= one.environmentKeys.Keys && Moved(v, k, secret, next, version)
    ensures Moved(one, k, secret, next, version)
  {
    hide OwnersOk, ProjectKeysOk, EnvironmentKeysOk, IdsDistinct, SecretsOk, DekOf, SecretAad;
    SecretHasKey(v, k);
    KeptDek(v, one, KeyId(k.environmentId, v.secrets[k].envKeyVersion));
    ValueCarries(v, one, k);
  }

  /** The environment rotation runs to its end exactly when nothing stands at the next version, and at every
      prefix of its writes the contents and every key are what they were. */
  lemma RotateEnvironmentRefines(v: Vault, e: string, key: Key, nonce: nat, nonces: map<SecretName, nat>, done: nat)
    requires Sound(v)
    ensures var (w, r) := RotateEnvironmentKey(v, e, key, nonce, nonces, done);
            && Kept(v, w) && Abs(w) == Abs(v) && v.environmentKeys.Keys <= w.environmentKeys.Keys
            && (r.Ok? <==> && e in v.environments && v.environments[e].keyMode == CLOUD
                           && v.environments[e].currentKeyVersion != 0 && done >= 2
                           && KeyId(e, v.environments[e].currentKeyVersion + 1) !in v.environmentKeys)
            && (r.Ok? ==> UnwrapEnvironmentDek(w, e) == Ok(key))
  {
    hide Sound, Kept, Values, DekOf, UnwrapProjectKeyVersion, WrapEnvironmentKey, PlainEnvironments, Reencrypted, ReencryptAll;
    SelfKept(v);
    if e in v.environments && v.environments[e].keyMode == CLOUD {
      DekWhenReady(v, e);
      if v.environments[e].currentKeyVersion != 0 {
        ReadyHasProjectKey(v, e);
        forall k | k in SecretsOf(v, e) ensures Reencrypted(v, k, UnwrapEnvironmentDek(v, e).value, key,
                                                            v.environments[e].currentKeyVersion + 1, 0).Some? {
          SecretHasKey(v, k);
          ReencryptedMoves(v, k, UnwrapEnvironmentDek(v, e).value, key, v.environments[e].currentKeyVersion + 1, 0);
        }
        if done > 0 && KeyId(e, v.environments[e].currentKeyVersion + 1) !in v.environmentKeys {
          RotateEnvironmentSteps(v, e, key, nonce, nonces);
        }
      }
    }
  }

  lemma ReadyHasProjectKey(v: Vault, e: string)
    requires Sound(v) && e in v.environments && v.environments[e].keyMode == CLOUD && v.environments[e].currentKeyVersion != 0
    ensures v.environments[e].projectId in v.projects && v.projects[v.environments[e].projectId].currentKeyVersion != 0
    ensures UnwrapProjectKey(v, v.environments[e].projectId).Ok?
  {
    assert EnvironmentOk(v, e);
    assert EnvironmentKeyOk(v, KeyId(e, v.environments[e].currentKeyVersion));
    ProjectKeyWhenReady(v, v.environments[e].projectId);
  }

  lemma RotateEnvironmentSteps(v: Vault, e: string, key: Key, nonce: nat, nonces: map<SecretName, nat>)
    requires Sound(v) && e in v.environments && v.environments[e].keyMode == CLOUD && v.environments[e].currentKeyVersion != 0
    requires UnwrapEnvironmentDek(v, e).Ok? && v.environments[e].projectId in v.projects
    requires v.projects[v.environments[e].projectId].currentKeyVersion != 0
    requires UnwrapProjectKey(v, v.environments[e].projectId).Ok?
    requires KeyId(e, v.environments[e].currentKeyVersion + 1) !in v.environmentKeys
    ensures var project, version := v.environments[e].projectId, v.environments[e].currentKeyVersion;
            var one := InsertEnvironmentKey(v, KeyId(e, version + 1),
                         WrapEnvironmentKey(UnwrapProjectKey(v, project).value, key, nonce, project, e, version + 1,
                                            v.projects[project].currentKeyVersion));
            var secrets := ReencryptAll(v, e, UnwrapEnvironmentDek(v, e).value, key, version + 1, nonces);
            var two := SwitchCurrentEnvironmentKey(one.(secrets := secrets), e, version, version + 1);
            && Kept(v, one) && Values(one) == Values(v)
            && Kept(v, two) && Values(two) == Values(v) && PlainEnvironments(two.environments) == PlainEnvironments(v.environments)
            && DekOf(two, KeyId(e, version + 1)) == Ok(key)
  {
    hide Sound, Kept, Values, DekOf, UnwrapProjectKeyVersion, WrapEnvironmentKey, ReencryptAll, MovedAll;
    var project, version := v.environments[e].projectId, v.environments[e].currentKeyVersion;
    var one := InsertEnvironmentKey(v, KeyId(e, version + 1),
                 WrapEnvironmentKey(UnwrapProjectKey(v, project).value, key, nonce, project, e, version + 1,
                                    v.projects[project].currentKeyVersion));
    EnvironmentKeyKeeps(v, e, version + 1, key, nonce, v.projects[project].currentKeyVersion);
    KeptSound(v, one);
    ReencryptMovesAll(v, one, e, UnwrapEnvironmentDek(v, e).value, key, nonces);
    var secrets := ReencryptAll(v, e, UnwrapEnvironmentDek(v, e).value, key, version + 1, nonces);
    SwitchKeeps(one, e, version, version + 1, secrets);
    var two := SwitchCurrentEnvironmentKey(one.(secrets := secrets), e, version, version + 1);
    KeptTrans(v, one, two);
    KeptDek(one, two, KeyId(e, version + 1));
    PlainEnvironmentPut(v.environments, e, two.environments[e]);
  }

  lemma RotateProjectRefines(v: Vault, p: string, key: Key, nonce: nat, nonces: map<KeyId, nat>, done: nat)
    requires Sound(v)
    ensures var (w, r) := RotateProjectKey(v, p, key, nonce, nonces, done);
            && Kept(v, w) && Abs(w) == Abs(v) && w.environmentKeys.Keys == v.environmentKeys.Keys
            && (r.Ok? <==> && p in v.projects && v.projects[p].currentKeyVersion != 0 && done >= 2
                           && KeyId(p, v.projects[p].currentKeyVersion + 1) !in v.projectKeys)
            && (r.Ok? ==> UnwrapProjectKey(w, p) == Ok(key))
  {
    hide Sound, Kept, Values, DekOf, UnwrapProjectKeyVersion, WrapProjectKey, PlainProjects, RewrapAll, KeysOf;
    SelfKept(v);
    ActiveMaster(v);
    if p in v.projects {
      ProjectKeyWhenReady(v, p);
      SoundKeysUnwrap(v, p);
      if v.projects[p].currentKeyVersion != 0 && done > 0 && KeyId(p, v.projects[p].currentKeyVersion + 1) !in v.projectKeys {
        RotateProjectSteps(v, p, key, nonce, nonces);
      }
    }
  }

  lemma RewrapAllKeys(v: Vault, p: string, key: Key, version: nat, nonces: map<KeyId, nat>)
    requires forall k :: k in KeysOf(v, p) ==> DekOf(v, k).Ok?
    ensures RewrapAll(v, p, key, version, nonces).Keys == v.environmentKeys.Keys
  {
  }

  lemma SoundKeysUnwrap(v: Vault, p: string)
    requires Sound(v)
    ensures forall k :: k in KeysOf(v, p) ==> DekOf(v, k).Ok?
    ensures p in v.projects && v.projects[p].currentKeyVersion != 0 ==> KeyId(p, v.projects[p].currentKeyVersion) in v.projectKeys
  {
    KeysOfUnwrap(v, p);
    assert p in v.projects ==> ProjectOk(v, p);
  }

  lemma RotateProjectSteps(v: Vault, p: string, key: Key, nonce: nat, nonces: map<KeyId, nat>)
    requires Sound(v) && p in v.projects && v.projects[p].currentKeyVersion != 0 && v.keyring.activeVersion in v.keyring.keys
    requires KeyId(p, v.projects[p].currentKeyVersion) in v.projectKeys
    requires KeyId(p, v.projects[p].currentKeyVersion + 1) !in v.projectKeys
    requires forall k :: k in KeysOf(v, p) ==> DekOf(v, k).Ok?
    ensures var active, version := v.keyring.activeVersion, v.projects[p].currentKeyVersion;
            var one := InsertProjectKey(v, KeyId(p, version + 1),
                                        WrapProjectKey(v.keyring.keys[active], key, nonce, p, version + 1, active));
            var two := RewrapBatch(v, one, p, key, version, version + 1, nonces);
            && Kept(v, one) && Values(one) == Values(v)
            && Kept(v, two) && Values(two) == Values(v) && PlainProjects(two.projects) == PlainProjects(v.projects)
            && UnwrapProjectKeyVersion(two, p, version + 1) == Ok(key)
            && two.environmentKeys.Keys == v.environmentKeys.Keys
  {
    hide Sound, Kept, Values, DekOf, UnwrapProjectKeyVersion, WrapProjectKey, RewrapAll, KeysOf;
    RewrapAllKeys(v, p, key, v.projects[p].currentKeyVersion + 1, nonces);
    var active, version := v.keyring.activeVersion, v.projects[p].currentKeyVersion;
    var one := InsertProjectKey(v, KeyId(p, version + 1),
                                WrapProjectKey(v.keyring.keys[active], key, nonce, p, version + 1, active));
    ProjectKeyKeeps(v, p, version + 1, key, nonce);
    KeptSound(v, one);
    RewrapKeeps(v, one, p, key, version, version + 1, nonces);
    var two := RewrapBatch(v, one, p, key, version, version + 1, nonces);
    RewrapProjectKeys(v, one, two, p, key, version, version + 1, KeyId(p, version + 1));
    PlainProjectPut(v.projects, p, two.projects[p]);
  }

  // ------------------------------------------------------------------ whole runs

  /** What a run is made of. An operation of one write that fails is no step; the others say how far they got. */
  datatype VaultStep =
    | AddMaster(version: nat, key: Key, activate: bool)
    | NewProject(id: string, slug: string, key: Key, nonce: nat, done: nat)
    | NewEnvironment(id: string, project: string, slug: string, keyMode: KeyMode, owner: OwnerKeys, key: Key, nonce: nat,
                     done: nat)
    | Put(at: SecretName, value: string, id: string, nonce: nat)
    | Import(environment: string, entries: seq<Entry>, done: nat)
    | Delete(at: SecretName)
    | DropEnvironment(environment: string)
    | DropProject(project: string)
    | RotateEnvironment(environment: string, key: Key, nonce: nat, nonces: map<SecretName, nat>, done: nat)
    | RotateProject(project: string, key: Key, nonce: nat, keyNonces: map<KeyId, nat>, done: nat)

  function Apply(v: Vault, step: VaultStep): Vault {
    match step
    case AddMaster(version, key, activate) => AddMasterKey(v, version, key, activate)
    case NewProject(id, slug, key, nonce, done) => CreateProject(v, id, slug, key, nonce, done).0
    case NewEnvironment(id, project, slug, keyMode, owner, key, nonce, done) =>
      CreateEnvironment(v, id, project, slug, keyMode, owner, key, nonce, done).0
    case Put(at, value, id, nonce) => PutSecret(v, at, value, id, nonce).0
    case Import(environment, entries, done) => ImportDotenv(v, environment, entries, done).0
    case Delete(at) => DeleteSecret(v, at).0
    case DropEnvironment(environment) => DeleteEnvironment(v, environment).0
    case DropProject(project) => DeleteProject(v, project).0
    case RotateEnvironment(environment, key, nonce, nonces, done) =>
      RotateEnvironmentKey(v, environment, key, nonce, nonces, done).0
    case RotateProject(project, key, nonce, nonces, done) => RotateProjectKey(v, project, key, nonce, nonces, done).0
  }

  predicate PlainSlugTaken(p: PlainStore, slug: string) {
    exists q :: q in p.projects && p.projects[q].slug == slug
  }

  predicate PlainEnvironmentSlugTaken(p: PlainStore, project: string, slug: string) {
    exists e :: e in p.environments && p.environments[e].projectId == project && p.environments[e].slug == slug
  }

  /** The same step on the plain store, which has no keys to rotate. */
  function PlainApply(p: PlainStore, step: VaultStep): PlainStore {
    match step
    case NewProject(id, slug, _, _, done) =>
      if PlainSlugTaken(p, slug) || id in p.projects || done == 0 then p
      else p.(projects := p.projects[id := PlainProject(slug, done >= 3)])
    case NewEnvironment(id, project, slug, keyMode, owner, _, _, done) =>
      if project !in p.projects || PlainEnvironmentSlugTaken(p, project, slug) || id in p.environments || done == 0
         || OwnerRefusal(keyMode, owner).Some?
         || (keyMode == CLOUD && !p.projects[project].ready)
      then p
      else p.(environments := p.environments[id := PlainEnvironment(project, slug, keyMode, keyMode == CLOUD && done >= 3)])
    case Put(at, value, _, _) => PlainPut(p, at, value).0
    case Import(environment, entries, done) =>
      PlainImport(p, environment, entries[..Imported(p, environment, entries, done)])
    case Delete(at) => p.(values := p.values - {at})
    case DropEnvironment(environment) => PlainWithout(p, {environment})
    case DropProject(project) =>
      if project !in p.projects then p
      else PlainWithout(p, set e | e in p.environments && p.environments[e].projectId == project)
             .(projects := p.projects - {project})
    case _ => p
  }

  /** What the id generators promise: non-empty ids without line feeds, and secret ids not in use. */
  predicate FreshIds(v: Vault, step: VaultStep) {
    match step
    case NewProject(id, _, _, _, _) => UsableId(id)
    case NewEnvironment(id, _, _, _, _, _, _, _) => UsableId(id)
    case Put(_, _, id, _) => FreshSecretId(v, id)
    case Import(_, entries, _) => FreshEntries(v, entries)
    case _ => true
  }

  /** One step: the vault stays sound, no key is lost, and the plain store is what the plain step makes it. */
  lemma StepRefines(v: Vault, step: VaultStep)
    requires Sound(v) && FreshIds(v, step)
    ensures Kept(v, Apply(v, step)) && Abs(Apply(v, step)) == PlainApply(Abs(v), step)
  {
    hide Sound, Kept, Values, PlainProjects, PlainEnvironments, DekOf, PutSecret, WriteAll, RotateEnvironmentKey, RotateProjectKey,
      CreateProject, CreateEnvironment, DeleteEnvironment, DeleteProject, DeleteSecret, ImportDotenv, AddMasterKey, PlainImport,
      PlainPut, PlainWithout;
    match step
    case AddMaster(version, key, activate) => AddMasterKeyKeeps(v, version, key, activate);
    case NewProject(id, slug, key, nonce, done) =>
      PlainSlugs(v, "", slug);
      CreateProjectRefines(v, id, slug, key, nonce, done);
    case NewEnvironment(id, project, slug, keyMode, owner, key, nonce, done) =>
      PlainSlugs(v, project, slug);
      CreateEnvironmentRefines(v, id, project, slug, keyMode, owner, key, nonce, done);
    case Put(at, value, id, nonce) => PutRefines(v, at, value, id, nonce);
    case Import(environment, entries, done) => ImportRefines(v, environment, entries, done);
    case Delete(at) => DeleteRefines(v, at);
    case DropEnvironment(environment) => DeleteEnvironmentRefines(v, environment);
    case DropProject(project) =>
      PlainSlugs(v, project, "");
      DeleteProjectRefines(v, project);
    case RotateEnvironment(environment, key, nonce, nonces, done) =>
      RotateEnvironmentRefines(v, environment, key, nonce, nonces, done);
    case RotateProject(project, key, nonce, nonces, done) => RotateProjectRefines(v, project, key, nonce, nonces, done);
  }

  /** The plain store sees the same owners and slugs. */
  lemma PlainSlugs(v: Vault, project: string, slug: string)
    ensures Abs(v).projects.Keys == v.projects.Keys && Abs(v).environments.Keys == v.environments.Keys
    ensures PlainSlugTaken(Abs(v), slug) <==> SlugTaken(v, slug)
    ensures PlainEnvironmentSlugTaken(Abs(v), project, slug) <==> EnvironmentSlugTaken(v, project, slug)
    ensures (set e | e in Abs(v).environments && Abs(v).environments[e].projectId == project) == EnvironmentsOf(v, project)
    ensures forall p :: p in v.projects ==> (Abs(v).projects[p].ready <==> v.projects[p].currentKeyVersion != 0)
  {
    assert forall p :: p in v.projects ==> Abs(v).projects[p] == PlainProjectOf(v.projects[p]);
    assert forall e :: e in v.environments ==> Abs(v).environments[e] == PlainEnvironmentOf(v.environments[e]);
    if SlugTaken(v, slug) {
      var p :| p in v.projects && v.projects[p].slug == slug;
      assert p in Abs(v).projects && Abs(v).projects[p].slug == slug;
    }
    if EnvironmentSlugTaken(v, project, slug) {
      var e :| e in v.environments && v.environments[e].projectId == project && v.environments[e].slug == slug;
      assert e in Abs(v).environments && Abs(v).environments[e].projectId == project;
    }
  }

  ghost predicate VaultRun(v: Vault, steps: seq<VaultStep>, w: Vault)
    decreases |steps|
  {
    if steps == [] then w == v else FreshIds(v, steps[0]) && VaultRun(Apply(v, steps[0]), steps[1..], w)
  }

  function PlainRun(p: PlainStore, steps: seq<VaultStep>): PlainStore
    decreases |steps|
  {
    if steps == [] then p else PlainRun(PlainApply(p, steps[0]), steps[1..])
  }

  function EmptyVault(version: nat, master: Key): Vault {
    Vault(Keyring(version, map[version := master]), map[], map[], map[], map[], map[])
  }

  lemma {:induction false} RunRefines(v: Vault, steps: seq<VaultStep>, w: Vault)
    requires Sound(v) && VaultRun(v, steps, w)
    ensures Sound(w) && Abs(w) == PlainRun(Abs(v), steps)
    decreases |steps|
  {
    hide Sound, Abs, Apply, PlainApply, FreshIds, Kept;
    if steps != [] {
      StepRefines(v, steps[0]);
      KeptSound(v, Apply(v, steps[0]));
      RunRefines(Apply(v, steps[0]), steps[1..], w);
    }
  }

  /** From the empty vault, after any run of operations complete or cut short: the contents are the plain
      map's, every row decrypts to the last value put, at its environment's current key version, and every
      stored environment key, retired ones too, unwraps. */
  lemma VaultIsAPlainMap(version: nat, master: Key, steps: seq<VaultStep>, w: Vault)
    requires VaultRun(EmptyVault(version, master), steps, w)
    ensures Abs(w) == PlainRun(PlainStore(map[], map[], map[]), steps)
    ensures forall k :: k in w.secrets ==>
              && k in PlainRun(PlainStore(map[], map[], map[]), steps).values
              && ValueOf(w, k) == Some(PlainRun(PlainStore(map[], map[], map[]), steps).values[k])
              && k.environmentId in w.environments
              && w.secrets[k].envKeyVersion == w.environments[k.environmentId].currentKeyVersion
    ensures forall k :: k in w.environmentKeys ==> DekOf(w, k).Ok?
  {
    var v := EmptyVault(version, master);
    assert Abs(v) == PlainStore(map[], map[], map[]);
    assert Sound(v);
    hide VaultRun, PlainRun;
    RunRefines(v, steps, w);
    SoundValues(w);
    forall k | k in w.secrets ensures k.environmentId in w.environments
                                      && w.secrets[k].envKeyVersion == w.environments[k.environmentId].currentKeyVersion {
      SecretHasKey(w, k);
    }
    forall k | k in w.environmentKeys ensures DekOf(w, k).Ok? {
      SoundKeys(w, k);
    }
  }

  /** A key once stored keeps its value over any run that keeps its row. */
  lemma {:induction false} KeysSurviveRuns(v: Vault, steps: seq<VaultStep>, w: Vault, k: KeyId)
    requires Sound(v) && VaultRun(v, steps, w) && k in v.environmentKeys
    requires Undeleted(v, steps, k)
    ensures k in w.environmentKeys && DekOf(w, k) == DekOf(v, k)
    decreases |steps|
  {
    hide Sound, Abs, Apply, PlainApply, FreshIds, Kept, DekOf;
    if steps != [] {
      var next := Apply(v, steps[0]);
      StepRefines(v, steps[0]);
      KeptSound(v, next);
      KeysSurviveRuns(next, steps[1..], w, k);
      KeptDek(v, next, k);
    }
  }

  predicate Undeleted(v: Vault, steps: seq<VaultStep>, k: KeyId)
    decreases |steps|
  {
    steps == [] || (k in Apply(v, steps[0]).environmentKeys && Undeleted(Apply(v, steps[0]), steps[1..], k))
  }

  // ------------------------------------------------------------------ interrupted rotations, moved ciphertexts

  /** The first write of a rotation landed and its batch did not. */
  predicate Interrupted(v: Vault, e: string) {
    && e in v.environments && v.environments[e].currentKeyVersion != 0
    && KeyId(e, v.environments[e].currentKeyVersion + 1) in v.environmentKeys
  }

  /** A rotation cut between its two writes leaves a row its own retry collides with. */
  lemma CutRotationInterrupts(v: Vault, e: string, key: Key, nonce: nat, nonces: map<SecretName, nat>)
    requires Sound(v) && e in v.environments && v.environments[e].keyMode == CLOUD && v.environments[e].currentKeyVersion != 0
    ensures Interrupted(RotateEnvironmentKey(v, e, key, nonce, nonces, 1).0, e)
  {
    hide Sound, DekOf, UnwrapProjectKeyVersion, WrapEnvironmentKey, Reencrypted, ReencryptAll;
    DekWhenReady(v, e);
    ReadyHasProjectKey(v, e);
    forall k | k in SecretsOf(v, e) ensures Reencrypted(v, k, UnwrapEnvironmentDek(v, e).value, key,
                                                        v.environments[e].currentKeyVersion + 1, 0).Some? {
      SecretHasKey(v, k);
      ReencryptedMoves(v, k, UnwrapEnvironmentDek(v, e).value, key, v.environments[e].currentKeyVersion + 1, 0);
    }
  }

  lemma InterruptedStays(v: Vault, step: VaultStep, e: string)
    requires Interrupted(v, e) && e in Apply(v, step).environments
    ensures Interrupted(Apply(v, step), e)
    ensures Apply(v, step).environments[e] == v.environments[e]
  {
    hide DekOf, UnwrapProjectKeyVersion, WrapEnvironmentKey, WrapProjectKey, Reencrypted, ReencryptAll, WriteAll, WriteSecret,
      Rewrapped, ValidValue, ValidSecretName, SecretsOf, ImportDotenv, PutSecret, RotateProjectKey;
    match step
    case Import(environment, entries, done) => ImportTouches(v, environment, entries, done);
    case Put(at, value, id, nonce) => PutTouchesSecrets(v, at, value, id, nonce);
    case RotateProject(project, key, nonce, nonces, done) =>
      RotateProjectTouches(v, project, key, nonce, nonces, done);
    case _ =>
  }

  lemma PutTouchesSecrets(v: Vault, at: SecretName, value: string, id: string, nonce: nat)
    ensures var w := PutSecret(v, at, value, id, nonce).0; w == v.(secrets := w.secrets)
  {
  }

  lemma RotateProjectTouches(v: Vault, p: string, key: Key, nonce: nat, nonces: map<KeyId, nat>, done: nat)
    ensures var w := RotateProjectKey(v, p, key, nonce, nonces, done).0;
            w.environments == v.environments && w.environmentKeys.Keys == v.environmentKeys.Keys
  {
    hide DekOf, UnwrapProjectKeyVersion, WrapProjectKey, RewrapAll, KeysOf;
    if p in v.projects && forall k :: k in KeysOf(v, p) ==> DekOf(v, k).Ok? {
      RewrapAllKeys(v, p, key, v.projects[p].currentKeyVersion + 1, nonces);
    }
  }

  predicate Stays(v: Vault, steps: seq<VaultStep>, e: string)
    decreases |steps|
  {
    steps == [] || (e in Apply(v, steps[0]).environments && Stays(Apply(v, steps[0]), steps[1..], e))
  }

  /** Once interrupted, an environment never rotates again: whatever runs in between, every later attempt is
      refused and changes nothing, for as long as the environment exists. */
  lemma {:induction false} InterruptedForever(v: Vault, steps: seq<VaultStep>, w: Vault, e: string, key: Key, nonce: nat,
                                              nonces: map<SecretName, nat>, done: nat)
    requires Interrupted(v, e) && VaultRun(v, steps, w) && Stays(v, steps, e)
    ensures e in w.environments && w.environments[e] == v.environments[e]
    ensures RotateEnvironmentKey(w, e, key, nonce, nonces, done).0 == w
    ensures RotateEnvironmentKey(w, e, key, nonce, nonces, done).1.Err?
    decreases |steps|
  {
    hide Apply, FreshIds, DekOf, UnwrapProjectKeyVersion, Reencrypted;
    if steps != [] {
      InterruptedStays(v, steps[0], e);
      InterruptedForever(Apply(v, steps[0]), steps[1..], w, e, key, nonce, nonces, done);
    }
  }

  /** The same of a project: its next key row is in and its batch is not. */
  predicate ProjectInterrupted(v: Vault, p: string) {
    && p in v.projects && v.projects[p].currentKeyVersion != 0
    && KeyId(p, v.projects[p].currentKeyVersion + 1) in v.projectKeys
  }

  lemma CutProjectRotationInterrupts(v: Vault, p: string, key: Key, nonce: nat, nonces: map<KeyId, nat>)
    requires Sound(v) && p in v.projects && v.projects[p].currentKeyVersion != 0
    ensures ProjectInterrupted(RotateProjectKey(v, p, key, nonce, nonces, 1).0, p)
  {
    hide Sound, DekOf, UnwrapProjectKeyVersion, WrapProjectKey, KeysOf, RewrapAll;
    ActiveMaster(v);
    ProjectKeyWhenReady(v, p);
    SoundKeysUnwrap(v, p);
  }

  lemma ProjectInterruptedStays(v: Vault, step: VaultStep, p: string)
    requires ProjectInterrupted(v, p) && p in Apply(v, step).projects
    ensures ProjectInterrupted(Apply(v, step), p) && Apply(v, step).projects[p] == v.projects[p]
  {
    hide DekOf, UnwrapProjectKeyVersion, WrapEnvironmentKey, WrapProjectKey, Reencrypted, ReencryptAll, WriteAll, WriteSecret,
      Rewrapped, RewrapAll, KeysOf, SecretsOf, SlugTaken, EnvironmentSlugTaken, ImportDotenv, PutSecret;
    match step
    case Import(environment, entries, done) => ImportTouches(v, environment, entries, done);
    case Put(at, value, id, nonce) => PutTouchesSecrets(v, at, value, id, nonce);
    case _ =>
  }

  predicate ProjectStays(v: Vault, steps: seq<VaultStep>, p: string)
    decreases |steps|
  {
    steps == [] || (p in Apply(v, steps[0]).projects && ProjectStays(Apply(v, steps[0]), steps[1..], p))
  }

  /** Once interrupted, a project never rotates again either, for as long as it exists. */
  lemma {:induction false} ProjectInterruptedForever(v: Vault, steps: seq<VaultStep>, w: Vault, p: string, key: Key, nonce: nat,
                                                     nonces: map<KeyId, nat>, done: nat)
    requires ProjectInterrupted(v, p) && VaultRun(v, steps, w) && ProjectStays(v, steps, p)
    ensures p in w.projects && w.projects[p] == v.projects[p]
    ensures RotateProjectKey(w, p, key, nonce, nonces, done).0 == w
    ensures RotateProjectKey(w, p, key, nonce, nonces, done).1.Err?
    decreases |steps|
  {
    hide Apply, FreshIds, DekOf, UnwrapProjectKeyVersion, KeysOf;
    if steps != [] {
      ProjectInterruptedStays(v, steps[0], p);
      ProjectInterruptedForever(Apply(v, steps[0]), steps[1..], w, p, key, nonce, nonces, done);
    }
  }

  // ------------------------------------------------------------------ a rotation as two steps

  /** The batch of an environment rotation whose key row is already in: every rewrite and the switch. */
  function FinishEnvironment(v: Vault, e: string, key: Key, nonces: map<SecretName, nat>): Vault {
    if e in v.environments && UnwrapEnvironmentDek(v, e).Ok?
       && DekOf(v, KeyId(e, v.environments[e].currentKeyVersion + 1)) == Ok(key)
    then
      var version := v.environments[e].currentKeyVersion;
      SwitchCurrentEnvironmentKey(
        v.(secrets := ReencryptAll(v, e, UnwrapEnvironmentDek(v, e).value, key, version + 1, nonces)), e, version, version + 1)
    else v
  }

  /** The batch of a project rotation whose key row is already in: every rewrap, the retirement and the switch. */
  function FinishProject(v: Vault, p: string, key: Key, nonces: map<KeyId, nat>): Vault {
    if p in v.projects && KeyId(p, v.projects[p].currentKeyVersion) in v.projectKeys
       && UnwrapProjectKeyVersion(v, p, v.projects[p].currentKeyVersion + 1) == Ok(key)
       && forall k :: k in KeysOf(v, p) ==> DekOf(v, k).Ok?
    then
      var version := v.projects[p].currentKeyVersion;
      RewrapBatch(v, v, p, key, version, version + 1, nonces)
    else v
  }

  /** Inserting the key row and later running the batch is the whole rotation. */
  lemma RotationIsTwoSteps(v: Vault, e: string, key: Key, nonce: nat, nonces: map<SecretName, nat>)
    requires Sound(v) && RotateEnvironmentKey(v, e, key, nonce, nonces, 2).1.Ok?
    ensures FinishEnvironment(RotateEnvironmentKey(v, e, key, nonce, nonces, 1).0, e, key, nonces)
         == RotateEnvironmentKey(v, e, key, nonce, nonces, 2).0
  {
    hide Sound, Kept, Values, DekOf, UnwrapProjectKeyVersion, WrapEnvironmentKey, PlainEnvironments, Reencrypted, ReencryptAll;
    RotateEnvironmentRefines(v, e, key, nonce, nonces, 1);
    RotateEnvironmentRefines(v, e, key, nonce, nonces, 2);
    var one, two := RotateEnvironmentKey(v, e, key, nonce, nonces, 1).0, RotateEnvironmentKey(v, e, key, nonce, nonces, 2).0;
    var version := v.environments[e].currentKeyVersion;
    CurrentDekStands(v, e);
    KeptDek(v, one, KeyId(e, version));
    RotationKeyIn(v, e, key, nonce, nonces);
    SameReencryptAll(v, one, e, UnwrapEnvironmentDek(v, e).value, key, version + 1, nonces);
  }

  lemma SameReencryptAll(v: Vault, one: Vault, e: string, previous: Key, next: Key, version: nat, nonces: map<SecretName, nat>)
    requires e in v.environments && one.secrets == v.secrets && one.environments == v.environments
    ensures ReencryptAll(one, e, previous, next, version, nonces) == ReencryptAll(v, e, previous, next, version, nonces)
  {
    hide Reencrypted;
    forall k | k in v.secrets && k.environmentId == e
      ensures Reencrypted(one, k, previous, next, version, if k in nonces then nonces[k] else 0)
           == Reencrypted(v, k, previous, next, version, if k in nonces then nonces[k] else 0)
    {
      SameReencrypted(v, one, k, previous, next, version, if k in nonces then nonces[k] else 0);
    }
  }

  /** The same for a project. */
  lemma ProjectRotationIsTwoSteps(v: Vault, p: string, key: Key, nonce: nat, nonces: map<KeyId, nat>)
    requires Sound(v) && RotateProjectKey(v, p, key, nonce, nonces, 2).1.Ok?
    ensures FinishProject(RotateProjectKey(v, p, key, nonce, nonces, 1).0, p, key, nonces)
         == RotateProjectKey(v, p, key, nonce, nonces, 2).0
  {
    hide Sound, Kept, Values, DekOf, UnwrapProjectKeyVersion, WrapProjectKey, PlainProjects, RewrapAll, KeysOf;
    RotateProjectRefines(v, p, key, nonce, nonces, 1);
    RotateProjectRefines(v, p, key, nonce, nonces, 2);
    ProjectRotationKeyIn(v, p, key, nonce, nonces);
    SoundKeysUnwrap(v, p);
    SameRewrapAll(v, RotateProjectKey(v, p, key, nonce, nonces, 1).0, p, key, v.projects[p].currentKeyVersion + 1, nonces);
  }

  lemma ProjectRotationKeyIn(v: Vault, p: string, key: Key, nonce: nat, nonces: map<KeyId, nat>)
    requires Sound(v) && RotateProjectKey(v, p, key, nonce, nonces, 2).1.Ok?
    ensures p in v.projects
    ensures var one, version := RotateProjectKey(v, p, key, nonce, nonces, 1).0, v.projects[p].currentKeyVersion;
            && one == v.(projectKeys := one.projectKeys) && KeyId(p, version) in one.projectKeys
            && UnwrapProjectKeyVersion(one, p, version + 1) == Ok(key)
  {
    hide Sound, Values, DekOf, RewrapAll, KeysOf;
    SoundKeysUnwrap(v, p);
    RotateProjectRefines(v, p, key, nonce, nonces, 2);
  }

  lemma SameRewrapAll(v: Vault, one: Vault, p: string, key: Key, version: nat, nonces: map<KeyId, nat>)
    requires Kept(v, one) && one == v.(projectKeys := one.projectKeys)
    requires forall k :: k in KeysOf(v, p) ==> DekOf(v, k).Ok?
    ensures KeysOf(one, p) == KeysOf(v, p) && forall k :: k in KeysOf(v, p) ==> DekOf(one, k).Ok?
    ensures RewrapAll(one, p, key, version, nonces) == RewrapAll(v, p, key, version, nonces)
  {
    hide Kept, DekOf, WrapEnvironmentKey;
    forall k | k in KeysOf(v, p) ensures DekOf(one, k) == DekOf(v, k) {
      KeptDek(v, one, k);
    }
  }

  lemma SameReencrypted(v: Vault, one: Vault, k: SecretName, previous: Key, next: Key, version: nat, nonce: nat)
    requires k in v.secrets && k.environmentId in v.environments && one.secrets == v.secrets && one.environments == v.environments
    ensures Reencrypted(one, k, previous, next, version, nonce) == Reencrypted(v, k, previous, next, version, nonce)
  {
  }

  lemma CurrentDekStands(v: Vault, e: string)
    requires UnwrapEnvironmentDek(v, e).Ok?
    ensures e in v.environments && KeyId(e, v.environments[e].currentKeyVersion) in v.environmentKeys
    ensures UnwrapEnvironmentDek(v, e) == DekOf(v, KeyId(e, v.environments[e].currentKeyVersion))
  {
  }

  lemma RotationKeyIn(v: Vault, e: string, key: Key, nonce: nat, nonces: map<SecretName, nat>)
    requires Sound(v) && RotateEnvironmentKey(v, e, key, nonce, nonces, 2).1.Ok?
    ensures var one := RotateEnvironmentKey(v, e, key, nonce, nonces, 1).0;
            && one.environments == v.environments && one.secrets == v.secrets
            && DekOf(one, KeyId(e, v.environments[e].currentKeyVersion + 1)) == Ok(key)
            && UnwrapEnvironmentDek(one, e) == UnwrapEnvironmentDek(v, e)
  {
    hide Sound, Values, Reencrypted, ReencryptAll;
  }

  /** The batch keeps everything, whatever else happened since the key row went in. */
  lemma FinishEnvironmentRefines(v: Vault, e: string, key: Key, nonces: map<SecretName, nat>)
    requires Sound(v)
    ensures var w := FinishEnvironment(v, e, key, nonces); Kept(v, w) && Abs(w) == Abs(v) && Touches(v, w, None)
  {
    hide Sound, Kept, Values, DekOf, Reencrypted, ReencryptAll, MovedAll;
    SelfKept(v);
    var w := FinishEnvironment(v, e, key, nonces);
    if w != v {
      var version := v.environments[e].currentKeyVersion;
      CurrentDekStands(v, e);
      NextKeyStands(v, e, key);
      ReencryptMovesAll(v, v, e, UnwrapEnvironmentDek(v, e).value, key, nonces);
      SwitchKeeps(v, e, version, version + 1, ReencryptAll(v, e, UnwrapEnvironmentDek(v, e).value, key, version + 1, nonces));
      PlainEnvironmentPut(v.environments, e, w.environments[e]);
    }
  }

  lemma NextKeyStands(v: Vault, e: string, key: Key)
    requires Sound(v) && UnwrapEnvironmentDek(v, e).Ok? && DekOf(v, KeyId(e, v.environments[e].currentKeyVersion + 1)) == Ok(key)
    ensures KeyId(e, v.environments[e].currentKeyVersion + 1) in v.environmentKeys && v.environments[e].currentKeyVersion != 0
  {
    assert EnvironmentOk(v, e);
  }

  lemma FinishProjectRefines(v: Vault, p: string, key: Key, nonces: map<KeyId, nat>)
    requires Sound(v)
    ensures var w := FinishProject(v, p, key, nonces); Kept(v, w) && Abs(w) == Abs(v) && Touches(v, w, None)
  {
    hide Sound, Kept, Values, DekOf, UnwrapProjectKeyVersion, RewrapAll, KeysOf;
    SelfKept(v);
    var w := FinishProject(v, p, key, nonces);
    if w != v {
      var version := v.projects[p].currentKeyVersion;
      NextProjectKeyStands(v, p, key);
      RewrapAllKeys(v, p, key, version + 1, nonces);
      RewrapKeeps(v, v, p, key, version, version + 1, nonces);
      PlainProjectPut(v.projects, p, w.projects[p]);
    }
  }

  lemma NextProjectKeyStands(v: Vault, p: string, key: Key)
    requires Sound(v) && p in v.projects && KeyId(p, v.projects[p].currentKeyVersion) in v.projectKeys
    requires UnwrapProjectKeyVersion(v, p, v.projects[p].currentKeyVersion + 1) == Ok(key)
    ensures KeyId(p, v.projects[p].currentKeyVersion + 1) in v.projectKeys && v.projects[p].currentKeyVersion != 0
  {
    assert ProjectOk(v, p);
  }

  /** A ciphertext opens only in its own row: carried to another name, id, version or environment it fails. */
  lemma MovedCiphertextFails(v: Vault, at: SecretName, other: SecretName, planted: Secret)
    requires Sound(v) && at in v.secrets && other.environmentId in v.environments && OneLine(planted.id) && OneLine(other.name)
    requires planted.ciphertext == v.secrets[at].ciphertext
    requires other != at || planted.id != v.secrets[at].id || planted.version != v.secrets[at].version
          || planted.envKeyVersion != v.secrets[at].envKeyVersion
    ensures ValueOf(v.(secrets := v.secrets[other := planted]), other).None?
  {
    hide DekOf, ProjectKeysOk, EnvironmentKeysOk, IdsDistinct, SecretAad;
    var row := v.secrets[at];
    assert SecretOk(v, at) && EnvironmentOk(v, at.environmentId) && EnvironmentOk(v, other.environmentId);
    var p, q := v.environments[at.environmentId].projectId, v.environments[other.environmentId].projectId;
    assert ProjectOk(v, p) && ProjectOk(v, q);
    NameIsOneLine(at.name);
    SecretAadBinds(p, at.environmentId, row.id, at.name, row.version, row.envKeyVersion,
                   q, other.environmentId, planted.id, other.name, planted.version, planted.envKeyVersion);
    assert row.ciphertext.aad == SecretAad(p, at.environmentId, row.id, at.name, row.version, row.envKeyVersion);
  }

  lemma NameIsOneLine(name: string)
    requires ValidSecretName(name)
    ensures OneLine(name)
  {
  }

  /** How the owners and keys of the tables may change: an environment that stays keeps its project and its
      keys; a new key belongs to an environment that was there or was just created. */
  predicate Touches(v: Vault, w: Vault, created: Option<string>) {
    && (forall e :: e in w.environments ==>
          if e in v.environments then w.environments[e].projectId == v.environments[e].projectId
          else created == Some(e))
    && (forall k :: k in v.environmentKeys && k.owner in w.environments ==> k in w.environmentKeys)
    && (forall k :: k in w.environmentKeys ==> k in v.environmentKeys || k.owner in v.environments || created == Some(k.owner))
  }

  lemma CreateEnvironmentTouches(v: Vault, id: string, project: string, slug: string, keyMode: KeyMode, owner: OwnerKeys, key: Key, nonce: nat,
                                 done: nat)
    ensures var w := CreateEnvironment(v, id, project, slug, keyMode, owner, key, nonce, done).0;
            w == v || (id !in v.environments && w.environments.Keys == v.environments.Keys + {id}
                       && (forall e :: e in v.environments ==> w.environments[e] == v.environments[e])
                       && v.environmentKeys.Keys <= w.environmentKeys.Keys <= v.environmentKeys.Keys + {KeyId(id, 1)})
  {
    hide DekOf, UnwrapProjectKeyVersion, WrapEnvironmentKey, EnvironmentSlugTaken;
  }

  lemma RotateEnvironmentTouches(v: Vault, e: string, key: Key, nonce: nat, nonces: map<SecretName, nat>, done: nat)
    ensures var w := RotateEnvironmentKey(v, e, key, nonce, nonces, done).0;
            w == v || (e in v.environments && w.environments.Keys == v.environments.Keys
                       && (forall f :: f in v.environments ==> w.environments[f].projectId == v.environments[f].projectId)
                       && w.environmentKeys.Keys == v.environmentKeys.Keys + {KeyId(e, v.environments[e].currentKeyVersion + 1)})
  {
    hide DekOf, UnwrapProjectKeyVersion, WrapEnvironmentKey, Reencrypted, ReencryptAll;
  }

  lemma DeletesTouch(v: Vault, e: string, p: string)
    ensures Touches(v, DeleteEnvironment(v, e).0, None) && Touches(v, DeleteProject(v, p).0, None)
  {
  }

  lemma ImportTouches(v: Vault, environment: string, entries: seq<Entry>, done: nat)
    ensures var w := ImportDotenv(v, environment, entries, done).0; w == v.(secrets := w.secrets)
  {
    hide DekOf, WriteAll, ValidValue, ValidSecretName;
    if environment in v.environments && UnwrapEnvironmentDek(v, environment).Ok? {
      WriteAllKeys(v, environment, UnwrapEnvironmentDek(v, environment).value, v.environments[environment].currentKeyVersion,
                   entries, Counts(0, 0), done);
    }
  }

  lemma CreateProjectTouches(v: Vault, id: string, slug: string, key: Key, nonce: nat, done: nat)
    ensures var w := CreateProject(v, id, slug, key, nonce, done).0;
            w.environments == v.environments && w.environmentKeys == v.environmentKeys
  {
    hide SlugTaken, WrapProjectKey;
  }

  lemma StepTouches(v: Vault, step: VaultStep)
    ensures Touches(v, Apply(v, step), if step.NewEnvironment? then Some(step.id) else None)
  {
    hide CreateProject, CreateEnvironment, RotateEnvironmentKey, RotateProjectKey, DeleteEnvironment, DeleteProject, PutSecret,
      ImportDotenv;
    match step
    case NewProject(id, slug, key, nonce, done) => CreateProjectTouches(v, id, slug, key, nonce, done);
    case NewEnvironment(id, project, slug, keyMode, owner, key, nonce, done) =>
      CreateEnvironmentTouches(v, id, project, slug, keyMode, owner, key, nonce, done);
    case RotateEnvironment(e, key, nonce, nonces, done) => RotateEnvironmentTouches(v, e, key, nonce, nonces, done);
    case DropEnvironment(e) => DeletesTouch(v, e, "");
    case DropProject(p) => DeletesTouch(v, "", p);
    case Import(environment, entries, done) => ImportTouches(v, environment, entries, done);
    case Put(at, value, id, nonce) => PutTouchesSecrets(v, at, value, id, nonce);
    case RotateProject(project, key, nonce, nonces, done) =>
      RotateProjectTouches(v, project, key, nonce, nonces, done);
    case _ =>
  }
}
