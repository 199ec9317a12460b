/** The vault, the boot session and the key release together: approvals read the vault as it stands at each of
    their awaits, with any vault operation and any handler in between. */
module CloudRuns {
  import opened Ideal
  import opened Protocol
  import opened AadText
  import opened BootTables
  import opened BootInvariants
  import opened Approvals
  import opened BootRuns
  import opened ApprovalRuns
  import opened Orphaned
  import opened Release
  import opened ClientSession
  import opened ChildEnv
  import V = VaultTables
  import VR = VaultRefinement
  import VS = VaultRuns

  /** A ciphertext snapshot an approval loaded, and the plain values it had at that moment. */
  datatype Load = Load(environmentId: string, version: nat, records: seq<SecretRecord>, values: map<string, string>)

  /** One key release in flight: its request checked, or the key unwrapped for it. */
  datatype Releasing = Checked(request: Request) | Unwrapped(request: Request, dek: Key)

  datatype Released = Released(request: Request, envelope: KeyEnvelope)

  /** `deks`, `projects`, `released` and `loads` are history: the key each stored environment key row was
      created with, each environment's project, every envelope produced and every snapshot loaded. */
  datatype Cloud = Cloud(
    vault: V.Vault, boots: World, deks: map<V.KeyId, Key>, projects: map<string, string>, releases: map<nat, Releasing>,
    released: set<Released>, loads: set<Load>)

  /** A vault operation, or the batch of a rotation whose key row went in earlier; a handler or a piece of an
      approval; a piece of a key release. */
  datatype CloudStep =
    | VaultDo(step: VS.VaultStep)
    | FinishEnvironment(environment: string, key: Key, nonces: map<V.SecretName, nat>)
    | FinishProject(project: string, key: Key, keyNonces: map<V.KeyId, nat>)
    | BootDo(move: Move)
    | CheckRelease(j: nat, request: Request)
    | UnwrapRelease(j: nat)
    | SealRelease(j: nat, serverSecret: nat, salt: nat, nonce: nat)

  // ------------------------------------------------------------------ the steps

  /** The D1 environment row an approval reads. */
  predicate ReadsEnvironment(v: V.Vault, e: string, environment: Option<Environment>) {
    && (environment.Some? <==> e in v.environments)
    && (environment.Some? ==>
          var row := v.environments[e];
          && environment.value.projectId == row.projectId && environment.value.keyMode == row.keyMode
          && environment.value.currentKeyVersion == row.currentKeyVersion)
  }

  /** The approval flow completes with what it prepared and with the envelope released for it. */
  predicate Completes(c: Cloud, completing: Option<Completion>) {
    completing.Some? ==>
      exists r :: r in c.released && r.envelope == completing.value.keyEnvelope
                  && completing.value.contextId == r.request.contextId && completing.value.contextDigest == OfRequest(r.request)
  }

  /** A token's row is its environment's, and goes when that goes. */
  predicate ReadsToken(c: Cloud, token: Option<Token>) {
    c.boots.core.environmentId !in c.vault.environments ==> token.None?
  }

  /** What ties the reads of handlers and approvals to D1. */
  predicate ReadsVault(c: Cloud, move: Move)
    requires move.AuthoriseCall? || move.LoadCall? ==> move.k in c.boots.calls
  {
    match move
    case Handle(StepHello(_, _, environment, _, _, _, _)) => ReadsEnvironment(c.vault, c.boots.core.environmentId, environment)
    case Handle(StepChallengeResponse(_, _, _, token, _)) => ReadsToken(c, token)
    case BeginCall(_, _, completing, _) => Completes(c, completing)
    case AuthoriseCall(k, token, environment, _, _) =>
      ReadsToken(c, token) && ReadsEnvironment(c.vault, c.boots.calls[k].stage.boot.environmentId, environment)
    case CommitCall(_, token, _) => ReadsToken(c, token)
    case LoadCall(k, secrets) => IsDelivery(c.vault, c.boots.calls[k].stage.boot.environmentId, secrets)
    case _ => true
  }

  /** The checks of the release, before the unwrap and again after it. */
  predicate MayRelease(v: V.Vault, request: Request) {
    && request.keyMode == CLOUD && request.environmentId in v.environments
    && var row := v.environments[request.environmentId];
       row.keyMode == CLOUD && row.projectId == request.projectId && row.currentKeyVersion == request.environmentKeyVersion
  }

  ghost predicate CloudEnabled(c: Cloud, step: CloudStep) {
    match step
    case VaultDo(op) => VS.FreshIds(c.vault, op) && (op.NewEnvironment? ==> op.id !in c.projects)
    case FinishEnvironment(_, _, _) => true
    case FinishProject(_, _, _) => true
    case BootDo(move) => MoveEnabled(c.boots, move) && ReadsVault(c, move)
    case CheckRelease(j, request) => j !in c.releases && exists context :: context in c.boots.prepared && context.request == request
    case UnwrapRelease(j) => j in c.releases && c.releases[j].Checked?
    case SealRelease(j, _, _, _) => j in c.releases && c.releases[j].Unwrapped?
  }

  function KnownDeks(c: Cloud, v: V.Vault): map<V.KeyId, Key> {
    map k | k in c.deks.Keys + v.environmentKeys.Keys && (k in c.deks || V.DekOf(v, k).Ok?) ::
      if k in c.deks then c.deks[k] else V.DekOf(v, k).value
  }

  function KnownProjects(c: Cloud, v: V.Vault): map<string, string> {
    map e | e in c.projects.Keys + v.environments.Keys ::
      if e in c.projects then c.projects[e] else v.environments[e].projectId
  }

  /** What a load adds to the history; empty values where nothing was there to load. */
  function LoadOf(c: Cloud, k: nat, records: seq<SecretRecord>): Load
    requires k in c.boots.calls && c.boots.calls[k].stage.Authorised?
  {
    var stage := c.boots.calls[k].stage;
    Load(stage.boot.environmentId, stage.environment.currentKeyVersion, records, EnvironmentValues(c.vault, stage.boot.environmentId))
  }

  function Moved(c: Cloud, v: V.Vault): Cloud {
    c.(vault := v, deks := KnownDeks(c, v), projects := KnownProjects(c, v))
  }

  /** The session's environment existed and does not any more. */
  predicate Ended(c: Cloud) {
    c.boots.core.environmentId in c.projects && c.boots.core.environmentId !in c.vault.environments
  }

  /** The session's index rows and approval records in D1: its environment's, so they cascade away with it. The core's
      own fields are history: `approvals` every approval ever recorded, `index` and `audit` what the session decided. */
  function IndexRows(c: Cloud): map<string, IndexRow> {
    if c.boots.core.environmentId in c.vault.environments then c.boots.core.index else map[]
  }

  function ApprovalRows(c: Cloud): map<string, Approval> {
    if c.boots.core.environmentId in c.vault.environments then c.boots.core.approvals else map[]
  }

  ghost function BootsGo(c: Cloud, move: Move): World
    requires MoveEnabled(c.boots, move)
  {
    if Ended(c) then OrphanGo(c.boots, move) else Go(c.boots, move)
  }

  ghost function CloudGo(c: Cloud, step: CloudStep): Cloud
    requires CloudEnabled(c, step)
  {
    match step
    case VaultDo(op) => Moved(c, VS.Apply(c.vault, op))
    case FinishEnvironment(e, key, nonces) => Moved(c, VS.FinishEnvironment(c.vault, e, key, nonces))
    case FinishProject(p, key, nonces) => Moved(c, VS.FinishProject(c.vault, p, key, nonces))
    case BootDo(move) =>
      c.(boots := BootsGo(c, move), loads := if move.LoadCall? then c.loads + {LoadOf(c, move.k, move.secrets)} else c.loads)
    case CheckRelease(j, request) =>
      if MayRelease(c.vault, request) && request.recipientPublicKey.Point?
      then c.(releases := c.releases[j := Checked(request)]) else c
    case UnwrapRelease(j) =>
      var request := c.releases[j].request;
      var dek := V.UnwrapEnvironmentDek(c.vault, request.environmentId);
      if dek.Ok? && c.vault.environments[request.environmentId].projectId == request.projectId
         && c.vault.environments[request.environmentId].currentKeyVersion == request.environmentKeyVersion
      then c.(releases := c.releases[j := Unwrapped(request, dek.value)]) else c.(releases := c.releases - {j})
    case SealRelease(j, serverSecret, salt, nonce) =>
      var releasing := c.releases[j];
      var request := releasing.request;
      var envelope := CreateBootEnvelope(request.bootId, request.environmentId, request.environmentKeyVersion, releasing.dek,
                                         request.recipientPublicKey, serverSecret, salt, nonce);
      if MayRelease(c.vault, request) && envelope.Some?
      then c.(releases := c.releases - {j}, released := c.released + {Released(request, envelope.value)})
      else c.(releases := c.releases - {j})
  }

  // ------------------------------------------------------------------ what the history knows

  predicate NamesUsable(projects: map<string, string>) {
    forall e :: e in projects ==> UsableId(e) && UsableId(projects[e])
  }

  predicate VaultKnown(c: Cloud) {
    && VR.Sound(c.vault)
    && (forall k :: k in c.vault.environmentKeys ==> k in c.deks && V.DekOf(c.vault, k) == V.Ok(c.deks[k]))
    && (forall e :: e in c.vault.environments ==> e in c.projects && c.projects[e] == c.vault.environments[e].projectId)
    && NamesUsable(c.projects)
    && (forall k :: k in c.deks ==> k.owner in c.projects && (k.owner in c.vault.environments ==> k in c.vault.environmentKeys))
  }

  /** A load is a snapshot under the key its version names. */
  predicate LoadOk(c: Cloud, load: Load) {
    var k := V.KeyId(load.environmentId, load.version);
    && k in c.deks && load.environmentId in c.projects
    && Snapshot(c.deks[k], c.projects[load.environmentId], load.environmentId, load.version, load.records, load.values)
  }

  /** An environment row once read as CLOUD with a key names a key and a project of the history. */
  predicate EnvironmentKnown(c: Cloud, e: string, environment: Environment) {
    environment.keyMode == CLOUD && environment.currentKeyVersion != 0 ==>
      && V.KeyId(e, environment.currentKeyVersion) in c.deks && e in c.projects && c.projects[e] == environment.projectId
  }

  predicate Loads(c: Cloud, e: string, version: nat, records: seq<SecretRecord>) {
    exists load :: load in c.loads && load.environmentId == e && load.version == version && load.records == records && LoadOk(c, load)
  }

  /** An envelope holds the key its request names, sealed to the boot and recipient it names. */
  ghost predicate EnvelopeKnown(c: Cloud, bootId: string, e: string, version: nat, recipient: PublicKey, envelope: KeyEnvelope) {
    && V.KeyId(e, version) in c.deks
    && exists serverSecret, salt, nonce ::
         CreateBootEnvelope(bootId, e, version, c.deks[V.KeyId(e, version)], recipient, serverSecret, salt, nonce) == Some(envelope)
  }

  ghost predicate ReleasedOk(c: Cloud, r: Released) {
    EnvelopeKnown(c, r.request.bootId, r.request.environmentId, r.request.environmentKeyVersion, r.request.recipientPublicKey, r.envelope)
  }

  predicate ReleasingOk(c: Cloud, r: Releasing) {
    r.Unwrapped? ==>
      var k := V.KeyId(r.request.environmentId, r.request.environmentKeyVersion); k in c.deks && c.deks[k] == r.dek
  }

  ghost predicate CallKnown(c: Cloud, call: Call) {
    var stage := call.stage;
    && Completes(c, call.completing)
    && (stage.Authorised? || stage.Loaded? || stage.Ready? ==> EnvironmentKnown(c, stage.boot.environmentId, stage.environment))
    && (stage.Loaded? && stage.environment.keyMode == CLOUD && stage.environment.currentKeyVersion != 0 ==>
          Loads(c, stage.boot.environmentId, stage.environment.currentKeyVersion, stage.secrets))
    && (stage.Ready? ==> PayloadKnown(c, call.input.bootId, stage.boot.encryptionKey, stage.payload))
  }

  /** Enough to open a payload: its envelope and its records are both known, in one project. */
  ghost predicate PayloadKnown(c: Cloud, bootId: string, recipient: PublicKey, payload: Payload) {
    var e, version := payload.environmentId, payload.environmentKeyVersion;
    && payload.bootId == bootId && e in c.projects && c.projects[e] == payload.projectId && version >= 1
    && EnvelopeKnown(c, bootId, e, version, recipient, payload.keyEnvelope)
    && Loads(c, e, version, payload.secrets)
  }

  ghost predicate ApprovalKnown(c: Cloud, id: string) {
    && id in c.boots.core.boots && c.boots.core.boots[id].payloadDigest.Some?
    && c.boots.core.boots[id].payloadDigest.value.OfFrame?
    && PayloadKnown(c, id, c.boots.core.boots[id].encryptionKey, c.boots.core.boots[id].payloadDigest.value.frame)
  }

  /** A prepared context was made from a load the history has. */
  predicate PreparedKnown(c: Cloud, context: Context) {
    && context.request.environmentKeyVersion >= 1
    && (context.request.keyMode == CLOUD ==>
      exists load :: load in c.loads && LoadOk(c, load) && OfSecrets(load.records) == context.request.secretsDigest
                     && load.environmentId == context.request.environmentId && load.version == context.request.environmentKeyVersion)
  }

  ghost predicate CloudInv(c: Cloud) {
    && VaultKnown(c) && WorldInv(c.boots)
    && (forall r :: r in c.released ==> ReleasedOk(c, r))
    && (forall j :: j in c.releases ==> ReleasingOk(c, c.releases[j]))
    && (forall k :: k in c.boots.calls ==> CallKnown(c, c.boots.calls[k]))
    && (forall id :: id in c.boots.core.approvals ==> ApprovalKnown(c, id))
    && (forall context :: context in c.boots.prepared ==> PreparedKnown(c, context))
  }

  /** The history only grows. */
  predicate Remembers(c: Cloud, d: Cloud) {
    && (forall k :: k in c.deks ==> k in d.deks && d.deks[k] == c.deks[k])
    && (forall e :: e in c.projects ==> e in d.projects && d.projects[e] == c.projects[e])
    && c.released <= d.released && c.loads <= d.loads
  }

  // ------------------------------------------------------------------ facts that outlive every step

  lemma LoadOkStays(c: Cloud, d: Cloud, load: Load)
    requires LoadOk(c, load) && Remembers(c, d)
    ensures LoadOk(d, load)
  {
  }

  lemma LoadsStay(c: Cloud, d: Cloud, e: string, version: nat, records: seq<SecretRecord>)
    requires Loads(c, e, version, records) && Remembers(c, d)
    ensures Loads(d, e, version, records)
  {
    hide Snapshot;
    var load :| load in c.loads && load.environmentId == e && load.version == version && load.records == records && LoadOk(c, load);
    LoadOkStays(c, d, load);
  }

  lemma EnvelopeStays(c: Cloud, d: Cloud, bootId: string, e: string, version: nat, recipient: PublicKey, envelope: KeyEnvelope)
    requires EnvelopeKnown(c, bootId, e, version, recipient, envelope) && Remembers(c, d)
    ensures EnvelopeKnown(d, bootId, e, version, recipient, envelope)
  {
    hide CreateBootEnvelope;
    var serverSecret, salt, nonce :|
      CreateBootEnvelope(bootId, e, version, c.deks[V.KeyId(e, version)], recipient, serverSecret, salt, nonce) == Some(envelope);
    assert CreateBootEnvelope(bootId, e, version, d.deks[V.KeyId(e, version)], recipient, serverSecret, salt, nonce) == Some(envelope);
  }

  lemma PayloadStays(c: Cloud, d: Cloud, bootId: string, recipient: PublicKey, payload: Payload)
    requires PayloadKnown(c, bootId, recipient, payload) && Remembers(c, d)
    ensures PayloadKnown(d, bootId, recipient, payload)
  {
    hide EnvelopeKnown, Loads;
    EnvelopeStays(c, d, bootId, payload.environmentId, payload.environmentKeyVersion, recipient, payload.keyEnvelope);
    LoadsStay(c, d, payload.environmentId, payload.environmentKeyVersion, payload.secrets);
  }

  lemma CallStays(c: Cloud, d: Cloud, call: Call)
    requires CallKnown(c, call) && Remembers(c, d)
    ensures CallKnown(d, call)
  {
    hide Loads, PayloadKnown;
    var stage := call.stage;
    if stage.Loaded? && stage.environment.keyMode == CLOUD && stage.environment.currentKeyVersion != 0 {
      LoadsStay(c, d, stage.boot.environmentId, stage.environment.currentKeyVersion, stage.secrets);
    }
    if stage.Ready? {
      PayloadStays(c, d, call.input.bootId, stage.boot.encryptionKey, stage.payload);
    }
    if call.completing.Some? {
      var r :| r in c.released && r.envelope == call.completing.value.keyEnvelope
               && call.completing.value.contextId == r.request.contextId && call.completing.value.contextDigest == OfRequest(r.request);
      assert r in d.released;
    }
  }

  lemma PreparedStays(c: Cloud, d: Cloud, context: Context)
    requires PreparedKnown(c, context) && Remembers(c, d)
    ensures PreparedKnown(d, context)
  {
    hide LoadOk;
    if context.request.keyMode == CLOUD {
      var load :| load in c.loads && LoadOk(c, load) && OfSecrets(load.records) == context.request.secretsDigest
                  && load.environmentId == context.request.environmentId && load.version == context.request.environmentKeyVersion;
      LoadOkStays(c, d, load);
    }
  }

  lemma ReleasedStays(c: Cloud, d: Cloud, r: Released)
    requires ReleasedOk(c, r) && Remembers(c, d)
    ensures ReleasedOk(d, r)
  {
    EnvelopeStays(c, d, r.request.bootId, r.request.environmentId, r.request.environmentKeyVersion, r.request.recipientPublicKey, r.envelope);
  }

  lemma ApprovalStays(c: Cloud, d: Cloud, id: string)
    requires ApprovalKnown(c, id) && Remembers(c, d) && BootsGrow(c.boots.core.boots, d.boots.core.boots)
    ensures ApprovalKnown(d, id)
  {
    hide PayloadKnown;
    var boot := c.boots.core.boots[id];
    assert Evolved(boot, d.boots.core.boots[id]);
    PayloadStays(c, d, id, boot.encryptionKey, boot.payloadDigest.value.frame);
  }

  /** A step that leaves the boots alone keeps everything known about them. */
  lemma SameBoots(c: Cloud, d: Cloud)
    requires CloudInv(c) && Remembers(c, d) && d.boots == c.boots && VaultKnown(d)
    requires forall r :: r in d.released && r !in c.released ==> ReleasedOk(d, r)
    requires forall j :: j in d.releases ==> ReleasingOk(d, d.releases[j])
    ensures CloudInv(d)
  {
    hide VaultKnown, WorldInv, ReleasedOk, CallKnown, ApprovalKnown, PreparedKnown, Remembers, BootsGrow, Grows;
    SelfGrows(c.boots.core);
    forall r | r in d.released ensures ReleasedOk(d, r) {
      if r in c.released {
        ReleasedStays(c, d, r);
      }
    }
    forall k | k in d.boots.calls ensures CallKnown(d, d.boots.calls[k]) {
      CallStays(c, d, c.boots.calls[k]);
    }
    GrowsBoots(c.boots.core, d.boots.core);
    forall id | id in d.boots.core.approvals ensures ApprovalKnown(d, id) {
      ApprovalStays(c, d, id);
    }
    forall context | context in d.boots.prepared ensures PreparedKnown(d, context) {
      PreparedStays(c, d, context);
    }
  }

  lemma GrowsBoots(s: State, t: State)
    requires Grows(s, t)
    ensures BootsGrow(s.boots, t.boots)
  {
  }

  // ------------------------------------------------------------------ the vault's steps and the release's

  lemma MovedProjects(c: Cloud, v: V.Vault, created: Option<string>)
    requires VaultKnown(c) && VS.Touches(c.vault, v, created) && (created.Some? ==> created.value !in c.projects)
    ensures forall e :: e in v.environments ==> e in Moved(c, v).projects && Moved(c, v).projects[e] == v.environments[e].projectId
  {
    hide VR.Sound, V.DekOf, NamesUsable, KnownDeks;
  }

  lemma MovedKeys(c: Cloud, v: V.Vault, created: Option<string>)
    requires VaultKnown(c) && VR.Kept(c.vault, v) && VS.Touches(c.vault, v, created)
    requires created.Some? ==> created.value !in c.projects
    ensures forall k :: k in v.environmentKeys ==> k in Moved(c, v).deks && V.DekOf(v, k) == V.Ok(Moved(c, v).deks[k])
    ensures forall k :: k in Moved(c, v).deks && k !in c.deks ==> k in v.environmentKeys && k.owner in v.environments
  {
    hide VR.Sound, VR.Kept, VS.Touches, V.DekOf, NamesUsable, KnownProjects;
    VS.KeptSound(c.vault, v);
    forall k | k in v.environmentKeys ensures V.DekOf(v, k).Ok? && (k in c.deks ==> V.DekOf(v, k) == V.Ok(c.deks[k])) {
      SoundKeyOwner(v, k);
      if k in c.deks {
        MovedKey(c, v, created, k);
      }
    }
    forall k | k in Moved(c, v).deks && k !in c.deks ensures k in v.environmentKeys && k.owner in v.environments {
      SoundKeyOwner(v, k);
    }
  }

  /** A key the history knows is of an environment still there, never of one just created. */
  lemma MovedKey(c: Cloud, v: V.Vault, created: Option<string>, k: V.KeyId)
    requires VaultKnown(c) && VR.Kept(c.vault, v) && VS.Touches(c.vault, v, created)
    requires created.Some? ==> created.value !in c.projects
    requires k in v.environmentKeys && k in c.deks
    ensures V.DekOf(v, k) == V.Ok(c.deks[k])
  {
    hide VR.Sound, VR.Kept, V.DekOf, NamesUsable;
    VS.KeptSound(c.vault, v);
    SoundKeyOwner(v, k);
    VS.KeptDek(c.vault, v, k);
  }

  lemma MovedKeysStay(c: Cloud, v: V.Vault, created: Option<string>)
    requires VaultKnown(c) && VS.Touches(c.vault, v, created) && (created.Some? ==> created.value !in c.projects)
    ensures forall k :: k in c.deks && k.owner in v.environments ==> k in v.environmentKeys
  {
    hide VR.Sound, V.DekOf, NamesUsable;
  }

  /** A vault that keeps every key and value, and adds owners only under new ids, is as well known as before. */
  lemma MovedKnown(c: Cloud, v: V.Vault, created: Option<string>)
    requires VaultKnown(c) && VR.Kept(c.vault, v) && VS.Touches(c.vault, v, created)
    requires created.Some? ==> created.value !in c.projects
    ensures VaultKnown(Moved(c, v)) && Remembers(c, Moved(c, v))
  {
    hide VR.Sound, VR.Kept, VS.Touches, V.DekOf, NamesUsable;
    VS.KeptSound(c.vault, v);
    MovedKeysStay(c, v, created);
    MovedProjects(c, v, created);
    MovedKeys(c, v, created);
    VaultDoNames(c, v);
  }

  lemma VaultDoKnown(c: Cloud, op: VS.VaultStep)
    requires CloudInv(c) && CloudEnabled(c, VaultDo(op))
    ensures VaultKnown(CloudGo(c, VaultDo(op))) && Remembers(c, CloudGo(c, VaultDo(op)))
  {
    hide VR.Sound, VR.Abs, VR.Kept, VS.Apply, VS.FreshIds, VS.PlainApply, VS.Touches, NamesUsable, WorldInv, ReleasedOk, CallKnown,
      ApprovalKnown, PreparedKnown, KnownDeks, KnownProjects, Remembers;
    VS.StepRefines(c.vault, op);
    VS.StepTouches(c.vault, op);
    MovedKnown(c, VS.Apply(c.vault, op), if op.NewEnvironment? then Some(op.id) else None);
  }

  lemma VaultDoNames(c: Cloud, v: V.Vault)
    requires NamesUsable(c.projects) && VR.Sound(v)
    ensures NamesUsable(KnownProjects(c, v))
  {
    hide VR.Sound;
    forall e | e in v.environments ensures UsableId(e) && UsableId(v.environments[e].projectId) {
      SoundOwnerIds(v, e);
    }
  }

  lemma SoundOwnerIds(v: V.Vault, e: string)
    requires VR.Sound(v) && e in v.environments
    ensures UsableId(e) && UsableId(v.environments[e].projectId)
  {
    assert VR.EnvironmentOk(v, e) && VR.ProjectOk(v, v.environments[e].projectId);
  }

  lemma SoundKeyOwner(v: V.Vault, k: V.KeyId)
    requires VR.Sound(v) && k in v.environmentKeys
    ensures k.owner in v.environments && V.DekOf(v, k).Ok?
  {
    VR.SoundKeys(v, k);
  }

  lemma CurrentDek(v: V.Vault, e: string)
    requires V.UnwrapEnvironmentDek(v, e).Ok?
    ensures e in v.environments
    ensures var k := V.KeyId(e, v.environments[e].currentKeyVersion); k in v.environmentKeys && V.DekOf(v, k) == V.UnwrapEnvironmentDek(v, e)
  {
  }

  lemma UnwrapKeeps(c: Cloud, j: nat)
    requires CloudInv(c) && CloudEnabled(c, UnwrapRelease(j))
    ensures CloudInv(CloudGo(c, UnwrapRelease(j))) && Remembers(c, CloudGo(c, UnwrapRelease(j)))
  {
    hide VR.Sound, V.DekOf, V.UnwrapEnvironmentDek, WorldInv, CallKnown, ApprovalKnown, PreparedKnown, ReleasedOk;
    var request := c.releases[j].request;
    if V.UnwrapEnvironmentDek(c.vault, request.environmentId).Ok? {
      CurrentDek(c.vault, request.environmentId);
    }
    SameBoots(c, CloudGo(c, UnwrapRelease(j)));
  }

  lemma SealKeeps(c: Cloud, j: nat, serverSecret: nat, salt: nat, nonce: nat)
    requires CloudInv(c) && CloudEnabled(c, SealRelease(j, serverSecret, salt, nonce))
    ensures CloudInv(CloudGo(c, SealRelease(j, serverSecret, salt, nonce)))
    ensures Remembers(c, CloudGo(c, SealRelease(j, serverSecret, salt, nonce)))
  {
    hide VaultKnown, WorldInv, CallKnown, ApprovalKnown, PreparedKnown, CreateBootEnvelope, MayRelease;
    var d := CloudGo(c, SealRelease(j, serverSecret, salt, nonce));
    assert ReleasingOk(c, c.releases[j]);
    forall r | r in d.released && r !in c.released ensures ReleasedOk(d, r) {
      var request := c.releases[j].request;
      assert r.request == request;
      assert CreateBootEnvelope(request.bootId, request.environmentId, request.environmentKeyVersion,
                                d.deks[V.KeyId(request.environmentId, request.environmentKeyVersion)],
                                request.recipientPublicKey, serverSecret, salt, nonce) == Some(r.envelope);
    }
    SameVault(c, d);
    SameBoots(c, d);
  }

  lemma SameVault(c: Cloud, d: Cloud)
    requires VaultKnown(c) && d.vault == c.vault && d.deks == c.deks && d.projects == c.projects
    ensures VaultKnown(d)
  {
  }

  // ------------------------------------------------------------------ the approval's pieces

  /** A row read from a sound vault is known. */
  lemma ReadIsKnown(c: Cloud, e: string, environment: Environment)
    requires VaultKnown(c) && ReadsEnvironment(c.vault, e, Some(environment))
    ensures EnvironmentKnown(c, e, environment)
  {
    EnvironmentHasKey(c.vault, e);
  }

  lemma EnvironmentHasKey(v: V.Vault, e: string)
    requires VR.Sound(v) && e in v.environments
    ensures v.environments[e].currentKeyVersion != 0 ==> V.KeyId(e, v.environments[e].currentKeyVersion) in v.environmentKeys
  {
    assert VR.EnvironmentOk(v, e);
  }

  /** A delivery wholly at a known key version is a snapshot under that key, even when the environment has
      moved on since the row was read (then there is nothing to deliver). */
  lemma DeliveryIsKnown(c: Cloud, e: string, environment: Environment, records: seq<SecretRecord>)
    requires VaultKnown(c) && IsDelivery(c.vault, e, records) && EnvironmentKnown(c, e, environment)
    requires environment.keyMode == CLOUD && environment.currentKeyVersion != 0
    requires AtCurrentKey(records, environment.currentKeyVersion)
    ensures LoadOk(c, Load(e, environment.currentKeyVersion, records, EnvironmentValues(c.vault, e)))
  {
    hide VR.Sound, VR.Values, V.DekOf, RecordOk;
    if records == [] {
      NothingToDeliver(c.vault, e);
    } else {
      assert V.SecretName(e, records[0].name) in c.vault.secrets;
      VR.SecretHasKey(c.vault, V.SecretName(e, records[0].name));
      DeliveryIsSnapshot(c.vault, e, records, c.deks[V.KeyId(e, environment.currentKeyVersion)]);
    }
  }

  lemma NothingToDeliver(v: V.Vault, e: string)
    requires VR.Sound(v) && IsDelivery(v, e, [])
    ensures EnvironmentValues(v, e) == map[]
  {
    VR.SoundValues(v);
    hide VR.Values, VR.Sound;
    forall k | k in VR.Values(v) ensures k.environmentId != e {
      assert k in v.secrets;
    }
  }

  /** What completes with a context completes with the envelope released for exactly that context. */
  lemma CheckGivesKnown(c: Cloud, k: nat, now: Time)
    requires CloudInv(c) && MoveEnabled(c.boots, CheckCall(k, now))
    ensures var call := c.boots.calls[k];
            var stage := Check(c.boots.core, call.input, call.completing.value, call.stage, now);
            stage.Some? ==> CallKnown(c, call.(stage := stage.value))
  {
    hide VaultKnown, Inv, EnvelopeKnown, Loads, Justified, StageOk;
    var call := c.boots.calls[k];
    var completion := call.completing.value;
    assert CallKnown(c, call);
    if Check(c.boots.core, call.input, completion, call.stage, now).Some? {
      var context := c.boots.core.contexts[completion.contextId];
      assert context in c.boots.prepared && PreparedKnown(c, context);
      ContextDigestIs(c.boots.core, completion.contextId);
      var r :| r in c.released && r.envelope == completion.keyEnvelope
               && completion.contextId == r.request.contextId && completion.contextDigest == OfRequest(r.request);
      assert ReleasedOk(c, r);
    }
  }

  lemma ContextDigestIs(s: State, contextId: string)
    requires Inv(s) && contextId in s.contexts
    ensures s.contexts[contextId].contextDigest == OfRequest(s.contexts[contextId].request)
  {
    assert ContextOk(s.boots, contextId, s.contexts[contextId]);
  }

  predicate SameHistory(c: Cloud, d: Cloud) {
    && d.vault == c.vault && d.deks == c.deks && d.projects == c.projects && d.releases == c.releases && d.released == c.released
    && c.loads <= d.loads
  }

  /** D1 has no token and no environment for a session that ended. */
  lemma EndedIsBereft(c: Cloud, move: Move)
    requires CloudEnabled(c, BootDo(move)) && Ended(c)
    ensures Bereft(move)
  {
    hide IsDelivery, Completes, MoveEnabled;
  }

  lemma BootsGoKeeps(c: Cloud, move: Move)
    requires WorldInv(c.boots) && CloudEnabled(c, BootDo(move))
    ensures MoveEnabled(c.boots, move)
    ensures WorldInv(BootsGo(c, move)) && Grows(c.boots.core, BootsGo(c, move).core)
    ensures Ended(c) ==> BootsGo(c, move).core.approvals == c.boots.core.approvals
                         && BootsGo(c, move).core.boots.Keys == c.boots.core.boots.Keys
  {
    hide WorldInv, Go, OrphanGo, MoveEnabled, ReadsVault, Grows;
    GoKeeps(c.boots, move);
    if Ended(c) {
      EndedIsBereft(c, move);
      OrphanKeeps(c.boots, move);
    }
  }

  /** The pieces of an approval after the first are the same in a session that ended. */
  lemma PieceGoes(c: Cloud, move: Move)
    requires MoveEnabled(c.boots, move) && !move.Handle? && !move.BeginCall?
    ensures BootsGo(c, move) == Go(c.boots, move)
  {
    hide Go, RowOnly;
  }

  /** A move of the boots keeps the invariant once its calls, approvals and contexts are known. */
  lemma BootsMove(c: Cloud, d: Cloud, move: Move)
    requires CloudInv(c) && CloudEnabled(c, BootDo(move)) && d.boots == BootsGo(c, move) && SameHistory(c, d)
    requires forall k :: k in d.boots.calls && (k in c.boots.calls ==> d.boots.calls[k] != c.boots.calls[k]) ==> CallKnown(d, d.boots.calls[k])
    requires forall id :: id in d.boots.core.approvals && id !in c.boots.core.approvals ==> ApprovalKnown(d, id)
    requires forall context :: context in d.boots.prepared && context !in c.boots.prepared ==> PreparedKnown(d, context)
    ensures CloudInv(d)
  {
    hide BootsGo, CloudEnabled, Grows, BootsGrow, VaultKnown, WorldInv, ReleasedOk, CallKnown, ApprovalKnown, PreparedKnown, ReleasingOk;
    BootsGoKeeps(c, move);
    GrowsBoots(c.boots.core, d.boots.core);
    SameVault(c, d);
    forall r | r in d.released ensures ReleasedOk(d, r) {
      ReleasedStays(c, d, r);
    }
    forall j | j in d.releases ensures ReleasingOk(d, d.releases[j]) {
      SameReleasing(c, d, d.releases[j]);
    }
    forall k | k in d.boots.calls ensures CallKnown(d, d.boots.calls[k]) {
      if k in c.boots.calls && d.boots.calls[k] == c.boots.calls[k] {
        CallStays(c, d, c.boots.calls[k]);
      }
    }
    forall id | id in d.boots.core.approvals ensures ApprovalKnown(d, id) {
      if id in c.boots.core.approvals {
        ApprovalStays(c, d, id);
      }
    }
    forall context | context in d.boots.prepared ensures PreparedKnown(d, context) {
      if context in c.boots.prepared {
        PreparedStays(c, d, context);
      }
    }
  }

  lemma SameReleasing(c: Cloud, d: Cloud, r: Releasing)
    requires ReleasingOk(c, r) && d.deks == c.deks
    ensures ReleasingOk(d, r)
  {
  }

  lemma CommitKnown(c: Cloud, k: nat, token: Option<Token>, now: Time)
    requires CloudInv(c) && CloudEnabled(c, BootDo(CommitCall(k, token, now)))
    ensures var d := CloudGo(c, BootDo(CommitCall(k, token, now)));
            forall id :: id in d.boots.core.approvals && id !in c.boots.core.approvals ==> ApprovalKnown(d, id)
  {
    hide CloudInv, Inv, CommitApproval, PayloadKnown, BootsGo, Completes, ReadsToken;
    PieceGoes(c, CommitCall(k, token, now));
    ReadyIsKnown(c, k);
    var call := c.boots.calls[k];
    var d := CloudGo(c, BootDo(CommitCall(k, token, now)));
    if MayCommit(c.boots.core, call.input, call.stage, token, now) {
      var approval := ApprovalFor(call.input, call.completing.value, call.stage, now);
      CommitKeeps(c.boots.core, call.input.bootId, call.stage.payload, call.stage.summary, approval, now);
      PayloadStays(c, d, call.input.bootId, call.stage.boot.encryptionKey, call.stage.payload);
    }
  }

  /** A call ready to commit carries a known payload for its own boot, whose row has kept its key. */
  lemma ReadyIsKnown(c: Cloud, k: nat)
    requires CloudInv(c) && k in c.boots.calls && c.boots.calls[k].stage.Ready?
    ensures var call := c.boots.calls[k];
            && Inv(c.boots.core) && call.stage.payload.bootId == call.input.bootId && call.input.bootId in c.boots.core.boots
            && c.boots.core.boots[call.input.bootId].encryptionKey == call.stage.boot.encryptionKey
            && PayloadKnown(c, call.input.bootId, call.stage.boot.encryptionKey, call.stage.payload)
  {
    hide VaultKnown, Inv, PayloadKnown, ReleasedOk, ReleasingOk, PreparedKnown, Justified, Completes;
    assert CallKnown(c, c.boots.calls[k]) && StageOk(c.boots.core, c.boots.prepared, c.boots.calls[k]);
  }

  lemma StoreKnown(c: Cloud, k: nat, contextId: string, now: Time)
    requires CloudInv(c) && CloudEnabled(c, BootDo(StoreCall(k, contextId, now)))
    ensures var d := CloudGo(c, BootDo(StoreCall(k, contextId, now)));
            forall context :: context in d.boots.prepared && context !in c.boots.prepared ==> PreparedKnown(d, context)
  {
    hide VaultKnown, WorldInv, LoadOk, StoreContext, BootsGo;
    PieceGoes(c, StoreCall(k, contextId, now));
    var call := c.boots.calls[k];
    var d := CloudGo(c, BootDo(StoreCall(k, contextId, now)));
    assert CallKnown(c, call);
    forall context | context in d.boots.prepared && context !in c.boots.prepared ensures PreparedKnown(d, context) {
      if context.request.keyMode == CLOUD {
        var stage := call.stage;
        LoadsStay(c, d, stage.boot.environmentId, stage.environment.currentKeyVersion, stage.secrets);
        var load :| load in d.loads && load.environmentId == stage.boot.environmentId
                    && load.version == stage.environment.currentKeyVersion && load.records == stage.secrets && LoadOk(d, load);
        assert OfSecrets(load.records) == context.request.secretsDigest;
      }
    }
  }

  lemma LoadKnown(c: Cloud, k: nat, secrets: seq<SecretRecord>)
    requires CloudInv(c) && CloudEnabled(c, BootDo(LoadCall(k, secrets)))
    ensures var d := CloudGo(c, BootDo(LoadCall(k, secrets)));
            k in d.boots.calls ==> CallKnown(d, d.boots.calls[k])
  {
    hide VaultKnown, WorldInv, LoadOk, IsDelivery, EnvironmentValues, BootsGo;
    PieceGoes(c, LoadCall(k, secrets));
    var call := c.boots.calls[k];
    var d := CloudGo(c, BootDo(LoadCall(k, secrets)));
    assert CallKnown(c, call);
    var stage, e := call.stage, call.stage.boot.environmentId;
    if k in d.boots.calls && stage.environment.keyMode == CLOUD && stage.environment.currentKeyVersion != 0 {
      DeliveryIsKnown(c, e, stage.environment, secrets);
      LoadOkStays(c, d, LoadOf(c, k, secrets));
      assert LoadOf(c, k, secrets) in d.loads;
    }
    if call.completing.Some? {
      CallStays(c, d, call);
    }
  }

  lemma BootDoKeeps(c: Cloud, move: Move)
    requires CloudInv(c) && CloudEnabled(c, BootDo(move))
    ensures CloudInv(CloudGo(c, BootDo(move))) && Remembers(c, CloudGo(c, BootDo(move)))
  {
    hide VaultKnown, WorldInv, ReleasedOk, CallKnown, ApprovalKnown, PreparedKnown, Next, Enabled, Inv, CommitApproval, StoreContext,
      Check, LoadOk, IsDelivery, ReadsEnvironment, BootsGo;
    var d := CloudGo(c, BootDo(move));
    if !move.Handle? && !move.BeginCall? {
      PieceGoes(c, move);
    }
    match move {
      case Handle(step) => HandleKnown(c, step);
      case BeginCall(k, input, completing, now) => BeginKnown(c, k, input, completing, now);
      case AuthoriseCall(k, token, environment, summary, approvable) =>
        AuthoriseKnown(c, k, token, environment, summary, approvable);
      case LoadCall(k, secrets) => LoadKnown(c, k, secrets);
      case StoreCall(k, contextId, now) =>
        StoreKnown(c, k, contextId, now);
        StoreContextApprovals(c.boots.core, c.boots.calls[k], contextId, now);
      case CheckCall(k, now) =>
        CheckGivesKnown(c, k, now);
        if k in d.boots.calls {
          CallStays(c, d, d.boots.calls[k]);
        }
      case CommitCall(k, token, now) => CommitKnown(c, k, token, now);
    }
    BootsMove(c, d, move);
  }

  lemma HandleKnown(c: Cloud, step: Step)
    requires CloudInv(c) && CloudEnabled(c, BootDo(Handle(step)))
    ensures var w := BootsGo(c, Handle(step));
            w.core.approvals == c.boots.core.approvals && w.calls == c.boots.calls && w.prepared == c.boots.prepared
  {
    hide CloudInv, Next, OrphanNext, Enabled, ReadsVault, WorldInv;
    assert WorldInv(c.boots) by {
      InvOfBoots(c);
    }
    BootsGoKeeps(c, Handle(step));
    NextKeepsKeys(c.boots.core, step);
  }

  lemma InvOfBoots(c: Cloud)
    requires CloudInv(c)
    ensures WorldInv(c.boots)
  {
  }

  lemma StoreContextApprovals(s: State, call: Call, contextId: string, now: Time)
    requires call.stage.Loaded?
    ensures Store(s, call.input, call.stage, contextId, now).0.approvals == s.approvals
  {
  }

  lemma BeginKnown(c: Cloud, k: nat, input: ApproveInput, completing: Option<Completion>, now: Time)
    requires CloudInv(c) && CloudEnabled(c, BootDo(BeginCall(k, input, completing, now)))
    ensures var d := CloudGo(c, BootDo(BeginCall(k, input, completing, now)));
            && (k in d.boots.calls ==> CallKnown(d, d.boots.calls[k]))
            && (forall j :: j in d.boots.calls && j != k ==> j in c.boots.calls && d.boots.calls[j] == c.boots.calls[j])
            && d.boots.core.approvals == c.boots.core.approvals && d.boots.prepared == c.boots.prepared
  {
    hide CloudInv, BootsGo, ReadsVault, WorldInv, MoveEnabled, EnvironmentKnown, Loads, PayloadKnown;
    InvOfBoots(c);
    BeginGo(c, k, input, completing, now);
    assert Completes(c, completing) by {
      CompletesFirst(c, k, input, completing, now);
    }
  }

  lemma CompletesFirst(c: Cloud, k: nat, input: ApproveInput, completing: Option<Completion>, now: Time)
    requires CloudEnabled(c, BootDo(BeginCall(k, input, completing, now)))
    ensures Completes(c, completing)
  {
    hide Completes;
  }

  lemma BeginGo(c: Cloud, k: nat, input: ApproveInput, completing: Option<Completion>, now: Time)
    requires WorldInv(c.boots) && CloudEnabled(c, BootDo(BeginCall(k, input, completing, now)))
    ensures var w := BootsGo(c, BeginCall(k, input, completing, now));
            && w.core.approvals == c.boots.core.approvals && w.prepared == c.boots.prepared
            && (forall j :: j in w.calls && j != k ==> j in c.boots.calls && w.calls[j] == c.boots.calls[j])
            && (k in w.calls ==> w.calls[k].stage.Begun? && w.calls[k].completing == completing)
  {
    hide Inv, Grows, RowOnly, Completes, StageOk, Justified;
    BeginKeeps(c.boots.core, input, now);
    if input.bootId in c.boots.core.boots {
      RowOnlyKeeps(c.boots.core, input.bootId, Expire, now);
    }
  }

  lemma AuthoriseKnown(c: Cloud, k: nat, token: Option<Token>, environment: Option<Environment>, summary: string, approvable: bool)
    requires CloudInv(c) && CloudEnabled(c, BootDo(AuthoriseCall(k, token, environment, summary, approvable)))
    ensures var d := CloudGo(c, BootDo(AuthoriseCall(k, token, environment, summary, approvable)));
            k in d.boots.calls ==> CallKnown(d, d.boots.calls[k])
  {
    hide VaultKnown, WorldInv;
    var call := c.boots.calls[k];
    assert CallKnown(c, call);
    if environment.Some? {
      ReadIsKnown(c, call.stage.boot.environmentId, environment.value);
    }
  }

  lemma CloudKeeps(c: Cloud, step: CloudStep)
    requires CloudInv(c) && CloudEnabled(c, step)
    ensures CloudInv(CloudGo(c, step)) && Remembers(c, CloudGo(c, step))
  {
    hide CloudInv, Remembers, VaultKnown, WorldInv, ReleasedOk, CallKnown, ApprovalKnown, PreparedKnown;
    match step
    case VaultDo(op) =>
      VaultDoKnown(c, op);
      MovedKeeps(c, VS.Apply(c.vault, op));
    case FinishEnvironment(e, key, nonces) =>
      FinishKnown(c, e, key, nonces, e, key, map[]);
      MovedKeeps(c, VS.FinishEnvironment(c.vault, e, key, nonces));
    case FinishProject(p, key, nonces) =>
      FinishKnown(c, p, key, map[], p, key, nonces);
      MovedKeeps(c, VS.FinishProject(c.vault, p, key, nonces));
    case BootDo(move) => BootDoKeeps(c, move);
    case CheckRelease(j, request) => CheckReleaseKeeps(c, j, request);
    case UnwrapRelease(j) => UnwrapKeeps(c, j);
    case SealRelease(j, serverSecret, salt, nonce) => SealKeeps(c, j, serverSecret, salt, nonce);
  }

  lemma FinishKnown(c: Cloud, e: string, key: Key, nonces: map<V.SecretName, nat>, p: string, projectKey: Key, keyNonces: map<V.KeyId, nat>)
    requires CloudInv(c)
    ensures var d := Moved(c, VS.FinishEnvironment(c.vault, e, key, nonces)); VaultKnown(d) && Remembers(c, d)
    ensures var d := Moved(c, VS.FinishProject(c.vault, p, projectKey, keyNonces)); VaultKnown(d) && Remembers(c, d)
  {
    hide VR.Sound, VR.Abs, VR.Kept, VS.FinishEnvironment, VS.FinishProject, VS.Touches, NamesUsable, Moved, WorldInv, ReleasedOk, CallKnown,
      ApprovalKnown, PreparedKnown;
    VS.FinishEnvironmentRefines(c.vault, e, key, nonces);
    VS.FinishProjectRefines(c.vault, p, projectKey, keyNonces);
    MovedKnown(c, VS.FinishEnvironment(c.vault, e, key, nonces), None);
    MovedKnown(c, VS.FinishProject(c.vault, p, projectKey, keyNonces), None);
  }

  lemma MovedKeeps(c: Cloud, v: V.Vault)
    requires CloudInv(c) && VaultKnown(Moved(c, v)) && Remembers(c, Moved(c, v))
    ensures CloudInv(Moved(c, v))
  {
    hide VaultKnown, WorldInv, ReleasedOk, CallKnown, ApprovalKnown, PreparedKnown, KnownDeks, KnownProjects, Remembers;
    var d := Moved(c, v);
    forall j | j in d.releases ensures ReleasingOk(d, d.releases[j]) {
      RememberedReleasing(c, d, c.releases[j]);
    }
    SameBoots(c, d);
  }

  lemma RememberedReleasing(c: Cloud, d: Cloud, r: Releasing)
    requires ReleasingOk(c, r) && Remembers(c, d)
    ensures ReleasingOk(d, r)
  {
  }

  lemma CheckReleaseKeeps(c: Cloud, j: nat, request: Request)
    requires CloudInv(c) && CloudEnabled(c, CheckRelease(j, request))
    ensures CloudInv(CloudGo(c, CheckRelease(j, request))) && Remembers(c, CloudGo(c, CheckRelease(j, request)))
  {
    hide VaultKnown, WorldInv, ReleasedOk, CallKnown, ApprovalKnown, PreparedKnown, MayRelease;
    var d := CloudGo(c, CheckRelease(j, request));
    SameVault(c, d);
    SameBoots(c, d);
  }

  // ------------------------------------------------------------------ runs

  ghost predicate CloudRun(c: Cloud, steps: seq<CloudStep>, d: Cloud)
    decreases |steps|
  {
    if steps == [] then d == c else CloudEnabled(c, steps[0]) && CloudRun(CloudGo(c, steps[0]), steps[1..], d)
  }

  /** An empty vault under one master key, and an environment session that has seen no boot. */
  function NewCloud(environmentId: string, version: nat, master: Key): Cloud {
    Cloud(VS.EmptyVault(version, master), Start(environmentId), map[], map[], map[], {}, {})
  }

  lemma {:induction false} CloudRunKeeps(c: Cloud, steps: seq<CloudStep>, d: Cloud)
    requires CloudInv(c) && CloudRun(c, steps, d)
    ensures CloudInv(d)
    decreases |steps|
  {
    hide CloudInv, CloudGo, CloudEnabled;
    if steps != [] {
      CloudKeeps(c, steps[0]);
      CloudRunKeeps(CloudGo(c, steps[0]), steps[1..], d);
    }
  }

  lemma ReachableCloud(environmentId: string, version: nat, master: Key, steps: seq<CloudStep>, d: Cloud)
    requires CloudRun(NewCloud(environmentId, version, master), steps, d)
    ensures CloudInv(d)
  {
    var c := NewCloud(environmentId, version, master);
    ReachableIsConsistent(environmentId, [], Start(environmentId));
    assert CloudInv(c);
    CloudRunKeeps(c, steps, d);
  }

  // ------------------------------------------------------------------ the end result

  /** A payload the history knows opens for its recipient, to the values of the load it was made from. */
  lemma KnownPayloadDecrypts(c: Cloud, id: string, client: nat, payload: Payload, load: Load)
    requires PayloadKnown(c, id, Point(client), payload) && OneLine(id) && OneLine(payload.environmentId)
    requires load in c.loads && LoadOk(c, load) && load.records == payload.secrets
    requires load.environmentId == payload.environmentId && load.version == payload.environmentKeyVersion
    ensures var plain := Decrypt(client, id, payload); plain.Some? && Buildable(plain.value) && AsMap(plain.value) == load.values
  {
    hide Snapshot, CreateBootEnvelope, OpenBootEnvelope, DecryptRecords, Buildable;
    var e, version := payload.environmentId, payload.environmentKeyVersion;
    var dek := c.deks[V.KeyId(e, version)];
    var serverSecret, salt, nonce :|
      CreateBootEnvelope(id, e, version, dek, Point(client), serverSecret, salt, nonce) == Some(payload.keyEnvelope);
    EnvelopeOpensOnlyForItsBoot(id, e, version, dek, client, serverSecret, salt, nonce, id, e, version, client);
    SnapshotValues(dek, payload.projectId, e, version, payload.secrets, load.values);
  }

  /** The client's frame check refuses an approved payload for its size alone. */
  lemma KnownPayloadWellFormed(c: Cloud, id: string, recipient: PublicKey, payload: Payload, size: nat)
    requires VaultKnown(c) && PayloadKnown(c, id, recipient, payload) && id != ""
    ensures WellFormed(payload, size) <==> |payload.secrets| <= MAX_SECRETS_PER_PAYLOAD && size <= MAX_FRAME_BYTES
  {
    hide VR.Sound, EnvelopeKnown;
    var load :| load in c.loads && load.environmentId == payload.environmentId && load.version == payload.environmentKeyVersion
                && load.records == payload.secrets && LoadOk(c, load);
    var dek := c.deks[V.KeyId(load.environmentId, load.version)];
    forall i | 0 <= i < |payload.secrets|
      ensures payload.secrets[i].id != "" && payload.secrets[i].name != "" && payload.secrets[i].version >= 1
              && payload.secrets[i].envKeyVersion >= 1
    {
      assert RecordOk(dek, c.projects[load.environmentId], load.environmentId, load.version, load.records[i], load.values);
    }
  }

  /** A load the context of an approval was prepared from. */
  predicate PreparedFrom(c: Cloud, approval: Approval, load: Load) {
    exists context :: context in c.boots.prepared && approval.releaseContextDigest == OfRequest(context.request)
                      && context.request.secretsDigest == OfSecrets(load.records)
                      && context.request.environmentId == load.environmentId
                      && context.request.environmentKeyVersion == load.version
  }

  /** Whatever runs in between, an approved payload passes the client's checks exactly when it is within the
      client's limits, opens with its boot's key, and decrypts to exactly the plain name-to-value map of the
      snapshot whose digest the approved context was prepared with. */
  lemma ApprovedPayloadDecrypts(environmentId: string, version: nat, master: Key, steps: seq<CloudStep>, d: Cloud, id: string,
                                client: nat, size: nat)
    requires CloudRun(NewCloud(environmentId, version, master), steps, d) && id in d.boots.core.approvals && UsableId(id)
    requires id in d.boots.core.boots ==> d.boots.core.boots[id].encryptionKey == Point(client)
    ensures id in d.boots.core.boots && d.boots.core.boots[id].payloadDigest.Some?
    ensures d.boots.core.boots[id].payloadDigest.value.OfFrame?
    ensures var payload := d.boots.core.boots[id].payloadDigest.value.frame;
            && (WellFormed(payload, size) <==> |payload.secrets| <= MAX_SECRETS_PER_PAYLOAD && size <= MAX_FRAME_BYTES)
            && Decrypt(client, id, payload).Some? && Buildable(Decrypt(client, id, payload).value)
            && exists load :: load in d.loads && PreparedFrom(d, d.boots.core.approvals[id], load)
                              && AsMap(Decrypt(client, id, payload).value) == load.values
  {
    ReachableCloud(environmentId, version, master, steps, d);
    hide CloudRun, VaultKnown, Inv, PayloadKnown, WellFormed, LoadOk, Decrypt, Buildable;
    assert ApprovalKnown(d, id);
    var boot, approval := d.boots.core.boots[id], d.boots.core.approvals[id];
    var payload := boot.payloadDigest.value.frame;
    assert Justified(d.boots.prepared, id, boot, approval);
    var request := approval.releaseContextDigest.request;
    var context := Context(id, request, approval.releaseContextDigest, approval.approverUserId, approval.approverCredentialId,
                           request.expiresAt);
    KnownPayloadWellFormed(d, id, Point(client), payload, size);
    KnownEnvironment(d, id, Point(client), payload);
    assert PreparedKnown(d, context);
    var load :| load in d.loads && LoadOk(d, load) && OfSecrets(load.records) == request.secretsDigest
                && load.environmentId == request.environmentId && load.version == request.environmentKeyVersion;
    assert load.records == payload.secrets;
    KnownPayloadDecrypts(d, id, client, payload, load);
    assert PreparedFrom(d, approval, load);
  }

  lemma KnownEnvironment(c: Cloud, id: string, recipient: PublicKey, payload: Payload)
    requires VaultKnown(c) && PayloadKnown(c, id, recipient, payload)
    ensures OneLine(payload.environmentId)
  {
  }
}
