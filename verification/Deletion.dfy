/** Deleting an environment under a running session: nothing of it is approved, delivered or confirmed afterwards,
    whatever was in flight and whether or not the cancellation of its live boots got through. */
module Deletion {
  import opened Ideal
  import opened Protocol
  import opened BootTables
  import opened BootInvariants
  import opened BootRuns
  import opened ApprovalRuns
  import opened Orphaned
  import opened BootOutcomes
  import opened Release
  import opened ChildEnv
  import opened ClientSession
  import opened CloudRuns
  import opened EndToEnd
  import V = VaultTables
  import VR = VaultRefinement
  import VS = VaultRuns

  lemma Remembered(c: Cloud, d: Cloud, e: string)
    requires Remembers(c, d) && e in c.projects
    ensures e in d.projects
  {
  }

  lemma NotBack(v: V.Vault, w: V.Vault, created: Option<string>, e: string)
    requires VS.Touches(v, w, created) && e !in v.environments && created != Some(e)
    ensures e !in w.environments
  {
  }

  lemma SoundVault(c: Cloud)
    requires CloudInv(c)
    ensures VR.Sound(c.vault) && WorldInv(c.boots)
  {
  }

  /** Environment ids are never used again. */
  lemma GoneStays(c: Cloud, step: CloudStep, e: string)
    requires CloudInv(c) && CloudEnabled(c, step) && e in c.projects && e !in c.vault.environments
    ensures e in CloudGo(c, step).projects && e !in CloudGo(c, step).vault.environments
  {
    hide CloudInv, BootsGo, MoveEnabled, ReadsVault, MayRelease, VS.Apply, VS.Touches, VS.FreshIds, VS.FinishEnvironment, VS.FinishProject,
      V.UnwrapEnvironmentDek, CreateBootEnvelope;
    CloudKeeps(c, step);
    Remembered(c, CloudGo(c, step), e);
    match step
    case VaultDo(op) =>
      VS.StepTouches(c.vault, op);
      NotBack(c.vault, VS.Apply(c.vault, op), if op.NewEnvironment? then Some(op.id) else None, e);
    case FinishEnvironment(f, key, nonces) =>
      SoundVault(c);
      VS.FinishEnvironmentRefines(c.vault, f, key, nonces);
      NotBack(c.vault, VS.FinishEnvironment(c.vault, f, key, nonces), None, e);
    case FinishProject(p, key, nonces) =>
      SoundVault(c);
      VS.FinishProjectRefines(c.vault, p, key, nonces);
      NotBack(c.vault, VS.FinishProject(c.vault, p, key, nonces), None, e);
    case _ =>
  }

  /** What no step after the end changes: the approvals ever recorded, the boots there are, and what was sent of
      payloads and confirmations. */
  ghost predicate Over(s: State, t: State) {
    t.approvals == s.approvals && t.boots.Keys == s.boots.Keys && Grows(s, t) && Silent(s, t)
  }

  lemma OverTrans(s: State, t: State, u: State)
    requires Over(s, t) && Over(t, u)
    ensures Over(s, u)
  {
    hide Grows, Silent;
    GrowsTrans(s, t, u);
    SilentTrans(s, t, u);
  }

  lemma SelfOver(s: State)
    ensures Over(s, s)
  {
    hide Grows, Silent;
    SelfGrows(s);
    SameSocketsSilent(s, s);
  }

  lemma SameSession(s: State, t: State)
    requires Over(s, t)
    ensures t.environmentId == s.environmentId
  {
  }

  lemma EndedStep(c: Cloud, step: CloudStep)
    requires CloudInv(c) && CloudEnabled(c, step) && Ended(c)
    ensures CloudInv(CloudGo(c, step)) && Ended(CloudGo(c, step)) && Over(c.boots.core, CloudGo(c, step).boots.core)
  {
    hide CloudInv, WorldInv, OrphanGo, MoveEnabled, Grows, Silent, VS.Apply, ReadsVault;
    CloudKeeps(c, step);
    GoneStays(c, step, c.boots.core.environmentId);
    SoundVault(c);
    if step.BootDo? {
      BootsGoKeeps(c, step.move);
      EndedIsBereft(c, step.move);
      OrphanSilent(c.boots, step.move);
    } else {
      SelfOver(c.boots.core);
      CloudGoBoots(c, step);
    }
    SameSession(c.boots.core, CloudGo(c, step).boots.core);
  }

  /** Once its environment is gone a session approves nothing, sends no payload and confirms nothing, on any socket
      and whatever was in flight; and D1 holds none of its rows. */
  lemma {:induction false} EndedIsOver(c: Cloud, steps: seq<CloudStep>, d: Cloud)
    requires CloudInv(c) && CloudRun(c, steps, d) && Ended(c)
    ensures Over(c.boots.core, d.boots.core) && Ended(d)
    ensures IndexRows(d) == map[] && ApprovalRows(d) == map[]
    decreases |steps|
  {
    hide CloudInv, CloudGo, CloudEnabled, Over;
    if steps == [] {
      SelfOver(c.boots.core);
    } else {
      var b := CloudGo(c, steps[0]);
      EndedStep(c, steps[0]);
      EndedIsOver(b, steps[1..], d);
      OverTrans(c.boots.core, b.boots.core, d.boots.core);
    }
  }

  /** Nothing new approved: no row gets a digest it had not. */
  lemma NoDigestIsNew(c: Cloud, d: Cloud, id: string)
    requires CloudInv(c) && CloudInv(d) && Over(c.boots.core, d.boots.core) && id in d.boots.core.boots
    ensures id in c.boots.core.boots && d.boots.core.boots[id].payloadDigest == c.boots.core.boots[id].payloadDigest
  {
    hide VaultKnown, Grows, Silent;
    var s, t := c.boots.core, d.boots.core;
    GrowsBoots(s, t);
    assert Evolved(s.boots[id], t.boots[id]);
    assert id in s.approvals <==> s.boots[id].payloadDigest.Some?;
    assert id in t.approvals <==> t.boots[id].payloadDigest.Some?;
  }

  // ------------------------------------------------------------------ the deletion

  predicate IsDrop(op: VS.VaultStep) {
    op.DropEnvironment? || op.DropProject?
  }

  /** Deleting the session's environment, or its project: the rows go, and from then on it is over. Nothing is asked
      of the approvals in flight, nor of the cancellation before. */
  lemma DeletionIsFinal(c: Cloud, op: VS.VaultStep, steps: seq<CloudStep>, d: Cloud)
    requires CloudInv(c) && IsDrop(op) && c.boots.core.environmentId in c.vault.environments
    requires c.boots.core.environmentId !in CloudGo(c, VaultDo(op)).vault.environments
    requires CloudRun(CloudGo(c, VaultDo(op)), steps, d)
    ensures Over(c.boots.core, d.boots.core) && IndexRows(d) == map[] && ApprovalRows(d) == map[]
    ensures forall id :: id in d.boots.core.boots ==>
              id in c.boots.core.boots && d.boots.core.boots[id].payloadDigest == c.boots.core.boots[id].payloadDigest
  {
    var b := CloudGo(c, VaultDo(op));
    assert CloudEnabled(c, VaultDo(op)) by {
      DropsNeedNoIds(c, op);
    }
    KnownEnvironments(c);
    hide CloudInv, CloudGo, CloudEnabled, Over, CloudRun;
    CloudKeeps(c, VaultDo(op));
    SameBootsAfter(c, op);
    EndedIsOver(b, steps, d);
    CloudRunKeeps(b, steps, d);
    forall id | id in d.boots.core.boots
      ensures id in c.boots.core.boots && d.boots.core.boots[id].payloadDigest == c.boots.core.boots[id].payloadDigest
    {
      NoDigestIsNew(c, d, id);
    }
  }

  lemma DropsNeedNoIds(c: Cloud, op: VS.VaultStep)
    requires IsDrop(op)
    ensures CloudEnabled(c, VaultDo(op))
  {
  }

  lemma SameBootsAfter(c: Cloud, op: VS.VaultStep)
    requires CloudEnabled(c, VaultDo(op)) && CloudInv(c)
    ensures var b := CloudGo(c, VaultDo(op)); b.boots == c.boots && (forall e :: e in c.projects ==> e in b.projects)
  {
    hide CloudInv, CloudEnabled;
    CloudKeeps(c, VaultDo(op));
  }

  lemma KnownEnvironments(c: Cloud)
    requires CloudInv(c)
    ensures forall e :: e in c.vault.environments ==> e in c.projects
  {
  }

  /** What a drop takes: the environment itself, or every environment of the project. */
  lemma DropTakes(v: V.Vault, e: string)
    requires e in v.environments
    ensures e !in V.DeleteEnvironment(v, e).0.environments
    ensures v.environments[e].projectId in v.projects ==> e !in V.DeleteProject(v, v.environments[e].projectId).0.environments
  {
  }

  /** When the cancellation did get through, no boot is PENDING or APPROVED afterwards. */
  lemma DeletionCancels(s: State, reason: string, now: Time)
    ensures forall id :: id in CancelLive(s, None, reason, now).boots ==>
              CancelLive(s, None, reason, now).boots[id].status !in {PENDING, APPROVED}
  {
    hide CancelLive;
    forall id | id in CancelLive(s, None, reason, now).boots
      ensures CancelLive(s, None, reason, now).boots[id].status !in {PENDING, APPROVED}
    {
      CancelHasBoots(s, reason, now);
      CancelsExactly(s, None, reason, now, id);
    }
  }

  lemma CancelHasBoots(s: State, reason: string, now: Time)
    ensures CancelLive(s, None, reason, now).boots.Keys == s.boots.Keys
  {
    hide FireAll, Rearm;
    PrimitivesKeepKeys();
  }

  // ------------------------------------------------------------------ what it means to the client

  /** One of the client's sockets was told that its pinned payload's boot is consumed. */
  ghost predicate Told(core: State, client: Client) {
    && client.approvedDigest.Some? && client.approvedDigest.value.OfFrame?
    && exists conn :: client.approvedDigest.value.frame.bootId in ConsumedOn(core.sockets, conn)
  }

  lemma ToldBefore(s: State, t: State, client: Client)
    requires Silent(s, t) && Told(t, client)
    ensures Told(s, client)
  {
    hide Silent, ConsumedOn;
    SilentIsQuiet(s, t);
    var conn :| client.approvedDigest.value.frame.bootId in ConsumedOn(t.sockets, conn);
    assert client.approvedDigest.value.frame.bootId in ConsumedOn(s.sockets, conn);
  }

  /** After it exited a client is what it was. */
  lemma {:induction false} ExitedStays(cfg: Config, y: System, steps: seq<SystemStep>, z: System)
    requires SystemRun(cfg, y, steps, z) && y.exited
    ensures z.client == y.client && z.launched == y.launched
    decreases |steps|
  {
    hide CloudGo, CloudEnabled;
    if steps != [] {
      ExitedStays(cfg, SystemGo(cfg, y, steps[0]), steps[1..], z);
    }
  }

  lemma AfterEndStep(cfg: Config, y: System, step: SystemStep)
    requires SystemInv(cfg, y) && SystemEnabled(y, step) && Ended(y.cloud)
    ensures var z := SystemGo(cfg, y, step);
            && SystemInv(cfg, z) && Ended(z.cloud) && Silent(Core(y), Core(z))
            && (z.launched != y.launched ==> z.exited && Told(Core(y), z.client))
  {
    hide SystemInv, CloudInv, CloudEnabled, CloudGo, Silent, Ended, Told, HandleFrame, Over;
    SystemKeeps(cfg, y, step);
    CloudOf(cfg, y);
    SameSocketsSilent(Core(y), Core(y));
    match step
    case Dial(conn, identity, written) =>
      ConnectIsEnabled(y.cloud, conn, identity);
      EndedStep(y.cloud, BootDo(Handle(StepConnect(conn, identity))));
      OverIsSilent(Core(y), Core(SystemGo(cfg, y, step)));
    case Drop =>
    case ReadFrame(size, sendFails, delivered) => LaunchingIsTold(cfg, y, size, sendFails, delivered);
    case TakeFrame(conn, handler) =>
      EndedStep(y.cloud, BootDo(Handle(handler)));
      OverIsSilent(Core(y), Core(SystemGo(cfg, y, step)));
    case Elsewhere(move) =>
      EndedStep(y.cloud, move);
      OverIsSilent(Core(y), Core(SystemGo(cfg, y, step)));
  }

  lemma OverIsSilent(s: State, t: State)
    requires Over(s, t)
    ensures Silent(s, t)
  {
  }

  lemma CloudOf(cfg: Config, y: System)
    requires SystemInv(cfg, y)
    ensures CloudInv(y.cloud)
  {
  }

  /** A frame makes the client launch only when it says consumed, or is the normal close after that. */
  lemma LaunchingIsTold(cfg: Config, y: System, size: nat, sendFails: bool, delivered: bool)
    requires SystemInv(cfg, y) && SystemEnabled(y, ReadFrame(size, sendFails, delivered))
    ensures var z := SystemGo(cfg, y, ReadFrame(size, sendFails, delivered));
            && z.cloud == y.cloud && (z.launched != y.launched ==> z.exited && Told(Core(y), z.client))
  {
    hide CloudInv, Pinned, HandleFrame, ConsumedOn, Confirmed, Build;
    var conn := y.current.value;
    var frame := Core(y).sockets[conn].sent[y.links[conn].read];
    var z := SystemGo(cfg, y, ReadFrame(size, sendFails, delivered));
    PinHolds(cfg, y.client, frame, size, sendFails);
    if z.launched != y.launched {
      FinishedConsumes(cfg, y.client, frame, size, sendFails);
      ConsumedConfirms(cfg, y, conn, y.links[conn].read);
      ConfirmedPins(Core(y), y.client);
    }
  }

  lemma ConfirmedPins(core: State, client: Client)
    requires Confirmed(core, client)
    ensures client.approvedDigest.Some? && client.approvedDigest.value.OfFrame?
  {
  }

  lemma FinishedConsumes(cfg: Config, s: Client, frame: ServerFrame, size: nat, sendFails: bool)
    requires HandleFrame(cfg, s, frame, size, sendFails).2 == Finished
    ensures frame.BootConsumed? || frame == Close(NORMAL)
  {
    hide Decrypt, HasRequired;
  }

  /** After the end a client launches only if it had been told before: its boot was CONSUMED, and the confirmation
      on its way, when the environment went. */
  lemma {:induction false} LaunchNeedsConsumedBefore(cfg: Config, y: System, steps: seq<SystemStep>, z: System)
    requires SystemInv(cfg, y) && Ended(y.cloud) && SystemRun(cfg, y, steps, z) && z.launched != y.launched
    ensures Told(Core(y), z.client)
    ensures var id := z.client.approvedDigest.value.frame.bootId; id in Core(y).boots && Core(y).boots[id].status == CONSUMED
    decreases |steps|
  {
    hide SystemInv, Ended, Told, SystemGo, SystemEnabled, Silent;
    var x := SystemGo(cfg, y, steps[0]);
    AfterEndStep(cfg, y, steps[0]);
    if x.launched != y.launched {
      ExitedStays(cfg, x, steps[1..], z);
    } else {
      LaunchNeedsConsumedBefore(cfg, x, steps[1..], z);
      ToldBefore(Core(y), Core(x), z.client);
    }
    ToldIsConsumed(cfg, y, z.client);
  }

  lemma ToldIsConsumed(cfg: Config, y: System, client: Client)
    requires SystemInv(cfg, y) && Told(Core(y), client)
    ensures client.approvedDigest.Some? && client.approvedDigest.value.OfFrame?
    ensures var id := client.approvedDigest.value.frame.bootId; id in Core(y).boots && Core(y).boots[id].status == CONSUMED
  {
    hide VaultKnown, Pinned;
    CoreInv(y.cloud);
    var id := client.approvedDigest.value.frame.bootId;
    var conn :| id in ConsumedOn(Core(y).sockets, conn);
    assert SocketOk(Core(y).boots, Core(y).sockets[conn]);
    var f :| f in Core(y).sockets[conn].sent && f.BootConsumed? && f.bootId == id;
    assert FrameOk(Core(y).boots, f);
  }
}
