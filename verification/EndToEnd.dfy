/** Both programs together: one boot client against the control plane, over FIFO connections that may drop at
    any point, among any other traffic. */
module EndToEnd {
  import opened Ideal
  import opened Protocol
  import opened AadText
  import opened BootTables
  import opened BootInvariants
  import opened Approvals
  import opened BootRuns
  import opened ApprovalRuns
  import opened Orphaned
  import opened Release
  import opened ClientSession
  import opened ChildEnv
  import opened CloudRuns
  import VaultRuns
  import VaultTables

  // ------------------------------------------------------------------ where boot.consumed comes from

  /** The boots a socket was told are consumed. */
  function ConsumedOn(sockets: map<nat, Socket>, c: nat): set<string> {
    if c in sockets then ConsumedIn(sockets[c].sent) else {}
  }

  function ConsumedIn(sent: seq<ServerFrame>): set<string> {
    set f | f in sent && f.BootConsumed? :: f.bootId
  }

  predicate Quiet(frames: seq<ServerFrame>) {
    forall f :: f in frames ==> !f.BootConsumed?
  }

  ghost predicate SameConsumed(s: State, t: State) {
    forall c :: ConsumedOn(t.sockets, c) == ConsumedOn(s.sockets, c)
  }

  lemma QuietAppend(sent: seq<ServerFrame>, frames: seq<ServerFrame>)
    requires Quiet(frames)
    ensures ConsumedIn(sent + frames) == ConsumedIn(sent)
  {
    assert forall f :: f in sent + frames && f.BootConsumed? <==> f in sent && f.BootConsumed?;
  }

  lemma FireAllIsQuiet(s: State, ids: set<string>, change: Change, now: Time)
    ensures SameConsumed(s, FireAll(s, ids, change, now))
  {
    hide ConsumedIn;
    forall c | c in s.sockets ensures ConsumedOn(FireAll(s, ids, change, now).sockets, c) == ConsumedOn(s.sockets, c) {
      var socket := s.sockets[c];
      if Notified(s, ids, change, now, socket) != socket {
        var id := socket.attached.value;
        QuietAppend(socket.sent, TerminalFrames(id, Fired(s.boots[id], change, now).value));
      }
    }
  }

  lemma SayToIsQuiet(s: State, conns: set<nat>, frames: seq<ServerFrame>)
    requires Quiet(frames)
    ensures SameConsumed(s, SayTo(s, conns, frames))
  {
    hide ConsumedIn;
    forall c | c in s.sockets ensures ConsumedOn(SayTo(s, conns, frames).sockets, c) == ConsumedOn(s.sockets, c) {
      QuietAppend(s.sockets[c].sent, frames);
    }
  }

  lemma PrimitivesAreQuiet()
    ensures forall s, ids, change, now :: SameConsumed(s, FireAll(s, ids, change, now))
    ensures forall s, conns, frames | Quiet(frames) :: SameConsumed(s, SayTo(s, conns, frames))
    ensures forall s :: SameConsumed(s, Rearm(s))
    ensures forall id, boot :: Quiet(TerminalFrames(id, boot))
  {
    forall s, ids, change, now ensures SameConsumed(s, FireAll(s, ids, change, now)) {
      FireAllIsQuiet(s, ids, change, now);
    }
    forall s, conns, frames | Quiet(frames) ensures SameConsumed(s, SayTo(s, conns, frames)) {
      SayToIsQuiet(s, conns, frames);
    }
  }

  lemma AttachIsQuiet(s: State, conn: nat, id: string)
    requires conn in s.sockets
    ensures SameConsumed(s, Attach(s, conn, id)) && Attach(s, conn, id).boots == s.boots
  {
  }

  lemma DeliverIsQuiet(s: State, id: string, conns: set<nat>, now: Time)
    requires id in s.boots
    ensures SameConsumed(s, DeliverTo(s, id, conns, now))
  {
    hide FireAll, SayTo, ConsumedOn;
    PrimitivesAreQuiet();
  }

  lemma ProvenIsQuiet(s: State, conn: nat, id: string, now: Time)
    requires conn in s.sockets && id in s.boots
    ensures SameConsumed(s, Proven(s, conn, id, now))
  {
    hide FireAll, SayTo, Rearm, Attach, ConsumedOn, TerminalFrames, DeliverTo;
    PrimitivesAreQuiet();
    PrimitivesKeepKeys();
    var t := ExpireIfDue(s, id, now);
    if !IsTerminal(t.boots[id].status) {
      AttachIsQuiet(t, conn, id);
      var u := Log(Attach(t, conn, id), id, Reconnected);
      assert u.sockets == Attach(t, conn, id).sockets;
      ResumedIsQuiet(u, conn, id, now);
    }
  }

  lemma ResumedIsQuiet(s: State, conn: nat, id: string, now: Time)
    requires id in s.boots
    ensures SameConsumed(s, Resumed(s, conn, id, now))
  {
    hide FireAll, SayTo, ConsumedOn, DeliverTo;
    PrimitivesAreQuiet();
    var boot := s.boots[id];
    var until := if boot.payloadExpiresAt.Some? then boot.payloadExpiresAt.value else now;
    var t := SayTo(s, {conn}, [BootResumed(id, if boot.status == APPROVED then APPROVED else DELIVERED, until)]);
    SaidKeepsBoots(s, {conn}, [BootResumed(id, if boot.status == APPROVED then APPROVED else DELIVERED, until)]);
    DeliverIsQuiet(t, id, {conn}, now);
  }

  lemma SaidKeepsBoots(s: State, conns: set<nat>, frames: seq<ServerFrame>)
    ensures SayTo(s, conns, frames).boots == s.boots
  {
  }

  lemma ResponseIsQuiet(s: State, conn: nat, id: string, signature: Signature, token: Option<Token>, now: Time)
    requires conn in s.sockets
    ensures SameConsumed(s, HandleChallengeResponse(s, conn, id, signature, token, now))
  {
    hide FireAll, SayTo, Rearm, ConsumedOn, Proven, Verify, TokenValid;
    PrimitivesAreQuiet();
    if id in s.boots {
      ProvenIsQuiet(WithoutChallenges(s, id), conn, id, now);
    }
  }

  lemma HelloIsQuiet(s: State, conn: nat, hello: ClientFrame, environment: Option<Environment>, summary: string, id: string,
                     now: Time, created: Time)
    requires conn in s.sockets && hello.Hello?
    ensures SameConsumed(s, HandleHello(s, conn, hello, environment, summary, id, now, created))
  {
    hide FireAll, SayTo, Rearm, Attach, ConsumedOn, FromSource, PendingOf;
    PrimitivesAreQuiet();
    PrimitivesKeepKeys();
    var t := ExpireDue(s, now);
    if id !in t.boots && environment.Some? {
      var boot := NewBoot(t, s.sockets[conn].identity, hello, environment.value, summary, created);
      AttachIsQuiet(Insert(t, id, boot), conn, id);
    }
  }

  lemma ResumeIsQuiet(s: State, conn: nat, id: string, challenge: string, now: Time)
    requires conn in s.sockets
    ensures SameConsumed(s, HandleResume(s, conn, id, challenge, now))
  {
    hide FireAll, SayTo, Rearm, ConsumedOn, TerminalFrames;
    PrimitivesAreQuiet();
    RefuseIsQuiet(s, conn, UNKNOWN_BOOT);
    RefuseIsQuiet(s, conn, FORBIDDEN);
    if id in s.boots {
      var t := ExpireIfDue(s, id, now);
      assert SameConsumed(s, t);
      var issued := Issue(t, Challenge(id, challenge, now + CHALLENGE_TTL));
      SayToIsQuiet(issued, {conn}, [BootChallenge(id, challenge)]);
      assert SameConsumed(s, SayTo(issued, {conn}, [BootChallenge(id, challenge)])) by {
        assert issued.sockets == t.sockets;
      }
      PrimitivesKeepKeys();
      assert SameConsumed(s, SayTerminalOnce(t, conn, id));
    }
  }

  /** Only a matching acknowledgement makes the server say consumed, and only on the socket it came from. */
  lemma ConsumedNeedsReceived(s: State, step: Step, c: nat, id: string)
    requires Enabled(s, step) && id in ConsumedOn(Next(s, step).sockets, c) && id !in ConsumedOn(s.sockets, c)
    ensures step.StepReceived? && step.conn == c && step.id == id
    ensures id in s.boots && s.boots[id].payloadDigest == Some(step.digest)
  {
    hide FireAll, SayTo, Rearm, HandleHello, HandleResume, HandleChallengeResponse, TerminalFrames, ConsumedOn, HandleReceived;
    PrimitivesAreQuiet();
    match step
    case StepConnect(conn, identity) => ConnectIsQuiet(s, conn, identity);
    case StepDisconnect(conn) => DisconnectIsQuiet(s, conn);
    case StepHello(conn, hello, environment, summary, newId, now, created) =>
      HelloIsQuiet(s, conn, hello, environment, summary, newId, now, created);
    case StepResume(conn, other, challenge, now) => ResumeIsQuiet(s, conn, other, challenge, now);
    case StepChallengeResponse(conn, other, signature, token, now) => ResponseIsQuiet(s, conn, other, signature, token, now);
    case StepReceived(conn, other, digest, now) => ReceivedSays(s, conn, other, digest, now, c, id);
    case _ =>
  }

  lemma ConnectIsQuiet(s: State, conn: nat, identity: Identity)
    ensures SameConsumed(s, Connect(s, conn, identity))
  {
  }

  lemma DisconnectIsQuiet(s: State, conn: nat)
    ensures SameConsumed(s, Disconnect(s, conn))
  {
  }

  lemma ReceivedSays(s: State, conn: nat, other: string, digest: Digest, now: Time, c: nat, id: string)
    requires conn in s.sockets && id in ConsumedOn(HandleReceived(s, conn, other, digest, now).sockets, c)
    requires id !in ConsumedOn(s.sockets, c)
    ensures conn == c && other == id && id in s.boots && s.boots[id].payloadDigest == Some(digest)
  {
    hide FireAll, SayTo, Rearm, ConsumedOn, Fired;
    PrimitivesAreQuiet();
    if s.sockets[conn].attached != Some(other) || other !in s.boots {
      RefuseIsQuiet(s, conn, UNKNOWN_BOOT);
    } else if s.boots[other].payloadDigest != Some(digest) {
      RefuseIsQuiet(s, conn, PROTOCOL_ERROR);
    } else if Fired(s.boots[other], Consume, now).None? {
      RefuseIsQuiet(s, conn, if IsTerminal(s.boots[other].status) then TERMINAL else CONFLICT);
    } else {
      var t := FireAll(s, {other}, Consume, now);
      var u := SayTo(t, {conn}, [BootConsumed(other), Close(NORMAL)]);
      assert SameConsumed(s, t) && SameConsumed(u, Rearm(u));
      SaysConsumed(t, conn, other, c);
    }
  }

  lemma RefuseIsQuiet(s: State, conn: nat, code: CloseCode)
    ensures SameConsumed(s, Refuse(s, conn, code))
  {
    SayToIsQuiet(s, {conn}, [BootError(code), Close(code)]);
  }

  lemma SaysConsumed(s: State, conn: nat, id: string, c: nat)
    ensures ConsumedOn(SayTo(s, {conn}, [BootConsumed(id), Close(NORMAL)]).sockets, c)
         <= ConsumedOn(s.sockets, c) + if c == conn then {id} else {}
  {
  }

  // ------------------------------------------------------------------ the two programs

  /** One of the client's connections: what the server has yet to read of it, and how far the client read. */
  datatype Link = Link(up: seq<ClientFrame>, read: nat)

  /** `current` is the connection the client holds; `launched` the environment it executed its command with.
      `acks` is history: every acknowledgement the server took from one of the client's connections. */
  datatype System = System(
    cloud: Cloud, client: Client, current: Option<nat>, links: map<nat, Link>, exited: bool, launched: Option<seq<string>>,
    acks: set<(nat, string, Digest)>)

  datatype SystemStep =
    | Dial(conn: nat, identity: Identity, written: bool)
    | Drop
    | ReadFrame(size: nat, sendFails: bool, delivered: bool)
    | TakeFrame(conn: nat, step: Step)
    | Elsewhere(move: CloudStep)

  /** A handler run for a frame of that connection. */
  predicate HandlesFrameOf(step: Step, conn: nat) {
    match step
    case StepHello(c, _, _, _, _, _, _) => c == conn
    case StepMalformed(c) => c == conn
    case StepResume(c, _, _, _) => c == conn
    case StepChallengeResponse(c, _, _, _, _) => c == conn
    case StepReceived(c, _, _, _) => c == conn
    case _ => false
  }

  /** The handler is the one the frame's type selects, with the frame's own fields. */
  predicate Answers(step: Step, conn: nat, frame: ClientFrame) {
    HandlesFrameOf(step, conn)
    && match frame
       case Hello(_, _) => step.StepHello? && step.hello == frame
       case Resume(bootId) => step.StepResume? && step.id == bootId
       case ChallengeResponse(bootId, signature) => step.StepChallengeResponse? && step.id == bootId && step.signature == signature
       case Received(bootId, digest) => step.StepReceived? && step.id == bootId && step.digest == digest
  }

  function Core(y: System): State {
    y.cloud.boots.core
  }

  ghost predicate SystemEnabled(y: System, step: SystemStep) {
    match step
    case Dial(conn, _, _) => !y.exited && y.current.None? && conn !in Core(y).sockets
    case Drop => !y.exited && y.current.Some?
    case ReadFrame(_, _, _) =>
      !y.exited && y.current.Some? && y.current.value in y.links && y.current.value in Core(y).sockets
      && y.links[y.current.value].read < |Core(y).sockets[y.current.value].sent|
    case TakeFrame(conn, step) =>
      conn in y.links && y.links[conn].up != [] && Answers(step, conn, y.links[conn].up[0])
      && CloudEnabled(y.cloud, BootDo(Handle(step)))
    case Elsewhere(move) =>
      && CloudEnabled(y.cloud, move)
      && forall conn | conn in y.links && move.BootDo? && move.move.Handle? :: !HandlesFrameOf(move.move.step, conn)
  }

  /** The session after one frame: reconnect, finish by launching, end, or go on. */
  function AfterFrame(cfg: Config, y: System, conn: nat, frame: ServerFrame, size: nat, sendFails: bool, delivered: bool): System
    requires conn in y.links
  {
    var (client, out, verdict) := HandleFrame(cfg, y.client, frame, size, sendFails);
    var up := if sendFails && !delivered then y.links[conn].up else y.links[conn].up + out;
    var z := y.(client := client, links := y.links[conn := Link(up, y.links[conn].read + 1)]);
    match verdict
    case Continue => z
    case Lost => z.(current := None)
    case Fatal(_) => z.(current := None, exited := true)
    case Finished => z.(current := None, exited := true, launched := Launched(cfg, client))
  }

  ghost function SystemGo(cfg: Config, y: System, step: SystemStep): System
    requires SystemEnabled(y, step)
  {
    match step
    case Dial(conn, identity, written) =>
      var cloud := CloudGo(y.cloud, BootDo(Handle(StepConnect(conn, identity))));
      y.(cloud := cloud, current := Some(conn), links := y.links[conn := Link(if written then [Handshake(cfg, y.client)] else [], 0)])
    case Drop => y.(current := None)
    case ReadFrame(size, sendFails, delivered) =>
      var conn := y.current.value;
      AfterFrame(cfg, y, conn, Core(y).sockets[conn].sent[y.links[conn].read], size, sendFails, delivered)
    case TakeFrame(conn, step) =>
      var frame := y.links[conn].up[0];
      y.(cloud := CloudGo(y.cloud, BootDo(Handle(step))),
         links := y.links[conn := y.links[conn].(up := y.links[conn].up[1..])],
         acks := if frame.Received? then y.acks + {(conn, frame.bootId, frame.payloadDigest)} else y.acks)
    case Elsewhere(move) => y.(cloud := CloudGo(y.cloud, move))
  }

  // ------------------------------------------------------------------ the invariant

  /** Every acknowledgement on its way names the pinned payload. */
  predicate UpOk(client: Client, link: Link) {
    forall f :: f in link.up && f.Received? ==> client.approvedDigest == Some(f.payloadDigest)
  }

  /** The server said consumed on one of the client's connections only for an acknowledgement it took there. */
  ghost predicate ConsumedOk(y: System, conn: nat) {
    forall id :: id in ConsumedOn(Core(y).sockets, conn) ==>
      exists digest :: (conn, id, digest) in y.acks && id in Core(y).boots && Core(y).boots[id].payloadDigest == Some(digest)
  }

  /** The boot of the pinned payload is consumed, and the pinned digest is the stored one. */
  predicate Confirmed(core: State, client: Client) {
    && client.approvedDigest.Some? && client.approvedDigest.value.OfFrame?
    && var id := client.approvedDigest.value.frame.bootId;
       id in core.boots && core.boots[id].status == CONSUMED && core.boots[id].payloadDigest == client.approvedDigest
  }

  ghost predicate SystemInv(cfg: Config, y: System) {
    && CloudInv(y.cloud) && Pinned(cfg, y.client)
    && (forall conn :: conn in y.links ==> conn in Core(y).sockets && UpOk(y.client, y.links[conn]) && ConsumedOk(y, conn))
    && (forall a :: a in y.acks ==> y.client.approvedDigest == Some(a.2))
    && (y.client.consumed ==> y.exited && Confirmed(Core(y), y.client)
                              && exists conn :: (conn, y.client.approvedDigest.value.frame.bootId, y.client.approvedDigest.value) in y.acks)
    && (y.launched.Some? ==> y.client.consumed && y.launched == Launched(cfg, y.client))
  }

  lemma ConfirmedStays(s: State, t: State, client: Client)
    requires Confirmed(s, client) && BootsGrow(s.boots, t.boots)
    ensures Confirmed(t, client)
  {
    var id := client.approvedDigest.value.frame.bootId;
    assert Evolved(s.boots[id], t.boots[id]);
  }

  lemma CoreInv(c: Cloud)
    requires CloudInv(c)
    ensures WorldInv(c.boots) && Inv(c.boots.core)
  {
  }

  /** The core only grows, and the approval's pieces never say consumed. */
  lemma MoveIsQuiet(c: Cloud, step: CloudStep)
    requires CloudInv(c) && CloudEnabled(c, step)
    ensures CloudInv(CloudGo(c, step)) && Grows(c.boots.core, CloudGo(c, step).boots.core)
    ensures !(step.BootDo? && step.move.Handle?) || Ended(c) ==> SameConsumed(c.boots.core, CloudGo(c, step).boots.core)
  {
    hide CloudInv, Remembers, WorldInv, Inv, Grows, CloudEnabled, SameConsumed, MoveEnabled, Go, OrphanGo, Silent, Ended;
    CloudKeeps(c, step);
    CoreInv(c);
    SelfGrows(c.boots.core);
    SelfConsumed(c.boots.core);
    match step
    case BootDo(move) =>
      EnabledMove(c, move);
      BootsGoKeeps(c, move);
      if Ended(c) {
        EndedIsBereft(c, move);
        OrphanSilent(c.boots, move);
        SilentIsQuiet(c.boots.core, OrphanGo(c.boots, move).core);
      } else if !move.Handle? {
        PieceIsQuiet(c.boots, move);
      }
    case _ => CloudGoBoots(c, step);
  }

  lemma SilentIsQuiet(s: State, t: State)
    requires Silent(s, t)
    ensures SameConsumed(s, t)
  {
    forall c ensures ConsumedOn(t.sockets, c) == ConsumedOn(s.sockets, c) {
      var before, after := SentTo(s, c), SentTo(t, c);
      assert Hushed(before, after);
      assert after == before + after[|before|..];
      assert ConsumedIn(after) == ConsumedIn(before);
    }
  }

  lemma EnabledMove(c: Cloud, move: Move)
    requires CloudEnabled(c, BootDo(move))
    ensures MoveEnabled(c.boots, move) && CloudGo(c, BootDo(move)).boots == BootsGo(c, move)
  {
  }

  lemma CloudGoBoots(c: Cloud, step: CloudStep)
    requires CloudEnabled(c, step) && !step.BootDo?
    ensures CloudGo(c, step).boots == c.boots
  {
    hide VaultRuns.Apply, VaultTables.DekOf, CreateBootEnvelope;
  }

  lemma SelfConsumed(s: State)
    ensures SameConsumed(s, s)
  {
  }

  lemma PieceIsQuiet(w: World, move: Move)
    requires MoveEnabled(w, move) && !move.Handle? && WorldInv(w)
    ensures SameConsumed(w.core, Go(w, move).core)
  {
    hide FireAll, SayTo, Rearm, ConsumedOn, Check, StoreContext, Inv, CommitApproval;
    PrimitivesAreQuiet();
    match move
    case StoreCall(k, contextId, now) => StoreIsQuiet(w.core, w.calls[k], contextId, now);
    case CommitCall(k, token, now) =>
      var call := w.calls[k];
      if MayCommit(w.core, call.input, call.stage, token, now) {
        CommitIsQuiet(w.core, call.input.bootId, call.stage.payload, call.stage.summary,
                      ApprovalFor(call.input, call.completing.value, call.stage, now), now);
      }
    case _ =>
  }

  lemma StoreIsQuiet(s: State, call: Call, contextId: string, now: Time)
    requires call.stage.Loaded?
    ensures Store(s, call.input, call.stage, contextId, now).0.sockets == s.sockets
  {
  }

  lemma CommitIsQuiet(s: State, id: string, payload: Payload, summary: string, approval: Approval, now: Time)
    requires id in s.boots
    ensures SameConsumed(s, CommitApproval(s, id, payload, summary, approval, now))
  {
    hide FireAll, SayTo, Rearm, ConsumedOn, DeliverTo;
    PrimitivesAreQuiet();
    PrimitivesKeepKeys();
    var fired := FireAll(s, {id}, Approve(payload, summary), now);
    var t := fired.(contexts := map c | c in s.contexts && s.contexts[c].bootId != id :: s.contexts[c],
                    approvals := s.approvals[id := approval]);
    DeliverIsQuiet(t, id, AttachedTo(t.sockets, id), now);
  }

  /** What the server's moves keep for every connection they say nothing new on. */
  lemma LinkStays(y: System, z: System, conn: nat)
    requires ConsumedOk(y, conn) && y.acks <= z.acks && BootsGrow(Core(y).boots, Core(z).boots)
    requires ConsumedOn(Core(z).sockets, conn) <= ConsumedOn(Core(y).sockets, conn)
    ensures ConsumedOk(z, conn)
  {
    forall id | id in ConsumedOn(Core(z).sockets, conn)
      ensures exists digest :: (conn, id, digest) in z.acks && id in Core(z).boots && Core(z).boots[id].payloadDigest == Some(digest)
    {
      var digest :| (conn, id, digest) in y.acks && id in Core(y).boots && Core(y).boots[id].payloadDigest == Some(digest);
      assert Evolved(Core(y).boots[id], Core(z).boots[id]);
      assert (conn, id, digest) in z.acks;
    }
  }

  /** A server move that is quiet on the client's connections keeps the whole. */
  lemma QuietMoveKeeps(cfg: Config, y: System, z: System)
    requires SystemInv(cfg, y) && CloudInv(z.cloud) && Grows(Core(y), Core(z))
    requires z.client == y.client && z.exited == y.exited && z.launched == y.launched && y.acks == z.acks
    requires forall conn :: conn in z.links ==>
               conn in Core(z).sockets && UpOk(y.client, z.links[conn]) && ConsumedOk(z, conn)
    ensures SystemInv(cfg, z)
  {
    hide CloudInv, Pinned, ConsumedOk, UpOk, Grows;
    GrowsBoots(Core(y), Core(z));
    if y.client.consumed {
      ConfirmedStays(Core(y), Core(z), y.client);
    }
  }

  lemma ElsewhereKeeps(cfg: Config, y: System, move: CloudStep)
    requires SystemInv(cfg, y) && SystemEnabled(y, Elsewhere(move))
    ensures SystemInv(cfg, SystemGo(cfg, y, Elsewhere(move)))
  {
    hide CloudInv, Pinned, UpOk, Grows, CloudEnabled, CloudGo, ConsumedOn, BootsGrow;
    var z := SystemGo(cfg, y, Elsewhere(move));
    MoveIsQuiet(y.cloud, move);
    GrowsBoots(Core(y), Core(z));
    GrowsKeys(Core(y), Core(z));
    forall conn | conn in z.links ensures ConsumedOk(z, conn) {
      NothingNew(y, move, conn);
      LinkStays(y, z, conn);
    }
    QuietMoveKeeps(cfg, y, z);
  }

  lemma NothingNew(y: System, move: CloudStep, conn: nat)
    requires CloudInv(y.cloud) && SystemEnabled(y, Elsewhere(move)) && conn in y.links
    ensures ConsumedOn(CloudGo(y.cloud, move).boots.core.sockets, conn) <= ConsumedOn(Core(y).sockets, conn)
  {
    hide CloudInv, CloudEnabled, CloudGo, ConsumedOn;
    var after := ConsumedOn(CloudGo(y.cloud, move).boots.core.sockets, conn);
    if exists id :: id in after && id !in ConsumedOn(Core(y).sockets, conn) {
      var id :| id in after && id !in ConsumedOn(Core(y).sockets, conn);
      NewConsumed(y.cloud, move, conn, id);
      assert false;
    }
  }

  lemma NewConsumed(c: Cloud, move: CloudStep, conn: nat, id: string)
    requires CloudInv(c) && CloudEnabled(c, move)
    requires id in ConsumedOn(CloudGo(c, move).boots.core.sockets, conn) && id !in ConsumedOn(c.boots.core.sockets, conn)
    ensures move.BootDo? && move.move.Handle?
    ensures move.move.step.StepReceived? && move.move.step.conn == conn && move.move.step.id == id
    ensures id in c.boots.core.boots && c.boots.core.boots[id].payloadDigest == Some(move.move.step.digest)
  {
    hide CloudInv, Grows, ConsumedOn, CloudGo, Next, Ended, ReadsVault;
    MoveIsQuiet(c, move);
    if move.BootDo? && move.move.Handle? && !Ended(c) {
      EnabledMove(c, move.move);
      ConsumedNeedsReceived(c.boots.core, move.move.step, conn, id);
    }
  }

  lemma TakeKeeps(cfg: Config, y: System, conn: nat, step: Step)
    requires SystemInv(cfg, y) && SystemEnabled(y, TakeFrame(conn, step))
    ensures SystemInv(cfg, SystemGo(cfg, y, TakeFrame(conn, step)))
  {
    hide CloudInv, Pinned, Grows, CloudEnabled, CloudGo, BootsGrow, ConsumedOk, ConsumedOn;
    var z := SystemGo(cfg, y, TakeFrame(conn, step));
    MoveIsQuiet(y.cloud, BootDo(Handle(step)));
    GrowsBoots(Core(y), Core(z));
    GrowsKeys(Core(y), Core(z));
    assert UpOk(y.client, y.links[conn]);
    assert y.links[conn].up[0] in y.links[conn].up;
    assert forall f :: f in z.links[conn].up ==> f in y.links[conn].up;
    forall c | c in z.links ensures ConsumedOk(z, c) {
      TakeConsumed(y, z, conn, step, c);
    }
    if y.client.consumed {
      ConfirmedStays(Core(y), Core(z), y.client);
    }
  }

  lemma TakeConsumed(y: System, z: System, conn: nat, step: Step, c: nat)
    requires CloudInv(y.cloud) && SystemEnabled(y, TakeFrame(conn, step)) && c in y.links && ConsumedOk(y, c)
    requires z.cloud == CloudGo(y.cloud, BootDo(Handle(step))) && BootsGrow(Core(y).boots, Core(z).boots)
    requires var frame := y.links[conn].up[0];
             z.acks == if frame.Received? then y.acks + {(conn, frame.bootId, frame.payloadDigest)} else y.acks
    ensures ConsumedOk(z, c)
  {
    hide CloudInv, CloudEnabled, CloudGo, ConsumedOn;
    forall id | id in ConsumedOn(Core(z).sockets, c)
      ensures exists digest :: (c, id, digest) in z.acks && id in Core(z).boots && Core(z).boots[id].payloadDigest == Some(digest)
    {
      if id in ConsumedOn(Core(y).sockets, c) {
        var digest :| (c, id, digest) in y.acks && id in Core(y).boots && Core(y).boots[id].payloadDigest == Some(digest);
        assert Evolved(Core(y).boots[id], Core(z).boots[id]);
        assert (c, id, digest) in z.acks;
      } else {
        NewConsumed(y.cloud, BootDo(Handle(step)), c, id);
        assert Evolved(Core(y).boots[id], Core(z).boots[id]);
        assert (c, id, step.digest) in z.acks;
      }
    }
  }

  lemma DialKeeps(cfg: Config, y: System, conn: nat, identity: Identity, written: bool)
    requires SystemInv(cfg, y) && SystemEnabled(y, Dial(conn, identity, written))
    ensures SystemInv(cfg, SystemGo(cfg, y, Dial(conn, identity, written)))
  {
    hide CloudInv, Pinned, Grows, CloudEnabled, CloudGo, BootsGrow, ConsumedOk;
    var z := SystemGo(cfg, y, Dial(conn, identity, written));
    var move := BootDo(Handle(StepConnect(conn, identity)));
    ConnectIsEnabled(y.cloud, conn, identity);
    MoveIsQuiet(y.cloud, move);
    GrowsBoots(Core(y), Core(z));
    GrowsKeys(Core(y), Core(z));
    EnabledMove(y.cloud, move.move);
    forall c | c in z.links ensures c in Core(z).sockets && ConsumedOk(z, c) {
      ConnectIsQuiet(Core(y), conn, identity);
      if c == conn {
        assert ConsumedOn(Core(z).sockets, conn) == ConsumedOn(Core(y).sockets, conn) == {};
        NothingConsumed(z, conn);
      } else {
        LinkStays(y, z, c);
      }
    }
    QuietMoveKeeps(cfg, y, z);
  }

  lemma ConnectIsEnabled(c: Cloud, conn: nat, identity: Identity)
    ensures CloudEnabled(c, BootDo(Handle(StepConnect(conn, identity))))
  {
  }

  lemma NothingConsumed(y: System, conn: nat)
    requires ConsumedOn(Core(y).sockets, conn) == {}
    ensures ConsumedOk(y, conn)
  {
  }

  /** Reading boot.consumed, or the normal close that only ever follows it, means the pinned payload's boot is
      consumed under the pinned digest. */
  lemma ConsumedConfirms(cfg: Config, y: System, conn: nat, i: nat)
    requires SystemInv(cfg, y) && conn in y.links && i < |Core(y).sockets[conn].sent|
    requires Core(y).sockets[conn].sent[i].BootConsumed? || Core(y).sockets[conn].sent[i] == Close(NORMAL)
    ensures Confirmed(Core(y), y.client)
    ensures y.client.approvedDigest.value.frame.bootId in ConsumedOn(Core(y).sockets, conn)
    ensures exists c :: (c, y.client.approvedDigest.value.frame.bootId, y.client.approvedDigest.value) in y.acks
  {
    hide Pinned, UpOk;
    CoreInv(y.cloud);
    var core, sent := Core(y), Core(y).sockets[conn].sent;
    assert SocketOk(core.boots, core.sockets[conn]);
    var j := if sent[i].BootConsumed? then i else i - 1;
    assert sent[j].BootConsumed? && sent[j] in sent && FrameOk(core.boots, sent[j]);
    var id := sent[j].bootId;
    assert id in ConsumedOn(core.sockets, conn);
    assert ConsumedOk(y, conn);
    var digest :| (conn, id, digest) in y.acks && id in core.boots && core.boots[id].payloadDigest == Some(digest);
    assert BootOk(id, core.boots[id], core.index[id], core.audit[id]);
    assert y.client.approvedDigest == Some((conn, id, digest).2);
  }

  lemma ReadKeeps(cfg: Config, y: System, size: nat, sendFails: bool, delivered: bool)
    requires SystemInv(cfg, y) && SystemEnabled(y, ReadFrame(size, sendFails, delivered))
    ensures SystemInv(cfg, SystemGo(cfg, y, ReadFrame(size, sendFails, delivered)))
  {
    hide CloudInv, Pinned, HandleFrame, ConsumedOk, Confirmed, Build, BootOk, Evolved, CloudGo, Go, Next;
    var conn := y.current.value;
    var frame := Core(y).sockets[conn].sent[y.links[conn].read];
    var z := SystemGo(cfg, y, ReadFrame(size, sendFails, delivered));
    PinHolds(cfg, y.client, frame, size, sendFails);
    if z.client.consumed && !y.client.consumed {
      ConsumedConfirms(cfg, y, conn, y.links[conn].read);
      SamePin(Core(y), y.client, z.client);
    }
    forall c | c in z.links ensures UpOk(z.client, z.links[c]) && ConsumedOk(z, c) {
      assert UpOk(y.client, y.links[c]) && ConsumedOk(y, c);
      SameCore(y, z, c);
    }
  }

  lemma SamePin(core: State, client: Client, after: Client)
    requires Confirmed(core, client) && after.approvedDigest == client.approvedDigest
    ensures Confirmed(core, after) && client.approvedDigest.Some?
  {
  }

  lemma SameCore(y: System, z: System, conn: nat)
    requires ConsumedOk(y, conn) && Core(z) == Core(y) && z.acks == y.acks
    ensures ConsumedOk(z, conn)
  {
  }

  lemma DropKeeps(cfg: Config, y: System)
    requires SystemInv(cfg, y)
    ensures SystemInv(cfg, y.(current := None))
  {
    hide CloudInv, Pinned, ConsumedOk, UpOk, Confirmed;
    forall conn | conn in y.links ensures ConsumedOk(y.(current := None), conn) {
      SameCore(y, y.(current := None), conn);
    }
  }

  lemma SystemKeeps(cfg: Config, y: System, step: SystemStep)
    requires SystemInv(cfg, y) && SystemEnabled(y, step)
    ensures SystemInv(cfg, SystemGo(cfg, y, step))
  {
    hide SystemInv;
    match step
    case Dial(conn, identity, written) => DialKeeps(cfg, y, conn, identity, written);
    case Drop => DropKeeps(cfg, y);
    case ReadFrame(size, sendFails, delivered) => ReadKeeps(cfg, y, size, sendFails, delivered);
    case TakeFrame(conn, handler) => TakeKeeps(cfg, y, conn, handler);
    case Elsewhere(move) => ElsewhereKeeps(cfg, y, move);
  }

  ghost predicate SystemRun(cfg: Config, y: System, steps: seq<SystemStep>, z: System)
    decreases |steps|
  {
    if steps == [] then z == y else SystemEnabled(y, steps[0]) && SystemRun(cfg, SystemGo(cfg, y, steps[0]), steps[1..], z)
  }

  /** A client that has not connected yet, and a control plane in any state it can reach. */
  function NewSystem(cloud: Cloud): System {
    System(cloud, FRESH, None, map[], false, None, {})
  }

  lemma {:induction false} SystemRunKeeps(cfg: Config, y: System, steps: seq<SystemStep>, z: System)
    requires SystemInv(cfg, y) && SystemRun(cfg, y, steps, z)
    ensures SystemInv(cfg, z)
    decreases |steps|
  {
    hide SystemInv, SystemGo, SystemEnabled;
    if steps != [] {
      SystemKeeps(cfg, y, steps[0]);
      SystemRunKeeps(cfg, SystemGo(cfg, y, steps[0]), steps[1..], z);
    }
  }

  /** A known payload that opens at all opens for its recipient, to the values of its load. */
  lemma OpensToItsLoad(c: Cloud, id: string, recipient: PublicKey, opener: nat, payload: Payload, load: Load)
    requires PayloadKnown(c, id, recipient, payload) && OneLine(id) && OneLine(payload.environmentId)
    requires load in c.loads && LoadOk(c, load) && load.records == payload.secrets
    requires load.environmentId == payload.environmentId && load.version == payload.environmentKeyVersion
    requires Decrypt(opener, id, payload).Some?
    ensures recipient == Point(opener) && AsMap(Decrypt(opener, id, payload).value) == load.values
  {
    hide LoadOk, DecryptRecords, OpenBootEnvelope, Loads;
    var e, version := payload.environmentId, payload.environmentKeyVersion;
    var dek := c.deks[VaultTables.KeyId(e, version)];
    var serverSecret, salt, nonce :|
      CreateBootEnvelope(id, e, version, dek, recipient, serverSecret, salt, nonce) == Some(payload.keyEnvelope);
    if recipient.Point? {
      EnvelopeOpensOnlyForItsBoot(id, e, version, dek, recipient.secret, serverSecret, salt, nonce, id, e, version, opener);
      KnownPayloadDecrypts(c, id, opener, payload, load);
    }
  }

  /** The load an approval's context was prepared from, found from the stored payload. */
  lemma ApprovalHasLoad(c: Cloud, id: string) returns (load: Load)
    requires CloudInv(c) && id in c.boots.core.approvals
    ensures id in c.boots.core.boots && c.boots.core.boots[id].payloadDigest.Some?
    ensures c.boots.core.boots[id].payloadDigest.value.OfFrame?
    ensures var payload := c.boots.core.boots[id].payloadDigest.value.frame;
            && load in c.loads && LoadOk(c, load) && PreparedFrom(c, c.boots.core.approvals[id], load)
            && load.records == payload.secrets && load.environmentId == payload.environmentId
            && load.version == payload.environmentKeyVersion && OneLine(payload.environmentId)
            && PayloadKnown(c, id, c.boots.core.boots[id].encryptionKey, payload)
  {
    hide VaultKnown, Inv, PayloadKnown, LoadOk;
    assert ApprovalKnown(c, id);
    var boot, approval := c.boots.core.boots[id], c.boots.core.approvals[id];
    assert Justified(c.boots.prepared, id, boot, approval);
    var request := approval.releaseContextDigest.request;
    var context := Context(id, request, approval.releaseContextDigest, approval.approverUserId, approval.approverCredentialId,
                           request.expiresAt);
    assert PreparedKnown(c, context);
    KnownEnvironment(c, id, boot.encryptionKey, boot.payloadDigest.value.frame);
    load :| load in c.loads && LoadOk(c, load) && OfSecrets(load.records) == request.secretsDigest
            && load.environmentId == request.environmentId && load.version == request.environmentKeyVersion;
    assert PreparedFrom(c, approval, load);
  }

  lemma DigestMeansApproved(s: State, id: string)
    requires Inv(s) && id in s.boots && s.boots[id].payloadDigest.Some?
    ensures id in s.approvals
  {
  }

  /** End to end: a command is executed only when the boot of the pinned payload is CONSUMED, exactly one approval was
      recorded for it, the digest acknowledged is the digest stored at approval, and the child environment is the
      stripped base under exactly the plain values the approved context was prepared from. The approval's record is in
      D1 exactly while the session's environment is. */
  lemma ExecMeansConsumed(cfg: Config, environmentId: string, version: nat, master: Key, before: seq<CloudStep>, cloud: Cloud,
                          steps: seq<SystemStep>, y: System)
    requires CloudRun(NewCloud(environmentId, version, master), before, cloud)
    requires SystemRun(cfg, NewSystem(cloud), steps, y) && y.launched.Some?
    requires forall id :: id in Core(y).boots ==> UsableId(id)
    ensures y.client.approvedDigest.Some? && y.client.approvedDigest.value.OfFrame?
    ensures var payload := y.client.approvedDigest.value.frame;
            && payload.bootId in Core(y).boots && payload.bootId in Core(y).approvals
            && (payload.bootId in ApprovalRows(y.cloud) <==> Core(y).environmentId in y.cloud.vault.environments)
            && (payload.bootId in ApprovalRows(y.cloud) ==>
                  ApprovalRows(y.cloud)[payload.bootId] == Core(y).approvals[payload.bootId])
            && Core(y).boots[payload.bootId].status == CONSUMED
            && Core(y).boots[payload.bootId].payloadDigest == Some(OfFrame(payload))
            && Core(y).boots[payload.bootId].encryptionKey == Point(cfg.encryptionSecret)
            && (exists conn :: (conn, payload.bootId, OfFrame(payload)) in y.acks)
            && (forall a :: a in y.acks ==> a.2 == OfFrame(payload))
            && exists load :: load in y.cloud.loads && PreparedFrom(y.cloud, Core(y).approvals[payload.bootId], load)
                 && ChildHolds(cfg, y.launched.value, load.values)
  {
    hide SystemInv, SystemRun, CloudRun, Inv, VaultKnown, PayloadKnown, LoadOk, Decrypt, Build, ChildHolds, CloudInv;
    ReachableSystem(cfg, environmentId, version, master, before, cloud, steps, y);
    LaunchedFacts(cfg, y);
    var payload := y.client.approvedDigest.value.frame;
    var load := ApprovalHasLoad(y.cloud, payload.bootId);
    OpensToItsLoad(y.cloud, payload.bootId, Core(y).boots[payload.bootId].encryptionKey, cfg.encryptionSecret, payload, load);
    LaunchHolds(cfg, y.client, load.values);
  }

  lemma ReachableSystem(cfg: Config, environmentId: string, version: nat, master: Key, before: seq<CloudStep>, cloud: Cloud,
                        steps: seq<SystemStep>, y: System)
    requires CloudRun(NewCloud(environmentId, version, master), before, cloud) && SystemRun(cfg, NewSystem(cloud), steps, y)
    ensures SystemInv(cfg, y)
  {
    ReachableCloud(environmentId, version, master, before, cloud);
    assert SystemInv(cfg, NewSystem(cloud));
    SystemRunKeeps(cfg, NewSystem(cloud), steps, y);
  }

  /** What the invariant says of a client that launched. */
  lemma LaunchedFacts(cfg: Config, y: System)
    requires SystemInv(cfg, y) && y.launched.Some?
    ensures CloudInv(y.cloud) && Pinned(cfg, y.client) && y.client.consumed && y.launched == Launched(cfg, y.client)
    ensures Confirmed(Core(y), y.client) && y.client.approvedDigest.value.frame.bootId in Core(y).approvals
    ensures var payload := y.client.approvedDigest.value.frame;
            Decrypt(cfg.encryptionSecret, payload.bootId, payload) == Some(y.client.secrets)
    ensures exists conn :: (conn, y.client.approvedDigest.value.frame.bootId, y.client.approvedDigest.value) in y.acks
    ensures forall a :: a in y.acks ==> Some(a.2) == y.client.approvedDigest
  {
    hide Inv, VaultKnown, Decrypt, Build;
    CoreInv(y.cloud);
    DigestMeansApproved(Core(y), y.client.approvedDigest.value.frame.bootId);
  }

  /** The child sees each value under its name, nothing under a stripped name unless a secret has it, and the
      parent's own variables otherwise. */
  ghost predicate ChildHolds(cfg: Config, env: seq<string>, values: map<string, string>) {
    forall name :: Lookup(env, name) ==
                     if name in values then Some(values[name])
                     else if name in STRIPPED_NAMES then None
                     else LastIn(cfg.environ, name)
  }

  lemma LaunchHolds(cfg: Config, client: Client, values: map<string, string>)
    requires Pinned(cfg, client) && client.consumed && client.approvedDigest.Some? && AsMap(client.secrets) == values
    ensures Launched(cfg, client).Some? && ChildHolds(cfg, Launched(cfg, client).value, values)
  {
    LaunchIsPinned(cfg, client);
    forall name ensures Lookup(Launched(cfg, client).value, name) ==
                          if name in values then Some(values[name])
                          else if name in STRIPPED_NAMES then None
                          else LastIn(cfg.environ, name) {
      SecretInMap(client.secrets, name);
    }
  }
}
