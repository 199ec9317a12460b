/** Runs with approvals cut at their awaits: any handler, and any piece of any other approval, may run
    between two pieces of one approval. */
module ApprovalRuns {
  import opened Ideal
  import opened Protocol
  import opened BootTables
  import opened BootInvariants
  import opened Approvals
  import opened BootRuns

  /** One RPC in flight: prepareApproval, or completeApproval when `completing` is set. */
  datatype Call = Call(input: ApproveInput, completing: Option<Completion>, stage: Stage)

  /** `prepared` is history: every context ever stored. */
  datatype World = World(core: State, calls: map<nat, Call>, prepared: set<Context>)

  datatype Move =
    | Handle(step: Step)
    | BeginCall(k: nat, input: ApproveInput, completing: Option<Completion>, now: Time)
    | AuthoriseCall(k: nat, token: Option<Token>, environment: Option<Environment>, summary: string, approvable: bool)
    | LoadCall(k: nat, secrets: seq<SecretRecord>)
    | StoreCall(k: nat, contextId: string, now: Time)
    | CheckCall(k: nat, now: Time)
    | CommitCall(k: nat, token: Option<Token>, now: Time)

  ghost predicate MoveEnabled(w: World, move: Move) {
    match move
    case Handle(step) => Enabled(w.core, step)
    case BeginCall(k, _, _, _) => k !in w.calls
    case AuthoriseCall(k, _, _, _, _) => k in w.calls && w.calls[k].stage.Begun?
    case LoadCall(k, _) => k in w.calls && w.calls[k].stage.Authorised?
    case StoreCall(k, _, _) => k in w.calls && w.calls[k].stage.Loaded? && w.calls[k].completing.None?
    case CheckCall(k, _) => k in w.calls && w.calls[k].stage.Loaded? && w.calls[k].completing.Some?
    case CommitCall(k, _, _) => k in w.calls && w.calls[k].stage.Ready? && w.calls[k].completing.Some?
  }

  /** A call goes on with its next stage, or ends. */
  function Continue(calls: map<nat, Call>, k: nat, call: Call, stage: Option<Stage>): map<nat, Call> {
    if stage.Some? then calls[k := call.(stage := stage.value)] else calls - {k}
  }

  ghost function Go(w: World, move: Move): World
    requires MoveEnabled(w, move)
  {
    match move
    case Handle(step) => w.(core := Next(w.core, step))
    case BeginCall(k, input, completing, now) =>
      var (core, stage) := Begin(w.core, input, now);
      if stage.None? then w.(core := core)
      else w.(core := core, calls := w.calls[k := Call(input, completing, stage.value)])
    case AuthoriseCall(k, token, environment, summary, approvable) =>
      var call := w.calls[k];
      w.(calls := Continue(w.calls, k, call, Authorise(call.input, call.stage, token, environment, summary, approvable)))
    case LoadCall(k, secrets) => w.(calls := Continue(w.calls, k, w.calls[k], Load(w.calls[k].stage, secrets)))
    case StoreCall(k, contextId, now) =>
      var call := w.calls[k];
      var (core, request) := Store(w.core, call.input, call.stage, contextId, now);
      World(core, w.calls - {k},
            if request.Some? then w.prepared + {ContextFor(call.input, request.value)} else w.prepared)
    case CheckCall(k, now) =>
      var call := w.calls[k];
      w.(calls := Continue(w.calls, k, call, Check(w.core, call.input, call.completing.value, call.stage, now)))
    case CommitCall(k, token, now) =>
      var call := w.calls[k];
      World(Commit(w.core, call.input, call.completing.value, call.stage, token, now), w.calls - {k}, w.prepared)
  }

  // ------------------------------------------------------------------ what a call in flight knows

  /** A row read earlier is an ancestor of the row as it stands. */
  ghost predicate StageOk(core: State, prepared: set<Context>, call: Call) {
    var id, stage := call.input.bootId, call.stage;
    && id in core.boots && Evolved(stage.boot, core.boots[id])
    && (stage.Authorised? || stage.Loaded? || stage.Ready? ==> OfSummary(stage.summary) == call.input.evidenceDigest)
    && (stage.Loaded? ==> AtCurrentKey(stage.secrets, stage.environment.currentKeyVersion))
    && (stage.Ready? ==> call.completing.Some? && ReadyOk(prepared, call.input, call.completing.value, stage))
  }

  predicate AtCurrentKey(secrets: seq<SecretRecord>, version: nat) {
    forall i :: 0 <= i < |secrets| ==> secrets[i].envKeyVersion == version
  }

  /** The payload about to be committed and the context that justifies it. */
  predicate Agrees(id: string, recipient: PublicKey, evidence: Digest, context: Context, payload: Payload) {
    var request := context.request;
    && context.bootId == id && request.bootId == id && payload.bootId == id
    && context.contextDigest == OfRequest(request)
    && request.recipientPublicKey == recipient && request.keyMode == CLOUD
    && request.evidenceDigest == evidence
    && request.environmentKeyVersion == payload.environmentKeyVersion
    && request.environmentId == payload.environmentId && request.projectId == payload.projectId
    && request.payloadExpiresAt == payload.payloadExpiresAt
    && request.secretsDigest == OfSecrets(payload.secrets)
    && AtCurrentKey(payload.secrets, payload.environmentKeyVersion)
  }

  predicate ReadyOk(prepared: set<Context>, input: ApproveInput, completion: Completion, stage: Stage)
    requires stage.Ready?
  {
    && stage.context in prepared
    && Agrees(input.bootId, stage.boot.encryptionKey, input.evidenceDigest, stage.context, stage.payload)
    && stage.context.contextDigest == completion.contextDigest
    && stage.context.approverUserId == input.approverUserId
    && stage.context.approverCredentialId == input.approverCredentialId
    && stage.context.request.keyMode == stage.environment.keyMode == CLOUD
    && stage.payload.keyEnvelope == completion.keyEnvelope
  }

  /** The stored approval names a prepared context by its digest; the approved frame agrees with it. */
  predicate Justified(prepared: set<Context>, id: string, boot: Boot, approval: Approval) {
    && boot.payloadDigest.Some? && boot.payloadDigest.value.OfFrame? && approval.releaseContextDigest.OfRequest?
    && var payload := boot.payloadDigest.value.frame;
       var request := approval.releaseContextDigest.request;
       var context := Context(id, request, approval.releaseContextDigest, approval.approverUserId,
                              approval.approverCredentialId, request.expiresAt);
       && context in prepared
       && Agrees(id, boot.encryptionKey, approval.evidenceDigest, context, payload)
       && approval.evidenceDigest == OfSummary(boot.summary)
       && approval.environmentKeyVersion == payload.environmentKeyVersion
       && boot.approvedAt == Some(approval.approvedAt)
       && approval.keyMode == CLOUD
  }

  ghost predicate WorldInv(w: World) {
    && Inv(w.core)
    && (forall c :: c in w.core.contexts ==> w.core.contexts[c] in w.prepared)
    && (forall c :: c in w.prepared ==> c.expiresAt == c.request.expiresAt)
    && (forall k :: k in w.calls ==> StageOk(w.core, w.prepared, w.calls[k]))
    && (forall id :: id in w.core.approvals ==>
          id in w.core.boots && Justified(w.prepared, id, w.core.boots[id], w.core.approvals[id]))
  }

  // ------------------------------------------------------------------ preservation

  lemma StageStillOk(core: State, after: State, prepared: set<Context>, more: set<Context>, call: Call)
    requires StageOk(core, prepared, call) && BootsGrow(core.boots, after.boots) && prepared <= more
    ensures StageOk(after, more, call)
  {
    assert Evolved(core.boots[call.input.bootId], after.boots[call.input.bootId]);
  }

  lemma StillJustified(prepared: set<Context>, more: set<Context>, id: string, boot: Boot, after: Boot, approval: Approval)
    requires Justified(prepared, id, boot, approval) && Evolved(boot, after) && prepared <= more
    ensures Justified(more, id, after, approval)
  {
  }

  /** Everything but the core carries over when the core grows without touching contexts or approvals. */
  lemma CoreMoves(w: World, core: State)
    requires WorldInv(w) && Inv(core) && Grows(w.core, core)
    requires core.contexts == w.core.contexts && core.approvals == w.core.approvals
    ensures WorldInv(w.(core := core))
  {
    hide Inv;
    forall k | k in w.calls ensures StageOk(core, w.prepared, w.calls[k]) {
      StageStillOk(w.core, core, w.prepared, w.prepared, w.calls[k]);
    }
    forall id | id in core.approvals
      ensures id in core.boots && Justified(w.prepared, id, core.boots[id], core.approvals[id])
    {
      assert Evolved(w.core.boots[id], core.boots[id]);
      StillJustified(w.prepared, w.prepared, id, w.core.boots[id], core.boots[id], w.core.approvals[id]);
    }
  }

  predicate SameApprovals(s: State, t: State) {
    t.contexts == s.contexts && t.approvals == s.approvals
  }

  /** The tables a primitive leaves alone, and the sockets and boots it neither adds nor drops. */
  predicate SameKeys(s: State, t: State) {
    SameApprovals(s, t) && t.boots.Keys == s.boots.Keys && t.sockets.Keys == s.sockets.Keys
  }

  lemma PrimitivesKeepKeys()
    ensures forall s, ids, change, now :: SameKeys(s, FireAll(s, ids, change, now))
    ensures forall s, conns, frames :: SameKeys(s, SayTo(s, conns, frames)) && SayTo(s, conns, frames).boots == s.boots
    ensures forall s :: SameKeys(s, Rearm(s)) && Rearm(s).boots == s.boots
  {
  }

  lemma ResumedKeepsKeys(s: State, conn: nat, id: string, now: Time)
    requires id in s.boots
    ensures SameKeys(s, Resumed(s, conn, id, now))
  {
    hide FireAll, SayTo;
    PrimitivesKeepKeys();
  }

  lemma ProvenKeepsKeys(s: State, conn: nat, id: string, now: Time)
    requires conn in s.sockets && id in s.boots
    ensures SameKeys(s, Proven(s, conn, id, now))
  {
    hide FireAll, SayTo, Rearm, Resumed;
    PrimitivesKeepKeys();
    var u := ExpireIfDue(s, id, now);
    var v := Log(Attach(u, conn, id), id, Reconnected);
    ResumedKeepsKeys(v, conn, id, now);
  }

  lemma ChallengeResponseKeepsKeys(s: State, conn: nat, id: string, signature: Signature, token: Option<Token>, now: Time)
    requires conn in s.sockets
    ensures SameKeys(s, HandleChallengeResponse(s, conn, id, signature, token, now))
  {
    hide FireAll, SayTo, Rearm, Proven;
    PrimitivesKeepKeys();
    if id in s.boots {
      ProvenKeepsKeys(WithoutChallenges(s, id), conn, id, now);
    }
  }

  lemma ResumeKeepsKeys(s: State, conn: nat, id: string, challenge: string, now: Time)
    requires conn in s.sockets
    ensures SameKeys(s, HandleResume(s, conn, id, challenge, now))
  {
    hide FireAll, SayTo, Rearm;
    PrimitivesKeepKeys();
  }

  lemma HelloKeepsSockets(s: State, conn: nat, hello: ClientFrame, environment: Option<Environment>, summary: string,
                          id: string, now: Time, created: Time)
    requires conn in s.sockets && hello.Hello?
    ensures var t := HandleHello(s, conn, hello, environment, summary, id, now, created);
            SameApprovals(s, t) && t.sockets.Keys == s.sockets.Keys
  {
    hide FireAll, SayTo, Rearm, PendingOf, FromSource;
    PrimitivesKeepKeys();
  }

  /** Handlers never touch the approval tables; only hello adds a boot, only a connection a socket. */
  lemma NextKeepsKeys(s: State, step: Step)
    requires Enabled(s, step)
    ensures SameApprovals(s, Next(s, step))
    ensures !step.StepHello? ==> Next(s, step).boots.Keys == s.boots.Keys
    ensures !step.StepConnect? ==> Next(s, step).sockets.Keys == s.sockets.Keys
  {
    hide FireAll, SayTo, Rearm, HandleHello, HandleResume, HandleChallengeResponse;
    match step
    case StepHello(conn, hello, environment, summary, id, now, created) =>
      HelloKeepsSockets(s, conn, hello, environment, summary, id, now, created);
    case StepResume(conn, id, challenge, now) => ResumeKeepsKeys(s, conn, id, challenge, now);
    case StepChallengeResponse(conn, id, signature, token, now) =>
      ChallengeResponseKeepsKeys(s, conn, id, signature, token, now);
    case _ => PrimitivesKeepKeys();
  }

  lemma BeginKeeps(s: State, input: ApproveInput, now: Time)
    requires Inv(s)
    ensures var (t, stage) := Begin(s, input, now);
            && Inv(t) && Grows(s, t) && t.contexts == s.contexts && t.approvals == s.approvals
            && (stage.Some? ==> stage.value.Begun? && t == s && input.bootId in s.boots
                                && stage.value.boot == s.boots[input.bootId])
  {
    hide Inv, Grows;
    SelfGrows(s);
    FireAndRearmKeeps(s, {input.bootId}, Expire, now);
  }

  lemma StoreContextKeeps(s: State, context: Context, now: Time)
    requires Inv(s) && context.bootId in s.boots && context.request.bootId == context.bootId
    requires context.contextDigest == OfRequest(context.request) && context.expiresAt == context.request.expiresAt
    ensures var t := StoreContext(s, context, now);
            && Inv(t) && Grows(s, t) && t == s.(contexts := t.contexts)
            && (forall c :: c in t.contexts && (c in s.contexts ==> t.contexts[c] != s.contexts[c]) ==>
                  && c == context.request.contextId && t.contexts[c] == context
                  && (c in s.contexts ==> s.contexts[c].expiresAt <= now))
  {
    hide BootOk, SocketOk, Evolved;
    SelfGrows(s);
  }

  lemma StoreKeeps(w: World, k: nat, contextId: string, now: Time)
    requires WorldInv(w) && MoveEnabled(w, StoreCall(k, contextId, now))
    ensures WorldInv(Go(w, StoreCall(k, contextId, now))) && Grows(w.core, Go(w, StoreCall(k, contextId, now)).core)
  {
    hide Inv, Evolved, Justified, StoreContext;
    var call := w.calls[k];
    var v := Go(w, StoreCall(k, contextId, now));
    assert StageOk(w.core, w.prepared, call);
    SelfGrows(w.core);
    var request := RequestFor(w.core, call.input, call.stage, contextId, now);
    StoreContextKeeps(w.core, ContextFor(call.input, request), now);
    forall c | c in v.core.contexts ensures v.core.contexts[c] in v.prepared {
      if c !in w.core.contexts || v.core.contexts[c] != w.core.contexts[c] {
        assert v.core.contexts[c] == ContextFor(call.input, request);
      }
    }
    forall j | j in v.calls ensures StageOk(v.core, v.prepared, v.calls[j]) {
      StageStillOk(w.core, v.core, w.prepared, v.prepared, w.calls[j]);
    }
    forall id | id in v.core.approvals ensures Justified(v.prepared, id, v.core.boots[id], v.core.approvals[id]) {
      SelfEvolved(w.core.boots[id]);
      StillJustified(w.prepared, v.prepared, id, w.core.boots[id], v.core.boots[id], w.core.approvals[id]);
    }
  }

  lemma StoredContext(s: State, c: string)
    requires Inv(s) && c in s.contexts
    ensures ContextOk(s.boots, c, s.contexts[c])
  {
  }

  lemma CheckGivesReady(w: World, k: nat, now: Time)
    requires WorldInv(w) && MoveEnabled(w, CheckCall(k, now))
    ensures var call := w.calls[k];
            var stage := Check(w.core, call.input, call.completing.value, call.stage, now);
            stage.Some? ==> StageOk(w.core, w.prepared, call.(stage := stage.value))
  {
    hide Evolved, Inv, Justified;
    var call := w.calls[k];
    var completion := call.completing.value;
    assert StageOk(w.core, w.prepared, call);
    if completion.contextId in w.core.contexts {
      StoredContext(w.core, completion.contextId);
    }
  }

  // ------------------------------------------------------------------ the commit

  ghost function Approved(s: State, id: string, payload: Payload, summary: string, approval: Approval, now: Time): State {
    var fired := FireAll(s, {id}, Approve(payload, summary), now);
    fired.(contexts := map c | c in s.contexts && s.contexts[c].bootId != id :: s.contexts[c],
           approvals := s.approvals[id := approval])
  }

  lemma ApprovedApprovals(s: State, id: string, payload: Payload, summary: string, approval: Approval, now: Time)
    requires ApprovalsOk(s.boots, s.approvals) && id in s.boots && s.boots[id].status == PENDING
    ensures var t := Approved(s, id, payload, summary, approval, now); ApprovalsOk(t.boots, t.approvals)
  {
    hide Mirrored, Notified;
    var t := Approved(s, id, payload, summary, approval, now);
    FiredDigest(s.boots[id], payload, summary, now);
    assert forall other :: other in s.boots && other != id ==> t.boots[other] == s.boots[other];
  }

  lemma ApprovedKeeps(s: State, id: string, payload: Payload, summary: string, approval: Approval, now: Time)
    requires Inv(s) && id in s.boots && s.boots[id].status == PENDING && payload.bootId == id
    ensures var t := Approved(s, id, payload, summary, approval, now); Inv(t) && Grows(s, t) && id !in s.approvals
  {
    hide BootsOk, SocketsOk, ApprovalsOk, BootsGrow, IndexGrows, AuditGrows, SocketsGrow;
    var t := Approved(s, id, payload, summary, approval, now);
    FireAllRows(s, {id}, Approve(payload, summary), now);
    FireAllSockets(s, {id}, Approve(payload, summary), now);
    PendingHasNoDigest(s, id);
    ContextsStillOk(s.boots, t.boots, s.contexts);
    ApprovedApprovals(s, id, payload, summary, approval, now);
  }

  lemma PendingHasNoDigest(s: State, id: string)
    requires Inv(s) && id in s.boots && s.boots[id].status == PENDING
    ensures s.boots[id].payloadDigest.None? && id !in s.approvals
  {
    assert BootOk(id, s.boots[id], s.index[id], s.audit[id]);
  }

  lemma FiredDigest(boot: Boot, payload: Payload, summary: string, now: Time)
    requires boot.status == PENDING
    ensures var after := Fired(boot, Approve(payload, summary), now).value;
            && after.payloadDigest == Some(OfFrame(payload)) && after.encryptionKey == boot.encryptionKey
            && after.summary == summary && after.approvedAt == Some(now)
  {
  }

  /** Approval, then delivery to whoever is attached, then the alarm. */
  lemma CommitKeeps(s: State, id: string, payload: Payload, summary: string, approval: Approval, now: Time)
    requires Inv(s) && id in s.boots && s.boots[id].status == PENDING && payload.bootId == id
    ensures var t := CommitApproval(s, id, payload, summary, approval, now);
            && Inv(t) && Grows(s, t) && id !in s.approvals
            && t.approvals == s.approvals[id := approval]
            && t.contexts == (map c | c in s.contexts && s.contexts[c].bootId != id :: s.contexts[c])
            && id in t.boots && t.boots[id].payloadDigest == Some(OfFrame(payload))
            && t.boots[id].encryptionKey == s.boots[id].encryptionKey
            && t.boots[id].summary == summary && t.boots[id].approvedAt == Some(now)
  {
    hide Inv, Grows, FireAll, SayTo, Rearm, Fired;
    var a := Approved(s, id, payload, summary, approval, now);
    ApprovedKeeps(s, id, payload, summary, approval, now);
    GrowsKeys(s, a);
    var b := DeliverTo(a, id, AttachedTo(a.sockets, id), now);
    DeliverKeeps(a, id, AttachedTo(a.sockets, id), now);
    GrowsTrans(s, a, b);
    RearmKeeps(b);
    GrowsTrans(s, b, Rearm(b));
    CommitFacts(s, id, payload, summary, approval, now);
  }

  lemma CommitFacts(s: State, id: string, payload: Payload, summary: string, approval: Approval, now: Time)
    requires Inv(s) && id in s.boots && s.boots[id].status == PENDING
    ensures var t := CommitApproval(s, id, payload, summary, approval, now);
            && t.approvals == s.approvals[id := approval]
            && t.contexts == (map c | c in s.contexts && s.contexts[c].bootId != id :: s.contexts[c])
            && id in t.boots && t.boots[id].payloadDigest == Some(OfFrame(payload))
            && t.boots[id].encryptionKey == s.boots[id].encryptionKey
            && t.boots[id].summary == summary && t.boots[id].approvedAt == Some(now)
  {
    hide Inv, MinOf, Deadlines, Notified, Mirrored;
    FiredDigest(s.boots[id], payload, summary, now);
  }

  lemma CommitWorldKeeps(w: World, k: nat, token: Option<Token>, now: Time)
    requires WorldInv(w) && MoveEnabled(w, CommitCall(k, token, now))
    ensures var v := Go(w, CommitCall(k, token, now)); WorldInv(v) && Grows(w.core, v.core)
  {
    hide Inv, CommitApproval;
    var call := w.calls[k];
    var input, stage := call.input, call.stage;
    var v := Go(w, CommitCall(k, token, now));
    assert StageOk(w.core, w.prepared, call);
    SelfGrows(w.core);
    if MayCommit(w.core, input, stage, token, now) {
      var approval := ApprovalFor(input, call.completing.value, stage, now);
      CommitKeeps(w.core, input.bootId, stage.payload, stage.summary, approval, now);
      forall j | j in v.calls ensures StageOk(v.core, v.prepared, v.calls[j]) {
        StageStillOk(w.core, v.core, w.prepared, w.prepared, w.calls[j]);
      }
      forall id | id in v.core.approvals
        ensures id in v.core.boots && Justified(v.prepared, id, v.core.boots[id], v.core.approvals[id])
      {
        if id != input.bootId {
          assert Evolved(w.core.boots[id], v.core.boots[id]);
          StillJustified(w.prepared, w.prepared, id, w.core.boots[id], v.core.boots[id], w.core.approvals[id]);
        }
      }
    }
  }

  lemma GoKeeps(w: World, move: Move)
    requires WorldInv(w) && MoveEnabled(w, move)
    ensures WorldInv(Go(w, move)) && Grows(w.core, Go(w, move).core)
  {
    hide Inv, Grows, Evolved, Next, Enabled;
    SelfGrows(w.core);
    match move
    case Handle(step) =>
      NextKeeps(w.core, step);
      NextKeepsKeys(w.core, step);
      CoreMoves(w, Next(w.core, step));
    case BeginCall(k, input, completing, now) =>
      BeginKeeps(w.core, input, now);
      CoreMoves(w, Begin(w.core, input, now).0);
      if input.bootId in w.core.boots {
        SelfEvolved(w.core.boots[input.bootId]);
      }
    case AuthoriseCall(k, token, environment, summary, approvable) =>
    case LoadCall(k, secrets) =>
    case StoreCall(k, contextId, now) => StoreKeeps(w, k, contextId, now);
    case CheckCall(k, now) => CheckGivesReady(w, k, now);
    case CommitCall(k, token, now) => CommitWorldKeeps(w, k, token, now);
  }

  lemma SelfEvolved(b: Boot)
    ensures Evolved(b, b)
  {
  }

  // ------------------------------------------------------------------ runs

  ghost predicate Runs(w: World, moves: seq<Move>, end: World)
    decreases |moves|
  {
    if moves == [] then end == w
    else MoveEnabled(w, moves[0]) && Runs(Go(w, moves[0]), moves[1..], end)
  }

  function Start(environmentId: string): World {
    World(State(environmentId, map[], {}, map[], None, map[], map[], map[], map[]), map[], {})
  }

  lemma {:induction false} RunKeeps(w: World, moves: seq<Move>, end: World)
    requires WorldInv(w) && Runs(w, moves, end)
    ensures WorldInv(end) && Grows(w.core, end.core)
    decreases |moves|
  {
    hide WorldInv, Grows, Go, MoveEnabled;
    if moves == [] {
      SelfGrows(w.core);
    } else {
      GoKeeps(w, moves[0]);
      RunKeeps(Go(w, moves[0]), moves[1..], end);
      GrowsTrans(w.core, Go(w, moves[0]).core, end.core);
    }
  }

  lemma NoApprovalsYet(boots: map<string, Boot>, approvals: map<string, Approval>)
    requires approvals == map[] && forall id :: id in boots ==> boots[id].payloadDigest.None?
    ensures ApprovalsOk(boots, approvals)
  {
  }

  /** Every reachable state is consistent. */
  lemma ReachableIsConsistent(environmentId: string, moves: seq<Move>, end: World)
    requires Runs(Start(environmentId), moves, end)
    ensures WorldInv(end)
  {
    var w := Start(environmentId);
    NoApprovalsYet(w.core.boots, w.core.approvals);
    assert WorldInv(w);
    RunKeeps(w, moves, end);
  }
}
