/** Exactly when each piece of an approval goes on, and what it leaves: the guards spelled out over the token, the
    row, the context and the clock, and a token once revoked never approving anything again. */
module ApprovalOutcomes {
  import opened Ideal
  import opened Protocol
  import opened BootTables
  import opened BootInvariants
  import opened Approvals
  import opened BootRuns
  import opened ApprovalRuns
  import opened BootSession
  import opened BootOutcomes
  import opened BootEndings

  // ------------------------------------------------------------------ the pieces both calls begin with

  /** Both calls begin with the row: it must be PENDING and not overdue; an overdue one is expired on the way. */
  lemma BeginsExactly(s: State, input: ApproveInput, now: Time)
    ensures var (t, stage), id := Begin(s, input, now), input.bootId;
            && (stage.Some? <==> id in s.boots && s.boots[id].status == PENDING && s.boots[id].pendingExpiresAt > now)
            && (stage.Some? ==> stage.value == Begun(s.boots[id], now) && t == s)
            && t.boots == (if id in s.boots && s.boots[id].status == PENDING && s.boots[id].pendingExpiresAt <= now
                           then s.boots[id := s.boots[id].(status := EXPIRED, deliveredFrame := None,
                                                           terminalReason := Some("pending ttl elapsed"))]
                           else s.boots)
  {
    hide FireAll, Rearm;
    RearmsOnly();
    if input.bootId in s.boots {
      FiredRow(s, input.bootId, Expire, now);
    }
  }

  /** Then D1: the boot's token is there, not revoked, not expired; the environment is there; the policy lets the
      evidence pass, and it is the evidence the approver saw. */
  lemma AuthorisesExactly(input: ApproveInput, stage: Stage, token: Option<Token>, environment: Option<Environment>, summary: string,
                          approvable: bool)
    requires stage.Begun?
    ensures Authorise(input, stage, token, environment, summary, approvable) ==
            if && token.Some? && !token.value.revoked
               && (token.value.expiresAt.Some? ==> token.value.expiresAt.value > stage.at)
               && environment.Some? && approvable && input.evidenceDigest == OfSummary(summary)
            then Some(Authorised(stage.boot, environment.value, summary)) else None
  {
  }

  /** Then the snapshot: every secret in it must be at the environment's current key version. */
  lemma LoadsExactly(stage: Stage, secrets: seq<SecretRecord>)
    requires stage.Authorised?
    ensures Load(stage, secrets) ==
            if forall i :: 0 <= i < |secrets| ==> secrets[i].envKeyVersion == stage.environment.currentKeyVersion
            then Some(Loaded(stage.boot, stage.environment, stage.summary, secrets)) else None
  {
  }

  // ------------------------------------------------------------------ prepare

  /** prepareApproval's request names the boot, its recipient key, the environment's current key, the evidence, the
      snapshot and both deadlines; it is stored under its own digest, for a minute at most, while the row is PENDING. */
  lemma PreparesExactly(s: State, input: ApproveInput, stage: Stage, contextId: string, now: Time)
    requires stage.Loaded?
    ensures var (t, request), id, b := Store(s, input, stage, contextId, now), input.bootId, stage.boot;
            var until := if now + 60_000 < b.pendingExpiresAt then now + 60_000 else b.pendingExpiresAt;
            var unused := !(contextId in s.contexts && s.contexts[contextId].expiresAt > now);
            var standing := stage.environment.currentKeyVersion >= 1 && b.pendingExpiresAt > now && id in s.boots && s.boots[id].status == PENDING;
            && (request.Some? <==> standing && unused)
            && (request.Some? ==>
                  request.value == Request(contextId, id, b.environmentId, b.projectId, stage.environment.keyMode,
                                           stage.environment.currentKeyVersion, b.encryptionKey, input.evidenceDigest,
                                           OfSecrets(stage.secrets), until, now + stage.environment.approvedTtl * 1000))
            && t == s.(contexts := t.contexts)
            && (forall c :: c in t.contexts <==>
                  (c in s.contexts && (standing ==> s.contexts[c].expiresAt > now)) || (request.Some? && c == contextId))
            && forall c :: c in t.contexts ==>
                 t.contexts[c] == if request.Some? && c == contextId
                                  then Context(id, request.value, OfRequest(request.value), input.approverUserId,
                                               input.approverCredentialId, until)
                                  else s.contexts[c]
  {
  }

  // ------------------------------------------------------------------ complete

  /** completeApproval goes on exactly for a CLOUD environment with a live context of this boot and approver, whose
      digest is the one given, made for this very recipient, project, key, evidence and snapshot. The payload is the
      context's, with the released envelope. */
  lemma ChecksExactly(s: State, input: ApproveInput, completion: Completion, stage: Stage, now: Time)
    requires stage.Loaded?
    ensures var r := Check(s, input, completion, stage, now);
            && (r.Some? <==>
                  && stage.environment.keyMode == CLOUD && completion.contextId in s.contexts
                  && var context := s.contexts[completion.contextId];
                     var q := context.request;
                     && (context.bootId, context.contextDigest) == (input.bootId, completion.contextDigest)
                     && (context.approverUserId, context.approverCredentialId) == (input.approverUserId, input.approverCredentialId)
                     && (q.bootId, q.environmentId, q.projectId) == (input.bootId, stage.boot.environmentId, stage.environment.projectId)
                     && (q.keyMode, q.environmentKeyVersion) == (CLOUD, stage.environment.currentKeyVersion)
                     && (q.recipientPublicKey, q.evidenceDigest, q.secretsDigest)
                        == (stage.boot.encryptionKey, input.evidenceDigest, OfSecrets(stage.secrets))
                     && q.expiresAt > now && q.payloadExpiresAt > now)
            && (r.Some? ==>
                  var context := s.contexts[completion.contextId];
                  r.value == Ready(stage.boot, stage.environment, stage.summary, context,
                                   Payload(input.bootId, stage.environment.projectId, stage.boot.environmentId,
                                           stage.environment.currentKeyVersion, context.request.payloadExpiresAt,
                                           completion.keyEnvelope, stage.secrets)))
  {
  }

  /** The row, record, contexts, audit and sockets of an approval that committed. */
  ghost predicate Approves(s: State, t: State, input: ApproveInput, completion: Completion, stage: Stage, now: Time)
    requires stage.Ready? && input.bootId in s.boots
  {
    var id, b, p := input.bootId, s.boots[input.bootId], stage.payload;
    var heard := exists c :: c in s.sockets && s.sockets[c].open && s.sockets[c].attached == Some(id);
    && t.boots == s.boots[id := b.(status := if heard then DELIVERED else APPROVED, approvedAt := Some(now),
                                   payloadExpiresAt := Some(p.payloadExpiresAt), deliveredFrame := Some(p),
                                   payloadDigest := Some(OfFrame(p)), summary := stage.summary)]
    && t.approvals == s.approvals[id := Approval(input.approverUserId, input.approverCredentialId, now, input.evidenceDigest,
                                                 stage.environment.keyMode, stage.context.request.environmentKeyVersion,
                                                 completion.contextDigest)]
    && t.contexts == (map c | c in s.contexts && s.contexts[c].bootId != id :: s.contexts[c])
    && Heard(s, t, id, [BootApproved(p)])
    && id in s.audit && t.audit == s.audit[id := s.audit[id] + (if heard then [AuditApproved, AuditDelivered(false)] else [AuditApproved])]
    && id in s.index && t.index == s.index[id := s.index[id].(status := if heard then DELIVERED else APPROVED, approvedAt := Some(now),
                                                              deliveredAt := if heard then Some(now) else s.index[id].deliveredAt)]
  }

  /** The commit takes effect exactly when the token, read again, is there, unrevoked and unexpired, neither deadline of
      the request has passed, and the row, read again, is PENDING and not overdue. */
  lemma CommitsExactly(s: State, input: ApproveInput, completion: Completion, stage: Stage, token: Option<Token>, now: Time)
    requires Inv(s) && stage.Ready? && stage.payload.bootId == input.bootId
    ensures var t, id, q := Commit(s, input, completion, stage, token, now), input.bootId, stage.context.request;
            if && token.Some? && !token.value.revoked && (token.value.expiresAt.Some? ==> token.value.expiresAt.value > now)
               && q.expiresAt > now && q.payloadExpiresAt > now
               && id in s.boots && s.boots[id].status == PENDING && s.boots[id].pendingExpiresAt > now
            then t != s && Approves(s, t, input, completion, stage, now)
            else t == s
  {
    hide Inv, CommitApproval, Approves, ApprovalFor;
    if MayCommit(s, input, stage, token, now) {
      PendingUnapproved(s, input.bootId);
      CommitApproves(s, input, completion, stage, now);
      ApprovesChanges(s, Commit(s, input, completion, stage, token, now), input, completion, stage, now);
    }
  }

  lemma PendingUnapproved(s: State, id: string)
    requires Inv(s) && id in s.boots && s.boots[id].status == PENDING
    ensures id in s.index && id in s.audit && id !in s.approvals
  {
    InvKeys(s);
    PendingHasNoDigest(s, id);
  }

  lemma ApprovesChanges(s: State, t: State, input: ApproveInput, completion: Completion, stage: Stage, now: Time)
    requires stage.Ready? && input.bootId in s.boots && input.bootId !in s.approvals && Approves(s, t, input, completion, stage, now)
    ensures t != s
  {
  }

  lemma CommitApproves(s: State, input: ApproveInput, completion: Completion, stage: Stage, now: Time)
    requires stage.Ready? && stage.payload.bootId == input.bootId && input.bootId in s.index && input.bootId in s.audit
    requires input.bootId in s.boots && s.boots[input.bootId].status == PENDING
    ensures Approves(s, CommitApproval(s, input.bootId, stage.payload, stage.summary, ApprovalFor(input, completion, stage, now), now),
                     input, completion, stage, now)
  {
    hide FireAll, Approved, DeliverTo, CommitApproval, Rearm, AttachedTo, ApprovalFor, Approves, Heard;
    var id, p := input.bootId, stage.payload;
    var approval := ApprovalFor(input, completion, stage, now);
    var a := Approved(s, id, p, stage.summary, approval, now);
    ApprovedIs(s, id, p, stage.summary, approval, now);
    CommitIs(s, id, p, stage.summary, approval, now);
    RearmsOnly();
    DeliveredIs(a, id, AttachedTo(s.sockets, id), now);
    AnyoneAttached(s, id);
    SilentWhenNobody(s, id, [BootApproved(p)]);
    HeardFrom(a, DeliverTo(a, id, AttachedTo(s.sockets, id), now), s, CommitApproval(s, id, p, stage.summary, approval, now), id, [BootApproved(p)]);
    AssemblesApproval(s, a, DeliverTo(a, id, AttachedTo(s.sockets, id), now),
                      CommitApproval(s, id, p, stage.summary, approval, now), input, completion, stage, now);
  }

  lemma SilentWhenNobody(s: State, id: string, frames: seq<ServerFrame>)
    ensures (forall c :: c in s.sockets && s.sockets[c].open ==> s.sockets[c].attached != Some(id)) ==> Heard(s, s, id, frames)
  {
  }

  lemma HeardFrom(a: State, d: State, s: State, t: State, id: string, frames: seq<ServerFrame>)
    requires a.sockets == s.sockets && d.sockets == t.sockets
    ensures Heard(a, d, id, frames) ==> Heard(s, t, id, frames)
    ensures Heard(s, s, id, frames) && d.sockets == s.sockets ==> Heard(s, t, id, frames)
  {
  }

  /** The approval's tables and the delivery's, one after the other. */
  lemma AssemblesApproval(s: State, a: State, d: State, t: State, input: ApproveInput, completion: Completion, stage: Stage, now: Time)
    requires stage.Ready? && input.bootId in s.boots && input.bootId in s.index && input.bootId in s.audit
    requires var id, p, b := input.bootId, stage.payload, s.boots[input.bootId];
             a == s.(boots := s.boots[id := b.(status := APPROVED, approvedAt := Some(now), payloadExpiresAt := Some(p.payloadExpiresAt),
                                               deliveredFrame := Some(p), payloadDigest := Some(OfFrame(p)), summary := stage.summary)],
                     contexts := map c | c in s.contexts && s.contexts[c].bootId != id :: s.contexts[c],
                     index := s.index[id := s.index[id].(status := APPROVED, approvedAt := Some(now))],
                     approvals := s.approvals[id := ApprovalFor(input, completion, stage, now)],
                     audit := s.audit[id := s.audit[id] + [AuditApproved]])
    requires var id := input.bootId;
             if exists c :: c in s.sockets && s.sockets[c].open && s.sockets[c].attached == Some(id) then
               && d.boots == a.boots[id := a.boots[id].(status := DELIVERED)]
               && d.index == a.index[id := a.index[id].(status := DELIVERED, deliveredAt := Some(now))]
               && d.audit == a.audit[id := a.audit[id] + [AuditDelivered(false)]]
               && d.contexts == a.contexts && d.approvals == a.approvals
             else d == a
    requires t == d.(alarm := t.alarm) && Heard(s, t, input.bootId, [BootApproved(stage.payload)])
    ensures Approves(s, t, input, completion, stage, now)
  {
    hide Heard;
    assert (s.audit[input.bootId] + [AuditApproved]) + [AuditDelivered(false)] == s.audit[input.bootId] + [AuditApproved, AuditDelivered(false)];
  }

  lemma AnyoneAttached(s: State, id: string)
    ensures AttachedTo(s.sockets, id) != {} <==> exists c :: c in s.sockets && s.sockets[c].open && s.sockets[c].attached == Some(id)
  {
    assert forall c :: c in AttachedTo(s.sockets, id) <==> c in s.sockets && s.sockets[c].open && s.sockets[c].attached == Some(id);
    if AttachedTo(s.sockets, id) != {} {
      assert AnyOf(AttachedTo(s.sockets, id)) in AttachedTo(s.sockets, id);
    }
  }

  lemma CommitIs(s: State, id: string, payload: Payload, summary: string, approval: Approval, now: Time)
    requires id in s.boots
    ensures var a := Approved(s, id, payload, summary, approval, now);
            && id in a.boots && a.sockets == s.sockets
            && CommitApproval(s, id, payload, summary, approval, now) == Rearm(DeliverTo(a, id, AttachedTo(s.sockets, id), now))
  {
    hide DeliverTo, Rearm, Fired, Mirrored, AuditOf, Fires;
    var fired := FireAll(s, {id}, Approve(payload, summary), now);
    assert fired.sockets == s.sockets;
  }

  /** A first delivery, table by table. */
  lemma DeliveredIs(s: State, id: string, conns: set<nat>, now: Time)
    requires id in s.boots && id in s.index && id in s.audit && s.boots[id].status == APPROVED && s.boots[id].deliveredFrame.Some?
    requires conns == AttachedTo(s.sockets, id)
    ensures var t := DeliverTo(s, id, conns, now);
            if conns == {} then t == s
            else
              && t.boots == s.boots[id := s.boots[id].(status := DELIVERED)]
              && t.index == s.index[id := s.index[id].(status := DELIVERED, deliveredAt := Some(now))]
              && t.audit == s.audit[id := s.audit[id] + [AuditDelivered(false)]]
              && t.contexts == s.contexts && t.approvals == s.approvals
              && Heard(s, t, id, [BootApproved(s.boots[id].deliveredFrame.value)])
  {
    hide FireAll;
    FireOne(SayTo(s, conns, [BootApproved(s.boots[id].deliveredFrame.value)]), id, Deliver, now);
  }

  /** A boot whose only connection has gone is approved and not delivered: nobody hears of it, and the payload is kept
      for the client's return. */
  lemma ApprovalWaitsForReturn(s: State, conn: nat, input: ApproveInput, completion: Completion, stage: Stage, token: Option<Token>,
                               now: Time)
    requires Inv(s) && conn in s.sockets && stage.Ready? && stage.payload.bootId == input.bootId
    requires forall c :: c in s.sockets && s.sockets[c].open && s.sockets[c].attached == Some(input.bootId) ==> c == conn
    ensures var g, id := Disconnect(s, conn), input.bootId;
            var t := Commit(g, input, completion, stage, token, now);
            && g.boots == s.boots && g.sockets.Keys == s.sockets.Keys
            && (forall c :: c in s.sockets && c != conn ==> g.sockets[c] == s.sockets[c])
            && g.sockets[conn].sent == s.sockets[conn].sent
            && t.sockets == g.sockets
            && (t != g ==> id in t.boots && t.boots[id].status == APPROVED && t.boots[id].deliveredFrame == Some(stage.payload))
  {
    hide Inv, Commit;
    var g := Disconnect(s, conn);
    DisconnectKeeps(s, conn);
    CommitsExactly(g, input, completion, stage, token, now);
  }

  // ------------------------------------------------------------------ a token once revoked

  /** From here on every commit for the boot that reads its token finds it revoked, or gone. */
  ghost predicate RevokedFrom(w: World, moves: seq<Move>, id: string)
    requires RunsFrom(w, moves)
    decreases |moves|
  {
    moves == [] ||
    (&& (moves[0].CommitCall? && w.calls[moves[0].k].input.bootId == id ==> moves[0].token.None? || moves[0].token.value.revoked)
     && RevokedFrom(Go(w, moves[0]), moves[1..], id))
  }

  ghost predicate RunsFrom(w: World, moves: seq<Move>)
    decreases |moves|
  {
    moves == [] || (MoveEnabled(w, moves[0]) && RunsFrom(Go(w, moves[0]), moves[1..]))
  }

  /** A revocation that comes before the approval prevents it, however far the approval had got. */
  lemma {:induction false} RevokedNeverApproved(w: World, moves: seq<Move>, end: World, id: string)
    requires WorldInv(w) && Runs(w, moves, end) && RunsFrom(w, moves) && RevokedFrom(w, moves, id) && id !in w.core.approvals
    ensures id !in end.core.approvals
    decreases |moves|
  {
    hide WorldInv, Go, MoveEnabled;
    if moves != [] {
      GoKeeps(w, moves[0]);
      RevokedStep(w, moves[0], id);
      RevokedNeverApproved(Go(w, moves[0]), moves[1..], end, id);
    }
  }

  lemma RevokedStep(w: World, move: Move, id: string)
    requires WorldInv(w) && MoveEnabled(w, move) && id !in w.core.approvals
    requires move.CommitCall? && w.calls[move.k].input.bootId == id ==> move.token.None? || move.token.value.revoked
    ensures id !in Go(w, move).core.approvals
  {
    hide Inv, Next, Enabled, CommitApproval, Approves, StoreContext;
    match move
    case Handle(step) => NextKeepsKeys(w.core, step);
    case BeginCall(k, input, completing, now) => BeginKeeps(w.core, input, now);
    case StoreCall(k, contextId, now) =>
      PreparesExactly(w.core, w.calls[k].input, w.calls[k].stage, contextId, now);
    case CommitCall(k, token, now) =>
      assert StageOk(w.core, w.prepared, w.calls[k]);
      CommitsExactly(w.core, w.calls[k].input, w.calls[k].completing.value, w.calls[k].stage, token, now);
      CommitNamesItsBoot(w.core, w.calls[k].input, w.calls[k].completing.value, w.calls[k].stage, token, now);
    case _ =>
  }

  lemma CommitNamesItsBoot(s: State, input: ApproveInput, completion: Completion, stage: Stage, token: Option<Token>, now: Time)
    requires stage.Ready?
    ensures forall id :: id in Commit(s, input, completion, stage, token, now).approvals && id !in s.approvals ==> id == input.bootId
  {
    hide FireAll, Rearm;
    RearmsOnly();
    if MayCommit(s, input, stage, token, now) {
      PrimitivesKeepKeys();
      CommitTables(s, input.bootId, stage.payload, stage.summary, ApprovalFor(input, completion, stage, now), now);
    }
  }

  lemma CommitTables(s: State, id: string, payload: Payload, summary: string, approval: Approval, now: Time)
    requires id in s.boots
    ensures CommitApproval(s, id, payload, summary, approval, now).approvals == s.approvals[id := approval]
  {
    hide FireAll;
    PrimitivesKeepKeys();
  }
}
