/** What the invariants say of any run, spelled out: over all interleavings of handlers and of approvals
    cut at their awaits. */
module BootTheorems {
  import opened Ideal
  import opened Protocol
  import AadText
  import opened BootTables
  import opened BootInvariants
  import opened Approvals
  import opened BootRuns
  import opened ApprovalRuns

  /** A boot that left PENDING unapproved is never approved by anything that follows. */
  lemma LeftPendingNeverApproved(w: World, moves: seq<Move>, end: World, id: string)
    requires WorldInv(w) && Runs(w, moves, end)
    requires id in w.core.boots && w.core.boots[id].status != PENDING && id !in w.core.approvals
    ensures id !in end.core.approvals && id in end.core.boots && end.core.boots[id].payloadDigest.None?
  {
    hide Runs, BootsOk, SocketsOk, ContextsOk;
    RunKeeps(w, moves, end);
    assert Evolved(w.core.boots[id], end.core.boots[id]);
  }

  /** An approval is final: its record, the digest and the payload it names never change again. */
  lemma ApprovalIsFinal(w: World, moves: seq<Move>, end: World, id: string)
    requires WorldInv(w) && Runs(w, moves, end) && id in w.core.approvals
    ensures id in end.core.approvals && end.core.approvals[id] == w.core.approvals[id]
    ensures id in w.core.boots && id in end.core.boots
    ensures end.core.boots[id].payloadDigest == w.core.boots[id].payloadDigest && w.core.boots[id].payloadDigest.Some?
  {
    hide Runs, BootsOk, SocketsOk, ContextsOk;
    RunKeeps(w, moves, end);
    assert Evolved(w.core.boots[id], end.core.boots[id]);
  }

  /** A finished boot's row never changes. */
  lemma TerminalIsFinal(w: World, moves: seq<Move>, end: World, id: string)
    requires WorldInv(w) && Runs(w, moves, end) && id in w.core.boots && IsTerminal(w.core.boots[id].status)
    ensures id in end.core.boots && end.core.boots[id] == w.core.boots[id]
  {
    hide Runs, Inv;
    RunKeeps(w, moves, end);
    assert Evolved(w.core.boots[id], end.core.boots[id]);
  }

  /** A commit that takes effect is the first for its boot, and leaves no context for another. */
  lemma CommitsOnce(w: World, k: nat, token: Option<Token>, now: Time)
    requires WorldInv(w) && MoveEnabled(w, CommitCall(k, token, now))
    ensures var id := w.calls[k].input.bootId;
            var v := Go(w, CommitCall(k, token, now)).core;
            v != w.core ==>
              && id !in w.core.approvals && id in v.approvals
              && (forall c :: c in v.contexts ==> v.contexts[c].bootId != id)
              && v.approvals.Keys == w.core.approvals.Keys + {id}
  {
    hide Inv, CommitApproval, BootsGrow;
    var call := w.calls[k];
    assert StageOk(w.core, w.prepared, call);
    if MayCommit(w.core, call.input, call.stage, token, now) {
      var approval := ApprovalFor(call.input, call.completing.value, call.stage, now);
      CommitKeeps(w.core, call.input.bootId, call.stage.payload, call.stage.summary, approval, now);
    }
  }

  /** Every approval in a reachable state names one prepared context of the same approver, and the frame
      whose digest is stored agrees with it on boot, recipient, key version, evidence and secrets. */
  lemma ApprovalAgreesWithContext(environmentId: string, moves: seq<Move>, end: World, id: string)
    requires Runs(Start(environmentId), moves, end) && id in end.core.approvals
    ensures id in end.core.boots && end.core.boots[id].payloadDigest.Some? && end.core.boots[id].payloadDigest.value.OfFrame?
    ensures exists context :: context in end.prepared
              && end.core.approvals[id].releaseContextDigest == OfRequest(context.request)
              && context.approverUserId == end.core.approvals[id].approverUserId
              && context.approverCredentialId == end.core.approvals[id].approverCredentialId
              && Agrees(id, end.core.boots[id].encryptionKey, OfSummary(end.core.boots[id].summary), context,
                        end.core.boots[id].payloadDigest.value.frame)
  {
    hide Runs;
    ReachableIsConsistent(environmentId, moves, end);
    var approval := end.core.approvals[id];
    assert Justified(end.prepared, id, end.core.boots[id], approval);
    var request := approval.releaseContextDigest.request;
    var context := Context(id, request, approval.releaseContextDigest, approval.approverUserId,
                           approval.approverCredentialId, request.expiresAt);
    assert context in end.prepared;
  }

  /** Exactly the boots with a payload digest have an approval record. */
  lemma OneApprovalEach(environmentId: string, moves: seq<Move>, end: World)
    requires Runs(Start(environmentId), moves, end)
    ensures forall id :: id in end.core.approvals <==> id in end.core.boots && end.core.boots[id].payloadDigest.Some?
  {
    hide Runs;
    ReachableIsConsistent(environmentId, moves, end);
  }

  /** However often a payload is sent, on whatever sockets, one boot only ever sees one payload. */
  lemma RedeliveriesAreIdentical(environmentId: string, moves: seq<Move>, end: World, c: nat, d: nat, p: Payload, q: Payload)
    requires Runs(Start(environmentId), moves, end) && c in end.core.sockets && d in end.core.sockets
    requires BootApproved(p) in end.core.sockets[c].sent && BootApproved(q) in end.core.sockets[d].sent
    requires p.bootId == q.bootId
    ensures p == q
  {
    hide Runs;
    ReachableIsConsistent(environmentId, moves, end);
    assert SocketOk(end.core.boots, end.core.sockets[c]) && SocketOk(end.core.boots, end.core.sockets[d]);
    assert FrameOk(end.core.boots, BootApproved(p)) && FrameOk(end.core.boots, BootApproved(q));
  }

  /** The audit log alone replays to the authoritative status, and the D1 row mirrors it. */
  lemma AuditReplays(environmentId: string, moves: seq<Move>, end: World, id: string)
    requires Runs(Start(environmentId), moves, end) && id in end.core.boots
    ensures id in end.core.audit && Replay(end.core.audit[id]) == Some(end.core.boots[id].status)
    ensures id in end.core.index && end.core.index[id].status == end.core.boots[id].status
    ensures RowOk(id, end.core.boots[id])
  {
    hide Runs;
    ReachableIsConsistent(environmentId, moves, end);
    assert BootOk(id, end.core.boots[id], end.core.index[id], end.core.audit[id]);
  }

  /** At most one challenge is outstanding for a boot. */
  lemma OneChallenge(environmentId: string, moves: seq<Move>, end: World, a: Challenge, b: Challenge)
    requires Runs(Start(environmentId), moves, end)
    requires a in end.core.challenges && b in end.core.challenges && a.bootId == b.bootId
    ensures a == b
  {
    hide Runs;
    ReachableIsConsistent(environmentId, moves, end);
  }

  // ------------------------------------------------------------------ attachment

  predicate SameAttached(s: State, t: State) {
    forall c :: c in s.sockets ==> c in t.sockets && t.sockets[c].attached == s.sockets[c].attached
  }

  lemma PrimitivesKeepAttached()
    ensures forall s, ids, change, now :: SameAttached(s, FireAll(s, ids, change, now))
    ensures forall s, conns, frames :: SameAttached(s, SayTo(s, conns, frames))
    ensures forall s :: SameAttached(s, Rearm(s))
  {
  }

  /** The one condition under which a challenge response attaches its socket. */
  ghost predicate GoodProof(s: State, conn: nat, id: string, signature: Signature, token: Option<Token>, now: Time) {
    && id in s.boots && conn in s.sockets && Outstanding(s, id) != {}
    && var challenge := AnyOf(Outstanding(s, id));
       && challenge.expiresAt > now
       && Verify(s.boots[id].signingKey, AadText.ResumeMessage(id, challenge.challenge), signature)
       && s.sockets[conn].identity.tokenId == s.boots[id].tokenId && TokenValid(token, now)
  }

  lemma ProvenAttaches(s: State, conn: nat, id: string, now: Time)
    requires conn in s.sockets && id in s.boots
    ensures var t := Proven(s, conn, id, now);
            forall c :: c in s.sockets ==> c in t.sockets &&
                                           (t.sockets[c].attached == s.sockets[c].attached
                                            || (c == conn && t.sockets[c].attached == Some(id)))
  {
    hide FireAll, SayTo, Rearm, DeliverTo, TerminalFrames;
    PrimitivesKeepAttached();
    var t := ExpireIfDue(s, id, now);
    PrimitivesKeepKeys();
    if !IsTerminal(t.boots[id].status) {
      ResumedAttaches(Log(Attach(t, conn, id), id, Reconnected), conn, id, now);
    }
  }

  lemma ResumedAttaches(s: State, conn: nat, id: string, now: Time)
    requires id in s.boots
    ensures SameAttached(s, Resumed(s, conn, id, now))
  {
    hide FireAll, SayTo;
    PrimitivesKeepAttached();
  }

  /** A socket becomes a boot's socket by creating that boot or by one good proof for it, never otherwise. */
  lemma AttachmentNeedsProof(s: State, step: Step, c: nat, id: string)
    requires Enabled(s, step) && c in s.sockets && s.sockets[c].attached != Some(id)
    requires c in Next(s, step).sockets && Next(s, step).sockets[c].attached == Some(id)
    ensures (step.StepHello? && step.conn == c && step.id == id && id !in s.boots)
         || (step.StepChallengeResponse? && step.conn == c && step.id == id
             && GoodProof(s, c, id, step.signature, step.token, step.now))
  {
    hide FireAll, SayTo, Rearm, HandleChallengeResponse, HandleHello, PendingOf, FromSource;
    PrimitivesKeepAttached();
    match step
    case StepHello(conn, hello, environment, summary, newId, now, created) =>
      HelloAttaches(s, conn, hello, environment, summary, newId, now, created);
    case StepChallengeResponse(conn, other, signature, token, now) =>
      ResponseAttaches(s, conn, other, signature, token, now);
    case _ =>
  }

  lemma HelloAttaches(s: State, conn: nat, hello: ClientFrame, environment: Option<Environment>, summary: string,
                      id: string, now: Time, created: Time)
    requires conn in s.sockets && hello.Hello?
    ensures var t := HandleHello(s, conn, hello, environment, summary, id, now, created);
            SameAttached(s, t)
            || (id !in s.boots && forall c :: c in s.sockets ==>
                  c in t.sockets && (t.sockets[c].attached == s.sockets[c].attached
                                     || (c == conn && t.sockets[c].attached == Some(id))))
  {
    hide FireAll, SayTo, Rearm, PendingOf, FromSource;
    PrimitivesKeepAttached();
    PrimitivesKeepKeys();
  }

  lemma ResponseAttaches(s: State, conn: nat, id: string, signature: Signature, token: Option<Token>, now: Time)
    requires conn in s.sockets
    ensures var t := HandleChallengeResponse(s, conn, id, signature, token, now);
            SameAttached(s, t)
            || (GoodProof(s, conn, id, signature, token, now)
                && forall c :: c in s.sockets ==>
                     c in t.sockets && (t.sockets[c].attached == s.sockets[c].attached
                                        || (c == conn && t.sockets[c].attached == Some(id))))
  {
    hide FireAll, SayTo, Rearm, Proven, Verify, TokenValid;
    PrimitivesKeepAttached();
    if id in s.boots {
      ProvenAttaches(WithoutChallenges(s, id), conn, id, now);
    }
  }
}
