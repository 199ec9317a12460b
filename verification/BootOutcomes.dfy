/** Exactly when each handler does what it is for, in terms of the state it started from. */
module BootOutcomes {
  import opened Ideal
  import opened Protocol
  import opened BootTables
  import opened BootInvariants
  import opened ApprovalRuns
  import opened BootTheorems

  /** A boot that may still go on at `now`. */
  predicate GoesOn(s: State, id: string, now: Time) {
    id in s.boots && Live(s.boots[id]) && !Due(s.boots[id], now)
  }

  // ------------------------------------------------------------------ endings

  /** Expiring what is due ends exactly the live boots past their deadline and leaves every other row alone. */
  lemma ExpiresExactly(s: State, now: Time, id: string)
    requires id in s.boots
    ensures var b, after := s.boots[id], ExpireDue(s, now).boots[id];
            if Due(b, now) then
              after == b.(status := EXPIRED, deliveredFrame := None,
                          terminalReason := Some(if b.status == PENDING then "pending ttl elapsed" else "payload ttl elapsed"))
            else after == b
  {
  }

  /** A bulk cancellation ends exactly the chosen boots that are PENDING or APPROVED; delivered ones go on. */
  lemma CancelsExactly(s: State, token: Option<string>, reason: string, now: Time, id: string)
    requires id in s.boots
    ensures var b, after := s.boots[id], CancelLive(s, token, reason, now).boots[id];
            if b.status in {PENDING, APPROVED} && (token.None? || b.tokenId == token.value)
            then after == b.(status := CANCELED, deliveredFrame := None, terminalReason := Some(reason))
            else after == b
  {
  }

  // ------------------------------------------------------------------ hello

  /** The token's boots that really wait for a decision: PENDING and not past their deadline. */
  function Waiting(s: State, tokenId: string, now: Time): set<string> {
    set id | id in s.boots && s.boots[id].tokenId == tokenId && s.boots[id].status == PENDING && s.boots[id].pendingExpiresAt > now
  }

  lemma CountsAfterExpiry(s: State, now: Time, tokenId: string, sourceIp: string, after: Time)
    ensures PendingOf(ExpireDue(s, now), tokenId) == Waiting(s, tokenId, now)
    ensures FromSource(ExpireDue(s, now), sourceIp, after, None) == FromSource(s, sourceIp, after, None)
    ensures ExpireDue(s, now).boots.Keys == s.boots.Keys && ExpireDue(s, now).sockets.Keys == s.sockets.Keys
  {
    hide Fires, Fired, Mirrored, AuditOf, Notified, Due;
    forall id | id in s.boots
      ensures ExpireDue(s, now).boots[id].tokenId == s.boots[id].tokenId
      ensures ExpireDue(s, now).boots[id].sourceIp == s.boots[id].sourceIp
      ensures ExpireDue(s, now).boots[id].createdAt == s.boots[id].createdAt
      ensures ExpireDue(s, now).boots[id].status == if Due(s.boots[id], now) then EXPIRED else s.boots[id].status
      ensures s.boots[id].status == PENDING ==> (Due(s.boots[id], now) <==> s.boots[id].pendingExpiresAt <= now)
    {
      ExpiresExactly(s, now, id);
      PendingIsDue(s.boots[id], now);
    }
  }

  lemma PendingIsDue(boot: Boot, now: Time)
    ensures boot.status == PENDING ==> (Due(boot, now) <==> boot.pendingExpiresAt <= now)
  {
  }

  /** The boots a source address created in the last minute. */
  function Recent(s: State, sourceIp: string, now: Time): set<string> {
    set id | id in s.boots && s.boots[id].sourceIp == Some(sourceIp) && s.boots[id].createdAt > now - 60_000
  }

  lemma RecentCounts(s: State, sourceIp: string, now: Time)
    ensures FromSource(s, sourceIp, now - RATE_WINDOW, None) == Recent(s, sourceIp, now)
  {
  }

  /** A source address may create ten boots a minute, a token may have its own number of waiting boots, three when it
      names none. */
  predicate UnderLimits(s: State, identity: Identity, now: Time) {
    && (identity.sourceIp != "" ==> |Recent(s, identity.sourceIp, now)| < 10)
    && |Waiting(s, identity.tokenId, now)| < (if identity.maxPendingBoots > 0 then identity.maxPendingBoots else 3)
  }

  /** When boot.hello is admitted: on a socket without a boot, under both limits, overdue boots not counting. */
  predicate Admits(s: State, conn: nat, environment: Option<Environment>, id: string, now: Time)
    requires conn in s.sockets
  {
    var identity := s.sockets[conn].identity;
    && s.sockets[conn].attached.None? && environment.Some? && id !in s.boots
    && UnderLimits(s, identity, now)
  }

  /** boot.hello adds a boot exactly when it is admitted: a PENDING one with the offered keys, attached to its
      socket, which is told; an overdue boot never holds a slot. */
  lemma HelloExactly(s: State, conn: nat, hello: ClientFrame, environment: Option<Environment>, summary: string, id: string,
                     now: Time, created: Time)
    requires conn in s.sockets && hello.Hello?
    ensures var t := HandleHello(s, conn, hello, environment, summary, id, now, created);
            && conn in t.sockets
            && t.boots.Keys == s.boots.Keys + (if Admits(s, conn, environment, id, now) then {id} else {})
            && (Admits(s, conn, environment, id, now) ==>
                  var boot, sent := t.boots[id], t.sockets[conn].sent;
                  && boot.status == PENDING && boot.tokenId == s.sockets[conn].identity.tokenId
                  && boot.signingKey == hello.signingKey && boot.encryptionKey == hello.encryptionKey
                  && boot.projectId == environment.value.projectId
                  && boot.createdAt == created && boot.pendingExpiresAt == created + environment.value.pendingTtl * 1000
                  && t.sockets[conn].attached == Some(id)
                  && sent != [] && sent[|sent| - 1] == BootPending(id, boot.pendingExpiresAt))
            && (!Admits(s, conn, environment, id, now) ==> t.sockets[conn].attached == s.sockets[conn].attached)
  {
    hide HandleHello, Admits;
    if Admits(s, conn, environment, id, now) {
      HelloAdmitted(s, conn, hello, environment, summary, id, now, created);
    } else {
      HelloRefused(s, conn, hello, environment, summary, id, now, created);
    }
  }

  lemma HelloAdmitted(s: State, conn: nat, hello: ClientFrame, environment: Option<Environment>, summary: string, id: string,
                      now: Time, created: Time)
    requires conn in s.sockets && hello.Hello? && Admits(s, conn, environment, id, now)
    ensures var t := HandleHello(s, conn, hello, environment, summary, id, now, created);
            && conn in t.sockets && t.boots.Keys == s.boots.Keys + {id} && t.sockets[conn].attached == Some(id)
            && var boot, sent := t.boots[id], t.sockets[conn].sent;
               && boot.status == PENDING && boot.tokenId == s.sockets[conn].identity.tokenId
               && boot.signingKey == hello.signingKey && boot.encryptionKey == hello.encryptionKey
               && boot.projectId == environment.value.projectId
               && boot.createdAt == created && boot.pendingExpiresAt == created + environment.value.pendingTtl * 1000
               && sent != [] && sent[|sent| - 1] == BootPending(id, boot.pendingExpiresAt)
  {
    hide Rearm, ExpireDue, PendingOf, FromSource, Waiting, Recent, Insert, Attach, SayTo, NewBoot, Refuse, SameAttached;
    var identity := s.sockets[conn].identity;
    CountsAfterExpiry(s, now, identity.tokenId, identity.sourceIp, now - RATE_WINDOW);
    RecentCounts(s, identity.sourceIp, now);
    RearmKeepsRows();
    var t := ExpireDue(s, now);
    var boot := NewBoot(t, identity, hello, environment.value, summary, created);
    NewBootIs(t, identity, hello, environment.value, summary, created);
    InsertedHas(t, conn, id, boot, BootPending(id, boot.pendingExpiresAt));
  }

  lemma HelloRefused(s: State, conn: nat, hello: ClientFrame, environment: Option<Environment>, summary: string, id: string,
                     now: Time, created: Time)
    requires conn in s.sockets && hello.Hello? && !Admits(s, conn, environment, id, now)
    ensures var t := HandleHello(s, conn, hello, environment, summary, id, now, created);
            t.boots.Keys == s.boots.Keys && conn in t.sockets && t.sockets[conn].attached == s.sockets[conn].attached
  {
    hide Rearm, ExpireDue, PendingOf, FromSource, Waiting, Recent, Insert, Attach, SayTo, NewBoot, Refuse;
    var identity := s.sockets[conn].identity;
    CountsAfterExpiry(s, now, identity.tokenId, identity.sourceIp, now - RATE_WINDOW);
    RecentCounts(s, identity.sourceIp, now);
    ExpiryKeepsAttached(s, now);
    var t := ExpireDue(s, now);
    RefusalKeeps(s, conn, PROTOCOL_ERROR);
    RefusalKeeps(t, conn, RATE_LIMITED);
    RefusalKeeps(t, conn, CONFLICT);
    RefusalKeeps(t, conn, UNKNOWN_BOOT);
  }

  lemma ExpiryKeepsAttached(s: State, now: Time)
    ensures SameAttached(s, ExpireDue(s, now))
  {
    hide FireAll;
    PrimitivesKeepAttached();
  }

  lemma NewBootIs(s: State, identity: Identity, hello: ClientFrame, environment: Environment, summary: string, created: Time)
    requires hello.Hello?
    ensures var boot := NewBoot(s, identity, hello, environment, summary, created);
            && boot.status == PENDING && boot.tokenId == identity.tokenId && boot.projectId == environment.projectId
            && boot.signingKey == hello.signingKey && boot.encryptionKey == hello.encryptionKey
            && boot.createdAt == created && boot.pendingExpiresAt == created + environment.pendingTtl * 1000
  {
  }

  lemma InsertedHas(s: State, conn: nat, id: string, boot: Boot, frame: ServerFrame)
    requires conn in s.sockets
    ensures var t := SayTo(Attach(Insert(s, id, boot), conn, id), {conn}, [frame]);
            && conn in t.sockets && t.sockets[conn].attached == Some(id)
            && t.sockets[conn].sent == s.sockets[conn].sent + [frame]
            && t.boots == s.boots[id := boot]
  {
  }

  lemma RefusalKeeps(s: State, conn: nat, code: CloseCode)
    ensures Refuse(s, conn, code).boots == s.boots && Refuse(s, conn, code).challenges == s.challenges
    ensures Refuse(s, conn, code).sockets.Keys == s.sockets.Keys && SameAttached(s, Refuse(s, conn, code))
  {
  }

  lemma RearmKeepsRows()
    ensures forall s :: Rearm(s).boots == s.boots && Rearm(s).sockets == s.sockets && Rearm(s).challenges == s.challenges
  {
  }

  // ------------------------------------------------------------------ resume

  /** A challenge is issued exactly to the boot's own token while the boot is open, and it replaces every other;
      in every other case no challenge of any boot changes. */
  lemma ChallengesExactly(s: State, conn: nat, id: string, challenge: string, now: Time)
    requires conn in s.sockets
    ensures var t := HandleResume(s, conn, id, challenge, now);
            if GoesOn(s, id, now) && s.sockets[conn].identity.tokenId == s.boots[id].tokenId
            then t.challenges == (set c | c in s.challenges && c.bootId != id) + {Challenge(id, challenge, now + 30_000)}
            else t.challenges == s.challenges
  {
    hide FireAll, Rearm, SayTo;
    ExpiryIfDue(s, id, now);
    SayingKeeps();
  }

  lemma SayingKeeps()
    ensures forall s, conns, frames :: SayTo(s, conns, frames).challenges == s.challenges
                                       && SayTo(s, conns, frames).boots == s.boots
  {
  }

  lemma ExpiryIfDue(s: State, id: string, now: Time)
    ensures id in s.boots ==>
              var t := ExpireIfDue(s, id, now);
              && t.challenges == s.challenges && t.boots.Keys == s.boots.Keys && t.sockets.Keys == s.sockets.Keys
              && SameAttached(s, t)
              && (GoesOn(s, id, now) ==> t == s)
              && (IsTerminal(t.boots[id].status) <==> !GoesOn(s, id, now))
              && (!Due(s.boots[id], now) ==> t == s)
  {
    if id in s.boots {
      hide FireAll, Rearm;
      FiredRow(s, id, Expire, now);
      PrimitivesKeepAttached();
      PrimitivesKeepKeys();
      RearmKeepsRows();
      FiringKeeps();
    }
  }

  lemma FiredRow(s: State, id: string, change: Change, now: Time)
    requires id in s.boots
    ensures var fired := Fired(s.boots[id], change, now);
            FireAll(s, {id}, change, now).boots == if fired.Some? then s.boots[id := fired.value] else s.boots
  {
    hide Fired;
  }

  /** A response attaches its socket exactly when its proof is good and the boot is open. Good or bad, it spends
      the boot's challenge. */
  lemma AttachesExactly(s: State, conn: nat, id: string, signature: Signature, token: Option<Token>, now: Time)
    requires conn in s.sockets
    ensures var t := HandleChallengeResponse(s, conn, id, signature, token, now);
            var before, good := s.sockets[conn].attached, GoodProof(s, conn, id, signature, token, now) && GoesOn(s, id, now);
            && conn in t.sockets && t.sockets[conn].attached == (if good then Some(id) else before)
            && t.challenges == if id in s.boots then set c | c in s.challenges && c.bootId != id else s.challenges
  {
    hide FireAll, Rearm, Refuse, Proven, Verify, TokenValid, GoesOn, Due, Outstanding, WithoutChallenges;
    RefusalKeeps(s, conn, UNKNOWN_BOOT);
    RefusalKeeps(s, conn, PROTOCOL_ERROR);
    if id in s.boots {
      var t := WithoutChallenges(s, id);
      Spent(s, id);
      RefusalKeeps(t, conn, PROTOCOL_ERROR);
      RefusalKeeps(t, conn, FORBIDDEN);
      RevocationKeeps(t, conn, id, now);
      ProvenExactly(t, conn, id, now);
      SameOpen(s, t, id, now);
    }
  }

  /** What is left once a boot's challenge is taken. */
  lemma Spent(s: State, id: string)
    ensures WithoutChallenges(s, id) == s.(challenges := WithoutChallenges(s, id).challenges)
    ensures WithoutChallenges(s, id).challenges == set c | c in s.challenges && c.bootId != id
    ensures Outstanding(s, id) == {} ==> WithoutChallenges(s, id).challenges == s.challenges
  {
    forall c | c in s.challenges && Outstanding(s, id) == {} ensures c in WithoutChallenges(s, id).challenges {
      assert c !in Outstanding(s, id);
    }
  }

  lemma RevocationKeeps(s: State, conn: nat, id: string, now: Time)
    requires conn in s.sockets
    ensures var t := Refuse(Rearm(FireAll(s, {id}, Cancel(TOKEN_REVOKED), now)), conn, FORBIDDEN);
            t.challenges == s.challenges && conn in t.sockets && t.sockets[conn].attached == s.sockets[conn].attached
  {
    hide FireAll, Rearm, Refuse;
    var u := FireAll(s, {id}, Cancel(TOKEN_REVOKED), now);
    PrimitivesKeepAttached();
    FiringKeeps();
    RefusalKeeps(Rearm(u), conn, FORBIDDEN);
    RearmKeepsRows();
  }

  lemma SameOpen(s: State, t: State, id: string, now: Time)
    requires t.boots == s.boots
    ensures GoesOn(t, id, now) <==> GoesOn(s, id, now)
  {
  }

  lemma ProvenExactly(s: State, conn: nat, id: string, now: Time)
    requires conn in s.sockets && id in s.boots
    ensures var t := Proven(s, conn, id, now);
            && conn in t.sockets && t.challenges == s.challenges
            && t.sockets[conn].attached == if GoesOn(s, id, now) then Some(id) else s.sockets[conn].attached
  {
    hide ExpireIfDue, SayTo, DeliverTo, GoesOn, TerminalFrames;
    ExpiryIfDue(s, id, now);
    SayingKeeps();
    PrimitivesKeepAttached();
    PrimitivesKeepKeys();
    DeliveryKeeps();
  }

  lemma FiringKeeps()
    ensures forall s, ids, change, now :: FireAll(s, ids, change, now).challenges == s.challenges
  {
  }

  lemma DeliveryKeeps()
    ensures forall s: State, id, conns, now | id in s.boots ::
              && DeliverTo(s, id, conns, now).challenges == s.challenges && SameAttached(s, DeliverTo(s, id, conns, now))
              && DeliverTo(s, id, conns, now).sockets.Keys == s.sockets.Keys
  {
    hide FireAll, SayTo;
    PrimitivesKeepAttached();
    PrimitivesKeepKeys();
    SayingKeeps();
    FiringKeeps();
  }

  // ------------------------------------------------------------------ delivery

  /** A delivery reaches each of the given sockets once, with the stored frame, and the row becomes DELIVERED. */
  lemma DeliversExactly(s: State, id: string, conns: set<nat>, now: Time, c: nat)
    requires id in s.boots && c in s.sockets
    ensures var t, boot := DeliverTo(s, id, conns, now), s.boots[id];
            if boot.deliveredFrame.Some? && boot.status in {APPROVED, DELIVERED} && conns != {} then
              && t.boots == s.boots[id := boot.(status := DELIVERED)] && c in t.sockets
              && t.sockets[c] == if c in conns then s.sockets[c].(sent := s.sockets[c].sent + [BootApproved(boot.deliveredFrame.value)])
                                 else s.sockets[c]
            else t == s
  {
    if s.boots[id].deliveredFrame.Some? {
      var u := SayTo(s, conns, [BootApproved(s.boots[id].deliveredFrame.value)]);
      hide FireAll;
      FiredRow(u, id, Deliver, now);
      DeliverIsSilent(u, id, now);
    }
  }

  lemma DeliverIsSilent(s: State, id: string, now: Time)
    ensures FireAll(s, {id}, Deliver, now).sockets == s.sockets
  {
  }

  /** A good proof on an open boot reports where it stands, and sends an approved payload again, once. */
  lemma ProofDelivers(s: State, conn: nat, id: string, now: Time)
    requires Inv(s) && conn in s.sockets && GoesOn(s, id, now)
    ensures var t, b, sent := Proven(s, conn, id, now), s.boots[id], s.sockets[conn].sent;
            && conn in t.sockets
            && if b.status == PENDING then
                 t.boots == s.boots && t.sockets[conn].sent == sent + [BootResumed(id, PENDING, b.pendingExpiresAt)]
               else
                 && b.deliveredFrame.Some? && b.payloadExpiresAt.Some? && t.boots == s.boots[id := b.(status := DELIVERED)]
                 && t.sockets[conn].sent == sent + [BootResumed(id, b.status, b.payloadExpiresAt.value),
                                                    BootApproved(b.deliveredFrame.value)]
  {
    hide ExpireIfDue, DeliverTo, Inv;
    ExpiryIfDue(s, id, now);
    var b := s.boots[id];
    var u := Log(Attach(s, conn, id), id, Reconnected);
    if b.status != PENDING {
      OpenRow(s, id);
      var v := SayTo(u, {conn}, [BootResumed(id, if b.status == APPROVED then APPROVED else DELIVERED, b.payloadExpiresAt.value)]);
      DeliversExactly(v, id, {conn}, now, conn);
    }
  }

  lemma OpenRow(s: State, id: string)
    requires Inv(s) && id in s.boots && s.boots[id].status in {APPROVED, DELIVERED}
    ensures s.boots[id].deliveredFrame.Some? && s.boots[id].payloadExpiresAt.Some?
  {
    assert BootOk(id, s.boots[id], s.index[id], s.audit[id]);
  }

  // ------------------------------------------------------------------ received

  /** boot.received consumes exactly a DELIVERED boot of this socket whose stored digest is acknowledged. */
  lemma ConsumesExactly(s: State, conn: nat, id: string, digest: Digest, now: Time, other: string)
    requires conn in s.sockets && other in s.boots
    ensures var t := HandleReceived(s, conn, id, digest, now);
            && other in t.boots
            && t.boots[other] == if other == id && s.sockets[conn].attached == Some(id) && s.boots[id].payloadDigest == Some(digest)
                                    && s.boots[id].status == DELIVERED
                                 then s.boots[id].(status := CONSUMED, deliveredFrame := None, consumedAt := Some(now))
                                 else s.boots[other]
  {
    hide FireAll, Rearm, SayTo, Refuse;
    RearmKeepsRows();
    SayingKeeps();
    RefusalKeeps(s, conn, UNKNOWN_BOOT);
    RefusalKeeps(s, conn, PROTOCOL_ERROR);
    RefusalKeeps(s, conn, TERMINAL);
    RefusalKeeps(s, conn, CONFLICT);
    if id in s.boots {
      FiredRow(s, id, Consume, now);
    }
  }
}
