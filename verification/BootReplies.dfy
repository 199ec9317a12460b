/** What each handler answers the socket that sent it a frame: every refusal with its code, in the order the checks are
    made, and every success with its frames. */
module BootReplies {
  import opened Ideal
  import opened Protocol
  import opened BootTables
  import opened BootInvariants
  import opened BootRuns
  import opened ApprovalRuns
  import opened BootSession
  import opened BootTheorems
  import opened BootOutcomes
  import opened BootEndings

  /** An error frame and a close, both with the same code. */
  function Refusal(code: CloseCode): seq<ServerFrame> {
    [BootError(code), Close(code)]
  }

  function SentOn(s: State, conn: nat): seq<ServerFrame> {
    if conn in s.sockets then s.sockets[conn].sent else []
  }

  lemma RefuseSays(s: State, conn: nat, code: CloseCode)
    requires conn in s.sockets
    ensures SentOn(Refuse(s, conn, code), conn) == SentOn(s, conn) + Refusal(code)
  {
  }

  // ------------------------------------------------------------------ hello

  /** boot.hello is answered by the first thing wrong with it, and otherwise by boot.pending for the row it wrote. */
  lemma HelloSays(s: State, conn: nat, hello: ClientFrame, environment: Option<Environment>, summary: string, id: string,
                  now: Time, created: Time)
    requires conn in s.sockets && hello.Hello?
    ensures var t, who := HandleHello(s, conn, hello, environment, summary, id, now, created), s.sockets[conn].identity;
            SentOn(t, conn) == SentOn(s, conn) +
              if s.sockets[conn].attached.Some? then Refusal(PROTOCOL_ERROR)
              else if who.sourceIp != "" && |Recent(s, who.sourceIp, now)| >= 10 then Refusal(RATE_LIMITED)
              else if |Waiting(s, who.tokenId, now)| >= (if who.maxPendingBoots > 0 then who.maxPendingBoots else 3) then Refusal(CONFLICT)
              else if environment.None? then Refusal(UNKNOWN_BOOT)
              else if id in s.boots then []
              else [BootPending(id, created + environment.value.pendingTtl * 1000)]
  {
    hide Rearm, ExpireDue, PendingOf, FromSource, Waiting, Recent, Insert, Attach, SayTo, NewBoot, Refuse;
    var identity := s.sockets[conn].identity;
    CountsAfterExpiry(s, now, identity.tokenId, identity.sourceIp, now - RATE_WINDOW);
    RecentCounts(s, identity.sourceIp, now);
    RearmsOnly();
    if s.sockets[conn].attached.Some? {
      RefuseSays(s, conn, PROTOCOL_ERROR);
    } else {
      var t := ExpireDue(s, now);
      StrangersHearNothing(s, now, conn);
      RefuseSays(t, conn, RATE_LIMITED);
      RefuseSays(t, conn, CONFLICT);
      RefuseSays(t, conn, UNKNOWN_BOOT);
      if environment.Some? {
        var boot := NewBoot(t, identity, hello, environment.value, summary, created);
        NewBootIs(t, identity, hello, environment.value, summary, created);
        InsertedHas(t, conn, id, boot, BootPending(id, boot.pendingExpiresAt));
      }
    }
  }

  /** The row, the index row and the audit line of an admitted boot. */
  lemma HelloWrites(s: State, conn: nat, hello: ClientFrame, environment: Option<Environment>, summary: string, id: string,
                    now: Time, created: Time)
    requires conn in s.sockets && hello.Hello? && Admits(s, conn, environment, id, now)
    ensures var t, who := HandleHello(s, conn, hello, environment, summary, id, now, created), s.sockets[conn].identity;
            && id in t.boots && id in t.index && id in t.audit
            && t.boots[id] == Boot(PENDING, s.environmentId, environment.value.projectId, who.tokenId,
                                   if who.sourceIp == "" then None else Some(who.sourceIp), hello.signingKey, hello.encryptionKey,
                                   summary, created, created + environment.value.pendingTtl * 1000,
                                   None, None, None, None, None, None)
            && t.index[id] == IndexRow(PENDING, None, None, None, None, None, None) && t.audit[id] == [Requested]
  {
    hide Rearm, ExpireDue, PendingOf, FromSource, Waiting, Recent, Insert, Attach, SayTo, NewBoot, Refuse;
    var identity := s.sockets[conn].identity;
    CountsAfterExpiry(s, now, identity.tokenId, identity.sourceIp, now - RATE_WINDOW);
    RecentCounts(s, identity.sourceIp, now);
    RearmsOnly();
    var u := ExpireDue(s, now);
    var boot := NewBoot(u, identity, hello, environment.value, summary, created);
    WholeBoot(s, u, identity, hello, environment.value, summary, now, created);
    InsertedRows(u, conn, id, boot, BootPending(id, boot.pendingExpiresAt));
  }

  lemma WholeBoot(s: State, u: State, identity: Identity, hello: ClientFrame, environment: Environment, summary: string, now: Time,
                  created: Time)
    requires hello.Hello? && u == ExpireDue(s, now)
    ensures NewBoot(u, identity, hello, environment, summary, created)
         == Boot(PENDING, s.environmentId, environment.projectId, identity.tokenId,
                 if identity.sourceIp == "" then None else Some(identity.sourceIp), hello.signingKey, hello.encryptionKey,
                 summary, created, created + environment.pendingTtl * 1000, None, None, None, None, None, None)
  {
  }

  lemma InsertedRows(s: State, conn: nat, id: string, boot: Boot, frame: ServerFrame)
    requires conn in s.sockets
    ensures var t := SayTo(Attach(Insert(s, id, boot), conn, id), {conn}, [frame]);
            && t.boots == s.boots[id := boot] && t.audit == s.audit[id := [Requested]]
            && t.index == s.index[id := IndexRow(PENDING, None, None, None, None, None, None)]
  {
  }

  // ------------------------------------------------------------------ resume

  /** boot.resume: an unknown boot and a foreign one are refused; an open one gets its challenge; one that is over, or is
      overdue and so expires now, gets its ending, once. */
  lemma ResumeSays(s: State, conn: nat, id: string, challenge: string, now: Time)
    requires Inv(s) && conn in s.sockets
    ensures var t, socket := HandleResume(s, conn, id, challenge, now), s.sockets[conn];
            SentOn(t, conn) == SentOn(s, conn) +
              if id !in s.boots then Refusal(UNKNOWN_BOOT)
              else if socket.identity.tokenId != s.boots[id].tokenId then Refusal(FORBIDDEN)
              else if Overdue(s.boots[id], now) then
                if socket.attached == Some(id) && !socket.open then [] else [BootExpired(id), Close(TERMINAL)]
              else if IsTerminal(s.boots[id].status) then if socket.attached == Some(id) then [] else EndingOf(id, s.boots[id])
              else [BootChallenge(id, challenge)]
  {
    hide Inv, SayTo, Refuse, TerminalFrames, ExpireIfDue, SayTerminalOnce, Issue, Heard;
    RefuseSays(s, conn, UNKNOWN_BOOT);
    RefuseSays(s, conn, FORBIDDEN);
    if id in s.boots {
      InvKeys(s);
      ExpiryOfOne(s, id, now);
      var t := ExpireIfDue(s, id, now);
      if Overdue(s.boots[id], now) {
        HeardOn(s, t, id, conn, [BootExpired(id), Close(TERMINAL)]);
        OnceMore(t, conn, id);
      } else if IsTerminal(s.boots[id].status) {
        OnceMore(s, conn, id);
      } else {
        Issued(s, conn, Challenge(id, challenge, now + CHALLENGE_TTL));
      }
    }
  }

  lemma HeardOn(s: State, t: State, id: string, conn: nat, frames: seq<ServerFrame>)
    requires Heard(s, t, id, frames) && conn in s.sockets
    ensures conn in t.sockets && t.sockets[conn].attached == s.sockets[conn].attached
    ensures SentOn(t, conn) == SentOn(s, conn) + if s.sockets[conn].open && s.sockets[conn].attached == Some(id) then frames else []
  {
  }

  lemma OnceMore(s: State, conn: nat, id: string)
    requires conn in s.sockets && id in s.boots && IsTerminal(s.boots[id].status)
    ensures SentOn(SayTerminalOnce(s, conn, id), conn)
         == SentOn(s, conn) + if s.sockets[conn].attached == Some(id) then [] else EndingOf(id, s.boots[id])
  {
    FramesOfEnding(id, s.boots[id]);
  }

  lemma Issued(s: State, conn: nat, challenge: Challenge)
    requires conn in s.sockets
    ensures SentOn(SayTo(Issue(s, challenge), {conn}, [BootChallenge(challenge.bootId, challenge.challenge)]), conn)
         == SentOn(s, conn) + [BootChallenge(challenge.bootId, challenge.challenge)]
  {
  }

  /** Expiry of one boot: its row, and what its open sockets hear. */
  lemma ExpiryOfOne(s: State, id: string, now: Time)
    requires id in s.boots && id in s.index && id in s.audit
    ensures var t, b := ExpireIfDue(s, id, now), s.boots[id];
            && id in t.boots && t.challenges == s.challenges && t.contexts == s.contexts
            && (Due(b, now) <==> Overdue(b, now))
            && if Overdue(b, now) then
                 && t.boots == s.boots[id := b.(status := EXPIRED, deliveredFrame := None,
                                                terminalReason := Some(if b.status == PENDING then "pending ttl elapsed" else "payload ttl elapsed"))]
                 && Heard(s, t, id, [BootExpired(id), Close(TERMINAL)])
               else t == s
  {
    hide FireAll, Rearm;
    RearmsOnly();
    FireOne(s, id, Expire, now);
  }

  // ------------------------------------------------------------------ challenge response

  /** What a challenge response has to show, but for its token. */
  ghost predicate Shows(s: State, conn: nat, id: string, signature: Signature, now: Time)
    requires conn in s.sockets
  {
    id in s.boots && s.sockets[conn].identity.tokenId == s.boots[id].tokenId
    && exists c :: c in s.challenges && c.bootId == id && c.expiresAt > now
                   && signature == Signature(s.boots[id].signingKey, AadText.ResumeMessage(id, c.challenge))
  }

  /** A response without a challenge to take, too late, wrongly signed or of another token is refused, in that order. */
  lemma ResponseRefuses(s: State, conn: nat, id: string, signature: Signature, token: Option<Token>, now: Time)
    requires Inv(s) && conn in s.sockets && !Shows(s, conn, id, signature, now)
    ensures var t := HandleChallengeResponse(s, conn, id, signature, token, now);
            && t.boots == s.boots && t.index == s.index && t.audit == s.audit && t.alarm == s.alarm
            && SentOn(t, conn) == SentOn(s, conn) +
                 if id !in s.boots then Refusal(UNKNOWN_BOOT)
                 else if exists c :: c in s.challenges && c.bootId == id && c.expiresAt > now
                                     && signature == Signature(s.boots[id].signingKey, AadText.ResumeMessage(id, c.challenge))
                 then Refusal(FORBIDDEN)
                 else Refusal(PROTOCOL_ERROR)
  {
    hide Rearm, FireAll, Proven, AadText.ResumeMessage, Inv, Refuse;
    if Outstanding(s, id) != {} {
      OneOutstanding(s, id);
      var c := AnyOf(Outstanding(s, id));
      assert c in s.challenges && c.bootId == id;
      forall d | d in s.challenges && d.bootId == id ensures d == c {
        assert d in Outstanding(s, id);
      }
    } else {
      NoneOutstanding(s, id);
    }
    var t := WithoutChallenges(s, id);
    RefusesOnly(s, conn, UNKNOWN_BOOT);
    RefusesOnly(s, conn, PROTOCOL_ERROR);
    RefusesOnly(t, conn, PROTOCOL_ERROR);
    RefusesOnly(t, conn, FORBIDDEN);
  }

  lemma NoneOutstanding(s: State, id: string)
    requires Outstanding(s, id) == {}
    ensures forall c :: c in s.challenges ==> c.bootId != id
  {
    forall c | c in s.challenges ensures c.bootId != id {
      assert c !in Outstanding(s, id);
    }
  }

  lemma RefusesOnly(s: State, conn: nat, code: CloseCode)
    requires conn in s.sockets
    ensures var t := Refuse(s, conn, code);
            && t == s.(sockets := t.sockets) && SentOn(t, conn) == SentOn(s, conn) + Refusal(code)
  {
  }

  /** A good proof under a token that is gone, revoked or expired cancels the boot and is refused. */
  lemma RevokedResponse(s: State, conn: nat, id: string, signature: Signature, token: Option<Token>, now: Time)
    requires Inv(s) && conn in s.sockets && Shows(s, conn, id, signature, now)
    requires token.None? || token.value.revoked || (token.value.expiresAt.Some? && token.value.expiresAt.value <= now)
    ensures var t, b := HandleChallengeResponse(s, conn, id, signature, token, now), s.boots[id];
            && t.boots == (if b.status in {PENDING, APPROVED}
                           then s.boots[id := b.(status := CANCELED, deliveredFrame := None, terminalReason := Some("bootstrap token revoked"))]
                           else s.boots)
            && (s.sockets[conn].attached != Some(id) ==> SentOn(t, conn) == SentOn(s, conn) + Refusal(FORBIDDEN))
  {
    hide Rearm, FireAll, Inv, Refuse, HandleChallengeResponse, Shows, Fired;
    RevokedIs(s, conn, id, signature, token, now);
    InvKeys(s);
    RearmsOnly();
    var t := WithoutChallenges(s, id);
    FireOne(t, id, Cancel(TOKEN_REVOKED), now);
    CancelMeans(s.boots[id], now);
    RefusesOnly(Rearm(FireAll(t, {id}, Cancel(TOKEN_REVOKED), now)), conn, FORBIDDEN);
  }

  lemma RevokedIs(s: State, conn: nat, id: string, signature: Signature, token: Option<Token>, now: Time)
    requires Inv(s) && conn in s.sockets && Shows(s, conn, id, signature, now)
    requires token.None? || token.value.revoked || (token.value.expiresAt.Some? && token.value.expiresAt.value <= now)
    ensures id in s.boots && s.sockets[conn].identity.tokenId == s.boots[id].tokenId
    ensures HandleChallengeResponse(s, conn, id, signature, token, now)
         == Refuse(Rearm(FireAll(WithoutChallenges(s, id), {id}, Cancel(TOKEN_REVOKED), now)), conn, FORBIDDEN)
  {
    hide Rearm, FireAll, Proven, AadText.ResumeMessage, Inv, Refuse, Outstanding;
    ShowsFirst(s, conn, id, signature, now);
  }

  lemma CancelMeans(b: Boot, now: Time)
    ensures Fired(b, Cancel(TOKEN_REVOKED), now)
         == if b.status in {PENDING, APPROVED}
            then Some(b.(status := CANCELED, deliveredFrame := None, terminalReason := Some("bootstrap token revoked"))) else None
  {
  }

  /** The one outstanding challenge is the one shown. */
  lemma ShowsFirst(s: State, conn: nat, id: string, signature: Signature, now: Time)
    requires Inv(s) && conn in s.sockets && Shows(s, conn, id, signature, now)
    ensures Outstanding(s, id) != {}
    ensures var c := AnyOf(Outstanding(s, id));
            c.expiresAt > now && signature == Signature(s.boots[id].signingKey, AadText.ResumeMessage(id, c.challenge))
  {
    hide AadText.ResumeMessage, Inv;
    var c :| c in s.challenges && c.bootId == id && c.expiresAt > now
             && signature == Signature(s.boots[id].signingKey, AadText.ResumeMessage(id, c.challenge));
    assert c in Outstanding(s, id);
    OneOutstanding(s, id);
  }

  /** A good proof under a valid token, on a boot that goes on: the socket is the boot's, the reconnection is logged, and
      the answer is where the boot stands, with the stored payload once there is one. */
  lemma ResponseAnswers(s: State, conn: nat, id: string, signature: Signature, token: Option<Token>, now: Time)
    requires Inv(s) && conn in s.sockets && Shows(s, conn, id, signature, now)
    requires token.Some? && !token.value.revoked && (token.value.expiresAt.Some? ==> token.value.expiresAt.value > now)
    requires !Overdue(s.boots[id], now) && !IsTerminal(s.boots[id].status)
    ensures var t, b := HandleChallengeResponse(s, conn, id, signature, token, now), s.boots[id];
            && conn in t.sockets && t.sockets[conn].attached == Some(id) && id in s.audit && id in t.audit
            && if b.status == PENDING then
                 && SentOn(t, conn) == SentOn(s, conn) + [BootResumed(id, PENDING, b.pendingExpiresAt)]
                 && t.boots == s.boots && t.audit[id] == s.audit[id] + [Reconnected]
               else
                 && b.deliveredFrame.Some? && b.payloadExpiresAt.Some?
                 && SentOn(t, conn) == SentOn(s, conn) + [BootResumed(id, b.status, b.payloadExpiresAt.value),
                                                          BootApproved(b.deliveredFrame.value)]
                 && t.boots == s.boots[id := b.(status := DELIVERED)]
                 && t.audit[id] == s.audit[id] + [Reconnected, AuditDelivered(b.status == DELIVERED)]
  {
    hide Rearm, FireAll, Proven, AadText.ResumeMessage, Inv, Refuse, Outstanding;
    ShowsFirst(s, conn, id, signature, now);
    FewerChallenges(s, id);
    ProofAnswers(s, WithoutChallenges(s, id), conn, id, now);
  }

  lemma FewerChallenges(s: State, id: string)
    requires Inv(s)
    ensures ChallengesOk(WithoutChallenges(s, id).challenges)
  {
  }

  lemma ProofAnswers(s: State, w: State, conn: nat, id: string, now: Time)
    requires Inv(s) && conn in s.sockets && id in s.boots && w == s.(challenges := w.challenges)
    requires !Overdue(s.boots[id], now) && !IsTerminal(s.boots[id].status) && ChallengesOk(w.challenges)
    ensures var t, b := Proven(w, conn, id, now), s.boots[id];
            && conn in t.sockets && t.sockets[conn].attached == Some(id) && id in s.audit && id in t.audit
            && if b.status == PENDING then
                 && SentOn(t, conn) == SentOn(s, conn) + [BootResumed(id, PENDING, b.pendingExpiresAt)]
                 && t.boots == s.boots && t.audit[id] == s.audit[id] + [Reconnected]
               else
                 && b.deliveredFrame.Some? && b.payloadExpiresAt.Some?
                 && SentOn(t, conn) == SentOn(s, conn) + [BootResumed(id, b.status, b.payloadExpiresAt.value),
                                                          BootApproved(b.deliveredFrame.value)]
                 && t.boots == s.boots[id := b.(status := DELIVERED)]
                 && t.audit[id] == s.audit[id] + [Reconnected, AuditDelivered(b.status == DELIVERED)]
  {
    hide FireAll, Inv, Rearm;
    assert Inv(w) by {
      OnlyChallenges(s, w);
    }
    InvKeys(s);
    assert GoesOn(w, id, now);
    ProofDelivers(w, conn, id, now);
    ProofLogs(w, conn, id, now);
  }

  lemma OnlyChallenges(s: State, w: State)
    requires Inv(s) && w == s.(challenges := w.challenges) && ChallengesOk(w.challenges)
    ensures Inv(w)
  {
  }

  lemma ProofLogs(s: State, conn: nat, id: string, now: Time)
    requires Inv(s) && conn in s.sockets && GoesOn(s, id, now)
    ensures var t, b := Proven(s, conn, id, now), s.boots[id];
            && conn in t.sockets && t.sockets[conn].attached == Some(id) && id in s.audit && id in t.audit
            && t.audit[id] == s.audit[id] + if b.status == PENDING then [Reconnected] else [Reconnected, AuditDelivered(b.status == DELIVERED)]
  {
    hide FireAll, Inv, Rearm, ExpireIfDue;
    InvKeys(s);
    ExpiryIfDue(s, id, now);
    var u := Log(Attach(s, conn, id), id, Reconnected);
    var b := s.boots[id];
    if b.status != PENDING {
      OpenRow(s, id);
      var v := SayTo(u, {conn}, [BootResumed(id, if b.status == APPROVED then APPROVED else DELIVERED, b.payloadExpiresAt.value)]);
      FireOne(SayTo(v, {conn}, [BootApproved(b.deliveredFrame.value)]), id, Deliver, now);
      assert (s.audit[id] + [Reconnected]) + [AuditDelivered(b.status == DELIVERED)]
          == s.audit[id] + [Reconnected, AuditDelivered(b.status == DELIVERED)];
    }
  }

  // ------------------------------------------------------------------ received

  /** boot.received is confirmed and the connection closed normally exactly when the boot is consumed; otherwise the code
      says what was wrong. */
  lemma ReceivedSays(s: State, conn: nat, id: string, digest: Digest, now: Time)
    requires Inv(s) && conn in s.sockets
    ensures var t := HandleReceived(s, conn, id, digest, now);
            && SentOn(t, conn) == SentOn(s, conn) +
                 (if s.sockets[conn].attached != Some(id) || id !in s.boots then Refusal(UNKNOWN_BOOT)
                  else if s.boots[id].payloadDigest != Some(digest) then Refusal(PROTOCOL_ERROR)
                  else if s.boots[id].status == DELIVERED then [BootConsumed(id), Close(NORMAL)]
                  else if IsTerminal(s.boots[id].status) then Refusal(TERMINAL)
                  else Refusal(CONFLICT))
            && forall c :: c in s.sockets && c != conn ==> c in t.sockets && t.sockets[c] == s.sockets[c]
  {
    hide Inv, FireAll, Rearm, Refuse, SayTo, Fired;
    InvKeys(s);
    RefusesAlone(s, conn, UNKNOWN_BOOT);
    RefusesAlone(s, conn, PROTOCOL_ERROR);
    RefusesAlone(s, conn, TERMINAL);
    RefusesAlone(s, conn, CONFLICT);
    if id in s.boots {
      ConsumeMeans(s.boots[id], now);
      if s.boots[id].status == DELIVERED {
        ConsumeSays(s, conn, id, now);
      }
    }
  }

  lemma ConsumeSays(s: State, conn: nat, id: string, now: Time)
    requires conn in s.sockets && id in s.boots && id in s.index && id in s.audit
    ensures var t := Rearm(SayTo(FireAll(s, {id}, Consume, now), {conn}, [BootConsumed(id), Close(NORMAL)]));
            && SentOn(t, conn) == SentOn(s, conn) + [BootConsumed(id), Close(NORMAL)]
            && forall c :: c in s.sockets && c != conn ==> c in t.sockets && t.sockets[c] == s.sockets[c]
  {
    hide FireAll, Rearm, SayTo, Fired, Mirrored;
    RearmsOnly();
    FireOne(s, id, Consume, now);
    SaysAlone(FireAll(s, {id}, Consume, now), conn, [BootConsumed(id), Close(NORMAL)]);
  }

  lemma ConsumeMeans(b: Boot, now: Time)
    ensures Fired(b, Consume, now).Some? <==> b.status == DELIVERED
  {
  }

  lemma SaysAlone(s: State, conn: nat, frames: seq<ServerFrame>)
    requires conn in s.sockets
    ensures var t := SayTo(s, {conn}, frames);
            && SentOn(t, conn) == SentOn(s, conn) + frames
            && forall c :: c in s.sockets && c != conn ==> c in t.sockets && t.sockets[c] == s.sockets[c]
  {
  }

  lemma RefusesAlone(s: State, conn: nat, code: CloseCode)
    requires conn in s.sockets
    ensures var t := Refuse(s, conn, code);
            && SentOn(t, conn) == SentOn(s, conn) + Refusal(code)
            && forall c :: c in s.sockets && c != conn ==> c in t.sockets && t.sockets[c] == s.sockets[c]
  {
  }
}
