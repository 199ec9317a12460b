/** The two programs put together frame by frame: what one of them sends, the other takes. A client that reconnects is
    let back in, a client whose boot was approved gets through to its command, and one whose boot ended exits as it should. */
module Reconnection {
  import opened Ideal
  import opened Protocol
  import opened BootTables
  import opened BootInvariants
  import opened BootOutcomes
  import opened BootEndings
  import opened BootReplies
  import opened ChildEnv
  import opened Release
  import opened ClientSession

  /** The server knows this client's boot, and it goes on. */
  predicate Knows(cfg: Config, s: State, conn: nat, id: string, now: Time) {
    && id in s.boots && conn in s.sockets && s.boots[id].signingKey == cfg.signingKey
    && s.sockets[conn].identity.tokenId == s.boots[id].tokenId
    && !Overdue(s.boots[id], now) && !IsTerminal(s.boots[id].status)
  }

  predicate Stands(token: Option<Token>, now: Time) {
    token.Some? && !token.value.revoked && (token.value.expiresAt.Some? ==> token.value.expiresAt.value > now)
  }

  /** The frames a reconnected client hears: where its boot stands, and the payload once there is one. */
  function Welcome(id: string, b: Boot): seq<ServerFrame>
    requires b.status != PENDING ==> b.deliveredFrame.Some? && b.payloadExpiresAt.Some?
  {
    if b.status == PENDING then [BootResumed(id, PENDING, b.pendingExpiresAt)]
    else [BootResumed(id, b.status, b.payloadExpiresAt.value), BootApproved(b.deliveredFrame.value)]
  }

  /** A client's answer to the challenge of its own boot passes the server's check: fed to the server while the challenge
      lasts, it attaches the socket and is welcomed. */
  lemma AnswerVerifies(cfg: Config, client: Client, s: State, conn: nat, id: string, challenge: Challenge, token: Option<Token>,
                       now: Time, size: nat)
    requires Inv(s) && Knows(cfg, s, conn, id, now) && Stands(token, now) && size <= 1048576
    requires challenge in s.challenges && challenge.bootId == id && challenge.expiresAt > now
    requires client.bootId == "" || client.bootId == id
    ensures var (after, out, verdict) := HandleFrame(cfg, client, BootChallenge(id, challenge.challenge), size, false);
            && verdict == Continue && after == client.(bootId := id) && |out| == 1 && out[0].ChallengeResponse?
            && var t := HandleChallengeResponse(s, conn, out[0].bootId, out[0].signature, token, now);
               && conn in t.sockets && t.sockets[conn].attached == Some(id)
               && (s.boots[id].status != PENDING ==> s.boots[id].deliveredFrame.Some? && s.boots[id].payloadExpiresAt.Some?)
               && SentOn(t, conn) == SentOn(s, conn) + Welcome(id, s.boots[id])
               && t.boots == s.boots[id := if s.boots[id].status == PENDING then s.boots[id] else s.boots[id].(status := DELIVERED)]
  {
    hide Inv, HandleChallengeResponse;
    var out := HandleFrame(cfg, client, BootChallenge(id, challenge.challenge), size, false).1;
    assert Shows(s, conn, id, out[0].signature, now);
    ResponseAnswers(s, conn, id, out[0].signature, token, now);
  }

  /** A client that lost its connection says boot.resume on the next, is challenged, and is back within the thirty seconds
      the challenge lasts. */
  lemma ReconnectionSucceeds(cfg: Config, client: Client, s: State, conn: nat, id: string, challenge: string, token: Option<Token>,
                             asked: Time, answered: Time, size: nat)
    requires Inv(s) && Knows(cfg, s, conn, id, asked) && Stands(token, answered) && size <= 1048576
    requires client.bootId == id && id != "" && asked <= answered < asked + 30_000 && !Overdue(s.boots[id], answered)
    ensures Handshake(cfg, client) == Resume(id)
    ensures var t := HandleResume(s, conn, id, challenge, asked);
            && SentOn(t, conn) == SentOn(s, conn) + [BootChallenge(id, challenge)]
            && var (after, out, verdict) := HandleFrame(cfg, client, BootChallenge(id, challenge), size, false);
               && after == client && verdict == Continue && |out| == 1 && out[0].ChallengeResponse? && conn in t.sockets
               && var u := HandleChallengeResponse(t, conn, out[0].bootId, out[0].signature, token, answered);
                  && conn in u.sockets && u.sockets[conn].attached == Some(id)
                  && (s.boots[id].status != PENDING ==> s.boots[id].deliveredFrame.Some? && s.boots[id].payloadExpiresAt.Some?)
                  && SentOn(u, conn) == SentOn(s, conn) + [BootChallenge(id, challenge)] + Welcome(id, s.boots[id])
                  && u.boots == s.boots[id := if s.boots[id].status == PENDING then s.boots[id] else s.boots[id].(status := DELIVERED)]
  {
    hide Inv, HandleResume, HandleChallengeResponse, HandleFrame;
    ResumeSays(s, conn, id, challenge, asked);
    ChallengesExactly(s, conn, id, challenge, asked);
    ResumeKeepsTheRest(s, conn, id, challenge, asked);
    var t := HandleResume(s, conn, id, challenge, asked);
    AnswerVerifies(cfg, client, t, conn, id, Challenge(id, challenge, asked + CHALLENGE_TTL), token, answered, size);
  }

  /** Asking for a challenge changes neither the boots nor whose the sockets are. */
  lemma ResumeKeepsTheRest(s: State, conn: nat, id: string, challenge: string, now: Time)
    requires Inv(s) && conn in s.sockets && id in s.boots && !Overdue(s.boots[id], now)
    ensures var t := HandleResume(s, conn, id, challenge, now);
            && Inv(t) && t.boots == s.boots && conn in t.sockets && t.sockets[conn].identity == s.sockets[conn].identity
  {
    hide Inv, FireAll, Rearm, TerminalFrames;
    BootRuns.ResumeKeeps(s, conn, id, challenge, now);
  }

  // ------------------------------------------------------------------ through to the command

  /** The client can take this payload: it is the first it sees or the one it has, meant for it, within its limits, opens
      with its key, and holds what is required. */
  predicate Takes(cfg: Config, client: Client, p: Payload, size: nat) {
    && WellFormed(p, size) && client.bootId == p.bootId
    && (cfg.environmentId == "" || p.environmentId == cfg.environmentId)
    && (client.approvedEnvironmentId == "" || client.approvedEnvironmentId == p.environmentId)
    && (client.approvedDigest.None? || client.approvedDigest == Some(OfFrame(p)))
    && Decrypt(cfg.encryptionSecret, p.bootId, p).Some?
    && HasRequired(Decrypt(cfg.encryptionSecret, p.bootId, p).value, cfg.requiredSecrets)
  }

  /** On a socket attached to it, an approved boot's payload is acknowledged, the acknowledgement consumes the boot, and
      the confirmation launches the command under the payload's secrets. */
  lemma PayloadLaunches(cfg: Config, client: Client, s: State, conn: nat, p: Payload, size: nat, confirmed: nat, now: Time)
    requires Inv(s) && conn in s.sockets && s.sockets[conn].attached == Some(p.bootId) && p.bootId in s.boots
    requires s.boots[p.bootId].status == DELIVERED && s.boots[p.bootId].deliveredFrame == Some(p)
    requires Takes(cfg, client, p, size) && confirmed <= 1048576
    ensures var (c1, out, verdict) := HandleFrame(cfg, client, BootApproved(p), size, false);
            && verdict == Continue && out == [Received(p.bootId, OfFrame(p))]
            && var t := HandleReceived(s, conn, p.bootId, OfFrame(p), now);
               && SentOn(t, conn) == SentOn(s, conn) + [BootConsumed(p.bootId), Close(NORMAL)]
               && p.bootId in t.boots && t.boots[p.bootId].status == CONSUMED
               && var (c2, rest, last) := HandleFrame(cfg, c1, BootConsumed(p.bootId), confirmed, false);
                  && last == Finished && c2.consumed
                  && Launched(cfg, c2) == Build(cfg.environ, Decrypt(cfg.encryptionSecret, p.bootId, p).value)
  {
    hide HandleReceived, Decrypt, HasRequired, Build;
    DeliveredDigest(s, p);
    hide Inv;
    ReceivedSays(s, conn, p.bootId, OfFrame(p), now);
    ConsumesExactly(s, conn, p.bootId, OfFrame(p), now, p.bootId);
  }

  lemma DeliveredDigest(s: State, p: Payload)
    requires Inv(s) && p.bootId in s.boots && s.boots[p.bootId].deliveredFrame == Some(p)
    ensures s.boots[p.bootId].payloadDigest == Some(OfFrame(p))
  {
    assert BootOk(p.bootId, s.boots[p.bootId], s.index[p.bootId], s.audit[p.bootId]);
  }

  // ------------------------------------------------------------------ when it ends

  /** How a boot's ending reaches its workload: the first frame of it ends the client, as declined exactly when the boot was
      declined, and as expired when it expired, was canceled or had finished. */
  lemma EndingsReachTheClient(cfg: Config, client: Client, id: string, b: Boot, size: nat)
    requires IsTerminal(b.status) && size <= 1048576
    ensures var verdict := HandleFrame(cfg, client, EndingOf(id, b)[0], size, false).2;
            && verdict.Fatal? && (verdict.code == ExitDeclined <==> b.status == DECLINED)
            && (verdict.code == ExitExpired <==> b.status != DECLINED)
  {
  }

  /** A client ends as declined only when its boot is: whatever was sent on a socket of the server. */
  lemma DeclinedExitIsTrue(cfg: Config, client: Client, s: State, conn: nat, i: nat, size: nat, sendFails: bool)
    requires Inv(s) && conn in s.sockets && i < |s.sockets[conn].sent|
    requires HandleFrame(cfg, client, s.sockets[conn].sent[i], size, sendFails).2 == Fatal(ExitDeclined)
    ensures exists id :: id in s.boots && s.boots[id].status == DECLINED
                         && s.sockets[conn].sent[i].BootDeclined? && s.sockets[conn].sent[i].bootId == id
  {
    hide Decrypt, HasRequired;
    var f := s.sockets[conn].sent[i];
    assert f in s.sockets[conn].sent;
    assert SocketOk(s.boots, s.sockets[conn]);
    assert FrameOk(s.boots, f);
  }

  /** A refusal for asking too often is retried, any other ends the client: only a busy server is worth another try. */
  lemma RefusalsReachTheClient(cfg: Config, client: Client, code: CloseCode, size: nat)
    requires code != NORMAL && size <= 1048576
    ensures var verdict := HandleFrame(cfg, client, Refusal(code)[0], size, false).2;
            && (verdict == Lost <==> code == RATE_LIMITED)
            && (verdict.Fatal? <==> code != RATE_LIMITED)
            && (verdict.Fatal? ==> verdict.code == if code == TERMINAL then ExitExpired else ExitProtocol)
  {
  }
}
