/** Whole runs of the boot session: any interleaving of handlers and approval pieces, and what holds in
    every reachable state. */
module BootRuns {
  import opened Ideal
  import opened Protocol
  import opened BootTables
  import opened BootInvariants
  import opened Approvals

  datatype Step =
    | StepConnect(conn: nat, identity: Identity)
    | StepDisconnect(conn: nat)
    | StepMalformed(conn: nat)
    | StepHello(conn: nat, hello: ClientFrame, environment: Option<Environment>, summary: string, id: string, now: Time,
                created: Time)
    | StepResume(conn: nat, id: string, challenge: string, now: Time)
    | StepChallengeResponse(conn: nat, id: string, signature: Signature, token: Option<Token>, now: Time)
    | StepReceived(conn: nat, id: string, digest: Digest, now: Time)
    | StepDecline(id: string, reason: string, now: Time)
    | StepCancel(id: string, reason: string, now: Time)
    | StepCancelLive(tokenId: Option<string>, reason: string, now: Time)
    | StepAlarm(now: Time)

  ghost predicate Enabled(s: State, step: Step) {
    match step
    case StepHello(conn, hello, _, _, _, now, created) => conn in s.sockets && hello.Hello? && now <= created
    case StepMalformed(conn) => conn in s.sockets
    case StepResume(conn, _, _, _) => conn in s.sockets
    case StepChallengeResponse(conn, _, _, _, _) => conn in s.sockets
    case StepReceived(conn, _, _, _) => conn in s.sockets
    case _ => true
  }

  ghost function Next(s: State, step: Step): State
    requires Enabled(s, step)
  {
    match step
    case StepConnect(conn, identity) => Connect(s, conn, identity)
    case StepDisconnect(conn) => Disconnect(s, conn)
    case StepMalformed(conn) => Refuse(s, conn, PROTOCOL_ERROR)
    case StepHello(conn, hello, environment, summary, id, now, created) =>
      HandleHello(s, conn, hello, environment, summary, id, now, created)
    case StepResume(conn, id, challenge, now) => HandleResume(s, conn, id, challenge, now)
    case StepChallengeResponse(conn, id, signature, token, now) =>
      HandleChallengeResponse(s, conn, id, signature, token, now)
    case StepReceived(conn, id, digest, now) => HandleReceived(s, conn, id, digest, now)
    case StepDecline(id, reason, now) => DeclineBoot(s, id, reason, now)
    case StepCancel(id, reason, now) => CancelBoot(s, id, reason, now)
    case StepCancelLive(tokenId, reason, now) => CancelLive(s, tokenId, reason, now)
    case StepAlarm(now) => OnAlarm(s, now)
  }

  // ------------------------------------------------------------------ each handler keeps the invariant

  lemma FireAndRearmKeeps(s: State, ids: set<string>, change: Change, now: Time)
    requires Inv(s) && !change.Approve?
    ensures var t := Rearm(FireAll(s, ids, change, now)); Inv(t) && Grows(s, t)
  {
    FireAllKeeps(s, ids, change, now);
    RearmKeeps(FireAll(s, ids, change, now));
    GrowsTrans(s, FireAll(s, ids, change, now), Rearm(FireAll(s, ids, change, now)));
  }

  lemma ExpireIfDueKeeps(s: State, id: string, now: Time)
    requires Inv(s) && id in s.boots
    ensures var t := ExpireIfDue(s, id, now); Inv(t) && Grows(s, t) && id in t.boots && s.sockets.Keys <= t.sockets.Keys
  {
    hide Inv, Grows, FireAll, SayTo, Rearm;
    SelfGrows(s);
    FireAndRearmKeeps(s, {id}, Expire, now);
    GrowsKeys(s, ExpireIfDue(s, id, now));
  }

  lemma SayTerminalOnceKeeps(s: State, conn: nat, id: string)
    requires Inv(s) && conn in s.sockets && id in s.boots
    ensures var t := SayTerminalOnce(s, conn, id); Inv(t) && Grows(s, t)
  {
    SelfGrows(s);
    TerminalFramesOk(s.boots, id);
    SayToKeeps(s, {conn}, TerminalFrames(id, s.boots[id]));
  }

  lemma HelloKeeps(s: State, conn: nat, hello: ClientFrame, environment: Option<Environment>, summary: string, id: string,
                   now: Time, created: Time)
    requires Inv(s) && conn in s.sockets && hello.Hello?
    ensures var t := HandleHello(s, conn, hello, environment, summary, id, now, created); Inv(t) && Grows(s, t)
  {
    hide Inv, Grows, FireAll, SayTo, Rearm;
    var u := HandleHello(s, conn, hello, environment, summary, id, now, created);
    RefuseKeeps(s, conn, PROTOCOL_ERROR);
    if s.sockets[conn].attached.None? {
      var t := ExpireDue(s, now);
      FireAllKeeps(s, DueIds(s, now), Expire, now);
      GrowsKeys(s, t);
      forall code | code in {RATE_LIMITED, CONFLICT, UNKNOWN_BOOT} ensures Inv(Refuse(t, conn, code)) && Grows(s, Refuse(t, conn, code)) {
        RefuseKeeps(t, conn, code);
        GrowsTrans(s, t, Refuse(t, conn, code));
      }
      if id !in t.boots && environment.Some? {
        HelloInsertKeeps(t, conn, NewBoot(t, s.sockets[conn].identity, hello, environment.value, summary, created), id);
        GrowsTrans(s, t, HelloInsert(t, conn, NewBoot(t, s.sockets[conn].identity, hello, environment.value, summary, created), id));
      }
    }
  }

  ghost function HelloInsert(s: State, conn: nat, boot: Boot, id: string): State
    requires conn in s.sockets
  {
    Rearm(SayTo(Attach(Insert(s, id, boot), conn, id), {conn}, [BootPending(id, boot.pendingExpiresAt)]))
  }

  lemma HelloInsertKeeps(s: State, conn: nat, boot: Boot, id: string)
    requires Inv(s) && conn in s.sockets && id !in s.boots && boot.status == PENDING && RowOk(id, boot)
    ensures var t := HelloInsert(s, conn, boot, id); Inv(t) && Grows(s, t)
  {
    var a := Insert(s, id, boot);
    InsertKeeps(s, id, boot);
    var b := Attach(a, conn, id);
    AttachKeeps(a, conn, id);
    GrowsTrans(s, a, b);
    var frames := [BootPending(id, boot.pendingExpiresAt)];
    PlainFramesOk(b.boots, frames);
    SayToKeeps(b, {conn}, frames);
    var c := SayTo(b, {conn}, frames);
    GrowsTrans(s, b, c);
    RearmKeeps(c);
    GrowsTrans(s, c, Rearm(c));
  }

  lemma ResumeKeeps(s: State, conn: nat, id: string, challenge: string, now: Time)
    requires Inv(s) && conn in s.sockets
    ensures var t := HandleResume(s, conn, id, challenge, now); Inv(t) && Grows(s, t)
  {
    hide Inv, Grows, FireAll, SayTo, Rearm;
    RefuseKeeps(s, conn, UNKNOWN_BOOT);
    RefuseKeeps(s, conn, FORBIDDEN);
    if id in s.boots {
      var t := ExpireIfDue(s, id, now);
      ExpireIfDueKeeps(s, id, now);
      if IsTerminal(t.boots[id].status) {
        SayTerminalOnceKeeps(t, conn, id);
        GrowsTrans(s, t, SayTerminalOnce(t, conn, id));
      } else {
        var issued := Challenge(id, challenge, now + CHALLENGE_TTL);
        var u := Issue(t, issued);
        IssueKeeps(t, issued);
        GrowsTrans(s, t, u);
        PlainFramesOk(u.boots, [BootChallenge(id, challenge)]);
        SayToKeeps(u, {conn}, [BootChallenge(id, challenge)]);
        GrowsTrans(s, u, SayTo(u, {conn}, [BootChallenge(id, challenge)]));
      }
    }
  }

  lemma ResumedKeeps(s: State, conn: nat, id: string, now: Time)
    requires Inv(s) && conn in s.sockets && id in s.boots
    ensures var t := Resumed(s, conn, id, now); Inv(t) && Grows(s, t)
  {
    var boot := s.boots[id];
    var until := if boot.payloadExpiresAt.Some? then boot.payloadExpiresAt.value else now;
    var frame := if boot.status == PENDING then BootResumed(id, PENDING, boot.pendingExpiresAt)
                 else BootResumed(id, if boot.status == APPROVED then APPROVED else DELIVERED, until);
    PlainFramesOk(s.boots, [frame]);
    SayToKeeps(s, {conn}, [frame]);
    var t := SayTo(s, {conn}, [frame]);
    DeliverKeeps(t, id, {conn}, now);
    GrowsTrans(s, t, DeliverTo(t, id, {conn}, now));
  }

  lemma ProvenKeeps(s: State, conn: nat, id: string, now: Time)
    requires Inv(s) && conn in s.sockets && id in s.boots
    ensures var t := Proven(s, conn, id, now); Inv(t) && Grows(s, t)
  {
    var u := ExpireIfDue(s, id, now);
    ExpireIfDueKeeps(s, id, now);
    if IsTerminal(u.boots[id].status) {
      SayTerminalOnceKeeps(u, conn, id);
      GrowsTrans(s, u, SayTerminalOnce(u, conn, id));
    } else {
      var a := Attach(u, conn, id);
      AttachKeeps(u, conn, id);
      GrowsTrans(s, u, a);
      var b := Log(a, id, Reconnected);
      ReconnectKeeps(a, id);
      GrowsTrans(s, a, b);
      ResumedKeeps(b, conn, id, now);
      GrowsTrans(s, b, Resumed(b, conn, id, now));
    }
  }

  lemma ChallengeResponseKeeps(s: State, conn: nat, id: string, signature: Signature, token: Option<Token>, now: Time)
    requires Inv(s) && conn in s.sockets
    ensures var t := HandleChallengeResponse(s, conn, id, signature, token, now); Inv(t) && Grows(s, t)
  {
    hide Inv, Grows, FireAll, SayTo, Rearm, Proven;
    RefuseKeeps(s, conn, UNKNOWN_BOOT);
    RefuseKeeps(s, conn, PROTOCOL_ERROR);
    if id in s.boots && Outstanding(s, id) != {} {
      var t := WithoutChallenges(s, id);
      IssueKeeps(s, AnyOf(Outstanding(s, id)));
      forall code | code in {PROTOCOL_ERROR, FORBIDDEN} ensures Inv(Refuse(t, conn, code)) && Grows(s, Refuse(t, conn, code)) {
        RefuseKeeps(t, conn, code);
        GrowsTrans(s, t, Refuse(t, conn, code));
      }
      var u := Rearm(FireAll(t, {id}, Cancel(TOKEN_REVOKED), now));
      FireAndRearmKeeps(t, {id}, Cancel(TOKEN_REVOKED), now);
      GrowsTrans(s, t, u);
      RefuseKeeps(u, conn, FORBIDDEN);
      GrowsTrans(s, u, Refuse(u, conn, FORBIDDEN));
      ProvenKeeps(t, conn, id, now);
      GrowsTrans(s, t, Proven(t, conn, id, now));
    }
  }

  lemma ReceivedKeeps(s: State, conn: nat, id: string, digest: Digest, now: Time)
    requires Inv(s) && conn in s.sockets
    ensures var t := HandleReceived(s, conn, id, digest, now); Inv(t) && Grows(s, t)
  {
    hide Inv, Grows;
    forall code | code != NORMAL ensures Inv(Refuse(s, conn, code)) && Grows(s, Refuse(s, conn, code)) {
      RefuseKeeps(s, conn, code);
    }
    if id in s.boots && Fired(s.boots[id], Consume, now).Some? {
      var t := FireAll(s, {id}, Consume, now);
      FireAllKeeps(s, {id}, Consume, now);
      var frames := [BootConsumed(id), Close(NORMAL)];
      assert FrameOk(t.boots, frames[0]) && FrameOk(t.boots, frames[1]) && ClosesOk(frames);
      SayToKeeps(t, {conn}, frames);
      var u := SayTo(t, {conn}, frames);
      GrowsTrans(s, t, u);
      RearmKeeps(u);
      GrowsTrans(s, u, Rearm(u));
    }
  }

  lemma AlarmKeeps(s: State, now: Time)
    requires Inv(s)
    ensures Inv(OnAlarm(s, now)) && Grows(s, OnAlarm(s, now))
  {
    var t := s.(alarm := None);
    SelfGrows(s);
    FireAndRearmKeeps(t, DueIds(t, now), Expire, now);
    GrowsTrans(s, t, OnAlarm(s, now));
  }

  /** Every handler, whatever its inputs, keeps the invariant and only lets the state grow. */
  lemma NextKeeps(s: State, step: Step)
    requires Inv(s) && Enabled(s, step)
    ensures Inv(Next(s, step)) && Grows(s, Next(s, step))
  {
    hide Inv, Grows;
    SelfGrows(s);
    match step
    case StepConnect(conn, identity) => ConnectKeeps(s, conn, identity);
    case StepDisconnect(conn) => DisconnectKeeps(s, conn);
    case StepMalformed(conn) => RefuseKeeps(s, conn, PROTOCOL_ERROR);
    case StepHello(conn, hello, environment, summary, id, now, created) =>
      HelloKeeps(s, conn, hello, environment, summary, id, now, created);
    case StepResume(conn, id, challenge, now) => ResumeKeeps(s, conn, id, challenge, now);
    case StepChallengeResponse(conn, id, signature, token, now) =>
      ChallengeResponseKeeps(s, conn, id, signature, token, now);
    case StepReceived(conn, id, digest, now) => ReceivedKeeps(s, conn, id, digest, now);
    case StepDecline(id, reason, now) => FireAndRearmKeeps(s, {id}, Decline(reason), now);
    case StepCancel(id, reason, now) => FireAndRearmKeeps(s, {id}, Cancel(reason), now);
    case StepCancelLive(tokenId, reason, now) => FireAndRearmKeeps(s, LiveOf(s, tokenId), Cancel(reason), now);
    case StepAlarm(now) => AlarmKeeps(s, now);
  }

  lemma ConnectKeeps(s: State, conn: nat, identity: Identity)
    requires Inv(s)
    ensures Inv(Connect(s, conn, identity)) && Grows(s, Connect(s, conn, identity))
  {
    SelfGrows(s);
    assert SocketOk(s.boots, Socket(identity, None, true, []));
  }

  lemma DisconnectKeeps(s: State, conn: nat)
    requires Inv(s)
    ensures Inv(Disconnect(s, conn)) && Grows(s, Disconnect(s, conn))
  {
    SelfGrows(s);
    if conn in s.sockets {
      assert SocketOk(s.boots, s.sockets[conn]);
    }
  }
}
