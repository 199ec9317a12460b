/** The alarm, the per-source rate window and the per-token pending limit, in every reachable state. */
module BootLimits {
  import opened Ideal
  import opened Protocol
  import opened BootTables
  import opened BootInvariants
  import opened Approvals
  import opened BootRuns
  import opened ApprovalRuns

  // ------------------------------------------------------------------ the alarm

  /** Every live boot with a deadline has an alarm armed no later than it. */
  predicate AlarmOk(boots: map<string, Boot>, alarm: Option<Time>) {
    forall id :: id in boots && Live(boots[id]) && Deadline(boots[id]).Some? ==>
      alarm.Some? && alarm.value <= Deadline(boots[id]).value
  }

  /** Rearming establishes it from any state, although the alarm is only ever lowered. */
  lemma RearmEstablishes(s: State)
    ensures AlarmOk(Rearm(s).boots, Rearm(s).alarm)
  {
    var least := MinOf(Deadlines(s));
    forall id | id in s.boots && Live(s.boots[id]) && Deadline(s.boots[id]).Some?
      ensures least.Some? && least.value <= Deadline(s.boots[id]).value
    {
      assert Deadline(s.boots[id]).value in Deadlines(s);
    }
  }

  /** A change other than an approval ends a boot or keeps its deadline. */
  lemma FireAllAlarm(s: State, ids: set<string>, change: Change, now: Time)
    requires AlarmOk(s.boots, s.alarm) && !change.Approve?
    ensures AlarmOk(FireAll(s, ids, change, now).boots, FireAll(s, ids, change, now).alarm)
  {
    var t := FireAll(s, ids, change, now);
    forall id | id in t.boots && Live(t.boots[id]) && Deadline(t.boots[id]).Some?
      ensures t.alarm.Some? && t.alarm.value <= Deadline(t.boots[id]).value
    {
      assert Live(s.boots[id]) && Deadline(s.boots[id]) == Deadline(t.boots[id]);
    }
  }

  lemma SayToAlarm()
    ensures forall s, conns, frames :: SayTo(s, conns, frames).boots == s.boots && SayTo(s, conns, frames).alarm == s.alarm
  {
  }

  lemma DeliverAlarm(s: State, id: string, conns: set<nat>, now: Time)
    requires AlarmOk(s.boots, s.alarm) && id in s.boots
    ensures AlarmOk(DeliverTo(s, id, conns, now).boots, DeliverTo(s, id, conns, now).alarm)
  {
    hide FireAll, SayTo, AlarmOk;
    SayToAlarm();
    var boot := s.boots[id];
    if boot.deliveredFrame.Some? {
      FireAllAlarm(SayTo(s, conns, [BootApproved(boot.deliveredFrame.value)]), {id}, Deliver, now);
    }
  }

  lemma ProvenAlarm(s: State, conn: nat, id: string, now: Time)
    requires AlarmOk(s.boots, s.alarm) && id in s.boots && conn in s.sockets
    ensures AlarmOk(Proven(s, conn, id, now).boots, Proven(s, conn, id, now).alarm)
  {
    hide FireAll, Rearm, SayTo, AlarmOk, DeliverTo;
    SayToAlarm();
    PrimitivesKeepKeys();
    RearmEstablishes(FireAll(s, {id}, Expire, now));
    var u := ExpireIfDue(s, id, now);
    var v := Log(Attach(u, conn, id), id, Reconnected);
    var boot := v.boots[id];
    var until := if boot.payloadExpiresAt.Some? then boot.payloadExpiresAt.value else now;
    var status := if boot.status == APPROVED then APPROVED else DELIVERED;
    DeliverAlarm(SayTo(v, {conn}, [BootResumed(id, status, until)]), id, {conn}, now);
  }

  lemma ChallengeResponseAlarm(s: State, conn: nat, id: string, signature: Signature, token: Option<Token>, now: Time)
    requires AlarmOk(s.boots, s.alarm) && conn in s.sockets
    ensures var t := HandleChallengeResponse(s, conn, id, signature, token, now); AlarmOk(t.boots, t.alarm)
  {
    hide FireAll, Rearm, SayTo, AlarmOk, Proven;
    SayToAlarm();
    if id in s.boots {
      var t := WithoutChallenges(s, id);
      RearmEstablishes(FireAll(t, {id}, Cancel(TOKEN_REVOKED), now));
      ProvenAlarm(t, conn, id, now);
    }
  }

  lemma HelloAlarm(s: State, conn: nat, hello: ClientFrame, environment: Option<Environment>, summary: string, id: string,
                   now: Time, created: Time)
    requires AlarmOk(s.boots, s.alarm) && conn in s.sockets && hello.Hello?
    ensures var t := HandleHello(s, conn, hello, environment, summary, id, now, created); AlarmOk(t.boots, t.alarm)
  {
    hide FireAll, Rearm, SayTo, AlarmOk;
    SayToAlarm();
    PrimitivesKeepKeys();
    FireAllAlarm(s, DueIds(s, now), Expire, now);
    var t := ExpireDue(s, now);
    if environment.Some? {
      var boot := NewBoot(t, s.sockets[conn].identity, hello, environment.value, summary, created);
      RearmEstablishes(SayTo(Attach(Insert(t, id, boot), conn, id), {conn}, [BootPending(id, boot.pendingExpiresAt)]));
    }
  }

  /** After every handler the alarm covers every live boot. */
  lemma NextAlarm(s: State, step: Step)
    requires AlarmOk(s.boots, s.alarm) && Enabled(s, step)
    ensures AlarmOk(Next(s, step).boots, Next(s, step).alarm)
  {
    hide FireAll, Rearm, SayTo, AlarmOk, HandleHello, HandleChallengeResponse;
    SayToAlarm();
    match step
    case StepConnect(_, _) =>
    case StepDisconnect(_) =>
    case StepMalformed(_) =>
    case StepHello(conn, hello, environment, summary, id, now, created) =>
      HelloAlarm(s, conn, hello, environment, summary, id, now, created);
    case StepResume(conn, id, _, now) =>
      RearmEstablishes(FireAll(s, {id}, Expire, now));
    case StepChallengeResponse(conn, id, signature, token, now) =>
      ChallengeResponseAlarm(s, conn, id, signature, token, now);
    case StepReceived(conn, id, _, now) =>
      RearmEstablishes(SayTo(FireAll(s, {id}, Consume, now), {conn}, [BootConsumed(id), Close(NORMAL)]));
    case StepDecline(id, reason, now) => RearmEstablishes(FireAll(s, {id}, Decline(reason), now));
    case StepCancel(id, reason, now) => RearmEstablishes(FireAll(s, {id}, Cancel(reason), now));
    case StepCancelLive(tokenId, reason, now) => RearmEstablishes(FireAll(s, LiveOf(s, tokenId), Cancel(reason), now));
    case StepAlarm(now) => RearmEstablishes(ExpireDue(s.(alarm := None), now));
  }

  lemma GoAlarm(w: World, move: Move)
    requires AlarmOk(w.core.boots, w.core.alarm) && MoveEnabled(w, move)
    ensures AlarmOk(Go(w, move).core.boots, Go(w, move).core.alarm)
  {
    hide FireAll, Rearm, Next, Enabled, DeliverTo, AlarmOk;
    match move
    case Handle(step) => NextAlarm(w.core, step);
    case BeginCall(k, input, _, now) => RearmEstablishes(FireAll(w.core, {input.bootId}, Expire, now));
    case CommitCall(k, token, now) => CommitAlarm(w.core, w.calls[k].input, w.calls[k].completing.value, w.calls[k].stage, token, now);
    case _ =>
  }

  lemma CommitAlarm(s: State, input: ApproveInput, completion: Completion, stage: Stage, token: Option<Token>, now: Time)
    requires AlarmOk(s.boots, s.alarm) && stage.Ready?
    ensures var t := Commit(s, input, completion, stage, token, now); AlarmOk(t.boots, t.alarm)
  {
    hide FireAll, Rearm, DeliverTo;
    PrimitivesKeepKeys();
    if MayCommit(s, input, stage, token, now) {
      var id := input.bootId;
      var t := FireAll(s, {id}, Approve(stage.payload, stage.summary), now)
                 .(contexts := map c | c in s.contexts && s.contexts[c].bootId != id :: s.contexts[c],
                   approvals := s.approvals[id := ApprovalFor(input, completion, stage, now)]);
      RearmEstablishes(DeliverTo(t, id, AttachedTo(t.sockets, id), now));
    }
  }

  /** In every reachable state a live boot has a deadline and an alarm at or before it. */
  lemma {:induction false} ReachableAlarm(w: World, moves: seq<Move>, end: World)
    requires WorldInv(w) && AlarmOk(w.core.boots, w.core.alarm) && Runs(w, moves, end)
    ensures forall id :: id in end.core.boots && Live(end.core.boots[id]) ==>
              && Deadline(end.core.boots[id]).Some? && end.core.alarm.Some?
              && end.core.alarm.value <= Deadline(end.core.boots[id]).value
    decreases |moves|
  {
    hide Go, MoveEnabled;
    if moves == [] {
      forall id | id in w.core.boots && Live(w.core.boots[id]) ensures Deadline(w.core.boots[id]).Some? {
        assert BootOk(id, w.core.boots[id], w.core.index[id], w.core.audit[id]);
      }
    } else {
      GoKeeps(w, moves[0]);
      GoAlarm(w, moves[0]);
      ReachableAlarm(Go(w, moves[0]), moves[1..], end);
    }
  }

  /** Once the alarm handler returns, no live boot has a deadline at or before now. */
  lemma AlarmLeavesNothingDue(s: State, now: Time)
    ensures forall id :: id in OnAlarm(s, now).boots ==> !Due(OnAlarm(s, now).boots[id], now)
  {
    var a := s.(alarm := None);
    var t := OnAlarm(s, now);
    forall id | id in t.boots ensures !Due(t.boots[id], now) {
      if Due(s.boots[id], now) {
        assert Fires(a, DueIds(a, now), Expire, now, id);
      }
    }
  }

  // ------------------------------------------------------------------ counting boots

  lemma SubsetCount<T>(a: set<T>, b: set<T>)
    requires a <= b
    ensures |a| <= |b|
  {
    if a != {} {
      var x := AnyOf(a);
      SubsetCount(a - {x}, b - {x});
    }
  }

  /** Ten boots at most in the half-open window of sixty seconds after `start`. */
  ghost predicate WindowOk(s: State, sourceIp: string, start: Time) {
    |FromSource(s, sourceIp, start, Some(start + RATE_WINDOW))| <= MAX_BOOTS_PER_SOURCE
  }

  ghost predicate RateOk(s: State) {
    forall sourceIp, start :: sourceIp != "" ==> WindowOk(s, sourceIp, start)
  }

  /** No boot added: the windows are the same and the pending sets shrink. */
  lemma SettledCounts(s: State, t: State)
    requires BootsGrow(s.boots, t.boots) && t.boots.Keys == s.boots.Keys
    ensures forall ip, after, until :: FromSource(t, ip, after, until) == FromSource(s, ip, after, until)
    ensures forall token :: PendingOf(t, token) <= PendingOf(s, token)
    ensures RateOk(s) ==> RateOk(t)
  {
    forall ip, after, until ensures FromSource(t, ip, after, until) == FromSource(s, ip, after, until) {
      forall id | id in s.boots
        ensures t.boots[id].sourceIp == s.boots[id].sourceIp && t.boots[id].createdAt == s.boots[id].createdAt
      {
        assert Evolved(s.boots[id], t.boots[id]);
      }
    }
    forall token ensures PendingOf(t, token) <= PendingOf(s, token) {
      forall id | id in PendingOf(t, token) ensures id in PendingOf(s, token) {
        assert Evolved(s.boots[id], t.boots[id]);
      }
    }
    if RateOk(s) {
      forall sourceIp, start | sourceIp != "" ensures WindowOk(t, sourceIp, start) {
        assert WindowOk(s, sourceIp, start);
      }
    }
  }

  /** Admission under the window count keeps every window full at ten, wherever it starts. */
  lemma InsertRate(s: State, id: string, boot: Boot, now: Time)
    requires RateOk(s) && id !in s.boots && now <= boot.createdAt
    requires boot.sourceIp.Some? ==>
               |FromSource(s, boot.sourceIp.value, now - RATE_WINDOW, None)| < MAX_BOOTS_PER_SOURCE
    ensures RateOk(Insert(s, id, boot))
  {
    var t := Insert(s, id, boot);
    forall sourceIp, start | sourceIp != "" ensures WindowOk(t, sourceIp, start) {
      var end := Some(start + RATE_WINDOW);
      assert WindowOk(s, sourceIp, start);
      if boot.sourceIp == Some(sourceIp) && start < boot.createdAt <= start + RATE_WINDOW {
        assert FromSource(t, sourceIp, start, end) == FromSource(s, sourceIp, start, end) + {id};
        SubsetCount(FromSource(s, sourceIp, start, end), FromSource(s, sourceIp, now - RATE_WINDOW, None));
      } else {
        assert FromSource(t, sourceIp, start, end) == FromSource(s, sourceIp, start, end);
      }
    }
  }

  /** Where a handler may add a boot: only boot.hello, under both limits. */
  ghost predicate Admitted(s: State, step: Step, t: State) {
    || t.boots.Keys == s.boots.Keys
    || (step.StepHello? && step.conn in s.sockets && step.hello.Hello? && step.environment.Some? &&
        var u := ExpireDue(s, step.now);
        var identity := s.sockets[step.conn].identity;
        var boot := NewBoot(u, identity, step.hello, step.environment.value, step.summary, step.created);
        && step.id !in u.boots && t.boots == Insert(u, step.id, boot).boots
        && |PendingOf(u, identity.tokenId)| < Limit(identity)
        && (boot.sourceIp.Some? ==>
              |FromSource(u, boot.sourceIp.value, step.now - RATE_WINDOW, None)| < MAX_BOOTS_PER_SOURCE))
  }

  lemma HelloAdmits(s: State, conn: nat, hello: ClientFrame, environment: Option<Environment>, summary: string, id: string,
                    now: Time, created: Time)
    requires conn in s.sockets && hello.Hello?
    ensures Admitted(s, StepHello(conn, hello, environment, summary, id, now, created),
                     HandleHello(s, conn, hello, environment, summary, id, now, created))
  {
    hide FireAll, Rearm, SayTo, PendingOf, FromSource;
    PrimitivesKeepKeys();
  }

  lemma NextAdmits(s: State, step: Step)
    requires Enabled(s, step)
    ensures Admitted(s, step, Next(s, step))
  {
    if step.StepHello? {
      hide HandleHello, Admitted;
      HelloAdmits(s, step.conn, step.hello, step.environment, step.summary, step.id, step.now, step.created);
    } else {
      hide Next;
      NextKeepsKeys(s, step);
    }
  }

  lemma MoveKeepsKeys(w: World, move: Move)
    requires WorldInv(w) && MoveEnabled(w, move) && !move.Handle?
    ensures Go(w, move).core.boots.Keys == w.core.boots.Keys && Go(w, move).core.sockets.Keys == w.core.sockets.Keys
  {
    hide FireAll, Rearm, SayTo, WorldInv;
    PrimitivesKeepKeys();
  }

  /** The runs in which every connection of one token carries the same limit. */
  predicate FixedLimit(moves: seq<Move>, token: string, limit: int) {
    forall i :: 0 <= i < |moves| ==> ConnectsAt(moves[i], token, limit)
  }

  predicate ConnectsAt(move: Move, token: string, limit: int) {
    move.Handle? && move.step.StepConnect? && move.step.identity.tokenId == token ==> Limit(move.step.identity) == limit
  }

  predicate SocketsAtLimit(s: State, token: string, limit: int) {
    forall c :: c in s.sockets && s.sockets[c].identity.tokenId == token ==> Limit(s.sockets[c].identity) == limit
  }

  /** One move keeps the rate limit and a token's pending limit. */
  lemma GoLimits(w: World, move: Move, token: string, limit: int)
    requires WorldInv(w) && MoveEnabled(w, move) && RateOk(w.core)
    requires SocketsAtLimit(w.core, token, limit)
    requires |PendingOf(w.core, token)| <= limit
    ensures RateOk(Go(w, move).core) && |PendingOf(Go(w, move).core, token)| <= limit
  {
    hide WorldInv, Inv, Go, Next, RateOk, PendingOf, FromSource, SocketsGrow, IndexGrows, AuditGrows, Admitted, SocketsAtLimit;
    var s, t := w.core, Go(w, move).core;
    GoKeeps(w, move);
    if move.Handle? {
      HandleIsNext(w, move.step);
      NextAdmits(s, move.step);
    } else {
      MoveKeepsKeys(w, move);
    }
    if t.boots.Keys == s.boots.Keys {
      SettledCounts(s, t);
      SubsetCount(PendingOf(t, token), PendingOf(s, token));
    } else {
      AdmittedLimits(w, move.step, t, token, limit);
    }
  }

  lemma HandleIsNext(w: World, step: Step)
    requires MoveEnabled(w, Handle(step))
    ensures Enabled(w.core, step) && Go(w, Handle(step)).core == Next(w.core, step)
  {
  }

  lemma InsertPending(s: State, id: string, boot: Boot, token: string)
    requires id !in s.boots && boot.status == PENDING
    ensures |PendingOf(Insert(s, id, boot), token)| == |PendingOf(s, token)| + if boot.tokenId == token then 1 else 0
  {
    var t := Insert(s, id, boot);
    assert PendingOf(t, token) == PendingOf(s, token) + (if boot.tokenId == token then {id} else {});
  }

  lemma ExpiredFirst(s: State, now: Time, token: string)
    requires Inv(s)
    ensures var t := ExpireDue(s, now); (RateOk(s) ==> RateOk(t)) && |PendingOf(t, token)| <= |PendingOf(s, token)|
  {
    hide Inv, RateOk, PendingOf, FireAll;
    PrimitivesKeepKeys();
    FireAllKeeps(s, DueIds(s, now), Expire, now);
    var t := ExpireDue(s, now);
    SettledCounts(s, t);
    SubsetCount(PendingOf(t, token), PendingOf(s, token));
  }

  lemma AdmittedLimits(w: World, step: Step, t: State, token: string, limit: int)
    requires WorldInv(w) && Enabled(w.core, step) && RateOk(w.core)
    requires Admitted(w.core, step, t) && t.boots.Keys != w.core.boots.Keys
    requires SocketsAtLimit(w.core, token, limit)
    requires |PendingOf(w.core, token)| <= limit
    ensures RateOk(t) && |PendingOf(t, token)| <= limit
  {
    hide Inv, RateOk, PendingOf, FromSource, ExpireDue, Insert;
    ExpiredFirst(w.core, step.now, token);
    var u := ExpireDue(w.core, step.now);
    var identity := w.core.sockets[step.conn].identity;
    var boot := NewBoot(u, identity, step.hello, step.environment.value, step.summary, step.created);
    InsertRate(u, step.id, boot, step.now);
    InsertPending(u, step.id, boot, token);
    SameBootsSameCounts(Insert(u, step.id, boot), t, token);
  }

  lemma SameBootsSameCounts(s: State, t: State, token: string)
    requires t.boots == s.boots
    ensures PendingOf(t, token) == PendingOf(s, token) && (RateOk(s) ==> RateOk(t))
  {
    if RateOk(s) {
      forall ip, start | ip != "" ensures WindowOk(t, ip, start) {
        assert WindowOk(s, ip, start);
        assert FromSource(t, ip, start, Some(start + RATE_WINDOW)) == FromSource(s, ip, start, Some(start + RATE_WINDOW));
      }
    }
  }

  lemma GoIdentities(w: World, move: Move, token: string, limit: int)
    requires WorldInv(w) && MoveEnabled(w, move) && SocketsAtLimit(w.core, token, limit) && ConnectsAt(move, token, limit)
    ensures SocketsAtLimit(Go(w, move).core, token, limit)
  {
    hide WorldInv, Go, Next, Connect;
    var s, t := w.core, Go(w, move).core;
    GoKeeps(w, move);
    SameSockets(w, move);
    if t.sockets.Keys != s.sockets.Keys {
      ConnectedIdentity(s, move.step.conn, move.step.identity);
    }
  }

  lemma ConnectedIdentity(s: State, conn: nat, identity: Identity)
    requires conn !in s.sockets
    ensures Connect(s, conn, identity).sockets == s.sockets[conn := Socket(identity, None, true, [])]
  {
  }

  /** Only a new connection adds a socket. */
  lemma SameSockets(w: World, move: Move)
    requires WorldInv(w) && MoveEnabled(w, move)
    ensures var t := Go(w, move).core;
            || t.sockets.Keys == w.core.sockets.Keys
            || (move.Handle? && move.step.StepConnect? && move.step.conn !in w.core.sockets
                && t == Connect(w.core, move.step.conn, move.step.identity))
  {
    hide WorldInv;
    if move.Handle? {
      hide HandleHello, HandleChallengeResponse, HandleResume, HandleReceived;
      NextKeepsKeys(w.core, move.step);
    } else {
      MoveKeepsKeys(w, move);
    }
  }

  /** Every reachable state: no source over ten boots in any window, no token over its limit. */
  lemma {:induction false} ReachableLimits(w: World, moves: seq<Move>, end: World, token: string, limit: int)
    requires WorldInv(w) && RateOk(w.core) && |PendingOf(w.core, token)| <= limit
    requires SocketsAtLimit(w.core, token, limit) && FixedLimit(moves, token, limit) && Runs(w, moves, end)
    ensures RateOk(end.core) && |PendingOf(end.core, token)| <= limit
    decreases |moves|
  {
    hide WorldInv, Go, MoveEnabled, RateOk;
    if moves != [] {
      GoKeeps(w, moves[0]);
      GoLimits(w, moves[0], token, limit);
      assert ConnectsAt(moves[0], token, limit);
      GoIdentities(w, moves[0], token, limit);
      ReachableLimits(Go(w, moves[0]), moves[1..], end, token, limit);
    }
  }
}
