/** What every handler keeps: row consistency, the mirrored index, the replayable audit log, the frames
    ever sent, and the growth relation between the states before and after. */
module BootInvariants {
  import opened Ideal
  import opened Protocol
  import opened BootTables

  // ------------------------------------------------------------------ one boot

  /** The columns of one row agree with its status. */
  predicate RowOk(id: string, b: Boot) {
    && (b.deliveredFrame.Some? <==> b.status in {APPROVED, DELIVERED})
    && (b.deliveredFrame.Some? ==> b.payloadDigest == Some(OfFrame(b.deliveredFrame.value)))
    && (b.payloadDigest.Some? <==> b.approvedAt.Some?)
    && (b.payloadDigest.Some? <==> b.payloadExpiresAt.Some?)
    && (b.status in {PENDING, DECLINED} ==> b.payloadDigest.None?)
    && (b.status in {APPROVED, DELIVERED, CONSUMED} ==> b.payloadDigest.Some?)
    && (b.payloadDigest.Some? ==> b.payloadDigest.value.OfFrame? && b.payloadDigest.value.frame.bootId == id)
    && (b.consumedAt.Some? <==> b.status == CONSUMED)
    && (b.terminalReason.Some? <==> b.status in {DECLINED, EXPIRED, CANCELED})
  }

  /** The mirrored row carries the status, and exactly the stamps of the steps taken. */
  predicate IndexOk(row: IndexRow, b: Boot) {
    && row.status == b.status
    && (row.approvedAt.Some? <==> b.approvedAt.Some?)
    && (row.declinedAt.Some? <==> b.status == DECLINED)
    && (row.deliveredAt.Some? ==> b.status in {DELIVERED, CONSUMED, EXPIRED})
    && (b.status in {DELIVERED, CONSUMED} ==> row.deliveredAt.Some?)
    && (row.consumedAt.Some? <==> b.status == CONSUMED)
    && (row.expiredAt.Some? <==> b.status == EXPIRED)
    && (row.canceledAt.Some? <==> b.status == CANCELED)
  }

  function ReplayedEvent(from: Status, entry: Audit): Option<Event> {
    match entry
    case Requested => None
    case Reconnected => None
    case AuditApproved => Some(ApproveEvent)
    case AuditDelivered(redelivery) => Some(if redelivery then RedeliverEvent else DeliverEvent)
    case AuditConsumed => Some(ConsumeEvent)
    case AuditExpired => Some(if from == PENDING then ExpirePendingEvent else ExpirePayloadEvent)
    case AuditDeclined => Some(DeclineEvent)
    case AuditCanceled => Some(CancelEvent)
  }

  /** The status an audit log tells, by the transition table alone; None when the log makes no sense. */
  function Replay(log: seq<Audit>): Option<Status> {
    if log == [] then None
    else
      var before, last := Replay(log[..|log| - 1]), log[|log| - 1];
      if last.Requested? then if |log| == 1 then Some(PENDING) else None
      else if before.None? || last.Reconnected? then before
      else Transition(before.value, ReplayedEvent(before.value, last).value)
  }

  predicate BootOk(id: string, b: Boot, row: IndexRow, log: seq<Audit>) {
    RowOk(id, b) && IndexOk(row, b) && Replay(log) == Some(b.status)
  }

  /** What a later row may differ in: a finished boot in nothing, a digest once set never. */
  predicate Evolved(b: Boot, after: Boot) {
    && after.tokenId == b.tokenId && after.sourceIp == b.sourceIp && after.createdAt == b.createdAt
    && after.environmentId == b.environmentId && after.projectId == b.projectId
    && after.signingKey == b.signingKey && after.encryptionKey == b.encryptionKey
    && after.pendingExpiresAt == b.pendingExpiresAt
    && (IsTerminal(b.status) ==> after == b)
    && (b.payloadDigest.Some? ==> after.payloadDigest == b.payloadDigest && after.approvedAt == b.approvedAt
                                  && after.payloadExpiresAt == b.payloadExpiresAt && after.summary == b.summary)
    && (b.status != PENDING ==> after.status != PENDING)
    && (b.status != PENDING && b.payloadDigest.None? ==> after.payloadDigest.None?)
  }

  /** Each lifecycle stamp is written at most once. */
  predicate StampsKept(row: IndexRow, after: IndexRow) {
    && (row.approvedAt.Some? ==> after.approvedAt == row.approvedAt)
    && (row.declinedAt.Some? ==> after.declinedAt == row.declinedAt)
    && (row.deliveredAt.Some? ==> after.deliveredAt == row.deliveredAt)
    && (row.consumedAt.Some? ==> after.consumedAt == row.consumedAt)
    && (row.expiredAt.Some? ==> after.expiredAt == row.expiredAt)
    && (row.canceledAt.Some? ==> after.canceledAt == row.canceledAt)
  }

  lemma FiredKeepsBoot(id: string, b: Boot, row: IndexRow, log: seq<Audit>, change: Change, now: Time)
    requires BootOk(id, b, row, log) && Fired(b, change, now).Some?
    requires change.Approve? ==> change.payload.bootId == id
    ensures var after := Fired(b, change, now).value;
            var mirrored := Mirrored(row, b.status, after.status, change, now);
            && BootOk(id, after, mirrored, log + [AuditOf(b.status, change)])
            && Evolved(b, after) && StampsKept(row, mirrored)
  {
    var entry := AuditOf(b.status, change);
    assert (log + [entry])[..|log + [entry]| - 1] == log;
    assert ReplayedEvent(b.status, entry) == Some(EventFor(b.status, change));
    assert Replay(log + [entry]) == Transition(b.status, EventFor(b.status, change));
  }

  lemma ReplayIgnoresReconnects(log: seq<Audit>)
    requires log != []
    ensures Replay(log + [Reconnected]) == Replay(log)
  {
    assert (log + [Reconnected])[..|log + [Reconnected]| - 1] == log;
  }

  // ------------------------------------------------------------------ the whole state

  /** What a frame says of a boot is so: its payload, that it was consumed, and how it ended and why. */
  predicate FrameOk(boots: map<string, Boot>, f: ServerFrame) {
    && (f.BootApproved? ==> f.payload.bootId in boots && boots[f.payload.bootId].payloadDigest == Some(OfFrame(f.payload)))
    && (f.BootConsumed? ==> f.bootId in boots && boots[f.bootId].status == CONSUMED)
    && (f.BootDeclined? ==> f.bootId in boots && boots[f.bootId].status == DECLINED
                            && (f.reason.Some? ==> f.reason == boots[f.bootId].terminalReason)
                            && (f.reason.None? ==> boots[f.bootId].terminalReason in {None, Some("")}))
    && (f.BootExpired? ==> f.bootId in boots && boots[f.bootId].status == EXPIRED)
    && (f.BootCanceled? ==> f.bootId in boots && boots[f.bootId].status == CANCELED
                            && boots[f.bootId].terminalReason in {None, Some(""), Some(f.cause)})
  }

  /** Frames that say nothing of how a boot fares. */
  predicate Plain(f: ServerFrame) {
    !f.BootApproved? && !f.BootConsumed? && !f.BootDeclined? && !f.BootExpired? && !f.BootCanceled? && f != Close(NORMAL)
  }

  /** The closing 1000 only ever follows boot.consumed. */
  predicate ClosesOk(sent: seq<ServerFrame>) {
    forall i :: 0 <= i < |sent| && sent[i] == Close(NORMAL) ==> i > 0 && sent[i - 1].BootConsumed?
  }

  predicate SocketOk(boots: map<string, Boot>, socket: Socket) {
    && (socket.attached.Some? ==> socket.attached.value in boots)
    && (forall f :: f in socket.sent ==> FrameOk(boots, f))
    && ClosesOk(socket.sent)
  }

  predicate BootsOk(boots: map<string, Boot>, index: map<string, IndexRow>, audit: map<string, seq<Audit>>) {
    && index.Keys == boots.Keys && audit.Keys == boots.Keys
    && forall id :: id in boots ==> BootOk(id, boots[id], index[id], audit[id])
  }

  predicate SocketsOk(boots: map<string, Boot>, sockets: map<nat, Socket>) {
    forall c :: c in sockets ==> SocketOk(boots, sockets[c])
  }

  predicate ApprovalsOk(boots: map<string, Boot>, approvals: map<string, Approval>) {
    approvals.Keys == set id | id in boots && boots[id].payloadDigest.Some?
  }

  predicate ContextOk(boots: map<string, Boot>, id: string, context: Context) {
    && context.request.contextId == id && context.contextDigest == OfRequest(context.request)
    && context.request.bootId == context.bootId && context.bootId in boots
    && context.expiresAt == context.request.expiresAt
  }

  predicate ContextsOk(boots: map<string, Boot>, contexts: map<string, Context>) {
    forall c :: c in contexts ==> ContextOk(boots, c, contexts[c])
  }

  predicate ChallengesOk(challenges: set<Challenge>) {
    forall a, b :: a in challenges && b in challenges && a.bootId == b.bootId ==> a == b
  }

  predicate Inv(s: State) {
    && BootsOk(s.boots, s.index, s.audit) && SocketsOk(s.boots, s.sockets) && ApprovalsOk(s.boots, s.approvals)
    && ContextsOk(s.boots, s.contexts) && ChallengesOk(s.challenges)
  }

  predicate BootsGrow(before: map<string, Boot>, after: map<string, Boot>) {
    forall id :: id in before ==> id in after && Evolved(before[id], after[id])
  }

  predicate IndexGrows(before: map<string, IndexRow>, after: map<string, IndexRow>) {
    forall id :: id in before ==> id in after && StampsKept(before[id], after[id])
  }

  predicate AuditGrows(before: map<string, seq<Audit>>, after: map<string, seq<Audit>>) {
    forall id :: id in before ==> id in after && before[id] <= after[id]
  }

  predicate ApprovalsGrow(before: map<string, Approval>, after: map<string, Approval>) {
    forall id :: id in before ==> id in after && after[id] == before[id]
  }

  predicate SocketsGrow(before: map<nat, Socket>, after: map<nat, Socket>) {
    forall c :: c in before ==> c in after && after[c].identity == before[c].identity && before[c].sent <= after[c].sent
  }

  /** How a state may develop: nothing recorded disappears and each row evolves. */
  predicate Grows(s: State, t: State) {
    && t.environmentId == s.environmentId && BootsGrow(s.boots, t.boots) && IndexGrows(s.index, t.index)
    && AuditGrows(s.audit, t.audit) && ApprovalsGrow(s.approvals, t.approvals) && SocketsGrow(s.sockets, t.sockets)
  }

  lemma BootsGrowTrans(a: map<string, Boot>, b: map<string, Boot>, c: map<string, Boot>)
    requires BootsGrow(a, b) && BootsGrow(b, c)
    ensures BootsGrow(a, c)
  {
    forall id | id in a ensures id in c && Evolved(a[id], c[id]) {
      assert Evolved(a[id], b[id]) && Evolved(b[id], c[id]);
    }
  }

  lemma IndexGrowsTrans(a: map<string, IndexRow>, b: map<string, IndexRow>, c: map<string, IndexRow>)
    requires IndexGrows(a, b) && IndexGrows(b, c)
    ensures IndexGrows(a, c)
  {
    forall id | id in a ensures id in c && StampsKept(a[id], c[id]) {
      assert StampsKept(a[id], b[id]) && StampsKept(b[id], c[id]);
    }
  }

  lemma GrowsTrans(s: State, t: State, u: State)
    requires Grows(s, t) && Grows(t, u)
    ensures Grows(s, u)
  {
    BootsGrowTrans(s.boots, t.boots, u.boots);
    IndexGrowsTrans(s.index, t.index, u.index);
  }

  lemma GrowsKeys(s: State, t: State)
    requires Grows(s, t)
    ensures s.boots.Keys <= t.boots.Keys && s.sockets.Keys <= t.sockets.Keys
  {
  }

  // ------------------------------------------------------------------ sockets over growing boots

  lemma FrameStillOk(before: map<string, Boot>, after: map<string, Boot>, f: ServerFrame)
    requires FrameOk(before, f) && BootsGrow(before, after)
    ensures FrameOk(after, f)
  {
    if f.BootApproved? {
      assert Evolved(before[f.payload.bootId], after[f.payload.bootId]);
    } else if f.BootConsumed? || f.BootDeclined? || f.BootExpired? || f.BootCanceled? {
      assert Evolved(before[f.bootId], after[f.bootId]);
    }
  }

  lemma SocketStillOk(before: map<string, Boot>, after: map<string, Boot>, socket: Socket)
    requires SocketOk(before, socket) && BootsGrow(before, after)
    ensures SocketOk(after, socket)
  {
    forall f | f in socket.sent ensures FrameOk(after, f) {
      FrameStillOk(before, after, f);
    }
  }

  lemma SocketsStillOk(before: map<string, Boot>, after: map<string, Boot>, sockets: map<nat, Socket>)
    requires SocketsOk(before, sockets) && BootsGrow(before, after)
    ensures SocketsOk(after, sockets)
  {
    forall c | c in sockets ensures SocketOk(after, sockets[c]) {
      SocketStillOk(before, after, sockets[c]);
    }
  }

  /** Frames worth appending: true of the boots, and no 1000 without boot.consumed before it. */
  predicate FramesOk(boots: map<string, Boot>, frames: seq<ServerFrame>) {
    (forall f :: f in frames ==> FrameOk(boots, f)) && ClosesOk(frames)
  }

  lemma AppendOk(boots: map<string, Boot>, socket: Socket, frames: seq<ServerFrame>)
    requires SocketOk(boots, socket) && FramesOk(boots, frames)
    ensures SocketOk(boots, socket.(sent := socket.sent + frames))
  {
    var sent := socket.sent + frames;
    forall i | 0 <= i < |sent| && sent[i] == Close(NORMAL) ensures i > 0 && sent[i - 1].BootConsumed? {
      if i >= |socket.sent| {
        assert frames[i - |socket.sent|] == Close(NORMAL);
        assert sent[i - 1] == frames[i - |socket.sent| - 1];
      }
    }
  }

  lemma ContextsStillOk(before: map<string, Boot>, after: map<string, Boot>, contexts: map<string, Context>)
    requires ContextsOk(before, contexts) && BootsGrow(before, after)
    ensures ContextsOk(after, contexts)
  {
    forall c | c in contexts ensures ContextOk(after, c, contexts[c]) {
      assert ContextOk(before, c, contexts[c]);
    }
  }

  // ------------------------------------------------------------------ the primitives keep it

  lemma FireAllAt(s: State, ids: set<string>, change: Change, now: Time, id: string)
    requires id in s.boots && id in s.index && id in s.audit
    requires BootOk(id, s.boots[id], s.index[id], s.audit[id])
    requires change.Approve? ==> ids <= {change.payload.bootId}
    ensures var t := FireAll(s, ids, change, now);
            && BootOk(id, t.boots[id], t.index[id], t.audit[id])
            && Evolved(s.boots[id], t.boots[id]) && StampsKept(s.index[id], t.index[id]) && s.audit[id] <= t.audit[id]
  {
    if Fires(s, ids, change, now, id) {
      FiredKeepsBoot(id, s.boots[id], s.index[id], s.audit[id], change, now);
    }
  }

  lemma FireAllRows(s: State, ids: set<string>, change: Change, now: Time)
    requires BootsOk(s.boots, s.index, s.audit)
    requires change.Approve? ==> ids <= {change.payload.bootId}
    ensures var t := FireAll(s, ids, change, now);
            && BootsOk(t.boots, t.index, t.audit) && BootsGrow(s.boots, t.boots) && IndexGrows(s.index, t.index)
            && AuditGrows(s.audit, t.audit)
  {
    var t := FireAll(s, ids, change, now);
    forall id | id in s.boots
      ensures BootOk(id, t.boots[id], t.index[id], t.audit[id])
      ensures Evolved(s.boots[id], t.boots[id]) && StampsKept(s.index[id], t.index[id]) && s.audit[id] <= t.audit[id]
    {
      FireAllAt(s, ids, change, now, id);
    }
  }

  lemma TerminalFramesOk(boots: map<string, Boot>, id: string)
    requires id in boots
    ensures FramesOk(boots, TerminalFrames(id, boots[id]))
  {
    var frames := TerminalFrames(id, boots[id]);
    assert frames[0] != Close(NORMAL) && frames[1] != Close(NORMAL);
  }

  lemma NotifiedOk(s: State, ids: set<string>, change: Change, now: Time, socket: Socket)
    requires SocketOk(s.boots, socket) && BootsGrow(s.boots, FireAll(s, ids, change, now).boots)
    ensures SocketOk(FireAll(s, ids, change, now).boots, Notified(s, ids, change, now, socket))
  {
    hide Mirrored, AuditOf;
    var t := FireAll(s, ids, change, now);
    SocketStillOk(s.boots, t.boots, socket);
    if Notified(s, ids, change, now, socket) != socket {
      var id := socket.attached.value;
      assert t.boots[id] == Fired(s.boots[id], change, now).value;
      TerminalFramesOk(t.boots, id);
      AppendOk(t.boots, socket, TerminalFrames(id, t.boots[id]));
    }
  }

  lemma FireAllSockets(s: State, ids: set<string>, change: Change, now: Time)
    requires SocketsOk(s.boots, s.sockets) && BootsGrow(s.boots, FireAll(s, ids, change, now).boots)
    ensures var t := FireAll(s, ids, change, now); SocketsOk(t.boots, t.sockets) && SocketsGrow(s.sockets, t.sockets)
  {
    hide Fires, Fired, Mirrored, AuditOf, TerminalFrames, BootsGrow, SocketOk;
    var t := FireAll(s, ids, change, now);
    forall c | c in t.sockets ensures SocketOk(t.boots, t.sockets[c]) {
      NotifiedOk(s, ids, change, now, s.sockets[c]);
    }
  }

  /** A payload digest appears by approval alone. */
  lemma FireAllDigests(s: State, ids: set<string>, change: Change, now: Time)
    requires !change.Approve?
    ensures var t := FireAll(s, ids, change, now);
            forall id :: id in s.boots ==> t.boots[id].payloadDigest == s.boots[id].payloadDigest
  {
  }

  lemma FireAllKeeps(s: State, ids: set<string>, change: Change, now: Time)
    requires Inv(s) && !change.Approve?
    ensures var t := FireAll(s, ids, change, now); Inv(t) && Grows(s, t)
  {
    hide BootsOk, SocketsOk, BootsGrow, IndexGrows, AuditGrows, SocketsGrow, ContextsOk, Fires, Notified, Mirrored;
    var t := FireAll(s, ids, change, now);
    FireAllRows(s, ids, change, now);
    FireAllSockets(s, ids, change, now);
    FireAllDigests(s, ids, change, now);
    ContextsStillOk(s.boots, t.boots, s.contexts);
    assert ApprovalsOk(t.boots, t.approvals);
  }

  lemma SelfGrows(s: State)
    ensures Grows(s, s)
  {
  }

  lemma SayToKeeps(s: State, conns: set<nat>, frames: seq<ServerFrame>)
    requires Inv(s) && FramesOk(s.boots, frames)
    ensures Inv(SayTo(s, conns, frames)) && Grows(s, SayTo(s, conns, frames))
  {
    var t := SayTo(s, conns, frames);
    SelfGrows(s);
    forall c | c in t.sockets ensures SocketOk(t.boots, t.sockets[c]) {
      AppendOk(s.boots, s.sockets[c], frames);
    }
  }

  lemma PlainFramesOk(boots: map<string, Boot>, frames: seq<ServerFrame>)
    requires forall f :: f in frames ==> Plain(f)
    ensures FramesOk(boots, frames)
  {
    forall i | 0 <= i < |frames| ensures frames[i] != Close(NORMAL) {
      assert frames[i] in frames;
    }
  }

  lemma RefuseKeeps(s: State, conn: nat, code: CloseCode)
    requires Inv(s) && code != NORMAL
    ensures Inv(Refuse(s, conn, code)) && Grows(s, Refuse(s, conn, code))
  {
    PlainFramesOk(s.boots, [BootError(code), Close(code)]);
    SayToKeeps(s, {conn}, [BootError(code), Close(code)]);
  }

  lemma RearmKeeps(s: State)
    requires Inv(s)
    ensures Inv(Rearm(s)) && Grows(s, Rearm(s))
  {
    SelfGrows(s);
  }

  lemma IssueKeeps(s: State, challenge: Challenge)
    requires Inv(s)
    ensures Inv(Issue(s, challenge)) && Grows(s, Issue(s, challenge))
    ensures Inv(WithoutChallenges(s, challenge.bootId)) && Grows(s, WithoutChallenges(s, challenge.bootId))
  {
    SelfGrows(s);
  }

  lemma AttachKeeps(s: State, conn: nat, id: string)
    requires Inv(s) && conn in s.sockets && id in s.boots
    ensures Inv(Attach(s, conn, id)) && Grows(s, Attach(s, conn, id))
  {
    SelfGrows(s);
    var t := Attach(s, conn, id);
    forall c | c in t.sockets ensures SocketOk(t.boots, t.sockets[c]) {
      assert SocketOk(s.boots, s.sockets[c]);
    }
  }

  lemma ReconnectKeeps(s: State, id: string)
    requires Inv(s) && id in s.boots
    ensures Inv(Log(s, id, Reconnected)) && Grows(s, Log(s, id, Reconnected))
  {
    SelfGrows(s);
    var t := Log(s, id, Reconnected);
    assert BootOk(id, s.boots[id], s.index[id], s.audit[id]);
    ReplayIgnoresReconnects(s.audit[id]);
    forall other | other in t.boots ensures BootOk(other, t.boots[other], t.index[other], t.audit[other]) {
      assert BootOk(other, s.boots[other], s.index[other], s.audit[other]);
    }
  }

  lemma NewBootOk(id: string, boot: Boot)
    requires boot.status == PENDING && RowOk(id, boot)
    ensures BootOk(id, boot, IndexRow(PENDING, None, None, None, None, None, None), [Requested])
  {
    assert Replay([Requested]) == Some(PENDING);
  }

  lemma InsertRows(s: State, id: string, boot: Boot)
    requires BootsOk(s.boots, s.index, s.audit) && id !in s.boots && boot.status == PENDING && RowOk(id, boot)
    ensures var t := Insert(s, id, boot);
            && BootsOk(t.boots, t.index, t.audit) && BootsGrow(s.boots, t.boots) && IndexGrows(s.index, t.index)
            && AuditGrows(s.audit, t.audit)
  {
    hide BootOk, Evolved, StampsKept;
    var t := Insert(s, id, boot);
    NewBootOk(id, boot);
    assert t.index.Keys == t.boots.Keys && t.audit.Keys == t.boots.Keys;
    forall other | other in s.boots
      ensures BootOk(other, t.boots[other], t.index[other], t.audit[other]) && Evolved(s.boots[other], t.boots[other])
      ensures StampsKept(s.index[other], t.index[other])
    {
      assert BootOk(other, s.boots[other], s.index[other], s.audit[other]);
      SameRow(s.boots[other], s.index[other]);
    }
  }

  lemma SameRow(b: Boot, row: IndexRow)
    ensures Evolved(b, b) && StampsKept(row, row)
  {
  }

  lemma InsertKeeps(s: State, id: string, boot: Boot)
    requires Inv(s) && id !in s.boots && boot.status == PENDING && RowOk(id, boot)
    ensures Inv(Insert(s, id, boot)) && Grows(s, Insert(s, id, boot))
  {
    var t := Insert(s, id, boot);
    SelfGrows(s);
    InsertRows(s, id, boot);
    SocketsStillOk(s.boots, t.boots, s.sockets);
    ContextsStillOk(s.boots, t.boots, s.contexts);
    assert ApprovalsOk(t.boots, t.approvals);
  }

  lemma DeliverKeeps(s: State, id: string, conns: set<nat>, now: Time)
    requires Inv(s) && id in s.boots
    ensures Inv(DeliverTo(s, id, conns, now)) && Grows(s, DeliverTo(s, id, conns, now))
  {
    SelfGrows(s);
    var boot := s.boots[id];
    if boot.deliveredFrame.Some? {
      assert BootOk(id, boot, s.index[id], s.audit[id]);
      var frames := [BootApproved(boot.deliveredFrame.value)];
      assert FrameOk(s.boots, frames[0]);
      SayToKeeps(s, conns, frames);
      var t := SayTo(s, conns, frames);
      FireAllKeeps(t, {id}, Deliver, now);
      GrowsTrans(s, t, FireAll(t, {id}, Deliver, now));
    }
  }
}
