/** The boot session core in its own form: one object over its tables, each handler reading and writing
    them step by step, proved to have exactly the effect BootTables.dfy gives it. */
module BootSession {
  import opened Ideal
  import opened Protocol
  import opened AadText
  import opened BootTables
  import opened BootInvariants
  import opened Approvals
  import opened BootRuns
  import opened ApprovalRuns

  // ------------------------------------------------------------------ one boot at a time

  /** The effect of one change on one boot, as the row, index, audit and socket writes that make it up. */
  lemma FireOne(s: State, id: string, change: Change, now: Time)
    requires id in s.boots && id in s.index && id in s.audit
    ensures Fired(s.boots[id], change, now).None? ==> FireAll(s, {id}, change, now) == s
    ensures Fired(s.boots[id], change, now).Some? ==>
              var boot, fired, t := s.boots[id], Fired(s.boots[id], change, now).value, FireAll(s, {id}, change, now);
              && t == s.(boots := t.boots, index := t.index, audit := t.audit, sockets := t.sockets)
              && t.boots == s.boots[id := fired]
              && t.index == s.index[id := Mirrored(s.index[id], boot.status, fired.status, change, now)]
              && t.audit == s.audit[id := s.audit[id] + [AuditOf(boot.status, change)]]
              && t.sockets == if change.Decline? || change.Expire? || change.Cancel?
                              then Said(s.sockets, AttachedTo(s.sockets, id), TerminalFrames(id, fired)) else s.sockets
  {
    hide Fired, Mirrored, TerminalFrames, AuditOf;
    var t := FireAll(s, {id}, change, now);
    var fired := Fired(s.boots[id], change, now);
    assert forall other :: other != id ==> !Fires(s, {id}, change, now, other);
    if fired.None? {
      assert t.boots == s.boots && t.index == s.index && t.audit == s.audit && t.sockets == s.sockets;
    } else {
      assert t.boots == s.boots[id := fired.value];
      assert t.index == s.index[id := Mirrored(s.index[id], s.boots[id].status, fired.value.status, change, now)];
      assert t.audit == s.audit[id := s.audit[id] + [AuditOf(s.boots[id].status, change)]];
      if change.Decline? || change.Expire? || change.Cancel? {
        assert t.sockets == Said(s.sockets, AttachedTo(s.sockets, id), TerminalFrames(id, fired.value));
      } else {
        assert t.sockets == s.sockets;
      }
    }
  }

  /** An approval, table by table. */
  lemma ApprovedIs(s: State, id: string, payload: Payload, summary: string, approval: Approval, now: Time)
    requires id in s.boots && id in s.index && id in s.audit && s.boots[id].status == PENDING
    ensures Approved(s, id, payload, summary, approval, now) ==
            s.(boots := s.boots[id := s.boots[id].(status := APPROVED, approvedAt := Some(now),
                                payloadExpiresAt := Some(payload.payloadExpiresAt), deliveredFrame := Some(payload),
                                payloadDigest := Some(OfFrame(payload)), summary := summary)],
               contexts := map c | c in s.contexts && s.contexts[c].bootId != id :: s.contexts[c],
               index := s.index[id := s.index[id].(status := APPROVED, approvedAt := Some(now))],
               approvals := s.approvals[id := approval],
               audit := s.audit[id := s.audit[id] + [AuditApproved]])
  {
    hide FireAll;
    FireOne(s, id, Approve(payload, summary), now);
  }

  lemma InvKeys(s: State)
    requires Inv(s)
    ensures s.index.Keys == s.boots.Keys && s.audit.Keys == s.boots.Keys
  {
  }

  /** A boot outside the set keeps its row. */
  lemma FireMisses(s: State, ids: set<string>, change: Change, now: Time, id: string)
    requires id in s.boots && id !in ids
    ensures id in FireAll(s, ids, change, now).boots && FireAll(s, ids, change, now).boots[id] == s.boots[id]
  {
  }

  lemma FireNone(s: State, change: Change, now: Time)
    ensures FireAll(s, {}, change, now) == s
  {
    var t := FireAll(s, {}, change, now);
    assert t.boots == s.boots && t.index == s.index && t.audit == s.audit && t.sockets == s.sockets;
  }

  lemma FireMoreBoots(s: State, ids: set<string>, id: string, change: Change, now: Time)
    requires id !in ids
    ensures FireAll(FireAll(s, ids, change, now), {id}, change, now).boots == FireAll(s, ids + {id}, change, now).boots
  {
    hide Fired, Mirrored, TerminalFrames, AuditOf, Notified, Transition;
    var t := FireAll(s, ids, change, now);
    var u, v := FireAll(t, {id}, change, now), FireAll(s, ids + {id}, change, now);
    assert id in s.boots ==> t.boots[id] == s.boots[id];
    forall other | other in s.boots ensures u.boots[other] == v.boots[other] {
      if other != id {
        assert Fires(s, ids + {id}, change, now, other) <==> Fires(s, ids, change, now, other);
      }
    }
  }

  lemma FireMoreIndex(s: State, ids: set<string>, id: string, change: Change, now: Time)
    requires id !in ids
    ensures FireAll(FireAll(s, ids, change, now), {id}, change, now).index == FireAll(s, ids + {id}, change, now).index
  {
    hide Fired, Mirrored, TerminalFrames, AuditOf, Notified, Transition;
    var t := FireAll(s, ids, change, now);
    var u, v := FireAll(t, {id}, change, now), FireAll(s, ids + {id}, change, now);
    assert id in s.boots ==> t.boots[id] == s.boots[id];
    forall other | other in s.index ensures u.index[other] == v.index[other] {
      if other != id {
        assert Fires(s, ids + {id}, change, now, other) <==> Fires(s, ids, change, now, other);
      }
    }
  }

  lemma AuditAfter(s: State, ids: set<string>, change: Change, now: Time)
    ensures FireAll(s, ids, change, now).audit == map id | id in s.audit ::
              if Fires(s, ids, change, now, id) then s.audit[id] + [AuditOf(s.boots[id].status, change)] else s.audit[id]
  {
    hide Fires, Mirrored, Notified;
  }

  lemma FireMoreAudit(s: State, ids: set<string>, id: string, change: Change, now: Time)
    requires id !in ids
    ensures FireAll(FireAll(s, ids, change, now), {id}, change, now).audit == FireAll(s, ids + {id}, change, now).audit
  {
    hide FireAll, Fired, AuditOf;
    var t := FireAll(s, ids, change, now);
    AuditAfter(s, ids, change, now);
    AuditAfter(t, {id}, change, now);
    AuditAfter(s, ids + {id}, change, now);
    SameDomain(s, ids, change, now);
    if id in s.boots {
      FireMisses(s, ids, change, now, id);
    }
    var u, v := FireAll(t, {id}, change, now), FireAll(s, ids + {id}, change, now);
    forall other | other in s.audit ensures u.audit[other] == v.audit[other] {
      assert other != id ==> (Fires(s, ids + {id}, change, now, other) <==> Fires(s, ids, change, now, other));
    }
  }

  lemma SameDomain(s: State, ids: set<string>, change: Change, now: Time)
    ensures FireAll(s, ids, change, now).boots.Keys == s.boots.Keys
  {
    hide Fires, Fired, Mirrored, Notified, AuditOf;
  }

  /** Firing boots one after another, in any order, is firing them together. */
  lemma FireMore(s: State, ids: set<string>, id: string, change: Change, now: Time)
    requires id !in ids
    ensures FireAll(FireAll(s, ids, change, now), {id}, change, now) == FireAll(s, ids + {id}, change, now)
  {
    hide Fires, Fired, Mirrored, AuditOf, Notified;
    FireMoreBoots(s, ids, id, change, now);
    FireMoreIndex(s, ids, id, change, now);
    FireMoreAudit(s, ids, id, change, now);
    FireMoreSockets(s, ids, id, change, now);
  }

  lemma NotifiedMore(s: State, ids: set<string>, id: string, change: Change, now: Time, socket: Socket)
    requires id !in ids
    ensures Notified(FireAll(s, ids, change, now), {id}, change, now, Notified(s, ids, change, now, socket))
         == Notified(s, ids + {id}, change, now, socket)
  {
    hide Fired, Mirrored, TerminalFrames, AuditOf;
    var t := FireAll(s, ids, change, now);
    assert id in s.boots ==> t.boots[id] == s.boots[id];
    if socket.attached.Some? && socket.attached.value != id {
      assert Fires(s, ids + {id}, change, now, socket.attached.value) <==> Fires(s, ids, change, now, socket.attached.value);
    }
  }

  lemma FireMoreSockets(s: State, ids: set<string>, id: string, change: Change, now: Time)
    requires id !in ids
    ensures FireAll(FireAll(s, ids, change, now), {id}, change, now).sockets == FireAll(s, ids + {id}, change, now).sockets
  {
    hide Notified, Fires, Mirrored, AuditOf;
    var u, v := FireAll(FireAll(s, ids, change, now), {id}, change, now), FireAll(s, ids + {id}, change, now);
    forall c | c in s.sockets ensures u.sockets[c] == v.sockets[c] {
      NotifiedMore(s, ids, id, change, now, s.sockets[c]);
    }
  }

  /** The first challenge row a boot has is its only one. */
  lemma OneOutstanding(s: State, id: string)
    requires Inv(s) && Outstanding(s, id) != {}
    ensures forall c :: c in Outstanding(s, id) ==> c == AnyOf(Outstanding(s, id))
  {
  }

  /** Taking one element off a work list adds it to the finished part of any set it was in. */
  lemma Taken(all: set<string>, todo: set<string>, id: string)
    requires id in todo
    ensures all - (todo - {id}) == if id in all then (all - todo) + {id} else all - todo
    ensures |all - (todo - {id})| == |all - todo| + if id in all then 1 else 0
  {
    assert all - (todo - {id}) == if id in all then (all - todo) + {id} else all - todo;
  }

  class BootSessionCore {
    const environmentId: string
    var boots: map<string, Boot>
    var challenges: set<Challenge>
    var contexts: map<string, Context>
    var alarm: Option<Time>
    var sockets: map<nat, Socket>
    var index: map<string, IndexRow>
    var audit: map<string, seq<Audit>>
    var approvals: map<string, Approval>

    function View(): State
      reads this
    {
      State(environmentId, boots, challenges, contexts, alarm, sockets, index, audit, approvals)
    }

    ghost predicate Valid()
      reads this
    {
      Inv(View())
    }

    constructor (environmentId: string)
      ensures Valid() && View() == Start(environmentId).core
    {
      this.environmentId := environmentId;
      boots, challenges, contexts, alarm := map[], {}, map[], None;
      sockets, index, audit, approvals := map[], map[], map[], map[];
      new;
      NoApprovalsYet(boots, approvals);
    }

    // ---------------------------------------------------------------- table writes

    /** The transition table decides; nothing else writes a status. */
    method Apply(id: string, event: Event) returns (next: Option<Status>)
      requires id in boots
      modifies this`boots
      ensures next == Transition(old(boots)[id].status, event)
      ensures boots == if next.Some? then old(boots)[id := old(boots)[id].(status := next.value)] else old(boots)
    {
      next := Transition(boots[id].status, event);
      if next.Some? {
        boots := boots[id := boots[id].(status := next.value)];
      }
    }

    /** Write the same frames to several sockets, one after another. */
    method Send(conns: set<nat>, frames: seq<ServerFrame>)
      modifies this`sockets
      ensures sockets == Said(old(sockets), conns, frames)
    {
      var todo := conns;
      while todo != {}
        invariant todo <= conns
        invariant sockets == Said(old(sockets), conns - todo, frames)
        decreases todo
      {
        var c :| c in todo;
        if c in sockets {
          sockets := sockets[c := sockets[c].(sent := sockets[c].sent + frames)];
        }
        todo := todo - {c};
      }
      assert conns - {} == conns;
    }

    method SendError(conn: nat, code: CloseCode)
      modifies this`sockets
      ensures View() == Refuse(old(View()), conn, code)
    {
      Send({conn}, [BootError(code), Close(code)]);
    }

    /** SELECT MIN over the live deadlines, then hand it to the scheduler. */
    method RecomputeAlarm()
      modifies this`alarm
      ensures View() == Rearm(old(View()))
    {
      var ids := set id | id in boots && Live(boots[id]) && Deadline(boots[id]).Some?;
      var least: Option<Time> := None;
      var todo := ids;
      while todo != {}
        invariant todo <= ids
        invariant least.None? <==> todo == ids
        invariant least.Some? ==> least.value in Deadlines(View())
        invariant forall id :: id in ids - todo ==> least.Some? && least.value <= Deadline(boots[id]).value
        decreases todo
      {
        var id :| id in todo;
        var at := Deadline(boots[id]).value;
        if least.None? || at < least.value {
          least := Some(at);
        }
        todo := todo - {id};
      }
      forall t | t in Deadlines(View()) ensures least.Some? && least.value <= t {
        var id :| id in ids && Deadline(boots[id]).value == t;
      }
      assert least == MinOf(Deadlines(View()));
      alarm := if least.None? then None else if alarm.None? || alarm.value > least.value then least else alarm;
    }

    // ---------------------------------------------------------------- expiry and cancellation

    method Expire(id: string, now: Time)
      requires Valid() && id in boots
      modifies this`boots, this`index, this`audit, this`sockets
      ensures Valid() && View() == FireAll(old(View()), {id}, BootTables.Expire, now)
    {
      hide Inv, Grows, FireAll, Said, TerminalFrames, Rearm;
      InvKeys(View());
      FireOne(View(), id, BootTables.Expire, now);
      FireAllKeeps(View(), {id}, BootTables.Expire, now);
      var from := boots[id].status;
      var next := Apply(id, if from == PENDING then ExpirePendingEvent else ExpirePayloadEvent);
      if next.None? {
        return;
      }
      boots := boots[id := boots[id].(deliveredFrame := None,
                                      terminalReason := Some(if from == PENDING then "pending ttl elapsed" else "payload ttl elapsed"))];
      index := index[id := index[id].(status := EXPIRED, expiredAt := Some(now))];
      audit := audit[id := audit[id] + [AuditExpired]];
      assert boots == old(boots)[id := Fired(old(boots)[id], BootTables.Expire, now).value];
      Send(AttachedTo(sockets, id), TerminalFrames(id, boots[id]));
    }

    method CancelOne(id: string, reason: string, now: Time) returns (canceled: bool)
      requires Valid() && id in boots
      modifies this`boots, this`index, this`audit, this`sockets
      ensures Valid() && View() == FireAll(old(View()), {id}, Cancel(reason), now)
      ensures canceled <==> old(boots)[id].status in {PENDING, APPROVED}
    {
      hide Inv, Grows, FireAll, Said, TerminalFrames, Rearm;
      InvKeys(View());
      FireOne(View(), id, Cancel(reason), now);
      FireAllKeeps(View(), {id}, Cancel(reason), now);
      var next := Apply(id, CancelEvent);
      if next.None? {
        return false;
      }
      boots := boots[id := boots[id].(deliveredFrame := None, terminalReason := Some(reason))];
      index := index[id := index[id].(status := CANCELED, canceledAt := Some(now))];
      audit := audit[id := audit[id] + [AuditCanceled]];
      assert boots == old(boots)[id := Fired(old(boots)[id], Cancel(reason), now).value];
      Send(AttachedTo(sockets, id), TerminalFrames(id, boots[id]));
      return true;
    }

    /** Every live boot whose deadline passed, over the rows as they were read. */
    method ExpireDue(now: Time)
      requires Valid()
      modifies this`boots, this`index, this`audit, this`sockets
      ensures Valid() && View() == BootTables.ExpireDue(old(View()), now)
    {
      hide Inv, Grows, FireAll, Rearm;
      var rows := boots;
      var todo := set id | id in rows && Live(rows[id]);
      ghost var due := DueIds(View(), now);
      FireNone(View(), BootTables.Expire, now);
      assert due - todo == {};
      while todo != {}
        invariant Valid() && todo <= rows.Keys
        invariant View() == FireAll(old(View()), due - todo, BootTables.Expire, now)
        decreases todo
      {
        var id :| id in todo;
        var row := rows[id];
        FireMisses(old(View()), due - todo, BootTables.Expire, now, id);
        if row.status == PENDING {
          if row.pendingExpiresAt <= now {
            FireMore(old(View()), due - todo, id, BootTables.Expire, now);
            Expire(id, now);
          }
        } else if row.payloadExpiresAt.Some? && row.payloadExpiresAt.value <= now {
          FireMore(old(View()), due - todo, id, BootTables.Expire, now);
          Expire(id, now);
        }
        assert due - (todo - {id}) == if Due(row, now) then (due - todo) + {id} else due - todo;
        todo := todo - {id};
      }
      assert due - {} == due;
    }

    method OnAlarm(now: Time)
      requires Valid()
      modifies this
      ensures Valid() && View() == BootTables.OnAlarm(old(View()), now)
    {
      AlarmKeeps(View(), now);
      alarm := None;
      ExpireDue(now);
      RecomputeAlarm();
    }

    /** Cancel every live boot of one token, or of the environment, and say how many ended. */
    method CancelAll(tokenId: Option<string>, reason: string, now: Time) returns (canceled: nat)
      requires Valid()
      modifies this
      ensures Valid() && View() == CancelLive(old(View()), tokenId, reason, now)
      ensures canceled == |Cancelable(old(View()), tokenId)|
    {
      hide Inv, Grows, FireAll, Rearm;
      var rows := boots;
      var todo := set id | id in rows && Live(rows[id]);
      ghost var s, chosen, ending := View(), LiveOf(View(), tokenId), Cancelable(View(), tokenId);
      canceled := 0;
      FireNone(s, Cancel(reason), now);
      assert chosen - todo == {} && ending - todo == {};
      while todo != {}
        invariant Valid() && todo <= rows.Keys
        invariant View() == FireAll(s, chosen - todo, Cancel(reason), now)
        invariant canceled == |ending - todo|
        decreases todo
      {
        var id :| id in todo;
        Taken(chosen, todo, id);
        Taken(ending, todo, id);
        if tokenId.None? || rows[id].tokenId == tokenId.value {
          FireMore(s, chosen - todo, id, Cancel(reason), now);
          FireMisses(s, chosen - todo, Cancel(reason), now, id);
          var ended := CancelOne(id, reason, now);
          if ended {
            canceled := canceled + 1;
          }
        }
        todo := todo - {id};
      }
      assert chosen - {} == chosen && ending - {} == ending;
      RecomputeAlarm();
      FireAndRearmKeeps(s, chosen, Cancel(reason), now);
    }

    method CancelBoot(id: string, reason: string, now: Time) returns (ok: bool)
      requires Valid()
      modifies this
      ensures Valid() && View() == BootTables.CancelBoot(old(View()), id, reason, now)
      ensures ok <==> id in old(boots) && old(boots)[id].status in {PENDING, APPROVED}
    {
      if id !in boots {
        return false;
      }
      FireAndRearmKeeps(View(), {id}, Cancel(reason), now);
      ok := CancelOne(id, reason, now);
      RecomputeAlarm();
    }

    method DeclineOne(id: string, reason: string, now: Time) returns (declined: bool)
      requires Valid() && id in boots
      modifies this`boots, this`index, this`audit, this`sockets
      ensures Valid() && View() == FireAll(old(View()), {id}, BootTables.Decline(reason), now)
      ensures declined <==> Fired(old(boots)[id], BootTables.Decline(reason), now).Some?
    {
      hide Inv, Grows, FireAll, Said, TerminalFrames, Rearm;
      InvKeys(View());
      FireOne(View(), id, BootTables.Decline(reason), now);
      FireAllKeeps(View(), {id}, BootTables.Decline(reason), now);
      var next := Apply(id, DeclineEvent);
      if next.None? {
        return false;
      }
      boots := boots[id := boots[id].(deliveredFrame := None, terminalReason := Some(reason))];
      index := index[id := index[id].(status := DECLINED, declinedAt := Some(now))];
      audit := audit[id := audit[id] + [AuditDeclined]];
      assert boots == old(boots)[id := Fired(old(boots)[id], BootTables.Decline(reason), now).value];
      Send(AttachedTo(sockets, id), TerminalFrames(id, boots[id]));
      return true;
    }

    method Decline(id: string, reason: string, now: Time) returns (ok: bool)
      requires Valid()
      modifies this
      ensures Valid() && View() == DeclineBoot(old(View()), id, reason, now)
      ensures ok <==> id in old(boots) && old(boots)[id].status == PENDING
    {
      hide Inv, Grows, FireAll, Rearm;
      if id !in boots {
        return false;
      }
      FireAndRearmKeeps(View(), {id}, BootTables.Decline(reason), now);
      InvKeys(View());
      FireOne(View(), id, BootTables.Decline(reason), now);
      ok := DeclineOne(id, reason, now);
      if !ok {
        return false;
      }
      RecomputeAlarm();
    }

    // ---------------------------------------------------------------- delivery

    method Deliver(id: string, conns: set<nat>, now: Time)
      requires Valid() && id in boots
      modifies this`boots, this`index, this`audit, this`sockets
      ensures Valid() && View() == DeliverTo(old(View()), id, conns, now)
    {
      hide Inv, Grows, FireAll, Said;
      DeliverKeeps(View(), id, conns, now);
      var boot := boots[id];
      if boot.deliveredFrame.None? || conns == {} {
        return;
      }
      InvKeys(View());
      FireOne(SayTo(View(), conns, [BootApproved(boot.deliveredFrame.value)]), id, BootTables.Deliver, now);
      var event := if boot.status == APPROVED then DeliverEvent else RedeliverEvent;
      var next := Apply(id, event);
      if next.None? {
        return;
      }
      Send(conns, [BootApproved(boot.deliveredFrame.value)]);
      assert boots == old(boots)[id := Fired(boot, BootTables.Deliver, now).value];
      if event.DeliverEvent? {
        index := index[id := index[id].(status := DELIVERED, deliveredAt := Some(now))];
        audit := audit[id := audit[id] + [AuditDelivered(false)]];
      } else {
        assert index == index[id := index[id]];
        audit := audit[id := audit[id] + [AuditDelivered(true)]];
      }
    }

    // ---------------------------------------------------------------- frames

    method HandleHello(conn: nat, hello: ClientFrame, environment: Option<Environment>, summary: string, id: string,
                       now: Time, created: Time)
      requires Valid() && conn in sockets && hello.Hello?
      modifies this
      ensures Valid()
      ensures View() == BootTables.HandleHello(old(View()), conn, hello, environment, summary, id, now, created)
    {
      hide Inv, Grows, FireAll, Said, FromSource, PendingOf, Rearm, NewBoot, DueIds;
      HelloKeeps(View(), conn, hello, environment, summary, id, now, created);
      PrimitivesKeepKeys();
      var identity := sockets[conn].identity;
      if sockets[conn].attached.Some? {
        SendError(conn, PROTOCOL_ERROR);
        return;
      }
      ExpireDue(now);
      if identity.sourceIp != "" && |FromSource(View(), identity.sourceIp, now - RATE_WINDOW, None)| >= MAX_BOOTS_PER_SOURCE {
        SendError(conn, RATE_LIMITED);
        return;
      }
      var limit := if identity.maxPendingBoots > 0 then identity.maxPendingBoots else MAX_PENDING_BOOTS_PER_TOKEN;
      if |PendingOf(View(), identity.tokenId)| >= limit {
        SendError(conn, CONFLICT);
        return;
      }
      if environment.None? {
        SendError(conn, UNKNOWN_BOOT);
        return;
      }
      if id in boots {
        return;
      }
      var boot := NewBoot(View(), identity, hello, environment.value, summary, created);
      boots := boots[id := boot];
      index := index[id := IndexRow(PENDING, None, None, None, None, None, None)];
      audit := audit[id := [Requested]];
      sockets := sockets[conn := sockets[conn].(attached := Some(id))];
      Send({conn}, [BootPending(id, boot.pendingExpiresAt)]);
      RecomputeAlarm();
    }

    method ExpireIfDue(id: string, now: Time) returns (current: Boot)
      requires Valid() && id in boots
      modifies this
      ensures Valid() && View() == BootTables.ExpireIfDue(old(View()), id, now)
      ensures id in boots && current == boots[id] && sockets.Keys == old(sockets).Keys
    {
      hide Inv, Grows, FireAll, Rearm;
      ExpireIfDueKeeps(View(), id, now);
      PrimitivesKeepKeys();
      var boot := boots[id];
      if IsTerminal(boot.status) {
        return boot;
      }
      var deadline := if boot.status == PENDING then Some(boot.pendingExpiresAt) else boot.payloadExpiresAt;
      if deadline.None? || deadline.value > now {
        return boot;
      }
      Expire(id, now);
      RecomputeAlarm();
      return boots[id];
    }

    /** The ending, unless this socket was told as one of the attached ones. */
    method SendTerminalOnce(conn: nat, id: string)
      requires conn in sockets && id in boots
      modifies this`sockets
      ensures View() == SayTerminalOnce(old(View()), conn, id)
    {
      if sockets[conn].attached == Some(id) {
        return;
      }
      Send({conn}, TerminalFrames(id, boots[id]));
    }

    method HandleResume(conn: nat, id: string, challenge: string, now: Time)
      requires Valid() && conn in sockets
      modifies this
      ensures Valid() && View() == BootTables.HandleResume(old(View()), conn, id, challenge, now)
    {
      hide Inv, Grows, FireAll, Said, Rearm, BootTables.ExpireIfDue, TerminalFrames;
      ResumeKeeps(View(), conn, id, challenge, now);
      if id !in boots {
        SendError(conn, UNKNOWN_BOOT);
        return;
      }
      if sockets[conn].identity.tokenId != boots[id].tokenId {
        SendError(conn, FORBIDDEN);
        return;
      }
      var current := ExpireIfDue(id, now);
      if IsTerminal(current.status) {
        SendTerminalOnce(conn, id);
        return;
      }
      challenges := set c | c in challenges && c.bootId != id;
      challenges := challenges + {Challenge(id, challenge, now + CHALLENGE_TTL)};
      Send({conn}, [BootChallenge(id, challenge)]);
    }

    /** Take the outstanding challenge, which is good for one attempt, pass or fail. */
    method Redeem(id: string) returns (taken: Option<Challenge>)
      requires Valid()
      modifies this`challenges
      ensures taken.None? <==> Outstanding(old(View()), id) == {}
      ensures taken.None? ==> View() == old(View())
      ensures taken.Some? ==> Valid() && taken.value == AnyOf(Outstanding(old(View()), id))
      ensures taken.Some? ==> View() == WithoutChallenges(old(View()), id)
    {
      hide Inv, Grows;
      var rows := set c | c in challenges && c.bootId == id;
      if rows == {} {
        return None;
      }
      OneOutstanding(View(), id);
      IssueKeeps(View(), AnyOf(Outstanding(View(), id)));
      var first :| first in rows;
      challenges := set c | c in challenges && c.bootId != id;
      return Some(first);
    }

    method HandleChallengeResponse(conn: nat, id: string, signature: Signature, token: Option<Token>, now: Time)
      requires Valid() && conn in sockets
      modifies this
      ensures Valid() && View() == BootTables.HandleChallengeResponse(old(View()), conn, id, signature, token, now)
    {
      hide Inv, Grows, FireAll, Refuse, Rearm, Proven, Verify, ResumeMessage, TokenValid, Outstanding;
      ChallengeResponseKeeps(View(), conn, id, signature, token, now);
      if id !in boots {
        SendError(conn, UNKNOWN_BOOT);
        return;
      }
      var boot := boots[id];
      var taken := Redeem(id);
      if taken.None? {
        SendError(conn, PROTOCOL_ERROR);
        return;
      }
      if taken.value.expiresAt <= now {
        SendError(conn, PROTOCOL_ERROR);
        return;
      }
      if !Verify(boot.signingKey, ResumeMessage(id, taken.value.challenge), signature) {
        SendError(conn, PROTOCOL_ERROR);
        return;
      }
      if sockets[conn].identity.tokenId != boot.tokenId {
        SendError(conn, FORBIDDEN);
        return;
      }
      Reattach(conn, id, token, now);
    }

    /** After the proof: the token must still stand; then expire, attach, report and redeliver. */
    method Reattach(conn: nat, id: string, token: Option<Token>, now: Time)
      requires Valid() && conn in sockets && id in boots
      modifies this
      ensures View() == if TokenValid(token, now) then Proven(old(View()), conn, id, now)
                        else Refuse(BootTables.Rearm(FireAll(old(View()), {id}, Cancel(TOKEN_REVOKED), now)), conn, FORBIDDEN)
    {
      hide Inv, Grows, FireAll, Said, Rearm, BootTables.ExpireIfDue, TerminalFrames, TokenValid;
      if !TokenValid(token, now) {
        var _ := CancelOne(id, TOKEN_REVOKED, now);
        RecomputeAlarm();
        SendError(conn, FORBIDDEN);
        return;
      }
      var current := ExpireIfDue(id, now);
      if IsTerminal(current.status) {
        SendTerminalOnce(conn, id);
        return;
      }
      InvKeys(View());
      AttachKeeps(View(), conn, id);
      ReconnectKeeps(Attach(View(), conn, id), id);
      sockets := sockets[conn := sockets[conn].(attached := Some(id))];
      audit := audit[id := audit[id] + [Reconnected]];
      Report(conn, id, now);
    }

    method Report(conn: nat, id: string, now: Time)
      requires Valid() && conn in sockets && id in boots
      modifies this
      ensures View() == Resumed(old(View()), conn, id, now)
    {
      hide Inv, Grows, FireAll, Said, DeliverTo;
      var current := boots[id];
      if current.status == PENDING {
        Send({conn}, [BootResumed(id, PENDING, current.pendingExpiresAt)]);
        return;
      }
      var status := if current.status == APPROVED then APPROVED else DELIVERED;
      var until := if current.payloadExpiresAt.Some? then current.payloadExpiresAt.value else now;
      PlainFramesOk(boots, [BootResumed(id, status, until)]);
      SayToKeeps(View(), {conn}, [BootResumed(id, status, until)]);
      Send({conn}, [BootResumed(id, status, until)]);
      Deliver(id, {conn}, now);
    }

    method HandleReceived(conn: nat, id: string, digest: Digest, now: Time)
      requires Valid() && conn in sockets
      modifies this
      ensures Valid() && View() == BootTables.HandleReceived(old(View()), conn, id, digest, now)
    {
      hide Inv, Grows, FireAll, Said, Rearm;
      ReceivedKeeps(View(), conn, id, digest, now);
      if sockets[conn].attached != Some(id) || id !in boots {
        SendError(conn, UNKNOWN_BOOT);
        return;
      }
      if boots[id].payloadDigest != Some(digest) {
        SendError(conn, PROTOCOL_ERROR);
        return;
      }
      InvKeys(View());
      FireOne(View(), id, BootTables.Consume, now);
      var next := Apply(id, ConsumeEvent);
      if next.None? {
        SendError(conn, if IsTerminal(boots[id].status) then TERMINAL else CONFLICT);
        return;
      }
      boots := boots[id := boots[id].(deliveredFrame := None, consumedAt := Some(now))];
      index := index[id := index[id].(status := CONSUMED, consumedAt := Some(now))];
      audit := audit[id := audit[id] + [AuditConsumed]];
      assert boots == old(boots)[id := Fired(old(boots)[id], BootTables.Consume, now).value];
      Send({conn}, [BootConsumed(id), Close(NORMAL)]);
      RecomputeAlarm();
    }

    // ---------------------------------------------------------------- approval

    /** The end of prepareApproval: clear expired contexts, then insert this one. */
    method StorePrepared(input: ApproveInput, stage: Stage, contextId: string, now: Time) returns (request: Option<Request>)
      requires Valid() && stage.Loaded?
      requires input.bootId in boots ==> Evolved(stage.boot, boots[input.bootId])
      modifies this`contexts
      ensures (View(), request) == Store(old(View()), input, stage, contextId, now)
    {
      hide Inv;
      var expiresAt := Min(now + CONTEXT_TTL, stage.boot.pendingExpiresAt);
      if stage.environment.currentKeyVersion < 1 || expiresAt <= now {
        return None;
      }
      if input.bootId !in boots || boots[input.bootId].status != PENDING {
        return None;
      }
      var prepared := RequestFor(View(), input, stage, contextId, now);
      contexts := map id | id in contexts && contexts[id].expiresAt > now :: contexts[id];
      if contextId in contexts {
        return None;
      }
      contexts := contexts[contextId := ContextFor(input, prepared)];
      return Some(prepared);
    }

    /** The writes of one approval: row, contexts dropped, index, approval record and audit. */
    method RecordApproval(id: string, payload: Payload, summary: string, approval: Approval, now: Time)
      requires Valid() && id in boots && boots[id].status == PENDING
      modifies this
      ensures View() == Approved(old(View()), id, payload, summary, approval, now)
    {
      hide Inv, Approved;
      InvKeys(View());
      ApprovedIs(View(), id, payload, summary, approval, now);
      var _ := Apply(id, ApproveEvent);
      boots := boots[id := boots[id].(approvedAt := Some(now), payloadExpiresAt := Some(payload.payloadExpiresAt),
                                      deliveredFrame := Some(payload), payloadDigest := Some(OfFrame(payload)),
                                      summary := summary)];
      contexts := map c | c in contexts && contexts[c].bootId != id :: contexts[c];
      index := index[id := index[id].(status := APPROVED, approvedAt := Some(now))];
      approvals := approvals[id := approval];
      audit := audit[id := audit[id] + [AuditApproved]];
    }

    /** The end of completeApproval: the row read again, every guard, then all the writes of an approval. */
    method CommitReady(input: ApproveInput, completion: Completion, stage: Stage, token: Option<Token>, now: Time)
        returns (ok: bool)
      requires Valid() && stage.Ready? && stage.payload.bootId == input.bootId
      modifies this
      ensures Valid() && View() == Commit(old(View()), input, completion, stage, token, now)
      ensures ok <==> MayCommit(old(View()), input, stage, token, now)
    {
      hide Inv, Grows, FireAll, Said, Rearm, DeliverTo;
      ghost var s, id := View(), input.bootId;
      if !TokenValid(token, now) || stage.context.request.expiresAt <= now || stage.context.request.payloadExpiresAt <= now {
        return false;
      }
      if input.bootId !in boots || boots[input.bootId].status != PENDING || boots[input.bootId].pendingExpiresAt <= now {
        return false;
      }
      var approval := ApprovalFor(input, completion, stage, now);
      CommitKeeps(s, id, stage.payload, stage.summary, approval, now);
      ApprovedKeeps(s, id, stage.payload, stage.summary, approval, now);
      PrimitivesKeepKeys();
      RecordApproval(input.bootId, stage.payload, stage.summary, approval, now);
      var attached := AttachedTo(sockets, input.bootId);
      Deliver(input.bootId, attached, now);
      RecomputeAlarm();
      return true;
    }
  }
}
