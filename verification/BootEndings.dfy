/** What a workload is told when its boot ends, what D1 is told, and when the alarm goes off next: each outcome in
    the words of the protocol, frame by frame. */
module BootEndings {
  import opened Ideal
  import opened Protocol
  import opened BootTables
  import opened BootInvariants
  import opened BootSession

  /** Frames reach a boot's open sockets, and no other socket. */
  predicate Heard(s: State, t: State, id: string, frames: seq<ServerFrame>) {
    && t.sockets.Keys == s.sockets.Keys
    && forall c :: c in s.sockets ==>
         t.sockets[c] == if s.sockets[c].open && s.sockets[c].attached == Some(id)
                         then s.sockets[c].(sent := s.sockets[c].sent + frames) else s.sockets[c]
  }

  /** Past the deadline its status has: the pending one, or after approval the payload's. */
  predicate Overdue(b: Boot, now: Time) {
    || (b.status == PENDING && b.pendingExpiresAt <= now)
    || (b.status in {APPROVED, DELIVERED} && b.payloadExpiresAt.Some? && b.payloadExpiresAt.value <= now)
  }

  /** A decline ends a PENDING boot for the reason given, tells its sockets and D1, and touches nothing else. */
  lemma DeclinesExactly(s: State, id: string, reason: string, now: Time)
    requires Inv(s)
    ensures var t := DeclineBoot(s, id, reason, now);
            if id in s.boots && s.boots[id].status == PENDING then
              && t.boots == s.boots[id := s.boots[id].(status := DECLINED, deliveredFrame := None, terminalReason := Some(reason))]
              && Heard(s, t, id, [BootDeclined(id, if reason == "" then None else Some(reason)), Close(TERMINAL)])
              && id in s.index && t.index == s.index[id := s.index[id].(status := DECLINED, declinedAt := Some(now))]
              && id in s.audit && t.audit == s.audit[id := s.audit[id] + [AuditDeclined]]
            else t == s
  {
    hide Inv, FireAll, Rearm;
    InvKeys(s);
    RearmsOnly();
    if id in s.boots && s.boots[id].status == PENDING {
      FireOne(s, id, Decline(reason), now);
      DeclineFires(s, id, reason, now);
    }
  }

  lemma DeclineFires(s: State, id: string, reason: string, now: Time)
    requires id in s.boots && s.boots[id].status == PENDING
    ensures Fires(s, {id}, Decline(reason), now, id)
  {
  }

  /** A cancellation of one boot ends it while it is PENDING or APPROVED. */
  lemma CancelsOneExactly(s: State, id: string, reason: string, now: Time)
    requires Inv(s)
    ensures var t := CancelBoot(s, id, reason, now);
            if id in s.boots && s.boots[id].status in {PENDING, APPROVED} then
              && t.boots == s.boots[id := s.boots[id].(status := CANCELED, deliveredFrame := None, terminalReason := Some(reason))]
              && Heard(s, t, id, [BootCanceled(id, if reason == "" then "canceled" else reason), Close(TERMINAL)])
              && id in s.index && t.index == s.index[id := s.index[id].(status := CANCELED, canceledAt := Some(now))]
              && id in s.audit && t.audit == s.audit[id := s.audit[id] + [AuditCanceled]]
            else t.boots == s.boots && t.sockets == s.sockets && t.index == s.index && t.audit == s.audit
  {
    hide Inv, FireAll;
    InvKeys(s);
    if id in s.boots {
      FireOne(s, id, Cancel(reason), now);
    }
  }

  /** Expiry of whatever is overdue, as each row, each socket and each D1 row sees it. */
  lemma ExpiryExactly(s: State, now: Time, id: string)
    requires Inv(s) && id in s.boots
    ensures var t, b := ExpireDue(s, now), s.boots[id];
            && id in t.boots && id in s.index && id in t.index && id in s.audit && id in t.audit
            && if Overdue(b, now) then
                 && t.boots[id] == b.(status := EXPIRED, deliveredFrame := None,
                                      terminalReason := Some(if b.status == PENDING then "pending ttl elapsed" else "payload ttl elapsed"))
                 && t.index[id] == s.index[id].(status := EXPIRED, expiredAt := Some(now))
                 && t.audit[id] == s.audit[id] + [AuditExpired]
               else t.boots[id] == b && t.index[id] == s.index[id] && t.audit[id] == s.audit[id]
    ensures var t := ExpireDue(s, now);
            && t.sockets.Keys == s.sockets.Keys
            && forall c :: c in s.sockets && s.sockets[c].attached == Some(id) ==>
                 t.sockets[c] == if s.sockets[c].open && Overdue(s.boots[id], now)
                                 then s.sockets[c].(sent := s.sockets[c].sent + [BootExpired(id), Close(TERMINAL)]) else s.sockets[c]
  {
    hide Inv;
    InvKeys(s);
  }

  /** A socket without a boot hears nothing of expiry. */
  lemma StrangersHearNothing(s: State, now: Time, c: nat)
    requires c in s.sockets && s.sockets[c].attached.None?
    ensures c in ExpireDue(s, now).sockets && ExpireDue(s, now).sockets[c] == s.sockets[c]
  {
    hide Fired, Mirrored, AuditOf;
  }

  /** The live boots a bulk cancellation ends. */
  predicate EndsWith(b: Boot, token: Option<string>) {
    b.status in {PENDING, APPROVED} && (token.None? || b.tokenId == token.value)
  }

  /** A bulk cancellation, as each row and its D1 rows see it. */
  lemma CancellationExactly(s: State, token: Option<string>, reason: string, now: Time, id: string)
    requires Inv(s) && id in s.boots
    ensures var t, b := CancelLive(s, token, reason, now), s.boots[id];
            && id in t.boots && id in s.index && id in t.index && id in s.audit && id in t.audit
            && if EndsWith(b, token) then
                 && t.boots[id] == b.(status := CANCELED, deliveredFrame := None, terminalReason := Some(reason))
                 && t.index[id] == s.index[id].(status := CANCELED, canceledAt := Some(now))
                 && t.audit[id] == s.audit[id] + [AuditCanceled]
               else t.boots[id] == b && t.index[id] == s.index[id] && t.audit[id] == s.audit[id]
  {
    hide Inv, Rearm, Notified;
    InvKeys(s);
    RearmsOnly();
  }

  /** And as each socket hears it. */
  lemma CancellationTells(s: State, token: Option<string>, reason: string, now: Time, c: nat)
    requires c in s.sockets && (s.sockets[c].attached.Some? ==> s.sockets[c].attached.value in s.boots)
    ensures var t, socket := CancelLive(s, token, reason, now), s.sockets[c];
            && t.sockets.Keys == s.sockets.Keys
            && t.sockets[c] == if socket.open && socket.attached.Some? && EndsWith(s.boots[socket.attached.value], token)
                               then socket.(sent := socket.sent + [BootCanceled(socket.attached.value, if reason == "" then "canceled" else reason),
                                                                   Close(TERMINAL)])
                               else socket
  {
    hide Rearm, Mirrored, AuditOf, Fires, Fired, TerminalFrames;
    RearmsOnly();
    if s.sockets[c].attached.Some? {
      CancelFires(s, token, reason, now, s.sockets[c].attached.value);
    }
  }

  lemma CancelFires(s: State, token: Option<string>, reason: string, now: Time, id: string)
    requires id in s.boots
    ensures Fires(s, LiveOf(s, token), Cancel(reason), now, id) <==> EndsWith(s.boots[id], token)
    ensures EndsWith(s.boots[id], token) ==>
              TerminalFrames(id, Fired(s.boots[id], Cancel(reason), now).value)
              == [BootCanceled(id, if reason == "" then "canceled" else reason), Close(TERMINAL)]
  {
  }

  lemma RearmsOnly()
    ensures forall s :: Rearm(s) == s.(alarm := Rearm(s).alarm)
  {
  }

  /** How the protocol puts it to a workload that its boot is over: declined, expired or canceled, with the reason, or
      finished already. */
  function EndingOf(id: string, b: Boot): seq<ServerFrame> {
    var why := if b.terminalReason.Some? then b.terminalReason.value else "";
    if b.status == DECLINED then [BootDeclined(id, if why == "" then None else Some(why)), Close(TERMINAL)]
    else if b.status == EXPIRED then [BootExpired(id), Close(TERMINAL)]
    else if b.status == CANCELED then [BootCanceled(id, if why == "" then "canceled" else why), Close(TERMINAL)]
    else [BootError(TERMINAL), Close(TERMINAL)]
  }

  lemma FramesOfEnding(id: string, b: Boot)
    requires IsTerminal(b.status)
    ensures TerminalFrames(id, b) == EndingOf(id, b)
  {
  }

  lemma EndedRow(s: State, id: string)
    requires Inv(s) && id in s.boots
    ensures s.boots[id].status in {DECLINED, EXPIRED, CANCELED} ==> s.boots[id].terminalReason.Some?
  {
    assert BootOk(id, s.boots[id], s.index[id], s.audit[id]);
  }

  // ------------------------------------------------------------------ the alarm

  /** When the alarm goes off: never if no boot is live, otherwise at the earliest deadline, unless it was set
      earlier already, when it is left alone. */
  lemma RearmsExactly(s: State)
    ensures var t := Rearm(s);
            var deadlines := set id | id in s.boots && s.boots[id].status == PENDING :: s.boots[id].pendingExpiresAt;
            var payloads := set id | id in s.boots && s.boots[id].status in {APPROVED, DELIVERED}
                                     && s.boots[id].payloadExpiresAt.Some? :: s.boots[id].payloadExpiresAt.value;
            && t == s.(alarm := t.alarm)
            && (t.alarm.None? <==> deadlines + payloads == {})
            && (t.alarm.Some? ==>
                  && (forall d :: d in deadlines + payloads ==> t.alarm.value <= d)
                  && (t.alarm == s.alarm || (t.alarm.value in deadlines + payloads && (s.alarm.None? || s.alarm.value > t.alarm.value))))
  {
    var deadlines := set id | id in s.boots && s.boots[id].status == PENDING :: s.boots[id].pendingExpiresAt;
    var payloads := set id | id in s.boots && s.boots[id].status in {APPROVED, DELIVERED}
                             && s.boots[id].payloadExpiresAt.Some? :: s.boots[id].payloadExpiresAt.value;
    forall d ensures d in Deadlines(s) <==> d in deadlines + payloads {
      if d in Deadlines(s) {
        var id :| id in s.boots && Live(s.boots[id]) && Deadline(s.boots[id]).Some? && Deadline(s.boots[id]).value == d;
        assert s.boots[id].status == PENDING ==> s.boots[id].pendingExpiresAt in deadlines;
        assert s.boots[id].status != PENDING ==> s.boots[id].payloadExpiresAt.value in payloads;
      }
      if d in deadlines {
        var id :| id in s.boots && s.boots[id].status == PENDING && s.boots[id].pendingExpiresAt == d;
        assert Deadline(s.boots[id]).value in Deadlines(s);
      }
      if d in payloads {
        var id :| id in s.boots && s.boots[id].status in {APPROVED, DELIVERED} && s.boots[id].payloadExpiresAt == Some(d);
        assert Deadline(s.boots[id]).value in Deadlines(s);
      }
    }
    assert Deadlines(s) == deadlines + payloads;
  }
}
