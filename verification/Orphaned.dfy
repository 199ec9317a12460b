/** A session whose environment is gone from D1. Its tokens, index rows and approval records cascaded away with the
    environment, so no token is valid any more, and a handler that changes a row's status ends right after the row
    write: mirroring the status finds no index row, and that is an error. */
module Orphaned {
  import opened Ideal
  import opened Protocol
  import opened BootTables
  import opened BootInvariants
  import opened Approvals
  import opened BootRuns
  import opened ApprovalRuns
  import AadText

  /** A handler's first change of a status. */
  datatype Write = Write(id: string, change: Change, now: Time)

  /** The row a loop over live boots reaches first: they are read in the order they were created. */
  ghost function First(s: State, ids: set<string>): (id: string)
    requires ids != {} && ids <= s.boots.Keys
    ensures id in ids && forall other :: other in ids ==> s.boots[id].createdAt <= s.boots[other].createdAt
  {
    var times := set id | id in ids :: s.boots[id].createdAt;
    assert s.boots[AnyOf(ids)].createdAt in times;
    assert forall other :: other in ids ==> s.boots[other].createdAt in times;
    var id :| id in ids && s.boots[id].createdAt == MinOf(times).value;
    id
  }

  /** Everything a challenge response is checked for before its token. */
  ghost predicate ProofStands(s: State, conn: nat, id: string, signature: Signature, now: Time)
    requires conn in s.sockets
  {
    && id in s.boots && Outstanding(s, id) != {}
    && var challenge := AnyOf(Outstanding(s, id));
       && challenge.expiresAt > now
       && Verify(s.boots[id].signingKey, AadText.ResumeMessage(id, challenge.challenge), signature)
       && s.sockets[conn].identity.tokenId == s.boots[id].tokenId
  }

  predicate Changes(s: State, id: string, change: Change, now: Time) {
    id in s.boots && Fired(s.boots[id], change, now).Some?
  }

  /** The first status each handler changes, if it changes any. */
  ghost function FirstWrite(s: State, step: Step): (write: Option<Write>)
    requires Enabled(s, step)
    ensures write.Some? ==> Changes(s, write.value.id, write.value.change, write.value.now) && !write.value.change.Approve?
  {
    match step
    case StepHello(conn, _, _, _, _, now, _) =>
      if s.sockets[conn].attached.None? && DueIds(s, now) != {} then Some(Write(First(s, DueIds(s, now)), Expire, now)) else None
    case StepResume(conn, id, _, now) =>
      if id in s.boots && s.sockets[conn].identity.tokenId == s.boots[id].tokenId && Due(s.boots[id], now)
      then Some(Write(id, Expire, now)) else None
    case StepChallengeResponse(conn, id, signature, _, now) =>
      if ProofStands(s, conn, id, signature, now) && Changes(s, id, Cancel(TOKEN_REVOKED), now)
      then Some(Write(id, Cancel(TOKEN_REVOKED), now)) else None
    case StepReceived(conn, id, digest, now) =>
      if s.sockets[conn].attached == Some(id) && Changes(s, id, Consume, now) && s.boots[id].payloadDigest == Some(digest)
      then Some(Write(id, Consume, now)) else None
    case StepDecline(id, reason, now) =>
      if Changes(s, id, Decline(reason), now) then Some(Write(id, Decline(reason), now)) else None
    case StepCancel(id, reason, now) =>
      if Changes(s, id, Cancel(reason), now) then Some(Write(id, Cancel(reason), now)) else None
    case StepCancelLive(tokenId, reason, now) =>
      if Cancelable(s, tokenId) != {} then Some(Write(First(s, Cancelable(s, tokenId)), Cancel(reason), now)) else None
    case StepAlarm(now) => if DueIds(s, now) != {} then Some(Write(First(s, DueIds(s, now)), Expire, now)) else None
    case _ => None
  }

  /** What the handler did before that write: taken the challenge, or fired the alarm. */
  function Before(s: State, step: Step): State {
    match step
    case StepChallengeResponse(_, id, _, _, _) => WithoutChallenges(s, id)
    case StepAlarm(_) => s.(alarm := None)
    case _ => s
  }

  /** The row write alone: no frame, no alarm. `index` and `audit` go on as the session's record of it. */
  function RowOnly(s: State, id: string, change: Change, now: Time): State {
    FireAll(s, {id}, change, now).(sockets := s.sockets)
  }

  /** A handler of an orphaned session: itself when it changes no status, otherwise cut after its first row write. */
  ghost function OrphanNext(s: State, step: Step): State
    requires Enabled(s, step)
  {
    match FirstWrite(s, step)
    case None => Next(s, step)
    case Some(write) => RowOnly(Before(s, step), write.id, write.change, write.now)
  }

  /** The pieces of an approval differ only where the first one expires the boot. */
  ghost function OrphanGo(w: World, move: Move): World
    requires MoveEnabled(w, move)
  {
    match move
    case Handle(step) => w.(core := OrphanNext(w.core, step))
    case BeginCall(_, input, _, now) =>
      var id := input.bootId;
      if id in w.core.boots && w.core.boots[id].status == PENDING && w.core.boots[id].pendingExpiresAt <= now
      then w.(core := RowOnly(w.core, id, Expire, now))
      else Go(w, move)
    case _ => Go(w, move)
  }

  /** What D1 answers such a session: no token, no environment. */
  predicate Bereft(move: Move) {
    match move
    case Handle(StepHello(_, _, environment, _, _, _, _)) => environment.None?
    case Handle(StepChallengeResponse(_, _, _, token, _)) => token.None?
    case AuthoriseCall(_, token, _, _, _) => token.None?
    case CommitCall(_, token, _) => token.None?
    case _ => true
  }

  // ------------------------------------------------------------------ what is kept

  lemma RowOnlyKeeps(s: State, id: string, change: Change, now: Time)
    requires Inv(s) && !change.Approve?
    ensures var t := RowOnly(s, id, change, now);
            && Inv(t) && Grows(s, t) && SameKeys(s, t) && t.sockets == s.sockets
  {
    hide FireAll, BootsOk, ContextsOk, IndexGrows, AuditGrows;
    FireAllKeeps(s, {id}, change, now);
    PrimitivesKeepKeys();
    var t := FireAll(s, {id}, change, now);
    SocketsStillOk(s.boots, t.boots, s.sockets);
    SelfGrows(s);
  }

  lemma BeforeKeeps(s: State, step: Step)
    requires Inv(s) && Enabled(s, step)
    ensures Inv(Before(s, step)) && Grows(s, Before(s, step)) && SameKeys(s, Before(s, step))
    ensures Before(s, step).boots == s.boots && Before(s, step).sockets == s.sockets
  {
    SelfGrows(s);
    if step.StepChallengeResponse? {
      IssueKeeps(s, Challenge(step.id, "", 0));
    }
  }

  lemma OrphanNextKeeps(s: State, step: Step)
    requires Inv(s) && Enabled(s, step)
    ensures var t := OrphanNext(s, step); Inv(t) && Grows(s, t) && SameApprovals(s, t)
    ensures !(step.StepHello? && step.environment.Some?) ==> OrphanNext(s, step).boots.Keys == s.boots.Keys
  {
    hide Inv, Grows, Next, RowOnly, Before, Changes, FirstWrite;
    match FirstWrite(s, step)
    case None =>
      NextKeeps(s, step);
      NextKeepsKeys(s, step);
      if step.StepHello? && step.environment.None? {
        HelloWithoutEnvironment(s, step);
      }
    case Some(write) =>
      var b := Before(s, step);
      BeforeKeeps(s, step);
      RowOnlyKeeps(b, write.id, write.change, write.now);
      GrowsTrans(s, b, RowOnly(b, write.id, write.change, write.now));
  }

  lemma HelloWithoutEnvironment(s: State, step: Step)
    requires Enabled(s, step) && step.StepHello? && step.environment.None?
    ensures Next(s, step).boots.Keys == s.boots.Keys
  {
    hide FireAll, SayTo, PendingOf, FromSource;
    PrimitivesKeepKeys();
  }

  /** Every move of an orphaned session keeps the world and adds no approval and no boot. */
  lemma OrphanKeeps(w: World, move: Move)
    requires WorldInv(w) && MoveEnabled(w, move) && Bereft(move)
    ensures WorldInv(OrphanGo(w, move)) && Grows(w.core, OrphanGo(w, move).core)
    ensures OrphanGo(w, move).core.approvals == w.core.approvals && OrphanGo(w, move).core.boots.Keys == w.core.boots.Keys
  {
    hide Inv, Grows, OrphanNext, RowOnly, Enabled, StoreContext;
    GoKeeps(w, move);
    match move
    case Handle(step) =>
      OrphanNextKeeps(w.core, step);
      CoreMoves(w, OrphanNext(w.core, step));
    case BeginCall(k, input, completing, now) =>
      var id := input.bootId;
      if id in w.core.boots && w.core.boots[id].status == PENDING && w.core.boots[id].pendingExpiresAt <= now {
        RowOnlyKeeps(w.core, id, Expire, now);
        CoreMoves(w, RowOnly(w.core, id, Expire, now));
      } else {
        BeginOpen(w.core, input, now);
      }
    case StoreCall(k, contextId, now) => StoreSame(w.core, w.calls[k], contextId, now);
    case _ =>
  }

  lemma BeginOpen(s: State, input: ApproveInput, now: Time)
    requires input.bootId in s.boots && s.boots[input.bootId].status == PENDING ==> s.boots[input.bootId].pendingExpiresAt > now
    ensures Begin(s, input, now).0 == s
  {
  }

  // ------------------------------------------------------------------ what is never sent

  predicate Mute(frames: seq<ServerFrame>) {
    forall f :: f in frames ==> !f.BootApproved? && !f.BootConsumed?
  }

  /** More was sent, but no payload and no boot.consumed. */
  predicate Hushed(before: seq<ServerFrame>, after: seq<ServerFrame>) {
    before <= after && Mute(after[|before|..])
  }

  function SentTo(s: State, c: nat): seq<ServerFrame> {
    if c in s.sockets then s.sockets[c].sent else []
  }

  /** From one state to the other no socket got a payload or a boot.consumed. */
  ghost predicate Silent(s: State, t: State) {
    s.sockets.Keys <= t.sockets.Keys && forall c :: Hushed(SentTo(s, c), SentTo(t, c))
  }

  lemma SilentTrans(s: State, t: State, u: State)
    requires Silent(s, t) && Silent(t, u)
    ensures Silent(s, u)
  {
    forall c ensures Hushed(SentTo(s, c), SentTo(u, c)) {
      var a, b, d := SentTo(s, c), SentTo(t, c), SentTo(u, c);
      assert Hushed(a, b) && Hushed(b, d);
      assert d[|a|..] == b[|a|..] + d[|b|..];
    }
  }

  lemma SameSocketsSilent(s: State, t: State)
    requires t.sockets == s.sockets
    ensures Silent(s, t)
  {
  }

  lemma AppendHushed(before: seq<ServerFrame>, frames: seq<ServerFrame>)
    requires Mute(frames)
    ensures Hushed(before, before + frames) && Hushed(before, before)
  {
    assert (before + frames)[|before|..] == frames;
  }

  lemma SayToSilent(s: State, conns: set<nat>, frames: seq<ServerFrame>)
    requires Mute(frames)
    ensures Silent(s, SayTo(s, conns, frames))
  {
    forall c ensures Hushed(SentTo(s, c), SentTo(SayTo(s, conns, frames), c)) {
      AppendHushed(SentTo(s, c), frames);
    }
  }

  lemma FireAllSilent(s: State, ids: set<string>, change: Change, now: Time)
    ensures Silent(s, FireAll(s, ids, change, now))
  {
    hide Fires, Fired, Mirrored, AuditOf;
    var t := FireAll(s, ids, change, now);
    forall c ensures Hushed(SentTo(s, c), SentTo(t, c)) {
      if c in s.sockets {
        NotifiedSilent(s, ids, change, now, s.sockets[c]);
      }
    }
  }

  lemma NotifiedSilent(s: State, ids: set<string>, change: Change, now: Time, socket: Socket)
    ensures Hushed(socket.sent, Notified(s, ids, change, now, socket).sent)
  {
    hide Mirrored, AuditOf, Fired;
    AppendHushed(socket.sent, []);
    if Notified(s, ids, change, now, socket) != socket {
      var id := socket.attached.value;
      TerminalIsMute(id, Fired(s.boots[id], change, now).value);
      AppendHushed(socket.sent, TerminalFrames(id, Fired(s.boots[id], change, now).value));
    }
  }

  lemma TerminalIsMute(id: string, boot: Boot)
    ensures Mute(TerminalFrames(id, boot))
  {
  }

  /** Without a token and an environment, no handler that changes no status sends a payload or a boot.consumed. */
  lemma NextSilent(s: State, step: Step)
    requires Enabled(s, step) && Bereft(Handle(step)) && FirstWrite(s, step).None?
    ensures Silent(s, Next(s, step))
  {
    hide FireAll, SayTo, Rearm, Silent, PendingOf, FromSource, HandleResume, HandleChallengeResponse, HandleHello;
    match step
    case StepConnect(conn, identity) => ConnectSilent(s, conn, identity);
    case StepDisconnect(conn) => DisconnectSilent(s, conn);
    case StepMalformed(conn) => SayToSilent(s, {conn}, [BootError(PROTOCOL_ERROR), Close(PROTOCOL_ERROR)]);
    case StepHello(conn, hello, environment, summary, id, now, created) => HelloSilent(s, conn, hello, summary, id, now, created);
    case StepResume(conn, id, challenge, now) => ResumeSilent(s, conn, id, challenge, now);
    case StepChallengeResponse(conn, id, signature, token, now) => ResponseSilent(s, conn, id, signature, now);
    case StepReceived(conn, id, digest, now) =>
      forall code ensures Silent(s, Refuse(s, conn, code)) {
        SayToSilent(s, {conn}, [BootError(code), Close(code)]);
      }
    case StepDecline(id, reason, now) => EndingSilent(s, {id}, Decline(reason), now);
    case StepCancel(id, reason, now) => EndingSilent(s, {id}, Cancel(reason), now);
    case StepCancelLive(tokenId, reason, now) => EndingSilent(s, LiveOf(s, tokenId), Cancel(reason), now);
    case StepAlarm(now) =>
      SameSocketsSilent(s, s.(alarm := None));
      EndingSilent(s.(alarm := None), DueIds(s.(alarm := None), now), Expire, now);
      SilentTrans(s, s.(alarm := None), OnAlarm(s, now));
  }

  lemma ConnectSilent(s: State, conn: nat, identity: Identity)
    ensures Silent(s, Connect(s, conn, identity))
  {
  }

  lemma DisconnectSilent(s: State, conn: nat)
    ensures Silent(s, Disconnect(s, conn))
  {
  }

  lemma EndingSilent(s: State, ids: set<string>, change: Change, now: Time)
    ensures Silent(s, Rearm(FireAll(s, ids, change, now))) && Silent(s, s) && Silent(s, Rearm(s))
  {
    hide FireAll, Silent;
    FireAllSilent(s, ids, change, now);
    SameSocketsSilent(s, s);
    SameSocketsSilent(s, Rearm(s));
    SameSocketsSilent(FireAll(s, ids, change, now), Rearm(FireAll(s, ids, change, now)));
    SilentTrans(s, FireAll(s, ids, change, now), Rearm(FireAll(s, ids, change, now)));
  }

  lemma RefuseSilent(s: State, t: State, conn: nat, code: CloseCode)
    requires Silent(s, t)
    ensures Silent(s, Refuse(t, conn, code))
  {
    hide Silent, SayTo;
    SayToSilent(t, {conn}, [BootError(code), Close(code)]);
    SilentTrans(s, t, Refuse(t, conn, code));
  }

  lemma HelloSilent(s: State, conn: nat, hello: ClientFrame, summary: string, id: string, now: Time, created: Time)
    requires conn in s.sockets && hello.Hello?
    ensures Silent(s, HandleHello(s, conn, hello, None, summary, id, now, created))
  {
    hide FireAll, SayTo, Silent, PendingOf, FromSource, Refuse;
    SameSocketsSilent(s, s);
    FireAllSilent(s, DueIds(s, now), Expire, now);
    RefuseSilent(s, s, conn, PROTOCOL_ERROR);
    forall code ensures Silent(s, Refuse(ExpireDue(s, now), conn, code)) {
      RefuseSilent(s, ExpireDue(s, now), conn, code);
    }
  }

  lemma ResumeSilent(s: State, conn: nat, id: string, challenge: string, now: Time)
    requires conn in s.sockets
    ensures Silent(s, HandleResume(s, conn, id, challenge, now))
  {
    hide FireAll, SayTo, Silent, Refuse, Rearm, TerminalFrames, ExpireIfDue;
    SameSocketsSilent(s, s);
    RefuseSilent(s, s, conn, UNKNOWN_BOOT);
    RefuseSilent(s, s, conn, FORBIDDEN);
    if id in s.boots {
      var t := ExpireIfDue(s, id, now);
      ExpirySilent(s, id, now);
      PrimitivesKeepKeys();
      var u := Issue(t, Challenge(id, challenge, now + CHALLENGE_TTL));
      SameSocketsSilent(t, u);
      SilentTrans(s, t, u);
      SayToSilent(u, {conn}, [BootChallenge(id, challenge)]);
      SilentTrans(s, u, SayTo(u, {conn}, [BootChallenge(id, challenge)]));
      SayingTerminalSilent(s, t, conn, id);
    }
  }

  lemma ExpirySilent(s: State, id: string, now: Time)
    requires id in s.boots
    ensures var t := ExpireIfDue(s, id, now); Silent(s, t) && id in t.boots && t.sockets.Keys == s.sockets.Keys
  {
    hide FireAll, Silent, Rearm;
    PrimitivesKeepKeys();
    EndingSilent(s, {id}, Expire, now);
  }

  lemma SayingTerminalSilent(s: State, t: State, conn: nat, id: string)
    requires Silent(s, t) && conn in t.sockets && id in t.boots
    ensures Silent(s, SayTerminalOnce(t, conn, id))
  {
    hide SayTo, Silent, TerminalFrames;
    TerminalIsMute(id, t.boots[id]);
    SayToSilent(t, {conn}, TerminalFrames(id, t.boots[id]));
    SilentTrans(s, t, SayTo(t, {conn}, TerminalFrames(id, t.boots[id])));
  }

  lemma ResponseSilent(s: State, conn: nat, id: string, signature: Signature, now: Time)
    requires conn in s.sockets
    ensures Silent(s, HandleChallengeResponse(s, conn, id, signature, None, now))
  {
    hide FireAll, SayTo, Silent, Refuse, Rearm, Verify, Outstanding, Proven, AadText.ResumeMessage;
    var t := WithoutChallenges(s, id);
    SameSocketsSilent(s, s);
    SameSocketsSilent(s, t);
    EndingSilent(t, {id}, Cancel(TOKEN_REVOKED), now);
    SilentTrans(s, t, Rearm(FireAll(t, {id}, Cancel(TOKEN_REVOKED), now)));
    RefuseSilent(s, s, conn, UNKNOWN_BOOT);
    RefuseSilent(s, s, conn, PROTOCOL_ERROR);
    RefuseSilent(s, t, conn, PROTOCOL_ERROR);
    RefuseSilent(s, t, conn, FORBIDDEN);
    RefuseSilent(s, Rearm(FireAll(t, {id}, Cancel(TOKEN_REVOKED), now)), conn, FORBIDDEN);
  }

  /** No move of an orphaned session sends a payload or a boot.consumed, on any socket. */
  lemma OrphanSilent(w: World, move: Move)
    requires WorldInv(w) && MoveEnabled(w, move) && Bereft(move)
    ensures Silent(w.core, OrphanGo(w, move).core)
  {
    hide Next, Silent, FirstWrite, Inv, FireAll, Before, Enabled, StoreContext, Rearm;
    SameSocketsSilent(w.core, w.core);
    match move
    case Handle(step) =>
      if FirstWrite(w.core, step).None? {
        NextSilent(w.core, step);
      } else {
        BeforeKeeps(w.core, step);
        SameSocketsSilent(w.core, OrphanNext(w.core, step));
      }
    case BeginCall(k, input, completing, now) =>
      var id := input.bootId;
      if id in w.core.boots && w.core.boots[id].status == PENDING && w.core.boots[id].pendingExpiresAt <= now {
        SameSocketsSilent(w.core, RowOnly(w.core, id, Expire, now));
      } else {
        BeginOpen(w.core, input, now);
      }
    case StoreCall(k, contextId, now) =>
      StoreSame(w.core, w.calls[k], contextId, now);
      SameSocketsSilent(w.core, Go(w, move).core);
    case _ =>
  }

  // ------------------------------------------------------------------ exactly where it is cut

  /** Whether the whole handler would change any row. */
  ghost predicate ChangesRows(s: State, step: Step)
    requires Enabled(s, step)
  {
    exists id :: id in s.boots && (id in Next(s, step).boots ==> Next(s, step).boots[id] != s.boots[id])
  }

  /** One row changed, and nothing that anyone sees: no socket, and no alarm but one that went off. */
  predicate OneRow(s: State, t: State, wentOff: bool) {
    && t.sockets == s.sockets && t.contexts == s.contexts && t.alarm == (if wentOff then None else s.alarm)
    && exists id :: id in s.boots && id in t.boots && t.boots == s.boots[id := t.boots[id]] && t.boots[id] != s.boots[id]
  }

  /** A handler of an orphaned session is cut exactly when the whole one would change a row, and then changes one row
      alone. Otherwise it is the whole handler. */
  lemma CutExactly(s: State, step: Step)
    requires Enabled(s, step) && Bereft(Handle(step))
    ensures ChangesRows(s, step) ==> OneRow(s, OrphanNext(s, step), step.StepAlarm?)
    ensures !ChangesRows(s, step) ==> OrphanNext(s, step) == Next(s, step)
  {
    hide Next, OrphanNext, FirstWrite, ChangesRows, OneRow;
    if FirstWrite(s, step).Some? {
      CutAt(s, step);
    } else {
      CutNowhere(s, step);
    }
  }

  lemma CutNowhere(s: State, step: Step)
    requires Enabled(s, step) && Bereft(Handle(step)) && FirstWrite(s, step).None?
    ensures !ChangesRows(s, step) && OrphanNext(s, step) == Next(s, step)
  {
    hide Next, FirstWrite;
    forall id | id in s.boots ensures id in Next(s, step).boots && Next(s, step).boots[id] == s.boots[id] {
      NothingWritten(s, step, id);
    }
  }

  lemma CutAt(s: State, step: Step)
    requires Enabled(s, step) && Bereft(Handle(step)) && FirstWrite(s, step).Some?
    ensures ChangesRows(s, step) && OneRow(s, OrphanNext(s, step), step.StepAlarm?)
  {
    hide Next, RowOnly, FirstWrite, Changes, Fired, Before;
    var write := FirstWrite(s, step).value;
    FirstWriteChanges(s, step);
    WholeWrites(s, step);
    FiredDiffers(s.boots[write.id], write.change, write.now);
    BeforeTouches(s, step);
    RowOnlyRows(Before(s, step), write.id, write.change, write.now);
    RowOnlyRest(Before(s, step), write.id, write.change, write.now);
  }

  lemma FirstWriteChanges(s: State, step: Step)
    requires Enabled(s, step) && FirstWrite(s, step).Some?
    ensures var write := FirstWrite(s, step).value;
            && Changes(s, write.id, write.change, write.now) && !write.change.Deliver? && write.id in s.boots
            && Changes(Before(s, step), write.id, write.change, write.now)
            && Fired(s.boots[write.id], write.change, write.now).Some?
  {
  }

  lemma BeforeTouches(s: State, step: Step)
    ensures var b := Before(s, step);
            b.boots == s.boots && b.sockets == s.sockets && b.contexts == s.contexts && b.alarm == if step.StepAlarm? then None else s.alarm
  {
  }

  lemma FiredDiffers(b: Boot, change: Change, now: Time)
    requires Fired(b, change, now).Some? && !change.Deliver?
    ensures Fired(b, change, now).value != b
  {
  }

  lemma RowOnlyRest(s: State, id: string, change: Change, now: Time)
    ensures RowOnly(s, id, change, now).contexts == s.contexts && RowOnly(s, id, change, now).boots.Keys == s.boots.Keys
  {
  }

  /** A handler whose first write is missing writes none. */
  lemma NothingWritten(s: State, step: Step, id: string)
    requires Enabled(s, step) && Bereft(Handle(step)) && FirstWrite(s, step).None? && id in s.boots
    ensures id in Next(s, step).boots && Next(s, step).boots[id] == s.boots[id]
  {
    hide FireAll, SayTo, Rearm, Fired, HandleHello, HandleChallengeResponse, TerminalFrames;
    SayingKeepsRows();
    match step
    case StepHello(conn, hello, environment, summary, newId, now, created) => QuietHello(s, conn, hello, summary, newId, now, created);
    case StepChallengeResponse(conn, boot, signature, token, now) => QuietResponse(s, conn, boot, signature, now, id);
    case StepCancelLive(tokenId, reason, now) => QuietCancel(s, tokenId, reason, now, id);
    case StepCancel(boot, reason, now) => FiredAt(s, {boot}, Cancel(reason), now, id);
    case StepAlarm(now) =>
      FiredAt(s.(alarm := None), DueIds(s.(alarm := None), now), Expire, now, id);
    case StepResume(_, _, _, _) =>
    case StepReceived(_, _, _, _) =>
    case StepDecline(boot, reason, now) => FiredAt(s, {boot}, Decline(reason), now, id);
    case _ =>
  }

  lemma QuietHello(s: State, conn: nat, hello: ClientFrame, summary: string, newId: string, now: Time, created: Time)
    requires conn in s.sockets && hello.Hello? && (s.sockets[conn].attached.Some? || DueIds(s, now) == {})
    ensures HandleHello(s, conn, hello, None, summary, newId, now, created).boots == s.boots
  {
    hide FireAll, SayTo, PendingOf, FromSource;
    SayingKeepsRows();
    PrimitivesKeepKeys();
    forall id | id in s.boots && DueIds(s, now) == {} ensures id in ExpireDue(s, now).boots && ExpireDue(s, now).boots[id] == s.boots[id] {
      FiredAt(s, DueIds(s, now), Expire, now, id);
    }
    if DueIds(s, now) == {} {
      assert ExpireDue(s, now).boots == s.boots;
    }
  }

  lemma QuietResponse(s: State, conn: nat, boot: string, signature: Signature, now: Time, id: string)
    requires conn in s.sockets && id in s.boots
    requires !(ProofStands(s, conn, boot, signature, now) && Changes(s, boot, Cancel(TOKEN_REVOKED), now))
    ensures var t := HandleChallengeResponse(s, conn, boot, signature, None, now); id in t.boots && t.boots[id] == s.boots[id]
  {
    hide FireAll, SayTo, Rearm, Verify, Outstanding, AadText.ResumeMessage, Fired;
    SayingKeepsRows();
    FiredAt(WithoutChallenges(s, boot), {boot}, Cancel(TOKEN_REVOKED), now, id);
  }

  lemma QuietCancel(s: State, tokenId: Option<string>, reason: string, now: Time, id: string)
    requires Cancelable(s, tokenId) == {} && id in s.boots
    ensures id in CancelLive(s, tokenId, reason, now).boots && CancelLive(s, tokenId, reason, now).boots[id] == s.boots[id]
  {
    hide FireAll, Rearm;
    SayingKeepsRows();
    FiredAt(s, LiveOf(s, tokenId), Cancel(reason), now, id);
    if id in LiveOf(s, tokenId) {
      assert id !in Cancelable(s, tokenId);
    }
  }

  // ------------------------------------------------------------------ a part of the whole

  lemma FiredAt(s: State, ids: set<string>, change: Change, now: Time, id: string)
    requires id in s.boots
    ensures id in FireAll(s, ids, change, now).boots
    ensures FireAll(s, ids, change, now).boots[id] ==
            if id in ids && Changes(s, id, change, now) then Fired(s.boots[id], change, now).value else s.boots[id]
  {
    hide Fired, Mirrored, AuditOf, Notified;
  }

  lemma SayingKeepsRows()
    ensures forall s, conns, frames :: SayTo(s, conns, frames).boots == s.boots
    ensures forall s :: Rearm(s).boots == s.boots
  {
  }

  lemma HelloWrites(s: State, conn: nat, hello: ClientFrame, summary: string, newId: string, now: Time, created: Time)
    requires conn in s.sockets && hello.Hello? && s.sockets[conn].attached.None?
    ensures HandleHello(s, conn, hello, None, summary, newId, now, created).boots == ExpireDue(s, now).boots
  {
    hide FireAll, SayTo, PendingOf, FromSource;
    SayingKeepsRows();
  }

  lemma ResponseWrites(s: State, conn: nat, id: string, signature: Signature, now: Time)
    requires conn in s.sockets && ProofStands(s, conn, id, signature, now)
    ensures HandleChallengeResponse(s, conn, id, signature, None, now).boots
         == FireAll(WithoutChallenges(s, id), {id}, Cancel(TOKEN_REVOKED), now).boots
  {
    hide FireAll, SayTo, Rearm, Verify, Outstanding, AadText.ResumeMessage;
    SayingKeepsRows();
  }

  /** What the whole handler leaves the row it writes first with. */
  lemma WholeWrites(s: State, step: Step)
    requires Enabled(s, step) && Bereft(Handle(step)) && FirstWrite(s, step).Some?
    ensures var write := FirstWrite(s, step).value;
            && write.id in Next(s, step).boots
            && Next(s, step).boots[write.id] == Fired(s.boots[write.id], write.change, write.now).value
  {
    hide FireAll, SayTo, Rearm, Fired, Transition, HandleHello, HandleChallengeResponse;
    SayingKeepsRows();
    var write := FirstWrite(s, step).value;
    var id := write.id;
    match step
    case StepHello(conn, hello, environment, summary, newId, now, created) =>
      HelloWrites(s, conn, hello, summary, newId, now, created);
      FiredAt(s, DueIds(s, now), Expire, now, id);
    case StepResume(conn, _, challenge, now) => FiredAt(s, {id}, Expire, now, id);
    case StepChallengeResponse(conn, _, signature, token, now) =>
      ResponseWrites(s, conn, id, signature, now);
      FiredAt(WithoutChallenges(s, id), {id}, write.change, now, id);
    case StepReceived(conn, _, digest, now) => FiredAt(s, {id}, Consume, now, id);
    case StepDecline(_, reason, now) => FiredAt(s, {id}, Decline(reason), now, id);
    case StepCancel(_, reason, now) => FiredAt(s, {id}, Cancel(reason), now, id);
    case StepCancelLive(tokenId, reason, now) => FiredAt(s, LiveOf(s, tokenId), Cancel(reason), now, id);
    case StepAlarm(now) => FiredAt(s.(alarm := None), DueIds(s.(alarm := None), now), Expire, now, id);
  }

  /** A survivor that proves itself again is never sent its payload: a PENDING or APPROVED boot is canceled without a
      word, and any other is told its token is no good and keeps its row. */
  lemma SurvivorResumes(s: State, conn: nat, id: string, signature: Signature, now: Time)
    requires conn in s.sockets && ProofStands(s, conn, id, signature, now)
    ensures var t := OrphanNext(s, StepChallengeResponse(conn, id, signature, None, now));
            if s.boots[id].status in {PENDING, APPROVED} then
              && t.boots == s.boots[id := s.boots[id].(status := CANCELED, deliveredFrame := None, terminalReason := Some(TOKEN_REVOKED))]
              && t.sockets == s.sockets
            else
              && t.boots == s.boots && conn in t.sockets
              && t.sockets[conn].sent == s.sockets[conn].sent + [BootError(FORBIDDEN), Close(FORBIDDEN)]
  {
    hide Outstanding, Verify, AadText.ResumeMessage, FireAll, Fired, HandleChallengeResponse;
    CancelMeans(s, id, now);
    var t := WithoutChallenges(s, id);
    if s.boots[id].status in {PENDING, APPROVED} {
      RowOnlyRows(t, id, Cancel(TOKEN_REVOKED), now);
    } else {
      NothingFires(t, id, Cancel(TOKEN_REVOKED), now);
      ResponseRefused(s, conn, id, signature, now);
      SayingKeepsRows();
    }
  }

  lemma CancelMeans(s: State, id: string, now: Time)
    requires id in s.boots
    ensures Changes(s, id, Cancel(TOKEN_REVOKED), now) <==> s.boots[id].status in {PENDING, APPROVED}
    ensures Changes(s, id, Cancel(TOKEN_REVOKED), now) ==>
              Fired(s.boots[id], Cancel(TOKEN_REVOKED), now)
              == Some(s.boots[id].(status := CANCELED, deliveredFrame := None, terminalReason := Some(TOKEN_REVOKED)))
  {
  }

  lemma RowOnlyRows(s: State, id: string, change: Change, now: Time)
    requires Changes(s, id, change, now)
    ensures RowOnly(s, id, change, now).boots == s.boots[id := Fired(s.boots[id], change, now).value]
    ensures RowOnly(s, id, change, now).sockets == s.sockets && RowOnly(s, id, change, now).alarm == s.alarm
  {
    hide Fired, Mirrored, AuditOf, Notified;
  }

  lemma NothingFires(s: State, id: string, change: Change, now: Time)
    requires id in s.boots && !Changes(s, id, change, now)
    ensures FireAll(s, {id}, change, now) == s
  {
    hide Fired, Mirrored, AuditOf;
    assert forall other :: !Fires(s, {id}, change, now, other);
    var t := FireAll(s, {id}, change, now);
    assert t.boots == s.boots && t.index == s.index && t.audit == s.audit && t.sockets == s.sockets;
  }

  lemma ResponseRefused(s: State, conn: nat, id: string, signature: Signature, now: Time)
    requires conn in s.sockets && ProofStands(s, conn, id, signature, now)
    ensures HandleChallengeResponse(s, conn, id, signature, None, now)
         == Refuse(Rearm(FireAll(WithoutChallenges(s, id), {id}, Cancel(TOKEN_REVOKED), now)), conn, FORBIDDEN)
  {
    hide Outstanding, Verify, AadText.ResumeMessage, FireAll, Rearm, Refuse;
  }

  /** A survivor that acknowledges its payload is consumed in its row and never hears of it. */
  lemma SurvivorAcknowledges(s: State, conn: nat, id: string, digest: Digest, now: Time)
    requires conn in s.sockets && s.sockets[conn].attached == Some(id) && id in s.boots
    requires s.boots[id].status == DELIVERED && s.boots[id].payloadDigest == Some(digest)
    ensures var t := OrphanNext(s, StepReceived(conn, id, digest, now));
            && t.boots == s.boots[id := s.boots[id].(status := CONSUMED, deliveredFrame := None, consumedAt := Some(now))]
            && t.sockets == s.sockets && t.alarm == s.alarm
  {
    hide FireAll;
    RowOnlyRows(s, id, Consume, now);
  }

  /** The cut handler does a part of what the whole one does: the row it writes ends as the whole handler leaves
      it, and every other row stays as it was. */
  lemma OrphanDoesAPart(s: State, step: Step, id: string)
    requires Enabled(s, step) && Bereft(Handle(step)) && FirstWrite(s, step).Some? && id in s.boots
    ensures id in OrphanNext(s, step).boots && id in Next(s, step).boots
    ensures OrphanNext(s, step).boots[id] == if id == FirstWrite(s, step).value.id then Next(s, step).boots[id] else s.boots[id]
  {
    hide FirstWrite, Next, Fired;
    var write := FirstWrite(s, step).value;
    WholeWrites(s, step);
    NextHasBoots(s, step, id);
    FiredAt(Before(s, step), {write.id}, write.change, write.now, id);
  }

  lemma NextHasBoots(s: State, step: Step, id: string)
    requires Enabled(s, step) && id in s.boots && (step.StepHello? ==> step.environment.None?)
    ensures id in Next(s, step).boots
  {
    hide Next;
    NextKeepsKeys(s, step);
    if step.StepHello? {
      HelloWithoutEnvironment(s, step);
    }
  }

  lemma StoreSame(s: State, call: Call, contextId: string, now: Time)
    requires call.stage.Loaded?
    ensures var t := Store(s, call.input, call.stage, contextId, now).0;
            t.approvals == s.approvals && t.boots == s.boots && t.sockets == s.sockets
  {
  }
}
