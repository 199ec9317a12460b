/** The boot session core over values: its three tables, the alarm, the sockets, and the D1 rows it
    mirrors. Each function is the whole effect of one handler; BootSession.dfy refines them in place. */
module BootTables {
  import opened Ideal
  import opened Protocol
  import opened AadText

  const MAX_BOOTS_PER_SOURCE := 10
  const RATE_WINDOW := 60_000
  const MAX_PENDING_BOOTS_PER_TOKEN := 3
  const CHALLENGE_TTL := 30_000
  const CONTEXT_TTL := 60_000
  const TOKEN_REVOKED := "bootstrap token revoked"

  /** One row of `boots`. */
  datatype Boot = Boot(
    status: Status, environmentId: string, projectId: string, tokenId: string, sourceIp: Option<string>,
    signingKey: nat, encryptionKey: PublicKey, summary: string, createdAt: Time, pendingExpiresAt: Time,
    approvedAt: Option<Time>, payloadExpiresAt: Option<Time>, deliveredFrame: Option<Payload>,
    payloadDigest: Option<Digest>, consumedAt: Option<Time>, terminalReason: Option<string>)

  datatype Challenge = Challenge(bootId: string, challenge: string, expiresAt: Time)

  /** One row of `approval_contexts`. */
  datatype Context = Context(
    bootId: string, request: Request, contextDigest: Digest, approverUserId: string, approverCredentialId: string,
    expiresAt: Time)

  /** The D1 boot_requests row: a status and one stamp for each lifecycle step. */
  datatype IndexRow = IndexRow(
    status: Status, approvedAt: Option<Time>, declinedAt: Option<Time>, deliveredAt: Option<Time>,
    consumedAt: Option<Time>, expiredAt: Option<Time>, canceledAt: Option<Time>)

  /** The D1 boot_approvals row. */
  datatype Approval = Approval(
    approverUserId: string, approverCredentialId: string, approvedAt: Time, evidenceDigest: Digest, keyMode: KeyMode,
    environmentKeyVersion: nat, releaseContextDigest: Digest)

  /** The boot's lines in the D1 audit log. */
  datatype Audit = Requested | Reconnected | AuditApproved | AuditDelivered(redelivery: bool) | AuditConsumed
                 | AuditExpired | AuditDeclined | AuditCanceled

  datatype Identity = Identity(tokenId: string, sourceIp: string, maxPendingBoots: int)

  datatype Socket = Socket(identity: Identity, attached: Option<string>, open: bool, sent: seq<ServerFrame>)

  datatype State = State(
    environmentId: string, boots: map<string, Boot>, challenges: set<Challenge>, contexts: map<string, Context>,
    alarm: Option<Time>, sockets: map<nat, Socket>, index: map<string, IndexRow>, audit: map<string, seq<Audit>>,
    approvals: map<string, Approval>)

  /** What a handler reads from D1 besides its own rows. */
  datatype Environment =
    Environment(projectId: string, keyMode: KeyMode, currentKeyVersion: nat, pendingTtl: int, approvedTtl: int)
  datatype Token = Token(revoked: bool, expiresAt: Option<Time>)

  predicate TokenValid(token: Option<Token>, now: Time) {
    token.Some? && !token.value.revoked && (token.value.expiresAt.None? || token.value.expiresAt.value > now)
  }

  // ------------------------------------------------------------------ status changes

  /** Everything that may write `boots.status`, with the columns written beside it. */
  datatype Change = Approve(payload: Payload, summary: string) | Decline(reason: string) | Expire | Cancel(cause: string)
                  | Deliver | Consume

  function EventFor(status: Status, change: Change): Event {
    match change
    case Approve(_, _) => ApproveEvent
    case Decline(_) => DeclineEvent
    case Expire => if status == PENDING then ExpirePendingEvent else ExpirePayloadEvent
    case Cancel(_) => CancelEvent
    case Deliver => if status == APPROVED then DeliverEvent else RedeliverEvent
    case Consume => ConsumeEvent
  }

  function Fired(boot: Boot, change: Change, now: Time): Option<Boot> {
    match Transition(boot.status, EventFor(boot.status, change))
    case None => None
    case Some(to) =>
      var moved := boot.(status := to);
      Some(match change
           case Approve(payload, summary) =>
             moved.(approvedAt := Some(now), payloadExpiresAt := Some(payload.payloadExpiresAt),
                    deliveredFrame := Some(payload), payloadDigest := Some(OfFrame(payload)), summary := summary)
           case Decline(reason) => moved.(deliveredFrame := None, terminalReason := Some(reason))
           case Expire =>
             moved.(deliveredFrame := None,
                    terminalReason := Some(if boot.status == PENDING then "pending ttl elapsed" else "payload ttl elapsed"))
           case Cancel(reason) => moved.(deliveredFrame := None, terminalReason := Some(reason))
           case Deliver => moved
           case Consume => moved.(deliveredFrame := None, consumedAt := Some(now)))
  }

  /** COALESCE(new stamp, old stamp), one column per change. A redelivery mirrors nothing. */
  function Mirrored(row: IndexRow, from: Status, to: Status, change: Change, now: Time): IndexRow {
    if change.Deliver? && from != APPROVED then row
    else
      var moved := row.(status := to);
      match change
      case Approve(_, _) => moved.(approvedAt := Some(now))
      case Decline(_) => moved.(declinedAt := Some(now))
      case Expire => moved.(expiredAt := Some(now))
      case Cancel(_) => moved.(canceledAt := Some(now))
      case Deliver => moved.(deliveredAt := Some(now))
      case Consume => moved.(consumedAt := Some(now))
  }

  function AuditOf(from: Status, change: Change): Audit {
    match change
    case Approve(_, _) => AuditApproved
    case Decline(_) => AuditDeclined
    case Expire => AuditExpired
    case Cancel(_) => AuditCanceled
    case Deliver => AuditDelivered(from != APPROVED)
    case Consume => AuditConsumed
  }

  function TerminalFrames(id: string, boot: Boot): seq<ServerFrame> {
    var reason := if boot.terminalReason.Some? then boot.terminalReason.value else "";
    [match boot.status
     case DECLINED => BootDeclined(id, if reason == "" then None else Some(reason))
     case EXPIRED => BootExpired(id)
     case CANCELED => BootCanceled(id, if reason == "" then "canceled" else reason)
     case _ => BootError(TERMINAL),
     Close(TERMINAL)]
  }

  predicate Fires(s: State, ids: set<string>, change: Change, now: Time, id: string) {
    id in ids && id in s.boots && Fired(s.boots[id], change, now).Some?
  }

  /** Apply one change to a set of boots at once: row, mirrored index row, audit line and, for an ending
      the workload did not cause, the terminal frame on every attached socket. */
  function FireAll(s: State, ids: set<string>, change: Change, now: Time): State {
    s.(boots := map id | id in s.boots ::
                  if Fires(s, ids, change, now, id) then Fired(s.boots[id], change, now).value else s.boots[id],
       index := map id | id in s.index ::
                  if Fires(s, ids, change, now, id) then
                    Mirrored(s.index[id], s.boots[id].status, Fired(s.boots[id], change, now).value.status, change, now)
                  else s.index[id],
       audit := map id | id in s.audit ::
                  if Fires(s, ids, change, now, id) then s.audit[id] + [AuditOf(s.boots[id].status, change)] else s.audit[id],
       sockets := map c | c in s.sockets :: Notified(s, ids, change, now, s.sockets[c]))
  }

  function Notified(s: State, ids: set<string>, change: Change, now: Time, socket: Socket): Socket {
    if socket.open && socket.attached.Some? && Fires(s, ids, change, now, socket.attached.value)
       && (change.Decline? || change.Expire? || change.Cancel?)
    then
      var id := socket.attached.value;
      socket.(sent := socket.sent + TerminalFrames(id, Fired(s.boots[id], change, now).value))
    else socket
  }

  // ------------------------------------------------------------------ reads

  predicate Live(boot: Boot) {
    boot.status in {PENDING, APPROVED, DELIVERED}
  }

  function Deadline(boot: Boot): Option<Time> {
    if boot.status == PENDING then Some(boot.pendingExpiresAt) else boot.payloadExpiresAt
  }

  predicate Due(boot: Boot, now: Time) {
    Live(boot) && Deadline(boot).Some? && Deadline(boot).value <= now
  }

  function DueIds(s: State, now: Time): set<string> {
    set id | id in s.boots && Due(s.boots[id], now)
  }

  function PendingOf(s: State, tokenId: string): set<string> {
    set id | id in s.boots && s.boots[id].tokenId == tokenId && s.boots[id].status == PENDING
  }

  /** Boots of one source address created after `after`, up to `until` when given. */
  function FromSource(s: State, sourceIp: string, after: Time, until: Option<Time>): set<string> {
    set id | id in s.boots && s.boots[id].sourceIp == Some(sourceIp) && s.boots[id].createdAt > after
             && (until.Some? ==> s.boots[id].createdAt <= until.value)
  }

  function AttachedTo(sockets: map<nat, Socket>, id: string): set<nat> {
    set c | c in sockets && sockets[c].open && sockets[c].attached == Some(id)
  }

  ghost function AnyOf<T>(choices: set<T>): (choice: T)
    requires choices != {}
    ensures choice in choices
  {
    var c :| c in choices; c
  }

  ghost function MinOf(times: set<int>): (least: Option<int>)
    ensures times == {} <==> least.None?
    ensures least.Some? ==> least.value in times && forall t :: t in times ==> least.value <= t
  {
    if times == {} then None
    else
      var t := AnyOf(times);
      var rest := times - {t};
      assert times == rest + {t};
      if rest == {} then Some(t)
      else
        var least := MinOf(rest);
        Some(if t < least.value then t else least.value)
  }

  function Deadlines(s: State): set<Time> {
    set id | id in s.boots && Live(s.boots[id]) && Deadline(s.boots[id]).Some? :: Deadline(s.boots[id]).value
  }

  /** The Durable Object keeps one alarm and only ever lowers it; null clears it. */
  function Scheduled(alarm: Option<Time>, at: Option<Time>): Option<Time> {
    if at.None? then None else if alarm.None? || alarm.value > at.value then at else alarm
  }

  ghost function Rearm(s: State): State {
    s.(alarm := Scheduled(s.alarm, MinOf(Deadlines(s))))
  }

  // ------------------------------------------------------------------ sockets

  function SayTo(s: State, conns: set<nat>, frames: seq<ServerFrame>): State {
    s.(sockets := Said(s.sockets, conns, frames))
  }

  function Said(sockets: map<nat, Socket>, conns: set<nat>, frames: seq<ServerFrame>): map<nat, Socket> {
    map c | c in sockets :: if c in conns then sockets[c].(sent := sockets[c].sent + frames) else sockets[c]
  }

  function Refuse(s: State, conn: nat, code: CloseCode): State {
    SayTo(s, {conn}, [BootError(code), Close(code)])
  }

  function Attach(s: State, conn: nat, id: string): State
    requires conn in s.sockets
  {
    s.(sockets := s.sockets[conn := s.sockets[conn].(attached := Some(id))])
  }

  function Log(s: State, id: string, entry: Audit): State {
    if id in s.audit then s.(audit := s.audit[id := s.audit[id] + [entry]]) else s
  }

  // ------------------------------------------------------------------ handlers

  function Connect(s: State, conn: nat, identity: Identity): State {
    if conn in s.sockets then s else s.(sockets := s.sockets[conn := Socket(identity, None, true, [])])
  }

  function Disconnect(s: State, conn: nat): State {
    if conn in s.sockets then s.(sockets := s.sockets[conn := s.sockets[conn].(open := false)]) else s
  }

  function ExpireDue(s: State, now: Time): State {
    FireAll(s, DueIds(s, now), Expire, now)
  }

  ghost function OnAlarm(s: State, now: Time): State {
    Rearm(ExpireDue(s.(alarm := None), now))
  }

  function Limit(identity: Identity): int {
    if identity.maxPendingBoots > 0 then identity.maxPendingBoots else MAX_PENDING_BOOTS_PER_TOKEN
  }

  function NewBoot(s: State, identity: Identity, hello: ClientFrame, environment: Environment, summary: string,
                   created: Time): Boot
    requires hello.Hello?
  {
    Boot(PENDING, s.environmentId, environment.projectId, identity.tokenId,
         if identity.sourceIp == "" then None else Some(identity.sourceIp), hello.signingKey, hello.encryptionKey,
         summary, created, created + environment.pendingTtl * 1000, None, None, None, None, None, None)
  }

  function Insert(s: State, id: string, boot: Boot): State {
    s.(boots := s.boots[id := boot],
       index := s.index[id := IndexRow(PENDING, None, None, None, None, None, None)],
       audit := s.audit[id := [Requested]])
  }

  /** boot.hello. `now` is the clock when the limits are checked, `created` when the row is written. A
      repeated boot id breaks the primary key and the handler ends there. */
  ghost function HandleHello(s: State, conn: nat, hello: ClientFrame, environment: Option<Environment>, summary: string,
                             id: string, now: Time, created: Time): State
    requires conn in s.sockets && hello.Hello?
  {
    var identity := s.sockets[conn].identity;
    if s.sockets[conn].attached.Some? then Refuse(s, conn, PROTOCOL_ERROR)
    else
      var t := ExpireDue(s, now);
      if identity.sourceIp != "" && |FromSource(t, identity.sourceIp, now - RATE_WINDOW, None)| >= MAX_BOOTS_PER_SOURCE
      then Refuse(t, conn, RATE_LIMITED)
      else if |PendingOf(t, identity.tokenId)| >= Limit(identity) then Refuse(t, conn, CONFLICT)
      else if environment.None? then Refuse(t, conn, UNKNOWN_BOOT)
      else if id in t.boots then t
      else
        var boot := NewBoot(t, identity, hello, environment.value, summary, created);
        Rearm(SayTo(Attach(Insert(t, id, boot), conn, id), {conn}, [BootPending(id, boot.pendingExpiresAt)]))
  }

  ghost function ExpireIfDue(s: State, id: string, now: Time): State
    requires id in s.boots
  {
    if Due(s.boots[id], now) then Rearm(FireAll(s, {id}, Expire, now)) else s
  }

  /** The terminal frame, unless the socket already got it as an attached one. */
  function SayTerminalOnce(s: State, conn: nat, id: string): State
    requires conn in s.sockets && id in s.boots
  {
    if s.sockets[conn].attached == Some(id) then s else SayTo(s, {conn}, TerminalFrames(id, s.boots[id]))
  }

  function WithoutChallenges(s: State, id: string): State {
    s.(challenges := set c | c in s.challenges && c.bootId != id)
  }

  function Issue(s: State, challenge: Challenge): State {
    var t := WithoutChallenges(s, challenge.bootId);
    t.(challenges := t.challenges + {challenge})
  }

  ghost function HandleResume(s: State, conn: nat, id: string, challenge: string, now: Time): State
    requires conn in s.sockets
  {
    if id !in s.boots then Refuse(s, conn, UNKNOWN_BOOT)
    else if s.sockets[conn].identity.tokenId != s.boots[id].tokenId then Refuse(s, conn, FORBIDDEN)
    else
      var t := ExpireIfDue(s, id, now);
      if IsTerminal(t.boots[id].status) then SayTerminalOnce(t, conn, id)
      else SayTo(Issue(t, Challenge(id, challenge, now + CHALLENGE_TTL)), {conn}, [BootChallenge(id, challenge)])
  }

  function Outstanding(s: State, id: string): set<Challenge> {
    set c | c in s.challenges && c.bootId == id
  }

  /** The stored payload to some sockets, under the deliver or redeliver guard. */
  function DeliverTo(s: State, id: string, conns: set<nat>, now: Time): State
    requires id in s.boots
  {
    var boot := s.boots[id];
    if boot.deliveredFrame.None? || conns == {} || Fired(boot, Deliver, now).None? then s
    else FireAll(SayTo(s, conns, [BootApproved(boot.deliveredFrame.value)]), {id}, Deliver, now)
  }

  ghost function HandleChallengeResponse(s: State, conn: nat, id: string, signature: Signature, token: Option<Token>,
                                         now: Time): State
    requires conn in s.sockets
  {
    if id !in s.boots then Refuse(s, conn, UNKNOWN_BOOT)
    else if Outstanding(s, id) == {} then Refuse(s, conn, PROTOCOL_ERROR)
    else
      var challenge := AnyOf(Outstanding(s, id));
      var t := WithoutChallenges(s, id);
      if challenge.expiresAt <= now then Refuse(t, conn, PROTOCOL_ERROR)
      else if !Verify(s.boots[id].signingKey, ResumeMessage(id, challenge.challenge), signature)
      then Refuse(t, conn, PROTOCOL_ERROR)
      else if s.sockets[conn].identity.tokenId != s.boots[id].tokenId then Refuse(t, conn, FORBIDDEN)
      else if !TokenValid(token, now) then Refuse(Rearm(FireAll(t, {id}, Cancel(TOKEN_REVOKED), now)), conn, FORBIDDEN)
      else Proven(t, conn, id, now)
  }

  /** The proof verified and the token stands: attach, unless the boot has ended. */
  ghost function Proven(s: State, conn: nat, id: string, now: Time): State
    requires conn in s.sockets && id in s.boots
  {
    var t := ExpireIfDue(s, id, now);
    if IsTerminal(t.boots[id].status) then SayTerminalOnce(t, conn, id)
    else Resumed(Log(Attach(t, conn, id), id, Reconnected), conn, id, now)
  }

  /** After the proof: report the state and, once approved, send the payload again. */
  function Resumed(s: State, conn: nat, id: string, now: Time): State
    requires id in s.boots
  {
    var boot := s.boots[id];
    if boot.status == PENDING then SayTo(s, {conn}, [BootResumed(id, PENDING, boot.pendingExpiresAt)])
    else
      var until := if boot.payloadExpiresAt.Some? then boot.payloadExpiresAt.value else now;
      var status := if boot.status == APPROVED then APPROVED else DELIVERED;
      DeliverTo(SayTo(s, {conn}, [BootResumed(id, status, until)]), id, {conn}, now)
  }

  ghost function HandleReceived(s: State, conn: nat, id: string, digest: Digest, now: Time): State
    requires conn in s.sockets
  {
    if s.sockets[conn].attached != Some(id) || id !in s.boots then Refuse(s, conn, UNKNOWN_BOOT)
    else if s.boots[id].payloadDigest != Some(digest) then Refuse(s, conn, PROTOCOL_ERROR)
    else if Fired(s.boots[id], Consume, now).None?
    then Refuse(s, conn, if IsTerminal(s.boots[id].status) then TERMINAL else CONFLICT)
    else Rearm(SayTo(FireAll(s, {id}, Consume, now), {conn}, [BootConsumed(id), Close(NORMAL)]))
  }

  ghost function DeclineBoot(s: State, id: string, reason: string, now: Time): State {
    if Fires(s, {id}, Decline(reason), now, id) then Rearm(FireAll(s, {id}, Decline(reason), now)) else s
  }

  ghost function CancelBoot(s: State, id: string, reason: string, now: Time): State {
    if id in s.boots then Rearm(FireAll(s, {id}, Cancel(reason), now)) else s
  }

  /** Cancel the live boots of one token, or of the whole environment. */
  ghost function CancelLive(s: State, token: Option<string>, reason: string, now: Time): State {
    Rearm(FireAll(s, LiveOf(s, token), Cancel(reason), now))
  }

  function LiveOf(s: State, token: Option<string>): set<string> {
    set id | id in s.boots && Live(s.boots[id]) && (token.None? || s.boots[id].tokenId == token.value)
  }

  /** The live boots a cancellation still ends: not those already DELIVERED. */
  function Cancelable(s: State, tokenId: Option<string>): set<string> {
    set id | id in LiveOf(s, tokenId) && s.boots[id].status in {PENDING, APPROVED}
  }

  // ------------------------------------------------------------------ approval tables

  /** Store a prepared context after clearing the expired ones; a repeated id breaks the primary key. */
  function StoreContext(s: State, context: Context, now: Time): State {
    var kept := map id | id in s.contexts && s.contexts[id].expiresAt > now :: s.contexts[id];
    s.(contexts := if context.request.contextId in kept then kept else kept[context.request.contextId := context])
  }

  /** The commit of an approval: row, contexts dropped, index, approval record, audit, delivery, alarm. */
  ghost function CommitApproval(s: State, id: string, payload: Payload, summary: string, approval: Approval, now: Time): State
    requires id in s.boots
  {
    var fired := FireAll(s, {id}, Approve(payload, summary), now);
    var t := fired.(contexts := map c | c in s.contexts && s.contexts[c].bootId != id :: s.contexts[c],
                    approvals := s.approvals[id := approval]);
    Rearm(DeliverTo(t, id, AttachedTo(t.sockets, id), now))
  }
}
