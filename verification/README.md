# Keevault: a verified model

Keevault hands a workload its secrets after a person approves that one boot. This project models the parts
where that promise is kept or lost, and proves what they keep:

- **The boot protocol.** The server's boot session core (three tables, an alarm, sockets, a mirrored index row and
  an audit log) and the Go client that connects, reconnects, pins the first payload it accepts, acknowledges it and
  executes its command only after the server confirms. `BootTables` gives each handler's whole effect as a function;
  `BootSession` has the class that does it in place, method by method, proved equal to that function,
  `BootOutcomes` says exactly when each handler does what it is for, `BootReplies` and `BootEndings` what every socket
  hears, `ApprovalOutcomes` when each piece of an approval goes on, and `Reconnection` joins what one program sends to
  what the other makes of it. `Approvals` cuts an approval at each of its awaits and `ApprovalRuns` lets anything run in between; `ResumeProofs`
  cuts the resume handlers in the same way and `ResumeRefinement` ties its pieces to the handlers.
- **The encrypted vault.** Master key, project key, environment key, secret. `VaultTables` has the operations with
  every prefix of their writes, `VaultStore` the class that performs them, `VaultRefinement` and `VaultRuns` the proof
  that all of it is a plain map, `VaultOutcomes` which key every row is
  under afterwards. `SecretRace` models concurrent writers of one secret step by step.
- **Key release and the whole system.** `CloudRuns` puts vault, approvals and key releases in one world;
  `KeyReleases` is one release from check to
  envelope; `EndToEnd` adds the client over connections that deliver in order and may drop anywhere. `Orphaned` is the
  session once its environment, and with it its tokens and D1 rows, is gone; `Deletion` is what that means to both
  programs.
- **Codecs.** Base64url, hex, IPv4 and IPv6 text, CIDR blocks, UTF-8, canonical JSON for manifests in both languages, and
  the canonical verification summary, both with a reader written from the JSON grammar.
- **Two algorithms.** The type-alias evaluator of the lint rules, with `TypeMeaning` for what it computes, and the release
  catalogue's version comparison.

The main results are `EndToEnd.ExecMeansConsumed`, `CloudRuns.ApprovedPayloadDecrypts`, `VaultRuns.VaultIsAPlainMap`,
`BootTheorems.ApprovalAgreesWithContext`, `BootTheorems.LeftPendingNeverApproved`,
`ApprovalOutcomes.CommitsExactly`, `ApprovalOutcomes.RevokedNeverApproved`, `Reconnection.ReconnectionSucceeds`,
`Reconnection.PayloadLaunches`, `VaultOutcomes.OlderProjectKeysCanGo`,
`ResumeProofs.AttachmentsMatchChallenges`, `SecretRace.RowsStayBound`, `Manifest.CanonicalIsUnique`,
`Base64Url.DecodesExactly`, `Ipv6Grammar.GrammarExactly`, `TypeMeaning.MatchesBySubstitution` and
`SemVer.ComparesByPrecedence`. They hold for every input, every run or every reachable state.

`dafny verify dfyconfig.toml` checks everything.

## Assumptions

Cryptography is idealised in `Ideal`: a box opens under the key, nonce and additional data it was sealed with and
under nothing else, a digest is injective, a signature names its signer and message, a key agreement is symmetric
and refuses a low-order point. Ids from the generators are non-empty and free of line feeds; a new secret id is not
in use. Each handler is one atomic step, except that approvals and resume proofs are cut at their awaits. A key
rotation is exclusive with the writers of what it rotates: its batch rewrites the rows as they stand. Approvals and
releases may run between its two writes. The clock read when a boot is inserted is not before the one
its limits were checked with. D1 writes of a handler are taken not to fail while the environment stands, so the tail of
a commit (index row, approval record, audit line) is one step; once it is gone they always do. The theorems about the
session alone (`BootInvariants` to `BootTheorems`, `BootLimits`) are about one whose environment stands.

## What the code does not do

- An import is not atomic. Each entry is its own upsert, so a database failure leaves a prefix of the file stored and
  returns an error (`VaultRuns.CutImportKeepsTheFirst`). `VaultRuns.ImportRefines` states what every cut leaves, and
  `VaultRuns.ImportIsSilentExactly` exactly when the contents are as before.
- A rotation of an environment or project key that stops between inserting the new key row and the batch blocks every
  later rotation of that environment or project: the retry computes the same next version and collides with the row
  left behind (`VaultRuns.CutRotationInterrupts`, `VaultRuns.InterruptedForever`,
  `VaultRuns.CutProjectRotationInterrupts`, `VaultRuns.ProjectInterruptedForever`). Nothing is lost and reads keep
  working; `VaultRuns.RotateEnvironmentRefines` and `VaultRuns.RotateProjectRefines` state exactly when a rotation
  completes.
- A client told boot.consumed before any payload launches its command with the stripped base alone, and its required
  secrets are never looked for (`ClientSession.ConsumedFirstLaunchesTheBase`). `ClientSession.LaunchIsPinned` states
  exactly when they are there; `EndToEnd.ExecMeansConsumed` shows that this server never does it.
- After an environment is deleted, a handler that changes a boot's status ends in an error right after the row write,
  because the index row it mirrors to is gone: the workload is told nothing and the alarm is not rearmed.
  `Orphaned.SurvivorResumes` says exactly which boots this happens to on a resume, `Orphaned.SurvivorAcknowledges` what
  becomes of an acknowledgement. Nothing is approved or delivered by it (`Deletion.DeletionIsFinal`).
- The type-alias evaluator opens an alias with everything its user had bound, so a parameter reaches into other aliases
  that use the same name: `type Outer<A> = Inner; type Inner = A; type A = number` makes `Outer<string>` a string
  (`TypeAlias.ParameterLeaks`). `TypeAlias.StepsAgreeExactly` says exactly which lookups differ from the language's own,
  and `TypeAlias.ScopedMatches` that none does when no alias uses another's parameter name.
- The IPv6 parser accepts a dotted quad before `::`, which the address grammar does not
  (`IpText.QuadBeforeCompression`); `Ipv6Grammar.GrammarExactly` shows that these are the only texts it accepts beyond
  the grammar.
- The newline-joined AAD and resume texts bind their fields only because no field contains a line feed
  (`AadText.LineFeedBreaksBinding`); `AadText.LinesCollideExactly` says exactly which fields share a text. Names are
  checked for line feeds and ids are generated without one.

## Model

| member | source | states |
|---|---|---|
| `Protocol.TerminalIsStuck` | packages/protocol/src/state.ts:39-97 | a status is terminal exactly when no event leaves it |
| `BootInvariants.FiredKeepsBoot` | apps/control-plane/src/server/durable-objects/boot-session-core.ts:422-427 | any accepted status change keeps a boot consistent: frame exactly in APPROVED and DELIVERED and hashing to the stored digest, one stamp per step, and an audit log that still replays to the new status |
| `BootInvariants.FireAllKeeps` | apps/control-plane/src/server/durable-objects/boot-session-core.ts:422-427 | changing any set of boots at once keeps every table invariant, and only grows the history |
| `BootInvariants.AppendOk` | apps/control-plane/src/server/durable-objects/boot-session-core.ts:818-865 | frames appended to a socket stay true of the boots, and a normal close is only ever sent right after boot.consumed |
| `BootRuns.HelloKeeps` | apps/control-plane/src/server/durable-objects/boot-session-core.ts:515-638 | boot.hello keeps the invariant on every branch, a broken primary key included, and rewrites no earlier boot |
| `BootRuns.ResumeKeeps` | apps/control-plane/src/server/durable-objects/boot-session-core.ts:640-669 | boot.resume keeps the invariant: an overdue boot is expired first, and one challenge replaces any other |
| `BootRuns.ChallengeResponseKeeps` | apps/control-plane/src/server/durable-objects/boot-session-core.ts:671-760 | the challenge response keeps the invariant on all eight outcomes, the cancellation of a revoked token included |
| `BootRuns.ReceivedKeeps` | apps/control-plane/src/server/durable-objects/boot-session-core.ts:769-809 | boot.received keeps the invariant; only a delivered boot with the acknowledged digest is consumed |
| `BootRuns.NextKeeps` | apps/control-plane/src/server/durable-objects/boot-session-core.ts:481-513 | every handler keeps the whole-table invariant, and what it leaves behind extends what was there |
| `BootSession.BootSessionCore.Apply` | apps/control-plane/src/server/durable-objects/boot-session-core.ts:422-427 | writes the table's next status, or leaves the row alone and reports the rejected pair |
| `BootSession.BootSessionCore.RecomputeAlarm` | apps/control-plane/src/server/durable-objects/boot-session-core.ts:429-439 | afterwards the stored alarm is the earlier of itself and the least live deadline, or cleared when nothing is live |
| `BootSession.BootSessionCore.Expire` | apps/control-plane/src/server/durable-objects/boot-session-core.ts:869-881 | expiring one row in place is the set-wise expiry of that boot: row, index, audit line, terminal frame on each attached socket |
| `BootSession.BootSessionCore.ExpireDue` | apps/control-plane/src/server/durable-objects/boot-session-core.ts:899-912 | the loop over live boots expires exactly the overdue ones, whatever their order |
| `BootSession.BootSessionCore.OnAlarm` | apps/control-plane/src/server/durable-objects/boot-session-core.ts:924-927 | the alarm handler expires what is due and rearms for the rest |
| `BootSession.BootSessionCore.CancelAll` | apps/control-plane/src/server/durable-objects/boot-session-core.ts:1233-1251 | both bulk cancels end exactly the cancelable boots chosen, in any order, and count them |
| `BootSession.BootSessionCore.CancelBoot` | apps/control-plane/src/server/durable-objects/boot-session-core.ts:1214-1226 | true exactly when the boot was PENDING or APPROVED; then it is canceled and the alarm rearmed |
| `BootSession.BootSessionCore.Decline` | apps/control-plane/src/server/durable-objects/boot-session-core.ts:1190-1211 | true exactly when the boot was PENDING; then it is declined, its sockets told, the alarm rearmed |
| `BootSession.BootSessionCore.Deliver` | apps/control-plane/src/server/durable-objects/boot-session-core.ts:818-831 | a first delivery moves the row to DELIVERED; a later one sends the same stored frame and changes nothing but the audit log |
| `BootSession.BootSessionCore.HandleHello` | apps/control-plane/src/server/durable-objects/boot-session-core.ts:515-638 | the in-place handler has exactly the effect whose limits and invariants are proved: refusals first, expiry before counting, one row inserted and attached |
| `BootSession.BootSessionCore.ExpireIfDue` | apps/control-plane/src/server/durable-objects/boot-session-core.ts:888-896 | returns the row as it now is: expired when its deadline has passed, otherwise untouched |
| `BootSession.BootSessionCore.HandleResume` | apps/control-plane/src/server/durable-objects/boot-session-core.ts:640-669 | the in-place handler has the specified effect on all four outcomes |
| `BootSession.BootSessionCore.Redeem` | apps/control-plane/src/server/durable-objects/boot-session-core.ts:682-690 | takes the one outstanding challenge of a boot, and afterwards the boot has none |
| `BootSession.BootSessionCore.HandleChallengeResponse` | apps/control-plane/src/server/durable-objects/boot-session-core.ts:671-760 | the in-place handler spends the challenge before it checks expiry, signature, owner and token, in that order |
| `BootSession.BootSessionCore.HandleReceived` | apps/control-plane/src/server/durable-objects/boot-session-core.ts:769-809 | the in-place handler refuses an unattached socket, a wrong digest and a wrong status, and otherwise consumes the boot |
| `BootSession.BootSessionCore.StorePrepared` | apps/control-plane/src/server/durable-objects/boot-session-core.ts:932-979 | stores the context while the boot is still PENDING, after dropping expired ones, and returns what it stored |
| `BootSession.BootSessionCore.RecordApproval` | apps/control-plane/src/server/durable-objects/boot-session-core.ts:1061-1095 | one approval writes the row, the index, the approval record and the audit log, and drops every context of the boot |
| `BootSession.BootSessionCore.CommitReady` | apps/control-plane/src/server/durable-objects/boot-session-core.ts:1037-1105 | true exactly when token, deadlines and the row read again still allow it; then the approval is recorded and delivered to the attached sockets |
| `BootSession.FireMore` | apps/control-plane/src/server/durable-objects/boot-session-core.ts:899-912 | firing boots one at a time, in any order, equals firing them together |
| `ApprovalRuns.GoKeeps` | apps/control-plane/src/server/durable-objects/boot-session-core.ts:932-1105 | with approvals cut at their awaits, every piece of every approval and every handler keeps the world invariant |
| `ApprovalRuns.RunKeeps` | apps/control-plane/src/server/durable-objects/boot-session-core.ts:422-476 | along any run tables only grow: a digest, a frame's bytes and each lifecycle stamp are written once |
| `ApprovalRuns.ReachableIsConsistent` | apps/control-plane/src/server/durable-objects/boot-session-core.ts:769-912 | every reachable state is consistent, row by row and call by call |
| `BootTheorems.LeftPendingNeverApproved` | apps/control-plane/src/server/durable-objects/boot-session-core.ts:1052-1073 | a boot that left PENDING without approval has no approval record and no digest after any further run |
| `BootTheorems.ApprovalIsFinal` | apps/control-plane/src/server/durable-objects/boot-session-core.ts:1061-1095 | an approval record, and the digest it put in the row, survive every run unchanged |
| `BootTheorems.TerminalIsFinal` | apps/control-plane/src/server/durable-objects/boot-session-core.ts:422-427 | a terminal row is the same row after any run |
| `BootTheorems.CommitsOnce` | apps/control-plane/src/server/durable-objects/boot-session-core.ts:1052-1105 | a commit that changes anything is its boot's first, adds one record, and leaves no context another commit could use |
| `BootTheorems.ApprovalAgreesWithContext` | apps/control-plane/src/server/durable-objects/boot-session-core.ts:997-1095 | every approval record names a prepared context of the same approver that agrees with the stored frame on boot, recipient, key version, evidence and secrets |
| `BootTheorems.OneApprovalEach` | apps/control-plane/src/server/durable-objects/boot-session-core.ts:1061-1095 | approval records and boots with a payload digest are the same set |
| `BootTheorems.RedeliveriesAreIdentical` | apps/control-plane/src/server/durable-objects/boot-session-core.ts:818-831 | any two payloads ever sent for one boot, on any sockets, are equal |
| `BootTheorems.AuditReplays` | apps/control-plane/src/server/durable-objects/boot-session-core.ts:443-476 | replaying a boot's audit events through the transition table gives its status, which the mirrored row also carries |
| `BootTheorems.OneChallenge` | apps/control-plane/src/server/durable-objects/boot-session-core.ts:654-668 | two outstanding challenges of one boot are the same challenge |
| `BootTheorems.AttachmentNeedsProof` | apps/control-plane/src/server/durable-objects/boot-session-core.ts:671-735 | a socket becomes a boot's socket only by creating it or by a response that is unexpired, signed by its key, from its token's owner, with the token still valid |
| `BootInvariants.FireAllRows` | packages/vault-store/src/repositories/boot-requests.ts:135-169 | the mirrored index row follows the authoritative one, stamp by stamp, with COALESCE keeping earlier stamps |
| `BootLimits.NextAlarm` | apps/control-plane/src/server/durable-objects/boot-session-core.ts:429-439 | every handler leaves an alarm at or before the earliest live deadline |
| `BootLimits.ReachableAlarm` | apps/control-plane/src/server/durable-objects/environment-session.ts:116-125 | in every reachable state each live boot has a deadline, and the only-ever-lowered alarm is set at or before it |
| `BootLimits.AlarmLeavesNothingDue` | apps/control-plane/src/server/durable-objects/boot-session-core.ts:899-927 | after the alarm handler no live boot has a deadline at or before now |
| `BootLimits.InsertRate` | apps/control-plane/src/server/durable-objects/boot-session-core.ts:541-557 | one look back over 60 seconds keeps every window of 60 seconds, wherever it starts, at ten boots |
| `BootLimits.ReachableLimits` | apps/control-plane/src/server/durable-objects/boot-session-core.ts:394-416 | along every run no window of 60 seconds holds more than ten boots of one address, and no token with a fixed limit exceeds it in PENDING boots |
| `BootOutcomes.ExpiresExactly` | apps/control-plane/src/server/durable-objects/boot-session-core.ts:869-912 | expiry ends exactly the live boots past their deadline, with the reason their status gives, and changes no other row |
| `BootOutcomes.CancelsExactly` | apps/control-plane/src/server/durable-objects/boot-session-core.ts:1233-1272 | a bulk cancellation ends exactly the chosen PENDING and APPROVED boots; delivered ones go on |
| `BootOutcomes.HelloExactly` | apps/control-plane/src/server/durable-objects/boot-session-core.ts:515-638 | boot.hello adds a boot exactly when its socket has none, the environment is known, the id is new and both limits allow it, boots past their deadline not counting |
| `BootOutcomes.ChallengesExactly` | apps/control-plane/src/server/durable-objects/boot-session-core.ts:640-669 | a challenge is issued exactly for an open boot to its own token, replacing every other of that boot; otherwise no challenge changes |
| `BootOutcomes.AttachesExactly` | apps/control-plane/src/server/durable-objects/boot-session-core.ts:671-735 | a response attaches its socket exactly when its proof is good and the boot open; good or bad it spends the boot's challenge and no other |
| `BootOutcomes.ProofDelivers` | apps/control-plane/src/server/durable-objects/boot-session-core.ts:735-760 | after a good proof the socket hears where the boot stands, and an approved or delivered one gets the stored payload again, once |
| `BootOutcomes.DeliversExactly` | apps/control-plane/src/server/durable-objects/boot-session-core.ts:818-831 | each given socket gets the stored frame once and the row is DELIVERED, exactly when there is a frame to send and someone to send it to |
| `BootOutcomes.ConsumesExactly` | apps/control-plane/src/server/durable-objects/boot-session-core.ts:769-809 | boot.received consumes exactly a DELIVERED boot of its own socket with the stored digest, and changes no other row |
| `BootEndings.DeclinesExactly` | apps/control-plane/src/server/durable-objects/boot-session-core.ts:833-866 | a decline takes effect exactly on a PENDING boot: its row is DECLINED for that reason, each of its open sockets hears boot.declined with the reason (or without an empty one) and is closed, D1 is told, and nothing else changes |
| `BootEndings.CancelsOneExactly` | apps/control-plane/src/server/durable-objects/boot-session-core.ts:1214-1226 | the same for a cancellation: exactly on a PENDING or APPROVED boot, with boot.canceled and its reason |
| `BootEndings.ExpiryExactly` | apps/control-plane/src/server/durable-objects/boot-session-core.ts:869-912 | an overdue boot is EXPIRED with the reason of its status, and its open sockets, no others, hear boot.expired and are closed |
| `BootEndings.CancellationExactly` | apps/control-plane/src/server/durable-objects/boot-session-core.ts:1233-1251 | a bulk cancellation ends, in the row, the index and the audit log, exactly the PENDING and APPROVED boots it is for |
| `BootEndings.CancellationTells` | apps/control-plane/src/server/durable-objects/boot-session-core.ts:833-866 | and each open socket of those boots hears boot.canceled with the reason, every other socket nothing |
| `BootEndings.FramesOfEnding` | apps/control-plane/src/server/durable-objects/boot-session-core.ts:833-866 | a terminal boot is told to a workload as what it is: declined with its reason, expired, canceled with its reason, or finished |
| `BootEndings.RearmsExactly` | apps/control-plane/src/server/durable-objects/boot-session-core.ts:429-439 | the alarm is off exactly when no boot is live; otherwise it is at or before every live deadline, and either at one of them or left alone because it was earlier |
| `BootReplies.HelloSays` | apps/control-plane/src/server/durable-objects/boot-session-core.ts:515-638 | boot.hello is answered by the first of five refusals that applies, or by boot.pending with the deadline of its row |
| `BootReplies.HelloWrites` | apps/control-plane/src/server/durable-objects/boot-session-core.ts:578-626 | an admitted boot is stored with the keys it showed, the token and address of its socket and its PENDING deadline |
| `BootReplies.ResumeSays` | apps/control-plane/src/server/durable-objects/boot-session-core.ts:640-669 | boot.resume is refused for an unknown or foreign boot, challenged for an open one, and told the ending, once, of one that is over or overdue |
| `BootReplies.ResponseRefuses` | apps/control-plane/src/server/durable-objects/boot-session-core.ts:671-718 | a response that does not prove its boot changes no boot and is refused with the code of the first check it fails |
| `BootReplies.RevokedResponse` | apps/control-plane/src/server/durable-objects/boot-session-core.ts:719-733 | a good proof under a missing, revoked or expired token cancels the boot, if it is PENDING or APPROVED, and is refused |
| `BootReplies.ResponseAnswers` | apps/control-plane/src/server/durable-objects/boot-session-core.ts:735-760 | a good proof under a valid token attaches the socket, logs the reconnection and is told status and deadline, with the stored payload after approval |
| `BootReplies.ReceivedSays` | apps/control-plane/src/server/durable-objects/boot-session-core.ts:769-809 | boot.received is confirmed and closed normally exactly when it consumes the boot; otherwise one refusal says why, and no other socket hears anything |
| `ApprovalOutcomes.BeginsExactly` | apps/control-plane/src/server/durable-objects/boot-session-core.ts:1108-1124 | an approval begins exactly on a PENDING boot within its deadline; an overdue one is expired instead |
| `ApprovalOutcomes.AuthorisesExactly` | apps/control-plane/src/server/durable-objects/boot-session-core.ts:1126-1165 | it goes on exactly with a token that is there, unrevoked and unexpired, an environment that is there, evidence the policy lets through, and the digest of that evidence |
| `ApprovalOutcomes.PreparesExactly` | apps/control-plane/src/server/durable-objects/boot-session-core.ts:932-979 | a request is prepared exactly while the boot is PENDING within its deadline under a fresh context id; it names boot, recipient, key version, evidence and snapshot, and lasts a minute at most |
| `ApprovalOutcomes.ChecksExactly` | apps/control-plane/src/server/durable-objects/boot-session-core.ts:997-1036 | a completion passes exactly with a live context of this boot and approver, under the digest given, made for this recipient, key, evidence and snapshot |
| `ApprovalOutcomes.CommitsExactly` | apps/control-plane/src/server/durable-objects/boot-session-core.ts:1037-1105 | a commit takes effect exactly when the token read again is there, unrevoked and unexpired, neither deadline has passed and the row is PENDING in time; then row, record, contexts, index, audit and sockets are those of one approval, and otherwise nothing changes |
| `ApprovalOutcomes.ApprovalWaitsForReturn` | apps/control-plane/src/server/durable-objects/boot-session-core.ts:818-831 | a boot whose only connection has gone is approved, not delivered: nobody hears, and the row keeps the payload for its return |
| `ApprovalOutcomes.RevokedNeverApproved` | apps/control-plane/src/server/durable-objects/boot-session-core.ts:1037-1056 | from the moment every read of its token finds it revoked or gone, a boot not approved yet never is, over any run and however far its approval had got |
| `ResumeProofs.AttachmentsMatchChallenges` | apps/control-plane/src/server/durable-objects/boot-session-core.ts:671-735 | with handlers interleaved at every await, each attachment spent one unexpired challenge of its own boot signed by that boot's key, and no two spent the same |
| `ResumeProofs.OneOutstandingRow` | apps/control-plane/src/server/durable-objects/boot-session-core.ts:654-668 | under the same interleavings no boot ever has two challenge rows |
| `ResumeRefinement.ResponseIsTakeThenFinish` | apps/control-plane/src/server/durable-objects/boot-session-core.ts:671-735 | run without interruption, the taking and finishing pieces leave the challenges and keys the handler leaves, and attach a proof exactly when it attaches the socket |
| `ResumeRefinement.ResumeIsIssue` | apps/control-plane/src/server/durable-objects/boot-session-core.ts:640-669 | the resume handler is the issuing piece exactly when it issues a challenge, and otherwise none |
| `ResumeRefinement.HelloIsNewBoot` | apps/control-plane/src/server/durable-objects/boot-session-core.ts:515-638 | boot.hello makes one boot's key known exactly when it is admitted |
| `ResumeRefinement.OthersStutter` | apps/control-plane/src/server/durable-objects/boot-session-core.ts:481-513 | no other handler touches a challenge, a key or a boot's existence |
| `VaultRuns.PutRefines` | apps/control-plane/src/server/vault/secrets.ts:61-101 | a put through three key layers gives the plain map's result or the plain map's error, and its new contents |
| `VaultRuns.ImportRefines` | apps/control-plane/src/server/vault/secrets.ts:198-252 | an import assigns its entries in order, as many as the database lets through; it succeeds exactly when no refusal applies and every write went through, and then its counters add up and created is the growth; refused or cut before its first write it changes nothing |
| `VaultRuns.ImportIsSilentExactly` | apps/control-plane/src/server/vault/secrets.ts:190-252 | an import is not all or nothing: it leaves the contents as they were exactly when every assignment that went through repeats the stored value |
| `VaultRuns.CutImportKeepsTheFirst` | apps/control-plane/src/server/vault/secrets.ts:190-252 | of two entries cut after the first, the first is stored, the second is not, and the caller gets a database error |
| `VaultRuns.DeleteRefines` | apps/control-plane/src/server/vault/secrets.ts:153-175 | a delete removes that name and succeeds exactly when it was there |
| `VaultRuns.CreateProjectRefines` | apps/control-plane/src/server/vault/projects.ts:100-149 | however many of the three writes happen the vault stays sound; success gives a key that unwraps |
| `VaultRuns.CreateEnvironmentRefines` | apps/control-plane/src/server/vault/projects.ts:199-335 | however many of the writes happen the vault stays sound; its refusals, those of missing, malformed or unusable owner keys included, are exactly the plain ones |
| `VaultRuns.DeleteEnvironmentRefines` | apps/control-plane/src/server/vault/projects.ts:353-377 | removes the environment and its values, and nothing else |
| `VaultRuns.DeleteProjectRefines` | apps/control-plane/src/server/vault/projects.ts:164-187 | removes the project with all its environments and their values, and nothing else |
| `VaultRuns.RotateEnvironmentRefines` | apps/control-plane/src/server/vault/rotation.ts:64-172 | every prefix of the rotation keeps contents and every stored key; it completes exactly when no row stands at the next version |
| `VaultRuns.RotateProjectRefines` | apps/control-plane/src/server/vault/rotation.ts:185-273 | every prefix of the rewrap keeps contents and the DEK of every environment key, retired ones too |
| `VaultRuns.ReencryptMovesAll` | apps/control-plane/src/server/vault/rotation.ts:97-130 | every secret of the environment is moved to the new key with its value unchanged |
| `VaultRuns.StepRefines` | packages/crypto/src/hierarchy.ts:36-132 | each vault operation commutes with the plain store's |
| `VaultRuns.VaultIsAPlainMap` | packages/crypto/src/hierarchy.ts:69-132 | after any run from empty of operations complete or cut short, imports included, decrypting each row gives the plain map's last value, at the environment's current key version, and every stored key unwraps |
| `VaultRuns.KeysSurviveRuns` | apps/control-plane/src/server/vault/keys.ts:209-290 | a stored environment key unwraps to its original DEK after any run that keeps its row |
| `VaultRuns.CutRotationInterrupts` | apps/control-plane/src/server/vault/rotation.ts:132-150 | a rotation that stops between its two writes leaves the environment with a row at the next version |
| `VaultRuns.InterruptedForever` | apps/control-plane/src/server/vault/rotation.ts:132-150 | from then on every later rotation of that environment is refused and changes nothing, whatever runs in between |
| `VaultRuns.CutProjectRotationInterrupts` | apps/control-plane/src/server/vault/rotation.ts:237-261 | a project rotation that stops between its two writes leaves the project with a row at the next version |
| `VaultRuns.ProjectInterruptedForever` | apps/control-plane/src/server/vault/rotation.ts:237-261 | from then on every later rotation of that project is refused and changes nothing |
| `VaultRuns.RotationIsTwoSteps` | apps/control-plane/src/server/vault/rotation.ts:132-150 | inserting the key row and running the batch later is the whole rotation |
| `VaultRuns.ProjectRotationIsTwoSteps` | apps/control-plane/src/server/vault/rotation.ts:237-250 | the same for a project rotation |
| `VaultRuns.FinishEnvironmentRefines` | apps/control-plane/src/server/vault/rotation.ts:140-150 | the batch keeps contents and every key in any sound vault that holds its key row, whatever ran since the row went in |
| `VaultRuns.FinishProjectRefines` | apps/control-plane/src/server/vault/rotation.ts:245-250 | the same for a project rotation's batch |
| `VaultRuns.MovedCiphertextFails` | packages/crypto/src/hierarchy.ts:102-132 | a ciphertext put under another name, id, version or environment does not decrypt |
| `VaultRuns.DekWhenReady` | apps/control-plane/src/server/vault/keys.ts:209-255 | in a sound vault an environment key unwraps exactly when its creation finished |
| `VaultOutcomes.ProjectCreated` | apps/control-plane/src/server/vault/projects.ts:100-149 | a new project's first key row is sealed under the active master key at version 1, and each refusal has its error |
| `VaultOutcomes.EnvironmentCreated` | apps/control-plane/src/server/vault/projects.ts:199-335 | a new CLOUD environment's first key row opens under its project's current key to the key given, and each refusal has its error in order |
| `VaultOutcomes.ColdEnvironmentCreated` | apps/control-plane/src/server/vault/projects.ts:199-335 | a COLD environment is created exactly with two owner keys of 32 bytes in base64url that the libraries take; each refusal has its error in order |
| `VaultOutcomes.MasterKeyActivates` | apps/control-plane/src/server/vault/keys.ts:101-117 | projects created after a master key was added are wrapped under it exactly if it was made the active one |
| `VaultOutcomes.UpsertsExactly` | packages/vault-store/src/repositories/secrets.ts:61-98 | the conditional upsert replaces exactly the row at the expected id and version and adds one exactly where none was expected and the id is unused; its EXISTS adds nothing |
| `VaultOutcomes.PutsExactly` | apps/control-plane/src/server/vault/secrets.ts:61-101 | a put fails with the error of the first thing wrong; otherwise it changes that one row, to the next version of its id, sealed under the current key for its own columns |
| `VaultOutcomes.EnvironmentRotationFails` | apps/control-plane/src/server/vault/rotation.ts:64-172 | the error of an environment rotation, exactly and in order; in a sound vault nothing else can fail it |
| `VaultOutcomes.EnvironmentRotationKeys` | apps/control-plane/src/server/vault/rotation.ts:64-172 | a finished rotation's new key row opens under the project's current key to the new key, the former row is retired and no other key row changes |
| `VaultOutcomes.EnvironmentRotationSecrets` | apps/control-plane/src/server/vault/rotation.ts:97-130 | every secret of the environment keeps id, version and value and opens under the new key at the new key version; every other is untouched |
| `VaultOutcomes.ProjectRotationFails` | apps/control-plane/src/server/vault/rotation.ts:185-273 | the error of a project rotation, exactly and in order |
| `VaultOutcomes.ProjectRotationKeys` | apps/control-plane/src/server/vault/rotation.ts:185-273 | a finished rotation has a new project key row sealed under the active master key, the former one retired, and nothing but environment key rows changed besides |
| `VaultOutcomes.ProjectRotationRewraps` | apps/control-plane/src/server/vault/rotation.ts:203-250 | every key row of the project's CLOUD environments, retired ones included, is at the new project key version and opens under the new project key to the key it had; every other is untouched |
| `VaultOutcomes.OlderProjectKeysCanGo` | packages/vault-store/src/repositories/environment-keys.ts:178-194 | with every older project key row dropped, each environment key of the project still unwraps to the key it was |
| `VaultRefinement.SwitchKeeps` | packages/vault-store/src/repositories/environment-keys.ts:131-152 | the two-statement switch, with every secret moved, keeps soundness and contents |
| `VaultRefinement.RewrapKeeps` | packages/vault-store/src/repositories/environment-keys.ts:178-194 | rewrapping each key row keeps soundness, contents and every DEK |
| `VaultRefinement.AddMasterKeyKeeps` | apps/control-plane/src/server/vault/keys.ts:101-117 | a new master key, active or not, loses nothing wrapped under the others |
| `VaultStore.Store.UpsertSecretReplace` | packages/vault-store/src/repositories/secrets.ts:61-98 | the row is written exactly when its version and id are the expected ones, or it is new |
| `VaultStore.Store.WriteSecret` | apps/control-plane/src/server/vault/secrets.ts:112-146 | the in-place write seals for the row it read and reports whether it created or replaced |
| `VaultStore.Store.PutSecret` | apps/control-plane/src/server/vault/secrets.ts:61-101 | in place: the abstract contents and the result are those of a put into a plain map |
| `VaultStore.Store.ImportDotenv` | apps/control-plane/src/server/vault/secrets.ts:198-252 | in place: the checks before any write, then as many assignments as the database lets through, and every key and other value kept |
| `VaultStore.Store.WriteEntries` | apps/control-plane/src/server/vault/secrets.ts:221-234 | the loop of writes and its two counters are the fold of writes, cut where the database stops |
| `VaultStore.Store.DeleteSecret` | apps/control-plane/src/server/vault/secrets.ts:153-175 | the in-place delete has the specified effect and error |
| `VaultStore.Store.CreateProject` | apps/control-plane/src/server/vault/projects.ts:100-149 | the three writes in place, complete or cut short, keep the vault sound and every key |
| `VaultStore.Store.CreateEnvironment` | apps/control-plane/src/server/vault/projects.ts:199-335 | the same for an environment, its refusals included |
| `VaultStore.Store.RotateEnvironmentKey` | apps/control-plane/src/server/vault/rotation.ts:64-172 | the loop, the key insert and the batch leave the abstract contents unchanged and every key readable, also when the batch fails |
| `VaultStore.Store.ReencryptSecrets` | apps/control-plane/src/server/vault/rotation.ts:97-130 | the loop fails exactly when some row does not open, and otherwise collects rewrites that together re-encrypt the environment |
| `VaultStore.Store.RotateProjectKey` | apps/control-plane/src/server/vault/rotation.ts:185-273 | the project rotation in place leaves the abstract contents unchanged, also when the batch fails |
| `VaultStore.Store.RewrapKeys` | apps/control-plane/src/server/vault/rotation.ts:203-235 | the loop rewraps every key row of the project, retired ones included |
| `VaultStore.Store.RunBatch` | apps/control-plane/src/server/vault/rotation.ts:140-148 | the batch applies every rewrite by secret id and then the switch, as one write |
| `SecretRace.AcceptedReadLatest` | packages/vault-store/src/repositories/secrets.ts:61-98 | the conditional upsert takes a writer exactly when the row is still what it read, and then it read the last accepted write |
| `SecretRace.RowsStayBound` | apps/control-plane/src/server/vault/secrets.ts:112-146 | under any interleaving of readers, sealers, upserts and deletes, each row opens under its own columns to a value some accepted write put there, and accepted writes form chains |
| `SecretRace.NoLostUpdate` | packages/vault-store/src/repositories/secrets.ts:61-98 | no two accepted writes of one secret replaced the same row |
| `Utf8.LimitCountsBytes` | apps/control-plane/src/server/vault/secrets.ts:48-56 | the size a value is refused by is the length of its UTF-8 encoding |
| `Utf8.EncodeInjective` | apps/control-plane/src/server/vault/secrets.ts:48-56 | the encoding determines the text |
| `AadText.SecretAadBinds` | packages/crypto/src/aad.ts:60-70 | two secret AAD texts agree exactly when all six fields do |
| `AadText.EnvironmentKeyAadBinds` | packages/crypto/src/aad.ts:40-48 | the same for the four fields of an environment key |
| `AadText.KindsAreDisjoint` | packages/crypto/src/aad.ts:23-90 | texts whose first lines differ never coincide, whatever their other fields hold, so no kind opens as another |
| `AadText.LinesCollideExactly` | packages/crypto/src/aad.ts:23-90 | two field lists share a text exactly when splitting every field at line feeds gives the same lines |
| `AadText.JoinLines` | apps/env-client/internal/vaultcrypto/aad.go:5-21 | the byte-appending loop writes the newline-joined text, without a trailing newline |
| `Release.EnvelopeOpensOnlyForItsBoot` | packages/crypto/src/envelope.ts:92-162 | an envelope opens to the key for its own boot, environment, version and client key, and for no other combination |
| `Release.DeliveryIsSnapshot` | packages/vault-store/src/repositories/secrets.ts:112-125 | the rows delivered from a sound vault open, in name order, to exactly the environment's plain values |
| `Release.DeliveryExists` | packages/vault-store/src/repositories/secrets.ts:112-125 | the list delivered for an environment exists and there is one only: all its secrets, in strict name order |
| `KeyReleases.ReleasesExactly` | apps/control-plane/src/server/vault/key-release.ts:44-114 | a release gives an envelope exactly for a CLOUD environment that is there, in the project and at the key version requested, and a usable recipient key; it is sealed to that recipient and holds the current environment key |
| `CloudRuns.CloudKeeps` | apps/control-plane/src/server/vault/key-release.ts:44-114 | every step of vault, approvals and releases keeps what is known of every stored frame, context and envelope |
| `CloudRuns.ApprovedPayloadDecrypts` | apps/control-plane/src/server/vault/cloud-approval.ts:20-51 | for every interleaving, the two writes of a rotation apart included, an approved payload within 4096 records and 1 MiB passes the client's checks and decrypts to exactly the plain map of the snapshot its context was prepared with |
| `Deletion.DeletionIsFinal` | apps/control-plane/src/server/vault/projects.ts:353-377 | deleting the session's environment, or its project, empties its D1 rows, and from then on no boot of it is approved, sent a payload or told it is consumed, whatever was in flight and whether or not the cancellation got through |
| `Deletion.EndedIsOver` | apps/control-plane/src/server/durable-objects/boot-session-core.ts:763-767 | over every run after the end the approvals ever recorded, the boots there are and what was sent of payloads and confirmations stay as they were, and D1 holds no index row or approval of the session |
| `Deletion.DeletionCancels` | apps/control-plane/src/server/vault/projects.ts:70-88 | when the cancellation before a deletion got through, no boot is PENDING or APPROVED after it |
| `Deletion.LaunchNeedsConsumedBefore` | apps/env-client/internal/client/approval.go:162-183 | after the end a client launches only if its boot was CONSUMED, and the confirmation sent, before the end |
| `Orphaned.OrphanKeeps` | apps/control-plane/src/server/durable-objects/boot-session-core.ts:463-476 | without its environment every handler and approval piece still keeps rows, sockets, contexts and challenges consistent, and adds no approval and no boot |
| `Orphaned.OrphanSilent` | apps/control-plane/src/server/durable-objects/boot-session-core.ts:463-476 | without its environment no handler or approval piece sends a payload or a boot.consumed on any socket |
| `Orphaned.OrphanDoesAPart` | packages/vault-store/src/repositories/boot-requests.ts:135-169 | a handler cut at the missing index row leaves the row it wrote as the whole handler would, and every other row untouched |
| `Orphaned.CutExactly` | apps/control-plane/src/server/durable-objects/boot-session-core.ts:463-476 | a handler is cut exactly when the whole one would change a row, and then changes that one row and no socket; otherwise it is the whole handler |
| `Orphaned.SurvivorResumes` | apps/control-plane/src/server/durable-objects/boot-session-core.ts:671-728 | a proven resume of a PENDING or APPROVED survivor cancels its row without a word; any other survivor keeps its row and is told FORBIDDEN |
| `Orphaned.SurvivorAcknowledges` | apps/control-plane/src/server/durable-objects/boot-session-core.ts:795-809 | a DELIVERED survivor that acknowledges is CONSUMED in its row, hears nothing, and the alarm is not rearmed |
| `ClientSession.PinHolds` | apps/env-client/internal/client/approval.go:16-67 | whatever frame comes, from an honest server or not, the pinned payload never moves and only its digest is acknowledged |
| `ClientSession.LoopKeepsPin` | apps/env-client/internal/client/session.go:274-315 | the same over a whole connection |
| `ClientSession.SnapshotValues` | apps/env-client/internal/client/approval.go:69-139 | a snapshot decrypts in full, to exactly the map it is a snapshot of |
| `ClientSession.DecryptedIsBuildable` | apps/env-client/internal/client/approval.go:69-139 | what decrypts has valid, distinct names in record order, so building the environment cannot fail on it |
| `ClientSession.LaunchIsPinned` | apps/env-client/internal/client/approval.go:162-183 | a session launches exactly when confirmed, with the secrets of the payload it pinned over the stripped base, or none if it pinned none; the required secrets are all there exactly when a payload was pinned or none is required |
| `ClientOutcomes.DecryptsExactly` | apps/env-client/internal/client/approval.go:69-139 | a list decrypts exactly when each record is at the envelope's key version, has a valid name of its own and opens under its own AAD; then value by value |
| `ClientOutcomes.ApprovedExactly` | apps/env-client/internal/client/approval.go:16-67 | a payload is taken exactly when it is for this boot and environment, agrees with the pin, decrypts and holds what is required; taking it pins it and acknowledges its digest, and each refusal has its exit code |
| `ClientOutcomes.MalformedIsRefused` | apps/env-client/internal/protocol/codec.go:187-230 | a frame over the limits or with a field missing ends the client with nothing used |
| `ClientOutcomes.ClosesReachTheClient` | apps/env-client/internal/client/session.go:355-386 | a normal close confirms exactly after an acknowledgement; every other code has its outcome |
| `ClientOutcomes.LoopStopsFirst` | apps/env-client/internal/client/session.go:274-315 | the loop stops at the first frame that ends it, whatever follows, and a loop cut in two is the loop |
| `Reconnection.AnswerVerifies` | apps/env-client/internal/client/session.go:388-401 | a client's answer to its boot's challenge passes the server's signature check: fed to the server within the challenge's life it attaches the socket, which is told where the boot stands and given any stored payload |
| `Reconnection.ReconnectionSucceeds` | apps/control-plane/src/server/durable-objects/boot-session-core.ts:640-760 | resume, challenge and answer together let a client back in whenever the answer comes within thirty seconds and the boot is still open |
| `Reconnection.PayloadLaunches` | apps/env-client/internal/client/approval.go:16-67 | an approved boot's payload that the client can take goes through: acknowledged, consumed, confirmed, and launched with its secrets |
| `Reconnection.EndingsReachTheClient` | apps/env-client/internal/client/session.go:274-315 | an ending told by the server makes the client exit as declined exactly when the boot was declined, and as expired otherwise |
| `Reconnection.DeclinedExitIsTrue` | apps/env-client/internal/client/session.go:274-315 | a client exits as declined only if its boot is DECLINED |
| `Reconnection.RefusalsReachTheClient` | apps/env-client/internal/client/session.go:324-333 | of all refusals only a rate limit is retried |
| `ClientLoop.Session.DecryptPayload` | apps/env-client/internal/client/approval.go:69-139 | the loop with its seen set gives all records or none |
| `ClientLoop.Session.HandleApproved` | apps/env-client/internal/client/approval.go:16-67 | the in-place handler pins, re-acknowledges a repeated digest, and refuses another one |
| `ClientLoop.Session.Loop` | apps/env-client/internal/client/session.go:274-386 | the read loop has the specified outcome and keeps the pin |
| `ClientLoop.Session.Launch` | apps/env-client/internal/client/approval.go:162-183 | looks the command up, builds the environment only after confirmation, wipes the secrets on every path after it, and gives the exit code of whatever failed |
| `ChildEnv.BuildEnv` | apps/env-client/internal/run/env.go:41-77 | the index-map loops write the specified environment, or none for an invalid name |
| `ChildEnv.ChildSees` | apps/env-client/internal/run/env.go:41-77 | each name has its secret, else the parent's last value unless stripped; no name appears twice |
| `ChildEnv.SecretsKeepPositions` | apps/env-client/internal/run/env.go:41-77 | adding secrets moves no inherited variable |
| `ChildEnv.BuildsExactly` | apps/env-client/internal/run/env.go:41-77 | the environment is built exactly when every secret has a valid name and no two share one |
| `ChildEnv.NewSecretsAppend` | apps/env-client/internal/run/env.go:41-77 | behind the inherited variables come exactly the secrets whose names were not there, in order |
| `EndToEnd.ConsumedNeedsReceived` | apps/control-plane/src/server/durable-objects/boot-session-core.ts:769-809 | boot.consumed goes to a socket only for an acknowledgement of the stored digest on that socket |
| `EndToEnd.ConsumedConfirms` | apps/env-client/internal/client/session.go:274-386 | reading boot.consumed, or the normal close after it, means the pinned boot is consumed under the pinned digest |
| `EndToEnd.SystemKeeps` | apps/env-client/internal/client/session.go:112-204 | dialing, dropping, reading and serving frames in any order keep the joint invariant of client and server |
| `EndToEnd.ExecMeansConsumed` | apps/env-client/internal/client/approval.go:162-183 | over connections that may drop anywhere, a launch means the boot is CONSUMED, exactly one approval was recorded for it and its record is in D1 exactly while the environment is, every digest acknowledged is the stored one, and the child holds exactly the approved secrets over the stripped base |
| `Base64Url.DecodesExactly` | packages/crypto/src/encoding.ts:40-98 | a text decodes to bytes exactly when encoding those bytes gives that text |
| `Base64Url.DecodesWhenCanonical` | packages/crypto/src/encoding.ts:69-98 | a text is accepted exactly when every character is in the alphabet, its length is not 1 modulo 4 and its slack bits are zero |
| `Base64Url.PatternsMatchEncodings` | packages/protocol/src/formats.ts:15-28 | the 12, 32, 48 and 64 byte patterns match exactly the encodings of that many bytes |
| `Base64Url.AccumulatorStep` | packages/crypto/src/encoding.ts:69-98 | the never-masked accumulator, wrapped to 32 bits at each shift, still holds the pending bits and yields the right byte |
| `Base64Url.FillBuffer` | packages/crypto/src/encoding.ts:79-93 | the loop fills the buffer it was given exactly, with the bytes read, or reports a bad character |
| `Base64Url.B64uDecode` | packages/crypto/src/encoding.ts:69-98 | the in-place decoder gives the decoding or throws, and never writes outside its buffer |
| `Base64Url.B64uEncode` | packages/crypto/src/encoding.ts:40-66 | the in-place encoder writes the encoding |
| `Hex.HexDecode` | packages/crypto/src/encoding.ts:111-125 | accepts exactly even-length hex; encoding the result gives the text in lower case |
| `Hex.HexEncode` | packages/crypto/src/encoding.ts:101-108 | writes two lowercase digits a byte |
| `Hex.HexInjective` | packages/crypto/src/encoding.ts:101-125 | hex text determines the bytes |
| `IpText.Ipv4Exactly` | packages/crypto/src/cidr.ts:40-50 | a dotted quad parses to four bytes exactly when it is their printed form |
| `IpText.Ipv6RoundTrip` | packages/crypto/src/cidr.ts:62-166 | printing then parsing is the identity on all 16-byte addresses, and the text compresses the first longest zero run of at least two groups, as section 4.2 of RFC 5952 asks |
| `IpText.NormalizeIsCanonical` | packages/crypto/src/cidr.ts:128-173 | normalising is idempotent, and two texts normalise alike exactly when they name one address, the IPv4-mapped collapse included |
| `IpText.PrintIpv6` | packages/crypto/src/cidr.ts:141-166 | the printer's loops write a text that parses back to the bytes |
| `IpText.FindRun` | packages/crypto/src/cidr.ts:146-160 | the scan finds the first longest run of zero groups |
| `IpText.QuadBeforeCompression` | packages/crypto/src/cidr.ts:71-102 | the input "1.2.3.4::" is accepted, with the quad in the last four bytes |
| `Ipv6Grammar.GrammarExactly` | packages/crypto/src/cidr.ts:62-113 | the grammar of section 2.2 of RFC 4291 accepts exactly the texts the parser accepts that have no dotted quad before the compression, with the same bytes |
| `Ipv6Grammar.MappedCollapses` | packages/crypto/src/cidr.ts:128-139 | an IPv4 address written in IPv6 form parses and normalises to the IPv4 address |
| `Cidr.BytesInPrefix` | packages/crypto/src/cidr.ts:200-209 | the byte loop and the mask decide equality of the leading bits |
| `Cidr.PrefixIsDivision` | packages/crypto/src/cidr.ts:200-209 | membership holds exactly when both big-endian values agree after division by 2 to the w - p |
| `Cidr.BlocksPartitionAndNest` | packages/crypto/src/cidr.ts:200-209 | blocks of one length are an equivalence, and a longer prefix lies inside each shorter one |
| `Cidr.ParsesExactly` | packages/crypto/src/cidr.ts:182-197 | a text is a block exactly when it is an address, a slash and the decimal numeral of a length that fits it |
| `Cidr.PolicyExactly` | packages/crypto/src/cidr.ts:221-224 | an address passes exactly a policy without blocks or one with a block of its family whose leading bits it shares |
| `Cidr.MatchCidr` | packages/crypto/src/cidr.ts:212-218 | false for texts that do not parse and for mismatched families, otherwise the leading-bits test |
| `Cidr.AllowedBySpelling` | packages/crypto/src/cidr.ts:221-224 | two spellings of one address are allowed alike by every policy |
| `Utf16Order.BelowIsOrder` | packages/crypto/src/manifest.ts:104-108 | the key order is a strict total order on well-formed texts |
| `Utf16Order.BelowByPlace` | packages/crypto/src/manifest.ts:104-108 | comparing code units orders characters by code point, but puts those past the basic plane before U+E000 |
| `Utf16Order.LessUtf16` | apps/env-client/internal/vaultcrypto/manifest.go:88-97 | the Go loop over code units decides that order |
| `Manifest.RenderReadable` | packages/crypto/src/manifest.ts:110-134 | a rendered tree, whatever text follows it, is the rendering of no other tree |
| `Manifest.CanonicalIsUnique` | packages/crypto/src/manifest.ts:104-139 | two canonicalisable trees have one canonical text exactly when they are equal up to entry order at every level |
| `Manifest.SignedTextBinds` | packages/crypto/src/manifest.ts:81-149 | two v1 manifests are signed over the same text exactly when every field agrees |
| `ManifestWriters.WritersAgree` | packages/crypto/src/manifest.ts:110-134 | the TypeScript writer gives the text of the Go one on every tree its type can hold (texts, integers and nodes), and refuses the same trees |
| `JsonReader.CanonicalSaysTheTree` | apps/env-client/internal/vaultcrypto/manifest.go:39-84 | read back by the grammar of RFC 8259, canonical text is the tree it was written from, keys sorted |
| `ManifestWriters.WriteCanonical` | apps/env-client/internal/vaultcrypto/manifest.go:39-84 | the buffer-appending writer gives the canonical text, or an error exactly where there is none |
| `ManifestWriters.WriteJsonString` | apps/env-client/internal/vaultcrypto/manifest.go:105-134 | the escape loop writes the JSON literal |
| `ManifestWriters.FindDuplicate` | packages/crypto/src/manifest.ts:119-126 | the loop over a set of seen keys finds a repeated key exactly when there is one |
| `Summary.SummaryBinds` | apps/control-plane/src/server/provenance/summary.ts:17-43 | two verification summaries have one canonical text exactly when they are equal, so the digest binds what the approver read |
| `SummaryReads.SummarySaysTheResults` | apps/control-plane/src/server/provenance/summary.ts:17-43 | read back by the grammar of RFC 8259, the canonical summary is the summary, each field under its own name and names in order |
| `TypeAlias.CallsAreSmaller` | tools/oxlint/anti-slop/shared/type-alias-resolution.ts:190-250 | each call the evaluator makes is smaller in the lexicographic order of aliases not yet resolving, depth of captured substitutions and type size |
| `TypeAlias.NothingRepeats` | tools/oxlint/anti-slop/shared/type-alias-resolution.ts:212-250 | no chain of calls returns to where it was, so evaluation ends on every finite program |
| `TypeAlias.OpeningsAreBounded` | tools/oxlint/anti-slop/shared/type-alias-resolution.ts:212-250 | no chain opens more aliases than the program declares |
| `TypeAlias.FindsWhatIsReachable` | tools/oxlint/anti-slop/shared/type-alias-resolution.ts:212-250 | the evaluator finds a property exactly when some chain of resolutions and children reaches a type that has it |
| `TypeAlias.BindParameters` | tools/oxlint/anti-slop/shared/type-alias-resolution.ts:190-209 | the loop gives the one set of substitutions that binds each parameter as `TypeAlias.BindsExactly` says, or gives up |
| `TypeAlias.BindsExactly` | tools/oxlint/anti-slop/shared/type-alias-resolution.ts:190-209 | an explicit argument is bound under the caller's substitutions, a default under those and the parameters before it, any other name as before; no other binding comes out |
| `TypeAlias.BindsWhenCovered` | tools/oxlint/anti-slop/shared/type-alias-resolution.ts:190-209 | a reference binds exactly when every parameter past its arguments has a default |
| `TypeAlias.StepsAgreeExactly` | tools/oxlint/anti-slop/shared/type-alias-resolution.ts:212-250 | a step of the tool is the language's exactly when the name looked up is not bound for the alias's user alone |
| `TypeAlias.ScopedMatches` | tools/oxlint/anti-slop/shared/type-alias-resolution.ts:212-250 | in programs whose alias bodies and defaults use no parameter of another alias by name, the tool judges every type as the language's scoping does |
| `TypeMeaning.SameMeaning` | tools/oxlint/anti-slop/shared/type-alias-resolution.ts:212-250 | types under captured environments that stand for one substituted type are judged alike |
| `TypeMeaning.MatchesBySubstitution` | tools/oxlint/anti-slop/shared/type-alias-resolution.ts:212-250 | in such a program a reference matches exactly when its alias's body does, the arguments and defaults put for the parameters all at once; every other type is the matcher's, which hears how its children fare |
| `TypeAlias.NearestTypeBindings` | tools/oxlint/anti-slop/shared/type-alias-resolution.ts:142-161 | the loop returns exactly the declarations of the innermost enclosing scope that has any |
| `SemVer.Compare` | apps/control-plane/src/server/releases/catalog.ts:35-62 | the index loops with early returns compute the comparison |
| `SemVer.TagSpellsVersion` | apps/control-plane/src/server/releases/catalog.ts:6-11 | an accepted tag is the spelling of the version it is compared as |
| `SemVer.ComparesByPrecedence` | apps/control-plane/src/server/releases/catalog.ts:35-62 | on accepted tags the sign is precedence by section 11 of Semantic Versioning 2.0.0, and zero means the same tag |
| `SemVer.ComparatorIsTotalOrder` | apps/control-plane/src/server/releases/catalog.ts:35-62 | antisymmetric, transitive, and zero only on itself |
| `SemVer.LatestIsMaximum` | apps/control-plane/src/server/releases/catalog.ts:64-71 | whatever sort put the rows in order, latest is the highest version, and absent only from an empty catalogue |

## Left out

- Handlers that reuse a row read before an await (`cancel`, `cancelForToken`, `#expireDue`, the revoked-token branch, hello's count and insert): each is one atomic step here, so a stale row is not modelled. Approvals and resume proofs are modelled at their awaits.
- COLD key mode beyond its refusal: prepare and complete do not serve it yet.
- Frame parsing, JSON decoding and zod schemas: frames are a datatype, a frame's length is a parameter, and its digest is injective in its contents.
- Integer limits: versions, timestamps and lengths are unbounded, so the safe-integer refusal of `canonicalInteger` and 32-bit overflow of versions are not modelled; the int32 accumulator of base64url is.
- White space, fractions, negative numbers and surrogate escapes in JSON: canonical text has none, and the reader of `JsonReader` takes none.
- Texts with lone surrogates: strings are sequences of Unicode scalar values, so only well-formed texts are covered.
- WebSocket transport, hibernation, keepalive, backoff, dialing and deadlines: connections carry frames in order and may drop; the client dials again at will.
- Socket attachment generations and the `used` column of a challenge row: a redeemed challenge is removed.
- `loadMasterKeys` parsing and the zeroing of key buffers: a keyring is a map, and wiping shows only in `ClientLoop.Session.Launch`.
- Dotenv parsing, id and nonce generation: entries, ids, keys and nonces are parameters.
- Audit-log contents beyond the boot's event kinds, and the audit entry after a vault operation, whose failing would report an error for writes already done.
- VaultRuns.DeleteEnvironmentRefines: is about the vault's tables; the cancellation before it is `Deletion.DeletionCancels`, and the cascade to tokens, index rows and approvals is in `CloudRuns` and `Deletion.DeletionIsFinal`.
- VaultRuns.DeleteProjectRefines: is about the vault's tables; the cascade is as for an environment, and the cancellation of a whole project spans several sessions, of which one is modelled.
- D1 failing inside a handler while the environment stands, such as between a commit's row write and its approval record; the refused upgrade of a new connection once no token is left; the platform's retry of a failed alarm.
- Whether a public key's bytes are usable, and which X25519 points are of low order: flags and one ideal point stand for the libraries' answers.
- Provenance verifiers and policies: a summary and an approvable flag are parameters; the digest that binds the summary is modelled.
- One key unwrap in a release is one read of the tables; the checks before and after it are separate steps.
- A key rotation interleaved with writers of the same environment: the rewrite has no version guard and the repository lists this as a known risk.
- Exec itself and what the command does: the model ends with the environment handed over.
- The library sort behind the catalogue and the writers: any sorted permutation is allowed for the catalogue, insertion is used for keys; the order of architectures is fixed by name.
- The scope analysis that collects type declarations: which alias a reference sees is a map, except for the loop that picks the nearest scope; matchers look at a type's children.
- Environment policy updates, passkeys, sessions, HTTP routes, pages and logging: no state of interest.
