/** The two approval RPCs cut at their awaits: read the boot, authorise, load the secrets, then store a
    context (prepare) or check it and commit (complete). Anything may run between two pieces. */
module Approvals {
  import opened Ideal
  import opened Protocol
  import opened BootTables

  datatype ApproveInput =
    ApproveInput(bootId: string, approverUserId: string, approverCredentialId: string, evidenceDigest: Digest)

  /** What completeApproval is given besides the approval input. */
  datatype Completion = Completion(contextId: string, contextDigest: Digest, keyEnvelope: KeyEnvelope)

  datatype Stage =
    | Begun(boot: Boot, at: Time)
    | Authorised(boot: Boot, environment: Environment, summary: string)
    | Loaded(boot: Boot, environment: Environment, summary: string, secrets: seq<SecretRecord>)
    | Ready(boot: Boot, environment: Environment, summary: string, context: Context, payload: Payload)

  /** `#approvalState`, first piece: the row as it is now. */
  ghost function Begin(s: State, input: ApproveInput, now: Time): (State, Option<Stage>) {
    if input.bootId !in s.boots || s.boots[input.bootId].status != PENDING then (s, None)
    else if s.boots[input.bootId].pendingExpiresAt <= now then
      (Rearm(FireAll(s, {input.bootId}, Expire, now)), None)
    else (s, Some(Begun(s.boots[input.bootId], now)))
  }

  /** Second piece: token, environment and provenance, read after an await. */
  function Authorise(input: ApproveInput, stage: Stage, token: Option<Token>, environment: Option<Environment>,
                     summary: string, approvable: bool): Option<Stage>
    requires stage.Begun?
  {
    if !TokenValid(token, stage.at) || environment.None? || !approvable || OfSummary(summary) != input.evidenceDigest
    then None
    else Some(Authorised(stage.boot, environment.value, summary))
  }

  /** Third piece: the ciphertext snapshot, which must be wholly at the environment's current key. */
  function Load(stage: Stage, secrets: seq<SecretRecord>): Option<Stage>
    requires stage.Authorised?
  {
    if exists i :: 0 <= i < |secrets| && secrets[i].envKeyVersion != stage.environment.currentKeyVersion then None
    else Some(Loaded(stage.boot, stage.environment, stage.summary, secrets))
  }

  function Min(a: int, b: int): int {
    if a < b then a else b
  }

  function RequestFor(s: State, input: ApproveInput, stage: Stage, contextId: string, now: Time): Request
    requires stage.Loaded?
  {
    Request(contextId, input.bootId, stage.boot.environmentId, stage.boot.projectId, stage.environment.keyMode,
            stage.environment.currentKeyVersion, stage.boot.encryptionKey, input.evidenceDigest,
            OfSecrets(stage.secrets), Min(now + CONTEXT_TTL, stage.boot.pendingExpiresAt),
            now + stage.environment.approvedTtl * 1000)
  }

  function ContextFor(input: ApproveInput, request: Request): Context {
    Context(input.bootId, request, OfRequest(request), input.approverUserId, input.approverCredentialId,
            request.expiresAt)
  }

  /** prepareApproval, last piece: store the context while the boot is still PENDING. */
  function Store(s: State, input: ApproveInput, stage: Stage, contextId: string, now: Time): (State, Option<Request>)
    requires stage.Loaded?
  {
    var request := RequestFor(s, input, stage, contextId, now);
    if stage.environment.currentKeyVersion < 1 || request.expiresAt <= now then (s, None)
    else if input.bootId !in s.boots || s.boots[input.bootId].status != PENDING then (s, None)
    else
      var t := StoreContext(s, ContextFor(input, request), now);
      (t, if contextId in s.contexts && s.contexts[contextId].expiresAt > now then None else Some(request))
  }

  /** completeApproval after its state: the context must be this approver's, for exactly this state. */
  predicate Matches(context: Context, input: ApproveInput, completion: Completion, stage: Stage)
    requires stage.Loaded?
  {
    var request := context.request;
    && context.bootId == input.bootId
    && context.contextDigest == completion.contextDigest
    && context.approverUserId == input.approverUserId
    && context.approverCredentialId == input.approverCredentialId
    && request.bootId == input.bootId
    && request.environmentId == stage.boot.environmentId
    && request.projectId == stage.environment.projectId
    && request.keyMode == stage.environment.keyMode
    && request.recipientPublicKey == stage.boot.encryptionKey
    && request.environmentKeyVersion == stage.environment.currentKeyVersion
    && request.evidenceDigest == input.evidenceDigest
    && request.secretsDigest == OfSecrets(stage.secrets)
  }

  function Check(s: State, input: ApproveInput, completion: Completion, stage: Stage, now: Time): Option<Stage>
    requires stage.Loaded?
  {
    if stage.environment.keyMode != CLOUD || completion.contextId !in s.contexts then None
    else
      var context := s.contexts[completion.contextId];
      if !Matches(context, input, completion, stage) then None
      else if context.request.expiresAt <= now || context.request.payloadExpiresAt <= now then None
      else
        var payload := Payload(input.bootId, stage.environment.projectId, stage.boot.environmentId,
                               context.request.environmentKeyVersion, context.request.payloadExpiresAt,
                               completion.keyEnvelope, stage.secrets);
        Some(Ready(stage.boot, stage.environment, stage.summary, context, payload))
  }

  function ApprovalFor(input: ApproveInput, completion: Completion, stage: Stage, now: Time): Approval
    requires stage.Ready?
  {
    Approval(input.approverUserId, input.approverCredentialId, now, input.evidenceDigest, stage.environment.keyMode,
             stage.context.request.environmentKeyVersion, completion.contextDigest)
  }

  /** The guards of the commit, over the row as it is read again. */
  predicate MayCommit(s: State, input: ApproveInput, stage: Stage, token: Option<Token>, now: Time)
    requires stage.Ready?
  {
    && TokenValid(token, now)
    && stage.context.request.expiresAt > now && stage.context.request.payloadExpiresAt > now
    && input.bootId in s.boots && s.boots[input.bootId].status == PENDING
    && s.boots[input.bootId].pendingExpiresAt > now
  }

  ghost function Commit(s: State, input: ApproveInput, completion: Completion, stage: Stage, token: Option<Token>,
                        now: Time): State
    requires stage.Ready?
  {
    if !MayCommit(s, input, stage, token, now) then s
    else CommitApproval(s, input.bootId, stage.payload, stage.summary, ApprovalFor(input, completion, stage, now), now)
  }
}
