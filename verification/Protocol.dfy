/** Protocol v1: boot states, the transition table, close codes and frames. */
module Protocol {
  import opened Ideal

  type Time = int

  datatype Status = PENDING | APPROVED | DELIVERED | CONSUMED | DECLINED | EXPIRED | CANCELED

  datatype Event = ApproveEvent | DeclineEvent | ExpirePendingEvent | CancelEvent | DeliverEvent | RedeliverEvent
                 | ConsumeEvent | ExpirePayloadEvent

  predicate IsTerminal(status: Status) {
    status in {CONSUMED, DECLINED, EXPIRED, CANCELED}
  }

  /** The shared transition table; None is a rejected pair. */
  function Transition(from: Status, event: Event): Option<Status> {
    match (from, event)
    case (PENDING, ApproveEvent) => Some(APPROVED)
    case (PENDING, DeclineEvent) => Some(DECLINED)
    case (PENDING, ExpirePendingEvent) => Some(EXPIRED)
    case (PENDING, CancelEvent) => Some(CANCELED)
    case (APPROVED, DeliverEvent) => Some(DELIVERED)
    case (APPROVED, CancelEvent) => Some(CANCELED)
    case (APPROVED, ExpirePayloadEvent) => Some(EXPIRED)
    case (DELIVERED, RedeliverEvent) => Some(DELIVERED)
    case (DELIVERED, ConsumeEvent) => Some(CONSUMED)
    case (DELIVERED, ExpirePayloadEvent) => Some(EXPIRED)
    case _ => None
  }

  datatype CloseCode = NORMAL | PROTOCOL_ERROR | FORBIDDEN | UNKNOWN_BOOT | CONFLICT | TERMINAL | RATE_LIMITED

  datatype KeyMode = CLOUD | COLD

  datatype KeyEnvelope = KeyEnvelope(serverPublicKey: PublicKey, salt: nat, nonce: nat, ciphertext: Sealed)

  datatype SecretRecord =
    SecretRecord(id: string, name: string, version: nat, envKeyVersion: nat, nonce: nat, ciphertext: Sealed)

  /** The boot.approved frame. */
  datatype Payload = Payload(
    bootId: string, projectId: string, environmentId: string, environmentKeyVersion: nat, payloadExpiresAt: Time,
    keyEnvelope: KeyEnvelope, secrets: seq<SecretRecord>)

  /** A key release request, as prepared for one approval. */
  datatype Request = Request(
    contextId: string, bootId: string, environmentId: string, projectId: string, keyMode: KeyMode,
    environmentKeyVersion: nat, recipientPublicKey: PublicKey, evidenceDigest: Digest, secretsDigest: Digest,
    expiresAt: Time, payloadExpiresAt: Time)

  /** SHA-256 of a canonical text, idealised as injective in what the text renders. */
  datatype Digest =
    | OfFrame(frame: Payload)
    | OfSecrets(secrets: seq<SecretRecord>)
    | OfSummary(summary: string)
    | OfRequest(request: Request)

  /** Server to client, in the order a socket carries them. Close ends the stream. */
  datatype ServerFrame =
    | BootPending(bootId: string, expiresAt: Time)
    | BootChallenge(bootId: string, challenge: string)
    | BootResumed(bootId: string, status: Status, expiresAt: Time)
    | BootApproved(payload: Payload)
    | BootConsumed(bootId: string)
    | BootDeclined(bootId: string, reason: Option<string>)
    | BootExpired(bootId: string)
    | BootCanceled(bootId: string, cause: string)
    | BootError(code: CloseCode)
    | Close(code: CloseCode)

  /** Client to server. */
  datatype ClientFrame =
    | Hello(signingKey: nat, encryptionKey: PublicKey)
    | Resume(bootId: string)
    | ChallengeResponse(bootId: string, signature: Signature)
    | Received(bootId: string, payloadDigest: Digest)

  /** A terminal state is exactly one no event leaves. */
  lemma TerminalIsStuck(status: Status)
    ensures IsTerminal(status) <==> forall event :: Transition(status, event).None?
  {
    if !IsTerminal(status) {
      assert Transition(status, if status == DELIVERED then ConsumeEvent else CancelEvent).Some?;
    }
  }
}
