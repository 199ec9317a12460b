/** A key release from its first check to its envelope, with nothing in between: exactly when it gives one. */
module KeyReleases {
  import opened Ideal
  import opened Protocol
  import opened BootTables
  import opened ApprovalRuns
  import opened Release
  import opened CloudRuns
  import AadText
  import V = VaultTables
  import VR = VaultRefinement
  import VS = VaultRuns

  /** The three steps of one release, as far as they go. */
  ghost function Released3(c: Cloud, j: nat, request: Request, serverSecret: nat, salt: nat, nonce: nat): Cloud
    requires CloudEnabled(c, CheckRelease(j, request))
  {
    var checked := CloudGo(c, CheckRelease(j, request));
    if j !in checked.releases || !checked.releases[j].Checked? then checked
    else
      var unwrapped := CloudGo(checked, UnwrapRelease(j));
      if j !in unwrapped.releases || !unwrapped.releases[j].Unwrapped? then unwrapped
      else CloudGo(unwrapped, SealRelease(j, serverSecret, salt, nonce))
  }

  /** A release gives an envelope exactly when the request is for a CLOUD environment that is still there, in its project,
      at the key version requested, and for a recipient key that is not of low order; the envelope is then sealed to that
      recipient and holds the environment's current key. */
  lemma ReleasesExactly(c: Cloud, j: nat, request: Request, serverSecret: nat, salt: nat, nonce: nat)
    requires CloudInv(c) && CloudEnabled(c, CheckRelease(j, request))
    ensures var d, e := Released3(c, j, request, serverSecret, salt, nonce), request.environmentId;
            if && request.keyMode == CLOUD && e in c.vault.environments && c.vault.environments[e].keyMode == CLOUD
               && c.vault.environments[e].projectId == request.projectId
               && c.vault.environments[e].currentKeyVersion == request.environmentKeyVersion
               && request.recipientPublicKey != LowOrder
            then
              && V.UnwrapEnvironmentDek(c.vault, e).Ok?
              && exists envelope :: d.released == c.released + {Released(request, envelope)}
                   && CreateBootEnvelope(request.bootId, e, request.environmentKeyVersion, V.UnwrapEnvironmentDek(c.vault, e).value,
                                         request.recipientPublicKey, serverSecret, salt, nonce) == Some(envelope)
            else d.released == c.released
  {
    hide CloudGo, Released3, CreateBootEnvelope, V.UnwrapEnvironmentDek, VR.Sound, WorldInv, CallKnown, ApprovalKnown, ReleasedOk;
    RequestedVersion(c, request);
    ThreeSteps(c, j, request, serverSecret, salt, nonce);
    if request.environmentId in c.vault.environments && c.vault.environments[request.environmentId].keyMode == CLOUD {
      VS.DekWhenReady(c.vault, request.environmentId);
    }
  }

  /** The three steps with the vault unchanged between them. */
  lemma ThreeSteps(c: Cloud, j: nat, request: Request, serverSecret: nat, salt: nat, nonce: nat)
    requires CloudEnabled(c, CheckRelease(j, request))
    ensures var e := request.environmentId;
            var dek := V.UnwrapEnvironmentDek(c.vault, e);
            var d := Released3(c, j, request, serverSecret, salt, nonce);
            if MayRelease(c.vault, request) && request.recipientPublicKey.Point? && dek.Ok? then
              var envelope := CreateBootEnvelope(request.bootId, e, request.environmentKeyVersion, dek.value,
                                                 request.recipientPublicKey, serverSecret, salt, nonce);
              envelope.Some? && d.released == c.released + {Released(request, envelope.value)}
            else d.released == c.released
  {
    hide V.UnwrapEnvironmentDek, AadText.EnvelopeInfo;
    var checked := CloudGo(c, CheckRelease(j, request));
    if MayRelease(c.vault, request) && request.recipientPublicKey.Point? {
      assert checked.releases[j] == Checked(request) && checked.vault == c.vault && checked.released == c.released;
      var unwrapped := CloudGo(checked, UnwrapRelease(j));
      assert unwrapped.vault == c.vault && unwrapped.released == c.released;
    }
  }

  lemma RequestedVersion(c: Cloud, request: Request)
    requires CloudInv(c) && exists context :: context in c.boots.prepared && context.request == request
    ensures request.environmentKeyVersion >= 1
  {
    var context :| context in c.boots.prepared && context.request == request;
    assert PreparedKnown(c, context);
  }
}
