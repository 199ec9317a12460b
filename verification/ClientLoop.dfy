/** The boot client in its own form: a session object whose fields the read loop updates. */
module ClientLoop {
  import opened Ideal
  import opened Protocol
  import opened AadText
  import opened VaultTables
  import opened Release
  import opened ChildEnv
  import opened ClientSession

  /** A decrypted rest behind what the loop already has. */
  function After(list: seq<Plaintext>, rest: Option<seq<Plaintext>>): Option<seq<Plaintext>> {
    if rest.None? then None else Some(list + rest.value)
  }

  lemma AfterOne(list: seq<Plaintext>, next: Plaintext, rest: Option<seq<Plaintext>>)
    ensures After(list + [next], rest) == After(list, if rest.None? then None else Some([next] + rest.value))
  {
    if rest.Some? {
      assert list + ([next] + rest.value) == (list + [next]) + rest.value;
    }
  }

  /** The client's session object. */
  class Session {
    const cfg: Config
    var bootId: string
    var secrets: seq<Plaintext>
    var acked: bool
    var consumed: bool
    var approvedEnvironmentId: string
    var approvedDigest: Option<Digest>

    function View(): Client
      reads this
    {
      Client(bootId, secrets, acked, consumed, approvedEnvironmentId, approvedDigest)
    }

    constructor (cfg: Config)
      ensures this.cfg == cfg && View() == FRESH && Pinned(cfg, View())
    {
      this.cfg := cfg;
      bootId, secrets, acked, consumed := "", [], false, false;
      approvedEnvironmentId, approvedDigest := "", None;
    }

    method DecryptPayload(payload: Payload) returns (plain: Option<seq<Plaintext>>)
      ensures plain == Decrypt(cfg.encryptionSecret, bootId, payload)
    {
      var box := OpenBootEnvelope(cfg.encryptionSecret, bootId, payload.environmentId, payload.environmentKeyVersion, payload.keyEnvelope);
      if box.None? {
        return None;
      }
      var dek, project, e, version := box.value, payload.projectId, payload.environmentId, payload.environmentKeyVersion;
      var list: seq<Plaintext> := [];
      var seen: set<string> := {};
      ghost var whole := DecryptRecords(dek, project, e, version, payload.secrets, {});
      assert payload.secrets[0..] == payload.secrets;
      assert whole.Some? ==> [] + whole.value == whole.value;
      for i := 0 to |payload.secrets|
        invariant whole == After(list, DecryptRecords(dek, project, e, version, payload.secrets[i..], seen))
      {
        var record := payload.secrets[i];
        assert payload.secrets[i..][0] == record && payload.secrets[i..][1..] == payload.secrets[i + 1..];
        if record.envKeyVersion != version {
          return None;
        }
        if !ValidSecretName(record.name) {
          return None;
        }
        if record.name in seen {
          return None;
        }
        seen := seen + {record.name};
        var value := OpenRecord(dek, project, e, record);
        if value.None? {
          return None;
        }
        AfterOne(list, Plaintext(record.name, value.value), DecryptRecords(dek, project, e, version, payload.secrets[i + 1..], seen));
        list := list + [Plaintext(record.name, value.value)];
      }
      assert list + [] == list;
      return Some(list);
    }

    method HandleApproved(payload: Payload, sendFails: bool) returns (out: seq<ClientFrame>, verdict: Verdict)
      modifies this
      ensures (View(), out, verdict) == ClientSession.HandleApproved(cfg, old(View()), payload, sendFails)
    {
      hide Decrypt;
      out := [];
      if cfg.environmentId != "" && payload.environmentId != cfg.environmentId {
        return [], Fatal(ExitProtocol);
      }
      if bootId == "" {
        bootId := payload.bootId;
      }
      if payload.bootId != bootId {
        return [], Fatal(ExitProtocol);
      }
      if approvedEnvironmentId != "" && payload.environmentId != approvedEnvironmentId {
        return [], Fatal(ExitProtocol);
      }
      var digest := OfFrame(payload);
      if approvedDigest.Some? && digest != approvedDigest.value {
        return [], Fatal(ExitProtocol);
      }
      var plain := DecryptPayload(payload);
      if plain.None? {
        return [], Fatal(ExitProtocol);
      }
      for i := 0 to |cfg.requiredSecrets|
        invariant forall j :: 0 <= j < i ==> HasName(plain.value, cfg.requiredSecrets[j])
        invariant View() == (if old(bootId) == "" then old(View()).(bootId := payload.bootId) else old(View()))
      {
        if !HasName(plain.value, cfg.requiredSecrets[i]) {
          return [], Fatal(ExitConfig);
        }
      }
      secrets := plain.value;
      approvedEnvironmentId := payload.environmentId;
      approvedDigest := Some(digest);
      out := [Received(bootId, digest)];
      if sendFails {
        return out, Lost;
      }
      acked := true;
      return out, Continue;
    }

    method Handle(frame: ServerFrame, size: nat, sendFails: bool) returns (out: seq<ClientFrame>, verdict: Verdict)
      modifies this
      ensures (View(), out, verdict) == HandleFrame(cfg, old(View()), frame, size, sendFails)
    {
      hide ClientSession.HandleApproved, ResumeMessage, WellFormed;
      out, verdict := [], Continue;
      if size > MAX_FRAME_BYTES {
        return [], Fatal(ExitProtocol);
      }
      match frame
      case BootPending(id, _) => bootId := id;
      case BootChallenge(id, challenge) =>
        if bootId == "" {
          bootId := id;
        }
        if id != bootId {
          return [], Fatal(ExitProtocol);
        }
        out := [ChallengeResponse(bootId, Signature(cfg.signingKey, ResumeMessage(bootId, challenge)))];
        if sendFails {
          verdict := Lost;
        }
      case BootResumed(_, status, _) =>
        if status == CONSUMED {
          verdict := Fatal(ExitExpired);
        }
      case BootApproved(payload) =>
        if WellFormed(payload, size) {
          out, verdict := HandleApproved(payload, sendFails);
        } else {
          verdict := Fatal(ExitProtocol);
        }
      case BootConsumed(_) =>
        consumed := true;
        verdict := Finished;
      case BootDeclined(_, _) => verdict := Fatal(ExitDeclined);
      case BootExpired(_) => verdict := Fatal(ExitExpired);
      case BootCanceled(_, _) => verdict := Fatal(ExitExpired);
      case BootError(code) =>
        verdict := if code == RATE_LIMITED then Lost else if code == TERMINAL then Fatal(ExitExpired) else Fatal(ExitProtocol);
      case Close(code) =>
        match code
        case NORMAL =>
          if acked {
            consumed := true;
            verdict := Finished;
          } else {
            verdict := Lost;
          }
        case TERMINAL => verdict := Fatal(ExitExpired);
        case RATE_LIMITED => verdict := Lost;
        case _ => verdict := Fatal(ExitProtocol);
    }

    /** The read loop: until a verdict, or until nothing more arrives. */
    method Loop(arrivals: seq<Arrival>) returns (sent: seq<ClientFrame>, verdict: Verdict)
      requires Pinned(cfg, View())
      modifies this
      ensures (View(), sent, verdict) == ReadLoop(cfg, old(View()), arrivals)
      ensures Pinned(cfg, View())
    {
      hide HandleFrame, Pinned;
      LoopKeepsPin(cfg, View(), arrivals);
      sent := [];
      ghost var whole := ReadLoop(cfg, View(), arrivals);
      assert arrivals[0..] == arrivals && [] + whole.1 == whole.1;
      for i := 0 to |arrivals|
        invariant var (u, more, last) := ReadLoop(cfg, View(), arrivals[i..]); whole == (u, sent + more, last)
      {
        assert arrivals[i..][0] == arrivals[i] && arrivals[i..][1..] == arrivals[i + 1..];
        var out: seq<ClientFrame>;
        out, verdict := Handle(arrivals[i].frame, arrivals[i].size, arrivals[i].sendFails);
        ghost var more := ReadLoop(cfg, View(), arrivals[i + 1..]).1;
        assert sent + (out + more) == (sent + out) + more;
        sent := sent + out;
        if verdict != Continue {
          return;
        }
      }
      assert sent + [] == sent;
      verdict := Lost;
    }

    /** Look the command up, build the child environment and wipe the secrets, also when either fails. `found`
        says whether the command is on the path. */
    method Launch(found: bool) returns (env: Option<seq<string>>, exit: Option<ExitCode>)
      modifies this`secrets
      ensures env == if found then Launched(cfg, old(View())) else None
      ensures exit == if env.Some? then None else if consumed && !found then Some(ExitConfig) else Some(ExitProtocol)
      ensures secrets == if consumed then [] else old(secrets)
    {
      if !consumed {
        return None, Some(ExitProtocol);
      }
      if !found {
        secrets := [];
        return None, Some(ExitConfig);
      }
      env := BuildEnv(cfg.environ, secrets);
      secrets := [];
      exit := if env.None? then Some(ExitProtocol) else None;
    }
  }
}
