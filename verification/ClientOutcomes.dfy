/** What the client makes of each frame, spelled out: when a payload is taken and what refuses it, which frames end the
    boot and with which exit, and where the read loop stops. */
module ClientOutcomes {
  import opened Ideal
  import opened Protocol
  import opened AadText
  import opened VaultTables
  import opened Release
  import opened ChildEnv
  import opened ClientSession

  // ------------------------------------------------------------------ decryption

  /** Every record is at the envelope's key version, has a valid name of its own that was not seen, and opens under its
      own AAD: exactly then the list decrypts, record by record. */
  lemma {:induction false} DecryptsExactly(dek: Key, project: string, e: string, version: nat, records: seq<SecretRecord>, seen: set<string>)
    ensures var list := DecryptRecords(dek, project, e, version, records, seen);
            && (list.Some? <==>
                  && (forall i :: 0 <= i < |records| ==>
                        && records[i].envKeyVersion == version && ValidSecretName(records[i].name) && records[i].name !in seen
                        && OpenRecord(dek, project, e, records[i]).Some?)
                  && forall i, j :: 0 <= i < j < |records| ==> records[i].name != records[j].name)
            && (list.Some? ==>
                  && |list.value| == |records|
                  && forall i :: 0 <= i < |records| ==>
                       list.value[i].name == records[i].name && Some(list.value[i].value) == OpenRecord(dek, project, e, records[i]))
    decreases |records|
  {
    hide OpenRecord, ValidSecretName;
    if records != [] {
      var head, rest := records[0], records[1..];
      DecryptsExactly(dek, project, e, version, rest, seen + {head.name});
      assert forall i :: 0 <= i < |rest| ==> rest[i] == records[i + 1];
      if DecryptRecords(dek, project, e, version, records, seen).Some? {
        forall i, j | 0 <= i < j < |records| ensures records[i].name != records[j].name {
          assert rest[j - 1] == records[j];
        }
        var list := DecryptRecords(dek, project, e, version, records, seen).value;
        assert forall i :: 0 < i < |records| ==> list[i] == DecryptRecords(dek, project, e, version, rest, seen + {head.name}).value[i - 1];
      }
    }
  }

  // ------------------------------------------------------------------ the approved frame

  /** A frame over a mebibyte, and an approved frame that leaves out an id, a name or a version or carries more than 4096
      secrets, ends the client before anything in it is used. */
  lemma MalformedIsRefused(cfg: Config, s: Client, p: Payload, size: nat, sendFails: bool)
    requires || size > 1048576 || |p.secrets| > 4096
             || p.bootId == "" || p.environmentId == "" || p.projectId == "" || p.environmentKeyVersion == 0
             || exists i :: 0 <= i < |p.secrets| && (p.secrets[i].id == "" || p.secrets[i].name == ""
                                                      || p.secrets[i].version == 0 || p.secrets[i].envKeyVersion == 0)
    ensures HandleFrame(cfg, s, BootApproved(p), size, sendFails) == (s, [], Fatal(ExitProtocol))
  {
  }

  /** A well-formed payload is taken exactly when it is of the environment configured and of the boot and environment seen
      before, has the digest pinned before, opens with the session's key, and holds the required secrets. Taking it pins
      it, replaces the secrets and acknowledges its digest; missing secrets are the configuration's fault, all else the
      protocol's. */
  lemma ApprovedExactly(cfg: Config, s: Client, p: Payload, sendFails: bool)
    ensures var (t, out, verdict) := HandleApproved(cfg, s, p, sendFails);
            var id := if s.bootId == "" then p.bootId else s.bootId;
            var meant := && (cfg.environmentId == "" || p.environmentId == cfg.environmentId) && p.bootId == id
                         && (s.approvedEnvironmentId == "" || p.environmentId == s.approvedEnvironmentId)
                         && (s.approvedDigest.None? || s.approvedDigest == Some(OfFrame(p)));
            var plain := Decrypt(cfg.encryptionSecret, id, p);
            if meant && plain.Some? then
              if forall i :: 0 <= i < |cfg.requiredSecrets| ==> HasName(plain.value, cfg.requiredSecrets[i]) then
                && t == Client(id, plain.value, s.acked || !sendFails, s.consumed, p.environmentId, Some(OfFrame(p)))
                && out == [Received(id, OfFrame(p))] && verdict == if sendFails then Lost else Continue
              else t == s.(bootId := id) && out == [] && verdict == Fatal(ExitConfig)
            else
              && t.(bootId := s.bootId) == s && out == [] && verdict == Fatal(ExitProtocol)
  {
    hide Decrypt, HasName;
  }

  // ------------------------------------------------------------------ the other frames

  /** What boot.pending, boot.resumed and a challenge for another boot do; and after boot.pending the next connection
      resumes that boot instead of opening another. */
  lemma OpeningFrames(cfg: Config, s: Client, id: string, until: Time, status: Status, challenge: string, size: nat, sendFails: bool)
    requires size <= 1048576 && id != ""
    ensures var (t, out, verdict) := HandleFrame(cfg, s, BootPending(id, until), size, sendFails);
            t == s.(bootId := id) && out == [] && verdict == Continue && Handshake(cfg, t) == Resume(id)
    ensures HandleFrame(cfg, s, BootResumed(id, status, until), size, sendFails)
         == (s, [], if status == CONSUMED then Fatal(ExitExpired) else Continue)
    ensures s.bootId != "" && s.bootId != id ==>
              HandleFrame(cfg, s, BootChallenge(id, challenge), size, sendFails) == (s, [], Fatal(ExitProtocol))
    ensures Handshake(cfg, FRESH) == Hello(cfg.signingKey, Point(cfg.encryptionSecret))
  {
  }

  /** A normal close confirms an acknowledgement that was sent, and without one is a lost connection; a terminal close ends
      the boot, a busy one is retried, and any other is the protocol's. */
  lemma ClosesReachTheClient(cfg: Config, s: Client, code: CloseCode, size: nat, sendFails: bool)
    requires size <= 1048576
    ensures var (t, out, verdict) := HandleFrame(cfg, s, Close(code), size, sendFails);
            && out == [] && t == s.(consumed := s.consumed || (code == NORMAL && s.acked))
            && (verdict == Finished <==> code == NORMAL && s.acked)
            && (verdict == Lost <==> code == RATE_LIMITED || (code == NORMAL && !s.acked))
            && (verdict == Fatal(ExitExpired) <==> code == TERMINAL)
            && (verdict == Fatal(ExitProtocol) <==> code !in {NORMAL, TERMINAL, RATE_LIMITED})
  {
  }

  // ------------------------------------------------------------------ the read loop

  /** Every frame of these was taken and the loop went on. */
  predicate AllContinue(cfg: Config, s: Client, arrivals: seq<Arrival>)
    decreases |arrivals|
  {
    arrivals == [] ||
    var (t, _, verdict) := HandleFrame(cfg, s, arrivals[0].frame, arrivals[0].size, arrivals[0].sendFails);
    verdict == Continue && AllContinue(cfg, t, arrivals[1..])
  }

  /** The loop stops at the first frame that does not let it go on, whatever comes after; until then what comes later is
      read as from where the earlier left the session. */
  lemma {:induction false} LoopStopsFirst(cfg: Config, s: Client, a: seq<Arrival>, b: seq<Arrival>)
    ensures var (t, out, verdict) := ReadLoop(cfg, s, a);
            if AllContinue(cfg, s, a) then
              verdict == Lost && ReadLoop(cfg, s, a + b) == (ReadLoop(cfg, t, b).0, out + ReadLoop(cfg, t, b).1, ReadLoop(cfg, t, b).2)
            else verdict != Continue && ReadLoop(cfg, s, a + b) == (t, out, verdict)
    decreases |a|
  {
    hide HandleFrame;
    if a == [] {
      assert a + b == b && [] + ReadLoop(cfg, s, b).1 == ReadLoop(cfg, s, b).1;
    } else {
      var (t, out, verdict) := HandleFrame(cfg, s, a[0].frame, a[0].size, a[0].sendFails);
      assert (a + b)[0] == a[0] && (a + b)[1..] == a[1..] + b;
      if verdict == Continue {
        LoopStopsFirst(cfg, t, a[1..], b);
        var (u, more, _) := ReadLoop(cfg, t, a[1..]);
        assert out + (more + ReadLoop(cfg, u, b).1) == (out + more) + ReadLoop(cfg, u, b).1;
      }
    }
  }
}
