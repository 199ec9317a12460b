/** The boot client: one session from hello to exec, frame by frame. */
module ClientSession {
  import opened Ideal
  import opened Protocol
  import opened AadText
  import opened VaultTables
  import opened Release
  import opened ChildEnv

  const MAX_SECRETS_PER_PAYLOAD := 4096
  const MAX_FRAME_BYTES := 1048576

  datatype ExitCode = ExitConfig | ExitProtocol | ExitDeclined | ExitExpired

  /** How one frame leaves the read loop: go on, finish, reconnect, or end the boot. */
  datatype Verdict = Continue | Finished | Lost | Fatal(code: ExitCode)

  datatype Config = Config(
    environmentId: string, requiredSecrets: seq<string>, environ: seq<string>, signingKey: nat, encryptionSecret: nat)

  /** The session's fields; an empty bootId or environment id is Go's unset string. */
  datatype Client = Client(
    bootId: string, secrets: seq<Plaintext>, acked: bool, consumed: bool, approvedEnvironmentId: string,
    approvedDigest: Option<Digest>)

  const FRESH := Client("", [], false, false, "", None)

  // ------------------------------------------------------------------ decryption

  /** The client's loop over the records: each at the envelope's key version, well named, new and authentic. */
  function DecryptRecords(dek: Key, project: string, e: string, version: nat, records: seq<SecretRecord>, seen: set<string>)
    : Option<seq<Plaintext>>
    decreases |records|
  {
    if records == [] then Some([])
    else
      var record := records[0];
      if record.envKeyVersion != version || !ValidSecretName(record.name) || record.name in seen then None
      else
        match OpenRecord(dek, project, e, record)
        case None => None
        case Some(value) =>
          match DecryptRecords(dek, project, e, version, records[1..], seen + {record.name})
          case None => None
          case Some(rest) => Some([Plaintext(record.name, value)] + rest)
  }

  function Decrypt(secret: nat, bootId: string, payload: Payload): Option<seq<Plaintext>> {
    match OpenBootEnvelope(secret, bootId, payload.environmentId, payload.environmentKeyVersion, payload.keyEnvelope)
    case None => None
    case Some(dek) =>
      DecryptRecords(dek, payload.projectId, payload.environmentId, payload.environmentKeyVersion, payload.secrets, {})
  }

  /** The frame check before a message reaches the session. */
  predicate WellFormed(payload: Payload, size: nat) {
    && size <= MAX_FRAME_BYTES
    && payload.bootId != "" && payload.environmentId != "" && payload.projectId != "" && payload.environmentKeyVersion >= 1
    && |payload.secrets| <= MAX_SECRETS_PER_PAYLOAD
    && forall i :: 0 <= i < |payload.secrets| ==>
         payload.secrets[i].id != "" && payload.secrets[i].name != "" && payload.secrets[i].version >= 1
         && payload.secrets[i].envKeyVersion >= 1
  }

  // ------------------------------------------------------------------ the approved frame

  predicate HasName(secrets: seq<Plaintext>, name: string) {
    exists i :: 0 <= i < |secrets| && secrets[i].name == name
  }

  predicate HasRequired(secrets: seq<Plaintext>, required: seq<string>) {
    forall i :: 0 <= i < |required| ==> HasName(secrets, required[i])
  }

  /** The session after an approved frame, what it sends and how the loop goes on. `sendFails` is a failed
      write of the acknowledgement, which leaves the decrypted secrets in place but not acknowledged. */
  function HandleApproved(cfg: Config, s: Client, payload: Payload, sendFails: bool): (Client, seq<ClientFrame>, Verdict) {
    if cfg.environmentId != "" && payload.environmentId != cfg.environmentId then (s, [], Fatal(ExitProtocol))
    else
      var t := if s.bootId == "" then s.(bootId := payload.bootId) else s;
      if payload.bootId != t.bootId then (t, [], Fatal(ExitProtocol))
      else if t.approvedEnvironmentId != "" && payload.environmentId != t.approvedEnvironmentId then (t, [], Fatal(ExitProtocol))
      else if t.approvedDigest.Some? && t.approvedDigest.value != OfFrame(payload) then (t, [], Fatal(ExitProtocol))
      else
        match Decrypt(cfg.encryptionSecret, t.bootId, payload)
        case None => (t, [], Fatal(ExitProtocol))
        case Some(secrets) =>
          if !HasRequired(secrets, cfg.requiredSecrets) then (t, [], Fatal(ExitConfig))
          else
            var pinned := t.(secrets := secrets, approvedEnvironmentId := payload.environmentId, approvedDigest := Some(OfFrame(payload)));
            (if sendFails then pinned else pinned.(acked := true), [Received(t.bootId, OfFrame(payload))],
             if sendFails then Lost else Continue)
  }

  // ------------------------------------------------------------------ one frame

  /** classifyRead on a close frame. */
  function ClassifyClose(s: Client, code: CloseCode): (Client, Verdict) {
    match code
    case NORMAL => if s.acked then (s.(consumed := true), Finished) else (s, Lost)
    case TERMINAL => (s, Fatal(ExitExpired))
    case RATE_LIMITED => (s, Lost)
    case _ => (s, Fatal(ExitProtocol))
  }

  function HandleFrame(cfg: Config, s: Client, frame: ServerFrame, size: nat, sendFails: bool): (Client, seq<ClientFrame>, Verdict) {
    if size > MAX_FRAME_BYTES then (s, [], Fatal(ExitProtocol))
    else
      match frame
      case BootPending(bootId, _) => (s.(bootId := bootId), [], Continue)
      case BootChallenge(bootId, challenge) =>
        var t := if s.bootId == "" then s.(bootId := bootId) else s;
        if bootId != t.bootId then (t, [], Fatal(ExitProtocol))
        else (t, [ChallengeResponse(t.bootId, Signature(cfg.signingKey, ResumeMessage(t.bootId, challenge)))],
              if sendFails then Lost else Continue)
      case BootResumed(_, status, _) => (s, [], if status == CONSUMED then Fatal(ExitExpired) else Continue)
      case BootApproved(payload) =>
        if WellFormed(payload, size) then HandleApproved(cfg, s, payload, sendFails) else (s, [], Fatal(ExitProtocol))
      case BootConsumed(_) => (s.(consumed := true), [], Finished)
      case BootDeclined(_, _) => (s, [], Fatal(ExitDeclined))
      case BootExpired(_) => (s, [], Fatal(ExitExpired))
      case BootCanceled(_, _) => (s, [], Fatal(ExitExpired))
      case BootError(code) =>
        (s, [], if code == RATE_LIMITED then Lost else if code == TERMINAL then Fatal(ExitExpired) else Fatal(ExitProtocol))
      case Close(code) =>
        var (t, verdict) := ClassifyClose(s, code);
        (t, [], verdict)
  }

  /** What a new connection sends first. */
  function Handshake(cfg: Config, s: Client): ClientFrame {
    if s.bootId == "" then Hello(cfg.signingKey, Point(cfg.encryptionSecret)) else Resume(s.bootId)
  }

  /** launch: None when the acknowledgement was never confirmed or the environment cannot be built. */
  function Launched(cfg: Config, s: Client): Option<seq<string>> {
    if s.consumed then Build(cfg.environ, s.secrets) else None
  }

  // ------------------------------------------------------------------ what the fields mean

  /** The pinned payload is the one the secrets came from, and nothing else was ever acknowledged. */
  predicate Pinned(cfg: Config, s: Client) {
    && (s.acked ==> s.approvedDigest.Some?)
    && (s.approvedDigest.None? ==> s.secrets == [])
    && (s.approvedDigest.Some? ==>
          && s.approvedDigest.value.OfFrame?
          && var payload := s.approvedDigest.value.frame;
             && Decrypt(cfg.encryptionSecret, payload.bootId, payload) == Some(s.secrets)
             && s.approvedEnvironmentId == payload.environmentId && payload.environmentId != ""
             && (cfg.environmentId != "" ==> payload.environmentId == cfg.environmentId)
             && HasRequired(s.secrets, cfg.requiredSecrets))
  }

  /** Handling any frame at all, from an honest server or not, keeps the pin, never moves it once set, and
      acknowledges nothing else. */
  lemma PinHolds(cfg: Config, s: Client, frame: ServerFrame, size: nat, sendFails: bool)
    requires Pinned(cfg, s)
    ensures var (t, out, verdict) := HandleFrame(cfg, s, frame, size, sendFails);
            && Pinned(cfg, t)
            && (s.approvedDigest.Some? ==> t.approvedDigest == s.approvedDigest && t.secrets == s.secrets)
            && (s.acked ==> t.acked)
            && (forall f :: f in out && f.Received? ==> t.approvedDigest == Some(f.payloadDigest))
            && (t.acked && !s.acked ==> exists f :: f in out && f.Received?)
            && (t.consumed && !s.consumed ==> verdict == Finished && (frame.BootConsumed? || (frame == Close(NORMAL) && s.acked)))
  {
    hide Decrypt, HasRequired;
    if frame.BootApproved? {
      var out := HandleApproved(cfg, s, frame.payload, sendFails).1;
      assert forall f :: f in out ==> f == out[0];
      assert out != [] ==> out[0] in out;
    }
  }

  /** The child environment: the session's secrets over the stripped base. */
  ghost predicate SecretsOverBase(cfg: Config, secrets: seq<Plaintext>, env: seq<string>) {
    forall name :: Lookup(env, name) ==
                     if SecretIn(secrets, name).Some? then SecretIn(secrets, name)
                     else if name in STRIPPED_NAMES then None
                     else LastIn(cfg.environ, name)
  }

  /** A session launches exactly when it was confirmed. The secrets it hands over are those of the payload it
      pinned, or none at all when it pinned none; so the required ones are all there exactly when a payload was
      pinned or nothing is required. */
  lemma LaunchIsPinned(cfg: Config, s: Client)
    requires Pinned(cfg, s)
    ensures Launched(cfg, s).Some? <==> s.consumed
    ensures s.consumed ==> SecretsOverBase(cfg, s.secrets, Launched(cfg, s).value)
    ensures if s.approvedDigest.None? then s.secrets == []
            else var payload := s.approvedDigest.value.frame; Decrypt(cfg.encryptionSecret, payload.bootId, payload) == Some(s.secrets)
    ensures HasRequired(s.secrets, cfg.requiredSecrets) <==> s.approvedDigest.Some? || cfg.requiredSecrets == []
  {
    if s.approvedDigest.Some? {
      var payload := s.approvedDigest.value.frame;
      var dek := OpenBootEnvelope(cfg.encryptionSecret, payload.bootId, payload.environmentId, payload.environmentKeyVersion, payload.keyEnvelope);
      DecryptedIsBuildable(dek.value, payload.projectId, payload.environmentId, payload.environmentKeyVersion, payload.secrets, {});
    } else if cfg.requiredSecrets != [] {
      assert !HasName([], cfg.requiredSecrets[0]);
    }
    if s.consumed {
      forall name ensures Lookup(Launched(cfg, s).value, name) ==
                            if SecretIn(s.secrets, name).Some? then SecretIn(s.secrets, name)
                            else if name in STRIPPED_NAMES then None
                            else LastIn(cfg.environ, name) {
        ChildSees(cfg.environ, s.secrets, name);
      }
    }
  }

  /** A server that says consumed before it sent any payload makes the client launch the base alone, whatever
      secrets are required. */
  lemma ConsumedFirstLaunchesTheBase(cfg: Config, bootId: string, size: nat)
    requires size <= MAX_FRAME_BYTES
    ensures var (t, out, verdict) := HandleFrame(cfg, FRESH, BootConsumed(bootId), size, false);
            verdict == Finished && Launched(cfg, t) == Build(cfg.environ, [])
  {
  }

  /** What decrypts always builds: names are valid and distinct, so the launch after a payload never fails on them. */
  lemma {:induction false} DecryptedIsBuildable(dek: Key, project: string, e: string, version: nat, records: seq<SecretRecord>,
                                                seen: set<string>)
    requires DecryptRecords(dek, project, e, version, records, seen).Some?
    ensures var list := DecryptRecords(dek, project, e, version, records, seen).value;
            && Buildable(list) && |list| == |records|
            && forall i :: 0 <= i < |list| ==> list[i].name == records[i].name && list[i].name !in seen
                                               && OpenRecord(dek, project, e, records[i]) == Some(list[i].value)
    decreases |records|
  {
    if records != [] {
      DecryptedIsBuildable(dek, project, e, version, records[1..], seen + {records[0].name});
      var list := DecryptRecords(dek, project, e, version, records, seen).value;
      var rest := DecryptRecords(dek, project, e, version, records[1..], seen + {records[0].name}).value;
      assert list[1..] == rest;
    }
  }

  /** A snapshot decrypts, in full, to the values it is a snapshot of. */
  lemma {:induction false} SnapshotDecrypts(dek: Key, project: string, e: string, version: nat, records: seq<SecretRecord>,
                                            values: map<string, string>, n: nat, seen: set<string>)
    requires Snapshot(dek, project, e, version, records, values) && n <= |records|
    requires seen == set i | 0 <= i < n :: records[i].name
    ensures DecryptRecords(dek, project, e, version, records[n..], seen).Some?
    decreases |records| - n
  {
    hide OpenRecord, ValidSecretName;
    if n < |records| {
      assert RecordOk(dek, project, e, version, records[n], values);
      assert records[n..][1..] == records[n + 1..];
      SnapshotDecrypts(dek, project, e, version, records, values, n + 1, seen + {records[n].name});
    }
  }

  lemma SnapshotValues(dek: Key, project: string, e: string, version: nat, records: seq<SecretRecord>, values: map<string, string>)
    requires Snapshot(dek, project, e, version, records, values)
    ensures var list := DecryptRecords(dek, project, e, version, records, {});
            && list.Some? && Buildable(list.value) && AsMap(list.value) == values
  {
    SnapshotDecrypts(dek, project, e, version, records, values, 0, {});
    assert records[0..] == records;
    DecryptedIsBuildable(dek, project, e, version, records, {});
    var list := DecryptRecords(dek, project, e, version, records, {}).value;
    forall i | 0 <= i < |list| ensures list[i].name in values && values[list[i].name] == list[i].value {
      assert RecordOk(dek, project, e, version, records[i], values);
    }
    ListIsMap(list, values);
  }

  lemma {:induction false} ListInMap(list: seq<Plaintext>)
    requires forall i, j :: 0 <= i < j < |list| ==> list[i].name != list[j].name
    ensures forall i :: 0 <= i < |list| ==> list[i].name in AsMap(list) && AsMap(list)[list[i].name] == list[i].value
    ensures forall name :: name in AsMap(list) ==> exists i :: 0 <= i < |list| && list[i].name == name
  {
    if list != [] {
      var front := list[..|list| - 1];
      ListInMap(front);
      assert forall i :: 0 <= i < |front| ==> front[i] == list[i];
      forall name | name in AsMap(list) ensures exists i :: 0 <= i < |list| && list[i].name == name {
        if name in AsMap(front) {
          var i :| 0 <= i < |front| && front[i].name == name;
          assert list[i].name == name;
        } else {
          assert list[|list| - 1].name == name;
        }
      }
    }
  }

  lemma ListIsMap(list: seq<Plaintext>, values: map<string, string>)
    requires forall i, j :: 0 <= i < j < |list| ==> list[i].name != list[j].name
    requires forall i :: 0 <= i < |list| ==> list[i].name in values && values[list[i].name] == list[i].value
    requires forall name :: name in values ==> exists i :: 0 <= i < |list| && list[i].name == name
    ensures AsMap(list) == values
  {
    ListInMap(list);
    assert AsMap(list).Keys == values.Keys;
  }

  // ------------------------------------------------------------------ one connection

  /** A frame as the transport hands it over: its size, and whether a write answering it fails. */
  datatype Arrival = Arrival(frame: ServerFrame, size: nat, sendFails: bool)

  /** The read loop over what arrives before the connection drops: the session, everything it sent, the verdict. */
  function ReadLoop(cfg: Config, s: Client, arrivals: seq<Arrival>): (Client, seq<ClientFrame>, Verdict)
    decreases |arrivals|
  {
    if arrivals == [] then (s, [], Lost)
    else
      var a := arrivals[0];
      var (t, out, verdict) := HandleFrame(cfg, s, a.frame, a.size, a.sendFails);
      if verdict != Continue then (t, out, verdict)
      else
        var (u, more, last) := ReadLoop(cfg, t, arrivals[1..]);
        (u, out + more, last)
  }

  /** Over a whole connection: the pin holds, and every acknowledgement sent names it. */
  lemma {:induction false} LoopKeepsPin(cfg: Config, s: Client, arrivals: seq<Arrival>)
    requires Pinned(cfg, s)
    ensures var (t, out, verdict) := ReadLoop(cfg, s, arrivals);
            && Pinned(cfg, t) && (s.approvedDigest.Some? ==> t.approvedDigest == s.approvedDigest)
            && forall f :: f in out && f.Received? ==> t.approvedDigest == Some(f.payloadDigest)
    decreases |arrivals|
  {
    hide Pinned, HandleFrame;
    if arrivals != [] {
      PinHolds(cfg, s, arrivals[0].frame, arrivals[0].size, arrivals[0].sendFails);
      LoopKeepsPin(cfg, HandleFrame(cfg, s, arrivals[0].frame, arrivals[0].size, arrivals[0].sendFails).0, arrivals[1..]);
    }
  }
}
