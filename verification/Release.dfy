/** Releasing an environment key to one boot, and what the client makes of an approved payload: the envelope,
    the delivery snapshot and the client's decryption of both. */
module Release {
  import opened Ideal
  import opened Protocol
  import opened Text
  import opened AadText
  import opened VaultTables
  import opened VaultRefinement

  // ------------------------------------------------------------------ the envelope

  /** None when the recipient's key agrees on an all-zero secret. */
  function CreateBootEnvelope(bootId: string, environmentId: string, version: nat, dek: Key, client: PublicKey,
                              serverSecret: nat, salt: nat, nonce: nat): Option<KeyEnvelope> {
    var info := EnvelopeInfo(bootId, environmentId, version, Fingerprint(client), Fingerprint(Point(serverSecret)));
    match DeriveWrapKey(serverSecret, client, salt, info)
    case None => None
    case Some(wrapKey) => Some(KeyEnvelope(Point(serverSecret), salt, nonce, Sealed(wrapKey, nonce, info, KeyBytes(dek))))
  }

  function OpenBootEnvelope(clientSecret: nat, bootId: string, environmentId: string, version: nat, envelope: KeyEnvelope)
    : Option<Key>
  {
    var info := EnvelopeInfo(bootId, environmentId, version, Fingerprint(Point(clientSecret)), Fingerprint(envelope.serverPublicKey));
    match DeriveWrapKey(clientSecret, envelope.serverPublicKey, envelope.salt, info)
    case None => None
    case Some(wrapKey) =>
      match Open(wrapKey, envelope.nonce, envelope.ciphertext, info)
      case Some(KeyBytes(dek)) => Some(dek)
      case _ => None
  }

  lemma FingerprintOneLine(key: PublicKey)
    ensures OneLine(Fingerprint(key))
  {
    if key.Point? {
      assert forall i :: 0 <= i < |Decimal(key.secret)| ==> IsDigit(Decimal(key.secret)[i]);
    }
  }

  lemma FingerprintInjective(a: nat, b: nat)
    requires Fingerprint(Point(a)) == Fingerprint(Point(b))
    ensures a == b
  {
    DecimalInjective(a, b);
  }

  /** The info text names the boot, environment, version and both keys, and nothing else fits it. */
  lemma EnvelopeInfoBinds(b: string, e: string, v: nat, c: PublicKey, s: PublicKey,
                          b': string, e': string, v': nat, c': PublicKey, s': PublicKey)
    requires OneLine(b) && OneLine(e) && OneLine(b') && OneLine(e')
    requires EnvelopeInfo(b, e, v, Fingerprint(c), Fingerprint(s)) == EnvelopeInfo(b', e', v', Fingerprint(c'), Fingerprint(s'))
    ensures b == b' && e == e' && v == v' && Fingerprint(c) == Fingerprint(c') && Fingerprint(s) == Fingerprint(s')
  {
    FingerprintOneLine(c);
    FingerprintOneLine(s);
    FingerprintOneLine(c');
    FingerprintOneLine(s');
    var x := EnvelopeLines(b, e, v, Fingerprint(c), Fingerprint(s));
    var y := EnvelopeLines(b', e', v', Fingerprint(c'), Fingerprint(s'));
    LinesInjective(x, y);
    assert x[1] == y[1] && x[2] == y[2] && x[3] == y[3] && x[4] == y[4] && x[5] == y[5];
    PrefixCancels("boot=", b, b');
    PrefixCancels("environment=", e, e');
    LabelledNumberInjective("env_key_version=", v, v');
    PrefixCancels("client=", Fingerprint(c), Fingerprint(c'));
    PrefixCancels("server=", Fingerprint(s), Fingerprint(s'));
  }

  /** An envelope opens for its own boot, environment, version and client key, and for nothing else. */
  lemma EnvelopeOpensOnlyForItsBoot(bootId: string, environmentId: string, version: nat, dek: Key, client: nat,
                                    serverSecret: nat, salt: nat, nonce: nat, bootId': string, environmentId': string,
                                    version': nat, client': nat)
    requires OneLine(bootId) && OneLine(environmentId) && OneLine(bootId') && OneLine(environmentId')
    ensures var envelope := CreateBootEnvelope(bootId, environmentId, version, dek, Point(client), serverSecret, salt, nonce);
            && envelope.Some?
            && OpenBootEnvelope(client', bootId', environmentId', version', envelope.value)
               == if (bootId, environmentId, version, client) == (bootId', environmentId', version', client') then Some(dek) else None
  {
    AgreementIsSymmetric(client, serverSecret, salt, EnvelopeInfo(bootId, environmentId, version, Fingerprint(Point(client)), Fingerprint(Point(serverSecret))));
    var mine := EnvelopeInfo(bootId, environmentId, version, Fingerprint(Point(client)), Fingerprint(Point(serverSecret)));
    var theirs := EnvelopeInfo(bootId', environmentId', version', Fingerprint(Point(client')), Fingerprint(Point(serverSecret)));
    if mine == theirs {
      EnvelopeInfoBinds(bootId, environmentId, version, Point(client), Point(serverSecret),
                        bootId', environmentId', version', Point(client'), Point(serverSecret));
      FingerprintInjective(client, client');
    }
  }

  /** A low-order recipient key is refused before any key is sealed to it. */
  lemma LowOrderIsRefused(bootId: string, environmentId: string, version: nat, dek: Key, serverSecret: nat, salt: nat, nonce: nat)
    ensures CreateBootEnvelope(bootId, environmentId, version, dek, LowOrder, serverSecret, salt, nonce).None?
  {
  }

  // ------------------------------------------------------------------ the delivery snapshot

  function RecordOf(name: string, row: Secret): SecretRecord {
    SecretRecord(row.id, name, row.version, row.envKeyVersion, row.nonce, row.ciphertext)
  }

  /** Strict order of texts by code point, the table's ORDER BY. */
  predicate Below(a: string, b: string) {
    if a == "" then b != ""
    else b != "" && (a[0] < b[0] || (a[0] == b[0] && Below(a[1..], b[1..])))
  }

  lemma {:induction false} BelowIsStrict(a: string)
    ensures !Below(a, a)
  {
    if a != "" {
      BelowIsStrict(a[1..]);
    }
  }

  /** listSecretsForDelivery: one record for each row of the environment, in name order. */
  predicate IsDelivery(v: Vault, e: string, records: seq<SecretRecord>) {
    && (forall i :: 0 <= i < |records| ==>
          SecretName(e, records[i].name) in v.secrets
          && records[i] == RecordOf(records[i].name, v.secrets[SecretName(e, records[i].name)]))
    && (forall i, j :: 0 <= i < j < |records| ==> Below(records[i].name, records[j].name))
    && (forall k :: k in v.secrets && k.environmentId == e ==> exists i :: 0 <= i < |records| && records[i].name == k.name)
  }

  /** The plain values of one environment. */
  function EnvironmentValues(v: Vault, e: string): map<string, string> {
    map k | k in Values(v) && k.environmentId == e :: k.name := Values(v)[k]
  }

  function RecordAad(project: string, e: string, record: SecretRecord): string {
    SecretAad(project, e, record.id, record.name, record.version, record.envKeyVersion)
  }

  function OpenRecord(dek: Key, project: string, e: string, record: SecretRecord): Option<string> {
    match Open(dek, record.nonce, record.ciphertext, RecordAad(project, e, record))
    case Some(Text(value)) => Some(value)
    case _ => None
  }

  predicate RecordOk(dek: Key, project: string, e: string, version: nat, record: SecretRecord, values: map<string, string>) {
    && record.id != "" && record.version >= 1 && record.envKeyVersion == version && ValidSecretName(record.name)
    && record.name in values && OpenRecord(dek, project, e, record) == Some(values[record.name])
  }

  /** Records that decrypt under one key to one map of values, each name once. A fact about the records alone:
      it outlives every later change of the vault. */
  predicate Snapshot(dek: Key, project: string, e: string, version: nat, records: seq<SecretRecord>, values: map<string, string>) {
    && (forall i :: 0 <= i < |records| ==> RecordOk(dek, project, e, version, records[i], values))
    && (forall i, j :: 0 <= i < j < |records| ==> records[i].name != records[j].name)
    && (forall name :: name in values ==> exists i :: 0 <= i < |records| && records[i].name == name)
  }

  /** What a sound vault delivers is a snapshot of its plain values, at the current key. */
  lemma DeliveryIsSnapshot(v: Vault, e: string, records: seq<SecretRecord>, dek: Key)
    requires Sound(v) && IsDelivery(v, e, records) && e in v.environments
    requires DekOf(v, KeyId(e, v.environments[e].currentKeyVersion)) == Ok(dek)
    ensures Snapshot(dek, v.environments[e].projectId, e, v.environments[e].currentKeyVersion, records, EnvironmentValues(v, e))
  {
    SoundValues(v);
    forall i | 0 <= i < |records|
      ensures RecordOk(dek, v.environments[e].projectId, e, v.environments[e].currentKeyVersion, records[i], EnvironmentValues(v, e))
    {
      RecordDelivers(v, e, records[i], dek);
    }
    hide Sound, Values, DekOf, RecordOk;
    forall i, j | 0 <= i < j < |records| ensures records[i].name != records[j].name {
      BelowIsStrict(records[i].name);
      assert Below(records[i].name, records[j].name);
    }
    forall name | name in EnvironmentValues(v, e) ensures exists i :: 0 <= i < |records| && records[i].name == name {
      var k :| k in Values(v) && k.environmentId == e && k.name == name;
      assert k in v.secrets;
    }
  }

  lemma RecordDelivers(v: Vault, e: string, record: SecretRecord, dek: Key)
    requires Sound(v) && e in v.environments && SecretName(e, record.name) in v.secrets
    requires record == RecordOf(record.name, v.secrets[SecretName(e, record.name)])
    requires DekOf(v, KeyId(e, v.environments[e].currentKeyVersion)) == Ok(dek)
    ensures RecordOk(dek, v.environments[e].projectId, e, v.environments[e].currentKeyVersion, record, EnvironmentValues(v, e))
  {
    var k := SecretName(e, record.name);
    assert SecretOk(v, k);
    SoundValues(v);
    EnvironmentValueAt(v, e, record.name);
  }

  lemma EnvironmentValueAt(v: Vault, e: string, name: string)
    requires SecretName(e, name) in Values(v)
    ensures name in EnvironmentValues(v, e) && EnvironmentValues(v, e)[name] == Values(v)[SecretName(e, name)]
  {
    hide Values;
    assert SecretName(e, name) in Values(v) && SecretName(e, name).name == name;
    var k :| k in Values(v) && k.environmentId == e && k.name == name && EnvironmentValues(v, e)[name] == Values(v)[k];
    assert k == SecretName(e, name);
  }

  // ------------------------------------------------------------------ there is one delivery

  lemma {:induction false} BelowIsTotal(a: string, b: string, c: string)
    ensures a != b ==> Below(a, b) || Below(b, a)
    ensures Below(a, b) && Below(b, c) ==> Below(a, c)
    ensures Below(a, b) ==> !Below(b, a)
  {
    if a != "" && b != "" {
      BelowIsTotal(a[1..], b[1..], if c == "" then "" else c[1..]);
      assert a[0] == b[0] && a[1..] == b[1..] ==> a == b by {
        assert a == [a[0]] + a[1..] && b == [b[0]] + b[1..];
      }
    }
  }

  predicate Ordered(names: seq<string>) {
    forall i, j :: 0 <= i < j < |names| ==> Below(names[i], names[j])
  }

  /** Any finite set of names in order. */
  lemma {:induction false} InOrder(names: set<string>) returns (list: seq<string>)
    ensures Ordered(list) && forall name :: name in list <==> name in names
  {
    if names == {} {
      list := [];
    } else {
      var name :| name in names;
      var rest := InOrder(names - {name});
      list := Placed(rest, name);
    }
  }

  lemma {:induction false} Placed(names: seq<string>, name: string) returns (list: seq<string>)
    requires Ordered(names) && name !in names
    ensures Ordered(list) && forall other :: other in list <==> other == name || other in names
  {
    if names == [] {
      list := [name];
    } else {
      BelowIsTotal(name, names[0], "");
      if Below(name, names[0]) {
        forall j | 0 <= j < |names| ensures Below(name, names[j]) {
          BelowIsTotal(name, names[0], names[j]);
        }
        list := [name] + names;
      } else {
        var rest := Placed(names[1..], name);
        forall j | 0 <= j < |rest| ensures Below(names[0], rest[j]) {
          assert rest[j] == name || rest[j] in names[1..];
        }
        list := [names[0]] + rest;
        assert names == [names[0]] + names[1..];
      }
    }
  }

  lemma {:induction false} OneOrder(a: seq<string>, b: seq<string>)
    requires Ordered(a) && Ordered(b) && forall name :: name in a <==> name in b
    ensures a == b
  {
    if a != [] || b != [] {
      assert a != [] ==> a[0] in b;
      assert b != [] ==> b[0] in a;
      var i :| 0 <= i < |b| && b[i] == a[0];
      var j :| 0 <= j < |a| && a[j] == b[0];
      BelowIsTotal(a[0], b[0], "");
      assert a[0] == b[0];
      BelowIsStrict(a[0]);
      forall name ensures name in a[1..] <==> name in b[1..] {
        TailHas(a, name);
        TailHas(b, name);
      }
      OneOrder(a[1..], b[1..]);
      assert a == [a[0]] + a[1..] && b == [b[0]] + b[1..];
    }
  }

  lemma TailHas(a: seq<string>, name: string)
    requires Ordered(a) && a != []
    ensures name in a[1..] <==> name in a && name != a[0]
  {
    BelowIsStrict(a[0]);
    assert a == [a[0]] + a[1..];
  }

  /** The list of an environment's secrets for delivery exists, and there is only one. */
  lemma DeliveryExists(v: Vault, e: string) returns (records: seq<SecretRecord>)
    ensures IsDelivery(v, e, records)
    ensures forall others: seq<SecretRecord> :: IsDelivery(v, e, others) ==> others == records
  {
    var names := InOrder(set k | k in v.secrets && k.environmentId == e :: k.name);
    forall i | 0 <= i < |names| ensures SecretName(e, names[i]) in v.secrets {
      assert names[i] in names;
    }
    records := seq(|names|, i requires 0 <= i < |names| => RecordOf(names[i], v.secrets[SecretName(e, names[i])]));
    forall k | k in v.secrets && k.environmentId == e ensures exists i :: 0 <= i < |records| && records[i].name == k.name {
      assert k.name in names;
      var i :| 0 <= i < |names| && names[i] == k.name;
      assert records[i].name == k.name;
    }
    forall others: seq<SecretRecord> | IsDelivery(v, e, others) ensures others == records {
      var theirs := seq(|others|, i requires 0 <= i < |others| => others[i].name);
      forall name ensures name in theirs <==> name in names {
        SameNames(v, e, others, theirs, name);
        if name in names {
          assert SecretName(e, name) in v.secrets;
        }
      }
      OneOrder(theirs, names);
      forall i | 0 <= i < |others| ensures others[i] == records[i] {
        assert theirs[i] == names[i];
      }
    }
  }

  lemma SameNames(v: Vault, e: string, records: seq<SecretRecord>, names: seq<string>, name: string)
    requires IsDelivery(v, e, records) && |names| == |records| && forall i :: 0 <= i < |records| ==> names[i] == records[i].name
    ensures name in names <==> SecretName(e, name) in v.secrets
  {
    if SecretName(e, name) in v.secrets {
      var i :| 0 <= i < |records| && records[i].name == SecretName(e, name).name;
      assert names[i] == name;
    }
  }
}
