/** Concurrent secret writers: reading a row, sealing for it and the conditional upsert are separate steps,
    with other writers and deletes in between. Rotations are exclusive with writers, so the key is fixed. */
module SecretRace {
  import opened Ideal
  import opened AadText
  import opened VaultTables

  /** One call of the write path: what it read and, once sealed, the row it will offer. */
  datatype Writer = Writer(at: SecretName, read: Option<Secret>, sealed: Option<Secret>, value: string)

  /** An accepted write: the row it had read and the row now stored. */
  datatype Accepted = Accepted(at: SecretName, read: Option<Secret>, written: Secret, value: string)

  /** `owner` is every id ever generated and the name it was generated for; `log` every accepted write. */
  datatype Race = Race(
    rows: map<SecretName, Secret>, writers: map<nat, Writer>, owner: map<string, SecretName>, log: seq<Accepted>)

  /** The environment's project, key and key version, which no writer changes. */
  datatype Keys = Keys(project: string, dek: Key, version: nat)

  datatype RaceStep =
    | Read(k: nat, at: SecretName, value: string)
    | Seal(k: nat, id: string, nonce: nat)
    | Store(k: nat)
    | GiveUp(k: nat)
    | Remove(at: SecretName)

  predicate RaceEnabled(r: Race, step: RaceStep) {
    match step
    case Read(k, at, _) => k !in r.writers
    case Seal(k, id, _) => k in r.writers && r.writers[k].sealed.None? && id !in r.owner
    case Store(k) => k in r.writers && r.writers[k].sealed.Some?
    case GiveUp(k) => k in r.writers
    case Remove(_) => true
  }

  function Expected(w: Writer): nat {
    if w.read.Some? then w.read.value.version else 0
  }

  function RaceNext(keys: Keys, r: Race, step: RaceStep): Race
    requires RaceEnabled(r, step)
  {
    match step
    case Read(k, at, value) => r.(writers := r.writers[k := Writer(at, Existing(r.rows, at), None, value)])
    case Seal(k, id, nonce) =>
      var w := r.writers[k];
      r.(writers := r.writers[k := w.(sealed := Some(Replacement(w.read, keys.project, w.at, keys.dek, keys.version, w.value, id, nonce)))],
         owner := if w.read.Some? then r.owner else r.owner[id := w.at])
    case Store(k) =>
      var w := r.writers[k];
      var rows := Upsert(r.rows, w.at, Expected(w), w.sealed.value);
      if rows.None? then r.(writers := r.writers - {k})
      else
        r.(rows := rows.value, writers := r.writers - {k},
           log := r.log + [Accepted(w.at, w.read, if w.at in rows.value then rows.value[w.at] else w.sealed.value, w.value)])
    case GiveUp(k) => r.(writers := r.writers - {k})
    case Remove(at) => r.(rows := r.rows - {at})
  }

  // ------------------------------------------------------------------ the properties

  /** The row's ciphertext opens under the additional data its own columns spell. */
  predicate OpensInPlace(keys: Keys, at: SecretName, row: Secret, value: string) {
    && row.envKeyVersion == keys.version
    && OpenSecret(keys.dek, row, SecretAad(keys.project, at.environmentId, row.id, at.name, row.version, keys.version)) == Some(value)
  }

  /** The last row written under an id. */
  function LastOf(log: seq<Accepted>, id: string): Option<Secret> {
    if log == [] then None
    else if log[|log| - 1].written.id == id then Some(log[|log| - 1].written)
    else LastOf(log[..|log| - 1], id)
  }

  /** Each accepted write read exactly the write before it, or created the id. */
  predicate Chain(log: seq<Accepted>) {
    forall i :: 0 <= i < |log| ==>
      var before := LastOf(log[..i], log[i].written.id);
      log[i].read == before && log[i].written.version == if before.None? then 1 else before.value.version + 1
  }

  predicate EntryOk(keys: Keys, owner: map<string, SecretName>, entry: Accepted) {
    && entry.written.id in owner && owner[entry.written.id] == entry.at
    && OpensInPlace(keys, entry.at, entry.written, entry.value)
  }

  /** A row read is one that was written; a sealed row is bound to what was read. */
  predicate WriterOk(keys: Keys, r: Race, w: Writer) {
    && (w.read.Some? ==> exists i :: 0 <= i < |r.log| && r.log[i].written == w.read.value && r.log[i].at == w.at)
    && (w.sealed.Some? ==>
          var row := w.sealed.value;
          && row.version == Expected(w) + 1 && row.id in r.owner && r.owner[row.id] == w.at
          && OpensInPlace(keys, w.at, row, w.value)
          && (w.read.Some? ==> row.id == w.read.value.id))
  }

  /** A fresh id belongs to one writer until that writer's row is in. */
  predicate IdsHeld(r: Race) {
    && (forall k :: k in r.writers && r.writers[k].sealed.Some? && r.writers[k].read.None? ==>
          LastOf(r.log, r.writers[k].sealed.value.id).None?)
    && (forall j, k | j in r.writers && k in r.writers && j != k && r.writers[j].sealed.Some? && r.writers[k].sealed.Some?
                      && r.writers[j].read.None? ::
          r.writers[j].sealed.value.id != r.writers[k].sealed.value.id)
  }

  /** The table holds the last row written under each of its ids, at the name the id is for. */
  predicate RowsOk(r: Race) {
    forall at :: at in r.rows ==> LastOf(r.log, r.rows[at].id) == Some(r.rows[at]) && r.rows[at].id in r.owner
                                  && r.owner[r.rows[at].id] == at
  }

  predicate RaceInv(keys: Keys, r: Race) {
    && RowsOk(r)
    && (forall i :: 0 <= i < |r.log| ==> EntryOk(keys, r.owner, r.log[i]))
    && Chain(r.log)
    && (forall k :: k in r.writers ==> WriterOk(keys, r, r.writers[k]))
    && IdsHeld(r)
  }

  // ------------------------------------------------------------------ the log

  lemma {:induction false} LastIsLogged(log: seq<Accepted>, id: string)
    ensures LastOf(log, id).None? <==> forall i :: 0 <= i < |log| ==> log[i].written.id != id
    ensures LastOf(log, id).Some? ==>
              LastOf(log, id).value.id == id && exists i :: 0 <= i < |log| && log[i].written == LastOf(log, id).value
  {
    if log != [] {
      var front := log[..|log| - 1];
      LastIsLogged(front, id);
      assert forall i :: 0 <= i < |front| ==> front[i] == log[i];
      if log[|log| - 1].written.id != id && LastOf(front, id).Some? {
        var i :| 0 <= i < |front| && front[i].written == LastOf(front, id).value;
        assert log[i].written == LastOf(log, id).value;
      }
    }
  }

  /** Along a chain the versions of an id rise, so an id and a version name one row. */
  lemma {:induction false} VersionsRise(log: seq<Accepted>, id: string, i: nat)
    requires Chain(log) && i < |log| && log[i].written.id == id
    ensures LastOf(log, id).Some? && log[i].written.version <= LastOf(log, id).value.version
    ensures log[i].written.version == LastOf(log, id).value.version ==> log[i].written == LastOf(log, id).value
  {
    var front := log[..|log| - 1];
    ChainPrefix(log);
    if i < |log| - 1 {
      assert front[i] == log[i];
      VersionsRise(front, id, i);
    }
  }

  lemma ChainPrefix(log: seq<Accepted>)
    requires Chain(log) && log != []
    ensures Chain(log[..|log| - 1])
  {
    var front := log[..|log| - 1];
    forall i | 0 <= i < |front|
      ensures var before := LastOf(front[..i], front[i].written.id);
              front[i].read == before && front[i].written.version == if before.None? then 1 else before.value.version + 1
    {
      assert front[..i] == log[..i];
    }
  }

  lemma ChainGrows(log: seq<Accepted>, entry: Accepted)
    requires Chain(log) && entry.read == LastOf(log, entry.written.id)
    requires entry.written.version == if entry.read.None? then 1 else entry.read.value.version + 1
    ensures Chain(log + [entry])
  {
    var more := log + [entry];
    forall i | 0 <= i < |more|
      ensures var before := LastOf(more[..i], more[i].written.id);
              more[i].read == before && more[i].written.version == if before.None? then 1 else before.value.version + 1
    {
      assert more[..i] == log[..i];
      assert log[..|log|] == log;
    }
  }

  lemma LastGrows(log: seq<Accepted>, entry: Accepted)
    ensures forall id :: LastOf(log + [entry], id) == if entry.written.id == id then Some(entry.written) else LastOf(log, id)
  {
    assert (log + [entry])[..|log + [entry]| - 1] == log;
  }

  // ------------------------------------------------------------------ each step keeps it

  /** A writer that read a row offers the next version of that row; where the row still is what it read, and
      only there, ids and versions match. */
  lemma MatchesRead(keys: Keys, r: Race, w: Writer)
    requires RaceInv(keys, r) && WriterOk(keys, r, w) && w.sealed.Some? && w.at in r.rows
    ensures r.rows[w.at].version >= 1
    ensures r.rows[w.at].id == w.sealed.value.id && r.rows[w.at].version == Expected(w) <==> w.read == Some(r.rows[w.at])
  {
    hide OpensInPlace, EntryOk, IdsHeld, Chain;
    var stored := r.rows[w.at];
    LastIsLogged(r.log, stored.id);
    var j :| 0 <= j < |r.log| && r.log[j].written == stored;
    VersionPositive(r.log, j);
    if w.read.Some? && w.read.value.id == stored.id {
      var i :| 0 <= i < |r.log| && r.log[i].written == w.read.value && r.log[i].at == w.at;
      VersionsRise(r.log, stored.id, i);
    }
  }

  /** Where no row is, no other row carries the writer's id. */
  lemma NoRowElsewhere(keys: Keys, r: Race, w: Writer)
    requires RaceInv(keys, r) && WriterOk(keys, r, w) && w.sealed.Some? && w.at !in r.rows
    ensures !IdTaken(r.rows, w.sealed.value.id)
    ensures w.read.Some? ==> Expected(w) >= 1
  {
    hide OpensInPlace, EntryOk, IdsHeld, Chain;
    assert forall other :: other in r.rows ==> r.owner[r.rows[other].id] == other;
    if w.read.Some? {
      var i :| 0 <= i < |r.log| && r.log[i].written == w.read.value && r.log[i].at == w.at;
      VersionPositive(r.log, i);
    }
  }

  /** The upsert accepts exactly the writer whose row is still the one it read, or a creation where no row is;
      what it stores is the sealed row itself, so the binding holds. */
  lemma AcceptedReadLatest(keys: Keys, r: Race, k: nat)
    requires RaceInv(keys, r) && k in r.writers && r.writers[k].sealed.Some?
    ensures var w := r.writers[k];
            var rows := Upsert(r.rows, w.at, Expected(w), w.sealed.value);
            && (rows.Some? <==> Existing(r.rows, w.at) == w.read)
            && (rows.Some? ==> rows.value == r.rows[w.at := w.sealed.value] && w.read == LastOf(r.log, w.sealed.value.id))
  {
    hide OpensInPlace, EntryOk, Chain;
    var w := r.writers[k];
    assert WriterOk(keys, r, w);
    if w.at in r.rows {
      MatchesRead(keys, r, w);
      if w.read == Some(r.rows[w.at]) {
        assert HasVersion(r.rows, w.sealed.value.id, Expected(w));
      }
    } else {
      NoRowElsewhere(keys, r, w);
    }
  }

  lemma VersionPositive(log: seq<Accepted>, i: nat)
    requires Chain(log) && i < |log|
    ensures log[i].written.version >= 1
  {
  }

  lemma WriterFacts(keys: Keys, r: Race, w: Writer)
    requires WriterOk(keys, r, w)
    ensures w.sealed.Some? ==>
              && w.sealed.value.id in r.owner && r.owner[w.sealed.value.id] == w.at
              && w.sealed.value.version == Expected(w) + 1 && OpensInPlace(keys, w.at, w.sealed.value, w.value)
  {
  }

  /** The state after an accepted write. */
  function Accept(r: Race, k: nat): Race
    requires k in r.writers && r.writers[k].sealed.Some?
  {
    var w := r.writers[k];
    r.(rows := r.rows[w.at := w.sealed.value], writers := r.writers - {k},
       log := r.log + [Accepted(w.at, w.read, w.sealed.value, w.value)])
  }

  lemma AcceptRows(keys: Keys, r: Race, k: nat)
    requires RaceInv(keys, r) && k in r.writers && r.writers[k].sealed.Some?
    requires Existing(r.rows, r.writers[k].at) == r.writers[k].read
    ensures RowsOk(Accept(r, k))
  {
    hide OpensInPlace, Chain, WriterOk, EntryOk, IdsHeld;
    var w := r.writers[k];
    WriterFacts(keys, r, w);
    LastGrows(r.log, Accepted(w.at, w.read, w.sealed.value, w.value));
  }

  lemma AcceptHeld(keys: Keys, r: Race, k: nat)
    requires RaceInv(keys, r) && k in r.writers && r.writers[k].sealed.Some?
    ensures IdsHeld(Accept(r, k))
  {
    hide OpensInPlace, Chain, WriterOk, EntryOk, RowsOk;
    var w := r.writers[k];
    LastGrows(r.log, Accepted(w.at, w.read, w.sealed.value, w.value));
  }

  lemma AcceptKeeps(keys: Keys, r: Race, k: nat)
    requires RaceInv(keys, r) && k in r.writers && r.writers[k].sealed.Some?
    requires Existing(r.rows, r.writers[k].at) == r.writers[k].read
    requires r.writers[k].read == LastOf(r.log, r.writers[k].sealed.value.id)
    ensures RaceInv(keys, Accept(r, k))
  {
    hide OpensInPlace, EntryOk, Chain, WriterOk, RowsOk, IdsHeld;
    AcceptRows(keys, r, k);
    AcceptHeld(keys, r, k);
    AcceptLogs(keys, r, k);
    forall j | j in Accept(r, k).writers ensures WriterOk(keys, Accept(r, k), Accept(r, k).writers[j]) {
      WriterStays(keys, r, Accept(r, k), r.writers[j]);
    }
  }

  lemma AcceptLogs(keys: Keys, r: Race, k: nat)
    requires RaceInv(keys, r) && k in r.writers && r.writers[k].sealed.Some?
    requires r.writers[k].read == LastOf(r.log, r.writers[k].sealed.value.id)
    ensures var t := Accept(r, k); Chain(t.log) && forall i :: 0 <= i < |t.log| ==> EntryOk(keys, t.owner, t.log[i])
  {
    hide OpensInPlace, Chain, WriterOk, RowsOk, IdsHeld;
    var w := r.writers[k];
    WriterFacts(keys, r, w);
    ChainGrows(r.log, Accepted(w.at, w.read, w.sealed.value, w.value));
  }

  lemma StoreKeeps(keys: Keys, r: Race, k: nat)
    requires RaceInv(keys, r) && k in r.writers && r.writers[k].sealed.Some?
    ensures RaceInv(keys, RaceNext(keys, r, Store(k)))
  {
    hide Upsert, RaceInv;
    var w := r.writers[k];
    AcceptedReadLatest(keys, r, k);
    if Upsert(r.rows, w.at, Expected(w), w.sealed.value).Some? {
      AcceptKeeps(keys, r, k);
    } else {
      SameLog(keys, r, r.(writers := r.writers - {k}));
    }
  }

  lemma WriterStays(keys: Keys, r: Race, t: Race, w: Writer)
    requires WriterOk(keys, r, w) && r.log <= t.log && forall id :: id in r.owner ==> id in t.owner && t.owner[id] == r.owner[id]
    ensures WriterOk(keys, t, w)
  {
    hide OpensInPlace;
    if w.read.Some? {
      var i :| 0 <= i < |r.log| && r.log[i].written == w.read.value && r.log[i].at == w.at;
      assert t.log[i] == r.log[i];
    }
  }

  lemma ReadKeeps(keys: Keys, r: Race, k: nat, at: SecretName, value: string)
    requires RaceInv(keys, r) && k !in r.writers
    ensures RaceInv(keys, RaceNext(keys, r, Read(k, at, value)))
  {
    hide Chain, OpensInPlace;
    var t := RaceNext(keys, r, Read(k, at, value));
    forall j | j in t.writers ensures WriterOk(keys, t, t.writers[j]) {
      if j == k {
        if at in r.rows {
          LastIsLogged(r.log, r.rows[at].id);
          var i :| 0 <= i < |r.log| && r.log[i].written == r.rows[at];
          assert EntryOk(keys, r.owner, r.log[i]);
        }
      } else {
        WriterStays(keys, r, t, r.writers[j]);
      }
    }
  }

  lemma SealedIsBound(keys: Keys, r: Race, k: nat, id: string, nonce: nat)
    requires RaceInv(keys, r) && RaceEnabled(r, Seal(k, id, nonce))
    ensures var t := RaceNext(keys, r, Seal(k, id, nonce)); WriterOk(keys, t, t.writers[k])
    ensures var row := RaceNext(keys, r, Seal(k, id, nonce)).writers[k].sealed.value;
            if r.writers[k].read.None? then row.id == id else LastOf(r.log, row.id).Some?
  {
    hide Chain, SecretAad, IdsHeld;
    var w := r.writers[k];
    assert WriterOk(keys, r, w);
    if w.read.Some? {
      var i :| 0 <= i < |r.log| && r.log[i].written == w.read.value && r.log[i].at == w.at;
      assert EntryOk(keys, r.owner, r.log[i]);
      LastIsLogged(r.log, w.read.value.id);
    }
  }

  lemma SealKeeps(keys: Keys, r: Race, k: nat, id: string, nonce: nat)
    requires RaceInv(keys, r) && RaceEnabled(r, Seal(k, id, nonce))
    ensures RaceInv(keys, RaceNext(keys, r, Seal(k, id, nonce)))
  {
    hide Chain, SecretAad, OpensInPlace, Replacement, WriterOk;
    var w := r.writers[k];
    var t := RaceNext(keys, r, Seal(k, id, nonce));
    LastIsLogged(r.log, id);
    assert forall i :: 0 <= i < |r.log| ==> EntryOk(keys, r.owner, r.log[i]);
    SealedIsBound(keys, r, k, id, nonce);
    forall j | j in t.writers ensures WriterOk(keys, t, t.writers[j]) {
      if j != k {
        WriterStays(keys, r, t, r.writers[j]);
      }
    }
    forall j | j in r.writers && r.writers[j].sealed.Some? ensures r.writers[j].sealed.value.id != id {
      WriterFacts(keys, r, r.writers[j]);
    }
  }

  lemma RaceKeeps(keys: Keys, r: Race, step: RaceStep)
    requires RaceInv(keys, r) && RaceEnabled(r, step)
    ensures RaceInv(keys, RaceNext(keys, r, step)) && r.log <= RaceNext(keys, r, step).log
  {
    hide Chain, OpensInPlace, WriterOk;
    match step
    case Read(k, at, value) => ReadKeeps(keys, r, k, at, value);
    case Seal(k, id, nonce) => SealKeeps(keys, r, k, id, nonce);
    case Store(k) => StoreKeeps(keys, r, k);
    case GiveUp(k) => SameLog(keys, r, RaceNext(keys, r, step));
    case Remove(at) => SameLog(keys, r, RaceNext(keys, r, step));
  }

  lemma SameLog(keys: Keys, r: Race, t: Race)
    requires RaceInv(keys, r) && t.log == r.log && t.owner == r.owner
    requires forall k :: k in t.writers ==> k in r.writers && t.writers[k] == r.writers[k]
    requires forall at :: at in t.rows ==> at in r.rows && t.rows[at] == r.rows[at]
    ensures RaceInv(keys, t)
  {
    hide Chain, OpensInPlace;
    forall k | k in t.writers ensures WriterOk(keys, t, t.writers[k]) {
      WriterStays(keys, r, t, r.writers[k]);
    }
  }

  ghost predicate RaceRun(keys: Keys, r: Race, steps: seq<RaceStep>, t: Race)
    decreases |steps|
  {
    if steps == [] then t == r else RaceEnabled(r, steps[0]) && RaceRun(keys, RaceNext(keys, r, steps[0]), steps[1..], t)
  }

  lemma {:induction false} RaceRunKeeps(keys: Keys, r: Race, steps: seq<RaceStep>, t: Race)
    requires RaceInv(keys, r) && RaceRun(keys, r, steps, t)
    ensures RaceInv(keys, t)
    decreases |steps|
  {
    hide RaceInv, RaceNext, RaceEnabled;
    if steps != [] {
      RaceKeeps(keys, r, steps[0]);
      RaceRunKeeps(keys, RaceNext(keys, r, steps[0]), steps[1..], t);
    }
  }

  /** For any interleaving of writers and deletes: every stored row opens under its own columns, to a value
      some accepted write put there, and the accepted writes of each row form a chain. */
  lemma RowsStayBound(keys: Keys, steps: seq<RaceStep>, t: Race)
    requires RaceRun(keys, Race(map[], map[], map[], []), steps, t)
    ensures Chain(t.log)
    ensures forall at :: at in t.rows ==>
              exists i :: 0 <= i < |t.log| && t.log[i].at == at && t.log[i].written == t.rows[at]
                          && OpensInPlace(keys, at, t.rows[at], t.log[i].value)
  {
    RaceRunKeeps(keys, Race(map[], map[], map[], []), steps, t);
    hide RaceRun, OpensInPlace;
    forall at | at in t.rows
      ensures exists i :: 0 <= i < |t.log| && t.log[i].at == at && t.log[i].written == t.rows[at]
                          && OpensInPlace(keys, at, t.rows[at], t.log[i].value)
    {
      LastIsLogged(t.log, t.rows[at].id);
      var i :| 0 <= i < |t.log| && t.log[i].written == t.rows[at];
      assert EntryOk(keys, t.owner, t.log[i]);
    }
  }

  /** Two accepted writes never replaced the same row: no update is lost. */
  lemma NoLostUpdate(keys: Keys, steps: seq<RaceStep>, t: Race, i: nat, j: nat)
    requires RaceRun(keys, Race(map[], map[], map[], []), steps, t)
    requires i < j < |t.log| && t.log[i].written.id == t.log[j].written.id
    ensures t.log[i].read != t.log[j].read && t.log[i].written.version < t.log[j].written.version
  {
    hide RaceRun, OpensInPlace;
    RaceRunKeeps(keys, Race(map[], map[], map[], []), steps, t);
    ChainTake(t.log, j);
    var before := t.log[..j];
    assert before[i] == t.log[i];
    VersionsRise(before, t.log[i].written.id, i);
  }

  lemma {:induction false} ChainTake(log: seq<Accepted>, n: nat)
    requires Chain(log) && n <= |log|
    ensures Chain(log[..n])
    decreases |log| - n
  {
    if n < |log| {
      ChainTake(log, n + 1);
      ChainPrefix(log[..n + 1]);
      assert log[..n + 1][..n] == log[..n];
    } else {
      assert log[..n] == log;
    }
  }
}
