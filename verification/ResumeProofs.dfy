/** The resume challenge at the granularity of the code's awaits: taking a challenge row and acting on its
    verification are separate steps, with any other handler in between. */
module ResumeProofs {
  import opened Ideal
  import opened Protocol
  import opened AadText

  /** A challenge as issued; its serial number is its position in the history. */
  datatype Issued = Issued(bootId: string, challenge: string, expiresAt: Time)

  /** A response being verified, or one that attached its socket: the row it took, and when. */
  datatype Proof = Proof(conn: nat, serial: nat, signature: Signature, takenAt: Time)

  /** `rows` is the challenges table by serial number; `keys` the signing key of each boot. */
  datatype Proofs = Proofs(
    keys: map<string, nat>, issued: seq<Issued>, rows: set<nat>, flights: map<nat, Proof>, attached: seq<Proof>)

  datatype ProofStep =
    | NewBoot(id: string, signingKey: nat)
    | IssueFor(id: string, challenge: string, expiresAt: Time)
    | Take(k: nat, conn: nat, id: string, signature: Signature, now: Time)
    | Finish(k: nat, admitted: bool)

  function RowsOf(p: Proofs, id: string): set<nat> {
    set n | n in p.rows && n < |p.issued| && p.issued[n].bootId == id
  }

  predicate StepEnabled(p: Proofs, step: ProofStep) {
    match step
    case NewBoot(id, _) => id !in p.keys
    case IssueFor(id, _, _) => id in p.keys
    case Take(k, _, id, _, _) => k !in p.flights && id in p.keys
    case Finish(k, _) => k in p.flights
  }

  predicate Signed(p: Proofs, proof: Proof) {
    && proof.serial < |p.issued| && p.issued[proof.serial].bootId in p.keys
    && var issued := p.issued[proof.serial];
       Verify(p.keys[issued.bootId], ResumeMessage(issued.bootId, issued.challenge), proof.signature)
  }

  /** Finishing reads only what was captured when the row was taken; `admitted` is the outcome of the
      token, token-id and expiry checks that follow a good signature. */
  ghost predicate Steps(p: Proofs, step: ProofStep, q: Proofs) {
    && StepEnabled(p, step)
    && match step
       case NewBoot(id, signingKey) => q == p.(keys := p.keys[id := signingKey])
       case IssueFor(id, challenge, expiresAt) =>
         q == p.(issued := p.issued + [Issued(id, challenge, expiresAt)], rows := p.rows - RowsOf(p, id) + {|p.issued|})
       case Take(k, conn, id, signature, now) =>
         (RowsOf(p, id) == {} && q == p)
         || exists serial :: serial in RowsOf(p, id) && q == Taken(p, k, Proof(conn, serial, signature, now), id)
       case Finish(k, admitted) =>
         q == p.(flights := p.flights - {k},
                 attached := if Signed(p, p.flights[k]) && admitted then p.attached + [p.flights[k]] else p.attached)
  }

  /** Every row of the boot goes, whether or not the one taken is still good. */
  function Taken(p: Proofs, k: nat, proof: Proof, id: string): Proofs
    requires proof.serial < |p.issued|
  {
    var q := p.(rows := p.rows - RowsOf(p, id));
    if p.issued[proof.serial].expiresAt <= proof.takenAt then q else q.(flights := p.flights[k := proof])
  }

  predicate ProofOk(p: Proofs, proof: Proof) {
    proof.serial < |p.issued| && proof.serial !in p.rows && proof.takenAt < p.issued[proof.serial].expiresAt
  }

  predicate ProofsInv(p: Proofs) {
    && (forall n :: n in p.rows ==> n < |p.issued|)
    && (forall m, n :: m in p.rows && n in p.rows && p.issued[m].bootId == p.issued[n].bootId ==> m == n)
    && (forall k :: k in p.flights ==> ProofOk(p, p.flights[k]))
    && (forall j, k :: j in p.flights && k in p.flights && p.flights[j].serial == p.flights[k].serial ==> j == k)
    && (forall a :: a in p.attached ==> ProofOk(p, a) && Signed(p, a))
    && (forall i, k :: 0 <= i < |p.attached| && k in p.flights ==> p.attached[i].serial != p.flights[k].serial)
    && (forall i, j :: 0 <= i < j < |p.attached| ==> p.attached[i].serial != p.attached[j].serial)
  }

  lemma IssueKeeps(p: Proofs, id: string, challenge: string, expiresAt: Time)
    requires ProofsInv(p)
    ensures ProofsInv(p.(issued := p.issued + [Issued(id, challenge, expiresAt)],
                         rows := p.rows - RowsOf(p, id) + {|p.issued|}))
  {
    hide Verify, ResumeMessage;
    assert forall a :: a in p.attached ==> ProofOk(p, a) && Signed(p, a);
    assert forall k :: k in p.flights ==> ProofOk(p, p.flights[k]);
  }

  lemma TakeKeeps(p: Proofs, k: nat, proof: Proof, id: string)
    requires ProofsInv(p) && proof.serial in RowsOf(p, id) && k !in p.flights
    ensures ProofsInv(Taken(p, k, proof, id))
  {
    hide Verify, ResumeMessage;
    assert forall a :: a in p.attached ==> ProofOk(p, a) && Signed(p, a);
    assert forall i :: 0 <= i < |p.attached| ==> ProofOk(p, p.attached[i]);
    assert forall j :: j in p.flights ==> ProofOk(p, p.flights[j]);
  }

  lemma FinishKeeps(p: Proofs, k: nat, admitted: bool)
    requires ProofsInv(p) && k in p.flights
    ensures ProofsInv(p.(flights := p.flights - {k},
                         attached := if Signed(p, p.flights[k]) && admitted then p.attached + [p.flights[k]] else p.attached))
  {
    hide Verify, ResumeMessage;
    assert ProofOk(p, p.flights[k]);
    assert forall a :: a in p.attached ==> ProofOk(p, a) && Signed(p, a);
  }

  lemma StepKeeps(p: Proofs, step: ProofStep, q: Proofs)
    requires ProofsInv(p) && Steps(p, step, q)
    ensures ProofsInv(q) && p.issued <= q.issued && p.attached <= q.attached
  {
    match step
    case NewBoot(id, signingKey) =>
      forall a | a in p.attached ensures ProofOk(q, a) && Signed(q, a) {
        assert ProofOk(p, a) && Signed(p, a);
      }
      assert forall k :: k in p.flights ==> ProofOk(p, p.flights[k]);
    case IssueFor(id, challenge, expiresAt) => IssueKeeps(p, id, challenge, expiresAt);
    case Take(k, conn, id, signature, now) =>
      if q != p {
        var serial :| serial in RowsOf(p, id) && q == Taken(p, k, Proof(conn, serial, signature, now), id);
        TakeKeeps(p, k, Proof(conn, serial, signature, now), id);
      }
    case Finish(k, admitted) => FinishKeeps(p, k, admitted);
  }

  ghost predicate ProofRuns(p: Proofs, steps: seq<ProofStep>, states: seq<Proofs>) {
    && |states| == |steps| + 1 && states[0] == p
    && forall i :: 0 <= i < |steps| ==> Steps(states[i], steps[i], states[i + 1])
  }

  const NOTHING := Proofs(map[], [], {}, map[], [])

  lemma {:induction false} RunKeepsProofs(steps: seq<ProofStep>, states: seq<Proofs>, n: nat)
    requires ProofRuns(NOTHING, steps, states) && n < |states|
    ensures ProofsInv(states[n])
  {
    if n > 0 {
      RunKeepsProofs(steps, states, n - 1);
      StepKeeps(states[n - 1], steps[n - 1], states[n]);
    }
  }

  /** The step that took the row: it was in the table, so it had been issued and not taken before. */
  predicate TookBy(step: ProofStep, before: Proofs, proof: Proof) {
    && step.Take? && step.conn == proof.conn && step.signature == proof.signature && step.now == proof.takenAt
    && proof.serial in RowsOf(before, step.id)
  }

  lemma {:induction false} Origin(steps: seq<ProofStep>, states: seq<Proofs>, n: nat, proof: Proof)
    requires ProofRuns(NOTHING, steps, states) && n < |states|
    requires proof in states[n].flights.Values || proof in states[n].attached
    ensures exists t :: 0 <= t < n && TookBy(steps[t], states[t], proof)
  {
    if n > 0 {
      var p, step, q := states[n - 1], steps[n - 1], states[n];
      assert Steps(p, step, q);
      if proof in p.flights.Values || proof in p.attached {
        Origin(steps, states, n - 1, proof);
      } else {
        assert step.Take?;
        var serial :| serial in RowsOf(p, step.id)
                      && q == Taken(p, step.k, Proof(step.conn, serial, step.signature, step.now), step.id);
        var taken := Proof(step.conn, serial, step.signature, step.now);
        assert q.flights == p.flights[step.k := taken];
        var k :| k in q.flights && q.flights[k] == proof;
        assert k != step.k ==> proof in p.flights.Values;
        assert TookBy(steps[n - 1], states[n - 1], proof);
      }
    }
  }

  /** Over any interleaving, each attachment spent one challenge of its own boot: outstanding when it was
      taken, unexpired, and signed by that boot's key. No challenge is spent twice. */
  lemma AttachmentsMatchChallenges(steps: seq<ProofStep>, states: seq<Proofs>, n: nat, i: nat)
    requires ProofRuns(NOTHING, steps, states) && n < |states| && i < |states[n].attached|
    ensures var proof := states[n].attached[i];
            exists t :: 0 <= t < n && TookBy(steps[t], states[t], proof)
                        && proof.serial < |states[t].issued| <= |states[n].issued|
                        && var issued := states[n].issued[proof.serial];
                           && issued == states[t].issued[proof.serial] && issued.bootId == steps[t].id
                           && proof.takenAt < issued.expiresAt
                           && issued.bootId in states[n].keys
                           && proof.signature == Signature(states[n].keys[issued.bootId], ResumeMessage(issued.bootId, issued.challenge))
    ensures forall j :: 0 <= j < |states[n].attached| && j != i ==> states[n].attached[j].serial != states[n].attached[i].serial
  {
    var proof := states[n].attached[i];
    RunKeepsProofs(steps, states, n);
    Origin(steps, states, n, proof);
    var t :| 0 <= t < n && TookBy(steps[t], states[t], proof);
    IssuedGrows(steps, states, t, n);
    assert ProofOk(states[n], proof) && Signed(states[n], proof);
  }

  lemma {:induction false} IssuedGrows(steps: seq<ProofStep>, states: seq<Proofs>, m: nat, n: nat)
    requires ProofRuns(NOTHING, steps, states) && m <= n < |states|
    ensures states[m].issued <= states[n].issued
    decreases n
  {
    if m < n {
      IssuedGrows(steps, states, m, n - 1);
      assert Steps(states[n - 1], steps[n - 1], states[n]);
    }
  }

  /** At most one challenge of a boot is ever outstanding. */
  lemma OneOutstandingRow(steps: seq<ProofStep>, states: seq<Proofs>, n: nat, id: string)
    requires ProofRuns(NOTHING, steps, states) && n < |states|
    ensures |RowsOf(states[n], id)| <= 1
  {
    RunKeepsProofs(steps, states, n);
    var rows := RowsOf(states[n], id);
    if rows != {} {
      var m :| m in rows;
      assert rows == {m};
    }
  }
}
