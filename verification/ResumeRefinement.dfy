/** The resume pieces of ResumeProofs, run without interruption, are the handlers of BootTables: the same
    challenges, and an attachment exactly where the handler attaches. */
module ResumeRefinement {
  import opened Ideal
  import opened Protocol
  import opened BootTables
  import opened BootInvariants
  import opened BootRuns
  import opened ApprovalRuns
  import opened BootTheorems
  import opened BootOutcomes
  import P = ResumeProofs

  function ChallengeOf(issued: P.Issued): Challenge {
    Challenge(issued.bootId, issued.challenge, issued.expiresAt)
  }

  function ChallengesOf(p: P.Proofs): set<Challenge> {
    set n | n in p.rows && n < |p.issued| :: ChallengeOf(p.issued[n])
  }

  function KeysOf(boots: map<string, Boot>): map<string, nat> {
    map id | id in boots :: boots[id].signingKey
  }

  /** The boots' keys and the challenges table are those of the tables. */
  predicate Represents(p: P.Proofs, s: State) {
    p.keys == KeysOf(s.boots) && ChallengesOf(p) == s.challenges
  }

  /** The row a response would take, of one boot. */
  lemma RowOf(p: P.Proofs, s: State, id: string)
    requires P.ProofsInv(p) && Represents(p, s)
    ensures P.RowsOf(p, id) == {} <==> Outstanding(s, id) == {}
    ensures forall n :: n in P.RowsOf(p, id) ==> Outstanding(s, id) == {ChallengeOf(p.issued[n])}
  {
    forall n | n in P.RowsOf(p, id) ensures Outstanding(s, id) == {ChallengeOf(p.issued[n])} {
      assert ChallengeOf(p.issued[n]) in ChallengesOf(p);
      forall c | c in Outstanding(s, id) ensures c == ChallengeOf(p.issued[n]) {
        var m :| m in p.rows && m < |p.issued| && ChallengeOf(p.issued[m]) == c;
      }
    }
    if Outstanding(s, id) != {} {
      var c := AnyOf(Outstanding(s, id));
      var m :| m in p.rows && m < |p.issued| && ChallengeOf(p.issued[m]) == c;
      assert m in P.RowsOf(p, id);
    }
  }

  lemma SpentRows(p: P.Proofs, id: string)
    ensures ChallengesOf(p.(rows := p.rows - P.RowsOf(p, id))) == set c | c in ChallengesOf(p) && c.bootId != id
  {
    var q := p.(rows := p.rows - P.RowsOf(p, id));
    forall c | c in ChallengesOf(p) && c.bootId != id ensures c in ChallengesOf(q) {
      var n :| n in p.rows && n < |p.issued| && ChallengeOf(p.issued[n]) == c;
      assert n in q.rows;
    }
  }

  lemma IssuedRows(p: P.Proofs, id: string, challenge: string, expiresAt: Time)
    requires P.ProofsInv(p)
    ensures ChallengesOf(p.(issued := p.issued + [P.Issued(id, challenge, expiresAt)], rows := p.rows - P.RowsOf(p, id) + {|p.issued|}))
         == (set c | c in ChallengesOf(p) && c.bootId != id) + {Challenge(id, challenge, expiresAt)}
  {
    var issued := p.issued + [P.Issued(id, challenge, expiresAt)];
    var q := p.(issued := issued, rows := p.rows - P.RowsOf(p, id) + {|p.issued|});
    forall c | c in ChallengesOf(p) && c.bootId != id ensures c in ChallengesOf(q) {
      var n :| n in p.rows && n < |p.issued| && ChallengeOf(p.issued[n]) == c;
      assert n in q.rows && issued[n] == p.issued[n];
    }
    assert issued[|p.issued|] == P.Issued(id, challenge, expiresAt);
    assert ChallengeOf(issued[|p.issued|]) in ChallengesOf(q);
  }

  lemma SameTable(p: P.Proofs, q: P.Proofs)
    requires q.rows == p.rows && q.issued == p.issued
    ensures ChallengesOf(q) == ChallengesOf(p)
  {
  }

  /** Boots may be added and may move on, but never change their key. */
  lemma SameKeysStay(s: State, t: State)
    requires Grows(s, t) && t.boots.Keys == s.boots.Keys
    ensures KeysOf(t.boots) == KeysOf(s.boots)
  {
    forall id | id in s.boots ensures t.boots[id].signingKey == s.boots[id].signingKey {
      assert Evolved(s.boots[id], t.boots[id]);
    }
  }

  // ------------------------------------------------------------------ resume

  /** boot.resume is the issuing step exactly when it issues, and otherwise no step. */
  lemma ResumeIsIssue(p: P.Proofs, s: State, conn: nat, id: string, challenge: string, now: Time) returns (q: P.Proofs)
    requires Inv(s) && P.ProofsInv(p) && Represents(p, s) && conn in s.sockets
    ensures Represents(q, HandleResume(s, conn, id, challenge, now))
    ensures if GoesOn(s, id, now) && s.sockets[conn].identity.tokenId == s.boots[id].tokenId
            then P.Steps(p, P.IssueFor(id, challenge, now + CHALLENGE_TTL), q) else q == p
  {
    hide HandleResume, Inv, Grows, ChallengesOf, P.ProofsInv;
    var step := StepResume(conn, id, challenge, now);
    NextKeeps(s, step);
    NextKeepsKeys(s, step);
    SameKeysStay(s, Next(s, step));
    ChallengesExactly(s, conn, id, challenge, now);
    if GoesOn(s, id, now) && s.sockets[conn].identity.tokenId == s.boots[id].tokenId {
      IssuedRows(p, id, challenge, now + CHALLENGE_TTL);
      q := p.(issued := p.issued + [P.Issued(id, challenge, now + CHALLENGE_TTL)], rows := p.rows - P.RowsOf(p, id) + {|p.issued|});
    } else {
      q := p;
    }
  }

  // ------------------------------------------------------------------ response

  /** What a response needs after its signature: its token's own boot, a valid token, and a boot still open. */
  predicate Admitted(s: State, conn: nat, id: string, token: Option<Token>, now: Time)
    requires conn in s.sockets && id in s.boots
  {
    s.sockets[conn].identity.tokenId == s.boots[id].tokenId && TokenValid(token, now) && GoesOn(s, id, now)
  }

  /** The pieces leave what the handler leaves, and attach a proof exactly when it attaches the socket. */
  ghost predicate Matches(p: P.Proofs, r: P.Proofs, s: State, proof: P.Proof, id: string, token: Option<Token>)
    requires proof.conn in s.sockets
  {
    var t := HandleChallengeResponse(s, proof.conn, id, proof.signature, token, proof.takenAt);
    var attaches := r.attached == p.attached + [proof];
    && Represents(r, t) && r.flights == p.flights && proof.conn in t.sockets
    && (attaches || r.attached == p.attached)
    && t.sockets[proof.conn].attached == if attaches then Some(id) else s.sockets[proof.conn].attached
  }

  /** A challenge response is the taking step and, if it took an unexpired row, the finishing step straight after. */
  lemma ResponseIsTakeThenFinish(p: P.Proofs, s: State, k: nat, conn: nat, id: string, signature: Signature,
                                 token: Option<Token>, now: Time) returns (proof: P.Proof, q: P.Proofs, r: P.Proofs)
    requires Inv(s) && P.ProofsInv(p) && Represents(p, s) && conn in s.sockets && id in s.boots && k !in p.flights
    ensures proof.conn == conn && proof.signature == signature && proof.takenAt == now
    ensures P.Steps(p, P.Take(k, conn, id, signature, now), q)
    ensures if k in q.flights then P.Steps(q, P.Finish(k, Admitted(s, conn, id, token, now)), r) else r == q
    ensures Matches(p, r, s, proof, id, token)
  {
    hide Inv, P.ProofsInv, P.RowsOf, P.Steps, P.Taken, Matches, Admitted, Represents;
    if P.RowsOf(p, id) == {} {
      proof, q, r := P.Proof(conn, 0, signature, now), p, p;
      NothingToTake(p, s, k, conn, id, signature, now);
      MatchesWithoutRow(p, s, proof, id, token);
    } else {
      var serial := AnyOf(P.RowsOf(p, id));
      TakesOwnRow(p, s, id, serial);
      proof := P.Proof(conn, serial, signature, now);
      q := P.Taken(p, k, proof, id);
      TakesRow(p, s, k, proof, id);
      if p.issued[serial].expiresAt <= now {
        r := q;
        MatchesExpired(p, s, k, proof, id, token);
      } else {
        r := Finished(q, k, Admitted(s, conn, id, token, now));
        Finishes(q, k, Admitted(s, conn, id, token, now));
        MatchesFinished(p, s, k, proof, id, token);
      }
    }
  }

  lemma MatchesWithoutRow(p: P.Proofs, s: State, proof: P.Proof, id: string, token: Option<Token>)
    requires Inv(s) && P.ProofsInv(p) && Represents(p, s) && proof.conn in s.sockets && id in s.boots
    requires P.RowsOf(p, id) == {}
    ensures Matches(p, p, s, proof, id, token)
  {
    hide HandleChallengeResponse, Inv, GoesOn, ChallengesOf, P.ProofsInv, Outstanding, P.RowsOf, KeysOf, GoodProof;
    ResponseLeaves(s, proof.conn, id, proof.signature, token, proof.takenAt);
    RowOf(p, s, id);
    NoneOutstanding(s, id);
    NothingToProve(s, proof.conn, id, proof.signature, token, proof.takenAt);
  }

  lemma MatchesExpired(p: P.Proofs, s: State, k: nat, proof: P.Proof, id: string, token: Option<Token>)
    requires Inv(s) && P.ProofsInv(p) && Represents(p, s) && proof.conn in s.sockets && id in s.boots && k !in p.flights
    requires proof.serial in P.RowsOf(p, id) && proof.serial < |p.issued|
    requires p.issued[proof.serial].expiresAt <= proof.takenAt
    ensures Matches(p, P.Taken(p, k, proof, id), s, proof, id, token)
  {
    hide HandleChallengeResponse, Inv, GoesOn, ChallengesOf, P.ProofsInv, Outstanding, P.RowsOf, P.Signed, P.Steps, P.Taken, KeysOf,
      GoodProof, Admitted;
    var q := P.Taken(p, k, proof, id);
    ResponseLeaves(s, proof.conn, id, proof.signature, token, proof.takenAt);
    RowOf(p, s, id);
    SpentRows(p, id);
    TakesOwnRow(p, s, id, proof.serial);
    TakesRow(p, s, k, proof, id);
    GoodMeans(q, s, proof, id, token);
  }

  lemma MatchesFinished(p: P.Proofs, s: State, k: nat, proof: P.Proof, id: string, token: Option<Token>)
    requires Inv(s) && P.ProofsInv(p) && Represents(p, s) && proof.conn in s.sockets && id in s.boots && k !in p.flights
    requires proof.serial in P.RowsOf(p, id) && proof.serial < |p.issued|
    requires p.issued[proof.serial].expiresAt > proof.takenAt
    ensures k in P.Taken(p, k, proof, id).flights
    ensures Matches(p, Finished(P.Taken(p, k, proof, id), k, Admitted(s, proof.conn, id, token, proof.takenAt)), s, proof, id, token)
  {
    hide HandleChallengeResponse, Inv, GoesOn, ChallengesOf, P.ProofsInv, Outstanding, P.RowsOf, P.Signed, P.Steps, P.Taken, KeysOf,
      GoodProof, Admitted;
    var q := P.Taken(p, k, proof, id);
    ResponseLeaves(s, proof.conn, id, proof.signature, token, proof.takenAt);
    RowOf(p, s, id);
    SpentRows(p, id);
    TakesOwnRow(p, s, id, proof.serial);
    TakesRow(p, s, k, proof, id);
    GoodMeans(q, s, proof, id, token);
    SameTable(q, Finished(q, k, Admitted(s, proof.conn, id, token, proof.takenAt)));
    assert p.flights[k := proof] - {k} == p.flights;
  }

  function Finished(p: P.Proofs, k: nat, admitted: bool): P.Proofs
    requires k in p.flights
  {
    p.(flights := p.flights - {k},
       attached := if P.Signed(p, p.flights[k]) && admitted then p.attached + [p.flights[k]] else p.attached)
  }

  lemma Finishes(p: P.Proofs, k: nat, admitted: bool)
    requires k in p.flights
    ensures P.Steps(p, P.Finish(k, admitted), Finished(p, k, admitted))
  {
  }

  lemma NothingToTake(p: P.Proofs, s: State, k: nat, conn: nat, id: string, signature: Signature, now: Time)
    requires P.RowsOf(p, id) == {} && id in s.boots && Represents(p, s) && k !in p.flights
    ensures P.Steps(p, P.Take(k, conn, id, signature, now), p)
  {
  }

  lemma TakesRow(p: P.Proofs, s: State, k: nat, proof: P.Proof, id: string)
    requires proof.serial in P.RowsOf(p, id) && id in s.boots && Represents(p, s) && k !in p.flights && proof.serial < |p.issued|
    ensures var q := P.Taken(p, k, proof, id);
            && P.Steps(p, P.Take(k, proof.conn, id, proof.signature, proof.takenAt), q)
            && q.keys == p.keys && q.issued == p.issued && q.attached == p.attached
            && q.flights == (if p.issued[proof.serial].expiresAt <= proof.takenAt then p.flights else p.flights[k := proof])
            && ChallengesOf(q) == ChallengesOf(p.(rows := p.rows - P.RowsOf(p, id)))
  {
    hide P.RowsOf, P.Signed;
    SameTable(p.(rows := p.rows - P.RowsOf(p, id)), P.Taken(p, k, proof, id));
  }

  /** What the handler does to the keys, the challenges and its socket. */
  lemma ResponseLeaves(s: State, conn: nat, id: string, signature: Signature, token: Option<Token>, now: Time)
    requires Inv(s) && conn in s.sockets && id in s.boots
    ensures var t := HandleChallengeResponse(s, conn, id, signature, token, now);
            && KeysOf(t.boots) == KeysOf(s.boots) && t.challenges == (set c | c in s.challenges && c.bootId != id)
            && conn in t.sockets
            && t.sockets[conn].attached == if GoodProof(s, conn, id, signature, token, now) && GoesOn(s, id, now)
                                           then Some(id) else s.sockets[conn].attached
  {
    hide HandleChallengeResponse, Inv, Grows, GoesOn, GoodProof, KeysOf;
    var step := StepChallengeResponse(conn, id, signature, token, now);
    NextKeeps(s, step);
    NextKeepsKeys(s, step);
    SameKeysStay(s, Next(s, step));
    AttachesExactly(s, conn, id, signature, token, now);
  }

  lemma NothingToProve(s: State, conn: nat, id: string, signature: Signature, token: Option<Token>, now: Time)
    requires Outstanding(s, id) == {}
    ensures !GoodProof(s, conn, id, signature, token, now)
  {
  }

  /** A good proof is an unexpired row, the boot's signature over it, and the later checks. */
  lemma GoodMeans(q: P.Proofs, s: State, proof: P.Proof, id: string, token: Option<Token>)
    requires proof.serial < |q.issued| && q.issued[proof.serial].bootId == id && id in s.boots && q.keys == KeysOf(s.boots)
    requires proof.conn in s.sockets && Outstanding(s, id) == {ChallengeOf(q.issued[proof.serial])}
    ensures GoodProof(s, proof.conn, id, proof.signature, token, proof.takenAt) && GoesOn(s, id, proof.takenAt) <==>
            q.issued[proof.serial].expiresAt > proof.takenAt && P.Signed(q, proof) && Admitted(s, proof.conn, id, token, proof.takenAt)
  {
    hide Verify, AadText.ResumeMessage, TokenValid, GoesOn, Outstanding;
    var c := AnyOf(Outstanding(s, id));
    assert c == ChallengeOf(q.issued[proof.serial]);
  }

  lemma NoneOutstanding(s: State, id: string)
    requires Outstanding(s, id) == {}
    ensures (set c | c in s.challenges && c.bootId != id) == s.challenges
  {
    forall c | c in s.challenges ensures c.bootId != id {
      assert c !in Outstanding(s, id);
    }
  }

  lemma TakesOwnRow(p: P.Proofs, s: State, id: string, serial: nat)
    requires P.ProofsInv(p) && Represents(p, s) && serial in P.RowsOf(p, id)
    ensures serial < |p.issued| && p.issued[serial].bootId == id
    ensures (forall n :: n in p.rows ==> n < |p.issued|)
  {
  }

  // ------------------------------------------------------------------ everything else

  /** boot.hello is the step that makes a boot's key known, exactly when it is admitted. */
  lemma HelloIsNewBoot(p: P.Proofs, s: State, conn: nat, hello: ClientFrame, environment: Option<Environment>, summary: string,
                       id: string, now: Time, created: Time) returns (q: P.Proofs)
    requires Inv(s) && Represents(p, s) && conn in s.sockets && hello.Hello? && now <= created
    ensures Represents(q, HandleHello(s, conn, hello, environment, summary, id, now, created))
    ensures if Admits(s, conn, environment, id, now) then P.Steps(p, P.NewBoot(id, hello.signingKey), q) else q == p
  {
    hide HandleHello, Inv, Grows, Admits, ChallengesOf;
    var step := StepHello(conn, hello, environment, summary, id, now, created);
    NextKeeps(s, step);
    HelloExactly(s, conn, hello, environment, summary, id, now, created);
    HelloKeepsChallenges(s, conn, hello, environment, summary, id, now, created);
    var t := Next(s, step);
    KeysGrow(s, t);
    if Admits(s, conn, environment, id, now) {
      AdmittedIsNew(s, conn, environment, id, now);
      q := p.(keys := p.keys[id := hello.signingKey]);
      SameTable(p, q);
      assert KeysOf(t.boots) == q.keys;
    } else {
      q := p;
      assert KeysOf(t.boots) == q.keys;
    }
  }

  lemma AdmittedIsNew(s: State, conn: nat, environment: Option<Environment>, id: string, now: Time)
    requires conn in s.sockets && Admits(s, conn, environment, id, now)
    ensures id !in s.boots
  {
  }

  lemma KeysGrow(s: State, t: State)
    requires Grows(s, t)
    ensures forall id :: id in s.boots ==> id in t.boots && t.boots[id].signingKey == s.boots[id].signingKey
  {
    forall id | id in s.boots ensures id in t.boots && t.boots[id].signingKey == s.boots[id].signingKey {
      assert Evolved(s.boots[id], t.boots[id]);
    }
  }

  lemma HelloKeepsChallenges(s: State, conn: nat, hello: ClientFrame, environment: Option<Environment>, summary: string, id: string,
                             now: Time, created: Time)
    requires conn in s.sockets && hello.Hello?
    ensures HandleHello(s, conn, hello, environment, summary, id, now, created).challenges == s.challenges
  {
    hide FireAll, Rearm, SayTo, PendingOf, FromSource;
    FiringKeeps();
    SayingKeeps();
    RearmKeepsRows();
  }

  /** A response for a boot that does not exist is refused and is no step. */
  lemma UnknownResponseStutters(p: P.Proofs, s: State, conn: nat, id: string, signature: Signature, token: Option<Token>, now: Time)
    requires Represents(p, s) && conn in s.sockets && id !in s.boots
    ensures Represents(p, HandleChallengeResponse(s, conn, id, signature, token, now))
  {
    hide ChallengesOf;
  }

  /** No other handler touches a challenge or adds a boot. */
  lemma OthersStutter(p: P.Proofs, s: State, step: Step)
    requires Inv(s) && Represents(p, s) && Enabled(s, step)
    requires !step.StepHello? && !step.StepResume? && !step.StepChallengeResponse?
    ensures Represents(p, Next(s, step))
  {
    hide Inv, Grows, FireAll, Rearm, SayTo, ChallengesOf;
    NextKeeps(s, step);
    NextKeepsKeys(s, step);
    SameKeysStay(s, Next(s, step));
    FiringKeeps();
    SayingKeeps();
    RearmKeepsRows();
  }
}
