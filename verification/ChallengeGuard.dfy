/**
 The challenge services themselves, as one request runs them when no other interferes. Each method ends in
 the state that the step machine of `Challenges` reaches when that request alone takes all its steps.
 */
module ChallengeGuards {
  import opened Common
  import opened Challenges

  /** Steps that a request has still to take, at most. */
  function StepsLeft(actor: Actor): nat {
    match actor
    case Idle => 0
    case Tombstoning(_) => 1
    case Superseding(_) => 1
    case Viewing(_, _) => 1
    case Recording(_, _) => 2
    case Creating(_, _) => 2
    case Counting(_) => 3
    case Cooling(_, _) => 3
    case Locking(_) => 4
    case Checking(_, _) => 5
  }

  /** What a request leaves behind when it takes all its steps undisturbed. */
  function Alone(sha: Sha, w: World, actor: Actor): World
    decreases StepsLeft(actor)
  {
    if actor == Idle then w
    else
      var moved := Moved(sha, w, actor);
      Alone(sha, moved.0, moved.1)
  }

  /** Recording a failure, and the tombstone when it was the last one allowed. */
  function Recorded(w: World, c: nat): World {
    var v := w.(failures := w.failures + [c]);
    if Count(w.failures, c) + 1 >= MAX_ATTEMPTS then Expire(v, c) else v
  }

  lemma RecordingAlone(sha: Sha, w: World, c: nat)
    ensures Alone(sha, w, Counting(c)) == Recorded(w, c)
  {
    var n := Count(w.failures, c) + 1;
    hide Count;
    var v := w.(failures := w.failures + [c]);
    assert Alone(sha, w, Counting(c)) == Alone(sha, w, Recording(c, n));
    var next := if n >= MAX_ATTEMPTS then Tombstoning(c) else Idle;
    assert Moved(sha, w, Recording(c, n)) == (v, next);
    assert Alone(sha, w, Recording(c, n)) == Alone(sha, v, next);
    assert Alone(sha, v, Tombstoning(c)) == Alone(sha, Expire(v, c), Idle);
  }

  /** It is a run of the step machine. */
  lemma {:induction false} AloneIsARun(sha: Sha, w: World, actor: Actor) returns (steps: seq<Step>)
    ensures After(sha, System(w, [actor]), steps) == System(Alone(sha, w, actor), [Idle])
    decreases StepsLeft(actor)
  {
    var s := System(w, [actor]);
    if actor == Idle {
      steps := [];
    } else {
      var moved := Moved(sha, w, actor);
      var next := System(moved.0, [moved.1]);
      assert Apply(sha, s, Move(0)) == next;
      var rest := AloneIsARun(sha, moved.0, moved.1);
      StepFirst(sha, s, Move(0), rest);
      steps := [Move(0)] + rest;
    }
  }

  lemma {:induction false} StepFirst(sha: Sha, s: System, step: Step, rest: seq<Step>)
    ensures After(sha, s, [step] + rest) == After(sha, Apply(sha, s, step), rest)
    decreases |rest|
  {
    if rest == [] {
      assert [step] + rest == [step] && [step][..0] == [];
      assert After(sha, s, [step]) == Apply(sha, After(sha, s, []), step);
    } else {
      var n := |rest| - 1;
      assert ([step] + rest)[..|rest|] == [step] + rest[..n];
      StepFirst(sha, s, step, rest[..n]);
    }
  }

  /** The row that a failed or successful `verify_challenge` leaves, before any rollback. */
  function VerifiedRow(sha: Sha, row: Challenge, now: nat, code: string, facts: seq<Fact>): Challenge {
    match VerifyProblem(sha, row, now, code, facts)
    case None => row.(status := VERIFIED)
    case Some(ChallengeExpired) => row.(status := EXPIRED)
    case Some(MaterialChanged) => row.(status := EXPIRED)
    case Some(_) => row
  }

  /** The request is about a pending challenge of its own customer. */
  predicate OwnPending(w: World, q: Request) {
    q.challenge < |w.rows| && w.rows[q.challenge].customer == q.customer && w.rows[q.challenge].status == PENDING
  }

  /** It presents the issued facts in time. */
  predicate InTimeAsIssued(sha: Sha, w: World, q: Request)
    requires OwnPending(w, q) && (q.Confirm? || q.Attempt?)
  {
    FactsDigest(sha, q.facts) == w.rows[q.challenge].material && w.now <= w.rows[q.challenge].expiresAt
  }

  class ChallengeGuard {
    const sha: Sha
    var now: nat
    var rows: seq<Challenge>
    var failures: seq<nat>
    var consumed: seq<Consumption>
    ghost var refused: seq<nat>

    constructor (sha: Sha)
      ensures this.sha == sha && State() == Initial(0).world
    {
      this.sha := sha;
      now, rows, failures, consumed, refused := 0, [], [], [], [];
    }

    ghost function State(): World
      reads this
    {
      World(now, rows, failures, refused, consumed)
    }

    /** `issue_challenge` */
    method IssueChallenge(customer: nat, evaluation: nat, facts: seq<Fact>, code: string) returns (c: nat)
      modifies this`rows
      ensures c == |old(rows)|
      ensures System(State(), []) == Apply(sha, System(old(State()), []), Issue(customer, evaluation, facts, code))
    {
      c := |rows|;
      rows := rows + [Challenge(customer, evaluation, FactsDigest(sha, facts), CodeHash(sha, code), PENDING, now, now + TTL)];
    }

    /** `_expire_if_due`, on a row that was read at some point. */
    method ExpireIfDue(c: nat, probe: Challenge)
      requires c < |rows|
      modifies this`rows
      ensures State() == Alone(sha, old(State()), Viewing(c, probe))
    {
      if probe.status == PENDING && now > probe.expiresAt {
        rows := rows[c := rows[c].(status := EXPIRED)];
      }
    }

    /** `verify_challenge` on the locked row `c` */
    method VerifyChallenge(c: nat, code: string, facts: seq<Fact>) returns (problem: Option<ChallengeError>)
      requires c < |rows|
      modifies this`rows
      ensures problem == VerifyProblem(sha, old(rows)[c], now, code, facts)
      ensures rows == old(rows)[c := VerifiedRow(sha, old(rows)[c], now, code, facts)]
    {
      ExpireIfDue(c, rows[c]);
      if rows[c].status == EXPIRED {
        return Some(ChallengeExpired);
      }
      if rows[c].status != PENDING {
        return Some(ChallengeNotPending);
      }
      if FactsDigest(sha, facts) != rows[c].material {
        rows := rows[c := rows[c].(status := EXPIRED)];
        return Some(MaterialChanged);
      }
      if CodeHash(sha, code) != rows[c].codeHash {
        return Some(InvalidCode);
      }
      rows := rows[c := rows[c].(status := VERIFIED)];
      problem := None;
    }

    /** `consume_challenge`; its own guard cannot fail here. */
    method ConsumeChallenge(c: nat, reference: string)
      requires c < |rows| && rows[c].status == VERIFIED
      modifies this`rows, this`consumed
      ensures rows == old(rows)[c := old(rows)[c].(status := CONSUMED, material := ConsumedMaterial(sha, reference))]
      ensures consumed == old(consumed) + [Consumption(c, reference)]
    {
      rows := rows[c := rows[c].(material := ConsumedMaterial(sha, reference))];
      rows := rows[c := rows[c].(status := CONSUMED)];
      consumed := consumed + [Consumption(c, reference)];
    }

    /** `confirm_and_consume`: one transaction under the row lock; an error undoes it. */
    method ConfirmAndConsume(q: Request) returns (problem: Option<ChallengeError>)
      requires q.Confirm?
      modifies this
      ensures State() == LockMoved(sha, old(State()), q).0
      ensures problem == Some(InvalidCode) <==> LockMoved(sha, old(State()), q).1 == Counting(q.challenge)
      ensures problem != Some(InvalidCode) ==> LockMoved(sha, old(State()), q).1 == Idle
      ensures problem.None? <==> consumed == old(consumed) + [Consumption(q.challenge, q.reference)]
      ensures problem == if q.challenge >= |old(rows)| || old(rows)[q.challenge].customer != q.customer then Some(ChallengeNotFound)
                         else VerifyProblem(sha, old(rows)[q.challenge], now, q.code, q.facts)
      ensures now == old(now) && problem.Some? ==> rows == old(rows) && consumed == old(consumed) && failures == old(failures)
    {
      var c := q.challenge;
      if c >= |rows| || rows[c].customer != q.customer {
        return Some(ChallengeNotFound);
      }
      var saved := rows;
      problem := VerifyChallenge(c, q.code, q.facts);
      if problem.Some? {
        rows := saved;
        if problem == Some(InvalidCode) {
          refused := refused + [c];
        }
        return;
      }
      ConsumeChallenge(c, q.reference);
    }

    /** `_failed_attempts` */
    method FailedAttempts(c: nat) returns (n: nat)
      ensures n == Count(failures, c)
    {
      n := 0;
      for i := 0 to |failures|
        invariant n == Count(failures[..i], c)
      {
        CountSnoc(failures[..i], failures[i], c);
        assert failures[..i + 1] == failures[..i] + [failures[i]];
        if failures[i] == c {
          n := n + 1;
        }
      }
      assert failures[..|failures|] == failures;
    }

    /** `_record_failure` */
    method RecordFailure(c: nat)
      modifies this
      ensures State() == Alone(sha, old(State()), Counting(c)) && consumed == old(consumed)
    {
      RecordingAlone(sha, State(), c);
      hide Alone;
      var failed := FailedAttempts(c);
      var attempts := failed + 1;
      failures := failures + [c];
      if attempts >= MAX_ATTEMPTS {
        if c < |rows| {
          rows := rows[c := rows[c].(status := EXPIRED)];
        }
      }
    }

    /** `confirm` */
    method Confirmation(q: Request) returns (problem: Option<ChallengeError>)
      requires q.Confirm?
      modifies this
      ensures State() == Alone(sha, old(State()), Probed(old(State()), q))
      ensures problem == Some(ChallengeNotFound) <==>
                q.challenge >= |old(rows)| || old(rows)[q.challenge].customer != q.customer
      ensures problem == Some(MaterialChanged) <==>
                OwnPending(old(State()), q) && FactsDigest(sha, q.facts) != old(rows)[q.challenge].material
      ensures problem == Some(MaterialChanged) ==>
                && rows == old(rows)[q.challenge := old(rows)[q.challenge].(status := EXPIRED)]
                && consumed == old(consumed) && failures == old(failures)
      ensures problem == Some(InvalidCode) <==>
                && OwnPending(old(State()), q) && InTimeAsIssued(sha, old(State()), q)
                && CodeHash(sha, q.code) != old(rows)[q.challenge].codeHash
      ensures problem.None? <==>
                && OwnPending(old(State()), q) && InTimeAsIssued(sha, old(State()), q)
                && CodeHash(sha, q.code) == old(rows)[q.challenge].codeHash
      ensures problem.None? <==> consumed == old(consumed) + [Consumption(q.challenge, q.reference)]
    {
      ghost var w := State();
      if q.challenge >= |rows| || rows[q.challenge].customer != q.customer {
        return Some(ChallengeNotFound);
      }
      var probe := rows[q.challenge];
      assert Alone(sha, w, Checking(q, probe)) == Alone(sha, CheckMoved(sha, w, q, probe).0, CheckMoved(sha, w, q, probe).1);
      if Tampered(sha, probe, q.facts) {
        rows := rows[q.challenge := rows[q.challenge].(status := EXPIRED)];
        return Some(MaterialChanged);
      }
      assert Alone(sha, w, Probed(w, q)) == Alone(sha, w, Locking(q));
      ghost var locked := LockMoved(sha, w, q);
      assert Alone(sha, w, Locking(q)) == Alone(sha, locked.0, locked.1);
      problem := ConfirmAndConsume(q);
      if problem == Some(InvalidCode) {
        assert State() == locked.0 && consumed == old(consumed);
        RecordFailure(q.challenge);
      }
    }

    /** `attempt`: verification without consumption */
    method Attempted(q: Request) returns (problem: Option<ChallengeError>)
      requires q.Attempt?
      modifies this
      ensures State() == Alone(sha, old(State()), Probed(old(State()), q))
      ensures problem == Some(ChallengeNotFound) <==>
                q.challenge >= |old(rows)| || old(rows)[q.challenge].customer != q.customer
      ensures problem == Some(MaterialChanged) <==>
                OwnPending(old(State()), q) && FactsDigest(sha, q.facts) != old(rows)[q.challenge].material
      ensures problem == Some(MaterialChanged) ==>
                && rows == old(rows)[q.challenge := old(rows)[q.challenge].(status := EXPIRED)]
                && consumed == old(consumed) && failures == old(failures)
      ensures problem == Some(InvalidCode) <==>
                && OwnPending(old(State()), q) && InTimeAsIssued(sha, old(State()), q)
                && CodeHash(sha, q.code) != old(rows)[q.challenge].codeHash
      ensures problem.None? <==>
                && OwnPending(old(State()), q) && InTimeAsIssued(sha, old(State()), q)
                && CodeHash(sha, q.code) == old(rows)[q.challenge].codeHash
      ensures problem.None? ==> consumed == old(consumed) && q.challenge < |rows| && rows[q.challenge].status == VERIFIED
    {
      ghost var w := State();
      if q.challenge >= |rows| || rows[q.challenge].customer != q.customer {
        return Some(ChallengeNotFound);
      }
      var probe := rows[q.challenge];
      assert Alone(sha, w, Checking(q, probe)) == Alone(sha, CheckMoved(sha, w, q, probe).0, CheckMoved(sha, w, q, probe).1);
      if Tampered(sha, probe, q.facts) {
        rows := rows[q.challenge := rows[q.challenge].(status := EXPIRED)];
        return Some(MaterialChanged);
      }
      assert Alone(sha, w, Probed(w, q)) == Alone(sha, w, Locking(q));
      ghost var locked := LockMoved(sha, w, q);
      assert Alone(sha, w, Locking(q)) == Alone(sha, locked.0, locked.1);
      var saved := rows;
      problem := VerifyChallenge(q.challenge, q.code, q.facts);
      if problem.Some? {
        rows := saved;
        if problem == Some(InvalidCode) {
          refused := refused + [q.challenge];
          assert State() == locked.0 && locked.1 == Counting(q.challenge);
          RecordFailure(q.challenge);
        } else {
          assert State() == locked.0 && locked.1 == Idle;
        }
      } else {
        assert State() == locked.0 && locked.1 == Idle;
      }
    }

    /** `reissue_challenge`; on success `c` is the challenge that replaces the old one. */
    method Reissued(q: Request) returns (r: Result<nat, ChallengeError>)
      requires q.Reissue?
      modifies this
      ensures State() == Alone(sha, old(State()), Probed(old(State()), q))
      ensures r.Ok? <==> OwnPending(old(State()), q) && !InCooldown(old(State()), q.customer, q.challenge)
      ensures r == Err(ReissueCooldown) <==> OwnPending(old(State()), q) && InCooldown(old(State()), q.customer, q.challenge)
      ensures r.Ok? ==>
                && r.value == |old(rows)| && q.challenge < r.value && r.value < |rows|
                && rows[q.challenge].status == EXPIRED && rows[r.value].status == PENDING
                && rows[r.value].material == old(rows)[q.challenge].material
                && rows[r.value].evaluation == old(rows)[q.challenge].evaluation
    {
      ghost var w := State();
      var c := q.challenge;
      if c >= |rows| || rows[c].customer != q.customer {
        return Err(ChallengeNotFound);
      }
      var probe := rows[c];
      if probe.status != PENDING {
        return Err(ChallengeNotPending);
      }
      var recent := false;
      for i := 0 to |rows|
        invariant recent <==> exists k :: 0 <= k < i && k != c && rows[k].customer == probe.customer && rows[k].createdAt + COOLDOWN >= now
      {
        if i != c && rows[i].customer == probe.customer && rows[i].createdAt + COOLDOWN >= now {
          recent := true;
        }
      }
      assert recent <==> InCooldown(w, probe.customer, c);
      if recent {
        return Err(ReissueCooldown);
      }
      rows := rows + [Challenge(probe.customer, probe.evaluation, probe.material, CodeHash(sha, q.code), PENDING, now, now + TTL)];
      rows := rows[c := rows[c].(status := EXPIRED)];
      ghost var new_ := NewChallenge(sha, w, probe.customer, probe.evaluation, probe.material, q.code);
      ghost var w1 := w.(rows := w.rows + [new_]);
      assert Alone(sha, w, Cooling(q, probe)) == Alone(sha, w, Creating(q, probe));
      assert Alone(sha, w, Creating(q, probe)) == Alone(sha, w1, Superseding(c));
      assert Alone(sha, w1, Superseding(c)) == Expire(w1, c);
      r := Ok(|rows| - 1);
    }
  }
}
