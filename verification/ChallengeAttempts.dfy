/**
 How many wrong codes a challenge lets through. Failures are counted and recorded outside the row lock, so
 the limit of `MAX_ATTEMPTS` is exact for one request at a time and weakens with every concurrent one.
 */
module ChallengeAttempts {
  import opened Common
  import opened Challenges
  import opened ChallengeTheorems

  // ----- the accounting

  /** The request holds a refused code of challenge `c` that is not yet recorded. */
  function Unrecorded(actor: Actor, c: nat): nat {
    if (actor.Counting? && actor.challenge == c) || (actor.Recording? && actor.challenge == c) then 1 else 0
  }

  /** How many records of `c` the request can still add once four are there: a stale count allows two. */
  function Potential(actor: Actor, c: nat): nat {
    if actor.Recording? && actor.challenge == c && actor.attempts < MAX_ATTEMPTS then 2
    else if actor.Tombstoning? && actor.challenge == c then 0
    else 1
  }

  function SumUnrecorded(actors: seq<Actor>, c: nat): nat {
    if actors == [] then 0 else Unrecorded(actors[0], c) + SumUnrecorded(actors[1..], c)
  }

  function SumPotential(actors: seq<Actor>, c: nat): nat {
    if actors == [] then 0 else Potential(actors[0], c) + SumPotential(actors[1..], c)
  }

  lemma {:induction false} SumsUpdated(actors: seq<Actor>, a: nat, x: Actor, c: nat)
    requires a < |actors|
    ensures SumUnrecorded(actors[a := x], c) == SumUnrecorded(actors, c) - Unrecorded(actors[a], c) + Unrecorded(x, c)
    ensures SumPotential(actors[a := x], c) == SumPotential(actors, c) - Potential(actors[a], c) + Potential(x, c)
  {
    if a == 0 {
      assert actors[0 := x][1..] == actors[1..];
    } else {
      assert actors[a := x][1..] == actors[1..][a - 1 := x];
      SumsUpdated(actors[1..], a - 1, x, c);
    }
  }

  /** Who has not recorded yet has potential; and no one has more than two. */
  lemma {:induction false} SumsBounded(actors: seq<Actor>, c: nat)
    ensures SumUnrecorded(actors, c) <= SumPotential(actors, c) <= 2 * |actors|
    ensures SumUnrecorded(actors, c) <= |actors|
  {
    if actors != [] {
      SumsBounded(actors[1..], c);
    }
  }

  /** Leaving out one request. */
  lemma SumsWithout(actors: seq<Actor>, a: nat, c: nat)
    requires a < |actors|
    ensures SumUnrecorded(actors, c) - Unrecorded(actors[a], c) <= SumPotential(actors, c) - Potential(actors[a], c)
    ensures SumPotential(actors, c) - Potential(actors[a], c) <= 2 * (|actors| - 1)
    ensures SumUnrecorded(actors, c) - Unrecorded(actors[a], c) <= |actors| - 1
  {
    var gone := actors[a := Tombstoning(c)];
    SumsUpdated(actors, a, Tombstoning(c), c);
    SumsBounded(gone, c);
    var one := actors[a := Recording(c, 0)];
    SumsUpdated(actors, a, Recording(c, 0), c);
    SumsBounded(one, c);
  }

  // ----- the invariant

  predicate CountFresh(actor: Actor, c: nat, f: nat) {
    actor.Recording? && actor.challenge == c ==> actor.attempts <= f + 1
  }

  predicate IsPending(w: World, c: nat) {
    c < |w.rows| && w.rows[c].status == PENDING
  }

  ghost predicate AttemptsOk(s: System, c: nat) {
    var f, t, k := Count(s.world.failures, c), Count(s.world.refused, c), |s.actors|;
    && t == f + SumUnrecorded(s.actors, c)
    && (forall a :: 0 <= a < k ==> CountFresh(s.actors[a], c, f))
    && (c >= |s.world.rows| ==> t == 0)
    && t <= 2 * k + 3
    && (IsPending(s.world, c) && f >= MAX_ATTEMPTS - 1 ==> f + SumPotential(s.actors, c) <= 2 * k + 3)
  }

  /** What a step of request `a` may do to the logs of challenge `c`, to its status, and to the request. */
  predicate StepShape(s: System, v: System, a: nat, c: nat)
    requires a < |s.actors| == |v.actors|
  {
    var x, y := s.actors[a], v.actors[a];
    var f, t := Count(s.world.failures, c), Count(s.world.refused, c);
    && v.actors == s.actors[a := y]
    && (IsPending(v.world, c) ==> IsPending(s.world, c))
    && (c >= |v.world.rows| ==> c >= |s.world.rows|)
    && Count(v.world.failures, c) == f + (if x.Recording? && x.challenge == c then 1 else 0)
    && Count(v.world.refused, c) == t + (if x.Locking? && y == Counting(c) then 1 else 0)
    && (y == Counting(c) && x != y ==> x.Locking? && IsPending(s.world, c))
    && (y.Recording? && y.challenge == c && x != y ==> x == Counting(c) && y.attempts == f + 1)
    && (x == Counting(c) && x != y ==> y.Recording? && y.challenge == c)
    && (x.Recording? && x.challenge == c ==> y == if x.attempts >= MAX_ATTEMPTS then Tombstoning(c) else Idle)
    && (x == Tombstoning(c) ==> y == Idle && !IsPending(v.world, c))
  }

  lemma StepArithmetic(s: System, v: System, a: nat, c: nat)
    requires AttemptsOk(s, c) && a < |s.actors| == |v.actors| && StepShape(s, v, a, c)
    ensures AttemptsOk(v, c)
  {
    SumsUpdated(s.actors, a, v.actors[a], c);
    SumsWithout(s.actors, a, c);
    SumsBounded(s.actors, c);
    var f := Count(s.world.failures, c);
    assert CountFresh(s.actors[a], c, f);
    forall b | 0 <= b < |v.actors|
      ensures CountFresh(v.actors[b], c, Count(v.world.failures, c))
    {
      assert CountFresh(s.actors[b], c, f);
    }
  }

  lemma MoveShape(sha: Sha, s: System, a: nat, c: nat)
    requires a < |s.actors| && (c >= |s.world.rows| ==> !s.actors[a].Creating?)
    ensures StepShape(s, Apply(sha, s, Move(a)), a, c)
  {
    hide Count;
    var v := Apply(sha, s, Move(a));
    var x := s.actors[a];
    StepFades(sha, s, Move(a));
    assert c < |s.world.rows| ==> Fades(s.world.rows[c], v.world.rows[c]);
    match x {
      case Recording(d, n) => CountSnoc(s.world.failures, d, c);
      case Locking(q) => CountSnoc(s.world.refused, q.challenge, c);
      case _ =>
    }
  }

  lemma MoveKeepsAttempts(sha: Sha, s: System, a: nat, c: nat)
    requires AttemptsOk(s, c) && a < |s.actors|
    ensures AttemptsOk(Apply(sha, s, Move(a)), c)
  {
    var v := Apply(sha, s, Move(a));
    if s.actors[a].Creating? && c >= |s.world.rows| {
      NewRowAttempts(s, v, a, c);
    } else {
      MoveShape(sha, s, a, c);
      StepArithmetic(s, v, a, c);
    }
  }

  /** A new challenge starts with no failures. */
  lemma NewRowAttempts(s: System, v: System, a: nat, c: nat)
    requires AttemptsOk(s, c) && c >= |s.world.rows|
    requires v.world == s.world.(rows := v.world.rows)
    requires v.actors == s.actors || (a < |s.actors| && s.actors[a].Creating? && v.actors == s.actors[a := Superseding(s.actors[a].request.challenge)])
    ensures AttemptsOk(v, c)
  {
    if v.actors != s.actors {
      SumsUpdated(s.actors, a, v.actors[a], c);
      forall b | 0 <= b < |v.actors|
        ensures CountFresh(v.actors[b], c, 0)
      {
        assert CountFresh(s.actors[b], c, 0);
      }
    }
  }

  lemma StepKeepsAttempts(sha: Sha, s: System, step: Step, c: nat)
    requires AttemptsOk(s, c)
    ensures AttemptsOk(Apply(sha, s, step), c)
  {
    var v := Apply(sha, s, step);
    match step {
      case Tick(_) =>
      case Issue(_, _, _, _) =>
        if c >= |s.world.rows| {
          NewRowAttempts(s, v, 0, c);
        }
      case Start(a, q) =>
        if a < |s.actors| && s.actors[a] == Idle {
          assert !Probed(s.world, q).Counting? && !Probed(s.world, q).Recording? && !Probed(s.world, q).Tombstoning?;
          StepArithmetic(s, v, a, c);
        }
      case Move(a) =>
        if a < |s.actors| {
          MoveKeepsAttempts(sha, s, a, c);
        }
    }
  }

  lemma {:induction false} IdleSums(k: nat, c: nat)
    ensures SumUnrecorded(AllIdle(k), c) == 0 && SumPotential(AllIdle(k), c) == k
  {
    if k > 0 {
      var actors := AllIdle(k);
      assert actors[1..] == AllIdle(k - 1);
      IdleSums(k - 1, c);
    }
  }

  lemma {:induction false} ActorCount(sha: Sha, s: System, steps: seq<Step>)
    ensures |After(sha, s, steps).actors| == |s.actors|
    decreases |steps|
  {
    if steps != [] {
      ActorCount(sha, s, steps[..|steps| - 1]);
    }
  }

  lemma {:induction false} ReachableAttempts(sha: Sha, k: nat, steps: seq<Step>, c: nat)
    ensures AttemptsOk(After(sha, Initial(k), steps), c)
    decreases |steps|
  {
    if steps == [] {
      IdleSums(k, c);
    } else {
      var n := |steps| - 1;
      ReachableAttempts(sha, k, steps[..n], c);
      StepKeepsAttempts(sha, After(sha, Initial(k), steps[..n]), steps[n], c);
    }
  }

  // ----- the bounds

  ghost predicate Quiet(s: System) {
    s.actors == AllIdle(|s.actors|)
  }

  /**
   With at most `k` requests under way at any time, at most `2 * k + 3` wrong codes are ever tried against
   one challenge; between requests, one that is still pending has at most `k + 3` recorded failures.
   */
  lemma WrongCodesBounded(sha: Sha, k: nat, steps: seq<Step>, c: nat)
    ensures var s := After(sha, Initial(k), steps);
            && Count(s.world.refused, c) <= 2 * k + 3
            && (Quiet(s) && IsPending(s.world, c) ==> Count(s.world.failures, c) == Count(s.world.refused, c) <= k + 3)
  {
    ReachableAttempts(sha, k, steps, c);
    ActorCount(sha, Initial(k), steps);
    IdleSums(k, c);
  }

  /** One request at a time: never more than MAX_ATTEMPTS codes, and pending means fewer failures than that. */
  lemma OneRequestAtATime(sha: Sha, steps: seq<Step>, c: nat)
    ensures var s := After(sha, Initial(1), steps);
            && Count(s.world.refused, c) <= MAX_ATTEMPTS
            && (Quiet(s) && IsPending(s.world, c) ==> Count(s.world.failures, c) < MAX_ATTEMPTS)
  {
    WrongCodesBounded(sha, 1, steps, c);
  }

  // ----- the bound is reached

  lemma AfterSnoc(sha: Sha, s: System, steps: seq<Step>, step: Step)
    ensures After(sha, s, steps + [step]) == Apply(sha, After(sha, s, steps), step)
  {
    assert (steps + [step])[..|steps|] == steps;
  }

  /**
   One pending challenge with `f` recorded failures; requests from `lo` up to `hi` are about to record
   failure `n`, all others are idle.
   */
  ghost predicate Stage(s: System, k: nat, row: Challenge, f: nat, lo: nat, hi: nat, n: nat) {
    && |s.actors| == k && s.world.rows == [row] && row.status == PENDING && s.world.now <= row.expiresAt
    && Count(s.world.failures, 0) == f
    && forall a :: 0 <= a < k ==> s.actors[a] == if lo <= a < hi then Recording(0, n) else Idle
  }

  predicate WrongCode(sha: Sha, row: Challenge, q: Request) {
    && q.Attempt? && q.challenge == 0 && q.customer == row.customer
    && FactsDigest(sha, q.facts) == row.material && CodeHash(sha, q.code) != row.codeHash
  }

  /** A wrong attempt, up to the point where its failures have been counted. */
  lemma Armed(sha: Sha, s: System, k: nat, row: Challenge, q: Request, f: nat, lo: nat, hi: nat, n: nat, a: nat)
    returns (steps: seq<Step>, v: System)
    requires Stage(s, k, row, f, lo, hi, n) && WrongCode(sha, row, q) && a < k && !(lo <= a < hi)
    ensures v == After(sha, s, steps)
    ensures v.actors == s.actors[a := Recording(0, f + 1)] && v.world == s.world.(refused := v.world.refused)
    ensures Count(v.world.refused, 0) == Count(s.world.refused, 0) + 1
  {
    var s1 := Apply(sha, s, Start(a, q));
    assert s1 == s.(actors := s.actors[a := Checking(q, row)]);
    var s2 := Apply(sha, s1, Move(a));
    assert s2 == s.(actors := s.actors[a := Locking(q)]);
    var s3 := Apply(sha, s2, Move(a));
    assert s3.actors == s.actors[a := Counting(0)];
    v := Apply(sha, s3, Move(a));
    CountSnoc(s.world.refused, 0, 0);
    assert After(sha, s, []) == s;
    AfterSnoc(sha, s, [], Start(a, q));
    AfterSnoc(sha, s, [] + [Start(a, q)], Move(a));
    AfterSnoc(sha, s, [] + [Start(a, q)] + [Move(a)], Move(a));
    AfterSnoc(sha, s, [] + [Start(a, q)] + [Move(a)] + [Move(a)], Move(a));
    steps := [] + [Start(a, q)] + [Move(a)] + [Move(a)] + [Move(a)];
  }

  lemma Recorded(sha: Sha, s: System, a: nat, n: nat)
    requires a < |s.actors| && s.actors[a] == Recording(0, n) && n < MAX_ATTEMPTS
    ensures var v := Apply(sha, s, Move(a));
            && v.actors == s.actors[a := Idle] && Count(v.world.failures, 0) == Count(s.world.failures, 0) + 1
            && v.world == s.world.(failures := v.world.failures)
  {
    CountSnoc(s.world.failures, 0, 0);
  }

  /** Wrong attempts one after the other, up to three recorded failures. */
  lemma {:induction false} WarmedUp(sha: Sha, s: System, k: nat, row: Challenge, q: Request, f: nat)
    returns (steps: seq<Step>)
    requires k > 0 && f <= 3 && Stage(s, k, row, 0, 0, 0, 4) && WrongCode(sha, row, q)
    ensures Stage(After(sha, s, steps), k, row, f, 0, 0, 4)
  {
    if f == 0 {
      steps := [];
    } else {
      var first := WarmedUp(sha, s, k, row, q, f - 1);
      var u := After(sha, s, first);
      var more, v := Armed(sha, u, k, row, q, f - 1, 0, 0, 4, 0);
      Recorded(sha, v, 0, f);
      AfterSnoc(sha, u, more, Move(0));
      AfterThen(sha, s, first, more + [Move(0)]);
      steps := first + (more + [Move(0)]);
    }
  }

  lemma AfterThen(sha: Sha, s: System, first: seq<Step>, more: seq<Step>)
    ensures After(sha, s, first + more) == After(sha, After(sha, s, first), more)
  {
    AfterSplit(sha, s, first + more, |first|);
    assert (first + more)[..|first|] == first && (first + more)[|first|..] == more;
  }

  /** The first `n` requests all count before any of them records. */
  lemma {:induction false} AllArmed(sha: Sha, s: System, k: nat, row: Challenge, q: Request, f: nat, n: nat)
    returns (steps: seq<Step>)
    requires n <= k && Stage(s, k, row, f, 0, 0, f + 1) && WrongCode(sha, row, q)
    ensures Stage(After(sha, s, steps), k, row, f, 0, n, f + 1)
    ensures Count(After(sha, s, steps).world.refused, 0) == Count(s.world.refused, 0) + n
  {
    if n == 0 {
      steps := [];
    } else {
      var first := AllArmed(sha, s, k, row, q, f, n - 1);
      var more, v := Armed(sha, After(sha, s, first), k, row, q, f, 0, n - 1, f + 1, n - 1);
      AfterThen(sha, s, first, more);
      steps := first + more;
    }
  }

  /** Then the first `n` of them record. */
  lemma {:induction false} AllRecorded(sha: Sha, s: System, k: nat, row: Challenge, n: nat)
    returns (steps: seq<Step>)
    requires n <= k && Stage(s, k, row, 3, 0, k, 4)
    ensures Stage(After(sha, s, steps), k, row, 3 + n, n, k, 4)
  {
    if n == 0 {
      steps := [];
    } else {
      var first := AllRecorded(sha, s, k, row, n - 1);
      var u := After(sha, s, first);
      Recorded(sha, u, n - 1, 4);
      AfterSnoc(sha, s, first, Move(n - 1));
      steps := first + [Move(n - 1)];
    }
  }

  /** Three failures one after the other, then `k` requests that all count before any of them records. */
  lemma ManyFailures(sha: Sha, k: nat, facts: seq<Fact>, code: string, wrong: string)
    returns (steps: seq<Step>, row: Challenge)
    requires k > 0 && CodeHash(sha, wrong) != CodeHash(sha, code)
    ensures Stage(After(sha, Initial(k), steps), k, row, k + 3, k, k, 4)
    ensures WrongCode(sha, row, Attempt(0, 0, wrong, facts))
  {
    var issue := Issue(0, 0, facts, code);
    var q := Attempt(0, 0, wrong, facts);
    var s := Apply(sha, Initial(k), issue);
    row := s.world.rows[0];
    assert After(sha, Initial(k), []) == Initial(k);
    AfterSnoc(sha, Initial(k), [], issue);
    assert [] + [issue] == [issue];
    assert Stage(s, k, row, 0, 0, 0, 4);
    var warm := WarmedUp(sha, s, k, row, q, 3);
    var s1 := After(sha, s, warm);
    var arm := AllArmed(sha, s1, k, row, q, 3, k);
    var s2 := After(sha, s1, arm);
    var fire := AllRecorded(sha, s2, k, row, k);
    AfterThen(sha, s1, arm, fire);
    AfterThen(sha, s, warm, arm + fire);
    AfterThen(sha, Initial(k), [issue], warm + (arm + fire));
    steps := [issue] + (warm + (arm + fire));
  }

  lemma StageIsQuiet(s: System, k: nat, row: Challenge, f: nat, n: nat)
    requires Stage(s, k, row, f, k, k, n)
    ensures Quiet(s) && IsPending(s.world, 0) && Stage(s, k, row, f, 0, 0, f + 1)
  {
    assert s.actors == AllIdle(k);
  }

  /**
   The bound on a pending challenge is exact: `k` requests that all count before any of them records leave
   it pending with `k + 3` failures. So the intended limit holds for every run exactly when `k <= 1`.
   */
  lemma PendingBoundIsReached(sha: Sha, k: nat, facts: seq<Fact>, code: string, wrong: string)
    returns (steps: seq<Step>)
    requires k > 0 && CodeHash(sha, wrong) != CodeHash(sha, code)
    ensures var s := After(sha, Initial(k), steps);
            Quiet(s) && IsPending(s.world, 0) && Count(s.world.failures, 0) == k + 3
  {
    var row;
    steps, row := ManyFailures(sha, k, facts, code, wrong);
    StageIsQuiet(After(sha, Initial(k), steps), k, row, k + 3, 4);
  }

  /** So is the bound on codes tried: from there all `k` requests may try one more before the first of them records. */
  lemma WrongCodesBoundIsReached(sha: Sha, k: nat, facts: seq<Fact>, code: string, wrong: string)
    returns (steps: seq<Step>)
    requires k > 0 && CodeHash(sha, wrong) != CodeHash(sha, code)
    ensures Count(After(sha, Initial(k), steps).world.refused, 0) == 2 * k + 3
  {
    var first, row := ManyFailures(sha, k, facts, code, wrong);
    var s := After(sha, Initial(k), first);
    StageIsQuiet(s, k, row, k + 3, 4);
    WrongCodesBounded(sha, k, first, 0);
    hide Stage, Quiet, IsPending;
    var again := AllArmed(sha, s, k, row, Attempt(0, 0, wrong, facts), k + 3, k);
    AfterThen(sha, Initial(k), first, again);
    steps := first + again;
  }

  /**
   The intended limit, for every interleaving of `k` requests: a pending challenge between requests has
   fewer than MAX_ATTEMPTS failures.
   */
  ghost predicate LimitHolds(sha: Sha, k: nat) {
    forall steps: seq<Step>, c: nat ::
      var s := After(sha, Initial(k), steps);
      Quiet(s) && IsPending(s.world, c) ==> Count(s.world.failures, c) < MAX_ATTEMPTS
  }

  lemma LimitHoldsIffSerial(sha: Sha, k: nat, code: string, wrong: string)
    requires CodeHash(sha, wrong) != CodeHash(sha, code)
    ensures LimitHolds(sha, k) <==> k <= 1
  {
    if k <= 1 {
      forall steps: seq<Step>, c: nat
        ensures var s := After(sha, Initial(k), steps);
                Quiet(s) && IsPending(s.world, c) ==> Count(s.world.failures, c) < MAX_ATTEMPTS
      {
        WrongCodesBounded(sha, k, steps, c);
      }
    } else {
      var steps := PendingBoundIsReached(sha, k, [], code, wrong);
    }
  }

  /** CONSUMED is not the end: a reader that saw the challenge pending may mark it EXPIRED after its use. */
  lemma StaleReaderExpires(sha: Sha, facts: seq<Fact>, code: string, reference: string) returns (steps: seq<Step>)
    ensures var s := After(sha, Initial(2), steps);
            |s.world.rows| == 1 && s.world.rows[0].status == EXPIRED && s.world.consumed == [Consumption(0, reference)]
  {
    var q := Confirm(0, 0, code, facts, reference);
    var s0 := Initial(2);
    var s1 := Apply(sha, s0, Issue(0, 0, facts, code));
    var row := s1.world.rows[0];
    var s2 := Apply(sha, s1, Start(0, View(0, 0, false)));
    assert s2.actors == [Viewing(0, row), Idle];
    var s3 := Apply(sha, s2, Start(1, q));
    var s4 := Apply(sha, s3, Move(1));
    assert s4.actors == [Viewing(0, row), Locking(q)] && s4.world.rows == [row];
    var s5 := Apply(sha, s4, Move(1));
    assert s5.world.consumed == [Consumption(0, reference)] && s5.actors[0] == Viewing(0, row);
    var s6 := Apply(sha, s5, Tick(TTL + 1));
    var s7 := Apply(sha, s6, Move(0));
    assert s7.world.rows[0].status == EXPIRED;
    assert After(sha, s0, []) == s0;
    steps := [] + [Issue(0, 0, facts, code)];
    AfterSnoc(sha, s0, [], Issue(0, 0, facts, code));
    AfterSnoc(sha, s0, steps, Start(0, View(0, 0, false)));
    steps := steps + [Start(0, View(0, 0, false))];
    AfterSnoc(sha, s0, steps, Start(1, q));
    steps := steps + [Start(1, q)];
    AfterSnoc(sha, s0, steps, Move(1));
    steps := steps + [Move(1)];
    AfterSnoc(sha, s0, steps, Move(1));
    steps := steps + [Move(1)];
    AfterSnoc(sha, s0, steps, Tick(TTL + 1));
    steps := steps + [Tick(TTL + 1)];
    AfterSnoc(sha, s0, steps, Move(0));
    steps := steps + [Move(0)];
  }
}
