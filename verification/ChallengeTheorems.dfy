/**
 What the challenge protocol guarantees under every interleaving of its requests: a challenge never
 becomes pending again, confirms at most one operation, and that one exactly as issued; and how many
 wrong codes it lets through.
 */
module ChallengeTheorems {
  import opened Common
  import opened Challenges
  import opened ChallengeFacts

  // ----- rows only fade

  /** Statuses that a row may have later. */
  predicate MayBecome(s: ChallengeStatus, t: ChallengeStatus) {
    match s
    case PENDING => true
    case VERIFIED => t in {VERIFIED, EXPIRED}
    case CONSUMED => t in {CONSUMED, EXPIRED}
    case EXPIRED => t == EXPIRED
  }

  /** `u` is a later state of row `r`: while it is pending, it is unchanged. */
  predicate Fades(r: Challenge, u: Challenge) {
    && u == r.(status := u.status, material := u.material)
    && MayBecome(r.status, u.status)
    && (u.status in {PENDING, VERIFIED} ==> u.material == r.material)
  }

  ghost predicate RowsFade(a: seq<Challenge>, b: seq<Challenge>) {
    |a| <= |b| && forall c :: 0 <= c < |a| ==> Fades(a[c], b[c])
  }

  lemma RowsFadeOn(a: seq<Challenge>, b: seq<Challenge>, c: seq<Challenge>)
    requires RowsFade(a, b) && RowsFade(b, c)
    ensures RowsFade(a, c)
  {
    forall i | 0 <= i < |a|
      ensures Fades(a[i], c[i])
    {
      assert Fades(a[i], b[i]) && Fades(b[i], c[i]);
    }
  }

  lemma StepFades(sha: Sha, s: System, step: Step)
    ensures RowsFade(s.world.rows, Apply(sha, s, step).world.rows)
  {
  }

  /** `After` of a longer run is `After` of the rest of it. */
  lemma {:induction false} AfterSplit(sha: Sha, s: System, steps: seq<Step>, k: nat)
    requires k <= |steps|
    ensures After(sha, s, steps) == After(sha, After(sha, s, steps[..k]), steps[k..])
    decreases |steps|
  {
    if k == |steps| {
      assert steps[..k] == steps && steps[k..] == [];
    } else {
      var n := |steps| - 1;
      assert steps[..n][..k] == steps[..k] && steps[..n][k..] == steps[k..][..n - k];
      AfterSplit(sha, s, steps[..n], k);
    }
  }

  lemma {:induction false} RunFades(sha: Sha, s: System, steps: seq<Step>)
    ensures RowsFade(s.world.rows, After(sha, s, steps).world.rows)
    decreases |steps|
  {
    if steps != [] {
      var n := |steps| - 1;
      var before := After(sha, s, steps[..n]);
      RunFades(sha, s, steps[..n]);
      StepFades(sha, before, steps[n]);
      RowsFadeOn(s.world.rows, before.world.rows, After(sha, s, steps).world.rows);
    }
  }

  /** A challenge that has left PENDING is never pending again, whatever stale writers do. */
  lemma NeverPendingAgain(sha: Sha, s: System, steps: seq<Step>, c: nat)
    requires c < |s.world.rows|
    ensures c < |After(sha, s, steps).world.rows|
    ensures s.world.rows[c].status != PENDING ==> After(sha, s, steps).world.rows[c].status != PENDING
    ensures After(sha, s, steps).world.rows[c].status == PENDING ==> After(sha, s, steps).world.rows[c] == s.world.rows[c]
  {
    RunFades(sha, s, steps);
    assert Fades(s.world.rows[c], After(sha, s, steps).world.rows[c]);
  }

  // ----- consumed at most once

  function Consumptions(log: seq<Consumption>, c: nat): nat {
    if log == [] then 0
    else (if log[|log| - 1].challenge == c then 1 else 0) + Consumptions(log[..|log| - 1], c)
  }

  lemma ConsumptionsSnoc(log: seq<Consumption>, x: Consumption, c: nat)
    ensures Consumptions(log + [x], c) == Consumptions(log, c) + (if x.challenge == c then 1 else 0)
  {
    assert (log + [x])[..|log|] == log;
  }

  /** A consumption leaves its row out of PENDING and out of VERIFIED for good. */
  ghost predicate OnceOk(w: World, c: nat) {
    && Consumptions(w.consumed, c) <= 1
    && (Consumptions(w.consumed, c) == 1 ==> c < |w.rows| && w.rows[c].status in {CONSUMED, EXPIRED})
    && (c < |w.rows| && w.rows[c].status == CONSUMED ==> Consumptions(w.consumed, c) == 1)
  }

  /** The request that consumes challenge `c` in this step, if the step is one. */
  predicate Consumes(sha: Sha, s: System, step: Step, c: nat) {
    && step.Move? && step.actor < |s.actors|
    && var actor := s.actors[step.actor];
       && actor.Locking? && actor.request.Confirm? && actor.request.challenge == c && c < |s.world.rows|
       && s.world.rows[c].customer == actor.request.customer
       && VerifyProblem(sha, s.world.rows[c], s.world.now, actor.request.code, actor.request.facts).None?
  }

  lemma StepLog(sha: Sha, s: System, step: Step)
    ensures var v := Apply(sha, s, step).world;
            || v.consumed == s.world.consumed
            || exists c: nat :: Consumes(sha, s, step, c)
                 && v == ConsumedWorld(sha, s.world, c, s.actors[step.actor].request.reference)
  {
    if step.Move? && step.actor < |s.actors| && s.actors[step.actor].Locking? {
      var q := s.actors[step.actor].request;
      if Consumes(sha, s, step, q.challenge) {
        assert Apply(sha, s, step).world == ConsumedWorld(sha, s.world, q.challenge, q.reference);
      }
    }
  }

  lemma StepKeepsOnce(sha: Sha, s: System, step: Step, c: nat)
    requires OnceOk(s.world, c)
    ensures OnceOk(Apply(sha, s, step).world, c)
  {
    var w, v := s.world, Apply(sha, s, step).world;
    StepFades(sha, s, step);
    StepLog(sha, s, step);
    if v.consumed != w.consumed {
      var d: nat :| Consumes(sha, s, step, d) && v == ConsumedWorld(sha, w, d, s.actors[step.actor].request.reference);
      ConsumptionsSnoc(w.consumed, v.consumed[|w.consumed|], c);
    } else {
      assert c < |w.rows| ==> Fades(w.rows[c], v.rows[c]);
      if c < |v.rows| && v.rows[c].status == CONSUMED {
        NotNewlyConsumed(sha, s, step, c);
      }
    }
  }

  /** A row is CONSUMED only by a step that says so in the audit log. */
  lemma NotNewlyConsumed(sha: Sha, s: System, step: Step, c: nat)
    requires Apply(sha, s, step).world.consumed == s.world.consumed
    requires c < |Apply(sha, s, step).world.rows| && Apply(sha, s, step).world.rows[c].status == CONSUMED
    ensures c < |s.world.rows| && s.world.rows[c].status == CONSUMED
  {
  }

  lemma {:induction false} ConsumedAtMostOnce(sha: Sha, k: nat, steps: seq<Step>, c: nat)
    ensures OnceOk(After(sha, Initial(k), steps).world, c)
    decreases |steps|
  {
    if steps != [] {
      var n := |steps| - 1;
      ConsumedAtMostOnce(sha, k, steps[..n], c);
      StepKeepsOnce(sha, After(sha, Initial(k), steps[..n]), steps[n], c);
    }
  }

  /** A challenge that `attempt` has verified is spent: no later request consumes it. */
  lemma VerifiedIsNeverConsumed(sha: Sha, s: System, steps: seq<Step>, step: Step, c: nat)
    requires c < |s.world.rows| && s.world.rows[c].status != PENDING
    ensures !Consumes(sha, After(sha, s, steps), step, c)
  {
    NeverPendingAgain(sha, s, steps, c);
  }

  // ----- consumed as issued

  /** One of the steps issued a challenge to this customer, for this evaluation, with these facts' digest. */
  predicate IssuedBy(sha: Sha, steps: seq<Step>, r: Challenge) {
    exists i :: 0 <= i < |steps| && Issues(sha, steps[i], r)
  }

  predicate Issues(sha: Sha, step: Step, r: Challenge) {
    step.Issue? && step.customer == r.customer && step.evaluation == r.evaluation && FactsDigest(sha, step.facts) == r.material
  }

  /** Pending rows, and what a reissue has read, go back to an issuing step. */
  predicate ProbeTraced(sha: Sha, steps: seq<Step>, actor: Actor) {
    actor.Cooling? || actor.Creating? ==> IssuedBy(sha, steps, actor.probe)
  }

  predicate RowTraced(sha: Sha, steps: seq<Step>, r: Challenge) {
    r.expiresAt == r.createdAt + TTL && (r.status == PENDING ==> IssuedBy(sha, steps, r))
  }

  ghost predicate Traced(sha: Sha, steps: seq<Step>, s: System) {
    && (forall c :: 0 <= c < |s.world.rows| ==> RowTraced(sha, steps, s.world.rows[c]))
    && (forall a :: 0 <= a < |s.actors| ==> ProbeTraced(sha, steps, s.actors[a]))
  }

  lemma IssuedGrows(sha: Sha, steps: seq<Step>, step: Step, r: Challenge)
    ensures IssuedBy(sha, steps, r) ==> IssuedBy(sha, steps + [step], r)
    ensures Issues(sha, step, r) ==> IssuedBy(sha, steps + [step], r)
  {
    if IssuedBy(sha, steps, r) {
      var i :| 0 <= i < |steps| && Issues(sha, steps[i], r);
      assert Issues(sha, (steps + [step])[i], r);
    }
    if Issues(sha, step, r) {
      assert Issues(sha, (steps + [step])[|steps|], r);
    }
  }

  lemma StepKeepsTraced(sha: Sha, steps: seq<Step>, s: System, step: Step)
    requires Traced(sha, steps, s)
    ensures Traced(sha, steps + [step], Apply(sha, s, step))
  {
    var v := Apply(sha, s, step);
    StepFades(sha, s, step);
    forall c | 0 <= c < |v.world.rows|
      ensures RowTraced(sha, steps + [step], v.world.rows[c])
    {
      IssuedGrows(sha, steps, step, v.world.rows[c]);
      if c < |s.world.rows| {
        assert Fades(s.world.rows[c], v.world.rows[c]) && RowTraced(sha, steps, s.world.rows[c]);
      } else {
        NewRowTraced(sha, steps, s, step, c);
      }
    }
    forall a | 0 <= a < |v.actors|
      ensures ProbeTraced(sha, steps + [step], v.actors[a])
    {
      ActorTraced(sha, steps, s, step, a);
    }
  }

  lemma NewRowTraced(sha: Sha, steps: seq<Step>, s: System, step: Step, c: nat)
    requires Traced(sha, steps, s) && |s.world.rows| <= c < |Apply(sha, s, step).world.rows|
    ensures RowTraced(sha, steps + [step], Apply(sha, s, step).world.rows[c])
  {
    hide IssuedBy;
    var r := Apply(sha, s, step).world.rows[c];
    IssuedGrows(sha, steps, step, r);
    if step.Move? {
      var actor := s.actors[step.actor];
      assert ProbeTraced(sha, steps, actor);
      SameBinding(sha, steps, actor.probe, r);
    }
  }

  lemma SameBinding(sha: Sha, steps: seq<Step>, r: Challenge, u: Challenge)
    requires u.customer == r.customer && u.evaluation == r.evaluation && u.material == r.material
    ensures IssuedBy(sha, steps, r) ==> IssuedBy(sha, steps, u)
  {
    if IssuedBy(sha, steps, r) {
      var i :| 0 <= i < |steps| && Issues(sha, steps[i], r);
      assert Issues(sha, steps[i], u);
    }
  }

  lemma ActorTraced(sha: Sha, steps: seq<Step>, s: System, step: Step, a: nat)
    requires Traced(sha, steps, s) && a < |s.actors|
    ensures ProbeTraced(sha, steps + [step], Apply(sha, s, step).actors[a])
  {
    hide IssuedBy;
    var actor := Apply(sha, s, step).actors[a];
    assert ProbeTraced(sha, steps, s.actors[a]);
    if actor.Cooling? || actor.Creating? {
      IssuedGrows(sha, steps, step, actor.probe);
      if s.actors[a] == Idle {
        assert step.Start? && actor.probe in s.world.rows;
        var c :| 0 <= c < |s.world.rows| && s.world.rows[c] == actor.probe;
        assert RowTraced(sha, steps, s.world.rows[c]);
      }
    }
  }

  lemma {:induction false} ReachableTraced(sha: Sha, k: nat, steps: seq<Step>)
    ensures Traced(sha, steps, After(sha, Initial(k), steps))
    decreases |steps|
  {
    if steps != [] {
      var n := |steps| - 1;
      ReachableTraced(sha, k, steps[..n]);
      StepKeepsTraced(sha, steps[..n], After(sha, Initial(k), steps[..n]), steps[n]);
      assert steps[..n] + [steps[n]] == steps;
    }
  }

  /**
   Whenever a challenge is consumed, under any interleaving: it was pending, had not outlived its ten
   minutes, was never consumed before, the code was its code, and an earlier step issued it (or the one it
   was reissued from) to the same customer for the same evaluation with facts of the same digest.
   */
  lemma ConsumedAsIssued(sha: Sha, k: nat, steps: seq<Step>, step: Step, c: nat)
    requires Consumes(sha, After(sha, Initial(k), steps), step, c)
    ensures var s := After(sha, Initial(k), steps);
            var row, q := s.world.rows[c], s.actors[step.actor].request;
            && row.status == PENDING && s.world.now <= row.createdAt + TTL
            && Consumptions(s.world.consumed, c) == 0
            && CodeHash(sha, q.code) == row.codeHash
            && exists i :: 0 <= i < |steps| && steps[i].Issue? && steps[i].customer == q.customer
                 && steps[i].evaluation == row.evaluation && FactsDigest(sha, steps[i].facts) == FactsDigest(sha, q.facts)
  {
    ReachableTraced(sha, k, steps);
    ConsumedAtMostOnce(sha, k, steps, c);
    var s := After(sha, Initial(k), steps);
    assert RowTraced(sha, steps, s.world.rows[c]);
    var i :| 0 <= i < |steps| && Issues(sha, steps[i], s.world.rows[c]);
  }

  /**
   And the facts themselves, not only their digest: if the consuming request presents the issued keys, the
   issued facts are not ambiguous and the two texts do not collide, it presents the issued facts.
   */
  lemma ConsumedFactsAreIssued(sha: Sha, k: nat, steps: seq<Step>, step: Step, c: nat) returns (i: nat)
    requires Consumes(sha, After(sha, Initial(k), steps), step, c)
    ensures i < |steps| && steps[i].Issue?
    ensures var q, issued := After(sha, Initial(k), steps).actors[step.actor].request, steps[i].facts;
            && steps[i].customer == q.customer
            && (BarFreeKeys(issued) && SameKeys(issued, q.facts) && !Ambiguous(issued) ==>
                  CollisionFree(sha, {Joined(issued), Joined(q.facts)}) ==> q.facts == issued)
  {
    ConsumedAsIssued(sha, k, steps, step, c);
    var s := After(sha, Initial(k), steps);
    var row, q := s.world.rows[c], s.actors[step.actor].request;
    hide After, Consumes, Ambiguous, Joined;
    i :| i < |steps| && steps[i].Issue? && steps[i].customer == q.customer
         && steps[i].evaluation == row.evaluation && FactsDigest(sha, steps[i].facts) == FactsDigest(sha, q.facts);
    if BarFreeKeys(steps[i].facts) && SameKeys(steps[i].facts, q.facts) && !Ambiguous(steps[i].facts) {
      UnambiguousBinds(sha, steps[i].facts, q.facts);
    }
  }
}
