/**
 What one request does to a challenge when no other interferes, case by case, and what becomes of a challenge
 that was confirmed with other facts, under every interleaving.
 */
module ChallengeOutcomes {
  import opened Common
  import opened Challenges
  import opened ChallengeTheorems
  import opened ChallengeGuards

  function WithStatus(w: World, c: nat, status: ChallengeStatus): seq<Challenge>
    requires c < |w.rows|
  {
    w.rows[c := w.rows[c].(status := status)]
  }

  // ----- confirm and attempt

  /** The world after a wrong code: one more failure on record, and the challenge dead with the last one allowed. */
  predicate FailureNoted(w: World, v: World, c: nat)
    requires c < |w.rows|
  {
    v == w.(rows := if Count(w.failures, c) + 1 >= MAX_ATTEMPTS then WithStatus(w, c, EXPIRED) else w.rows,
            failures := w.failures + [c], refused := w.refused + [c])
  }

  /**
   Only the owner's pending challenge is touched. Other facts kill it, in time or not; past its time nothing
   else happens to it; a wrong code is noted; the right code verifies it, and `confirm` consumes it at once.
   */
  lemma VerificationOutcome(sha: Sha, w: World, q: Request)
    requires q.Confirm? || q.Attempt?
    ensures var v, c := Alone(sha, w, Probed(w, q)), q.challenge;
            if !OwnPending(w, q) then v == w
            else if sha(Joined(q.facts)) != w.rows[c].material then v == w.(rows := WithStatus(w, c, EXPIRED))
            else if w.now > w.rows[c].expiresAt then v == w
            else if CodeHash(sha, q.code) != w.rows[c].codeHash then FailureNoted(w, v, c)
            else if q.Attempt? then v == w.(rows := WithStatus(w, c, VERIFIED))
            else
              && v == w.(rows := v.rows, consumed := w.consumed + [Consumption(c, q.reference)])
              && v.rows == w.rows[c := w.rows[c].(status := CONSUMED, material := ConsumedMaterial(sha, q.reference))]
  {
    var c := q.challenge;
    if c < |w.rows| && w.rows[c].customer == q.customer {
      var checked := Moved(sha, w, Checking(q, w.rows[c]));
      assert Alone(sha, w, Checking(q, w.rows[c])) == Alone(sha, checked.0, checked.1);
      if checked.1 == Locking(q) {
        var locked := Moved(sha, w, Locking(q));
        assert Alone(sha, w, Locking(q)) == Alone(sha, locked.0, locked.1);
        if locked.1 == Counting(c) {
          RecordingAlone(sha, locked.0, c);
        }
      }
    }
  }

  // ----- reissue and view

  /** The customer has had another challenge within the last minute. */
  predicate Hurried(w: World, q: Request) {
    exists i :: 0 <= i < |w.rows| && i != q.challenge && w.rows[i].customer == q.customer && w.rows[i].createdAt >= w.now - 60 * SECOND
  }

  /** A new challenge of ten minutes takes the place of the pending one, with its facts, at most once a minute. */
  lemma ReissueOutcome(sha: Sha, w: World, q: Request)
    requires q.Reissue?
    ensures var v, c := Alone(sha, w, Probed(w, q)), q.challenge;
            if !OwnPending(w, q) || Hurried(w, q) then v == w
            else
              var old_ := w.rows[c];
              var renewed := Challenge(q.customer, old_.evaluation, old_.material, CodeHash(sha, q.code), PENDING, w.now, w.now + 600 * SECOND);
              v == w.(rows := WithStatus(w, c, EXPIRED) + [renewed])
  {
    var c := q.challenge;
    if OwnPending(w, q) {
      var old_ := w.rows[c];
      assert Hurried(w, q) <==> InCooldown(w, old_.customer, c);
      hide InCooldown, Hurried;
      var cooled := Moved(sha, w, Cooling(q, old_));
      assert Alone(sha, w, Cooling(q, old_)) == Alone(sha, cooled.0, cooled.1);
      if cooled.1 == Creating(q, old_) {
        var created := Moved(sha, w, Creating(q, old_));
        assert Alone(sha, w, Creating(q, old_)) == Alone(sha, created.0, created.1);
        assert Alone(sha, created.0, Superseding(c)) == Expire(created.0, c);
      }
    }
  }

  /** Looking at a challenge, as its customer or a superuser, expires it if it is pending past its time. */
  lemma ViewOutcome(sha: Sha, w: World, q: Request)
    requires q.View?
    ensures var v, c := Alone(sha, w, Probed(w, q)), q.challenge;
            if c < |w.rows| && (w.rows[c].customer == q.customer || q.superuser) && w.rows[c].status == PENDING && w.now > w.rows[c].expiresAt
            then v == w.(rows := WithStatus(w, c, EXPIRED))
            else v == w
  {
    var c := q.challenge;
    if c < |w.rows| {
      var seen := Moved(sha, w, Viewing(c, w.rows[c]));
      assert Alone(sha, w, Viewing(c, w.rows[c])) == Alone(sha, seen.0, seen.1);
    }
  }

  // ----- other facts, under every interleaving

  predicate NotMoved(steps: seq<Step>, a: nat) {
    forall k :: 0 <= k < |steps| ==> steps[k] != Move(a)
  }

  /** What others do leaves a request where it stands. */
  lemma {:induction false} Stands(sha: Sha, s: System, steps: seq<Step>, a: nat)
    requires a < |s.actors| && s.actors[a] != Idle && NotMoved(steps, a)
    ensures a < |After(sha, s, steps).actors| && After(sha, s, steps).actors[a] == s.actors[a]
    decreases |steps|
  {
    if steps != [] {
      Stands(sha, s, steps[..|steps| - 1], a);
      hide Moved, Probed;
    }
  }

  /**
   A request of the owner that has read the challenge as pending, for other facts than the issued ones, kills
   it with its next step, whatever has happened in between: it consumes nothing, and no one does later.
   */
  lemma OtherFactsKill(sha: Sha, s: System, a: nat, q: Request, between: seq<Step>, later: seq<Step>, step: Step)
    requires a < |s.actors| && s.actors[a] == Idle && (q.Confirm? || q.Attempt?)
    requires OwnPending(s.world, q) && sha(Joined(q.facts)) != s.world.rows[q.challenge].material
    requires NotMoved(between, a)
    ensures var read := After(sha, Apply(sha, s, Start(a, q)), between);
            var dead := Apply(sha, read, Move(a));
            var end := After(sha, dead, later);
            && q.challenge < |dead.world.rows| && dead.world.rows[q.challenge].status == EXPIRED
            && dead.world.consumed == read.world.consumed
            && q.challenge < |end.world.rows| && end.world.rows[q.challenge].status == EXPIRED
            && !Consumes(sha, end, step, q.challenge)
  {
    var c, row := q.challenge, s.world.rows[q.challenge];
    var started := Apply(sha, s, Start(a, q));
    assert started == s.(actors := s.actors[a := Checking(q, row)]);
    var read := After(sha, started, between);
    Stands(sha, started, between, a);
    RunFades(sha, started, between);
    assert Fades(row, read.world.rows[c]);
    var dead := Apply(sha, read, Move(a));
    RunFades(sha, dead, later);
    assert Fades(dead.world.rows[c], After(sha, dead, later).world.rows[c]);
  }
}
