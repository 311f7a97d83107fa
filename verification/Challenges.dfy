/**
 Step-up challenges: a code bound to the facts of one operation, which may confirm that operation once.
 Only the verification itself runs under a row lock. Everything around it reads without a lock and writes
 EXPIRED unconditionally, so several requests interleave, each acting on what it read earlier. `Moved` is
 one atomic database step of one request.
 */
module Challenges {
  import opened Common

  // ----- what a challenge is bound to

  /** One fact of an operation; a list of facts is given in the order of its keys. */
  datatype Fact = Fact(key: string, value: string)

  /** `material_hash` joins its arguments with a bar. */
  function Joined(facts: seq<Fact>): string {
    if facts == [] then ""
    else if |facts| == 1 then facts[0].key + "=" + facts[0].value
    else facts[0].key + "=" + facts[0].value + "|" + Joined(facts[1..])
  }

  /** `_facts_digest` */
  function FactsDigest(sha: Sha, facts: seq<Fact>): Digest {
    sha(Joined(facts))
  }

  function CodeHash(sha: Sha, code: string): (r: string)
    ensures |r| == 32 && r <= sha(code)
  {
    sha(code)[..32]
  }

  /** What a consumed challenge's material is replaced by. */
  function ConsumedMaterial(sha: Sha, reference: string): string {
    sha("consumed|" + reference)
  }

  // ----- the tables

  datatype ChallengeStatus = PENDING | VERIFIED | CONSUMED | EXPIRED

  datatype Challenge = Challenge(
    customer: nat,
    evaluation: nat,
    material: string,
    codeHash: string,
    status: ChallengeStatus,
    createdAt: nat,
    expiresAt: nat)

  /** An audit row CHALLENGE_CONSUMED. */
  datatype Consumption = Consumption(challenge: nat, reference: string)

  /**
   `failures` are the CHALLENGE_FAILED audit rows, by challenge. `refused` is a history of the wrong codes
   that a locked verification has turned down; nothing reads it.
   */
  datatype World = World(
    now: nat,
    rows: seq<Challenge>,
    failures: seq<nat>,
    refused: seq<nat>,
    consumed: seq<Consumption>)

  const SECOND := 1000000
  const TTL := 600 * SECOND
  const COOLDOWN := 60 * SECOND
  const MAX_ATTEMPTS := 5

  function Count(log: seq<nat>, c: nat): nat {
    if log == [] then 0 else (if log[|log| - 1] == c then 1 else 0) + Count(log[..|log| - 1], c)
  }

  lemma CountSnoc(log: seq<nat>, x: nat, c: nat)
    ensures Count(log + [x], c) == Count(log, c) + (if x == c then 1 else 0)
  {
    assert (log + [x])[..|log|] == log;
  }

  // ----- the locked core

  datatype ChallengeError =
    | ChallengeNotFound | ChallengeExpired | ChallengeNotPending | MaterialChanged | InvalidCode | ReissueCooldown

  /** `verify_challenge` on a locked row; the status it would write on an error is rolled back. */
  function VerifyProblem(sha: Sha, row: Challenge, now: nat, code: string, facts: seq<Fact>): (r: Option<ChallengeError>)
    ensures r.None? <==>
              && row.status == PENDING && now <= row.expiresAt
              && FactsDigest(sha, facts) == row.material && CodeHash(sha, code) == row.codeHash
  {
    if row.status == EXPIRED || (row.status == PENDING && now > row.expiresAt) then Some(ChallengeExpired)
    else if row.status != PENDING then Some(ChallengeNotPending)
    else if FactsDigest(sha, facts) != row.material then Some(MaterialChanged)
    else if CodeHash(sha, code) != row.codeHash then Some(InvalidCode)
    else None
  }

  function WithRow(w: World, c: nat, row: Challenge): World
    requires c < |w.rows|
  {
    w.(rows := w.rows[c := row])
  }

  /** The unconditional `update(status=EXPIRED)`. */
  function Expire(w: World, c: nat): World {
    if c < |w.rows| then WithRow(w, c, w.rows[c].(status := EXPIRED)) else w
  }

  /** `verify_challenge` and `consume_challenge` in one transaction. */
  function ConsumedWorld(sha: Sha, w: World, c: nat, reference: string): World
    requires c < |w.rows|
  {
    WithRow(w, c, w.rows[c].(status := CONSUMED, material := ConsumedMaterial(sha, reference)))
    .(consumed := w.consumed + [Consumption(c, reference)])
  }

  function NewChallenge(sha: Sha, w: World, customer: nat, evaluation: nat, material: string, code: string): Challenge {
    Challenge(customer, evaluation, material, CodeHash(sha, code), PENDING, w.now, w.now + TTL)
  }

  // ----- requests and their progress

  datatype Request =
    | Confirm(challenge: nat, customer: nat, code: string, facts: seq<Fact>, reference: string)
    | Attempt(challenge: nat, customer: nat, code: string, facts: seq<Fact>)
    | Reissue(challenge: nat, customer: nat, code: string)
    | View(challenge: nat, customer: nat, superuser: bool)

  /** Where a request stands; `probe` is the row as it read it, which may be out of date. */
  datatype Actor =
    | Idle
    | Checking(request: Request, probe: Challenge)
    | Locking(request: Request)
    | Counting(challenge: nat)
    | Recording(challenge: nat, attempts: nat)
    | Tombstoning(challenge: nat)
    | Cooling(request: Request, probe: Challenge)
    | Creating(request: Request, probe: Challenge)
    | Superseding(challenge: nat)
    | Viewing(challenge: nat, probe: Challenge)

  datatype System = System(world: World, actors: seq<Actor>)

  /** The first, unlocked read of a request. */
  function Probed(w: World, q: Request): Actor {
    if q.challenge >= |w.rows| then Idle
    else
      var row := w.rows[q.challenge];
      match q
      case Confirm(_, customer, _, _, _) => if row.customer == customer then Checking(q, row) else Idle
      case Attempt(_, customer, _, _) => if row.customer == customer then Checking(q, row) else Idle
      case Reissue(_, customer, _) => if row.customer == customer && row.status == PENDING then Cooling(q, row) else Idle
      case View(c, user, superuser) => if superuser || row.customer == user then Viewing(c, row) else Idle
  }

  /** `_precheck_material`: facts that differ from the probe's tombstone the challenge. */
  predicate Tampered(sha: Sha, probe: Challenge, facts: seq<Fact>) {
    probe.status == PENDING && FactsDigest(sha, facts) != probe.material
  }

  function CheckMoved(sha: Sha, w: World, q: Request, probe: Challenge): (World, Actor) {
    if q.Confirm? && Tampered(sha, probe, q.facts) then (Expire(w, q.challenge), Idle)
    else if q.Attempt? && Tampered(sha, probe, q.facts) then (Expire(w, q.challenge), Idle)
    else (w, Locking(q))
  }

  /** The locked transaction of `confirm` or `attempt`; it sees the row as it is now. */
  function LockMoved(sha: Sha, w: World, q: Request): (World, Actor) {
    if q.challenge >= |w.rows| || q.Reissue? || q.View? || (q.Confirm? && w.rows[q.challenge].customer != q.customer) then (w, Idle)
    else
      var c, row := q.challenge, w.rows[q.challenge];
      var problem := VerifyProblem(sha, row, w.now, q.code, q.facts);
      if problem == Some(InvalidCode) then (w.(refused := w.refused + [c]), Counting(c))
      else if problem.Some? then (w, Idle)
      else if q.Confirm? then (ConsumedWorld(sha, w, c, q.reference), Idle)
      else (WithRow(w, c, row.(status := VERIFIED)), Idle)
  }

  predicate InCooldown(w: World, customer: nat, except: nat) {
    exists i :: 0 <= i < |w.rows| && i != except && w.rows[i].customer == customer && w.rows[i].createdAt + COOLDOWN >= w.now
  }

  /** One atomic step of one request. */
  function Moved(sha: Sha, w: World, actor: Actor): (World, Actor) {
    match actor
    case Idle => (w, Idle)
    case Checking(q, probe) => CheckMoved(sha, w, q, probe)
    case Locking(q) => LockMoved(sha, w, q)
    case Counting(c) => (w, Recording(c, Count(w.failures, c) + 1))
    case Recording(c, n) => (w.(failures := w.failures + [c]), if n >= MAX_ATTEMPTS then Tombstoning(c) else Idle)
    case Tombstoning(c) => (Expire(w, c), Idle)
    case Cooling(q, old_) => if InCooldown(w, old_.customer, q.challenge) then (w, Idle) else (w, Creating(q, old_))
    case Creating(q, old_) =>
      (w.(rows := w.rows + [NewChallenge(sha, w, old_.customer, old_.evaluation, old_.material,
                                         if q.View? then "" else q.code)]),
       Superseding(q.challenge))
    case Superseding(c) => (Expire(w, c), Idle)
    case Viewing(c, probe) =>
      if probe.status == PENDING && w.now > probe.expiresAt then (Expire(w, c), Idle) else (w, Idle)
  }

  datatype Step =
    | Tick(elapsed: nat)
    | Issue(customer: nat, evaluation: nat, facts: seq<Fact>, code: string)
    | Start(actor: nat, request: Request)
    | Move(actor: nat)

  function Apply(sha: Sha, s: System, step: Step): System {
    var w := s.world;
    match step
    case Tick(d) => s.(world := w.(now := w.now + d))
    case Issue(customer, evaluation, facts, code) =>
      s.(world := w.(rows := w.rows + [NewChallenge(sha, w, customer, evaluation, FactsDigest(sha, facts), code)]))
    case Start(a, q) =>
      if a < |s.actors| && s.actors[a] == Idle then s.(actors := s.actors[a := Probed(w, q)]) else s
    case Move(a) =>
      if a < |s.actors| then
        var moved := Moved(sha, w, s.actors[a]);
        System(moved.0, s.actors[a := moved.1])
      else s
  }

  function After(sha: Sha, s: System, steps: seq<Step>): System
    decreases |steps|
  {
    if steps == [] then s else Apply(sha, After(sha, s, steps[..|steps| - 1]), steps[|steps| - 1])
  }

  function AllIdle(k: nat): (r: seq<Actor>)
    ensures |r| == k && forall i :: 0 <= i < k ==> r[i] == Idle
  {
    if k == 0 then [] else AllIdle(k - 1) + [Idle]
  }

  /** No challenges yet, and room for `k` concurrent requests. */
  function Initial(k: nat): System {
    System(World(0, [], [], [], []), AllIdle(k))
  }
}
