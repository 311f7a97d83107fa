/**
 External anchoring of sealed batches, with the in-memory provider that simulates the outside world.
 */
module Anchors {
  import opened Common
  import opened Json
  import opened ProofBatches

  /** What is published about a batch. */
  datatype AnchorContent = AnchorContent(sequence: nat, root: string, manifestHash: string)

  /**
   The published commitment of a content, and the reference under which the provider files it. The
   reference is a truncated digest, so different contents may share one.
   */
  datatype Anchoring = Anchoring(commitment: AnchorContent -> string, reference: AnchorContent -> string)

  function ContentOfBatch(b: Batch): AnchorContent {
    AnchorContent(b.sequence, b.root, b.manifestHash)
  }

  function CommitmentOf(a: Anchoring, b: Batch): string {
    (a.commitment)(ContentOfBatch(b))
  }

  function AnchorKey(b: Batch): string {
    "anchor-v1:" + (Digits(b.sequence) + ([':'] + b.manifestHash))
  }

  /** Batches with different sequences never share a key. */
  lemma KeyDeterminesSequence(a: Batch, b: Batch)
    requires AnchorKey(a) == AnchorKey(b)
    ensures a.sequence == b.sequence && a.manifestHash == b.manifestHash
  {
    var p := "anchor-v1:";
    var r, t := [':'] + a.manifestHash, [':'] + b.manifestHash;
    assert AnchorKey(a)[|p|..] == Digits(a.sequence) + r && AnchorKey(b)[|p|..] == Digits(b.sequence) + t;
    DigitsAreDigits(a.sequence);
    DigitsAreDigits(b.sequence);
    DigitRunUnambiguous(Digits(a.sequence), r, Digits(b.sequence), t);
    DigitsInjective(a.sequence, b.sequence);
    assert r[1..] == a.manifestHash && t[1..] == b.manifestHash;
  }

  datatype AnchorStatus = CREATED | SUBMITTED | CONFIRMING | CONFIRMED | FAILED | SUPERSEDED

  /** An anchor row; `batch` is the position of its batch in the batch table. */
  datatype Anchor = Anchor(
    batch: nat, key: string, commitment: string, reference: string, status: AnchorStatus, confirmedAt: string)

  // ----- the simulated provider

  datatype Entry = Entry(reference: string, commitment: string, key: string, confirmed: bool, polls: nat)

  /** The provider's memory, in insertion order; a restart forgets it. */
  datatype Provider = Provider(store: seq<Entry>, failNext: bool)

  function FindKey(store: seq<Entry>, key: string): Option<string> {
    if store == [] then None
    else if store[0].key == key then Some(store[0].reference)
    else FindKey(store[1..], key)
  }

  function FindReference(store: seq<Entry>, reference: string): (r: Option<nat>)
    ensures r.Some? ==> r.value < |store| && store[r.value].reference == reference
  {
    if store == [] then None
    else if store[0].reference == reference then Some(0)
    else match FindReference(store[1..], reference)
      case None => None
      case Some(i) => Some(i + 1)
  }

  function Put(store: seq<Entry>, e: Entry): seq<Entry> {
    match FindReference(store, e.reference)
    case None => store + [e]
    case Some(i) => store[i := e]
  }

  /** `submit`: an error when told to fail, otherwise the reference of the key, filed once. */
  function Submit(a: Anchoring, p: Provider, b: Batch): (Provider, Option<string>) {
    if p.failNext then (p.(failNext := false), None)
    else if FindKey(p.store, AnchorKey(b)).Some? then (p, FindKey(p.store, AnchorKey(b)))
    else
      var reference := (a.reference)(ContentOfBatch(b));
      (p.(store := Put(p.store, Entry(reference, CommitmentOf(a, b), AnchorKey(b), false, 0))), Some(reference))
  }

  /** `get_status` at position `i`: the second poll confirms. */
  function Polled(e: Entry): Entry {
    e.(polls := e.polls + 1, confirmed := e.confirmed || e.polls + 1 >= 2)
  }

  // ----- the service

  datatype World = World(batches: seq<Batch>, anchors: seq<Anchor>, provider: Provider)

  /** The anchor that counts for a key: the first that is not superseded. */
  function Live(anchors: seq<Anchor>, key: string): (r: Option<nat>)
    ensures r.Some? ==> r.value < |anchors| && anchors[r.value].key == key && anchors[r.value].status != SUPERSEDED
    ensures r.None? ==> forall i :: 0 <= i < |anchors| && anchors[i].key == key ==> anchors[i].status == SUPERSEDED
  {
    if anchors == [] then None
    else if anchors[0].key == key && anchors[0].status != SUPERSEDED then Some(0)
    else match Live(anchors[1..], key)
      case None => None
      case Some(i) => Some(i + 1)
  }

  function Supersede(anchors: seq<Anchor>, i: nat): seq<Anchor>
    requires i < |anchors|
  {
    anchors[i := anchors[i].(status := SUPERSEDED)]
  }

  function NewAnchor(a: Anchoring, w: World, i: nat): Anchor
    requires i < |w.batches|
  {
    var b := w.batches[i];
    var submitted := Submit(a, w.provider, b);
    match submitted.1
    case None => Anchor(i, AnchorKey(b), CommitmentOf(a, b), "", AnchorStatus.FAILED, "")
    case Some(reference) => Anchor(i, AnchorKey(b), CommitmentOf(a, b), reference, SUBMITTED, "")
  }

  /** `anchor_batch` for batch `i`. */
  function Anchored(a: Anchoring, w: World, i: nat): World
    requires i < |w.batches|
  {
    var b := w.batches[i];
    var live := Live(w.anchors, AnchorKey(b));
    if live.Some? && w.anchors[live.value].status != AnchorStatus.FAILED then w
    else
      var kept := if live.Some? then Supersede(w.anchors, live.value) else w.anchors;
      w.(anchors := kept + [NewAnchor(a, w, i)], provider := Submit(a, w.provider, b).0)
  }

  /** The row that `anchor_batch` returns. */
  function AnchorIndex(w: World, i: nat): nat
    requires i < |w.batches|
  {
    var live := Live(w.anchors, AnchorKey(w.batches[i]));
    if live.Some? && w.anchors[live.value].status != AnchorStatus.FAILED then live.value else |w.anchors|
  }

  function MarkAnchored(batches: seq<Batch>, i: nat): seq<Batch> {
    if i < |batches| then batches[i := batches[i].(status := ANCHORED)] else batches
  }

  /** `confirm_anchor` for row `k`; an unknown reference raises, which changes nothing. */
  function Confirmed(a: Anchoring, w: World, k: nat, now: string): World
    requires k < |w.anchors| && w.anchors[k].batch < |w.batches|
  {
    var anchor := w.anchors[k];
    var found := FindReference(w.provider.store, anchor.reference);
    if anchor.status !in {SUBMITTED, CONFIRMING} || found.None? then w
    else
      var entry := Polled(w.provider.store[found.value]);
      var provider := w.provider.(store := w.provider.store[found.value := entry]);
      if !entry.confirmed then
        w.(anchors := w.anchors[k := anchor.(status := SUBMITTED)], provider := provider)
      else if entry.commitment != CommitmentOf(a, w.batches[anchor.batch]) then
        w.(anchors := w.anchors[k := anchor.(status := AnchorStatus.FAILED)], provider := provider)
      else
        World(MarkAnchored(w.batches, anchor.batch),
              w.anchors[k := anchor.(status := CONFIRMED, confirmedAt := now)], provider)
  }

  class AnchorService {
    const a: Anchoring
    var batches: seq<Batch>
    var anchors: seq<Anchor>
    var store: seq<Entry>
    var failNext: bool

    constructor (a: Anchoring, batches: seq<Batch>)
      ensures this.a == a && State() == World(batches, [], Provider([], false))
    {
      this.a, this.batches, anchors, store, failNext := a, batches, [], [], false;
    }

    function State(): World
      reads this
    {
      World(batches, anchors, Provider(store, failNext))
    }

    method SubmitToProvider(b: Batch) returns (r: Option<string>)
      modifies this`store, this`failNext
      ensures (Provider(store, failNext), r) == Submit(a, Provider(old(store), old(failNext)), b)
    {
      if failNext {
        failNext := false;
        return None;
      }
      r := FindKey(store, AnchorKey(b));
      if r.None? {
        var reference := (a.reference)(ContentOfBatch(b));
        store := Put(store, Entry(reference, CommitmentOf(a, b), AnchorKey(b), false, 0));
        r := Some(reference);
      }
    }

    method AnchorBatch(i: nat) returns (k: nat)
      requires i < |batches|
      modifies this`anchors, this`store, this`failNext
      ensures State() == Anchored(a, old(State()), i)
      ensures k == AnchorIndex(old(State()), i) < |anchors|
    {
      ghost var w := State();
      var b := batches[i];
      var key := AnchorKey(b);
      var existing := Live(anchors, key);
      if existing.Some? {
        if anchors[existing.value].status != AnchorStatus.FAILED {
          return existing.value;
        }
        anchors := Supersede(anchors, existing.value);
      }
      k := |anchors|;
      var created := Anchor(i, key, CommitmentOf(a, b), "", CREATED, "");
      var reference := SubmitToProvider(b);
      created := if reference.None? then created.(status := AnchorStatus.FAILED)
                 else created.(reference := reference.value, status := SUBMITTED);
      assert created == NewAnchor(a, w, i);
      anchors := anchors + [created];
    }

    method ConfirmAnchor(k: nat, now: string)
      requires k < |anchors| && anchors[k].batch < |batches|
      modifies this`batches, this`anchors, this`store
      ensures State() == Confirmed(a, old(State()), k, now)
    {
      var anchor := anchors[k];
      if anchor.status !in {SUBMITTED, CONFIRMING} {
        return;
      }
      var found := FindReference(store, anchor.reference);
      if found.None? {
        return;
      }
      var entry := Polled(store[found.value]);
      store := store[found.value := entry];
      if !entry.confirmed {
        anchor := anchor.(status := SUBMITTED);
      } else if entry.commitment != CommitmentOf(a, batches[anchor.batch]) {
        anchor := anchor.(status := AnchorStatus.FAILED);
      } else {
        anchor := anchor.(status := CONFIRMED, confirmedAt := now);
        batches := MarkAnchored(batches, anchor.batch);
      }
      anchors := anchors[k := anchor];
    }
  }

  // ----- the invariant

  /** The row describes its batch, and a confirmed row has its time. */
  predicate RowOk(a: Anchoring, w: World, k: nat)
    requires k < |w.anchors|
  {
    var r := w.anchors[k];
    && r.batch < |w.batches|
    && r.key == AnchorKey(w.batches[r.batch])
    && r.commitment == CommitmentOf(a, w.batches[r.batch])
    && (r.status == CONFIRMED ==> r.confirmedAt != "")
  }

  /** Two rows of one key are not both live. */
  predicate NotBothLive(anchors: seq<Anchor>, k: nat, l: nat)
    requires k < |anchors| && l < |anchors|
  {
    anchors[k].key == anchors[l].key ==> anchors[k].status == SUPERSEDED || anchors[l].status == SUPERSEDED
  }

  predicate ConfirmsBatch(a: Anchoring, w: World, k: nat, i: nat)
    requires k < |w.anchors| && i < |w.batches|
  {
    w.anchors[k].batch == i && w.anchors[k].status == CONFIRMED && w.anchors[k].commitment == CommitmentOf(a, w.batches[i])
  }

  /** Batch `i` is ANCHORED exactly when one of its anchors is CONFIRMED with its commitment. */
  ghost predicate AnchoredIffConfirmed(a: Anchoring, w: World, i: nat)
    requires i < |w.batches|
  {
    w.batches[i].status == ANCHORED <==> exists k: nat :: k < |w.anchors| && ConfirmsBatch(a, w, k, i)
  }

  predicate SequencesDistinct(batches: seq<Batch>) {
    forall i: nat :: i < |batches| ==> batches[i].sequence == i + 1
  }

  ghost predicate AnchorsOk(a: Anchoring, w: World) {
    && SequencesDistinct(w.batches)
    && (forall k: nat :: k < |w.anchors| ==> RowOk(a, w, k))
    && (forall k: nat, l: nat :: k < l < |w.anchors| ==> NotBothLive(w.anchors, k, l))
    && (forall i: nat :: i < |w.batches| ==> AnchoredIffConfirmed(a, w, i))
  }

  lemma SameKeySameBatch(a: Anchoring, w: World, k: nat, i: nat)
    requires AnchorsOk(a, w) && k < |w.anchors| && i < |w.batches| && w.anchors[k].key == AnchorKey(w.batches[i])
    ensures w.anchors[k].batch == i
  {
    assert RowOk(a, w, k);
    KeyDeterminesSequence(w.batches[w.anchors[k].batch], w.batches[i]);
  }

  /** At most one row of a key is live, so any live row is the one that is found. */
  lemma LiveIsUnique(a: Anchoring, w: World, k: nat)
    requires AnchorsOk(a, w) && k < |w.anchors| && w.anchors[k].status != SUPERSEDED
    ensures Live(w.anchors, w.anchors[k].key) == Some(k)
  {
    var l := Live(w.anchors, w.anchors[k].key).value;
    assert l < k ==> NotBothLive(w.anchors, l, k);
    assert k < l ==> NotBothLive(w.anchors, k, l);
  }

  /** Re-anchoring a batch with a live, unfailed anchor returns that anchor and changes nothing. */
  lemma ReanchorReturnsExisting(a: Anchoring, w: World, k: nat)
    requires AnchorsOk(a, w) && k < |w.anchors| && w.anchors[k].status !in {SUPERSEDED, AnchorStatus.FAILED}
    ensures w.anchors[k].batch < |w.batches|
    ensures Anchored(a, w, w.anchors[k].batch) == w && AnchorIndex(w, w.anchors[k].batch) == k
  {
    assert RowOk(a, w, k);
    LiveIsUnique(a, w, k);
  }

  lemma AnchorKeepsRows(a: Anchoring, w: World, i: nat)
    requires AnchorsOk(a, w) && i < |w.batches|
    ensures var v := Anchored(a, w, i);
            && (forall k: nat :: k < |v.anchors| ==> RowOk(a, v, k))
            && (forall k: nat, l: nat :: k < l < |v.anchors| ==> NotBothLive(v.anchors, k, l))
  {
    var v := Anchored(a, w, i);
    forall k: nat | k < |v.anchors|
      ensures RowOk(a, v, k)
    {
      if k < |w.anchors| {
        assert RowOk(a, w, k);
      }
    }
    forall k: nat, l: nat | k < l < |v.anchors|
      ensures NotBothLive(v.anchors, k, l)
    {
      if l < |w.anchors| {
        assert NotBothLive(w.anchors, k, l);
      } else if w.anchors[k].key == AnchorKey(w.batches[i]) && w.anchors[k].status != SUPERSEDED {
        LiveIsUnique(a, w, k);
      }
    }
  }

  lemma AnchorKeepsStatus(a: Anchoring, w: World, i: nat, b: nat)
    requires AnchorsOk(a, w) && i < |w.batches| && b < |w.batches|
    ensures AnchoredIffConfirmed(a, Anchored(a, w, i), b)
  {
    var v := Anchored(a, w, i);
    assert AnchoredIffConfirmed(a, w, b);
    if k: nat :| k < |w.anchors| && ConfirmsBatch(a, w, k, b) {
      assert ConfirmsBatch(a, v, k, b);
    }
    if k: nat :| k < |v.anchors| && ConfirmsBatch(a, v, k, b) {
      assert k < |w.anchors| && ConfirmsBatch(a, w, k, b);
    }
  }

  lemma AnchorKeepsOk(a: Anchoring, w: World, i: nat)
    requires AnchorsOk(a, w) && i < |w.batches|
    ensures AnchorsOk(a, Anchored(a, w, i))
  {
    AnchorKeepsRows(a, w, i);
    forall b: nat | b < |w.batches|
      ensures AnchoredIffConfirmed(a, Anchored(a, w, i), b)
    {
      AnchorKeepsStatus(a, w, i, b);
    }
  }

  lemma ConfirmKeepsRows(a: Anchoring, w: World, k: nat, now: string)
    requires AnchorsOk(a, w) && k < |w.anchors| && w.anchors[k].batch < |w.batches| && now != ""
    ensures var v := Confirmed(a, w, k, now);
            && SequencesDistinct(v.batches)
            && (forall l: nat :: l < |v.anchors| ==> RowOk(a, v, l))
            && (forall l: nat, m: nat :: l < m < |v.anchors| ==> NotBothLive(v.anchors, l, m))
  {
    var v := Confirmed(a, w, k, now);
    forall l: nat | l < |v.anchors|
      ensures RowOk(a, v, l)
    {
      assert RowOk(a, w, l);
    }
    forall l: nat, m: nat | l < m < |v.anchors|
      ensures NotBothLive(v.anchors, l, m)
    {
      assert NotBothLive(w.anchors, l, m);
    }
  }

  lemma ConfirmKeepsStatus(a: Anchoring, w: World, k: nat, now: string, b: nat)
    requires AnchorsOk(a, w) && k < |w.anchors| && w.anchors[k].batch < |w.batches| && b < |w.batches|
    ensures AnchoredIffConfirmed(a, Confirmed(a, w, k, now), b)
  {
    var v := Confirmed(a, w, k, now);
    assert AnchoredIffConfirmed(a, w, b) && RowOk(a, w, k);
    if l: nat :| l < |w.anchors| && ConfirmsBatch(a, w, l, b) {
      assert ConfirmsBatch(a, v, l, b);
    }
    if l: nat :| l < |v.anchors| && ConfirmsBatch(a, v, l, b) {
      assert l == k || ConfirmsBatch(a, w, l, b);
      assert v.batches[b].status == ANCHORED;
    }
    if v.batches[b].status == ANCHORED && w.batches[b].status != ANCHORED {
      assert ConfirmsBatch(a, v, k, b);
    }
  }

  lemma ConfirmKeepsOk(a: Anchoring, w: World, k: nat, now: string)
    requires AnchorsOk(a, w) && k < |w.anchors| && w.anchors[k].batch < |w.batches| && now != ""
    ensures AnchorsOk(a, Confirmed(a, w, k, now))
  {
    ConfirmKeepsRows(a, w, k, now);
    forall b: nat | b < |w.batches|
      ensures AnchoredIffConfirmed(a, Confirmed(a, w, k, now), b)
    {
      ConfirmKeepsStatus(a, w, k, now, b);
    }
  }

  /** A newly sealed batch joins without an anchor. */
  lemma SealKeepsOk(a: Anchoring, w: World, b: Batch)
    requires AnchorsOk(a, w) && b.sequence == |w.batches| + 1 && b.status == BatchStatus.SEALED
    ensures AnchorsOk(a, w.(batches := w.batches + [b]))
  {
    var v := w.(batches := w.batches + [b]);
    forall k: nat | k < |v.anchors|
      ensures RowOk(a, v, k)
    {
      assert RowOk(a, w, k);
    }
    forall i: nat | i < |v.batches|
      ensures AnchoredIffConfirmed(a, v, i)
    {
      if i < |w.batches| {
        assert AnchoredIffConfirmed(a, w, i);
        if k: nat :| k < |w.anchors| && ConfirmsBatch(a, w, k, i) {
          assert ConfirmsBatch(a, v, k, i);
        }
        if k: nat :| k < |v.anchors| && ConfirmsBatch(a, v, k, i) {
          assert ConfirmsBatch(a, w, k, i);
        }
      } else {
        forall k: nat | k < |v.anchors|
          ensures !ConfirmsBatch(a, v, k, i)
        {
          assert RowOk(a, w, k);
        }
      }
    }
  }
}
