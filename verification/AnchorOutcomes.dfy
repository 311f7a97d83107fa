/**
 How an anchor comes about: submission and retry, the polls that confirm it, and a whole run at whose end the
 journal is verified.
 */
module AnchorOutcomes {
  import opened Common
  import opened Json
  import opened Journals
  import opened Canonical
  import opened Ledger
  import opened ProofBatches
  import opened LedgerRuns
  import opened BatchChain
  import opened Anchors
  import opened ProofVerification
  import opened ProofTheorems
  import opened BadSignatures

  // ----- submission

  predicate HasKey(store: seq<Entry>, key: string) {
    exists i :: 0 <= i < |store| && store[i].key == key
  }

  lemma {:induction false} FindKeyIff(store: seq<Entry>, key: string)
    ensures FindKey(store, key).Some? <==> HasKey(store, key)
    ensures FindKey(store, key).Some? ==>
              exists i :: 0 <= i < |store| && store[i].key == key && store[i].reference == FindKey(store, key).value
  {
    if store != [] {
      FindKeyIff(store[1..], key);
      assert forall i :: 0 <= i < |store[1..]| ==> store[1..][i] == store[i + 1];
    }
  }

  lemma {:induction false} FindReferenceIff(store: seq<Entry>, reference: string)
    ensures FindReference(store, reference).None? <==> forall i :: 0 <= i < |store| ==> store[i].reference != reference
    ensures FindReference(store, reference).Some? ==>
              forall i :: 0 <= i < FindReference(store, reference).value ==> store[i].reference != reference
  {
    if store != [] {
      FindReferenceIff(store[1..], reference);
      assert forall i :: 0 <= i < |store[1..]| ==> store[1..][i] == store[i + 1];
    }
  }

  /** The provider has filed the commitment of batch `b` under the row's reference, and polled it `polls` times. */
  predicate Filed(a: Anchoring, store: seq<Entry>, reference: string, b: Batch, polls: nat) {
    var found := FindReference(store, reference);
    && found.Some? && store[found.value].commitment == CommitmentOf(a, b)
    && store[found.value].polls == polls && store[found.value].confirmed == (polls >= 2)
  }

  /**
   Anchoring a batch whose key the provider does not know, with no live anchor or a failed one: the new row is
   submitted and its commitment filed, unless the provider fails, and then it is failed and can be tried again.
   */
  lemma SubmissionOutcome(a: Anchoring, w: World, i: nat)
    requires i < |w.batches| && !HasKey(w.provider.store, AnchorKey(w.batches[i]))
    requires var live := Live(w.anchors, AnchorKey(w.batches[i]));
             live.None? || w.anchors[live.value].status == AnchorStatus.FAILED
    ensures var v, b, k := Anchored(a, w, i), w.batches[i], |w.anchors|;
            && AnchorIndex(w, i) == k && |v.anchors| == k + 1 && v.batches == w.batches && !v.provider.failNext
            && v.anchors[k].batch == i && v.anchors[k].key == AnchorKey(b) && v.anchors[k].commitment == CommitmentOf(a, b)
            && (forall l :: 0 <= l < k ==>
                  v.anchors[l] == if Live(w.anchors, AnchorKey(b)) == Some(l) then w.anchors[l].(status := SUPERSEDED) else w.anchors[l])
            && (w.provider.failNext ==> v.anchors[k].status == AnchorStatus.FAILED && v.provider.store == w.provider.store)
            && (!w.provider.failNext ==>
                  v.anchors[k].status == SUBMITTED && Filed(a, v.provider.store, v.anchors[k].reference, b, 0))
  {
    var b := w.batches[i];
    FindKeyIff(w.provider.store, AnchorKey(b));
    if !w.provider.failNext {
      PutIsFound(w.provider.store, Entry((a.reference)(ContentOfBatch(b)), CommitmentOf(a, b), AnchorKey(b), false, 0));
    }
  }

  lemma {:induction false} PutIsFound(store: seq<Entry>, e: Entry)
    ensures var found := FindReference(Put(store, e), e.reference); found.Some? && Put(store, e)[found.value] == e
  {
    if store != [] && store[0].reference != e.reference {
      PutIsFound(store[1..], e);
      assert Put(store, e)[1..] == Put(store[1..], e);
    } else if store != [] {
      assert Put(store, e)[0] == e;
    } else {
      assert Put(store, e) == [e];
    }
  }

  /** A provider that knows the key is asked again in vain: it files nothing new and gives the reference it filed. */
  lemma ResubmissionOutcome(a: Anchoring, p: Provider, b: Batch)
    requires !p.failNext && HasKey(p.store, AnchorKey(b))
    ensures var r := Submit(a, p, b);
            && r.0 == p && r.1.Some?
            && exists i :: 0 <= i < |p.store| && p.store[i].key == AnchorKey(b) && p.store[i].reference == r.1.value
  {
    FindKeyIff(p.store, AnchorKey(b));
  }

  // ----- polling

  predicate Pollable(w: World, k: nat) {
    k < |w.anchors| && w.anchors[k].batch < |w.batches| && w.anchors[k].status in {SUBMITTED, CONFIRMING}
  }

  /** The first poll of a filed commitment leaves the anchor submitted and its batch as it was. */
  lemma FirstPollWaits(a: Anchoring, w: World, k: nat, now: string)
    requires Pollable(w, k) && Filed(a, w.provider.store, w.anchors[k].reference, w.batches[w.anchors[k].batch], 0)
    ensures var v := Confirmed(a, w, k, now);
            && v.batches == w.batches && v.anchors == w.anchors[k := w.anchors[k].(status := SUBMITTED)]
            && Filed(a, v.provider.store, w.anchors[k].reference, w.batches[w.anchors[k].batch], 1)
  {
    var found := FindReference(w.provider.store, w.anchors[k].reference).value;
    RefiledIsFound(w.provider.store, w.anchors[k].reference, Polled(w.provider.store[found]));
  }

  lemma {:induction false} RefiledIsFound(store: seq<Entry>, reference: string, e: Entry)
    requires FindReference(store, reference).Some? && e.reference == reference
    ensures FindReference(store[FindReference(store, reference).value := e], reference) == FindReference(store, reference)
  {
    var i := FindReference(store, reference).value;
    if i > 0 {
      assert store[i := e][1..] == store[1..][i - 1 := e];
      RefiledIsFound(store[1..], reference, e);
    }
  }

  /** The second confirms it at the time of the poll, and anchors its batch and no other. */
  lemma SecondPollConfirms(a: Anchoring, w: World, k: nat, now: string)
    requires Pollable(w, k) && Filed(a, w.provider.store, w.anchors[k].reference, w.batches[w.anchors[k].batch], 1)
    ensures var v, i := Confirmed(a, w, k, now), w.anchors[k].batch;
            && v.anchors == w.anchors[k := w.anchors[k].(status := CONFIRMED, confirmedAt := now)]
            && v.batches == w.batches[i := w.batches[i].(status := ANCHORED)]
            && Filed(a, v.provider.store, w.anchors[k].reference, w.batches[i], 2)
  {
    var found := FindReference(w.provider.store, w.anchors[k].reference).value;
    RefiledIsFound(w.provider.store, w.anchors[k].reference, Polled(w.provider.store[found]));
  }

  /** A commitment that is not the batch's own is never confirmed: the poll that would do it fails the anchor. */
  lemma ForeignCommitmentFails(a: Anchoring, w: World, k: nat, now: string)
    requires Pollable(w, k) && FindReference(w.provider.store, w.anchors[k].reference).Some?
    requires var e := w.provider.store[FindReference(w.provider.store, w.anchors[k].reference).value];
             e.polls >= 1 && e.commitment != CommitmentOf(a, w.batches[w.anchors[k].batch])
    ensures var v := Confirmed(a, w, k, now);
            v.batches == w.batches && v.anchors == w.anchors[k := w.anchors[k].(status := AnchorStatus.FAILED)]
  {
  }

  /** A row that is not waiting, or whose reference the provider has forgotten, stays as it is. */
  lemma NothingToPoll(a: Anchoring, w: World, k: nat, now: string)
    requires k < |w.anchors| && w.anchors[k].batch < |w.batches|
    requires !Pollable(w, k) || forall i :: 0 <= i < |w.provider.store| ==> w.provider.store[i].reference != w.anchors[k].reference
    ensures Confirmed(a, w, k, now) == w
  {
    FindReferenceIff(w.provider.store, w.anchors[k].reference);
  }

  // ----- from posting to a verified journal

  const NOON := "2026-01-02T12:00:00+00:00"

  const ANCHORING: seq<Event> := [AnchorBatch(0), ConfirmAnchor(0, NOON), ConfirmAnchor(0, NOON)]

  lemma {:induction false} EventsThen(c: Sealing, a: Anchoring, s: System, first: seq<Event>, more: seq<Event>)
    ensures AfterEvents(c, a, s, first + more) == AfterEvents(c, a, AfterEvents(c, a, s, first), more)
    decreases |first|
  {
    hide Happens, Possible;
    if first == [] {
      assert first + more == more;
    } else {
      assert (first + more)[1..] == first[1..] + more;
      EventsThen(c, a, Next(c, a, s, first[0]), first[1..], more);
    }
  }

  lemma ThreeEvents(c: Sealing, a: Anchoring, s: System)
    ensures AfterEvents(c, a, s, ANCHORING) == Next(c, a, Next(c, a, Next(c, a, s, ANCHORING[0]), ANCHORING[1]), ANCHORING[2])
  {
    hide Happens, Possible;
    var s1 := Next(c, a, s, ANCHORING[0]);
    var s2 := Next(c, a, s1, ANCHORING[1]);
    assert ANCHORING[1..][1..] == [ANCHORING[2]] && [ANCHORING[2]][1..] == [];
    assert AfterEvents(c, a, s2, [ANCHORING[2]]) == Next(c, a, s2, ANCHORING[2]);
    assert AfterEvents(c, a, s1, ANCHORING[1..]) == AfterEvents(c, a, s2, ANCHORING[1..][1..]);
  }

  /** A batch that is sealed, submitted to a provider without memory and polled twice is anchored. */
  lemma TwoPollsAnchor(c: Sealing, a: Anchoring, s: System)
    requires |s.ledger.batches| == 1 && s.anchors == [] && s.provider == Provider([], false)
    ensures var v := AfterEvents(c, a, s, ANCHORING);
            && v.ledger == s.ledger.(batches := [s.ledger.batches[0].(status := ANCHORED)])
            && |v.anchors| == 1 && v.anchors[0].status == CONFIRMED && v.anchors[0].confirmedAt == NOON
  {
    ThreeEvents(c, a, s);
    SubmissionOutcome(a, WorldOf(s), 0);
    hide AfterEvents, Anchored, Confirmed, Filed, HasKey, CommitmentOf, AnchorKey;
    var s1 := Next(c, a, s, ANCHORING[0]);
    FirstPollWaits(a, WorldOf(s1), 0, NOON);
    var s2 := Next(c, a, s1, ANCHORING[1]);
    SecondPollConfirms(a, WorldOf(s2), 0, NOON);
  }

  /** Post a journal, seal it, anchor the batch and poll twice: the journal's verdict is Verified. */
  lemma VerifiedInTheEnd(c: Sealing, a: Anchoring)
    ensures VerdictOf(c, a, DatabaseOf(AfterEvents(c, a, Genesis, OneSealedJournal() + ANCHORING)), "JRN-1") == Verified
  {
    OneSealedJournalRun(c, a);
    var s := AfterEvents(c, a, Genesis, OneSealedJournal());
    EventsThen(c, a, Genesis, OneSealedJournal(), ANCHORING);
    TwoPollsAnchor(c, a, s);
    var events := OneSealedJournal() + ANCHORING;
    HonestVerdict(c, a, events, 0);
    ReachableSystemOk(c, a, events);
    OnlyBatchFound(c, AfterEvents(c, a, Genesis, events).ledger);
    hide *;
  }

  lemma OnlyBatchFound(c: Sealing, s: State)
    requires LedgerOk(c, s) && |s.book.journals| > 0 && |s.batches| == 1 && s.batches[0].count > 0
    ensures FindBatch(s.batches, s.book.journals[0].id) == Some(s.batches[0])
  {
    assert s.batches[..0] == [];
    FoundBatch(c, s, 0, 0);
  }
}
