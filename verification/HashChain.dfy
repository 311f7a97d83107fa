/**
 The command that re-verifies the journal hash chain, and what its acceptance proves about the
 stored journals.
 */
module HashChain {
  import opened Common
  import opened Journals
  import opened Canonical

  function Before(rows: seq<Journal>, i: nat): string
    requires i <= |rows|
  {
    if i == 0 then GENESIS else rows[i - 1].chainHash
  }

  /** Row `i` carries its own payload hash, its predecessor's chain hash, and the hash of the two. */
  predicate LinkedAt(h: Hashing, rows: seq<Journal>, i: nat)
    requires i < |rows|
  {
    && rows[i].payloadHash == PayloadHash(h, rows[i])
    && rows[i].previousHash == Before(rows, i)
    && rows[i].chainHash == ChainHash(h, rows[i].previousHash, rows[i].payloadHash)
  }

  predicate ChainValid(h: Hashing, rows: seq<Journal>) {
    forall i: nat :: i < |rows| ==> LinkedAt(h, rows, i)
  }

  /** Row `i` is the first that does not link. */
  predicate FirstBad(h: Hashing, rows: seq<Journal>, i: nat) {
    i < |rows| && !LinkedAt(h, rows, i) && forall k: nat :: k < i ==> LinkedAt(h, rows, k)
  }

  function PostedRows(table: seq<Journal>): seq<Journal> {
    Select(table, (j: Journal) => j.status == POSTED)
  }

  datatype ChainProblem = PayloadHashDiffers | PreviousHashDiffers | ChainHashDiffers

  function RowProblems(h: Hashing, previous: string, j: Journal): (r: seq<ChainProblem>)
    ensures r == [] <==>
              && j.payloadHash == PayloadHash(h, j) && j.previousHash == previous
              && j.chainHash == ChainHash(h, j.previousHash, j.payloadHash)
  {
    (if j.payloadHash != PayloadHash(h, j) then [PayloadHashDiffers] else [])
    + (if j.previousHash != previous then [PreviousHashDiffers] else [])
    + (if j.chainHash != ChainHash(h, j.previousHash, j.payloadHash) then [ChainHashDiffers] else [])
  }

  /**
   `verify_ledger_hash_chain`: walk the posted rows, stop at the first with a problem. The verdict is
   VALID exactly when the whole chain is, and otherwise the position reported is the first bad one.
   */
  method VerifyHashChain(h: Hashing, table: seq<Journal>)
    returns (checked: nat, failures: nat, problems: seq<ChainProblem>)
    ensures failures == 0 <==> ChainValid(h, PostedRows(table))
    ensures failures == 0 ==> checked == |PostedRows(table)| && problems == []
    ensures failures != 0 ==>
              failures == 1 && checked > 0 && problems != [] && FirstBad(h, PostedRows(table), checked - 1)
  {
    var rows := PostedRows(table);
    var previous := GENESIS;
    failures, checked, problems := 0, 0, [];
    for k := 0 to |rows|
      invariant failures == 0 && problems == [] && checked == k && previous == Before(rows, k)
      invariant forall i: nat :: i < k ==> LinkedAt(h, rows, i)
    {
      var j := rows[k];
      checked := checked + 1;
      problems := RowProblems(h, previous, j);
      if problems != [] {
        failures := failures + 1;
        assert !LinkedAt(h, rows, k);
        return;
      }
      assert LinkedAt(h, rows, k);
      previous := j.chainHash;
    }
  }

  // ----- tamper evidence

  /** The strings hashed to check the chain. */
  function ChainQueries(h: Hashing, rows: seq<Journal>): set<string> {
    if rows == [] then {}
    else
      var last := rows[|rows| - 1];
      ChainQueries(h, rows[..|rows| - 1]) + {h.entryText(last), ChainPreimage(last.previousHash, last.payloadHash)}
  }

  /** No string that was hashed has the all-zero digest that stands for the empty chain. */
  ghost predicate NoGenesisPreimage(h: Hashing, queries: set<string>) {
    forall x :: x in queries ==> h.sha(x) != GENESIS
  }

  lemma {:induction false} QueriesOfRow(h: Hashing, rows: seq<Journal>, i: nat)
    requires i < |rows|
    ensures h.entryText(rows[i]) in ChainQueries(h, rows)
    ensures ChainPreimage(rows[i].previousHash, rows[i].payloadHash) in ChainQueries(h, rows)
    decreases |rows|
  {
    if i < |rows| - 1 {
      QueriesOfRow(h, rows[..|rows| - 1], i);
    }
  }

  lemma ChainValidPrefix(h: Hashing, rows: seq<Journal>, n: nat)
    requires ChainValid(h, rows) && n <= |rows|
    ensures ChainValid(h, rows[..n])
  {
    forall i: nat | i < n
      ensures LinkedAt(h, rows[..n], i)
    {
      assert LinkedAt(h, rows, i);
      assert i > 0 ==> rows[..n][i - 1] == rows[i - 1];
    }
  }

  /** Two rows with one chain hash have one predecessor hash, one payload hash and one content. */
  lemma SameChainHash(h: Hashing, q: set<string>, a: seq<Journal>, i: nat, b: seq<Journal>, k: nat)
    requires CollisionFree(h.sha, q) && ChainQueries(h, a) <= q && ChainQueries(h, b) <= q
    requires i < |a| && k < |b| && LinkedAt(h, a, i) && LinkedAt(h, b, k)
    requires a[i].chainHash == b[k].chainHash
    ensures a[i].previousHash == b[k].previousHash && a[i].payloadHash == b[k].payloadHash
    ensures ContentOf(a[i]) == ContentOf(b[k])
  {
    QueriesOfRow(h, a, i);
    QueriesOfRow(h, b, k);
    SameDigest(h.sha, q, ChainPreimage(a[i].previousHash, a[i].payloadHash),
                       ChainPreimage(b[k].previousHash, b[k].payloadHash));
    ChainPreimageInjective(a[i].previousHash, a[i].payloadHash, b[k].previousHash, b[k].payloadHash);
    SameDigest(h.sha, q, h.entryText(a[i]), h.entryText(b[k]));
    SameEntryText(h, a[i], b[k]);
  }

  predicate SameRecord(a: Journal, b: Journal) {
    && ContentOf(a) == ContentOf(b)
    && a.payloadHash == b.payloadHash && a.previousHash == b.previousHash && a.chainHash == b.chainHash
  }

  ghost predicate SameHistory(a: seq<Journal>, b: seq<Journal>) {
    |a| == |b| && forall i :: 0 <= i < |a| ==> SameRecord(a[i], b[i])
  }

  lemma SameHistoryExtends(a: seq<Journal>, b: seq<Journal>)
    requires |a| > 0 && |b| > 0 && SameHistory(a[..|a| - 1], b[..|b| - 1])
    requires SameRecord(a[|a| - 1], b[|b| - 1])
    ensures SameHistory(a, b)
  {
    forall i | 0 <= i < |a|
      ensures SameRecord(a[i], b[i])
    {
      if i < |a| - 1 {
        assert SameRecord(a[..|a| - 1][i], b[..|b| - 1][i]);
      }
    }
  }

  /**
   Tamper evidence. Two tables that both pass the verifier and end in the same chain hash record the
   same history, journal by journal. Nothing is assumed of either beyond that the strings hashed in
   checking them do not collide and, if the lengths differ, that none hashes to the genesis value.
   */
  lemma {:induction false} SameTipSameHistory(h: Hashing, q: set<string>, a: seq<Journal>, b: seq<Journal>)
    requires ChainQueries(h, a) <= q && ChainQueries(h, b) <= q
    requires CollisionFree(h.sha, q) && (|a| == |b| || NoGenesisPreimage(h, q))
    requires ChainValid(h, a) && ChainValid(h, b)
    requires Before(a, |a|) == Before(b, |b|)
    ensures SameHistory(a, b)
    decreases |a|
  {
    if a != [] && b == [] {
      TipIsNotGenesis(h, q, a);
    }
    if b != [] && a == [] {
      TipIsNotGenesis(h, q, b);
    }
    if a != [] && b != [] {
      var n, m := |a| - 1, |b| - 1;
      assert LinkedAt(h, a, n) && LinkedAt(h, b, m);
      SameChainHash(h, q, a, n, b, m);
      ChainValidPrefix(h, a, n);
      ChainValidPrefix(h, b, m);
      SameTipSameHistory(h, q, a[..n], b[..m]);
      SameHistoryExtends(a, b);
    }
  }

  lemma TipIsNotGenesis(h: Hashing, q: set<string>, rows: seq<Journal>)
    requires rows != [] && ChainQueries(h, rows) <= q && NoGenesisPreimage(h, q) && ChainValid(h, rows)
    ensures Before(rows, |rows|) != GENESIS
  {
    assert LinkedAt(h, rows, |rows| - 1);
    QueriesOfRow(h, rows, |rows| - 1);
  }

  /**
   Localisation. If the accounting content of one row of a valid table is changed behind its stored
   hashes, the verifier stops at exactly that row.
   */
  lemma TamperedRowIsLocated(h: Hashing, rows: seq<Journal>, i: nat, tampered: Journal)
    requires ChainValid(h, rows) && i < |rows|
    requires tampered.payloadHash == rows[i].payloadHash && tampered.previousHash == rows[i].previousHash
    requires tampered.chainHash == rows[i].chainHash
    requires ContentOf(tampered) != ContentOf(rows[i])
    requires CollisionFree(h.sha, {h.entryText(rows[i]), h.entryText(tampered)})
    ensures FirstBad(h, rows[i := tampered], i)
  {
    assert LinkedAt(h, rows, i);
    SameEntryText(h, rows[i], tampered);
    var changed := rows[i := tampered];
    forall k: nat | k < i
      ensures LinkedAt(h, changed, k)
    {
      assert LinkedAt(h, rows, k);
    }
  }
}
