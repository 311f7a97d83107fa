/**
 The guards on updates of a journal row: the comparison that the model's own `save` makes, and the one of
 the database trigger. What they protect, and what they leave open.
 */
module JournalGuard {
  import opened Common
  import opened Journals
  import opened Canonical
  import opened HashChain
  import Ledger

  datatype Field = REFERENCE | DESCRIPTION | STATUS | POSTED_AT | REVERSES

  /** The guarded fields in which a save differs from the stored row. */
  function Changed(stored: Journal, row: Journal): set<Field> {
    (if stored.reference != row.reference then {REFERENCE} else {})
    + (if stored.description != row.description then {DESCRIPTION} else {})
    + (if stored.status != row.status then {STATUS} else {})
    + (if stored.postedAt != row.postedAt then {POSTED_AT} else {})
    + (if stored.reverses != row.reverses then {REVERSES} else {})
  }

  /** `JournalEntry.save`: a posted row may only have its reversal link set. */
  predicate SaveAllowed(stored: Journal, row: Journal) {
    stored.status == POSTED ==> Changed(stored, row) == {REVERSES} && row.status == POSTED
  }

  /** The trigger on the table, which sees every update. */
  predicate TriggerAllows(stored: Journal, row: Journal) {
    stored.status == POSTED ==>
      && row.reference == stored.reference && row.description == stored.description
      && row.status == stored.status && row.postedAt == stored.postedAt && row.currency == stored.currency
  }

  /** An update of one row; its entries are rows of another table, frozen once the journal is posted. */
  predicate Accepted(stored: Journal, row: Journal) {
    row.id == stored.id && row.lines == stored.lines && SaveAllowed(stored, row) && TriggerAllows(stored, row)
  }

  class JournalTable {
    var rows: seq<Journal>

    constructor (rows: seq<Journal>)
      ensures this.rows == rows
    {
      this.rows := rows;
    }

    method Save(i: nat, row: Journal) returns (ok: bool)
      requires i < |rows| && row.id == rows[i].id && row.lines == rows[i].lines
      modifies this
      ensures ok <==> Accepted(old(rows)[i], row)
      ensures rows == if ok then old(rows)[i := row] else old(rows)
    {
      var stored := rows[i];
      if stored.status == POSTED {
        var changed := Changed(stored, row);
        if changed != {REVERSES} || row.status != POSTED {
          return false;
        }
        if row.currency != stored.currency {
          assert !TriggerAllows(stored, row);
          return false;
        }
        assert REFERENCE !in changed && DESCRIPTION !in changed && STATUS !in changed && POSTED_AT !in changed;
      }
      rows := rows[i := row];
      ok := true;
    }

    /** `delete` always refuses. */
    method Delete(i: nat) returns (ok: bool)
      requires i < |rows|
      ensures !ok && rows == old(rows)
    {
      ok := false;
    }
  }

  /** Over any accepted updates a posted row keeps what it says: its canonical content and its entries. */
  predicate KeepsContent(stored: Journal, row: Journal) {
    stored.status == POSTED ==>
      row.status == POSTED && row.lines == stored.lines && ContentOf(row) == ContentOf(stored) && row.description == stored.description
  }

  lemma AcceptedKeepsContent(stored: Journal, row: Journal)
    requires Accepted(stored, row)
    ensures KeepsContent(stored, row)
    ensures stored.status == POSTED ==> row.reverses != stored.reverses
  {
    if stored.status == POSTED {
      assert REVERSES in Changed(stored, row);
    }
  }

  datatype Update = Update(row: nat, value: Journal)

  function AfterUpdates(rows: seq<Journal>, updates: seq<Update>): seq<Journal>
    decreases |updates|
  {
    if updates == [] then rows
    else
      var u := updates[0];
      AfterUpdates(if u.row < |rows| && Accepted(rows[u.row], u.value) then rows[u.row := u.value] else rows, updates[1..])
  }

  lemma {:induction false} PostedContentForever(rows: seq<Journal>, updates: seq<Update>, i: nat)
    requires i < |rows|
    ensures i < |AfterUpdates(rows, updates)| && KeepsContent(rows[i], AfterUpdates(rows, updates)[i])
    decreases |updates|
  {
    if updates != [] {
      var u := updates[0];
      if u.row < |rows| && Accepted(rows[u.row], u.value) {
        AcceptedKeepsContent(rows[u.row], u.value);
        PostedContentForever(rows[u.row := u.value], updates[1..], i);
      } else {
        PostedContentForever(rows, updates[1..], i);
      }
    }
  }

  /**
   Neither guard looks at the three stored hashes. So an accepted update leaves a valid chain valid exactly
   when it happens to leave all three alone.
   */
  lemma ChainSurvivesIff(h: Hashing, rows: seq<Journal>, i: nat, row: Journal)
    requires ChainValid(h, rows) && i < |rows| && rows[i].status == POSTED && Accepted(rows[i], row)
    ensures ChainValid(h, rows[i := row]) <==>
              row.payloadHash == rows[i].payloadHash && row.previousHash == rows[i].previousHash && row.chainHash == rows[i].chainHash
  {
    var v := rows[i := row];
    AcceptedKeepsContent(rows[i], row);
    SameEntryText(h, rows[i], row);
    assert LinkedAt(h, rows, i);
    if ChainValid(h, v) {
      assert LinkedAt(h, v, i);
    } else if row.payloadHash == rows[i].payloadHash && row.previousHash == rows[i].previousHash && row.chainHash == rows[i].chainHash {
      forall k: nat | k < |v|
        ensures LinkedAt(h, v, k)
      {
        assert LinkedAt(h, rows, k);
      }
    }
  }

  /** The failing updates: on any posted row, set the link and write another chain hash beside it. */
  lemma LinkCanCarryAnotherHash(h: Hashing, rows: seq<Journal>, i: nat, link: Option<nat>, other: string)
    requires ChainValid(h, rows) && i < |rows| && rows[i].status == POSTED
    requires link != rows[i].reverses && other != rows[i].chainHash
    ensures var row := rows[i].(reverses := link, chainHash := other);
            Accepted(rows[i], row) && !ChainValid(h, rows[i := row])
  {
    var row := rows[i].(reverses := link, chainHash := other);
    assert Changed(rows[i], row) == {REVERSES};
    ChainSurvivesIff(h, rows, i, row);
  }

  /** One of them, on a table of a single journal. */
  lemma SingleRowInstance(h: Hashing)
    ensures var stored := Ledger.Chained(h, GENESIS, Journal(0, "J", "", "USD", POSTED, "2026", [], "", "", "", None));
            var row := stored.(reverses := Some(0), chainHash := "");
            ChainValid(h, [stored]) && Accepted(stored, row) && !ChainValid(h, [row])
  {
    var draft := Journal(0, "J", "", "USD", POSTED, "2026", [], "", "", "", None);
    var stored := Ledger.Chained(h, GENESIS, draft);
    SameEntryText(h, draft, stored);
    assert LinkedAt(h, [stored], 0);
    assert |stored.chainHash| == 64;
    LinkCanCarryAnotherHash(h, [stored], 0, Some(0), "");
    assert [stored][0 := stored.(reverses := Some(0), chainHash := "")] == [stored.(reverses := Some(0), chainHash := "")];
  }
}
