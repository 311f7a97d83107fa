/** Journals, their lines, and sums over lines. Amounts are whole cents. */
module Journals {
  import opened Common

  datatype EntrySide = DEBIT | CREDIT

  datatype Line = Line(account: string, side: EntrySide, amount: int)

  datatype JournalStatus = DRAFT | POSTED

  /**
   A journal row with its entries. A hash field that is null in the database is "" here (every use of
   these fields treats the two alike); so is the posting time of a draft. `postedAt` is ISO text.
   */
  datatype Journal = Journal(
    id: nat,
    reference: string,
    description: string,
    currency: string,
    status: JournalStatus,
    postedAt: string,
    lines: seq<Line>,
    payloadHash: string,
    previousHash: string,
    chainHash: string,
    reverses: Option<nat>)

  /** The rows of a table that a query selects, in the order of the table. */
  function Select<T>(rows: seq<T>, p: T -> bool): seq<T> {
    if rows == [] then []
    else if p(rows[0]) then [rows[0]] + Select(rows[1..], p)
    else Select(rows[1..], p)
  }

  lemma {:induction false} SelectAll<T>(rows: seq<T>, p: T -> bool)
    requires forall i :: 0 <= i < |rows| ==> p(rows[i])
    ensures Select(rows, p) == rows
  {
    if rows != [] {
      SelectAll(rows[1..], p);
      assert rows == [rows[0]] + rows[1..];
    }
  }

  /** Where exactly the rows at positions `n .. m` qualify, they are selected. */
  lemma {:induction false} SelectSlice<T>(rows: seq<T>, p: T -> bool, n: nat, m: nat)
    requires n <= m <= |rows|
    requires forall i :: 0 <= i < |rows| ==> (p(rows[i]) <==> n <= i < m)
    ensures Select(rows, p) == rows[n..m]
  {
    if rows != [] {
      var rest := rows[1..];
      assert forall i :: 0 <= i < |rest| ==> rest[i] == rows[i + 1];
      assert p(rows[0]) <==> n <= 0 < m;
      if n > 0 {
        SelectSlice(rest, p, n - 1, m - 1);
        assert rest[n - 1..m - 1] == rows[n..m];
      } else if m > 0 {
        SelectSlice(rest, p, 0, m - 1);
        assert [rows[0]] + rest[0..m - 1] == rows[0..m];
      } else {
        SelectSlice(rest, p, 0, 0);
      }
    }
  }

  lemma {:induction false} SelectIn<T>(rows: seq<T>, p: T -> bool, x: T)
    ensures x in Select(rows, p) <==> x in rows && p(x)
  {
    if rows != [] {
      SelectIn(rows[1..], p, x);
    }
  }

  lemma {:induction false} SelectSnoc<T>(rows: seq<T>, x: T, p: T -> bool)
    ensures Select(rows + [x], p) == Select(rows, p) + (if p(x) then [x] else [])
  {
    if rows == [] {
      assert rows + [x] == [x] && [x][1..] == [];
    } else {
      assert (rows + [x])[1..] == rows[1..] + [x];
      SelectSnoc(rows[1..], x, p);
    }
  }

  function SumSide(lines: seq<Line>, side: EntrySide): int {
    if lines == [] then 0
    else (if lines[0].side == side then lines[0].amount else 0) + SumSide(lines[1..], side)
  }

  lemma {:induction false} SumSideAppend(a: seq<Line>, b: seq<Line>, side: EntrySide)
    ensures SumSide(a + b, side) == SumSide(a, side) + SumSide(b, side)
  {
    if a == [] {
      assert a + b == b;
    } else {
      assert (a + b)[1..] == a[1..] + b;
      SumSideAppend(a[1..], b, side);
    }
  }

  lemma SumSideSnoc(lines: seq<Line>, l: Line, side: EntrySide)
    ensures SumSide(lines + [l], side) == SumSide(lines, side) + (if l.side == side then l.amount else 0)
  {
    SumSideAppend(lines, [l], side);
    assert [l][1..] == [];
  }
}

/**
 The canonical text of a posted journal and the two hashes built on it. The text does not depend on
 the order in which the lines are stored, and determines everything else that it covers.
 */
module Canonical {
  import opened Common
  import opened Json
  import opened Journals

  const DOMAIN_ENTRY := "BANKIO:LEDGER:ENTRY:V1"
  const DOMAIN_CHAIN := "BANKIO:LEDGER:CHAIN:V1"
  const CANONICALIZATION_VERSION := "ledger-c14n-v1"
  const HASH_ALGORITHM := "SHA-256"
  const PROOF_VERSION := "proof-v1"

  // ----- text of sides and amounts

  function SideText(side: EntrySide): string {
    if side == DEBIT then "DEBIT" else "CREDIT"
  }

  lemma SideTextInjective(a: EntrySide, b: EntrySide)
    requires SideText(a) == SideText(b)
    ensures a == b
  {
    assert SideText(a)[0] == SideText(b)[0];
  }

  /** An amount with exactly two decimals. */
  function AmountText(cents: int): string {
    if cents < 0 then ['-'] + PositiveText(-cents) else PositiveText(cents)
  }

  function PositiveText(cents: nat): string {
    Digits(cents / 100) + ['.', DigitChar(cents / 10 % 10), DigitChar(cents % 10)]
  }

  lemma PositiveTextInjective(a: nat, b: nat)
    requires PositiveText(a) == PositiveText(b)
    ensures a == b
  {
    var s, t := PositiveText(a), PositiveText(b);
    assert s[|s| - 1] == t[|t| - 1] && s[|s| - 2] == t[|t| - 2] && s[..|s| - 3] == t[..|t| - 3];
    DigitCharInjective(a % 10, b % 10);
    DigitCharInjective(a / 10 % 10, b / 10 % 10);
    assert s[..|s| - 3] == Digits(a / 100) && t[..|t| - 3] == Digits(b / 100);
    DigitsInjective(a / 100, b / 100);
    CentsFromDigits(a);
    CentsFromDigits(b);
  }

  lemma CentsFromDigits(n: nat)
    ensures n == 100 * (n / 100) + 10 * (n / 10 % 10) + n % 10
  {
    var tens := n / 10;
    assert n == 10 * tens + n % 10;
    assert tens == 10 * (tens / 10) + tens % 10;
    assert tens / 10 == n / 100;
  }

  lemma AmountTextInjective(a: int, b: int)
    requires AmountText(a) == AmountText(b)
    ensures a == b
  {
    DigitsAreDigits(if a < 0 then -a / 100 else a / 100);
    DigitsAreDigits(if b < 0 then -b / 100 else b / 100);
    assert (a < 0) == (AmountText(a)[0] == '-') && (b < 0) == (AmountText(b)[0] == '-');
    if a < 0 {
      assert AmountText(a)[1..] == PositiveText(-a) && AmountText(b)[1..] == PositiveText(-b);
      PositiveTextInjective(-a, -b);
    } else {
      PositiveTextInjective(a, b);
    }
  }

  // ----- the order of the lines

  /** Lexicographic order by code point, as Python compares strings. */
  predicate TextLeq(a: string, b: string) {
    a == "" || (b != "" && (a[0] < b[0] || (a[0] == b[0] && TextLeq(a[1..], b[1..]))))
  }

  lemma {:induction false} TextLeqTotal(a: string, b: string)
    ensures TextLeq(a, b) || TextLeq(b, a)
  {
    if a != "" && b != "" {
      TextLeqTotal(a[1..], b[1..]);
    }
  }

  lemma {:induction false} TextLeqAntisymmetric(a: string, b: string)
    requires TextLeq(a, b) && TextLeq(b, a)
    ensures a == b
  {
    if a != "" {
      TextLeqAntisymmetric(a[1..], b[1..]);
      assert a == [a[0]] + a[1..] && b == [b[0]] + b[1..];
    }
  }

  lemma {:induction false} TextLeqTransitive(a: string, b: string, c: string)
    requires TextLeq(a, b) && TextLeq(b, c)
    ensures TextLeq(a, c)
  {
    if a != "" && a[0] == b[0] == c[0] {
      TextLeqTransitive(a[1..], b[1..], c[1..]);
    }
  }

  /** The sort key is (account code, side, amount), all compared as text. */
  predicate LineLeq(a: Line, b: Line) {
    if a.account != b.account then TextLeq(a.account, b.account)
    else if a.side != b.side then TextLeq(SideText(a.side), SideText(b.side))
    else TextLeq(AmountText(a.amount), AmountText(b.amount))
  }

  lemma LineLeqOrder(a: Line, b: Line, c: Line)
    ensures LineLeq(a, b) || LineLeq(b, a)
    ensures LineLeq(a, b) && LineLeq(b, a) ==> a == b
    ensures LineLeq(a, b) && LineLeq(b, c) ==> LineLeq(a, c)
  {
    TextLeqTotal(a.account, b.account);
    TextLeqTotal(SideText(a.side), SideText(b.side));
    TextLeqTotal(AmountText(a.amount), AmountText(b.amount));
    if LineLeq(a, b) && LineLeq(b, a) {
      LineLeqAntisymmetric(a, b);
    }
    if LineLeq(a, b) && LineLeq(b, c) {
      LineLeqTransitive(a, b, c);
    }
  }

  lemma LineLeqAntisymmetric(a: Line, b: Line)
    requires LineLeq(a, b) && LineLeq(b, a)
    ensures a == b
  {
    if a.account != b.account {
      TextLeqAntisymmetric(a.account, b.account);
    } else if a.side != b.side {
      TextLeqAntisymmetric(SideText(a.side), SideText(b.side));
      SideTextInjective(a.side, b.side);
    } else {
      TextLeqAntisymmetric(AmountText(a.amount), AmountText(b.amount));
      AmountTextInjective(a.amount, b.amount);
    }
  }

  lemma LineLeqTransitive(a: Line, b: Line, c: Line)
    requires LineLeq(a, b) && LineLeq(b, c)
    ensures LineLeq(a, c)
  {
    if a.account != b.account || b.account != c.account {
      if a.account == c.account {
        TextLeqAntisymmetric(a.account, b.account);
      } else if a.account != b.account && b.account != c.account {
        TextLeqTransitive(a.account, b.account, c.account);
      }
    } else if a.side != b.side || b.side != c.side {
      if a.side == c.side {
        TextLeqAntisymmetric(SideText(a.side), SideText(b.side));
        SideTextInjective(a.side, b.side);
      }
    } else {
      TextLeqTransitive(AmountText(a.amount), AmountText(b.amount), AmountText(c.amount));
    }
  }

  predicate Ordered(lines: seq<Line>) {
    forall i, j :: 0 <= i < j < |lines| ==> LineLeq(lines[i], lines[j])
  }

  function Insert(l: Line, lines: seq<Line>): seq<Line> {
    if lines == [] then [l]
    else if LineLeq(l, lines[0]) then [l] + lines
    else [lines[0]] + Insert(l, lines[1..])
  }

  /** The lines in canonical order. */
  function SortLines(lines: seq<Line>): seq<Line> {
    if lines == [] then [] else Insert(lines[0], SortLines(lines[1..]))
  }

  lemma {:induction false} InsertKeeps(l: Line, lines: seq<Line>)
    ensures multiset(Insert(l, lines)) == multiset{l} + multiset(lines)
  {
    if lines != [] && !LineLeq(l, lines[0]) {
      InsertKeeps(l, lines[1..]);
      assert lines == [lines[0]] + lines[1..];
    }
  }

  lemma {:induction false} SortKeeps(lines: seq<Line>)
    ensures multiset(SortLines(lines)) == multiset(lines)
  {
    if lines != [] {
      SortKeeps(lines[1..]);
      InsertKeeps(lines[0], SortLines(lines[1..]));
      assert lines == [lines[0]] + lines[1..];
    }
  }

  lemma {:induction false} InsertOrdered(l: Line, lines: seq<Line>)
    requires Ordered(lines)
    ensures Ordered(Insert(l, lines))
  {
    if lines != [] {
      LineLeqOrder(l, lines[0], l);
      if LineLeq(l, lines[0]) {
        forall i | 0 <= i < |lines|
          ensures LineLeq(l, lines[i])
        {
          LineLeqOrder(l, lines[0], lines[i]);
        }
      } else {
        InsertOrdered(l, lines[1..]);
        InsertKeeps(l, lines[1..]);
        var rest := Insert(l, lines[1..]);
        forall i | 0 <= i < |rest|
          ensures LineLeq(lines[0], rest[i])
        {
          assert rest[i] in multiset(rest);
          assert rest[i] == l || rest[i] in lines[1..];
        }
      }
    }
  }

  lemma {:induction false} SortOrdered(lines: seq<Line>)
    ensures Ordered(SortLines(lines))
  {
    if lines != [] {
      SortOrdered(lines[1..]);
      InsertOrdered(lines[0], SortLines(lines[1..]));
    }
  }

  lemma {:induction false} OrderedUnique(a: seq<Line>, b: seq<Line>)
    requires Ordered(a) && Ordered(b) && multiset(a) == multiset(b)
    ensures a == b
  {
    assert |a| == |multiset(a)| == |multiset(b)| == |b|;
    if a != [] {
      assert a[0] in multiset(b) && b[0] in multiset(a);
      FirstIsLeast(a, b[0]);
      FirstIsLeast(b, a[0]);
      LineLeqAntisymmetric(a[0], b[0]);
      SameTails(a, b);
      OrderedUnique(a[1..], b[1..]);
      assert a == [a[0]] + a[1..] && b == [b[0]] + b[1..];
    }
  }

  lemma SameTails(a: seq<Line>, b: seq<Line>)
    requires |a| > 0 && |b| > 0 && a[0] == b[0] && multiset(a) == multiset(b)
    ensures multiset(a[1..]) == multiset(b[1..])
  {
    assert a == [a[0]] + a[1..] && b == [b[0]] + b[1..];
    assert multiset(a[1..]) == multiset(a) - multiset{a[0]} && multiset(b[1..]) == multiset(b) - multiset{b[0]};
  }

  lemma FirstIsLeast(a: seq<Line>, l: Line)
    requires Ordered(a) && l in a
    ensures LineLeq(a[0], l)
  {
    LineLeqOrder(l, l, l);
  }

  // ----- the canonical payload

  function PostingJson(l: Line): Json {
    Obj([Field("account_code", Str(l.account)), Field("amount", Str(AmountText(l.amount))), Field("side", Str(SideText(l.side)))])
  }

  function PostingsJson(lines: seq<Line>): (r: seq<Json>)
    ensures |r| == |lines|
  {
    if lines == [] then [] else [PostingJson(lines[0])] + PostingsJson(lines[1..])
  }

  function CanonicalPayload(j: Journal): Json {
    Obj([
      Field("currency", Str(j.currency)),
      Field("effective_at", if j.postedAt == "" then Null else Str(j.postedAt)),
      Field("journal_id", Num(j.id)),
      Field("postings", Arr(PostingsJson(SortLines(j.lines)))),
      Field("reference", Str(j.reference)),
      Field("schema_version", Str(CANONICALIZATION_VERSION)),
      Field("transaction_type", Str("JOURNAL"))])
  }

  /** The text that is hashed for a journal. */
  function CanonicalText(j: Journal): string {
    DOMAIN_ENTRY + "|" + Dumps(CanonicalPayload(j))
  }

  /** The accounting content of a journal: what the canonical text is meant to fix. */
  datatype Content = Content(id: nat, reference: string, postedAt: string, currency: string, lines: multiset<Line>)

  function ContentOf(j: Journal): Content {
    Content(j.id, j.reference, j.postedAt, j.currency, multiset(j.lines))
  }

  lemma PostingJsonInjective(a: Line, b: Line)
    requires PostingJson(a) == PostingJson(b)
    ensures a == b
  {
    var f, g := PostingJson(a).fields, PostingJson(b).fields;
    assert f[0].value == g[0].value && f[1].value == g[1].value && f[2].value == g[2].value;
    AmountTextInjective(a.amount, b.amount);
    SideTextInjective(a.side, b.side);
  }

  lemma {:induction false} PostingsJsonInjective(a: seq<Line>, b: seq<Line>)
    requires PostingsJson(a) == PostingsJson(b)
    ensures a == b
  {
    if a != [] && b != [] {
      var x, y := PostingsJson(a), PostingsJson(b);
      assert x[0] == y[0] && x[1..] == y[1..];
      PostingJsonInjective(a[0], b[0]);
      PostingsJsonInjective(a[1..], b[1..]);
      assert a == [a[0]] + a[1..] && b == [b[0]] + b[1..];
    } else {
      assert |a| == |b|;
    }
  }

  /**
   Equal texts, equal content, and conversely: the canonical text is a complete and
   order-independent description of a journal's accounting content.
   */
  lemma CanonicalTextDeterminesContent(a: Journal, b: Journal)
    ensures CanonicalText(a) == CanonicalText(b) <==> ContentOf(a) == ContentOf(b)
  {
    if ContentOf(a) == ContentOf(b) {
      SortOrdered(a.lines);
      SortOrdered(b.lines);
      SortKeeps(a.lines);
      SortKeeps(b.lines);
      OrderedUnique(SortLines(a.lines), SortLines(b.lines));
    }
    if CanonicalText(a) == CanonicalText(b) {
      var p := DOMAIN_ENTRY + "|";
      assert Dumps(CanonicalPayload(a)) == CanonicalText(a)[|p|..];
      assert Dumps(CanonicalPayload(b)) == CanonicalText(b)[|p|..];
      DumpsInjective(CanonicalPayload(a), CanonicalPayload(b));
      PayloadDeterminesContent(a, b);
    }
  }

  lemma PayloadDeterminesContent(a: Journal, b: Journal)
    requires CanonicalPayload(a) == CanonicalPayload(b)
    ensures ContentOf(a) == ContentOf(b)
  {
    var f, g := CanonicalPayload(a).fields, CanonicalPayload(b).fields;
    assert f[0].value == g[0].value && f[1].value == g[1].value && f[2].value == g[2].value;
    assert f[3].value == g[3].value && f[4].value == g[4].value;
    PostingsJsonInjective(SortLines(a.lines), SortLines(b.lines));
    SortKeeps(a.lines);
    SortKeeps(b.lines);
  }

  /** The one fact about the canonical text that everything above it relies on. */
  ghost predicate DescribesContent(text: Journal -> string) {
    forall a, b :: text(a) == text(b) <==> ContentOf(a) == ContentOf(b)
  }

  lemma CanonicalTextDescribesContent()
    ensures DescribesContent(CanonicalText)
  {
    forall a, b
      ensures CanonicalText(a) == CanonicalText(b) <==> ContentOf(a) == ContentOf(b)
    {
      CanonicalTextDeterminesContent(a, b);
    }
  }

  /** The texts that can stand for `CanonicalText`, which is one of them. */
  type EntryText = text: Journal -> string | DescribesContent(text)
    witness (CanonicalTextDescribesContent(); CanonicalText)

  /** The hash function, and the text of a journal that it is fed. */
  datatype Hashing = Hashing(sha: Sha, entryText: EntryText)

  function PayloadHash(h: Hashing, j: Journal): Digest {
    h.sha(h.entryText(j))
  }

  function ChainPreimage(previous: string, payload: string): string {
    DOMAIN_CHAIN + "|" + previous + "|" + payload
  }

  function ChainHash(h: Hashing, previous: string, payload: string): Digest {
    h.sha(ChainPreimage(previous, payload))
  }

  lemma SameEntryText(h: Hashing, a: Journal, b: Journal)
    ensures h.entryText(a) == h.entryText(b) <==> ContentOf(a) == ContentOf(b)
  {
    assert DescribesContent(h.entryText);
  }

  /** The chain preimage splits when one of its two parts has the length of a digest on both sides. */
  lemma ChainPreimageInjective(a: string, b: string, c: string, d: string)
    requires ChainPreimage(a, b) == ChainPreimage(c, d)
    requires |a| == |c| || |b| == |d|
    ensures a == c && b == d
  {
    var p := DOMAIN_CHAIN + "|";
    var s, t := a + ("|" + b), c + ("|" + d);
    assert ChainPreimage(a, b) == p + s && ChainPreimage(c, d) == p + t;
    assert s == (p + s)[|p|..] && t == (p + t)[|p|..];
    assert |a| == |c|;
    assert a == s[..|a|] && c == t[..|a|];
    assert b == s[|a| + 1..] && d == t[|a| + 1..];
  }
}
