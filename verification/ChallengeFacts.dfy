/**
 What an accepted digest says about the facts of an operation. The joined text puts a bar between facts and
 the values may contain bars, so the question is which issued facts are still bound by it.
 */
module ChallengeFacts {
  import opened Common
  import opened Challenges

  /** The same keys in the same order, as when an operation is resumed with the facts it was issued for. */
  predicate SameKeys(a: seq<Fact>, b: seq<Fact>) {
    |a| == |b| && forall i :: 0 <= i < |a| ==> a[i].key == b[i].key
  }

  predicate BarFreeKeys(facts: seq<Fact>) {
    forall i :: 0 <= i < |facts| ==> '|' !in facts[i].key
  }

  /** How the joined text introduces a fact that is not the first. */
  function Intro(f: Fact): string {
    "|" + f.key + "="
  }

  predicate OccursAt(t: string, s: string, n: nat) {
    n + |t| <= |s| && s[n..n + |t|] == t
  }

  ghost predicate Occurs(t: string, s: string) {
    exists n: nat :: OccursAt(t, s, n)
  }

  /** The introduction of fact `i` also occurs inside its own value or inside the value before it. */
  ghost predicate AmbiguousAt(facts: seq<Fact>, i: nat) {
    0 < i < |facts| && (Occurs(Intro(facts[i]), facts[i - 1].value) || Occurs(Intro(facts[i]), facts[i].value))
  }

  ghost predicate Ambiguous(facts: seq<Fact>) {
    exists i: nat :: AmbiguousAt(facts, i)
  }

  // ----- the text after the first key

  function Rest(facts: seq<Fact>): string
    requires facts != []
    decreases |facts|, 0
  {
    facts[0].value + Following(facts[1..])
  }

  function Following(facts: seq<Fact>): string
    decreases |facts|, 1
  {
    if facts == [] then "" else Intro(facts[0]) + Rest(facts)
  }

  lemma {:induction false} JoinedIsRest(facts: seq<Fact>)
    requires facts != []
    ensures Joined(facts) == facts[0].key + "=" + Rest(facts)
  {
    if |facts| > 1 {
      JoinedIsRest(facts[1..]);
      assert Following(facts[1..]) == "|" + Joined(facts[1..]);
    } else {
      assert facts[1..] == [];
    }
  }

  lemma TailKeys(a: seq<Fact>, b: seq<Fact>)
    requires SameKeys(a, b) && BarFreeKeys(a) && a != []
    ensures SameKeys(a[1..], b[1..]) && BarFreeKeys(a[1..])
  {
    forall i | 0 <= i < |a[1..]|
      ensures a[1..][i].key == b[1..][i].key && '|' !in a[1..][i].key
    {
      assert a[i + 1].key == b[i + 1].key;
    }
  }

  lemma SingleFact(a: seq<Fact>, b: seq<Fact>)
    requires |a| == 1 && SameKeys(a, b) && Rest(a) == Rest(b)
    ensures a == b
  {
    assert a[1..] == [] && b[1..] == [];
    assert Rest(a) == a[0].value && Rest(b) == b[0].value;
    assert a[0] == b[0];
  }

  // ----- one text, two readings

  /** `t` begins with its only bar. Where it occurs in a text, that text has no other bar. */
  predicate OneBar(t: string) {
    |t| > 1 && t[0] == '|' && forall i :: 0 < i < |t| ==> t[i] != '|'
  }

  lemma IntroHasOneBar(f: Fact)
    requires '|' !in f.key
    ensures OneBar(Intro(f))
  {
    var t := Intro(f);
    forall i | 0 < i < |t|
      ensures t[i] != '|'
    {
      assert i <= |f.key| ==> t[i] == f.key[i - 1];
      assert i > |f.key| ==> t[i] == '=';
    }
  }

  /** Two readings of a text: `x` then a bar, and `d` then `t`. Either `t` lies inside `x`, or it starts no earlier than the bar. */
  lemma NoOverlap(x: string, y: string, d: string, t: string, z: string)
    requires OneBar(t) && x + y == d + t + z && y != "" && y[0] == '|'
    ensures |d| >= |x| || OccursAt(t, x, |d|)
  {
    var s := x + y;
    assert s[|x|] == '|';
    assert s[|d|..|d| + |t|] == t;
    assert |d| + |t| <= |x| ==> s[|d|..|d| + |t|] == x[|d|..|d| + |t|];
  }

  /** Cutting a common prefix of two readings. */
  lemma CutPrefix(x: string, y: string, d: string, z: string)
    requires x + y == d + z && |x| <= |d|
    ensures d == x + d[|x|..] && y == d[|x|..] + z
  {
    var s := x + y;
    assert s[|x|..] == y && s[..|x|] == x;
    assert (d + z)[|x|..] == d[|x|..] + z && (d + z)[..|x|] == d[..|x|];
  }

  /**
   The other reading of the text lags behind by `d` and the introduction of `x[0]`. Then somewhere from here on an
   introduction lies inside its own value.
   */
  lemma {:induction false} LaterOccurs(x: seq<Fact>, y: seq<Fact>, d: string) returns (i: nat)
    requires x != [] && SameKeys(x, y) && BarFreeKeys(x)
    requires Rest(x) == d + Intro(x[0]) + Rest(y)
    ensures i < |x| && Occurs(Intro(x[i]), x[i].value)
    decreases |x|, 0
  {
    var t := Intro(x[0]);
    IntroHasOneBar(x[0]);
    if |x| == 1 {
      assert x[1..] == [] && Rest(x) == x[0].value;
      assert OccursAt(t, x[0].value, |d|);
      i := 0;
    } else {
      var u := Intro(x[1]);
      TailKeys(x, y);
      assert x[1..][0] == x[1] && y[1..][0] == y[1];
      NoOverlap(x[0].value, Following(x[1..]), d, t, Rest(y));
      if OccursAt(t, x[0].value, |d|) {
        i := 0;
      } else {
        var e := d + t + y[0].value;
        assert e + Following(y[1..]) == d + t + Rest(y);
        CutPrefix(x[0].value, Following(x[1..]), e, Following(y[1..]));
        var f := e[|x[0].value|..];
        assert |f| >= |t| > 0;
        i := StepLater(x[1..], y[1..], f);
        i := i + 1;
      }
    }
  }

  /** The same, before the introduction that `x` and `y` share. */
  lemma {:induction false} StepLater(x: seq<Fact>, y: seq<Fact>, f: string) returns (i: nat)
    requires x != [] && SameKeys(x, y) && BarFreeKeys(x)
    requires f != "" && Following(x) == f + Following(y)
    ensures i < |x| && Occurs(Intro(x[i]), x[i].value)
    decreases |x|, 1
  {
    var t := Intro(x[0]);
    IntroHasOneBar(x[0]);
    assert Intro(y[0]) == t;
    assert |f| >= |t| by {
      assert Following(x)[|f|] == Following(y)[0] == '|';
      assert Following(x)[..|t|] == t;
    }
    CutPrefix(t, Rest(x), f, Following(y));
    i := LaterOccurs(x, y, f[|t|..]);
  }

  /** The first value of the other reading is shorter: the next introduction lies inside the issued one. */
  lemma EarlierOccurs(a: seq<Fact>, b: seq<Fact>)
    requires |a| > 1 && SameKeys(a, b) && BarFreeKeys(a) && Rest(a) == Rest(b) && |b[0].value| < |a[0].value|
    ensures AmbiguousAt(a, 1)
  {
    var t := Intro(a[1]);
    IntroHasOneBar(a[1]);
    assert a[1..][0] == a[1] && b[1..][0] == b[1] && Intro(b[1]) == t;
    assert Rest(b) == b[0].value + t + Rest(b[1..]);
    NoOverlap(a[0].value, Following(a[1..]), b[0].value, t, Rest(b[1..]));
  }

  /** The first value is at least as long: what follows it in the two readings, shifted by `f`. */
  lemma FirstValueLonger(a: seq<Fact>, b: seq<Fact>) returns (f: string)
    requires |a| > 1 && SameKeys(a, b) && Rest(a) == Rest(b) && |a[0].value| <= |b[0].value|
    ensures b[0].value == a[0].value + f && Following(a[1..]) == f + Following(b[1..])
  {
    CutPrefix(a[0].value, Following(a[1..]), b[0].value, Following(b[1..]));
    f := b[0].value[|a[0].value|..];
  }

  lemma SameFollowing(x: seq<Fact>, y: seq<Fact>)
    requires x != [] && SameKeys(x, y) && Following(x) == Following(y)
    ensures Rest(x) == Rest(y)
  {
    assert Following(x)[|Intro(x[0])|..] == Rest(x) && Following(y)[|Intro(y[0])|..] == Rest(y);
  }

  lemma FromTail(a: seq<Fact>, i: nat)
    requires |a| > 1
    ensures AmbiguousAt(a[1..], i) ==> AmbiguousAt(a, i + 1)
    ensures i < |a| - 1 && Occurs(Intro(a[1..][i]), a[1..][i].value) ==> AmbiguousAt(a, i + 1)
  {
    assert i < |a| - 1 ==> a[1..][i] == a[i + 1];
    assert 0 < i < |a| - 1 ==> a[1..][i - 1] == a[i];
  }

  /** Different facts with one text: the first that differ show where the issued ones are ambiguous. */
  lemma {:induction false} OtherReadingIsAmbiguous(a: seq<Fact>, b: seq<Fact>) returns (i: nat)
    requires a != [] && SameKeys(a, b) && BarFreeKeys(a) && Rest(a) == Rest(b) && a != b
    ensures AmbiguousAt(a, i)
    decreases |a|
  {
    if |a| == 1 {
      SingleFact(a, b);
      assert false;
    } else if |b[0].value| < |a[0].value| {
      EarlierOccurs(a, b);
      i := 1;
    } else {
      var f := FirstValueLonger(a, b);
      TailKeys(a, b);
      hide Rest, Following, Occurs;
      if f == "" {
        SameFollowing(a[1..], b[1..]);
        assert a[0] == b[0] && a == [a[0]] + a[1..] && b == [b[0]] + b[1..];
        i := OtherReadingIsAmbiguous(a[1..], b[1..]);
      } else {
        i := StepLater(a[1..], b[1..], f);
      }
      FromTail(a, i);
      i := i + 1;
    }
  }

  // ----- moving a separator

  /** Where an introduction occurs, the text splits around it. */
  lemma SplitAt(t: string, s: string) returns (x: string, y: string)
    requires Occurs(t, s)
    ensures s == x + t + y
  {
    var n: nat :| OccursAt(t, s, n);
    x, y := s[..n], s[n + |t|..];
    assert s == s[..n] + s[n..n + |t|] + s[n + |t|..];
  }

  lemma RestOfTwo(a: seq<Fact>)
    requires |a| > 1
    ensures Rest(a) == (a[0].value + Intro(a[1]) + a[1].value) + Following(a[2..])
  {
    var tail := a[1..];
    assert tail[0] == a[1] && tail[1..] == a[2..];
    assert Rest(tail) == a[1].value + Following(a[2..]);
    assert Following(tail) == Intro(a[1]) + Rest(tail);
    Regroup(a[0].value, Intro(a[1]), a[1].value, Following(a[2..]));
  }

  lemma Regroup(v: string, t: string, w: string, u: string)
    ensures v + (t + (w + u)) == (v + t + w) + u
  {
  }

  /** Two values that read the same around the introduction between them. */
  lemma {:induction false} SameText(a: seq<Fact>, i: nat, v: string, w: string)
    requires 0 < i < |a|
    requires v + Intro(a[i]) + w == a[i - 1].value + Intro(a[i]) + a[i].value
    ensures var b := a[i - 1 := Fact(a[i - 1].key, v)][i := Fact(a[i].key, w)];
            SameKeys(a, b) && Rest(b) == Rest(a)
  {
    var b := a[i - 1 := Fact(a[i - 1].key, v)][i := Fact(a[i].key, w)];
    if i == 1 {
      RestOfTwo(a);
      RestOfTwo(b);
      assert a[2..] == b[2..];
    } else {
      assert a[1..][i - 1] == a[i] && a[1..][i - 2] == a[i - 1];
      assert b[1..] == a[1..][i - 2 := Fact(a[i - 1].key, v)][i - 1 := Fact(a[i].key, w)];
      SameText(a[1..], i - 1, v, w);
      assert b[1..][0].key == a[1..][0].key;
    }
  }

  /** An ambiguous list shares its text with another: the separator moves to where it also occurs. */
  lemma AmbiguousHasTwin(a: seq<Fact>, i: nat) returns (b: seq<Fact>)
    requires AmbiguousAt(a, i)
    ensures SameKeys(a, b) && b != a && Joined(b) == Joined(a)
  {
    var t := Intro(a[i]);
    var v, w: string;
    if Occurs(t, a[i - 1].value) {
      var x, y := SplitAt(t, a[i - 1].value);
      v, w := x, y + t + a[i].value;
      assert v + t + w == a[i - 1].value + t + a[i].value;
      assert |v| < |a[i - 1].value|;
    } else {
      var x, y := SplitAt(t, a[i].value);
      v, w := a[i - 1].value + t + x, y;
      assert v + t + w == a[i - 1].value + t + a[i].value;
      assert |w| < |a[i].value|;
    }
    SameText(a, i, v, w);
    b := a[i - 1 := Fact(a[i - 1].key, v)][i := Fact(a[i].key, w)];
    assert b[i].value == w && b[i - 1].value == v;
    JoinedIsRest(a);
    JoinedIsRest(b);
  }

  /** The shortest case: a value that swallows the next key. */
  lemma BarsMixFacts(sha: Sha, k: string, l: string, x: string, y: string, z: string)
    ensures var a, b := [Fact(k, x + "|" + l + "=" + y), Fact(l, z)], [Fact(k, x), Fact(l, y + "|" + l + "=" + z)];
            a != b && FactsDigest(sha, a) == FactsDigest(sha, b)
  {
    var a, b := [Fact(k, x + "|" + l + "=" + y), Fact(l, z)], [Fact(k, x), Fact(l, y + "|" + l + "=" + z)];
    assert a[1..] == [Fact(l, z)] && b[1..] == [Fact(l, y + "|" + l + "=" + z)];
    assert Joined(a) == k + "=" + (x + "|" + l + "=" + y) + "|" + (l + "=" + z);
    assert Joined(b) == k + "=" + x + "|" + (l + "=" + (y + "|" + l + "=" + z));
    assert Joined(a) == Joined(b);
    assert |a[0].value| > |b[0].value|;
  }

  // ----- the theorem

  /** Facts with these keys that hash to the issued digest are the issued facts, or there is a collision. */
  ghost predicate DigestBinds(sha: Sha, issued: seq<Fact>) {
    forall facts :: SameKeys(issued, facts) ==> Bound(sha, issued, facts)
  }

  ghost predicate Bound(sha: Sha, issued: seq<Fact>, facts: seq<Fact>) {
    FactsDigest(sha, issued) == FactsDigest(sha, facts) && CollisionFree(sha, {Joined(issued), Joined(facts)}) ==> facts == issued
  }

  /**
   The digest of issued facts binds exactly them, among facts with the same keys, if and only if they are not
   ambiguous: no value contains the introduction of the next fact, and none but the first that of its own.
   A challenge's issuer can check that alone, whatever is presented later.
   */
  lemma DigestBindsIffUnambiguous(sha: Sha, issued: seq<Fact>)
    requires BarFreeKeys(issued)
    ensures DigestBinds(sha, issued) <==> !Ambiguous(issued)
  {
    if Ambiguous(issued) {
      var i: nat :| AmbiguousAt(issued, i);
      var twin := AmbiguousHasTwin(issued, i);
      assert !Bound(sha, issued, twin);
    } else {
      forall facts | SameKeys(issued, facts)
        ensures Bound(sha, issued, facts)
      {
        UnambiguousBinds(sha, issued, facts);
      }
    }
  }

  lemma UnambiguousBinds(sha: Sha, issued: seq<Fact>, facts: seq<Fact>)
    requires BarFreeKeys(issued) && SameKeys(issued, facts) && !Ambiguous(issued)
    ensures Bound(sha, issued, facts)
  {
    var texts := {Joined(issued), Joined(facts)};
    if FactsDigest(sha, issued) == FactsDigest(sha, facts) && CollisionFree(sha, texts) && issued != facts {
      SameDigest(sha, texts, Joined(issued), Joined(facts));
      JoinedIsRest(issued);
      JoinedIsRest(facts);
      var n := |issued[0].key| + 1;
      assert Joined(issued)[n..] == Rest(issued) && Joined(facts)[n..] == Rest(facts);
      var i := OtherReadingIsAmbiguous(issued, facts);
    }
  }

  /**
   The keys have to be the issued ones. `attempt` takes them from the client, who may send any of them: with
   two facts or more, the first key alone can carry the text of them all.
   */
  lemma FewerKeysCollide(sha: Sha, issued: seq<Fact>)
    requires |issued| > 1
    ensures var one := [Fact(issued[0].key, Rest(issued))];
            one != issued && FactsDigest(sha, one) == FactsDigest(sha, issued)
  {
    var one := [Fact(issued[0].key, Rest(issued))];
    JoinedIsRest(issued);
  }

  /** A purchase of 5 on card 7, and what its amount alone can be made to say. */
  lemma CardFactsExample(sha: Sha)
    ensures FactsDigest(sha, [Fact("amount", "5|card=7")]) == FactsDigest(sha, [Fact("amount", "5"), Fact("card", "7")])
  {
    var issued := [Fact("amount", "5"), Fact("card", "7")];
    assert issued[1..] == [Fact("card", "7")] && issued[1..][1..] == [];
    assert Rest(issued) == "5|card=7";
    FewerKeysCollide(sha, issued);
  }

  // ----- the material of a consumed challenge

  /**
   No facts have the digest that a consumed challenge is left with, and different operations leave different
   ones, unless two of the texts collide: what was consumed cannot be presented again.
   */
  lemma ConsumedMaterialIsSpent(sha: Sha, facts: seq<Fact>, reference: string, other: string)
    requires BarFreeKeys(facts) && CollisionFree(sha, {Joined(facts), "consumed|" + reference, "consumed|" + other})
    ensures FactsDigest(sha, facts) != ConsumedMaterial(sha, reference)
    ensures ConsumedMaterial(sha, other) == ConsumedMaterial(sha, reference) ==> other == reference
  {
    var used, again := "consumed|" + reference, "consumed|" + other;
    if facts != [] {
      JoinedIsRest(facts);
      var text, k := Joined(facts), facts[0].key;
      assert text[..|k|] == k && text[|k|] == '=';
      assert used[8] == '|' && forall i :: 0 <= i < 9 ==> used[i] != '=';
      assert text != used;
    }
    assert used[9..] == reference && again[9..] == other;
  }
}
