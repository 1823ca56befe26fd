/** `Counter(labels).most_common(3)`: the labels with the highest counts,
    highest first, equal counts in order of first occurrence.

    `Counter` keeps its keys in first-occurrence order (`FirstOccurrences`)
    and `most_common(n)` sorts them stably by count, highest first, and
    keeps the first `n`. `TopK` does the same by repeated selection: it
    takes the earliest label with the highest count (`BestIndex`) and
    continues with the rest. `Before` is the order the result follows. */
module Ranking {

  /** `Counter(xs)[x]`. */
  function Count<T(==)>(xs: seq<T>, x: T): nat {
    multiset(xs)[x]
  }

  /** The position of the first occurrence of `x` in `xs`. */
  function FirstIndex<T(==)>(xs: seq<T>, x: T): (r: nat)
    requires x in xs
    ensures r < |xs| && xs[r] == x && x !in xs[..r]
  {
    if xs[0] == x then 0
    else
      var r := 1 + FirstIndex(xs[1..], x);
      assert xs[..r] == [xs[0]] + xs[1..][..r - 1];
      r
  }

  /** `a` is ranked before `b`: a higher count, or the same count and an
      earlier first occurrence. */
  ghost predicate Before<T>(xs: seq<T>, a: T, b: T)
    requires a in xs && b in xs
  {
    Count(xs, a) > Count(xs, b) ||
    (Count(xs, a) == Count(xs, b) && FirstIndex(xs, a) < FirstIndex(xs, b))
  }

  /** Labels of `xs` listed in strictly increasing order of first occurrence. */
  ghost predicate InOccurrenceOrder<T>(xs: seq<T>, cands: seq<T>) {
    && (forall c :: c in cands ==> c in xs)
    && (forall a, b :: 0 <= a < b < |cands| ==>
          FirstIndex(xs, cands[a]) < FirstIndex(xs, cands[b]))
  }

  /** The keys of `Counter(xs)`, in insertion order. */
  function FirstOccurrences<T(==)>(xs: seq<T>): seq<T> {
    if xs == [] then []
    else
      var init := FirstOccurrences(xs[..|xs| - 1]);
      if xs[|xs| - 1] in xs[..|xs| - 1] then init else init + [xs[|xs| - 1]]
  }

  /** The first occurrence is the only position holding `x` with no `x` before it. */
  lemma FirstIndexUnique<T>(xs: seq<T>, x: T, r: nat)
    requires r < |xs| && xs[r] == x && x !in xs[..r]
    ensures FirstIndex(xs, x) == r
  {
    var f := FirstIndex(xs, x);
    assert forall k :: 0 <= k < r ==> xs[..r][k] == xs[k];
    assert forall k :: 0 <= k < f ==> xs[..f][k] == xs[k];
  }

  lemma FirstIndexOfPrefix<T>(p: seq<T>, y: T, x: T)
    requires x in p
    ensures FirstIndex(p + [y], x) == FirstIndex(p, x)
  {
    var r := FirstIndex(p, x);
    assert (p + [y])[..r] == p[..r];
    FirstIndexUnique(p + [y], x, r);
  }

  /** The keys of the counter are exactly the labels, each once, in order
      of first occurrence. */
  lemma {:induction false} FirstOccurrencesSpec<T>(xs: seq<T>)
    ensures forall x :: x in FirstOccurrences(xs) <==> x in xs
    ensures InOccurrenceOrder(xs, FirstOccurrences(xs))
  {
    if xs != [] {
      var p, y := xs[..|xs| - 1], xs[|xs| - 1];
      assert xs == p + [y];
      FirstOccurrencesSpec(p);
      var init := FirstOccurrences(p);
      forall c | c in init ensures FirstIndex(xs, c) == FirstIndex(p, c) {
        FirstIndexOfPrefix(p, y, c);
      }
      if y !in p {
        assert FirstIndex(xs, y) == |p| by {
          assert xs[..|p|] == p;
        }
      }
    }
  }

  /** The earliest candidate with the highest count. */
  function BestIndex<T(==)>(xs: seq<T>, cands: seq<T>): (k: nat)
    requires |cands| > 0
    ensures k < |cands|
    ensures forall i :: 0 <= i < |cands| ==> Count(xs, cands[i]) <= Count(xs, cands[k])
    ensures forall i :: 0 <= i < k ==> Count(xs, cands[i]) < Count(xs, cands[k])
  {
    if |cands| == 1 then 0
    else
      var k := 1 + BestIndex(xs, cands[1..]);
      if Count(xs, cands[0]) >= Count(xs, cands[k]) then 0 else k
  }

  /** The first `k` candidates in ranking order. */
  function TopK<T(==)>(xs: seq<T>, cands: seq<T>, k: nat): seq<T>
    decreases k
  {
    if k == 0 || |cands| == 0 then []
    else
      var b := BestIndex(xs, cands);
      [cands[b]] + TopK(xs, cands[..b] + cands[b + 1..], k - 1)
  }

  /** Removing the candidate at `b` keeps the others, in occurrence order. */
  lemma RemoveAt<T>(xs: seq<T>, cands: seq<T>, b: nat)
    requires InOccurrenceOrder(xs, cands) && b < |cands|
    ensures InOccurrenceOrder(xs, cands[..b] + cands[b + 1..])
    ensures forall c :: c in cands[..b] + cands[b + 1..] <==> c in cands && c != cands[b]
  {
    var rest := cands[..b] + cands[b + 1..];
    forall i | 0 <= i < |rest|
      ensures rest[i] == if i < b then cands[i] else cands[i + 1]
    {
    }
    forall c | c in cands && c != cands[b] ensures c in rest {
      var j :| 0 <= j < |cands| && cands[j] == c;
      if j < b { assert rest[j] == c; } else { assert rest[j - 1] == c; }
    }
  }

  /** The selected candidate ranks before every other candidate. */
  lemma BestIsFirst<T>(xs: seq<T>, cands: seq<T>)
    requires InOccurrenceOrder(xs, cands) && |cands| > 0
    ensures var b := BestIndex(xs, cands);
      forall c :: c in cands && c != cands[b] ==> Before(xs, cands[b], c)
  {
  }

  /** `r` holds distinct labels of `xs` in strictly decreasing rank. */
  ghost predicate Ranked<T>(xs: seq<T>, r: seq<T>) {
    forall a, b :: 0 <= a < b < |r| ==>
      r[a] in xs && r[b] in xs && r[a] != r[b] && Before(xs, r[a], r[b])
  }

  /** `c` ranks after every label of `r`. */
  ghost predicate RanksBelowAll<T>(xs: seq<T>, r: seq<T>, c: T) {
    forall a :: 0 <= a < |r| ==> r[a] in xs && c in xs && Before(xs, r[a], c)
  }

  /** Every candidate that `r` leaves out ranks after every label of `r`. */
  ghost predicate LeftOutRankLower<T>(xs: seq<T>, r: seq<T>, cands: seq<T>) {
    forall c :: c in cands && c !in r ==> RanksBelowAll(xs, r, c)
  }

  /** Putting a label that ranks before all of `rest` in front of a ranked
      selection from `rest` keeps it ranked, and keeps what is left out below it. */
  lemma ConsBest<T>(xs: seq<T>, best: T, rest: seq<T>, r': seq<T>)
    requires best in xs && forall c :: c in rest ==> c in xs && c != best && Before(xs, best, c)
    requires forall x :: x in r' ==> x in rest
    requires Ranked(xs, r') && LeftOutRankLower(xs, r', rest)
    ensures Ranked(xs, [best] + r')
    ensures LeftOutRankLower(xs, [best] + r', rest)
  {
    var r := [best] + r';
    forall i, j | 0 <= i < j < |r|
      ensures r[i] in xs && r[j] in xs && r[i] != r[j] && Before(xs, r[i], r[j])
    {
      if i == 0 {
        assert r[j] == r'[j - 1] && r[j] in rest;
      } else {
        assert r[i] == r'[i - 1] && r[j] == r'[j - 1];
      }
    }
    forall c | c in rest && c !in r ensures RanksBelowAll(xs, r, c) {
      assert RanksBelowAll(xs, r', c);
      forall a | 0 <= a < |r| ensures r[a] in xs && c in xs && Before(xs, r[a], c) {
        if a > 0 { assert r[a] == r'[a - 1]; }
      }
    }
  }

  /** `TopK` returns the `k` best candidates, distinct and ranked, and no
      candidate it leaves out ranks before one it returns. */
  lemma {:induction false} TopKSpec<T>(xs: seq<T>, cands: seq<T>, k: nat)
    requires InOccurrenceOrder(xs, cands)
    ensures var r := TopK(xs, cands, k);
      && |r| == (if k < |cands| then k else |cands|)
      && (forall x :: x in r ==> x in cands)
      && Ranked(xs, r)
      && LeftOutRankLower(xs, r, cands)
    decreases k
  {
    if k != 0 && |cands| != 0 {
      var b := BestIndex(xs, cands);
      var best := cands[b];
      var rest := cands[..b] + cands[b + 1..];
      RemoveAt(xs, cands, b);
      TopKSpec(xs, rest, k - 1);
      BestIsFirst(xs, cands);
      var r' := TopK(xs, rest, k - 1);
      ConsBest(xs, best, rest, r');
      var r := TopK(xs, cands, k);
      assert r == [best] + r';
      forall c | c in cands && c !in r ensures RanksBelowAll(xs, r, c) {
        assert c in rest;
      }
    }
  }

  /** `[o for o, _ in Counter(xs).most_common(3)]`. */
  function MostCommon3<T(==)>(xs: seq<T>): seq<T> {
    TopK(xs, FirstOccurrences(xs), 3)
  }

  /** What `most_common(3)` promises: at most three labels, each once, all
      drawn from `xs`, by non-increasing count with ties in first-occurrence
      order; fewer than three only when `xs` has fewer distinct labels; and
      no label left out ranks before one that is kept. */
  lemma MostCommon3Spec<T>(xs: seq<T>)
    ensures var r := MostCommon3(xs);
      && |r| <= 3
      && (|r| < 3 ==> forall x :: x in xs ==> x in r)
      && (forall x :: x in r ==> x in xs)
      && (forall a, b :: 0 <= a < b < |r| ==> r[a] != r[b] && Before(xs, r[a], r[b]))
      && (forall x, a :: x in xs && x !in r && 0 <= a < |r| ==> Before(xs, r[a], x))
  {
    FirstOccurrencesSpec(xs);
    TopKSpec(xs, FirstOccurrences(xs), 3);
    var r := MostCommon3(xs);
    assert Ranked(xs, r);
    assert LeftOutRankLower(xs, r, FirstOccurrences(xs));
  }
}
