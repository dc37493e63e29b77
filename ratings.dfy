/** Rating arithmetic shared by the course page and the review form: a missing rating counts as 0,
    ratings are summed with `reduce`, and the mean divides by the count. Ratings are reals. */
module Ratings {
  import opened Wrappers
  import opened Seqs

  /** `rating || 0`: a missing rating counts as 0. */
  function OrZero(r: Option<real>): real {
    r.GetOr(0.0)
  }

  /** `ratings.reduce((sum, r) => sum + (r || 0), 0)`, folded from the left. */
  function Sum(rs: seq<Option<real>>): real
    decreases |rs|
  {
    if rs == [] then 0.0 else Sum(rs[..|rs| - 1]) + OrZero(rs[|rs| - 1])
  }

  /** A rating within the 0 to 5 scale of the review form; a missing one counts as 0. */
  predicate InScale(r: Option<real>) {
    r.None? || 0.0 <= r.value <= 5.0
  }

  predicate AllInScale(rs: seq<Option<real>>) {
    forall i :: 0 <= i < |rs| ==> InScale(rs[i])
  }

  /** Adding one rating at the end adds its value to the sum. */
  lemma SumSnoc(rs: seq<Option<real>>, r: Option<real>)
    ensures Sum(rs + [r]) == Sum(rs) + OrZero(r)
  {
    assert (rs + [r])[..|rs|] == rs;
  }

  /** The sum of a concatenation is the sum of the parts. */
  lemma {:induction false} SumConcat(a: seq<Option<real>>, b: seq<Option<real>>)
    ensures Sum(a + b) == Sum(a) + Sum(b)
    decreases |b|
  {
    if b == [] {
      assert a + b == a;
    } else {
      var c, x := b[..|b| - 1], b[|b| - 1];
      SumConcat(a, c);
      assert a + b == (a + c) + [x];
      SumSnoc(a + c, x);
      assert b == c + [x];
      SumSnoc(c, x);
    }
  }

  /** The sum of three consecutive parts. */
  lemma SumThree(a: seq<Option<real>>, b: seq<Option<real>>, c: seq<Option<real>>)
    ensures Sum(a + (b + c)) == Sum(a) + Sum(b) + Sum(c)
  {
    SumConcat(a, b + c);
    SumConcat(b, c);
  }

  /** The sum of one rating is its value. */
  lemma SumSingle(r: Option<real>)
    ensures Sum([r]) == OrZero(r)
  {
    assert [r][..0] == [];
  }

  /** Taking one rating out of the list takes its value out of the sum. */
  lemma SumRemove(a: seq<Option<real>>, i: nat)
    requires i < |a|
    ensures Sum(a) == Sum(a[..i] + a[i + 1..]) + OrZero(a[i])
  {
    SliceParts(a, i, i + 1);
    assert a[i..i + 1] == [a[i]];
    SumThree(a[..i], [a[i]], a[i + 1..]);
    SumSingle(a[i]);
    SumConcat(a[..i], a[i + 1..]);
  }

  /** The sum does not depend on the order of the ratings: the order in which the backend lists
      the reviews does not change the total. */
  lemma {:induction false} SumPermutation(a: seq<Option<real>>, b: seq<Option<real>>)
    requires multiset(a) == multiset(b)
    ensures Sum(a) == Sum(b)
    decreases |b|
  {
    if b == [] {
      assert |a| == |multiset(a)| == 0;
    } else {
      var c, x := b[..|b| - 1], b[|b| - 1];
      assert b == c + [x];
      assert multiset(b) == multiset(c) + multiset{x};
      assert x in multiset(a);
      var i :| 0 <= i < |a| && a[i] == x;
      var rest := a[..i] + a[i + 1..];
      RemoveAtCount(a, i);
      assert multiset(rest) == multiset(a) - multiset{x} == multiset(c);
      SumPermutation(rest, c);
      SumRemove(a, i);
      SumSnoc(c, x);
    }
  }

  /** The sum of ratings on the scale lies between 0 and 5 per rating. */
  lemma {:induction false} SumBounds(rs: seq<Option<real>>)
    requires AllInScale(rs)
    ensures 0.0 <= Sum(rs) <= 5.0 * |rs| as real
    decreases |rs|
  {
    if rs != [] {
      SumBounds(rs[..|rs| - 1]);
    }
  }

  /** `total / count` for a positive count. */
  function Ratio(total: real, count: nat): real
    requires count > 0
  {
    total / count as real
  }

  /** A ratio times its count gives back the total. */
  lemma RatioTimesCount(total: real, count: nat)
    requires count > 0
    ensures Ratio(total, count) * count as real == total
  {
  }

  /** Arithmetic mean of a non-empty list of ratings. */
  function Mean(rs: seq<Option<real>>): real
    requires |rs| > 0
  {
    Ratio(Sum(rs), |rs|)
  }

  /** Equal totals over equal counts give equal ratios. Stated on its own so that a caller can
      rewrite the operands of a ratio without comparing two quotients in a larger context. */
  lemma RatioCongruence(a: real, m: nat, b: real, n: nat)
    requires m > 0 && a == b && m == n
    ensures Ratio(a, m) == Ratio(b, n)
  {
  }

  /** The mean of ratings on the scale is on the scale. */
  lemma MeanInScale(rs: seq<Option<real>>)
    requires |rs| > 0 && AllInScale(rs)
    ensures 0.0 <= Mean(rs) <= 5.0
  {
    SumBounds(rs);
    RatioTimesCount(Sum(rs), |rs|);
  }
}
