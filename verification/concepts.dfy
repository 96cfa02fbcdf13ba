/**
 * Concept-level aggregation: the mean normalised Levenshtein distance (NLD)
 * over every pair of forms two languages give for one concept.
 */
module Concepts {
  import opened Outcomes
  import opened EditDistance

  /**
   * The normalised distance of two forms: their distance under the default
   * vowel weight 1, divided by the longer length; 0 for two empty forms.
   */
  function Nld(a: string, b: string): (r: real)
    ensures 0.0 <= r <= 1.0
    ensures r == 0.0 <==> a == b
  {
    var maxLen := MaxLength(a, b);
    if maxLen == 0 then
      assert a == [] && b == [];
      0.0
    else
      DistanceNonNegative(a, b, 1.0);
      DistanceAtMostLonger(a, b, 1.0);
      DistanceZeroIff(a, b, 1.0);
      RatioInUnitInterval(Distance(a, b, 1.0), maxLen as real);
      Distance(a, b, 1.0) / maxLen as real
  }

  /** A quantity between 0 and a positive bound, divided by the bound, lies in [0, 1]. */
  lemma RatioInUnitInterval(x: real, bound: real)
    requires 0.0 <= x <= bound && bound > 0.0
    ensures 0.0 <= x / bound <= 1.0
    ensures x / bound == 0.0 <==> x == 0.0
  {
  }

  lemma NldSymmetric(a: string, b: string)
    ensures Nld(a, b) == Nld(b, a)
  {
    DistanceSymmetric(a, b, 1.0);
  }

  /** The NLDs of form `a` against each of `forms`, in order. */
  function RowNlds(a: string, forms: seq<string>): (r: seq<real>)
    ensures |r| == |forms|
    ensures forall k :: 0 <= k < |forms| ==> r[k] == Nld(a, forms[k])
  {
    if forms == [] then []
    else RowNlds(a, forms[..|forms| - 1]) + [Nld(a, forms[|forms| - 1])]
  }

  /**
   * The NLDs of the Cartesian product `forms1 x forms2`, row by row: the
   * order in which `concept_nld` appends them.
   */
  function PairNlds(forms1: seq<string>, forms2: seq<string>): (r: seq<real>)
    ensures |r| == |forms1| * |forms2|
    ensures forall k :: 0 <= k < |r| ==> 0.0 <= r[k] <= 1.0
  {
    if forms1 == [] then []
    else
      var n := |forms1| - 1;
      assert n * |forms2| + |forms2| == |forms1| * |forms2|;
      PairNlds(forms1[..n], forms2) + RowNlds(forms1[n], forms2)
  }

  /** Pair `(i, j)` of the product sits at index `i * |forms2| + j`. */
  lemma {:induction false} PairNldsAt(forms1: seq<string>, forms2: seq<string>, i: nat, j: nat)
    requires i < |forms1| && j < |forms2|
    ensures i * |forms2| + j < |PairNlds(forms1, forms2)|
    ensures PairNlds(forms1, forms2)[i * |forms2| + j] == Nld(forms1[i], forms2[j])
  {
    var n := |forms1| - 1;
    var init := forms1[..n];
    var before, row := PairNlds(init, forms2), RowNlds(forms1[n], forms2);
    assert PairNlds(forms1, forms2) == before + row;
    if i < n {
      PairNldsAt(init, forms2, i, j);
      assert init[i] == forms1[i];
    } else {
      assert i == n;
      assert |before| == n * |forms2|;
      assert i * |forms2| + j == |before| + j;
    }
  }

  /** The sum of a list of numbers, added from the front. */
  function Sum(xs: seq<real>): real
  {
    if xs == [] then 0.0 else Sum(xs[..|xs| - 1]) + xs[|xs| - 1]
  }

  /** The arithmetic mean, as `statistics.mean` computes it with exact arithmetic. */
  function Mean(xs: seq<real>): real
    requires xs != []
  {
    Sum(xs) / |xs| as real
  }

  lemma {:induction false} SumAppend(xs: seq<real>, ys: seq<real>)
    ensures Sum(xs + ys) == Sum(xs) + Sum(ys)
    decreases |ys|
  {
    if ys == [] {
      assert xs + ys == xs;
    } else {
      var n := |ys| - 1;
      SumAppend(xs, ys[..n]);
      assert (xs + ys)[..|xs + ys| - 1] == xs + ys[..n];
    }
  }

  /** Taking out the element at `k` takes `xs[k]` off the sum. */
  lemma SumRemove(xs: seq<real>, k: nat)
    requires k < |xs|
    ensures Sum(xs) == Sum(xs[..k] + xs[k + 1..]) + xs[k]
  {
    var front, back := xs[..k], xs[k + 1..];
    SplitAround(xs, k);
    SumMiddle(front, xs[k], back);
  }

  lemma SplitAround<T>(xs: seq<T>, k: nat)
    requires k < |xs|
    ensures xs == xs[..k] + [xs[k]] + xs[k + 1..]
  {
  }

  lemma SumMiddle(front: seq<real>, x: real, back: seq<real>)
    ensures Sum(front + [x] + back) == Sum(front + back) + x
  {
    SumAppend(front + [x], back);
    SumSnoc(front, x);
    SumAppend(front, back);
  }

  lemma SumSnoc(xs: seq<real>, x: real)
    ensures Sum(xs + [x]) == Sum(xs) + x
  {
    assert (xs + [x])[..|xs|] == xs;
  }

  lemma {:induction false} SumBounds(xs: seq<real>)
    requires forall k :: 0 <= k < |xs| ==> 0.0 <= xs[k] <= 1.0
    ensures 0.0 <= Sum(xs) <= |xs| as real
  {
    if xs != [] {
      SumBounds(xs[..|xs| - 1]);
    }
  }

  /** The mean of numbers in [0, 1] lies in [0, 1]. */
  lemma MeanInUnitInterval(xs: seq<real>)
    requires xs != []
    requires forall k :: 0 <= k < |xs| ==> 0.0 <= xs[k] <= 1.0
    ensures 0.0 <= Mean(xs) <= 1.0
  {
    SumBounds(xs);
  }

  /**
   * What `concept_nld` returns: the mean NLD over all pairs of forms, or 0
   * when there is no pair.
   */
  function MeanPairNld(forms1: seq<string>, forms2: seq<string>): (r: real)
    ensures 0.0 <= r <= 1.0
    ensures forms1 == [] || forms2 == [] ==> r == 0.0
  {
    var nlds := PairNlds(forms1, forms2);
    if nlds == [] then 0.0
    else
      MeanInUnitInterval(nlds);
      Mean(nlds)
  }

  /** The sum of `PairNlds(forms1, forms2)`, added row by row. */
  function RowTotals(forms1: seq<string>, forms2: seq<string>): real
  {
    if forms1 == [] then 0.0
    else RowTotals(forms1[..|forms1| - 1], forms2) + Sum(RowNlds(forms1[|forms1| - 1], forms2))
  }

  lemma {:induction false} SumPairNlds(forms1: seq<string>, forms2: seq<string>)
    ensures Sum(PairNlds(forms1, forms2)) == RowTotals(forms1, forms2)
  {
    if forms1 != [] {
      var n := |forms1| - 1;
      SumPairNlds(forms1[..n], forms2);
      SumAppend(PairNlds(forms1[..n], forms2), RowNlds(forms1[n], forms2));
    }
  }

  lemma RowSumStep(a: string, forms: seq<string>)
    requires forms != []
    ensures Sum(RowNlds(a, forms)) == Sum(RowNlds(a, forms[..|forms| - 1])) + Nld(a, forms[|forms| - 1])
  {
    var row := RowNlds(a, forms);
    assert row[..|row| - 1] == RowNlds(a, forms[..|forms| - 1]);
  }

  /** Adding the product row by row or column by column gives the same total. */
  lemma {:induction false} RowTotalsSymmetric(forms1: seq<string>, forms2: seq<string>)
    ensures RowTotals(forms1, forms2) == RowTotals(forms2, forms1)
    decreases |forms1| + |forms2|
  {
    if forms1 == [] && forms2 == [] {
    } else if forms2 == [] {
      RowTotalsSymmetric(forms1[..|forms1| - 1], forms2);
    } else if forms1 == [] {
      RowTotalsSymmetric(forms1, forms2[..|forms2| - 1]);
    } else {
      var n, m := |forms1| - 1, |forms2| - 1;
      var x, y := forms1[n], forms2[m];
      RowTotalsSymmetric(forms1[..n], forms2);
      RowTotalsSymmetric(forms1, forms2[..m]);
      RowTotalsSymmetric(forms1[..n], forms2[..m]);
      RowSumStep(x, forms2);
      RowSumStep(y, forms1);
      NldSymmetric(x, y);
    }
  }

  /** The concept score does not depend on which language comes first. */
  lemma MeanPairNldSymmetric(forms1: seq<string>, forms2: seq<string>)
    ensures MeanPairNld(forms1, forms2) == MeanPairNld(forms2, forms1)
  {
    SumPairNlds(forms1, forms2);
    SumPairNlds(forms2, forms1);
    RowTotalsSymmetric(forms1, forms2);
    assert |forms1| * |forms2| == |forms2| * |forms1|;
  }

  /** The NLD of one pair of forms, as the body of `concept_nld`'s inner loop computes it. */
  method FormNld(a: string, b: string) returns (nld: real)
    ensures nld == Nld(a, b)
  {
    var dist := LevenshteinDistance(Some(a), Some(b), 1.0);
    var maxLen := if |a| <= |b| then |b| else |a|;
    if maxLen == 0 {
      nld := 0.0;
    } else {
      nld := dist / maxLen as real;
    }
  }

  /** The nested loops of `concept_nld`, appending one NLD per pair of forms. */
  method ConceptNld(forms1: seq<string>, forms2: seq<string>) returns (r: real)
    ensures r == MeanPairNld(forms1, forms2)
  {
    var nlds: seq<real> := [];
    for i := 0 to |forms1|
      invariant nlds == PairNlds(forms1[..i], forms2)
    {
      var a := forms1[i];
      for j := 0 to |forms2|
        invariant nlds == PairNlds(forms1[..i], forms2) + RowNlds(a, forms2[..j])
      {
        var nld := FormNld(a, forms2[j]);
        assert forms2[..j + 1][..j] == forms2[..j];
        nlds := nlds + [nld];
      }
      assert forms2[..|forms2|] == forms2;
      assert forms1[..i + 1][..i] == forms1[..i];
    }
    assert forms1[..|forms1|] == forms1;
    if nlds == [] {
      return 0.0;
    }
    r := Sum(nlds) / |nlds| as real;
  }
}
