/**
 * The weighted Levenshtein distance between two ASJP transcriptions.
 *
 * `Distance` is the specification: the edit distance of two strings, defined
 * by recursion on their prefixes, with insertion and deletion costing 1 and a
 * substitution costing 0, the vowel weight, or 1. `LevenshteinDistance` is the
 * dynamic-programming table fill, proved to compute it.
 */
module EditDistance {
  import opened Outcomes

  /** The vowel symbols of the ASJP transcription alphabet. */
  const Vowels: set<char> := {'3', 'a', 'e', 'E', 'i', 'o', 'u'}

  function Min(x: real, y: real): real
  {
    if x <= y then x else y
  }

  /** The smallest of three costs, as Python's `min` on three arguments. */
  function Min3(x: real, y: real, z: real): real
  {
    Min(Min(x, y), z)
  }

  /** The cost of replacing symbol `c1` by symbol `c2`. */
  function SubstitutionCost(c1: char, c2: char, vowelWeight: real): real
  {
    if c1 == c2 then 0.0
    else if c1 in Vowels && c2 in Vowels then vowelWeight
    else 1.0
  }

  /** The weighted edit distance between `s` and `t`. */
  function Distance(s: string, t: string, vowelWeight: real): real
    decreases |s| + |t|
  {
    if |s| == 0 then |t| as real
    else if |t| == 0 then |s| as real
    else
      var i, j := |s| - 1, |t| - 1;
      Min3(Distance(s[..i], t, vowelWeight) + 1.0,
           Distance(s, t[..j], vowelWeight) + 1.0,
           Distance(s[..i], t[..j], vowelWeight) + SubstitutionCost(s[i], t[j], vowelWeight))
  }

  /**
   * The table fill of `levenshtein_distance`: `dp[i, j]` holds the distance
   * between the first `i` symbols of `s1` and the first `j` symbols of `s2`;
   * an absent string is read as the empty one.
   */
  method LevenshteinDistance(s1: Option<string>, s2: Option<string>, vowelWeight: real)
    returns (d: real)
    ensures d == Distance(OrEmpty(s1), OrEmpty(s2), vowelWeight)
  {
    var a := OrEmpty(s1);
    var b := OrEmpty(s2);
    var len1, len2 := |a|, |b|;

    var dp := new real[len1 + 1, len2 + 1]((_, _) => 0.0);

    for i := 1 to len1 + 1
      invariant forall p :: 0 <= p < i ==> dp[p, 0] == p as real
    {
      dp[i, 0] := i as real;
    }
    for j := 1 to len2 + 1
      invariant forall p :: 0 <= p <= len1 ==> dp[p, 0] == p as real
      invariant forall q :: 0 <= q < j ==> dp[0, q] == q as real
    {
      dp[0, j] := j as real;
    }

    forall q | 0 <= q <= len2
      ensures dp[0, q] == Distance(a[..0], b[..q], vowelWeight)
    {
      assert a[..0] == [];
    }
    for i := 1 to len1 + 1
      invariant forall q :: 0 <= q <= len2 ==> dp[i - 1, q] == Distance(a[..i - 1], b[..q], vowelWeight)
      invariant forall p :: i <= p <= len1 ==> dp[p, 0] == p as real
    {
      FillRow(dp, a, b, i, vowelWeight);
    }
    assert a[..len1] == a && b[..len2] == b;
    d := dp[len1, len2];
  }

  /**
   * The inner loop of the table fill: computes row `i` from row `i - 1`,
   * leaving every other row as it was.
   */
  method FillRow(dp: array2<real>, a: string, b: string, i: nat, vowelWeight: real)
    requires dp.Length0 == |a| + 1 && dp.Length1 == |b| + 1 && 1 <= i <= |a|
    requires forall q :: 0 <= q <= |b| ==> dp[i - 1, q] == Distance(a[..i - 1], b[..q], vowelWeight)
    requires dp[i, 0] == i as real
    modifies dp
    ensures forall q :: 0 <= q <= |b| ==> dp[i, q] == Distance(a[..i], b[..q], vowelWeight)
    ensures forall p, q :: 0 <= p < dp.Length0 && 0 <= q < dp.Length1 && p != i ==> dp[p, q] == old(dp[p, q])
  {
    assert b[..0] == [];
    for j := 1 to |b| + 1
      invariant forall q :: 0 <= q < j ==> dp[i, q] == Distance(a[..i], b[..q], vowelWeight)
      invariant forall p, q :: 0 <= p < dp.Length0 && 0 <= q < dp.Length1 && p != i ==> dp[p, q] == old(dp[p, q])
    {
      assert dp[i - 1, j] == old(dp[i - 1, j]) && dp[i - 1, j - 1] == old(dp[i - 1, j - 1]);
      var cell := Cell(dp, a, b, i, j, vowelWeight);
      dp[i, j] := cell;
    }
  }

  /**
   * The body of the inner loop: the cost of reaching cell `(i, j)` by deletion,
   * insertion or substitution from its three filled neighbours, whichever is
   * cheapest.
   */
  method Cell(dp: array2<real>, a: string, b: string, i: nat, j: nat, vowelWeight: real) returns (cell: real)
    requires dp.Length0 == |a| + 1 && dp.Length1 == |b| + 1 && 1 <= i <= |a| && 1 <= j <= |b|
    requires dp[i - 1, j] == Distance(a[..i - 1], b[..j], vowelWeight)
    requires dp[i, j - 1] == Distance(a[..i], b[..j - 1], vowelWeight)
    requires dp[i - 1, j - 1] == Distance(a[..i - 1], b[..j - 1], vowelWeight)
    ensures cell == Distance(a[..i], b[..j], vowelWeight)
  {
    var c1 := a[i - 1];
    var c2 := b[j - 1];
    var subCost;
    if c1 == c2 {
      subCost := 0.0;
    } else {
      if c1 in Vowels && c2 in Vowels {
        subCost := vowelWeight;
      } else {
        subCost := 1.0;
      }
    }
    var deletion := dp[i - 1, j] + 1.0;
    var insertion := dp[i, j - 1] + 1.0;
    var substitution := dp[i - 1, j - 1] + subCost;
    DistanceStep(a, b, i, j, vowelWeight);
    cell := Min3(deletion, insertion, substitution);
  }

  /** One step of the recurrence, stated on the prefixes the table is indexed by. */
  lemma DistanceStep(a: string, b: string, i: nat, j: nat, vowelWeight: real)
    requires 1 <= i <= |a| && 1 <= j <= |b|
    ensures Distance(a[..i], b[..j], vowelWeight)
         == Min3(Distance(a[..i - 1], b[..j], vowelWeight) + 1.0,
                 Distance(a[..i], b[..j - 1], vowelWeight) + 1.0,
                 Distance(a[..i - 1], b[..j - 1], vowelWeight) + SubstitutionCost(a[i - 1], b[j - 1], vowelWeight))
  {
    assert a[..i][..i - 1] == a[..i - 1];
    assert b[..j][..j - 1] == b[..j - 1];
  }

  /** An empty string is at distance `|t|` from `t`, and `s` at distance `|s|` from an empty string. */
  lemma DistanceFromEmpty(s: string, t: string, vowelWeight: real)
    ensures Distance([], t, vowelWeight) == |t| as real
    ensures Distance(s, [], vowelWeight) == |s| as real
  {
  }

  /** With a non-negative vowel weight every cost is non-negative, so the distance is too. */
  lemma {:induction false} DistanceNonNegative(s: string, t: string, vowelWeight: real)
    requires vowelWeight >= 0.0
    ensures Distance(s, t, vowelWeight) >= 0.0
    decreases |s| + |t|
  {
    if |s| > 0 && |t| > 0 {
      var i, j := |s| - 1, |t| - 1;
      DistanceNonNegative(s[..i], t, vowelWeight);
      DistanceNonNegative(s, t[..j], vowelWeight);
      DistanceNonNegative(s[..i], t[..j], vowelWeight);
    }
  }

  /** A string is at distance 0 from itself. */
  lemma {:induction false} DistanceToSelf(s: string, vowelWeight: real)
    requires vowelWeight >= 0.0
    ensures Distance(s, s, vowelWeight) == 0.0
    decreases |s|
  {
    if |s| > 0 {
      var i := |s| - 1;
      DistanceToSelf(s[..i], vowelWeight);
      DistanceNonNegative(s[..i], s, vowelWeight);
      DistanceNonNegative(s, s[..i], vowelWeight);
    }
  }

  /** With a positive vowel weight, distance 0 means the strings are equal. */
  lemma {:induction false} DistanceZeroOnlyIfEqual(s: string, t: string, vowelWeight: real)
    requires vowelWeight > 0.0
    requires Distance(s, t, vowelWeight) == 0.0
    ensures s == t
    decreases |s| + |t|
  {
    if |s| > 0 && |t| > 0 {
      var i, j := |s| - 1, |t| - 1;
      DistanceNonNegative(s[..i], t, vowelWeight);
      DistanceNonNegative(s, t[..j], vowelWeight);
      DistanceNonNegative(s[..i], t[..j], vowelWeight);
      assert Distance(s[..i], t[..j], vowelWeight) == 0.0 && s[i] == t[j];
      DistanceZeroOnlyIfEqual(s[..i], t[..j], vowelWeight);
      assert s == s[..i] + [s[i]] && t == t[..j] + [t[j]];
    }
  }

  /** With a positive vowel weight the distance is 0 exactly when the strings are equal. */
  lemma DistanceZeroIff(s: string, t: string, vowelWeight: real)
    requires vowelWeight > 0.0
    ensures Distance(s, t, vowelWeight) == 0.0 <==> s == t
  {
    if s == t {
      DistanceToSelf(s, vowelWeight);
    } else if Distance(s, t, vowelWeight) == 0.0 {
      DistanceZeroOnlyIfEqual(s, t, vowelWeight);
    }
  }

  /** The distance does not depend on the order of its two arguments. */
  lemma {:induction false} DistanceSymmetric(s: string, t: string, vowelWeight: real)
    ensures Distance(s, t, vowelWeight) == Distance(t, s, vowelWeight)
    decreases |s| + |t|
  {
    if |s| > 0 && |t| > 0 {
      var i, j := |s| - 1, |t| - 1;
      DistanceSymmetric(s[..i], t, vowelWeight);
      DistanceSymmetric(s, t[..j], vowelWeight);
      DistanceSymmetric(s[..i], t[..j], vowelWeight);
    }
  }

  /** `n` copies of `unit` added up. */
  function Repeat(n: nat, unit: real): real
  {
    if n == 0 then 0.0 else Repeat(n - 1, unit) + unit
  }

  lemma {:induction false} RepeatIsProduct(n: nat, unit: real)
    ensures Repeat(n, unit) == n as real * unit
  {
    if n > 0 {
      RepeatIsProduct(n - 1, unit);
    }
  }

  /** The length of the longer of `s` and `t`. */
  function MaxLength(s: string, t: string): nat
  {
    if |s| <= |t| then |t| else |s|
  }

  /** The bound of `DistanceUpperBound`, with the product written as a repeated sum. */
  lemma {:induction false} DistanceAtMostRepeat(s: string, t: string, vowelWeight: real, unitCost: real)
    requires 1.0 <= unitCost && vowelWeight <= unitCost
    ensures Distance(s, t, vowelWeight) <= Repeat(MaxLength(s, t), unitCost)
    decreases |s| + |t|
  {
    if |s| == 0 || |t| == 0 {
      RepeatAtLeastCount(MaxLength(s, t), unitCost);
    } else {
      var i, j := |s| - 1, |t| - 1;
      DistanceAtMostRepeat(s[..i], t[..j], vowelWeight, unitCost);
      assert MaxLength(s, t) == MaxLength(s[..i], t[..j]) + 1;
    }
  }

  lemma {:induction false} RepeatAtLeastCount(n: nat, unit: real)
    requires unit >= 1.0
    ensures n as real <= Repeat(n, unit)
  {
    if n > 0 {
      RepeatAtLeastCount(n - 1, unit);
    }
  }

  /**
   * No distance exceeds the longer length times `unitCost`, for any
   * `unitCost` at least 1 and at least the vowel weight: no single edit costs
   * more than that.
   */
  lemma DistanceUpperBound(s: string, t: string, vowelWeight: real, unitCost: real)
    requires 1.0 <= unitCost && vowelWeight <= unitCost
    ensures Distance(s, t, vowelWeight) <= MaxLength(s, t) as real * unitCost
  {
    DistanceAtMostRepeat(s, t, vowelWeight, unitCost);
    RepeatIsProduct(MaxLength(s, t), unitCost);
  }

  /** With a vowel weight at most 1, no distance exceeds the longer length. */
  lemma DistanceAtMostLonger(s: string, t: string, vowelWeight: real)
    requires vowelWeight <= 1.0
    ensures Distance(s, t, vowelWeight) <= MaxLength(s, t) as real
  {
    DistanceAtMostRepeat(s, t, vowelWeight, 1.0);
    RepeatIsProduct(MaxLength(s, t), 1.0);
  }

  /** The distance between two one-symbol strings is the cost of substituting one for the other. */
  lemma DistanceSingleSymbol(c1: char, c2: char, vowelWeight: real)
    ensures c1 == c2 ==> Distance([c1], [c2], vowelWeight) == 0.0
    ensures c1 != c2 && c1 in Vowels && c2 in Vowels ==> Distance([c1], [c2], vowelWeight) == Min(vowelWeight, 2.0)
    ensures c1 != c2 && !(c1 in Vowels && c2 in Vowels) ==> Distance([c1], [c2], vowelWeight) == 1.0
  {
    assert [c1][..0] == [] && [c2][..0] == [];
  }

  /** Row "t" of the table for `tan` against `ston`. */
  lemma TanStonRowT()
    ensures Distance("t", "s", 1.0) == 1.0
    ensures Distance("t", "st", 1.0) == 1.0
    ensures Distance("t", "sto", 1.0) == 2.0
    ensures Distance("t", "ston", 1.0) == 3.0
  {
    assert "t"[..0] == "";
    assert "s"[..0] == "" && "st"[..1] == "s" && "sto"[..2] == "st" && "ston"[..3] == "sto";
  }

  /** Row "ta" of the table for `tan` against `ston`. */
  lemma TanStonRowTa()
    ensures Distance("ta", "s", 1.0) == 2.0
    ensures Distance("ta", "st", 1.0) == 2.0
    ensures Distance("ta", "sto", 1.0) == 2.0
    ensures Distance("ta", "ston", 1.0) == 3.0
  {
    TanStonRowT();
    assert "ta"[..1] == "t";
    assert "s"[..0] == "" && "st"[..1] == "s" && "sto"[..2] == "st" && "ston"[..3] == "sto";
  }

  /** `tan` becomes `ston` by inserting `s` and substituting the vowel `a` by `o`. */
  lemma DistanceTanSton()
    ensures Distance("tan", "ston", 1.0) == 2.0
  {
    TanStonRowTa();
    assert "tan"[..2] == "ta";
    assert "s"[..0] == "" && "st"[..1] == "s" && "sto"[..2] == "st" && "ston"[..3] == "sto";
    assert Distance("tan", "s", 1.0) == 3.0;
    assert Distance("tan", "st", 1.0) == 3.0;
    assert Distance("tan", "sto", 1.0) == 3.0;
  }
}
