/**
 * Word lists and language-level aggregation: the mean, over the concepts two
 * word lists share, of the concept-level NLD.
 */
module Wordlists {
  import opened Outcomes
  import opened EditDistance
  import opened Concepts

  /**
   * `order` lists the members of `s` once each: the order in which a loop
   * over the set `s` visits them. Python leaves that order unspecified, so
   * the model takes it as a parameter.
   */
  predicate Enumerates(order: seq<string>, s: set<string>)
  {
    && (forall i, j :: 0 <= i < j < |order| ==> order[i] != order[j])
    && (forall k :: 0 <= k < |order| ==> order[k] in s)
    && (forall c :: c in s ==> c in order)
  }

  /** Every finite set of concepts can be visited in some order. */
  lemma {:induction false} EnumerationExists(s: set<string>) returns (order: seq<string>)
    ensures Enumerates(order, s)
    decreases s
  {
    if s == {} {
      order := [];
    } else {
      var c :| c in s;
      var rest := EnumerationExists(s - {c});
      order := rest + [c];
    }
  }

  /**
   * One language's word list: a map from concept identifiers (such as
   * "stone") to the forms recorded for that concept.
   */
  datatype Wordlist = Wordlist(concepts: map<string, seq<string>>)
  {
    /** `__len__`: the number of concepts with forms. */
    function Len(): nat
    {
      |concepts|
    }

    /** `__getitem__`: the forms of `concept`, or a `KeyError` when it has none. */
    function Get(concept: string): (r: Result<seq<string>>)
      ensures r.Ok? <==> concept in concepts
      ensures r.Ok? ==> r.value == concepts[concept]
      ensures r.Err? ==> r.error == KeyError(concept)
    {
      if concept in concepts then Ok(concepts[concept]) else Err(KeyError(concept))
    }

    /** The concepts with forms in both word lists. */
    function CommonConcepts(other: Wordlist): set<string>
    {
      concepts.Keys * other.concepts.Keys
    }

    /** The concept-level scores, one per concept of `order`. */
    function ConceptScores(other: Wordlist, order: seq<string>): seq<real>
      requires forall k :: 0 <= k < |order| ==> order[k] in concepts && order[k] in other.concepts
    {
      seq(|order|, k requires 0 <= k < |order| && order[k] in concepts && order[k] in other.concepts =>
        MeanPairNld(concepts[order[k]], other.concepts[order[k]]))
    }

    /**
     * `mean_nld`: the mean concept score over the shared concepts, visited in
     * `order`; `statistics.mean` raises when there is no shared concept.
     */
    function MeanNld(other: Wordlist, order: seq<string>): (r: Result<real>)
      requires Enumerates(order, CommonConcepts(other))
      ensures r.Err? <==> CommonConcepts(other) == {}
      ensures r.Err? ==> r.error == StatisticsError
      ensures r.Ok? ==> 0.0 <= r.value <= 1.0
    {
      var scores := ConceptScores(other, order);
      if scores == [] then
        assert CommonConcepts(other) == {};
        Err(StatisticsError)
      else
        assert order[0] in CommonConcepts(other);
        MeanInUnitInterval(scores);
        Ok(Mean(scores))
    }
  }

  /** Dropping the element at `k` from an enumeration of `s` enumerates `s` without it. */
  lemma DropEnumerated(order: seq<string>, s: set<string>, k: nat)
    requires Enumerates(order, s) && k < |order|
    ensures Enumerates(order[..k] + order[k + 1..], s - {order[k]})
  {
    DropKeepsDistinct(order, k);
    DropKeepsMembers(order, s, k);
  }

  /** Dropping one element of a list without repetitions leaves one without repetitions. */
  lemma DropKeepsDistinct(order: seq<string>, k: nat)
    requires forall i, j :: 0 <= i < j < |order| ==> order[i] != order[j]
    requires k < |order|
    ensures var rest := order[..k] + order[k + 1..];
      forall i, j :: 0 <= i < j < |rest| ==> rest[i] != rest[j]
  {
    var rest := order[..k] + order[k + 1..];
    forall i, j | 0 <= i < j < |rest|
      ensures rest[i] != rest[j]
    {
      var i' := if i < k then i else i + 1;
      var j' := if j < k then j else j + 1;
      assert rest[i] == order[i'] && rest[j] == order[j'];
    }
  }

  /** Dropping element `k` of a list without repetitions drops exactly that value. */
  lemma DropKeepsMembers(order: seq<string>, s: set<string>, k: nat)
    requires Enumerates(order, s) && k < |order|
    ensures var rest := order[..k] + order[k + 1..];
      forall c :: c in rest <==> c in s - {order[k]}
  {
    var rest := order[..k] + order[k + 1..];
    forall c | c in rest
      ensures c in s - {order[k]}
    {
      var i :| 0 <= i < |rest| && rest[i] == c;
      var i' := if i < k then i else i + 1;
      assert order[i'] == c;
    }
    forall c | c in s - {order[k]}
      ensures c in rest
    {
      var i :| 0 <= i < |order| && order[i] == c;
      if i < k {
        assert rest[i] == c;
      } else {
        assert rest[i - 1] == c;
      }
    }
  }

  /** Scoring a list with one concept dropped drops that concept's score. */
  lemma ScoresDrop(w1: Wordlist, w2: Wordlist, order: seq<string>, k: nat)
    requires forall i :: 0 <= i < |order| ==> order[i] in w1.concepts && order[i] in w2.concepts
    requires k < |order|
    ensures w1.ConceptScores(w2, order[..k] + order[k + 1..])
         == w1.ConceptScores(w2, order)[..k] + w1.ConceptScores(w2, order)[k + 1..]
  {
  }

  /** An enumeration of `s` has one entry per member of `s`. */
  lemma {:induction false} EnumerationLength(order: seq<string>, s: set<string>)
    requires Enumerates(order, s)
    ensures |order| == |s|
    decreases |order|
  {
    if order == [] {
      assert s == {};
    } else {
      var n := |order| - 1;
      DropEnumerated(order, s, n);
      assert order[..n] + order[n + 1..] == order[..n];
      EnumerationLength(order[..n], s - {order[n]});
    }
  }

  /**
   * Two enumerations of the same shared concepts have the same length and give
   * concept scores with the same sum.
   */
  lemma {:induction false} ScoresSumOrderIndependent(w1: Wordlist, w2: Wordlist, o1: seq<string>, o2: seq<string>, s: set<string>)
    requires s <= w1.CommonConcepts(w2)
    requires Enumerates(o1, s) && Enumerates(o2, s)
    ensures |o1| == |o2|
    ensures Sum(w1.ConceptScores(w2, o1)) == Sum(w1.ConceptScores(w2, o2))
    decreases |o1|
  {
    EnumerationLength(o1, s);
    EnumerationLength(o2, s);
    if o1 != [] {
      var n := |o1| - 1;
      var x := o1[n];
      assert x in o2;
      var k :| 0 <= k < |o2| && o2[k] == x;
      DropEnumerated(o1, s, n);
      DropEnumerated(o2, s, k);
      ScoresSumOrderIndependent(w1, w2, o1[..n] + o1[n + 1..], o2[..k] + o2[k + 1..], s - {x});
      SumScoresDrop(w1, w2, o1, n);
      SumScoresDrop(w1, w2, o2, k);
    }
  }

  /** Dropping one concept from a list drops its score from the sum of the scores. */
  lemma SumScoresDrop(w1: Wordlist, w2: Wordlist, order: seq<string>, k: nat)
    requires forall i :: 0 <= i < |order| ==> order[i] in w1.concepts && order[i] in w2.concepts
    requires k < |order|
    ensures Sum(w1.ConceptScores(w2, order))
         == Sum(w1.ConceptScores(w2, order[..k] + order[k + 1..]))
          + MeanPairNld(w1.concepts[order[k]], w2.concepts[order[k]])
  {
    var scores := w1.ConceptScores(w2, order);
    ScoresDrop(w1, w2, order, k);
    SumRemove(scores, k);
  }

  /** `mean_nld` does not depend on the order in which the shared concepts are visited. */
  lemma MeanNldOrderIndependent(w1: Wordlist, w2: Wordlist, o1: seq<string>, o2: seq<string>)
    requires Enumerates(o1, w1.CommonConcepts(w2)) && Enumerates(o2, w1.CommonConcepts(w2))
    ensures w1.MeanNld(w2, o1) == w1.MeanNld(w2, o2)
  {
    ScoresSumOrderIndependent(w1, w2, o1, o2, w1.CommonConcepts(w2));
  }

  /** `mean_nld` does not depend on which word list it is called on. */
  lemma MeanNldSymmetric(w1: Wordlist, w2: Wordlist, order: seq<string>)
    requires Enumerates(order, w1.CommonConcepts(w2))
    ensures w2.CommonConcepts(w1) == w1.CommonConcepts(w2)
    ensures w1.MeanNld(w2, order) == w2.MeanNld(w1, order)
  {
    assert w2.CommonConcepts(w1) == w1.CommonConcepts(w2);
    var scores1, scores2 := w1.ConceptScores(w2, order), w2.ConceptScores(w1, order);
    forall k | 0 <= k < |order|
      ensures scores1[k] == scores2[k]
    {
      MeanPairNldSymmetric(w1.concepts[order[k]], w2.concepts[order[k]]);
    }
    assert scores1 == scores2;
  }

  /** Two word lists sharing only "stone", as "tan" and "ston", are at mean NLD 0.5. */
  lemma StoneExample()
    ensures Wordlist(map["stone" := ["tan"]]).MeanNld(Wordlist(map["stone" := ["ston"]]), ["stone"]) == Ok(0.5)
  {
    var w1, w2 := Wordlist(map["stone" := ["tan"]]), Wordlist(map["stone" := ["ston"]]);
    assert w1.CommonConcepts(w2) == {"stone"};
    DistanceTanSton();
    assert Nld("tan", "ston") == 0.5;
    var pairs := PairNlds(["tan"], ["ston"]);
    PairNldsAt(["tan"], ["ston"], 0, 0);
    assert pairs == [0.5];
    assert Sum(pairs) == 0.5 by {
      assert pairs[..0] == [];
    }
    assert w1.ConceptScores(w2, ["stone"]) == [0.5];
    assert Sum([0.5]) == 0.5 by {
      assert [0.5][..0] == [];
    }
  }
}
