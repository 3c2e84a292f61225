/** The two-parameter logistic (2PL) item response model: per-item Fisher
    information and the first two derivatives of the log-likelihood of a
    response pattern, as sums over the administered items.

    The 2PL probability P(a, b, θ) = 1 / (1 + exp(-1.7·a·(θ - b))) needs `exp`,
    which has no counterpart here, so every member takes the probability
    function as a parameter and the lemmas assume only that its values lie
    in [0, 1]. */
module Irt {

  /** The logistic-to-normal-ogive scaling constant of the 2PL model. */
  const D: real := 1.7

  /** An item's discrimination `a` and difficulty `b`. */
  datatype Item = Item(a: real, b: real)

  /** One administered item and the response to it: `u` is 1 for a correct
      answer and 0 for a wrong one. */
  datatype Response = Response(item: Item, u: real)

  /** The 2PL response probability as a function of (a, b, θ). */
  type ProbabilityModel = (real, real, real) -> real

  /** Every value of `p` is a probability. */
  ghost predicate IsProbabilityModel(p: ProbabilityModel)
  {
    forall a, b, theta :: 0.0 <= p(a, b, theta) <= 1.0
  }

  /** The sum of a vector (numpy's `np.sum`). */
  function Sum(xs: seq<real>): real
  {
    if xs == [] then 0.0 else xs[0] + Sum(xs[1..])
  }

  /** The Fisher information of one item whose response probability is `p`:
      1.7² · a² · p · (1 - p). */
  function ItemInformation(a: real, p: real): real
  {
    D * D * a * a * p * (1.0 - p)
  }

  /** The per-item information vector at trait level θ (`fisher_information`). */
  function FisherInformation(items: seq<Item>, prob: ProbabilityModel, theta: real): (info: seq<real>)
    ensures |info| == |items|
  {
    seq(|items|, i requires 0 <= i < |items| =>
      ItemInformation(items[i].a, prob(items[i].a, items[i].b, theta)))
  }

  /** The items of a response pattern, in order. */
  function Items(pattern: seq<Response>): (items: seq<Item>)
    ensures |items| == |pattern|
  {
    seq(|pattern|, i requires 0 <= i < |pattern| => pattern[i].item)
  }

  /** The summed information of a response pattern at θ. */
  function TotalInformation(pattern: seq<Response>, prob: ProbabilityModel, theta: real): real
  {
    Sum(FisherInformation(Items(pattern), prob, theta))
  }

  /** One item's term of the score: 1.7 · a · (u - p). */
  function ScoreTerm(r: Response, prob: ProbabilityModel, theta: real): real
  {
    D * r.item.a * (r.u - prob(r.item.a, r.item.b, theta))
  }

  /** The per-item score terms of a pattern. */
  function ScoreTerms(pattern: seq<Response>, prob: ProbabilityModel, theta: real): (terms: seq<real>)
    ensures |terms| == |pattern|
  {
    seq(|pattern|, i requires 0 <= i < |pattern| => ScoreTerm(pattern[i], prob, theta))
  }

  /** The first derivative of the log-likelihood at θ (`d_log_likelihood`). */
  function DLogLikelihood(pattern: seq<Response>, prob: ProbabilityModel, theta: real): real
  {
    Sum(ScoreTerms(pattern, prob, theta))
  }

  /** The second derivative of the log-likelihood at θ (`dd_log_likelihood`):
      the per-item information terms summed and negated. */
  function DDLogLikelihood(pattern: seq<Response>, prob: ProbabilityModel, theta: real): real
  {
    -Sum(seq(|pattern|, i requires 0 <= i < |pattern| =>
      ItemInformation(pattern[i].item.a, prob(pattern[i].item.a, pattern[i].item.b, theta))))
  }

  /** The closure `get_d_log_likelihood_f` returns. */
  function DLogLikelihoodF(pattern: seq<Response>, prob: ProbabilityModel): real -> real
  {
    theta => DLogLikelihood(pattern, prob, theta)
  }

  /** The closure `get_dd_log_likelihood_f` returns. */
  function DDLogLikelihoodF(pattern: seq<Response>, prob: ProbabilityModel): real -> real
  {
    theta => DDLogLikelihood(pattern, prob, theta)
  }

  // ---------------------------------------------------------------------
  // Sums

  lemma {:induction false} SumNonNegative(xs: seq<real>)
    requires forall i :: 0 <= i < |xs| ==> 0.0 <= xs[i]
    ensures 0.0 <= Sum(xs)
  {
    if xs != [] {
      SumNonNegative(xs[1..]);
    }
  }

  lemma {:induction false} SumPositive(xs: seq<real>, k: nat)
    requires k < |xs| && 0.0 < xs[k]
    requires forall i :: 0 <= i < |xs| ==> 0.0 <= xs[i]
    ensures 0.0 < Sum(xs)
  {
    if k == 0 {
      SumNonNegative(xs[1..]);
    } else {
      SumPositive(xs[1..], k - 1);
    }
  }

  lemma {:induction false} SumNegative(xs: seq<real>)
    requires xs != []
    requires forall i :: 0 <= i < |xs| ==> xs[i] < 0.0
    ensures Sum(xs) < 0.0
  {
    if |xs| > 1 {
      SumNegative(xs[1..]);
    }
  }

  /** A sum over two blocks is the sum of the blocks' sums. */
  lemma {:induction false} SumConcat(xs: seq<real>, ys: seq<real>)
    ensures Sum(xs + ys) == Sum(xs) + Sum(ys)
  {
    if xs == [] {
      assert xs + ys == ys;
    } else {
      assert (xs + ys)[1..] == xs[1..] + ys;
      SumConcat(xs[1..], ys);
    }
  }

  // ---------------------------------------------------------------------
  // Information

  /** Information is never negative. */
  lemma InformationNonNegative(a: real, p: real)
    requires 0.0 <= p <= 1.0
    ensures 0.0 <= ItemInformation(a, p)
  {
    assert 0.0 <= D * D * a * a;
    assert 0.0 <= D * D * a * a * p;
  }

  /** Information is strictly positive for a discriminating item whose
      probability lies strictly inside (0, 1). */
  lemma InformationPositive(a: real, p: real)
    requires a != 0.0 && 0.0 < p < 1.0
    ensures 0.0 < ItemInformation(a, p)
  {
    // 1.7² · a² is taken apart as (1.7² · a) · a, two factors of equal sign.
    var s := D * D * a;
    var w := s * a;
    assert 0.0 < w by {
      if a < 0.0 { assert s < 0.0; } else { assert 0.0 < s; }
    }
    var wp := w * p;
    assert 0.0 < wp;
    assert ItemInformation(a, p) == wp * (1.0 - p);
  }

  /** An item informs most where its response probability is one half, which
      the 2PL curve reaches at θ = b; anywhere else it informs strictly less. */
  lemma InformationPeaksAtHalf(a: real, p: real)
    requires a != 0.0
    ensures ItemInformation(a, p) <= ItemInformation(a, 0.5)
    ensures ItemInformation(a, p) == ItemInformation(a, 0.5) <==> p == 0.5
  {
    var s := D * D * a;
    var w := s * a;
    assert 0.0 < w by {
      if a < 0.0 { assert s < 0.0; } else { assert 0.0 < s; }
    }
    var d := p - 0.5;
    var e := w * d;
    assert ItemInformation(a, 0.5) - ItemInformation(a, p) == e * d;
    if d < 0.0 {
      assert e < 0.0;
    } else if d > 0.0 {
      assert 0.0 < e;
    }
  }

  /** Every entry of the information vector is non-negative. */
  lemma FisherInformationNonNegative(items: seq<Item>, prob: ProbabilityModel, theta: real)
    requires IsProbabilityModel(prob)
    ensures forall i :: 0 <= i < |items| ==> 0.0 <= FisherInformation(items, prob, theta)[i]
  {
    forall i | 0 <= i < |items|
      ensures 0.0 <= FisherInformation(items, prob, theta)[i]
    {
      InformationNonNegative(items[i].a, prob(items[i].a, items[i].b, theta));
    }
  }

  /** The summed information of a pattern is non-negative. */
  lemma TotalInformationNonNegative(pattern: seq<Response>, prob: ProbabilityModel, theta: real)
    requires IsProbabilityModel(prob)
    ensures 0.0 <= TotalInformation(pattern, prob, theta)
  {
    FisherInformationNonNegative(Items(pattern), prob, theta);
    SumNonNegative(FisherInformation(Items(pattern), prob, theta));
  }

  // ---------------------------------------------------------------------
  // Derivatives

  /** The second derivative is the summed Fisher information, negated. */
  lemma DDLogLikelihoodIsNegatedInformation(pattern: seq<Response>, prob: ProbabilityModel, theta: real)
    ensures DDLogLikelihood(pattern, prob, theta) == -TotalInformation(pattern, prob, theta)
  {
    var terms := seq(|pattern|, i requires 0 <= i < |pattern| =>
      ItemInformation(pattern[i].item.a, prob(pattern[i].item.a, pattern[i].item.b, theta)));
    assert terms == FisherInformation(Items(pattern), prob, theta);
  }

  /** The log-likelihood is concave: its second derivative is never positive. */
  lemma DDLogLikelihoodNonPositive(pattern: seq<Response>, prob: ProbabilityModel, theta: real)
    requires IsProbabilityModel(prob)
    ensures DDLogLikelihood(pattern, prob, theta) <= 0.0
  {
    DDLogLikelihoodIsNegatedInformation(pattern, prob, theta);
    TotalInformationNonNegative(pattern, prob, theta);
  }

  /** One discriminating item whose probability is strictly inside (0, 1)
      makes the second derivative strictly negative, so Newton's step is defined. */
  lemma DDLogLikelihoodNegative(pattern: seq<Response>, prob: ProbabilityModel, theta: real, k: nat)
    requires IsProbabilityModel(prob)
    requires k < |pattern| && pattern[k].item.a != 0.0
    requires 0.0 < prob(pattern[k].item.a, pattern[k].item.b, theta) < 1.0
    ensures DDLogLikelihood(pattern, prob, theta) < 0.0
  {
    var info := FisherInformation(Items(pattern), prob, theta);
    var a, p := pattern[k].item.a, prob(pattern[k].item.a, pattern[k].item.b, theta);
    assert info[k] == ItemInformation(a, p);
    InformationPositive(a, p);
    FisherInformationNonNegative(Items(pattern), prob, theta);
    SumPositive(info, k);
    DDLogLikelihoodIsNegatedInformation(pattern, prob, theta);
  }

  /** With every answer correct, every a positive and every probability
      below 1, the score is positive at θ: the likelihood keeps rising. */
  lemma AllCorrectScorePositive(pattern: seq<Response>, prob: ProbabilityModel, theta: real)
    requires pattern != []
    requires forall i :: 0 <= i < |pattern| ==> pattern[i].u == 1.0 && 0.0 < pattern[i].item.a
    requires forall i :: 0 <= i < |pattern| ==> prob(pattern[i].item.a, pattern[i].item.b, theta) < 1.0
    ensures 0.0 < DLogLikelihood(pattern, prob, theta)
  {
    var terms := ScoreTerms(pattern, prob, theta);
    forall i | 0 <= i < |terms| ensures 0.0 < terms[i] {
      var a, p := pattern[i].item.a, prob(pattern[i].item.a, pattern[i].item.b, theta);
      var da := D * a;
      assert 0.0 < da;
      var q := 1.0 - p;
      assert 0.0 < q;
      assert terms[i] == ScoreTerm(pattern[i], prob, theta) == da * q;
      assert 0.0 < da * q;
    }
    SumPositive(terms, 0);
  }

  /** With every answer wrong, every a positive and every probability above
      0, the score is negative at θ: the likelihood keeps falling. */
  lemma AllWrongScoreNegative(pattern: seq<Response>, prob: ProbabilityModel, theta: real)
    requires pattern != []
    requires forall i :: 0 <= i < |pattern| ==> pattern[i].u == 0.0 && 0.0 < pattern[i].item.a
    requires forall i :: 0 <= i < |pattern| ==> 0.0 < prob(pattern[i].item.a, pattern[i].item.b, theta)
    ensures DLogLikelihood(pattern, prob, theta) < 0.0
  {
    var terms := ScoreTerms(pattern, prob, theta);
    forall i | 0 <= i < |terms| ensures terms[i] < 0.0 {
      var a, p := pattern[i].item.a, prob(pattern[i].item.a, pattern[i].item.b, theta);
      var da := D * a;
      assert 0.0 < da;
      assert terms[i] == ScoreTerm(pattern[i], prob, theta) == -(da * p);
      assert 0.0 < da * p;
    }
    SumNegative(terms);
  }

  // ---------------------------------------------------------------------
  // Order of the responses

  /** The score of a pattern is the score of its first part plus the score
      of its second part, so the order in which items were answered does not
      matter to it. */
  lemma DLogLikelihoodConcat(p1: seq<Response>, p2: seq<Response>, prob: ProbabilityModel, theta: real)
    ensures DLogLikelihood(p1 + p2, prob, theta) == DLogLikelihood(p1, prob, theta) + DLogLikelihood(p2, prob, theta)
    ensures DLogLikelihood(p1 + p2, prob, theta) == DLogLikelihood(p2 + p1, prob, theta)
  {
    assert ScoreTerms(p1 + p2, prob, theta) == ScoreTerms(p1, prob, theta) + ScoreTerms(p2, prob, theta);
    assert ScoreTerms(p2 + p1, prob, theta) == ScoreTerms(p2, prob, theta) + ScoreTerms(p1, prob, theta);
    SumConcat(ScoreTerms(p1, prob, theta), ScoreTerms(p2, prob, theta));
    SumConcat(ScoreTerms(p2, prob, theta), ScoreTerms(p1, prob, theta));
  }

  /** The same holds for the summed information, hence for the second
      derivative and the standard error built from it. */
  lemma TotalInformationConcat(p1: seq<Response>, p2: seq<Response>, prob: ProbabilityModel, theta: real)
    ensures TotalInformation(p1 + p2, prob, theta) == TotalInformation(p1, prob, theta) + TotalInformation(p2, prob, theta)
    ensures TotalInformation(p1 + p2, prob, theta) == TotalInformation(p2 + p1, prob, theta)
  {
    var i1, i2 := FisherInformation(Items(p1), prob, theta), FisherInformation(Items(p2), prob, theta);
    assert FisherInformation(Items(p1 + p2), prob, theta) == i1 + i2;
    assert FisherInformation(Items(p2 + p1), prob, theta) == i2 + i1;
    SumConcat(i1, i2);
    SumConcat(i2, i1);
  }

  /** Answering one more item adds that item's term 1.7 · a · (u - p) to
      the score; with no items the score is zero. Together these pin the
      score down as the sum of the per-item terms. */
  lemma DLogLikelihoodStep(pattern: seq<Response>, r: Response, prob: ProbabilityModel, theta: real)
    ensures DLogLikelihood([], prob, theta) == 0.0
    ensures DLogLikelihood(pattern + [r], prob, theta) ==
      DLogLikelihood(pattern, prob, theta) + D * r.item.a * (r.u - prob(r.item.a, r.item.b, theta))
  {
    DLogLikelihoodConcat(pattern, [r], prob, theta);
    assert ScoreTerms([r], prob, theta) == [ScoreTerm(r, prob, theta)];
    assert Sum([ScoreTerm(r, prob, theta)]) == ScoreTerm(r, prob, theta) + Sum([]);
  }

  /** Answering one more item lowers the second derivative by that item's
      information 1.7² · a² · p · (1 - p). */
  lemma DDLogLikelihoodStep(pattern: seq<Response>, r: Response, prob: ProbabilityModel, theta: real)
    ensures DDLogLikelihood([], prob, theta) == 0.0
    ensures DDLogLikelihood(pattern + [r], prob, theta) ==
      DDLogLikelihood(pattern, prob, theta) - ItemInformation(r.item.a, prob(r.item.a, r.item.b, theta))
  {
    DDLogLikelihoodIsNegatedInformation(pattern + [r], prob, theta);
    DDLogLikelihoodIsNegatedInformation(pattern, prob, theta);
    TotalInformationConcat(pattern, [r], prob, theta);
    var info := FisherInformation(Items([r]), prob, theta);
    assert info == [ItemInformation(r.item.a, prob(r.item.a, r.item.b, theta))];
    assert Sum(info) == info[0] + Sum([]);
  }
}
