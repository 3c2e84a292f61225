/** `get_next_trait_estimate`: from the response pattern so far and the
    previous trait estimate θ, one Newton-Raphson run on the log-likelihood's
    first derivative, then the reporting policy around it (clipping to
    [-4, 4], the standard error and the end-of-test rule).

    `scipy.optimize.newton` and `np.sqrt` are not modelled: the handler takes
    them as parameters. The model pins down what is passed to Newton and
    what is done with its result. */
module Estimator {
  import opened Events
  import opened Irt

  /** Responses needed before the test may end (`MIN_Q_COUNT`). */
  const MinQCount: nat := 15

  /** Responses before Newton may take more than one step (`Q_START`). */
  const QStart: nat := 5

  /** Newton's absolute tolerance. */
  const Tolerance: real := 0.001

  /** The reported estimate is clipped to [TraitMin, TraitMax]. */
  const TraitMin: real := -4.0
  const TraitMax: real := 4.0

  /** The largest standard error at which the test may end. */
  const MaxStandardError: real := 0.3

  const ResponsePatternKey: string := "responsePattern"
  const PreviousEstimateKey: string := "previousLatentTraitEstimate"

  const MalformedMessage: string :=
    "Malformed Input. Requires responsePattern as [Response]! and previousLatentTraitEstimate as Float"

  /** The arguments the handler hands to `scipy.optimize.newton`. */
  datatype NewtonCall = NewtonCall(f: real -> real, fprime: real -> real, x0: real, tol: real, maxiter: nat)

  /** What `newton(..., full_output=True)` gives back: the last iterate and,
      from its RootResults, the iteration count and the convergence flag. */
  datatype NewtonResult = NewtonResult(root: real, iterations: nat, converged: bool)

  type NewtonSolver = NewtonCall -> NewtonResult

  /** `np.sqrt(1 / np.sum(info))` as numpy computes it: a zero sum divides to
      infinity, a negative one takes the root of a negative number. */
  datatype StandardError = Finite(value: real) | Infinite | NotANumber

  /** The reply body of a successful call. */
  datatype Estimation = Estimation(
    latentTraitEstimate: real,
    rawEstimate: real,
    isClipped: bool,
    standardError: StandardError,
    noIter: nat,
    isConverged: bool,
    isEnd: bool)

  /** `max(q_count - Q_START, 1)`: Newton's iteration cap. */
  function IterationCap(qCount: nat): (cap: nat)
    ensures 1 <= cap && qCount - QStart <= cap
    ensures cap == 1 || cap == qCount - QStart
  {
    if qCount - QStart > 1 then qCount - QStart else 1
  }

  /** The cap is a single step up to six responses and grows by one with
      every response after that. */
  lemma IterationCapCases(qCount: nat)
    ensures qCount <= QStart + 1 ==> IterationCap(qCount) == 1
    ensures QStart + 1 < qCount ==> IterationCap(qCount) == qCount - QStart
    ensures IterationCap(qCount) <= IterationCap(qCount + 1)
  {
  }

  function Distance(x: real, y: real): real
  {
    if x <= y then y - x else x - y
  }

  /** `np.clip(x, -4, 4)`: the point of [-4, 4] nearest to `x`. */
  function Clip(x: real): (r: real)
    ensures TraitMin <= r <= TraitMax
    ensures TraitMin <= x <= TraitMax ==> r == x
    ensures forall y :: TraitMin <= y <= TraitMax ==> Distance(r, x) <= Distance(y, x)
  {
    if x < TraitMin then TraitMin else if TraitMax < x then TraitMax else x
  }

  /** Clipping an estimate that is already clipped changes nothing, and
      clipping keeps the order of estimates. */
  lemma ClipIdempotentMonotone(x: real, y: real)
    ensures Clip(Clip(x)) == Clip(x)
    ensures x <= y ==> Clip(x) <= Clip(y)
  {
  }

  /** The `isClipped` flag: the clipped estimate sits on one of the bounds. */
  predicate OnBound(t: real)
  {
    t == TraitMin || t == TraitMax
  }

  /** A clipped estimate sits on a bound exactly when the raw estimate lay on
      or beyond it; a raw estimate of exactly ±4 counts as clipped. */
  lemma OnBoundIff(raw: real)
    ensures OnBound(Clip(raw)) <==> raw <= TraitMin || TraitMax <= raw
  {
  }

  /** The standard error of a pattern at trait level θ. */
  function StdError(pattern: seq<Response>, prob: ProbabilityModel, sqrt: real -> real, theta: real): StandardError
  {
    var total := TotalInformation(pattern, prob, theta);
    if total == 0.0 then Infinite
    else if total < 0.0 then NotANumber
    else Finite(sqrt(1.0 / total))
  }

  /** The end-of-test rule `q_count >= MIN_Q_COUNT and std_err <= 0.3`; an
      infinite or undefined standard error compares false. */
  predicate TestEnds(qCount: nat, se: StandardError)
  {
    MinQCount <= qCount && se.Finite? && se.value <= MaxStandardError
  }

  /** `sqrt` is the exact square root on the non-negative reals. */
  ghost predicate IsSquareRoot(sqrt: real -> real)
  {
    forall x :: 0.0 <= x ==> 0.0 <= sqrt(x) && sqrt(x) * sqrt(x) == x
  }

  /** The call the handler makes: the score as the function, the second
      derivative as its derivative, the previous estimate as the start. */
  function NewtonRequest(pattern: seq<Response>, prob: ProbabilityModel, theta: real): (c: NewtonCall)
    ensures c.x0 == theta && c.tol == Tolerance
    ensures c.maxiter == IterationCap(|pattern|) && 1 <= c.maxiter
    ensures forall t :: c.f(t) == DLogLikelihood(pattern, prob, t)
    ensures forall t :: c.fprime(t) == DDLogLikelihood(pattern, prob, t)
  {
    NewtonCall(DLogLikelihoodF(pattern, prob), DDLogLikelihoodF(pattern, prob), theta, Tolerance, IterationCap(|pattern|))
  }

  /** The numeric part of the handler, on an already read pattern. The
      standard error is taken at the previous estimate `theta`, before the
      estimate is replaced by Newton's result. */
  function Estimate(pattern: seq<Response>, theta: real, prob: ProbabilityModel, newton: NewtonSolver, sqrt: real -> real): (e: Estimation)
    ensures TraitMin <= e.latentTraitEstimate <= TraitMax
    ensures e.latentTraitEstimate == Clip(e.rawEstimate)
    ensures e.rawEstimate == newton(NewtonRequest(pattern, prob, theta)).root
    ensures e.noIter == newton(NewtonRequest(pattern, prob, theta)).iterations
    ensures e.isConverged == newton(NewtonRequest(pattern, prob, theta)).converged
    ensures TraitMin < e.rawEstimate < TraitMax ==> e.latentTraitEstimate == e.rawEstimate
    ensures e.isClipped <==> OnBound(e.latentTraitEstimate)
    ensures e.isClipped <==> e.rawEstimate <= TraitMin || TraitMax <= e.rawEstimate
    ensures e.standardError == StdError(pattern, prob, sqrt, theta)
    ensures e.isEnd <==> MinQCount <= |pattern| && e.standardError.Finite? && e.standardError.value <= MaxStandardError
  {
    var res := newton(NewtonRequest(pattern, prob, theta));
    var stdErr := StdError(pattern, prob, sqrt, theta);
    var t := Clip(res.root);
    OnBoundIff(res.root);
    Estimation(t, res.root, OnBound(t), stdErr, res.iterations, res.converged, TestEnds(|pattern|, stdErr))
  }

  /** One response read from the list: `x['a']`, `x['b']`, `x['isCorrect']`. */
  function DecodeResponse(x: Json): Option<Response>
  {
    match (NumberField(x, "a"), NumberField(x, "b"), NumberField(x, "isCorrect"))
    case (Some(a), Some(b), Some(u)) => Some(Response(Item(a, b), u))
    case _ => None
  }

  /** The handler `get_next_trait_estimate`. */
  function GetNextTraitEstimate(event: Event, prob: ProbabilityModel, newton: NewtonSolver, sqrt: real -> real): (r: Reply<Estimation>)
    ensures r.Malformed? <==>
      !(&& ResponsePatternKey in event
        && PreviousEstimateKey in event
        && event[ResponsePatternKey].JList?
        && |event[ResponsePatternKey].items| > 0
        && event[PreviousEstimateKey].JFloat?)
    ensures r.Malformed? ==> r.message == MalformedMessage
    ensures r.Raised? <==>
      (&& !r.Malformed?
       && exists i :: 0 <= i < |event[ResponsePatternKey].items| && DecodeResponse(event[ResponsePatternKey].items[i]).None?)
    ensures r.Success? ==>
      var items := event[ResponsePatternKey].items;
      var pattern := DecodeAll(items, DecodeResponse).value;
      && |pattern| == |items|
      && (forall i :: 0 <= i < |items| ==> DecodeResponse(items[i]) == Some(pattern[i]))
      && r.body == Estimate(pattern, event[PreviousEstimateKey].f, prob, newton, sqrt)
  {
    if !WellFormed(event, ResponsePatternKey, PreviousEstimateKey) then
      Malformed(MalformedMessage)
    else
      match DecodeAll(event[ResponsePatternKey].items, DecodeResponse)
      case None => Raised
      case Some(pattern) => Success(Estimate(pattern, event[PreviousEstimateKey].f, prob, newton, sqrt))
  }

  // ---------------------------------------------------------------------
  // Properties of the handler

  /** An int where the float is expected is rejected like a missing key:
      `0` is malformed where `0.0` is not. */
  lemma IntegerEstimateRejected(event: Event, prob: ProbabilityModel, newton: NewtonSolver, sqrt: real -> real)
    requires PreviousEstimateKey in event && event[PreviousEstimateKey].JInt?
    ensures GetNextTraitEstimate(event, prob, newton, sqrt).Malformed?
    ensures GetNextTraitEstimate(event, prob, newton, sqrt).StatusCode() == 500
  {
  }

  /** Whatever Newton returns, the reported standard error is the same: it
      depends on the previous estimate and the items only. */
  lemma StandardErrorIgnoresNewton(pattern: seq<Response>, theta: real, prob: ProbabilityModel,
                                   n1: NewtonSolver, n2: NewtonSolver, sqrt: real -> real)
    ensures Estimate(pattern, theta, prob, n1, sqrt).standardError == Estimate(pattern, theta, prob, n2, sqrt).standardError
  {
  }

  /** Fourteen responses never end the test, whatever the standard error. */
  lemma FewResponsesNeverEnd(pattern: seq<Response>, theta: real, prob: ProbabilityModel, newton: NewtonSolver, sqrt: real -> real)
    requires |pattern| < MinQCount
    ensures !Estimate(pattern, theta, prob, newton, sqrt).isEnd
  {
  }

  /** When Newton keeps to its cap, the reported iteration count stays within
      `max(n - 5, 1)`. */
  lemma IterationsWithinCap(pattern: seq<Response>, theta: real, prob: ProbabilityModel, newton: NewtonSolver, sqrt: real -> real)
    requires forall c :: newton(c).iterations <= c.maxiter
    ensures Estimate(pattern, theta, prob, newton, sqrt).noIter <= IterationCap(|pattern|)
  {
    assert newton(NewtonRequest(pattern, prob, theta)).iterations <= NewtonRequest(pattern, prob, theta).maxiter;
  }

  lemma MulNonNegative(x: real, y: real)
    requires 0.0 <= x && 0.0 <= y
    ensures 0.0 <= x * y
  {
  }

  lemma MulNegative(x: real, y: real)
    requires 0.0 < x && y < 0.0
    ensures x * y < 0.0
  {
  }

  /** For a root s ≥ 0 of v, s ≤ 0.3 exactly when v ≤ 0.09. */
  lemma RootAtMost(s: real, v: real)
    requires 0.0 <= s && s * s == v
    ensures s <= MaxStandardError <==> v <= 0.09
  {
    var g := MaxStandardError - s;
    if s <= MaxStandardError {
      MulNonNegative(s, g);
    } else {
      MulNegative(s, g);
    }
  }

  /** With an exact square root, the test ends exactly when at least fifteen
      items were answered and their summed information at the previous
      estimate is at least 1 / 0.3² = 100/9. */
  lemma EndIffInformation(pattern: seq<Response>, theta: real, prob: ProbabilityModel, newton: NewtonSolver, sqrt: real -> real)
    requires IsProbabilityModel(prob) && IsSquareRoot(sqrt)
    ensures Estimate(pattern, theta, prob, newton, sqrt).isEnd <==>
      MinQCount <= |pattern| && 100.0 / 9.0 <= TotalInformation(pattern, prob, theta)
  {
    var total := TotalInformation(pattern, prob, theta);
    TotalInformationNonNegative(pattern, prob, theta);
    if total > 0.0 {
      var v := 1.0 / total;
      assert v * total == 1.0;
      var s := sqrt(v);
      assert 0.0 <= v;
      RootAtMost(s, v);
      assert v <= 0.09 <==> 100.0 / 9.0 <= total by {
        if v <= 0.09 {
          assert 1.0 <= 0.09 * total;
        } else {
          assert 0.09 * total < 1.0;
        }
      }
    }
  }
}
