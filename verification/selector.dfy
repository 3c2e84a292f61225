/** `select_question_from_fisher_information`: the Fisher information of
    every candidate at the current trait estimate, the set of candidates
    whose information equals the largest, and one of them drawn at random.

    The random generator (`np.random.default_rng()`, seeded from the
    operating system) is a parameter: `draw(n)` is the index in [0, n) that
    `rng.choice` takes from an array of length n. Nothing is assumed of the
    draw beyond that range, so a property proved for every draw holds of
    every outcome of the random choice. */
module Selector {
  import opened Events
  import opened Irt

  const QuestionListKey: string := "questionList"
  const TraitKey: string := "latentTraitEstimate"

  const MalformedMessage: string :=
    "Malformed Input. Requires questionList as [Question]! and latentTraitEstimate as Float"

  /** A candidate item; its identifier is passed through as given. */
  datatype Question = Question(questionID: Json, item: Item)

  /** The reply body of a successful call. */
  datatype Selection = Selection(questionID: Json, itemIndex: nat, maxFisherInformation: real)

  /** `rng.integers(0, n)`, the index `rng.choice` takes. */
  type IndexDraw = nat -> nat

  ghost predicate IsIndexDraw(draw: IndexDraw)
  {
    forall n: nat :: 0 < n ==> draw(n) < n
  }

  /** `np.max`. */
  function Max(xs: seq<real>): (m: real)
    requires xs != []
    ensures m in xs
    ensures forall i :: 0 <= i < |xs| ==> xs[i] <= m
  {
    if |xs| == 1 then xs[0]
    else
      var rest := Max(xs[1..]);
      if xs[0] < rest then rest else xs[0]
  }

  /** `np.where(xs == m)[0]` from index `k` on: the indices at which `xs`
      equals `m`, in ascending order. */
  function IndicesEqual(xs: seq<real>, m: real, k: nat): (r: seq<nat>)
    requires k <= |xs|
    ensures forall j :: j in r <==> k <= j < |xs| && xs[j] == m
    ensures forall i, j :: 0 <= i < j < |r| ==> r[i] < r[j]
    decreases |xs| - k
  {
    if k == |xs| then []
    else
      var rest := IndicesEqual(xs, m, k + 1);
      if xs[k] == m then
        assert forall i :: 0 <= i < |rest| ==> rest[i] in rest;
        [k] + rest
      else rest
  }

  /** The tie set: every index whose information equals the maximum. */
  function TieIndices(info: seq<real>): (tie: seq<nat>)
    requires info != []
    ensures tie != []
    ensures forall j :: j in tie <==> 0 <= j < |info| && forall i :: 0 <= i < |info| ==> info[i] <= info[j]
  {
    var m := Max(info);
    var tie := IndicesEqual(info, m, 0);
    forall j | 0 <= j < |info|
      ensures info[j] == m <==> forall i :: 0 <= i < |info| ==> info[i] <= info[j]
    {
      if forall i :: 0 <= i < |info| ==> info[i] <= info[j] {
        var w :| 0 <= w < |info| && info[w] == m;
        assert info[w] <= info[j];
      }
    }
    var w :| 0 <= w < |info| && info[w] == m;
    assert w in tie;
    tie
  }

  /** `rng.choice(tie)`. */
  function Choose(tie: seq<nat>, draw: IndexDraw): (k: nat)
    requires tie != [] && IsIndexDraw(draw)
    ensures k in tie
  {
    tie[draw(|tie|)]
  }

  /** The item parameters of a question list, in order (the arrays `a`, `b`). */
  function QuestionItems(questions: seq<Question>): (items: seq<Item>)
    ensures |items| == |questions|
  {
    seq(|questions|, i requires 0 <= i < |questions| => questions[i].item)
  }

  /** The numeric part of the handler, on an already read question list:
      the chosen index is in range, nothing informs more than it does, and
      the reported maximum is its information. */
  function Select(questions: seq<Question>, theta: real, prob: ProbabilityModel, draw: IndexDraw): (s: Selection)
    requires questions != [] && IsIndexDraw(draw)
    ensures s.itemIndex < |questions|
    ensures s.questionID == questions[s.itemIndex].questionID
    ensures var info := FisherInformation(QuestionItems(questions), prob, theta);
      && s.maxFisherInformation == info[s.itemIndex]
      && forall i :: 0 <= i < |questions| ==> info[i] <= s.maxFisherInformation
  {
    var info := FisherInformation(QuestionItems(questions), prob, theta);
    var k := Choose(TieIndices(info), draw);
    Selection(questions[k].questionID, k, Max(info))
  }

  /** Every candidate of the tie set is chosen by some draw: the random
      choice may land on any of them, and on nothing else. */
  lemma EveryTiedQuestionCanBeChosen(questions: seq<Question>, theta: real, prob: ProbabilityModel, k: nat)
    requires k < |questions|
    requires var info := FisherInformation(QuestionItems(questions), prob, theta);
      forall i :: 0 <= i < |questions| ==> info[i] <= info[k]
    ensures exists draw :: IsIndexDraw(draw) && Select(questions, theta, prob, draw).itemIndex == k
  {
    var info := FisherInformation(QuestionItems(questions), prob, theta);
    var tie := TieIndices(info);
    assert k in tie;
    var pos :| 0 <= pos < |tie| && tie[pos] == k;
    var draw: IndexDraw := n => if n == |tie| then pos else 0;
    assert IsIndexDraw(draw);
    assert Select(questions, theta, prob, draw).itemIndex == k;
  }

  /** One question read from the list: `x['questionID']`, `x['a']`, `x['b']`. */
  function DecodeQuestion(x: Json): Option<Question>
  {
    match (Field(x, "questionID"), NumberField(x, "a"), NumberField(x, "b"))
    case (Some(id), Some(a), Some(b)) => Some(Question(id, Item(a, b)))
    case _ => None
  }

  /** The handler `select_question_from_fisher_information`. */
  function SelectQuestionFromFisherInformation(event: Event, prob: ProbabilityModel, draw: IndexDraw): (r: Reply<Selection>)
    requires IsIndexDraw(draw)
    ensures r.Malformed? <==>
      !(&& QuestionListKey in event
        && TraitKey in event
        && event[QuestionListKey].JList?
        && |event[QuestionListKey].items| > 0
        && event[TraitKey].JFloat?)
    ensures r.Malformed? ==> r.message == MalformedMessage
    ensures r.Raised? <==>
      (&& !r.Malformed?
       && exists i :: 0 <= i < |event[QuestionListKey].items| && DecodeQuestion(event[QuestionListKey].items[i]).None?)
    ensures r.Success? ==>
      var items := event[QuestionListKey].items;
      var questions := DecodeAll(items, DecodeQuestion).value;
      && |questions| == |items|
      && (forall i :: 0 <= i < |items| ==> DecodeQuestion(items[i]) == Some(questions[i]))
      && r.body == Select(questions, event[TraitKey].f, prob, draw)
  {
    if !WellFormed(event, QuestionListKey, TraitKey) then
      Malformed(MalformedMessage)
    else
      match DecodeAll(event[QuestionListKey].items, DecodeQuestion)
      case None => Raised
      case Some(questions) => Success(Select(questions, event[TraitKey].f, prob, draw))
  }

  /** A successful reply names a question of the list, at an index inside
      the list, whose information at the trait estimate no candidate exceeds. */
  lemma SuccessIsBestQuestion(event: Event, prob: ProbabilityModel, draw: IndexDraw)
    requires IsIndexDraw(draw)
    requires SelectQuestionFromFisherInformation(event, prob, draw).Success?
    ensures var s := SelectQuestionFromFisherInformation(event, prob, draw).body;
      var items := event[QuestionListKey].items;
      var questions := DecodeAll(items, DecodeQuestion).value;
      var info := FisherInformation(QuestionItems(questions), prob, event[TraitKey].f);
      && s.itemIndex < |items|
      && DecodeQuestion(items[s.itemIndex]).value.questionID == s.questionID
      && forall i :: 0 <= i < |items| ==> info[i] <= info[s.itemIndex] == s.maxFisherInformation
  {
  }

  /** Two candidates with the same parameters tie (the pool
      [(a=1, b=0), (a=1, b=0)] at θ = 0): when nothing informs more, either
      one can be chosen. */
  lemma IdenticalQuestionsBothChosen(questions: seq<Question>, theta: real, prob: ProbabilityModel, i: nat, j: nat)
    requires i < |questions| && j < |questions| && questions[i].item == questions[j].item
    requires var info := FisherInformation(QuestionItems(questions), prob, theta);
      forall k :: 0 <= k < |questions| ==> info[k] <= info[i]
    ensures exists draw :: IsIndexDraw(draw) && Select(questions, theta, prob, draw).itemIndex == i
    ensures exists draw :: IsIndexDraw(draw) && Select(questions, theta, prob, draw).itemIndex == j
  {
    EveryTiedQuestionCanBeChosen(questions, theta, prob, i);
    EveryTiedQuestionCanBeChosen(questions, theta, prob, j);
  }
}
