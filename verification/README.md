# klassbits IRT Lambda: a verified model of the estimator and the item selector

The repository is a computerized adaptive test (CAT) back end built on the
two-parameter logistic (2PL) item response model. It has two AWS Lambda
handlers:

- `get_next_trait_estimate` reads a test-taker's response pattern and the
  previous latent trait estimate θ. It runs Newton-Raphson on the derivative
  of the log-likelihood, clips the result to [-4, 4], reports a standard
  error and decides whether the test ends.
- `select_question_from_fisher_information` computes the Fisher information
  of every candidate question at θ. It finds all questions that tie for the
  maximum and picks one of them at random.

The model is written in Dafny as pure functions and lemmas, matching the
source, which has no loops and no mutable state outside the libraries it
calls:

- `events.dfy` (module `Events`): the parsed JSON event, the input guard the
  two handlers share, the reading of list elements, and the three outcomes
  of a call. The outcomes are a status-500 "Malformed Input" reply, a
  status-200 reply, and an exception escaping the handler.
- `irt.dfy` (module `Irt`): per-item Fisher information, and the first and
  second derivatives of the log-likelihood as sums over the answered items.
- `estimator.dfy` (module `Estimator`): the handler `get_next_trait_estimate`
  and its result policy.
- `selector.dfy` (module `Selector`): the handler
  `select_question_from_fisher_information` and its tie set.

Floating-point values are modelled as `real`. The model takes four things as
parameters instead of computing them:

- the 2PL probability `1 / (1 + exp(-1.7·a·(θ - b)))`; lemmas assume only
  that every value lies in [0, 1];
- `scipy.optimize.newton`; the model pins down exactly which call is made
  and how its result is used;
- `np.sqrt`; one lemma assumes it is the exact square root;
- the random draw `rng.choice`; the only assumption is that the drawn index
  is within range.

Because the draw is a parameter, a property proved for every draw holds for
every outcome of the random tie-break.

Facts about the code that the model keeps as written:

- `isClipped` is computed from the clipped value (handler.py:67, :74), so a
  raw estimate of exactly -4 or 4 also counts as clipped.
- The guard (handler.py:43, :115) accepts any Python float as the trait
  estimate, including infinities and NaN; it rejects the int `0` but
  accepts `0.0`.
- An element of the list that lacks a field, or has a non-numeric one, makes
  the handler raise (handler.py:50-52, :125-127) instead of answering
  "Malformed Input".
- The comment at handler.py:64 says `max(q_count - 10, 1)`, but the code
  uses `Q_START = 5`. The model follows the code.
- Newton is called with `full_output=True` and `disp=False` (handler.py:65).
  These appear in the model only through the shape of the result (root,
  iteration count, convergence flag) and through the call never raising on
  non-convergence.

## Model

| member | source | states |
|---|---|---|
| Events.Reply.StatusCode | klassbits-irt-lambda/handler.py:44-47 | a reply returned normally has status 500 exactly when it is the malformed-input reply and 200 exactly when it carries a result |
| Events.NumberField | klassbits-irt-lambda/handler.py:50-57 | reading a numeric field succeeds exactly when the element is a dict holding the key with a bool, int or float value |
| Events.DecodeAll | klassbits-irt-lambda/handler.py:50-52 | a list comprehension over the elements succeeds exactly when every element can be read; the result has one entry per element, in order |
| Irt.InformationNonNegative | klassbits-irt-lambda/handler.py:171-173 | item information 1.7²·a²·p·(1-p) is non-negative for p in [0, 1] |
| Irt.InformationPositive | klassbits-irt-lambda/handler.py:171-173 | item information is strictly positive when a ≠ 0 and 0 < p < 1 |
| Irt.InformationPeaksAtHalf | klassbits-irt-lambda/handler.py:171-173 | for a ≠ 0 an item informs at most what it informs at p = 1/2, and exactly that only at p = 1/2 |
| Irt.FisherInformation | klassbits-irt-lambda/handler.py:171-173 | the information vector has one entry per item |
| Irt.FisherInformationNonNegative | klassbits-irt-lambda/handler.py:171-173 | every entry of the information vector is non-negative for any probability model |
| Irt.TotalInformationNonNegative | klassbits-irt-lambda/handler.py:66 | the summed information under the standard error is non-negative |
| Irt.DLogLikelihoodStep | klassbits-irt-lambda/handler.py:185-187 | the first derivative is zero for no items, and one more answered item adds 1.7·a·(u - p) to it, so it is Σ 1.7·aᵢ·(uᵢ - pᵢ) |
| Irt.DDLogLikelihoodStep | klassbits-irt-lambda/handler.py:200-202 | the second derivative is zero for no items, and one more answered item lowers it by that item's information |
| Irt.DDLogLikelihoodIsNegatedInformation | klassbits-irt-lambda/handler.py:200-202 | the second derivative equals the summed Fisher information of the pattern, negated |
| Irt.DDLogLikelihoodNonPositive | klassbits-irt-lambda/handler.py:200-202 | the second derivative is never positive when every probability is in [0, 1] |
| Irt.DDLogLikelihoodNegative | klassbits-irt-lambda/handler.py:200-202 | one item with a ≠ 0 and 0 < p < 1 makes the second derivative strictly negative |
| Irt.AllCorrectScorePositive | klassbits-irt-lambda/handler.py:185-187 | with all answers correct, every a > 0 and every p < 1, the first derivative is positive |
| Irt.AllWrongScoreNegative | klassbits-irt-lambda/handler.py:185-187 | with all answers wrong, every a > 0 and every p > 0, the first derivative is negative |
| Irt.DLogLikelihoodConcat | klassbits-irt-lambda/handler.py:185-187 | the first derivative of a pattern is the sum over its two parts and does not depend on their order |
| Irt.TotalInformationConcat | klassbits-irt-lambda/handler.py:171-173 | the summed information of a pattern is the sum over its two parts and does not depend on their order |
| Estimator.IterationCap | klassbits-irt-lambda/handler.py:65 | Newton's cap max(n - Q_START, 1), with Q_START = 5 (handler.py:10), is at least 1 and at least n - 5, and is one of the two |
| Estimator.IterationCapCases | klassbits-irt-lambda/handler.py:65 | the cap is 1 for n ≤ 6 and n - 5 otherwise, and it never shrinks as n grows |
| Estimator.Clip | klassbits-irt-lambda/handler.py:67 | the clipped estimate lies in [-4, 4], equals the raw value when that is in range, and is the point of [-4, 4] nearest to the raw value |
| Estimator.ClipIdempotentMonotone | klassbits-irt-lambda/handler.py:67 | clipping twice is clipping once, and clipping keeps the order of estimates |
| Estimator.OnBoundIff | klassbits-irt-lambda/handler.py:74 | the clipped estimate sits on -4 or 4 exactly when the raw estimate is ≤ -4 or ≥ 4 |
| Estimator.NewtonRequest | klassbits-irt-lambda/handler.py:62-65 | Newton is asked for a root of the first derivative, with the second derivative as its derivative, the previous estimate as the start, tolerance 0.001 and exactly the cap max(n - 5, 1) |
| Estimator.Estimate | klassbits-irt-lambda/handler.py:59-79 | the reported estimate is the raw root clipped to [-4, 4], so it lies in that range and equals the raw root strictly inside it; raw root, iteration count and convergence come from the Newton call; isClipped holds exactly when the reported estimate is -4 or 4, that is when raw ≤ -4 or raw ≥ 4; the standard error is taken at the previous estimate; isEnd holds exactly when n ≥ 15 and the standard error is finite and ≤ 0.3 |
| Estimator.GetNextTraitEstimate | klassbits-irt-lambda/handler.py:41-86 | the malformed-input reply with its exact message comes back exactly when a key is missing, the pattern is not a non-empty list, or the previous estimate is not a float; otherwise the handler raises exactly when some element cannot be read; a success carries the estimate of the elements read in order |
| Estimator.IntegerEstimateRejected | klassbits-irt-lambda/handler.py:43 | an int previous estimate gets the status-500 reply |
| Estimator.StandardErrorIgnoresNewton | klassbits-irt-lambda/handler.py:66-67 | the standard error is the same whatever Newton returns |
| Estimator.FewResponsesNeverEnd | klassbits-irt-lambda/handler.py:78 | fewer than MIN_Q_COUNT = 15 responses (handler.py:9) never end the test |
| Estimator.IterationsWithinCap | klassbits-irt-lambda/handler.py:65 | if Newton keeps to its cap, the reported iteration count is at most max(n - 5, 1) |
| Estimator.EndIffInformation | klassbits-irt-lambda/handler.py:66-78 | with an exact square root, the test ends exactly when n ≥ 15 and the summed information at the previous estimate is at least 100/9 |
| Selector.Max | klassbits-irt-lambda/handler.py:136 | the maximum is an element of the vector and bounds every element |
| Selector.IndicesEqual | klassbits-irt-lambda/handler.py:136 | the indices at which the vector equals a value, exactly those and in ascending order |
| Selector.TieIndices | klassbits-irt-lambda/handler.py:136 | the tie set is non-empty and holds exactly the indices whose information no other candidate exceeds |
| Selector.Choose | klassbits-irt-lambda/handler.py:138 | the drawn index is a member of the tie set |
| Selector.Select | klassbits-irt-lambda/handler.py:134-144 | the chosen index is within the list, the reported id is the id at that index, the reported maximum is the chosen question's information, and no candidate informs more |
| Selector.EveryTiedQuestionCanBeChosen | klassbits-irt-lambda/handler.py:136-138 | every question that no other candidate exceeds is chosen by some draw |
| Selector.IdenticalQuestionsBothChosen | klassbits-irt-lambda/handler.py:136-138 | two maximal questions with the same parameters can each be chosen |
| Selector.SelectQuestionFromFisherInformation | klassbits-irt-lambda/handler.py:113-152 | the malformed-input reply with its exact message comes back exactly when a key is missing, the list is not a non-empty list, or the trait estimate is not a float; otherwise the handler raises exactly when some question cannot be read; a success carries the selection over the questions read in order |
| Selector.SuccessIsBestQuestion | klassbits-irt-lambda/handler.py:134-144 | a successful reply names a question of the input list, at an index inside it, with the id read from that element, whose information no candidate exceeds |

## Left out

- `two_pl` (handler.py:154-169) is not modelled: its `exp` and its numpy broadcasting between scalar and vector θ have no counterpart over the reals. The probability function is a parameter.
- `scipy.optimize.newton` is a parameter. Its iteration, its convergence test and its behaviour on a zero derivative are not modelled.
- Estimator.EndIffInformation: assumes `np.sqrt` is the exact square root. Float rounding of `1 / Σ` and of the root is not modelled.
- The random generator `np.random.default_rng()` is not modelled: neither its seeding from the operating system nor the uniform distribution of its draws. The model quantifies over every draw within range.
- Floating-point rounding, overflow, infinities and NaN are not modelled. That includes an infinite or NaN trait estimate that the guard lets through.
- Selector.TieIndices: uses exact equality against the maximum, as the code does. Platform-dependent rounding of the information values is not modelled.
- Elements whose numeric fields are nested lists or other values that numpy would broadcast instead of rejecting are not modelled. Only bool, int and float read as numbers; any other value makes the handler raise.
- The JSON status-code envelopes, `json.dumps` of the body, the constant `"message": "Success"` field of the selection body, the unused `context` argument and the `unzip_requirements` import are not modelled.
- The `c` field of a question is never read by the code, so it is not modelled.
