/**
 * SemanticTextAssert: an assertion session on one actual text. The session
 * is seeded from a defaults snapshot, its three settings are overwritten by
 * the using* calls, and a terminal check decides an Outcome: an embedding
 * comparison (isSemanticallySimilarTo) or a verdict of a judge chat model
 * (matchesExpectationWithJudge).
 */
module TextAssert {
  import opened Wrappers
  import opened JavaString
  import opened Options
  import opened Backends
  import opened AiDefaults
  import opened Cosine
  import opened Judge
  import opened Normalizer

  /**
   * How a terminal check ends. Passed is a normal return; every other value
   * is an assertion failure carrying the data of its message, except
   * InvalidVectors, the invalid-argument error of cosine, which the check
   * lets through.
   */
  datatype Outcome =
    | Passed
    | NullActual
    | MissingEmbeddingModel
    | InvalidVectors(error: VectorError)
    | BelowThreshold(threshold: real, similarity: real, expected: Option<string>, actual: string)
    | MissingJudgeModel
    | Unparsable(raw: Option<string>)
    | JudgeRejected(minScore: real, pass: bool, score: real, reason: string, expectation: Option<string>, actual: string)

  // ---------------------------------------------------------------------
  // The embedding check
  // ---------------------------------------------------------------------

  /**
   * The decision on two embeddings: cosine's argument errors come through,
   * a similarity strictly below the threshold fails with threshold,
   * similarity and both texts, anything else passes.
   */
  function Verdict(va: Option<seq<real>>, vb: Option<seq<real>>, threshold: real,
                   expected: Option<string>, actual: string, sqrt: real -> real): (r: Outcome)
    requires IsSqrt(sqrt)
    ensures r.Passed? || r.InvalidVectors? || r.BelowThreshold?
    ensures r.InvalidVectors? <==> va.None? || vb.None? || |va.value| != |vb.value|
    ensures r.BelowThreshold? ==>
              r.threshold == threshold && -1.0 <= r.similarity < threshold &&
              r.expected == expected && r.actual == actual
    ensures r.BelowThreshold? ==>
              va.Some? && vb.Some? && |va.value| == |vb.value| && r.similarity == CosineOf(va.value, vb.value, sqrt)
    ensures r.Passed? ==> threshold <= 1.0
  {
    if va.None? || vb.None? then InvalidVectors(NullVector)
    else if |va.value| != |vb.value| then InvalidVectors(DimensionMismatch(|va.value|, |vb.value|))
    else
      var similarity := CosineOf(va.value, vb.value, sqrt);
      CosineBounded(va.value, vb.value, sqrt);
      if similarity < threshold then BelowThreshold(threshold, similarity, expected, actual)
      else Passed
  }

  /**
   * isSemanticallySimilarTo(expected) on a non-null actual with an embedding
   * model: both texts normalised with the session options, embedded, and
   * judged by Verdict against the embedding threshold.
   */
  function SimilarityOutcome(actual: string, expected: Option<string>, vectorOf: Option<string> -> Option<seq<real>>,
                             options: SemanticOptions, sqrt: real -> real): (r: Outcome)
    requires IsSqrt(sqrt)
    ensures var va, vb := vectorOf(Normalize(Some(actual), options)), vectorOf(Normalize(expected, options));
            r.Passed? <==>
              va.Some? && vb.Some? && |va.value| == |vb.value| &&
              CosineOf(va.value, vb.value, sqrt) >= options.embeddingThreshold
    ensures r.BelowThreshold? ==> r.threshold == options.embeddingThreshold && r.expected == expected && r.actual == actual
    ensures var va, vb := vectorOf(Normalize(Some(actual), options)), vectorOf(Normalize(expected, options));
            r.BelowThreshold? ==>
              va.Some? && vb.Some? && |va.value| == |vb.value| && r.similarity == CosineOf(va.value, vb.value, sqrt)
  {
    Verdict(vectorOf(Normalize(Some(actual), options)), vectorOf(Normalize(expected, options)),
            options.embeddingThreshold, expected, actual, sqrt)
  }

  /** On valid embeddings the check passes exactly when the cosine reaches the threshold. */
  lemma VerdictPassesIff(va: seq<real>, vb: seq<real>, threshold: real,
                         expected: Option<string>, actual: string, sqrt: real -> real)
    requires IsSqrt(sqrt) && |va| == |vb|
    ensures Verdict(Some(va), Some(vb), threshold, expected, actual, sqrt).Passed? <==>
              CosineOf(va, vb, sqrt) >= threshold
    ensures Verdict(Some(va), Some(vb), threshold, expected, actual, sqrt).BelowThreshold? <==>
              CosineOf(va, vb, sqrt) < threshold
  {
  }

  /** Lowering the threshold never turns a pass into a failure. */
  lemma VerdictMonotone(va: Option<seq<real>>, vb: Option<seq<real>>, t: real, t': real,
                        expected: Option<string>, actual: string, sqrt: real -> real)
    requires IsSqrt(sqrt) && t' <= t
    requires Verdict(va, vb, t, expected, actual, sqrt).Passed?
    ensures Verdict(va, vb, t', expected, actual, sqrt).Passed?
  {
  }

  /** Whether the check passes does not depend on which text is the actual and which the expected one. */
  lemma SimilaritySymmetric(x: string, y: string, vectorOf: Option<string> -> Option<seq<real>>,
                            options: SemanticOptions, sqrt: real -> real)
    requires IsSqrt(sqrt)
    ensures SimilarityOutcome(x, Some(y), vectorOf, options, sqrt).Passed? ==
            SimilarityOutcome(y, Some(x), vectorOf, options, sqrt).Passed?
  {
    var vx, vy := vectorOf(Normalize(Some(x), options)), vectorOf(Normalize(Some(y), options));
    if vx.Some? && vy.Some? && |vx.value| == |vy.value| {
      VerdictPassesIff(vx.value, vy.value, options.embeddingThreshold, Some(y), x, sqrt);
      VerdictPassesIff(vy.value, vx.value, options.embeddingThreshold, Some(x), y, sqrt);
      CosineSymmetric(vx.value, vy.value, sqrt);
    }
  }

  /**
   * Texts that normalise to the same string pass under any threshold of at
   * most 1, as long as their embedding has a non-zero element.
   */
  lemma SameNormalFormPasses(actual: string, expected: string, vectorOf: Option<string> -> Option<seq<real>>,
                             options: SemanticOptions, sqrt: real -> real)
    requires IsSqrt(sqrt) && options.embeddingThreshold <= 1.0
    requires Normalize(Some(actual), options) == Normalize(Some(expected), options)
    requires vectorOf(Normalize(Some(actual), options)).Some?
    requires exists i :: 0 <= i < |vectorOf(Normalize(Some(actual), options)).value| &&
                         vectorOf(Normalize(Some(actual), options)).value[i] != 0.0
    ensures SimilarityOutcome(actual, Some(expected), vectorOf, options, sqrt).Passed?
  {
    CosineSelf(vectorOf(Normalize(Some(actual), options)).value, sqrt);
  }

  /**
   * The zero-norm fallback: an all-zero embedding on either side gives
   * similarity 0, so the check passes exactly when the threshold is at most 0.
   */
  lemma ZeroEmbeddingPassesIff(va: seq<real>, vb: seq<real>, threshold: real,
                               expected: Option<string>, actual: string, sqrt: real -> real)
    requires IsSqrt(sqrt) && |va| == |vb|
    requires forall i :: 0 <= i < |va| ==> va[i] == 0.0
    ensures Verdict(Some(va), Some(vb), threshold, expected, actual, sqrt).Passed? <==> threshold <= 0.0
    ensures threshold > 0.0 ==>
              Verdict(Some(va), Some(vb), threshold, expected, actual, sqrt) ==
              BelowThreshold(threshold, 0.0, expected, actual)
  {
    CosineZeroVector(va, vb, sqrt);
  }

  // ---------------------------------------------------------------------
  // The judge check
  // ---------------------------------------------------------------------

  /** The fixed two-line instruction that opens every judge prompt. */
  const PromptHeader: string :=
    "You are a strict test oracle. Decide if the ACTUAL output satisfies the EXPECTATION.\n" +
    "Return ONLY valid JSON of the form {\"pass\":true|false,\"score\":0..1,\"reason\":\"...\"}.\n\n"

  const ExpectationMarker: string := "EXPECTATION:\n"
  const ActualMarker: string := "\n\nACTUAL:\n"

  /**
   * The judge prompt: the header, the expectation under its marker (a null
   * expectation is written "null", as Java's string concatenation does),
   * then the actual text, not normalised, under its marker.
   */
  function Prompt(expectation: Option<string>, actual: string): (p: string)
    ensures |p| == |PromptHeader| + |ExpectationMarker| + |Show(expectation)| + |ActualMarker| + |actual|
    ensures p[..|PromptHeader|] == PromptHeader
    ensures p[|PromptHeader|..|PromptHeader| + |ExpectationMarker|] == ExpectationMarker
    ensures p[|PromptHeader| + |ExpectationMarker|..|p| - |ActualMarker| - |actual|] == Show(expectation)
    ensures p[|p| - |ActualMarker| - |actual|..|p| - |actual|] == ActualMarker
    ensures p[|p| - |actual|..] == actual
  {
    FiveParts(PromptHeader, ExpectationMarker, Show(expectation), ActualMarker, actual);
    PromptHeader + (ExpectationMarker + (Show(expectation) + (ActualMarker + actual)))
  }

  /** Where each of five joined pieces sits in the joined text. */
  lemma FiveParts(h: string, m: string, e: string, n: string, a: string)
    ensures var p := h + (m + (e + (n + a)));
            |p| == |h| + |m| + |e| + |n| + |a| &&
            p[..|h|] == h && p[|h|..|h| + |m|] == m && p[|h| + |m|..|p| - |n| - |a|] == e &&
            p[|p| - |n| - |a|..|p| - |a|] == n && p[|p| - |a|..] == a
  {
    var tail := n + a;
    var body := e + tail;
    var rest := m + body;
    var p := h + rest;
    assert p[..|h|] == h;
    assert p[|h|..] == rest;
    assert rest[..|m|] == m;
    assert rest[|m|..] == body;
    assert body[..|e|] == e && body[|e|..] == tail;
    assert tail[..|n|] == n && tail[|n|..] == a;
    assert p[|h|..|h| + |m|] == rest[..|m|];
    assert p[|h| + |m|..|p| - |n| - |a|] == body[..|e|];
    assert p[|p| - |n| - |a|..|p| - |a|] == tail[..|n|];
  }

  /** The actual text in a prompt ends it, so two prompts for one expectation are equal only for one actual. */
  lemma PromptInjective(expectation: Option<string>, a1: string, a2: string)
    requires Prompt(expectation, a1) == Prompt(expectation, a2)
    ensures a1 == a2
  {
    var p := Prompt(expectation, a1);
    assert |a1| == |a2|;
    assert a1 == p[|p| - |a1|..] == a2;
  }

  /**
   * The decision on the judge's response: unparsable (null included) fails
   * with the raw response; parsed, it passes exactly when pass is true and
   * the score reaches the minimum, and otherwise fails with everything the
   * parse found.
   */
  function JudgeOutcome(response: Option<string>, minScore: real,
                        expectation: Option<string>, actual: string): (r: Outcome)
    ensures r.Passed? || r.Unparsable? || r.JudgeRejected?
    ensures r.Unparsable? <==> Parse(response).None?
    ensures r.Unparsable? ==> r.raw == response
    ensures response.None? ==> r == Unparsable(None)
    ensures r.Passed? <==>
              Parse(response).Some? && Parse(response).value.pass && Parse(response).value.score >= minScore
    ensures r.JudgeRejected? ==>
              r.minScore == minScore && r.expectation == expectation && r.actual == actual &&
              Parse(response) == Some(JudgeResult(r.pass, r.score, r.reason)) &&
              (!r.pass || r.score < minScore)
  {
    match Parse(response)
    case None => Unparsable(response)
    case Some(res) =>
      if !res.pass || res.score < minScore then
        JudgeRejected(minScore, res.pass, res.score, res.reason, expectation, actual)
      else Passed
  }

  /** Lowering the minimum score never turns a pass into a failure. */
  lemma JudgeMonotone(response: Option<string>, m: real, m': real, expectation: Option<string>, actual: string)
    requires m' <= m && JudgeOutcome(response, m, expectation, actual).Passed?
    ensures JudgeOutcome(response, m', expectation, actual).Passed?
  {
  }

  /**
   * A reply holding the three fields in order (see Judge.Reply) is judged on
   * its own pass and score: it passes exactly when pass is true and the
   * score text is a number of at least the minimum, and a score text that
   * parseDouble rejects makes the response unparsable.
   */
  lemma JudgeReplyOutcome(p: string, pass: bool, score: string, reason: string, w: string, q: string,
                          minScore: real, expectation: Option<string>, actual: string)
    requires WrappedReply(p, score, reason, w, q)
    ensures JudgeOutcome(Some(Reply(p, pass, score, reason, w, q)), minScore, expectation, actual).Passed? <==>
              pass && ParseDecimal(score).Some? && ParseDecimal(score).value >= minScore
    ensures JudgeOutcome(Some(Reply(p, pass, score, reason, w, q)), minScore, expectation, actual).Unparsable? <==>
              ParseDecimal(score).None?
  {
    WrappedReplyParses(p, pass, score, reason, w, q);
  }

  /**
   * The reply wrapped in prose, Sure! Here is the result: {"pass": false,
   * "score": 0.3, "reason": "off-topic"} Hope that helps., fails the check
   * at the default minimum 0.70 with pass false, score 0.3 and reason
   * off-topic.
   */
  lemma JudgeProseReplyRejected(expectation: Option<string>, actual: string)
    ensures JudgeOutcome(Some(Reply("Sure! Here is the result: ", false, "0.3", "off-topic", " ", " Hope that helps.")),
                         DefaultJudgeMinScore, expectation, actual) ==
            JudgeRejected(0.70, false, 0.3, "off-topic", expectation, actual)
  {
    ParseReplyInProse();
  }

  /** A response without any '"' names no key, so it is unparsable whatever it says. */
  lemma JudgeNoQuoteUnparsable(response: string, minScore: real, expectation: Option<string>, actual: string)
    requires NoQuote(response)
    ensures JudgeOutcome(Some(response), minScore, expectation, actual) == Unparsable(Some(response))
  {
    NoQuoteNoParse(response);
  }

  // ---------------------------------------------------------------------
  // The session
  // ---------------------------------------------------------------------

  class SemanticTextAssert {
    const actual: Option<string>
    const defaults: AssertionDefaults
    var embeddingModel: EmbeddingModel?
    var judgeModel: ChatModel?
    var options: SemanticOptions

    /** A session on actual, its three settings copied from the defaults snapshot. */
    constructor (actual: Option<string>, defaults: AssertionDefaults)
      ensures this.actual == actual && this.defaults == defaults
      ensures embeddingModel == defaults.embeddingModel
      ensures judgeModel == defaults.judgeModel
      ensures options == defaults.options
    {
      this.actual := actual;
      this.defaults := defaults;
      embeddingModel := defaults.embeddingModel;
      judgeModel := defaults.judgeModel;
      options := defaults.options;
    }

    method UsingEmbeddingModel(m: EmbeddingModel?) returns (self: SemanticTextAssert)
      modifies this
      ensures self == this
      ensures embeddingModel == m
      ensures judgeModel == old(judgeModel) && options == old(options)
    {
      embeddingModel := m;
      self := this;
    }

    method UsingJudgeModel(m: ChatModel?) returns (self: SemanticTextAssert)
      modifies this
      ensures self == this
      ensures judgeModel == m
      ensures embeddingModel == old(embeddingModel) && options == old(options)
    {
      judgeModel := m;
      self := this;
    }

    method UsingOptions(o: SemanticOptions) returns (self: SemanticTextAssert)
      modifies this
      ensures self == this
      ensures options == o
      ensures embeddingModel == old(embeddingModel) && judgeModel == old(judgeModel)
    {
      options := o;
      self := this;
    }

    /**
     * isSemanticallySimilarTo(expected): a null actual fails first, a missing
     * embedding model next, both before any backend call; otherwise the
     * normalised actual and then the normalised expected text are embedded,
     * one call each, and SimilarityOutcome decides.
     */
    method IsSemanticallySimilarTo(expected: Option<string>, sqrt: real -> real) returns (r: Outcome)
      requires IsSqrt(sqrt)
      modifies embeddingModel
      ensures actual.None? ==> r == NullActual
      ensures actual.None? && embeddingModel != null ==> embeddingModel.inputs == old(embeddingModel.inputs)
      ensures actual.Some? && embeddingModel == null ==> r == MissingEmbeddingModel
      ensures actual.Some? && embeddingModel != null ==>
                embeddingModel.inputs ==
                  old(embeddingModel.inputs) + [Normalize(actual, options), Normalize(expected, options)] &&
                r == SimilarityOutcome(actual.value, expected, embeddingModel.vectorOf, options, sqrt)
    {
      if actual.None? {
        return NullActual;
      }
      if embeddingModel == null {
        return MissingEmbeddingModel;
      }
      var a := Normalize(actual, options);
      var b := Normalize(expected, options);
      var va := embeddingModel.Embed(a);
      var vb := embeddingModel.Embed(b);
      var similarity := Cosine.Cosine(va, vb, sqrt);
      if similarity.Failure? {
        return InvalidVectors(similarity.error);
      }
      if similarity.value < options.embeddingThreshold {
        return BelowThreshold(options.embeddingThreshold, similarity.value, expected, actual.value);
      }
      r := Passed;
    }

    /**
     * matchesExpectationWithJudge(expectation): a null actual fails first, a
     * missing judge next, both before any call; otherwise the judge is called
     * exactly once, with Prompt(expectation, actual), and JudgeOutcome
     * decides on its response against the session's minimum score.
     */
    method MatchesExpectationWithJudge(expectation: Option<string>) returns (r: Outcome)
      modifies judgeModel
      ensures actual.None? ==> r == NullActual
      ensures actual.None? && judgeModel != null ==> judgeModel.prompts == old(judgeModel.prompts)
      ensures actual.Some? && judgeModel == null ==> r == MissingJudgeModel
      ensures actual.Some? && judgeModel != null ==>
                judgeModel.prompts == old(judgeModel.prompts) + [Prompt(expectation, actual.value)] &&
                r == JudgeOutcome(judgeModel.respond(Prompt(expectation, actual.value)),
                                  options.judgeMinScore, expectation, actual.value)
    {
      if actual.None? {
        return NullActual;
      }
      if judgeModel == null {
        return MissingJudgeModel;
      }
      var prompt := Prompt(expectation, actual.value);
      var response := judgeModel.Call(prompt);
      var result := TryParse(response);
      if result.None? {
        return Unparsable(response);
      }
      if !result.value.pass || result.value.score < options.judgeMinScore {
        return JudgeRejected(options.judgeMinScore, result.value.pass, result.value.score, result.value.reason,
                             expectation, actual.value);
      }
      r := Passed;
    }
  }
}
