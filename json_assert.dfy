/**
 * SemanticJsonAssert: an assertion session on a JSON text. Its checks test
 * for a null actual and a missing backend, canonicalise the JSON, and then
 * run a fresh text session on the canonical form with this session's
 * backend and options.
 */
module JsonAssert {
  import opened Wrappers
  import opened Options
  import opened Backends
  import opened AiDefaults
  import opened Cosine
  import opened Normalizer
  import opened Canonicalizer
  import opened TextAssert

  class SemanticJsonAssert {
    const actual: Option<string>
    const defaults: AssertionDefaults
    var embeddingModel: EmbeddingModel?
    var judgeModel: ChatModel?
    var options: SemanticOptions

    /** A session on actual, its three settings copied from the defaults snapshot. */
    constructor (actual: Option<string>, defaults: AssertionDefaults)
      ensures this.actual == actual && this.defaults == defaults
      ensures embeddingModel == defaults.embeddingModel
      ensures judgeModel == defaults.judgeModel
      ensures options == defaults.options
    {
      this.actual := actual;
      this.defaults := defaults;
      embeddingModel := defaults.embeddingModel;
      judgeModel := defaults.judgeModel;
      options := defaults.options;
    }

    method UsingEmbeddingModel(m: EmbeddingModel?) returns (self: SemanticJsonAssert)
      modifies this
      ensures self == this
      ensures embeddingModel == m
      ensures judgeModel == old(judgeModel) && options == old(options)
    {
      embeddingModel := m;
      self := this;
    }

    method UsingJudgeModel(m: ChatModel?) returns (self: SemanticJsonAssert)
      modifies this
      ensures self == this
      ensures judgeModel == m
      ensures embeddingModel == old(embeddingModel) && options == old(options)
    {
      judgeModel := m;
      self := this;
    }

    method UsingOptions(o: SemanticOptions) returns (self: SemanticJsonAssert)
      modifies this
      ensures self == this
      ensures options == o
      ensures embeddingModel == old(embeddingModel) && judgeModel == old(judgeModel)
    {
      options := o;
      self := this;
    }

    /**
     * matchesDescription(description): a null actual or a missing embedding
     * model fails before canonicalisation and before any call; otherwise the
     * outcome and the calls are those of a text session on the canonical
     * JSON with this session's model and options checking
     * isSemanticallySimilarTo(description).
     */
    method MatchesDescription(description: Option<string>, sqrt: real -> real) returns (r: Outcome)
      requires IsSqrt(sqrt)
      modifies embeddingModel
      ensures actual.None? ==> r == NullActual
      ensures actual.None? && embeddingModel != null ==> embeddingModel.inputs == old(embeddingModel.inputs)
      ensures actual.Some? && embeddingModel == null ==> r == MissingEmbeddingModel
      ensures actual.Some? && embeddingModel != null ==>
                embeddingModel.inputs ==
                  old(embeddingModel.inputs) +
                  [Normalize(Canonicalize(actual), options), Normalize(description, options)] &&
                r == SimilarityOutcome(Canonicalize(actual).value, description, embeddingModel.vectorOf, options, sqrt)
    {
      if actual.None? {
        return NullActual;
      }
      if embeddingModel == null {
        return MissingEmbeddingModel;
      }
      var canonical := Canonicalize(actual);
      var text := new SemanticTextAssert(canonical, defaults);
      text := text.UsingEmbeddingModel(embeddingModel);
      text := text.UsingOptions(options);
      r := text.IsSemanticallySimilarTo(description, sqrt);
    }

    /**
     * matchesDescriptionWithJudge(expectation): a null actual or a missing
     * judge fails before canonicalisation and before any call; otherwise the
     * outcome and the call are those of a text session on the canonical JSON
     * with this session's judge and options checking
     * matchesExpectationWithJudge(expectation).
     */
    method MatchesDescriptionWithJudge(expectation: Option<string>) returns (r: Outcome)
      modifies judgeModel
      ensures actual.None? ==> r == NullActual
      ensures actual.None? && judgeModel != null ==> judgeModel.prompts == old(judgeModel.prompts)
      ensures actual.Some? && judgeModel == null ==> r == MissingJudgeModel
      ensures actual.Some? && judgeModel != null ==>
                judgeModel.prompts == old(judgeModel.prompts) + [Prompt(expectation, Canonicalize(actual).value)] &&
                r == JudgeOutcome(judgeModel.respond(Prompt(expectation, Canonicalize(actual).value)),
                                  options.judgeMinScore, expectation, Canonicalize(actual).value)
    {
      if actual.None? {
        return NullActual;
      }
      if judgeModel == null {
        return MissingJudgeModel;
      }
      var canonical := Canonicalize(actual);
      var text := new SemanticTextAssert(canonical, defaults);
      text := text.UsingJudgeModel(judgeModel);
      text := text.UsingOptions(options);
      r := text.MatchesExpectationWithJudge(expectation);
    }
  }
}
