/**
 * CamundaAiAssertionDefaults: an immutable triple of embedding model, judge
 * model and options, made by a Builder whose unset (or null) options become
 * SemanticOptions.defaults().
 */
module AiDefaults {
  import opened Wrappers
  import Opt = Options
  import opened Backends

  /** The built defaults; the fields are its accessors embeddingModel(), judgeModel() and options(). */
  datatype AssertionDefaults = AssertionDefaults(
    embeddingModel: EmbeddingModel?,
    judgeModel: ChatModel?,
    options: Opt.SemanticOptions)

  /** CamundaAiAssertionDefaults.Builder; None stands for an options field that is unset or null. */
  class Builder {
    var embeddingModel: EmbeddingModel?
    var judgeModel: ChatModel?
    var options: Option<Opt.SemanticOptions>

    /** builder(): nothing set. */
    constructor ()
      ensures embeddingModel == null && judgeModel == null && options == None
    {
      embeddingModel := null;
      judgeModel := null;
      options := None;
    }

    method EmbeddingModel(m: EmbeddingModel?) returns (self: Builder)
      modifies this
      ensures self == this
      ensures embeddingModel == m
      ensures judgeModel == old(judgeModel) && options == old(options)
    {
      embeddingModel := m;
      self := this;
    }

    method JudgeModel(m: ChatModel?) returns (self: Builder)
      modifies this
      ensures self == this
      ensures judgeModel == m
      ensures embeddingModel == old(embeddingModel) && options == old(options)
    {
      judgeModel := m;
      self := this;
    }

    method Options(o: Option<Opt.SemanticOptions>) returns (self: Builder)
      modifies this
      ensures self == this
      ensures options == o
      ensures embeddingModel == old(embeddingModel) && judgeModel == old(judgeModel)
    {
      options := o;
      self := this;
    }

    /**
     * build(): the two models as set (null when never set), and the options
     * as set, or SemanticOptions.defaults() when unset or null.
     */
    method Build() returns (d: AssertionDefaults)
      ensures d.embeddingModel == embeddingModel && d.judgeModel == judgeModel
      ensures options.None? ==> d.options == Opt.DefaultOptions
      ensures options.Some? ==> d.options == options.value
      ensures options.None? || Opt.Valid(options.value) ==> Opt.Valid(d.options)
    {
      var o: Opt.SemanticOptions;
      if options.None? {
        o := Opt.Defaults();
      } else {
        o := options.value;
      }
      d := AssertionDefaults(embeddingModel, judgeModel, o);
    }
  }

  /** builder().build(): no models, default options. */
  method Initial() returns (d: AssertionDefaults)
    ensures d == AssertionDefaults(null, null, Opt.DefaultOptions)
    ensures Opt.Valid(d.options)
  {
    var b := new Builder();
    d := b.Build();
  }

  /** A later call of a setter overrides an earlier one, and null options fall back to the defaults. */
  method LaterSetterWins(m1: EmbeddingModel?, m2: EmbeddingModel?, j: ChatModel?, o: Opt.SemanticOptions)
    returns (d: AssertionDefaults)
    ensures d == AssertionDefaults(m2, j, Opt.DefaultOptions)
  {
    var b := new Builder();
    b := b.EmbeddingModel(m1);
    b := b.Options(Some(o));
    b := b.JudgeModel(j);
    b := b.EmbeddingModel(m2);
    b := b.Options(None);
    d := b.Build();
  }
}
