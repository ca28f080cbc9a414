/**
 * SemanticOptions: the immutable thresholds and normalisation switches of a
 * semantic assertion, its validating Builder, defaults() and the
 * copy-on-write with* operations.
 */
module Options {
  import opened Wrappers

  const DefaultEmbeddingThreshold: real := 0.80
  const DefaultJudgeMinScore: real := 0.70
  const DefaultNormalizeWhitespace: bool := true
  const DefaultNormalizeToLowercase: bool := false

  /** An immutable options value; the fields are its accessors. */
  datatype SemanticOptions = SemanticOptions(
    embeddingThreshold: real,
    judgeMinScore: real,
    normalizeWhitespace: bool,
    normalizeToLowercase: bool)

  /** Why build() refused: the threshold it names lies outside [0,1]. */
  datatype ConfigError = EmbeddingThresholdOutOfRange | JudgeMinScoreOutOfRange

  predicate InUnitInterval(x: real) { 0.0 <= x <= 1.0 }

  /** What build() guarantees of every options value it returns. */
  predicate Valid(o: SemanticOptions) {
    InUnitInterval(o.embeddingThreshold) && InUnitInterval(o.judgeMinScore)
  }

  /** The value defaults() returns. */
  const DefaultOptions: SemanticOptions :=
    SemanticOptions(DefaultEmbeddingThreshold, DefaultJudgeMinScore,
                    DefaultNormalizeWhitespace, DefaultNormalizeToLowercase)

  /** SemanticOptions.Builder: four mutable fields with defaults, fluent setters, a validating build(). */
  class Builder {
    var embeddingThreshold: real
    var judgeMinScore: real
    var normalizeWhitespace: bool
    var normalizeToLowercase: bool

    constructor ()
      ensures embeddingThreshold == DefaultEmbeddingThreshold
      ensures judgeMinScore == DefaultJudgeMinScore
      ensures normalizeWhitespace == DefaultNormalizeWhitespace
      ensures normalizeToLowercase == DefaultNormalizeToLowercase
    {
      embeddingThreshold := DefaultEmbeddingThreshold;
      judgeMinScore := DefaultJudgeMinScore;
      normalizeWhitespace := DefaultNormalizeWhitespace;
      normalizeToLowercase := DefaultNormalizeToLowercase;
    }

    method EmbeddingThreshold(t: real) returns (self: Builder)
      modifies this
      ensures self == this
      ensures embeddingThreshold == t
      ensures judgeMinScore == old(judgeMinScore)
      ensures normalizeWhitespace == old(normalizeWhitespace)
      ensures normalizeToLowercase == old(normalizeToLowercase)
    {
      embeddingThreshold := t;
      self := this;
    }

    method JudgeMinScore(m: real) returns (self: Builder)
      modifies this
      ensures self == this
      ensures judgeMinScore == m
      ensures embeddingThreshold == old(embeddingThreshold)
      ensures normalizeWhitespace == old(normalizeWhitespace)
      ensures normalizeToLowercase == old(normalizeToLowercase)
    {
      judgeMinScore := m;
      self := this;
    }

    method NormalizeWhitespace(b: bool) returns (self: Builder)
      modifies this
      ensures self == this
      ensures normalizeWhitespace == b
      ensures embeddingThreshold == old(embeddingThreshold)
      ensures judgeMinScore == old(judgeMinScore)
      ensures normalizeToLowercase == old(normalizeToLowercase)
    {
      normalizeWhitespace := b;
      self := this;
    }

    method NormalizeToLowercase(b: bool) returns (self: Builder)
      modifies this
      ensures self == this
      ensures normalizeToLowercase == b
      ensures embeddingThreshold == old(embeddingThreshold)
      ensures judgeMinScore == old(judgeMinScore)
      ensures normalizeWhitespace == old(normalizeWhitespace)
    {
      normalizeToLowercase := b;
      self := this;
    }

    /**
     * build(): succeeds exactly when both thresholds lie in [0,1], and then
     * carries the four fields over unchanged; the embedding threshold is
     * checked first, so it is the one named when both are out of range.
     */
    method Build() returns (r: Result<SemanticOptions, ConfigError>)
      ensures r.Success? <==> InUnitInterval(embeddingThreshold) && InUnitInterval(judgeMinScore)
      ensures r.Success? ==> Valid(r.value)
      ensures r.Success? ==>
        r.value == SemanticOptions(embeddingThreshold, judgeMinScore, normalizeWhitespace, normalizeToLowercase)
      ensures !InUnitInterval(embeddingThreshold) ==> r == Failure(EmbeddingThresholdOutOfRange)
      ensures InUnitInterval(embeddingThreshold) && !InUnitInterval(judgeMinScore) ==>
                r == Failure(JudgeMinScoreOutOfRange)
    {
      if embeddingThreshold < 0.0 || embeddingThreshold > 1.0 {
        return Failure(EmbeddingThresholdOutOfRange);
      }
      if judgeMinScore < 0.0 || judgeMinScore > 1.0 {
        return Failure(JudgeMinScoreOutOfRange);
      }
      r := Success(SemanticOptions(embeddingThreshold, judgeMinScore, normalizeWhitespace, normalizeToLowercase));
    }
  }

  /** SemanticOptions.defaults(): builder().build(), which cannot fail. */
  method Defaults() returns (o: SemanticOptions)
    ensures o == DefaultOptions
    ensures Valid(o)
    ensures o.embeddingThreshold == 0.80 && o.judgeMinScore == 0.70
    ensures o.normalizeWhitespace && !o.normalizeToLowercase
  {
    var b := new Builder();
    var r := b.Build();
    o := r.value;
  }

  /** builderFromThis(): a fresh builder holding the four fields of o. */
  method BuilderFrom(o: SemanticOptions) returns (b: Builder)
    ensures fresh(b)
    ensures b.embeddingThreshold == o.embeddingThreshold
    ensures b.judgeMinScore == o.judgeMinScore
    ensures b.normalizeWhitespace == o.normalizeWhitespace
    ensures b.normalizeToLowercase == o.normalizeToLowercase
  {
    b := new Builder();
    b := b.EmbeddingThreshold(o.embeddingThreshold);
    b := b.JudgeMinScore(o.judgeMinScore);
    b := b.NormalizeWhitespace(o.normalizeWhitespace);
    b := b.NormalizeToLowercase(o.normalizeToLowercase);
  }

  /**
   * withEmbeddingThreshold(t): a new value that differs from o in the
   * embedding threshold only; refused when t is outside [0,1]. o itself is a
   * value and cannot change.
   */
  method WithEmbeddingThreshold(o: SemanticOptions, t: real) returns (r: Result<SemanticOptions, ConfigError>)
    ensures !InUnitInterval(t) ==> r == Failure(EmbeddingThresholdOutOfRange)
    ensures Valid(o) ==> (r.Success? <==> InUnitInterval(t))
    ensures r.Success? ==> r.value == o.(embeddingThreshold := t) && Valid(r.value)
  {
    var b := BuilderFrom(o);
    b := b.EmbeddingThreshold(t);
    r := b.Build();
  }

  /**
   * withJudgeMinScore(m): a new value that differs from o in the judge
   * minimum score only; refused when m is outside [0,1].
   */
  method WithJudgeMinScore(o: SemanticOptions, m: real) returns (r: Result<SemanticOptions, ConfigError>)
    ensures Valid(o) && !InUnitInterval(m) ==> r == Failure(JudgeMinScoreOutOfRange)
    ensures Valid(o) ==> (r.Success? <==> InUnitInterval(m))
    ensures r.Success? ==> r.value == o.(judgeMinScore := m) && Valid(r.value)
  {
    var b := BuilderFrom(o);
    b := b.JudgeMinScore(m);
    r := b.Build();
  }
}
