/**
 * CamundaAiAssertions: the entry point. Its one global slot holds the
 * current defaults snapshot; configureDefaults replaces it, and every
 * factory starts a session seeded from the snapshot current at that moment.
 * The static slot is a field of one object here.
 */
module Assertions {
  import opened Wrappers
  import opened Options
  import opened Backends
  import opened AiDefaults
  import opened TextAssert
  import opened JsonAssert

  /** The invalid-argument error of configureDefaults. */
  datatype ArgumentError = NullDefaults

  class CamundaAiAssertions {
    var defaults: AssertionDefaults

    /** The slot starts as builder().build(): no models, default options. */
    constructor ()
      ensures defaults == AssertionDefaults(null, null, DefaultOptions)
    {
      var d := Initial();
      defaults := d;
    }

    /** configureDefaults(d): a null d is refused and the slot kept; any other d replaces the slot. */
    method ConfigureDefaults(d: Option<AssertionDefaults>) returns (error: Option<ArgumentError>)
      modifies this
      ensures d.None? <==> error == Some(NullDefaults)
      ensures d.None? ==> defaults == old(defaults)
      ensures d.Some? ==> error.None? && defaults == d.value
    {
      if d.None? {
        return Some(NullDefaults);
      }
      defaults := d.value;
      error := None;
    }

    /** defaults(): the current snapshot. */
    method Defaults() returns (d: AssertionDefaults)
      ensures d == defaults
    {
      d := defaults;
    }

    /** assertThat(text): a new text session seeded from the current snapshot. */
    method AssertThat(text: Option<string>) returns (s: SemanticTextAssert)
      ensures fresh(s)
      ensures s.actual == text && s.defaults == defaults
      ensures s.embeddingModel == defaults.embeddingModel && s.judgeModel == defaults.judgeModel
      ensures s.options == defaults.options
    {
      s := new SemanticTextAssert(text, defaults);
    }

    /** assertThatJson(json): a new JSON session seeded from the current snapshot. */
    method AssertThatJson(json: Option<string>) returns (s: SemanticJsonAssert)
      ensures fresh(s)
      ensures s.actual == json && s.defaults == defaults
      ensures s.embeddingModel == defaults.embeddingModel && s.judgeModel == defaults.judgeModel
      ensures s.options == defaults.options
    {
      s := new SemanticJsonAssert(json, defaults);
    }

    /** assertThat(text, embeddingModel): assertThat(text).usingEmbeddingModel(embeddingModel). */
    method AssertThatWithEmbeddingModel(text: Option<string>, m: EmbeddingModel?) returns (s: SemanticTextAssert)
      ensures fresh(s)
      ensures s.actual == text && s.defaults == defaults
      ensures s.embeddingModel == m && s.judgeModel == defaults.judgeModel
      ensures s.options == defaults.options
    {
      s := AssertThat(text);
      s := s.UsingEmbeddingModel(m);
    }

    /** assertThat(text, judgeModel): assertThat(text).usingJudgeModel(judgeModel). */
    method AssertThatWithJudgeModel(text: Option<string>, m: ChatModel?) returns (s: SemanticTextAssert)
      ensures fresh(s)
      ensures s.actual == text && s.defaults == defaults
      ensures s.embeddingModel == defaults.embeddingModel && s.judgeModel == m
      ensures s.options == defaults.options
    {
      s := AssertThat(text);
      s := s.UsingJudgeModel(m);
    }
  }

  /**
   * A session keeps the snapshot it was started with: configuring new
   * defaults afterwards changes the slot and not the session.
   */
  method SessionKeepsItsSnapshot(text: Option<string>, d: AssertionDefaults)
    returns (s: SemanticTextAssert, entry: CamundaAiAssertions)
    ensures entry.defaults == d
    ensures s.embeddingModel == null && s.judgeModel == null && s.options == DefaultOptions
  {
    entry := new CamundaAiAssertions();
    s := entry.AssertThat(text);
    var error := entry.ConfigureDefaults(Some(d));
  }

  /** configureDefaults(null) after configureDefaults(d) is refused and leaves d in the slot. */
  method NullDefaultsRefused(d: AssertionDefaults) returns (error: Option<ArgumentError>, current: AssertionDefaults)
    ensures error == Some(NullDefaults)
    ensures current == d
  {
    var entry := new CamundaAiAssertions();
    var first := entry.ConfigureDefaults(Some(d));
    error := entry.ConfigureDefaults(None);
    current := entry.Defaults();
  }
}
