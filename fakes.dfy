/**
 * The fake backends of the library's own test class, and the scenarios of
 * its test methods run against them: a deterministic embedding that maps
 * any text containing "cat" to [1,0], else any containing "dog" to [0,1],
 * else [1,1]; and a chat model that answers every prompt with one fixed
 * response.
 */
module Fakes {
  import opened Wrappers
  import opened JavaString
  import opened Options
  import opened Backends
  import opened AiDefaults
  import opened Cosine
  import opened Judge
  import opened TextAssert
  import opened JsonAssert
  import opened Assertions

  /** FakeEmbeddingModel.embed: a null text counts as "", and the text is lowercased before the tests. */
  function FakeVector(text: Option<string>): (v: Option<seq<real>>)
    ensures v.Some? && |v.value| == 2
  {
    var t := if text.None? then "" else ToLower(text.value);
    if Contains(t, "cat") then Some([1.0, 0.0])
    else if Contains(t, "dog") then Some([0.0, 1.0])
    else Some([1.0, 1.0])
  }

  /** FakeChatModel: every prompt is answered with the same response. */
  function FakeResponder(response: Option<string>): (respond: string -> Option<string>)
    ensures forall prompt :: respond(prompt) == response
  {
    prompt => response
  }

  /** A pattern with a character the text lacks does not occur in the text. */
  lemma MissingCharNoMatch(s: string, pat: string, k: nat)
    requires k < |pat| && forall i :: 0 <= i < |s| ==> s[i] != pat[k]
    ensures !Contains(s, pat)
  {
    forall j | 0 <= j
      ensures !MatchAt(s, pat, j)
    {
      if j + |pat| <= |s| {
        assert s[j..j + |pat|][k] == s[j + k];
      }
    }
  }

  /** Text already in collapsed form is left alone when lowercasing is off. */
  lemma NormalizeCollapsed(s: string, options: SemanticOptions)
    requires Collapsed(s) && !options.normalizeToLowercase
    ensures Normalizer.Normalize(Some(s), options) == Some(s)
  {
    TrimFixesTrimmed(s);
    CollapseFixesCollapsed(s);
  }

  /** With the default options "cat" embeds to [1,0]. */
  lemma CatVector()
    ensures FakeVector(Normalizer.Normalize(Some("cat"), DefaultOptions)) == Some([1.0, 0.0])
  {
    NormalizeCollapsed("cat", DefaultOptions);
    assert ToLower("cat") == "cat";
    assert MatchAt("cat", "cat", 0);
  }

  /** With the default options "dog" embeds to [0,1]. */
  lemma DogVector()
    ensures FakeVector(Normalizer.Normalize(Some("dog"), DefaultOptions)) == Some([0.0, 1.0])
  {
    NormalizeCollapsed("dog", DefaultOptions);
    assert ToLower("dog") == "dog";
    MissingCharNoMatch("dog", "cat", 0);
    assert MatchAt("dog", "dog", 0);
  }

  /** [1,0] and [0,1] are orthogonal. */
  lemma OrthogonalDot()
    ensures Dot([1.0, 0.0], [0.0, 1.0]) == 0.0
  {
    var a, b := [1.0, 0.0], [0.0, 1.0];
    assert a[..1] == [1.0] && b[..1] == [0.0];
    assert [1.0][..0] == [] && [0.0][..0] == [];
  }

  /** With the default options "cat" against "dog" fails with similarity 0. */
  lemma CatDogOutcome(sqrt: real -> real)
    requires IsSqrt(sqrt)
    ensures SimilarityOutcome("cat", Some("dog"), FakeVector, DefaultOptions, sqrt) ==
            BelowThreshold(0.80, 0.0, Some("dog"), "cat")
  {
    CatVector();
    DogVector();
    OrthogonalDot();
    OrthogonalVerdict([1.0, 0.0], [0.0, 1.0], 0.80, Some("dog"), "cat", sqrt);
  }

  /** Orthogonal embeddings have similarity 0, which fails every positive threshold. */
  lemma OrthogonalVerdict(va: seq<real>, vb: seq<real>, threshold: real,
                          expected: Option<string>, actual: string, sqrt: real -> real)
    requires IsSqrt(sqrt) && |va| == |vb| && Dot(va, vb) == 0.0 && threshold > 0.0
    ensures Verdict(Some(va), Some(vb), threshold, expected, actual, sqrt) == BelowThreshold(threshold, 0.0, expected, actual)
  {
    assert CosineOf(va, vb, sqrt) == 0.0;
  }

  /**
   * assertThat("cat").usingEmbeddingModel(fake).usingOptions(defaults()
   * .withEmbeddingThreshold(0.80)).isSemanticallySimilarTo("dog"): the two
   * texts embed to orthogonal vectors, so the similarity is 0 and the check
   * fails with it.
   */
  method CatIsNotSimilarToDog(sqrt: real -> real) returns (r: Outcome)
    requires IsSqrt(sqrt)
    ensures r == BelowThreshold(0.80, 0.0, Some("dog"), "cat")
  {
    var entry := new CamundaAiAssertions();
    var model := new EmbeddingModel(FakeVector);
    var o := Options.Defaults();
    var withThreshold := WithEmbeddingThreshold(o, 0.80);
    var session := entry.AssertThat(Some("cat"));
    session := session.UsingEmbeddingModel(model);
    session := session.UsingOptions(withThreshold.value);
    CatDogOutcome(sqrt);
    r := session.IsSemanticallySimilarTo(Some("dog"), sqrt);
  }

  /** Text already lowercase is left alone by toLowerCase. */
  lemma LowerFixed(t: string)
    requires NoUpper(t)
    ensures ToLower(t) == t
  {
  }

  /** A collapsed lowercase text that starts with "cat" embeds to [1,0] under the default options. */
  lemma CatTextVector(t: string)
    requires Collapsed(t) && NoUpper(t) && MatchAt(t, "cat", 0)
    ensures Normalizer.Normalize(Some(t), DefaultOptions) == Some(t)
    ensures FakeVector(Normalizer.Normalize(Some(t), DefaultOptions)) == Some([1.0, 0.0])
  {
    NormalizeCollapsed(t, DefaultOptions);
    LowerFixed(t);
  }

  lemma CatFoodVector()
    ensures Normalizer.Normalize(Some("cat food"), DefaultOptions) == Some("cat food")
    ensures FakeVector(Normalizer.Normalize(Some("cat food"), DefaultOptions)) == Some([1.0, 0.0])
  {
    var t := "cat food";
    assert t == "cat" + " food";
    assert Collapsed(t);
    assert NoUpper(t);
    CatTextVector(t);
  }

  lemma CatToyVector()
    ensures Normalizer.Normalize(Some("cat toy"), DefaultOptions) == Some("cat toy")
    ensures FakeVector(Normalizer.Normalize(Some("cat toy"), DefaultOptions)) == Some([1.0, 0.0])
  {
    var t := "cat toy";
    assert t == "cat" + " toy";
    assert Collapsed(t);
    assert NoUpper(t);
    CatTextVector(t);
  }

  /** Equal embeddings with a non-zero element pass every threshold of at most 1. */
  lemma EqualVectorsPass(v: seq<real>, threshold: real, expected: Option<string>, actual: string, sqrt: real -> real)
    requires IsSqrt(sqrt) && threshold <= 1.0
    requires exists i :: 0 <= i < |v| && v[i] != 0.0
    ensures Verdict(Some(v), Some(v), threshold, expected, actual, sqrt).Passed?
  {
    CosineSelf(v, sqrt);
  }

  /** With the default options "cat food" against "cat toy" passes. */
  lemma CatFoodOutcome(sqrt: real -> real)
    requires IsSqrt(sqrt)
    ensures Normalizer.Normalize(Some("cat food"), DefaultOptions) == Some("cat food")
    ensures Normalizer.Normalize(Some("cat toy"), DefaultOptions) == Some("cat toy")
    ensures SimilarityOutcome("cat food", Some("cat toy"), FakeVector, DefaultOptions, sqrt) == Passed
  {
    CatFoodVector();
    CatToyVector();
    var v := [1.0, 0.0];
    assert v[0] != 0.0;
    EqualVectorsPass(v, 0.80, Some("cat toy"), "cat food", sqrt);
  }

  /**
   * assertThat("cat food").usingEmbeddingModel(fake)
   * .isSemanticallySimilarTo("cat toy") with the initial defaults: both
   * texts embed to [1,0], so the similarity is 1 and the check passes; the
   * model was called twice, on the actual text first.
   */
  method CatFoodIsSimilarToCatToy(sqrt: real -> real) returns (r: Outcome, model: EmbeddingModel)
    requires IsSqrt(sqrt)
    ensures r == Passed
    ensures model.inputs == [Some("cat food"), Some("cat toy")]
  {
    var entry := new CamundaAiAssertions();
    model := new EmbeddingModel(FakeVector);
    var session := entry.AssertThatWithEmbeddingModel(Some("cat food"), model);
    CatFoodOutcome(sqrt);
    r := session.IsSemanticallySimilarTo(Some("cat toy"), sqrt);
  }

  /** The characters that survive canonicalisation: single spaces and characters of the input. */
  lemma CanonicalChar(json: string, i: nat)
    requires i < |Canonicalizer.Canonicalize(Some(json)).value|
    ensures var x := Canonicalizer.Canonicalize(Some(json)).value; x[i] == ' ' || x[i] in json
  {
    var x := Canonicalizer.Canonicalize(Some(json)).value;
    if !IsWhitespace(x[i]) {
      RemoveWhitespaceKeeps(x, i);
      RemoveWhitespaceFrom(json, x[i]);
    }
  }

  lemma {:induction false} RemoveWhitespaceKeeps(s: string, i: nat)
    requires i < |s| && !IsWhitespace(s[i])
    ensures s[i] in RemoveWhitespace(s)
  {
    if i > 0 {
      RemoveWhitespaceKeeps(s[1..], i - 1);
      assert s[1..][i - 1] == s[i];
    }
  }

  lemma {:induction false} RemoveWhitespaceFrom(s: string, c: char)
    requires c in RemoveWhitespace(s)
    ensures c in s
  {
    if s[0] != c {
      if IsWhitespace(s[0]) {
        RemoveWhitespaceFrom(s[1..], c);
      } else {
        assert RemoveWhitespace(s) == [s[0]] + RemoveWhitespace(s[1..]);
        RemoveWhitespaceFrom(s[1..], c);
      }
    }
  }

  /** A text none of whose characters is c, C, g or G embeds to [1,1], after lowercasing too. */
  lemma NeitherCatNorDog(t: string)
    requires forall i :: 0 <= i < |t| ==> t[i] != 'c' && t[i] != 'C' && t[i] != 'g' && t[i] != 'G'
    ensures FakeVector(Some(t)) == Some([1.0, 1.0])
  {
    var l := ToLower(t);
    assert forall i :: 0 <= i < |l| ==> l[i] != 'c' && l[i] != 'g';
    MissingCharNoMatch(l, "cat", 0);
    MissingCharNoMatch(l, "dog", 2);
  }

  const StatusJson: string := "{\n  " + "\"status\": " + "\"RESOLVED\"" + "\n}"

  /** The canonical status JSON embeds to [1,1] under the default options. */
  lemma StatusJsonVector()
    ensures FakeVector(Normalizer.Normalize(Canonicalizer.Canonicalize(Some(StatusJson)), DefaultOptions)) ==
            Some([1.0, 1.0])
  {
    var x := Canonicalizer.Canonicalize(Some(StatusJson)).value;
    NormalizeCollapsed(x, DefaultOptions);
    StatusJsonLetters();
    forall i | 0 <= i < |x|
      ensures x[i] != 'c' && x[i] != 'C' && x[i] != 'g' && x[i] != 'G'
    {
      CanonicalChar(StatusJson, i);
    }
    NeitherCatNorDog(x);
  }

  lemma StatusJsonLetters()
    ensures 'c' !in StatusJson && 'C' !in StatusJson && 'g' !in StatusJson && 'G' !in StatusJson
  {
  }

  /** The description "status resolved" embeds to [1,1] under the default options. */
  lemma StatusDescriptionVector()
    ensures Normalizer.Normalize(Some("status resolved"), DefaultOptions) == Some("status resolved")
    ensures FakeVector(Normalizer.Normalize(Some("status resolved"), DefaultOptions)) == Some([1.0, 1.0])
  {
    var t := "status resolved";
    StatusDescriptionCollapsed();
    NormalizeCollapsed(t, DefaultOptions);
    StatusDescriptionLetters();
    LettersAbsent(t);
    NeitherCatNorDog(t);
  }

  lemma StatusDescriptionCollapsed()
    ensures Collapsed("status resolved")
  {
  }

  lemma StatusDescriptionLetters()
    ensures 'c' !in "status resolved" && 'C' !in "status resolved" && 'g' !in "status resolved" && 'G' !in "status resolved"
  {
  }

  lemma LettersAbsent(t: string)
    requires 'c' !in t && 'C' !in t && 'g' !in t && 'G' !in t
    ensures forall i :: 0 <= i < |t| ==> t[i] != 'c' && t[i] != 'C' && t[i] != 'g' && t[i] != 'G'
  {
  }

  /** With the default options the status JSON matches the description "status resolved". */
  lemma StatusOutcome(sqrt: real -> real)
    requires IsSqrt(sqrt)
    ensures SimilarityOutcome(Canonicalizer.Canonicalize(Some(StatusJson)).value, Some("status resolved"),
                              FakeVector, DefaultOptions, sqrt) == Passed
  {
    StatusJsonVector();
    StatusDescriptionVector();
    var v := [1.0, 1.0];
    assert v[0] != 0.0;
    EqualVectorsPass(v, 0.80, Some("status resolved"), Canonicalizer.Canonicalize(Some(StatusJson)).value, sqrt);
  }

  /**
   * assertThatJson("{\n  \"status\": \"RESOLVED\"\n}").usingEmbeddingModel(fake)
   * .matchesDescription("status resolved"): the canonical JSON and the
   * description embed alike, so the check passes.
   */
  method JsonMatchesStatusDescription(sqrt: real -> real) returns (r: Outcome)
    requires IsSqrt(sqrt)
    ensures r == Passed
  {
    var entry := new CamundaAiAssertions();
    var model := new EmbeddingModel(FakeVector);
    var session := entry.AssertThatJson(Some(StatusJson));
    session := session.UsingEmbeddingModel(model);
    StatusOutcome(sqrt);
    r := session.MatchesDescription(Some("status resolved"), sqrt);
  }

  /** The fixed response of the fake judge: {"pass":true,"score":0.95,"reason":"ok"}. */
  const PassingReply: string := Reply("", true, "0.95", "ok", "", "")

  /** The score token 0.95 is read as 95/100. */
  lemma ParseScore095()
    ensures ParseDecimal("0.95") == Some(0.95)
  {
    assert "0.95" == "0." + "95";
    ParseDecimalFraction("95");
    assert DigitsValue("95") == 95;
  }

  /** The fake judge's response parses to pass true, score 0.95, reason ok. */
  lemma PassingReplyParses()
    ensures Parse(Some(PassingReply)) == Some(JudgeResult(true, 0.95, "ok"))
  {
    assert WrappedReply("", "0.95", "ok", "", "");
    WrappedReplyParses("", true, "0.95", "ok", "", "");
    ParseScore095();
  }

  /**
   * assertThat("i'm hungry").usingJudgeModel(fake).usingOptions(defaults()
   * .withJudgeMinScore(0.7)).matchesExpectationWithJudge("the sky is blue"):
   * the judge is called once, with the prompt for that expectation and
   * actual, and its verdict passes.
   */
  method JudgePassesOnFakeReply() returns (r: Outcome, judge: ChatModel)
    ensures r == Passed
    ensures judge.prompts == [Prompt(Some("the sky is blue"), "i'm hungry")]
  {
    var entry := new CamundaAiAssertions();
    judge := new ChatModel(FakeResponder(Some(PassingReply)));
    var o := Options.Defaults();
    var withMin := WithJudgeMinScore(o, 0.7);
    var session := entry.AssertThat(Some("i'm hungry"));
    session := session.UsingJudgeModel(judge);
    session := session.UsingOptions(withMin.value);
    PassingReplyParses();
    r := session.MatchesExpectationWithJudge(Some("the sky is blue"));
  }

  /** The same fake reply against a minimum score of 0.99 fails with the parsed verdict. */
  method JudgeRejectsBelowMinScore() returns (r: Outcome)
    ensures r == JudgeRejected(0.99, true, 0.95, "ok", Some("the sky is blue"), "i'm hungry")
  {
    var entry := new CamundaAiAssertions();
    var judge := new ChatModel(FakeResponder(Some(PassingReply)));
    var o := Options.Defaults();
    var withMin := WithJudgeMinScore(o, 0.99);
    var session := entry.AssertThatWithJudgeModel(Some("i'm hungry"), judge);
    session := session.UsingOptions(withMin.value);
    PassingReplyParses();
    r := session.MatchesExpectationWithJudge(Some("the sky is blue"));
  }

  /**
   * assertThat("the sky is blue").matchesExpectationWithJudge("i'm hungry")
   * with the initial defaults, which hold no judge: the check fails for the
   * missing model.
   */
  method JudgeRequiresModel() returns (r: Outcome)
    ensures r == MissingJudgeModel
  {
    var entry := new CamundaAiAssertions();
    var session := entry.AssertThat(Some("the sky is blue"));
    r := session.MatchesExpectationWithJudge(Some("i'm hungry"));
  }

  /**
   * With a judge configured but no embedding model, the embedding check
   * fails for the missing model and the judge is never called.
   */
  method EmbeddingRequiresModel(sqrt: real -> real) returns (r: Outcome, judge: ChatModel)
    requires IsSqrt(sqrt)
    ensures r == MissingEmbeddingModel
    ensures judge.prompts == []
  {
    var entry := new CamundaAiAssertions();
    judge := new ChatModel(FakeResponder(Some(PassingReply)));
    var session := entry.AssertThatWithJudgeModel(Some("cat"), judge);
    r := session.IsSemanticallySimilarTo(Some("dog"), sqrt);
  }
}
