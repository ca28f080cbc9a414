# Semantic assertions for AI output: a Dafny model

This project models the semantic-assertion library of the Camunda agentic
process testing repository, the Java package `io.camunda.dev.assertions.ai`.
Test code uses it to decide whether generated text, or a JSON payload, means
what the test expects.

- An **embedding check** normalises both texts. It asks an embedding backend
  for a vector of each and compares the cosine similarity with a threshold.
- A **judge check** sends a fixed prompt to a chat backend. It reads a
  `{"pass":…,"score":…,"reason":…}` verdict out of the reply with a lenient
  key scanner, then compares the verdict with a minimum score.
- Around the checks sit several pieces:
  - the immutable `SemanticOptions` value and its validating builder;
  - the `CamundaAiAssertionDefaults` snapshot and its builder;
  - the global defaults slot of `CamundaAiAssertions`;
  - the fluent sessions `SemanticTextAssert` and `SemanticJsonAssert`.

Modules, one per Java source file plus three helpers:

| module | file | models |
|---|---|---|
| `Wrappers` | wrappers.dfy | `Option` (null) and `Result` (a thrown invalid-argument error) |
| `JavaString` | java_string.dfy | the JDK string operations the library calls: `trim`, `replaceAll("\\s+", " ")`, `toLowerCase`, `indexOf`, `startsWith`, and string concatenation of `null` |
| `Normalizer` | normalizer.dfy | `TextNormalizer.normalize` |
| `Canonicalizer` | canonicalizer.dfy | `JsonCanonicalizer.canonicalize` |
| `Cosine` | cosine.dfy | `CosineSimilarity.cosine` |
| `Options` | options.dfy | `SemanticOptions` and its `Builder` |
| `Judge` | judge.dfy | `SemanticTextAssert.JudgeResult`, including `tryParse` and the three extractors |
| `Backends` | backends.dfy | the Spring AI `EmbeddingModel` and `ChatModel` |
| `AiDefaults` | defaults.dfy | `CamundaAiAssertionDefaults` and its `Builder` |
| `TextAssert` | text_assert.dfy | `SemanticTextAssert` |
| `JsonAssert` | json_assert.dfy | `SemanticJsonAssert` |
| `Assertions` | assertions.dfy | `CamundaAiAssertions` |
| `Fakes` | fakes.dfy | the fake backends of `CamundaAiAssertionsTest`, and end-to-end scenarios that use them |

## How the model represents the program

**Values.**
- Java `null` becomes `None`:
  - for strings, vectors, options and defaults, through `Option`;
  - for backend references, through the nullable class types `EmbeddingModel?` and `ChatModel?`.
- `float[]` vectors and `double` thresholds and scores are real numbers.
- The judge score is the exact decimal value of its token.
- `Math.sqrt` is a parameter `sqrt`. Every member that uses it requires `IsSqrt(sqrt)`, which says that `sqrt` is the non-negative square root on the non-negative reals.

**Classes and errors.**
- Mutable Java objects become Dafny classes whose methods modify their fields.
  - The two builders and the sessions return `this` from their setters.
  - The defaults slot and the backends change their state and return a result. `ConfigureDefaults` returns its error, if any. `Embed` and `Call` return the vector or the response and append the input to their call logs.
- Immutable ones become datatypes: `SemanticOptions`, `AssertionDefaults` and `JudgeResult`.
- A terminal check returns an `Outcome` instead of throwing an `AssertionError`. Each failure variant carries the values its message prints.
- `build()`, `configureDefaults(null)` and `cosine` report their `IllegalArgumentException` as an error value.

**Backends.**
- A backend answers with a fixed function of its input: `vectorOf` or `respond`.
- It records every input in a log. The contracts use the log to state which backend calls happen, how many, in what order and with what argument.

**Judge replies.** The judge-reply examples are stated through `Judge.Reply`. It builds the reply text from its parts: the prose before and after it, the verdict, the score token, the reason, and the whitespace after each `:` and `,`. The literal reply each example denotes is written in its doc comment.

## Model

Source paths are relative to the repository root. The abbreviation `ai/` stands for `src/main/java/io/camunda/dev/assertions/ai/`, but every cell below writes the path out in full.

| member | source | states |
|---|---|---|
| JavaString.Trim | src/main/java/io/camunda/dev/assertions/ai/internal/TextNormalizer.java:15 | the result has no leading or trailing whitespace and is the input with only whitespace cut from either end |
| JavaString.CollapseWhitespace | src/main/java/io/camunda/dev/assertions/ai/internal/TextNormalizer.java:15 | every whitespace character of the result is a space, no two spaces are adjacent, the result is empty only for an empty input, and it starts with whitespace exactly when the input does |
| JavaString.CollapseSeparates | src/main/java/io/camunda/dev/assertions/ai/internal/TextNormalizer.java:15 | each maximal whitespace run, wherever it stands, becomes exactly one space: collapsing a + w + b, with w a non-empty run that neither a's end nor b's start extends, gives collapse(a), one space, collapse(b) |
| JavaString.CollapseAppend | src/main/java/io/camunda/dev/assertions/ai/internal/TextNormalizer.java:15 | a text that does not end in whitespace is collapsed independently of what follows it |
| JavaString.CollapseRun | src/main/java/io/camunda/dev/assertions/ai/internal/TextNormalizer.java:15 | a whitespace run that opens the text becomes a single space |
| JavaString.TrimCollapse | src/main/java/io/camunda/dev/assertions/ai/internal/TextNormalizer.java:15 | trim then collapse yields the collapsed normal form and keeps every non-whitespace character in order |
| JavaString.CollapseKeepsNonWhitespace | src/main/java/io/camunda/dev/assertions/ai/internal/TextNormalizer.java:15 | collapsing whitespace runs deletes or adds no non-whitespace character |
| JavaString.TrimKeepsNonWhitespace | src/main/java/io/camunda/dev/assertions/ai/internal/TextNormalizer.java:15 | trim deletes no non-whitespace character |
| JavaString.TrimFixesTrimmed | src/main/java/io/camunda/dev/assertions/ai/internal/TextNormalizer.java:15 | trim leaves text without outer whitespace unchanged |
| JavaString.CollapseFixesCollapsed | src/main/java/io/camunda/dev/assertions/ai/internal/TextNormalizer.java:15 | collapsing leaves text with only single spaces unchanged |
| JavaString.ToLower | src/main/java/io/camunda/dev/assertions/ai/internal/TextNormalizer.java:18 | same length, each character mapped to lower case (ASCII letters only) |
| JavaString.ToLowerIdempotent | src/main/java/io/camunda/dev/assertions/ai/internal/TextNormalizer.java:18 | lowercasing twice is lowercasing once |
| JavaString.ToLowerKeepsCollapsed | src/main/java/io/camunda/dev/assertions/ai/internal/TextNormalizer.java:17-19 | lowercasing after collapsing keeps the collapsed form |
| JavaString.RemoveWhitespaceToLower | src/main/java/io/camunda/dev/assertions/ai/internal/TextNormalizer.java:15-18 | deleting whitespace and lowercasing commute |
| JavaString.IndexOf | src/main/java/io/camunda/dev/assertions/ai/SemanticTextAssert.java:118 | the result is the first index at or after `from` where the pattern occurs, or -1 when there is none |
| JavaString.IndexOfChar | src/main/java/io/camunda/dev/assertions/ai/SemanticTextAssert.java:120 | the result is the first index at or after `from` holding the character, or -1 when there is none |
| JavaString.IndexOfCharIsIndexOf | src/main/java/io/camunda/dev/assertions/ai/SemanticTextAssert.java:120 | `indexOf(char, from)` agrees with `indexOf` of the one-character string |
| JavaString.StartsWith | src/main/java/io/camunda/dev/assertions/ai/SemanticTextAssert.java:123-124 | `startsWith(p)`: the text begins with the characters of p, in order |
| JavaString.StartsWithAppend | src/main/java/io/camunda/dev/assertions/ai/SemanticTextAssert.java:123-124 | p followed by any text starts with p |
| JavaString.StartsWithRest | src/main/java/io/camunda/dev/assertions/ai/SemanticTextAssert.java:123-124 | a text that starts with p is p followed by the rest of the text |
| JavaString.Contains | src/test/java/io/camunda/dev/assertions/ai/CamundaAiAssertionsTest.java:98-101 | `contains(p)`: `indexOf(p)` finds p |
| JavaString.ContainsMatch | src/test/java/io/camunda/dev/assertions/ai/CamundaAiAssertionsTest.java:98-101 | `contains(p)` holds exactly when p occurs at some index |
| JavaString.Show | src/main/java/io/camunda/dev/assertions/ai/SemanticTextAssert.java:69 | string concatenation appends the text itself, or "null" for a null String |
| JavaString.TrimKeepsCore | src/main/java/io/camunda/dev/assertions/ai/SemanticTextAssert.java:122-123 | trimming whitespace + x + y, with x non-empty and without outer whitespace, gives a text that starts with x |
| Normalizer.Normalize | src/main/java/io/camunda/dev/assertions/ai/internal/TextNormalizer.java:9-21 | null stays null; with whitespace normalisation the result is in collapsed form (no outer whitespace, only single spaces); with lowercasing it has no upper-case letter; with both off it is the input |
| Normalizer.NormalizeIdempotent | src/main/java/io/camunda/dev/assertions/ai/internal/TextNormalizer.java:13-20 | normalising twice with the same options gives what normalising once gives |
| Normalizer.NormalizeChangesOnlyWhitespaceAndCase | src/main/java/io/camunda/dev/assertions/ai/internal/TextNormalizer.java:15-18 | after deleting whitespace and lowercasing, input and output are equal |
| Canonicalizer.Canonicalize | src/main/java/io/camunda/dev/assertions/ai/internal/JsonCanonicalizer.java:13-16 | null stays null; the result is in collapsed form and has exactly the input's non-whitespace characters in their order, so no key is reordered |
| Canonicalizer.CanonicalizeIsWhitespaceNormalize | src/main/java/io/camunda/dev/assertions/ai/internal/JsonCanonicalizer.java:16 | canonicalising is normalising with whitespace on and lowercasing off |
| Canonicalizer.CanonicalizeIdempotent | src/main/java/io/camunda/dev/assertions/ai/internal/JsonCanonicalizer.java:16 | canonicalising twice is canonicalising once |
| Cosine.Dot | src/main/java/io/camunda/dev/assertions/ai/internal/CosineSimilarity.java:17-18 | the dot product, accumulated from the first element to the last; DotSymmetric states its symmetry |
| Cosine.CosineOf | src/main/java/io/camunda/dev/assertions/ai/internal/CosineSimilarity.java:14-25 | the value the loop and the final division compute; its properties are CosineSymmetric, CosineSelf, CosineZeroVector and CosineBounded |
| Cosine.Similarity | src/main/java/io/camunda/dev/assertions/ai/internal/CosineSimilarity.java:22-25 | 0 when a squared norm is 0, else the dot product over the product of the two roots; SimilarityBounded bounds it by 1 in absolute value once the dot product squared is at most the product of the squared norms |
| Cosine.SumOfSquares | src/main/java/io/camunda/dev/assertions/ai/internal/CosineSimilarity.java:17-19 | a squared norm is non-negative and equals the vector's dot product with itself |
| Cosine.Cosine | src/main/java/io/camunda/dev/assertions/ai/internal/CosineSimilarity.java:7-26 | a null vector gives the null-vector error; vectors of different lengths give the dimension error with both lengths; otherwise the loop's result is `CosineOf`, the dot product over the product of the roots of the squared norms, or 0 when a norm is 0 |
| Cosine.DotSymmetric | src/main/java/io/camunda/dev/assertions/ai/internal/CosineSimilarity.java:18 | the dot product does not depend on argument order |
| Cosine.CosineSymmetric | src/main/java/io/camunda/dev/assertions/ai/internal/CosineSimilarity.java:17-25 | cosine(a, b) == cosine(b, a) |
| Cosine.CosineSelf | src/main/java/io/camunda/dev/assertions/ai/internal/CosineSimilarity.java:17-25 | a vector with a non-zero element has cosine 1 with itself |
| Cosine.SumOfSquaresZero | src/main/java/io/camunda/dev/assertions/ai/internal/CosineSimilarity.java:19-22 | a squared norm is 0 exactly when every element is 0 |
| Cosine.CosineZeroVector | src/main/java/io/camunda/dev/assertions/ai/internal/CosineSimilarity.java:22-24 | an all-zero vector on either side gives exactly 0 |
| Cosine.CauchySchwarz | src/main/java/io/camunda/dev/assertions/ai/internal/CosineSimilarity.java:17-21 | the squared dot product is at most the product of the squared norms |
| Cosine.CosineBounded | src/main/java/io/camunda/dev/assertions/ai/internal/CosineSimilarity.java:22-25 | the similarity lies in [-1, 1] |
| Options.Builder.constructor | src/main/java/io/camunda/dev/assertions/ai/SemanticOptions.java:58-62 | a new builder holds 0.80, 0.70, true, false |
| Options.Builder.EmbeddingThreshold | src/main/java/io/camunda/dev/assertions/ai/SemanticOptions.java:64-67 | sets that field alone and returns the builder |
| Options.Builder.JudgeMinScore | src/main/java/io/camunda/dev/assertions/ai/SemanticOptions.java:69-72 | sets that field alone and returns the builder |
| Options.Builder.NormalizeWhitespace | src/main/java/io/camunda/dev/assertions/ai/SemanticOptions.java:74-77 | sets that field alone and returns the builder |
| Options.Builder.NormalizeToLowercase | src/main/java/io/camunda/dev/assertions/ai/SemanticOptions.java:79-82 | sets that field alone and returns the builder |
| Options.Builder.Build | src/main/java/io/camunda/dev/assertions/ai/SemanticOptions.java:84-92 | succeeds exactly when both thresholds lie in [0,1]; the value carries the four fields unchanged (so the accessors return them); when both are out of range the error names the embedding threshold |
| Options.Defaults | src/main/java/io/camunda/dev/assertions/ai/SemanticOptions.java:18-20 | defaults() is 0.80, 0.70, true, false and valid |
| Options.BuilderFrom | src/main/java/io/camunda/dev/assertions/ai/SemanticOptions.java:50-56 | a fresh builder holding the value's four fields |
| Options.WithEmbeddingThreshold | src/main/java/io/camunda/dev/assertions/ai/SemanticOptions.java:42-44 | the result differs from the receiver in the embedding threshold only; an out-of-range threshold is refused |
| Options.WithJudgeMinScore | src/main/java/io/camunda/dev/assertions/ai/SemanticOptions.java:46-48 | the result differs from a valid receiver in the minimum score only; an out-of-range score is refused |
| Judge.KeyColon | src/main/java/io/camunda/dev/assertions/ai/SemanticTextAssert.java:118-121 | a position found holds ':' and lies at or after an occurrence of the quoted key; it is absent when the quoted key does not occur |
| Judge.ExtractBoolean | src/main/java/io/camunda/dev/assertions/ai/SemanticTextAssert.java:117-126 | a verdict found is the word the trimmed text after the colon starts with |
| Judge.BooleanToken | src/main/java/io/camunda/dev/assertions/ai/SemanticTextAssert.java:123-125 | a verdict is read only from a text that starts with "true" or "false", and it is the word the text starts with |
| Judge.SkipWhitespace | src/main/java/io/camunda/dev/assertions/ai/SemanticTextAssert.java:134 | the first index at or after the start that is not whitespace, with only whitespace skipped |
| Judge.NumberRunEnd | src/main/java/io/camunda/dev/assertions/ai/SemanticTextAssert.java:136 | the end of the maximal run of digits, '.' and '-' from the start: every character before it is in the run and the one at it is not |
| Judge.NumberToken | src/main/java/io/camunda/dev/assertions/ai/SemanticTextAssert.java:133-136 | the run taken consists of digits, '.' and '-' only |
| Judge.Classify | src/main/java/io/camunda/dev/assertions/ai/SemanticTextAssert.java:137-138 | an empty run gives no number; otherwise the run is the number parseDouble reads, or malformed exactly when parseDouble rejects it |
| Judge.ParseDecimal | src/main/java/io/camunda/dev/assertions/ai/SemanticTextAssert.java:138 | an unsigned token reads as a non-negative number and a token starting with '-' as a non-positive one |
| Judge.ParseDecimalAccepts | src/main/java/io/camunda/dev/assertions/ai/SemanticTextAssert.java:138 | a run is accepted exactly when it has an optional leading '-', at most one '.', and at least one digit (so "-" and "1.2.3" are rejected) |
| Judge.ParseDecimalFraction | src/main/java/io/camunda/dev/assertions/ai/SemanticTextAssert.java:138 | "0." followed by digits d reads as d / 10^len(d), a number in [0, 1) |
| Judge.ParseDecimalWhole | src/main/java/io/camunda/dev/assertions/ai/SemanticTextAssert.java:138 | a run of digits reads as that whole number |
| Judge.ScanNumber | src/main/java/io/camunda/dev/assertions/ai/SemanticTextAssert.java:128-139 | a number or a malformed run is only ever found after a colon that follows the key |
| Judge.ScanNumberFound | src/main/java/io/camunda/dev/assertions/ai/SemanticTextAssert.java:133-138 | a number found is the value of a run of the text that starts after only whitespace following the colon |
| Judge.ReadNumber | src/main/java/io/camunda/dev/assertions/ai/SemanticTextAssert.java:133-138 | the two while loops and parseDouble compute `Classify(NumberToken(s, k))` |
| Judge.ExtractDouble | src/main/java/io/camunda/dev/assertions/ai/SemanticTextAssert.java:128-139 | extractDouble computes `ScanNumber` |
| Judge.QuotedFrom | src/main/java/io/camunda/dev/assertions/ai/SemanticTextAssert.java:148-150 | a text read from after an opening quote holds no '"'; QuotedAfterFound places it between the first two quotes after the colon |
| Judge.QuotedAfter | src/main/java/io/camunda/dev/assertions/ai/SemanticTextAssert.java:146-150 | a text found holds no '"' |
| Judge.QuotedAfterFound | src/main/java/io/camunda/dev/assertions/ai/SemanticTextAssert.java:146-150 | a text found lies strictly between the first two '"' at or after the start |
| Judge.ExtractString | src/main/java/io/camunda/dev/assertions/ai/SemanticTextAssert.java:141-151 | a reason is only ever found after a colon that follows the key |
| Judge.Parse | src/main/java/io/camunda/dev/assertions/ai/SemanticTextAssert.java:98-115 | null gives no result; on the trimmed text a result exists exactly when both the verdict and a number score are found; it holds them; its reason is the one found, or "" when none is found, and never contains '"' |
| Judge.TryParse | src/main/java/io/camunda/dev/assertions/ai/SemanticTextAssert.java:98-115 | tryParse, with the looping extractDouble, computes `Parse` |
| Judge.PassField | src/main/java/io/camunda/dev/assertions/ai/SemanticTextAssert.java:117-126 | a "pass" field at the start decides the verdict whatever follows it, including later "pass" keys |
| Judge.ReplyPass | src/main/java/io/camunda/dev/assertions/ai/SemanticTextAssert.java:117-126 | in a reply of the prompted shape wrapped in quote-free prose, extractBoolean finds its verdict |
| Judge.ReplyScore | src/main/java/io/camunda/dev/assertions/ai/SemanticTextAssert.java:128-139 | in such a reply, extractDouble reads its score token |
| Judge.ReplyReason | src/main/java/io/camunda/dev/assertions/ai/SemanticTextAssert.java:141-151 | in such a reply, extractString reads its reason |
| Judge.ReplyTrimmed | src/main/java/io/camunda/dev/assertions/ai/SemanticTextAssert.java:102 | such a reply has no whitespace for trim to remove |
| Judge.WrappedReplyParses | src/main/java/io/camunda/dev/assertions/ai/SemanticTextAssert.java:98-151 | such a reply parses to its own verdict, score and reason, and to nothing when parseDouble rejects its score token |
| Judge.NoQuoteNoParse | src/main/java/io/camunda/dev/assertions/ai/SemanticTextAssert.java:98-119 | a response without '"' never parses |
| Judge.ParseStrictReply | src/main/java/io/camunda/dev/assertions/ai/SemanticTextAssert.java:98-151 | {"pass":true,"score":0.92,"reason":"matches"} parses to (true, 0.92, "matches") |
| Judge.ParseReplyInProse | src/main/java/io/camunda/dev/assertions/ai/SemanticTextAssert.java:98-151 | the reply wrapped in "Sure! Here is the result: … Hope that helps." parses to (false, 0.3, "off-topic") |
| Judge.ParseProse | src/main/java/io/camunda/dev/assertions/ai/SemanticTextAssert.java:98-119 | "not json at all" does not parse |
| Backends.EmbeddingModel.Embed | src/main/java/io/camunda/dev/assertions/ai/SemanticTextAssert.java:47-48 | one call: the answer is the model's vector for the text, and the text is appended to the call log |
| Backends.ChatModel.Call | src/main/java/io/camunda/dev/assertions/ai/SemanticTextAssert.java:73 | one call: the answer is the model's response to the prompt, and the prompt is appended to the call log |
| AiDefaults.Builder.constructor | src/main/java/io/camunda/dev/assertions/ai/CamundaAiAssertionDefaults.java:19-38 | builder(): no model and no options set |
| AiDefaults.Builder.EmbeddingModel | src/main/java/io/camunda/dev/assertions/ai/CamundaAiAssertionDefaults.java:40-43 | sets that field alone and returns the builder, so a later call overrides an earlier one |
| AiDefaults.Builder.JudgeModel | src/main/java/io/camunda/dev/assertions/ai/CamundaAiAssertionDefaults.java:45-48 | sets that field alone and returns the builder |
| AiDefaults.Builder.Options | src/main/java/io/camunda/dev/assertions/ai/CamundaAiAssertionDefaults.java:50-53 | sets that field alone and returns the builder |
| AiDefaults.Builder.Build | src/main/java/io/camunda/dev/assertions/ai/CamundaAiAssertionDefaults.java:13-57 | the models come out as set (null when never set); unset or null options become `SemanticOptions.defaults()`; set options come out unchanged and stay valid |
| AiDefaults.Initial | src/main/java/io/camunda/dev/assertions/ai/CamundaAiAssertions.java:13 | builder().build() has no models and the default options |
| AiDefaults.LaterSetterWins | src/main/java/io/camunda/dev/assertions/ai/CamundaAiAssertionDefaults.java:40-53 | after two calls of one setter the second value is built; options set and then reset to null become the defaults |
| Assertions.CamundaAiAssertions.constructor | src/main/java/io/camunda/dev/assertions/ai/CamundaAiAssertions.java:13 | the slot starts with no models and default options |
| Assertions.CamundaAiAssertions.ConfigureDefaults | src/main/java/io/camunda/dev/assertions/ai/CamundaAiAssertions.java:17-22 | null is refused with an error and the slot is kept; any other value replaces the slot |
| Assertions.CamundaAiAssertions.Defaults | src/main/java/io/camunda/dev/assertions/ai/CamundaAiAssertions.java:24-26 | returns the current snapshot |
| Assertions.CamundaAiAssertions.AssertThat | src/main/java/io/camunda/dev/assertions/ai/CamundaAiAssertions.java:28-30 | a new text session on the text, seeded from the current snapshot |
| Assertions.CamundaAiAssertions.AssertThatJson | src/main/java/io/camunda/dev/assertions/ai/CamundaAiAssertions.java:32-34 | a new JSON session on the text, seeded from the current snapshot |
| Assertions.CamundaAiAssertions.AssertThatWithEmbeddingModel | src/main/java/io/camunda/dev/assertions/ai/CamundaAiAssertions.java:37-39 | as assertThat(text).usingEmbeddingModel(model): the model replaced, everything else from the snapshot |
| Assertions.CamundaAiAssertions.AssertThatWithJudgeModel | src/main/java/io/camunda/dev/assertions/ai/CamundaAiAssertions.java:41-43 | as assertThat(text).usingJudgeModel(model): the judge replaced, everything else from the snapshot |
| Assertions.SessionKeepsItsSnapshot | src/main/java/io/camunda/dev/assertions/ai/CamundaAiAssertions.java:21-30 | a session started before configureDefaults(d) keeps the earlier snapshot while the slot holds d |
| Assertions.NullDefaultsRefused | src/main/java/io/camunda/dev/assertions/ai/CamundaAiAssertions.java:17-26 | configureDefaults(null) after configureDefaults(d) is refused, and defaults() still returns d |
| TextAssert.SemanticTextAssert.constructor | src/main/java/io/camunda/dev/assertions/ai/SemanticTextAssert.java:16-22 | the three settings are copied from the defaults snapshot |
| TextAssert.SemanticTextAssert.UsingEmbeddingModel | src/main/java/io/camunda/dev/assertions/ai/SemanticTextAssert.java:24-27 | overwrites that setting alone and returns the same session |
| TextAssert.SemanticTextAssert.UsingJudgeModel | src/main/java/io/camunda/dev/assertions/ai/SemanticTextAssert.java:29-32 | overwrites that setting alone and returns the same session |
| TextAssert.SemanticTextAssert.UsingOptions | src/main/java/io/camunda/dev/assertions/ai/SemanticTextAssert.java:34-37 | overwrites that setting alone and returns the same session |
| TextAssert.SimilarityOutcome | src/main/java/io/camunda/dev/assertions/ai/SemanticTextAssert.java:43-56 | on the normalised texts' embeddings the check passes exactly when both embeddings exist, have one length and their cosine reaches the embedding threshold; a failure carries that threshold, the cosine of the two embeddings and both original texts |
| TextAssert.Verdict | src/main/java/io/camunda/dev/assertions/ai/SemanticTextAssert.java:50-56 | cosine's argument errors come through exactly for null or mismatched vectors; a failure carries the threshold, the cosine of the two vectors, which lies in [-1, threshold), and both original texts; a pass is possible only for a threshold of at most 1 |
| TextAssert.VerdictPassesIff | src/main/java/io/camunda/dev/assertions/ai/SemanticTextAssert.java:50-51 | on valid vectors the check passes exactly when cosine >= threshold and fails exactly when cosine < threshold (a strict comparison) |
| TextAssert.VerdictMonotone | src/main/java/io/camunda/dev/assertions/ai/SemanticTextAssert.java:51 | lowering the threshold never turns a pass into a failure |
| TextAssert.SimilaritySymmetric | src/main/java/io/camunda/dev/assertions/ai/SemanticTextAssert.java:44-51 | swapping actual and expected text does not change whether the check passes |
| TextAssert.SameNormalFormPasses | src/main/java/io/camunda/dev/assertions/ai/SemanticTextAssert.java:44-51 | texts that normalise to the same string pass any threshold of at most 1 when their embedding is not all zero |
| TextAssert.ZeroEmbeddingPassesIff | src/main/java/io/camunda/dev/assertions/ai/SemanticTextAssert.java:50-51 | with an all-zero embedding the check passes exactly when the threshold is at most 0, and otherwise fails with similarity 0 |
| TextAssert.SemanticTextAssert.IsSemanticallySimilarTo | src/main/java/io/camunda/dev/assertions/ai/SemanticTextAssert.java:39-57 | a null actual fails first and a missing model next, both without any embed call; otherwise the normalised actual and then the normalised expected text are embedded, one call each, and the outcome is `SimilarityOutcome` |
| TextAssert.Prompt | src/main/java/io/camunda/dev/assertions/ai/SemanticTextAssert.java:65-71 | the prompt is the fixed two-line header, "EXPECTATION:\n", the expectation (or "null"), "\n\nACTUAL:\n", and the actual text as given, each at its place |
| TextAssert.PromptInjective | src/main/java/io/camunda/dev/assertions/ai/SemanticTextAssert.java:65-71 | for one expectation, different actual texts give different prompts |
| TextAssert.JudgeOutcome | src/main/java/io/camunda/dev/assertions/ai/SemanticTextAssert.java:74-83 | an unparsable response (null among them) fails with the raw response; a parsed one passes exactly when pass is true and score >= the minimum, and otherwise fails with the minimum, the parsed verdict, score and reason, the expectation and the actual |
| TextAssert.JudgeMonotone | src/main/java/io/camunda/dev/assertions/ai/SemanticTextAssert.java:78 | lowering the minimum score never turns a pass into a failure |
| TextAssert.JudgeReplyOutcome | src/main/java/io/camunda/dev/assertions/ai/SemanticTextAssert.java:74-83 | a reply of the prompted shape passes exactly when its verdict is true and its score token is a number of at least the minimum; it is unparsable exactly when parseDouble rejects the token |
| TextAssert.JudgeProseReplyRejected | src/main/java/io/camunda/dev/assertions/ai/SemanticTextAssert.java:74-83 | the prose-wrapped reply with pass false and score 0.3 fails at the default minimum 0.70 with those values and reason off-topic |
| TextAssert.JudgeNoQuoteUnparsable | src/main/java/io/camunda/dev/assertions/ai/SemanticTextAssert.java:74-77 | a response without '"' fails as unparsable, with that response attached |
| TextAssert.SemanticTextAssert.MatchesExpectationWithJudge | src/main/java/io/camunda/dev/assertions/ai/SemanticTextAssert.java:59-84 | a null actual fails first and a missing judge next, both without a call; otherwise the judge is called exactly once, with `Prompt(expectation, actual)`, and the outcome is `JudgeOutcome` of its response against the session's minimum score |
| JsonAssert.SemanticJsonAssert.constructor | src/main/java/io/camunda/dev/assertions/ai/SemanticJsonAssert.java:15-21 | the three settings are copied from the defaults snapshot |
| JsonAssert.SemanticJsonAssert.UsingEmbeddingModel | src/main/java/io/camunda/dev/assertions/ai/SemanticJsonAssert.java:23-26 | overwrites that setting alone and returns the same session |
| JsonAssert.SemanticJsonAssert.UsingJudgeModel | src/main/java/io/camunda/dev/assertions/ai/SemanticJsonAssert.java:28-31 | overwrites that setting alone and returns the same session |
| JsonAssert.SemanticJsonAssert.UsingOptions | src/main/java/io/camunda/dev/assertions/ai/SemanticJsonAssert.java:33-36 | overwrites that setting alone and returns the same session |
| JsonAssert.SemanticJsonAssert.MatchesDescription | src/main/java/io/camunda/dev/assertions/ai/SemanticJsonAssert.java:38-49 | a null actual or a missing model fails before canonicalisation and without a call; otherwise the calls and the outcome are those of the text check on the canonical JSON with this session's model and options |
| JsonAssert.SemanticJsonAssert.MatchesDescriptionWithJudge | src/main/java/io/camunda/dev/assertions/ai/SemanticJsonAssert.java:51-62 | a null actual or a missing judge fails before canonicalisation and without a call; otherwise the single call and the outcome are those of the judge check on the canonical JSON with this session's judge and options |
| Fakes.FakeResponder | src/test/java/io/camunda/dev/assertions/ai/CamundaAiAssertionsTest.java:115-125 | the fake chat model answers every prompt with its one fixed response |
| Fakes.FakeVector | src/test/java/io/camunda/dev/assertions/ai/CamundaAiAssertionsTest.java:94-105 | the fake embedding always gives a two-element vector |
| Fakes.NeitherCatNorDog | src/test/java/io/camunda/dev/assertions/ai/CamundaAiAssertionsTest.java:96-104 | a text without c, C, g or G embeds to [1,1] |
| Fakes.CanonicalChar | src/main/java/io/camunda/dev/assertions/ai/internal/JsonCanonicalizer.java:16 | every character of a canonical JSON text is a space or a character of the input |
| Fakes.CatIsNotSimilarToDog | src/test/java/io/camunda/dev/assertions/ai/CamundaAiAssertionsTest.java:52-61 | "cat" against "dog" at threshold 0.80 fails with similarity 0 |
| Fakes.CatFoodIsSimilarToCatToy | src/main/java/io/camunda/dev/assertions/ai/SemanticTextAssert.java:39-57 | "cat food" against "cat toy" passes, after exactly two embed calls, actual first |
| Fakes.JsonMatchesStatusDescription | src/test/java/io/camunda/dev/assertions/ai/CamundaAiAssertionsTest.java:78-83 | the pretty-printed status JSON matches the description "status resolved" under the fake embedding |
| Fakes.JudgePassesOnFakeReply | src/test/java/io/camunda/dev/assertions/ai/CamundaAiAssertionsTest.java:70-76 | a judge answering {"pass":true,"score":0.95,"reason":"ok"} passes at minimum 0.7 after exactly one call with the expected prompt |
| Fakes.JudgeRejectsBelowMinScore | src/main/java/io/camunda/dev/assertions/ai/SemanticTextAssert.java:78-82 | the same judge at minimum 0.99 fails with score 0.95, pass true and reason ok |
| Fakes.JudgeRequiresModel | src/test/java/io/camunda/dev/assertions/ai/CamundaAiAssertionsTest.java:63-68 | without a configured judge the judge check fails for the missing model |
| Fakes.EmbeddingRequiresModel | src/main/java/io/camunda/dev/assertions/ai/SemanticTextAssert.java:40-43 | without an embedding model the embedding check fails for the missing model and calls no backend |

## Left out

- Floating point. Vectors, thresholds and scores are reals, so IEEE rounding, NaN and Infinity are not modelled. A NaN threshold would pass the range checks of `build()`, and the model does not show that.
- `ai/internal/CosineSimilarity.java:25`: `Math.sqrt` is a parameter that is assumed to be the exact square root.
- Message texts. `failWithMessage` strings and their `%.2f`/`%.3f` formatting are not modelled. Each failing `Outcome` carries the values that its message prints.
- AssertJ. `AbstractAssert`, `isNotNull` and the `return this` after a terminal check are not modelled. A terminal check returns its `Outcome`, and a pass is `Passed`.
- Backends.
  - The Spring AI clients and the network are not modelled. Each backend is a fixed function of its input.
  - Exceptions a backend throws are not modelled.
  - The fakes' `embed(Document)` and `call(Prompt)` overloads are not modelled, because the library never calls them.
- TextAssert.SemanticTextAssert.UsingOptions: a null options value is not modelled. In Java it makes the next check throw a `NullPointerException`.
- Unicode.
  - `toLowerCase` maps only the ASCII letters.
  - `Character.isDigit` (`ai/SemanticTextAssert.java:136`) is modelled as ASCII digits only, and the results differ. Java takes a non-ASCII digit such as U+0665 into the score run, and `Double.parseDouble` then throws. So for `{"pass":true,"score":0.9٥,"reason":"x"}` Java's `tryParse` returns null and the check reports an unparsable reply. The model ends the run at `0.9` and passes when the minimum score is at most 0.9.
  - One whitespace set, space, tab, line feed, vertical tab, form feed and carriage return, stands for all three of `trim()`, `\s` and `Character.isWhitespace`. It is exactly the set of `\s`. `trim()` also strips the other control characters up to U+0020.
  - `Character.isWhitespace` (`ai/SemanticTextAssert.java:134`) also accepts U+001C to U+001F and the Unicode space separators other than the no-break spaces, and the results differ. For `"score":` followed by U+2003 (em space), a space and `0.9`, Java skips both characters and reads 0.9. The model stops at U+2003, finds an empty number run and reports the reply unparsable.
- `Double.parseDouble` is modelled only on the tokens `extractDouble` can hand it: digits, `.` and `-`. Exponents, hexadecimal forms and suffixes cannot occur in such a token.
- Exceptions during parsing. In `tryParse`, the only exception extraction can raise is parseDouble's `NumberFormatException`, so `catch (Exception e)` becomes the `Malformed` case of the score scan. Every substring index in the extractors is in range.
- Literal judge replies. The parser lemmas and the judge examples use replies built by `Judge.Reply` from their parts, not literal strings.
  - Equality of a long literal with a built text is too costly for the verifier.
  - Each doc comment gives the literal.
- The first-occurrence edge case. When another quoted string in the same reply contains `"pass"`, `"score"` or `"reason"`, the model reads it as the source does: the first occurrence decides (`Judge.PassField`). No other reading is modelled.
- Concurrency. The `volatile` defaults slot at `ai/CamundaAiAssertions.java:13` is a field of one `CamundaAiAssertions` object. Its atomic replacement under concurrent readers is not modelled.
- The session's final `defaults` field is kept. It is used only to seed the inner text session that the JSON checks create.
- The test methods of `CamundaAiAssertionsTest` that call OpenAI are not modelled, including `embeddings_passes_when_similarity_high`, which expects "cat" to match "dog". The scenarios in `Fakes` run the same chains against the fake backends instead.
