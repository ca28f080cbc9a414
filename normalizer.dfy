/** TextNormalizer.normalize: optional whitespace collapsing, then optional lowercasing. */
module Normalizer {
  import opened Wrappers
  import opened JavaString
  import opened Options

  /**
   * Null stays null. With normalizeWhitespace the text is trimmed and every
   * whitespace run becomes one space; with normalizeToLowercase it is then
   * lowercased. Nothing else changes.
   */
  function Normalize(input: Option<string>, options: SemanticOptions): (r: Option<string>)
    ensures input.None? <==> r.None?
    ensures r.Some? && options.normalizeWhitespace ==> Collapsed(r.value)
    ensures r.Some? && options.normalizeToLowercase ==> NoUpper(r.value)
    ensures r.Some? && !options.normalizeWhitespace && !options.normalizeToLowercase ==> r.value == input.value
  {
    match input
    case None => None
    case Some(s) =>
      var ws := if options.normalizeWhitespace then CollapseWhitespace(Trim(s)) else s;
      var out := if options.normalizeToLowercase then ToLower(ws) else ws;
      assert options.normalizeWhitespace ==> Collapsed(out) by {
        if options.normalizeWhitespace {
          TrimCollapse(s);
          if options.normalizeToLowercase {
            ToLowerKeepsCollapsed(ws);
          }
        }
      }
      Some(out)
  }

  /** Normalising twice with the same options gives what normalising once gives. */
  lemma NormalizeIdempotent(input: Option<string>, options: SemanticOptions)
    ensures Normalize(Normalize(input, options), options) == Normalize(input, options)
  {
    if input.Some? {
      var once := Normalize(input, options).value;
      if options.normalizeWhitespace {
        TrimFixesTrimmed(once);
        CollapseFixesCollapsed(once);
      }
      if options.normalizeToLowercase {
        var s := input.value;
        ToLowerIdempotent(if options.normalizeWhitespace then CollapseWhitespace(Trim(s)) else s);
      }
    }
  }

  /** Only whitespace and letter case change: with both removed, input and output agree. */
  lemma NormalizeChangesOnlyWhitespaceAndCase(input: Option<string>, options: SemanticOptions)
    requires input.Some?
    ensures RemoveWhitespace(ToLower(Normalize(input, options).value)) == RemoveWhitespace(ToLower(input.value))
  {
    var s := input.value;
    var ws := if options.normalizeWhitespace then CollapseWhitespace(Trim(s)) else s;
    if options.normalizeWhitespace {
      TrimCollapse(s);
    }
    assert RemoveWhitespace(ws) == RemoveWhitespace(s);
    RemoveWhitespaceToLower(ws);
    RemoveWhitespaceToLower(s);
    if options.normalizeToLowercase {
      ToLowerIdempotent(ws);
    }
  }
}
