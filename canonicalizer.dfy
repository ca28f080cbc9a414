/** JsonCanonicalizer.canonicalize: trim and collapse whitespace; no parsing, no key reordering. */
module Canonicalizer {
  import opened Wrappers
  import opened JavaString
  import opened Options
  import Normalizer

  /**
   * Null stays null; otherwise the result is in collapsed form (no leading or
   * trailing whitespace, only single spaces) and keeps every non-whitespace
   * character in its original order.
   */
  function Canonicalize(json: Option<string>): (r: Option<string>)
    ensures json.None? <==> r.None?
    ensures r.Some? ==> Collapsed(r.value)
    ensures r.Some? ==> RemoveWhitespace(r.value) == RemoveWhitespace(json.value)
  {
    match json
    case None => None
    case Some(s) =>
      TrimCollapse(s);
      Some(CollapseWhitespace(Trim(s)))
  }

  /** Canonicalising is normalising with whitespace collapsing on and lowercasing off. */
  lemma CanonicalizeIsWhitespaceNormalize(json: Option<string>, options: SemanticOptions)
    requires options.normalizeWhitespace && !options.normalizeToLowercase
    ensures Canonicalize(json) == Normalizer.Normalize(json, options)
  {
  }

  lemma CanonicalizeIdempotent(json: Option<string>)
    ensures Canonicalize(Canonicalize(json)) == Canonicalize(json)
  {
    if json.Some? {
      var once := Canonicalize(json).value;
      TrimFixesTrimmed(once);
      CollapseFixesCollapsed(once);
    }
  }
}
