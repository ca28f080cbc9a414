/**
 * The parts of java.lang.String and java.lang.Character that the assertion
 * library relies on: trim(), replaceAll("\\s+", " "), toLowerCase(),
 * indexOf(...), startsWith(...), contains(...), Character.isWhitespace and
 * Character.isDigit, and string concatenation of a possibly-null String.
 *
 * One whitespace set is used throughout (space, tab, line feed, vertical tab,
 * form feed, carriage return: the characters of the regex class \s), and
 * case mapping and digits are ASCII only.
 */
module JavaString {
  import opened Wrappers

  predicate IsWhitespace(c: char) {
    c == ' ' || c == '\t' || c == '\n' || c == '\U{B}' || c == '\U{C}' || c == '\r'
  }

  predicate IsDigit(c: char) { '0' <= c <= '9' }

  predicate IsUpper(c: char) { 'A' <= c <= 'Z' }

  /** ASCII case mapping of one character. */
  function LowerChar(c: char): (d: char)
    ensures !IsUpper(d)
    ensures IsUpper(c) ==> d as int == c as int + 32
    ensures !IsUpper(c) ==> d == c
  {
    if IsUpper(c) then (c as int + 32) as char else c
  }

  /** String.toLowerCase(), ASCII letters only. */
  function ToLower(s: string): (r: string)
    ensures |r| == |s|
    ensures forall i :: 0 <= i < |s| ==> r[i] == LowerChar(s[i])
  {
    seq(|s|, i requires 0 <= i < |s| => LowerChar(s[i]))
  }

  predicate AllWhitespace(s: string) {
    forall i :: 0 <= i < |s| ==> IsWhitespace(s[i])
  }

  predicate NoUpper(s: string) {
    forall i :: 0 <= i < |s| ==> !IsUpper(s[i])
  }

  /** Neither the first nor the last character is whitespace. */
  predicate Trimmed(s: string) {
    s == [] || (!IsWhitespace(s[0]) && !IsWhitespace(s[|s| - 1]))
  }

  /** The only whitespace character that occurs is ' '. */
  predicate WhitespaceIsSpace(s: string) {
    forall i :: 0 <= i < |s| && IsWhitespace(s[i]) ==> s[i] == ' '
  }

  predicate NoDoubleSpace(s: string) {
    forall i :: 1 <= i < |s| ==> !(s[i - 1] == ' ' && s[i] == ' ')
  }

  /** The normal form that trim() followed by replaceAll("\\s+", " ") produces. */
  predicate Collapsed(s: string) {
    Trimmed(s) && WhitespaceIsSpace(s) && NoDoubleSpace(s)
  }

  /** The length of the run of whitespace that starts s. */
  function LeadingWhitespace(s: string): (k: nat)
    ensures k <= |s|
    ensures AllWhitespace(s[..k])
    ensures k == |s| || !IsWhitespace(s[k])
  {
    if s != [] && IsWhitespace(s[0]) then 1 + LeadingWhitespace(s[1..]) else 0
  }

  /** The length of the run of whitespace that ends s. */
  function TrailingWhitespace(s: string): (k: nat)
    ensures k <= |s|
    ensures AllWhitespace(s[|s| - k..])
    ensures k == |s| || !IsWhitespace(s[|s| - k - 1])
  {
    if s != [] && IsWhitespace(s[|s| - 1]) then 1 + TrailingWhitespace(s[..|s| - 1]) else 0
  }

  /** String.trim(): drops the leading and the trailing whitespace. */
  function Trim(s: string): (r: string)
    ensures Trimmed(r)
    ensures exists i, j :: 0 <= i <= j <= |s| && r == s[i..j] && AllWhitespace(s[..i]) && AllWhitespace(s[j..])
  {
    var t := s[LeadingWhitespace(s)..];
    assert t == [] || !IsWhitespace(t[0]);
    var k := TrailingWhitespace(t);
    assert s[LeadingWhitespace(s)..][..|t| - k] == s[LeadingWhitespace(s)..LeadingWhitespace(s) + |t| - k];
    t[..|t| - k]
  }

  lemma {:induction false} LeadingWhitespaceAppend(w: string, x: string)
    requires AllWhitespace(w) && (x == [] || !IsWhitespace(x[0]))
    ensures LeadingWhitespace(w + x) == |w|
  {
    if w != [] {
      assert (w + x)[1..] == w[1..] + x;
      LeadingWhitespaceAppend(w[1..], x);
    } else {
      assert w + x == x;
    }
  }

  /** trim() of whitespace, a text x with no whitespace at its ends, and more: the result starts with x. */
  lemma TrimKeepsCore(w: string, x: string, y: string)
    requires AllWhitespace(w) && Trimmed(x) && x != []
    ensures StartsWith(Trim(w + (x + y)), x)
  {
    var s := w + (x + y);
    LeadingWhitespaceAppend(w, x + y);
    var t := s[|w|..];
    assert t == x + y;
    var k := TrailingWhitespace(t);
    forall j | |t| - k <= j < |t|
      ensures IsWhitespace(t[j])
    {
      assert t[|t| - k..][j - (|t| - k)] == t[j];
    }
    assert t[|x| - 1] == x[|x| - 1];
    assert Trim(s) == t[..|t| - k];
    assert t[..|t| - k][..|x|] == x;
  }

  /** The string with every whitespace character deleted. */
  function RemoveWhitespace(s: string): (r: string)
    ensures forall i :: 0 <= i < |r| ==> !IsWhitespace(r[i])
  {
    if s == [] then []
    else if IsWhitespace(s[0]) then RemoveWhitespace(s[1..])
    else [s[0]] + RemoveWhitespace(s[1..])
  }

  lemma {:induction false} RemoveWhitespaceAppend(a: string, b: string)
    ensures RemoveWhitespace(a + b) == RemoveWhitespace(a) + RemoveWhitespace(b)
  {
    if a != [] {
      assert (a + b)[1..] == a[1..] + b;
      RemoveWhitespaceAppend(a[1..], b);
    } else {
      assert a + b == b;
    }
  }

  lemma {:induction false} RemoveAllWhitespace(s: string)
    requires AllWhitespace(s)
    ensures RemoveWhitespace(s) == []
  {
    if s != [] {
      RemoveAllWhitespace(s[1..]);
    }
  }

  /** String.replaceAll("\\s+", " "): every maximal run of whitespace becomes one space. */
  function CollapseWhitespace(s: string): (r: string)
    ensures WhitespaceIsSpace(r) && NoDoubleSpace(r)
    ensures |r| == 0 <==> |s| == 0
    ensures |s| > 0 ==> (IsWhitespace(r[0]) <==> IsWhitespace(s[0]))
    decreases |s|
  {
    if s == [] then []
    else if IsWhitespace(s[0]) then
      var t := s[LeadingWhitespace(s)..];
      var c := CollapseWhitespace(t);
      assert c == [] || !IsWhitespace(c[0]);
      " " + c
    else
      [s[0]] + CollapseWhitespace(s[1..])
  }

  /** The last character is whitespace after collapsing exactly when it was before. */
  lemma CollapseKeepsLast(s: string)
    requires s != []
    ensures IsWhitespace(CollapseWhitespace(s)[|CollapseWhitespace(s)| - 1]) <==> IsWhitespace(s[|s| - 1])
  {
    CollapseLast(s);
  }

  /** Collapsing ends in a space after a final whitespace run, and otherwise in the input's last character. */
  lemma {:induction false} CollapseLast(s: string)
    requires s != []
    ensures var c := CollapseWhitespace(s);
            c != [] && c[|c| - 1] == if IsWhitespace(s[|s| - 1]) then ' ' else s[|s| - 1]
    decreases |s|
  {
    var k := LeadingWhitespace(s);
    if k > 0 {
      var t := s[k..];
      assert CollapseWhitespace(s) == " " + CollapseWhitespace(t);
      if t != [] {
        CollapseLast(t);
        assert s[|s| - 1] == t[|t| - 1];
        LastOfAppend(" ", CollapseWhitespace(t));
      } else {
        assert s[..k] == s;
      }
    } else if |s| > 1 {
      assert CollapseWhitespace(s) == [s[0]] + CollapseWhitespace(s[1..]);
      CollapseLast(s[1..]);
      assert s[|s| - 1] == s[1..][|s| - 2];
      LastOfAppend([s[0]], CollapseWhitespace(s[1..]));
    }
  }

  lemma LastOfAppend(a: string, b: string)
    requires b != []
    ensures (a + b)[|a + b| - 1] == b[|b| - 1]
  {
  }

  /** Collapsing deletes and inserts whitespace only. */
  lemma {:induction false} CollapseKeepsNonWhitespace(s: string)
    ensures RemoveWhitespace(CollapseWhitespace(s)) == RemoveWhitespace(s)
    decreases |s|
  {
    if s != [] {
      if IsWhitespace(s[0]) {
        var k := LeadingWhitespace(s);
        var t := s[k..];
        CollapseKeepsNonWhitespace(t);
        assert s == s[..k] + t;
        RemoveWhitespaceAppend(s[..k], t);
        RemoveAllWhitespace(s[..k]);
        assert RemoveWhitespace(" " + CollapseWhitespace(t)) == RemoveWhitespace(CollapseWhitespace(t)) by {
          assert (" " + CollapseWhitespace(t))[1..] == CollapseWhitespace(t);
        }
      } else {
        CollapseKeepsNonWhitespace(s[1..]);
        assert ([s[0]] + CollapseWhitespace(s[1..]))[1..] == CollapseWhitespace(s[1..]);
      }
    }
  }

  /** trim() then replaceAll("\\s+", " ") yields the collapsed form and keeps the non-whitespace text. */
  lemma TrimCollapse(s: string)
    ensures Collapsed(CollapseWhitespace(Trim(s)))
    ensures RemoveWhitespace(CollapseWhitespace(Trim(s))) == RemoveWhitespace(s)
  {
    var t := Trim(s);
    if t != [] {
      CollapseKeepsLast(t);
    }
    CollapseKeepsNonWhitespace(t);
    TrimKeepsNonWhitespace(s);
  }

  /** Collapsing is the identity on a string already in collapsed form. */
  lemma {:induction false} CollapseFixesCollapsed(s: string)
    requires WhitespaceIsSpace(s) && NoDoubleSpace(s)
    ensures CollapseWhitespace(s) == s
    decreases |s|
  {
    if s != [] {
      assert WhitespaceIsSpace(s[1..]) && NoDoubleSpace(s[1..]);
      CollapseFixesCollapsed(s[1..]);
      if IsWhitespace(s[0]) {
        assert |s| > 1 ==> s[1] != ' ' && !IsWhitespace(s[1]);
        assert LeadingWhitespace(s) == 1;
      }
    }
  }

  /** A text that does not end in whitespace is collapsed independently of what follows it. */
  lemma {:induction false} CollapseAppend(a: string, t: string)
    requires a == [] || !IsWhitespace(a[|a| - 1])
    ensures CollapseWhitespace(a + t) == CollapseWhitespace(a) + CollapseWhitespace(t)
    decreases |a|
  {
    if a == [] {
      assert a + t == t;
    } else if IsWhitespace(a[0]) {
      var k := LeadingWhitespace(a);
      var r := a[k..];
      assert k < |a| && r != [] && r[|r| - 1] == a[|a| - 1];
      assert a + t == a[..k] + (r + t);
      LeadingWhitespaceAppend(a[..k], r + t);
      assert (a + t)[k..] == r + t;
      assert CollapseWhitespace(a + t) == " " + CollapseWhitespace(r + t);
      assert CollapseWhitespace(a) == " " + CollapseWhitespace(r);
      CollapseAppend(r, t);
      AppendAssoc(" ", CollapseWhitespace(r), CollapseWhitespace(t));
    } else {
      var r := a[1..];
      assert (a + t)[0] == a[0] && (a + t)[1..] == r + t;
      assert r == [] || r[|r| - 1] == a[|a| - 1];
      assert CollapseWhitespace(a + t) == [a[0]] + CollapseWhitespace(r + t);
      assert CollapseWhitespace(a) == [a[0]] + CollapseWhitespace(r);
      CollapseAppend(r, t);
      AppendAssoc([a[0]], CollapseWhitespace(r), CollapseWhitespace(t));
    }
  }

  lemma AppendAssoc(x: string, y: string, z: string)
    ensures x + (y + z) == (x + y) + z
  {
  }

  /** A whitespace run that opens the text becomes one space. */
  lemma CollapseRun(w: string, b: string)
    requires w != [] && AllWhitespace(w) && (b == [] || !IsWhitespace(b[0]))
    ensures CollapseWhitespace(w + b) == " " + CollapseWhitespace(b)
  {
    LeadingWhitespaceAppend(w, b);
    assert (w + b)[0] == w[0];
    assert (w + b)[|w|..] == b;
  }

  /**
   * Every maximal whitespace run w, wherever it stands, becomes exactly one
   * space: what lies on either side of it is collapsed on its own.
   */
  lemma CollapseSeparates(a: string, w: string, b: string)
    requires w != [] && AllWhitespace(w)
    requires a == [] || !IsWhitespace(a[|a| - 1])
    requires b == [] || !IsWhitespace(b[0])
    ensures CollapseWhitespace(a + (w + b)) == CollapseWhitespace(a) + (" " + CollapseWhitespace(b))
  {
    CollapseAppend(a, w + b);
    CollapseRun(w, b);
  }

  lemma TrimFixesTrimmed(s: string)
    requires Trimmed(s)
    ensures Trim(s) == s
  {
  }

  lemma TrimKeepsNonWhitespace(s: string)
    ensures RemoveWhitespace(Trim(s)) == RemoveWhitespace(s)
  {
    var i, j :| 0 <= i <= j <= |s| && Trim(s) == s[i..j] && AllWhitespace(s[..i]) && AllWhitespace(s[j..]);
    assert s == s[..i] + (s[i..j] + s[j..]);
    RemoveWhitespaceAppend(s[..i], s[i..j] + s[j..]);
    RemoveWhitespaceAppend(s[i..j], s[j..]);
    RemoveAllWhitespace(s[..i]);
    RemoveAllWhitespace(s[j..]);
  }

  lemma {:induction false} RemoveWhitespaceToLower(s: string)
    ensures RemoveWhitespace(ToLower(s)) == ToLower(RemoveWhitespace(s))
  {
    if s != [] {
      assert ToLower(s)[1..] == ToLower(s[1..]);
      RemoveWhitespaceToLower(s[1..]);
    }
  }

  lemma ToLowerKeepsCollapsed(s: string)
    requires Collapsed(s)
    ensures Collapsed(ToLower(s))
  {
  }

  lemma ToLowerIdempotent(s: string)
    ensures ToLower(ToLower(s)) == ToLower(s)
  {
  }

  /** pat occurs in s at index j. */
  predicate MatchAt(s: string, pat: string, j: nat) {
    j + |pat| <= |s| && s[j..j + |pat|] == pat
  }

  /** String.indexOf(pat, from) (and indexOf(char, from) for a one-character pat): -1 when absent. */
  function IndexOf(s: string, pat: string, from: nat): (r: int)
    ensures r == -1 || (from <= r && MatchAt(s, pat, r))
    ensures r >= 0 ==> forall j :: from <= j < r ==> !MatchAt(s, pat, j)
    ensures r == -1 ==> forall j :: from <= j ==> !MatchAt(s, pat, j)
    decreases |s| - from
  {
    if from + |pat| > |s| then -1
    else if s[from..from + |pat|] == pat then from
    else IndexOf(s, pat, from + 1)
  }

  /** indexOf returns the first match at or after from. */
  lemma IndexOfFirstMatch(s: string, pat: string, from: nat, k: nat)
    requires from <= k && MatchAt(s, pat, k)
    requires forall j :: from <= j < k ==> !MatchAt(s, pat, j)
    ensures IndexOf(s, pat, from) == k
  {
  }

  /** String.indexOf(ch, from): the first index at or after from that holds c, or -1. */
  function IndexOfChar(s: string, c: char, from: nat): (r: int)
    ensures r == -1 || (from <= r < |s| && s[r] == c)
    ensures r >= 0 ==> forall j :: from <= j < r ==> s[j] != c
    ensures r == -1 ==> forall j :: from <= j < |s| ==> s[j] != c
    decreases |s| - from
  {
    if from >= |s| then -1
    else if s[from] == c then from
    else IndexOfChar(s, c, from + 1)
  }

  /** indexOf(c, from) is m when s[m] is the first c at or after from. */
  lemma IndexOfCharAt(s: string, c: char, from: nat, m: nat)
    requires from <= m < |s| && s[m] == c
    requires forall j :: from <= j < m ==> s[j] != c
    ensures IndexOfChar(s, c, from) == m
  {
  }

  /** Searching for one character is searching for the one-character string. */
  lemma {:induction false} IndexOfCharIsIndexOf(s: string, c: char, from: nat)
    ensures IndexOfChar(s, c, from) == IndexOf(s, [c], from)
    decreases |s| - from
  {
    if from < |s| {
      assert s[from..from + 1] == [s[from]];
      IndexOfCharIsIndexOf(s, c, from + 1);
    }
  }

  /** String.startsWith(p). */
  predicate StartsWith(s: string, p: string) {
    |p| <= |s| && s[..|p|] == p
  }

  /** String.contains(p). */
  predicate Contains(s: string, p: string) {
    IndexOf(s, p, 0) >= 0
  }

  /** A text starts with p exactly when it is p followed by the rest of it. */
  lemma StartsWithAppend(p: string, t: string)
    ensures StartsWith(p + t, p)
  {
    assert (p + t)[..|p|] == p;
  }

  lemma StartsWithRest(s: string, p: string)
    requires StartsWith(s, p)
    ensures s == p + s[|p|..]
  {
    assert s == s[..|p|] + s[|p|..];
  }

  /** contains(p) holds exactly when p occurs somewhere in s. */
  lemma ContainsMatch(s: string, p: string)
    ensures Contains(s, p) <==> exists j :: 0 <= j && MatchAt(s, p, j)
  {
    if Contains(s, p) {
      assert MatchAt(s, p, IndexOf(s, p, 0));
    }
  }

  /** What Java's string concatenation appends for a possibly-null String. */
  function Show(s: Option<string>): (r: string)
    ensures s.Some? ==> r == s.value
    ensures s.None? ==> r == "null"
  {
    match s
    case Some(v) => v
    case None => "null"
  }
}
