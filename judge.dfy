/**
 * SemanticTextAssert.JudgeResult: the verdict of the judge model, and
 * tryParse, the lenient scanner that looks for the quoted keys "pass",
 * "score" and "reason" anywhere in the trimmed response and reads the token
 * after the first ':' that follows each key. It is not a JSON parser: text
 * around the JSON and extra keys are tolerated.
 */
module Judge {
  import opened Wrappers
  import opened JavaString

  datatype JudgeResult = JudgeResult(pass: bool, score: real, reason: string)

  /** The outcome of extractDouble: no key, colon or number run; a number; or a run parseDouble rejects. */
  datatype NumberScan = Missing | Value(v: real) | Malformed(token: string)

  function Quoted(key: string): string { "\"" + key + "\"" }

  predicate NoQuote(s: string) {
    forall i :: 0 <= i < |s| ==> s[i] != '"'
  }

  /**
   * The index of the first ':' at or after the first occurrence of the
   * quoted key: the step that extractBoolean, extractDouble and
   * extractString share.
   */
  function KeyColon(s: string, key: string): (r: Option<nat>)
    ensures r.Some? ==> r.value < |s| && s[r.value] == ':'
    ensures r.Some? ==> exists i :: 0 <= i <= r.value && MatchAt(s, Quoted(key), i)
    ensures !Contains(s, Quoted(key)) ==> r.None?
  {
    var i := IndexOf(s, Quoted(key), 0);
    if i < 0 then None
    else
      var c := IndexOfChar(s, ':', i);
      if c < 0 then None else Some(c as nat)
  }

  function BoolText(b: bool): string { if b then "true" else "false" }

  /** extractBoolean: the trimmed text after the colon must start with true or false. */
  function ExtractBoolean(s: string, key: string): (r: Option<bool>)
    ensures r.Some? ==> KeyColon(s, key).Some? &&
                        StartsWith(Trim(s[KeyColon(s, key).value + 1..]), BoolText(r.value))
  {
    match KeyColon(s, key)
    case None => None
    case Some(c) => BooleanToken(Trim(s[c + 1..]))
  }

  /** The verdict a trimmed tail starts with, if any. */
  function BooleanToken(tail: string): (r: Option<bool>)
    ensures r.Some? ==> StartsWith(tail, BoolText(r.value))
  {
    if StartsWith(tail, "true") then Some(true)
    else if StartsWith(tail, "false") then Some(false)
    else None
  }

  /** The characters of the run extractDouble takes: Character.isDigit, '.' and '-'. */
  predicate IsNumberChar(c: char) { IsDigit(c) || c == '.' || c == '-' }

  /** The first index at or after k that is not whitespace (or |s|). */
  function SkipWhitespace(s: string, k: nat): (e: nat)
    requires k <= |s|
    ensures k <= e <= |s|
    ensures forall j :: k <= j < e ==> IsWhitespace(s[j])
    ensures e < |s| ==> !IsWhitespace(s[e])
    decreases |s| - k
  {
    if k < |s| && IsWhitespace(s[k]) then SkipWhitespace(s, k + 1) else k
  }

  /** The end of the maximal run of number characters that starts at k. */
  function NumberRunEnd(s: string, k: nat): (e: nat)
    requires k <= |s|
    ensures k <= e <= |s|
    ensures forall j :: k <= j < e ==> IsNumberChar(s[j])
    ensures e < |s| ==> !IsNumberChar(s[e])
    decreases |s| - k
  {
    if k < |s| && IsNumberChar(s[k]) then NumberRunEnd(s, k + 1) else k
  }

  predicate AllDigits(s: string) {
    forall i :: 0 <= i < |s| ==> IsDigit(s[i])
  }

  function Pow10(n: nat): (r: nat)
    ensures r >= 1
  {
    if n == 0 then 1 else 10 * Pow10(n - 1)
  }

  /** The value of a run of decimal digits; it has fewer digits than 10^|d|. */
  function DigitsValue(d: string): (v: nat)
    requires AllDigits(d)
    ensures v < Pow10(|d|)
  {
    if d == [] then 0
    else DigitsValue(d[..|d| - 1]) * 10 + (d[|d| - 1] as int - '0' as int)
  }

  /** The token without its leading minus sign, if it has one. */
  function Unsigned(t: string): string {
    if |t| > 0 && t[0] == '-' then t[1..] else t
  }

  /**
   * The tokens over digits, '.' and '-' that Double.parseDouble accepts: an
   * optional leading '-', then digits with at most one '.', and at least one
   * digit. (Every other character of the parseDouble grammar is outside the
   * run extractDouble takes.)
   */
  predicate DecimalSyntax(t: string) {
    var u := Unsigned(t);
    (forall i :: 0 <= i < |u| ==> IsDigit(u[i]) || u[i] == '.')
    && (forall i, j :: 0 <= i < j < |u| && u[i] == '.' ==> u[j] != '.')
    && (exists i :: 0 <= i < |u| && IsDigit(u[i]))
  }

  /** The digits before and after the first '.' of the unsigned token (all of it when there is none). */
  function SplitAtPoint(u: string): (parts: (string, string))
  {
    var d := IndexOfChar(u, '.', 0);
    if d < 0 then (u, "") else (u[..d], u[d + 1..])
  }

  /** The exact value of digits ip '.' digits fp. */
  function DecimalValue(ip: string, fp: string): (m: real)
    requires AllDigits(ip) && AllDigits(fp)
    ensures m >= 0.0
  {
    DigitsValue(ip) as real + DigitsValue(fp) as real / Pow10(|fp|) as real
  }

  /**
   * Double.parseDouble on a run of digits, '.' and '-', as an exact decimal:
   * None where parseDouble throws NumberFormatException.
   */
  function ParseDecimal(t: string): (r: Option<real>)
    ensures r.Some? && (t == [] || t[0] != '-') ==> r.value >= 0.0
    ensures r.Some? && t != [] && t[0] == '-' ==> r.value <= 0.0
  {
    var (ip, fp) := SplitAtPoint(Unsigned(t));
    if AllDigits(ip) && AllDigits(fp) && |ip| + |fp| > 0 then
      var m := DecimalValue(ip, fp);
      Some(if |t| > 0 && t[0] == '-' then -m else m)
    else None
  }

  /** parseDouble accepts exactly the tokens of DecimalSyntax. */
  lemma ParseDecimalAccepts(t: string)
    ensures ParseDecimal(t).Some? <==> DecimalSyntax(t)
  {
    var u := Unsigned(t);
    var d := IndexOfChar(u, '.', 0);
    if d < 0 {
      if DecimalSyntax(t) {
        var i :| 0 <= i < |u| && IsDigit(u[i]);
        assert |u| > 0;
      }
    } else {
      var ip, fp := u[..d], u[d + 1..];
      assert forall i :: 0 <= i < |ip| ==> ip[i] == u[i];
      assert forall i :: 0 <= i < |fp| ==> fp[i] == u[d + 1 + i];
      if ParseDecimal(t).Some? {
        if |ip| > 0 {
          assert IsDigit(u[0]);
        } else {
          assert IsDigit(u[d + 1]);
        }
      }
      if DecimalSyntax(t) {
        var i :| 0 <= i < |u| && IsDigit(u[i]);
        assert i != d;
        assert i < d ==> |ip| > 0;
        assert forall j :: 0 <= j < |fp| ==> fp[j] != '.';
      }
    }
  }

  /** A score written as "0." and fraction digits lies in [0, 1). */
  lemma ParseDecimalFraction(d: string)
    requires AllDigits(d)
    ensures ParseDecimal("0." + d) == Some(DigitsValue(d) as real / Pow10(|d|) as real)
    ensures 0.0 <= ParseDecimal("0." + d).value < 1.0
  {
    var t := "0." + d;
    SplitFraction(d);
    assert Unsigned(t) == t;
    assert AllDigits("0") && DigitsValue("0") == 0;
    var n, p := DigitsValue(d) as real, Pow10(|d|) as real;
    assert DecimalValue("0", d) == n / p;
    assert ParseDecimal(t) == Some(n / p);
    QuotientBelowOne(n, p);
  }

  lemma SplitFraction(d: string)
    ensures SplitAtPoint("0." + d) == ("0", d)
  {
    var t := "0." + d;
    assert t[1] == '.' && t[0] != '.';
    IndexOfCharAt(t, '.', 0, 1);
    assert t[..1] == "0" && t[2..] == d;
  }

  lemma QuotientBelowOne(n: real, p: real)
    requires 0.0 <= n < p
    ensures 0.0 <= n / p < 1.0
  {
    var q := n / p;
    assert q * p == n;
    assert (1.0 - q) * p == p - n;
  }

  /** A run of digits alone is read as that whole number. */
  lemma ParseDecimalWhole(d: string)
    requires AllDigits(d) && d != []
    ensures ParseDecimal(d) == Some(DigitsValue(d) as real)
  {
    assert forall i :: 0 <= i < |d| ==> d[i] != '.';
    assert IsDigit(d[0]);
    assert Unsigned(d) == d;
    assert SplitAtPoint(d) == (d, "");
    assert AllDigits("") && DigitsValue("") == 0 && Pow10(0) == 1;
    assert DecimalValue(d, "") == DigitsValue(d) as real;
  }

  /** The run extractDouble takes from index k on: skip whitespace, then the maximal number run. */
  function NumberToken(s: string, k: nat): (t: string)
    requires k <= |s|
    ensures forall i :: 0 <= i < |t| ==> IsNumberChar(t[i])
  {
    var start := SkipWhitespace(s, k);
    var end := NumberRunEnd(s, start);
    assert forall i :: 0 <= i < end - start ==> s[start..end][i] == s[start + i];
    s[start..end]
  }

  /** parseDouble on the run: an empty run is no number, a run parseDouble rejects is malformed. */
  function Classify(t: string): (r: NumberScan)
    ensures r.Missing? <==> t == []
    ensures r.Malformed? ==> r.token == t && ParseDecimal(t).None?
    ensures r.Value? ==> ParseDecimal(t) == Some(r.v)
  {
    if t == [] then Missing
    else
      match ParseDecimal(t)
      case None => Malformed(t)
      case Some(v) => Value(v)
  }

  /** extractDouble's result as a function of s: the number read after the colon. */
  function ScanNumber(s: string, key: string): (r: NumberScan)
    ensures r.Value? || r.Malformed? ==> KeyColon(s, key).Some?
  {
    match KeyColon(s, key)
    case None => Missing
    case Some(c) => Classify(NumberToken(s, c + 1))
  }

  /** A number read is the value of a run of s that starts after whitespace following the colon. */
  lemma ScanNumberFound(s: string, key: string)
    ensures ScanNumber(s, key).Value? ==>
              exists i, j :: KeyColon(s, key).value < i < j <= |s| && AllWhitespace(s[KeyColon(s, key).value + 1..i]) &&
                ParseDecimal(s[i..j]) == Some(ScanNumber(s, key).v)
  {
    if ScanNumber(s, key).Value? {
      var k := KeyColon(s, key).value + 1;
      var start := SkipWhitespace(s, k);
      assert forall m :: 0 <= m < start - k ==> s[k..start][m] == s[k + m];
    }
  }

  /** The part of extractDouble after the colon: the two while loops of the source, then parseDouble. */
  method ReadNumber(s: string, k: nat) returns (r: NumberScan)
    requires k <= |s|
    ensures r == Classify(NumberToken(s, k))
  {
    var start := k;
    while start < |s| && IsWhitespace(s[start])
      invariant k <= start <= |s|
      invariant SkipWhitespace(s, k) == SkipWhitespace(s, start)
      decreases |s| - start
    {
      start := start + 1;
    }
    var end := start;
    while end < |s| && IsNumberChar(s[end])
      invariant start <= end <= |s|
      invariant NumberRunEnd(s, start) == NumberRunEnd(s, end)
      decreases |s| - end
    {
      end := end + 1;
    }
    var token := s[start..end];
    assert token == NumberToken(s, k);
    if end == start {
      return Missing;
    }
    var parsed := ParseDecimal(token);
    if parsed.None? {
      r := Malformed(token);
    } else {
      r := Value(parsed.value);
    }
  }

  /** extractDouble: find the colon after the key, then read the number after it. */
  method ExtractDouble(s: string, key: string) returns (r: NumberScan)
    ensures r == ScanNumber(s, key)
  {
    var colon := KeyColon(s, key);
    if colon.None? {
      return Missing;
    }
    r := ReadNumber(s, colon.value + 1);
  }

  /** The text strictly between the first two '"' at or after index k. */
  function QuotedAfter(s: string, k: nat): (r: Option<string>)
    ensures r.Some? ==> NoQuote(r.value)
  {
    var q1 := IndexOfChar(s, '"', k);
    if q1 < 0 then None else QuotedFrom(s, q1)
  }

  /** The text strictly between the '"' at index q and the next '"'. */
  function QuotedFrom(s: string, q: nat): (r: Option<string>)
    ensures r.Some? ==> NoQuote(r.value)
  {
    var q2 := IndexOfChar(s, '"', q + 1);
    if q2 < 0 then None else Some(s[q + 1..q2])
  }

  /** A text read is enclosed in the first two '"' at or after k. */
  lemma QuotedAfterFound(s: string, k: nat)
    ensures QuotedAfter(s, k).Some? ==>
              exists q :: k <= q && q + |QuotedAfter(s, k).value| + 1 < |s| && s[q] == '"' &&
                NoQuote(s[k..q]) && s[q + 1..q + 1 + |QuotedAfter(s, k).value|] == QuotedAfter(s, k).value &&
                s[q + 1 + |QuotedAfter(s, k).value|] == '"'
  {
    var q1 := IndexOfChar(s, '"', k);
    if QuotedAfter(s, k).Some? {
      assert forall m :: 0 <= m < q1 - k ==> s[k..q1][m] == s[k + m];
    }
  }

  /** extractString: the quoted text after the colon. */
  function ExtractString(s: string, key: string): (r: Option<string>)
    ensures r.Some? ==> KeyColon(s, key).Some?
  {
    match KeyColon(s, key)
    case None => None
    case Some(c) => QuotedAfter(s, c + 1)
  }

  /**
   * tryParse: absent for a null response, and unless both "pass" and
   * "score" are found (a score parseDouble rejects is caught and also gives
   * absent); a missing reason becomes "".
   */
  function Parse(json: Option<string>): (r: Option<JudgeResult>)
    ensures json.None? ==> r.None?
    ensures r.Some? ==> NoQuote(r.value.reason)
    ensures r.Some? ==>
              ExtractBoolean(Trim(json.value), "pass") == Some(r.value.pass) &&
              ScanNumber(Trim(json.value), "score") == Value(r.value.score)
    ensures json.Some? ==>
              (r.Some? <==> ExtractBoolean(Trim(json.value), "pass").Some? && ScanNumber(Trim(json.value), "score").Value?)
    ensures r.Some? ==>
              r.value.reason == if ExtractString(Trim(json.value), "reason").Some?
                                then ExtractString(Trim(json.value), "reason").value else ""
  {
    match json
    case None => None
    case Some(raw) =>
      var s := Trim(raw);
      var pass := ExtractBoolean(s, "pass");
      var score := ScanNumber(s, "score");
      var reason := ExtractString(s, "reason");
      if pass.None? || !score.Value? then None
      else Some(JudgeResult(pass.value, score.v, if reason.Some? then reason.value else ""))
  }

  /** tryParse, calling the looping extractDouble. */
  method TryParse(json: Option<string>) returns (r: Option<JudgeResult>)
    ensures r == Parse(json)
  {
    if json.None? {
      return None;
    }
    var s := Trim(json.value);
    var pass := ExtractBoolean(s, "pass");
    var score := ExtractDouble(s, "score");
    var reason := ExtractString(s, "reason");
    if pass.None? || !score.Value? {
      return None;
    }
    r := Some(JudgeResult(pass.value, score.v, if reason.Some? then reason.value else ""));
  }

  // Text before the reply: a prefix that cannot start a quoted key leaves every field as it is.

  /** Every '"' in u is followed, inside u, by a character other than c. */
  predicate QuoteSafe(u: string, c: char) {
    forall j :: 0 <= j < |u| && u[j] == '"' ==> j + 1 < |u| && u[j + 1] != c
  }

  lemma NoQuoteSafe(u: string, c: char)
    requires NoQuote(u)
    ensures QuoteSafe(u, c)
  {
  }

  lemma QuoteSafeAppend(a: string, b: string, c: char)
    requires QuoteSafe(a, c) && QuoteSafe(b, c)
    ensures QuoteSafe(a + b, c)
  {
    forall j | 0 <= j < |a + b| && (a + b)[j] == '"'
      ensures j + 1 < |a + b| && (a + b)[j + 1] != c
    {
      if j < |a| {
        assert (a + b)[j] == a[j];
      } else {
        assert (a + b)[j] == b[j - |a|];
      }
    }
  }

  lemma MatchAtShift(a: string, b: string, pat: string, j: nat)
    requires |a| <= j
    ensures MatchAt(a + b, pat, j) <==> MatchAt(b, pat, j - |a|)
  {
    if j + |pat| <= |a + b| {
      assert (a + b)[j..j + |pat|] == b[j - |a|..j - |a| + |pat|];
    }
  }

  /** Searching a + b from inside b finds what searching b finds, shifted by |a|. */
  lemma IndexOfShift(a: string, b: string, pat: string, k: nat, from: nat)
    requires from == |a| + k
    ensures IndexOf(a + b, pat, from) ==
              if IndexOf(b, pat, k) < 0 then -1 else |a| + IndexOf(b, pat, k)
  {
    var s := a + b;
    var r := IndexOf(b, pat, k);
    forall j | from <= j
      ensures MatchAt(s, pat, j) <==> MatchAt(b, pat, j - |a|)
    {
      MatchAtShift(a, b, pat, j);
    }
    if r >= 0 {
      IndexOfFirstMatch(s, pat, from, |a| + r);
    }
  }

  /** The position from is |a| + k, passed as the term the caller's search uses. */
  lemma IndexOfCharShift(a: string, b: string, c: char, k: nat, from: nat)
    requires from == |a| + k
    ensures IndexOfChar(a + b, c, from) ==
              if IndexOfChar(b, c, k) < 0 then -1 else |a| + IndexOfChar(b, c, k)
  {
    var r := IndexOfChar(b, c, k);
    if r >= 0 {
      IndexOfCharAt(a + b, c, from, |a| + r);
    }
  }

  lemma IndexOfNoMatchBefore(s: string, pat: string, from: nat, k: nat)
    requires from <= k
    requires forall j :: from <= j < k ==> !MatchAt(s, pat, j)
    ensures IndexOf(s, pat, from) == IndexOf(s, pat, k)
  {
    var r := IndexOf(s, pat, k);
    if r >= 0 {
      IndexOfFirstMatch(s, pat, from, r);
    }
  }

  /** A QuoteSafe prefix holds no occurrence of the quoted key. */
  lemma QuotedKeyShift(a: string, b: string, key: string)
    requires key != [] && QuoteSafe(a, key[0])
    ensures IndexOf(a + b, Quoted(key), 0) ==
              if IndexOf(b, Quoted(key), 0) < 0 then -1 else |a| + IndexOf(b, Quoted(key), 0)
  {
    var s, pat := a + b, Quoted(key);
    assert pat[0] == '"' && pat[1] == key[0];
    forall j | 0 <= j < |a|
      ensures !MatchAt(s, pat, j)
    {
      if j + |pat| <= |s| && s[j] == '"' {
        assert s[j + 1] == a[j + 1];
        assert s[j..j + |pat|][1] == s[j + 1];
      }
      assert j + |pat| <= |s| ==> s[j..j + |pat|][0] == s[j];
    }
    IndexOfNoMatchBefore(s, pat, 0, |a|);
    IndexOfShift(a, b, pat, 0, |a|);
  }

  /** So the colon found moves by |a|. */
  lemma KeyColonShift(a: string, b: string, key: string)
    requires key != [] && QuoteSafe(a, key[0])
    ensures KeyColon(a + b, key).Some? <==> KeyColon(b, key).Some?
    ensures KeyColon(b, key).Some? ==> KeyColon(a + b, key).value == |a| + KeyColon(b, key).value
  {
    QuotedKeyShift(a, b, key);
    var i := IndexOf(b, Quoted(key), 0);
    if i >= 0 {
      IndexOfCharShift(a, b, ':', i, IndexOf(a + b, Quoted(key), 0));
      KeyColonAt(b, key, i);
      KeyColonAt(a + b, key, IndexOf(a + b, Quoted(key), 0));
    } else {
      KeyColonNoKey(b, key);
      KeyColonNoKey(a + b, key);
    }
  }

  /** Once the quoted key is found at i, KeyColon is the first colon from i. */
  lemma KeyColonAt(s: string, key: string, i: int)
    requires i == IndexOf(s, Quoted(key), 0) && i >= 0
    ensures KeyColon(s, key).Some? <==> IndexOfChar(s, ':', i) >= 0
    ensures KeyColon(s, key).Some? ==> KeyColon(s, key).value == IndexOfChar(s, ':', i)
  {
  }

  lemma KeyColonNoKey(s: string, key: string)
    requires IndexOf(s, Quoted(key), 0) < 0
    ensures KeyColon(s, key).None?
  {
  }

  lemma {:induction false} SkipWhitespaceShift(a: string, b: string, k: nat)
    requires k <= |b|
    ensures SkipWhitespace(a + b, |a| + k) == |a| + SkipWhitespace(b, k)
    decreases |b| - k
  {
    if k < |b| {
      assert (a + b)[|a| + k] == b[k];
      SkipWhitespaceShift(a, b, k + 1);
    }
  }

  lemma {:induction false} NumberRunEndShift(a: string, b: string, k: nat)
    requires k <= |b|
    ensures NumberRunEnd(a + b, |a| + k) == |a| + NumberRunEnd(b, k)
    decreases |b| - k
  {
    if k < |b| {
      assert (a + b)[|a| + k] == b[k];
      NumberRunEndShift(a, b, k + 1);
    }
  }

  /** A prefix that cannot start the quoted key does not change what extractBoolean reads. */
  lemma BooleanShift(a: string, b: string, key: string)
    requires key != [] && QuoteSafe(a, key[0])
    ensures ExtractBoolean(a + b, key) == ExtractBoolean(b, key)
  {
    KeyColonShift(a, b, key);
    match KeyColon(b, key)
    case None =>
      BooleanAbsent(a + b, key);
      BooleanAbsent(b, key);
    case Some(c) =>
      SuffixShift(a, b, c + 1);
      BooleanFrom(a + b, key, |a| + (c + 1));
      BooleanFrom(b, key, c + 1);
  }

  lemma DropPrefix(a: string, b: string, k: nat)
    requires k == |a|
    ensures (a + b)[k..] == b
  {
  }

  lemma SuffixShift(a: string, b: string, i: nat)
    requires i <= |b|
    ensures (a + b)[|a| + i..] == b[i..]
  {
  }

  /** Without the key's colon, none of the three extractors finds anything. */
  lemma BooleanAbsent(s: string, key: string)
    requires KeyColon(s, key).None?
    ensures ExtractBoolean(s, key).None?
  {
  }

  lemma NumberAbsent(s: string, key: string)
    requires KeyColon(s, key).None?
    ensures ScanNumber(s, key).Missing?
  {
  }

  lemma StringAbsent(s: string, key: string)
    requires KeyColon(s, key).None?
    ensures ExtractString(s, key).None?
  {
  }

  /** With the key's colon just before k, each extractor reads from k on. */
  lemma BooleanFrom(s: string, key: string, k: nat)
    requires 0 < k && KeyColon(s, key).Some? && KeyColon(s, key).value == k - 1
    ensures k <= |s| && ExtractBoolean(s, key) == BooleanToken(Trim(s[k..]))
  {
  }

  lemma NumberFrom(s: string, key: string, k: nat)
    requires 0 < k && KeyColon(s, key).Some? && KeyColon(s, key).value == k - 1
    ensures k <= |s| && ScanNumber(s, key) == Classify(NumberToken(s, k))
  {
  }

  lemma StringFrom(s: string, key: string, k: nat)
    requires 0 < k && KeyColon(s, key).Some? && KeyColon(s, key).value == k - 1
    ensures ExtractString(s, key) == QuotedAfter(s, k)
  {
  }

  lemma NumberTokenShift(a: string, b: string, k: nat, k': nat)
    requires k <= |b| && k' == |a| + k
    ensures k' <= |a + b| && NumberToken(a + b, k') == NumberToken(b, k)
  {
    SkipWhitespaceShiftAt(a, b, k, k');
    var start := SkipWhitespace(b, k);
    var start' := SkipWhitespace(a + b, k');
    NumberRunEndShiftAt(a, b, start, start');
    var end := NumberRunEnd(b, start);
    SliceShift(a, b, start, end, start', NumberRunEnd(a + b, start'));
  }

  lemma SkipWhitespaceShiftAt(a: string, b: string, k: nat, k': nat)
    requires k <= |b| && k' == |a| + k
    ensures k' <= |a + b| && SkipWhitespace(a + b, k') == |a| + SkipWhitespace(b, k)
  {
    SkipWhitespaceShift(a, b, k);
  }

  lemma NumberRunEndShiftAt(a: string, b: string, k: nat, k': nat)
    requires k <= |b| && k' == |a| + k
    ensures NumberRunEnd(a + b, k') == |a| + NumberRunEnd(b, k)
  {
    NumberRunEndShift(a, b, k);
  }

  /** Nor what extractDouble reads. */
  lemma NumberShift(a: string, b: string, key: string)
    requires key != [] && QuoteSafe(a, key[0])
    ensures ScanNumber(a + b, key) == ScanNumber(b, key)
  {
    KeyColonShift(a, b, key);
    match KeyColon(b, key)
    case None =>
      NumberAbsent(a + b, key);
      NumberAbsent(b, key);
    case Some(c) =>
      NumberTokenShift(a, b, c + 1, |a| + (c + 1));
      NumberFrom(a + b, key, |a| + (c + 1));
      NumberFrom(b, key, c + 1);
  }

  lemma QuotedFromShift(a: string, b: string, q: nat, q': nat)
    requires q' == |a| + q
    ensures QuotedFrom(a + b, q') == QuotedFrom(b, q)
  {
    IndexOfCharShift(a, b, '"', q + 1, q' + 1);
    var q2 := IndexOfChar(b, '"', q + 1);
    if q2 >= 0 {
      SliceShift(a, b, q + 1, q2, q' + 1, IndexOfChar(a + b, '"', q' + 1));
    }
  }

  /** The slice [i'..j'] of a + b, with i' == |a| + i and j' == |a| + j, is b's slice [i..j]. */
  lemma SliceShift(a: string, b: string, i: nat, j: nat, i': int, j': int)
    requires i <= j <= |b| && i' == |a| + i && j' == |a| + j
    ensures 0 <= i' <= j' <= |a + b| && (a + b)[i'..j'] == b[i..j]
  {
    assert (a + b)[|a| + i..|a| + j] == b[i..j];
  }

  lemma QuotedAfterShift(a: string, b: string, k: nat, k': nat)
    requires k' == |a| + k
    ensures QuotedAfter(a + b, k') == QuotedAfter(b, k)
  {
    IndexOfCharShift(a, b, '"', k, k');
    var q1 := IndexOfChar(b, '"', k);
    if q1 >= 0 {
      QuotedFromShift(a, b, q1, IndexOfChar(a + b, '"', k'));
    }
  }

  /** Nor what extractString reads. */
  lemma StringShift(a: string, b: string, key: string)
    requires key != [] && QuoteSafe(a, key[0])
    ensures ExtractString(a + b, key) == ExtractString(b, key)
  {
    KeyColonShift(a, b, key);
    match KeyColon(b, key)
    case None =>
      StringAbsent(a + b, key);
      StringAbsent(b, key);
    case Some(c) =>
      QuotedAfterShift(a, b, c + 1, |a| + (c + 1));
      StringFrom(a + b, key, |a| + (c + 1));
      StringFrom(b, key, c + 1);
  }

  // Replies of the shape the prompt asks for, possibly wrapped in prose.

  /** The key as it opens a field of the reply: "key": */
  function KeyPrefix(key: string): string { Quoted(key) + ":" }

  /**
   * The prose p, then the JSON object the prompt asks for, with the
   * whitespace w after every ':' and ',', then the prose q.
   */
  function Reply(p: string, pass: bool, score: string, reason: string, w: string, q: string): string {
    p + ("{" + (KeyPrefix("pass") + (w + (BoolText(pass) + ("," + (w +
    (KeyPrefix("score") + (w + (score + ("," + (w +
    (KeyPrefix("reason") + (w + ("\"" + (reason + ("\"" + ("}" + q)))))))))))))))))
  }

  /**
   * The conditions under which such a reply is read as written: p holds no
   * '"', the whole text has no whitespace to trim, the score token is a run
   * of number characters and the reason holds no '"'.
   */
  predicate WrappedReply(p: string, score: string, reason: string, w: string, q: string) {
    NoQuote(p) && (p == [] || !IsWhitespace(p[0])) && (q == [] || !IsWhitespace(q[|q| - 1]))
    && AllWhitespace(w) && score != [] && (forall i :: 0 <= i < |score| ==> IsNumberChar(score[i]))
    && NoQuote(reason)
  }

  /** The colon of a field that opens the text is the one right after the key. */
  lemma KeyColonHead(key: string, v: string)
    requires forall i :: 0 <= i < |key| ==> key[i] != ':'
    ensures |KeyPrefix(key)| == |key| + 3
    ensures KeyColon(KeyPrefix(key) + v, key).Some? && KeyColon(KeyPrefix(key) + v, key).value == |key| + 2
  {
    var s, pat := KeyPrefix(key) + v, Quoted(key);
    assert s[0..|pat|] == pat;
    IndexOfFirstMatch(s, pat, 0, 0);
    forall j | 0 <= j < |key| + 2
      ensures s[j] != ':'
    {
      assert s[j] == pat[j];
      if 0 < j <= |key| {
        assert pat[j] == key[j - 1];
      }
    }
    IndexOfCharAt(s, ':', 0, |key| + 2);
  }

  lemma {:induction false} SkipWhitespaceOver(w: string, v: string)
    requires AllWhitespace(w) && (v == [] || !IsWhitespace(v[0]))
    ensures SkipWhitespace(w + v, 0) == |w|
  {
    if w == [] {
      assert w + v == v;
    } else {
      assert w + v == [w[0]] + (w[1..] + v);
      SkipWhitespaceOver(w[1..], v);
      SkipWhitespaceShift([w[0]], w[1..] + v, 0);
    }
  }

  lemma {:induction false} NumberRunOver(t: string, z: string)
    requires (forall i :: 0 <= i < |t| ==> IsNumberChar(t[i])) && (z == [] || !IsNumberChar(z[0]))
    ensures NumberRunEnd(t + z, 0) == |t|
  {
    if t == [] {
      assert t + z == z;
    } else {
      assert t + z == [t[0]] + (t[1..] + z);
      NumberRunOver(t[1..], z);
      NumberRunEndShift([t[0]], t[1..] + z, 0);
    }
  }

  /** Whitespace, then a number run t ended by a character outside the run: the token read is t. */
  lemma NumberTokenOf(w: string, t: string, z: string)
    requires AllWhitespace(w) && t != [] && (forall i :: 0 <= i < |t| ==> IsNumberChar(t[i]))
    requires z == [] || !IsNumberChar(z[0])
    ensures NumberToken(w + (t + z), 0) == t
  {
    var v := w + (t + z);
    assert !IsWhitespace((t + z)[0]);
    SkipWhitespaceOver(w, t + z);
    NumberRunEndShift(w, t + z, 0);
    NumberRunOver(t, z);
    assert v[|w|..|w| + |t|] == t;
  }

  /** Whitespace, then the quoted r: the text read is r. */
  lemma QuotedOf(w: string, r: string, z: string)
    requires AllWhitespace(w) && NoQuote(r)
    ensures QuotedAfter(w + ("\"" + (r + ("\"" + z))), 0) == Some(r)
  {
    var v := w + ("\"" + (r + ("\"" + z)));
    forall j | 0 <= j < |w|
      ensures v[j] != '"'
    {
      assert v[j] == w[j];
    }
    assert v[|w|] == '"';
    IndexOfCharAt(v, '"', 0, |w|);
    var a := |w| + 1;
    forall j | a <= j < a + |r|
      ensures v[j] != '"'
    {
      assert v[j] == r[j - a];
    }
    assert v[a + |r|] == '"';
    IndexOfCharAt(v, '"', a, a + |r|);
    assert v[a..a + |r|] == r;
  }

  lemma PassField(pass: bool, w: string, y: string)
    requires AllWhitespace(w)
    ensures ExtractBoolean(KeyPrefix("pass") + (w + (BoolText(pass) + y)), "pass") == Some(pass)
  {
    var v := w + (BoolText(pass) + y);
    var s := KeyPrefix("pass") + v;
    var k := |"pass"| + 3;
    KeyColonHead("pass", v);
    BooleanFrom(s, "pass", k);
    DropPrefix(KeyPrefix("pass"), v, k);
    BoolTextTrimmed(pass);
    TrimKeepsCore(w, BoolText(pass), y);
    BooleanTokenOf(Trim(v), pass);
  }

  lemma BoolTextTrimmed(pass: bool)
    ensures BoolText(pass) != [] && Trimmed(BoolText(pass))
  {
  }

  lemma BooleanTokenOf(t: string, pass: bool)
    requires StartsWith(t, BoolText(pass))
    ensures BooleanToken(t) == Some(pass)
  {
    if !pass {
      assert t[0] == 'f';
    }
  }

  lemma ScoreField(w: string, score: string, z: string)
    requires AllWhitespace(w) && score != [] && forall i :: 0 <= i < |score| ==> IsNumberChar(score[i])
    requires z == [] || !IsNumberChar(z[0])
    ensures ScanNumber(KeyPrefix("score") + (w + (score + z)), "score") == Classify(score)
  {
    var v := w + (score + z);
    var k := |"score"| + 3;
    KeyColonHead("score", v);
    NumberFrom(KeyPrefix("score") + v, "score", k);
    NumberTokenShift(KeyPrefix("score"), v, 0, k);
    NumberTokenOf(w, score, z);
  }

  lemma ReasonField(w: string, reason: string, z: string)
    requires AllWhitespace(w) && NoQuote(reason)
    ensures ExtractString(KeyPrefix("reason") + (w + ("\"" + (reason + ("\"" + z)))), "reason") == Some(reason)
  {
    var v := w + ("\"" + (reason + ("\"" + z)));
    var k := |"reason"| + 3;
    KeyColonHead("reason", v);
    StringFrom(KeyPrefix("reason") + v, "reason", k);
    QuotedAfterShift(KeyPrefix("reason"), v, 0, k);
    QuotedOf(w, reason, z);
  }
  /** In a wrapped reply, extractBoolean finds the verdict. */
  lemma ReplyPass(p: string, pass: bool, score: string, reason: string, w: string, q: string)
    requires WrappedReply(p, score, reason, w, q)
    ensures ExtractBoolean(Reply(p, pass, score, reason, w, q), "pass") == Some(pass)
  {
    var zR := "}" + q;
    var vR := w + ("\"" + (reason + ("\"" + zR)));
    var fR := KeyPrefix("reason") + vR;
    var c2 := "," + (w + fR);
    var vS := w + (score + c2);
    var fS := KeyPrefix("score") + vS;
    var c1 := "," + (w + fS);
    var vP := w + (BoolText(pass) + c1);
    var fP := KeyPrefix("pass") + vP;
    var body := "{" + fP;
    assert p + body == Reply(p, pass, score, reason, w, q);
    NoQuoteSafe(p, 'p');
    BooleanShift(p, body, "pass");
    BooleanShift("{", fP, "pass");
    PassField(pass, w, c1);
  }

  /** A wrapped reply is the text before its "score" field, then that field. */
  lemma ScorePrefix(p: string, pass: bool, score: string, reason: string, w: string, q: string)
    requires WrappedReply(p, score, reason, w, q)
    ensures var a := p + "{" + KeyPrefix("pass") + w + BoolText(pass) + "," + w;
            var fS := KeyPrefix("score") + (w + (score + ("," + (w + (KeyPrefix("reason") +
                        (w + ("\"" + (reason + ("\"" + ("}" + q))))))))));
            Reply(p, pass, score, reason, w, q) == a + fS
  {
    var zR := "}" + q;
    var vR := w + ("\"" + (reason + ("\"" + zR)));
    var fR := KeyPrefix("reason") + vR;
    var c2 := "," + (w + fR);
    var vS := w + (score + c2);
    var fS := KeyPrefix("score") + vS;
    var c1 := "," + (w + fS);
    var vP := w + (BoolText(pass) + c1);
    var fP := KeyPrefix("pass") + vP;
    var body := "{" + fP;
    assert p + body == Reply(p, pass, score, reason, w, q);
    var r5 := "," + (w + fS);
    var r4 := BoolText(pass) + r5;
    var r3 := w + r4;
    var r2 := KeyPrefix("pass") + r3;
    AppendAssoc(p, "{", r2);
    AppendAssoc(p + "{", KeyPrefix("pass"), r3);
    AppendAssoc(p + "{" + KeyPrefix("pass"), w, r4);
    AppendAssoc(p + "{" + KeyPrefix("pass") + w, BoolText(pass), r5);
    AppendAssoc(p + "{" + KeyPrefix("pass") + w + BoolText(pass), ",", w + fS);
    AppendAssoc(p + "{" + KeyPrefix("pass") + w + BoolText(pass) + ",", w, fS);
  }

  lemma SafePieces(p: string, k: string, w: string, b: string, c: char)
    requires NoQuote(p) && NoQuote(w) && NoQuote(b) && QuoteSafe(k, c)
    ensures QuoteSafe(p + "{" + k + w + b + "," + w, c)
  {
    NoQuoteSafe(p, c);
    NoQuoteSafe(w, c);
    NoQuoteSafe(b, c);
    QuoteSafeAppend(p, "{", c);
    QuoteSafeAppend(p + "{", k, c);
    QuoteSafeAppend(p + "{" + k, w, c);
    QuoteSafeAppend(p + "{" + k + w, b, c);
    QuoteSafeAppend(p + "{" + k + w + b, ",", c);
    QuoteSafeAppend(p + "{" + k + w + b + ",", w, c);
  }

  /** In a wrapped reply, extractDouble reads the score token. */
  lemma ReplyScore(p: string, pass: bool, score: string, reason: string, w: string, q: string)
    requires WrappedReply(p, score, reason, w, q)
    ensures ScanNumber(Reply(p, pass, score, reason, w, q), "score") == Classify(score)
  {
    ScorePrefix(p, pass, score, reason, w, q);
    var a := p + "{" + KeyPrefix("pass") + w + BoolText(pass) + "," + w;
    assert NoQuote(w) && NoQuote(BoolText(pass));
    SafePieces(p, KeyPrefix("pass"), w, BoolText(pass), 's');
    var c2 := "," + (w + (KeyPrefix("reason") + (w + ("\"" + (reason + ("\"" + ("}" + q)))))));
    NumberShift(a, KeyPrefix("score") + (w + (score + c2)), "score");
    ScoreField(w, score, c2);
  }

  /** In a wrapped reply, extractString reads the reason. */
  lemma ReplyReason(p: string, pass: bool, score: string, reason: string, w: string, q: string)
    requires WrappedReply(p, score, reason, w, q)
    ensures ExtractString(Reply(p, pass, score, reason, w, q), "reason") == Some(reason)
  {
    ScorePrefix(p, pass, score, reason, w, q);
    var a := p + "{" + KeyPrefix("pass") + w + BoolText(pass) + "," + w;
    assert NoQuote(w) && NoQuote(BoolText(pass));
    SafePieces(p, KeyPrefix("pass"), w, BoolText(pass), 'r');
    var zR := "}" + q;
    var fR := KeyPrefix("reason") + (w + ("\"" + (reason + ("\"" + zR))));
    var r3 := "," + (w + fR);
    var r2 := score + r3;
    var r1 := w + r2;
    AppendAssoc(a, KeyPrefix("score"), r1);
    AppendAssoc(a + KeyPrefix("score"), w, r2);
    AppendAssoc(a + KeyPrefix("score") + w, score, r3);
    AppendAssoc(a + KeyPrefix("score") + w + score, ",", w + fR);
    AppendAssoc(a + KeyPrefix("score") + w + score + ",", w, fR);
    var a2 := a + KeyPrefix("score") + w + score + "," + w;
    assert NoQuote(w) && NoQuote(score);
    NoQuoteSafe(w, 'r');
    NoQuoteSafe(score, 'r');
    QuoteSafeAppend(a, KeyPrefix("score"), 'r');
    QuoteSafeAppend(a + KeyPrefix("score"), w, 'r');
    QuoteSafeAppend(a + KeyPrefix("score") + w, score, 'r');
    QuoteSafeAppend(a + KeyPrefix("score") + w + score, ",", 'r');
    QuoteSafeAppend(a + KeyPrefix("score") + w + score + ",", w, 'r');
    StringShift(a2, fR, "reason");
    ReasonField(w, reason, zR);
  }

  /** A wrapped reply has no whitespace to trim: it starts with p or '{' and ends with q or '}'. */
  lemma ReplyTrimmed(p: string, pass: bool, score: string, reason: string, w: string, q: string)
    requires WrappedReply(p, score, reason, w, q)
    ensures Trim(Reply(p, pass, score, reason, w, q)) == Reply(p, pass, score, reason, w, q)
  {
    ReplyEnds(p, pass, score, reason, w, q);
    TrimmedByEnds(Reply(p, pass, score, reason, w, q), if p == [] then '{' else p[0], if q == [] then '}' else q[|q| - 1]);
  }

  /** The first character of a reply is p's or '{', the last q's or '}'. */
  lemma ReplyEnds(p: string, pass: bool, score: string, reason: string, w: string, q: string)
    ensures var s := Reply(p, pass, score, reason, w, q);
            s != [] && s[0] == (if p == [] then '{' else p[0]) && s[|s| - 1] == (if q == [] then '}' else q[|q| - 1])
  {
    var zR := "}" + q;
    var vR := w + ("\"" + (reason + ("\"" + zR)));
    var fR := KeyPrefix("reason") + vR;
    var c2 := "," + (w + fR);
    var vS := w + (score + c2);
    var fS := KeyPrefix("score") + vS;
    var c1 := "," + (w + fS);
    var vP := w + (BoolText(pass) + c1);
    var fP := KeyPrefix("pass") + vP;
    var body := "{" + fP;
    assert p + body == Reply(p, pass, score, reason, w, q);
    var s := p + body;
    HeadAppend(p, body);
    var r3 := "\"" + zR;
    var r2 := reason + r3;
    var r1 := "\"" + r2;
    LastAppend("\"", zR);
    LastAppend(reason, r3);
    LastAppend("\"", r2);
    LastAppend(w, r1);
    LastAppend(KeyPrefix("reason"), vR);
    LastAppend(w, fR);
    LastAppend(",", w + fR);
    LastAppend(score, c2);
    LastAppend(w, score + c2);
    LastAppend(KeyPrefix("score"), vS);
    LastAppend(w, fS);
    LastAppend(",", w + fS);
    LastAppend(BoolText(pass), c1);
    LastAppend(w, BoolText(pass) + c1);
    LastAppend(KeyPrefix("pass"), vP);
    LastAppend("{", fP);
    LastAppend(p, body);
  }

  lemma HeadAppend(a: string, b: string)
    requires b != []
    ensures (a + b)[0] == if a == [] then b[0] else a[0]
  {
  }

  lemma TrimmedByEnds(s: string, first: char, last: char)
    requires s != [] && s[0] == first && s[|s| - 1] == last
    requires !IsWhitespace(first) && !IsWhitespace(last)
    ensures Trim(s) == s
  {
    TrimFixesTrimmed(s);
  }

  lemma LastAppend(a: string, b: string)
    requires b != []
    ensures a + b != [] && (a + b)[|a + b| - 1] == b[|b| - 1]
  {
  }

  /**
   * A reply of the requested shape, wrapped in prose, is read as written:
   * the verdict, the score as parseDouble reads it and the reason; and
   * nothing when the score token is one parseDouble rejects.
   */
  lemma WrappedReplyParses(p: string, pass: bool, score: string, reason: string, w: string, q: string)
    requires WrappedReply(p, score, reason, w, q)
    ensures Parse(Some(Reply(p, pass, score, reason, w, q))) ==
              if ParseDecimal(score).None? then None else Some(JudgeResult(pass, ParseDecimal(score).value, reason))
  {
    ReplyTrimmed(p, pass, score, reason, w, q);
    ReplyPass(p, pass, score, reason, w, q);
    ReplyScore(p, pass, score, reason, w, q);
    ReplyReason(p, pass, score, reason, w, q);
    ParseFields(Reply(p, pass, score, reason, w, q), pass, score, reason);
  }

  /** parse() of an untrimmed-free text whose three fields read as pass, score and reason. */
  lemma ParseFields(s: string, pass: bool, score: string, reason: string)
    requires Trim(s) == s && score != []
    requires ExtractBoolean(s, "pass") == Some(pass)
    requires ScanNumber(s, "score") == Classify(score)
    requires ExtractString(s, "reason") == Some(reason)
    ensures Parse(Some(s)) ==
              if ParseDecimal(score).None? then None else Some(JudgeResult(pass, ParseDecimal(score).value, reason))
  {
  }

  /** Without a '"' there is no quoted key to find. */
  lemma NoQuoteNoKey(s: string, key: string)
    requires NoQuote(s)
    ensures KeyColon(s, key).None?
  {
    var pat := Quoted(key);
    forall j | 0 <= j
      ensures !MatchAt(s, pat, j)
    {
      if j + |pat| <= |s| {
        assert s[j..j + |pat|][0] == s[j];
      }
    }
  }

  /** A response without any '"' (plain prose) is never read as a verdict. */
  lemma NoQuoteNoParse(s: string)
    requires NoQuote(s)
    ensures Parse(Some(s)) == None
  {
    var i, j :| 0 <= i <= j <= |s| && Trim(s) == s[i..j] && AllWhitespace(s[..i]) && AllWhitespace(s[j..]);
    forall k | 0 <= k < j - i
      ensures Trim(s)[k] != '"'
    {
      assert Trim(s)[k] == s[i + k];
    }
    NoQuoteNoKey(Trim(s), "pass");
  }

  /** The score token 0.92 is read as 92/100. */
  lemma ParseScore092()
    ensures ParseDecimal("0.92") == Some(0.92)
  {
    assert "0.92" == "0." + "92";
    ParseDecimalFraction("92");
    assert DigitsValue("92") == 92;
  }

  /** The score token 0.3 is read as 3/10. */
  lemma ParseScore03()
    ensures ParseDecimal("0.3") == Some(0.3)
  {
    assert "0.3" == "0." + "3";
    ParseDecimalFraction("3");
    assert DigitsValue("3") == 3;
  }

  /** The strict reply {"pass":true,"score":0.92,"reason":"matches"} is read as written. */
  lemma ParseStrictReply()
    ensures Parse(Some(Reply("", true, "0.92", "matches", "", ""))) == Some(JudgeResult(true, 0.92, "matches"))
  {
    WrappedReplyParses("", true, "0.92", "matches", "", "");
    ParseScore092();
  }

  /**
   * The reply Sure! Here is the result: {"pass": false, "score": 0.3,
   * "reason": "off-topic"} Hope that helps. is still read: the JSON with one
   * space after every ':' and ',', between two pieces of prose.
   */
  lemma ParseReplyInProse()
    ensures Parse(Some(Reply("Sure! Here is the result: ", false, "0.3", "off-topic", " ", " Hope that helps."))) ==
              Some(JudgeResult(false, 0.3, "off-topic"))
  {
    WrappedReplyParses("Sure! Here is the result: ", false, "0.3", "off-topic", " ", " Hope that helps.");
    ParseScore03();
  }

  /** Plain prose is not a verdict. */
  lemma ParseProse()
    ensures Parse(Some("not json at all")) == None
  {
    NoQuoteNoParse("not json at all");
  }
}
