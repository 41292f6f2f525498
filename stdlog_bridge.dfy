/*
 * The bridge that sends the standard library logger's output through the
 * bot's structured logger.  Before a line is logged, every
 * `access_token=<value>` query parameter loses its value and every
 * occurrence of the bot token is replaced by a placeholder.
 *
 * The pattern is `(?i)access_token=[^&\s"]+` as Go's regexp package reads
 * it: the key under Unicode simple case folding, then the longest non-empty
 * run of characters other than `&`, `"` and the ASCII whitespace `\s`
 * stands for.  Matches are found leftmost first and do not overlap.
 */
module StdlogBridge {
  import opened Common

  const Placeholder := "<redacted>"
  const Key := "access_token"
  const KeyLen := 12

  /**
   * Simple case folding onto the key's alphabet: ASCII upper case to lower
   * case, KELVIN SIGN to 'k' and LATIN SMALL LETTER LONG S to 's'.
   */
  function FoldChar(c: char): char {
    if 'A' <= c <= 'Z' then (c as int + 32) as char
    else if c == '\U{212A}' then 'k'
    else if c == '\U{017F}' then 's'
    else c
  }

  /** A text of the key's length that folds to the key, character by character. */
  predicate SpelledKey(t: string) {
    |t| == KeyLen && forall j :: 0 <= j < KeyLen ==> FoldChar(t[j]) == Key[j]
  }

  /** The characters from i + j to i + KeyLen fold to the rest of the key. */
  predicate KeyFrom(s: string, i: nat, j: nat)
    requires i + KeyLen <= |s| && j <= KeyLen
    decreases KeyLen - j
  {
    j == KeyLen || (FoldChar(s[i + j]) == Key[j] && KeyFrom(s, i, j + 1))
  }

  /** Go's `\s`: the ASCII whitespace of Perl. */
  predicate PerlSpace(c: char) {
    c == '\t' || c == '\n' || c == '\U{000C}' || c == '\r' || c == ' '
  }

  /** The characters the value of a match consists of. */
  predicate ValueChar(c: char) {
    c != '&' && c != '"' && !PerlSpace(c)
  }

  /** `access_token=` in any case starts at position i. */
  predicate KeyAt(s: string, i: nat) {
    i + KeyLen < |s| && KeyFrom(s, i, 0) && s[i + KeyLen] == '='
  }

  /** A match starts at i: the key and at least one value character. */
  predicate MatchAt(s: string, i: nat) {
    KeyAt(s, i) && i + KeyLen + 1 < |s| && ValueChar(s[i + KeyLen + 1])
  }

  predicate NoMatch(s: string) {
    forall i: nat :: i < |s| ==> !MatchAt(s, i)
  }

  /** Where the run of value characters from position j ends. */
  function RunEnd(s: string, j: nat): (e: nat)
    requires j <= |s|
    ensures j <= e <= |s|
    decreases |s| - j
  {
    if j < |s| && ValueChar(s[j]) then RunEnd(s, j + 1) else j
  }

  /** The run is made of value characters and stops at the end or at a character that is not one. */
  lemma {:induction false} RunEndSpec(s: string, j: nat)
    requires j <= |s|
    ensures forall k :: j <= k < RunEnd(s, j) ==> ValueChar(s[k])
    ensures RunEnd(s, j) == |s| || !ValueChar(s[RunEnd(s, j)])
    decreases |s| - j
  {
    if j < |s| && ValueChar(s[j]) {
      RunEndSpec(s, j + 1);
    }
  }

  /** The end of the match that starts at i: the value is as long as it can be. */
  function MatchEnd(s: string, i: nat): (e: nat)
    requires MatchAt(s, i)
    ensures i + KeyLen + 2 <= e <= |s|
  {
    RunEnd(s, i + KeyLen + 1)
  }

  /** The position of the first "=". */
  function IndexOfEquals(m: string): (r: Option<nat>)
    ensures r.Some? ==> r.value < |m|
  {
    if m == [] then None
    else if m[0] == '=' then Some(0)
    else match IndexOfEquals(m[1..]) case None => None case Some(k) => Some(k + 1)
  }

  /**
   * The replacement of one match: the part before the first "=" (SplitN
   * with n = 2), "=", and the placeholder.  A match without "=" would be
   * replaced by the key in lower case; no match is one.
   */
  function Replacement(m: string): string {
    match IndexOfEquals(m)
    case None => Key + "=" + Placeholder
    case Some(i) => m[..i] + "=" + Placeholder
  }

  /** ReplaceAllStringFunc with the access-token pattern, from position i on. */
  function RedactFrom(s: string, i: nat): string
    requires i <= |s|
    decreases |s| - i
  {
    if i == |s| then []
    else if MatchAt(s, i) then
      var e := MatchEnd(s, i);
      Replacement(s[i..e]) + RedactFrom(s, e)
    else [s[i]] + RedactFrom(s, i + 1)
  }

  function RedactTokens(s: string): string {
    RedactFrom(s, 0)
  }

  /** redactSensitiveData: the pattern first, then the token everywhere (when there is one). */
  function RedactSensitiveData(text: string, token: string): string {
    var result := RedactTokens(text);
    if token != "" then ReplaceAll(result, token, Placeholder) else result
  }

  /** Write: blank output is dropped; the rest is trimmed and redacted; the whole input counts as written. */
  function Write(token: string, p: string): (r: (nat, Option<string>))
    ensures r.0 == |p|
    ensures r.1.None? <==> Blank(p, GoWs)
    ensures r.1.Some? ==> r.1.value == RedactSensitiveData(TrimGo(p), token)
  {
    var msg := TrimGo(p);
    TrimEmptyIffBlank(p, GoWs);
    if msg == "" then (|p|, None) else (|p|, Some(RedactSensitiveData(msg, token)))
  }

  // ---------------------------------------------------------------- matches

  /** The first "=" of a text is at k when none comes before it. */
  lemma {:induction false} IndexOfEqualsAt(m: string, k: nat)
    requires k < |m| && m[k] == '=' && forall j :: 0 <= j < k ==> m[j] != '='
    ensures IndexOfEquals(m) == Some(k)
    decreases k
  {
    if k > 0 {
      IndexOfEqualsAt(m[1..], k - 1);
    }
  }

  lemma {:induction false} KeyFromAll(s: string, i: nat, j: nat)
    requires i + KeyLen <= |s| && j <= KeyLen
    ensures KeyFrom(s, i, j) <==> forall m :: j <= m < KeyLen ==> FoldChar(s[i + m]) == Key[m]
    decreases KeyLen - j
  {
    if j < KeyLen {
      KeyFromAll(s, i, j + 1);
      assert KeyFrom(s, i, j) == (FoldChar(s[i + j]) == Key[j] && KeyFrom(s, i, j + 1));
    }
  }

  /** The key starts at i exactly when the text there is the key in some spelling followed by "=". */
  lemma KeyAtSpelled(s: string, i: nat)
    requires i + KeyLen < |s|
    ensures KeyAt(s, i) <==> SpelledKey(s[i..i + KeyLen]) && s[i + KeyLen] == '='
  {
    KeyFromAll(s, i, 0);
    var t := s[i..i + KeyLen];
    assert forall m :: 0 <= m < KeyLen ==> t[m] == s[i + m];
  }

  /** A spelling of the key has no "=" in it. */
  lemma KeyHasNoEquals(key: string)
    requires SpelledKey(key)
    ensures forall j :: 0 <= j < KeyLen ==> key[j] != '='
  {
    EqualsFoldsToItself();
    KeyWithoutEquals();
  }

  lemma EqualsFoldsToItself()
    ensures FoldChar('=') == '='
  {
  }

  lemma KeyWithoutEquals()
    ensures forall j :: 0 <= j < KeyLen ==> Key[j] != '='
  {
  }

  /** The replacement of a match keeps the key as it was spelled. */
  lemma ReplacementKeepsKey(m: string)
    requires KeyAt(m, 0)
    ensures Replacement(m) == m[..KeyLen] + "=" + Placeholder
  {
    KeyAtSpelled(m, 0);
    var key := m[0..KeyLen];
    KeyHasNoEquals(key);
    forall j | 0 <= j < KeyLen ensures m[j] != '=' {
      assert key[j] == m[j];
    }
    IndexOfEqualsAt(m, KeyLen);
  }

  /**
   * At a match, the key keeps its spelling, the value up to the next
   * `&`, `"` or ASCII space (or the end) becomes the placeholder, and the
   * scan goes on from there.
   */
  lemma RedactAtMatch(s: string, i: nat)
    requires MatchAt(s, i)
    ensures RedactFrom(s, i) == s[i..i + KeyLen] + "=" + Placeholder + RedactFrom(s, MatchEnd(s, i))
    ensures var e := MatchEnd(s, i);
            && (forall k :: i + KeyLen + 1 <= k < e ==> ValueChar(s[k]))
            && (e == |s| || !ValueChar(s[e]))
  {
    var e := MatchEnd(s, i);
    RunEndSpec(s, i + KeyLen + 1);
    var m := s[i..e];
    KeyAtSpelled(s, i);
    KeyAtSpelled(m, 0);
    assert m[0..KeyLen] == s[i..i + KeyLen];
    assert m[KeyLen] == s[i + KeyLen];
    assert KeyAt(m, 0);
    ReplacementKeepsKey(m);
    assert m[..KeyLen] == s[i..i + KeyLen];
  }

  /** Where no match starts, one character is copied. */
  lemma CopyStep(s: string, i: nat)
    requires i < |s| && !MatchAt(s, i)
    ensures RedactFrom(s, i) == [s[i]] + RedactFrom(s, i + 1)
  {
  }

  /** Where no match starts the text is copied as it is. */
  lemma {:induction false} RedactSkip(s: string, i: nat, j: nat)
    requires i <= j <= |s|
    requires forall k: nat :: i <= k < j ==> !MatchAt(s, k)
    ensures RedactFrom(s, i) == s[i..j] + RedactFrom(s, j)
    decreases j - i
  {
    if i < j {
      CopyStep(s, i);
      RedactSkip(s, i + 1, j);
      assert s[i..j] == [s[i]] + s[i + 1..j];
      Regroup([s[i]], s[i + 1..j], RedactFrom(s, j));
    } else {
      assert s[i..j] == [];
    }
  }

  /** A text without a match is left as it is by the pattern. */
  lemma RedactNoMatch(s: string)
    requires NoMatch(s)
    ensures RedactTokens(s) == s
  {
    RedactSkip(s, 0, |s|);
    assert s[0..|s|] == s;
  }

  /**
   * The first match of a text: what comes before it is kept, its key keeps
   * its spelling and its value becomes the placeholder.
   */
  lemma RedactFirstMatch(s: string, i: nat, e: nat)
    requires MatchAt(s, i) && forall k: nat :: k < i ==> !MatchAt(s, k)
    requires e == MatchEnd(s, i)
    ensures RedactTokens(s) == s[..i + KeyLen] + "=" + Placeholder + RedactFrom(s, e)
  {
    RedactSkip(s, 0, i);
    RedactAtMatch(s, i);
    var pre, key, rest := s[0..i], s[i..i + KeyLen], RedactFrom(s, e);
    assert pre + key == s[..i + KeyLen];
    Regroup(pre, key + "=" + Placeholder, rest);
    Regroup(pre, key + "=", Placeholder);
    Regroup(pre, key, "=");
  }

  /** After the last match the rest of the text is kept. */
  lemma RedactRest(s: string, i: nat)
    requires i <= |s| && forall k: nat :: i <= k < |s| ==> !MatchAt(s, k)
    ensures RedactFrom(s, i) == s[i..]
  {
    RedactSkip(s, i, |s|);
    assert s[i..|s|] + [] == s[i..];
  }

  /** Every match contains "=", so a text without one has no match. */
  lemma NoEqualsNoMatch(s: string)
    requires '=' !in s
    ensures NoMatch(s)
  {
    forall i: nat | i < |s| ensures !MatchAt(s, i) {
      if i + KeyLen < |s| {
        assert s[i + KeyLen] in s;
      }
    }
  }

  /** A match needs "=" right after the key, so none starts before j when none of those positions holds one. */
  lemma NoMatchBefore(s: string, j: nat)
    requires forall m :: KeyLen <= m < j + KeyLen && m < |s| ==> s[m] != '='
    ensures forall k: nat :: k < j ==> !MatchAt(s, k)
  {
  }

  // ------------------------------------------------------------------ token

  /** The pattern does not start at j when one of its characters differs there. */
  lemma Mismatch(s: string, pat: string, j: nat, d: nat)
    requires j + d < |s| && d < |pat| && s[j + d] != pat[d]
    ensures !ContainsAt(s, pat, j)
  {
  }

  /** A pattern whose first character does not occur in the text does not occur in it. */
  lemma AbsentFirstChar(s: string, pat: string)
    requires |pat| > 0 && pat[0] !in s
    ensures !Contains(s, pat)
  {
    forall i | 0 <= i <= |s| - |pat| ensures !ContainsAt(s, pat, i) {
      assert s[i] in s;
      Mismatch(s, pat, i, 0);
    }
  }

  // ---------------------------------------------------------------- results

  /** Text with neither a match nor the token comes out unchanged. */
  lemma CleanTextUnchanged(text: string, token: string)
    requires NoMatch(text)
    requires token == "" || !Contains(text, token)
    ensures RedactSensitiveData(text, token) == text
  {
    RedactNoMatch(text);
    if token != "" {
      ReplaceAllAbsent(text, token, Placeholder);
    }
  }

  /** The run from j stops at e when every character before e is a value character and the one at e is not. */
  lemma {:induction false} RunStops(s: string, j: nat, e: nat)
    requires j <= e <= |s| && forall k :: j <= k < e ==> ValueChar(s[k])
    requires e == |s| || !ValueChar(s[e])
    ensures RunEnd(s, j) == e
    decreases e - j
  {
    if j < e {
      RunStops(s, j + 1, e);
    }
  }

  /**
   * A query parameter at i after a part without "=": that part is kept, the
   * key keeps its spelling, the value up to the stop character at e (or the
   * end) is replaced and the scan goes on from e.
   */
  lemma RedactParamAt(s: string, i: nat, e: nat)
    requires i + KeyLen + 1 < e <= |s|
    requires forall m :: KeyLen <= m < i + KeyLen ==> s[m] != '='
    requires SpelledKey(s[i..i + KeyLen]) && s[i + KeyLen] == '='
    requires forall k :: i + KeyLen + 1 <= k < e ==> ValueChar(s[k])
    requires e == |s| || !ValueChar(s[e])
    ensures RedactTokens(s) == s[..i + KeyLen] + "=" + Placeholder + RedactFrom(s, e)
  {
    KeyAtSpelled(s, i);
    assert MatchAt(s, i);
    RunStops(s, i + KeyLen + 1, e);
    NoMatchBefore(s, i);
    RedactFirstMatch(s, i, e);
  }

  lemma UpperKey(key: string)
    requires key == "ACCESS_TOKEN"
    ensures SpelledKey(key)
  {
  }

  lemma TestTokenChars(v: string)
    requires v == "f9LHsecret"
    ensures forall k :: 0 <= k < |v| ==> ValueChar(v[k])
  {
  }

  /** The upper-case case of the test: the key keeps its spelling. */
  lemma UpperCaseExample(key: string, token: string)
    requires key == "ACCESS_TOKEN" && token == "f9LHsecret"
    ensures RedactSensitiveData(key + "=" + token, token) == key + "=" + Placeholder
  {
    var s := key + "=" + token;
    UpperKey(key);
    TestTokenChars(token);
    assert s[0..KeyLen] == key && s[..KeyLen] == key && s[KeyLen] == '=';
    forall k | KeyLen + 1 <= k < |s| ensures ValueChar(s[k]) {
      assert s[k] == token[k - (KeyLen + 1)];
    }
    RedactParamAt(s, 0, |s|);
    var out := key + "=" + Placeholder;
    assert out + [] == out;
    NoF(key);
    AbsentFirstChar(out, token);
    ReplaceAllAbsent(out, token, Placeholder);
  }

  lemma NoF(key: string)
    requires key == "ACCESS_TOKEN"
    ensures 'f' !in key + "=" + Placeholder
  {
    assert 'f' !in key && 'f' !in Placeholder;
  }

  /** The clean case of the test. */
  lemma CleanExample(text: string, token: string)
    requires text == "nothing to redact here" && token == "f9LHsecret"
    ensures RedactSensitiveData(text, token) == text
  {
    NoEqualsNoMatch(text);
    AbsentFirstChar(text, token);
    CleanTextUnchanged(text, token);
  }
}
