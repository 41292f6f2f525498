/**
 * The library page's view of the user's library access
 * (src/pages/LibraryPage/lib/transformLibraryAccess.ts): the links found in
 * the instructions, with the portal first and every link once.
 */
module MiniLibrary {
  import opened Common
  import opened MiniLib

  // ------------------------------------------------ the URL regular expression

  /**
   * A character of the text against a lower-case character of the pattern
   * under the `i` flag (without `u`, only ASCII letters fold).
   */
  predicate SameLetter(c: char, lower: char) {
    c == lower || ('a' <= lower <= 'z' && c as int == lower as int - 32)
  }

  /** A text that spells the pattern, case-insensitively. */
  predicate Folds(a: string, pat: string) {
    |a| == |pat| && forall k :: 0 <= k < |a| ==> SameLetter(a[k], pat[k])
  }

  /** The pattern, case-insensitively, at the start of the text. */
  predicate FoldedPrefix(s: string, pat: string) {
    |pat| <= |s| && Folds(s[..|pat|], pat)
  }

  /** The length of the scheme `https?:\/\/` at the start (the `s?` tried first), or 0. */
  function Scheme(s: string): nat {
    if FoldedPrefix(s, "https://") then 8 else if FoldedPrefix(s, "http://") then 7 else 0
  }

  /** A match starts here: a scheme and at least one character that is not whitespace. */
  predicate MatchHere(s: string) {
    var m := Scheme(s);
    m > 0 && m < |s| && !JsSpace(s[m])
  }

  /** The length of the leading run of non-whitespace characters (`[^\s]+` is greedy). */
  function RunLength(s: string): (n: nat)
    ensures n <= |s|
    ensures forall k :: 0 <= k < n ==> !JsSpace(s[k])
    ensures n == |s| || JsSpace(s[n])
  {
    if s == [] || JsSpace(s[0]) then 0
    else
      var n := RunLength(s[1..]);
      assert forall k :: 1 <= k < n + 1 ==> s[k] == s[1..][k - 1];
      1 + n
  }

  /** Where the match that starts here ends. */
  function MatchEnd(s: string): (e: nat)
    requires MatchHere(s)
    ensures Scheme(s) < e <= |s|
  {
    Scheme(s) + RunLength(s[Scheme(s)..])
  }

  /** The global matches, leftmost first, each scan going on after the match. */
  function Urls(s: string): seq<string>
    decreases |s|
  {
    if s == [] then []
    else if MatchHere(s) then [s[..MatchEnd(s)]] + Urls(s[MatchEnd(s)..])
    else Urls(s[1..])
  }

  /** extractUrls: no text gives no links; otherwise every match, trimmed. */
  function ExtractUrls(value: Option<string>): seq<string> {
    if !Truthy(value) then [] else MapSeq(Urls(value.value), TrimJs)
  }

  /** A link as the expression matches it: a scheme, then at least one more character, no whitespace. */
  predicate UrlToken(u: string) {
    Scheme(u) > 0 && |u| > Scheme(u) && forall k :: 0 <= k < |u| ==> !JsSpace(u[k])
  }

  /** A prefix long enough to hold the longer scheme, or the whole text, has the text's scheme. */
  lemma SchemeOfPrefix(s: string, n: nat)
    requires n <= |s| && (n >= 8 || n == |s|)
    ensures Scheme(s[..n]) == Scheme(s)
  {
    if n >= 8 {
      assert s[..n][..8] == s[..8];
      assert s[..n][..7] == s[..7];
    } else {
      assert s[..n] == s;
    }
  }

  /** Printable ASCII characters are not whitespace. */
  lemma PrintableNotSpace(c: char)
    requires '!' <= c <= '~'
    ensures !JsSpace(c)
  {
  }

  /** The characters of a scheme are not whitespace. */
  lemma SchemeNoSpace(u: string)
    requires Scheme(u) > 0
    ensures forall k :: 0 <= k < Scheme(u) ==> !JsSpace(u[k])
  {
    var pat := if Scheme(u) == 8 then "https://" else "http://";
    assert Folds(u[..|pat|], pat);
    forall k | 0 <= k < |pat| ensures !JsSpace(u[k]) {
      assert '!' <= pat[k] <= '~';
      assert SameLetter(u[..|pat|][k], pat[k]);
      PrintableNotSpace(u[k]);
    }
  }

  /** The match that starts here is a link token. */
  lemma MatchIsToken(s: string)
    requires MatchHere(s)
    ensures UrlToken(s[..MatchEnd(s)])
  {
    var e := MatchEnd(s);
    var m := Scheme(s);
    var u := s[..e];
    SchemeOfPrefix(s, e);
    SchemeNoSpace(s);
    forall k | 0 <= k < |u| ensures !JsSpace(u[k]) {
      if k >= m {
        assert u[k] == s[m..][k - m];
      }
    }
  }

  /** Every match is a link token. */
  lemma {:induction false} UrlsAreTokens(s: string)
    ensures forall u :: u in Urls(s) ==> UrlToken(u)
    decreases |s|
  {
    if s != [] {
      if MatchHere(s) {
        MatchIsToken(s);
        UrlsAreTokens(s[MatchEnd(s)..]);
      } else {
        UrlsAreTokens(s[1..]);
      }
    }
  }

  /** Trimming a token changes nothing. */
  lemma TokenTrimmed(u: string)
    requires UrlToken(u)
    ensures TrimJs(u) == u
  {
    TrimUnchanged(u, JsWs);
  }

  /** The extracted links are exactly the matches, and each is a link token. */
  lemma ExtractedAreMatches(value: string)
    requires value != ""
    ensures ExtractUrls(Some(value)) == Urls(value)
    ensures forall u :: u in ExtractUrls(Some(value)) ==> UrlToken(u)
  {
    var m := Urls(value);
    UrlsAreTokens(value);
    forall k | 0 <= k < |m| ensures TrimJs(m[k]) == m[k] {
      assert m[k] in m;
      TokenTrimmed(m[k]);
    }
  }

  // ------------------------------------------------------- links in a text

  /** A run without whitespace followed by the end or by whitespace is read whole. */
  lemma {:induction false} RunLengthOf(v: string, t: string)
    requires forall k :: 0 <= k < |v| ==> !JsSpace(v[k])
    requires t == [] || JsSpace(t[0])
    ensures RunLength(v + t) == |v|
    decreases |v|
  {
    if v == [] {
      assert v + t == t;
    } else {
      assert (v + t)[0] == v[0];
      assert (v + t)[1..] == v[1..] + t;
      RunLengthOf(v[1..], t);
    }
  }

  /** A token at the start of the text is matched whole. */
  lemma TokenMatched(u: string, t: string)
    requires UrlToken(u) && (t == [] || JsSpace(t[0]))
    ensures Urls(u + t) == [u] + Urls(t)
  {
    var s := u + t;
    assert s[..|u|] == u;
    SchemeOfPrefix(s, |u|);
    var m := Scheme(u);
    assert s[m] == u[m];
    assert s[m..] == u[m..] + t;
    RunLengthOf(u[m..], t);
    assert MatchEnd(s) == |u|;
    assert s[|u|..] == t;
  }

  /** A token followed by a blank and more text: the token, then the links of the rest. */
  lemma TokenThenRest(u: string, c: char, rest: string)
    requires UrlToken(u) && JsSpace(c)
    ensures Urls(u + [c] + rest) == [u] + Urls(rest)
  {
    assert u + [c] + rest == u + ([c] + rest);
    TokenMatched(u, [c] + rest);
    var t := [c] + rest;
    assert Scheme(t) == 0 by {
      assert "https://"[0] == 'h' && "http://"[0] == 'h';
      assert !SameLetter(c, 'h');
      if |t| >= 8 {
        assert t[..8][0] == c;
      }
      if |t| >= 7 {
        assert t[..7][0] == c;
      }
    }
    assert t[1..] == rest;
  }

  /** Links written one after another, separated by single spaces, are found in order. */
  lemma {:induction false} SpacedLinksFound(us: seq<string>)
    requires forall k :: 0 <= k < |us| ==> UrlToken(us[k])
    ensures Urls(Join(us, " ")) == us
    decreases |us|
  {
    if |us| == 1 {
      TokenMatched(us[0], []);
      assert us[0] + [] == us[0];
    } else if |us| > 1 {
      SpacedLinksFound(us[1..]);
      assert Join(us, " ") == us[0] + [' '] + Join(us[1..], " ");
      assert JsSpace(' ');
      TokenThenRest(us[0], ' ', Join(us[1..], " "));
    }
  }

  // ------------------------------------------------------------- the view

  /** The fields of a library access the page receives. */
  datatype LibraryAccess = LibraryAccess(id: string, login: string, password: string,
                                         portalUrl: Option<string>, instructions: Option<string>)

  /** LibraryAccessViewModel. */
  datatype LibraryView = LibraryView(id: string, login: string, password: string, portalUrl: Option<string>,
                                     libraries: seq<string>, instructions: string)

  /** The portal (when it is a non-empty text) and then the links of the instructions. */
  function Candidates(a: LibraryAccess): seq<string> {
    (if Truthy(a.portalUrl) then [a.portalUrl.value] else []) + Filter(ExtractUrls(a.instructions), (u: string) => u != "")
  }

  /**
   * transformLibraryAccessForPage: the libraries are the candidates with
   * repeats removed (a Set keeps insertion order), the instructions the
   * text or the empty one.
   */
  function LibraryOf(a: LibraryAccess): (v: LibraryView)
    ensures Distinct(v.libraries)
    ensures forall u :: u in v.libraries <==> u in Candidates(a)
    ensures v.instructions == OrElse(a.instructions, "")
  {
    LibraryView(a.id, a.login, a.password, a.portalUrl, Dedup(Candidates(a)), OrElse(a.instructions, ""))
  }

  /** Every extracted link is a non-empty token. */
  lemma ExtractedNonEmpty(value: Option<string>)
    ensures forall u :: u in ExtractUrls(value) ==> u != "" && UrlToken(u)
  {
    if Truthy(value) {
      ExtractedAreMatches(value.value);
    }
  }

  /** The first element survives deduplication in front. */
  lemma DedupKeepsHead<T(!new)>(c: seq<T>)
    requires c != []
    ensures |Dedup(c)| > 0 && Dedup(c)[0] == c[0]
  {
    var none: set<T> := {};
    assert DedupFrom(c, none) == [c[0]] + DedupFrom(c[1..], none + {c[0]});
  }

  /**
   * The portal comes first, every link of the instructions is listed, and
   * nothing else: no empty text, each link once.
   */
  lemma LibrariesListed(a: LibraryAccess)
    ensures var v := LibraryOf(a);
            (Truthy(a.portalUrl) ==> |v.libraries| > 0 && v.libraries[0] == a.portalUrl.value)
            && (forall u :: u in ExtractUrls(a.instructions) ==> u in v.libraries)
            && (forall u :: u in v.libraries ==>
                  u != "" && ((Truthy(a.portalUrl) && u == a.portalUrl.value) || u in ExtractUrls(a.instructions)))
  {
    ExtractedNonEmpty(a.instructions);
    if Truthy(a.portalUrl) {
      DedupKeepsHead(Candidates(a));
    }
  }
}
