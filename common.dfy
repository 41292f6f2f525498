/**
 * Shared vocabulary for every module of the model: optional values and
 * error-carrying results, the three whitespace sets the system's languages
 * trim with, ASCII/Cyrillic case mapping, decimal rendering and parsing,
 * first-occurrence deduplication and a stable sort by an integer key.
 */
module Common {

  datatype Option<T> = None | Some(value: T)

  datatype Result<T> = Ok(value: T) | Err(error: string)

  /** User ids are uuids in the database; only equality is ever used on them. */
  type UserId = int

  // ---------------------------------------------------------------------------
  // Whitespace
  // ---------------------------------------------------------------------------

  /** Characters with the Unicode White_Space property (Go's unicode.IsSpace). */
  predicate GoSpace(c: char) {
    c == ' ' || c == '\t' || c == '\n' || c == '\r' || c == '\U{000B}' || c == '\U{000C}'
    || c == '\U{0085}' || c == '\U{00A0}' || c == '\U{1680}'
    || ('\U{2000}' <= c <= '\U{200A}') || c == '\U{2028}' || c == '\U{2029}'
    || c == '\U{202F}' || c == '\U{205F}' || c == '\U{3000}'
  }

  /** Python's str.strip() set: Go's set plus the four ASCII separators 0x1C-0x1F. */
  predicate PySpace(c: char) {
    GoSpace(c) || ('\U{001C}' <= c <= '\U{001F}')
  }

  /** JavaScript's String.prototype.trim() set: no U+0085, but U+FEFF. */
  predicate JsSpace(c: char) {
    (GoSpace(c) && c != '\U{0085}') || c == '\U{FEFF}'
  }

  /** The whitespace set a trim uses. */
  datatype Ws = GoWs | PyWs | JsWs

  predicate IsSpace(ws: Ws, c: char) {
    match ws
    case GoWs => GoSpace(c)
    case PyWs => PySpace(c)
    case JsWs => JsSpace(c)
  }

  function TrimLeft(s: string, ws: Ws): (r: string)
    ensures |r| <= |s|
  {
    if |s| > 0 && IsSpace(ws, s[0]) then TrimLeft(s[1..], ws) else s
  }

  /** The left trim cuts a prefix of whitespace and stops at a character that is not whitespace. */
  lemma {:induction false} TrimLeftSpec(s: string, ws: Ws)
    ensures TrimLeft(s, ws) == s[|s| - |TrimLeft(s, ws)|..]
    ensures forall k :: 0 <= k < |s| - |TrimLeft(s, ws)| ==> IsSpace(ws, s[k])
    ensures |TrimLeft(s, ws)| > 0 ==> !IsSpace(ws, TrimLeft(s, ws)[0])
    decreases |s|
  {
    if |s| > 0 && IsSpace(ws, s[0]) {
      TrimLeftSpec(s[1..], ws);
    }
  }

  function TrimRight(s: string, ws: Ws): (r: string)
    ensures |r| <= |s|
  {
    if |s| > 0 && IsSpace(ws, s[|s| - 1]) then TrimRight(s[..|s| - 1], ws) else s
  }

  /** The right trim cuts a suffix of whitespace and stops at a character that is not whitespace. */
  lemma {:induction false} TrimRightSpec(s: string, ws: Ws)
    ensures TrimRight(s, ws) == s[..|TrimRight(s, ws)|]
    ensures forall k :: |TrimRight(s, ws)| <= k < |s| ==> IsSpace(ws, s[k])
    ensures |TrimRight(s, ws)| > 0 ==> !IsSpace(ws, TrimRight(s, ws)[|TrimRight(s, ws)| - 1])
    decreases |s|
  {
    if |s| > 0 && IsSpace(ws, s[|s| - 1]) {
      TrimRightSpec(s[..|s| - 1], ws);
    }
  }

  function TrimWith(s: string, ws: Ws): string {
    TrimRight(TrimLeft(s, ws), ws)
  }

  /** Go strings.TrimSpace. */
  function TrimGo(s: string): string { TrimWith(s, GoWs) }
  /** Python str.strip(). */
  function TrimPy(s: string): string { TrimWith(s, PyWs) }
  /** JavaScript String.prototype.trim(). */
  function TrimJs(s: string): string { TrimWith(s, JsWs) }

  predicate Blank(s: string, ws: Ws) {
    forall k :: 0 <= k < |s| ==> IsSpace(ws, s[k])
  }

  /** A text with no whitespace at either end is its own trim. */
  lemma TrimUnchanged(s: string, ws: Ws)
    requires |s| > 0 && !IsSpace(ws, s[0]) && !IsSpace(ws, s[|s| - 1])
    ensures TrimWith(s, ws) == s
  {
  }

  lemma TrimLeftOfTrimmed(s: string, ws: Ws)
    requires |s| == 0 || !IsSpace(ws, s[0])
    ensures TrimLeft(s, ws) == s
  {
  }

  lemma TrimRightKeepsLeftEdge(s: string, ws: Ws)
    requires |s| == 0 || !IsSpace(ws, s[0])
    ensures |TrimRight(s, ws)| == 0 || !IsSpace(ws, TrimRight(s, ws)[0])
  {
    TrimRightSpec(s, ws);
  }

  /**
   * r is s with exactly its leading i and its trailing whitespace cut away:
   * a contiguous middle part, everything cut is whitespace, and r neither
   * starts nor ends with whitespace.
   */
  predicate TrimShape(s: string, ws: Ws, i: int, r: string) {
    && 0 <= i && i + |r| <= |s| && r == s[i..i + |r|]
    && (forall k :: 0 <= k < i ==> IsSpace(ws, s[k]))
    && (forall k :: i + |r| <= k < |s| ==> IsSpace(ws, s[k]))
    && (|r| > 0 ==> !IsSpace(ws, r[0]) && !IsSpace(ws, r[|r| - 1]))
  }

  /** Trimming strips exactly the whitespace at both ends. */
  lemma TrimWithSpec(s: string, ws: Ws)
    ensures TrimShape(s, ws, |s| - |TrimLeft(s, ws)|, TrimWith(s, ws))
  {
    var l := TrimLeft(s, ws);
    var r := TrimRight(l, ws);
    TrimLeftSpec(s, ws);
    TrimRightSpec(l, ws);
    TrimRightKeepsLeftEdge(l, ws);
    TrimWithParts(s, l, r, ws);
  }

  lemma TrimWithParts(s: string, l: string, r: string, ws: Ws)
    requires |l| <= |s| && l == s[|s| - |l|..]
    requires forall k :: 0 <= k < |s| - |l| ==> IsSpace(ws, s[k])
    requires |r| <= |l| && r == l[..|r|]
    requires forall k :: |r| <= k < |l| ==> IsSpace(ws, l[k])
    requires |r| > 0 ==> !IsSpace(ws, r[0]) && !IsSpace(ws, r[|r| - 1])
    ensures TrimShape(s, ws, |s| - |l|, r)
  {
    var i := |s| - |l|;
    SliceOfSuffix(s, i, |r|);
    forall k | i + |r| <= k < |s| ensures IsSpace(ws, s[k]) {
      assert s[k] == l[k - i];
    }
  }

  lemma SliceOfSuffix(s: string, i: nat, n: nat)
    requires i + n <= |s|
    ensures s[i..][..n] == s[i..i + n]
  {
  }

  /** Leading whitespace is skipped by the left trim. */
  lemma {:induction false} TrimLeftBlank(pre: string, rest: string, ws: Ws)
    requires Blank(pre, ws)
    ensures TrimLeft(pre + rest, ws) == TrimLeft(rest, ws)
    decreases |pre|
  {
    if pre == [] {
      assert pre + rest == rest;
    } else {
      assert (pre + rest)[1..] == pre[1..] + rest;
      TrimLeftBlank(pre[1..], rest, ws);
    }
  }

  /** Trailing whitespace is skipped by the right trim. */
  lemma {:induction false} TrimRightBlank(rest: string, post: string, ws: Ws)
    requires Blank(post, ws)
    ensures TrimRight(rest + post, ws) == TrimRight(rest, ws)
    decreases |post|
  {
    if post == [] {
      assert rest + post == rest;
    } else {
      var s := rest + post;
      assert s[..|s| - 1] == rest + post[..|post| - 1];
      TrimRightBlank(rest, post[..|post| - 1], ws);
    }
  }

  /** Whitespace around a text with no whitespace at its ends is what the trim removes. */
  lemma TrimPadded(pre: string, mid: string, post: string, ws: Ws)
    requires Blank(pre, ws) && Blank(post, ws)
    requires |mid| > 0 && !IsSpace(ws, mid[0]) && !IsSpace(ws, mid[|mid| - 1])
    ensures TrimWith(pre + mid + post, ws) == mid
  {
    assert pre + mid + post == pre + (mid + post);
    TrimLeftBlank(pre, mid + post, ws);
    TrimLeftOfTrimmed(mid + post, ws);
    TrimRightBlank(mid, post, ws);
    TrimUnchanged(mid, ws);
  }

  /** Trimming twice is trimming once. */
  lemma TrimIdempotent(s: string, ws: Ws)
    ensures TrimWith(TrimWith(s, ws), ws) == TrimWith(s, ws)
  {
    var r := TrimWith(s, ws);
    TrimWithSpec(s, ws);
    TrimLeftOfTrimmed(r, ws);
  }

  /** The trimmed string is empty exactly when the input is all whitespace. */
  lemma TrimEmptyIffBlank(s: string, ws: Ws)
    ensures TrimWith(s, ws) == [] <==> Blank(s, ws)
  {
    var l := TrimLeft(s, ws);
    TrimLeftSpec(s, ws);
    TrimRightSpec(l, ws);
    if TrimWith(s, ws) == [] {
      assert |l| == 0;
    } else {
      TrimWithSpec(s, ws);
      var r := TrimWith(s, ws);
      var i := |s| - |l|;
      assert s[i] == r[0];
    }
  }

  // ---------------------------------------------------------------------------
  // Case mapping
  // ---------------------------------------------------------------------------

  /** Lower-case mapping for ASCII and the basic Cyrillic block (U+0400-U+042F). */
  function LowerChar(c: char): (r: char)
    ensures IsUpper(c) ==> r != c && !IsUpper(r)
    ensures !IsUpper(c) ==> r == c
  {
    if 'A' <= c <= 'Z' then (c as int + 32) as char
    else if '\U{0410}' <= c <= '\U{042F}' then (c as int + 32) as char
    else if '\U{0400}' <= c <= '\U{040F}' then (c as int + 80) as char
    else c
  }

  predicate IsUpper(c: char) {
    ('A' <= c <= 'Z') || ('\U{0400}' <= c <= '\U{042F}')
  }

  function Lower(s: string): (r: string)
    ensures |r| == |s|
  {
    if s == [] then [] else [LowerChar(s[0])] + Lower(s[1..])
  }

  /** Lower-casing maps every character on its own. */
  lemma {:induction false} LowerAt(s: string)
    ensures forall k :: 0 <= k < |s| ==> Lower(s)[k] == LowerChar(s[k])
    decreases |s|
  {
    if s != [] {
      LowerAt(s[1..]);
      assert forall k :: 1 <= k < |s| ==> Lower(s)[k] == Lower(s[1..])[k - 1];
    }
  }

  lemma {:induction false} LowerConcat(a: string, b: string)
    ensures Lower(a + b) == Lower(a) + Lower(b)
    decreases |a|
  {
    if a == [] {
      assert a + b == b;
    } else {
      assert (a + b)[1..] == a[1..] + b;
      LowerConcat(a[1..], b);
    }
  }

  /** A text without upper-case letters is its own lower case. */
  lemma LowerNoUpper(s: string)
    requires forall k :: 0 <= k < |s| ==> !IsUpper(s[k])
    ensures Lower(s) == s
  {
    LowerAt(s);
  }

  /** A capital followed by lower-case letters lowers its capital only. */
  lemma LowerCapital(c: char, rest: string)
    requires IsUpper(c) && forall k :: 0 <= k < |rest| ==> !IsUpper(rest[k])
    ensures Lower([c] + rest) == [LowerChar(c)] + rest
  {
    LowerNoUpper(rest);
    LowerConcat([c], rest);
    assert [c][1..] == [];
  }

  /** Lower-casing is idempotent. */
  lemma LowerIdempotent(s: string)
    ensures Lower(Lower(s)) == Lower(s)
  {
    LowerAt(s);
    LowerAt(Lower(s));
  }

  /** Case-insensitive equality (Go strings.EqualFold on the characters LowerChar folds). */
  predicate EqualFold(a: string, b: string) {
    Lower(a) == Lower(b)
  }

  // ---------------------------------------------------------------------------
  // Prefixes, suffixes, substrings
  // ---------------------------------------------------------------------------

  predicate StartsWith(s: string, p: string) {
    |p| <= |s| && s[..|p|] == p
  }

  predicate EndsWith(s: string, p: string) {
    |p| <= |s| && s[|s| - |p|..] == p
  }

  predicate ContainsAt(s: string, p: string, i: int) {
    0 <= i && i + |p| <= |s| && s[i..i + |p|] == p
  }

  predicate Contains(s: string, p: string) {
    exists i :: 0 <= i <= |s| - |p| && ContainsAt(s, p, i)
  }

  /** strings.TrimPrefix / str.removeprefix: drops one leading occurrence of p. */
  function TrimPrefix(s: string, p: string): (r: string)
    ensures StartsWith(s, p) ==> s == p + r
    ensures !StartsWith(s, p) ==> r == s
  {
    if StartsWith(s, p) then s[|p|..] else s
  }

  /** strings.ReplaceAll: leftmost, non-overlapping replacement of a non-empty pattern. */
  function ReplaceAll(s: string, pat: string, rep: string): string
    requires |pat| > 0
  {
    ReplaceFrom(s, pat, rep, 0)
  }

  /** ReplaceAll from position i on. */
  function ReplaceFrom(s: string, pat: string, rep: string, i: nat): string
    requires |pat| > 0 && i <= |s|
    decreases |s| - i
  {
    if i + |pat| > |s| then s[i..]
    else if ContainsAt(s, pat, i) then rep + ReplaceFrom(s, pat, rep, i + |pat|)
    else [s[i]] + ReplaceFrom(s, pat, rep, i + 1)
  }

  lemma Regroup<T>(a: seq<T>, b: seq<T>, c: seq<T>)
    ensures a + (b + c) == (a + b) + c
  {
  }

  /** Where the pattern does not start, one character is copied. */
  lemma ReplaceCopy(s: string, pat: string, rep: string, i: nat)
    requires |pat| > 0 && i + |pat| <= |s| && !ContainsAt(s, pat, i)
    ensures ReplaceFrom(s, pat, rep, i) == [s[i]] + ReplaceFrom(s, pat, rep, i + 1)
  {
  }

  /** Positions where the pattern does not start are copied as they are. */
  lemma {:induction false} ReplaceSkip(s: string, pat: string, rep: string, i: nat, j: nat)
    requires |pat| > 0 && i <= j && j + |pat| <= |s| + 1
    requires forall k :: i <= k < j ==> !ContainsAt(s, pat, k)
    ensures ReplaceFrom(s, pat, rep, i) == s[i..j] + ReplaceFrom(s, pat, rep, j)
    decreases j - i
  {
    if i < j {
      ReplaceCopy(s, pat, rep, i);
      ReplaceSkip(s, pat, rep, i + 1, j);
      assert s[i..j] == [s[i]] + s[i + 1..j];
      Regroup([s[i]], s[i + 1..j], ReplaceFrom(s, pat, rep, j));
    } else {
      assert s[i..j] == [];
    }
  }

  /** From a position on which the pattern never starts the text is copied as it is. */
  lemma ReplaceTail(s: string, pat: string, rep: string, i: nat)
    requires |pat| > 0 && i <= |s| && forall k :: i <= k < |s| ==> !ContainsAt(s, pat, k)
    ensures ReplaceFrom(s, pat, rep, i) == s[i..]
  {
    if i + |pat| <= |s| {
      var j := |s| - |pat| + 1;
      ReplaceSkip(s, pat, rep, i, j);
      assert s[i..j] + s[j..] == s[i..];
    }
  }

  /** A text in which the pattern never occurs is left unchanged by ReplaceAll. */
  lemma ReplaceAllAbsent(s: string, pat: string, rep: string)
    requires |pat| > 0 && !Contains(s, pat)
    ensures ReplaceAll(s, pat, rep) == s
  {
    ReplaceTail(s, pat, rep, 0);
    assert s[0..] == s;
  }

  /**
   * An occurrence of the pattern at k, before which none starts from i on,
   * is replaced, and the scan goes on after it.
   */
  lemma ReplaceOccurrence(s: string, pat: string, rep: string, i: nat, k: nat)
    requires |pat| > 0 && i <= k && ContainsAt(s, pat, k)
    requires forall j :: i <= j < k ==> !ContainsAt(s, pat, j)
    ensures ReplaceFrom(s, pat, rep, i) == s[i..k] + rep + ReplaceFrom(s, pat, rep, k + |pat|)
  {
    ReplaceSkip(s, pat, rep, i, k);
    Regroup(s[i..k], rep, ReplaceFrom(s, pat, rep, k + |pat|));
  }

  function Join(parts: seq<string>, sep: string): string {
    if parts == [] then ""
    else if |parts| == 1 then parts[0]
    else parts[0] + sep + Join(parts[1..], sep)
  }

  /** Python/JavaScript split on one separator character (never empty). */
  function Split(s: string, sep: char): (r: seq<string>)
    ensures |r| >= 1
    ensures forall k :: 0 <= k < |r| ==> sep !in r[k]
    decreases |s|
  {
    if s == [] then [""]
    else if s[0] == sep then [""] + Split(s[1..], sep)
    else
      var rest := Split(s[1..], sep);
      [[s[0]] + rest[0]] + rest[1..]
  }

  /** Splitting and re-joining with the same separator gives back the input. */
  lemma {:induction false} SplitJoin(s: string, sep: char)
    ensures Join(Split(s, sep), [sep]) == s
    decreases |s|
  {
    if s != [] {
      SplitJoin(s[1..], sep);
      var rest := Split(s[1..], sep);
      if s[0] == sep {
        assert Split(s, sep) == [""] + rest;
      } else {
        JoinConsHead(s[0], rest, [sep]);
      }
    }
  }

  /** Splitting text whose first part holds no separator gives that part first. */
  lemma {:induction false} SplitAfter(a: string, sep: char, rest: string)
    requires sep !in a
    ensures Split(a + [sep] + rest, sep) == [a] + Split(rest, sep)
    decreases |a|
  {
    if a == [] {
      assert a + [sep] + rest == [sep] + rest;
      assert ([sep] + rest)[1..] == rest;
    } else {
      var s := a + [sep] + rest;
      assert s[0] == a[0] && s[1..] == a[1..] + [sep] + rest;
      assert a[0] != sep;
      SplitAfter(a[1..], sep, rest);
      assert [a[0]] + a[1..] == a;
    }
  }

  /** Text without the separator splits into itself. */
  lemma {:induction false} SplitNone(a: string, sep: char)
    requires sep !in a
    ensures Split(a, sep) == [a]
    decreases |a|
  {
    if a != [] {
      assert a[0] != sep && sep !in a[1..];
      SplitNone(a[1..], sep);
      assert [a[0]] + a[1..] == a;
    }
  }

  /** Joining parts without the separator and splitting again gives back the parts. */
  lemma {:induction false} JoinSplit(parts: seq<string>, sep: char)
    requires |parts| >= 1 && forall k :: 0 <= k < |parts| ==> sep !in parts[k]
    ensures Split(Join(parts, [sep]), sep) == parts
    decreases |parts|
  {
    if |parts| == 1 {
      SplitNone(parts[0], sep);
    } else {
      assert forall k :: 0 <= k < |parts| - 1 ==> parts[1..][k] == parts[k + 1];
      JoinSplit(parts[1..], sep);
      assert sep !in parts[0];
      SplitAfter(parts[0], sep, Join(parts[1..], [sep]));
      assert [parts[0]] + parts[1..] == parts;
    }
  }

  /** Joining one part more at the end puts one separator before it. */
  lemma {:induction false} JoinSnoc(parts: seq<string>, x: string, sep: string)
    requires parts != []
    ensures Join(parts + [x], sep) == Join(parts, sep) + sep + x
    decreases |parts|
  {
    if |parts| == 1 {
      assert (parts + [x])[1..] == [x];
    } else {
      assert (parts + [x])[1..] == parts[1..] + [x];
      JoinSnoc(parts[1..], x, sep);
      Regroup(parts[0] + sep, Join(parts[1..], sep), sep + x);
      Regroup(parts[0], sep, Join(parts[1..], sep));
      Regroup(Join(parts, sep), sep, x);
      Regroup(parts[0] + sep + Join(parts[1..], sep), sep, x);
    }
  }

  /** A join starts with its first part. */
  lemma JoinStartsWithFirst(parts: seq<string>, sep: string)
    requires parts != []
    ensures StartsWith(Join(parts, sep), parts[0])
  {
  }

  lemma JoinConsHead(c: char, parts: seq<string>, sep: string)
    requires |parts| >= 1
    ensures Join([[c] + parts[0]] + parts[1..], sep) == [c] + Join(parts, sep)
  {
    var q := [[c] + parts[0]] + parts[1..];
    if |parts| > 1 {
      assert q[1..] == parts[1..];
    }
  }

  /** Joining a part in front of a non-empty list puts one separator between them. */
  lemma JoinCons(a: string, rest: seq<string>, sep: string)
    requires rest != []
    ensures Join([a] + rest, sep) == a + sep + Join(rest, sep)
  {
    assert ([a] + rest)[1..] == rest;
  }

  predicate NoSpace(w: string) {
    forall k :: 0 <= k < |w| ==> !GoSpace(w[k])
  }

  /** The field being read so far, if any, as a list of fields. */
  function Pending(cur: string): seq<string> {
    if cur == [] then [] else [cur]
  }

  /** Fields of s, with cur the characters of an unfinished field read before s. */
  function FieldsFrom(s: string, cur: string): (r: seq<string>)
    requires NoSpace(cur)
    ensures forall i :: 0 <= i < |r| ==> r[i] != [] && NoSpace(r[i])
    decreases |s|
  {
    if s == [] then Pending(cur)
    else if GoSpace(s[0]) then Pending(cur) + FieldsFrom(s[1..], [])
    else FieldsFrom(s[1..], cur + [s[0]])
  }

  /** Go strings.Fields: the maximal runs of characters that are not whitespace, in order. */
  function Fields(s: string): seq<string> {
    FieldsFrom(s, [])
  }

  /** A run of characters without whitespace extends the field being read. */
  lemma {:induction false} FieldsFromWord(w: string, tail: string, cur: string)
    requires NoSpace(w) && NoSpace(cur)
    ensures FieldsFrom(w + tail, cur) == FieldsFrom(tail, cur + w)
    decreases |w|
  {
    if w == [] {
      assert w + tail == tail && cur + w == cur;
    } else {
      assert (w + tail)[1..] == w[1..] + tail;
      assert cur + [w[0]] + w[1..] == cur + w;
      FieldsFromWord(w[1..], tail, cur + [w[0]]);
    }
  }

  /** Words without whitespace joined by single spaces split back into the same words. */
  lemma {:induction false} FieldsOfJoin(ws: seq<string>)
    requires forall i :: 0 <= i < |ws| ==> ws[i] != [] && NoSpace(ws[i])
    ensures Fields(Join(ws, " ")) == ws
    decreases |ws|
  {
    if |ws| == 1 {
      FieldsFromWord(ws[0], "", "");
      assert ws[0] + "" == ws[0] && "" + ws[0] == ws[0];
    } else if |ws| > 1 {
      var rest := ws[1..];
      FieldsOfJoin(rest);
      var j := Join(rest, " ");
      assert Join(ws, " ") == ws[0] + (" " + j);
      FieldsFromWord(ws[0], " " + j, "");
      assert "" + ws[0] == ws[0];
      assert (" " + j)[1..] == j;
    }
  }

  // ---------------------------------------------------------------------------
  // Decimal numbers
  // ---------------------------------------------------------------------------

  /** Python truthiness of an optional text: present and not empty. */
  predicate Truthy(s: Option<string>) {
    s.Some? && s.value != ""
  }

  predicate IsDigit(c: char) { '0' <= c <= '9' }

  predicate AllDigits(s: string) {
    forall k :: 0 <= k < |s| ==> IsDigit(s[k])
  }

  function DigitChar(d: nat): char
    requires d < 10
  {
    ('0' as int + d) as char
  }

  /** Decimal rendering of a natural number (Go %d, Python str, JavaScript String). */
  function NatToString(n: nat): (r: string)
    ensures |r| >= 1 && AllDigits(r)
    ensures |r| > 1 ==> r[0] != '0'
    decreases n
  {
    if n < 10 then [DigitChar(n)] else NatToString(n / 10) + [DigitChar(n % 10)]
  }

  function IntToString(i: int): (r: string)
    ensures i >= 0 ==> r == NatToString(i)
    ensures i < 0 ==> r == "-" + NatToString(-i)
  {
    if i >= 0 then NatToString(i) else "-" + NatToString(-i)
  }

  /** Value of a string of decimal digits. */
  function DigitsValue(s: string): nat
    requires AllDigits(s)
    decreases |s|
  {
    if s == [] then 0 else 10 * DigitsValue(s[..|s| - 1]) + (s[|s| - 1] as int - '0' as int)
  }

  /** Reading back a rendered number gives the number. */
  lemma {:induction false} DigitsValueOfNatToString(n: nat)
    ensures DigitsValue(NatToString(n)) == n
    decreases n
  {
    if n >= 10 {
      DigitsValueOfNatToString(n / 10);
      var s := NatToString(n);
      assert s[..|s| - 1] == NatToString(n / 10);
    }
  }

  /**
   * Go strconv.Atoi / ParseInt(s, 10, 64) without the 64-bit range check:
   * an optional sign followed by at least one ASCII digit.
   */
  function ParseDecimal(s: string): (r: Option<int>)
    ensures r.Some? ==> |s| >= 1
  {
    if |s| >= 2 && (s[0] == '+' || s[0] == '-') && AllDigits(s[1..]) then
      Some(if s[0] == '-' then 0 - DigitsValue(s[1..]) else DigitsValue(s[1..]))
    else if |s| >= 1 && AllDigits(s) then Some(DigitsValue(s))
    else None
  }

  /** Parsing a rendered integer gives the integer back. */
  lemma ParseIntToString(i: int)
    ensures ParseDecimal(IntToString(i)) == Some(i)
  {
    if i >= 0 {
      DigitsValueOfNatToString(i);
    } else {
      var s := IntToString(i);
      assert s[1..] == NatToString(-i);
      DigitsValueOfNatToString(-i);
    }
  }

  /** Left-pads with a character to a minimum length (JavaScript padStart). */
  function PadStart(s: string, width: nat, c: char): (r: string)
    ensures |r| == if |s| >= width then |s| else width
    ensures EndsWith(r, s)
    ensures forall k :: 0 <= k < |r| - |s| ==> r[k] == c
  {
    if |s| >= width then s
    else
      var pad := seq(width - |s|, _ => c);
      assert (pad + s)[|pad|..] == s;
      pad + s
  }

  /** Python's rstrip(c): every trailing c removed. */
  function RStripChar(s: string, c: char): (r: string)
    ensures |r| <= |s| && r == s[..|r|]
    ensures r == [] || r[|r| - 1] != c
    ensures forall k :: |r| <= k < |s| ==> s[k] == c
  {
    if s == [] || s[|s| - 1] != c then s else RStripChar(s[..|s| - 1], c)
  }

  /** Every leading c removed. */
  function LStripChar(s: string, c: char): (r: string)
    ensures |r| <= |s| && r == s[|s| - |r|..]
    ensures r == [] || r[0] != c
    ensures forall k :: 0 <= k < |s| - |r| ==> s[k] == c
  {
    if s == [] || s[0] != c then s else LStripChar(s[1..], c)
  }

  /** Go strings.Trim(s, string(c)): every leading and trailing c removed. */
  function TrimChar(s: string, c: char): string {
    RStripChar(LStripChar(s, c), c)
  }

  /** A text that neither starts nor ends with c is its own trim. */
  lemma TrimCharUnchanged(s: string, c: char)
    requires s == [] || (s[0] != c && s[|s| - 1] != c)
    ensures TrimChar(s, c) == s
  {
  }

  // ---------------------------------------------------------------------------
  // Collections
  // ---------------------------------------------------------------------------

  function Filter<T(!new)>(s: seq<T>, p: T -> bool): (r: seq<T>)
    ensures |r| <= |s|
    ensures forall x :: x in r <==> x in s && p(x)
  {
    if s == [] then [] else (if p(s[0]) then [s[0]] else []) + Filter(s[1..], p)
  }

  /** Filters with predicates that agree on every element keep the same elements. */
  lemma {:induction false} FilterCongruent<T(!new)>(s: seq<T>, p: T -> bool, q: T -> bool)
    requires forall i :: 0 <= i < |s| ==> p(s[i]) == q(s[i])
    ensures Filter(s, p) == Filter(s, q)
  {
    if s != [] {
      assert forall i :: 0 <= i < |s[1..]| ==> s[1..][i] == s[i + 1];
      FilterCongruent(s[1..], p, q);
    }
  }

  /** Filtering keeps a sequence whose every element passes. */
  lemma {:induction false} FilterAll<T(!new)>(s: seq<T>, p: T -> bool)
    requires forall i :: 0 <= i < |s| ==> p(s[i])
    ensures Filter(s, p) == s
  {
    if s != [] {
      assert forall i :: 0 <= i < |s[1..]| ==> s[1..][i] == s[i + 1];
      FilterAll(s[1..], p);
    }
  }

  /** Filtering a sequence with one more element at the end. */
  lemma {:induction false} FilterSnoc<T(!new)>(s: seq<T>, x: T, p: T -> bool)
    ensures Filter(s + [x], p) == Filter(s, p) + (if p(x) then [x] else [])
    decreases |s|
  {
    if s == [] {
      assert [x][1..] == [];
    } else {
      var head := if p(s[0]) then [s[0]] else [];
      var last := if p(x) then [x] else [];
      assert (s + [x])[0] == s[0];
      assert (s + [x])[1..] == s[1..] + [x];
      assert Filter(s + [x], p) == head + Filter(s[1..] + [x], p);
      FilterSnoc(s[1..], x, p);
      Regroup(head, Filter(s[1..], p), last);
    }
  }

  /** The position of the first element satisfying p. */
  function FindIndex<T>(s: seq<T>, p: T -> bool): (r: Option<nat>)
    ensures r.None? <==> forall i :: 0 <= i < |s| ==> !p(s[i])
    ensures r.Some? ==> r.value < |s| && p(s[r.value]) && forall i :: 0 <= i < r.value ==> !p(s[i])
  {
    if s == [] then None
    else if p(s[0]) then Some(0)
    else
      var r := FindIndex(s[1..], p);
      assert forall i :: 0 <= i < |s| - 1 ==> s[1..][i] == s[i + 1];
      if r.None? then None else Some(r.value + 1)
  }

  /** An element satisfying p with none before it is the one FindIndex finds. */
  lemma FirstIndexAt<T>(s: seq<T>, p: T -> bool, i: nat)
    requires i < |s| && p(s[i]) && forall j :: 0 <= j < i ==> !p(s[j])
    ensures FindIndex(s, p) == Some(i)
  {
  }

  /** The sequence without its element at i. */
  function RemoveAt<T>(s: seq<T>, i: nat): (r: seq<T>)
    requires i < |s|
    ensures |r| == |s| - 1
    ensures forall j :: 0 <= j < i ==> r[j] == s[j]
    ensures forall j :: i <= j < |r| ==> r[j] == s[j + 1]
    ensures multiset(r) + multiset{s[i]} == multiset(s)
  {
    assert s == s[..i] + [s[i]] + s[i + 1..];
    s[..i] + s[i + 1..]
  }

  /** OFFSET skip LIMIT limit. */
  function Page<T>(s: seq<T>, skip: nat, limit: nat): (r: seq<T>)
    ensures |r| <= limit
    ensures skip >= |s| ==> r == []
    ensures skip < |s| ==> |r| == (if skip + limit <= |s| then limit else |s| - skip)
    ensures forall i :: 0 <= i < |r| ==> r[i] == s[skip + i]
  {
    if skip >= |s| then [] else if skip + limit <= |s| then s[skip..skip + limit] else s[skip..]
  }

  lemma PageSorted<T>(s: seq<T>, skip: nat, limit: nat, key: T -> int)
    requires SortedBy(s, key)
    ensures SortedBy(Page(s, skip, limit), key)
  {
    var r := Page(s, skip, limit);
    forall i, j | 0 <= i < j < |r| ensures key(r[i]) <= key(r[j]) {
      assert r[i] == s[skip + i] && r[j] == s[skip + j];
    }
  }

  /** Reading a page and then the next one reads the same rows as one larger page. */
  lemma PageSplit<T>(s: seq<T>, skip: nat, a: nat, b: nat)
    ensures Page(s, skip, a) + Page(s, skip + a, b) == Page(s, skip, a + b)
  {
  }

  /**
   * The first element satisfying p: an unordered query's .first() read as
   * the head of the matching rows in table order.
   */
  function FirstWhere<T>(s: seq<T>, p: T -> bool): (r: Option<T>)
    ensures r.None? <==> forall i :: 0 <= i < |s| ==> !p(s[i])
    ensures r.Some? ==> exists i :: 0 <= i < |s| && s[i] == r.value && p(s[i])
  {
    if s == [] then None
    else if p(s[0]) then Some(s[0])
    else
      var r := FirstWhere(s[1..], p);
      assert forall i :: 0 <= i < |s| - 1 ==> s[1..][i] == s[i + 1];
      r
  }

  predicate Distinct<T(==)>(s: seq<T>) {
    forall i, j :: 0 <= i < j < |s| ==> s[i] != s[j]
  }

  lemma {:induction false} DistinctCount<T>(s: seq<T>, x: T)
    requires Distinct(s)
    ensures multiset(s)[x] <= 1
  {
    if s != [] {
      assert s == [s[0]] + s[1..];
      assert Distinct(s[1..]) by {
        forall i, j | 0 <= i < j < |s[1..]| ensures s[1..][i] != s[1..][j] { assert s[i + 1] != s[j + 1]; }
      }
      DistinctCount(s[1..], x);
      if x == s[0] {
        assert x !in s[1..] by {
          forall j | 0 <= j < |s[1..]| ensures s[1..][j] != x { assert s[j + 1] != s[0]; }
        }
      }
    }
  }

  lemma RepeatCount<T>(s: seq<T>, i: nat, j: nat)
    requires i < j < |s| && s[i] == s[j]
    ensures multiset(s)[s[i]] >= 2
  {
    assert s == s[..j] + s[j..];
    assert s[i] == s[..j][i];
    assert s[j] == s[j..][0];
  }

  lemma MultisetOfCons<T>(s: seq<T>)
    requires s != []
    ensures multiset(s) == multiset(s[1..]) + multiset{s[0]}
  {
    assert s == [s[0]] + s[1..];
  }

  /** Permutations have the same members. */
  lemma SameMembers<T>(a: seq<T>, b: seq<T>)
    requires multiset(a) == multiset(b)
    ensures forall x :: x in a <==> x in b
  {
    assert forall x :: x in a <==> x in multiset(a);
    assert forall x :: x in b <==> x in multiset(b);
  }

  /** A permutation of a sequence without repeats has no repeats. */
  lemma DistinctPermutation<T>(a: seq<T>, b: seq<T>)
    requires multiset(a) == multiset(b) && Distinct(a)
    ensures Distinct(b)
  {
    forall i, j | 0 <= i < j < |b| ensures b[i] != b[j] {
      if b[i] == b[j] {
        RepeatCount(b, i, j);
        DistinctCount(a, b[i]);
      }
    }
  }

  /** Keeps the first occurrence of every element not already in seen, in order. */
  function DedupFrom<T(==,!new)>(s: seq<T>, seen: set<T>): (r: seq<T>)
    ensures forall x :: x in r <==> x in s && x !in seen
    ensures Distinct(r)
    ensures |r| <= |s|
  {
    if s == [] then []
    else if s[0] in seen then DedupFrom(s[1..], seen)
    else [s[0]] + DedupFrom(s[1..], seen + {s[0]})
  }

  function Dedup<T(==,!new)>(s: seq<T>): seq<T> { DedupFrom(s, {}) }

  /** Deduplicating a sequence with no repeats leaves it unchanged. */
  lemma {:induction false} DedupDistinct<T(!new)>(s: seq<T>, seen: set<T>)
    requires Distinct(s)
    requires forall x :: x in s ==> x !in seen
    ensures DedupFrom(s, seen) == s
  {
    if s != [] {
      assert s[0] !in s[1..] by {
        forall j | 0 <= j < |s[1..]| ensures s[1..][j] != s[0] { assert s[j + 1] != s[0]; }
      }
      DedupDistinct(s[1..], seen + {s[0]});
    }
  }

  /** Deduplication is idempotent. */
  lemma DedupIdempotent<T(!new)>(s: seq<T>)
    ensures Dedup(Dedup(s)) == Dedup(s)
  {
    DedupDistinct(Dedup(s), {});
  }

  /** One more element processed by a first-occurrence dedup loop. */
  lemma DedupStep<T(!new)>(s: seq<T>, i: nat, seen: set<T>)
    requires i < |s|
    ensures DedupFrom(s[i..], seen)
         == (if s[i] in seen then DedupFrom(s[i + 1..], seen)
             else [s[i]] + DedupFrom(s[i + 1..], seen + {s[i]}))
  {
    assert s[i..][1..] == s[i + 1..];
  }

  predicate SortedBy<T>(s: seq<T>, key: T -> int) {
    forall i, j :: 0 <= i < j < |s| ==> key(s[i]) <= key(s[j])
  }

  function InsertBy<T>(x: T, s: seq<T>, key: T -> int): seq<T> {
    if s == [] then [x]
    else if key(x) <= key(s[0]) then [x] + s
    else [s[0]] + InsertBy(x, s[1..], key)
  }

  lemma SortedCons<T>(x: T, t: seq<T>, key: T -> int)
    requires SortedBy(t, key)
    requires forall j :: 0 <= j < |t| ==> key(x) <= key(t[j])
    ensures SortedBy([x] + t, key)
  {
    var r := [x] + t;
    forall i, j | 0 <= i < j < |r| ensures key(r[i]) <= key(r[j]) {
      assert r[j] == t[j - 1];
      if i > 0 { assert r[i] == t[i - 1]; }
    }
  }

  lemma SortedTail<T>(s: seq<T>, key: T -> int)
    requires |s| > 0 && SortedBy(s, key)
    ensures SortedBy(s[1..], key)
    ensures forall j :: 0 <= j < |s[1..]| ==> key(s[0]) <= key(s[1..][j])
  {
    var tail := s[1..];
    forall i, j | 0 <= i < j < |tail| ensures key(tail[i]) <= key(tail[j]) {
      assert tail[i] == s[i + 1] && tail[j] == s[j + 1];
    }
    forall j | 0 <= j < |tail| ensures key(s[0]) <= key(tail[j]) {
      assert tail[j] == s[j + 1];
    }
  }

  lemma {:induction false} InsertByProps<T>(x: T, s: seq<T>, key: T -> int)
    requires SortedBy(s, key)
    ensures SortedBy(InsertBy(x, s, key), key)
    ensures multiset(InsertBy(x, s, key)) == multiset(s) + multiset{x}
    ensures |InsertBy(x, s, key)| == |s| + 1
  {
    if s == [] {
    } else if key(x) <= key(s[0]) {
      SortedTail(s, key);
      SortedCons(x, s, key);
    } else {
      var tail := s[1..];
      SortedTail(s, key);
      var t := InsertBy(x, tail, key);
      InsertByProps(x, tail, key);
      assert s == [s[0]] + tail;
      forall j | 0 <= j < |t| ensures key(s[0]) <= key(t[j]) {
        assert t[j] in multiset(t);
        if t[j] != x {
          assert t[j] in multiset(tail);
          var m :| 0 <= m < |tail| && tail[m] == t[j];
        }
      }
      SortedCons(s[0], t, key);
    }
  }

  /**
   * Stable sort by an integer key, ascending. Elements with equal keys keep
   * their input order (Python's sorted, which is also stable with reverse=True
   * when the key is negated).
   */
  function SortBy<T>(s: seq<T>, key: T -> int): (r: seq<T>)
    ensures SortedBy(r, key)
    ensures multiset(r) == multiset(s)
    ensures |r| == |s|
  {
    if s == [] then []
    else
      var t := SortBy(s[1..], key);
      InsertByProps(s[0], t, key);
      MultisetOfCons(s);
      InsertBy(s[0], t, key)
  }

  /** Sorting what is already sorted changes nothing. */
  lemma {:induction false} SortBySorted<T>(s: seq<T>, key: T -> int)
    requires SortedBy(s, key)
    ensures SortBy(s, key) == s
  {
    if s != [] {
      SortedTail(s, key);
      SortBySorted(s[1..], key);
      assert s[1..] == [] || key(s[0]) <= key(s[1..][0]);
      assert s == [s[0]] + s[1..];
    }
  }

  // ---------------------------------------------------------------------------
  // Insertion sort under an arbitrary comparison
  // ---------------------------------------------------------------------------

  /** No element is less than the one before it. */
  predicate OrderedBy<T>(s: seq<T>, less: (T, T) -> bool) {
    forall k :: 0 < k < |s| ==> !less(s[k], s[k - 1])
  }

  ghost predicate Asymmetric<T(!new)>(less: (T, T) -> bool) {
    forall a, b :: less(a, b) ==> !less(b, a)
  }

  /**
   * One step of insertion sort: x sinks to the left past every element it
   * is less than and stops at the first one it is not.
   */
  function Sink<T>(p: seq<T>, x: T, less: (T, T) -> bool): seq<T>
    decreases |p|
  {
    if p == [] || !less(x, p[|p| - 1]) then p + [x]
    else Sink(p[..|p| - 1], x, less) + [p[|p| - 1]]
  }

  /** Insertion sort: each element in turn sinks into the sorted prefix. */
  function InsertionSort<T>(s: seq<T>, less: (T, T) -> bool): seq<T>
    decreases |s|
  {
    if s == [] then [] else Sink(InsertionSort(s[..|s| - 1], less), s[|s| - 1], less)
  }

  lemma {:induction false} SinkPermutes<T>(p: seq<T>, x: T, less: (T, T) -> bool)
    ensures multiset(Sink(p, x, less)) == multiset(p) + multiset{x}
    ensures |Sink(p, x, less)| == |p| + 1
    decreases |p|
  {
    if p != [] && less(x, p[|p| - 1]) {
      SinkPermutes(p[..|p| - 1], x, less);
      assert p == p[..|p| - 1] + [p[|p| - 1]];
    }
  }

  lemma {:induction false} InsertionSortPermutes<T>(s: seq<T>, less: (T, T) -> bool)
    ensures multiset(InsertionSort(s, less)) == multiset(s)
    ensures |InsertionSort(s, less)| == |s|
    decreases |s|
  {
    if s != [] {
      InsertionSortPermutes(s[..|s| - 1], less);
      SinkPermutes(InsertionSort(s[..|s| - 1], less), s[|s| - 1], less);
      assert s == s[..|s| - 1] + [s[|s| - 1]];
    }
  }

  /** One more element at the end, not less than the last one, keeps a list ordered. */
  lemma OrderedSnoc<T>(t: seq<T>, y: T, less: (T, T) -> bool)
    requires OrderedBy(t, less) && (t == [] || !less(y, t[|t| - 1]))
    ensures OrderedBy(t + [y], less)
  {
    var r := t + [y];
    forall k | 0 < k < |r| ensures !less(r[k], r[k - 1]) {
      if k < |t| {
        assert r[k] == t[k] && r[k - 1] == t[k - 1];
      }
    }
  }

  /** Sinking into an ordered list keeps it ordered; its last element is x or p's last. */
  lemma {:induction false} SinkOrdered<T(!new)>(p: seq<T>, x: T, less: (T, T) -> bool)
    requires Asymmetric(less) && OrderedBy(p, less)
    ensures OrderedBy(Sink(p, x, less), less)
    ensures |Sink(p, x, less)| == |p| + 1
    ensures Sink(p, x, less)[|p|] == x || Sink(p, x, less)[|p|] == p[|p| - 1]
    decreases |p|
  {
    if p == [] || !less(x, p[|p| - 1]) {
      OrderedSnoc(p, x, less);
    } else {
      var n := |p|;
      var q := p[..n - 1];
      assert OrderedBy(q, less) by {
        forall k | 0 < k < |q| ensures !less(q[k], q[k - 1]) {
          assert q[k] == p[k] && q[k - 1] == p[k - 1];
        }
      }
      SinkOrdered(q, x, less);
      var t := Sink(q, x, less);
      assert !less(p[n - 1], t[n - 1]) by {
        if t[n - 1] != x {
          assert t[n - 1] == p[n - 2];
        }
      }
      OrderedSnoc(t, p[n - 1], less);
    }
  }

  /** Under an asymmetric comparison, insertion sort leaves no element less than the one before it. */
  lemma {:induction false} InsertionSortOrdered<T(!new)>(s: seq<T>, less: (T, T) -> bool)
    requires Asymmetric(less)
    ensures OrderedBy(InsertionSort(s, less), less)
    decreases |s|
  {
    if s != [] {
      InsertionSortOrdered(s[..|s| - 1], less);
      SinkOrdered(InsertionSort(s[..|s| - 1], less), s[|s| - 1], less);
    }
  }

  /** A list already in order is left as it is: no two elements that do not compare are swapped. */
  lemma {:induction false} InsertionSortKeepsOrdered<T>(s: seq<T>, less: (T, T) -> bool)
    requires OrderedBy(s, less)
    ensures InsertionSort(s, less) == s
    decreases |s|
  {
    if s != [] {
      var n := |s|;
      var init := s[..n - 1];
      assert OrderedBy(init, less) by {
        forall k | 0 < k < |init| ensures !less(init[k], init[k - 1]) {
          assert init[k] == s[k] && init[k - 1] == s[k - 1];
        }
      }
      InsertionSortKeepsOrdered(init, less);
      assert init == [] || !less(s[n - 1], init[|init| - 1]);
      assert s == init + [s[n - 1]];
    }
  }

  /** The swap of the inner loop of an in-place insertion sort, as Sink sees it. */
  lemma SinkStep<T>(p: seq<T>, x: T, j: nat, less: (T, T) -> bool, target: seq<T>)
    requires 0 < j <= |p| && less(x, p[j - 1])
    requires target == Sink(p[..j], x, less) + p[j..]
    ensures target == Sink(p[..j - 1], x, less) + p[j - 1..]
  {
    SinkPast(p[..j], x, less);
    assert p[..j][..j - 1] == p[..j - 1];
    assert p[j - 1..] == [p[j - 1]] + p[j..];
    Regroup(Sink(p[..j - 1], x, less), [p[j - 1]], p[j..]);
  }

  /** x moves past the last element when it is less than it. */
  lemma SinkPast<T>(q: seq<T>, x: T, less: (T, T) -> bool)
    requires q != [] && less(x, q[|q| - 1])
    ensures Sink(q, x, less) == Sink(q[..|q| - 1], x, less) + [q[|q| - 1]]
  {
  }

  /**
   * Insertion sort in place, as Go's sort.SliceStable runs it on a short
   * slice: each element is swapped leftwards while it is less than its
   * neighbour.
   */
  method InsertionSortInPlace<T>(a: array<T>, less: (T, T) -> bool)
    modifies a
    ensures a[..] == InsertionSort(old(a[..]), less)
  {
    ghost var s := a[..];
    if a.Length == 0 {
      return;
    }
    assert InsertionSort(s[..1], less) == [s[0]] by {
      assert s[..1][..0] == [];
    }
    var i := 1;
    while i < a.Length
      invariant 1 <= i <= a.Length
      invariant a[..i] == InsertionSort(s[..i], less)
      invariant a[i..] == s[i..]
    {
      assert s[..i + 1] == s[..i] + [s[i]];
      assert a[i] == s[i] && a[i + 1..] == s[i + 1..] by {
        assert a[i..][1..] == a[i + 1..];
      }
      SinkInPlace(a, i, less);
      assert a[..i + 1] == InsertionSort(s[..i + 1], less);
      i := i + 1;
    }
    assert a[..] == a[..i];
    assert s[..i] == s;
  }

  /** The inner loop of InsertionSortInPlace: a[i] sinks into the sorted a[..i]. */
  method SinkInPlace<T>(a: array<T>, i: nat, less: (T, T) -> bool)
    requires i < a.Length
    modifies a
    ensures a[..] == Sink(old(a[..i]), old(a[i]), less) + old(a[i + 1..])
  {
    ghost var p := a[..i];
    ghost var x := a[i];
    ghost var rest := a[i + 1..];
    ghost var target := Sink(p, x, less);
    assert p[..i] == p && p[i..] == [];
    assert a[..] == p[..i] + [x] + p[i..] + rest;
    assert target == Sink(p[..i], x, less) + p[i..];
    var j := i;
    while j > 0 && less(a[j], a[j - 1])
      invariant 0 <= j <= i
      invariant a[..] == p[..j] + [x] + p[j..] + rest
      invariant target == Sink(p[..j], x, less) + p[j..]
      decreases j
    {
      assert a[j] == a[..][j] == x;
      assert a[j - 1] == a[..][j - 1] == p[j - 1];
      SinkStep(p, x, j, less, target);
      SwapStep(p, x, rest, j);
      ghost var u := a[..];
      a[j], a[j - 1] := a[j - 1], a[j];
      assert a[..] == u[j := u[j - 1]][j - 1 := u[j]];
      j := j - 1;
    }
    SinkInserted(p, x, j, less, target);
    assert a[..] == target + rest;
  }

  /** Swapping x with its left neighbour moves it one place to the left. */
  lemma SwapStep<T>(p: seq<T>, x: T, rest: seq<T>, j: nat)
    requires 0 < j <= |p|
    ensures var u := p[..j] + [x] + p[j..] + rest;
            u[j := u[j - 1]][j - 1 := u[j]] == p[..j - 1] + [x] + p[j - 1..] + rest
  {
    var u := p[..j] + [x] + p[j..] + rest;
    var v := p[..j - 1] + [x] + p[j - 1..] + rest;
    assert |u| == |v|;
    forall k | 0 <= k < |u| ensures u[j := u[j - 1]][j - 1 := u[j]][k] == v[k] {
      if k < j - 1 {
        assert u[k] == p[k] && v[k] == p[k];
      } else if k > j {
        assert u[k] == v[k];
      }
    }
  }

  /** Where the inner loop of InsertionSortInPlace stops, x is in its place. */
  lemma SinkInserted<T>(p: seq<T>, x: T, j: nat, less: (T, T) -> bool, target: seq<T>)
    requires j <= |p| && (j == 0 || !less(x, p[j - 1]))
    requires target == Sink(p[..j], x, less) + p[j..]
    ensures target == p[..j] + [x] + p[j..]
  {
    assert j == 0 || p[..j][j - 1] == p[j - 1];
  }

  // ------------------------------------------------------ numbered output

  /** The items of a list written one after the other, numbered from 1. */
  function Numbered<T>(ls: seq<T>, item: (nat, T) -> string): string
    decreases |ls|
  {
    if ls == [] then "" else Numbered(ls[..|ls| - 1], item) + item(|ls|, ls[|ls| - 1])
  }

  /** The builder loop writing a numbered list. */
  method NumberedOf<T>(ls: seq<T>, item: (nat, T) -> string) returns (r: string)
    ensures r == Numbered(ls, item)
  {
    r := "";
    var i := 0;
    while i < |ls|
      invariant 0 <= i <= |ls|
      invariant r == Numbered(ls[..i], item)
    {
      assert ls[..i + 1][..i] == ls[..i];
      r := r + item(i + 1, ls[i]);
      i := i + 1;
    }
    assert ls[..i] == ls;
  }

  // ------------------------------------------------------------- grouping

  /** The list kept under a key, empty when the key is missing. */
  function Bucket<K, T>(m: map<K, seq<T>>, k: K): seq<T> {
    if k in m then m[k] else []
  }

  /** Whether an element's key is k. */
  function KeyIs<T, K(==)>(key: T -> Option<K>, k: K): T -> bool {
    x => key(x) == Some(k)
  }

  /** One element more: it joins the list of its key, if it has one. */
  function GroupAdd<K, T>(m: map<K, seq<T>>, x: T, key: T -> Option<K>): map<K, seq<T>> {
    match key(x)
    case Some(k) => m[k := Bucket(m, k) + [x]]
    case None => m
  }

  /** m groups the prefix by key: each key's elements, in their order. */
  ghost predicate GroupedBy<K(!new), T(!new)>(m: map<K, seq<T>>, prefix: seq<T>, key: T -> Option<K>) {
    forall k: K :: Bucket(m, k) == Filter(prefix, KeyIs(key, k))
  }

  lemma GroupStep<K(!new), T(!new)>(m: map<K, seq<T>>, prefix: seq<T>, x: T, key: T -> Option<K>)
    requires GroupedBy(m, prefix, key)
    ensures GroupedBy(GroupAdd(m, x, key), prefix + [x], key)
  {
    forall k: K ensures Bucket(GroupAdd(m, x, key), k) == Filter(prefix + [x], KeyIs(key, k)) {
      FilterSnoc(prefix, x, KeyIs(key, k));
      assert KeyIs(key, k)(x) == (key(x) == Some(k));
    }
  }

  /** The loop keeping the elements whose key is k, in their order. */
  method FilterByKey<T(!new), K(==)>(s: seq<T>, key: T -> Option<K>, k: K) returns (out: seq<T>)
    ensures out == Filter(s, KeyIs(key, k))
  {
    out := [];
    var i := 0;
    while i < |s|
      invariant 0 <= i <= |s|
      invariant out == Filter(s[..i], KeyIs(key, k))
    {
      var x := s[i];
      assert s[..i + 1] == s[..i] + [x];
      FilterSnoc(s[..i], x, KeyIs(key, k));
      var kx := key(x);
      if kx.Some? && kx.value == k {
        out := out + [x];
      }
      i := i + 1;
    }
    assert s[..i] == s;
  }

  // -------------------------------------------------------------- mapping

  /** The image of every element, in order. */
  function MapSeq<A, B>(s: seq<A>, f: A -> B): (r: seq<B>)
    ensures |r| == |s|
    ensures forall i :: 0 <= i < |s| ==> r[i] == f(s[i])
    decreases |s|
  {
    if s == [] then [] else MapSeq(s[..|s| - 1], f) + [f(s[|s| - 1])]
  }

  /** The loop appending the image of every element. */
  method MapOf<A, B>(s: seq<A>, f: A -> B) returns (r: seq<B>)
    ensures r == MapSeq(s, f)
  {
    r := [];
    var i := 0;
    while i < |s|
      invariant 0 <= i <= |s|
      invariant r == MapSeq(s[..i], f)
    {
      assert s[..i + 1][..i] == s[..i];
      r := r + [f(s[i])];
      i := i + 1;
    }
    assert s[..i] == s;
  }

  /** The items of a list as lines, numbered from 1. */
  function NumberedLines<T>(ls: seq<T>, item: (nat, T) -> string): (r: seq<string>)
    ensures |r| == |ls|
    ensures forall k :: 0 <= k < |ls| ==> r[k] == item(k + 1, ls[k])
    decreases |ls|
  {
    if ls == [] then [] else NumberedLines(ls[..|ls| - 1], item) + [item(|ls|, ls[|ls| - 1])]
  }

  /** One numbered line more: the separator and the line go after the text so far. */
  lemma JoinNumberedStep<T>(ls: seq<T>, item: (nat, T) -> string, sep: string, i: nat)
    requires 0 < i < |ls|
    ensures Join(NumberedLines(ls[..i + 1], item), sep) == Join(NumberedLines(ls[..i], item), sep) + sep + item(i + 1, ls[i])
  {
    assert ls[..i + 1] == ls[..i] + [ls[i]];
    assert ls[..i + 1][..i] == ls[..i];
    JoinSnoc(NumberedLines(ls[..i], item), item(i + 1, ls[i]), sep);
  }

  /** The first numbered line alone. */
  lemma JoinNumberedFirst<T>(ls: seq<T>, item: (nat, T) -> string, sep: string)
    requires 0 < |ls|
    ensures Join(NumberedLines(ls[..1], item), sep) == item(1, ls[0])
  {
    assert ls[..1][..0] == [];
  }

  /** The builder loop writing numbered lines with a separator between them and none after the last. */
  method JoinNumbered<T>(ls: seq<T>, item: (nat, T) -> string, sep: string) returns (b: string)
    ensures b == Join(NumberedLines(ls, item), sep)
  {
    b := "";
    var i := 0;
    while i < |ls|
      invariant 0 <= i <= |ls|
      invariant i == 0 ==> b == ""
      invariant 0 < i < |ls| ==> b == Join(NumberedLines(ls[..i], item), sep) + sep
      invariant 0 < i == |ls| ==> b == Join(NumberedLines(ls[..i], item), sep)
    {
      var line := item(i + 1, ls[i]);
      if i == 0 {
        JoinNumberedFirst(ls, item, sep);
      } else {
        JoinNumberedStep(ls, item, sep, i);
      }
      b := b + line;
      if i < |ls| - 1 {
        b := b + sep;
      }
      i := i + 1;
    }
    if |ls| == 0 {
      assert NumberedLines(ls, item) == [];
    } else {
      assert ls[..i] == ls;
    }
  }

  // ------------------------------------------------------------ searching

  /** The first element satisfying p is the one at i when none before it does. */
  lemma {:induction false} FirstWhereAt<T>(s: seq<T>, p: T -> bool, i: nat)
    requires i < |s| && p(s[i]) && forall j :: 0 <= j < i ==> !p(s[j])
    ensures FirstWhere(s, p) == Some(s[i])
    decreases i
  {
    if i > 0 {
      assert !p(s[0]);
      assert forall j :: 0 <= j < i - 1 ==> s[1..][j] == s[j + 1];
      FirstWhereAt(s[1..], p, i - 1);
    }
  }

  /** The loop returning the first element satisfying p. */
  method FirstWhereOf<T>(s: seq<T>, p: T -> bool) returns (r: Option<T>)
    ensures r == FirstWhere(s, p)
  {
    var i := 0;
    while i < |s|
      invariant 0 <= i <= |s|
      invariant forall j :: 0 <= j < i ==> !p(s[j])
    {
      if p(s[i]) {
        FirstWhereAt(s, p, i);
        return Some(s[i]);
      }
      i := i + 1;
    }
    return None;
  }

  // --------------------------------------------------------- string order

  /** Go's string comparison: character by character, a proper prefix first. */
  predicate StrLess(a: string, b: string)
    decreases |a|
  {
    if a == [] then b != []
    else if b == [] then false
    else if a[0] != b[0] then a[0] < b[0]
    else StrLess(a[1..], b[1..])
  }

  lemma {:induction false} StrLessIrreflexive(a: string)
    ensures !StrLess(a, a)
    decreases |a|
  {
    if a != [] {
      StrLessIrreflexive(a[1..]);
    }
  }

  lemma {:induction false} StrLessTransitive(a: string, b: string, c: string)
    requires StrLess(a, b) && StrLess(b, c)
    ensures StrLess(a, c)
    decreases |a|
  {
    if a != [] && a[0] == b[0] && b[0] == c[0] {
      StrLessTransitive(a[1..], b[1..], c[1..]);
    }
  }

  lemma {:induction false} StrLessTotal(a: string, b: string)
    requires a != b
    ensures StrLess(a, b) || StrLess(b, a)
    decreases |a|
  {
    if a != [] && b != [] && a[0] == b[0] {
      assert a == [a[0]] + a[1..] && b == [b[0]] + b[1..];
      StrLessTotal(a[1..], b[1..]);
    }
  }

  lemma StrLessAsymmetric()
    ensures Asymmetric(StrLess)
  {
    forall a, b | StrLess(a, b) ensures !StrLess(b, a) {
      if StrLess(b, a) {
        StrLessTransitive(a, b, a);
        StrLessIrreflexive(a);
      }
    }
  }

  /** In an ordered list of strings without repeats, each string is less than every later one. */
  lemma {:induction false} OrderedIncreasing(s: seq<string>, i: nat, j: nat)
    requires OrderedBy(s, StrLess) && Distinct(s) && i < j < |s|
    ensures StrLess(s[i], s[j])
    decreases j - i
  {
    assert s[j] != s[j - 1];
    assert !StrLess(s[j], s[j - 1]);
    StrLessTotal(s[j - 1], s[j]);
    if i < j - 1 {
      OrderedIncreasing(s, i, j - 1);
      StrLessTransitive(s[i], s[j - 1], s[j]);
    }
  }

  lemma OrderedTail<T>(s: seq<T>, less: (T, T) -> bool)
    requires s != [] && OrderedBy(s, less)
    ensures OrderedBy(s[1..], less)
  {
    forall k | 0 < k < |s[1..]| ensures !less(s[1..][k], s[1..][k - 1]) {
      assert s[1..][k] == s[k + 1] && s[1..][k - 1] == s[k];
    }
  }

  lemma DistinctTail<T>(s: seq<T>)
    requires s != [] && Distinct(s)
    ensures Distinct(s[1..])
  {
    forall a, b | 0 <= a < b < |s[1..]| ensures s[1..][a] != s[1..][b] {
      assert s[1..][a] == s[a + 1] && s[1..][b] == s[b + 1];
    }
  }

  /** Two ordered permutations of a list of strings without repeats start with the same string. */
  lemma SortedHeads(s: seq<string>, t: seq<string>)
    requires OrderedBy(s, StrLess) && OrderedBy(t, StrLess) && Distinct(s) && Distinct(t)
    requires s != [] && t != [] && (forall x :: x in s <==> x in t)
    ensures s[0] == t[0]
  {
    if s[0] != t[0] {
      assert t[0] in s;
      var i :| 0 <= i < |s| && s[i] == t[0];
      OrderedIncreasing(s, 0, i);
      assert s[0] in t;
      var j :| 0 <= j < |t| && t[j] == s[0];
      OrderedIncreasing(t, 0, j);
      StrLessTransitive(s[0], t[0], s[0]);
      StrLessIrreflexive(s[0]);
    }
  }

  /** Two ordered permutations of a list of strings without repeats agree. */
  lemma {:induction false} SortedUnique(s: seq<string>, t: seq<string>)
    requires OrderedBy(s, StrLess) && OrderedBy(t, StrLess)
    requires Distinct(s) && multiset(s) == multiset(t)
    ensures s == t
    decreases |s|
  {
    assert |t| == |multiset(t)| == |multiset(s)| == |s|;
    if s != [] {
      SortedUniqueStep(s, t);
      SortedUnique(s[1..], t[1..]);
      assert s == [s[0]] + s[1..] && t == [t[0]] + t[1..];
    }
  }

  /** The step of SortedUnique: equal heads, and tails that meet its requirements again. */
  lemma SortedUniqueStep(s: seq<string>, t: seq<string>)
    requires OrderedBy(s, StrLess) && OrderedBy(t, StrLess)
    requires Distinct(s) && multiset(s) == multiset(t) && s != [] && t != []
    ensures s[0] == t[0]
    ensures OrderedBy(s[1..], StrLess) && OrderedBy(t[1..], StrLess)
    ensures Distinct(s[1..]) && multiset(s[1..]) == multiset(t[1..])
  {
    DistinctPermutation(s, t);
    SameMembers(s, t);
    SortedHeads(s, t);
    MultisetOfCons(s);
    MultisetOfCons(t);
    OrderedTail(s, StrLess);
    OrderedTail(t, StrLess);
    DistinctTail(s);
    assert multiset(s[1..]) == multiset(s) - multiset{s[0]};
    assert multiset(t[1..]) == multiset(t) - multiset{t[0]};
  }

  /** Sorting a list of strings without repeats gives the same list whatever order it started in. */
  lemma SortIndependentOfOrder(a: seq<string>, b: seq<string>)
    requires Distinct(a) && multiset(a) == multiset(b)
    ensures InsertionSort(a, StrLess) == InsertionSort(b, StrLess)
  {
    StrLessAsymmetric();
    InsertionSortPermutes(a, StrLess);
    InsertionSortPermutes(b, StrLess);
    InsertionSortOrdered(a, StrLess);
    InsertionSortOrdered(b, StrLess);
    DistinctPermutation(a, InsertionSort(a, StrLess));
    SortedUnique(InsertionSort(a, StrLess), InsertionSort(b, StrLess));
  }

  /** Two lists without repeats and with the same members are permutations of each other. */
  lemma DistinctSameElements<T>(a: seq<T>, b: seq<T>)
    requires Distinct(a) && Distinct(b) && forall x :: x in a <==> x in b
    ensures multiset(a) == multiset(b)
  {
    forall x ensures multiset(a)[x] == multiset(b)[x] {
      DistinctCount(a, x);
      DistinctCount(b, x);
      assert x in a <==> x in multiset(a);
      assert x in b <==> x in multiset(b);
    }
  }

  /** Trimming keeps a prefix that neither starts nor ends with whitespace. */
  lemma TrimKeepsPrefix(p: string, rest: string, ws: Ws)
    requires |p| > 0 && !IsSpace(ws, p[0]) && !IsSpace(ws, p[|p| - 1])
    ensures StartsWith(TrimWith(p + rest, ws), p)
  {
    var s := p + rest;
    TrimLeftOfTrimmed(s, ws);
    TrimRightSpec(s, ws);
    var r := TrimRight(s, ws);
    assert s[|p| - 1] == p[|p| - 1];
    assert |r| >= |p|;
    assert r[..|p|] == s[..|p|];
    assert s[..|p|] == p;
  }

  /** A concatenation starts with its first part and ends with its second. */
  lemma ConcatAffixes(a: string, b: string)
    ensures StartsWith(a + b, a) && EndsWith(a + b, b)
  {
    assert (a + b)[..|a|] == a;
    assert (a + b)[|a + b| - |b|..] == b;
  }
}
