/**
 * Character classes and string helpers that the parsers get from Python's
 * `str` and `re` modules.  Only the Latin and Russian alphabets are given
 * case mappings and word-character status; integers are ASCII digit strings.
 */
module Text {

  /** Python's `str.isspace()`, which is also what `\s` matches in a `str` pattern. */
  predicate IsSpace(c: char) {
    || c == ' '
    || ('\t' <= c <= '\r')
    || ('\U{1C}' <= c <= '\U{1F}')
    || c == '\U{85}' || c == '\U{A0}' || c == '\U{1680}'
    || ('\U{2000}' <= c <= '\U{200A}')
    || c == '\U{2028}' || c == '\U{2029}' || c == '\U{202F}' || c == '\U{205F}' || c == '\U{3000}'
  }

  /** `str.isspace()` on a whole string: not empty, and whitespace only. */
  predicate IsBlank(s: string) {
    |s| > 0 && forall i :: 0 <= i < |s| ==> IsSpace(s[i])
  }

  predicate IsDigit(c: char) {
    '0' <= c <= '9'
  }

  /** The regex class `[А-Я]` (U+0410 to U+042F; it leaves out `Ё`). */
  predicate IsUpperRu(c: char) {
    'А' <= c <= 'Я'
  }

  /** `\w`: digits, `_`, and the letters of the Latin and Russian alphabets. */
  predicate IsWordChar(c: char) {
    || IsDigit(c) || c == '_'
    || ('a' <= c <= 'z') || ('A' <= c <= 'Z')
    || ('А' <= c <= 'я') || c == 'Ё' || c == 'ё'
  }

  /** `str.lower()` on one character. */
  function Lower(c: char): char {
    if 'A' <= c <= 'Z' || 'А' <= c <= 'Я' then (c as int + 32) as char
    else if c == 'Ё' then 'ё'
    else c
  }

  /** `str.upper()` on one character. */
  function Upper(c: char): char {
    if 'a' <= c <= 'z' || 'а' <= c <= 'я' then (c as int - 32) as char
    else if c == 'ё' then 'Ё'
    else c
  }

  function LowerAll(s: string): (r: string)
    ensures |r| == |s| && forall i :: 0 <= i < |s| ==> r[i] == Lower(s[i])
  {
    seq(|s|, i requires 0 <= i < |s| => Lower(s[i]))
  }

  function UpperAll(s: string): (r: string)
    ensures |r| == |s| && forall i :: 0 <= i < |s| ==> r[i] == Upper(s[i])
  {
    seq(|s|, i requires 0 <= i < |s| => Upper(s[i]))
  }

  /** Upper-casing forgets the case the text was written in. */
  lemma UpperOfLower(c: char)
    ensures Upper(Lower(c)) == Upper(c)
  {
  }

  /** `str.capitalize()`: the first character upper-cased, the others lower-cased. */
  function Capitalize(s: string): (r: string)
    ensures |r| == |s|
    ensures |s| > 0 ==> r[0] == Upper(s[0])
    ensures forall i :: 0 < i < |s| ==> r[i] == Lower(s[i])
  {
    if s == [] then [] else [Upper(s[0])] + LowerAll(s[1..])
  }

  /** Lower-casing forgets the case the character was written in. */
  lemma LowerOfCase(c: char)
    ensures Lower(Upper(c)) == Lower(c) && Lower(Lower(c)) == Lower(c)
  {
  }

  lemma UpperOfUpper(c: char)
    ensures Upper(Upper(c)) == Upper(c)
  {
  }

  /** Capitalizing forgets the case the text was written in. */
  lemma CapitalizeIgnoresCase(s: string)
    ensures Capitalize(LowerAll(s)) == Capitalize(s)
    ensures Capitalize(UpperAll(s)) == Capitalize(s)
    ensures Capitalize(Capitalize(s)) == Capitalize(s)
  {
    if s != [] {
      var c, l, u := Capitalize(s), Capitalize(LowerAll(s)), Capitalize(UpperAll(s));
      var cc := Capitalize(c);
      UpperOfLower(s[0]);
      UpperOfUpper(s[0]);
      forall i | 0 < i < |s|
        ensures l[i] == c[i] && u[i] == c[i] && cc[i] == c[i]
      {
        LowerOfCase(s[i]);
      }
    }
  }

  function Filter<T>(s: seq<T>, p: T -> bool): (r: seq<T>)
    ensures |r| <= |s|
    ensures forall i :: 0 <= i < |r| ==> p(r[i])
  {
    if s == [] then []
    else if p(s[0]) then [s[0]] + Filter(s[1..], p)
    else Filter(s[1..], p)
  }

  lemma {:induction false} FilterAppend<T>(s: seq<T>, t: seq<T>, p: T -> bool)
    ensures Filter(s + t, p) == Filter(s, p) + Filter(t, p)
  {
    if s == [] {
      assert s + t == t;
    } else {
      assert (s + t)[1..] == s[1..] + t;
      FilterAppend(s[1..], t, p);
    }
  }

  /** Every element is kept exactly when nothing fails the filter. */
  lemma {:induction false} FilterAll<T>(s: seq<T>, p: T -> bool)
    requires forall i :: 0 <= i < |s| ==> p(s[i])
    ensures Filter(s, p) == s
  {
    if s != [] {
      FilterAll(s[1..], p);
    }
  }

  /** A filter keeps nothing exactly when no element passes it. */
  lemma {:induction false} FilterEmpty<T>(s: seq<T>, p: T -> bool)
    ensures Filter(s, p) == [] <==> forall i :: 0 <= i < |s| ==> !p(s[i])
  {
    if s != [] && !p(s[0]) {
      FilterEmpty(s[1..], p);
      assert forall i :: 1 <= i < |s| ==> s[i] == s[1..][i - 1];
    }
  }

  lemma {:induction false} FilterNone<T>(s: seq<T>, p: T -> bool)
    requires forall i :: 0 <= i < |s| ==> !p(s[i])
    ensures Filter(s, p) == []
  {
    if s != [] {
      FilterNone(s[1..], p);
    }
  }

  /** Concatenation is associative (stated once, on opaque elements). */
  lemma ConcatAssoc<T>(a: seq<T>, b: seq<T>, c: seq<T>)
    ensures a + (b + c) == (a + b) + c
  {
  }

  lemma ConcatEmpty<T>(a: seq<T>)
    ensures a + [] == a
  {
  }

  /** A prefix one element longer. */
  lemma TakeSnoc<T>(a: seq<T>, k: nat)
    requires k < |a|
    ensures a[..k + 1] == a[..k] + [a[k]]
  {
  }

  /** `c * n` in Python: `n` copies of the character `c`. */
  function Repeat(c: char, n: nat): (s: string)
    ensures |s| == n && forall i :: 0 <= i < n ==> s[i] == c
  {
    seq(n, i => c)
  }

  function Map<T, U>(s: seq<T>, f: T -> U): (r: seq<U>)
    ensures |r| == |s| && forall i :: 0 <= i < |s| ==> r[i] == f(s[i])
  {
    seq(|s|, i requires 0 <= i < |s| => f(s[i]))
  }

  /** Length of the longest prefix of `s` whose characters all satisfy `keep`. */
  function RunLength(s: string, keep: char -> bool): (n: nat)
    ensures n <= |s|
    ensures forall i :: 0 <= i < n ==> keep(s[i])
    ensures n < |s| ==> !keep(s[n])
  {
    if s == [] || !keep(s[0]) then 0 else 1 + RunLength(s[1..], keep)
  }

  /** The maximal runs of characters that satisfy `keep`, in order. */
  function Runs(s: string, keep: char -> bool): (r: seq<string>)
    ensures forall k :: 0 <= k < |r| ==> r[k] != []
    ensures forall k, i :: 0 <= k < |r| && 0 <= i < |r[k]| ==> keep(r[k][i])
    decreases |s|
  {
    if s == [] then []
    else if !keep(s[0]) then Runs(s[1..], keep)
    else
      var n := RunLength(s, keep);
      [s[..n]] + Runs(s[n..], keep)
  }

  predicate NotSpace(c: char) {
    !IsSpace(c)
  }

  /** `str.split()` with no separator: the maximal runs of non-whitespace. */
  function Split(s: string): seq<string> {
    Runs(s, NotSpace)
  }

  /**
   * `re.sub('\\W+', ' ', s).strip().split()`: a word character is never
   * whitespace, so the tokens are the maximal runs of word characters.
   */
  function Words(s: string): (r: seq<string>)
    ensures forall k :: 0 <= k < |r| ==> r[k] != []
    ensures forall k, i :: 0 <= k < |r| && 0 <= i < |r[k]| ==> IsWordChar(r[k][i])
  {
    Runs(s, IsWordChar)
  }

  /** A string with no word character splits into no tokens, and only such a string does. */
  lemma {:induction false} WordsEmpty(s: string)
    ensures Words(s) == [] <==> forall i :: 0 <= i < |s| ==> !IsWordChar(s[i])
    decreases |s|
  {
    if s != [] {
      if !IsWordChar(s[0]) {
        WordsEmpty(s[1..]);
        assert forall i :: 1 <= i < |s| ==> s[i] == s[1..][i - 1];
      }
    }
  }

  /** `sep.join(ws)`. */
  function Join(sep: string, ws: seq<string>): string {
    if ws == [] then ""
    else if |ws| == 1 then ws[0]
    else ws[0] + sep + Join(sep, ws[1..])
  }

  /** `str.startswith`. */
  predicate StartsWith(s: string, prefix: string) {
    |prefix| <= |s| && s[..|prefix|] == prefix
  }

  /** What `str.split()` can return as one piece: non-empty, no whitespace. */
  predicate IsToken(w: string) {
    w != [] && forall i :: 0 <= i < |w| ==> !IsSpace(w[i])
  }

  lemma {:induction false} RunLengthOf(w: string, t: string, keep: char -> bool)
    requires forall i :: 0 <= i < |w| ==> keep(w[i])
    requires t == [] || !keep(t[0])
    ensures RunLength(w + t, keep) == |w|
    decreases |w|
  {
    if w == [] {
      assert w + t == t;
    } else {
      RunLengthOf(w[1..], t, keep);
      assert (w + t)[1..] == w[1..] + t;
    }
  }

  lemma RunsToken(w: string, t: string)
    requires IsToken(w) && (t == [] || IsSpace(t[0]))
    ensures Runs(w + t, NotSpace) == [w] + Runs(t, NotSpace)
  {
    RunLengthOf(w, t, NotSpace);
    var s := w + t;
    assert s[0] == w[0];
    assert s[..|w|] == w && s[|w|..] == t;
  }

  /** Splitting what was joined with single spaces gives the pieces back. */
  lemma {:induction false} SplitJoin(ws: seq<string>)
    requires forall k :: 0 <= k < |ws| ==> IsToken(ws[k])
    ensures Split(Join(" ", ws)) == ws
    decreases |ws|
  {
    if |ws| == 1 {
      RunsToken(ws[0], []);
      assert ws[0] + [] == ws[0];
    } else if |ws| > 1 {
      var j := Join(" ", ws[1..]);
      assert Join(" ", ws) == ws[0] + (" " + j);
      RunsToken(ws[0], " " + j);
      assert (" " + j)[1..] == j;
      SplitJoin(ws[1..]);
    }
  }

  /** Joining tokens gives a text that neither starts nor ends with whitespace. */
  lemma {:induction false} JoinEnds(ws: seq<string>)
    requires ws != [] && forall k :: 0 <= k < |ws| ==> IsToken(ws[k])
    ensures var j := Join(" ", ws); j != [] && !IsSpace(j[0]) && !IsSpace(j[|j| - 1])
    decreases |ws|
  {
    if |ws| > 1 {
      JoinEnds(ws[1..]);
      var j := Join(" ", ws[1..]);
      assert Join(" ", ws) == ws[0] + (" " + j);
    }
  }

  /** `int(s)` succeeds (in this model: a non-empty ASCII digit string). */
  predicate IsInt(s: string) {
    |s| > 0 && AllDigits(s)
  }

  predicate AllDigits(s: string) {
    forall i :: 0 <= i < |s| ==> IsDigit(s[i])
  }

  function DigitValue(c: char): (d: nat)
    requires IsDigit(c)
    ensures d < 10
  {
    c as int - '0' as int
  }

  function DigitChar(d: nat): (c: char)
    requires d < 10
    ensures IsDigit(c) && DigitValue(c) == d
  {
    ('0' as int + d) as char
  }

  /** The decimal value of a digit string (`int(s)`). */
  function DigitsValue(s: string): nat
    requires AllDigits(s)
  {
    if s == [] then 0 else DigitsValue(s[..|s| - 1]) * 10 + DigitValue(s[|s| - 1])
  }

  /** `str(n)` for a non-negative integer. */
  function NatToString(n: nat): (s: string)
    ensures IsInt(s)
    decreases n
  {
    if n < 10 then [DigitChar(n)] else NatToString(n / 10) + [DigitChar(n % 10)]
  }

  /** `str(n)` for any integer. */
  function IntToString(n: int): string {
    if n < 0 then "-" + NatToString(-n) else NatToString(n)
  }

  /** Reading back what `str` wrote gives the number: `int(str(n)) == n`. */
  lemma {:induction false} NatToStringRoundTrip(n: nat)
    ensures DigitsValue(NatToString(n)) == n
    decreases n
  {
    if n >= 10 {
      NatToStringRoundTrip(n / 10);
      var s := NatToString(n);
      assert s[..|s| - 1] == NatToString(n / 10);
    }
  }

  /** `re.sub('\\s+', ' ', s)`: every maximal run of whitespace becomes one space. */
  function CollapseSpaces(s: string): (r: string)
    decreases |s|
  {
    if s == [] then []
    else if IsSpace(s[0]) then
      var n := RunLength(s, IsSpace);
      [' '] + CollapseSpaces(s[n..])
    else [s[0]] + CollapseSpaces(s[1..])
  }

  /** `str.strip()`. */
  function Strip(s: string): string {
    StripEnd(StripStart(s))
  }

  function StripStart(s: string): string {
    if s != [] && IsSpace(s[0]) then StripStart(s[1..]) else s
  }

  function StripEnd(s: string): string {
    if s != [] && IsSpace(s[|s| - 1]) then StripEnd(s[..|s| - 1]) else s
  }
}
