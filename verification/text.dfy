/** The subset of Python's `str` operations the summarize step relies on:
    whitespace and digit classes, stripping, splitting, prefix and substring
    tests, and decimal integer parsing as `int()` does it. */
module Text {
  import opened Wrappers

  /** Python's `str.isspace`: the ASCII whitespace and separator controls
      plus the Unicode space characters. */
  predicate IsSpace(c: char) {
    || c == ' '
    || '\t' <= c <= '\r'
    || '\U{1C}' <= c <= '\U{1F}'
    || c == '\U{85}' || c == '\U{A0}' || c == '\U{1680}'
    || '\U{2000}' <= c <= '\U{200A}'
    || c == '\U{2028}' || c == '\U{2029}' || c == '\U{202F}'
    || c == '\U{205F}' || c == '\U{3000}'
  }

  predicate IsDigit(c: char) {
    '0' <= c <= '9'
  }

  /** Python's `str.isdigit` over ASCII digits: true of a non-empty run of digits. */
  predicate IsDigits(s: string) {
    |s| > 0 && forall i :: 0 <= i < |s| ==> IsDigit(s[i])
  }

  /** The value of a decimal digit; other characters count as 0. */
  function DigitValue(c: char): (d: nat)
    ensures d < 10
  {
    if IsDigit(c) then (c as int) - ('0' as int) else 0
  }

  function DigitChar(d: nat): (c: char)
    requires d < 10
    ensures IsDigit(c) && DigitValue(c) == d
  {
    ((('0' as int) + d) as char)
  }

  /** The decimal value of the first `n` characters of a run of digits. */
  function PrefixValue(s: string, n: nat): nat
    requires n <= |s|
  {
    if n == 0 then 0 else 10 * PrefixValue(s, n - 1) + DigitValue(s[n - 1])
  }

  /** The decimal value of a run of digits, most significant digit first
      (`int(s)` when `s.isdigit()`). */
  function DigitsValue(s: string): nat {
    PrefixValue(s, |s|)
  }

  /** Characters after the first `n` do not change the value of the prefix. */
  lemma {:induction false} PrefixValueOfConcat(a: string, b: string, n: nat)
    requires n <= |a|
    ensures PrefixValue(a + b, n) == PrefixValue(a, n)
  {
    if n > 0 {
      PrefixValueOfConcat(a, b, n - 1);
    }
  }

  /** The shortest decimal rendering of `n`. */
  function ShowNat(n: nat): (s: string)
    ensures IsDigits(s)
  {
    if n < 10 then [DigitChar(n)] else ShowNat(n / 10) + [DigitChar(n % 10)]
  }

  /** Reading back a rendered number gives the number. */
  lemma {:induction false} DigitsValueShowNat(n: nat)
    ensures DigitsValue(ShowNat(n)) == n
  {
    if n >= 10 {
      var a := ShowNat(n / 10);
      DigitsValueShowNat(n / 10);
      var s := ShowNat(n);
      PrefixValueOfConcat(a, [DigitChar(n % 10)], |a|);
      assert s[|s| - 1] == DigitChar(n % 10);
      assert PrefixValue(s, |s|) == 10 * PrefixValue(s, |a|) + n % 10;
    } else {
      assert PrefixValue(ShowNat(n), 1) == 10 * PrefixValue(ShowNat(n), 0) + n;
    }
  }

  // ---------------------------------------------------------------- stripping

  /** The index of the first character at or after `i` that `drop` keeps. */
  function SkipFrom(s: string, drop: char -> bool, i: nat): (j: nat)
    requires i <= |s|
    ensures i <= j <= |s|
    decreases |s| - i
  {
    if i < |s| && drop(s[i]) then SkipFrom(s, drop, i + 1) else i
  }

  /** The end of `s[lo..j]` once its trailing `drop` characters are removed. */
  function EndBefore(s: string, drop: char -> bool, lo: nat, j: nat): (k: nat)
    requires lo <= j <= |s|
    ensures lo <= k <= j
    decreases j - lo
  {
    if lo < j && drop(s[j - 1]) then EndBefore(s, drop, lo, j - 1) else j
  }

  /** `s` without its leading and trailing `drop` characters. */
  function StripBy(s: string, drop: char -> bool): string {
    var i := SkipFrom(s, drop, 0);
    s[i..EndBefore(s, drop, i, |s|)]
  }

  /** `s` without its trailing `drop` characters (Python's `rstrip`). */
  function RStripBy(s: string, drop: char -> bool): string {
    s[..EndBefore(s, drop, 0, |s|)]
  }

  /** Python's `str.strip()`. */
  function Strip(s: string): string {
    StripBy(s, IsSpace)
  }

  /** Python's `str.strip(chars)` with the characters given as a set. */
  function StripChars(s: string, chars: set<char>): string {
    StripBy(s, c => c in chars)
  }

  lemma {:induction false} SkipFromSkipsRun(s: string, drop: char -> bool, i: nat)
    requires i <= |s|
    ensures var j := SkipFrom(s, drop, i);
      && (j == |s| || !drop(s[j]))
      && forall k :: i <= k < j ==> drop(s[k])
    decreases |s| - i
  {
    if i < |s| && drop(s[i]) {
      SkipFromSkipsRun(s, drop, i + 1);
    }
  }

  lemma {:induction false} EndBeforeSkipsRun(s: string, drop: char -> bool, lo: nat, j: nat)
    requires lo <= j <= |s|
    ensures var k := EndBefore(s, drop, lo, j);
      && (k == lo || !drop(s[k - 1]))
      && forall m :: k <= m < j ==> drop(s[m])
    decreases j - lo
  {
    if lo < j && drop(s[j - 1]) {
      EndBeforeSkipsRun(s, drop, lo, j - 1);
    }
  }

  /** Stripping removes exactly the leading and the trailing run of dropped
      characters: what remains is a slice of `s` that neither starts nor ends
      with one. */
  lemma StripByRemovesRuns(s: string, drop: char -> bool)
    ensures var i := SkipFrom(s, drop, 0);
      var j := EndBefore(s, drop, i, |s|);
      && StripBy(s, drop) == s[i..j]
      && (forall k :: 0 <= k < i ==> drop(s[k]))
      && (forall k :: j <= k < |s| ==> drop(s[k]))
      && (i < j ==> !drop(s[i]) && !drop(s[j - 1]))
  {
    SkipFromSkipsRun(s, drop, 0);
    EndBeforeSkipsRun(s, drop, SkipFrom(s, drop, 0), |s|);
  }

  /** A string without whitespace is its own strip. */
  lemma StripUnspaced(s: string)
    requires forall i :: 0 <= i < |s| ==> !IsSpace(s[i])
    ensures Strip(s) == s
  {
    StripByRemovesRuns(s, IsSpace);
    SkipFromSkipsRun(s, IsSpace, 0);
  }

  // ---------------------------------------------------------------- splitting

  /** Glues `parts` back together with `sep` between consecutive parts. */
  function Join(parts: seq<string>, sep: char): string
    requires |parts| > 0
  {
    if |parts| == 1 then parts[0] else parts[0] + [sep] + Join(parts[1..], sep)
  }

  /** Python's `str.split(sep)` for a one-character separator: the pieces
      between separators, empty pieces included. */
  function Split(s: string, sep: char): (parts: seq<string>)
    ensures |parts| > 0
    ensures forall i :: 0 <= i < |parts| ==> sep !in parts[i]
    ensures |parts| > 1 <==> sep in s
  {
    if |s| == 0 then [""]
    else
      var rest := Split(s[1..], sep);
      if s[0] == sep then [""] + rest
      else
        var parts := [[s[0]] + rest[0]] + rest[1..];
        assert parts[1..] == rest[1..];
        assert s == [s[0]] + s[1..];
        parts
  }

  /** Joining the pieces with the separator gives back the split string. */
  lemma {:induction false} JoinSplit(s: string, sep: char)
    ensures Join(Split(s, sep), sep) == s
  {
    if |s| > 0 {
      JoinSplit(s[1..], sep);
      var rest := Split(s[1..], sep);
      if s[0] == sep {
        assert s == [sep] + s[1..];
        assert Split(s, sep)[1..] == rest;
      } else {
        var parts := Split(s, sep);
        assert parts[1..] == rest[1..];
        assert s == [s[0]] + s[1..];
      }
    }
  }

  /** A string without the separator splits into itself alone. */
  lemma SplitWithoutSep(s: string, sep: char)
    requires sep !in s
    ensures Split(s, sep) == [s]
  {
    JoinSplit(s, sep);
  }

  /** Splitting is the inverse of joining separator-free pieces. */
  lemma {:induction false} SplitJoin(parts: seq<string>, sep: char)
    requires |parts| > 0
    requires forall i :: 0 <= i < |parts| ==> sep !in parts[i]
    ensures Split(Join(parts, sep), sep) == parts
  {
    if |parts| == 1 {
      SplitWithoutSep(parts[0], sep);
    } else {
      SplitJoin(parts[1..], sep);
      SplitOfPrefixed(parts[0], Join(parts[1..], sep), sep);
    }
  }

  /** Splitting `a + [sep] + b` where `a` holds no separator. */
  lemma {:induction false} SplitOfPrefixed(a: string, b: string, sep: char)
    requires sep !in a
    ensures Split(a + [sep] + b, sep) == [a] + Split(b, sep)
  {
    var s := a + [sep] + b;
    if |a| == 0 {
      assert s[1..] == b;
    } else {
      assert s[1..] == a[1..] + [sep] + b;
      SplitOfPrefixed(a[1..], b, sep);
      assert [a[0]] + a[1..] == a;
    }
  }

  /** A word of `str.split()`: non-empty and free of whitespace. */
  predicate IsWord(w: string) {
    |w| > 0 && forall i :: 0 <= i < |w| ==> !IsSpace(w[i])
  }

  /** The length of the leading run of non-whitespace characters. */
  function WordLength(s: string): (n: nat)
    ensures n <= |s|
    ensures forall i :: 0 <= i < n ==> !IsSpace(s[i])
    ensures n == |s| || IsSpace(s[n])
  {
    if |s| == 0 || IsSpace(s[0]) then 0 else 1 + WordLength(s[1..])
  }

  /** Python's `str.split()` with no argument: the maximal whitespace-free
      runs, in order, with no empty words. */
  function Words(s: string): (w: seq<string>)
    ensures forall i :: 0 <= i < |w| ==> IsWord(w[i])
    ensures (forall i :: 0 <= i < |s| ==> IsSpace(s[i])) <==> |w| == 0
    decreases |s|
  {
    if |s| == 0 then []
    else if IsSpace(s[0]) then Words(s[1..])
    else
      var n := WordLength(s);
      assert s[0] == s[..n][0];
      [s[..n]] + Words(s[n..])
  }

  // ---------------------------------------------------------------- searching

  /** Python's `s.startswith(prefix)`. */
  predicate StartsWith(s: string, prefix: string) {
    prefix <= s
  }

  /** Python's `needle in s` for strings. */
  predicate Contains(s: string, needle: string) {
    exists i :: 0 <= i <= |s| - |needle| && needle <= s[i..]
  }

  /** The part of `s` before the first occurrence of `c`, or all of `s`. */
  function Before(s: string, c: char): (r: string)
    ensures r <= s && c !in r
    ensures |r| == |s| || s[|r|] == c
  {
    if |s| == 0 || s[0] == c then "" else [s[0]] + Before(s[1..], c)
  }

  // ---------------------------------------------------------------- integers

  /** Python's `int(text)` on decimal text: surrounding whitespace and one
      leading sign are accepted; anything else is a `ValueError` (None). */
  function ParseInt(text: string): Option<int>
  {
    var t := Strip(text);
    if |t| > 0 && (t[0] == '+' || t[0] == '-') && IsDigits(t[1..]) then
      var v: int := DigitsValue(t[1..]);
      Some(if t[0] == '-' then -v else v)
    else if IsDigits(t) then Some(DigitsValue(t))
    else None
  }

  /** The decimal rendering of an integer, with a `-` sign when negative. */
  function ShowInt(i: int): string {
    if i < 0 then "-" + ShowNat(-i) else ShowNat(i)
  }

  /** `int()` reads back every rendered integer. */
  lemma ParseIntShowInt(i: int)
    ensures ParseInt(ShowInt(i)) == Some(i)
  {
    var s := ShowInt(i);
    if i < 0 {
      var d := ShowNat(-i);
      assert s[1..] == d;
      StripUnspaced(s);
      DigitsValueShowNat(-i);
    } else {
      StripUnspaced(s);
      DigitsValueShowNat(i);
    }
  }
}
