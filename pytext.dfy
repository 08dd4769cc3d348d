/** The Python string operations the core relies on, stated on `seq<char>`:
    `isspace`/`strip`, `lower`, `startswith`, `in`, `find`, `rfind`, slicing,
    `split`, `replace`, the first match of the regular expression `\d+`, and
    `str()` of an integer. */
module PyText {
  import opened Wrappers

  // ---------------------------------------------------------------- whitespace

  /** `c.isspace()`: the characters Python's `str.strip()` removes. */
  predicate IsSpace(c: char) {
    || '\t' <= c <= '\r'
    || '\U{1C}' <= c <= '\U{1F}'
    || c == ' ' || c == '\U{85}' || c == '\U{A0}' || c == '\U{1680}'
    || '\U{2000}' <= c <= '\U{200A}'
    || c == '\U{2028}' || c == '\U{2029}' || c == '\U{202F}' || c == '\U{205F}'
    || c == '\U{3000}'
  }

  /** Every character of `s` is whitespace (the empty string included). */
  predicate IsBlank(s: string) {
    forall i :: 0 <= i < |s| ==> IsSpace(s[i])
  }

  /** `s.lstrip()` */
  function LStrip(s: string): (r: string)
    ensures |r| <= |s| && r == s[|s| - |r|..]
    ensures r == [] || !IsSpace(r[0])
    ensures forall i :: 0 <= i < |s| - |r| ==> IsSpace(s[i])
  {
    if s != [] && IsSpace(s[0]) then LStrip(s[1..]) else s
  }

  /** `s.rstrip()` */
  function RStrip(s: string): (r: string)
    ensures |r| <= |s| && r == s[..|r|]
    ensures r == [] || !IsSpace(r[|r| - 1])
    ensures forall i :: |r| <= i < |s| ==> IsSpace(s[i])
  {
    if s != [] && IsSpace(s[|s| - 1]) then RStrip(s[..|s| - 1]) else s
  }

  /** `s.strip()`: the text without its leading and trailing whitespace. */
  function Strip(s: string): (r: string)
    ensures |r| <= |s|
    ensures r == [] || (!IsSpace(r[0]) && !IsSpace(r[|r| - 1]))
    ensures r == [] <==> IsBlank(s)
  {
    var l := LStrip(s);
    var r := RStrip(l);
    assert r == [] ==> l == [];
    r
  }

  /** A stripped string is its own strip: `strip` is idempotent. */
  lemma StripIdempotent(s: string)
    ensures Strip(Strip(s)) == Strip(s)
  {
    var t := Strip(s);
    if t != [] {
      assert LStrip(t) == t;
      assert RStrip(t) == t;
    }
  }

  /** Text that neither starts nor ends with whitespace is its own strip. */
  lemma StripUnpadded(t: string)
    requires t != [] && !IsSpace(t[0]) && !IsSpace(t[|t| - 1])
    ensures Strip(t) == t
  {
    assert LStrip(t) == t;
    assert RStrip(t) == t;
  }

  // ---------------------------------------------------------------- case

  /** `c.lower()` for the ASCII letters; every other character is kept. */
  function LowerChar(c: char): char {
    if 'A' <= c <= 'Z' then (c as int + 32) as char else c
  }

  /** `s.lower()` on ASCII letters. */
  function Lower(s: string): (r: string)
    ensures |r| == |s|
    ensures forall i :: 0 <= i < |s| ==> r[i] == LowerChar(s[i])
  {
    seq(|s|, i requires 0 <= i < |s| => LowerChar(s[i]))
  }

  predicate IsLower(s: string) {
    forall i :: 0 <= i < |s| ==> !('A' <= s[i] <= 'Z')
  }

  /** Lowercasing leaves no upper-case letter, so doing it twice changes nothing. */
  lemma LowerIsLower(s: string)
    ensures IsLower(Lower(s)) && Lower(Lower(s)) == Lower(s)
  {
  }

  /** Lowercasing does not create or destroy whitespace, so it commutes with
      `strip`. */
  lemma {:induction false} LowerStripCommute(s: string)
    ensures Strip(Lower(s)) == Lower(Strip(s))
  {
    LowerLStrip(s);
    LowerRStrip(LStrip(s));
  }

  lemma {:induction false} LowerLStrip(s: string)
    ensures LStrip(Lower(s)) == Lower(LStrip(s))
  {
    if s != [] {
      assert Lower(s)[1..] == Lower(s[1..]);
      assert IsSpace(Lower(s)[0]) == IsSpace(s[0]);
      if IsSpace(s[0]) {
        LowerLStrip(s[1..]);
      }
    }
  }

  lemma {:induction false} LowerRStrip(s: string)
    ensures RStrip(Lower(s)) == Lower(RStrip(s))
  {
    if s != [] {
      assert Lower(s)[..|s| - 1] == Lower(s[..|s| - 1]);
      assert IsSpace(Lower(s)[|s| - 1]) == IsSpace(s[|s| - 1]);
      if IsSpace(s[|s| - 1]) {
        LowerRStrip(s[..|s| - 1]);
      }
    }
  }

  /** Lowercase text without surrounding whitespace is left alone by both
      `lower` and `strip`. */
  lemma AlreadyNormal(t: string)
    requires IsLower(t) && (t == [] || (!IsSpace(t[0]) && !IsSpace(t[|t| - 1])))
    ensures Lower(t) == t && Strip(t) == t
  {
    assert Lower(t) == t;
    if t != [] {
      assert LStrip(t) == t;
      assert RStrip(t) == t;
    }
  }

  // ---------------------------------------------------------------- search

  /** `p` occurs in `s` starting at index `i`. */
  predicate OccursAt(s: string, p: string, i: int) {
    0 <= i && i + |p| <= |s| && s[i..i + |p|] == p
  }

  /** Concatenation regroups; stated on variables so that callers need not
      look inside long texts. */
  lemma ConcatAssoc<T>(a: seq<T>, b: seq<T>, c: seq<T>)
    ensures (a + b) + c == a + (b + c)
  {
  }

  /** `s.startswith(p)` */
  predicate StartsWith(s: string, p: string) {
    OccursAt(s, p, 0)
  }

  /** `s.find(p, start)` for a non-negative `start`: the first index at or
      after `start` where `p` occurs, or -1. */
  function FindFrom(s: string, p: string, start: nat): (r: int)
    decreases |s| - start
    ensures r == -1 || (start <= r && OccursAt(s, p, r))
    ensures r == -1 ==> forall i :: start <= i ==> !OccursAt(s, p, i)
    ensures r >= 0 ==> forall i :: start <= i < r ==> !OccursAt(s, p, i)
  {
    if start + |p| > |s| then -1
    else if OccursAt(s, p, start) then start
    else FindFrom(s, p, start + 1)
  }

  /** `s.find(p)` */
  function Find(s: string, p: string): int {
    FindFrom(s, p, 0)
  }

  /** `p in s` (Python's substring test). */
  predicate Contains(s: string, p: string) {
    Find(s, p) >= 0
  }

  /** The substring test holds exactly when `p` occurs somewhere in `s`. */
  lemma ContainsIff(s: string, p: string)
    ensures Contains(s, p) <==> exists i :: OccursAt(s, p, i)
  {
  }

  /** `any(w in s for w in words)` */
  predicate AnyIn(words: seq<string>, s: string) {
    exists w :: w in words && Contains(s, w)
  }

  /** A string that lacks one of the characters of `p` does not contain `p`. */
  lemma MissingChar(s: string, p: string, k: nat)
    requires k < |p|
    requires forall i :: 0 <= i < |s| ==> s[i] != p[k]
    ensures !Contains(s, p)
  {
    assert forall i :: !OccursAt(s, p, i) by {
      forall i | OccursAt(s, p, i) ensures s[i + k] == p[k] {
      }
    }
  }

  /** A string in which two adjacent characters of `p` never appear side by
      side does not contain `p`. */
  lemma MissingPair(s: string, p: string, k: nat)
    requires k + 1 < |p|
    requires forall i :: 0 <= i < |s| - 1 ==> !(s[i] == p[k] && s[i + 1] == p[k + 1])
    ensures !Contains(s, p)
  {
    assert forall i :: !OccursAt(s, p, i) by {
      forall i | OccursAt(s, p, i) ensures s[i + k] == p[k] && s[i + k + 1] == p[k + 1] {
      }
    }
  }

  /** A word occurring at a known index is found by `in`. */
  lemma FoundAt(words: seq<string>, j: nat, t: string, i: nat)
    requires j < |words| && OccursAt(t, words[j], i)
    ensures AnyIn(words, t)
  {
    assert Contains(t, words[j]);
  }

  /** None of `words` occurs in `t`: each lacks the character at the index
      given for it. */
  lemma NoneOf(words: seq<string>, t: string, k: seq<nat>)
    requires |k| == |words|
    requires forall j :: 0 <= j < |k| ==> k[j] < |words[j]| && words[j][k[j]] !in t
    ensures !AnyIn(words, t)
  {
    forall w | w in words ensures !Contains(t, w) {
      var j :| 0 <= j < |words| && words[j] == w;
      MissingChar(t, w, k[j]);
    }
  }

  /** A piece of a string that lacks `p` lacks `p` too. */
  lemma SliceKeepsAbsence(s: string, a: nat, b: nat, p: string)
    requires a <= b <= |s| && !Contains(s, p)
    ensures !Contains(s[a..b], p)
  {
    forall i | OccursAt(s[a..b], p, i) ensures OccursAt(s, p, a + i) {
      var w := s[a..b][i..i + |p|];
      assert forall j :: 0 <= j < |p| ==> w[j] == s[a + i + j];
      assert s[a + i..a + i + |p|] == w;
    }
  }

  /** `strip` cuts a piece out of the string, so it keeps `p` out. */
  lemma StripKeepsAbsence(s: string, p: string)
    requires !Contains(s, p)
    ensures !Contains(Strip(s), p)
  {
    var l := LStrip(s);
    assert l == s[|s| - |l|..|s|];
    SliceKeepsAbsence(s, |s| - |l|, |s|, p);
    assert RStrip(l) == l[0..|RStrip(l)|];
    SliceKeepsAbsence(l, 0, |RStrip(l)|, p);
  }

  /** The positions below `k` where `p` occurs, searched from the top. */
  function RFindBelow(s: string, p: string, k: nat): (r: int)
    ensures r == -1 || (r < k && OccursAt(s, p, r))
    ensures r == -1 ==> forall i :: 0 <= i < k ==> !OccursAt(s, p, i)
    ensures r >= 0 ==> forall i :: r < i < k ==> !OccursAt(s, p, i)
  {
    if k == 0 then -1
    else if OccursAt(s, p, k - 1) then k - 1
    else RFindBelow(s, p, k - 1)
  }

  /** `s.rfind(p)`: the last index where `p` occurs, or -1. */
  function RFind(s: string, p: string): (r: int)
    ensures r == -1 <==> !Contains(s, p)
    ensures r >= 0 ==> OccursAt(s, p, r) && forall i :: r < i ==> !OccursAt(s, p, i)
  {
    RFindBelow(s, p, |s| + 1)
  }

  // ---------------------------------------------------------------- slicing

  /** How Python turns a slice bound into an index of a string of length `n`. */
  function SliceIndex(i: int, n: nat): (r: nat)
    ensures r <= n
  {
    if i < 0 then (if i + n < 0 then 0 else i + n) else if i > n then n else i
  }

  /** The position `xs[i]` reads in a list of length `n`: negative indices
      count from the end; `None` when Python raises `IndexError`. */
  function PyIndex(i: int, n: nat): (r: Option<nat>)
    ensures r.Some? <==> 0 <= i + n && i < n
    ensures r.Some? ==> r.value < n && (if i >= 0 then r.value == i else r.value == i + n)
  {
    if 0 <= i < n then Some(i) else if 0 <= i + n && i < 0 then Some(i + n) else None
  }

  /** `s[a:b]` with Python's rules for negative and out-of-range bounds. */
  function Slice(s: string, a: int, b: int): (r: string)
    ensures |r| <= |s|
    ensures 0 <= a <= b <= |s| ==> r == s[a..b]
    ensures b < 0 && 0 <= a <= b + |s| ==> r == s[a..b + |s|]
    ensures 0 <= b <= a ==> r == []
  {
    var i, j := SliceIndex(a, |s|), SliceIndex(b, |s|);
    if i < j then s[i..j] else []
  }

  // ---------------------------------------------------------------- split

  /** `s.split(sep)` for a non-empty separator. */
  function Split(s: string, sep: string): (parts: seq<string>)
    requires sep != []
    decreases |s|
    ensures |parts| >= 1
    ensures Contains(s, sep) <==> |parts| >= 2
    ensures !Contains(s, sep) ==> parts == [s]
    ensures Contains(s, sep) ==> parts[0] == s[..Find(s, sep)]
  {
    var i := Find(s, sep);
    if i < 0 then [s] else [s[..i]] + Split(s[i + |sep|..], sep)
  }

  /** `s.partition(sep)[0]`: the text before the first `sep`, or all of `s`
      when `sep` does not occur; `sep` follows it directly when it does. */
  function Before(s: string, sep: string): (p: string)
    requires sep != []
    ensures p <= s && !Contains(p, sep)
    ensures Contains(s, sep) ==> OccursAt(s, sep, |p|)
    ensures !Contains(s, sep) ==> p == s
    ensures Split(s, sep)[0] == p
  {
    SplitHeadHasNoSeparator(s, sep);
    if Contains(s, sep) then s[..Find(s, sep)] else s
  }

  /** A split of a text that opens with the separator: the second piece is
      what comes before the next separator. */
  lemma SplitAfterLeading(s: string, sep: string)
    requires sep != [] && StartsWith(s, sep)
    ensures |Split(s, sep)| >= 2 && Split(s, sep)[1] == Before(s[|sep|..], sep)
  {
    assert Find(s, sep) == 0;
  }

  /** The first piece of a split never holds the separator. */
  lemma SplitHeadHasNoSeparator(s: string, sep: string)
    requires sep != []
    ensures !Contains(Split(s, sep)[0], sep)
  {
    var h := Split(s, sep)[0];
    if Contains(s, sep) {
      var f := Find(s, sep);
      forall i | OccursAt(h, sep, i) ensures false {
        assert h[i..i + |sep|] == s[i..i + |sep|];
        assert OccursAt(s, sep, i);
      }
    }
  }

  // ---------------------------------------------------------------- replace

  /** `s.replace(old, new)`: every non-overlapping occurrence of `old`,
      scanned left to right, is replaced by `new`; an empty `old` inserts
      `new` before every character and at the end. */
  function Replace(s: string, pat: string, rep: string): (r: string)
    decreases |s|
    ensures rep == [] ==> |r| <= |s|
  {
    if pat == [] then
      (if s == [] then rep else rep + [s[0]] + Replace(s[1..], pat, rep))
    else if OccursAt(s, pat, 0) then rep + Replace(s[|pat|..], pat, rep)
    else if s == [] then []
    else [s[0]] + Replace(s[1..], pat, rep)
  }

  /** Replacing a non-empty pattern that does not occur changes nothing. */
  lemma {:induction false} ReplaceAbsent(s: string, pat: string, rep: string)
    requires pat != [] && !Contains(s, pat)
    ensures Replace(s, pat, rep) == s
  {
    if s != [] {
      assert !OccursAt(s, pat, 0);
      forall i | OccursAt(s[1..], pat, i) ensures false {
        assert s[1..][i..i + |pat|] == s[i + 1..i + 1 + |pat|];
        assert OccursAt(s, pat, i + 1);
      }
      assert !Contains(s[1..], pat);
      ReplaceAbsent(s[1..], pat, rep);
    }
  }

  // ---------------------------------------------------------------- digits

  predicate IsDigit(c: char) {
    '0' <= c <= '9'
  }

  predicate AllDigits(s: string) {
    forall i :: 0 <= i < |s| ==> IsDigit(s[i])
  }

  function DigitValue(c: char): nat
    requires IsDigit(c)
  {
    c as int - '0' as int
  }

  /** `int(d)` for a non-empty run of decimal digits. */
  function DigitsValue(d: string): nat
    requires AllDigits(d)
  {
    if d == [] then 0 else DigitsValue(d[..|d| - 1]) * 10 + DigitValue(d[|d| - 1])
  }

  /** `int` of two digits. */
  lemma TwoDigitsValue(d: string)
    requires |d| == 2 && AllDigits(d)
    ensures DigitsValue(d) == 10 * DigitValue(d[0]) + DigitValue(d[1])
  {
    var first := d[..1];
    assert first[..0] == [] && first[0] == d[0];
    assert DigitsValue(first) == DigitValue(d[0]);
    assert d[..|d| - 1] == first;
  }

  /** The length of the run of digits that starts at index `i`. */
  function DigitRun(s: string, i: nat): (n: nat)
    requires i <= |s|
    decreases |s| - i
    ensures i + n <= |s|
    ensures AllDigits(s[i..i + n])
    ensures i + n == |s| || !IsDigit(s[i + n])
  {
    if i < |s| && IsDigit(s[i]) then
      var rest := DigitRun(s, i + 1);
      assert s[i..i + 1 + rest] == [s[i]] + s[i + 1..i + 1 + rest];
      1 + rest
    else 0
  }

  /** The index of the first digit at or after `i`, or `|s|` when there is none. */
  function FirstDigitFrom(s: string, i: nat): (k: nat)
    requires i <= |s|
    decreases |s| - i
    ensures i <= k <= |s|
    ensures k < |s| ==> IsDigit(s[k])
    ensures forall j :: i <= j < k ==> !IsDigit(s[j])
  {
    if i == |s| || IsDigit(s[i]) then i else FirstDigitFrom(s, i + 1)
  }

  /** `re.findall(r'\d+', s)[0]` converted with `int`, or `None` for an
      empty match list: the value of the first maximal run of digits. */
  function FirstNumber(s: string): (r: Option<nat>)
    ensures r.None? <==> forall i :: 0 <= i < |s| ==> !IsDigit(s[i])
  {
    var k := FirstDigitFrom(s, 0);
    if k == |s| then None
    else
      var n := DigitRun(s, k);
      Some(DigitsValue(s[k..k + n]))
  }

  // ---------------------------------------------------------------- str(int)

  function DigitChar(d: nat): (c: char)
    requires d < 10
    ensures IsDigit(c) && DigitValue(c) == d
  {
    ('0' as int + d) as char
  }

  /** `str(n)` for a natural number. */
  function NatToString(n: nat): (s: string)
    decreases n
    ensures s != [] && AllDigits(s)
  {
    if n < 10 then [DigitChar(n)] else NatToString(n / 10) + [DigitChar(n % 10)]
  }

  /** `str(i)` for any integer. */
  function IntToString(i: int): string {
    if i < 0 then "-" + NatToString(-i) else NatToString(i)
  }

  /** Reading back the decimal text of `n` gives `n`. */
  lemma {:induction false} NatToStringRoundTrip(n: nat)
    ensures DigitsValue(NatToString(n)) == n
  {
    if n >= 10 {
      NatToStringRoundTrip(n / 10);
      var s := NatToString(n);
      assert s[..|s| - 1] == NatToString(n / 10);
    }
  }

  /** The first number in a printed natural number is that number. */
  lemma FirstNumberOfNatToString(n: nat)
    ensures FirstNumber(NatToString(n)) == Some(n)
  {
    var s := NatToString(n);
    assert FirstDigitFrom(s, 0) == 0;
    DigitRunToEnd(s, 0);
    assert s[0..|s|] == s;
    NatToStringRoundTrip(n);
  }

  lemma {:induction false} DigitRunToEnd(s: string, i: nat)
    requires i <= |s| && AllDigits(s)
    decreases |s| - i
    ensures DigitRun(s, i) == |s| - i
  {
    if i < |s| {
      DigitRunToEnd(s, i + 1);
    }
  }
}
