/** The Python `str` operations the verifier relies on, over `seq<char>`. */
module Text {

  /** `pat` occurs in `s` starting at index `i`. */
  predicate OccursAt(s: string, pat: string, i: nat) {
    i + |pat| <= |s| && s[i..i + |pat|] == pat
  }

  predicate StartsWith(s: string, prefix: string) {
    |prefix| <= |s| && s[..|prefix|] == prefix
  }

  predicate EndsWith(s: string, suffix: string) {
    |suffix| <= |s| && s[|s| - |suffix|..] == suffix
  }

  /** The first index at or after `from` where `pat` occurs, or -1 (`str.find`). */
  function FindFrom(s: string, pat: string, from: nat): (r: int)
    ensures r == -1 || (from <= r && OccursAt(s, pat, r))
    ensures forall i: nat :: from <= i && (r == -1 || i < r) ==> !OccursAt(s, pat, i)
    decreases |s| - from
  {
    if from + |pat| > |s| then -1
    else if OccursAt(s, pat, from) then from
    else FindFrom(s, pat, from + 1)
  }

  /** `s.find(pat)`: the first occurrence of `pat`, or -1 when there is none. */
  function Find(s: string, pat: string): (r: int)
    ensures r == -1 || (r >= 0 && OccursAt(s, pat, r))
    ensures forall i: nat :: (r == -1 || i < r) ==> !OccursAt(s, pat, i)
  {
    FindFrom(s, pat, 0)
  }

  /** A concatenation starts with its left part and ends with its right one. */
  lemma Affixes(a: string, b: string)
    ensures StartsWith(a + b, a) && EndsWith(a + b, b)
  {
    assert (a + b)[..|a|] == a;
    assert (a + b)[|a|..] == b;
  }

  /** `Find` returns the first occurrence, so any first occurrence is what it returns. */
  lemma FindIsFirst(s: string, pat: string, k: nat)
    requires OccursAt(s, pat, k)
    requires forall i: nat :: i < k ==> !OccursAt(s, pat, i)
    ensures Find(s, pat) == k
  {
  }

  /** A one-character pattern occurs exactly where that character stands. */
  lemma OccursAtChar(s: string, c: char, i: nat)
    ensures OccursAt(s, [c], i) <==> i < |s| && s[i] == c
  {
    if i < |s| && s[i] == c {
      assert s[i..i + 1] == [c];
    }
  }

  /** `s.rfind(c)` for a single character. */
  function LastIndexOf(s: string, c: char): (r: int)
    ensures -1 <= r < |s|
    ensures r >= 0 ==> s[r] == c
    ensures forall i :: r < i < |s| ==> s[i] != c
  {
    if s == [] then -1
    else if s[|s| - 1] == c then |s| - 1
    else LastIndexOf(s[..|s| - 1], c)
  }

  /** `str.isspace` for one character: the characters `str.strip()` removes. */
  predicate IsSpace(c: char) {
    || '\t' <= c <= '\r'
    || '\U{1c}' <= c <= '\U{1f}'
    || c == ' '
    || c == '\U{85}'
    || c == '\U{a0}'
    || c == '\U{1680}'
    || '\U{2000}' <= c <= '\U{200a}'
    || c == '\U{2028}'
    || c == '\U{2029}'
    || c == '\U{202f}'
    || c == '\U{205f}'
    || c == '\U{3000}'
  }

  /** Among ASCII characters the whitespace is space, tab, the line breaks
      `\n`, `\r`, `\v`, `\f` and the four separators 0x1c-0x1f. */
  lemma AsciiWhitespace(c: char)
    requires c < '\U{80}'
    ensures IsSpace(c) <==> c in {' ', '\t', '\n', '\r', '\U{b}', '\U{c}', '\U{1c}', '\U{1d}', '\U{1e}', '\U{1f}'}
  {
  }

  /** `s.lstrip()`: drops the leading whitespace and nothing else. */
  function TrimStart(s: string): (r: string)
    ensures |r| <= |s| && r == s[|s| - |r|..]
    ensures r == [] || !IsSpace(r[0])
    ensures forall i :: 0 <= i < |s| - |r| ==> IsSpace(s[i])
  {
    if s != [] && IsSpace(s[0]) then TrimStart(s[1..]) else s
  }

  /** `s.rstrip()`: drops the trailing whitespace and nothing else. */
  function TrimEnd(s: string): (r: string)
    ensures |r| <= |s| && r == s[..|r|]
    ensures r == [] || !IsSpace(r[|r| - 1])
    ensures forall i :: |r| <= i < |s| ==> IsSpace(s[i])
  {
    if s != [] && IsSpace(s[|s| - 1]) then TrimEnd(s[..|s| - 1]) else s
  }

  /** `s.strip()`: neither starts nor ends with whitespace. */
  function Strip(s: string): (r: string)
    ensures |r| <= |s|
    ensures r == [] || (!IsSpace(r[0]) && !IsSpace(r[|r| - 1]))
  {
    var t := TrimStart(s);
    var r := TrimEnd(t);
    assert r != [] ==> r[0] == t[0];
    r
  }

  /** `s.strip()` is the slice of `s` left once the whitespace at both ends is
      dropped: everything before it and everything after it is whitespace. */
  lemma StripIsSlice(s: string)
    ensures var r := Strip(s); var a := |s| - |TrimStart(s)|;
      && a + |r| <= |s| && r == s[a..a + |r|]
      && (forall i :: 0 <= i < a ==> IsSpace(s[i]))
      && (forall i :: a + |r| <= i < |s| ==> IsSpace(s[i]))
  {
    var t := TrimStart(s);
    var r := TrimEnd(t);
    assert r == Strip(s);
    StripSlice(s, t, r);
  }

  /** A prefix of a suffix of `s` is a slice of `s`; what the prefix leaves
      of the suffix lies at the end of `s`. */
  lemma StripSlice(s: string, t: string, r: string)
    requires |t| <= |s| && t == s[|s| - |t|..]
    requires |r| <= |t| && r == t[..|r|]
    requires forall i :: |r| <= i < |t| ==> IsSpace(t[i])
    ensures var a := |s| - |t|;
      && a + |r| <= |s| && r == s[a..a + |r|]
      && (forall i :: a + |r| <= i < |s| ==> IsSpace(s[i]))
  {
    var a := |s| - |t|;
    forall i | a + |r| <= i < |s| ensures IsSpace(s[i]) {
      assert s[i] == t[i - a];
    }
  }

  /** Stripping only removes characters: what `s` lacks, `s.strip()` lacks. */
  lemma StripWithin(s: string, c: char)
    requires c !in s
    ensures c !in Strip(s)
  {
    var t := TrimStart(s);
    var r := TrimEnd(t);
    var off := |s| - |t|;
    forall k | 0 <= k < |r|
      ensures r[k] != c
    {
      assert r[k] == t[k] == s[off + k];
    }
  }

  /** Stripping a string that has no surrounding whitespace gives it back. */
  lemma StripKeepsTrimmed(s: string)
    requires s == [] || (!IsSpace(s[0]) && !IsSpace(s[|s| - 1]))
    ensures Strip(s) == s
  {
  }

  /** `c.upper()` for ASCII letters. */
  function UpperChar(c: char): (u: char)
    ensures 'a' <= c <= 'z' ==> u as int == c as int - 32
    ensures !('a' <= c <= 'z') ==> u == c
  {
    if 'a' <= c <= 'z' then (c as int - 'a' as int + 'A' as int) as char else c
  }

  /** `s.upper()`, character by character. */
  function Upper(s: string): (u: string)
    ensures |u| == |s|
    ensures forall k :: 0 <= k < |s| ==> u[k] == UpperChar(s[k])
    ensures forall k :: 0 <= k < |u| ==> !('a' <= u[k] <= 'z')
    ensures '\n' !in s ==> '\n' !in u
  {
    seq(|s|, k requires 0 <= k < |s| => UpperChar(s[k]))
  }

  /** `s.replace(pat, '')`, scanning left to right: the leftmost
      occurrence is cut out and the scan resumes right after it; with no
      occurrence the text is unchanged. */
  function RemoveAll(s: string, pat: string): (r: string)
    requires |pat| > 0
    ensures |r| <= |s|
    decreases |s|
  {
    var f := Find(s, pat);
    if f == -1 then s else s[..f] + RemoveAll(s[f + |pat|..], pat)
  }

  /** Removing only drops characters: whatever is left comes from `s`. */
  lemma {:induction false} RemoveAllKeeps(s: string, pat: string)
    requires |pat| > 0
    ensures forall k :: 0 <= k < |RemoveAll(s, pat)| ==> RemoveAll(s, pat)[k] in s
    decreases |s|
  {
    var f := Find(s, pat);
    if f != -1 {
      var rest := s[f + |pat|..];
      RemoveAllKeeps(rest, pat);
      forall k | 0 <= k < |RemoveAll(s, pat)| ensures RemoveAll(s, pat)[k] in s {
        if k < f {
          assert RemoveAll(s, pat)[k] == s[k];
        } else {
          assert RemoveAll(s, pat)[k] == RemoveAll(rest, pat)[k - f];
        }
      }
    }
  }

  /** With no occurrence of `pat`, `replace` changes nothing. */
  lemma RemoveAllAbsent(s: string, pat: string)
    requires |pat| > 0
    requires forall i: nat :: !OccursAt(s, pat, i)
    ensures RemoveAll(s, pat) == s
  {
  }

  /** A leading `pat` is removed, and the rest is scanned as if it stood alone. */
  lemma RemoveAllLeading(s: string, pat: string)
    requires |pat| > 0
    ensures RemoveAll(pat + s, pat) == RemoveAll(s, pat)
  {
    assert (pat + s)[0..|pat|] == pat;
    FindIsFirst(pat + s, pat, 0);
    assert (pat + s)[|pat|..] == s;
  }

  /** A trailing `pat` that no earlier occurrence overlaps is removed. */
  lemma RemoveAllTrailing(s: string, pat: string)
    requires |pat| > 0
    requires forall i: nat :: i < |s| ==> !OccursAt(s + pat, pat, i)
    ensures RemoveAll(s + pat, pat) == s
  {
    var t := s + pat;
    assert t[|s|..|s| + |pat|] == pat;
    FindIsFirst(t, pat, |s|);
    assert t[..|s|] == s && t[|s| + |pat|..] == [];
    RemoveAllAbsent([], pat);
  }

  /** A decimal digit `0`-`9`. */
  predicate IsDigit(c: char) {
    '0' <= c <= '9'
  }

  function DigitChar(d: nat): (c: char)
    requires d < 10
    ensures IsDigit(c) && c as int - '0' as int == d
  {
    ('0' as int + d) as char
  }

  /** The number a string of decimal digits denotes. */
  function DecimalValue(s: string): int {
    if s == [] then 0 else DecimalValue(s[..|s| - 1]) * 10 + (s[|s| - 1] as int - '0' as int)
  }

  /** `str(n)` for a non-negative integer: the decimal digits of `n`, with no
      leading zero. */
  function NatToString(n: nat): (s: string)
    ensures |s| > 0
    ensures forall k :: 0 <= k < |s| ==> IsDigit(s[k])
    ensures DecimalValue(s) == n
    ensures s[0] == '0' ==> s == "0"
  {
    if n < 10 then
      var s := [DigitChar(n)];
      assert s[..0] == [];
      s
    else
      var front := NatToString(n / 10);
      var s := front + [DigitChar(n % 10)];
      assert s[..|s| - 1] == front;
      s
  }

  /** `str(n)` for any integer: a '-' exactly for negative numbers, followed
      by the decimal digits of the magnitude. */
  function IntToString(n: int): (s: string)
    ensures |s| > 0
    ensures n < 0 <==> s[0] == '-'
    ensures n >= 0 ==> s == NatToString(n)
    ensures n < 0 ==> s[1..] == NatToString(-n)
  {
    if n < 0 then
      var s := "-" + NatToString(-n);
      assert s[1..] == NatToString(-n);
      s
    else NatToString(n)
  }
}
