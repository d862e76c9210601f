/** Value types and Python string helpers shared by every module of the model:
    Option and Result for the source's None returns and exceptions, the JSON value
    that `json.loads` yields, and the `str` operations the source relies on
    (`strip`, `join`, `str(int)`, `lower`, slicing). */
module Common {

  datatype Option<+T> = None | Some(value: T)

  datatype Result<+T, +E> = Ok(value: T) | Err(error: E)

  /** A JSON value as `json.loads` returns it (numbers, int or float, as reals). */
  datatype Json =
    | JNull
    | JBool(b: bool)
    | JNumber(x: real)
    | JString(s: string)
    | JArray(items: seq<Json>)
    | JObject(fields: map<string, Json>)

  type Vector = seq<real>

  function Min(a: int, b: int): int { if a < b then a else b }

  // ---------------------------------------------------------------------------
  // Whitespace, as Python's str.isspace (also what `\s` matches in a str regex)
  // ---------------------------------------------------------------------------

  predicate IsSpace(c: char) {
    var n := c as int;
    || (0x09 <= n <= 0x0D) || (0x1C <= n <= 0x20)
    || n == 0x85 || n == 0xA0 || n == 0x1680
    || (0x2000 <= n <= 0x200A)
    || n == 0x2028 || n == 0x2029 || n == 0x202F || n == 0x205F || n == 0x3000
  }

  /** Every character of s[i..j] is whitespace. */
  predicate AllSpace(s: string, i: nat, j: nat)
    requires i <= j <= |s|
  {
    forall k :: i <= k < j ==> IsSpace(s[k])
  }

  /** The first index at or after i that is not whitespace (|s| if none): where a greedy `\s*` stops. */
  function SkipSpace(s: string, i: nat): (r: nat)
    requires i <= |s|
    ensures i <= r <= |s|
    ensures AllSpace(s, i, r)
    ensures r < |s| ==> !IsSpace(s[r])
    decreases |s| - i
  {
    if i < |s| && IsSpace(s[i]) then SkipSpace(s, i + 1) else i
  }

  /** Where `s.strip()` starts: the first non-whitespace index (|s| if none). */
  function StripStart(s: string): (lo: nat)
    ensures lo <= |s| && AllSpace(s, 0, lo)
    ensures lo < |s| ==> !IsSpace(s[lo])
  {
    SkipSpace(s, 0)
  }

  /** Scanning back from hi, the end of the trailing whitespace run above lo. */
  function TrimEndIndex(s: string, lo: nat, hi: nat): (r: nat)
    requires lo <= hi <= |s|
    ensures lo <= r <= hi && AllSpace(s, r, hi)
    ensures r > lo ==> !IsSpace(s[r - 1])
    ensures lo < hi && !IsSpace(s[lo]) ==> r > lo
    decreases hi
  {
    if hi > lo && IsSpace(s[hi - 1]) then TrimEndIndex(s, lo, hi - 1) else hi
  }

  /** Where `s.strip()` stops. */
  function StripEnd(s: string): (hi: nat)
    ensures StripStart(s) <= hi <= |s| && AllSpace(s, hi, |s|)
    ensures hi > StripStart(s) ==> !IsSpace(s[StripStart(s)]) && !IsSpace(s[hi - 1])
    ensures StripStart(s) < |s| ==> hi > StripStart(s)
  {
    TrimEndIndex(s, StripStart(s), |s|)
  }

  /** Python `s.strip()`: the slice of s left after dropping leading and trailing whitespace. */
  function Strip(s: string): (r: string)
    ensures |r| <= |s|
    ensures r == [] || (!IsSpace(r[0]) && !IsSpace(r[|r| - 1]))
  {
    s[StripStart(s)..StripEnd(s)]
  }

  /** Python's truthiness test `if text.strip():` fails exactly for all-whitespace text. */
  predicate IsBlank(s: string) { Strip(s) == "" }

  lemma BlankIffAllSpace(s: string)
    ensures IsBlank(s) <==> AllSpace(s, 0, |s|)
  {
    var lo := StripStart(s);
    if lo < |s| {
      assert !IsSpace(s[lo]);
    }
  }

  // ---------------------------------------------------------------------------
  // Substrings, prefixes and Python slicing
  // ---------------------------------------------------------------------------

  /** `pat` occurs in `s` starting at index i. */
  predicate OccursAt(s: string, pat: string, i: nat) {
    i + |pat| <= |s| && s[i..i + |pat|] == pat
  }

  /** Python `s[:n]` for n >= 0. */
  function Prefix(s: string, n: nat): (r: string)
    ensures |r| == Min(n, |s|) && r == s[..|r|]
  {
    if n < |s| then s[..n] else s
  }

  /** The stop index Python uses for `xs[:k]` on a list of length n (k may be negative). */
  function PySliceEnd(n: nat, k: int): (r: nat)
    ensures r <= n
    ensures k >= 0 ==> r == Min(k, n)
    ensures k < 0 ==> r == (if n + k > 0 then n + k else 0)
  {
    if k >= 0 then (if k < n then k else n) else if n + k > 0 then n + k else 0
  }

  /** Python `s[i:j]` for non-negative bounds: both ends clamped to the string. */
  function PySlice(s: string, i: nat, j: nat): (r: string)
    ensures i <= j <= |s| ==> r == s[i..j]
    ensures j <= |s| && i <= j ==> |r| == j - i
    ensures |r| <= |s|
  {
    var hi := if j < |s| then j else |s|;
    var lo := if i < hi then i else hi;
    s[lo..hi]
  }

  // ---------------------------------------------------------------------------
  // str(n) and its inverse
  // ---------------------------------------------------------------------------

  predicate IsDigit(c: char) { '0' <= c <= '9' }

  predicate AllDigits(s: string) { forall i :: 0 <= i < |s| ==> IsDigit(s[i]) }

  function DigitChar(d: nat): (c: char)
    requires d < 10
    ensures IsDigit(c) && c as int - '0' as int == d
  {
    ('0' as int + d) as char
  }

  /** Python `str(n)` for a natural number: its decimal digits, no leading zeros. */
  function NatToString(n: nat): (r: string)
    ensures |r| >= 1 && AllDigits(r)
    ensures |r| > 1 ==> r[0] != '0'
    decreases n
  {
    if n < 10 then [DigitChar(n)] else NatToString(n / 10) + [DigitChar(n % 10)]
  }

  /** Python `str(i)` for any integer. */
  function IntToString(i: int): (r: string)
    ensures |r| >= 1
    ensures i >= 0 <==> r[0] != '-'
  {
    if i < 0 then "-" + NatToString(-i) else NatToString(i)
  }

  /** Python `int(s)` on a string of decimal digits. */
  function ParseDecimal(s: string): nat
    requires AllDigits(s)
  {
    if s == [] then 0 else ParseDecimal(s[..|s| - 1]) * 10 + (s[|s| - 1] as int - '0' as int)
  }

  /** `str` on naturals is undone by `int`, so distinct numbers print differently. */
  lemma {:induction false} ParseNatToString(n: nat)
    ensures ParseDecimal(NatToString(n)) == n
    decreases n
  {
    if n >= 10 {
      var a := NatToString(n / 10);
      var s := a + [DigitChar(n % 10)];
      assert s[..|s| - 1] == a;
      ParseNatToString(n / 10);
    }
  }

  lemma NatToStringInjective(m: nat, n: nat)
    requires NatToString(m) == NatToString(n)
    ensures m == n
  {
    ParseNatToString(m);
    ParseNatToString(n);
  }

  // ---------------------------------------------------------------------------
  // sep.join(xs)
  // ---------------------------------------------------------------------------

  /** Python `sep.join(xs)`. */
  function Join(sep: string, xs: seq<string>): string
  {
    if |xs| == 0 then "" else if |xs| == 1 then xs[0] else xs[0] + sep + Join(sep, xs[1..])
  }

  /** Where the i-th piece starts inside `sep.join(xs)`. */
  function JoinOffset(sep: string, xs: seq<string>, i: nat): nat
    requires i <= |xs|
  {
    if i == 0 then 0 else |xs[0]| + |sep| + JoinOffset(sep, xs[1..], i - 1)
  }

  /** Each piece appears verbatim in the joined string at its offset. */
  lemma {:induction false} JoinContains(sep: string, xs: seq<string>, i: nat)
    requires i < |xs|
    ensures JoinOffset(sep, xs, i) + |xs[i]| <= |Join(sep, xs)|
    ensures Join(sep, xs)[JoinOffset(sep, xs, i)..JoinOffset(sep, xs, i) + |xs[i]|] == xs[i]
    decreases i
  {
    if i == 0 {
      JoinHead(sep, xs);
    } else {
      JoinContains(sep, xs[1..], i - 1);
      JoinCons(sep, xs);
      assert xs[1..][i - 1] == xs[i];
      SliceAfter(xs[0] + sep, Join(sep, xs[1..]), JoinOffset(sep, xs[1..], i - 1), JoinOffset(sep, xs[1..], i - 1) + |xs[i]|);
    }
  }

  /** A join of two or more pieces is the first piece, the separator and the join of the rest. */
  lemma JoinCons(sep: string, xs: seq<string>)
    requires |xs| >= 2
    ensures Join(sep, xs) == (xs[0] + sep) + Join(sep, xs[1..])
  {
  }

  /** The first piece starts the join. */
  lemma JoinHead(sep: string, xs: seq<string>)
    requires |xs| >= 1
    ensures |xs[0]| <= |Join(sep, xs)| && Join(sep, xs)[0..|xs[0]|] == xs[0]
  {
    if |xs| >= 2 {
      assert Join(sep, xs) == xs[0] + (sep + Join(sep, xs[1..]));
    }
  }

  /** A slice of the second half of a concatenation. */
  lemma SliceAfter(p: string, s: string, a: nat, b: nat)
    requires a <= b <= |s|
    ensures (p + s)[|p| + a..|p| + b] == s[a..b]
  {
    assert forall k :: 0 <= k < b - a ==> (p + s)[|p| + a..|p| + b][k] == s[a..b][k];
  }

  /** Between two consecutive pieces stands exactly one separator. */
  lemma {:induction false} JoinSeparatorAt(sep: string, xs: seq<string>, i: nat)
    requires i + 1 < |xs|
    ensures JoinOffset(sep, xs, i + 1) == JoinOffset(sep, xs, i) + |xs[i]| + |sep|
    ensures JoinOffset(sep, xs, i) + |xs[i]| + |sep| <= |Join(sep, xs)|
    ensures Join(sep, xs)[JoinOffset(sep, xs, i) + |xs[i]|..JoinOffset(sep, xs, i + 1)] == sep
    decreases i
  {
    JoinCons(sep, xs);
    if i == 0 {
      assert JoinOffset(sep, xs[1..], 0) == 0;
      SeparatorAfterHead(xs[0], sep, Join(sep, xs[1..]));
    } else {
      JoinSeparatorAt(sep, xs[1..], i - 1);
      assert xs[1..][i - 1] == xs[i];
      var o := JoinOffset(sep, xs[1..], i - 1);
      SliceAfter(xs[0] + sep, Join(sep, xs[1..]), o + |xs[i]|, o + |xs[i]| + |sep|);
    }
  }

  /** The separator right after the first piece. */
  lemma SeparatorAfterHead(x: string, sep: string, rest: string)
    ensures (x + sep + rest)[|x|..|x| + |sep|] == sep
  {
    assert (x + sep + rest)[|x|..|x| + |sep|] == (x + (sep + rest))[|x| + 0..|x| + |sep|];
    SliceAfter(x, sep + rest, 0, |sep|);
  }

  /** Appending a piece to a non-empty list adds the separator and then the piece. */
  lemma {:induction false} JoinSnoc(sep: string, xs: seq<string>, x: string)
    ensures Join(sep, xs + [x]) == if xs == [] then x else Join(sep, xs) + sep + x
    decreases |xs|
  {
    if |xs| >= 2 {
      assert (xs + [x])[1..] == xs[1..] + [x];
      JoinSnoc(sep, xs[1..], x);
    } else if |xs| == 1 {
      assert (xs + [x])[1..] == [x];
    }
  }

  // ---------------------------------------------------------------------------
  // Finding a character
  // ---------------------------------------------------------------------------

  /** The first index of c in s. */
  function FirstIndex(s: string, c: char, from: nat): (r: Option<nat>)
    ensures r.Some? ==> from <= r.value < |s| && s[r.value] == c
    ensures r.Some? ==> forall k :: from <= k < r.value ==> s[k] != c
    ensures r.None? ==> forall k :: from <= k < |s| ==> s[k] != c
    decreases |s| - from
  {
    if from >= |s| then None else if s[from] == c then Some(from) else FirstIndex(s, c, from + 1)
  }

  /** The last index of c in s[..hi]. */
  function LastIndex(s: string, c: char, hi: nat): (r: Option<nat>)
    requires hi <= |s|
    ensures r.Some? ==> r.value < hi && s[r.value] == c
    ensures r.Some? ==> forall k :: r.value < k < hi ==> s[k] != c
    ensures r.None? ==> forall k :: 0 <= k < hi ==> s[k] != c
  {
    if hi == 0 then None else if s[hi - 1] == c then Some(hi - 1) else LastIndex(s, c, hi - 1)
  }

  // ---------------------------------------------------------------------------
  // Case mapping
  // ---------------------------------------------------------------------------

  function LowerChar(c: char): char {
    if 'A' <= c <= 'Z' then (c as int + 32) as char else c
  }

  /** Python `s.lower()` on ASCII letters; other characters are kept. */
  function Lower(s: string): (r: string)
    ensures |r| == |s|
    ensures forall i :: 0 <= i < |s| ==> r[i] == LowerChar(s[i])
  {
    seq(|s|, i requires 0 <= i < |s| => LowerChar(s[i]))
  }
}
