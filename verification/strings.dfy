/** String helpers standing in for the amxc string library and the C string
    functions the plugin uses: splitting on a separator, joining, decimal
    conversion, prefix tests, first-occurrence search and right trimming. */
module Strs {
  import opened Wrappers

  predicate IsDigit(c: char) {
    '0' <= c <= '9'
  }

  /** isxdigit() */
  predicate IsHexDigit(c: char) {
    '0' <= c <= '9' || 'a' <= c <= 'f' || 'A' <= c <= 'F'
  }

  /** amxc_string_is_numeric(): a non-empty string of decimal digits. */
  predicate IsNumeric(s: string) {
    |s| > 0 && forall i :: 0 <= i < |s| ==> IsDigit(s[i])
  }

  predicate StartsWith(s: string, prefix: string) {
    |prefix| <= |s| && s[..|prefix|] == prefix
  }

  /** The first string cut to at most `n` characters (snprintf truncation). */
  function Truncate(s: string, n: nat): (r: string)
    ensures |r| <= n && StartsWith(s, r)
    ensures |s| <= n ==> r == s
    ensures |s| > n ==> |r| == n
  {
    if |s| <= n then s else s[..n]
  }

  lemma StartsWithTrans(s: string, p: string, q: string)
    requires StartsWith(s, p) && StartsWith(p, q)
    ensures StartsWith(s, q)
  {
    assert s[..|q|] == s[..|p|][..|q|];
  }

  lemma StartsWithAppend(p: string, q: string)
    ensures StartsWith(p + q, p)
  {
    assert (p + q)[..|p|] == p;
  }

  // ---------------------------------------------------------------------
  // Splitting and joining
  // ---------------------------------------------------------------------

  /** Index of the first occurrence of `c` in `s`. */
  function IndexOf(s: string, c: char): (i: nat)
    requires c in s
    ensures i < |s| && s[i] == c && c !in s[..i]
  {
    if s[0] == c then 0
    else
      var j := IndexOf(s[1..], c);
      assert s[..j + 1] == [s[0]] + s[1..][..j];
      j + 1
  }

  /** Splitting `s` at every `d` (amxc_string_split_to_llist). Empty segments
      are kept, so the result always has at least one element. */
  function Split(s: string, d: char): (r: seq<string>)
    ensures |r| >= 1
    ensures forall i :: 0 <= i < |r| ==> d !in r[i]
    decreases |s|
  {
    if d in s then
      var i := IndexOf(s, d);
      [s[..i]] + Split(s[i + 1..], d)
    else
      [s]
  }

  /** Joining segments with `d` in between (amxc_string_join_llist). */
  function Join(segs: seq<string>, d: char): string
  {
    if |segs| == 0 then ""
    else if |segs| == 1 then segs[0]
    else segs[0] + [d] + Join(segs[1..], d)
  }

  function Last<T>(s: seq<T>): T
    requires |s| > 0
  {
    s[|s| - 1]
  }

  /** Joining the pieces of a split gives back the original string. */
  lemma {:induction false} JoinSplit(s: string, d: char)
    ensures Join(Split(s, d), d) == s
    decreases |s|
  {
    if d in s {
      var i := IndexOf(s, d);
      var rest := Split(s[i + 1..], d);
      assert Split(s, d) == [s[..i]] + rest;
      assert ([s[..i]] + rest)[1..] == rest;
      JoinSplit(s[i + 1..], d);
      assert s == s[..i] + [d] + s[i + 1..];
    }
  }

  /** The first `d` in `a + [d] + b` is right after `a` when `a` has none. */
  lemma IndexOfAfterPrefix(a: string, b: string, d: char)
    requires d !in a
    ensures d in a + [d] + b
    ensures IndexOf(a + [d] + b, d) == |a|
  {
    var s := a + [d] + b;
    assert s[|a|] == d;
    assert s[..|a|] == a;
  }

  /** Splitting a join of separator-free segments gives back the segments. */
  lemma {:induction false} SplitJoin(segs: seq<string>, d: char)
    requires |segs| >= 1
    requires forall i :: 0 <= i < |segs| ==> d !in segs[i]
    ensures Split(Join(segs, d), d) == segs
  {
    if |segs| > 1 {
      var tail := Join(segs[1..], d);
      var s := segs[0] + [d] + tail;
      assert Join(segs, d) == s;
      IndexOfAfterPrefix(segs[0], tail, d);
      assert s[..|segs[0]|] == segs[0];
      assert s[|segs[0]| + 1..] == tail;
      assert Split(s, d) == [segs[0]] + Split(tail, d);
      SplitJoin(segs[1..], d);
      assert segs == [segs[0]] + segs[1..];
    }
  }

  lemma {:induction false} JoinAppend(segs: seq<string>, last: string, d: char)
    requires |segs| >= 1
    ensures Join(segs + [last], d) == Join(segs, d) + [d] + last
  {
    if |segs| > 1 {
      assert (segs + [last])[1..] == segs[1..] + [last];
      JoinAppend(segs[1..], last, d);
    }
  }

  /** Appending `d` and a separator-free segment adds exactly one segment. */
  lemma SplitAppend(s: string, last: string, d: char)
    requires d !in last
    ensures Split(s + [d] + last, d) == Split(s, d) + [last]
  {
    var segs := Split(s, d);
    JoinSplit(s, d);
    JoinAppend(segs, last, d);
    SplitJoin(segs + [last], d);
  }

  // ---------------------------------------------------------------------
  // Decimal conversion
  // ---------------------------------------------------------------------

  function DigitChar(v: nat): (c: char)
    requires v < 10
    ensures IsDigit(c)
  {
    ('0' as int + v) as char
  }

  /** Canonical decimal rendering of an index, as printf("%d") writes it. */
  function NatToString(n: nat): (r: string)
    ensures IsNumeric(r)
    ensures '.' !in r && ',' !in r
  {
    if n < 10 then [DigitChar(n)]
    else NatToString(n / 10) + [DigitChar(n % 10)]
  }

  function Pow10(k: nat): (r: nat)
    ensures r >= 1
  {
    if k == 0 then 1 else 10 * Pow10(k - 1)
  }

  /** For k > 0, an index has more than k digits iff it is at least 10^k. */
  lemma {:induction false} NatToStringLength(n: nat, k: nat)
    requires k > 0
    ensures |NatToString(n)| > k <==> n >= Pow10(k)
  {
    if n >= 10 && k > 1 {
      NatToStringLength(n / 10, k - 1);
    }
  }

  /** Decimal value of a digit string (atoi() on a numeric string). */
  function ParseNat(s: string): nat
    requires forall i :: 0 <= i < |s| ==> IsDigit(s[i])
  {
    if |s| == 0 then 0
    else
      assert IsDigit(s[|s| - 1]);
      ParseNat(s[..|s| - 1]) * 10 + (s[|s| - 1] as int - '0' as int)
  }

  /** Parsing a rendered index gives the index back. */
  lemma {:induction false} ParseNatToString(n: nat)
    ensures ParseNat(NatToString(n)) == n
  {
    if n >= 10 {
      var s := NatToString(n);
      assert s[..|s| - 1] == NatToString(n / 10);
      ParseNatToString(n / 10);
    }
  }

  lemma NatToStringInjective(m: nat, n: nat)
    requires NatToString(m) == NatToString(n)
    ensures m == n
  {
    ParseNatToString(m);
    ParseNatToString(n);
  }

  // ---------------------------------------------------------------------
  // Search, replace, trim
  // ---------------------------------------------------------------------

  /** `needle` occurs in `s` at position `j`. */
  predicate OccursAt(s: string, needle: string, j: nat) {
    j + |needle| <= |s| && s[j..j + |needle|] == needle
  }

  function FindFrom(s: string, needle: string, i: nat): (r: Option<nat>)
    requires i <= |s|
    ensures r.Some? ==> i <= r.value && OccursAt(s, needle, r.value)
    ensures r.Some? ==> forall j :: i <= j < r.value ==> !OccursAt(s, needle, j)
    ensures r.None? ==> forall j :: i <= j ==> !OccursAt(s, needle, j)
    decreases |s| - i
  {
    if i + |needle| > |s| then None
    else if s[i..i + |needle|] == needle then Some(i)
    else if i == |s| then None
    else FindFrom(s, needle, i + 1)
  }

  /** Position of the first occurrence of `needle` in `s`, if any. */
  function FindFirst(s: string, needle: string): (r: Option<nat>)
    ensures r.Some? <==> Contains(s, needle)
    ensures r.Some? ==> OccursAt(s, needle, r.value)
    ensures r.Some? ==> forall j: nat :: j < r.value ==> !OccursAt(s, needle, j)
  {
    FindFrom(s, needle, 0)
  }

  predicate Contains(s: string, needle: string) {
    exists j | 0 <= j <= |s| :: OccursAt(s, needle, j)
  }

  /** `s` with every trailing `c` removed (amxc_string_trimr). */
  function TrimRight(s: string, c: char): (r: string)
    ensures StartsWith(s, r)
    ensures |r| == 0 || r[|r| - 1] != c
    ensures forall i :: |r| <= i < |s| ==> s[i] == c
  {
    if |s| > 0 && s[|s| - 1] == c then TrimRight(s[..|s| - 1], c) else s
  }
}
