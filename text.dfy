/**
 * The few string operations of Ruby's String class that the rule engine
 * relies on: `gsub!` with a String pattern, `index` of a character and the
 * decimal formatting done by string interpolation.
 */
module Text {
  import opened Wrappers

  predicate IsDigit(c: char) {
    '0' <= c <= '9'
  }

  /** `pat` occurs in `s` starting at position `i`. */
  predicate StartsAt(s: string, i: nat, pat: string) {
    i + |pat| <= |s| && s[i..i + |pat|] == pat
  }

  /**
   * `s.gsub(pat, rep)` for a String `pat`: scan left to right, replace every
   * non-overlapping occurrence of `pat` by `rep` and continue after it.
   * `rep` is inserted literally.
   */
  function ReplaceAll(s: string, pat: string, rep: string): (r: string)
    requires pat != []
    ensures rep == pat ==> r == s
    decreases |s|
  {
    if |s| < |pat| then s
    else if s[..|pat|] == pat then rep + ReplaceAll(s[|pat|..], pat, rep)
    else [s[0]] + ReplaceAll(s[1..], pat, rep)
  }

  /** An occurrence at the very start is replaced and the scan goes on after it. */
  lemma ReplaceAllHit(pat: string, rest: string, rep: string)
    requires pat != []
    ensures ReplaceAll(pat + rest, pat, rep) == rep + ReplaceAll(rest, pat, rep)
  {
    var s := pat + rest;
    assert s[..|pat|] == pat;
    assert s[|pat|..] == rest;
  }

  /** Occurrences in the tail of `s` are the occurrences in `s` shifted by one. */
  lemma StartsAtTail(s: string, i: nat, pat: string)
    requires s != []
    ensures StartsAt(s[1..], i, pat) <==> StartsAt(s, i + 1, pat)
  {
    if i + 1 + |pat| <= |s| {
      assert s[1..][i..i + |pat|] == s[i + 1..i + 1 + |pat|];
    }
  }

  /** The first `k` characters of `s`, in which no occurrence starts, are copied unchanged. */
  lemma {:induction false} ReplaceAllFrom(s: string, k: nat, pat: string, rep: string)
    requires pat != [] && k <= |s|
    requires forall i :: 0 <= i < k ==> !StartsAt(s, i, pat)
    ensures ReplaceAll(s, pat, rep) == s[..k] + ReplaceAll(s[k..], pat, rep)
    decreases k
  {
    if k > 0 && |pat| <= |s| {
      assert !StartsAt(s, 0, pat);
      assert s[..|pat|] != pat;
      assert ReplaceAll(s, pat, rep) == [s[0]] + ReplaceAll(s[1..], pat, rep);
      forall i | 0 <= i < k - 1
        ensures !StartsAt(s[1..], i, pat)
      {
        StartsAtTail(s, i, pat);
      }
      ReplaceAllFrom(s[1..], k - 1, pat, rep);
      assert s[1..][..k - 1] == s[1..k];
      assert s[1..][k - 1..] == s[k..];
      assert s[..k] == [s[0]] + s[1..k];
    } else if k > 0 {
      assert |s[k..]| < |pat|;
      assert s[..k] + s[k..] == s;
    }
  }

  /** A prefix in which no occurrence starts is copied unchanged. */
  lemma ReplaceAllSkip(a: string, rest: string, pat: string, rep: string)
    requires pat != []
    requires forall i :: 0 <= i < |a| ==> !StartsAt(a + rest, i, pat)
    ensures ReplaceAll(a + rest, pat, rep) == a + ReplaceAll(rest, pat, rep)
  {
    var s := a + rest;
    ReplaceAllFrom(s, |a|, pat, rep);
    assert s[..|a|] == a;
    assert s[|a|..] == rest;
  }

  /** With no occurrence of `pat`, `gsub` returns its receiver unchanged. */
  lemma ReplaceAllAbsent(s: string, pat: string, rep: string)
    requires pat != []
    requires forall i :: 0 <= i < |s| ==> !StartsAt(s, i, pat)
    ensures ReplaceAll(s, pat, rep) == s
  {
    assert s + [] == s;
    ReplaceAllSkip(s, [], pat, rep);
  }

  /**
   * `s.index(c)`: the position of the first `c` in `s`, or nil.
   */
  function IndexOf(s: string, c: char): (r: Option<nat>)
    ensures r.None? <==> c !in s
    ensures r.Some? ==> r.value < |s| && s[r.value] == c && c !in s[..r.value]
  {
    if s == [] then None
    else if s[0] == c then Some(0)
    else match IndexOf(s[1..], c)
      case None => None
      case Some(i) =>
        assert s[..i + 1] == [s[0]] + s[1..][..i];
        Some(i + 1)
  }

  /** A `c` at `i` with none before it is the one `index` finds. */
  lemma IndexOfAt(s: string, c: char, i: nat)
    requires i < |s| && s[i] == c && c !in s[..i]
    ensures IndexOf(s, c) == Some(i)
  {
    var r := IndexOf(s, c);
    assert r.Some?;
    assert forall j :: 0 <= j < i ==> s[..i][j] == s[j];
    assert forall j :: 0 <= j < r.value ==> s[..r.value][j] == s[j];
  }

  /** A string is its part before position `q`, the character at `q`, and its part after. */
  lemma SplitAround(s: string, q: nat)
    requires q < |s|
    ensures s == s[..q] + [s[q]] + s[q + 1..]
  {
  }

  function Digit(d: nat): (c: char)
    requires d < 10
    ensures IsDigit(c)
  {
    (('0' as int) + d) as char
  }

  /** The decimal form of `n` that `"#{n}"` produces. */
  function Decimal(n: nat): (r: string)
    ensures r != []
    ensures forall i :: 0 <= i < |r| ==> IsDigit(r[i])
    decreases n
  {
    if n < 10 then [Digit(n)] else Decimal(n / 10) + [Digit(n % 10)]
  }

  /** Distinct numbers have distinct decimal forms. */
  lemma {:induction false} DecimalInjective(a: nat, b: nat)
    requires Decimal(a) == Decimal(b)
    ensures a == b
    decreases a
  {
    var da, db := Decimal(a), Decimal(b);
    assert da[|da| - 1] == db[|db| - 1];
    if a >= 10 && b >= 10 {
      assert Decimal(a / 10) == da[..|da| - 1] == db[..|db| - 1] == Decimal(b / 10);
      DecimalInjective(a / 10, b / 10);
    }
  }

  /** A larger number never has a shorter decimal form. */
  lemma {:induction false} DecimalLengthMonotone(a: nat, b: nat)
    requires a <= b
    ensures |Decimal(a)| <= |Decimal(b)|
    decreases b
  {
    if b >= 10 && a >= 10 {
      DecimalLengthMonotone(a / 10, b / 10);
    }
  }

  /**
   * Ruby's `s[first..last]` with an inclusive end, where a negative `last`
   * counts from the end of `s` (so `s[0..-1]` is all of `s`).
   */
  function RangeSlice(s: string, first: nat, last: int): (r: string)
    requires first <= |s| && -|s| <= last
    ensures 0 <= last < |s| && first <= last + 1 ==> r == s[first..last + 1]
    ensures last == -1 ==> r == s[first..]
  {
    var end := if last < 0 then |s| + last else last;
    if end < first then [] else s[first..if end + 1 < |s| then end + 1 else |s|]
  }
}
