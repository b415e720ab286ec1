/** Small shared vocabulary: an optional value, character counting,
    maximal runs, joining, and decimal rendering of integers. */
module Basics {

  datatype Option<+T> = None | Some(value: T)

  /** Number of occurrences of `c` in `s`. */
  function Count(c: char, s: string): (k: nat)
    ensures k <= |s|
    ensures k == 0 <==> c !in s
  {
    if s == [] then 0
    else (if s[0] == c then 1 else 0) + Count(c, s[1..])
  }

  lemma {:induction false} CountAppend(c: char, a: string, b: string)
    ensures Count(c, a + b) == Count(c, a) + Count(c, b)
  {
    if a == [] {
      assert a + b == b;
    } else {
      assert (a + b)[1..] == a[1..] + b;
      CountAppend(c, a[1..], b);
    }
  }

  /** End of the maximal run of characters satisfying `p` that starts at `i`:
      the first index at or after `i` whose character fails `p`, or `|s|`. */
  function RunEnd(s: string, i: nat, p: char -> bool): (j: nat)
    requires i <= |s|
    ensures i <= j <= |s|
    ensures forall k :: i <= k < j ==> p(s[k])
    ensures j == |s| || !p(s[j])
    decreases |s| - i
  {
    if i < |s| && p(s[i]) then RunEnd(s, i + 1, p) else i
  }

  /** The run end is determined by the characters alone: any index with the
      two properties of `RunEnd` is `RunEnd`. */
  lemma RunEndUnique(s: string, i: nat, p: char -> bool, j: nat)
    requires i <= j <= |s|
    requires forall k :: i <= k < j ==> p(s[k])
    requires j == |s| || !p(s[j])
    ensures RunEnd(s, i, p) == j
  {
  }

  /** `parts` separated by `sep`, as `f(a, b)` lays out its arguments. */
  function Join(parts: seq<string>, sep: string): (r: string)
    ensures |parts| == 1 ==> r == parts[0]
    ensures |parts| == 0 ==> r == ""
  {
    if |parts| == 0 then ""
    else if |parts| == 1 then parts[0]
    else parts[0] + sep + Join(parts[1..], sep)
  }

  /** One more part is written after a separator. */
  lemma {:induction false} JoinAppend(parts: seq<string>, x: string, sep: string)
    requires |parts| > 0
    ensures Join(parts + [x], sep) == Join(parts, sep) + (sep + x)
    decreases |parts|
  {
    var q := parts + [x];
    assert q[0] == parts[0];
    if |parts| == 1 {
      assert q[1..] == [x];
    } else {
      assert q[1..] == parts[1..] + [x];
      JoinAppend(parts[1..], x, sep);
    }
  }

  /** Concatenation of all `parts`. */
  function Concat(parts: seq<string>): (r: string)
    ensures |parts| == 0 ==> r == ""
  {
    if |parts| == 0 then "" else parts[0] + Concat(parts[1..])
  }

  lemma {:induction false} ConcatAppend(a: seq<string>, b: seq<string>)
    ensures Concat(a + b) == Concat(a) + Concat(b)
  {
    if |a| == 0 {
      assert a + b == b;
    } else {
      assert (a + b)[1..] == a[1..] + b;
      ConcatAppend(a[1..], b);
    }
  }

  predicate IsDigit(c: char) {
    '0' <= c <= '9'
  }

  function DigitChar(d: nat): (c: char)
    requires d < 10
    ensures IsDigit(c)
  {
    ['0', '1', '2', '3', '4', '5', '6', '7', '8', '9'][d]
  }

  function DigitValue(c: char): (d: nat)
    requires IsDigit(c)
    ensures d < 10
    ensures DigitChar(d) == c
  {
    (c as int - '0' as int) as nat
  }

  /** Decimal spelling of a natural number, as C's `%d` writes it. */
  function NatToString(n: nat): (r: string)
    ensures |r| >= 1
    ensures forall k :: 0 <= k < |r| ==> IsDigit(r[k])
    ensures |r| > 1 ==> r[0] != '0'
    ensures n < 10 <==> |r| == 1
  {
    if n < 10 then [DigitChar(n)] else NatToString(n / 10) + [DigitChar(n % 10)]
  }

  /** Value of a non-empty run of decimal digits. */
  function ParseNat(s: string): nat
    requires forall k :: 0 <= k < |s| ==> IsDigit(s[k])
  {
    if s == [] then 0 else 10 * ParseNat(s[..|s| - 1]) + DigitValue(s[|s| - 1])
  }

  /** Reading back a rendered number gives the number. */
  lemma {:induction false} NatToStringRoundTrip(n: nat)
    ensures ParseNat(NatToString(n)) == n
  {
    var r := NatToString(n);
    if n >= 10 {
      assert r[..|r| - 1] == NatToString(n / 10);
      NatToStringRoundTrip(n / 10);
    }
  }

  /** Decimal spelling of an integer with a leading '-' when negative. */
  function IntToString(i: int): (r: string)
    ensures |r| >= 1
    ensures i < 0 <==> r[0] == '-'
    ensures i >= 0 ==> forall k :: 0 <= k < |r| ==> IsDigit(r[k])
    ensures i >= 0 ==> ParseNat(r) == i
    ensures i < 0 ==> forall k :: 1 <= k < |r| ==> IsDigit(r[k])
    ensures i < 0 ==> ParseNat(r[1..]) == -i
  {
    if i < 0 then
      NatToStringRoundTrip(-i);
      "-" + NatToString(-i)
    else
      NatToStringRoundTrip(i);
      NatToString(i)
  }
}
