/** Calendar dates written as ISO `YYYY-MM-DD` strings: the value the events pipeline sorts by,
    and the proof that comparing such strings as strings compares them chronologically. */
module Dates {
  import opened Strings

  predicate IsDigit(c: char) {
    '0' <= c <= '9'
  }

  function DigitValue(c: char): (d: nat)
    requires IsDigit(c)
    ensures d <= 9
  {
    c as int - '0' as int
  }

  predicate AllDigits(s: string) {
    forall i :: 0 <= i < |s| ==> IsDigit(s[i])
  }

  /** A well-formed ISO date: four year digits, a dash, two month digits, a dash, two day digits. */
  predicate IsIsoDate(s: string) {
    |s| == 10 && s[4] == '-' && s[7] == '-' &&
    AllDigits(s[0..4]) && AllDigits(s[5..7]) && AllDigits(s[8..10])
  }

  function Pow10(n: nat): (p: nat)
    ensures p >= 1
  {
    if n == 0 then 1 else 10 * Pow10(n - 1)
  }

  /** The decimal value of a digit string, most significant digit first. */
  function Num(s: string): (v: nat)
    requires AllDigits(s)
    ensures v < Pow10(|s|)
  {
    if s == [] then 0
    else
      var p, d, rest := Pow10(|s| - 1), DigitValue(s[0]), Num(s[1..]);
      HeadDecides(d, 10, rest, 0, p);
      d * p + rest
  }

  /** The eight digits of an ISO date, year first. */
  function DateDigits(s: string): (r: string)
    requires IsIsoDate(s)
    ensures |r| == 8 && AllDigits(r)
  {
    s[0..4] + s[5..7] + s[8..10]
  }

  /** What `new Date(d)` orders by: the number yyyymmdd for an ISO date, so that a later year, then
      a later month, then a later day is larger. A string that is not an ISO date gets a value above
      every ISO date: it sorts after all of them. */
  function DateValue(s: string): (v: nat)
    ensures IsIsoDate(s) ==> v < 100000000
    ensures !IsIsoDate(s) ==> v == 100000000
  {
    if IsIsoDate(s) then Num(DateDigits(s)) else 100000000
  }

  /** Comparing `p + x` with `q + y` for equal-length heads: the heads decide unless they agree. */
  lemma {:induction false} CompareAppend(p: string, x: string, q: string, y: string)
    requires |p| == |q|
    ensures Compare(p + x, q + y) == if p == q then Compare(x, y) else Compare(p, q)
    decreases |p|
  {
    if p != [] {
      assert (p + x)[1..] == p[1..] + x && (q + y)[1..] == q[1..] + y;
      CompareAppend(p[1..], x, q[1..], y);
      if p[0] == q[0] && p[1..] == q[1..] {
        assert p == [p[0]] + p[1..] && q == [q[0]] + q[1..];
      }
    } else {
      assert p + x == x && q + y == y;
    }
  }

  /** For digit strings of one length, string order is numeric order. */
  lemma {:induction false} DigitOrder(x: string, y: string)
    requires |x| == |y| && AllDigits(x) && AllDigits(y)
    ensures StrLe(x, y) <==> Num(x) <= Num(y)
    decreases |x|
  {
    if x != [] {
      var p := Pow10(|x| - 1);
      var rx, ry := x[1..], y[1..];
      assert AllDigits(rx) && AllDigits(ry);
      var nx, ny := Num(rx), Num(ry);
      assert Num(x) == DigitValue(x[0]) * p + nx;
      assert Num(y) == DigitValue(y[0]) * p + ny;
      if x[0] < y[0] {
        assert Compare(x, y) == -1;
        HeadDecides(DigitValue(x[0]), DigitValue(y[0]), nx, ny, p);
      } else if x[0] > y[0] {
        assert Compare(x, y) == 1;
        HeadDecides(DigitValue(y[0]), DigitValue(x[0]), ny, nx, p);
      } else {
        assert Compare(x, y) == Compare(rx, ry);
        DigitOrder(rx, ry);
      }
    }
  }

  /** A larger leading digit outweighs any difference in the remaining digits. */
  lemma HeadDecides(d: nat, e: nat, m: nat, n: nat, p: nat)
    requires d < e && m < p && n < p
    ensures d * p + m < e * p + n
  {
    var k: nat := e - d - 1;
    assert e * p == d * p + p + k * p;
  }

  /** A position where both strings hold the same character can be dropped from both. */
  lemma DropEqualAt(a: string, b: string, i: nat)
    requires |a| == |b| && i < |a| && a[i] == b[i]
    ensures Compare(a, b) == Compare(a[..i] + a[i + 1..], b[..i] + b[i + 1..])
  {
    var p, q, x, y := a[..i], b[..i], a[i + 1..], b[i + 1..];
    SplitAt(a, i);
    SplitAt(b, i);
    CompareAppend(p, [a[i]] + x, q, [a[i]] + y);
    CompareCons(a[i], x, y);
    CompareAppend(p, x, q, y);
  }

  /** A string is its part before `i`, its character at `i` and its part after `i`. */
  lemma SplitAt(s: string, i: nat)
    requires i < |s|
    ensures s == s[..i] + ([s[i]] + s[i + 1..])
  {
    assert s[i..] == [s[i]] + s[i + 1..];
  }

  /** Dropping the dash at 7, then the one at 4, leaves the date's digits. */
  lemma DropDashes(a: string)
    requires IsIsoDate(a)
    ensures var a' := a[..7] + a[8..]; a'[..4] + a'[5..] == DateDigits(a)
  {
  }

  /** The dashes of two ISO dates sit at the same places, so they do not affect the comparison. */
  lemma IsoCompareDigits(a: string, b: string)
    requires IsIsoDate(a) && IsIsoDate(b)
    ensures Compare(a, b) == Compare(DateDigits(a), DateDigits(b))
  {
    var a', b' := a[..7] + a[8..], b[..7] + b[8..];
    DropEqualAt(a, b, 7);
    DropEqualAt(a', b', 4);
    DropDashes(a);
    DropDashes(b);
  }

  /** For well-formed ISO dates the string comparison `a <= b` ordering the date filter uses is
      exactly the chronological order the date sort uses. */
  lemma IsoStringOrderIsChronological(a: string, b: string)
    requires IsIsoDate(a) && IsIsoDate(b)
    ensures StrLe(a, b) <==> DateValue(a) <= DateValue(b)
  {
    IsoCompareDigits(a, b);
    DigitOrder(DateDigits(a), DateDigits(b));
  }
}
