/**
 * The string primitives the dashboard script relies on: `indexOf`/`includes`
 * substring search, the ASCII case folding a case-insensitive regular
 * expression applies to an ASCII pattern, and the decimal form `String(n)`
 * gives a non-negative integer.
 */
module Text {

  /** `p` occurs in `s` starting at index `i`. */
  predicate OccursAt(s: string, p: string, i: int) {
    0 <= i && i + |p| <= |s| && s[i..i + |p|] == p
  }

  /** An occurrence one position into `s` is an occurrence in `s[1..]`. */
  lemma OccursShift(s: string, p: string, i: int)
    requires |s| > 0 && 0 <= i
    ensures OccursAt(s, p, i + 1) <==> OccursAt(s[1..], p, i)
  {
    if i + 1 + |p| <= |s| {
      assert s[1..][i..i + |p|] == s[i + 1..i + 1 + |p|];
    }
  }

  /**
   * `s.indexOf(p)`: the first index at which `p` occurs in `s`, or -1 when
   * it occurs nowhere.
   */
  function IndexOf(s: string, p: string): (r: int)
    ensures r == -1 || 0 <= r <= |s| - |p|
    ensures r == -1 <==> forall i :: !OccursAt(s, p, i)
    ensures r != -1 ==> OccursAt(s, p, r) && forall j :: 0 <= j < r ==> !OccursAt(s, p, j)
    decreases |s|
  {
    if p <= s then
      assert OccursAt(s, p, 0);
      0
    else if |s| == 0 then
      -1
    else
      var k := IndexOf(s[1..], p);
      assert forall i :: 0 <= i ==> (OccursAt(s, p, i + 1) <==> OccursAt(s[1..], p, i)) by {
        forall i | 0 <= i ensures OccursAt(s, p, i + 1) <==> OccursAt(s[1..], p, i) {
          OccursShift(s, p, i);
        }
      }
      assert !OccursAt(s, p, 0);
      if k == -1 then
        assert forall i :: !OccursAt(s, p, i) by {
          forall i ensures !OccursAt(s, p, i) {
            if i >= 1 { assert !OccursAt(s[1..], p, i - 1); }
          }
        }
        -1
      else
        assert forall j :: 0 <= j < k + 1 ==> !OccursAt(s, p, j) by {
          forall j | 0 <= j < k + 1 ensures !OccursAt(s, p, j) {
            if j >= 1 { assert !OccursAt(s[1..], p, j - 1); }
          }
        }
        k + 1
  }

  /** `s.includes(p)`, which holds exactly when `s.indexOf(p) !== -1`. */
  function Includes(s: string, p: string): (r: bool)
    ensures r <==> exists i :: OccursAt(s, p, i)
  {
    IndexOf(s, p) != -1
  }

  /** Lower-cases the ASCII letters A-Z and leaves every other character alone. */
  function LowerAscii(c: char): (r: char)
    ensures 'A' <= c <= 'Z' ==> r as int == c as int + 32
    ensures !('A' <= c <= 'Z') ==> r == c
  {
    if 'A' <= c <= 'Z' then (c as int + 32) as char else c
  }

  function Lower(s: string): (r: string)
    ensures |r| == |s|
    ensures forall i :: 0 <= i < |s| ==> r[i] == LowerAscii(s[i])
  {
    seq(|s|, i requires 0 <= i < |s| => LowerAscii(s[i]))
  }

  /** `a` and `b` are equal once ASCII letters are compared without regard to case. */
  predicate SameIgnoringCase(a: string, b: string) {
    |a| == |b| && forall i :: 0 <= i < |a| ==> LowerAscii(a[i]) == LowerAscii(b[i])
  }

  /** `p` matches `s` at index `i` without regard to ASCII case. */
  predicate OccursIgnoringCaseAt(s: string, p: string, i: int) {
    0 <= i && i + |p| <= |s| && SameIgnoringCase(s[i..i + |p|], p)
  }

  lemma LowerOccurs(s: string, p: string, i: int)
    ensures OccursAt(Lower(s), Lower(p), i) <==> OccursIgnoringCaseAt(s, p, i)
  {
    if 0 <= i && i + |p| <= |s| {
      var w := s[i..i + |p|];
      if OccursAt(Lower(s), Lower(p), i) {
        forall k | 0 <= k < |p| ensures LowerAscii(w[k]) == LowerAscii(p[k]) {
          assert Lower(s)[i..i + |p|][k] == Lower(p)[k];
        }
      }
      if OccursIgnoringCaseAt(s, p, i) {
        assert Lower(s)[i..i + |p|] == Lower(p) by {
          forall k | 0 <= k < |p| ensures Lower(s)[i..i + |p|][k] == Lower(p)[k] {
            assert w[k] == s[i + k];
          }
        }
      }
    }
  }

  /**
   * A case-insensitive test for the ASCII pattern `p` anywhere in `s`. It
   * searches the lower-cased subject for the lower-cased pattern.
   */
  function IncludesIgnoringCase(s: string, p: string): (r: bool)
    ensures r <==> exists i :: OccursIgnoringCaseAt(s, p, i)
  {
    var r := Includes(Lower(s), Lower(p));
    assert forall i :: OccursAt(Lower(s), Lower(p), i) <==> OccursIgnoringCaseAt(s, p, i) by {
      forall i ensures OccursAt(Lower(s), Lower(p), i) <==> OccursIgnoringCaseAt(s, p, i) {
        LowerOccurs(s, p, i);
      }
    }
    r
  }

  /** Folding case twice is folding it once. */
  lemma {:induction false} LowerIdempotent(s: string)
    ensures Lower(Lower(s)) == Lower(s)
  {
    forall i | 0 <= i < |s| ensures Lower(Lower(s))[i] == Lower(s)[i] {
      var c := s[i];
      assert Lower(s)[i] == LowerAscii(c);
    }
  }

  // ---------------------------------------------------------------------
  // Decimal text of a non-negative integer
  // ---------------------------------------------------------------------

  predicate IsDigit(c: char) {
    '0' <= c <= '9'
  }

  /** Non-empty, digits only, and no leading zero unless it is "0" itself. */
  predicate IsCanonicalDecimal(s: string) {
    |s| > 0 && (forall i :: 0 <= i < |s| ==> IsDigit(s[i])) && (s[0] == '0' ==> |s| == 1)
  }

  function DigitChar(d: nat): (c: char)
    requires d < 10
    ensures IsDigit(c) && c as int - '0' as int == d
  {
    (d + '0' as int) as char
  }

  /** `String(n)` for a non-negative integer below 10^21, where JavaScript uses plain decimal notation. */
  function NatToString(n: nat): (r: string)
    ensures IsCanonicalDecimal(r)
    decreases n
  {
    if n < 10 then [DigitChar(n)]
    else
      var prefix := NatToString(n / 10);
      assert prefix[0] != '0';
      prefix + [DigitChar(n % 10)]
  }

  /** The value of a string of decimal digits. */
  function DecimalValue(s: string): nat
    requires forall i :: 0 <= i < |s| ==> IsDigit(s[i])
  {
    if s == [] then 0
    else
      assert IsDigit(s[|s| - 1]);
      DecimalValue(s[..|s| - 1]) * 10 + (s[|s| - 1] as int - '0' as int)
  }

  /** Reading the decimal text back gives the number: the text shows the value itself. */
  lemma {:induction false} NatToStringRoundTrip(n: nat)
    ensures DecimalValue(NatToString(n)) == n
    decreases n
  {
    if n >= 10 {
      NatToStringRoundTrip(n / 10);
      var s := NatToString(n);
      assert s[..|s| - 1] == NatToString(n / 10);
    }
  }

  /** Different numbers are shown as different texts. */
  lemma NatToStringInjective(m: nat, n: nat)
    requires NatToString(m) == NatToString(n)
    ensures m == n
  {
    NatToStringRoundTrip(m);
    NatToStringRoundTrip(n);
  }
}
