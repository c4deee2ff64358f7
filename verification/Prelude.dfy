/** Shared vocabulary: optional values, results that carry an error, decimal rendering of naturals, and multiples. */
module Prelude {
  datatype Option<+T> = None | Some(value: T)

  datatype Result<+T, +E> = Ok(value: T) | Err(error: E)

  function Digit(d: nat): char
    requires d < 10
  {
    "0123456789"[d]
  }

  /** `str(n)` of a non-negative Python integer. */
  function Decimal(n: nat): (s: string)
    ensures |s| >= 1 && (n >= 10 <==> |s| >= 2)
  {
    if n < 10 then [Digit(n)] else Decimal(n / 10) + [Digit(n % 10)]
  }

  predicate IsDigit(c: char) { '0' <= c <= '9' }

  /** The number that decimal digits stand for. */
  function NumberOf(s: string): nat
    requires forall i :: 0 <= i < |s| ==> IsDigit(s[i])
  {
    if s == "" then 0
    else
      assert IsDigit(s[|s| - 1]);
      10 * NumberOf(s[..|s| - 1]) + (s[|s| - 1] as int - '0' as int)
  }

  lemma OneMoreDigit(front: string, d: nat)
    requires d < 10 && forall i :: 0 <= i < |front| ==> IsDigit(front[i])
    ensures forall i :: 0 <= i < |front| + 1 ==> IsDigit((front + [Digit(d)])[i])
    ensures NumberOf(front + [Digit(d)]) == 10 * NumberOf(front) + d
  {
    var s := front + [Digit(d)];
    assert s[..|front|] == front;
  }

  /** Rendering a number in decimal can be undone, and puts no zero in front of another digit. */
  lemma {:induction false} DecimalRoundTrip(n: nat)
    ensures forall i :: 0 <= i < |Decimal(n)| ==> IsDigit(Decimal(n)[i])
    ensures NumberOf(Decimal(n)) == n && (n > 0 ==> Decimal(n)[0] != '0')
  {
    if n >= 10 {
      DecimalRoundTrip(n / 10);
      OneMoreDigit(Decimal(n / 10), n % 10);
      hide NumberOf, Digit;
    } else {
      OneMoreDigit("", n);
      assert "" + [Digit(n)] == [Digit(n)];
    }
  }

  lemma DecimalInjective(m: nat, n: nat)
    requires Decimal(m) == Decimal(n)
    ensures m == n
  {
    DecimalRoundTrip(m);
    DecimalRoundTrip(n);
  }

  /** Products and remainders under names of their own. */
  function Times(a: nat, b: nat): nat { a * b }

  function Wrap(n: nat, d: nat): (r: nat)
    requires d > 0
    ensures r < d
  {
    n % d
  }

  lemma QuotientAndRemainder(e: nat, p: nat, L: nat)
    requires p < L
    ensures (Times(e, L) + p) / L == e && (Times(e, L) + p) % L == p
  {
    var n := e * L + p;
    var q, r := n / L, n % L;
    assert (q - e) * L == p - r by { assert n == q * L + r; }
    assert (e - q) * L == r - p by { assert n == q * L + r; }
    if q > e {
      ProductAtLeast(q - e, L);
    } else if q < e {
      ProductAtLeast(e - q, L);
    }
  }

  lemma ProductAtLeast(m: int, d: nat)
    requires m >= 1
    ensures m * d >= d
  {
    assert m * d == (m - 1) * d + d && (m - 1) * d >= 0;
  }
}
