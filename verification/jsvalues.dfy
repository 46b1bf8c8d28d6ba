/**
  The few JavaScript value semantics the scorekeeper relies on: `null`/absent
  values, the number `NaN`, addition that propagates `NaN`, and the `%`
  operator, whose remainder takes the sign of the dividend and which yields
  `NaN` for a zero divisor.
 */
module JsValues {

  /** A value that may be missing (`null`, or an absent optional field). */
  datatype Option<+T> = None | Some(value: T)

  /** A JavaScript number restricted to the integers the program computes with, plus `NaN`. */
  datatype Num = Finite(v: int) | NaN

  /** `a + b` on numbers: `NaN` is absorbing. */
  function Add(a: Num, b: Num): (r: Num)
    ensures r.Finite? <==> a.Finite? && b.Finite?
    ensures r.Finite? ==> r.v == a.v + b.v
  {
    if a.Finite? && b.Finite? then Finite(a.v + b.v) else NaN
  }

  /** JavaScript's `a % n` for a non-zero divisor: truncated division, so the remainder has the sign of `a`. */
  function TruncRem(a: int, n: int): (r: int)
    requires n > 0
    ensures a >= 0 ==> 0 <= r < n && r == a % n
    ensures a < 0 ==> -n < r <= 0 && (a - r) % n == 0
  {
    if a >= 0 then a % n
    else
      NegativeRemainder(a, n);
      -((-a) % n)
  }

  /** For a negative dividend, the truncated remainder differs from the dividend by a whole multiple of `n`. */
  lemma NegativeRemainder(a: int, n: int)
    requires n > 0 && a < 0
    ensures (a + (-a) % n) % n == 0
  {
    assert a + (-a) % n == 0 + -((-a) / n) * n;
    ModShift(0, n, -((-a) / n));
  }

  /** JavaScript's `a % n` where `n` is a length: `NaN` when `n` is zero. */
  function Rem(a: int, n: nat): (r: Num)
    ensures r.NaN? <==> n == 0
    ensures n > 0 && a >= 0 ==> r == Finite(a % n)
    ensures n > 0 && a < 0 ==> r.Finite? && -(n as int) < r.v <= 0 && (a - r.v) % n == 0
  {
    if n == 0 then NaN else Finite(TruncRem(a, n))
  }

  /** Lifts a vector of integers to a vector of (finite) numbers. */
  function Lift(v: seq<int>): (r: seq<Num>)
    ensures |r| == |v|
    ensures forall i :: 0 <= i < |v| ==> r[i] == Finite(v[i])
  {
    seq(|v|, i requires 0 <= i < |v| => Finite(v[i]))
  }

  /** The remainder of `a` modulo `n` is the unique `r` in `[0, n)` with `a == n * q + r`. */
  lemma ModUnique(a: int, n: int, q: int, r: int)
    requires n > 0 && 0 <= r < n && a == n * q + r
    ensures a % n == r && a / n == q
  {
    var q0, r0 := a / n, a % n;
    var d := q - q0;
    assert n * d == r0 - r by {
      assert n * q - n * q0 == n * (q - q0);
    }
    if d >= 1 {
      MulAtLeast(n, d);
    } else if d <= -1 {
      MulAtLeast(n, -d);
    }
  }

  /** A positive multiple of a positive number is at least that number. */
  lemma MulAtLeast(n: int, d: int)
    requires n > 0 && d >= 1
    ensures n * d >= n
  {
    assert n * d == n + n * (d - 1);
  }

  /** Adding whole multiples of `n` does not change the remainder. */
  lemma ModShift(a: int, n: int, k: int)
    requires n > 0
    ensures (a + k * n) % n == a % n
  {
    assert a + k * n == n * (a / n + k) + a % n;
    ModUnique(a + k * n, n, a / n + k, a % n);
  }

  /** The remainder of a successor is the successor of the remainder, taken again modulo `n`. */
  lemma ModSucc(a: int, n: int)
    requires n > 0
    ensures (a + 1) % n == (a % n + 1) % n
  {
    if a % n + 1 < n {
      ModUnique(a + 1, n, a / n, a % n + 1);
      ModUnique(a % n + 1, n, 0, a % n + 1);
    } else {
      ModUnique(a + 1, n, a / n + 1, 0);
      ModUnique(a % n + 1, n, 1, 0);
    }
  }

  /** `new Array(n).fill(0)`. */
  function Zeros(n: nat): (r: seq<int>)
    ensures |r| == n
    ensures forall i :: 0 <= i < n ==> r[i] == 0
  {
    seq(n, _ => 0)
  }
}
