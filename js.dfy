/** The few JavaScript number semantics the flashcard session relies on. */
module Js {

  /** The conventional optional value; `None` plays JavaScript's `null`. */
  datatype Option<+T> = None | Some(value: T)

  /** A JavaScript number as the card cursor can hold it: an integer, or
      NaN once a remainder by zero (`x % 0`) has been taken. */
  datatype Num = Finite(v: int) | NaN

  /** `a % n` for a positive divisor. JavaScript's remainder truncates toward
      zero, so the result takes the sign of the dividend (unlike Dafny's `%`):
      it is the identity below the divisor, periodic above it, and odd. */
  function Rem(a: int, n: int): (r: int)
    requires n > 0
    ensures 0 <= a < n ==> r == a
    ensures a >= n ==> r == Rem(a - n, n)
    ensures a < 0 ==> r == -Rem(-a, n)
    ensures a >= 0 ==> 0 <= r < n
    ensures a < 0 ==> -n < r <= 0
    decreases if a >= 0 then 2 * a else -2 * a + 1
  {
    if a < 0 then -((-a) % n)
    else if a < n then DivModUnique(a, n, 0, a); a % n
    else DivModUnique(a, n, (a - n) / n + 1, (a - n) % n); a % n
  }

  /** The only multiple of a positive `n` strictly between `-n` and `n` is 0. */
  lemma SmallMultiple(d: int, n: int)
    requires n > 0 && -n < d * n < n
    ensures d == 0
  {
  }

  /** Dafny's `/` and `%` are the unique quotient and remainder. */
  lemma DivModUnique(a: int, n: int, q: int, r: int)
    requires n > 0 && 0 <= r < n && a == q * n + r
    ensures a % n == r && a / n == q
  {
    var q', r' := a / n, a % n;
    assert a == q' * n + r';
    assert (q - q') * n == r' - r;
    SmallMultiple(q - q', n);
  }

  /** `a + b`: NaN absorbs everything. */
  function Plus(a: Num, b: int): Num
  {
    match a
    case NaN => NaN
    case Finite(x) => Finite(x + b)
  }

  /** `a % n` where `n` is an array length: NaN when `a` is NaN or the
      length is zero, the truncating remainder otherwise. */
  function Mod(a: Num, n: nat): Num
  {
    if a.NaN? || n == 0 then NaN else Finite(Rem(a.v, n))
  }

  /** `Math.pow(2, k)` for a non-negative integer exponent. */
  function Pow2(k: nat): (r: nat)
    ensures r >= 1
  {
    if k == 0 then 1 else 2 * Pow2(k - 1)
  }
}
