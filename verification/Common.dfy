/** Datatypes and real-number helpers shared by every component. */
module Common {

  datatype Option<+T> = None | Some(value: T)

  datatype Result<+T, +E> = Ok(value: T) | Err(error: E)

  datatype Side = Buy | Sell

  function Flip(side: Side): Side {
    if side == Buy then Sell else Buy
  }

  /** +1 for a purchase, -1 for a sale: the direction in which a fill moves the position. */
  function Sign(side: Side): real {
    if side == Buy then 1.0 else -1.0
  }

  /** `x` in the direction of `side`. */
  function Signed(side: Side, x: real): real {
    if side == Buy then x else -x
  }

  function Max(a: real, b: real): real {
    if a < b then b else a
  }

  function Min(a: real, b: real): real {
    if b < a then b else a
  }

  function Abs(a: real): real {
    if a < 0.0 then -a else a
  }

  function OrZero(x: Option<real>): real {
    if x.Some? then x.value else 0.0
  }

  function MaxInt(a: int, b: int): int {
    if a < b then b else a
  }

  function MinInt(a: int, b: int): int {
    if b < a then b else a
  }

  /** The last `n` elements, or all of them when there are fewer. */
  function Last<T>(s: seq<T>, n: nat): seq<T> {
    if |s| <= n then s else s[|s| - n..]
  }

  lemma OneMore(k: real, x: real)
    ensures (k + 1.0) * x == k * x + x
  {
  }

  /** Multiplying by a non-negative factor keeps an inequality. */
  lemma MulMono(a: real, b: real, k: real)
    requires a <= b && 0.0 <= k
    ensures a * k <= b * k
  {
    assert (b - a) * k >= 0.0;
  }

  lemma MulStrict(x: real, y: real, k: real)
    requires x < y && k > 0.0
    ensures x * k < y * k
  {
    assert (y - x) * k > 0.0;
  }

  /** A positive factor keeps an inequality in both directions. */
  lemma LeScale(x: real, y: real, k: real)
    requires k > 0.0
    ensures x <= y <==> x * k <= y * k
  {
    if x <= y {
      MulMono(x, y, k);
    } else {
      MulStrict(y, x, k);
    }
  }

  lemma Undivide(x: real, n: real)
    requires n != 0.0
    ensures n * (x / n) == x == x / n * n
  {
  }

  lemma QuotientBetween(x: real, n: real, lo: real, hi: real)
    requires n > 0.0 && lo * n <= x <= hi * n
    ensures lo <= x / n <= hi
  {
    Undivide(x, n);
    LeScale(lo, x / n, n);
    LeScale(x / n, hi, n);
  }
}
