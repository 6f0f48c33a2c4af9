/**
 Single precision: rounding a real to the nearest number with 24 significant bits, ties
 to even, as after every operation on an `f32`. Numbers beyond the largest finite one keep
 their size instead of becoming infinite.
 */
module SinglePrecision {
  // ─── Rounding ─────────────────────────────────────────────────────────────

  /** The nearest integer, the even one of two. */
  function Nearest(q: real): (n: int)
    ensures -0.5 <= n as real - q <= 0.5
  {
    var rest := q - q.Floor as real;
    if rest < 0.5 || (rest == 0.5 && q.Floor % 2 == 0) then q.Floor else q.Floor + 1
  }

  /** Rounds a number of the smallest units: from 2^24 on in steps of two, from 2^25 on of four, and so on. */
  function RoundedUnits(y: real): (r: real)
    requires y >= 0.0
    ensures r >= 0.0
    ensures y < 16777216.0 ==> -0.5 <= r - y <= 0.5
    ensures y >= 16777216.0 ==> -y <= 16777216.0 * (r - y) <= y
    decreases y.Floor
  {
    if y < 16777216.0 then
      assert y.Floor <= 16777215 && y.Floor >= 0;
      Nearest(y) as real
    else 2.0 * RoundedUnits(y / 2.0)
  }

  /** The most that rounding `x` can change it by. */
  function Slack(x: real): (s: real)
    ensures s > 0.0
  {
    (if x >= 0.0 then x else -x) / 16777216.0 + 0.5 / 713623846352979940529142984724747568191373312.0
  }

  /** The smallest units, 2^-149, in a number. */
  function UnitsIn(x: real): real {
    x * 713623846352979940529142984724747568191373312.0
  }

  function FromUnits(y: real): real {
    y / 713623846352979940529142984724747568191373312.0
  }

  function Single(x: real): (r: real)
    ensures -Slack(x) <= r - x <= Slack(x)
    ensures x >= 0.0 ==> r >= 0.0
    ensures x <= 0.0 ==> r <= 0.0
  {
    if x < 0.0 then -FromUnits(RoundedUnits(UnitsIn(-x))) else FromUnits(RoundedUnits(UnitsIn(x)))
  }

  // ─── What is used of it ───────────────────────────────────────────────────

  /** Rounding no coarser than single precision: exact arithmetic is one, too. */
  ghost predicate IsRounding(round: real -> real) {
    && (forall x :: -Slack(x) <= round(x) - x <= Slack(x))
    && (forall x :: (x >= 0.0 ==> round(x) >= 0.0) && (x <= 0.0 ==> round(x) <= 0.0))
    && (forall x {:trigger round(round(x))} :: x >= 0.0 ==> round(round(x)) == round(x))
  }

  /** Rounding what 24 bits hold changes nothing. */
  lemma {:induction false} UnitsStay(y: real)
    requires y >= 0.0
    ensures RoundedUnits(RoundedUnits(y)) == RoundedUnits(y)
    ensures y >= 8388608.0 ==> RoundedUnits(y) >= 8388608.0
    decreases y.Floor
  {
    if y >= 16777216.0 {
      UnitsStay(y / 2.0);
    } else {
      WholeStays(Nearest(y), y);
    }
  }

  lemma WholeStays(n: int, y: real)
    requires 0.0 <= y < 16777216.0 && n == Nearest(y)
    ensures n >= 0 && RoundedUnits(n as real) == n as real
    ensures y >= 8388608.0 ==> n >= 8388608
  {
    assert 0 <= n <= 16777216;
    if n == 16777216 {
      assert RoundedUnits(8388608.0) == 8388608.0;
    } else {
      assert Nearest(n as real) == n;
    }
  }

  lemma RoundedStays(x: real)
    requires x >= 0.0
    ensures Single(Single(x)) == Single(x)
  {
    UnitsStay(UnitsIn(x));
    assert UnitsIn(Single(x)) == RoundedUnits(UnitsIn(x));
  }

  /** Single precision is such a rounding. */
  lemma SingleIsRounding()
    ensures IsRounding(Single)
  {
    forall x | x >= 0.0
      ensures Single(Single(x)) == Single(x)
    {
      RoundedStays(x);
    }
  }

  // ─── A byte times a factor ────────────────────────────────────────────────

  predicate Near(x: real, exact: real, error: real) {
    -error <= x - exact <= error
  }

  lemma Times(m: real, x: real, bound: real)
    requires 0.0 <= m <= 255.0 && x <= bound && bound >= 0.0
    ensures m * x <= 255.0 * bound
  {
    assert m * (bound - x) >= 0.0 && (255.0 - m) * bound >= 0.0;
    assert 255.0 * bound - m * x == m * (bound - x) + (255.0 - m) * bound;
  }

  lemma ProductError(m: real, s: real, factor: real, slack: real)
    requires 0.0 <= m <= 255.0 && slack >= 0.0 && -slack <= s - factor <= slack
    ensures -255.0 * slack <= m * s - m * factor <= 255.0 * slack
  {
    Times(m, s - factor, slack);
    Times(m, factor - s, slack);
    assert m * s - m * factor == m * (s - factor);
    assert m * factor - m * s == m * (factor - s);
  }

  lemma NoneNegative(a: real, b: real)
    requires a >= 0.0 && b >= 0.0
    ensures a * b >= 0.0
  {
  }

  lemma SlackGrows(x: real, most: real)
    requires 0.0 <= x <= most
    ensures Slack(x) <= Slack(most)
  {
  }

  /** A rounded product of a byte and a rounded factor, `most` being at least any product. */
  lemma RoundedProduct(m: real, s: real, factor: real, slack: real, product: real, r: real, most: real)
    requires 0.0 <= m <= 255.0 && s >= 0.0 && -slack <= s - factor <= slack && 255.0 * (factor + slack) <= most
    requires slack >= 0.0 && factor >= 0.0
    requires product == m * s && -Slack(product) <= r - product <= Slack(product)
    ensures Near(r, m * factor, 255.0 * slack + Slack(most))
  {
    ProductError(m, s, factor, slack);
    Times(m, s, factor + slack);
    NoneNegative(m, s);
    SlackGrows(product, most);
  }

  /** The error of a byte times a rounded factor. */
  lemma ByteProduct(round: real -> real, m: real, factor: real, most: real)
    requires IsRounding(round)
    requires 0.0 <= m <= 255.0 && factor >= 0.0 && 255.0 * (factor + Slack(factor)) <= most
    ensures Near(round(m * round(factor)), m * factor, 255.0 * Slack(factor) + Slack(most))
  {
    RoundedProduct(m, round(factor), factor, Slack(factor), m * round(factor), round(m * round(factor)), most);
  }
}
