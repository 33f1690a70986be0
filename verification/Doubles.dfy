/** The two places where the code multiplies floating-point numbers, and what rounding does there. */
module Doubles {
  function Pow2(e: nat): (p: nat)
    ensures p > 0
  {
    if e == 0 then 1 else 2 * Pow2(e - 1)
  }

  const PRECISION: int := 0x20_0000_0000_0000

  /**
   A binary64 number (IEEE 754, section 3.4), but for the greatest exponents: an integer of at most 53
   bits times or over a power of two.
   */
  ghost predicate IsDouble(x: real)
  {
    exists m: int, e: nat :: Scaled(x, m, e)
  }

  ghost predicate Scaled(x: real, m: int, e: nat)
  {
    -PRECISION <= m <= PRECISION && e <= 1074 && (x * Pow2(e) as real == m as real || x == (m * Pow2(e)) as real)
  }

  function Distance(x: real, y: real): real
  {
    if x < y then y - x else x - y
  }

  /** `p` is a nearest double to `x`; which of two is taken makes no difference here. */
  ghost predicate Rounds(x: real, p: real)
  {
    IsDouble(p) && forall q :: IsDouble(q) ==> Distance(p, x) <= Distance(q, x)
  }

  const UNITS: real := 9007199254740992.0

  lemma SmallInteger(n: nat)
    requires n <= PRECISION
    ensures IsDouble(n as real)
  {
    assert Pow2(0) == 1;
    assert Scaled(n as real, n, 0);
  }

  lemma SixteenthAbove(n: nat)
    requires 16 * n < PRECISION
    ensures IsDouble(n as real + 0.0625)
  {
    assert Pow2(4) == 16;
    assert Scaled(n as real + 0.0625, 16 * n + 1, 4);
  }

  /**
   Comparing a rounded product with a token count is comparing the exact product with it, except that a
   product just below the count may be rounded onto it.
   */
  lemma {:induction false} ComparedWithTokens(tokens: nat, exact: real, product: real)
    requires Rounds(exact, product) && tokens <= PRECISION
    ensures product < tokens as real <==> exact < tokens as real && product != tokens as real
  {
    SmallInteger(tokens);
  }

  /** There is a double a fifth of a unit of the last place above nine tenths, so the next one is no further. */
  lemma NineTenthsIsClose(nine: real)
    requires Rounds(0.9, nine)
    ensures Distance(nine, 0.9) * UNITS <= 0.2
  {
    var close := 8106479329266893.0 / UNITS;
    LastPlace();
    assert close * UNITS == 8106479329266893.0;
    assert Scaled(close, 8106479329266893, 53);
    assert Distance(close, 0.9) * UNITS == 0.2;
  }

  lemma LastPlace()
    ensures Pow2(53) == PRECISION
  {
    assert Pow2(10) == 1024;
    assert Pow2(20) == 1024 * Pow2(10);
    assert Pow2(30) == 1024 * Pow2(20);
    assert Pow2(40) == 1024 * Pow2(30);
    assert Pow2(50) == 1024 * Pow2(40);
  }

  /** The spacing of doubles: none lies that close above a whole number. */
  lemma GapAbove(n: nat, p: real, b: nat)
    requires IsDouble(p) && n as real < p && 10 * n == 9 * b && b <= PRECISION
    ensures 0.4 * b as real < (p - n as real) * UNITS
  {
    hide Pow2;
    var m: int, e: nat :| Scaled(p, m, e);
    if p == (m * Pow2(e)) as real {
      assert m * Pow2(e) >= n + 1;
    } else {
      FractionAbove(n, p, b, m, Pow2(e));
    }
  }

  lemma FractionAbove(n: nat, p: real, b: nat, m: int, q: nat)
    requires q > 0 && p * q as real == m as real && m <= PRECISION
    requires n as real < p && 10 * n == 9 * b
    ensures 0.4 * b as real < (p - n as real) * UNITS
  {
    var rest := p - n as real;
    assert m as real == n as real * q as real + rest * q as real;
    assert rest * q as real > 0.0;
    assert n as real * q as real == (n * q) as real;
    assert n * q < m;
    assert rest * q as real >= 1.0;
    assert 10 * (n * q) == 9 * (b * q);
    assert b as real * q as real == (b * q) as real;
    assert (rest * UNITS - 0.4 * b as real) * q as real > 0.0;
  }

  lemma Product(a: real, b: real)
    requires a >= 0.0 && b >= 0.0
    ensures a * b >= 0.0
  {
  }

  lemma Distributed(b: real, x: real, y: real)
    ensures b * x - b * y == b * (x - y)
  {
  }

  /** The exact product is as close to nine tenths of the budget as the factor is to nine tenths. */
  lemma ProductIsClose(b: real, nine: real, x: real)
    requires b >= 0.0 && x == b * nine && Distance(nine, 0.9) * UNITS <= 0.2
    ensures Distance(x, 0.9 * b) * UNITS <= 0.2 * b
  {
    var c := 0.2 / 9007199254740992.0;
    Product(b, c - (nine - 0.9));
    Product(b, c + (nine - 0.9));
    Distributed(b, c, nine - 0.9);
    Distributed(b, c, 0.9 - nine);
    Distributed(b, nine, 0.9);
    Distributed(b, 0.9, nine);
  }

  lemma NoCloser(x: real, p: real, q: real)
    requires Rounds(x, p) && IsDouble(q)
    ensures IsDouble(p) && Distance(p, x) <= Distance(q, x)
  {
  }

  lemma CloseToNineTenths(tokens: nat, budget: nat, b: real, x: real, share: real)
    requires tokens <= budget <= 0x2_0000_0000_0000 && b == budget as real
    requires Distance(x, 0.9 * b) * UNITS <= 0.2 * b && Rounds(x, share)
    ensures tokens as real < share <==> 10 * tokens < 9 * budget
  {
    hide IsDouble, Rounds;
    SmallInteger(tokens);
    NoCloser(x, share, tokens as real);
    if 10 * tokens < 9 * budget {
      SixteenthAbove(tokens);
      NoCloser(x, share, tokens as real + 0.0625);
    } else if 10 * tokens == 9 * budget && tokens as real < share {
      GapAbove(tokens, share, budget);
      assert false;
    }
  }

  /**
   Up to a budget of 2^49, comparing with the rounded product of the budget and the double next to 0.9
   is comparing with nine tenths of the budget.
   */
  lemma {:induction false} NineTenthsOfBudget(tokens: nat, budget: nat, nine: real, exact: real, product: real)
    requires tokens <= budget <= 0x2_0000_0000_0000
    requires Rounds(0.9, nine) && exact == budget as real * nine && Rounds(exact, product)
    ensures tokens as real < product <==> 10 * tokens < 9 * budget
  {
    hide IsDouble, Rounds, Distance;
    var b := budget as real;
    NineTenthsIsClose(nine);
    ProductIsClose(b, nine, exact);
    CloseToNineTenths(tokens, budget, b, exact, product);
  }
}
