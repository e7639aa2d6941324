/**
 Exact rationals (crates/ade_ledger/src/rational.rs) are modelled by Dafny's
 reals: the source computes with unbounded numerators and denominators, so no
 operation rounds until a floor is taken.
 */
module Rationals {
  import opened LedgerTypes

  type Rational = real

  /** A product that a proof can treat as a unit. */
  function Mul(x: Rational, y: Rational): Rational {
    x * y
  }

  /** A part of an amount, rounded down: `floor(a * m) as u64`. */
  function FloorPart(a: U64, m: Rational): U64 {
    FloorAsU64(Mul(a as real, m).Floor)
  }

  /** A fraction of an amount, rounded down: `floor(a * (b / c)) as u64`. */
  function FloorShare(a: nat, b: nat, c: nat): U64
    requires c > 0
  {
    FloorAsU64(Share(a, b, c).Floor)
  }

  function Share(a: nat, b: nat, c: nat): Rational
    requires c > 0
  {
    a as real * (b as real / c as real)
  }

  /** Integer `a * b / c`. */
  function MulDiv(a: nat, b: nat, c: nat): nat
    requires c > 0
  {
    a * b / c
  }

  function RatioOrZero(a: nat, b: nat): Rational {
    if b == 0 then 0.0 else a as real / b as real
  }

  /** A real pinned between an integer and its successor has that floor. */
  lemma FloorIs(x: real, q: int, c: real, y: real)
    requires c > 0.0 && x * c == y
    requires q as real * c <= y < (q as real + 1.0) * c
    ensures x.Floor == q
  {
    ScaleOrder(q as real, x, c);
    ScaleOrder(x, q as real + 1.0, c);
  }

  lemma ShareTimesDenominator(a: real, b: real, c: real)
    requires c != 0.0
    ensures (a * (b / c)) * c == a * b
  {
    assert (b / c) * c == b;
  }

  lemma ProductOfCasts(a: int, b: int)
    ensures (a * b) as real == a as real * b as real
  {
  }

  /** The floor of a product with a fraction is integer division. */
  lemma FloorOfShare(a: nat, b: nat, c: nat)
    requires c > 0
    ensures (a as real * (b as real / c as real)).Floor == a * b / c
  {
    QuotientAsReal(a * b, c);
    ProductOfCasts(a, b);
    FloorOfRealShare(a as real, b as real, c as real, a * b / c);
  }

  lemma ShareFloor(a: nat, b: nat, c: nat)
    requires c > 0
    ensures Share(a, b, c).Floor == MulDiv(a, b, c)
  {
    FloorOfShare(a, b, c);
  }

  lemma FloorOfRealShare(a: real, b: real, c: real, q: int)
    requires c > 0.0
    requires q as real * c <= a * b < (q as real + 1.0) * c
    ensures (a * (b / c)).Floor == q
  {
    ShareTimesDenominator(a, b, c);
    FloorIs(a * (b / c), q, c, a * b);
  }

  lemma QuotientAsReal(n: nat, c: nat)
    requires c > 0
    ensures (n / c) as real * c as real <= n as real < ((n / c) as real + 1.0) * c as real
  {
    QuotientBounds(n, c);
    ProductOfCasts(n / c, c);
    ProductOfCasts(n / c + 1, c);
  }

  lemma QuotientBounds(n: nat, c: nat)
    requires c > 0
    ensures n / c * c <= n < (n / c + 1) * c
  {
  }

  lemma ScaleOrder(x: real, y: real, c: real)
    requires c > 0.0
    ensures x <= y <==> x * c <= y * c
    ensures x < y <==> x * c < y * c
  {
    if x < y {
      assert (y - x) * c > 0.0;
    }
    if y < x {
      assert (x - y) * c > 0.0;
    }
  }

  lemma MulOrder(x: real, y: real, c: real)
    requires c >= 0.0 && x <= y
    ensures Mul(x, c) <= Mul(y, c)
  {
  }

  lemma MulNonNegative(x: real, y: real)
    requires x >= 0.0 && y >= 0.0
    ensures Mul(x, y) >= 0.0
  {
  }

  lemma MulAssociates(x: real, y: real, z: real)
    ensures Mul(Mul(x, y), z) == Mul(x, Mul(y, z))
  {
  }

  lemma MulMono(x: real, y: real, c: real)
    requires c >= 0.0 && x <= y
    ensures x * c <= y * c
  {
  }

  /** Taking a part between nothing and all of an amount, rounded down, stays between. */
  lemma FloorPartBounds(a: U64, m: Rational)
    requires 0.0 <= m <= 1.0
    ensures 0 <= FloorPart(a, m) <= a
  {
    hide Mul, FloorAsU64;
    MulPart(a as real, m);
    FloorIn(Mul(a as real, m), a);
  }

  lemma MulPart(a: real, m: real)
    requires 0.0 <= a && 0.0 <= m <= 1.0
    ensures 0.0 <= Mul(a, m) <= a
  {
    PartOf(a, m);
  }

  lemma FloorIn(y: real, a: U64)
    requires 0.0 <= y <= a as real
    ensures 0 <= FloorAsU64(y.Floor) <= a
  {
  }

  /** A share of a whole is exactly the integer quotient, and no more than the amount shared. */
  lemma FloorShareIsExact(amount: U64, part: U64, whole: U64)
    requires 0 < whole && part <= whole
    ensures FloorShare(amount, part, whole) == MulDiv(amount, part, whole) <= amount
  {
    hide Share, MulDiv;
    ShareFloor(amount, part, whole);
    DivisionBounds(amount, part, whole);
  }

  lemma PartOf(a: real, m: real)
    requires 0.0 <= a && 0.0 <= m <= 1.0
    ensures 0.0 <= a * m <= a
  {
    MulMono(m, 1.0, a);
  }

  lemma MulDivBounds(a: nat, b: nat, c: nat, q: nat)
    requires c > 0 && q == MulDiv(a, b, c)
    ensures c * q <= a * b
  {
    QuotientBounds(a * b, c);
  }

  lemma MulDivPinned(a: nat, b: nat, c: nat)
    requires c > 0
    ensures MulDiv(a, b, c) * c <= a * b < (MulDiv(a, b, c) + 1) * c
  {
    QuotientBounds(a * b, c);
  }

  /** Rounding and wrapping only ever lose: a floored share never exceeds its quotient. */
  lemma FloorShareUpper(a: nat, b: nat, c: nat)
    requires c > 0
    ensures FloorShare(a, b, c) * c <= a * b
  {
    hide MulDiv, FloorShare;
    FloorShareIsWrapped(a, b, c);
    MulDivBounds(a, b, c, MulDiv(a, b, c));
    TimesWithin(FloorShare(a, b, c), MulDiv(a, b, c), c, a * b);
  }

  lemma FloorShareIsWrapped(a: nat, b: nat, c: nat)
    requires c > 0
    ensures FloorShare(a, b, c) == FloorAsU64(MulDiv(a, b, c)) <= MulDiv(a, b, c)
  {
    hide FloorAsU64, Share, MulDiv;
    ShareFloor(a, b, c);
    FloorNeverGains(MulDiv(a, b, c));
  }

  lemma TimesWithin(x: int, q: int, c: int, n: int)
    requires 0 <= c && x <= q && q * c <= n
    ensures x * c <= n
  {
    MulMonoInt(x, q, c);
  }

  lemma FloorNeverGains(x: int)
    ensures FloorAsU64(x) <= if x <= 0 then 0 else x
  {
  }

  lemma MulMonoInt(x: int, y: int, c: int)
    requires c >= 0 && x <= y
    ensures x * c <= y * c
  {
  }

  lemma DivisionBounds(a: nat, b: nat, c: nat)
    requires 0 < c && b <= c
    ensures 0 <= MulDiv(a, b, c) <= a
  {
    hide MulDiv;
    MulDivBounds(a, b, c, MulDiv(a, b, c));
    MulMonoInt(b, c, a);
    CancelWithin(MulDiv(a, b, c), a, c, a * b);
  }

  lemma CancelWithin(q: int, a: int, c: int, n: int)
    requires 0 < c && q * c <= n <= a * c
    ensures q <= a
  {
    CancelFactor(q, a, c);
  }

  lemma CancelFactor(x: int, y: int, c: int)
    requires c > 0
    ensures x * c <= y * c <==> x <= y
    ensures x * c < y * c <==> x < y
  {
    if x < y {
      assert (y - x) * c > 0;
    }
    if y < x {
      assert (x - y) * c > 0;
    }
  }
}
