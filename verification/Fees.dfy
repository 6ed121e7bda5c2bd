/** Protocol fee, required collateral and claim residual, with the source's integer widths. */
module Fees {
  import opened Wrappers
  import opened Bytes
  import opened Sequences

  const BPS: int := 10_000
  const COIN: int := 100_000_000
  const I64_MAX: int := 0x7fff_ffff_ffff_ffff
  const FEE_FLOOR_CENTS: int := 100
  const CLAIM_THRESHOLD_BPS: int := 12_500
  const RESIDUAL_MIN_ZAT: int := 100_000
  const TWO_128: int := 0x1_0000_0000_0000_0000_0000_0000_0000_0000

  /** Marginal bands: up to this many cents (0: no limit), at this many basis points. */
  const BANDS: seq<(int, int)> := [(100_000, 100), (1_000_000, 50), (0, 10)]

  function SaturatingAdd(a: int, b: int): int {
    Max(-I64_MAX - 1, Min(I64_MAX, a + b))
  }

  function SaturatingMul(a: int, b: int): int {
    Max(-I64_MAX - 1, Min(I64_MAX, a * b))
  }

  /** 128-bit unsigned arithmetic wraps. */
  function U128(x: int): int {
    x % TWO_128
  }

  function CeilDiv(n: int, d: int): int
    requires n >= 0 && d > 0
  {
    (n + d - 1) / d
  }

  // ---------------------------------------------------------------- the fee

  /** The basis points charged on the cent after the first `c`. */
  function Rate(c: nat): int {
    if c < 100_000 then 100 else if c < 1_000_000 then 50 else 10
  }

  /** What each cent of a debt is charged, added up. */
  ghost function CentByCent(debt: nat): int {
    if debt == 0 then 0 else CentByCent(debt - 1) + Rate(debt - 1)
  }

  ghost function FeeUnits(debt: nat): int {
    if debt == 0 then 0 else Max(FEE_FLOOR_CENTS * BPS, Min(I64_MAX, CentByCent(debt)))
  }

  /** The bands in closed form. */
  ghost function Banded(debt: int): int {
    if debt <= 100_000 then 100 * debt
    else if debt <= 1_000_000 then 10_000_000 + 50 * (debt - 100_000)
    else 55_000_000 + 10 * (debt - 1_000_000)
  }

  lemma {:induction false} CentByCentIsBanded(debt: nat)
    ensures CentByCent(debt) == Banded(debt)
  {
    if debt > 0 {
      CentByCentIsBanded(debt - 1);
    }
  }

  /** The band loop charges every cent of the debt its own band's rate, at least the floor, and
      saturates at the largest 64-bit integer, for every 64-bit debt. */
  method ProtocolFeeUnits(debtCents: U64) returns (r: int)
    ensures r == FeeUnits(debtCents)
  {
    if debtCents == 0 {
      return 0;
    }
    CentByCentIsBanded(debtCents);
    var debt := Min(debtCents, I64_MAX);
    var units, lo := 0, 0;
    for k := 0 to |BANDS|
      invariant k < |BANDS|
      invariant lo == (if k == 0 then 0 else BANDS[k - 1].0)
      invariant units == Banded(Min(debt, lo)) <= I64_MAX
    {
      var (upto, bps) := BANDS[k];
      var hi := upto;
      var inBand := (if hi == 0 then debt else Min(debt, hi)) - lo;
      if inBand <= 0 {
        break;
      }
      units := SaturatingAdd(units, SaturatingMul(inBand, Max(bps, 0)));
      lo := hi;
      if hi == 0 {
        break;
      }
    }
    assert units == Min(I64_MAX, Banded(debt));
    r := Max(units, FEE_FLOOR_CENTS * BPS);
  }

  lemma {:induction false} FeeIsMonotone(a: nat, b: nat)
    requires a <= b
    ensures FeeUnits(a) <= FeeUnits(b)
  {
    CentByCentIsBanded(a);
    CentByCentIsBanded(b);
  }

  /** Splitting a mint never lowers the fee. */
  lemma {:induction false} FeeIsSubadditive(a: nat, b: nat)
    ensures FeeUnits(a + b) <= FeeUnits(a) + FeeUnits(b)
  {
    CentByCentIsBanded(a);
    CentByCentIsBanded(b);
    CentByCentIsBanded(a + b);
  }

  /** The fee, in ten-thousandths of a cent: one dollar at least, 1 % of the first $1,000, 0.5 % up to
      $10,000 and 0.1 % beyond, until it saturates. */
  lemma {:induction false} FeeUnitsAre(debt: nat)
    ensures FeeUnits(debt) == if debt == 0 then 0
                              else if debt <= 10_000 then 1_000_000
                              else if debt <= 100_000 then 100 * debt
                              else if debt <= 1_000_000 then 5_000_000 + 50 * debt
                              else if debt <= 922_337_203_680_977_580 then 45_000_000 + 10 * debt
                              else 9_223_372_036_854_775_807
  {
    CentByCentIsBanded(debt);
  }

  // ---------------------------------------------------------------- the fee in cents

  /** `None` when the rounding addition leaves the 64-bit range. */
  ghost function FeeCents(debt: nat): Option<int> {
    if FeeUnits(debt) + BPS - 1 > I64_MAX then None else Some((FeeUnits(debt) + BPS - 1) / BPS)
  }

  /** The addition overflows exactly from this debt on. */
  lemma {:induction false} FeeCentsOverflow(debt: nat)
    ensures FeeCents(debt).None? <==> debt >= 922_337_203_680_976_581
  {
    CentByCentIsBanded(debt);
  }

  /** The fee in cents is the least number of cents worth the fee. */
  lemma {:induction false} FeeCentsIsLeast(debt: nat)
    requires FeeCents(debt).Some?
    ensures var c := FeeCents(debt).value; (c - 1) * 10_000 < FeeUnits(debt) <= c * 10_000
  {
  }

  lemma {:induction false} FeeCentsSplit(a: nat, b: nat)
    requires FeeCents(a + b).Some?
    ensures FeeCents(a).Some? && FeeCents(a).value <= FeeCents(a + b).value
    ensures FeeCents(b).Some? && FeeCents(a + b).value <= FeeCents(a).value + FeeCents(b).value
  {
    FeeIsMonotone(a, a + b);
    FeeIsMonotone(b, a + b);
    FeeIsSubadditive(a, b);
  }

  // ---------------------------------------------------------------- ceilings

  lemma {:induction false} CeilDivIsLeast(n: int, d: int)
    requires n >= 0 && d > 0
    ensures CeilDiv(n, d) * d >= n && CeilDiv(n, d) >= 0
    ensures (CeilDiv(n, d) - 1) * d < n
  {
    var q, m := CeilDiv(n, d), n + d - 1;
    assert m == d * q + m % d;
    assert q * d == d * q && (q - 1) * d == d * q - d;
  }

  lemma MulMonotone(a: int, b: int, d: int)
    requires a <= b && d >= 0
    ensures a * d <= b * d
  {
    assert (b - a) * d >= 0;
  }

  lemma {:induction false} CeilDivBelow(n: int, d: int, q: int)
    requires n >= 0 && d > 0 && q * d >= n
    ensures CeilDiv(n, d) <= q
  {
    CeilDivIsLeast(n, d);
    var c := CeilDiv(n, d);
    if c > q {
      assert (c - 1) * d >= q * d by {
        MulMonotone(q, c - 1, d);
      }
    }
  }

  lemma {:induction false} CeilDivMonotone(m: int, n: int, d: int)
    requires 0 <= m <= n && d > 0
    ensures CeilDiv(m, d) <= CeilDiv(n, d)
  {
    CeilDivIsLeast(n, d);
    CeilDivBelow(m, d, CeilDiv(n, d));
  }

  lemma {:induction false} CeilDivAntitone(n: int, d: int, e: int)
    requires n >= 0 && 0 < d <= e
    ensures CeilDiv(n, e) <= CeilDiv(n, d)
  {
    CeilDivIsLeast(n, d);
    var q := CeilDiv(n, d);
    assert q * d <= q * e by {
      MulMonotone(d, e, q);
    }
    CeilDivBelow(n, e, q);
  }

  lemma {:induction false} CeilDivSubadditive(m: int, n: int, d: int)
    requires m >= 0 && n >= 0 && d > 0
    ensures CeilDiv(m + n, d) <= CeilDiv(m, d) + CeilDiv(n, d)
  {
    CeilDivIsLeast(m, d);
    CeilDivIsLeast(n, d);
    var q, r := CeilDiv(m, d), CeilDiv(n, d);
    assert (q + r) * d == q * d + r * d;
    CeilDivBelow(m + n, d, q + r);
  }

  // ---------------------------------------------------------------- the fee in zat

  ghost function FeeZat(debt: nat, pMint: int): Option<int> {
    if pMint <= 0 then None else Some(Min(I64_MAX, CeilDiv(FeeUnits(debt) * COIN, pMint)))
  }

  /** The zat fee is the least amount worth the fee at the mint price, or the largest 64-bit integer when
      no 64-bit amount is worth it. */
  lemma {:induction false} FeeZatIsLeast(debt: nat, pMint: int, q: int)
    requires pMint > 0
    ensures var f, n := FeeZat(debt, pMint), FeeUnits(debt) * 100_000_000;
            && f.Some? && 0 <= f.value <= I64_MAX
            && (f.value * pMint >= n || (f.value == I64_MAX && I64_MAX * pMint < n))
            && (q * pMint >= n && q <= I64_MAX ==> f.value <= q)
  {
    var n := FeeUnits(debt) * COIN;
    FeeIsMonotone(0, debt);
    CeilDivIsLeast(n, pMint);
    if q * pMint >= n {
      CeilDivBelow(n, pMint, q);
    }
    if I64_MAX * pMint >= n {
      CeilDivBelow(n, pMint, I64_MAX);
    }
  }

  /** The zat fee is monotone in the debt, never lowered by splitting, and never rises with the price. */
  lemma {:induction false} FeeZatLaws(a: nat, b: nat, pMint: int, pMint': int)
    requires 0 < pMint <= pMint'
    ensures FeeZat(a, pMint).value <= FeeZat(a + b, pMint).value
    ensures FeeZat(a + b, pMint).value <= FeeZat(a, pMint).value + FeeZat(b, pMint).value
    ensures FeeZat(a, pMint').value <= FeeZat(a, pMint).value
  {
    FeeIsMonotone(a, a + b);
    FeeIsSubadditive(a, b);
    var x, y, z := FeeUnits(a) * COIN, FeeUnits(b) * COIN, FeeUnits(a + b) * COIN;
    CeilDivMonotone(x, z, pMint);
    CeilDivMonotone(z, x + y, pMint);
    CeilDivSubadditive(x, y, pMint);
    CeilDivAntitone(x, pMint, pMint');
    CeilDivIsLeast(x, pMint);
    CeilDivIsLeast(y, pMint);
  }

  // ---------------------------------------------------------------- required collateral

  function RequiredZat(cents: U64, minRatioBps: int, pMint: int): Option<int> {
    if pMint <= 0 || minRatioBps <= 0 then None
    else
      var q := CeilDiv(U128(U128(cents * minRatioBps) * COIN), pMint);
      if q <= I64_MAX then Some(q) else None
  }

  /** The ratios of the term classes, at most 50,000 basis points, never wrap. */
  lemma {:induction false} NoWrap(cents: U64, bps: int)
    requires 0 < bps <= 50_000
    ensures 0 <= cents * bps * COIN < TWO_128
  {
    assert 0 <= cents * bps <= TWO_64 * 50_000 by {
      MulMonotone(0, cents, bps);
      MulMonotone(cents, TWO_64, bps);
      MulMonotone(bps, 50_000, TWO_64);
    }
  }

  lemma {:induction false} ProductFits(cents: U64, bps: int)
    requires 0 < bps && (bps <= I64_MAX || cents * bps * COIN < TWO_128)
    ensures 0 <= cents * bps < TWO_128
  {
    MulMonotone(0, cents, bps);
    if bps <= I64_MAX {
      MulMonotone(cents, TWO_64, bps);
    }
  }

  /** Wrapping after each product is wrapping once. */
  lemma {:induction false} WrapsOnce(cents: U64, bps: int)
    requires 0 < bps && (bps <= I64_MAX || cents * bps * COIN < TWO_128)
    ensures 0 <= cents * bps < TWO_128
    ensures U128(U128(cents * bps) * COIN) == U128(cents * bps * COIN)
  {
    var n := cents * bps;
    ProductFits(cents, bps);
    assert U128(n) == n;
  }

  lemma {:induction false} RequiredIs(cents: U64, bps: int, pMint: int)
    requires bps > 0 && pMint > 0 && cents * bps * COIN < TWO_128
    ensures cents * bps * COIN >= 0
    ensures var q := CeilDiv(cents * bps * COIN, pMint);
            RequiredZat(cents, bps, pMint) == if q <= I64_MAX then Some(q) else None
  {
    var n := cents * bps * COIN;
    WrapsOnce(cents, bps);
    assert U128(n) == n;
  }

  /** The required collateral is the least amount worth `ratio` times the debt at the mint price, and
      is refused only when that amount exceeds 64 bits, for every ratio whose product fits 128 bits. */
  lemma {:induction false} RequiredIsLeast(cents: U64, bps: int, pMint: int, q: int)
    requires bps > 0 && pMint > 0 && cents * bps * COIN < TWO_128
    ensures var r := RequiredZat(cents, bps, pMint);
            && (r.Some? ==> r.value * pMint >= cents * bps * COIN)
            && (q * pMint >= cents * bps * COIN ==> if r.Some? then r.value <= q else q > I64_MAX)
  {
    RequiredIs(cents, bps, pMint);
    var n := cents * bps * COIN;
    CeilDivIsLeast(n, pMint);
    if q * pMint >= n {
      CeilDivBelow(n, pMint, q);
    }
  }

  lemma {:induction false} WrappedIsShort(n: int, d: int)
    requires n >= TWO_128 && 0 < d <= I64_MAX
    ensures CeilDiv(U128(n), d) * d < n
  {
    var w := U128(n);
    var c := CeilDiv(w, d);
    CeilDivIsLeast(w, d);
    assert c * d == (c - 1) * d + d;
    assert w <= n - TWO_128;
  }

  /** What is required covers the ratio if and only if the product fits 128 bits: a product that wraps
      asks for too little. */
  lemma {:induction false} RequiredCoversIff(cents: U64, bps: int, pMint: int)
    requires 0 < bps <= I64_MAX && 0 < pMint <= I64_MAX && RequiredZat(cents, bps, pMint).Some?
    ensures RequiredZat(cents, bps, pMint).value * pMint >= cents * bps * COIN <==> cents * bps * COIN < TWO_128
  {
    var n := cents * bps * COIN;
    WrapsOnce(cents, bps);
    if n < TWO_128 {
      RequiredIsLeast(cents, bps, pMint, 0);
    } else {
      WrappedIsShort(n, pMint);
    }
  }

  /** A wrapped product can ask for nothing at all. */
  lemma {:induction false} RequiredWrapExample(pMint: int)
    requires pMint > 0
    ensures RequiredZat(0x1000_0000_0000_0000, 0x1000_0000_0000_0000, pMint) == Some(0)
  {
    var c: U64, n := 0x1000_0000_0000_0000, 390_625 * TWO_128;
    assert c * c * COIN == n;
    WrapsOnce(c, c);
    assert U128(n) == 0;
    CeilDivIsLeast(0, pMint);
    CeilDivBelow(0, pMint, 0);
  }

  lemma {:induction false} Rescale(v: int, price: int, bps: int, pMint: int, c: int, n: int)
    requires v >= 0 && c >= 0 && price * bps >= pMint * c && v * pMint >= n
    ensures (v * price) * bps >= n * c
  {
    calc {
      (v * price) * bps;
      (price * bps) * v;
    >= { MulMonotone(pMint * c, price * bps, v); }
      (pMint * c) * v;
      (v * pMint) * c;
    >= { MulMonotone(n, v * pMint, c); }
      n * c;
    }
  }

  lemma {:induction false} RequiredNonNegative(cents: U64, bps: int, pMint: int)
    requires pMint > 0 && RequiredZat(cents, bps, pMint).Some?
    ensures RequiredZat(cents, bps, pMint).value >= 0
  {
    CeilDivIsLeast(U128(U128(cents * bps) * COIN), pMint);
  }

  lemma Cancel(x: int, y: int, d: int)
    requires x * d >= y * d && d > 0
    ensures x >= y
  {
    if x < y {
      MulMonotone(x + 1, y, d);
    }
  }

  /** A vault holding the required collateral passes the 125 % test at every price down to
      12,500 / ratio of the mint price. */
  lemma {:induction false} RequiredKeepsAfloat(cents: U64, bps: int, pMint: int, collateral: int, price: int)
    requires bps > 0 && pMint > 0 && cents * bps * COIN < TWO_128
    requires RequiredZat(cents, bps, pMint).Some? && collateral >= RequiredZat(cents, bps, pMint).value
    requires price * bps >= pMint * CLAIM_THRESHOLD_BPS
    ensures collateral * price >= cents * CLAIM_THRESHOLD_BPS * COIN
  {
    RequiredIsLeast(cents, bps, pMint, 0);
    var n, c := cents * bps * COIN, CLAIM_THRESHOLD_BPS;
    RequiredNonNegative(cents, bps, pMint);
    MulMonotone(RequiredZat(cents, bps, pMint).value, collateral, pMint);
    Rescale(collateral, price, bps, pMint, c, n);
    assert n * c == (cents * c * COIN) * bps;
    Cancel(collateral * price, cents * c * COIN, bps);
  }

  // ---------------------------------------------------------------- the residual of a claim

  function Margin(pathA: bool): int {
    if pathA then CLAIM_THRESHOLD_BPS else BPS
  }

  function ResidualZat(collateral: int, cents: U64, price: int, pathA: bool): Option<int> {
    if price <= 0 || cents == 0 then None
    else
      var claimantMax := CeilDiv(U128(U128(cents * Margin(pathA)) * COIN), price);
      var residual := if claimantMax <= I64_MAX && collateral > claimantMax then collateral - claimantMax else 0;
      Some(if residual >= RESIDUAL_MIN_ZAT then residual else 0)
  }

  /** The most a claimant may take: the debt with its margin at this price, rounded up. */
  ghost function ClaimantMax(cents: U64, price: int, pathA: bool): int
    requires price > 0
  {
    CeilDiv(cents * Margin(pathA) * COIN, price)
  }

  lemma {:induction false} ClaimantMaxIs(cents: U64, price: int, pathA: bool)
    requires price > 0
    ensures ClaimantMax(cents, price, pathA) >= 0
    ensures CeilDiv(U128(U128(cents * Margin(pathA)) * COIN), price) == ClaimantMax(cents, price, pathA)
  {
    var n := cents * Margin(pathA) * COIN;
    NoWrap(cents, Margin(pathA));
    WrapsOnce(cents, Margin(pathA));
    assert U128(n) == n;
    CeilDivIsLeast(n, price);
  }

  /** The claimant's cap is the least amount worth the debt and its margin: a quarter on top under
      clause (a), nothing otherwise. */
  lemma {:induction false} ClaimantMaxIsLeast(cents: U64, price: int, pathA: bool, q: int)
    requires price > 0
    ensures var m, n := ClaimantMax(cents, price, pathA), cents * (if pathA then 12_500 else 10_000) * 100_000_000;
            m * price >= n && (q * price >= n ==> m <= q)
  {
    var n := cents * Margin(pathA) * COIN;
    NoWrap(cents, Margin(pathA));
    CeilDivIsLeast(n, price);
    if q * price >= n {
      CeilDivBelow(n, price, q);
    }
  }

  /** The owner gets back everything above the claimant's cap, or nothing when that is under the
      minimum: exactly those two cases. */
  lemma {:induction false} ResidualIs(collateral: int, cents: U64, price: int, pathA: bool)
    requires price > 0 && cents > 0 && 0 <= collateral <= I64_MAX
    ensures ClaimantMax(cents, price, pathA) >= 0
    ensures var spare := collateral - ClaimantMax(cents, price, pathA);
            ResidualZat(collateral, cents, price, pathA) == Some(if spare >= RESIDUAL_MIN_ZAT then spare else 0)
  {
    ClaimantMaxIs(cents, price, pathA);
  }

  /** The residual stays within the collateral, leaves the claimant less than the cap plus the minimum,
      and is nothing for a vault underwater under clause (a). */
  lemma {:induction false} ResidualIsFair(collateral: int, cents: U64, price: int, pathA: bool)
    requires price > 0 && cents > 0 && 0 <= collateral <= I64_MAX
    ensures var r := ResidualZat(collateral, cents, price, pathA).value;
            && 0 <= r <= collateral
            && collateral - r <= ClaimantMax(cents, price, pathA) + RESIDUAL_MIN_ZAT - 1
            && (pathA && collateral * price < cents * CLAIM_THRESHOLD_BPS * COIN ==> r == 0)
  {
    ResidualIs(collateral, cents, price, pathA);
    var n, m := cents * Margin(pathA) * COIN, ClaimantMax(cents, price, pathA);
    NoWrap(cents, Margin(pathA));
    CeilDivIsLeast(n, price);
    if collateral * price < n && collateral > m {
      MulMonotone(m, collateral, price);
    }
  }

  /** A higher price never shrinks the residual. */
  lemma {:induction false} ResidualRisesWithPrice(collateral: int, cents: U64, price: int, price': int, pathA: bool)
    requires 0 < price <= price' && cents > 0 && 0 <= collateral <= I64_MAX
    ensures ResidualZat(collateral, cents, price, pathA).value <= ResidualZat(collateral, cents, price', pathA).value
  {
    ResidualIs(collateral, cents, price, pathA);
    ResidualIs(collateral, cents, price', pathA);
    NoWrap(cents, Margin(pathA));
    CeilDivAntitone(cents * Margin(pathA) * COIN, price, price');
  }
}
