/**
 * Rounding a real value to a multiple of a power of ten: half-even is roundTiesToEven
 * (section 4.3.1 of IEEE 754-2019), floor is the greatest multiple not above the value.
 */
module Rounding {
  import opened PowersOfTen

  datatype Round = HalfEven | Floor

  /** `r` units of `10^e` is the multiple nearest to `v`; on a tie `r` is the even one. */
  ghost predicate Nearest(v: real, e: int, r: int)
  {
    && V(2 * r - 1, e) <= 2.0 * v <= V(2 * r + 1, e)
    && (2.0 * v == V(2 * r - 1, e) || 2.0 * v == V(2 * r + 1, e) ==> r % 2 == 0)
  }

  /** `r` units of `10^e` is the greatest multiple not above `v`. */
  ghost predicate GreatestBelow(v: real, e: int, r: int)
  {
    V(r, e) <= v < V(r + 1, e)
  }

  ghost predicate RoundsTo(mode: Round, v: real, e: int, r: int)
  {
    match mode
    case HalfEven => Nearest(v, e, r)
    case Floor => GreatestBelow(v, e, r)
  }

  /** Both modes keep order. */
  lemma RoundsMono(mode: Round, v: real, w: real, e: int, r: int, s: int)
    requires v <= w
    requires RoundsTo(mode, v, e, r) && RoundsTo(mode, w, e, s)
    ensures r <= s
  {
    if s < r {
      match mode
      case HalfEven =>
        VOrder(2 * s + 1, 2 * r - 1, e);
      case Floor =>
        VOrder(s + 1, r, e);
    }
  }

  lemma RoundsUnique(mode: Round, v: real, e: int, r: int, s: int)
    requires RoundsTo(mode, v, e, r) && RoundsTo(mode, v, e, s)
    ensures r == s
  {
    RoundsMono(mode, v, v, e, r, s);
    RoundsMono(mode, v, v, e, s, r);
  }

  /** A multiple rounds to itself. */
  lemma RoundsExact(mode: Round, k: int, e: int)
    ensures RoundsTo(mode, V(k, e), e, k)
  {
    match mode
    case HalfEven =>
      VDouble(k, e);
      VOrder(2 * k - 1, 2 * k, e);
      VOrder(2 * k, 2 * k + 1, e);
    case Floor =>
      VOrder(k, k + 1, e);
  }

  // --- on coefficients -----------------------------------------------------------------

  /** Half-even on a coefficient: `q` is `c / d` rounded to the nearest integer. */
  predicate NearestQuotient(c: int, d: nat, q: int)
  {
    && (2 * q - 1) * d <= 2 * c <= (2 * q + 1) * d
    && (2 * c == (2 * q - 1) * d || 2 * c == (2 * q + 1) * d ==> q % 2 == 0)
  }

  predicate RoundedQuotient(mode: Round, c: int, d: nat, q: int)
  {
    match mode
    case HalfEven => NearestQuotient(c, d, q)
    case Floor => q * d <= c < (q + 1) * d
  }

  /** Rounding the value is rounding the coefficient's quotient. */
  lemma RoundsOnCoefficient(mode: Round, c: int, x: int, e: int, q: int)
    requires x <= e
    ensures RoundsTo(mode, V(c, x), e, q) <==> RoundedQuotient(mode, c, Pow10(e - x), q)
  {
    match mode
    case HalfEven =>
      VDouble(c, x);
      VCompare(2 * q - 1, e, 2 * c, x);
      VRescale(2 * q + 1, e, x);
      VOrder(2 * c, (2 * q + 1) * Pow10(e - x), x);
    case Floor =>
      VCompare(q, e, c, x);
      VRescale(q + 1, e, x);
      VOrder(c, (q + 1) * Pow10(e - x), x);
  }

  /** One more than the largest `u128`. */
  const U128: nat := 0x1_0000_0000_0000_0000_0000_0000_0000_0000

  /**
   * Quotient and remainder, by repeated subtraction: what `/` and `%` compute (`QuotRemIs`), in a form
   * that a proof unfolds one step at a time.
   */
  function Quot(c: nat, d: nat): (q: nat)
    requires d > 0
  {
    if c < d then 0 else 1 + Quot(c - d, d)
  }

  function Rem(c: nat, d: nat): (r: nat)
    requires d > 0
    ensures r < d
  {
    if c < d then c else Rem(c - d, d)
  }

  lemma {:induction false} QuotRemSum(c: nat, d: nat)
    requires d > 0
    ensures c == Quot(c, d) * d + Rem(c, d)
  {
    if c >= d {
      QuotRemSum(c - d, d);
      assert (1 + Quot(c - d, d)) * d == d + Quot(c - d, d) * d;
    }
  }

  lemma Unique(n: nat, d: nat, q: int, r: nat)
    requires d > 0 && n == q * d + r && r < d
    ensures q == n / d && r == n % d
  {
    var q', r' := n / d, n % d;
    assert n == q' * d + r';
    assert (q - q') * d == r' - r;
    if q > q' {
      Stretch(d, 1, q - q');
    } else if q < q' {
      Stretch(d, 1, q' - q);
    }
  }

  lemma Stretch(k: nat, a: int, b: int)
    requires a <= b
    ensures k * a <= k * b
  {
  }

  lemma QuotRemIs(c: nat, d: nat)
    requires d > 0
    ensures Quot(c, d) == c / d && Rem(c, d) == c % d
  {
    QuotRemSum(c, d);
    Unique(c, d, Quot(c, d), Rem(c, d));
  }

  /** `c / div` rounded as asked, over unbounded integers; `neg` is the sign of the value. */
  function DivRoundBig(c: nat, div: nat, neg: bool, mode: Round): (s: nat)
    requires div > 0
  {
    var q := Quot(c, div);
    var r := Rem(c, div);
    var up := match mode
      case HalfEven => if 2 * r > div then true else if 2 * r == div then q % 2 == 1 else false
      case Floor => neg && r != 0;
    if up then q + 1 else q
  }

  /** The same over `u128`, whose doubling of the remainder is checked for overflow. */
  function DivRoundU128(c: nat, div: nat, neg: bool, mode: Round): (s: nat)
    requires c < U128 && 0 < div < U128
  {
    var q := Quot(c, div);
    var r := Rem(c, div);
    var up := match mode
      case HalfEven =>
        if r * 2 >= U128 then true
        else if r * 2 > div then true
        else if r * 2 == div then q % 2 == 1
        else false
      case Floor => neg && r != 0;
    if up then q + 1 else q
  }

  /** `c / 10^drop` rounded as asked, over unbounded integers. */
  function ShiftRoundBig(c: nat, drop: nat, neg: bool, mode: Round): (s: nat)
  {
    DivRoundBig(c, Pow10(drop), neg, mode)
  }

  lemma TableFits(drop: nat)
    requires drop <= 38
    ensures 0 < Pow10(drop) < U128
  {
    Pow10Values();
    Pow10Mono(drop, 38);
  }

  /** `c / 10^drop` rounded as asked, over `u128` with a power table of 39 entries. */
  function ShiftRoundU128(c: nat, drop: nat, neg: bool, mode: Round): (s: nat)
    requires c < U128
  {
    if drop > 38 then
      match mode
      case HalfEven => 0
      case Floor => if neg && c != 0 then 1 else 0
    else
      TableFits(drop);
      DivRoundU128(c, Pow10(drop), neg, mode)
  }

  /** The magnitude rounding that realises a signed mode. */
  ghost function Signed(neg: bool, s: int): int
  {
    if neg then -s else s
  }

  lemma QuotientSteps(q: int, d: nat)
    ensures (2 * q - 1) * d == 2 * (q * d) - d && (2 * q + 1) * d == 2 * (q * d) + d
    ensures (q + 1) * d == q * d + d
  {
    assert (2 * q) * d == 2 * (q * d);
  }

  /** `s` is `q` or its successor, as the mode asks of remainder `r`. */
  predicate Picks(mode: Round, d: nat, q: int, r: nat, s: int)
  {
    match mode
    case HalfEven =>
      if 2 * r < d || (2 * r == d && q % 2 == 0) then s == q else s == q + 1
    case Floor => s == q
  }

  /** The pick is the rounded quotient. */
  lemma PickRounds(mode: Round, c: int, d: nat, q: int, r: nat, s: int)
    requires c == q * d + r && r < d && Picks(mode, d, q, r, s)
    ensures RoundedQuotient(mode, c, d, s)
  {
    QuotientSteps(q, d);
    QuotientSteps(q + 1, d);
  }

  lemma DivRoundCorrect(c: nat, d: nat, neg: bool, mode: Round)
    requires d > 0
    ensures RoundedQuotient(mode, Signed(neg, c), d, Signed(neg, DivRoundBig(c, d, neg, mode)))
  {
    var q: int, r, s := Quot(c, d), Rem(c, d), Signed(neg, DivRoundBig(c, d, neg, mode));
    QuotRemSum(c, d);
    if !neg {
      PickRounds(mode, c, d, q, r, s);
    } else {
      NegatedQuotient(c, d, q, r);
      if r == 0 {
        PickRounds(mode, 0 - c, d, 0 - q, 0, s);
      } else {
        PickRounds(mode, 0 - c, d, 0 - q - 1, d - r, s);
      }
    }
  }

  lemma NegatedQuotient(c: int, d: nat, q: int, r: nat)
    requires c == q * d + r
    ensures -c == (-q) * d - r && -c == (-q - 1) * d + (d - r)
  {
    assert (-q) * d == -(q * d);
    assert (-q - 1) * d == (-q) * d - d;
  }

  lemma DivRoundsAgree(c: nat, d: nat, neg: bool, mode: Round)
    requires c < U128 && 0 < d < U128
    ensures DivRoundU128(c, d, neg, mode) == DivRoundBig(c, d, neg, mode)
  {
  }

  lemma DivRoundSmall(c: nat, d: nat, neg: bool, mode: Round)
    requires 2 * c < d
    ensures DivRoundBig(c, d, neg, mode) == if mode.Floor? && neg && c != 0 then 1 else 0
  {
  }

  /** The integer shift computes the rounded quotient of the signed coefficient. */
  lemma ShiftRoundCorrect(c: nat, drop: nat, neg: bool, mode: Round)
    ensures RoundedQuotient(mode, Signed(neg, c), Pow10(drop), Signed(neg, ShiftRoundBig(c, drop, neg, mode)))
  {
    DivRoundCorrect(c, Pow10(drop), neg, mode);
  }

  /** Fast and wide shifts agree wherever the fast one applies, power table or not. */
  lemma ShiftRoundsAgree(c: nat, drop: nat, neg: bool, mode: Round)
    requires c < U128
    ensures ShiftRoundU128(c, drop, neg, mode) == ShiftRoundBig(c, drop, neg, mode)
  {
    if drop > 38 {
      Pow10Values();
      Pow10Mono(39, drop);
      DivRoundSmall(c, Pow10(drop), neg, mode);
    } else {
      TableFits(drop);
      DivRoundsAgree(c, Pow10(drop), neg, mode);
    }
  }

  lemma QuotientBound(c: nat, q: nat, d: nat, k: nat)
    requires q * d <= c && k <= d
    ensures k * q <= c
  {
    assert q * d == k * q + q * (d - k);
  }

  lemma DivRoundBound(c: nat, d: nat, k: nat, neg: bool, mode: Round)
    requires 0 < k <= d
    ensures k * DivRoundBig(c, d, neg, mode) <= c + k
  {
    var q, s := Quot(c, d), DivRoundBig(c, d, neg, mode);
    assert s <= q + 1;
    assert q * d <= c by { QuotRemSum(c, d); }
    QuotientBound(c, q, d, k);
    calc {
      k * s;
    <= { Stretch(k, s, q + 1); }
      k * (q + 1);
    ==
      k * q + k;
    }
  }

  /** A shift by at least one digit loses a digit, up to the rounding. */
  lemma ShiftRoundBound(c: nat, drop: nat, neg: bool, mode: Round)
    ensures ShiftRoundBig(c, drop, neg, mode) <= c + 1
    ensures drop > 0 ==> 10 * ShiftRoundBig(c, drop, neg, mode) <= c + 10
  {
    DivRoundBound(c, Pow10(drop), 1, neg, mode);
    if drop > 0 {
      DivRoundBound(c, Pow10(drop), 10, neg, mode);
    }
  }
}
