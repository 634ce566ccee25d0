/** Rounding a `Money` to a power of ten, and to a whole number. */
module MoneyQuantize {
  import opened PowersOfTen
  import opened Rounding
  import opened MoneyValue
  import opened MoneyFinish

  /** The exponents a quantize target may carry. */
  const ETINY: int := -999_999 - 27
  const EMAX: int := 999_999

  /** `Money::build_big`: strip the zeros on big integers first, then build. */
  function BuildBig(neg: bool, coef: nat, exp: int): (r: DecResult<Money>)
  {
    if coef == 0 then Ok(ZERO) else
    var (c, e) := StripZeros(coef, exp);
    if c >= U128 then Err(Overflow) else Build(neg, c, e)
  }

  /** Building from a big integer is the same bound on the same exact value. */
  lemma BuildBigAgrees(neg: bool, coef: nat, exp: int)
    ensures BuildBig(neg, coef, exp) == Build(neg, coef, exp)
  {
    if coef > 0 {
      var (c, e) := StripZeros(coef, exp);
      assert StripZeros(c, e) == (c, e);
      if c >= U128 && 0 < e <= 38 {
        Positive(c, Pow10(e));
      }
    }
  }

  /** The coefficient at exponent `exp`, or the refusal of an exponent too far below. */
  function CoefAt(x: Money, exp: int, mode: Round): (r: DecResult<nat>)
  {
    if x.Exp() >= exp then
      if x.Exp() - exp > 4_000_000 then Err(InvalidOperation) else Ok(x.coef * Pow10(x.Exp() - exp))
    else Ok(ShiftRoundU128(x.coef, exp - x.Exp(), x.neg, mode))
  }

  /** `quantize_round`. */
  function QuantizeRound(x: Money, exp: int, mode: Round): (res: DecResult<Money>)
  {
    if !(ETINY <= exp <= EMAX) then Err(InvalidOperation)
    else if x.coef == 0 then Ok(ZERO)
    else
      match CoefAt(x, exp, mode)
      case Err(e) => Err(e)
      case Ok(c) => if Digits(c) > PREC then Err(InvalidOperation) else BuildBig(x.neg, c, exp)
  }

  /** `to_integral`. */
  function ToIntegral(x: Money, mode: Round): (res: DecResult<Money>)
  {
    if x.Exp() >= 0 then Ok(x) else Build(x.neg, ShiftRoundU128(x.coef, -x.Exp(), x.neg, mode), 0)
  }

  lemma SignedVal(x: Money)
    ensures Val(x) == V(Signed(x.neg, x.coef), x.Exp())
  {
    VNeg(x.coef, x.Exp());
  }

  /** The shifted magnitude is the signed value rounded as the mode asks, even past the power table. */
  lemma ShiftRoundsSigned(x: Money, exp: int, mode: Round)
    requires x.Exp() <= exp
    ensures RoundsTo(mode, Val(x), exp, Signed(x.neg, ShiftRoundU128(x.coef, exp - x.Exp(), x.neg, mode)))
  {
    var drop := exp - x.Exp();
    SignedVal(x);
    ShiftRoundsAgree(x.coef, drop, x.neg, mode);
    ShiftRoundCorrect(x.coef, drop, x.neg, mode);
    RoundsOnCoefficient(mode, Signed(x.neg, x.coef), x.Exp(), exp, Signed(x.neg, ShiftRoundBig(x.coef, drop, x.neg, mode)));
  }

  /** How many units of `10^exp` the mode picks, without the guard on how far that reaches. */
  function UnitsAt(x: Money, exp: int, mode: Round): nat
  {
    if x.Exp() >= exp then x.coef * Pow10(x.Exp() - exp) else ShiftRoundU128(x.coef, exp - x.Exp(), x.neg, mode)
  }

  lemma UnitsAtRounds(x: Money, exp: int, mode: Round)
    ensures RoundsTo(mode, Val(x), exp, Signed(x.neg, UnitsAt(x, exp, mode)))
    ensures ETINY <= exp <= EMAX ==> CoefAt(x, exp, mode) == Ok(UnitsAt(x, exp, mode))
  {
    if x.Exp() >= exp {
      var c := x.coef * Pow10(x.Exp() - exp);
      SignedVal(x);
      VRescale(x.coef, x.Exp(), exp);
      VNeg(c, exp);
      VNeg(x.coef, x.Exp());
      RoundsExact(mode, Signed(x.neg, c), exp);
    } else {
      ShiftRoundsSigned(x, exp, mode);
    }
  }

  /**
   * Quantizing answers with the multiple of `10^exp` the mode picks, `k` of them: refused outside the
   * exponent range and past 28 digits, otherwise held exactly when it fits the bound.
   */
  lemma QuantizeCorrect(x: Money, exp: int, mode: Round) returns (k: int)
    ensures RoundsTo(mode, Val(x), exp, k)
    ensures (k < 0 ==> x.neg) && (k > 0 ==> !x.neg)
    ensures var res := QuantizeRound(x, exp, mode);
      if !(ETINY <= exp <= EMAX) then res == Err(InvalidOperation)
      else if k == 0 then res == Ok(ZERO)
      else if k <= 0 - TEN28 || k >= TEN28 then res == Err(InvalidOperation)
      else HeldOrRefused(x.neg, V(if k < 0 then -k else k, exp), res)
  {
    UnitsAtRounds(x, exp, mode);
    var c := UnitsAt(x, exp, mode);
    k := Signed(x.neg, c);
    Tens();
    DigitsAtMost(c, PREC);
    if c > 0 {
      BuildBigAgrees(x.neg, c, exp);
      BuildCorrect(x.neg, c, exp);
    }
    if x.coef == 0 {
      VZero(exp);
      ValSign(x);
      RoundsExact(mode, 0, exp);
      RoundsUnique(mode, Val(x), exp, k, 0);
    }
  }

  /** `to_integral` never refuses, and answers with the whole number the mode picks. */
  lemma ToIntegralCorrect(x: Money, mode: Round) returns (k: int)
    ensures RoundsTo(mode, Val(x), 0, k)
    ensures ToIntegral(x, mode).Ok? && Val(ToIntegral(x, mode).value) == V(k, 0)
    ensures ToIntegral(x, mode).value.scale == 0
  {
    if x.Exp() >= 0 {
      k := Signed(x.neg, x.coef);
      SignedVal(x);
      RoundsExact(mode, k, 0);
    } else {
      var c := ShiftRoundU128(x.coef, -x.Exp(), x.neg, mode);
      k := Signed(x.neg, c);
      ShiftRoundsSigned(x, 0, mode);
      WholeFits(x, mode);
      WholeBuilds(x.neg, c);
    }
  }

  /** Dropping the digits after the point leaves room for the rounding. */
  lemma WholeFits(x: Money, mode: Round)
    requires x.Exp() < 0
    ensures ShiftRoundU128(x.coef, -x.Exp(), x.neg, mode) < MANTISSA_LIMIT
  {
    ShiftRoundsAgree(x.coef, -x.Exp(), x.neg, mode);
    ShiftRoundBound(x.coef, -x.Exp(), x.neg, mode);
  }

  lemma WholeBuilds(neg: bool, c: nat)
    requires c < MANTISSA_LIMIT
    ensures Build(neg, c, 0).Ok? && Build(neg, c, 0).value.scale == 0
    ensures Val(Build(neg, c, 0).value) == V(Signed(neg, c), 0)
  {
    VZero(0);
    VNeg(c, 0);
    if c > 0 {
      BuildCorrect(neg, c, 0);
      assert HeldAs(V(c, 0), c, 0);
      var r := Build(neg, c, 0).value;
      WholeScale(r, c);
    } else {
      ValSign(ZERO);
    }
  }

  /** A canonical whole number has no scale. */
  lemma WholeScale(r: Money, c: nat)
    requires Mag(r) == V(c, 0)
    ensures r.scale == 0
  {
    if r.scale > 0 {
      VCompare(c, 0, r.coef, r.Exp());
      NotMultiple(r.coef, c, Pow10(r.scale - 1));
    }
  }
}
