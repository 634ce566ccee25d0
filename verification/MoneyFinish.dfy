/**
 * How every arithmetic result is finished: rounded half-even to 28 significant digits, then half-even
 * to scale 28, refused when it would vanish or does not fit. `Rounded` states that over the exact real
 * value; the `u128` path and the big-integer path are both proved to compute it.
 */
module MoneyFinish {
  import opened PowersOfTen
  import opened Rounding
  import opened MoneyValue

  /** `10^27` and `10^28`, the coefficients of 28 digits lie between them. */
  const TEN27: nat := 1_000_000_000_000_000_000_000_000_000
  const TEN28: nat := 10_000_000_000_000_000_000_000_000_000

  lemma Tens()
    ensures Pow10(27) == TEN27 && Pow10(28) == TEN28
  {
    Pow10Values();
  }

  // --- the specification -------------------------------------------------------------------

  ghost function Abs(v: real): real
  {
    if v < 0.0 then -v else v
  }

  /** `10^e` is the unit at which `w` has exactly 28 digits before the point. */
  ghost predicate InDecade(w: real, e: int)
  {
    V(TEN27, e) <= w < V(TEN28, e)
  }

  /** `res` is `v` rounded through the two stages, with `r1` and `r2` the coefficients they leave. */
  ghost predicate RoundedVia(v: real, e: int, r1: nat, r2: nat, res: DecResult<Money>)
  {
    && InDecade(Abs(v), e)
    && Nearest(Abs(v), e, r1)
    && Nearest(V(r1, e), -28, r2)
    && if r2 == 0 then res == Err(Overflow) else HeldOrRefused(v < 0.0, V(r2, -28), res)
  }

  /** The one rounding-and-bound specification of arithmetic: `res` is what the exact value `v` becomes. */
  ghost predicate Rounded(v: real, res: DecResult<Money>)
  {
    if v == 0.0 then res == Ok(ZERO) else exists e: int, r1: nat, r2: nat :: RoundedVia(v, e, r1, r2, res)
  }

  lemma DecadeOrder(v: real, w: real, e: int, f: int)
    requires v <= w && InDecade(v, e) && InDecade(w, f)
    ensures e <= f
    ensures e < f ==> V(TEN28, e) <= V(TEN27, f)
  {
    if f < e {
      Decades(f, e);
    } else if e < f {
      Decades(e, f);
    }
  }

  lemma Decades(e: int, f: int)
    requires e < f
    ensures V(TEN28, e) <= V(TEN27, f)
  {
    VRescale(TEN27, f, e);
    var n := Pow10(f - e);
    assert n >= 10;
    Stretch(TEN27, 10, n);
    VOrder(TEN28, TEN27 * n, e);
  }

  /** The specification leaves no choice: one exact value has one outcome. */
  lemma RoundedUnique(v: real, a: DecResult<Money>, b: DecResult<Money>)
    requires Rounded(v, a) && Rounded(v, b)
    ensures a == b
  {
    if v != 0.0 {
      var e, r1: nat, r2: nat :| RoundedVia(v, e, r1, r2, a);
      var f, s1: nat, s2: nat :| RoundedVia(v, f, s1, s2, b);
      DecadeOrder(Abs(v), Abs(v), e, f);
      DecadeOrder(Abs(v), Abs(v), f, e);
      RoundsUnique(HalfEven, Abs(v), e, r1, s1);
      RoundsUnique(HalfEven, V(r1, e), -28, r2, s2);
      if r2 != 0 {
        HeldOrRefusedUnique(v < 0.0, V(r2, -28), a, b);
      }
    }
  }

  /** A non-zero exact result is never returned as zero. */
  lemma NeverVanishes(v: real, res: DecResult<Money>)
    requires Rounded(v, res) && v != 0.0 && res.Ok?
    ensures res.value != ZERO
    ensures res.value.neg == (v < 0.0)
  {
    var e, r1: nat, r2: nat :| RoundedVia(v, e, r1, r2, res);
    VSign(r2, -28);
    ValSign(res.value);
  }

  // --- digit counts ------------------------------------------------------------------------

  function Digits(n: nat): (d: nat)
    ensures d >= 1
  {
    if n < 10 then 1 else 1 + Digits(n / 10)
  }

  lemma {:induction false} DigitsBound(n: nat)
    ensures n < Pow10(Digits(n))
    ensures n > 0 ==> Pow10(Digits(n) - 1) <= n
  {
    if n >= 10 {
      DigitsBound(n / 10);
    }
  }

  lemma DigitsAtMost(n: nat, k: nat)
    requires k >= 1
    ensures Digits(n) <= k <==> n < Pow10(k)
  {
    DigitsBound(n);
    if Digits(n) <= k {
      Pow10Mono(Digits(n), k);
    } else {
      Pow10Mono(k, Digits(n) - 1);
    }
  }

  // --- the code ------------------------------------------------------------------------------

  lemma ShortFits(n: nat)
    requires n <= TEN28
    ensures n < U128
  {
  }

  lemma ShortDigitsFit(n: nat)
    requires Digits(n) <= PREC
    ensures n < U128
  {
    Tens();
    DigitsAtMost(n, PREC);
    ShortFits(n);
  }

  /** First stage over `u128`: 28 significant digits. */
  function Round28U128(neg: bool, coef: nat, exp: int): (r: (nat, int))
    requires coef < U128
  {
    var n := Digits(coef);
    if n > PREC then
      var drop := n - PREC;
      var r := ShiftRoundU128(coef, drop, neg, HalfEven);
      if Digits(r) > PREC then (r / 10, exp + drop + 1) else (r, exp + drop)
    else (coef, exp)
  }

  /** First stage over big integers. */
  function Round28Big(neg: bool, coef: nat, exp: int): (r: (nat, int))
  {
    var n := Digits(coef);
    if n > PREC then
      var drop := n - PREC;
      var r := ShiftRoundBig(coef, drop, neg, HalfEven);
      if Digits(r) > PREC then (r / 10, exp + drop + 1) else (r, exp + drop)
    else (coef, exp)
  }

  /** Second stage: scale 28, then the bound; a result that would vanish is refused. */
  function Settle(neg: bool, coef: nat, exp: int): (res: DecResult<Money>)
    requires coef < U128
  {
    if exp < -28 then
      var r := ShiftRoundU128(coef, -28 - exp, neg, HalfEven);
      if r == 0 then Err(Overflow) else Build(neg, r, -28)
    else Build(neg, coef, exp)
  }

  /** `finish_u128`. */
  function FinishU128(neg: bool, coef: nat, exp: int): (res: DecResult<Money>)
    requires coef < U128
  {
    if coef == 0 then Ok(ZERO) else
    Round28Agree(neg, coef, exp);
    Round28Short(neg, coef, exp);
    var (c, e) := Round28U128(neg, coef, exp);
    Settle(neg, c, e)
  }

  /** `finish_big`: cut to 28 digits on big integers, then hand over to the `u128` path. */
  function FinishBig(neg: bool, coef: nat, exp: int): (res: DecResult<Money>)
  {
    if coef == 0 then Ok(ZERO)
    else if Digits(coef) <= PREC then
      ShortDigitsFit(coef);
      FinishU128(neg, coef, exp)
    else
      Round28Short(neg, coef, exp);
      var (c, e) := Round28Big(neg, coef, exp);
      FinishU128(neg, c, e)
  }

  lemma Round28Agree(neg: bool, coef: nat, exp: int)
    requires coef < U128
    ensures Round28U128(neg, coef, exp) == Round28Big(neg, coef, exp)
  {
    if Digits(coef) > PREC {
      ShiftRoundsAgree(coef, Digits(coef) - PREC, neg, HalfEven);
    }
  }

  /** A coefficient of `n > 28` digits lies in the decade `n - 28` places up. */
  lemma LongDecade(coef: nat, n: nat, exp: int)
    requires n > PREC && Pow10(n - 1) <= coef < Pow10(n)
    ensures InDecade(V(coef, exp), exp + (n - PREC))
  {
    var drop := n - PREC;
    Tens();
    Pow10Add(27, drop);
    Pow10Add(28, drop);
    VCompare(TEN27, exp + drop, coef, exp);
    VRescale(TEN28, exp + drop, exp);
    VOrder(coef, Pow10(n), exp);
  }

  /** Rounding inside a decade stays in it, or lands on its upper edge. */
  lemma DecadeRange(w: real, e: int, r: int)
    requires InDecade(w, e) && Nearest(w, e, r)
    ensures TEN27 <= r <= TEN28
  {
    var lo, hi := TEN27, TEN28;
    RoundsExact(HalfEven, lo, e);
    RoundsExact(HalfEven, hi, e);
    RoundsMono(HalfEven, V(lo, e), w, e, lo, r);
    RoundsMono(HalfEven, w, V(hi, e), e, r, hi);
  }

  lemma ShiftIsNearest(coef: nat, drop: nat, neg: bool, exp: int)
    ensures Nearest(V(coef, exp), exp + drop, ShiftRoundBig(coef, drop, neg, HalfEven))
  {
    ShiftRoundCorrect(coef, drop, false, HalfEven);
    RoundsOnCoefficient(HalfEven, coef, exp, exp + drop, ShiftRoundBig(coef, drop, false, HalfEven));
  }

  /** The first stage's coefficient, before the carry into a 29th digit is folded away. */
  lemma LongStage(neg: bool, coef: nat, exp: int)
    requires Digits(coef) > PREC
    ensures var drop := Digits(coef) - PREC; var r := ShiftRoundBig(coef, drop, neg, HalfEven);
      && InDecade(V(coef, exp), exp + drop)
      && Nearest(V(coef, exp), exp + drop, r)
      && TEN27 <= r <= TEN28
  {
    var drop := Digits(coef) - PREC;
    DigitsBound(coef);
    LongDecade(coef, Digits(coef), exp);
    ShiftIsNearest(coef, drop, neg, exp);
    DecadeRange(V(coef, exp), exp + drop, ShiftRoundBig(coef, drop, neg, HalfEven));
  }

  lemma Round28Short(neg: bool, coef: nat, exp: int)
    requires coef > 0
    ensures 0 < Round28Big(neg, coef, exp).0 < TEN28
    ensures Round28Big(neg, coef, exp).0 < U128
    ensures Digits(Round28Big(neg, coef, exp).0) <= PREC
  {
    var n := Digits(coef);
    if n > PREC {
      LongStage(neg, coef, exp);
      var r := ShiftRoundBig(coef, n - PREC, neg, HalfEven);
      Tens();
      DigitsAtMost(r, PREC);
    }
    Tens();
    DigitsAtMost(Round28Big(neg, coef, exp).0, PREC);
  }

  lemma CarryFolds(r: nat, e: int)
    requires r <= TEN28 && Digits(r) > PREC
    ensures V(r, e) == V(r / 10, e + 1)
  {
    Tens();
    DigitsAtMost(r, PREC);
    VTen(TEN27, e);
  }

  /** The first stage is half-even at the value's own 28-digit unit. */
  lemma Round28Correct(neg: bool, coef: nat, exp: int) returns (e: int, r1: nat)
    requires coef > 0
    ensures InDecade(V(coef, exp), e) && Nearest(V(coef, exp), e, r1)
    ensures V(r1, e) == V(Round28Big(neg, coef, exp).0, Round28Big(neg, coef, exp).1)
  {
    var n := Digits(coef);
    if n > PREC {
      LongStage(neg, coef, exp);
      e := exp + (n - PREC);
      r1 := ShiftRoundBig(coef, n - PREC, neg, HalfEven);
      if Digits(r1) > PREC {
        CarryFolds(r1, e);
      }
    } else {
      e, r1 := exp - (PREC - n), coef * Pow10(PREC - n);
      DigitsBound(coef);
      ShortDecade(coef, n, exp);
      RoundsExact(HalfEven, r1, e);
    }
  }

  lemma ShortDecade(coef: nat, n: nat, exp: int)
    requires 1 <= n <= PREC && Pow10(n - 1) <= coef < Pow10(n)
    ensures var e := exp - (PREC - n); var r := coef * Pow10(PREC - n);
      V(coef, exp) == V(r, e) && InDecade(V(coef, exp), e)
  {
    var pad := PREC - n;
    var e, k := exp - pad, Pow10(pad);
    VRescale(coef, exp, e);
    Tens();
    Pow10Add(n - 1, pad);
    Pow10Add(n, pad);
    Sandwich(Pow10(n - 1), coef, Pow10(n), k);
    VOrder(Pow10(n - 1) * k, coef * k, e);
    VOrder(coef * k, Pow10(n) * k, e);
  }

  lemma Sandwich(a: int, c: int, b: int, k: int)
    requires a <= c < b && k > 0
    ensures a * k <= c * k < b * k
  {
    Stretch(k, a, c);
    Stretch(k, c, b - 1);
    assert (b - 1) * k == b * k - k;
  }

  /** The second stage is half-even at scale 28, refusing what vanishes, then the bound. */
  lemma SettleCorrect(neg: bool, coef: nat, exp: int) returns (r2: nat)
    requires 0 < coef < U128
    ensures Nearest(V(coef, exp), -28, r2)
    ensures if r2 == 0 then Settle(neg, coef, exp) == Err(Overflow)
      else HeldOrRefused(neg, V(r2, -28), Settle(neg, coef, exp))
  {
    if exp < -28 {
      ShiftRoundsAgree(coef, -28 - exp, neg, HalfEven);
      r2 := ShiftRoundBig(coef, -28 - exp, neg, HalfEven);
      ShiftRoundCorrect(coef, -28 - exp, false, HalfEven);
      RoundsOnCoefficient(HalfEven, coef, exp, -28, r2);
      if r2 != 0 {
        BuildCorrect(neg, r2, -28);
      }
    } else {
      r2 := coef * Pow10(exp + 28);
      Positive(coef, Pow10(exp + 28));
      VRescale(coef, exp, -28);
      RoundsExact(HalfEven, r2, -28);
      BuildCorrect(neg, coef, exp);
    }
  }

  /** Every finished result is the exact value rounded, whichever path finished it. */
  lemma FinishBigCorrect(neg: bool, coef: nat, exp: int)
    ensures Rounded(if neg then -V(coef, exp) else V(coef, exp), FinishBig(neg, coef, exp))
  {
    VSign(coef, exp);
    if coef > 0 {
      var v := if neg then -V(coef, exp) else V(coef, exp);
      var e, r1 := Round28Correct(neg, coef, exp);
      Round28Short(neg, coef, exp);
      var (c, f) := Round28Big(neg, coef, exp);
      var r2 := SettleCorrect(neg, c, f);
      FinishBigStages(neg, coef, exp);
      assert RoundedVia(v, e, r1, r2, FinishBig(neg, coef, exp));
    }
  }

  lemma FinishBigStages(neg: bool, coef: nat, exp: int)
    requires coef > 0
    ensures Round28Big(neg, coef, exp).0 < U128
    ensures FinishBig(neg, coef, exp) == Settle(neg, Round28Big(neg, coef, exp).0, Round28Big(neg, coef, exp).1)
  {
    Round28Short(neg, coef, exp);
    if Digits(coef) <= PREC {
      ShortDigitsFit(coef);
    }
  }

  /** The `u128` path and the big-integer path always agree. */
  lemma FastPathAgrees(neg: bool, coef: nat, exp: int)
    requires coef < U128
    ensures FinishU128(neg, coef, exp) == FinishBig(neg, coef, exp)
  {
    if coef > 0 {
      FinishBigStages(neg, coef, exp);
      Round28Agree(neg, coef, exp);
    }
  }
}
