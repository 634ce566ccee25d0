/** What rounded arithmetic still keeps of real arithmetic: order, symmetry, signs and fixed points. */
module MoneyLaws {
  import opened PowersOfTen
  import opened Rounding
  import opened MoneyValue
  import opened MoneyFinish
  import opened MoneyArithmetic

  /** The exact negation, without re-rounding. */
  function Flip(x: Money): (y: Money)
    ensures Val(y) == -Val(x)
  {
    ValSign(x);
    if x.coef == 0 then x else Decimal(!x.neg, x.coef, x.scale)
  }

  function FlipResult(res: DecResult<Money>): DecResult<Money>
  {
    match res
    case Ok(x) => Ok(Flip(x))
    case Err(e) => Err(e)
  }

  // --- order -------------------------------------------------------------------------------

  /** The coefficient left by both stages grows with the magnitude. */
  lemma StagesMono(v: real, e: int, r1: nat, r2: nat, a: DecResult<Money>, w: real, f: int, s1: nat, s2: nat, b: DecResult<Money>)
    requires Abs(v) <= Abs(w)
    requires RoundedVia(v, e, r1, r2, a) && RoundedVia(w, f, s1, s2, b)
    ensures r2 <= s2
  {
    DecadeOrder(Abs(v), Abs(w), e, f);
    if e == f {
      RoundsMono(HalfEven, Abs(v), Abs(w), e, r1, s1);
      VOrder(r1, s1, e);
    } else {
      DecadeRange(Abs(v), e, r1);
      DecadeRange(Abs(w), f, s1);
      VOrder(r1, TEN28, e);
      VOrder(TEN27, s1, f);
    }
    RoundsMono(HalfEven, V(r1, e), V(s1, f), -28, r2, s2);
  }

  lemma MagnitudeMono(v: real, w: real, a: Money, b: Money)
    requires Abs(v) <= Abs(w) && v != 0.0
    requires Rounded(v, Ok(a)) && Rounded(w, Ok(b))
    ensures Mag(a) <= Mag(b)
  {
    var e, r1: nat, r2: nat :| RoundedVia(v, e, r1, r2, Ok(a));
    var f, s1: nat, s2: nat :| RoundedVia(w, f, s1, s2, Ok(b));
    StagesMono(v, e, r1, r2, Ok(a), w, f, s1, s2, Ok(b));
    VOrder(r2, s2, -28);
  }

  /** Rounding keeps order: a larger exact value never rounds to a smaller result. */
  lemma RoundedMono(v: real, w: real, a: Money, b: Money)
    requires v <= w
    requires Rounded(v, Ok(a)) && Rounded(w, Ok(b))
    ensures Val(a) <= Val(b)
  {
    ValSign(a);
    ValSign(b);
    if v != 0.0 { NeverVanishes(v, Ok(a)); }
    if w != 0.0 { NeverVanishes(w, Ok(b)); }
    if v > 0.0 {
      MagnitudeMono(v, w, a, b);
    } else if w < 0.0 {
      MagnitudeMono(w, v, b, a);
    }
  }

  lemma ResultsMono(v: real, w: real, r: DecResult<Money>, s: DecResult<Money>)
    requires v <= w && Rounded(v, r) && Rounded(w, s)
    ensures r.Ok? && s.Ok? ==> Val(r.value) <= Val(s.value)
  {
    if r.Ok? && s.Ok? {
      RoundedMono(v, w, r.value, s.value);
    }
  }

  /** Addition is weakly monotone in each argument, wherever both sides succeed. */
  lemma AddMonotone(a: Money, b: Money, c: Money)
    requires Val(a) <= Val(b)
    ensures Add(a, c).Ok? && Add(b, c).Ok? ==> Val(Add(a, c).value) <= Val(Add(b, c).value)
    ensures Add(c, a).Ok? && Add(c, b).Ok? ==> Val(Add(c, a).value) <= Val(Add(c, b).value)
    ensures Sub(a, c).Ok? && Sub(b, c).Ok? ==> Val(Sub(a, c).value) <= Val(Sub(b, c).value)
    ensures Sub(c, b).Ok? && Sub(c, a).Ok? ==> Val(Sub(c, b).value) <= Val(Sub(c, a).value)
  {
    MonoLeft(a, b, c, false);
    MonoLeft(a, b, c, true);
    AddMonoRight(a, b, c);
    SubMonoRight(a, b, c);
  }

  /** The outcomes of two sums are ordered as the exact sums are. */
  lemma SumsMono(a: Money, b: Money, negate: bool, c: Money, d: Money, r: DecResult<Money>, s: DecResult<Money>)
    requires Val(a) + Operand(c, negate) <= Val(b) + Operand(d, negate)
    requires AddSigned(a, c, negate) == r && AddSigned(b, d, negate) == s
    ensures r.Ok? && s.Ok? ==> Val(r.value) <= Val(s.value)
  {
    var v := SumRounds(a, c, negate, r);
    var w := SumRounds(b, d, negate, s);
    ResultsMono(v, w, r, s);
  }

  lemma SumRounds(a: Money, c: Money, negate: bool, r: DecResult<Money>) returns (v: real)
    requires AddSigned(a, c, negate) == r
    ensures v == Val(a) + Operand(c, negate) && Rounded(v, r)
  {
    v := Val(a) + Operand(c, negate);
    AddCorrect(a, c, negate);
  }

  lemma MonoLeft(a: Money, b: Money, c: Money, negate: bool)
    requires Val(a) <= Val(b)
    ensures var r, s := AddSigned(a, c, negate), AddSigned(b, c, negate);
      r.Ok? && s.Ok? ==> Val(r.value) <= Val(s.value)
  {
    SumsMono(a, b, negate, c, c, AddSigned(a, c, negate), AddSigned(b, c, negate));
  }

  lemma AddMonoRight(a: Money, b: Money, c: Money)
    requires Val(a) <= Val(b)
    ensures Add(c, a).Ok? && Add(c, b).Ok? ==> Val(Add(c, a).value) <= Val(Add(c, b).value)
  {
    SumsMono(c, c, false, a, b, Add(c, a), Add(c, b));
  }

  lemma SubMonoRight(a: Money, b: Money, c: Money)
    requires Val(a) <= Val(b)
    ensures Sub(c, b).Ok? && Sub(c, a).Ok? ==> Val(Sub(c, b).value) <= Val(Sub(c, a).value)
  {
    SumsMono(c, c, true, b, a, Sub(c, b), Sub(c, a));
  }

  lemma ScaledOrder(x: real, y: real, c: real)
    requires x <= y
    ensures c >= 0.0 ==> Times(x, c) <= Times(y, c)
    ensures c <= 0.0 ==> Times(y, c) <= Times(x, c)
  {
    if c >= 0.0 {
      assert (y - x) * c >= 0.0;
    } else {
      assert (y - x) * (-c) >= 0.0;
    }
  }

  /** The outcomes of two products are ordered as the exact products are. */
  lemma ProductsMono(a: Money, b: Money, c: Money)
    requires Times(Val(a), Val(c)) <= Times(Val(b), Val(c)) && Mul(a, c).Ok? && Mul(b, c).Ok?
    ensures Val(Mul(a, c).value) <= Val(Mul(b, c).value)
  {
    var x, r := MulRounds(a, c);
    var y, s := MulRounds(b, c);
    ResultsMono(x, y, r, s);
  }

  lemma MulRounds(a: Money, c: Money) returns (x: real, r: DecResult<Money>)
    ensures x == Times(Val(a), Val(c)) && r == Mul(a, c) && Rounded(x, r)
  {
    x, r := Times(Val(a), Val(c)), Mul(a, c);
    MulCorrect(a, c);
  }

  /** Multiplication by a factor that is not negative is weakly monotone, and by one that is not positive antitone. */
  lemma MulMonotone(a: Money, b: Money, c: Money)
    requires Val(a) <= Val(b) && Mul(a, c).Ok? && Mul(b, c).Ok?
    ensures Val(c) >= 0.0 ==> Val(Mul(a, c).value) <= Val(Mul(b, c).value)
    ensures Val(c) <= 0.0 ==> Val(Mul(b, c).value) <= Val(Mul(a, c).value)
  {
    ScaledOrder(Val(a), Val(b), Val(c));
    if Val(c) >= 0.0 {
      ProductsMono(a, b, c);
    }
    if Val(c) <= 0.0 {
      ProductsMono(b, a, c);
    }
  }

  lemma DividedOrder(x: real, y: real, c: real)
    requires x <= y && c != 0.0
    ensures c > 0.0 ==> x / c <= y / c
    ensures c < 0.0 ==> y / c <= x / c
  {
    assert x / c * c == x && y / c * c == y;
    var p, q := x / c, y / c;
    if c > 0.0 && p > q {
      assert (p - q) * c > 0.0;
    }
    if c < 0.0 && q > p {
      assert (q - p) * (-c) > 0.0;
    }
  }

  lemma DivRounds(a: Money, c: Money) returns (x: real, r: DecResult<Money>)
    requires Div(a, c).Ok?
    ensures Val(c) != 0.0 && x == Val(a) / Val(c) && r == Div(a, c) && Rounded(x, r)
  {
    DivCorrect(a, c);
    x, r := Val(a) / Val(c), Div(a, c);
  }

  /** Division by a positive divisor is weakly monotone, and by a negative one antitone. */
  lemma DivMonotone(a: Money, b: Money, c: Money)
    requires Val(a) <= Val(b) && Div(a, c).Ok? && Div(b, c).Ok?
    ensures Val(c) > 0.0 ==> Val(Div(a, c).value) <= Val(Div(b, c).value)
    ensures Val(c) < 0.0 ==> Val(Div(b, c).value) <= Val(Div(a, c).value)
  {
    var x, r := DivRounds(a, c);
    var y, s := DivRounds(b, c);
    DividedOrder(Val(a), Val(b), Val(c));
    if Val(c) > 0.0 {
      ResultsMono(x, y, r, s);
    } else {
      ResultsMono(y, x, s, r);
    }
  }

  // --- symmetry --------------------------------------------------------------------------------

  /** To know a sum's outcome it is enough to round its exact value. */
  lemma AddIs(a: Money, b: Money, negate: bool, v: real, res: DecResult<Money>)
    requires Val(a) + Operand(b, negate) == v && Rounded(v, res)
    ensures AddSigned(a, b, negate) == res
  {
    AddCorrect(a, b, negate);
    RoundedUnique(v, AddSigned(a, b, negate), res);
  }

  lemma AddCommutes(a: Money, b: Money)
    ensures Add(a, b) == Add(b, a)
  {
    AddCorrect(b, a, false);
    AddIs(a, b, false, Val(b) + Operand(a, false), Add(b, a));
  }

  lemma TimesCommutes(x: real, y: real)
    ensures Times(x, y) == Times(y, x)
  {
  }

  lemma MulCommutes(a: Money, b: Money)
    ensures Mul(a, b) == Mul(b, a)
  {
    MulCorrect(a, b);
    MulCorrect(b, a);
    TimesCommutes(Val(a), Val(b));
    RoundedUnique(Times(Val(a), Val(b)), Mul(a, b), Mul(b, a));
  }

  /** Rounding treats both signs alike. */
  lemma RoundedFlips(v: real, res: DecResult<Money>)
    requires Rounded(v, res)
    ensures Rounded(-v, FlipResult(res))
  {
    if v != 0.0 {
      var e, r1: nat, r2: nat :| RoundedVia(v, e, r1, r2, res);
      if res.Ok? {
        NeverVanishes(v, res);
        ValSign(res.value);
      }
      assert RoundedVia(-v, e, r1, r2, FlipResult(res));
    }
  }

  /** Swapping the operands of a subtraction negates its result exactly, refusals included. */
  lemma SubAntisymmetric(a: Money, b: Money)
    ensures Sub(b, a) == FlipResult(Sub(a, b))
  {
    AddCorrect(a, b, true);
    RoundedFlips(Val(a) + Operand(b, true), Sub(a, b));
    AddIs(b, a, true, -(Val(a) + Operand(b, true)), FlipResult(Sub(a, b)));
  }

  // --- zero --------------------------------------------------------------------------------------

  /** No operation returns zero for a non-zero exact result, and none misses a zero one. */
  lemma ZeroOnlyForZero(a: Money, b: Money)
    ensures Add(a, b) == Ok(ZERO) <==> Val(a) + Val(b) == 0.0
    ensures Sub(a, b) == Ok(ZERO) <==> a == b
    ensures Mul(a, b) == Ok(ZERO) <==> a == ZERO || b == ZERO
    ensures Div(a, b) == Ok(ZERO) <==> a == ZERO && b != ZERO
  {
    AddZero(a, b);
    SubZero(a, b);
    MulZero(a, b);
    DivZero(a, b);
  }

  lemma AddZero(a: Money, b: Money)
    ensures Add(a, b) == Ok(ZERO) <==> Val(a) + Val(b) == 0.0
  {
    AddCorrect(a, b, false);
    ZeroIff(Val(a) + Operand(b, false), Add(a, b));
  }

  lemma SubZero(a: Money, b: Money)
    ensures Sub(a, b) == Ok(ZERO) <==> a == b
  {
    AddCorrect(a, b, true);
    ZeroIff(Val(a) + Operand(b, true), Sub(a, b));
    if Val(a) == Val(b) { CanonicalUnique(a, b); }
  }

  lemma ZeroIff(v: real, res: DecResult<Money>)
    requires Rounded(v, res)
    ensures res == Ok(ZERO) <==> v == 0.0
  {
    if v != 0.0 && res.Ok? {
      NeverVanishes(v, res);
    }
  }

  lemma NonZeroProduct(x: real, y: real)
    ensures Times(x, y) == 0.0 <==> x == 0.0 || y == 0.0
  {
  }

  lemma MulZero(a: Money, b: Money)
    ensures Mul(a, b) == Ok(ZERO) <==> a == ZERO || b == ZERO
  {
    MulCorrect(a, b);
    ZeroIff(Times(Val(a), Val(b)), Mul(a, b));
    NonZeroProduct(Val(a), Val(b));
    ValSign(a);
    ValSign(b);
  }

  lemma DivZero(a: Money, b: Money)
    ensures Div(a, b) == Ok(ZERO) <==> a == ZERO && b != ZERO
  {
    DivCorrect(a, b);
    ValSign(a);
    ValSign(b);
    if b != ZERO {
      var q := Val(a) / Val(b);
      ZeroIff(q, Div(a, b));
      ZeroQuotient(Val(a), Val(b), q);
    }
  }

  lemma ZeroQuotient(x: real, y: real, q: real)
    requires y != 0.0 && q == x / y
    ensures q == 0.0 <==> x == 0.0
  {
    assert q * y == x;
  }

  // --- fixed points --------------------------------------------------------------------------------

  /** A value of at most 28 significant digits on the scale-28 grid passes through unchanged. */
  lemma ShortUnchanged(x: Money, k: nat, j: int)
    requires 0 < k < TEN28 && Mag(x) == V(k, j)
    ensures Rounded(Val(x), Ok(x))
  {
    VSign(k, j);
    ValSign(x);
    Tens();
    DigitsAtMost(k, PREC);
    var e, r1 := Round28Correct(false, k, j);
    var r2 := x.coef * Pow10(28 - x.scale);
    VRescale(x.coef, x.Exp(), -28);
    RoundsExact(HalfEven, r2, -28);
    Positive(x.coef, Pow10(28 - x.scale));
    assert HeldAs(Mag(x), x.coef, x.scale);
    assert RoundedVia(Val(x), e, r1, r2, Ok(x));
  }

  /** What the two stages leave has at most 28 significant digits. */
  lemma StagesShort(v: real, e: int, r1: nat, r2: nat, res: DecResult<Money>) returns (k: nat, j: int)
    requires RoundedVia(v, e, r1, r2, res) && r2 > 0
    ensures 0 < k < TEN28 && V(r2, -28) == V(k, j)
  {
    DecadeRange(Abs(v), e, r1);
    if e >= -28 {
      VRescale(r1, e, -28);
      RoundsExact(HalfEven, r1 * Pow10(e + 28), -28);
      RoundsUnique(HalfEven, V(r1, e), -28, r2, r1 * Pow10(e + 28));
      if r1 == TEN28 {
        VTen(TEN27, e);
        k, j := TEN27, e + 1;
      } else {
        k, j := r1, e;
      }
    } else {
      Decades(e, -28);
      VOrder(r1, TEN28, e);
      RoundsExact(HalfEven, TEN27, -28);
      RoundsMono(HalfEven, V(r1, e), V(TEN27, -28), -28, r2, TEN27);
      k, j := r2, -28;
    }
  }

  lemma RoundedIsFixed(v: real, x: Money)
    requires Rounded(v, Ok(x))
    ensures Rounded(Val(x), Ok(x))
  {
    if v != 0.0 {
      var e, r1: nat, r2: nat :| RoundedVia(v, e, r1, r2, Ok(x));
      var k, j := StagesShort(v, e, r1, r2, Ok(x));
      ShortUnchanged(x, k, j);
    } else {
      ValSign(x);
    }
  }

  /** `r` is a fixed point of adding zero. */
  predicate FixedPoint(r: DecResult<Money>)
  {
    r.Ok? ==> Add(r.value, ZERO) == r
  }

  /** Adding zero to any rounded result leaves it as it is. */
  lemma RoundedFixedPoint(v: real, res: DecResult<Money>)
    requires Rounded(v, res)
    ensures FixedPoint(res)
  {
    if res.Ok? {
      RoundedIsFixed(v, res.value);
      ValSign(ZERO);
      AddIs(res.value, ZERO, false, Val(res.value), res);
    }
  }

  /** Every result of the four operations is a fixed point of adding zero. */
  lemma ResultsAreFixed(a: Money, b: Money)
    ensures FixedPoint(Add(a, b)) && FixedPoint(Sub(a, b)) && FixedPoint(Mul(a, b)) && FixedPoint(Div(a, b))
  {
    SumIsFixed(a, b, false);
    SumIsFixed(a, b, true);
    MulIsFixed(a, b);
    DivIsFixed(a, b);
  }

  lemma SumIsFixed(a: Money, b: Money, negate: bool)
    ensures FixedPoint(AddSigned(a, b, negate))
  {
    var v := SumRounds(a, b, negate, AddSigned(a, b, negate));
    RoundedFixedPoint(v, AddSigned(a, b, negate));
  }

  lemma MulIsFixed(a: Money, b: Money)
    ensures FixedPoint(Mul(a, b))
  {
    MulCorrect(a, b);
    RoundedFixedPoint(Times(Val(a), Val(b)), Mul(a, b));
  }

  lemma DivIsFixed(a: Money, b: Money)
    ensures FixedPoint(Div(a, b))
  {
    DivCorrect(a, b);
    if b != ZERO {
      RoundedFixedPoint(Val(a) / Val(b), Div(a, b));
    }
  }

  // --- negation of a literal --------------------------------------------------------------------

  /** A coefficient of 29 digits is rounded one place up, so a last digit that is not zero is lost. */
  lemma LongStages(c: nat, x: int, e: int, r1: nat, r2: nat)
    requires TEN28 < c < Pow10(29) && c % 10 != 0 && x >= -28
    requires InDecade(V(c, x), e) && Nearest(V(c, x), e, r1) && Nearest(V(r1, e), -28, r2)
    ensures e == x + 1 && r2 > 0 && V(r2, -28) == V(r1, e) && V(r1, e) != V(c, x)
  {
    assert e == x + 1 by {
      Tens();
      LongDecade(c, 29, x);
      DecadeOrder(V(c, x), V(c, x), e, x + 1);
      DecadeOrder(V(c, x), V(c, x), x + 1, e);
    }
    assert r1 > 0 by {
      DecadeRange(V(c, x), e, r1);
    }
    OnGrid(r1, e, r2);
    VTen(r1, x);
    VOrder(10 * r1, c, x);
  }

  /** Above the scale-28 grid the second stage changes nothing. */
  lemma OnGrid(r1: nat, e: int, r2: nat)
    requires e >= -28 && r1 > 0 && Nearest(V(r1, e), -28, r2)
    ensures r2 > 0 && V(r2, -28) == V(r1, e)
  {
    var q := r1 * Pow10(e + 28);
    VRescale(r1, e, -28);
    RoundsExact(HalfEven, q, -28);
    RoundsUnique(HalfEven, V(r1, e), -28, r2, q);
    Positive(r1, Pow10(e + 28));
  }

  /** At most 28 significant digits. */
  predicate Short(x: Money)
  {
    x.coef <= TEN28 || x.coef % 10 == 0
  }

  lemma ShortKept(x: Money)
    requires Short(x)
    ensures Rounded(Val(x), Ok(x))
  {
    ValSign(x);
    if x.coef % 10 == 0 && x.coef != 0 {
      VTen(x.coef / 10, 0);
      assert x.coef == 10 * (x.coef / 10);
      ShortUnchanged(x, x.coef / 10, 1);
    } else if x.coef != 0 {
      ShortUnchanged(x, x.coef, x.Exp());
    }
  }

  /** How a 29-digit value not ending in zero rounds: one place up, to a nearest multiple that is not itself. */
  lemma LongRounds(x: Money, v: real, res: DecResult<Money>) returns (r1: nat)
    requires !Short(x) && Abs(v) == Mag(x) && Rounded(v, res)
    ensures Nearest(Mag(x), x.Exp() + 1, r1) && V(r1, x.Exp() + 1) != Mag(x)
    ensures HeldOrRefused(v < 0.0, V(r1, x.Exp() + 1), res)
  {
    ValSign(x);
    var e, s1: nat, r2: nat :| RoundedVia(v, e, s1, r2, res);
    r1 := s1;
    Pow10Values();
    LongStages(x.coef, x.Exp(), e, r1, r2);
  }

  /** The nearest multiple of ten to a 29-digit coefficient stays below the bound unless it is the largest. */
  lemma NearestStays(c: nat, r1: nat)
    requires TEN28 < c < MANTISSA_LIMIT && NearestQuotient(c, 10, r1)
    ensures r1 < MANTISSA_LIMIT && (10 * r1 >= MANTISSA_LIMIT <==> c == MANTISSA_LIMIT - 1)
  {
  }

  /** A long value is refused only when it is the largest there is; otherwise its rounding is held. */
  lemma LongRefusedIff(x: Money, v: real, res: DecResult<Money>)
    requires !Short(x) && Abs(v) == Mag(x) && Rounded(v, res)
    ensures res.Err? <==> x.coef == MANTISSA_LIMIT - 1 && x.scale == 0
    ensures res.Ok? ==> Mag(res.value) != Mag(x)
  {
    var r1 := LongRounds(x, v, res);
    assert NearestQuotient(x.coef, 10, r1) by {
      RoundsOnCoefficient(HalfEven, x.coef, x.Exp(), x.Exp() + 1, r1);
      Pow10Values();
    }
    NearestStays(x.coef, r1);
    TenfoldFits(r1, x.scale);
  }

  lemma TenfoldFits(r1: nat, scale: nat)
    requires r1 < MANTISSA_LIMIT && scale <= MAX_SCALE
    ensures Fits(V(r1, 1 - scale)) <==> scale > 0 || 10 * r1 < MANTISSA_LIMIT
  {
    if scale > 0 {
      assert HeldAs(V(r1, 1 - scale), r1, scale - 1);
    } else {
      VTen(r1, 0);
      if 10 * r1 < MANTISSA_LIMIT {
        assert HeldAs(V(r1, 1), 10 * r1, 0);
      } else if Fits(V(r1, 1)) {
        FitsBelow(V(r1, 1));
        VOrder(MANTISSA_LIMIT, 10 * r1, 0);
      }
    }
  }

  lemma FitsBelow(w: real)
    requires Fits(w)
    ensures w < V(MANTISSA_LIMIT, 0)
  {
    var m: nat, s: nat :| HeldAs(w, m, s);
    VRescale(MANTISSA_LIMIT, 0, 0 - s);
    Positive(MANTISSA_LIMIT, Pow10(s));
    VOrder(m, MANTISSA_LIMIT * Pow10(s), 0 - s);
  }

  /** What re-rounding does to a value `y` of magnitude `Mag(x)`: kept when short, refused when the largest. */
  lemma ReroundIff(y: Money, res: DecResult<Money>)
    requires Rounded(Val(y), res)
    ensures res == Ok(y) <==> Short(y)
    ensures res.Err? <==> y.coef == MANTISSA_LIMIT - 1 && y.scale == 0
  {
    if Short(y) {
      ShortKept(y);
      RoundedUnique(Val(y), res, Ok(y));
    } else {
      ValSign(y);
      LongRefusedIff(y, Val(y), res);
    }
  }

  /** Negating is exact precisely when the value has at most 28 significant digits. */
  lemma NegExactIff(x: Money)
    ensures Neg(x) == Ok(Flip(x)) <==> x.coef <= TEN28 || x.coef % 10 == 0
  {
    NegCorrect(x);
    ReroundIff(Flip(x), Neg(x));
  }

  /** And it is refused precisely for the largest magnitude there is, of either sign. */
  lemma NegRefusedIff(x: Money)
    ensures Neg(x).Err? <==> x.coef == MANTISSA_LIMIT - 1 && x.scale == 0
  {
    NegCorrect(x);
    ReroundIff(Flip(x), Neg(x));
  }

  /** The absolute value without re-rounding. */
  function Unsigned(x: Money): (y: Money)
    ensures Val(y) == Mag(x)
  {
    x.(neg := false)
  }

  /** The absolute value is exact, and is refused, under the same conditions. */
  lemma AbsExactIff(x: Money)
    ensures AbsOf(x) == Ok(Unsigned(x)) <==> x.coef <= TEN28 || x.coef % 10 == 0
  {
    NegCorrect(x);
    ReroundIff(Unsigned(x), AbsOf(x));
  }

  lemma AbsRefusedIff(x: Money)
    ensures AbsOf(x).Err? <==> x.coef == MANTISSA_LIMIT - 1 && x.scale == 0
  {
    NegCorrect(x);
    ReroundIff(Unsigned(x), AbsOf(x));
  }

  /** The largest literal is a value, and neither its negation nor its absolute value is. */
  lemma LargestRefused(x: Money)
    requires x == Decimal(false, MANTISSA_LIMIT - 1, 0)
    ensures Neg(x).Err? && AbsOf(x).Err?
  {
    NegRefusedIff(x);
    AbsRefusedIff(x);
  }
}
