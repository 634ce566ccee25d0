/**
 * `Money` arithmetic: each operation is the exact result of the real numbers its operands stand for,
 * passed through `Rounded`, whichever of the fast and wide code paths computes it.
 */
module MoneyArithmetic {
  import opened PowersOfTen
  import opened Rounding
  import opened MoneyValue
  import opened MoneyFinish

  // --- negation and absolute value ---------------------------------------------------------

  lemma CoefFits(x: Money)
    ensures x.coef < U128
  {
  }

  /** `-x`, rounded to the context. */
  function Neg(x: Money): (res: DecResult<Money>)
  {
    CoefFits(x);
    FinishU128(!x.neg && x.coef != 0, x.coef, x.Exp())
  }

  /** `abs(x)`, rounded to the context. */
  function AbsOf(x: Money): (res: DecResult<Money>)
  {
    CoefFits(x);
    FinishU128(false, x.coef, x.Exp())
  }

  lemma NegCorrect(x: Money)
    ensures Rounded(-Val(x), Neg(x))
    ensures Rounded(Mag(x), AbsOf(x))
  {
    CoefFits(x);
    ValSign(x);
    FastPathAgrees(!x.neg && x.coef != 0, x.coef, x.Exp());
    FastPathAgrees(false, x.coef, x.Exp());
    FinishBigCorrect(!x.neg && x.coef != 0, x.coef, x.Exp());
    FinishBigCorrect(false, x.coef, x.Exp());
  }

  // --- addition and subtraction ---------------------------------------------------------------

  /** A coefficient moved `k` places up through the 39-entry power table, checked for overflow. */
  function TableMul(m: nat, k: nat): (r: DecResult<nat>)
  {
    if k > 38 then Err(Overflow) else CheckedMul(m, Pow10(k))
  }

  function Min(a: int, b: int): int
  {
    if a <= b then a else b
  }

  /** Sign and magnitude of a sum of two signed magnitudes. */
  function Combine(na: bool, x: nat, nb: bool, y: nat): (r: (bool, nat))
    ensures Signed(r.0, r.1) == Signed(na, x) + Signed(nb, y)
  {
    if na == nb then (na, x + y) else if x >= y then (na, x - y) else (nb, y - x)
  }

  /** A sum of two signed magnitudes at one exponent, over big integers. */
  function SumBig(na: bool, x: nat, nb: bool, y: nat, e: int): (res: DecResult<Money>)
  {
    if na != nb && x == y then FinishBig(false, 0, e)
    else
      var (neg, mag) := Combine(na, x, nb, y);
      FinishBig(neg, mag, e)
  }

  /** The same over `u128`, for magnitudes whose sum fits. */
  function SumU128(na: bool, x: nat, nb: bool, y: nat, e: int): (res: DecResult<Money>)
    requires x < U128 && y < U128 && (na == nb ==> x + y < U128)
  {
    var (neg, mag) := Combine(na, x, nb, y);
    FinishU128(neg && mag != 0, mag, e)
  }

  /** Addition of two decimals in parts, over big integers. */
  function PartsBig(na: bool, ma: nat, ea: int, nb: bool, mb: nat, eb: int): (res: DecResult<Money>)
  {
    var e := Min(ea, eb);
    SumBig(na, ma * Pow10(ea - e), nb, mb * Pow10(eb - e), e)
  }

  /** Addition in parts: the `u128` path where both operands and their sum fit, big integers otherwise. */
  function Parts(na: bool, ma: nat, ea: int, nb: bool, mb: nat, eb: int): (res: DecResult<Money>)
  {
    var e := Min(ea, eb);
    match (TableMul(ma, ea - e), TableMul(mb, eb - e))
    case (Ok(x), Ok(y)) =>
      if na == nb && x + y >= U128 then PartsBig(na, ma, ea, nb, mb, eb) else SumU128(na, x, nb, y, e)
    case _ => PartsBig(na, ma, ea, nb, mb, eb)
  }

  /** `add_big`. */
  function AddBig(a: Money, b: Money, negateB: bool): (res: DecResult<Money>)
  {
    PartsBig(a.neg, a.coef, a.Exp(), b.neg != (negateB && b.coef != 0), b.coef, b.Exp())
  }

  /** `add_signed`. */
  function AddSigned(a: Money, b: Money, negateB: bool): (res: DecResult<Money>)
  {
    Parts(a.neg, a.coef, a.Exp(), b.neg != (negateB && b.coef != 0), b.coef, b.Exp())
  }

  function Add(a: Money, b: Money): (res: DecResult<Money>)
  {
    AddSigned(a, b, false)
  }

  function Sub(a: Money, b: Money): (res: DecResult<Money>)
  {
    AddSigned(a, b, true)
  }

  /** A signed value read at a common, finer exponent. */
  lemma SignedAt(neg: bool, coef: nat, exp: int, e: int)
    requires e <= exp
    ensures (if neg then -V(coef, exp) else V(coef, exp)) == V(Signed(neg, coef * Pow10(exp - e)), e)
  {
    VRescale(coef, exp, e);
    VNeg(coef * Pow10(exp - e), e);
  }

  /** Finishing a signed magnitude finishes its exact value, on both paths. */
  lemma Finishes(neg: bool, mag: nat, e: int)
    ensures Rounded(V(Signed(neg, mag), e), FinishBig(neg, mag, e))
    ensures mag < U128 ==> Rounded(V(Signed(neg, mag), e), FinishU128(neg, mag, e))
  {
    VNeg(mag, e);
    FinishBigCorrect(neg, mag, e);
    if mag < U128 {
      FastPathAgrees(neg, mag, e);
    }
  }

  /** The exact signed sum, as one coefficient at the finer of the two exponents. */
  ghost function SumCoef(na: bool, ma: nat, ea: int, nb: bool, mb: nat, eb: int): int
  {
    var e := Min(ea, eb);
    Signed(na, ma * Pow10(ea - e)) + Signed(nb, mb * Pow10(eb - e))
  }

  /** The right operand of an addition, or its negation for a subtraction. */
  ghost function Operand(b: Money, negateB: bool): real
  {
    if negateB then -Val(b) else Val(b)
  }

  lemma ExactSum(a: Money, b: Money, negateB: bool)
    ensures var nb := b.neg != (negateB && b.coef != 0);
      Val(a) + Operand(b, negateB)
      == V(SumCoef(a.neg, a.coef, a.Exp(), nb, b.coef, b.Exp()), Min(a.Exp(), b.Exp()))
  {
    var nb := b.neg != (negateB && b.coef != 0);
    var e := Min(a.Exp(), b.Exp());
    var x, y := a.coef * Pow10(a.Exp() - e), b.coef * Pow10(b.Exp() - e);
    SignedAt(a.neg, a.coef, a.Exp(), e);
    SignedAt(nb, b.coef, b.Exp(), e);
    VAdd(Signed(a.neg, x), Signed(nb, y), e);
    ValSign(b);
  }

  lemma SumFinishes(na: bool, x: nat, nb: bool, y: nat, e: int)
    ensures Rounded(V(Signed(na, x) + Signed(nb, y), e), SumBig(na, x, nb, y, e))
    ensures x < U128 && y < U128 && (na == nb ==> x + y < U128) ==>
      Rounded(V(Signed(na, x) + Signed(nb, y), e), SumU128(na, x, nb, y, e))
  {
    var (neg, mag) := Combine(na, x, nb, y);
    if na != nb && x == y {
      Finishes(false, 0, e);
    } else {
      Finishes(neg, mag, e);
    }
    if mag < U128 {
      Finishes(neg && mag != 0, mag, e);
    }
  }

  lemma PartsBigFinishes(na: bool, ma: nat, ea: int, nb: bool, mb: nat, eb: int)
    ensures Rounded(V(SumCoef(na, ma, ea, nb, mb, eb), Min(ea, eb)), PartsBig(na, ma, ea, nb, mb, eb))
  {
    var e := Min(ea, eb);
    SumFinishes(na, ma * Pow10(ea - e), nb, mb * Pow10(eb - e), e);
  }

  lemma PartsFast(na: bool, ma: nat, ea: int, nb: bool, mb: nat, eb: int, x: nat, y: nat)
    requires x == ma * Pow10(ea - Min(ea, eb)) && y == mb * Pow10(eb - Min(ea, eb))
    requires x < U128 && y < U128 && (na == nb ==> x + y < U128)
    ensures Rounded(V(Signed(na, x) + Signed(nb, y), Min(ea, eb)), Parts(na, ma, ea, nb, mb, eb))
  {
    var e := Min(ea, eb);
    if ea - e > 38 || eb - e > 38 {
      PartsBigFinishes(na, ma, ea, nb, mb, eb);
    } else {
      SumFinishes(na, x, nb, y, e);
    }
  }

  lemma PartsFinishes(na: bool, ma: nat, ea: int, nb: bool, mb: nat, eb: int)
    ensures Rounded(V(SumCoef(na, ma, ea, nb, mb, eb), Min(ea, eb)), Parts(na, ma, ea, nb, mb, eb))
  {
    var e := Min(ea, eb);
    var x, y := ma * Pow10(ea - e), mb * Pow10(eb - e);
    if x < U128 && y < U128 && (na == nb ==> x + y < U128) {
      PartsFast(na, ma, ea, nb, mb, eb, x, y);
    } else {
      PartsBigFinishes(na, ma, ea, nb, mb, eb);
    }
  }

  /** Addition and subtraction are the exact sum rounded, on either path. */
  lemma AddCorrect(a: Money, b: Money, negateB: bool)
    ensures Rounded(Val(a) + Operand(b, negateB), AddSigned(a, b, negateB))
  {
    ExactSum(a, b, negateB);
    PartsFinishes(a.neg, a.coef, a.Exp(), b.neg != (negateB && b.coef != 0), b.coef, b.Exp());
  }

  /** The `u128` and big-integer additions always agree. */
  lemma AddPathsAgree(a: Money, b: Money, negateB: bool)
    ensures AddSigned(a, b, negateB) == AddBig(a, b, negateB)
  {
    var nb := b.neg != (negateB && b.coef != 0);
    PartsFinishes(a.neg, a.coef, a.Exp(), nb, b.coef, b.Exp());
    PartsBigFinishes(a.neg, a.coef, a.Exp(), nb, b.coef, b.Exp());
    RoundedUnique(V(SumCoef(a.neg, a.coef, a.Exp(), nb, b.coef, b.Exp()), Min(a.Exp(), b.Exp())),
                  AddSigned(a, b, negateB), AddBig(a, b, negateB));
  }

  // --- multiplication ---------------------------------------------------------------------------

  /** A product finished over `u128` when it was found to fit, over big integers otherwise. */
  function FinishChecked(neg: bool, p: nat, e: int, checked: DecResult<nat>): (res: DecResult<Money>)
    requires checked.Ok? ==> checked.value < U128
  {
    match checked
    case Ok(q) => FinishU128(neg, q, e)
    case Err(_) => FinishBig(neg, p, e)
  }

  function Mul(a: Money, b: Money): (res: DecResult<Money>)
  {
    FinishChecked(a.neg != b.neg, a.coef * b.coef, a.Exp() + b.Exp(), CheckedMul(a.coef, b.coef))
  }

  lemma CheckedFinishes(neg: bool, p: nat, e: int, checked: DecResult<nat>)
    requires checked.Ok? ==> checked.value == p && p < U128
    ensures Rounded(V(Signed(neg, p), e), FinishChecked(neg, p, e, checked))
  {
    Finishes(neg, p, e);
  }

  lemma SignedProduct(x: real, y: real)
    ensures Times(-x, y) == -Times(x, y) && Times(x, -y) == -Times(x, y) && Times(-x, -y) == Times(x, y)
  {
  }

  lemma ExactProduct(a: Money, b: Money)
    ensures Times(Val(a), Val(b)) == V(Signed(a.neg != b.neg, a.coef * b.coef), a.Exp() + b.Exp())
  {
    VMul(a.coef, a.Exp(), b.coef, b.Exp());
    VNeg(a.coef * b.coef, a.Exp() + b.Exp());
    SignedProduct(Mag(a), Mag(b));
  }

  lemma MulFinishes(a: Money, b: Money)
    ensures Rounded(V(Signed(a.neg != b.neg, a.coef * b.coef), a.Exp() + b.Exp()), Mul(a, b))
  {
    CheckedFinishes(a.neg != b.neg, a.coef * b.coef, a.Exp() + b.Exp(), CheckedMul(a.coef, b.coef));
  }

  /** The product is the exact product rounded, on either path. */
  lemma MulCorrect(a: Money, b: Money)
    ensures Rounded(Times(Val(a), Val(b)), Mul(a, b))
  {
    ExactProduct(a, b);
    MulFinishes(a, b);
  }

  // --- division ------------------------------------------------------------------------------------

  /** The quotient of the shifted coefficient, and whether digits were cut. */
  function Quotient(ma: nat, mb: nat, shift: int): (r: (nat, bool))
    requires mb > 0
  {
    if shift >= 0 then
      match TableMul(ma, shift)
      case Ok(num) => (Quot(num, mb), Rem(num, mb) != 0)
      case Err(_) =>
        var num := ma * Pow10(shift);
        var q := Quot(num, mb);
        (q, num - q * mb != 0)
    else
      Positive(mb, Pow10(-shift));
      var den := mb * Pow10(-shift);
      var q := Quot(ma, den);
      (q, ma - q * den != 0)
  }

  /** The sticky digit: where digits were cut, a last digit 0 or 5 is bumped so that it is not a tie. */
  function Sticky(coef: nat, inexact: bool): nat
  {
    if inexact && coef % 5 == 0 then coef + 1 else coef
  }

  function Shift(a: Money, b: Money): int
  {
    Digits(b.coef) - Digits(a.coef) + PREC + 1
  }

  function Div(a: Money, b: Money): (res: DecResult<Money>)
  {
    if b.coef == 0 then Err(if a.coef == 0 then InvalidOperation else DivisionByZero)
    else if a.coef == 0 then Ok(ZERO)
    else
      var (coef, inexact) := Quotient(a.coef, b.coef, Shift(a, b));
      FinishBig(a.neg != b.neg, Sticky(coef, inexact), a.Exp() - b.Exp() - Shift(a, b))
  }

  /** The shift is always positive, so the quotient always has more digits than the 28 it keeps. */
  lemma ShiftPositive(a: Money, b: Money)
    ensures Shift(a, b) >= 1
  {
    Pow10Values();
    DigitsAtMost(a.coef, 29);
  }

  /** Both quotient branches compute floor and remainder of the shifted coefficient. */
  lemma QuotientIs(ma: nat, mb: nat, shift: nat)
    requires mb > 0
    ensures var num := ma * Pow10(shift); Quotient(ma, mb, shift) == (Quot(num, mb), Rem(num, mb) != 0)
  {
    var num := ma * Pow10(shift);
    QuotRemSum(num, mb);
  }

  /** Against every multiple of five, the sticky coefficient compares as the true quotient does. */
  lemma StickyCompares(n: nat, d: nat, h: int)
    requires d > 0 && h % 5 == 0
    ensures var c := Sticky(Quot(n, d), Rem(n, d) != 0);
      (h * d <= n <==> h <= c) && (h * d < n <==> h < c) && (h * d == n <==> h == c)
  {
    QuotRemSum(n, d);
    StickyAgainst(n, d, Quot(n, d), Rem(n, d), h);
  }

  lemma StickyAgainst(n: nat, d: nat, q: nat, r: nat, h: int)
    requires r < d && n == q * d + r && h % 5 == 0
    ensures var c := Sticky(q, r != 0);
      (h * d <= n <==> h <= c) && (h * d < n <==> h < c) && (h * d == n <==> h == c)
  {
    if h < q {
      Above(h, q, d);
    } else if h > q {
      Above(q, h, d);
    }
  }

  lemma Above(a: int, b: int, d: nat)
    requires a < b
    ensures a * d + d <= b * d
  {
    Stretch(d, a + 1, b);
    assert (a + 1) * d == a * d + d;
  }

  /** `t` is the exact quotient of the two magnitudes. */
  ghost predicate ExactRatio(t: real, ma: nat, ea: int, mb: nat, eb: int)
  {
    Times(t, V(mb, eb)) == V(ma, ea)
  }

  lemma DoubleTimes(t: real, y: real)
    ensures Times(2.0 * t, y) == 2.0 * Times(t, y)
  {
  }

  /** At any unit coarser than the quotient's, the true quotient and its sticky coefficient look alike. */
  lemma QuotientCompares(t: real, ma: nat, ea: int, mb: nat, eb: int, shift: nat, k: int, f: int)
    requires mb > 0 && ExactRatio(t, ma, ea, mb, eb)
    requires f > ea - eb - shift
    ensures var (q, inexact) := Quotient(ma, mb, shift);
      var w := V(Sticky(q, inexact), ea - eb - shift);
      (V(k, f) <= 2.0 * t <==> V(k, f) <= 2.0 * w) && (V(k, f) < 2.0 * t <==> V(k, f) < 2.0 * w)
      && (V(k, f) == 2.0 * t <==> V(k, f) == 2.0 * w)
  {
    var x := ea - eb - shift;
    var n := ma * Pow10(shift);
    QuotientIs(ma, mb, shift);
    var c := Sticky(Quot(n, mb), Rem(n, mb) != 0);
    var p := Pow10(f - x - 1);
    var h := 5 * (k * p);
    assert Pow10(f - x) == 10 * p;
    TwiceHalf(k, p);
    // the true quotient, cross-multiplied
    VSign(mb, eb);
    TimesLe(V(k, f), 2.0 * t, V(mb, eb));
    VMul(k, f, mb, eb);
    DoubleTimes(t, V(mb, eb));
    VRescale(ma, ea, x + eb);
    VDouble(n, x + eb);
    VCompare(k * mb, f + eb, 2 * n, x + eb);
    CrossTerms(k, p, mb, h);
    // the sticky coefficient
    VDouble(c, x);
    VCompare(k, f, 2 * c, x);
    StickyCompares(n, mb, h);
  }

  lemma TwiceHalf(k: int, p: nat)
    ensures k * (10 * p) == 2 * (5 * (k * p))
  {
  }

  lemma CrossTerms(k: int, p: nat, d: nat, h: int)
    requires h == 5 * (k * p)
    ensures (k * d) * (10 * p) == 2 * (h * d)
  {
    assert (k * d) * (10 * p) == 10 * ((k * d) * p);
    assert (k * d) * p == (k * p) * d;
    assert h * d == 5 * ((k * p) * d);
  }

  /** The quotient carries at least 29 digits, one more than is kept. */
  lemma QuotientWide(ma: nat, mb: nat, shift: nat, n: nat)
    requires ma > 0 && mb > 0 && shift == Digits(mb) - Digits(ma) + PREC + 1 && n == ma * Pow10(shift)
    ensures Quot(n, mb) >= TEN28
  {
    QuotientAtLeast(ma, mb, shift, PREC, n);
    Tens();
  }

  lemma QuotientAtLeast(ma: nat, mb: nat, shift: nat, k: nat, n: nat)
    requires ma > 0 && mb > 0 && shift == Digits(mb) - Digits(ma) + k + 1 && n == ma * Pow10(shift)
    ensures Quot(n, mb) >= Pow10(k)
  {
    var i, j := Digits(ma) - 1, Digits(mb);
    assert Pow10(i) <= ma && mb <= Pow10(j) by {
      DigitsBound(ma);
      DigitsBound(mb);
    }
    WideQuotient(i, j, shift, k, ma, mb, n);
  }

  lemma WideQuotient(i: nat, j: nat, shift: nat, k: nat, ma: nat, mb: nat, n: nat)
    requires i + shift == j + k && Pow10(i) <= ma && 0 < mb <= Pow10(j) && n == ma * Pow10(shift)
    ensures Quot(n, mb) >= Pow10(k)
  {
    WideProduct(i, j, shift, k, ma, mb);
    AtLeast(n, mb, Pow10(k));
  }

  lemma Pow10Sum(a: nat, b: nat, n: nat)
    requires n == a + b
    ensures Pow10(a) * Pow10(b) == Pow10(n)
  {
    Pow10Add(a, b);
  }

  lemma WideProduct(i: nat, j: nat, shift: nat, k: nat, ma: nat, mb: nat)
    requires i + shift == j + k && Pow10(i) <= ma && mb <= Pow10(j)
    ensures Pow10(k) * mb <= ma * Pow10(shift)
  {
    var n := i + shift;
    Pow10Sum(i, shift, n);
    Pow10Sum(j, k, n);
    CrossBound(Pow10(i), ma, mb, Pow10(j), Pow10(shift), Pow10(k), Pow10(n));
  }

  lemma CrossBound(a: nat, ma: nat, mb: nat, b: nat, p: nat, t: nat, x: nat)
    requires a <= ma && mb <= b && a * p == x && b * t == x
    ensures t * mb <= ma * p
  {
    Stretch(p, a, ma);
    Stretch(t, mb, b);
  }

  lemma AtLeast(n: nat, d: nat, k: nat)
    requires d > 0 && k * d <= n
    ensures Quot(n, d) >= k
  {
    var q := Quot(n, d);
    QuotRemSum(n, d);
    if q < k {
      Stretch(d, q + 1, k);
    }
  }

  /** Two magnitudes that compare alike against every multiple of `10^e` round alike there. */
  lemma RoundAlike(t: real, w: real, e: int, r: int)
    requires forall k: int :: (V(k, e) <= 2.0 * t <==> V(k, e) <= 2.0 * w) && (V(k, e) == 2.0 * t <==> V(k, e) == 2.0 * w)
    requires InDecade(w, e) && Nearest(w, e, r)
    ensures InDecade(t, e) && Nearest(t, e, r)
  {
    VDouble(TEN27, e);
    VDouble(TEN28, e);
    assert V(2 * TEN27, e) <= 2.0 * w;
    assert !(V(2 * TEN28, e) <= 2.0 * w);
    assert V(2 * r - 1, e) <= 2.0 * w;
    assert V(2 * r + 1, e) <= 2.0 * w ==> V(2 * r + 1, e) == 2.0 * w;
    assert V(2 * r - 1, e) == 2.0 * t ==> V(2 * r - 1, e) == 2.0 * w;
    assert V(2 * r + 1, e) == 2.0 * t ==> V(2 * r + 1, e) == 2.0 * w;
  }

  /** The sticky coefficient of `a / b` and its exponent. */
  function DivCoef(a: Money, b: Money): nat
    requires b.coef > 0
  {
    var (q, inexact) := Quotient(a.coef, b.coef, Shift(a, b));
    Sticky(q, inexact)
  }

  function DivExp(a: Money, b: Money): int
  {
    a.Exp() - b.Exp() - Shift(a, b)
  }

  lemma DivFinishes(a: Money, b: Money)
    requires a.coef > 0 && b.coef > 0
    ensures Rounded(V(Signed(a.neg != b.neg, DivCoef(a, b)), DivExp(a, b)), Div(a, b))
  {
    Finishes(a.neg != b.neg, DivCoef(a, b), DivExp(a, b));
  }

  lemma DivCoefWide(a: Money, b: Money)
    requires a.coef > 0 && b.coef > 0
    ensures DivCoef(a, b) >= TEN28
  {
    ShiftPositive(a, b);
    QuotientIs(a.coef, b.coef, Shift(a, b));
    QuotientWide(a.coef, b.coef, Shift(a, b), a.coef * Pow10(Shift(a, b)));
  }

  /** Whatever the sticky coefficient finishes to, the true quotient finishes to. */
  lemma DivTransfer(a: Money, b: Money, t: real, res: DecResult<Money>)
    requires a.coef > 0 && b.coef > 0
    requires ExactRatio(t, a.coef, a.Exp(), b.coef, b.Exp()) && t > 0.0
    requires Rounded(V(Signed(a.neg != b.neg, DivCoef(a, b)), DivExp(a, b)), res)
    ensures Rounded(if a.neg != b.neg then -t else t, res)
  {
    var neg, c, x := a.neg != b.neg, DivCoef(a, b), DivExp(a, b);
    DivCoefWide(a, b);
    VSign(c, x);
    VNeg(c, x);
    var w := V(c, x);
    var e, r1: nat, r2: nat :| RoundedVia(if neg then -w else w, e, r1, r2, res);
    Coarser(c, x, e);
    ShiftPositive(a, b);
    forall k: int
      ensures (V(k, e) <= 2.0 * t <==> V(k, e) <= 2.0 * w) && (V(k, e) == 2.0 * t <==> V(k, e) == 2.0 * w)
    {
      QuotientCompares(t, a.coef, a.Exp(), b.coef, b.Exp(), Shift(a, b), k, e);
    }
    RoundAlike(t, w, e, r1);
    assert RoundedVia(if neg then -t else t, e, r1, r2, res);
  }

  lemma Coarser(c: nat, x: int, e: int)
    requires c >= TEN28 && InDecade(V(c, x), e)
    ensures e > x
  {
    if e <= x {
      VCompare(TEN28, x, TEN28, e);
      VRescale(TEN28, x, e);
      Positive(TEN28, Pow10(x - e));
      VOrder(TEN28, TEN28 * Pow10(x - e), e);
      VOrder(TEN28, c, x);
    }
  }

  lemma SignedRatio(x: real, y: real)
    requires y > 0.0
    ensures Times(x / y, y) == x
    ensures (-x) / y == -(x / y) && x / (-y) == -(x / y) && (-x) / (-y) == x / y
    ensures x > 0.0 ==> x / y > 0.0
  {
    Negated(x, y);
    Negated(-x, y);
    TimesLe(0.0, x / y, y);
  }

  lemma Negated(x: real, y: real)
    requires y > 0.0
    ensures (-x) / y == -(x / y) && x / (-y) == -(x / y)
  {
    var q := x / y;
    assert q * y == x;
    SameQuotient((-x) / y, -q, y, -x);
    SameQuotient(-(x / (-y)), q, y, x);
  }

  lemma SameQuotient(p: real, q: real, y: real, x: real)
    requires y > 0.0 && p * y == x && q * y == x
    ensures p == q
  {
    assert (p - q) * y == 0.0;
  }

  /** Division is the exact quotient rounded; only division by zero is refused otherwise. */
  lemma DivCorrect(a: Money, b: Money)
    ensures b == ZERO ==> Div(a, b) == Err(if a == ZERO then InvalidOperation else DivisionByZero)
    ensures b != ZERO ==> Val(b) != 0.0 && Rounded(Val(a) / Val(b), Div(a, b))
  {
    ValSign(a);
    ValSign(b);
    if b != ZERO {
      SignedRatio(Mag(a), Mag(b));
      if a != ZERO {
        DivFinishes(a, b);
        DivTransfer(a, b, Mag(a) / Mag(b), Div(a, b));
      }
    }
  }
}
