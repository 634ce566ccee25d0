/**
 * `Money`: a decimal held in its one canonical form, `±coef / 10^scale` with `coef < 2^96` and
 * `scale <= 28`, no trailing zeros after the point and no negative zero. Building one from an exact
 * coefficient and exponent never rounds: the value fits, or it is refused.
 */
module MoneyValue {
  import opened PowersOfTen
  import opened Rounding

  /** Significant digits an arithmetic result keeps. */
  const PREC: nat := 28
  const MAX_SCALE: nat := 28
  /** A mantissa must be below `2^96`. */
  const MANTISSA_LIMIT: nat := 0x1_0000_0000_0000_0000_0000_0000

  datatype DecErr = InvalidOperation | DivisionByZero | Overflow

  datatype DecResult<+T> = Ok(value: T) | Err(error: DecErr)

  datatype Decimal = Decimal(neg: bool, coef: nat, scale: nat) {
    predicate Canonical()
    {
      && coef < MANTISSA_LIMIT
      && scale <= MAX_SCALE
      && (scale > 0 ==> coef % 10 != 0)
      && (coef == 0 ==> !neg)
    }

    /** The canonical exponent: never positive once canonical. */
    function Exp(): int
    {
      0 - scale
    }
  }

  type Money = d: Decimal | d.Canonical() witness Decimal(false, 0, 0)

  const ZERO: Money := Decimal(false, 0, 0)

  ghost function Mag(x: Money): real
  {
    V(x.coef, x.Exp())
  }

  /** The number a `Money` stands for. */
  ghost function Val(x: Money): real
  {
    if x.neg then -Mag(x) else Mag(x)
  }

  lemma ValSign(x: Money)
    ensures Mag(x) >= 0.0
    ensures Val(x) == 0.0 <==> x == ZERO
    ensures Val(x) < 0.0 <==> x.neg
    ensures x.coef == 0 <==> Mag(x) == 0.0
  {
    VSign(x.coef, x.Exp());
    assert x.coef == 0 ==> x.scale == 0;
  }

  /** Equal values have equal representations. */
  lemma CanonicalUnique(a: Money, b: Money)
    requires Val(a) == Val(b)
    ensures a == b
  {
    ValSign(a);
    ValSign(b);
    if a.scale <= b.scale {
      MagUnique(a, b);
    } else {
      MagUnique(b, a);
    }
  }

  lemma MagUnique(a: Money, b: Money)
    requires a.scale <= b.scale && Mag(a) == Mag(b)
    ensures a.coef == b.coef && a.scale == b.scale
  {
    VCompare(a.coef, a.Exp(), b.coef, b.Exp());
    if a.scale < b.scale {
      NotMultiple(b.coef, a.coef, Pow10(b.scale - a.scale - 1));
    }
  }

  // --- the bound -------------------------------------------------------------------------

  ghost predicate HeldAs(w: real, m: nat, s: nat)
  {
    m < MANTISSA_LIMIT && s <= MAX_SCALE && w == V(m, 0 - s)
  }

  /** `w` is some `m / 10^s` inside the limits of the representation. */
  ghost predicate Fits(w: real)
  {
    exists m: nat, s: nat :: HeldAs(w, m, s)
  }

  /** The exact outcome for a non-zero magnitude `w`: that very value when it fits, else a refusal. */
  ghost predicate HeldOrRefused(neg: bool, w: real, res: DecResult<Money>)
  {
    if Fits(w) then res.Ok? && Mag(res.value) == w && res.value.neg == neg else res == Err(Overflow)
  }

  lemma HeldOrRefusedUnique(neg: bool, w: real, a: DecResult<Money>, b: DecResult<Money>)
    requires HeldOrRefused(neg, w, a) && HeldOrRefused(neg, w, b)
    ensures a == b
  {
    if Fits(w) {
      CanonicalUnique(a.value, b.value);
    }
  }

  // --- building ----------------------------------------------------------------------------

  function StripZeros(coef: nat, exp: int): (r: (nat, int))
    requires coef > 0
    ensures 0 < r.0 <= coef && r.0 % 10 != 0 && exp <= r.1
  {
    if coef % 10 == 0 then StripZeros(coef / 10, exp + 1) else (coef, exp)
  }

  lemma {:induction false} StripZerosValue(coef: nat, exp: int)
    requires coef > 0
    ensures V(StripZeros(coef, exp).0, StripZeros(coef, exp).1) == V(coef, exp)
  {
    if coef % 10 == 0 {
      StripZerosValue(coef / 10, exp + 1);
      VTen(coef / 10, exp);
      assert coef == 10 * (coef / 10);
    }
  }

  function CheckedMul(a: nat, b: nat): (r: DecResult<nat>)
  {
    if a * b < U128 then Ok(a * b) else Err(Overflow)
  }

  lemma Positive(a: nat, b: nat)
    requires a > 0 && b > 0
    ensures a * b >= a && a * b >= b
  {
    assert a * b - a == a * (b - 1);
    assert a * b - b == (a - 1) * b;
  }

  /** A coefficient without trailing zeros, placed inside the bound or refused. */
  function Place(neg: bool, coef: nat, exp: int): (r: DecResult<Money>)
    requires coef > 0 && coef % 10 != 0
  {
    if exp > 38 then Err(Overflow)
    else if exp > 0 then
      match CheckedMul(coef, Pow10(exp))
      case Err(e) => Err(e)
      case Ok(c) => Positive(coef, Pow10(exp)); if c >= MANTISSA_LIMIT then Err(Overflow) else Ok(Decimal(neg, c, 0))
    else if -exp > MAX_SCALE || coef >= MANTISSA_LIMIT then Err(Overflow)
    else Ok(Decimal(neg, coef, -exp))
  }

  /** `Money::build` as a function: strip the trailing zeros, then place. */
  function Build(neg: bool, coef: nat, exp: int): (r: DecResult<Money>)
  {
    if coef == 0 then Ok(ZERO) else
    var (c, e) := StripZeros(coef, exp);
    Place(neg, c, e)
  }

  /** A value whose last digit is not zero fits exactly when `Place` finds room for it. */
  lemma PlaceCorrect(neg: bool, coef: nat, exp: int)
    requires coef > 0 && coef % 10 != 0
    ensures HeldOrRefused(neg, V(coef, exp), Place(neg, coef, exp))
  {
    var w, res := V(coef, exp), Place(neg, coef, exp);
    if res.Ok? {
      if exp > 0 {
        VRescale(coef, exp, 0);
        Positive(coef, Pow10(exp));
      }
      assert HeldAs(w, res.value.coef, res.value.scale);
    }
    if Fits(w) {
      var m: nat, s: nat :| HeldAs(w, m, s);
      FitsPlaced(coef, exp, m, s);
    }
  }

  lemma FitsPlaced(coef: nat, exp: int, m: nat, s: nat)
    requires coef > 0 && coef % 10 != 0
    requires HeldAs(V(coef, exp), m, s)
    ensures exp > 0 ==> exp <= 38 && coef * Pow10(exp) < MANTISSA_LIMIT
    ensures exp <= 0 ==> -exp <= MAX_SCALE && coef < MANTISSA_LIMIT
  {
    if 0 - s > exp {
      VCompare(m, 0 - s, coef, exp);
      var n := Pow10(0 - s - exp - 1);
      assert Pow10(0 - s - exp) == 10 * n;
      NotMultiple(coef, m, n);
    } else if exp > 0 {
      VCompare(coef, exp, m, 0 - s);
      Widen(coef, exp, s);
      assert coef * Pow10(exp) <= m;
      if exp > 38 { TooWide(coef, exp); }
    } else {
      VCompare(coef, exp, m, 0 - s);
      Positive(coef, Pow10(exp + s));
    }
  }

  lemma NotMultiple(coef: nat, m: nat, n: nat)
    requires coef % 10 != 0
    ensures coef != m * (10 * n)
  {
    assert m * (10 * n) == 10 * (m * n);
  }

  lemma TooWide(coef: nat, exp: nat)
    requires coef > 0 && exp > 38
    ensures coef * Pow10(exp) >= MANTISSA_LIMIT
  {
    Pow10Values();
    Pow10Mono(39, exp);
    Positive(coef, Pow10(exp));
  }

  lemma Widen(coef: nat, a: nat, b: nat)
    ensures coef * Pow10(a) <= coef * Pow10(a + b)
  {
    Pow10Mono(a, a + b);
    Stretch(coef, Pow10(a), Pow10(a + b));
  }

  /** Building never rounds: the exact value is held when it fits, and refused otherwise. */
  lemma BuildCorrect(neg: bool, coef: nat, exp: int)
    requires coef > 0
    ensures HeldOrRefused(neg, V(coef, exp), Build(neg, coef, exp))
  {
    var (c, e) := StripZeros(coef, exp);
    StripZerosValue(coef, exp);
    PlaceCorrect(neg, c, e);
  }

  /** `Money::build`: the loop that strips trailing zeros, then the bound. */
  method BuildLoop(neg: bool, coef: nat, exp: int) returns (r: DecResult<Money>)
    requires coef < U128
    ensures r == Build(neg, coef, exp)
    ensures coef > 0 ==> HeldOrRefused(neg, V(coef, exp), r)
  {
    if coef == 0 {
      return Ok(ZERO);
    }
    BuildCorrect(neg, coef, exp);
    var c, e := coef, exp;
    while c % 10 == 0
      invariant 0 < c < U128
      invariant StripZeros(c, e) == StripZeros(coef, exp)
      decreases c
    {
      c, e := c / 10, e + 1;
    }
    if e > 0 {
      if e > 38 {
        return Err(Overflow);
      }
      if c * Pow10(e) >= U128 {
        return Err(Overflow);
      }
      Positive(c, Pow10(e));
      c, e := c * Pow10(e), 0;
    }
    if -e > MAX_SCALE || c >= MANTISSA_LIMIT {
      return Err(Overflow);
    }
    r := Ok(Decimal(neg, c, -e));
  }
}
