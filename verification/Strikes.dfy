/** Which strikes an option contract may have, and the thousandths its symbol carries. */
module Strikes {
  import opened PowersOfTen
  import opened Rounding
  import opened DigitText
  import opened StrikeDigits
  import opened Results

  const PREC: int := 28
  const EMAX: int := 999_999
  const ETINY: int := -1_000_026
  const ETOP: int := 999_972
  const MAX_MILLIS: nat := 99_999_999

  /** A decimal as it arrives: coefficient digits, exponent, sign, and whether it is a number at all. */
  datatype Strike = Strike(neg: bool, digits: string, exp: int, finite: bool)

  function Coefficient(s: Strike): (c: string)
    requires AllDigits(s.digits)
    ensures Normal(c)
  {
    var t := TrimLeading(s.digits);
    if t == [] then "0" else t
  }

  /** No leading zeros, but for zero itself. */
  predicate Normal(c: string)
  {
    AllDigits(c) && c != [] && (c[0] != '0' || c == "0")
  }

  function Max(a: int, b: int): int
  {
    if a < b then b else a
  }

  /** The exponent the product is rounded at: 28 digits up, or the smallest there is, or its own. */
  function Place(len: nat, exp: int): int
  {
    Max(Max(len + exp - PREC, ETINY), exp)
  }

  /** The rounded product, a digit shorter when the carry made it one longer. */
  function Fold(r: string, e: int): (string, int)
  {
    if |r| > PREC then (r[..|r| - 1], e + 1) else (r, e)
  }

  /** The product under the context, before the check on its size. */
  function RoundedProduct(s: Strike): (string, int)
    requires AllDigits(s.digits)
  {
    var digits := Coefficient(s) + "000";
    var at := Place(|digits|, s.exp);
    if s.exp < at then Fold(RoundDigits(digits, at - s.exp), at) else (digits, s.exp)
  }

  /** `times_1000`. */
  function Times1000(s: Strike): (r: Result<(string, int)>)
    requires AllDigits(s.digits)
  {
    if Coefficient(s) == "0" then Ok(("0", s.exp))
    else if |Coefficient(s)| + 3 + s.exp - PREC > ETOP then Err
    else
      var (p, e) := RoundedProduct(s);
      if p != "0" && |p| + e - 1 > EMAX then Err else Ok((p, e))
  }

  /** `integral_value`. */
  function IntegralValue(digits: string, exp: int): (w: string)
    requires AllDigits(digits)
    ensures AllDigits(w)
  {
    if exp >= 0 then
      if digits == "0" then "0" else digits + Repeat('0', if exp < 40 then exp else 40)
    else RoundDigits(digits, if -exp < 4_294_967_295 then -exp else 4_294_967_295)
  }

  /** `is_integral`. */
  predicate IsIntegral(digits: string, exp: int)
  {
    || exp >= 0 || digits == "0"
    || (-exp <= |digits| && AllZeros(digits[|digits| + exp..]))
  }

  /** `strike_millis`. */
  function StrikeMillis(s: Strike): (r: Result<nat>)
    requires AllDigits(s.digits)
  {
    var product := Times1000(s);
    if product.Err? then Err
    else
      var whole := IntegralValue(product.value.0, product.value.1);
      if |whole| > 18 || NumVal(whole) == 0 || NumVal(whole) > MAX_MILLIS then Err else Ok(NumVal(whole))
  }

  /** `validate_strike`. */
  function ValidateStrike(s: Strike): (r: Result<()>)
    requires AllDigits(s.digits)
  {
    if !s.finite || s.neg || Coefficient(s) == "0" then Err
    else
      var product := Times1000(s);
      if product.Err? || !IsIntegral(product.value.0, product.value.1) then Err
      else if StrikeMillis(s).Err? then Err else Ok(())
  }

  // --- whole products ------------------------------------------------------------------------

  lemma NormalRounds(digits: string, drop: nat)
    requires Normal(digits)
    ensures Normal(RoundDigits(digits, drop))
  {
    if 0 < drop <= |digits| {
      IncrementShape(digits[..|digits| - drop]);
    }
  }

  lemma NormalZero(c: string)
    requires Normal(c)
    ensures NumVal(c) == 0 <==> c == "0"
  {
    ZeroIff(c);
    assert "0"[..0] == [];
  }

  lemma LongIsLarge(c: string)
    requires Normal(c) && |c| > 18
    ensures NumVal(c) > MAX_MILLIS
  {
    NumValBound(c);
    Pow10Values();
    Pow10Mono(8, |c| - 1);
  }

  lemma AtLeast(d: int, p: nat)
    requires d >= 1
    ensures d * p >= p
  {
    assert d * p == (d - 1) * p + p;
  }

  lemma Difference(w: int, k: int, p: int)
    ensures (w - k) * p == w * p - k * p
  {
  }

  lemma SameMultiple(w: nat, k: nat, r: nat, p: nat)
    requires r < p && w * p == k * p + r
    ensures w == k && r == 0
  {
    if w > k {
      Difference(w, k, p);
      AtLeast(w - k, p);
    } else if w < k {
      Difference(k, w, p);
      AtLeast(k - w, p);
    }
  }

  /** The low digits are all zeros just for the multiples of their power. */
  lemma ZerosIffMultiple(kept: string, rest: string, n: nat, p: nat)
    requires AllDigits(kept) && AllDigits(rest) && AllDigits(kept + rest) && n == NumVal(kept + rest) && p == Pow10(|rest|)
    ensures AllZeros(rest) ==> n == NumVal(kept) * p
    ensures forall w: nat :: n == w * p ==> AllZeros(rest)
  {
    NumValSplit(kept, rest);
    NumValBound(rest);
    ZeroIff(rest);
    forall w: nat | n == w * p
      ensures AllZeros(rest)
    {
      SameMultiple(w, NumVal(kept), NumVal(rest), p);
    }
  }

  /** With the exponent negative, being integral is being a multiple of the power dropped. */
  lemma IntegralParts(digits: string, drop: nat)
    requires Normal(digits) && drop > 0
    ensures IsIntegral(digits, 0 - drop) ==> NumVal(digits) == NumVal(RoundDigits(digits, drop)) * Pow10(drop)
    ensures forall w: nat :: NumVal(digits) == w * Pow10(drop) ==> IsIntegral(digits, 0 - drop)
  {
    assert "0"[..0] == [];
    NormalZero(digits);
    NumValBound(digits);
    if drop <= |digits| {
      var kept, rest := digits[..|digits| - drop], digits[|digits| - drop..];
      assert digits == kept + rest;
      ZerosIffMultiple(kept, rest, NumVal(digits), Pow10(drop));
    } else {
      Pow10Mono(|digits|, drop);
      forall w: nat | NumVal(digits) == w * Pow10(drop)
        ensures NumVal(digits) == 0
      {
        SameMultiple(w, 0, NumVal(digits), Pow10(drop));
      }
    }
  }

  /** The value `n` at exponent `e` is the whole number `w`. */
  ghost predicate IsWhole(n: nat, e: int, w: nat)
  {
    V(n, e) == V(w, 0)
  }

  /** A normal product passes the integrality check exactly when its value is a whole number. */
  lemma IntegralIff(digits: string, exp: int, w: nat)
    requires Normal(digits) && |digits| <= PREC && IsWhole(NumVal(digits), exp, w)
    ensures IsIntegral(digits, exp)
    ensures exp <= 40 ==> NumVal(IntegralValue(digits, exp)) == w
  {
    if exp < 0 {
      IntegralNegative(digits, 0 - exp, w);
    } else if exp <= 40 {
      WholeAppends(digits, exp);
      VOrder(NumVal(IntegralValue(digits, exp)), w, 0);
    }
  }

  lemma IntegralNegative(digits: string, drop: nat, w: nat)
    requires Normal(digits) && |digits| <= PREC && drop > 0 && IsWhole(NumVal(digits), 0 - drop, w)
    ensures IsIntegral(digits, 0 - drop) && NumVal(IntegralValue(digits, 0 - drop)) == w
  {
    VRescale(w, 0, 0 - drop);
    VOrder(NumVal(digits), w * Pow10(drop), 0 - drop);
    IntegralParts(digits, drop);
    RoundsToParts(digits, drop, w);
    CapHarmless(digits, drop);
  }

  lemma RoundsToParts(digits: string, drop: nat, w: nat)
    requires Normal(digits) && NumVal(digits) == w * Pow10(drop)
    requires NumVal(digits) == NumVal(RoundDigits(digits, drop)) * Pow10(drop)
    ensures NumVal(RoundDigits(digits, drop)) == w
  {
    SameMultiple(w, NumVal(RoundDigits(digits, drop)), 0, Pow10(drop));
  }

  /** The cap on the drop count changes nothing: past it, every digit is gone either way. */
  lemma CapHarmless(digits: string, drop: nat)
    requires Normal(digits) && |digits| <= PREC && drop > 0
    ensures NumVal(IntegralValue(digits, 0 - drop)) == NumVal(RoundDigits(digits, drop))
  {
  }

  lemma WholeAppends(digits: string, exp: nat)
    requires Normal(digits) && exp <= 40
    ensures V(NumVal(digits), exp) == V(NumVal(IntegralValue(digits, exp)), 0)
  {
    VRescale(NumVal(digits), exp, 0);
    ZerosVal(exp);
    NumValSplit(digits, Repeat('0', exp));
    if digits == "0" {
      assert "0"[..0] == [];
    }
  }

  /** The other way round: what passes the check is whole, and this is the whole number. */
  lemma IntegralIsWhole(digits: string, exp: int)
    requires Normal(digits) && |digits| <= PREC && IsIntegral(digits, exp) && exp <= 40
    ensures IsWhole(NumVal(digits), exp, NumVal(IntegralValue(digits, exp)))
  {
    if exp >= 0 {
      WholeAppends(digits, exp);
    } else {
      NegativeIsWhole(digits, 0 - exp);
    }
  }

  lemma NegativeIsWhole(digits: string, drop: nat)
    requires Normal(digits) && |digits| <= PREC && drop > 0 && IsIntegral(digits, 0 - drop)
    ensures IsWhole(NumVal(digits), 0 - drop, NumVal(IntegralValue(digits, 0 - drop)))
  {
    IntegralParts(digits, drop);
    CapHarmless(digits, drop);
    MultipleIsWhole(NumVal(digits), NumVal(RoundDigits(digits, drop)), drop);
  }

  lemma MultipleIsWhole(n: nat, w: nat, drop: nat)
    requires n == w * Pow10(drop)
    ensures IsWhole(n, 0 - drop, w)
  {
    VRescale(w, 0, 0 - drop);
  }

  lemma NormalRoundsLength(digits: string, drop: nat)
    requires Normal(digits) && digits != "0" && 0 < drop
    ensures |RoundDigits(digits, drop)| <= (if drop < |digits| then |digits| - drop else 0) + 1
    ensures |RoundDigits(digits, drop)| > 1 && |RoundDigits(digits, drop)| > |digits| - drop ==>
      RoundDigits(digits, drop)[|RoundDigits(digits, drop)| - 1] == '0'
  {
    if drop <= |digits| {
      IncrementShape(digits[..|digits| - drop]);
    }
  }

  /** The fold drops a final zero and keeps the value. */
  lemma FoldKeeps(r: string, e: int)
    requires Normal(r) && |r| <= PREC + 1 && (|r| > PREC ==> r[|r| - 1] == '0')
    ensures Normal(Fold(r, e).0) && |Fold(r, e).0| <= PREC
    ensures V(NumVal(Fold(r, e).0), Fold(r, e).1) == V(NumVal(r), e)
    ensures Fold(r, e).1 == e || Fold(r, e).1 == e + 1
  {
    if |r| > PREC {
      VTen(NumVal(r[..|r| - 1]), e);
    }
  }

  /** The strike's exact value times a thousand. */
  ghost function Product(s: Strike): real
    requires AllDigits(s.digits)
  {
    V(1000 * NumVal(Coefficient(s)), s.exp)
  }

  lemma ThousandDigits(c: string)
    requires AllDigits(c)
    ensures AllDigits(c + "000") && NumVal(c + "000") == 1000 * NumVal(c)
  {
    assert "000" == Repeat('0', 3);
    ZerosVal(3);
    Pow10Values();
    NumValSplit(c, "000");
  }

  /** The product is the exact one rounded half-even at its place. */
  lemma ProductRounds(s: Strike)
    requires AllDigits(s.digits) && Coefficient(s) != "0"
    ensures var (p, e) := RoundedProduct(s); var at := Place(|Coefficient(s)| + 3, s.exp);
      && Normal(p) && |p| <= PREC && at <= e <= at + 1
      && exists q: nat :: V(q, at) == V(NumVal(p), e) && Nearest(Product(s), at, q)
  {
    var digits := Coefficient(s) + "000";
    var at := Place(|digits|, s.exp);
    ThousandDigits(Coefficient(s));
    if s.exp < at {
      CutRounds(digits, s.exp, at);
    } else {
      RoundsExact(HalfEven, NumVal(digits), at);
      assert V(NumVal(digits), at) == V(NumVal(RoundedProduct(s).0), RoundedProduct(s).1);
    }
  }

  lemma CutRounds(digits: string, exp: int, at: int)
    requires Normal(digits) && digits != "0" && exp < at && |digits| + exp - PREC <= at
    ensures var (p, e) := Fold(RoundDigits(digits, at - exp), at);
      && Normal(p) && |p| <= PREC && at <= e <= at + 1
      && exists q: nat :: V(q, at) == V(NumVal(p), e) && Nearest(V(NumVal(digits), exp), at, q)
  {
    var r := RoundDigits(digits, at - exp);
    NormalRounds(digits, at - exp);
    NormalRoundsLength(digits, at - exp);
    FoldKeeps(r, at);
    RoundDigitsCorrect(digits, at - exp);
    RoundsOnCoefficient(HalfEven, NumVal(digits), exp, at, NumVal(r));
    assert V(NumVal(r), at) == V(NumVal(Fold(r, at).0), Fold(r, at).1);
  }

  // --- which strikes are accepted ---------------------------------------------------------------

  lemma TooLong(p: string, e: int)
    requires Normal(p) && p != "0" && e > 40
    ensures |IntegralValue(p, e)| > 18
    ensures forall m: nat :: m <= MAX_MILLIS ==> !IsWhole(NumVal(p), e, m)
  {
    NormalZero(p);
    forall m: nat | m <= MAX_MILLIS
      ensures !IsWhole(NumVal(p), e, m)
    {
      VCompare(NumVal(p), e, m, 0);
      Pow10Values();
      Pow10Mono(8, e);
      AtLeast(NumVal(p), Pow10(e));
    }
  }

  /** The last two checks together: the product is a whole number of thousandths that fits eight digits. */
  lemma ChecksIff(p: string, e: int)
    requires Normal(p) && |p| <= PREC
    ensures var w := IntegralValue(p, e);
      && (IsIntegral(p, e) && |w| <= 18 && 0 < NumVal(w) <= MAX_MILLIS ==> IsWhole(NumVal(p), e, NumVal(w)))
      && forall m: nat :: 0 < m <= MAX_MILLIS && IsWhole(NumVal(p), e, m) ==>
           IsIntegral(p, e) && |w| <= 18 && NumVal(w) == m
  {
    if e > 40 {
      if p == "0" {
        ZeroNeverWhole(e);
      } else {
        TooLong(p, e);
      }
    } else {
      if IsIntegral(p, e) {
        IntegralIsWhole(p, e);
      }
      forall m: nat | 0 < m <= MAX_MILLIS && IsWhole(NumVal(p), e, m)
        ensures IsIntegral(p, e) && |IntegralValue(p, e)| <= 18 && NumVal(IntegralValue(p, e)) == m
      {
        IntegralIff(p, e, m);
        WholeIsNormal(p, e);
      }
    }
  }

  lemma ZeroNeverWhole(e: int)
    ensures NumVal("0") == 0 && forall m: nat :: 0 < m ==> !IsWhole(0, e, m)
  {
    assert "0"[..0] == [];
    VZero(e);
    forall m: nat | 0 < m
      ensures !IsWhole(0, e, m)
    {
      VSign(m, 0);
    }
  }

  lemma WholeIsNormal(p: string, e: int)
    requires Normal(p) && NumVal(IntegralValue(p, e)) <= MAX_MILLIS
    ensures |IntegralValue(p, e)| <= 18
  {
    if e < 0 {
      NormalRounds(p, if -e < 4_294_967_295 then -e else 4_294_967_295);
    }
    if |IntegralValue(p, e)| > 18 {
      LongIsLarge(IntegralValue(p, e));
    }
  }

  /** The product under the context is the whole number `m`, which fits the symbol's eight digits. */
  ghost predicate ProductIs(s: Strike, m: nat)
    requires AllDigits(s.digits)
  {
    0 < m <= MAX_MILLIS && Times1000(s).Ok? && IsWhole(NumVal(Times1000(s).value.0), Times1000(s).value.1, m)
  }

  lemma ChecksProduct(s: Strike)
    requires AllDigits(s.digits)
    ensures ValidateStrike(s).Ok? <==>
      s.finite && !s.neg && Coefficient(s) != "0" && exists m: nat :: ProductIs(s, m)
    ensures ValidateStrike(s).Ok? ==> StrikeMillis(s).Ok? && ProductIs(s, StrikeMillis(s).value)
  {
    if Coefficient(s) != "0" && Times1000(s).Ok? {
      ProductRounds(s);
      ChecksIff(Times1000(s).value.0, Times1000(s).value.1);
      if ValidateStrike(s).Ok? {
        assert ProductIs(s, StrikeMillis(s).value);
      }
      if m: nat :| ProductIs(s, m) {
        assert StrikeMillis(s) == Ok(m);
      }
    }
  }

  // --- the check on the strike's value ------------------------------------------------------------

  /** The exact product, rounded half-even at its place in the context, is the whole number `m`. */
  ghost predicate RoundsAs(s: Strike, m: nat, q: nat)
    requires AllDigits(s.digits)
  {
    var at := Place(|Coefficient(s)| + 3, s.exp);
    Nearest(Product(s), at, q) && V(q, at) == V(m, 0)
  }

  ghost predicate RoundsToMillis(s: Strike, m: nat)
    requires AllDigits(s.digits)
  {
    0 < m <= MAX_MILLIS && exists q: nat :: RoundsAs(s, m, q)
  }

  /** A whole number that fits eight digits is no multiple of a billion. */
  lemma NotHuge(n: nat, e: int, m: nat)
    requires V(n, e) == V(m, 0) && 0 < m <= MAX_MILLIS
    ensures n > 0 && e < 9
  {
    VSign(n, e);
    VSign(m, 0);
    if e >= 9 {
      VCompare(n, e, m, 0);
      Pow10Values();
      Pow10Mono(8, e);
      AtLeast(n, Pow10(e));
    }
  }

  lemma ProductIsIff(s: Strike, m: nat)
    requires AllDigits(s.digits) && Coefficient(s) != "0"
    ensures ProductIs(s, m) <==> RoundsToMillis(s, m)
  {
    if 0 < m <= MAX_MILLIS {
      ProductRounds(s);
      var (p, e) := RoundedProduct(s);
      var at := Place(|Coefficient(s)| + 3, s.exp);
      var q: nat :| V(q, at) == V(NumVal(p), e) && Nearest(Product(s), at, q);
      if V(NumVal(p), e) == V(m, 0) {
        assert RoundsAs(s, m, q);
        NotHuge(NumVal(p), e, m);
        NotHuge(q, at, m);
      }
      if r: nat :| RoundsAs(s, m, r) {
        RoundsUnique(HalfEven, Product(s), at, q, r);
      }
    }
  }

  lemma ZeroNeverRounds(s: Strike, m: nat)
    requires AllDigits(s.digits) && Coefficient(s) == "0"
    ensures !RoundsToMillis(s, m)
  {
    var at := Place(|Coefficient(s)| + 3, s.exp);
    NormalZero(Coefficient(s));
    VZero(s.exp);
    VZero(at);
    RoundsExact(HalfEven, 0, at);
    if 0 < m {
      VSign(m, 0);
      forall q: nat | Nearest(Product(s), at, q)
        ensures q == 0
      {
        RoundsUnique(HalfEven, 0.0, at, q, 0);
      }
    }
  }

  /**
   * For every decimal: it is accepted exactly when it is a number, not negative, and a thousand times its
   * value, rounded half-even at its place in the 28-digit context, is a whole number from 1 to 99999999.
   */
  lemma ValidateIff(s: Strike)
    requires AllDigits(s.digits)
    ensures ValidateStrike(s).Ok? <==> s.finite && !s.neg && exists m: nat :: RoundsToMillis(s, m)
    ensures ValidateStrike(s).Ok? ==> StrikeMillis(s).Ok? && RoundsToMillis(s, StrikeMillis(s).value)
  {
    ChecksProduct(s);
    if ValidateStrike(s).Ok? {
      ProductIsIff(s, StrikeMillis(s).value);
    }
    if m: nat :| RoundsToMillis(s, m) {
      if Coefficient(s) == "0" {
        ZeroNeverRounds(s, m);
      } else {
        ProductIsIff(s, m);
      }
    }
  }

  /** The thousandths of an accepted strike are the only number its product rounds to. */
  lemma MillisUnique(s: Strike, m: nat)
    requires AllDigits(s.digits) && s.finite && !s.neg && RoundsToMillis(s, m)
    ensures ValidateStrike(s).Ok? && StrikeMillis(s) == Ok(m)
  {
    ValidateIff(s);
    var n := StrikeMillis(s).value;
    var at := Place(|Coefficient(s)| + 3, s.exp);
    var q: nat :| RoundsAs(s, m, q);
    var r: nat :| RoundsAs(s, n, r);
    RoundsUnique(HalfEven, Product(s), at, q, r);
    VOrder(m, n, 0);
  }

  // --- whole thousandths ------------------------------------------------------------------------------

  /** The strike is `m` thousandths, and `m` fits the symbol's eight digits. */
  ghost predicate Thousandths(s: Strike, m: nat)
    requires AllDigits(s.digits)
  {
    0 < m <= MAX_MILLIS && V(NumVal(Coefficient(s)), s.exp) == V(m, -3)
  }

  /** Thousandths on both sides of the scale. */
  lemma Thousandfold(c: nat, e: int)
    ensures V(1000 * c, e) == V(c, e + 3)
  {
    Pow10Values();
    VRescale(c, e + 3, e);
  }

  lemma ThreePlaces(a: int, i: int, b: int, j: int)
    ensures V(a, i + 3) == V(b, j + 3) <==> V(a, i) == V(b, j)
  {
    VTen(a, i);
    VTen(a, i + 1);
    VTen(a, i + 2);
    VTen(b, j);
    VTen(b, j + 1);
    VTen(b, j + 2);
  }

  lemma ProductOfThousandths(s: Strike, m: nat)
    requires AllDigits(s.digits)
    ensures Product(s) == V(m, 0) <==> V(NumVal(Coefficient(s)), s.exp) == V(m, -3)
  {
    Thousandfold(NumVal(Coefficient(s)), s.exp);
    ThreePlaces(NumVal(Coefficient(s)), s.exp, m, -3);
  }

  lemma MultipleRounds(c: nat, i: int, at: int, q: int)
    requires at <= i && Nearest(V(c, i), at, q)
    ensures V(q, at) == V(c, i)
  {
    VRescale(c, i, at);
    RoundsExact(HalfEven, c * Pow10(i - at), at);
    RoundsUnique(HalfEven, V(c, i), at, q, c * Pow10(i - at));
  }

  lemma SmallValue(c: nat, k: nat, e: int, j: int)
    requires c < Pow10(k) && e + k <= j
    ensures V(c, e) < V(1, j)
  {
    VRescale(1, j, e);
    Pow10Mono(k, j - e);
    VOrder(c, 1 * Pow10(j - e), e);
  }

  /** A coefficient of `k` digits is at least one unit of its leading place. */
  lemma LeadingPlace(c: string, e: int)
    requires Normal(c) && c != "0"
    ensures V(1, e + |c| - 1) <= V(NumVal(c), e)
  {
    NumValBound(c);
    VRescale(1, e + |c| - 1, e);
    VOrder(Pow10(|c| - 1), NumVal(c), e);
  }

  /** What is a whole number of thousandths has its leading place low enough that its product is on the grid. */
  lemma ThousandthsPlace(s: Strike, m: nat)
    requires AllDigits(s.digits) && Thousandths(s, m)
    ensures Coefficient(s) != "0" && s.exp + |Coefficient(s)| <= 5
  {
    var c := Coefficient(s);
    NormalZero(c);
    VSign(m, -3);
    VSign(NumVal(c), s.exp);
    LeadingPlace(c, s.exp);
    assert m < Pow10(8) by {
      Pow10Values();
    }
    SmallValue(m, 8, -3, 5);
    var j := s.exp + |c| - 1;
    if j >= 5 {
      UnitsRise(5, j);
    }
  }

  lemma UnitsRise(i: int, j: int)
    requires i <= j
    ensures V(1, i) <= V(1, j)
  {
    VRescale(1, j, i);
    VOrder(1, 1 * Pow10(j - i), i);
  }

  /** Every multiple of 0.001 in range is accepted, however many digits spell it, with its own thousandths. */
  lemma ThousandthsAccepted(s: Strike, m: nat)
    requires AllDigits(s.digits) && s.finite && !s.neg && Thousandths(s, m)
    ensures ValidateStrike(s).Ok? && StrikeMillis(s) == Ok(m)
  {
    var at := Place(|Coefficient(s)| + 3, s.exp);
    ProductOfThousandths(s, m);
    ThousandthsPlace(s, m);
    if at == s.exp {
      var q := 1000 * NumVal(Coefficient(s));
      RoundsExact(HalfEven, q, at);
      assert RoundsAs(s, m, q);
    } else {
      var q := m * Pow10(0 - at);
      VRescale(m, 0, at);
      RoundsExact(HalfEven, q, at);
      assert RoundsAs(s, m, q);
    }
    MillisUnique(s, m);
  }

  /** Below the smallest exponent no product rounds to a whole number. */
  lemma TinyNeverRounds(s: Strike, m: nat)
    requires AllDigits(s.digits) && Coefficient(s) != "0" && |Coefficient(s)| <= 28 && s.exp < ETINY
    ensures !RoundsToMillis(s, m)
  {
    if RoundsToMillis(s, m) {
      ProductIsIff(s, m);
      ProductRounds(s);
      var (p, e) := RoundedProduct(s);
      NumValBound(p);
      SmallValue(NumVal(p), |p|, e, 0);
      VOrder(1, m, 0);
    }
  }

  /** With at most 28 digits, rounding drops no more than the appended zeros, so it is exact. */
  lemma ShortIsExact(s: Strike, m: nat)
    requires AllDigits(s.digits) && |Coefficient(s)| <= 28 && RoundsToMillis(s, m)
    ensures Thousandths(s, m)
  {
    var c, at := Coefficient(s), Place(|Coefficient(s)| + 3, s.exp);
    if c == "0" {
      ZeroNeverRounds(s, m);
    } else if s.exp < ETINY {
      TinyNeverRounds(s, m);
    } else {
      var q: nat :| RoundsAs(s, m, q);
      Thousandfold(NumVal(c), s.exp);
      MultipleRounds(NumVal(c), s.exp + 3, at, q);
      ProductOfThousandths(s, m);
    }
  }

  /** More than 28 digits that are no whole number of thousandths, yet round to `m` of them. */
  ghost predicate Slips(s: Strike, m: nat)
    requires AllDigits(s.digits)
  {
    |Coefficient(s)| > 28 && RoundsToMillis(s, m) && Product(s) != V(m, 0)
  }

  /**
   * A strike is accepted exactly when it is a positive multiple of 0.001 up to 99999.999, whose thousandths
   * are then what the symbol carries, or slips; so the check is what it promises just when none slips.
   */
  lemma StrikeAcceptedIff(s: Strike)
    requires AllDigits(s.digits)
    ensures ValidateStrike(s).Ok? <==> s.finite && !s.neg && exists m: nat :: Thousandths(s, m) || Slips(s, m)
    ensures ValidateStrike(s).Ok?
      ==> StrikeMillis(s).Ok? && (Thousandths(s, StrikeMillis(s).value) || Slips(s, StrikeMillis(s).value))
    ensures (ValidateStrike(s).Ok? <==> s.finite && !s.neg && exists m: nat :: Thousandths(s, m))
      <==> !(s.finite && !s.neg && exists m: nat :: Slips(s, m))
  {
    ValidateIff(s);
    if ValidateStrike(s).Ok? {
      ThousandthsOrSlips(s, StrikeMillis(s).value);
    }
    if m: nat :| s.finite && !s.neg && Slips(s, m) {
      MillisUnique(s, m);
      OnlyOne(s, m);
    }
    if m: nat :| s.finite && !s.neg && Thousandths(s, m) {
      ThousandthsAccepted(s, m);
    }
  }

  lemma ThousandthsOrSlips(s: Strike, m: nat)
    requires AllDigits(s.digits) && RoundsToMillis(s, m)
    ensures Thousandths(s, m) || Slips(s, m)
  {
    ProductOfThousandths(s, m);
    if |Coefficient(s)| <= 28 {
      ShortIsExact(s, m);
    }
  }

  /** What slips is a multiple of 0.001 for no number of thousandths at all. */
  lemma OnlyOne(s: Strike, m: nat)
    requires AllDigits(s.digits) && s.finite && !s.neg && Slips(s, m) && StrikeMillis(s) == Ok(m)
    ensures forall n: nat :: !Thousandths(s, n)
  {
    forall n: nat
      ensures !Thousandths(s, n)
    {
      if Thousandths(s, n) {
        ThousandthsAccepted(s, n);
        ProductOfThousandths(s, n);
      }
    }
  }

  // --- one digit more, and it is not ------------------------------------------------------------------

  /** 1.0000000000000000000000000001, of 29 digits. */
  function LongStrike(): Strike
  {
    Strike(false, "1" + Repeat('0', 27) + "1", -28, true)
  }

  lemma LongStrikeProduct()
    ensures AllDigits(LongStrike().digits) && Coefficient(LongStrike()) == LongStrike().digits
    ensures RoundedProduct(LongStrike()) == ("1" + Repeat('0', 27), -24)
  {
    var s := LongStrike();
    var kept := "1" + Repeat('0', 27);
    assert s.digits == kept + "1" && s.digits[0] == '1';
    assert s.digits + "000" == kept + "1000";
    assert (kept + "1000")[..28] == kept && (kept + "1000")[28..] == "1000";
  }

  lemma LongStrikeValue()
    ensures NumVal("1" + Repeat('0', 27)) == 1_000_000_000_000_000_000_000_000_000
    ensures AllDigits(LongStrike().digits) && NumVal(LongStrike().digits) == 10_000_000_000_000_000_000_000_000_001
  {
    assert "1"[..0] == [];
    assert NumVal("1") == 1;
    ZerosVal(27);
    Pow10Values();
    NumValSplit("1", Repeat('0', 27));
    NumValSplit("1" + Repeat('0', 27), "1");
  }

  lemma Tens()
    ensures Pow10(24) == 1_000_000_000_000_000_000_000_000 && Pow10(25) == 10_000_000_000_000_000_000_000_000
  {
    Pow10Values();
    Pow10Add(24, 3);
  }

  lemma LongStrikeAccepted()
    ensures AllDigits(LongStrike().digits) && ValidateStrike(LongStrike()).Ok?
  {
    LongStrikeProduct();
    LongStrikeValue();
    Tens();
    MultipleIsWhole(1_000_000_000_000_000_000_000_000_000, 1000, 24);
    assert ProductIs(LongStrike(), 1000);
    ChecksProduct(LongStrike());
  }

  /** A strike that is not a whole number of thousandths and is accepted all the same. */
  lemma LongStrikeSlips(m: nat)
    ensures AllDigits(LongStrike().digits) && ValidateStrike(LongStrike()).Ok? && !Thousandths(LongStrike(), m)
  {
    LongStrikeAccepted();
    LongStrikeProduct();
    if m <= MAX_MILLIS {
      LongStrikeValue();
      Tens();
      VCompare(m, -3, NumVal(LongStrike().digits), -28);
    }
  }
}
