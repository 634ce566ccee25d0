/**
 * Reading a decimal literal and spelling a `Money`. `Literal` and `Spell` define what a literal is;
 * reading is proved to accept exactly the spellings, and to hold the exact value or refuse it.
 */
module MoneyText {
  import opened PowersOfTen
  import opened MoneyValue
  import opened DigitText

  /** A literal with a larger exponent is a syntax error. */
  const MAX_LITERAL_EXP: int := 999_999_999_999_999_999
  /** Where the exponent accumulator saturates: `i128::MAX / 20`. */
  const SATURATION: nat := 8_507_059_173_023_461_586_584_365_185_794_205_286

  // --- what a literal is -------------------------------------------------------------------

  datatype Exponent = NoExp | Exp(mark: char, sign: string, digits: string)

  datatype Literal = Literal(sign: string, whole: string, point: bool, frac: string, exp: Exponent)

  predicate IsSign(s: string)
  {
    s == "" || s == "-" || s == "+"
  }

  predicate WellFormedExp(e: Exponent)
  {
    e.Exp? ==> (e.mark == 'e' || e.mark == 'E') && IsSign(e.sign) && AllDigits(e.digits) && e.digits != []
  }

  /** Digits somewhere, a fraction only after a point, an exponent only with digits. */
  predicate WellFormed(l: Literal)
  {
    && IsSign(l.sign) && AllDigits(l.whole) && AllDigits(l.frac)
    && (!l.point ==> l.frac == [])
    && (l.whole != [] || l.frac != [])
    && WellFormedExp(l.exp)
  }

  function SpellExp(e: Exponent): string
  {
    match e
    case NoExp => []
    case Exp(mark, sign, digits) => [mark] + sign + digits
  }

  function SpellUnsigned(l: Literal): string
  {
    l.whole + (if l.point then "." else "") + l.frac + SpellExp(l.exp)
  }

  function Spell(l: Literal): string
  {
    l.sign + SpellUnsigned(l)
  }

  function ExpVal(e: Exponent): int
    requires WellFormedExp(e)
  {
    match e
    case NoExp => 0
    case Exp(_, sign, digits) => if sign == "-" then 0 - NumVal(digits) else NumVal(digits)
  }

  function Magnitude(n: int): nat
  {
    if n < 0 then -n else n
  }

  predicate ExpInRange(l: Literal)
    requires WellFormed(l)
  {
    Magnitude(ExpVal(l.exp)) <= MAX_LITERAL_EXP && Magnitude(ExpVal(l.exp) - |l.frac|) <= MAX_LITERAL_EXP
  }

  /** The exact outcome of `±n * 10^e`, zero included. */
  ghost predicate ExactOutcome(neg: bool, n: nat, e: int, res: DecResult<Money>)
  {
    if n == 0 then res == Ok(ZERO) else HeldOrRefused(neg, V(n, e), res)
  }

  // --- reading --------------------------------------------------------------------------------

  function DropUnderscores(s: string): (t: string)
    ensures '_' !in s ==> t == s
  {
    if s == [] then [] else
    (if s[0] == '_' then [] else [s[0]]) + DropUnderscores(s[1..])
  }

  function ReadExp(s: string, j: nat): (r: DecResult<Exponent>)
    requires j <= |s|
  {
    if j == |s| then Ok(NoExp)
    else if s[j] == 'e' || s[j] == 'E' then
      var d := if j + 1 < |s| && (s[j + 1] == '-' || s[j + 1] == '+') then j + 2 else j + 1;
      var l := RunEnd(s, d);
      if l == d || l != |s| then Err(InvalidOperation) else Ok(Exp(s[j], s[j + 1..d], s[d..l]))
    else Err(InvalidOperation)
  }

  function ReadUnsigned(sign: string, s: string): (r: DecResult<Literal>)
  {
    var i := RunEnd(s, 0);
    var point := i < |s| && s[i] == '.';
    var f := if point then i + 1 else i;
    var j := if point then RunEnd(s, f) else f;
    if i == 0 && j == f then Err(InvalidOperation)
    else
      match ReadExp(s, j)
      case Err(e) => Err(e)
      case Ok(exp) => Ok(Literal(sign, s[..i], point, s[f..j], exp))
  }

  /** The literal a cleaned text spells, if it spells one. */
  function Read(s: string): (r: DecResult<Literal>)
  {
    if s != [] && (s[0] == '-' || s[0] == '+') then ReadUnsigned([s[0]], s[1..]) else ReadUnsigned([], s)
  }

  /** The exponent's magnitude as the code accumulates it, saturating far past every limit. */
  function SatVal(s: string): nat
    requires AllDigits(s)
  {
    if s == [] then 0 else
    var n := SatVal(s[..|s| - 1]) * 10 + DigitVal(s[|s| - 1]);
    if n <= SATURATION then n else SATURATION
  }

  function TrimTrailing(s: string, e: int): (r: (string, int))
    ensures AllDigits(s) ==> AllDigits(r.0)
    ensures |r.0| <= |s|
    ensures r.0 != [] ==> r.0[|r.0| - 1] != '0' && r.0[0] == s[0]
  {
    if s != [] && s[|s| - 1] == '0' then TrimTrailing(s[..|s| - 1], e + 1) else (s, e)
  }

  /** From the digits and the exponent to a value: significant digits only, then the bound. */
  function FromDigits(neg: bool, all: string, exp: int, fracLen: nat): (res: DecResult<Money>)
    requires AllDigits(all)
  {
    var total := exp - fracLen;
    if Magnitude(total) > MAX_LITERAL_EXP || Magnitude(exp) > MAX_LITERAL_EXP then Err(InvalidOperation)
    else
      var tail := TrimLeading(all);
      if tail == [] then Ok(ZERO)
      else
        var (sig, e) := TrimTrailing(tail, total);
        if |sig| > 29 || e > 38 || e < -57 then Err(Overflow) else Build(neg, NumVal(sig), e)
  }

  function SatExp(e: Exponent): int
    requires WellFormedExp(e)
  {
    match e
    case NoExp => 0
    case Exp(_, sign, digits) => if sign == "-" then 0 - SatVal(digits) else SatVal(digits)
  }

  /** `try_parse` on a text already stripped and cleaned. */
  function ParseCleaned(s: string): (res: DecResult<Money>)
  {
    match Read(s)
    case Err(e) => Err(e)
    case Ok(l) =>
      ReadSound(s);
      FromDigits(l.sign == "-", l.whole + l.frac, SatExp(l.exp), |l.frac|)
  }

  /** The same once the sign has been taken off. */
  function ParseUnsigned(neg: bool, s: string): (res: DecResult<Money>)
  {
    match ReadUnsigned("", s)
    case Err(e) => Err(e)
    case Ok(l) =>
      ReadUnsignedSound("", s);
      FromDigits(neg, l.whole + l.frac, SatExp(l.exp), |l.frac|)
  }

  function TryParse(text: string): (res: DecResult<Money>)
  {
    ParseCleaned(Cleaned(text))
  }

  /** The text without blank ends and underscores. */
  function Cleaned(text: string): (s: string)
  {
    DropUnderscores(Strip(text))
  }

  // --- reading inverts spelling -------------------------------------------------------------------

  lemma ReadExpSound(s: string, j: nat)
    requires j <= |s| && ReadExp(s, j).Ok?
    ensures WellFormedExp(ReadExp(s, j).value) && SpellExp(ReadExp(s, j).value) == s[j..]
  {
    if j < |s| {
      var d := if j + 1 < |s| && (s[j + 1] == '-' || s[j + 1] == '+') then j + 2 else j + 1;
      assert s[j..] == [s[j]] + s[j + 1..d] + s[d..];
    }
  }

  lemma Cuts(s: string, i: nat, f: nat, j: nat)
    requires i <= f <= j <= |s|
    ensures s[..i] + s[i..f] + s[f..j] + s[j..] == s
  {
  }

  lemma ReadUnsignedSound(sign: string, s: string)
    requires IsSign(sign) && ReadUnsigned(sign, s).Ok?
    ensures var l := ReadUnsigned(sign, s).value; WellFormed(l) && l.sign == sign && SpellUnsigned(l) == s
  {
    var i := RunEnd(s, 0);
    var point := i < |s| && s[i] == '.';
    var f := if point then i + 1 else i;
    var j := if point then RunEnd(s, f) else f;
    ReadExpSound(s, j);
    assert s[0..i] == s[..i];
    UnsignedSound(sign, s, i, point, f, j, ReadExp(s, j).value);
  }

  lemma UnsignedSound(sign: string, s: string, i: nat, point: bool, f: nat, j: nat, exp: Exponent)
    requires IsSign(sign) && i <= f <= j <= |s| && (i > 0 || j > f)
    requires AllDigits(s[..i]) && AllDigits(s[f..j]) && (!point ==> j == f)
    requires f == (if point then i + 1 else i) && (point ==> s[i] == '.')
    requires WellFormedExp(exp) && SpellExp(exp) == s[j..]
    ensures var l := Literal(sign, s[..i], point, s[f..j], exp); WellFormed(l) && SpellUnsigned(l) == s
  {
    Cuts(s, i, f, j);
    assert s[i..f] == if point then "." else "";
  }

  /** A text that reads is the spelling of the literal read. */
  lemma ReadSound(s: string)
    ensures Read(s).Ok? ==> WellFormed(Read(s).value) && Spell(Read(s).value) == s
  {
    if Read(s).Ok? {
      var signed := s != [] && (s[0] == '-' || s[0] == '+');
      var sign, rest := if signed then [s[0]] else [], if signed then s[1..] else s;
      assert s == sign + rest;
      ReadUnsignedSound(sign, rest);
    }
  }

  lemma ReadExpComplete(s: string, j: nat, e: Exponent)
    requires j <= |s| && WellFormedExp(e) && s[j..] == SpellExp(e)
    ensures ReadExp(s, j) == Ok(e)
  {
    if e.Exp? {
      ExpPieces(s, j, e);
      RunEndIs(s, j + 1 + |e.sign|, |s|);
    }
  }

  lemma ExpPieces(s: string, j: nat, e: Exponent)
    requires j <= |s| && e.Exp? && s[j..] == SpellExp(e)
    ensures var d := j + 1 + |e.sign|;
      d <= |s| && j < d && s[j] == e.mark && s[j + 1..d] == e.sign && s[d..|s|] == e.digits
    ensures e.sign != [] ==> s[j + 1] == e.sign[0]
    ensures e.sign == [] && e.digits != [] ==> s[j + 1] == e.digits[0]
  {
    var t := s[j..];
    assert t == [e.mark] + (e.sign + e.digits);
    assert s[j] == t[0];
    assert s[j + 1..] == t[1..] == e.sign + e.digits;
  }

  lemma ReadUnsignedComplete(l: Literal)
    requires WellFormed(l)
    ensures ReadUnsigned(l.sign, SpellUnsigned(l)) == Ok(l)
  {
    var s, i := SpellUnsigned(l), |l.whole|;
    var x := SpellExp(l.exp);
    var f := if l.point then i + 1 else i;
    var j := f + |l.frac|;
    assert s[..i] == l.whole;
    assert s[f..j] == l.frac;
    assert s[j..] == x;
    assert i < |s| ==> s[i] == if l.point then '.' else x[0];
    assert j < |s| ==> s[j] == x[0];
    assert s[0..i] == s[..i];
    RunEndIs(s, 0, i);
    if l.point {
      RunEndIs(s, f, j);
    }
    ReadExpComplete(s, j, l.exp);
  }

  /** Every well-formed literal's spelling reads back as that literal. */
  lemma ReadComplete(l: Literal)
    requires WellFormed(l)
    ensures Read(Spell(l)) == Ok(l)
  {
    ReadUnsignedComplete(l);
    UnsignedHead(l, SpellUnsigned(l));
    SignIsRead(l.sign, SpellUnsigned(l));
  }

  /** An unsigned spelling starts with a digit or a point. */
  lemma UnsignedHead(l: Literal, u: string)
    requires WellFormed(l) && u == SpellUnsigned(l)
    ensures u != [] && u[0] != '-' && u[0] != '+'
  {
    if l.whole != [] {
      assert u[0] == l.whole[0];
    } else {
      assert u[0] == '.';
    }
  }

  lemma SignIsRead(sign: string, u: string)
    requires IsSign(sign) && u != [] && u[0] != '-' && u[0] != '+'
    ensures Read(sign + u) == ReadUnsigned(sign, u)
  {
    var s := sign + u;
    if sign == [] {
      assert s == u;
    } else {
      assert s[1..] == u && s[0] == sign[0] && [s[0]] == sign;
    }
  }

  // --- the value of a literal ------------------------------------------------------------------------

  lemma {:induction false} SatValIs(s: string)
    requires AllDigits(s)
    ensures SatVal(s) == if NumVal(s) <= SATURATION then NumVal(s) else SATURATION
  {
    if s != [] {
      SatValIs(s[..|s| - 1]);
    }
  }

  lemma {:induction false} TrimTrailingValue(s: string, e: int)
    requires AllDigits(s)
    ensures V(NumVal(TrimTrailing(s, e).0), TrimTrailing(s, e).1) == V(NumVal(s), e)
  {
    if s != [] && s[|s| - 1] == '0' {
      TrimTrailingValue(s[..|s| - 1], e + 1);
      VTen(NumVal(s[..|s| - 1]), e);
    }
  }

  /** Significant digits neither start nor end with a zero, so the early refusals are the bound's own. */
  lemma SignificantCorrect(neg: bool, sig: string, e: int)
    requires AllDigits(sig) && sig != [] && sig[0] != '0' && sig[|sig| - 1] != '0'
    ensures HeldOrRefused(neg, V(NumVal(sig), e),
      if |sig| > 29 || e > 38 || e < -57 then Err(Overflow) else Build(neg, NumVal(sig), e))
  {
    var n := NumVal(sig);
    NumValBound(sig);
    BuildCorrect(neg, n, e);
    if Fits(V(n, e)) {
      SignificantFits(sig, e);
    }
  }

  /** What fits the bound passes the early tests. */
  lemma SignificantFits(sig: string, e: int)
    requires AllDigits(sig) && sig != [] && sig[0] != '0' && sig[|sig| - 1] != '0' && Fits(V(NumVal(sig), e))
    ensures |sig| <= 29 && -57 <= e <= 38
  {
    assert NumVal(sig) % 10 != 0 by {
      LastDigit(NumVal(sig[..|sig| - 1]), DigitVal(sig[|sig| - 1]));
    }
    NumValBound(sig);
    FitsEarly(NumVal(sig), |sig|, e);
  }

  lemma LastDigit(n: nat, d: nat)
    requires 0 < d < 10
    ensures (10 * n + d) % 10 != 0
  {
  }

  lemma FitsEarly(n: nat, d: nat, e: int)
    requires d > 0 && n >= Pow10(d - 1) && n % 10 != 0 && Fits(V(n, e))
    ensures d <= 29 && -57 <= e <= 38
  {
    var m: nat, s: nat :| HeldAs(V(n, e), m, s);
    FitsPlaced(n, e, m, s);
    if d > 29 {
      LongIsLarge(n, d - 1);
      if e > 0 { Positive(n, Pow10(e)); }
    }
  }

  /** From the thirtieth digit on a number is past the bound. */
  lemma LongIsLarge(n: nat, d: nat)
    requires d >= 29 && n >= Pow10(d)
    ensures n >= MANTISSA_LIMIT
  {
    Pow10Values();
    Pow10Mono(29, d);
  }

  lemma FromDigitsCorrect(neg: bool, all: string, exp: int, fracLen: nat)
    requires AllDigits(all)
    requires Magnitude(exp) <= MAX_LITERAL_EXP && Magnitude(exp - fracLen) <= MAX_LITERAL_EXP
    ensures ExactOutcome(neg, NumVal(all), exp - fracLen, FromDigits(neg, all, exp, fracLen))
  {
    var tail := TrimLeading(all);
    TrimLeadingValue(all);
    if tail != [] {
      TailCorrect(neg, tail, exp - fracLen);
    }
  }

  lemma TailCorrect(neg: bool, tail: string, total: int)
    requires AllDigits(tail) && tail != [] && tail[0] != '0'
    ensures var (sig, e) := TrimTrailing(tail, total);
      ExactOutcome(neg, NumVal(tail), total, if |sig| > 29 || e > 38 || e < -57 then Err(Overflow) else Build(neg, NumVal(sig), e))
  {
    var (sig, e) := TrimTrailing(tail, total);
    TrimTrailingValue(tail, total);
    NumValBound(tail);
    VSign(NumVal(tail), total);
    VSign(NumVal(sig), e);
    SignificantCorrect(neg, sig, e);
  }

  /** A spelled literal is parsed from its digits and its saturated exponent. */
  lemma ParseSpelled(l: Literal)
    requires WellFormed(l)
    ensures ParseCleaned(Spell(l)) == FromDigits(l.sign == "-", l.whole + l.frac, SatExp(l.exp), |l.frac|)
  {
    ReadComplete(l);
  }

  /** Saturation never changes whether an exponent is in range, nor one that is. */
  lemma SaturationHarmless(e: Exponent)
    requires WellFormedExp(e)
    ensures Magnitude(SatExp(e)) <= MAX_LITERAL_EXP <==> Magnitude(ExpVal(e)) <= MAX_LITERAL_EXP
    ensures Magnitude(ExpVal(e)) <= MAX_LITERAL_EXP ==> SatExp(e) == ExpVal(e)
  {
    if e.Exp? {
      SatValIs(e.digits);
    }
  }

  lemma SpelledOutcome(l: Literal, res: DecResult<Money>)
    requires WellFormed(l) && res == FromDigits(l.sign == "-", l.whole + l.frac, SatExp(l.exp), |l.frac|)
    ensures ExpInRange(l) ==>
      ExactOutcome(l.sign == "-", NumVal(l.whole + l.frac), ExpVal(l.exp) - |l.frac|, res)
    ensures !ExpInRange(l) ==> res == Err(InvalidOperation)
  {
    SaturationHarmless(l.exp);
    if ExpInRange(l) {
      FromDigitsCorrect(l.sign == "-", l.whole + l.frac, SatExp(l.exp), |l.frac|);
    }
  }

  /** A literal is held when its exact value fits and refused when not: it is never rounded. */
  lemma LiteralOutcome(l: Literal)
    requires WellFormed(l)
    ensures ExpInRange(l) ==>
      ExactOutcome(l.sign == "-", NumVal(l.whole + l.frac), ExpVal(l.exp) - |l.frac|, ParseCleaned(Spell(l)))
    ensures !ExpInRange(l) ==> ParseCleaned(Spell(l)) == Err(InvalidOperation)
  {
    ParseSpelled(l);
    SpelledOutcome(l, ParseCleaned(Spell(l)));
  }

  /** Whatever is not the spelling of a literal is a syntax error, and only that is. */
  lemma SyntaxErrorIff(s: string)
    ensures Read(s) == Err(InvalidOperation) <==> !exists l: Literal :: WellFormed(l) && Spell(l) == s
    ensures Read(s).Err? ==> ParseCleaned(s) == Err(InvalidOperation)
  {
    ReadSound(s);
    forall l: Literal | WellFormed(l) && Spell(l) == s
      ensures Read(s) == Ok(l)
    {
      ReadComplete(l);
    }
  }

  /** `s` spells `l`, whose exponent the reader takes and whose exact value fits the bound. */
  ghost predicate Denotes(s: string, l: Literal)
  {
    WellFormed(l) && Spell(l) == s && ExpInRange(l) && Fits(V(NumVal(l.whole + l.frac), ExpVal(l.exp) - |l.frac|))
  }

  /** A text is accepted exactly when, cleaned, it spells a literal in range whose exact value fits. */
  lemma AcceptedIff(text: string)
    ensures TryParse(text).Ok? <==> exists l: Literal :: Denotes(Cleaned(text), l)
  {
    var s := Cleaned(text);
    if TryParse(text).Ok? {
      AcceptedDenotes(s);
    }
    if l: Literal :| Denotes(s, l) {
      SpelledDenotes(s, l);
    }
  }

  lemma AcceptedDenotes(s: string)
    requires ParseCleaned(s).Ok?
    ensures exists l: Literal :: Denotes(s, l)
  {
    ReadRefused(s);
    ReadSound(s);
    SpelledDenotes(s, Read(s).value);
  }

  lemma ReadRefused(s: string)
    ensures Read(s).Err? ==> ParseCleaned(s).Err?
  {
    SyntaxErrorIff(s);
  }

  /** A literal's spelling is accepted exactly when it denotes a value. */
  lemma SpelledDenotes(s: string, l: Literal)
    requires WellFormed(l) && Spell(l) == s
    ensures ParseCleaned(s).Ok? <==> Denotes(s, l)
  {
    SpelledAccepted(l);
  }

  lemma SpelledAccepted(l: Literal)
    requires WellFormed(l)
    ensures ParseCleaned(Spell(l)).Ok? <==> ExpInRange(l) && Fits(V(NumVal(l.whole + l.frac), ExpVal(l.exp) - |l.frac|))
  {
    LiteralOutcome(l);
    OutcomeAccepted(l, ParseCleaned(Spell(l)));
  }

  lemma OutcomeAccepted(l: Literal, res: DecResult<Money>)
    requires WellFormed(l)
    requires if ExpInRange(l) then ExactOutcome(l.sign == "-", NumVal(l.whole + l.frac), ExpVal(l.exp) - |l.frac|, res) else res.Err?
    ensures res.Ok? <==> ExpInRange(l) && Fits(V(NumVal(l.whole + l.frac), ExpVal(l.exp) - |l.frac|))
  {
    OutcomeFits(l.sign == "-", NumVal(l.whole + l.frac), ExpVal(l.exp) - |l.frac|, res);
  }

  lemma OutcomeFits(neg: bool, n: nat, e: int, res: DecResult<Money>)
    ensures ExactOutcome(neg, n, e, res) ==> (res.Ok? <==> Fits(V(n, e)))
  {
    if n == 0 {
      VZero(e);
      VZero(0);
      assert HeldAs(V(0, e), 0, 0);
    }
  }

  // --- spelling ------------------------------------------------------------------------------------------

  /** What stands before and after the point when it goes `scale` digits from the end. */
  function Halves(digits: string, scale: nat): (r: (string, string))
  {
    if |digits| > scale then (digits[..|digits| - scale], digits[|digits| - scale..])
    else ("0", Repeat('0', scale - |digits|) + digits)
  }

  /** `Money::canon`: plain notation, no exponent, no trailing zeros. */
  function Canon(x: Money): (s: string)
  {
    var sign := if x.neg then "-" else "";
    var digits := ToText(x.coef);
    if x.scale == 0 then sign + digits
    else sign + Halves(digits, x.scale).0 + "." + Halves(digits, x.scale).1
  }

  /** The literal that `canon` writes out: digits alone, or two halves around a point. */
  function CanonLiteral(sign: string, digits: string, scale: nat): (l: Literal)
  {
    if scale == 0 then Literal(sign, digits, false, [], NoExp)
    else Literal(sign, Halves(digits, scale).0, true, Halves(digits, scale).1, NoExp)
  }

  lemma CanonSpells(x: Money)
    ensures Canon(x) == Spell(CanonLiteral(if x.neg then "-" else "", ToText(x.coef), x.scale))
  {
    var sign, digits := if x.neg then "-" else "", ToText(x.coef);
    PlainSpelling(sign, digits);
    PointedSpelling(sign, Halves(digits, x.scale).0, Halves(digits, x.scale).1);
  }

  lemma PlainSpelling(sign: string, digits: string)
    ensures Spell(Literal(sign, digits, false, [], NoExp)) == sign + digits
  {
    assert digits + "" + [] + [] == digits;
  }

  lemma PointedSpelling(sign: string, whole: string, frac: string)
    ensures Spell(Literal(sign, whole, true, frac, NoExp)) == sign + whole + "." + frac
  {
    assert sign + (whole + "." + frac + []) == sign + whole + "." + frac;
  }

  lemma CutValue(digits: string, cut: nat)
    requires AllDigits(digits) && cut <= |digits|
    ensures AllDigits(digits[..cut]) && AllDigits(digits[cut..])
    ensures digits[..cut] + digits[cut..] == digits
  {
  }

  lemma PaddedValue(digits: string, pad: nat)
    requires AllDigits(digits)
    ensures AllDigits(Repeat('0', pad) + digits) && AllDigits("0" + (Repeat('0', pad) + digits))
    ensures NumVal("0" + (Repeat('0', pad) + digits)) == NumVal(digits)
  {
    ZerosVal(pad);
    NumValSplit(Repeat('0', pad), digits);
    assert "0" + (Repeat('0', pad) + digits) == Repeat('0', pad + 1) + digits;
    ZerosVal(pad + 1);
    NumValSplit(Repeat('0', pad + 1), digits);
  }

  lemma HalvesValue(digits: string, scale: nat)
    requires AllDigits(digits) && scale > 0
    ensures var (whole, frac) := Halves(digits, scale);
      && AllDigits(whole) && AllDigits(frac) && AllDigits(whole + frac)
      && |frac| == scale && NumVal(whole + frac) == NumVal(digits)
  {
    if |digits| > scale {
      CutValue(digits, |digits| - scale);
    } else {
      PaddedValue(digits, scale - |digits|);
    }
  }

  lemma CanonLiteralValue(sign: string, digits: string, scale: nat)
    requires IsSign(sign) && AllDigits(digits) && digits != []
    ensures var l := CanonLiteral(sign, digits, scale);
      && WellFormed(l) && l.exp == NoExp && |l.frac| == scale && l.sign == sign
      && NumVal(l.whole + l.frac) == NumVal(digits)
  {
    if scale == 0 {
      assert digits + [] == digits;
    } else {
      HalvesValue(digits, scale);
    }
  }

  /** Only signs, points and digits. */
  predicate Plain(s: string)
  {
    forall i :: 0 <= i < |s| ==> s[i] == '-' || s[i] == '+' || s[i] == '.' || IsDigit(s[i])
  }

  lemma PlainIsClean(s: string)
    requires Plain(s) && s != []
    ensures Cleaned(s) == s
  {
    assert !IsSpace(s[0]) && !IsSpace(s[|s| - 1]);
    assert '_' !in s;
  }

  lemma PlainLiteral(l: Literal)
    requires WellFormed(l) && l.exp == NoExp
    ensures Plain(Spell(l)) && Spell(l) != []
  {
    assert Plain(l.sign) && Plain(l.whole) && Plain(l.frac);
    assert Plain(SpellUnsigned(l));
  }

  lemma CanonIsClean(x: Money)
    ensures Cleaned(Canon(x)) == Canon(x)
  {
    CanonLiteralValue(if x.neg then "-" else "", ToText(x.coef), x.scale);
    CanonSpells(x);
    PlainLiteral(CanonLiteral(if x.neg then "-" else "", ToText(x.coef), x.scale));
    PlainIsClean(Canon(x));
  }

  lemma CanonReads(x: Money)
    ensures ParseCleaned(Spell(CanonLiteral(if x.neg then "-" else "", ToText(x.coef), x.scale))) == Ok(x)
  {
    var l := CanonLiteral(if x.neg then "-" else "", ToText(x.coef), x.scale);
    CanonLiteralValue(if x.neg then "-" else "", ToText(x.coef), x.scale);
    ParseSpelled(l);
    CanonOutcome(x, l, ParseCleaned(Spell(l)));
  }

  lemma CanonOutcome(x: Money, l: Literal, res: DecResult<Money>)
    requires WellFormed(l) && l.exp == NoExp && |l.frac| == x.scale && (l.sign == "-" <==> x.neg)
    requires NumVal(l.whole + l.frac) == x.coef && res == FromDigits(x.neg, l.whole + l.frac, 0, x.scale)
    ensures res == Ok(x)
  {
    FromDigitsCorrect(x.neg, l.whole + l.frac, 0, x.scale);
    ParsedIs(x, res);
  }

  /** Reading a `Money`'s own spelling gives that `Money` back. */
  lemma ParseCanon(x: Money)
    ensures TryParse(Canon(x)) == Ok(x)
  {
    CanonIsClean(x);
    CanonSpells(x);
    CanonReads(x);
  }

  lemma ParsedIs(x: Money, res: DecResult<Money>)
    requires ExactOutcome(x.neg, x.coef, x.Exp(), res)
    ensures res == Ok(x)
  {
    ValSign(x);
    assert HeldAs(Mag(x), x.coef, x.scale);
    if x.coef > 0 {
      HeldOrRefusedUnique(x.neg, Mag(x), res, Ok(x));
    }
  }

  /** Spellings are one to one. */
  lemma CanonInjective(x: Money, y: Money)
    requires Canon(x) == Canon(y)
    ensures x == y
  {
    ParseCanon(x);
    ParseCanon(y);
  }

  // --- the loops -------------------------------------------------------------------------------------------

  /** `try_parse`: one index walking the text, one list of digits, an accumulator for the exponent. */
  method TryParseLoop(text: string) returns (res: DecResult<Money>)
    ensures res == TryParse(text)
  {
    var cleaned := Cleaned(text);
    var neg, chars := false, cleaned;
    if cleaned != [] && (cleaned[0] == '-' || cleaned[0] == '+') {
      neg, chars := cleaned[0] == '-', cleaned[1..];
    }
    res := ParseUnsignedLoop(neg, chars);
    ghost var sign := if chars == cleaned then [] else [cleaned[0]];
    assert Read(cleaned) == ReadUnsigned(sign, chars);
    if ReadUnsigned(sign, chars).Ok? {
      ReadUnsignedSound(sign, chars);
    }
    ReadSignless(sign, chars);
  }

  /** The sign only labels what is read. */
  lemma ReadSignless(sign: string, s: string)
    ensures ReadUnsigned(sign, s) ==
      match ReadUnsigned("", s) case Err(e) => Err(e) case Ok(l) => Ok(l.(sign := sign))
  {
  }

  /** The reader in the scanner's terms: where the whole digits end, where the fraction starts and ends. */
  lemma ScannedLiteral(s: string, i: nat, f: nat, j: nat)
    requires i == RunEnd(s, 0) && f == (if i < |s| && s[i] == '.' then i + 1 else i)
    requires j == if i < |s| && s[i] == '.' then RunEnd(s, f) else f
    ensures ReadUnsigned("", s).Err? <==> (i == 0 && j == f) || ReadExp(s, j).Err?
    ensures ReadUnsigned("", s).Err? ==> ReadUnsigned("", s) == Err(InvalidOperation)
    ensures ReadUnsigned("", s).Ok? ==>
      var l := ReadUnsigned("", s).value; l.whole == s[..i] && l.frac == s[f..j] && ReadExp(s, j) == Ok(l.exp)
  {
  }

  method ParseUnsignedLoop(neg: bool, chars: string) returns (res: DecResult<Money>)
    ensures res == ParseUnsigned(neg, chars)
  {
    var i, all := ScanDigits(chars, 0);
    var intLen, fracLen := |all|, 0;
    ghost var f := i;
    var end := i;
    if i < |chars| && chars[i] == '.' {
      var frac;
      f := i + 1;
      end, frac := ScanDigits(chars, i + 1);
      all, fracLen := all + frac, |frac|;
    }
    ScannedLiteral(chars, i, f, end);
    assert all == chars[..i] + chars[f..end];
    if intLen == 0 && fracLen == 0 {
      return Err(InvalidOperation);
    }
    var exp := ScanExponent(chars, end);
    if exp.Err? {
      return Err(InvalidOperation);
    }
    ReadUnsignedSound("", chars);
    res := FromDigitsLoop(neg, all, exp.value, fracLen);
  }

  /** The digits from `start` on, pushed one by one. */
  method ScanDigits(chars: string, start: nat) returns (i: nat, all: string)
    requires start <= |chars|
    ensures i == RunEnd(chars, start) && all == chars[start..i]
  {
    i, all := start, [];
    while i < |chars| && IsDigit(chars[i])
      invariant start <= i <= |chars| && all == chars[start..i]
      invariant RunEnd(chars, start) == RunEnd(chars, i)
    {
      all := all + [chars[i]];
      i := i + 1;
    }
  }

  /** The optional exponent that must end the text. */
  method ScanExponent(chars: string, start: nat) returns (r: DecResult<int>)
    requires start <= |chars|
    ensures ReadExp(chars, start).Err? ==> r == Err(InvalidOperation)
    ensures ReadExp(chars, start).Ok? ==>
      WellFormedExp(ReadExp(chars, start).value) && r == Ok(SatExp(ReadExp(chars, start).value))
  {
    if ReadExp(chars, start).Ok? {
      ReadExpSound(chars, start);
    }
    var i := start;
    if i == |chars| {
      return Ok(0);
    }
    if !(chars[i] == 'e' || chars[i] == 'E') {
      return Err(InvalidOperation);
    }
    i := i + 1;
    var eneg := false;
    if i < |chars| && (chars[i] == '-' || chars[i] == '+') {
      eneg := chars[i] == '-';
      i := i + 1;
    }
    var end, mag := ScanMagnitude(chars, i);
    if end == i || end != |chars| {
      return Err(InvalidOperation);
    }
    if eneg {
      r := Ok(-(mag as int));
    } else {
      r := Ok(mag);
    }
  }

  /** One digit more of a run. */
  lemma SatPush(chars: string, first: nat, i: nat)
    requires first <= i < |chars| && AllDigits(chars[first..i]) && IsDigit(chars[i])
    ensures AllDigits(chars[first..i + 1]) && RunEnd(chars, i) == RunEnd(chars, i + 1)
    ensures SatVal(chars[first..i + 1])
      == var n := SatVal(chars[first..i]) * 10 + DigitVal(chars[i]); if n <= SATURATION then n else SATURATION
  {
    var t := chars[first..i + 1];
    assert t == chars[first..i] + [chars[i]];
    assert t[..|t| - 1] == chars[first..i] && t[|t| - 1] == chars[i];
  }

  /** The exponent's digits, accumulated with saturation. */
  method ScanMagnitude(chars: string, first: nat) returns (i: nat, mag: nat)
    requires first <= |chars|
    ensures i == RunEnd(chars, first) && mag == SatVal(chars[first..i])
  {
    i, mag := first, 0;
    while i < |chars| && IsDigit(chars[i])
      invariant first <= i <= |chars| && AllDigits(chars[first..i]) && mag == SatVal(chars[first..i])
      invariant RunEnd(chars, first) == RunEnd(chars, i)
    {
      SatPush(chars, first, i);
      mag := mag * 10 + DigitVal(chars[i]);
      if mag > SATURATION {
        mag := SATURATION;
      }
      i := i + 1;
    }
  }

  /** How many zeros the digits start with. */
  method SkipZeros(all: string) returns (first: nat)
    ensures first <= |all| && TrimLeading(all) == all[first..]
  {
    first := 0;
    while first < |all| && all[first] == '0'
      invariant 0 <= first <= |all| && TrimLeading(all[first..]) == TrimLeading(all)
    {
      assert all[first..][1..] == all[first + 1..];
      first := first + 1;
    }
  }

  /** Each trailing zero dropped raises the exponent. */
  method DropZeros(digits: string, total: int) returns (sig: string, e: int)
    ensures (sig, e) == TrimTrailing(digits, total)
  {
    sig, e := digits, total;
    while sig != [] && sig[|sig| - 1] == '0'
      invariant TrimTrailing(sig, e) == TrimTrailing(digits, total)
    {
      sig, e := sig[..|sig| - 1], e + 1;
    }
  }

  /** The coefficient, digit by digit. */
  method Accumulate(sig: string) returns (coef: nat)
    requires AllDigits(sig)
    ensures coef == NumVal(sig)
  {
    coef := 0;
    var k := 0;
    while k < |sig|
      invariant 0 <= k <= |sig| && coef == NumVal(sig[..k])
    {
      assert sig[..k + 1][..k] == sig[..k];
      coef := coef * 10 + DigitVal(sig[k]);
      k := k + 1;
    }
    assert sig[..k] == sig;
  }

  /** The tail of `try_parse`: strip leading then trailing zeros, accumulate the coefficient. */
  method FromDigitsLoop(neg: bool, all: string, exp: int, fracLen: nat) returns (res: DecResult<Money>)
    requires AllDigits(all)
    ensures res == FromDigits(neg, all, exp, fracLen)
  {
    var total := exp - fracLen;
    if Magnitude(total) > MAX_LITERAL_EXP || Magnitude(exp) > MAX_LITERAL_EXP {
      return Err(InvalidOperation);
    }
    var first := SkipZeros(all);
    if first == |all| {
      return Ok(ZERO);
    }
    var sig, e := DropZeros(all[first..], total);
    if |sig| > 29 || e > 38 || e < -57 {
      return Err(Overflow);
    }
    var coef := Accumulate(sig);
    res := Build(neg, coef, e);
  }
}
