/**
 * Option strikes as decimal strings: half-even rounding of digit strings with a carry, the product with
 * 1000 under a 28-digit decimal context, and the check that a strike is a whole number of thousandths
 * within the eight digits a symbol has for it.
 */
module StrikeDigits {
  import opened PowersOfTen
  import opened Rounding
  import opened DigitText

  // --- rounding digit strings ---------------------------------------------------------------

  /** Adding one, digit by digit from the right. */
  function Increment(s: string): (r: string)
    requires AllDigits(s)
    ensures AllDigits(r) && r != [] && NumVal(r) == NumVal(s) + 1
  {
    if s == [] then
      assert "1"[..0] == [];
      "1"
    else
      var front, c := s[..|s| - 1], s[|s| - 1];
      if c == '9' then
        NumValPush(Increment(front), '0');
        Increment(front) + "0"
      else
        NumValPush(front, DigitChar(DigitVal(c) + 1));
        front + [DigitChar(DigitVal(c) + 1)]
  }

  /** No leading zero appears, and a carry out of the top leaves a zero at the bottom. */
  lemma {:induction false} IncrementShape(s: string)
    requires AllDigits(s)
    ensures s == [] || s[0] != '0' ==> Increment(s)[0] != '0'
    ensures |s| <= |Increment(s)| <= |s| + 1
    ensures |Increment(s)| > |s| > 0 ==> Increment(s)[|s|] == '0'
  {
    if s != [] {
      IncrementShape(s[..|s| - 1]);
    }
  }

  predicate AllZeros(s: string)
  {
    forall i :: 0 <= i < |s| ==> s[i] == '0'
  }

  /** Whether the dropped digits push the kept ones up: past a half, or at a half with an odd last digit. */
  predicate RoundsUp(kept: string, rest: string)
    requires AllDigits(kept) && rest != []
  {
    || rest[0] > '5'
    || (rest[0] == '5' && (!AllZeros(rest[1..]) || (kept != [] && DigitVal(kept[|kept| - 1]) % 2 == 1)))
  }

  /** `round_half_even`. */
  function RoundDigits(digits: string, drop: nat): (r: string)
    requires AllDigits(digits)
    ensures AllDigits(r)
  {
    if drop == 0 then digits
    else if drop > |digits| then "0"
    else
      var kept, rest := digits[..|digits| - drop], digits[|digits| - drop..];
      if RoundsUp(kept, rest) then Increment(kept) else if kept == [] then "0" else kept
  }

  lemma {:induction false} ZeroIff(s: string)
    requires AllDigits(s)
    ensures NumVal(s) == 0 <==> AllZeros(s)
  {
    if s != [] {
      ZeroIff(s[..|s| - 1]);
      assert s == s[..|s| - 1] + [s[|s| - 1]];
    }
  }

  lemma HeadVal(rest: string)
    requires AllDigits(rest) && rest != []
    ensures NumVal(rest) == DigitVal(rest[0]) * Pow10(|rest| - 1) + NumVal(rest[1..])
    ensures NumVal(rest[1..]) < Pow10(|rest| - 1)
  {
    assert rest == [rest[0]] + rest[1..];
    NumValSplit([rest[0]], rest[1..]);
    assert [rest[0]][..0] == [];
    assert NumVal([rest[0]]) == DigitVal(rest[0]);
    NumValBound(rest[1..]);
  }

  /** The first dropped digit decides, and on a five the others do. */
  lemma DroppedHalf(d: nat, p: nat, low: nat)
    requires d <= 9 && low < p
    ensures d > 5 ==> 2 * (d * p + low) > 10 * p
    ensures d < 5 ==> 2 * (d * p + low) < 10 * p
    ensures d == 5 ==> 2 * (d * p + low) == 10 * p + 2 * low
  {
    if d > 5 {
      assert (d - 6) * p >= 0;
    } else if d < 5 {
      assert (4 - d) * p >= 0;
    }
  }

  lemma {:induction false} KeptParity(kept: string)
    requires AllDigits(kept)
    ensures NumVal(kept) % 2 == if kept == [] then 0 else DigitVal(kept[|kept| - 1]) % 2
  {
    if kept != [] {
      LastDigitParity(NumVal(kept[..|kept| - 1]), DigitVal(kept[|kept| - 1]));
    }
  }

  lemma LastDigitParity(n: nat, d: nat)
    ensures (10 * n + d) % 2 == d % 2
  {
  }

  lemma UpPicks(kept: string, rest: string)
    requires AllDigits(kept) && AllDigits(rest) && rest != []
    ensures NumVal(rest) < Pow10(|rest|)
    ensures Picks(HalfEven, Pow10(|rest|), NumVal(kept), NumVal(rest), NumVal(kept) + if RoundsUp(kept, rest) then 1 else 0)
  {
    NumValBound(rest);
    HeadVal(rest);
    DroppedHalf(DigitVal(rest[0]), Pow10(|rest| - 1), NumVal(rest[1..]));
    ZeroIff(rest[1..]);
    KeptParity(kept);
  }

  /** Rounding a digit string is rounding its number half-even, for every string and every drop count. */
  lemma RoundDigitsCorrect(digits: string, drop: nat)
    requires AllDigits(digits)
    ensures NearestQuotient(NumVal(digits), Pow10(drop), NumVal(RoundDigits(digits, drop)))
  {
    assert "0"[..0] == [];
    assert NumVal("0") == 0;
    if drop > |digits| {
      AllDropped(digits, drop);
    } else if drop > 0 {
      var kept, rest := digits[..|digits| - drop], digits[|digits| - drop..];
      assert digits == kept + rest;
      SomeDropped(kept, rest, NumVal(digits), Pow10(drop), NumVal(RoundDigits(digits, drop)));
    }
  }

  lemma AllDropped(digits: string, drop: nat)
    requires AllDigits(digits) && drop > |digits|
    ensures NearestQuotient(NumVal(digits), Pow10(drop), 0)
  {
    NumValBound(digits);
    Pow10Mono(|digits|, drop);
    PickRounds(HalfEven, NumVal(digits), Pow10(drop), 0, NumVal(digits), 0);
  }

  lemma SomeDropped(kept: string, rest: string, n: nat, d: nat, q: nat)
    requires AllDigits(kept) && AllDigits(rest) && rest != []
    requires AllDigits(kept + rest) && n == NumVal(kept + rest) && d == Pow10(|rest|)
    requires q == NumVal(kept) + if RoundsUp(kept, rest) then 1 else 0
    ensures NearestQuotient(n, d, q)
  {
    NumValSplit(kept, rest);
    UpPicks(kept, rest);
    PickRounds(HalfEven, n, d, NumVal(kept), NumVal(rest), q);
  }

  lemma CarryStep(kept: string, i: nat, tail: string)
    requires AllDigits(kept) && i < |kept|
    ensures Increment(kept[..i + 1]) + tail
      == if kept[i] == '9' then Increment(kept[..i]) + (['0'] + tail)
         else kept[..i] + ([DigitChar(DigitVal(kept[i]) + 1)] + tail)
  {
    var s := kept[..i + 1];
    assert s[..|s| - 1] == kept[..i] && s[|s| - 1] == kept[i];
    Reassociate(Increment(kept[..i]), '0', tail);
    Reassociate(kept[..i], if kept[i] == '9' then '0' else DigitChar(DigitVal(kept[i]) + 1), tail);
  }

  lemma Reassociate(a: string, c: char, tail: string)
    ensures (a + [c]) + tail == a + ([c] + tail)
  {
  }

  /** Writing digit `i` of the part still to do. */
  lemma WriteDigit(kept: string, i: nat, tail: string, c: char)
    requires i < |kept|
    ensures (kept[..i + 1] + tail)[i] == kept[i] && (kept[..i + 1] + tail)[i := c] == kept[..i] + ([c] + tail)
  {
  }

  lemma CarryNine(kept: string, i: nat, tail: string)
    requires AllDigits(kept) && i < |kept| && kept[i] == '9'
    ensures Increment(kept[..i + 1]) + tail == Increment(kept[..i]) + (['0'] + tail)
    ensures (kept[..i + 1] + tail)[i := '0'] == kept[..i] + (['0'] + tail)
  {
    CarryStep(kept, i, tail);
    WriteDigit(kept, i, tail, '0');
  }

  lemma CarryStops(kept: string, i: nat, tail: string)
    requires AllDigits(kept) && i < |kept| && kept[i] != '9'
    ensures Increment(kept[..i + 1]) + tail == (kept[..i + 1] + tail)[i := DigitChar(DigitVal(kept[i]) + 1)]
  {
    CarryStep(kept, i, tail);
    WriteDigit(kept, i, tail, DigitChar(DigitVal(kept[i]) + 1));
  }

  /** The carry loop: nines become zeros until a digit can take the one, or a new digit must. */
  method Carry(kept: string) returns (out: string)
    requires AllDigits(kept)
    ensures out == Increment(kept)
  {
    out := kept;
    var i := |kept|;
    ghost var tail := [];
    assert kept[..i] == kept;
    while i > 0
      invariant 0 <= i <= |kept| && out == kept[..i] + tail && Increment(kept) == Increment(kept[..i]) + tail
    {
      i := i - 1;
      assert out[i] == kept[i];
      if out[i] == '9' {
        CarryNine(kept, i, tail);
        out := out[i := '0'];
        tail := ['0'] + tail;
      } else {
        CarryStops(kept, i, tail);
        out := out[i := DigitChar(DigitVal(out[i]) + 1)];
        return;
      }
    }
    out := ['1'] + out;
  }

  method RoundHalfEven(digits: string, drop: nat) returns (r: string)
    requires AllDigits(digits)
    ensures r == RoundDigits(digits, drop)
  {
    if drop == 0 {
      return digits;
    }
    if drop > |digits| {
      return "0";
    }
    var kept, rest := digits[..|digits| - drop], digits[|digits| - drop..];
    var up := rest[0] > '5';
    if rest[0] == '5' {
      var low := rest[1..];
      up := (exists j :: 0 <= j < |low| && low[j] != '0') || (kept != [] && DigitVal(kept[|kept| - 1]) % 2 == 1);
    }
    r := kept;
    if up {
      r := Carry(kept);
    }
    if r == [] {
      r := "0";
    }
  }
}
