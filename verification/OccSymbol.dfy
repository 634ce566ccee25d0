/**
 * The OCC option symbol: a root padded to six, the expiry as YYMMDD, C or P, and the strike in
 * thousandths as eight digits; and the parser that reads one back, searching on the root's length.
 */
module OccSymbol {
  import opened PowersOfTen
  import opened DigitText
  import opened Strikes
  import opened Options
  import opened Results

  datatype Right = CallRight | PutRight
  datatype Contract = Contract(underlying: string, year: int, month: nat, day: nat, right: Right, strike: Strike)
  datatype ParsedOcc = ParsedOcc(root: string, year: int, month: nat, day: nat, right: Right, strikeText: string)

  // --- printing ---------------------------------------------------------------------------------

  /** At least `width` digits. */
  function Padded(n: nat, width: nat): (s: string)
    ensures AllDigits(s) && |s| >= width
  {
    var t := ToText(n);
    Repeat('0', if |t| < width then width - |t| else 0) + t
  }

  function Code(right: Right): char
  {
    if right.CallRight? then 'C' else 'P'
  }

  function Symbol(root: string, year: int, month: nat, day: nat, right: Right, millis: nat): string
  {
    root + Repeat(' ', if |root| < 6 then 6 - |root| else 0)
    + (Padded(year % 100, 2) + Padded(month, 2) + Padded(day, 2)) + [Code(right)] + Padded(millis, 8)
  }

  function Occ(c: Contract): Result<string>
    requires AllDigits(c.strike.digits)
  {
    var millis := StrikeMillis(c.strike);
    if millis.Err? then Err else Ok(Symbol(c.underlying, c.year, c.month, c.day, c.right, millis.value))
  }

  // --- matching ------------------------------------------------------------------------------------

  predicate Alphanumeric(c: char)
  {
    'a' <= c <= 'z' || 'A' <= c <= 'Z' || '0' <= c <= '9'
  }

  predicate IsCode(c: char)
  {
    c == 'C' || c == 'P' || c == 'c' || c == 'p'
  }

  /** Six digits, a right and eight digits, from `i` to the end. */
  predicate TailAt(s: string, i: nat)
  {
    && |s| == i + 15 && AllDigits(s[i..i + 6]) && IsCode(s[i + 6]) && AllDigits(s[i + 7..])
  }

  /** How many of the first six characters a root could take. */
  function RootRun(s: string): (n: nat)
    ensures n <= 6 && n <= |s| && forall i :: 0 <= i < n ==> Alphanumeric(s[i])
    ensures n < 6 && n < |s| ==> !Alphanumeric(s[n])
  {
    RunFrom(s, 0)
  }

  function RunFrom(s: string, i: nat): (n: nat)
    requires i <= 6 && i <= |s|
    ensures i <= n <= 6 && n <= |s| && forall j :: i <= j < n ==> Alphanumeric(s[j])
    ensures n < 6 && n < |s| ==> !Alphanumeric(s[n])
    decreases 6 - i
  {
    if i < 6 && i < |s| && Alphanumeric(s[i]) then RunFrom(s, i + 1) else i
  }

  function SkipSpaces(s: string, i: nat): (n: nat)
    requires i <= |s|
    ensures i <= n <= |s| && forall j :: i <= j < n ==> IsSpace(s[j])
    ensures n < |s| ==> !IsSpace(s[n])
    decreases |s| - i
  {
    if i < |s| && IsSpace(s[i]) then SkipSpaces(s, i + 1) else i
  }

  /** The search, from root length `r` down. */
  function MatchFrom(s: string, r: nat): (m: Option<(nat, nat)>)
    requires r <= |s|
  {
    if r == 0 then None
    else if TailAt(s, SkipSpaces(s, r)) then Some((r, SkipSpaces(s, r)))
    else MatchFrom(s, r - 1)
  }

  function MatchOcc(s: string): (m: Option<(nat, nat)>)
  {
    MatchFrom(s, RootRun(s))
  }

  /** A reading of the text: root of length `r`, blanks up to `i`, then the fixed part. */
  ghost predicate Reads(s: string, r: nat, i: nat)
  {
    && 1 <= r <= 6 && r <= i <= |s|
    && (forall j :: 0 <= j < r ==> Alphanumeric(s[j])) && (forall j :: r <= j < i ==> IsSpace(s[j]))
    && TailAt(s, i)
  }

  lemma ReadsSkips(s: string, r: nat, i: nat)
    requires Reads(s, r, i)
    ensures r <= RootRun(s) && i == SkipSpaces(s, r)
  {
    assert s[i] == s[i..i + 6][0];
  }

  lemma {:induction false} MatchFromIs(s: string, r: nat)
    requires r <= RootRun(s)
    ensures MatchFrom(s, r).Some? ==> MatchFrom(s, r).value.0 <= r && Reads(s, MatchFrom(s, r).value.0, MatchFrom(s, r).value.1)
    ensures forall q: nat, i: nat :: q <= r && Reads(s, q, i) ==> MatchFrom(s, r).Some? && q <= MatchFrom(s, r).value.0
  {
    if r > 0 {
      MatchFromIs(s, r - 1);
      forall q: nat, i: nat | q <= r && Reads(s, q, i)
        ensures MatchFrom(s, r).Some? && q <= MatchFrom(s, r).value.0
      {
        ReadsSkips(s, q, i);
      }
    }
  }

  /** The search finds the reading with the longest root, and finds one whenever there is one. */
  lemma MatchIsLongest(s: string)
    ensures MatchOcc(s).Some? ==> Reads(s, MatchOcc(s).value.0, MatchOcc(s).value.1)
    ensures forall r: nat, i: nat :: Reads(s, r, i) ==> MatchOcc(s).Some? && r <= MatchOcc(s).value.0
  {
    MatchFromIs(s, RootRun(s));
    forall r: nat, i: nat | Reads(s, r, i)
      ensures MatchOcc(s).Some? && r <= MatchOcc(s).value.0
    {
      ReadsSkips(s, r, i);
    }
  }

  /** The nested loops of the search. */
  method MatchOccLoop(s: string) returns (m: Option<(nat, nat)>)
    ensures m == MatchOcc(s)
  {
    var most := 0;
    while most < 6 && most < |s| && Alphanumeric(s[most])
      invariant 0 <= most <= 6 && most <= |s| && RunFrom(s, 0) == RunFrom(s, most)
      decreases 6 - most
    {
      most := most + 1;
    }
    var r := most;
    while r > 0
      invariant 0 <= r <= most && MatchFrom(s, most) == MatchFrom(s, r)
    {
      var i := r;
      while i < |s| && IsSpace(s[i])
        invariant r <= i <= |s| && SkipSpaces(s, r) == SkipSpaces(s, i)
        decreases |s| - i
      {
        i := i + 1;
      }
      if |s| == i + 15 {
        if AllDigits(s[i..i + 6]) && IsCode(s[i + 6]) && AllDigits(s[i + 7..]) {
          return Some((r, i));
        }
      }
      r := r - 1;
    }
    m := None;
  }

  // --- dates -----------------------------------------------------------------------------------------------

  function DaysInMonth(year: int, month: nat): nat
  {
    if month == 4 || month == 6 || month == 9 || month == 11 then 30
    else if month == 2 then if year % 4 == 0 && (year % 100 != 0 || year % 400 == 0) then 29 else 28
    else 31
  }

  predicate Within(c: char, lo: char, hi: char)
  {
    lo <= c <= hi
  }

  /** The first alternative for a day that matches at `p`: its length and value. */
  function DayAt(e: string, p: nat): (r: Option<(nat, nat)>)
    requires AllDigits(e) && |e| == 6 && p < 6
  {
    var c0 := e[p];
    var two := p + 1 < 6;
    if two && c0 == '3' && Within(e[p + 1], '0', '1') then Some((2, 30 + DigitVal(e[p + 1])))
    else if two && Within(c0, '1', '2') then Some((2, 10 * DigitVal(c0) + DigitVal(e[p + 1])))
    else if two && c0 == '0' && Within(e[p + 1], '1', '9') then Some((2, DigitVal(e[p + 1])))
    else if Within(c0, '1', '9') then Some((1, DigitVal(c0)))
    else None
  }

  /** The month's alternatives in order, as far as a day follows: length of the month, month, end, day. */
  function DateAt(e: string): (r: Option<(nat, nat, nat)>)
    requires AllDigits(e) && |e| == 6
  {
    var day2, day1 := DayAt(e, 4), DayAt(e, 3);
    if e[2] == '1' && Within(e[3], '0', '2') && day2.Some? then Some((10 + DigitVal(e[3]), day2.value.1, 4 + day2.value.0))
    else if e[2] == '0' && Within(e[3], '1', '9') && day2.Some? then Some((DigitVal(e[3]), day2.value.1, 4 + day2.value.0))
    else if Within(e[2], '1', '9') && day1.Some? then Some((DigitVal(e[2]), day1.value.1, 3 + day1.value.0))
    else None
  }

  /** Years 00 to 68 are this century's, 69 to 99 the last one's. */
  function Pivot(y: nat): int
  {
    if y <= 68 then 2000 + y else 1900 + y
  }

  function Strptime(e: string): (r: Result<(int, nat, nat)>)
    requires AllDigits(e) && |e| == 6
  {
    var year := Pivot(10 * DigitVal(e[0]) + DigitVal(e[1]));
    var found := DateAt(e);
    if found.None? || found.value.2 != 6 || found.value.1 > DaysInMonth(year, found.value.0) then Err
    else Ok((year, found.value.0, found.value.1))
  }

  /** A date that exists. */
  predicate RealDate(year: int, month: int, day: int)
  {
    1 <= month <= 12 && 1 <= day <= DaysInMonth(year, month)
  }

  /** Two digits of `e`, as a number. */
  function Pair(e: string, i: nat): nat
    requires AllDigits(e) && i + 1 < |e|
  {
    10 * DigitVal(e[i]) + DigitVal(e[i + 1])
  }

  /** For all its alternatives, the date pattern reads three two-digit fields and wants a real date of them. */
  lemma StrptimeIs(e: string)
    requires AllDigits(e) && |e| == 6
    ensures Strptime(e)
      == var (y, m, d) := (Pivot(Pair(e, 0)), Pair(e, 2), Pair(e, 4));
         if RealDate(y, m, d) then Ok((y, m, d)) else Err
  {
  }

  // --- parsing -------------------------------------------------------------------------------------------

  function Upper(s: string): (t: string)
    ensures |t| == |s|
    ensures forall i :: 0 <= i < |s| ==> t[i] == UpperChar(s[i])
  {
    seq(|s|, i requires 0 <= i < |s| => UpperChar(s[i]))
  }

  function UpperChar(c: char): char
  {
    if 'a' <= c <= 'z' then (c as int - 32) as char else c
  }

  /** Without trailing zeros. */
  function TrimEnd(s: string): (t: string)
    ensures AllDigits(s) ==> AllDigits(t)
  {
    if s != [] && s[|s| - 1] == '0' then TrimEnd(s[..|s| - 1]) else s
  }

  /** `n` thousandths, with only the decimals they need. */
  function StrikeText(n: nat): string
  {
    if n % 1000 == 0 then ToText(n / 1000)
    else ToText(n / 1000) + "." + TrimEnd(Padded(n % 1000, 3))
  }

  /** `parse_occ`. */
  function ParseOcc(text: string): (r: Result<ParsedOcc>)
  {
    var s := Strip(text);
    var m := MatchOcc(s);
    if text == [] || m.None? then Err
    else
      MatchIsLongest(s);
      var (r, i) := m.value;
      var date := Strptime(s[i..i + 6]);
      var millis := NumVal(s[i + 7..]);
      if date.Err? || millis == 0 then Err
      else
        var (year, month, day) := date.value;
        Ok(ParsedOcc(Upper(s[..r]), year, month, day, if s[i + 6] == 'C' || s[i + 6] == 'c' then CallRight else PutRight,
                     StrikeText(millis)))
  }

  // --- the round trip -------------------------------------------------------------------------------------

  predicate ValidRoot(root: string)
  {
    1 <= |root| <= 6 && forall i :: 0 <= i < |root| ==> 'A' <= root[i] <= 'Z' || '0' <= root[i] <= '9'
  }

  predicate Printable(root: string, year: int, month: nat, day: nat, millis: nat)
  {
    ValidRoot(root) && 1969 <= year <= 2068 && RealDate(year, month, day) && 0 < millis <= MAX_MILLIS
  }

  /** A padded number of no more than `width` digits has exactly that many and the same value. */
  lemma PaddedIs(n: nat, width: nat)
    requires width > 0 && n < Pow10(width)
    ensures |Padded(n, width)| == width && NumVal(Padded(n, width)) == n
  {
    ShortText(n, width);
    ZerosBefore(width - |ToText(n)|, ToText(n));
  }

  lemma ZerosBefore(k: nat, t: string)
    requires AllDigits(t)
    ensures AllDigits(Repeat('0', k) + t) && NumVal(Repeat('0', k) + t) == NumVal(t)
  {
    ZerosVal(k);
    NumValSplit(Repeat('0', k), t);
  }

  lemma TwoDigits(n: nat)
    requires n < 100
    ensures |Padded(n, 2)| == 2 && Pair(Padded(n, 2), 0) == n
  {
    Pow10Values();
    PaddedIs(n, 2);
    var s := Padded(n, 2);
    assert s[..1][..0] == [] && s == s[..1] + [s[1]];
    assert NumVal(s[..1]) == DigitVal(s[0]);
  }

  /** The printed date part. */
  function DatePart(year: int, month: nat, day: nat): string
  {
    Padded(year % 100, 2) + Padded(month, 2) + Padded(day, 2)
  }

  lemma PairsOf(a: string, b: string, c: string)
    requires AllDigits(a) && AllDigits(b) && AllDigits(c) && |a| == |b| == |c| == 2
    ensures AllDigits(a + b + c) && |a + b + c| == 6
    ensures Pair(a + b + c, 0) == Pair(a, 0) && Pair(a + b + c, 2) == Pair(b, 0) && Pair(a + b + c, 4) == Pair(c, 0)
  {
  }

  lemma DateReads(year: int, month: nat, day: nat)
    requires 1969 <= year <= 2068 && RealDate(year, month, day)
    ensures |DatePart(year, month, day)| == 6 && AllDigits(DatePart(year, month, day))
    ensures Strptime(DatePart(year, month, day)) == Ok((year, month, day))
  {
    TwoDigits(year % 100);
    TwoDigits(month);
    TwoDigits(day);
    PairsOf(Padded(year % 100, 2), Padded(month, 2), Padded(day, 2));
    StrptimeIs(DatePart(year, month, day));
  }

  /** The pieces of a printed symbol. */
  lemma SymbolPieces(root: string, year: int, month: nat, day: nat, right: Right, millis: nat)
    requires Printable(root, year, month, day, millis)
    ensures var s := Symbol(root, year, month, day, right, millis);
      && |s| == 21 && s[..|root|] == root && (forall j :: |root| <= j < 6 ==> s[j] == ' ')
      && s[6..12] == DatePart(year, month, day) && s[12] == Code(right) && s[13..] == Padded(millis, 8)
  {
    assert |DatePart(year, month, day)| == 6 by {
      DateReads(year, month, day);
    }
    assert |Padded(millis, 8)| == 8 by {
      Pow10Values();
      PaddedIs(millis, 8);
    }
    Pieces(root, Repeat(' ', 6 - |root|), DatePart(year, month, day), Code(right), Padded(millis, 8));
  }

  lemma Pieces(root: string, blanks: string, date: string, code: char, strike: string)
    requires |root| + |blanks| == 6 == |date| && |strike| == 8
    ensures var s := root + blanks + date + [code] + strike;
      && |s| == 21 && s[..|root|] == root && (forall j :: |root| <= j < 6 ==> s[j] == blanks[j - |root|])
      && s[6..12] == date && s[12] == code && s[13..] == strike
  {
  }

  lemma SymbolMatches(s: string, n: nat)
    requires |s| == 21 && 1 <= n <= 6 && TailAt(s, 6)
    requires (forall j :: 0 <= j < n ==> Alphanumeric(s[j])) && (forall j :: n <= j < 6 ==> s[j] == ' ')
    ensures MatchOcc(s) == Some((n, 6)) && Strip(s) == s
  {
    assert Reads(s, n, 6);
    ReadsSkips(s, n, 6);
    assert s[20] == s[13..][7];
  }

  lemma ParsePieces(s: string, n: nat)
    requires MatchOcc(s) == Some((n, 6)) && Strip(s) == s && |s| == 21 && n <= 6 && TailAt(s, 6)
    requires Strptime(s[6..12]).Ok? && NumVal(s[13..]) > 0
    ensures var (y, m, d) := Strptime(s[6..12]).value;
      ParseOcc(s) == Ok(ParsedOcc(Upper(s[..n]), y, m, d, if s[12] == 'C' || s[12] == 'c' then CallRight else PutRight,
                                  StrikeText(NumVal(s[13..]))))
  {
  }

  lemma UpperRoot(root: string)
    requires ValidRoot(root)
    ensures Upper(root) == root && forall i :: 0 <= i < |root| ==> Alphanumeric(root[i])
  {
  }

  /** Parsing a printed symbol gives back everything that was printed. */
  lemma ParseSymbol(root: string, year: int, month: nat, day: nat, right: Right, millis: nat)
    requires Printable(root, year, month, day, millis)
    ensures ParseOcc(Symbol(root, year, month, day, right, millis))
      == Ok(ParsedOcc(root, year, month, day, right, StrikeText(millis)))
  {
    var s := Symbol(root, year, month, day, right, millis);
    SymbolPieces(root, year, month, day, right, millis);
    DateReads(year, month, day);
    Pow10Values();
    PaddedIs(millis, 8);
    UpperRoot(root);
    assert forall j :: 0 <= j < |root| ==> s[j] == s[..|root|][j];
    SymbolMatches(s, |root|);
    ParsePieces(s, |root|);
  }

  // --- the strike's own round trip ----------------------------------------------------------------------

  function PointAt(text: string): (p: nat)
    ensures p <= |text| && (p < |text| ==> text[p] == '.') && forall i :: 0 <= i < p ==> text[i] != '.'
  {
    if text == [] || text[0] == '.' then 0 else 1 + PointAt(text[1..])
  }

  /** The decimal a plain text spells: its digits, and an exponent that counts those after the point. */
  function WireOf(text: string): Strike
  {
    var p := PointAt(text);
    if p == |text| then Strike(false, text, 0, true)
    else Strike(false, text[..p] + text[p + 1..], p + 1 - |text|, true)
  }

  lemma WireParts(whole: string, frac: string)
    requires AllDigits(whole)
    ensures WireOf(whole) == Strike(false, whole, 0, true)
    ensures WireOf(whole + "." + frac) == Strike(false, whole + frac, 0 - |frac|, true)
  {
    var text := whole + "." + frac;
    assert text[|whole|] == '.';
    assert forall i :: 0 <= i < |whole| ==> text[i] == whole[i];
    assert PointAt(text) == |whole|;
    assert text[..|whole|] == whole && text[|whole| + 1..] == frac;
  }

  lemma {:induction false} TrimEndValue(s: string)
    requires AllDigits(s)
    ensures |TrimEnd(s)| <= |s| && NumVal(s) == NumVal(TrimEnd(s)) * Pow10(|s| - |TrimEnd(s)|)
  {
    if s != [] && s[|s| - 1] == '0' {
      TrimEndValue(s[..|s| - 1]);
      Regroup(NumVal(TrimEnd(s)), Pow10(|s| - 1 - |TrimEnd(s)|));
    }
  }

  lemma CoefficientValue(s: Strike)
    requires AllDigits(s.digits)
    ensures NumVal(Coefficient(s)) == NumVal(s.digits) && |Coefficient(s)| <= |s.digits| + 1
  {
    TrimLeadingValue(s.digits);
    if TrimLeading(s.digits) == [] {
      assert "0"[..0] == [];
    }
  }

  lemma ShortText(n: nat, k: nat)
    requires 0 < k && n < Pow10(k)
    ensures |ToText(n)| <= k
  {
    NumValBound(ToText(n));
    if |ToText(n)| > k {
      Pow10Mono(k, |ToText(n)| - 1);
    }
  }

  lemma Assemble(x: nat, f: nat, w: nat, v: nat, j: nat, p: nat)
    requires j * p == 1000 && v * p == f && x == w * j + v
    ensures x * p == 1000 * w + f
  {
    assert x * p == w * j * p + v * p;
    assert w * j * p == w * (j * p);
  }

  lemma TrimmedFraction(f: nat, t: string)
    requires f < 1000 && t == TrimEnd(Padded(f, 3))
    ensures AllDigits(t) && |t| <= 3 && NumVal(t) * Pow10(3 - |t|) == f && Pow10(|t|) * Pow10(3 - |t|) == 1000
  {
    Pow10Values();
    PaddedIs(f, 3);
    TrimEndValue(Padded(f, 3));
    Pow10Add(|t|, 3 - |t|);
  }

  /** The digits of the printed strike, brought to thousandths, are the number printed. */
  lemma PrintedDigits(n: nat, t: string)
    requires t == TrimEnd(Padded(n % 1000, 3))
    ensures AllDigits(t) && |t| <= 3 && AllDigits(ToText(n / 1000) + t)
    ensures NumVal(ToText(n / 1000) + t) * Pow10(3 - |t|) == n
  {
    TrimmedFraction(n % 1000, t);
    NumValSplit(ToText(n / 1000), t);
    Assemble(NumVal(ToText(n / 1000) + t), n % 1000, n / 1000, NumVal(t), Pow10(|t|), Pow10(3 - |t|));
  }

  /** What the text spells is the number of thousandths it was printed from. */
  lemma StrikeTextValue(n: nat)
    requires 0 < n <= MAX_MILLIS
    ensures AllDigits(WireOf(StrikeText(n)).digits) && |Coefficient(WireOf(StrikeText(n)))| <= 28
    ensures Thousandths(WireOf(StrikeText(n)), n)
  {
    assert |ToText(n / 1000)| <= 8 by {
      Pow10Values();
      ShortText(n / 1000, 8);
    }
    if n % 1000 == 0 {
      WholeTextValue(n);
    } else {
      PointedTextValue(n, ToText(n / 1000), TrimEnd(Padded(n % 1000, 3)));
    }
  }

  lemma WholeTextValue(n: nat)
    requires 0 < n <= MAX_MILLIS && n % 1000 == 0 && |ToText(n / 1000)| <= 8
    ensures var s := WireOf(ToText(n / 1000)); AllDigits(s.digits) && |Coefficient(s)| <= 28 && Thousandths(s, n)
  {
    var w := ToText(n / 1000);
    WireParts(w, "");
    CoefficientValue(WireOf(w));
    Thousandfold(n / 1000, -3);
  }

  lemma PointedTextValue(n: nat, w: string, t: string)
    requires 0 < n <= MAX_MILLIS && w == ToText(n / 1000) && t == TrimEnd(Padded(n % 1000, 3)) && |w| <= 8
    ensures var s := WireOf(w + "." + t); AllDigits(s.digits) && |Coefficient(s)| <= 28 && Thousandths(s, n)
  {
    WireParts(w, t);
    assert AllDigits(w + t) && |t| <= 3 && V(NumVal(w + t), 0 - |t|) == V(n, -3) by {
      PrintedDigits(n, t);
      VRescale(NumVal(w + t), 0 - |t|, -3);
    }
    CoefficientValue(Strike(false, w + t, 0 - |t|, true));
  }

  lemma SameThousandths(s: Strike, m: nat, n: nat)
    requires AllDigits(s.digits) && Thousandths(s, m) && Thousandths(s, n)
    ensures m == n
  {
    VOrder(m, n, -3);
  }

  /** Reading the printed strike gives its thousandths back. */
  lemma StrikeTextReads(n: nat)
    requires 0 < n <= MAX_MILLIS
    ensures AllDigits(WireOf(StrikeText(n)).digits) && ValidateStrike(WireOf(StrikeText(n))).Ok?
    ensures StrikeMillis(WireOf(StrikeText(n))) == Ok(n)
  {
    StrikeTextValue(n);
    ThousandthsAccepted(WireOf(StrikeText(n)), n);
  }

  // --- what printing and parsing promise each other ----------------------------------------------------------

  /** A contract with a strike the check accepts, in the years two digits can hold. */
  predicate GoodContract(c: Contract)
  {
    && AllDigits(c.strike.digits) && ValidateStrike(c.strike).Ok?
    && ValidRoot(c.underlying) && 1969 <= c.year <= 2068 && RealDate(c.year, c.month, c.day)
  }

  /**
   * The parser undoes the printer: same root, date and right, and the thousandths that were printed; which
   * are the strike itself whenever it is a whole number of thousandths, however many digits spell it.
   */
  lemma OccRoundTrip(c: Contract)
    requires GoodContract(c)
    ensures Occ(c).Ok? && ParseOcc(Occ(c).value).Ok?
    ensures var p := ParseOcc(Occ(c).value).value;
      && (p.root, p.year, p.month, p.day, p.right) == (c.underlying, c.year, c.month, c.day, c.right)
      && StrikeMillis(c.strike).Ok?
      && AllDigits(WireOf(p.strikeText).digits) && Thousandths(WireOf(p.strikeText), StrikeMillis(c.strike).value)
      && (forall m: nat :: Thousandths(c.strike, m) ==> m == StrikeMillis(c.strike).value)
  {
    ValidateIff(c.strike);
    var n := StrikeMillis(c.strike).value;
    ParseSymbol(c.underlying, c.year, c.month, c.day, c.right, n);
    StrikeTextValue(n);
    forall m: nat | Thousandths(c.strike, m)
      ensures m == n
    {
      ThousandthsAccepted(c.strike, m);
    }
  }

  /** So two contracts whose strikes are whole thousandths share a symbol only when they are the same contract. */
  lemma OccInjective(c: Contract, d: Contract, m: nat, n: nat)
    requires GoodContract(c) && GoodContract(d) && Occ(c) == Occ(d)
    requires Thousandths(c.strike, m) && Thousandths(d.strike, n)
    ensures (c.underlying, c.year, c.month, c.day, c.right) == (d.underlying, d.year, d.month, d.day, d.right)
    ensures V(NumVal(Coefficient(c.strike)), c.strike.exp) == V(NumVal(Coefficient(d.strike)), d.strike.exp)
  {
    OccRoundTrip(c);
    OccRoundTrip(d);
    SameThousandths(WireOf(ParseOcc(Occ(c).value).value.strikeText), m, n);
  }

  /** Whatever text parses, its pieces are printable, and the symbol they print parses to them again. */
  lemma ParseNormalizes(text: string) returns (millis: nat)
    requires ParseOcc(text).Ok?
    ensures var p := ParseOcc(text).value;
      && Printable(p.root, p.year, p.month, p.day, millis) && p.strikeText == StrikeText(millis)
      && ParseOcc(Symbol(p.root, p.year, p.month, p.day, p.right, millis)) == Ok(p)
  {
    var p := ParseOcc(text).value;
    millis := ParsedPrintable(text);
    ParseSymbol(p.root, p.year, p.month, p.day, p.right, millis);
  }

  lemma ParsedPrintable(text: string) returns (millis: nat)
    requires ParseOcc(text).Ok?
    ensures var p := ParseOcc(text).value;
      Printable(p.root, p.year, p.month, p.day, millis) && p.strikeText == StrikeText(millis)
  {
    var s := Strip(text);
    MatchIsLongest(s);
    var (r, i) := MatchOcc(s).value;
    millis := NumVal(s[i + 7..]);
    assert millis <= MAX_MILLIS by {
      NumValBound(s[i + 7..]);
      Pow10Values();
    }
    StrptimeIs(s[i..i + 6]);
  }
}
