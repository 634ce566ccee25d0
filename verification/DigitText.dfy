/** Decimal digit strings, the numbers they spell, and text without its blank ends. */
module DigitText {
  import opened PowersOfTen

  predicate IsDigit(c: char)
  {
    '0' <= c <= '9'
  }

  function DigitVal(c: char): (d: nat)
    requires IsDigit(c)
    ensures d <= 9
  {
    c as int - '0' as int
  }

  function DigitChar(d: nat): (c: char)
    requires d <= 9
    ensures IsDigit(c) && DigitVal(c) == d
  {
    ('0' as int + d) as char
  }

  predicate AllDigits(s: string)
  {
    forall i :: 0 <= i < |s| ==> IsDigit(s[i])
  }

  /** The number a digit string spells, most significant digit first; 0 for the empty string. */
  function NumVal(s: string): (n: nat)
    requires AllDigits(s)
  {
    if s == [] then 0 else 10 * NumVal(s[..|s| - 1]) + DigitVal(s[|s| - 1])
  }

  lemma NumValPush(s: string, c: char)
    requires AllDigits(s) && IsDigit(c)
    ensures AllDigits(s + [c]) && NumVal(s + [c]) == 10 * NumVal(s) + DigitVal(c)
  {
    assert (s + [c])[..|s|] == s;
  }

  /** A string splits into a high part and a low part. */
  lemma {:induction false} NumValSplit(s: string, t: string)
    requires AllDigits(s) && AllDigits(t)
    ensures AllDigits(s + t) && NumVal(s + t) == NumVal(s) * Pow10(|t|) + NumVal(t)
  {
    if t == [] {
      assert s + t == s;
    } else {
      var u := t[..|t| - 1];
      NumValSplit(s, u);
      assert (s + t)[..|s + t| - 1] == s + u;
      Regroup(NumVal(s), Pow10(|u|));
    }
  }

  lemma Regroup(n: nat, p: nat)
    ensures n * (10 * p) == 10 * (n * p)
  {
  }

  lemma {:induction false} NumValBound(s: string)
    requires AllDigits(s)
    ensures NumVal(s) < Pow10(|s|)
    ensures s != [] && s[0] != '0' ==> Pow10(|s| - 1) <= NumVal(s)
  {
    if s != [] {
      NumValBound(s[..|s| - 1]);
    }
  }

  // --- spelling a number ------------------------------------------------------------------

  /** The decimal text of a natural number. */
  function ToText(n: nat): (s: string)
    ensures AllDigits(s) && NumVal(s) == n && s != []
    ensures n > 0 ==> s[0] != '0'
    ensures n == 0 ==> s == "0"
  {
    if n < 10 then
      assert [DigitChar(n)][..0] == [];
      [DigitChar(n)]
    else
      NumValPush(ToText(n / 10), DigitChar(n % 10));
      ToText(n / 10) + [DigitChar(n % 10)]
  }

  function Repeat(c: char, n: nat): (s: string)
    ensures |s| == n && forall i :: 0 <= i < n ==> s[i] == c
  {
    if n == 0 then [] else [c] + Repeat(c, n - 1)
  }

  lemma {:induction false} ZerosVal(n: nat)
    ensures AllDigits(Repeat('0', n)) && NumVal(Repeat('0', n)) == 0
  {
    if n > 0 {
      ZerosVal(n - 1);
      NumValSplit(['0'], Repeat('0', n - 1));
      assert ['0'][..0] == [];
      assert NumVal(['0']) == 0;
    }
  }

  /** The string without its leading zeros, which spells the same number. */
  function TrimLeading(s: string): (t: string)
    ensures AllDigits(s) ==> AllDigits(t)
    ensures t != [] ==> t[0] != '0'
    ensures |t| <= |s|
  {
    if s != [] && s[0] == '0' then TrimLeading(s[1..]) else s
  }

  lemma {:induction false} TrimLeadingValue(s: string)
    requires AllDigits(s)
    ensures NumVal(TrimLeading(s)) == NumVal(s)
  {
    if s != [] && s[0] == '0' {
      TrimLeadingValue(s[1..]);
      assert s == [s[0]] + s[1..];
      NumValSplit([s[0]], s[1..]);
      assert [s[0]][..0] == [];
    }
  }

  // --- digit runs ---------------------------------------------------------------------------

  /** The end of the run of digits that starts at `i`. */
  function RunEnd(s: string, i: nat): (j: nat)
    requires i <= |s|
    ensures i <= j <= |s| && AllDigits(s[i..j])
    ensures j < |s| ==> !IsDigit(s[j])
    decreases |s| - i
  {
    if i < |s| && IsDigit(s[i]) then
      var j := RunEnd(s, i + 1);
      assert s[i..j] == [s[i]] + s[i + 1..j];
      j
    else i
  }

  lemma {:induction false} RunEndIs(s: string, i: nat, j: nat)
    requires i <= j <= |s| && AllDigits(s[i..j]) && (j < |s| ==> !IsDigit(s[j]))
    ensures RunEnd(s, i) == j
    decreases j - i
  {
    if i < j {
      assert s[i..j][0] == s[i];
      assert s[i + 1..j] == s[i..j][1..];
      RunEndIs(s, i + 1, j);
    }
  }

  // --- blanks --------------------------------------------------------------------------------

  /** `str.isspace` for one character. */
  predicate IsSpace(c: char)
  {
    || '\U{9}' <= c <= '\U{d}' || '\U{1c}' <= c <= '\U{1f}' || c == ' ' || c == '\U{85}' || c == '\U{a0}'
    || c == '\U{1680}' || '\U{2000}' <= c <= '\U{200a}' || c == '\U{2028}' || c == '\U{2029}'
    || c == '\U{202f}' || c == '\U{205f}' || c == '\U{3000}'
  }

  function Strip(s: string): (t: string)
    ensures s != [] && !IsSpace(s[0]) && !IsSpace(s[|s| - 1]) ==> t == s
  {
    if s == [] then []
    else if IsSpace(s[0]) then Strip(s[1..])
    else if IsSpace(s[|s| - 1]) then Strip(s[..|s| - 1])
    else s
  }
}
