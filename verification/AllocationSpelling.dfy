/** The canonical four-decimal spelling of an allocation ratio, and the token grammar it is read from. */
module AllocationSpelling {
  import opened Prelude

  /** A positive finite `Decimal`: coefficient times a power of ten. */
  datatype Decimal = Decimal(coefficient: nat, exponent: int)

  function Power10(n: nat): (p: nat)
    ensures p >= 1
  {
    if n == 0 then 1 else 10 * Power10(n - 1)
  }

  /** The value in ten-thousandths. */
  function Units(d: Decimal): nat
    requires d.exponent >= -4
  {
    d.coefficient * Power10(d.exponent + 4)
  }

  function Value(d: Decimal): real
    requires d.exponent >= -4
  {
    Units(d) as real / 10000.0
  }

  /** The ratios an assignment command accepts. */
  predicate Accepted(d: Decimal) {
    d.exponent >= -4 && 0.0 < Value(d) <= 1.0
  }

  // ---------------------------------------------------------------- digits

  predicate IsDigit(c: char) {
    '0' <= c <= '9'
  }

  predicate AllDigits(s: string) {
    forall i :: 0 <= i < |s| ==> IsDigit(s[i])
  }

  function Digit(d: nat): (c: char)
    requires d < 10
    ensures IsDigit(c) && DigitValue(c) == d
  {
    (d + '0' as int) as char
  }

  function DigitValue(c: char): (d: nat)
    requires IsDigit(c)
    ensures d < 10
  {
    c as int - '0' as int
  }

  /** `int(s)`. */
  function Number(s: string): nat
    requires AllDigits(s)
  {
    if s == "" then 0 else 10 * Number(s[..|s| - 1]) + DigitValue(s[|s| - 1])
  }

  /** `str(c)`. */
  function Digits(c: nat): (s: string)
    ensures s != "" && AllDigits(s) && Number(s) == c
    ensures c > 0 ==> s[0] != '0'
  {
    if c < 10 then [Digit(c)]
    else
      var front := Digits(c / 10);
      var s := front + [Digit(c % 10)];
      assert s[..|s| - 1] == front;
      s
  }

  function Zeros(n: nat): (s: string)
    ensures |s| == n && forall i :: 0 <= i < n ==> s[i] == '0'
  {
    seq(n, _ => '0')
  }

  /** `c` with `n` zeros behind it. */
  function Shift(c: nat, n: nat): nat {
    if n == 0 then c else 10 * Shift(c, n - 1)
  }

  lemma TimesTen(c: nat, p: nat)
    ensures 10 * (c * p) == c * (10 * p)
  {
  }

  lemma {:induction false} ShiftIsProduct(c: nat, n: nat)
    ensures Shift(c, n) == c * Power10(n)
  {
    if n > 0 {
      ShiftIsProduct(c, n - 1);
      TimesTen(c, Power10(n - 1));
    }
  }

  lemma {:induction false} ZerosShift(s: string, n: nat)
    requires AllDigits(s)
    ensures AllDigits(s + Zeros(n)) && Number(s + Zeros(n)) == Shift(Number(s), n)
  {
    if n == 0 {
      assert s + Zeros(0) == s;
    } else {
      ZerosShift(s, n - 1);
      var t := s + Zeros(n);
      assert t[..|t| - 1] == s + Zeros(n - 1);
    }
  }

  lemma TrailingZeros(s: string, n: nat)
    requires AllDigits(s)
    ensures AllDigits(s + Zeros(n)) && Number(s + Zeros(n)) == Number(s) * Power10(n)
  {
    ZerosShift(s, n);
    ShiftIsProduct(Number(s), n);
  }

  lemma {:induction false} LeadingZeros(n: nat, s: string)
    requires AllDigits(s)
    ensures AllDigits(Zeros(n) + s) && Number(Zeros(n) + s) == Number(s)
  {
    if s == "" {
      ZerosAreZero(n);
      assert Zeros(n) + s == Zeros(n);
    } else {
      var front := s[..|s| - 1];
      LeadingZeros(n, front);
      var t := Zeros(n) + s;
      assert t[..|t| - 1] == Zeros(n) + front;
    }
  }

  lemma {:induction false} ZerosAreZero(n: nat)
    ensures AllDigits(Zeros(n)) && Number(Zeros(n)) == 0
  {
    if n > 0 {
      ZerosAreZero(n - 1);
      assert Zeros(n)[..n - 1] == Zeros(n - 1);
    }
  }

  /** Digit strings of one length are told apart by their number. */
  lemma {:induction false} SameLengthSameNumber(s: string, t: string)
    requires AllDigits(s) && AllDigits(t) && |s| == |t|
    ensures Number(s) == Number(t) <==> s == t
  {
    if s != "" && Number(s) == Number(t) {
      var front, back := s[..|s| - 1], t[..|t| - 1];
      SameLengthSameNumber(front, back);
      assert s == front + [s[|s| - 1]] && t == back + [t[|t| - 1]];
    }
  }

  lemma {:induction false} NumberBelow(s: string)
    requires AllDigits(s)
    ensures Number(s) < Power10(|s|)
    ensures s != "" && s[0] != '0' ==> Number(s) >= Power10(|s| - 1)
  {
    if |s| > 1 {
      NumberBelow(s[..|s| - 1]);
    }
  }

  // ---------------------------------------------------------------- the canonical spelling

  datatype Fixed = Fixed(whole: string, fraction: string)

  /** `format(value, "f")`, cut at the point. */
  function Format(d: Decimal): Fixed {
    var digits := Digits(d.coefficient);
    var point := |digits| + d.exponent;
    if point < 0 then Fixed("0", Zeros(-point) + digits)
    else if point > |digits| then Fixed(digits + Zeros(point - |digits|), "")
    else Fixed(if point == 0 then "0" else digits[..point], digits[point..])
  }

  /** Right-padded with zeros to four places. */
  function Pad(fraction: string): string {
    if |fraction| >= 4 then fraction else fraction + Zeros(4 - |fraction|)
  }

  function Canonical(d: Decimal): string {
    var f := Format(d);
    f.whole + "." + Pad(f.fraction)
  }

  /** `0\.[0-9]{4}|1\.0000`. */
  predicate IsToken(s: string) {
    || (|s| == 6 && s[0] == '0' && s[1] == '.' && AllDigits(s[2..]))
    || s == "1.0000"
  }

  /** `parse_allocation_ratio`: an exact decimal with four places, or `ValueError`. */
  function Parse(s: string): Option<Decimal> {
    if IsToken(s) then
      assert AllDigits(s[..1] + s[2..]);
      Some(Decimal(Number(s[..1] + s[2..]), -4))
    else None
  }

  lemma Powers()
    ensures Power10(0) == 1 && Power10(1) == 10 && Power10(2) == 100 && Power10(3) == 1000 && Power10(4) == 10000
  {
    assert Power10(2) == 10 * Power10(1);
    assert Power10(3) == 10 * Power10(2);
    assert Power10(4) == 10 * Power10(3);
  }

  lemma {:induction false} PowerGrows(m: nat, n: nat)
    requires m <= n
    ensures Power10(m) <= Power10(n)
  {
    if m < n {
      PowerGrows(m, n - 1);
    }
  }

  lemma TooLarge(c: nat, exponent: nat)
    requires c > 0 && exponent > 0
    ensures Units(Decimal(c, exponent)) > 10000
  {
    Powers();
    PowerGrows(5, exponent + 4);
    assert Power10(5) == 10 * Power10(4);
    assert c * Power10(exponent + 4) >= Power10(exponent + 4);
  }

  /** Accepted: at most four places, a positive coefficient, and at most as many units as there are places for. */
  lemma AcceptedMeans(d: Decimal)
    ensures Accepted(d) <==> -4 <= d.exponent <= 0 && 0 < d.coefficient <= Power10(-d.exponent)
    ensures Accepted(d) ==> (Units(d) == 10000 <==> d.coefficient == Power10(-d.exponent))
  {
    Powers();
    if d.exponent > 0 {
      if d.coefficient > 0 {
        TooLarge(d.coefficient, d.exponent);
      }
    } else if d.exponent >= -4 {
      UnitsByPlaces(d);
    }
  }

  lemma UnitsByPlaces(d: Decimal)
    requires -4 <= d.exponent <= 0
    ensures Units(d) <= 10000 <==> d.coefficient <= Power10(-d.exponent)
    ensures Units(d) == 10000 <==> d.coefficient == Power10(-d.exponent)
    ensures Units(d) > 0 <==> d.coefficient > 0
  {
    Powers();
    if d.exponent == -4 {
      assert Units(d) == d.coefficient;
    } else if d.exponent == -3 {
      assert Units(d) == d.coefficient * 10;
    } else if d.exponent == -2 {
      assert Units(d) == d.coefficient * 100;
    } else if d.exponent == -1 {
      assert Units(d) == d.coefficient * 1000;
    } else {
      assert Units(d) == d.coefficient * 10000;
    }
  }

  lemma ZerosJoin(m: nat, n: nat)
    ensures Zeros(m) + Zeros(n) == Zeros(m + n)
  {
  }

  /** Below one there are no more digits than places. */
  lemma FewDigits(c: nat, n: nat)
    requires 0 < c < Power10(n)
    ensures |Digits(c)| <= n
  {
    NumberBelow(Digits(c));
    if |Digits(c)| > n {
      PowerGrows(n, |Digits(c)| - 1);
    }
  }

  lemma DigitsOfPower(n: nat)
    ensures Digits(Power10(n)) == "1" + Zeros(n)
  {
    var s := "1" + Zeros(n);
    TrailingZeros("1", n);
    assert Number("1") == 1;
    var digits := Digits(Power10(n));
    NumberBelow(digits);
    NumberBelow(s);
    if |digits| < |s| {
      PowerGrows(|digits|, n);
    }
    if |digits| > |s| {
      PowerGrows(n + 1, |digits| - 1);
    }
    SameLengthSameNumber(digits, s);
  }

  lemma FormatOne(n: nat)
    ensures Format(Decimal(Power10(n), 0 - n)) == Fixed("1", Zeros(n))
  {
    DigitsOfPower(n);
  }

  lemma PaddedZeros(n: nat)
    requires n <= 4
    ensures Pad(Zeros(n)) == "0000"
  {
    ZerosJoin(n, 4 - n);
    assert Zeros(4) == "0000";
  }

  lemma SpelledOne(d: Decimal, n: nat)
    requires n <= 4 && Format(d) == Fixed("1", Zeros(n))
    ensures Canonical(d) == "1.0000"
  {
    PaddedZeros(n);
    assert "1" + "." + "0000" == "1.0000";
  }

  lemma SpellsOne(n: nat)
    requires n <= 4
    ensures Canonical(Decimal(Power10(n), 0 - n)) == "1.0000"
  {
    FormatOne(n);
    SpelledOne(Decimal(Power10(n), 0 - n), n);
  }

  /** The digits of a number in a field of `n` places. */
  function Field(c: nat, n: nat): (s: string)
    requires |Digits(c)| <= n
    ensures |s| == n && AllDigits(s) && Number(s) == c
  {
    LeadingZeros(n - |Digits(c)|, Digits(c));
    Zeros(n - |Digits(c)|) + Digits(c)
  }

  lemma FormatFraction(c: nat, n: nat)
    requires 0 < c && |Digits(c)| <= n
    ensures Format(Decimal(c, 0 - n)) == Fixed("0", Field(c, n))
  {
    if |Digits(c)| == n {
      assert Zeros(0) + Digits(c) == Digits(c);
    }
  }

  lemma PaddedFraction(fraction: string, n: nat)
    requires n <= 4 && |fraction| == n && AllDigits(fraction)
    ensures |Pad(fraction)| == 4 && AllDigits(Pad(fraction))
    ensures Number(Pad(fraction)) == Number(fraction) * Power10(4 - n)
  {
    TrailingZeros(fraction, 4 - n);
    if n == 4 {
      assert fraction + Zeros(0) == fraction;
    }
  }

  lemma Dotted(s: string, fraction: string)
    requires s == "0" + "." + fraction
    ensures |s| == 2 + |fraction| && s[0] == '0' && s[1] == '.' && s[2..] == fraction
  {
  }

  lemma SpellsFraction(c: nat, n: nat)
    requires n <= 4 && 0 < c < Power10(n)
    ensures var s := Canonical(Decimal(c, 0 - n));
            |s| == 6 && s[0] == '0' && s[1] == '.' && AllDigits(s[2..]) && Number(s[2..]) == c * Power10(4 - n)
  {
    FewDigits(c, n);
    FormatFraction(c, n);
    PaddedFraction(Field(c, n), n);
    Dotted(Canonical(Decimal(c, 0 - n)), Pad(Field(c, n)));
  }

  /** One is `1.0000`; a ratio below one is `0.` and four digits whose number is its value in ten-thousandths. */
  predicate Spells(s: string, units: nat) {
    if units == 10000 then s == "1.0000"
    else |s| == 6 && s[0] == '0' && s[1] == '.' && AllDigits(s[2..]) && Number(s[2..]) == units
  }

  lemma CanonicalIs(d: Decimal)
    requires Accepted(d)
    ensures Spells(Canonical(d), Units(d))
  {
    AcceptedMeans(d);
    if Units(d) == 10000 {
      SpellsOne(-d.exponent);
    } else {
      SpellsFraction(d.coefficient, -d.exponent);
    }
  }

  // ---------------------------------------------------------------- what the spelling is for

  lemma SpellingIsUnits(s: string, t: string, m: nat, n: nat)
    requires Spells(s, m) && Spells(t, n)
    ensures s == t <==> m == n
  {
    if m != 10000 && n != 10000 {
      SameLengthSameNumber(s[2..], t[2..]);
      assert s == [s[0], s[1]] + s[2..];
      assert t == [t[0], t[1]] + t[2..];
    }
  }

  lemma ValueIsUnits(m: nat, n: nat)
    ensures m as real / 10000.0 == n as real / 10000.0 <==> m == n
  {
  }

  /** Equal values are spelled alike and different values differently, whatever precision they were given with. */
  lemma SpellingIsValue(d: Decimal, e: Decimal)
    requires Accepted(d) && Accepted(e)
    ensures Canonical(d) == Canonical(e) <==> Value(d) == Value(e)
  {
    CanonicalIs(d);
    CanonicalIs(e);
    ValueIsUnits(Units(d), Units(e));
    SpellingIsUnits(Canonical(d), Canonical(e), Units(d), Units(e));
  }

  /** A token reads as the four-place decimal it spells. */
  lemma TokenSpells(s: string)
    requires IsToken(s)
    ensures Spells(s, Units(Parse(s).value)) && Units(Parse(s).value) <= 10000
  {
    Powers();
    if s == "1.0000" {
      assert s[..1] + s[2..] == "1" + Zeros(4);
      TrailingZeros("1", 4);
      assert Number("1") == 1;
    } else {
      assert s[..1] + s[2..] == Zeros(1) + s[2..];
      LeadingZeros(1, s[2..]);
      NumberBelow(s[2..]);
    }
  }

  /** The spelling is a token of the grammar, and reads back as an accepted ratio of the same value. */
  lemma SpellingReadsBack(d: Decimal)
    requires Accepted(d)
    ensures IsToken(Canonical(d))
    ensures var r := Parse(Canonical(d)).value;
            Accepted(r) && Value(r) == Value(d)
  {
    CanonicalIs(d);
    var r := Parse(Canonical(d)).value;
    TokenSpells(Canonical(d));
    SpellingIsUnits(Canonical(d), Canonical(d), Units(d), Units(r));
  }

  /** The refused token: it reads as a zero, which no command accepts. */
  lemma ZeroTokenIsRefused()
    ensures IsToken("0.0000") && Parse("0.0000") == Some(Decimal(0, -4)) && !Accepted(Decimal(0, -4))
  {
    ZerosAreZero(5);
    assert "0.0000"[..1] + "0.0000"[2..] == Zeros(5);
  }

  /** Every token but `0.0000` is accepted, and is the canonical spelling of what it reads as. */
  lemma TokensAreCanonical(s: string)
    requires IsToken(s)
    ensures Accepted(Parse(s).value) <==> s != "0.0000"
    ensures s != "0.0000" ==> Canonical(Parse(s).value) == s
  {
    var d := Parse(s).value;
    TokenSpells(s);
    ZerosAreZero(4);
    assert "0.0000"[2..] == Zeros(4);
    assert Spells("0.0000", 0);
    SpellingIsUnits(s, "0.0000", Units(d), 0);
    assert Accepted(d) <==> Units(d) > 0;
    if Accepted(d) {
      CanonicalIs(d);
      SpellingIsUnits(s, Canonical(d), Units(d), Units(d));
    }
  }
}
