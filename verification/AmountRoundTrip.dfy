/** Printing an amount and parsing it back. */
module AmountRoundTrip {
  import opened Eosio
  import opened AmountText
  import SafeInt
  import SafeMath

  // ---------- Numerals ----------

  lemma {:induction false} DecimalDenotes(n: nat)
    ensures Value(Decimal(n)) == n
  {
    if n < 10 {
      assert Decimal(n) == [Digit(n)] && Decimal(n)[..0] == "";
      assert Value("") == 0;
    } else {
      var tens := Decimal(n / 10);
      DecimalDenotes(n / 10);
      assert Decimal(n)[..|tens|] == tens;
    }
  }

  lemma {:induction false} ValueJoins(a: string, b: string)
    requires AllDigits(a) && AllDigits(b)
    ensures AllDigits(a + b) && Value(a + b) == Value(a) * Pow10(|b|) + Value(b)
  {
    if b == "" {
      assert a + b == a;
    } else {
      var init := b[..|b| - 1];
      ValueJoins(a, init);
      assert (a + b)[..|a + b| - 1] == a + init;
      assert 10 * (Value(a) * Pow10(|init|)) == Value(a) * Pow10(|b|);
    }
  }

  lemma {:induction false} ZerosCountNothing(n: nat)
    ensures Value(Zeros(n)) == 0
  {
    if n > 0 {
      ZerosCountNothing(n - 1);
      assert (Zeros(n - 1) + "0")[..n - 1] == Zeros(n - 1);
    }
  }

  lemma {:induction false} ValueBelow(s: string)
    requires AllDigits(s)
    ensures Value(s) < Pow10(|s|)
  {
    if s != "" {
      ValueBelow(s[..|s| - 1]);
    }
  }

  /** Padding keeps the number and leaves at least one digit before the point. */
  lemma PaddedDenotes(m: nat, precision: nat)
    ensures var d := Padded(Decimal(m), precision);
            AllDigits(d) && |d| > precision && Value(d) == m
  {
    hide Decimal, Value, Zeros, AllDigits;
    DecimalDenotes(m);
    if |Decimal(m)| <= precision {
      var zeros := Zeros(precision - |Decimal(m)| + 1);
      ZerosCountNothing(precision - |Decimal(m)| + 1);
      ValueJoins(zeros, Decimal(m));
      NothingScaled(Pow10(|Decimal(m)|));
    }
  }

  lemma NothingScaled(p: nat)
    ensures 0 * p == 0
  {
  }

  // ---------- Reading ----------

  lemma {:induction false} ReadsDigits(d: string, rest: string)
    requires AllDigits(d) && (rest == "" || !IsDigit(rest[0]))
    ensures DigitPrefix(d + rest) == d
  {
    if d == "" {
      assert d + rest == rest;
    } else {
      ReadsDigits(d[1..], rest);
      assert (d + rest)[1..] == d[1..] + rest;
    }
  }

  lemma ReadsUnsigned(d: string, rest: string)
    requires d != "" && AllDigits(d) && (rest == "" || !IsDigit(rest[0]))
    ensures ReadNumber(d + rest) == (false, Value(d))
  {
    ReadsDigits(d, rest);
    assert (d + rest)[0] == d[0];
  }

  lemma ReadsUint64(d: string, code: string)
    requires d != "" && AllDigits(d) && Value(d) < TWO_64
    ensures ToUint64(d + (" " + code)) == Some(Value(d))
  {
    ReadsUnsigned(d, " " + code);
  }

  lemma Cut(head: string, fraction: string, code: string)
    ensures var s := head + "." + fraction + " " + code; var space := |head| + 1 + |fraction|;
            s[..space] == head + "." + fraction && s[|head| + 1..] == fraction + (" " + code)
  {
    var s := head + "." + fraction + " " + code;
    assert s[|head| + 1..] == fraction + (" " + code);
  }

  lemma FindsPoint(head: string, fraction: string)
    requires '.' !in head
    ensures Find(head + "." + fraction, '.') == |head|
  {
    FindsFirst(head, '.', "." + fraction);
    assert head + "." + fraction == head + ("." + fraction);
  }

  lemma ReadsNegative(d: string, rest: string)
    requires AllDigits(d) && (rest == "" || !IsDigit(rest[0]))
    ensures ReadNumber("-" + d + rest) == (true, Value(d))
  {
    ReadsDigits(d, rest);
    assert "-" + d + rest == "-" + (d + rest);
    assert ("-" + (d + rest))[1..] == d + rest;
  }

  lemma {:induction false} FindsFirst(a: string, c: char, b: string)
    requires c !in a && (b == "" || b[0] == c)
    ensures Find(a + b, c) == |a|
  {
    if a == "" {
      assert a + b == b;
    } else {
      FindsFirst(a[1..], c, b);
      assert (a + b)[1..] == a[1..] + b;
    }
  }

  lemma TrimKeeps(s: string)
    requires s != "" && s[0] != ' ' && s[|s| - 1] != ' '
    ensures Trim(s) == s
  {
  }

  lemma {:induction false} Pow10Grows(n: nat, m: nat)
    requires n <= m
    ensures Pow10(n) <= Pow10(m)
  {
    if n < m {
      Pow10Grows(n, m - 1);
    }
  }

  lemma Pow10Fits(n: nat)
    requires n <= 18
    ensures Pow10(n) <= 1_000_000_000_000_000_000
  {
    Pow10Grows(n, 18);
    assert Pow10(3) == 1_000 && Pow10(6) == 1_000_000 && Pow10(9) == 1_000_000_000;
    assert Pow10(12) == 1_000_000_000_000 && Pow10(15) == 1_000_000_000_000_000;
    assert Pow10(18) == 1_000_000_000_000_000_000;
  }

  lemma {:induction false} PowerIs(n: nat)
    requires n <= 18
    ensures PowerSafe(n) == Some(Pow10(n))
  {
    if n > 0 {
      PowerIs(n - 1);
      Pow10Fits(n);
      SafeInt.MulAbortsIff(SafeInt.MAX_64, Pow10(n - 1), 10);
    }
  }

  // ---------- One line of text ----------

  predicate ValidCode(code: string) { code != "" && CodeAccepted(code) }

  /** A body without spaces, a space and a code are taken apart again. */
  lemma TakenApart(body: string, code: string)
    requires body != "" && ' ' !in body && ValidCode(code)
    ensures var text := body + " " + code;
            ParseUnits(text) == match Units(text, |body|) case Abort => Abort case Some(u) => Some((u.0, Symbol(code, u.1)))
  {
    hide Units, DigitPrefix, Value;
    var text := body + " " + code;
    assert text[0] == body[0] && text[|text| - 1] == code[|code| - 1];
    TrimKeeps(text);
    assert text == body + (" " + code);
    FindsFirst(body, ' ', " " + code);
    assert text[|body| + 1..] == code;
    TrimKeeps(code);
  }

  /** The text of an amount: a sign or none, digits, and digits after a point if there are any. */
  function Body(sign: string, whole: string, fraction: string): string {
    sign + whole + if fraction == "" then "" else "." + fraction
  }

  /** Reading the fraction of a line. */
  lemma ReadsFraction(head: string, fraction: string, code: string)
    requires fraction != "" && AllDigits(fraction) && '.' !in head && |fraction| <= 18
    ensures var s := head + "." + fraction + " " + code; var space := |head| + 1 + |fraction|;
            && s[..space] == head + "." + fraction
            && Find(s[..space], '.') == |head|
            && ToUint64(s[|head| + 1..]) == Some(Value(fraction))
            && Value(fraction) < Pow10(|fraction|) <= 1_000_000_000_000_000_000
  {
    hide Value, Find, ToUint64, Pow10, AllDigits;
    var s := head + "." + fraction + " " + code;
    var space := |head| + 1 + |fraction|;
    ValueBelow(fraction);
    Pow10Fits(|fraction|);
    Cut(head, fraction, code);
    FindsPoint(head, fraction);
    ReadsUint64(fraction, code);
  }

  lemma DigitsHave(d: string)
    requires AllDigits(d)
    ensures ' ' !in d && '.' !in d && '-' !in d
  {
  }

  lemma Digits18(n: nat)
    requires n <= 18
    ensures PrecisionFromDecimals(n) == Some(Pow10(n))
  {
    PowerIs(n);
  }

  /** Scaling the whole part and adding the fraction, with no overflow on the way when the result fits. */
  lemma ScaleAndAdd(neg: bool, whole: nat, power: nat, fraction: nat)
    requires 0 < power < TWO_63 && whole * power + fraction < TWO_63
    ensures var w, f := if neg then 0 - whole else whole, if neg then 0 - fraction else fraction;
            && whole < TWO_63
            && SafeInt.Mul(SafeInt.MAX_64, w, power) == Some(w * power)
            && SafeInt.Add(SafeInt.MAX_64, w * power, f) == Some(if neg then 0 - (whole * power + fraction) else whole * power + fraction)
  {
    SafeMath.MulOrder(1, power, whole);
    assert whole * 1 <= whole * power;
    var w := if neg then 0 - whole else whole;
    assert (0 - whole) * power == 0 - whole * power;
    SafeInt.MulAbortsIff(SafeInt.MAX_64, w, power);
  }

  lemma NegatedFraction(f: nat)
    requires f < TWO_63
    ensures WrapS64(f) == f && SafeInt.Mul(SafeInt.MAX_64, f, -1) == Some(0 - f)
  {
    SafeInt.MulAbortsIff(SafeInt.MAX_64, f, -1);
  }

  /** What the parser makes of a whole part and a fraction it has read. */
  lemma UnitsAre(s: string, head: string, fraction: string, code: string, neg: bool, whole: nat)
    requires head != "" && '.' !in head && AllDigits(fraction) && |fraction| <= 18
    requires s == Body("", head, fraction) + " " + code
    requires ToInt64(s) == Some(if neg then 0 - whole else whole) && (s[0] == '-') == neg
    requires whole * Pow10(|fraction|) + Value(fraction) < TWO_63
    ensures var m := whole * Pow10(|fraction|) + Value(fraction);
            Units(s, |Body("", head, fraction)|) == Some((if neg then 0 - m else m, |fraction|))
  {
    hide ToInt64, Value, Find, Pow10, AllDigits, SafeInt.Mul, SafeInt.Add, PrecisionFromDecimals, WrapS64, ToUint64;
    var body := Body("", head, fraction);
    Pow10Fits(|fraction|);
    Digits18(|fraction|);
    ScaleAndAdd(neg, whole, Pow10(|fraction|), Value(fraction));
    if fraction == "" {
      NoDigits();
      assert s[..|body|] == head + "";
      FindsFirst(head, '.', "");
    } else {
      assert s == head + "." + fraction + " " + code;
      ReadsFraction(head, fraction, code);
      NegatedFraction(Value(fraction));
    }
  }

  lemma NoDigits()
    ensures Value("") == 0 && WrapS64(0) == 0
  {
  }

  /** Units of a line with a sign or none. */
  lemma UnitsOfLine(neg: bool, whole: string, fraction: string, code: string)
    requires whole != "" && AllDigits(whole) && AllDigits(fraction) && |fraction| <= 18
    requires Value(whole) * Pow10(|fraction|) + Value(fraction) < TWO_63
    ensures var body := Body(if neg then "-" else "", whole, fraction); var m := Value(whole) * Pow10(|fraction|) + Value(fraction);
            Units(body + " " + code, |body|) == Some((if neg then 0 - m else m, |fraction|))
  {
    hide Value, Pow10, Units, ReadNumber;
    var sign := if neg then "-" else "";
    var body := Body(sign, whole, fraction);
    var s := body + " " + code;
    var head := sign + whole;
    DigitsHave(whole);
    assert body == Body("", head, fraction);
    var rest := s[|head|..];
    if neg {
      assert s == "-" + whole + rest;
      ReadsNegative(whole, rest);
    } else {
      assert s == whole + rest;
      ReadsUnsigned(whole, rest);
    }
    Pow10Fits(|fraction|);
    ScaleAndAdd(neg, Value(whole), Pow10(|fraction|), Value(fraction));
    assert (s[0] == '-') == neg;
    UnitsAre(s, head, fraction, code, neg, Value(whole));
  }

  lemma SplitDigits(d: string, precision: nat)
    requires AllDigits(d) && |d| > precision
    ensures var whole, fraction := d[..|d| - precision], d[|d| - precision..];
            && whole != "" && AllDigits(whole) && AllDigits(fraction) && |fraction| == precision
            && Value(whole) * Pow10(precision) + Value(fraction) == Value(d)
  {
    var whole, fraction := d[..|d| - precision], d[|d| - precision..];
    ValueJoins(whole, fraction);
    assert whole + fraction == d;
  }

  /** A 64-bit amount. */
  predicate IsInt64(a: int) { -TWO_63 <= a < TWO_63 }

  /** The printer's body, cut at the point. */
  lemma PointCuts(digits: string, precision: nat)
    requires digits != ""
    ensures var d := Padded(digits, precision);
            |d| > precision && WithPoint(digits, precision) == Body("", d[..|d| - precision], d[|d| - precision..])
  {
    var d := Padded(digits, precision);
    if precision == 0 {
      assert d[..|d|] == d;
    }
  }

  lemma SignedBody(sign: string, more: string, whole: string, fraction: string)
    ensures sign + Body("", more + whole, fraction) == Body(sign + more, whole, fraction)
  {
    if fraction == "" {
      assert sign + (more + whole) == sign + more + whole;
    } else {
      assert sign + (more + whole + ("." + fraction)) == sign + more + whole + ("." + fraction);
    }
  }

  /** The parts of a printed amount. */
  lemma Prints(a: int, precision: nat) returns (whole: string, fraction: string)
    requires IsInt64(a) && a != -TWO_63
    ensures Format(a, precision) == Body(if a < 0 then "-" else "", whole, fraction)
    ensures whole != "" && AllDigits(whole) && AllDigits(fraction) && |fraction| == precision
    ensures Value(whole) * Pow10(precision) + Value(fraction) == if a < 0 then 0 - a else a
  {
    hide Decimal, Value, Pow10, AllDigits, Padded, WithPoint, WrapS64, Body;
    var m: nat := if a < 0 then 0 - a else a;
    NotWrapped(a);
    var d := Padded(Decimal(m), precision);
    PaddedDenotes(m, precision);
    SplitDigits(d, precision);
    PointCuts(Decimal(m), precision);
    whole, fraction := d[..|d| - precision], d[|d| - precision..];
    SignedBody("-", "", whole, fraction);
    assert "" + whole == whole && "-" + "" == "-";
  }

  lemma NotWrapped(a: int)
    requires IsInt64(a) && a != -TWO_63
    ensures WrapS64(0 - a) == 0 - a
  {
  }

  lemma BodyHasNoSpace(sign: string, whole: string, fraction: string)
    requires whole != "" && ' ' !in sign && ' ' !in whole && ' ' !in fraction
    ensures ' ' !in Body(sign, whole, fraction) && Body(sign, whole, fraction) != ""
  {
  }

  /** Every 64-bit amount but the least, printed at any precision up to 18, parses back to itself: also amounts between -1 and 0,
      whose whole part reads as zero, and without any overflow check firing. */
  lemma UnitsRoundTrip(a: int, precision: nat, code: string)
    requires IsInt64(a) && a != -TWO_63 && precision <= 18 && ValidCode(code)
    ensures ParseUnits(Format(a, precision) + " " + code) == Some((a, Symbol(code, precision)))
  {
    hide Units, ParseUnits, Format, Value, Pow10, AllDigits, Body;
    var whole, fraction := Prints(a, precision);
    DigitsHave(whole);
    DigitsHave(fraction);
    var sign := if a < 0 then "-" else "";
    BodyHasNoSpace(sign, whole, fraction);
    UnitsOfLine(a < 0, whole, fraction, code);
    TakenApart(Body(sign, whole, fraction), code);
  }

  /** As an asset the amount comes back exactly when assets can hold it, that is, when its magnitude is below 2^62. */
  lemma AssetRoundTripIff(a: int, precision: nat, code: string)
    requires IsInt64(a) && precision <= 18 && ValidCode(code)
    ensures Parse(Format(a, precision) + " " + code) == Some(Asset(a, Symbol(code, precision))) <==> InRange(a)
  {
    hide ParseUnits, Format;
    if a != -TWO_63 {
      UnitsRoundTrip(a, precision, code);
    }
  }

  lemma RemainderIs(n: nat, d: nat, q: nat, r: nat)
    requires d > 0 && n == q * d + r && r < d
    ensures n % d == r
  {
    assert q * d <= n < (q + 1) * d;
    SafeMath.QuotientIs(n, d, q);
  }

  /** The least amount prints with two minus signs. Its whole part then reads as zero, so that only its last digits are left. */
  lemma LeastIsMisread(precision: nat, code: string)
    requires precision <= 18 && ValidCode(code)
    ensures var r := ParseUnits(Format(-TWO_63, precision) + " " + code);
            r == Some((0 - TWO_63 % Pow10(precision), Symbol(code, precision)))
  {
    hide Units, ParseUnits, Decimal, Value, Padded, Pow10, Format, AllDigits;
    var d := Decimal(TWO_63);
    DecimalDenotes(TWO_63);
    LeastHasManyDigits();
    var whole, fraction := d[..|d| - precision], d[|d| - precision..];
    SplitDigits(d, precision);
    DigitsHave(whole);
    DigitsHave(fraction);
    ValueBelow(fraction);
    RemainderIs(TWO_63, Pow10(precision), Value(whole), Value(fraction));
    var body := Body("--", whole, fraction);
    LeastPrints(precision);
    UnitsOfMisread(whole, fraction, code);
    TakenApart(body, code);
  }

  lemma LeastHasManyDigits()
    ensures |Decimal(TWO_63)| > 18
  {
    hide Decimal, Value, Pow10, AllDigits;
    DecimalDenotes(TWO_63);
    ValueBelow(Decimal(TWO_63));
    if |Decimal(TWO_63)| <= 18 {
      Pow10Fits(|Decimal(TWO_63)|);
    }
  }

  lemma LeastPrints(precision: nat)
    requires precision <= 18 && |Decimal(TWO_63)| > 18
    ensures var d := Decimal(TWO_63);
            Format(-TWO_63, precision) == Body("--", d[..|d| - precision], d[|d| - precision..])
  {
    hide Decimal, WithPoint, Body, WrapS64;
    LeastWraps();
    var d := Decimal(TWO_63);
    var digits := "-" + d;
    var whole, fraction := d[..|d| - precision], d[|d| - precision..];
    PointCuts(digits, precision);
    var k := |digits| - precision;
    assert digits[..k] == "-" + whole && digits[k..] == fraction;
    SignedBody("-", "-", whole, fraction);
    assert "-" + "-" == "--";
  }

  lemma LeastWraps()
    ensures WrapS64(TWO_63) == -TWO_63
  {
  }

  lemma UnitsOfMisread(whole: string, fraction: string, code: string)
    requires whole != "" && AllDigits(whole) && AllDigits(fraction) && |fraction| <= 18
    ensures var body := Body("--", whole, fraction);
            Units(body + " " + code, |body|) == Some((0 - Value(fraction), |fraction|)) && Value(fraction) < 1_000_000_000_000_000_000
  {
    hide Value, Pow10, Units, ReadNumber;
    var body := Body("--", whole, fraction);
    var s := body + " " + code;
    var head := "--" + whole;
    DigitsHave(whole);
    assert body == Body("", head, fraction);
    var rest := s[1..];
    assert s == "-" + "" + rest && rest[0] == '-';
    ReadsNegative("", rest);
    NoDigits();
    ValueBelow(fraction);
    Pow10Fits(|fraction|);
    NothingScaled(Pow10(|fraction|));
    UnitsAre(s, head, fraction, code, true, 0);
  }
}
