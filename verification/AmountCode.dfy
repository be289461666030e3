/** The printer and the parser step by step, with the parser's arithmetic on safe integers that are updated in place. */
module AmountCode {
  import opened Eosio
  import opened AmountText
  import AmountRoundTrip
  import opened SafeInt

  method FormatAmount(amount: int, precision: nat) returns (s: string)
    requires AmountRoundTrip.IsInt64(amount)
    ensures s == Format(amount, precision)
    ensures precision <= 18 && amount != -TWO_63 ==>
              forall code | AmountRoundTrip.ValidCode(code) :: ParseUnits(s + " " + code) == Some((amount, Symbol(code, precision)))
  {
    hide ParseUnits, Decimal, WrapS64;
    var neg := amount < 0;
    var m := amount;
    if neg {
      m := WrapS64(-m);
    }
    s := ToString(m);
    if precision > 0 {
      if |s| <= precision {
        s := Zeros(precision - |s| + 1) + s;
      }
      s := s[..|s| - precision] + "." + s[|s| - precision..];
    }
    if neg {
      s := "-" + s;
    }
    if precision <= 18 && amount != -TWO_63 {
      forall code | AmountRoundTrip.ValidCode(code)
        ensures ParseUnits(s + " " + code) == Some((amount, Symbol(code, precision)))
      {
        AmountRoundTrip.UnitsRoundTrip(amount, precision, code);
      }
    }
  }

  lemma {:induction false} PowerStops(n: nat, k: nat)
    requires n <= k && PowerSafe(n).Abort?
    ensures PowerSafe(k).Abort?
  {
    if n < k {
      PowerStops(n, k - 1);
    }
  }

  /** `precision_from_decimals`. */
  method Precision(digits: nat) returns (r: Option<int>)
    requires digits < 256
    ensures r == PrecisionFromDecimals(digits)
    ensures r.Some? ==> Fits(MAX_64, r.value)
  {
    var decimals := if digits < 128 then digits else digits - 256;
    var _ :- Check(decimals <= 18);
    var p10 := new Safe64(1);
    var p := decimals;
    ghost var turns := 0;
    while p > 0
      invariant p10.Valid() && fresh(p10)
      invariant p <= 0 ==> turns == if decimals > 0 then decimals else 0
      invariant p > 0 ==> turns == decimals - p
      invariant decimals > 0 ==> p >= 0
      invariant PowerSafe(turns) == Some(p10.value)
    {
      hide PowerSafe;
      Turn(turns, p10.value);
      var ok := p10.MulAssign(10);
      if ok.Abort? {
        PowerStops(turns + 1, decimals);
        return Abort;
      }
      p := p - 1;
      turns := turns + 1;
    }
    return Some(p10.value);
  }

  lemma Turn(n: nat, value: int)
    requires PowerSafe(n) == Some(value) && Fits(MAX_64, value)
    ensures PowerSafe(n + 1) == if Fits(MAX_64, value * 10) then Some(value * 10) else Abort
  {
    MulAbortsIff(MAX_64, value, 10);
  }

  /** The arithmetic of `asset_from_string`. */
  method UnitsOf(s: string, space: nat) returns (r: Option<(int, nat)>)
    requires 0 < space <= |s|
    ensures r == Units(s, space)
  {
    hide Find, ToInt64, ToUint64, WrapS64, PrecisionFromDecimals;
    var amountStr := s[..space];
    var dot := Find(amountStr, '.');
    if dot < space {
      var _ :- Check(dot != space - 1);
    }
    var digits: nat := 0;
    if dot < space {
      digits := (space - dot - 1) % 256;
    }
    Reads(s);
    var whole :- ToInt64(s);
    var fraction := new Safe64(0);
    if dot < space {
      var read :- ToUint64(s[dot + 1..]);
      Wrapped(read);
      fraction := new Safe64(WrapS64(read));
      if s[0] == '-' {
        MulAbortsIff(MAX_64, fraction.value, -1);
        var _ :- fraction.MulAssign(-1);
      }
    } else {
      Wrapped(0);
    }
    var amount := new Safe64(whole);
    var power :- Precision(digits);
    MulAbortsIff(MAX_64, whole, power);
    var _ :- amount.MulAssign(power);
    AddAbortsIff(MAX_64, amount.value, fraction.value);
    var _ :- amount.AddAssign(fraction.value);
    return Some((amount.value, digits));
  }

  lemma Reads(s: string)
    ensures ToInt64(s).Some? ==> Fits(MAX_64, ToInt64(s).value)
  {
  }

  lemma Wrapped(x: nat)
    ensures Fits(MAX_64, WrapS64(x))
    ensures x < TWO_63 ==> WrapS64(x) == x
  {
  }

  method AssetFromString(text: string) returns (r: Option<Asset>)
    ensures r == Parse(text)
  {
    hide Units, Trim, Find, CodeAccepted;
    var s := Trim(text);
    var space := Find(s, ' ');
    var _ :- Check(0 < space < |s|);
    var code := Trim(s[space + 1..]);
    var _ :- Check(CodeAccepted(code));
    var units :- UnitsOf(s, space);
    r := MakeAsset(units.0, Symbol(code, units.1));
  }
}
