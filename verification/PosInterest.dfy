/** Interest on a deposit: what the nested roundings amount to, that splitting a deposit never earns more,
    and that what has been collected depends on the time of the last collection only. */
module PosInterest {
  import opened Eosio
  import opened SafeMath
  import opened PosModel
  import opened PosLedger

  const MAX_RATE: nat := 1200

  // ---------- The amount ----------

  /** Ten-thousandths of a percent earned in `duration` seconds, rounded down. */
  function Share(rate: nat, duration: nat): nat { rate * 100 * duration / YEAR_SECONDS }

  /** Interest without machine limits. */
  function ExactInterest(rate: nat, amount: nat, duration: nat): nat {
    Share(rate, duration) * amount / (PCT_BOOST * 100)
  }

  lemma ShareBound(rate: nat, duration: nat)
    requires rate <= MAX_RATE && duration < TWO_64
    ensures Share(rate, duration) < TWO_64 / 256
  {
    MulOrder(rate * 100, 120_000, duration);
    QuotientMonotone(rate * 100 * duration, 120_000 * TWO_64, YEAR_SECONDS);
  }

  lemma ProductBelow(a: nat, b: nat, x: nat, y: nat)
    requires a <= x && b <= y
    ensures a * b <= x * y
  {
    MulOrder(a, x, b);
    MulOrder(b, y, x);
  }

  lemma ShareIsMulDown(rate: nat, duration: nat)
    requires rate <= MAX_RATE && duration < TWO_64
    ensures MulDown(WrapU64(rate * 100), duration, YEAR_SECONDS) == Share(rate, duration)
  {
    hide MulDown;
    var r := rate * 100;
    assert WrapU64(r) == r;
    ProductBelow(10 * r, duration, 1_200_000, TWO_64);
    MulDownIsFloor(r, duration, YEAR_SECONDS);
  }

  lemma InterestIsMulDown(share: nat, amount: nat)
    requires share < TWO_64 / 256 && amount <= MAX_AMOUNT
    ensures MulDown(share, WrapU128(amount), PCT_BOOST * 100) == share * amount / (PCT_BOOST * 100)
  {
    hide MulDown;
    ProductBelow(10 * share, amount, 10 * (TWO_64 / 256), MAX_AMOUNT);
    MulDownIsFloor(share, amount, PCT_BOOST * 100);
  }

  /** `_term_interest` writes the exact interest cut to 64 bits: nothing is lost in 128-bit arithmetic. */
  lemma RawIsExactWrapped(rate: nat, amount: nat, duration: nat)
    requires rate <= MAX_RATE && amount <= MAX_AMOUNT && duration < TWO_64
    ensures RawInterest(rate, amount, duration) == WrapS64(ExactInterest(rate, amount, duration))
  {
    hide WrapS64, MulDown, Share;
    ShareIsMulDown(rate, duration);
    ShareBound(rate, duration);
    InterestIsMulDown(Share(rate, duration), amount);
  }

  /** The interest of an account fits a 64-bit amount. */
  predicate Fits(rate: nat, amount: nat, duration: nat) {
    ExactInterest(rate, amount, duration) < TWO_63
  }

  lemma InterestMonotone(rate: nat, amount: nat, early: nat, late: nat)
    requires early <= late
    ensures ExactInterest(rate, amount, early) <= ExactInterest(rate, amount, late)
  {
    ProductBelow(rate * 100, early, rate * 100, late);
    QuotientMonotone(rate * 100 * early, rate * 100 * late, YEAR_SECONDS);
    ProductBelow(Share(rate, early), amount, Share(rate, late), amount);
    QuotientMonotone(Share(rate, early) * amount, Share(rate, late) * amount, PCT_BOOST * 100);
  }

  // ---------- Splitting a deposit ----------

  /** Every scheme's rate is at most 12% and never falls with the amount, whatever the thresholds wrap to. */
  lemma RateMonotone(scheme: Scheme, small: Asset, large: Asset)
    requires small.sym == large.sym && small.amount <= large.amount
    requires InterestRate(scheme, small).Some?
    ensures InterestRate(scheme, large).Some?
    ensures InterestRate(scheme, small).value <= InterestRate(scheme, large).value <= MAX_RATE
  {
    hide WrapS64;
  }

  lemma SplitFloor(x: nat, y: nat, z: nat, a: nat, b: nat, d: nat)
    requires d > 0 && x <= z && y <= z
    ensures x * a / d + y * b / d <= z * (a + b) / d
  {
    QuotientBounds(x * a, d);
    QuotientBounds(y * b, d);
    var q := x * a / d + y * b / d;
    assert q * d <= x * a + y * b;
    MulOrder(x, z, a);
    MulOrder(y, z, b);
    assert q * d <= z * (a + b);
    QuotientMonotone(q * d, z * (a + b), d);
    QuotientIs(q * d, d, q);
  }

  lemma ExactSplit(x: nat, y: nat, z: nat, a: nat, b: nat, duration: nat)
    requires x <= z && y <= z
    ensures ExactInterest(x, a, duration) + ExactInterest(y, b, duration) <= ExactInterest(z, a + b, duration)
  {
    hide Share;
    ShareMonotone(x, z, duration);
    ShareMonotone(y, z, duration);
    SplitFloor(Share(x, duration), Share(y, duration), Share(z, duration), a, b, PCT_BOOST * 100);
  }

  lemma RawIsExact(rate: nat, amount: nat, duration: nat)
    requires rate <= MAX_RATE && amount <= MAX_AMOUNT && duration < TWO_64
    requires Fits(rate, amount, duration)
    ensures RawInterest(rate, amount, duration) == ExactInterest(rate, amount, duration)
  {
    hide ExactInterest;
    RawIsExactWrapped(rate, amount, duration);
  }

  /** The steps of a ladder are close: no rate is more than half as much again as the rate of a smaller amount. */
  lemma LadderIsGentle(scheme: Scheme, small: Asset, large: Asset)
    requires small.sym == large.sym && small.amount <= large.amount
    requires InterestRate(scheme, small).Some? && InterestRate(scheme, large).Some?
    ensures 2 * InterestRate(scheme, large).value <= 3 * InterestRate(scheme, small).value
  {
    hide WrapS64;
  }

  lemma ShareIsGentle(low: nat, high: nat, duration: nat)
    requires 2 * high <= 3 * low
    ensures 2 * Share(high, duration) <= 3 * Share(low, duration) + 3
  {
    var p, q := low * 100 * duration, high * 100 * duration;
    MulOrder(2 * high * 100, 3 * low * 100, duration);
    QuotientBounds(p, YEAR_SECONDS);
    QuotientBounds(q, YEAR_SECONDS);
  }

  /** Half as much again, and a little for the roundings. */
  lemma WholeIsGentle(x: nat, y: nat, z: nat, a: nat, b: nat, d: nat)
    requires d > 0 && 2 * z <= 3 * x + 3 && 2 * z <= 3 * y + 3
    ensures 2 * (z * (a + b) / d) * d <= 3 * (x * a / d + y * b / d + 2) * d + 3 * (a + b)
  {
    var whole, one, two := z * (a + b), x * a, y * b;
    QuotientBounds(one, d);
    QuotientBounds(two, d);
    QuotientBounds(whole, d);
    TimesPart(z, x, a);
    TimesPart(z, y, b);
    Distribute(z, a, b);
    var p, q, r := one / d, two / d, whole / d;
    Distribute(d, p, 1);
    Distribute(d, q, 1);
    Distribute(d, p, q + 2);
    Distribute(d, q, 2);
    assert 2 * r * d == 2 * (r * d) && 3 * (p + q + 2) * d == 3 * ((p + q + 2) * d);
  }

  lemma TimesPart(z: nat, x: nat, a: nat)
    requires 2 * z <= 3 * x + 3
    ensures 2 * (z * a) <= 3 * (x * a) + 3 * a
  {
    MulOrder(2 * z, 3 * x + 3, a);
    assert 2 * z * a == 2 * (z * a) && (3 * x + 3) * a == 3 * (x * a) + 3 * a;
  }

  lemma Distribute(d: int, p: int, q: int)
    ensures d * (p + q) == d * p + d * q == (p + q) * d == p * d + q * d
  {
  }

  /** Interest that does not fit comes out below what the parts earn. */
  lemma CutBelow(whole: nat, parts: nat, amount: nat)
    requires whole >= TWO_63 && parts <= 2 * (TWO_63 - 1) && amount <= MAX_AMOUNT
    requires 2 * whole * 1_000_000 <= 3 * (parts + 2) * 1_000_000 + 3 * amount
    ensures WrapS64(whole) < parts
  {
  }

  lemma ExactGentle(x: nat, y: nat, z: nat, a: nat, b: nat, duration: nat)
    requires 2 * z <= 3 * x && 2 * z <= 3 * y
    ensures 2 * ExactInterest(z, a + b, duration) * 1_000_000 <= 3 * (ExactInterest(x, a, duration) + ExactInterest(y, b, duration) + 2) * 1_000_000 + 3 * (a + b)
  {
    hide Share;
    ShareIsGentle(x, z, duration);
    ShareIsGentle(y, z, duration);
    WholeIsGentle(Share(x, duration), Share(y, duration), Share(z, duration), a, b, 1_000_000);
  }

  /** When the interest on each part fits a 64-bit amount, one deposit of a + b earns at least what deposits of a and of b earn,
      through the rate ladder and both roundings, if and only if the interest on the whole fits as well. */
  lemma SplittingNeverHelpsIff(scheme: Scheme, sym: Symbol, a: nat, b: nat, duration: nat)
    requires 0 < a && 0 < b && a + b <= MAX_AMOUNT && duration < TWO_64
    requires InterestRate(scheme, Asset(a, sym)).Some?
    ensures InterestRate(scheme, Asset(b, sym)).Some? && InterestRate(scheme, Asset(a + b, sym)).Some?
    ensures var x, y, z := InterestRate(scheme, Asset(a, sym)).value, InterestRate(scheme, Asset(b, sym)).value, InterestRate(scheme, Asset(a + b, sym)).value;
            Fits(x, a, duration) && Fits(y, b, duration) ==>
              (RawInterest(x, a, duration) + RawInterest(y, b, duration) <= RawInterest(z, a + b, duration) <==> Fits(z, a + b, duration))
  {
    hide RawInterest, ExactInterest, WrapS64, InterestRate;
    RatesExist(scheme, sym, a, b);
    var x, y, z := InterestRate(scheme, Asset(a, sym)).value, InterestRate(scheme, Asset(b, sym)).value, InterestRate(scheme, Asset(a + b, sym)).value;
    RawIsExactWrapped(x, a, duration);
    RawIsExactWrapped(y, b, duration);
    RawIsExactWrapped(z, a + b, duration);
    if Fits(x, a, duration) && Fits(y, b, duration) {
      RawIsExact(x, a, duration);
      RawIsExact(y, b, duration);
      if Fits(z, a + b, duration) {
        RawIsExact(z, a + b, duration);
        ExactSplit(x, y, z, a, b, duration);
      } else {
        ExactGentle(x, y, z, a, b, duration);
        CutBelow(ExactInterest(z, a + b, duration), ExactInterest(x, a, duration) + ExactInterest(y, b, duration), a + b);
      }
    }
  }

  lemma RatesExist(scheme: Scheme, sym: Symbol, a: nat, b: nat)
    requires InterestRate(scheme, Asset(a, sym)).Some?
    ensures InterestRate(scheme, Asset(b, sym)).Some? && InterestRate(scheme, Asset(a + b, sym)).Some?
    ensures var x, y, z := InterestRate(scheme, Asset(a, sym)).value, InterestRate(scheme, Asset(b, sym)).value, InterestRate(scheme, Asset(a + b, sym)).value;
            x <= z <= MAX_RATE && y <= z && 2 * z <= 3 * x && 2 * z <= 3 * y
  {
    RateMonotone(scheme, Asset(a, sym), Asset(a + b, sym));
    SameSymbolSameScale(scheme, sym, a, b);
    RateMonotone(scheme, Asset(b, sym), Asset(a + b, sym));
    LadderIsGentle(scheme, Asset(a, sym), Asset(a + b, sym));
    LadderIsGentle(scheme, Asset(b, sym), Asset(a + b, sym));
  }

  lemma SameSymbolSameScale(scheme: Scheme, sym: Symbol, a: nat, b: nat)
    ensures InterestRate(scheme, Asset(a, sym)).Some? <==> InterestRate(scheme, Asset(b, sym)).Some?
  {
    hide WrapS64;
  }

  lemma SixCenturies(amount: nat)
    ensures ExactInterest(100, amount, 600 * YEAR_SECONDS) == 6 * amount
  {
    assert Share(100, 600 * YEAR_SECONDS) == 6_000_000;
    hide Share;
    QuotientIs(6_000_000 * amount, PCT_BOOST * 100, 6 * amount);
  }

  /** The 64-bit fit is needed: over 600 years at 1%, one deposit of 2^61 units earns less than two of half its size. */
  lemma WrappedInterestShrinks()
    ensures var half := 0x1000_0000_0000_0000; var years := 600 * YEAR_SECONDS; var sym := Symbol("SING", 8);
            && InterestRate(OtherScheme, Asset(half, sym)) == InterestRate(OtherScheme, Asset(2 * half, sym)) == Some(100)
            && RawInterest(100, 2 * half, years) < 0 < RawInterest(100, half, years)
  {
    hide RawInterest, ExactInterest;
    var half := 0x1000_0000_0000_0000;
    RawIsExactWrapped(100, half, 600 * YEAR_SECONDS);
    RawIsExactWrapped(100, 2 * half, 600 * YEAR_SECONDS);
    SixCenturies(half);
    SixCenturies(2 * half);
  }

  lemma ShareMonotone(low: nat, high: nat, duration: nat)
    requires low <= high
    ensures Share(low, duration) <= Share(high, duration)
  {
    MulOrder(low * 100, high * 100, duration);
    QuotientMonotone(low * 100 * duration, high * 100 * duration, YEAR_SECONDS);
  }
}
