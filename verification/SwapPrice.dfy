/** Buying SING with USDT at the price of the swap pool: a conversion through two floors, and a fee. */
module SwapPrice {
  import opened Eosio
  import opened SafeMath

  type U16 = n: nat | n < 65_536

  const SING_UNIT: nat := 100_000_000
  const PPM_UNIT: nat := 1_000_000
  const FEE_BASE: nat := 10_000

  datatype Order = Order(user: Name, usdtIn: int, tokenOut: int, ratePpm: nat, feeBps: nat)

  datatype Reserve = Reserve(feeBps: U16, lastOrderId: nat, orders: map<nat, Order>)

  /** `get_price_from_swap`: units of the right pool per whole SING of the left pool; the quotient is cut to 64 bits. */
  function Price(left: int, right: int): Option<int> {
    var _ :- Check(left > 0 && right > 0);
    var price := WrapS64(right * SING_UNIT / left);
    var _ :- Check(price > 0 && InRange(price));
    Some(price)
  }

  /** SING units for `usdt` units at a price, cut to 64 bits. */
  function Exchange(usdt: nat, price: nat): int
    requires price > 0
  {
    WrapS64(usdt * SING_UNIT / price)
  }

  function AfterFee(gross: int, feeBps: nat): int {
    if feeBps > 0 && gross > 0 then gross - WrapS64(gross * feeBps / FEE_BASE) else gross
  }

  /** `on_usdt_transfer`. */
  function BuySpec(r: Reserve, from: Name, allowed: bool, usdt: int, left: int, right: int): Option<(Reserve, Order)> {
    var _ :- Check(allowed && 0 < usdt);
    var price :- Price(left, right);
    var gross := Exchange(usdt, price);
    var _ :- Check(InRange(gross));
    var net := AfterFee(gross, r.feeBps);
    var _ :- Check(net > 0);
    var id := r.lastOrderId + 1;
    var order := Order(from, usdt, net, WrapU64(SING_UNIT * PPM_UNIT / price), r.feeBps);
    Some((r.(lastOrderId := id, orders := r.orders[id := order]), order))
  }

  // ---------- What a conversion is worth ----------

  lemma FloorExactly(n: nat, d: nat, q: int)
    requires d > 0
    ensures q == n / d <==> IsFloor(q, n, d)
  {
    QuotientBounds(n, d);
    if IsFloor(q, n, d) {
      QuotientIs(n, d, q);
    }
  }

  lemma CutIsLess(q: nat)
    ensures q >= TWO_63 ==> WrapS64(q) < q
  {
  }

  /** A quoted price is the true floor exactly when that floor fits in 64 bits; beyond, the cut leaves a smaller number. */
  lemma PriceIsFloorIff(left: nat, right: nat)
    requires left > 0 && Price(left, right).Some?
    ensures IsFloor(Price(left, right).value, right * SING_UNIT, left) <==> right * SING_UNIT / left < TWO_63
    ensures right * SING_UNIT / left >= TWO_63 ==> Price(left, right).value < right * SING_UNIT / left
  {
    var q := right * SING_UNIT / left;
    CutIsLess(q);
    QuotientAtMost(right * SING_UNIT, left);
    FloorExactly(right * SING_UNIT, left, Price(left, right).value);
  }

  lemma ExchangeIsFloorIff(usdt: nat, price: nat)
    requires price > 0
    ensures IsFloor(Exchange(usdt, price), usdt * SING_UNIT, price) <==> usdt * SING_UNIT / price < TWO_63
    ensures usdt * SING_UNIT / price >= TWO_63 ==> Exchange(usdt, price) < usdt * SING_UNIT / price
  {
    CutIsLess(usdt * SING_UNIT / price);
    QuotientAtMost(usdt * SING_UNIT, price);
    FloorExactly(usdt * SING_UNIT, price, Exchange(usdt, price));
  }

  /** Rounding the price down never costs the buyer, and never gives more than one price unit's worth:
      floor(u * L / R) <= out, and out * R * price < u * L * (price + 1). */
  lemma TwoFloors(usdt: nat, left: nat, right: nat, price: nat, out: nat)
    requires usdt > 0 && left > 0 && right > 0 && price > 0
    requires IsFloor(price, right * SING_UNIT, left) && IsFloor(out, usdt * SING_UNIT, price)
    ensures out >= usdt * left / right
    ensures out * right * price < usdt * left * (price + 1)
  {
    AtLeastFair(usdt, left, right, price, out);
    BelowNextPrice(usdt, left, right, price, out);
  }

  lemma AtLeastFair(usdt: nat, left: nat, right: nat, price: nat, out: nat)
    requires left > 0 && right > 0 && price > 0
    requires price * left <= right * SING_UNIT && usdt * SING_UNIT < (out + 1) * price
    ensures out >= usdt * left / right
  {
    var fair := usdt * left / right;
    QuotientBounds(usdt * left, right);
    if fair > out {
      FairFits(usdt, left, right, price, fair);
      MulOrder(out + 1, fair, price);
    }
  }

  lemma BelowNextPrice(usdt: nat, left: nat, right: nat, price: nat, out: nat)
    requires usdt > 0 && right > 0
    requires right * SING_UNIT < (price + 1) * left && out * price <= usdt * SING_UNIT
    ensures out * right * price < usdt * left * (price + 1)
  {
    MulOrder(out * price, usdt * SING_UNIT, right);
    StrictlyLess(right * SING_UNIT, (price + 1) * left, usdt);
    Swap(out, right, price);
    Swap(usdt, SING_UNIT, right);
    Swap(usdt, left, price + 1);
  }

  lemma Swap(a: int, b: int, c: int)
    ensures a * b * c == a * c * b == b * c * a == c * b * a
  {
    assert a * b * c == a * (b * c);
    assert a * c * b == a * (c * b);
  }

  lemma StrictlyLess(a: int, b: int, c: int)
    requires a < b && c > 0
    ensures a * c < b * c
  {
  }

  lemma FairFits(usdt: nat, left: nat, right: nat, price: nat, fair: nat)
    requires right > 0 && left > 0 && fair * right <= usdt * left && price * left <= right * SING_UNIT
    ensures fair * price <= usdt * SING_UNIT
  {
    // (fair * price) * (left * right) <= (usdt * SING_UNIT) * (left * right)
    MulOrder(fair * right, usdt * left, price * left);
    MulOrder(price * left, right * SING_UNIT, usdt * left);
    var m := left * right;
    assert fair * right * (price * left) == fair * price * m by { Regroup(fair, right, price, left); }
    assert right * SING_UNIT * (usdt * left) == usdt * SING_UNIT * m by { Regroup(right, SING_UNIT, usdt, left); Regroup(usdt, left, SING_UNIT, right); }
    assert price * left * (usdt * left) == usdt * left * (price * left);
    if fair * price > usdt * SING_UNIT {
      StrictlyLess(usdt * SING_UNIT, fair * price, m);
    }
  }

  lemma Regroup(a: int, b: int, c: int, d: int)
    ensures a * b * (c * d) == a * c * (d * b) == c * b * (a * d)
  {
    assert a * b * (c * d) == a * (b * (c * d));
    assert b * (c * d) == c * (d * b) == c * (b * d);
    assert a * (c * (d * b)) == a * c * (d * b);
    assert a * (c * (b * d)) == c * b * (a * d);
  }

  /** The fee leaves the ceiling of gross * (1 - bps / 10000): never more than gross, never less than nothing. */
  lemma FeeLeavesCeiling(gross: nat, feeBps: nat)
    requires feeBps <= FEE_BASE && gross <= MAX_AMOUNT
    ensures 0 <= AfterFee(gross, feeBps) <= gross
    ensures (AfterFee(gross, feeBps) - 1) * FEE_BASE < gross * (FEE_BASE - feeBps) <= AfterFee(gross, feeBps) * FEE_BASE
  {
    var n := gross * feeBps;
    QuotientBounds(n, FEE_BASE);
    MulOrder(feeBps, FEE_BASE, gross);
    assert gross * (FEE_BASE - feeBps) == gross * FEE_BASE - n;
  }

  /** A committed purchase: price and amount are the true floors if and only if both quotients fit in 64 bits. What is handed out, the
      fee added back, is then worth what was paid, to within the two roundings; and the fee never takes more than its share. */
  lemma PurchaseIsFairIff(r: Reserve, from: Name, allowed: bool, usdt: nat, left: nat, right: nat)
    requires r.feeBps <= FEE_BASE
    ensures BuySpec(r, from, allowed, usdt, left, right).Some? ==>
              var price := Price(left, right).value; var gross := Exchange(usdt, price); var net := BuySpec(r, from, allowed, usdt, left, right).value.1.tokenOut;
              && (IsFloor(price, right * SING_UNIT, left) && IsFloor(gross, usdt * SING_UNIT, price)
                  <==> right * SING_UNIT / left < TWO_63 && usdt * SING_UNIT / price < TWO_63)
              && (right * SING_UNIT / left < TWO_63 && usdt * SING_UNIT / price < TWO_63
                  ==> gross >= usdt * left / right && gross * right * price < usdt * left * (price + 1))
              && 0 < net <= gross
              && (net - 1) * FEE_BASE < gross * (FEE_BASE - r.feeBps) <= net * FEE_BASE
  {
    hide WrapS64, WrapU64, AfterFee, IsFloor;
    if BuySpec(r, from, allowed, usdt, left, right).Some? {
      var price := Price(left, right).value;
      var gross := Exchange(usdt, price);
      PriceIsFloorIff(left, right);
      ExchangeIsFloorIff(usdt, price);
      GrossIsPositive(gross, r.feeBps);
      FeeLeavesCeiling(gross, r.feeBps);
      if right * SING_UNIT / left < TWO_63 && usdt * SING_UNIT / price < TWO_63 {
        TwoFloors(usdt, left, right, price, gross);
      }
    }
  }

  lemma GrossIsPositive(gross: int, feeBps: nat)
    requires AfterFee(gross, feeBps) > 0
    ensures gross > 0
  {
  }

  /** A purchase commits if and only if it is allowed, both pools and the payment are positive, price and amount are amounts, and the fee
      leaves something; it then stores one order, under the next number, in the name of the buyer, for the amount less the fee. */
  lemma PurchaseTerms(r: Reserve, from: Name, allowed: bool, usdt: nat, left: int, right: int) returns (price: int, gross: int)
    requires r.feeBps <= FEE_BASE
    ensures left > 0 && right > 0 ==> CutFloor(price, right * SING_UNIT, left)
    ensures left > 0 && right > 0 && price > 0 ==> CutFloor(gross, usdt * SING_UNIT, price)
    ensures var net := gross - gross * r.feeBps / FEE_BASE; var id := r.lastOrderId + 1;
            if allowed && usdt > 0 && left > 0 && right > 0 && 0 < price <= MAX_AMOUNT && 0 < gross <= MAX_AMOUNT && net > 0 then
              var order := Order(from, usdt, net, SING_UNIT * PPM_UNIT / price % TWO_64, r.feeBps);
              BuySpec(r, from, allowed, usdt, left, right) == Some((Reserve(r.feeBps, id, r.orders[id := order]), order))
            else BuySpec(r, from, allowed, usdt, left, right).Abort?
  {
    hide WrapS64, CutFloor, IsFloor, AfterFee;
    price, gross := 0, 0;
    if left > 0 && right > 0 {
      price := WrapS64(right * SING_UNIT / left);
      CutFloorIs(right * SING_UNIT, left);
      if price > 0 {
        gross := WrapS64(usdt * SING_UNIT / price);
        CutFloorIs(usdt * SING_UNIT, price);
        FeeInFull(gross, r.feeBps);
        Quoted(left, right, price);
        assert Exchange(usdt, price) == gross;
      }
    }
    hide Price, Exchange;
  }

  lemma Quoted(left: int, right: int, price: int)
    requires left > 0 && right > 0 && price == WrapS64(right * SING_UNIT / left)
    ensures Price(left, right) == if 0 < price <= MAX_AMOUNT then Some(price) else Abort
  {
  }

  /** The fee is never cut. */
  lemma FeeInFull(gross: int, feeBps: nat)
    requires feeBps <= FEE_BASE
    ensures 0 < gross <= MAX_AMOUNT ==> AfterFee(gross, feeBps) == gross - gross * feeBps / FEE_BASE
    ensures gross <= 0 ==> AfterFee(gross, feeBps) <= 0
  {
    if 0 < gross <= MAX_AMOUNT {
      var n := gross * feeBps;
      MulOrder(feeBps, FEE_BASE, gross);
      MulOrder(0, feeBps, gross);
      QuotientMonotone(0, n, FEE_BASE);
      QuotientMonotone(n, gross * FEE_BASE, FEE_BASE);
      QuotientIs(gross * FEE_BASE, FEE_BASE, gross);
    }
  }

  /** When a quotient does not fit, the cut can price a whole SING at next to nothing. */
  lemma CutPrice()
    ensures var left, right := 1, 184_467_440_738; // R * 10^8 / L = 2^64 + 90_448_384
            Price(left, right) == Some(90_448_384) && !IsFloor(90_448_384, right * SING_UNIT, left)
  {
  }

  class CisumReserve {
    var feeBps: U16
    var lastOrderId: nat
    var orders: map<nat, Order>

    ghost function Snapshot(): Reserve
      reads this
    {
      Reserve(feeBps, lastOrderId, orders)
    }

    constructor (feeBps: U16)
      ensures Snapshot() == Reserve(feeBps, 0, map[])
    {
      this.feeBps := feeBps;
      lastOrderId, orders := 0, map[];
    }

    method OnUsdtTransfer(from: Name, allowed: bool, usdt: int, left: int, right: int) returns (r: Option<Order>)
      modifies this
      ensures AppliedWith(r, BuySpec(old(Snapshot()), from, allowed, usdt, left, right), old(Snapshot()), Snapshot())
    {
      hide Price, WrapS64, WrapU64;
      var _ :- Check(allowed);
      var _ :- Check(usdt > 0);
      var price :- Price(left, right);
      PricePositive(left, right);
      var units := WrapS64(usdt * SING_UNIT / price);
      var _ :- Check(InRange(units));
      if feeBps > 0 && units > 0 {
        var fee := WrapS64(units * feeBps / FEE_BASE);
        units := units - fee;
      }
      var _ :- Check(units > 0);
      var ratePpm := WrapU64(SING_UNIT * PPM_UNIT / price);
      lastOrderId := lastOrderId + 1;
      var order := Order(from, usdt, units, ratePpm, feeBps);
      orders := orders[lastOrderId := order];
      return Some(order);
    }
  }

  lemma PricePositive(left: int, right: int)
    ensures Price(left, right).Some? ==> Price(left, right).value > 0
  {
  }
}
