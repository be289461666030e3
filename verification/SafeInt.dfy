/** `safe<T>`: signed machine integers of any width whose operators abort on overflow. A width is given by its greatest
    value `max`; its least value is `-max - 1`. */
module SafeInt {
  import opened Eosio
  import SafeMath

  /** The least value of the width whose greatest is `max`. */
  function Least(max: nat): int { 0 - max - 1 }

  predicate Fits(max: nat, x: int) { Least(max) <= x <= max }

  // ---------- The operators, branch by branch ----------

  function Add(max: nat, a: int, b: int): Option<int> {
    if b > 0 && a > max - b then Abort
    else if b < 0 && a < Least(max) - b then Abort
    else Some(a + b)
  }

  function Sub(max: nat, a: int, b: int): Option<int> {
    if b > 0 && a < Least(max) + b then Abort
    else if b < 0 && a > max + b then Abort
    else Some(a - b)
  }

  function Mul(max: nat, a: int, b: int): Option<int> {
    if a > 0 then
      if b > 0 then
        if a > TruncDiv(max, b) then Abort else Some(a * b)
      else
        if b < TruncDiv(Least(max), a) then Abort else Some(a * b)
    else
      if b > 0 then
        if a < TruncDiv(Least(max), b) then Abort else Some(a * b)
      else
        if a != 0 && b < TruncDiv(max, a) then Abort else Some(a * b)
  }

  function Div(max: nat, a: int, b: int): Option<int> {
    if b == 0 || (a == Least(max) && b == -1) then Abort else Some(TruncDiv(a, b))
  }

  // ---------- They abort exactly on overflow ----------

  lemma AddAbortsIff(max: nat, a: int, b: int)
    requires Fits(max, a) && Fits(max, b)
    ensures Add(max, a, b) == if Fits(max, a + b) then Some(a + b) else Abort
    ensures b > 0 ==> Fits(max, max - b)
    ensures b < 0 ==> Fits(max, Least(max) - b)
  {
  }

  lemma SubAbortsIff(max: nat, a: int, b: int)
    requires Fits(max, a) && Fits(max, b)
    ensures Sub(max, a, b) == if Fits(max, a - b) then Some(a - b) else Abort
    ensures b > 0 ==> Fits(max, Least(max) + b)
    ensures b < 0 ==> Fits(max, max + b)
  {
  }

  lemma Exceeds(x: nat, y: nat, n: nat)
    requires y > 0
    ensures x > n / y <==> x * y > n
  {
    SafeMath.QuotientBounds(n, y);
    if x > n / y {
      SafeMath.MulOrder(n / y + 1, x, y);
    } else {
      SafeMath.MulOrder(x, n / y, y);
    }
  }

  /** Same signs: the product of magnitudes is compared with the greatest value. */
  lemma SameSigns(max: nat, x: nat, y: nat)
    requires y > 0
    ensures x > max / y <==> !Fits(max, x * y)
    ensures 0 <= max / y <= max
  {
    Exceeds(x, y, max);
    SafeMath.QuotientAtMost(max, y);
    Positive(x, y);
  }

  /** Different signs: it is compared with the least. */
  lemma DifferentSigns(max: nat, x: nat, y: nat)
    requires y > 0
    ensures x > (max + 1) / y <==> !Fits(max, 0 - x * y)
    ensures 0 <= (max + 1) / y <= max + 1
  {
    Exceeds(x, y, max + 1);
    SafeMath.QuotientAtMost(max + 1, y);
    Positive(x, y);
  }

  /** At every width, multiplication aborts if and only if the product does not fit, and the quotients it compares with do. */
  lemma MulAbortsIff(max: nat, a: int, b: int)
    requires Fits(max, a) && Fits(max, b)
    ensures Mul(max, a, b) == if Fits(max, a * b) then Some(a * b) else Abort
    ensures a > 0 && b > 0 ==> Fits(max, TruncDiv(max, b))
    ensures a > 0 && b <= 0 ==> Fits(max, TruncDiv(Least(max), a))
    ensures a <= 0 && b > 0 ==> Fits(max, TruncDiv(Least(max), b))
    ensures a < 0 && b <= 0 ==> Fits(max, TruncDiv(max, a))
  {
    hide TruncDiv;
    if a > 0 && b > 0 {
      SameSigns(max, a, b);
      Truncated(max, b);
    } else if a > 0 {
      var y: nat := 0 - b;
      DifferentSigns(max, y, a);
      Truncated(max + 1, a);
      SignsOut(y, a);
    } else if b > 0 {
      var x: nat := 0 - a;
      DifferentSigns(max, x, b);
      Truncated(max + 1, b);
      SignsOut(x, b);
    } else if a != 0 {
      var x: nat, y: nat := 0 - a, 0 - b;
      SameSigns(max, y, x);
      Truncated(max, x);
      SignsOut(y, x);
    }
  }

  lemma SignsOut(x: int, y: int)
    ensures (0 - x) * y == 0 - x * y == y * (0 - x)
    ensures (0 - x) * (0 - y) == x * y == (0 - y) * (0 - x)
  {
  }

  lemma Truncated(n: nat, d: nat)
    requires d > 0
    ensures TruncDiv(n, d) == n / d && TruncDiv(0 - n, d) == TruncDiv(n, 0 - d) == 0 - n / d
  {
  }

  lemma Positive(a: nat, b: nat)
    ensures a * b >= 0
  {
  }

  /** Division aborts if and only if there is no quotient or it does not fit. */
  lemma DivAbortsIff(max: nat, a: int, b: int)
    requires max > 0 && Fits(max, a) && Fits(max, b)
    ensures Div(max, a, b).Abort? <==> b == 0 || !Fits(max, TruncDiv(a, b))
  {
    if b != 0 {
      var x, y: nat := if a < 0 then 0 - a else a, if b < 0 then 0 - b else b;
      SafeMath.QuotientAtMost(x, y);
      if y > 1 && x > 0 {
        Smaller(x, y);
      }
    }
  }

  lemma Smaller(x: nat, y: nat)
    requires x > 0 && y > 1
    ensures x / y < x
  {
    SafeMath.QuotientBounds(x, y);
    if x / y >= x {
      SafeMath.MulOrder(x, x / y, y);
      SafeMath.MulOrder(2, y, x);
    }
  }

  // ---------- A 64-bit safe integer, updated in place ----------

  const MAX_64: nat := TWO_63 - 1

  class Safe64 {
    var value: int

    ghost predicate Valid()
      reads this
    {
      Fits(MAX_64, value)
    }

    constructor (value: int)
      requires Fits(MAX_64, value)
      ensures Valid() && this.value == value
    {
      this.value := value;
    }

    /** `*this += b`: the exact sum, or an abort when there is none in range. */
    method AddAssign(b: int) returns (r: Option<()>)
      requires Valid() && Fits(MAX_64, b)
      modifies this
      ensures Valid()
      ensures Applied(r, if Fits(MAX_64, old(value) + b) then Some(old(value) + b) else Abort, old(value), value)
    {
      if b > 0 && value > MAX_64 - b {
        return Abort;
      }
      if b < 0 && value < Least(MAX_64) - b {
        return Abort;
      }
      value := value + b;
      return Some(());
    }

    /** `*this *= b`: the exact product, or an abort when there is none in range. */
    method MulAssign(b: int) returns (r: Option<()>)
      requires Valid() && Fits(MAX_64, b)
      modifies this
      ensures Valid()
      ensures Applied(r, if Fits(MAX_64, old(value) * b) then Some(old(value) * b) else Abort, old(value), value)
    {
      MulAbortsIff(MAX_64, value, b);
      if value > 0 {
        if b > 0 {
          if value > TruncDiv(MAX_64, b) {
            return Abort;
          }
        } else if b < TruncDiv(Least(MAX_64), value) {
          return Abort;
        }
      } else if b > 0 {
        if value < TruncDiv(Least(MAX_64), b) {
          return Abort;
        }
      } else if value != 0 && b < TruncDiv(MAX_64, value) {
        return Abort;
      }
      value := value * b;
      return Some(());
    }
  }
}
