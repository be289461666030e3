/** Token amounts as text: the printer of cisumsummary and the asset parser of utils.hpp. */
module AmountText {
  import opened Eosio
  import SafeInt

  // ---------- Digits ----------

  predicate IsDigit(c: char) { '0' <= c <= '9' }

  predicate AllDigits(s: string) { forall i | 0 <= i < |s| :: IsDigit(s[i]) }

  function DigitOf(c: char): nat
    requires IsDigit(c)
  {
    (c as int) - ('0' as int)
  }

  function Digit(d: nat): (c: char)
    requires d < 10
    ensures IsDigit(c) && DigitOf(c) == d
  {
    (('0' as int) + d) as char
  }

  /** The decimal numeral of `n`. */
  function Decimal(n: nat): (s: string)
    ensures AllDigits(s) && |s| > 0
  {
    if n < 10 then [Digit(n)] else Decimal(n / 10) + [Digit(n % 10)]
  }

  /** The number a string of digits denotes. */
  function Value(s: string): nat
    requires AllDigits(s)
  {
    if s == "" then 0 else 10 * Value(s[..|s| - 1]) + DigitOf(s[|s| - 1])
  }

  /** `std::to_string`. */
  function ToString(n: int): string { if n < 0 then "-" + Decimal(-n) else Decimal(n) }

  function Zeros(n: nat): (s: string)
    ensures |s| == n && AllDigits(s)
  {
    if n == 0 then "" else Zeros(n - 1) + "0"
  }

  // ---------- The printer ----------

  /** At least one digit before the point. */
  function Padded(s: string, precision: nat): string {
    if |s| <= precision then Zeros(precision - |s| + 1) + s else s
  }

  function WithPoint(digits: string, precision: nat): string {
    if precision == 0 then digits
    else
      var s := Padded(digits, precision);
      s[..|s| - precision] + "." + s[|s| - precision..]
  }

  /** `format_amount`; negating the least 64-bit value gives that value again. */
  function Format(amount: int, precision: nat): string {
    if amount < 0 then "-" + WithPoint(ToString(WrapS64(-amount)), precision)
    else WithPoint(ToString(amount), precision)
  }

  // ---------- The pieces of the parser ----------

  /** The first position of `c`, or the length if it does not occur. */
  function Find(s: string, c: char): (i: nat)
    ensures i <= |s|
  {
    if s == "" || s[0] == c then 0 else 1 + Find(s[1..], c)
  }

  function TrimLeft(s: string): string {
    if s != "" && s[0] == ' ' then TrimLeft(s[1..]) else s
  }

  function TrimRight(s: string): string {
    if s != "" && s[|s| - 1] == ' ' then TrimRight(s[..|s| - 1]) else s
  }

  function Trim(s: string): string { TrimRight(TrimLeft(s)) }

  predicate IsSpace(c: char) { c == ' ' || '\t' <= c <= '\r' }

  function SkipSpaces(s: string): string {
    if s != "" && IsSpace(s[0]) then SkipSpaces(s[1..]) else s
  }

  /** The longest prefix of digits. */
  function DigitPrefix(s: string): (d: string)
    ensures AllDigits(d)
  {
    if s == "" || !IsDigit(s[0]) then "" else [s[0]] + DigitPrefix(s[1..])
  }

  /** What `strtoll` and `strtoull` read: spaces, a sign, digits, and nothing after them. */
  function ReadNumber(s: string): (bool, nat) {
    var t := SkipSpaces(s);
    if t != "" && (t[0] == '-' || t[0] == '+') then (t[0] == '-', Value(DigitPrefix(t[1..])))
    else (false, Value(DigitPrefix(t)))
  }

  function ToInt64(s: string): Option<int> {
    var (neg, v) := ReadNumber(s);
    var x: int := if neg then 0 - v else v;
    var _ :- Check(-TWO_63 <= x < TWO_63);
    Some(x)
  }

  /** `strtoull` accepts a minus sign and negates modulo 2^64. */
  function ToUint64(s: string): Option<nat> {
    var (neg, v) := ReadNumber(s);
    var _ :- Check(v < TWO_64);
    Some(if neg then WrapU64(0 - v) else v)
  }

  /** `symbol_code`: up to seven capital letters. */
  predicate CodeAccepted(code: string) {
    |code| <= 7 && forall i | 0 <= i < |code| :: 'A' <= code[i] <= 'Z'
  }

  function PowerSafe(n: nat): Option<int> {
    if n == 0 then Some(1)
    else
      var p :- PowerSafe(n - 1);
      SafeInt.Mul(SafeInt.MAX_64, p, 10)
  }

  /** `precision_from_decimals`, whose argument is a signed byte. */
  function PrecisionFromDecimals(digits: nat): Option<int> {
    var decimals := if digits < 128 then digits else digits - 256;
    var _ :- Check(decimals <= 18);
    PowerSafe(if decimals > 0 then decimals else 0)
  }

  // ---------- The parser ----------

  /** The amount in units, with the symbol's digits, from the trimmed text; `space` is where the amount ends. The readers
      start at a position in the text and read on past the part they were cut to. */
  function Units(s: string, space: nat): Option<(int, nat)>
    requires 0 < space <= |s|
  {
    var amountStr := s[..space];
    var dot := Find(amountStr, '.');
    var _ :- Check(dot < space ==> dot != space - 1);
    var digits: nat := if dot < space then (space - dot - 1) % 256 else 0;
    var whole :- ToInt64(s);
    var fraction :- if dot < space then ToUint64(s[dot + 1..]) else Some(0);
    var signed :- if dot < space && s[0] == '-' then SafeInt.Mul(SafeInt.MAX_64, WrapS64(fraction), -1) else Some(WrapS64(fraction));
    var power :- PrecisionFromDecimals(digits);
    var scaled :- SafeInt.Mul(SafeInt.MAX_64, whole, power);
    var units :- SafeInt.Add(SafeInt.MAX_64, scaled, signed);
    Some((units, digits))
  }

  /** `asset_from_string` up to the construction of the asset. */
  function ParseUnits(text: string): Option<(int, Symbol)> {
    var s := Trim(text);
    var space := Find(s, ' ');
    var _ :- Check(0 < space < |s|);
    var code := Trim(s[space + 1..]);
    var _ :- Check(CodeAccepted(code));
    var units :- Units(s, space);
    Some((units.0, Symbol(code, units.1)))
  }

  function Parse(text: string): Option<Asset> {
    var r :- ParseUnits(text);
    MakeAsset(r.0, r.1)
  }
}
