/** The part of the chain that every contract here leans on: account names, token amounts with their
    checked arithmetic, machine-integer conversions, and actions that either commit or abort whole. */
module Eosio {

  /** The outcome of an action or of a checked computation. `Abort` is a failed `check`. */
  datatype Option<+T> = Abort | Some(value: T) {
    predicate IsFailure() {
      Abort?
    }

    function PropagateFailure<U>(): Option<U>
      requires Abort?
    {
      Abort
    }

    function Extract(): T
      requires Some?
    {
      value
    }
  }

  /** `check(condition, ...)`: used with `:-`, it aborts the enclosing action. */
  function Check(condition: bool): Option<()> {
    if condition then Some(()) else Abort
  }

  /** An action commits exactly what its specification says, and changes nothing when it aborts. */
  ghost predicate Applied<S>(r: Option<()>, spec: Option<S>, before: S, after: S) {
    match spec
    case Abort => r.Abort? && after == before
    case Some(s) => r.Some? && after == s
  }

  /** The same for an action that also queues or returns something. */
  ghost predicate AppliedWith<S, T>(r: Option<T>, spec: Option<(S, T)>, before: S, after: S) {
    match spec
    case Abort => r.Abort? && after == before
    case Some(s) => r == Some(s.1) && after == s.0
  }

  /** The state after a transaction: unchanged if it aborted. */
  ghost function After<S>(result: Option<S>, before: S): S {
    if result.Some? then result.value else before
  }

  // ---------- Names: 64-bit values, written in their base-32 encoding ----------

  type Name = nat

  const SING_TOKEN: Name := 0xC3A6_C066_9054_C000
  const CISUM_TOKEN: Name := 0x43B1_A903_3482_A600
  const POS_CISUM: Name := 0xAD30_043B_1A90_0000
  const SHARE_CISUM: Name := 0xC34D_7501_0EC6_A400
  const SHOW_CISUM: Name := 0xC369_C021_D8D4_8000
  const GRAB_CISUM: Name := 0x65CC_7021_D8D4_8000
  const POH_CISUM: Name := 0xAD1A_043B_1A90_0000
  const OOOO: Name := 0xA529_4000_0000_0000

  // ---------- Machine integers ----------

  const TWO_32 := 0x1_0000_0000
  const TWO_63 := 0x8000_0000_0000_0000
  const TWO_64 := 0x1_0000_0000_0000_0000
  const TWO_127 := 0x8000_0000_0000_0000_0000_0000_0000_0000
  const TWO_128 := 0x1_0000_0000_0000_0000_0000_0000_0000_0000

  function WrapU32(x: int): (r: nat)
    ensures r < TWO_32
  {
    x % TWO_32
  }

  function WrapU64(x: int): (r: nat)
    ensures r < TWO_64
  {
    x % TWO_64
  }

  function WrapU128(x: int): nat { x % TWO_128 }

  function WrapS64(x: int): int { (x + TWO_63) % TWO_64 - TWO_63 }

  function WrapS128(x: int): int { (x + TWO_127) % TWO_128 - TWO_127 }

  /** C++ integer division, which truncates toward zero. */
  function TruncDiv(a: int, b: int): int
    requires b != 0
  {
    if a >= 0 then (if b > 0 then a / b else -(a / -b))
    else (if b > 0 then -(-a / b) else -a / -b)
  }

  // ---------- Assets ----------

  const MAX_AMOUNT := 0x3FFF_FFFF_FFFF_FFFF

  datatype Symbol = Symbol(code: string, precision: nat)

  /** `extended_symbol`: a symbol together with the contract that keeps its balances. */
  datatype Token = Token(sym: Symbol, bank: Name)

  datatype Asset = Asset(amount: int, sym: Symbol)

  const MUSIC := Symbol("MUSIC", 8)
  const CISUM := Symbol("CISUM", 4)

  predicate InRange(amount: int) {
    -MAX_AMOUNT <= amount <= MAX_AMOUNT
  }

  /** `asset(amount, symbol)`. */
  function MakeAsset(amount: int, sym: Symbol): Option<Asset> {
    var _ :- Check(InRange(amount));
    Some(Asset(amount, sym))
  }

  /** `a += b`. */
  function AddAsset(a: Asset, b: Asset): Option<Asset> {
    var _ :- Check(a.sym == b.sym && InRange(a.amount + b.amount));
    Some(Asset(a.amount + b.amount, a.sym))
  }

  /** `a -= b`. */
  function SubAsset(a: Asset, b: Asset): Option<Asset> {
    var _ :- Check(a.sym == b.sym && InRange(a.amount - b.amount));
    Some(Asset(a.amount - b.amount, a.sym))
  }

  /** 10 to the `digits`. */
  function Pow10(digits: nat): (p: nat)
    ensures p > 0
  {
    if digits == 0 then 1 else 10 * Pow10(digits - 1)
  }
}
