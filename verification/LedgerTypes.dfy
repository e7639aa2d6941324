/**
 The value types shared by every component: 64-bit coins with the source's
 checked, saturating and wrapping arithmetic, hashes, credentials and pools.
 */
module LedgerTypes {

  type U64 = x: int | 0 <= x <= 0xFFFF_FFFF_FFFF_FFFF

  const U64_MAX: U64 := 0xFFFF_FFFF_FFFF_FFFF

  /** Lovelace. */
  type Coin = U64

  type Byte = x: int | 0 <= x < 256

  type Hash28 = s: seq<Byte> | |s| == 28 witness seq(28, _ => 0)

  type Hash32 = s: seq<Byte> | |s| == 32 witness seq(32, _ => 0)

  datatype Option<+T> = None | Some(value: T)

  datatype Result<+T, +E> = Ok(value: T) | Err(error: E) {
    predicate IsFailure() {
      Err?
    }

    function PropagateFailure<U>(): Result<U, E>
      requires Err?
    {
      Err(error)
    }

    function Extract(): T
      requires Ok?
    {
      value
    }
  }

  /** A key hash and a script hash with the same 28 bytes are different credentials. */
  datatype Credential = KeyHash(hash: Hash28) | ScriptHash(hash: Hash28)

  datatype PoolId = PoolId(hash: Hash28)

  datatype PoolParams = PoolParams(
    vrf: Hash32,
    pledge: Coin,
    cost: Coin,
    margin: (U64, U64),
    rewardAccount: seq<Byte>,
    owners: seq<Hash28>)

  function Min(a: int, b: int): int {
    if a <= b then a else b
  }

  function SatAdd(a: U64, b: U64): U64 {
    Min(a + b, U64_MAX)
  }

  function SatSub(a: U64, b: U64): U64 {
    if a < b then 0 else a - b
  }

  function CheckedAdd(a: U64, b: U64): Option<U64> {
    if a + b <= U64_MAX then Some(a + b) else None
  }

  function CheckedSub(a: U64, b: U64): Option<U64> {
    if b <= a then Some(a - b) else None
  }

  function WrapU64(x: int): U64 {
    x % 0x1_0000_0000_0000_0000
  }

  /** `x.max(0) as u64` of a value first clamped to the i128 range, as the exact rationals' floor is. */
  function FloorAsU64(x: int): U64 {
    if x <= 0 then
      0
    else if x <= U64_MAX then
      x
    else
      WrapU64(Min(x, 0x7FFF_FFFF_FFFF_FFFF_FFFF_FFFF_FFFF_FFFF))
  }

  function GetOr<K>(m: map<K, Coin>, k: K): Coin {
    if k in m then m[k] else 0
  }

  /** A reward account is a header byte and 28 credential bytes; bit 4 of the header marks a script. */
  function RewardAccountCredential(account: seq<Byte>): Option<Credential> {
    if |account| != 29 then
      None
    else if account[0] / 16 % 2 == 1 then
      Some(ScriptHash(account[1..]))
    else
      Some(KeyHash(account[1..]))
  }
}
