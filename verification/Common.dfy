/** What the models share: addresses, optional values, outcomes and the unit of account. */
module Common {

  const NANO: nat := 1_000_000_000

  /** The supply cap: 1000 BURN. */
  const MAX_SUPPLY_NANO: nat := 1000 * NANO

  datatype Option<+T> = None | Some(value: T)

  datatype Result<+T, +E> = Ok(value: T) | Err(error: E)

  /** A TON standard address: workchain and 256-bit account hash. */
  datatype Address = Address(workchain: int, hash: nat)

  /** No element occurs twice. */
  ghost predicate Distinct<T>(s: seq<T>) {
    forall i, j :: 0 <= i < j < |s| ==> s[i] != s[j]
  }

  /** The sequence without its element at `i`. */
  function RemoveAt<T>(s: seq<T>, i: nat): seq<T>
    requires i < |s|
  {
    s[..i] + s[i + 1..]
  }
}
