/** Small types every other module builds on. */
module Basics {

  /** A 32-byte entity key or a 20-byte address. Only equality and the numeric order are used. */
  type Key = nat
  type Address = nat

  const TWO_TO_256: nat := 0x1_0000_0000_0000_0000_0000_0000_0000_0000_0000_0000_0000_0000_0000_0000_0000_0000

  datatype Option<+T> = None | Some(value: T)

  datatype Result<+T, +E> = Ok(value: T) | Err(error: E)

  /** A tally by key: a key that is absent stands for zero. */
  function At(tally: map<Key, int>, k: Key): int {
    if k in tally then tally[k] else 0
  }

  function Bump(tally: map<Key, int>, k: Key, amount: int): (bumped: map<Key, int>)
    ensures forall other: Key :: At(bumped, other) == At(tally, other) + (if other == k then amount else 0)
  {
    tally[k := At(tally, k) + amount]
  }

  /** The pointwise sum of two tallies. */
  function Plus(left: map<Key, int>, right: map<Key, int>): (sum: map<Key, int>)
    ensures forall k: Key :: At(sum, k) == At(left, k) + At(right, k)
  {
    map k | k in left.Keys + right.Keys :: At(left, k) + At(right, k)
  }

  /** u64's `saturating_sub`. */
  function SaturatingSub(x: nat, y: nat): nat {
    if y <= x then x - y else 0
  }

  function Least(x: nat, y: nat): nat {
    if x <= y then x else y
  }
}
