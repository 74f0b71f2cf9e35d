/** Small types and total arithmetic shared by every module of the model. */
module Prelude {

  datatype Option<+T> = None | Some(value: T) {
    function GetOr(default: T): T {
      match this
      case Some(v) => v
      case None => default
    }
  }

  const U32_MAX: nat := 0xFFFF_FFFF
  const U64_MAX: nat := 0xFFFF_FFFF_FFFF_FFFF

  function Min(a: int, b: int): int { if a <= b then a else b }

  function Max(a: int, b: int): int { if a <= b then b else a }

  /** `saturating_sub` on an unsigned integer. */
  function Monus(a: nat, b: nat): nat { if a >= b then a - b else 0 }

  /** `saturating_add` on a `u64`. */
  function SatAdd64(a: nat, b: nat): nat { if a + b > U64_MAX then U64_MAX else a + b }

  lemma SubsetSize<T>(a: set<T>, b: set<T>)
    requires a <= b
    ensures |a| <= |b|
  {
    assert b == a + (b - a);
  }
}
