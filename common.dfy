/** Shared constants, enumerations and arithmetic helpers of the mode-decision model. */
module Common {

  /** `MAX_UINT`: largest 32-bit unsigned value, used as the "no cost yet" value of 32-bit costs. */
  const MAX_UINT: nat := 0xFFFF_FFFF
  /** `MAX_INT`: largest 32-bit signed value. */
  const MAX_INT: nat := 0x7FFF_FFFF
  /** `MAX_INT64`: largest 64-bit signed value, the "unset"/"infeasible" value of 64-bit costs. */
  const MAX_INT64: nat := 0x7FFF_FFFF_FFFF_FFFF

  const TWO_32: nat := 0x1_0000_0000
  const TWO_64: nat := 0x1_0000_0000_0000_0000

  /** Reduction to `uint32_t`: C++ unsigned arithmetic is arithmetic modulo 2^32. */
  function U32(x: int): (r: nat)
    ensures r < TWO_32
    ensures 0 <= x < TWO_32 ==> r == x
  {
    x % TWO_32
  }

  predicate IsU32(x: int) { 0 <= x < TWO_32 }
  predicate IsU64(x: int) { 0 <= x < TWO_64 }

  function Pow2(n: nat): (r: nat)
    ensures r >= 1
  {
    if n == 0 then 1 else 2 * Pow2(n - 1)
  }

  /** Prediction-unit shapes, in the declaration order of the encoder's PartSize enumeration. */
  datatype PartSize =
    | Size2Nx2N | Size2NxN | SizeNx2N | SizeNxN
    | Size2NxnU | Size2NxnD | SizenLx2N | SizenRx2N
    | SizeNone

  /** The numeric value of each shape; SIZE_NONE is 15 in the enumeration. */
  function PartCode(p: PartSize): nat
  {
    match p
    case Size2Nx2N => 0
    case Size2NxN => 1
    case SizeNx2N => 2
    case SizeNxN => 3
    case Size2NxnU => 4
    case Size2NxnD => 5
    case SizenLx2N => 6
    case SizenRx2N => 7
    case SizeNone => 15
  }

  /** The four asymmetric shapes occupy the codes 4..7. */
  predicate IsAmpShape(p: PartSize)
  {
    p == Size2NxnU || p == Size2NxnD || p == SizenLx2N || p == SizenRx2N
  }

  function Min(a: int, b: int): int { if a <= b then a else b }

  /** A value that may be absent, such as a co-located CU that may be missing. */
  datatype Option<T> = None | Some(value: T)
}
