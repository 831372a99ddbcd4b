/** Go's 64-bit `int`/`int64` arithmetic, written out over Dafny's unbounded integers. */
module GoInt {

  const TwoTo64: int := 0x1_0000_0000_0000_0000
  const MinInt64: int := -0x8000_0000_0000_0000
  const MaxInt64: int := 0x7fff_ffff_ffff_ffff

  predicate IsInt64(x: int) {
    MinInt64 <= x <= MaxInt64
  }

  /** Two's-complement truncation to 64 bits: what an overflowing Go `int64` product yields. */
  function Wrap64(x: int): (r: int)
    ensures IsInt64(r)
    ensures (x - r) % TwoTo64 == 0
    ensures IsInt64(x) ==> r == x
  {
    var m := x % TwoTo64;
    if m > MaxInt64 then m - TwoTo64 else m
  }
}
