/** The parts of Go's integer semantics the modelled code relies on:
    fixed-width conversions that wrap around, and division that truncates
    toward zero. Dafny's own integers are unbounded and its `/` on `int` is
    Euclidean, so both are written out here. */
module GoInts {

  const Two31: int := 0x8000_0000
  const Two32: int := 0x1_0000_0000
  const Two63: int := 0x8000_0000_0000_0000
  const Two64: int := 0x1_0000_0000_0000_0000

  predicate IsInt64(x: int) { -Two63 <= x < Two63 }

  predicate IsInt32(x: int) { -Two31 <= x < Two31 }

  /** Go's `int64(x)` of a wider or unsigned value: keep the low 64 bits and
      read them in two's complement. */
  function Int64(x: int): (r: int)
    ensures IsInt64(r)
    ensures (x - r) % Two64 == 0
    ensures IsInt64(x) ==> r == x
  {
    var low := x % Two64;
    if low < Two63 then low else low - Two64
  }

  /** Go's `int32(x)`: keep the low 32 bits and read them in two's complement. */
  function Int32(x: int): (r: int)
    ensures IsInt32(r)
    ensures (x - r) % Two32 == 0
    ensures IsInt32(x) ==> r == x
  {
    var low := x % Two32;
    if low < Two31 then low else low - Two32
  }

  /** Go's `a / b` on signed integers for a positive divisor: the quotient is
      truncated toward zero, so the remainder takes the sign of `a`. */
  function Quot(a: int, b: int): (q: int)
    requires b > 0
    ensures a >= 0 ==> 0 <= a - q * b < b
    ensures a < 0 ==> -b < a - q * b <= 0
  {
    if a >= 0 then a / b else -((-a) / b)
  }

  /** Adding whole multiples of 2^64 does not change the low 64 bits. */
  lemma ModShift(y: int, c: int)
    ensures (y + c * Two64) % Two64 == y % Two64
  {
    var q, m := y / Two64, y % Two64;
    assert y + c * Two64 == (q + c) * Two64 + m;
  }

  /** Wrapping an intermediate product to int64 before multiplying again
      gives the same int64 as wrapping once at the end. */
  lemma Int64Scale(x: int, k: int)
    ensures Int64(Int64(x) * k) == Int64(x * k)
  {
    var j := (Int64(x) - x) / Two64;
    assert Int64(x) == x + j * Two64;
    assert Int64(x) * k == x * k + (j * k) * Two64;
    ModShift(x * k, j * k);
  }
}
