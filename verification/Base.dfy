/** Types that several modules share. */
module Base {
  datatype Option<+T> = None | Some(value: T)

  type Byte = b: int | 0 <= b < 256

  const TWO31 := 0x8000_0000
  const TWO32 := 0x1_0000_0000

  /** A wider unsigned number converted to `int`: the low 32 bits, with a sign. */
  function ToInt(n: nat): (r: int)
    ensures -TWO31 <= r < TWO31
    ensures r == n <==> n < TWO31
    ensures (n - r) % TWO32 == 0
  {
    var low := n % TWO32;
    if low < TWO31 then low else low - TWO32
  }
}
