/** Java's 32-bit `int`, where the services store quantities, prices and totals,
    and Java's `byte`, the unit of uploaded files and avatars. */
module JavaInt {

  newtype int32 = x: int | -0x8000_0000 <= x < 0x8000_0000

  newtype byte = b: int | -128 <= b < 128

  /** Java's `a + b` on `int`: the mathematical sum wrapped into 32 bits. */
  function WrapAdd(a: int32, b: int32): (r: int32)
    ensures -0x8000_0000 <= a as int + b as int < 0x8000_0000 ==> r as int == a as int + b as int
    ensures (r as int - (a as int + b as int)) % 0x1_0000_0000 == 0
  {
    var s := a as int + b as int;
    if s >= 0x8000_0000 then (s - 0x1_0000_0000) as int32
    else if s < -0x8000_0000 then (s + 0x1_0000_0000) as int32
    else s as int32
  }
}
