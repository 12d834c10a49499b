/** Fixed-width integers and the small wrappers shared by the ONU model. */
module Types {

  type byte = x: int | 0 <= x < 0x100
  type uint16 = x: int | 0 <= x < 0x1_0000
  type uint32 = x: int | 0 <= x < 0x1_0000_0000

  datatype Option<T> = None | Some(value: T)

  datatype Result<T, E> = Success(value: T) | Failure(error: E)

  /** Go's `byte(x)` conversion: keeps the low eight bits of an integer. */
  function ToByte(x: int): (b: byte)
    ensures 0 <= x < 0x100 ==> b == x
    ensures (x - b) % 0x100 == 0
  {
    x % 0x100
  }

  /** Go's `a % 256` on a signed integer, which truncates toward zero. */
  function GoRem256(a: int): (r: int)
    ensures -0x100 < r < 0x100
    ensures a >= 0 ==> r == a % 0x100
    ensures a < 0 ==> r <= 0
    ensures (a - r) % 0x100 == 0
  {
    if a >= 0 then a % 0x100
    else
      var q := (-a) / 0x100;
      assert -a == q * 0x100 + (-a) % 0x100;
      assert a - -((-a) % 0x100) == (-q) * 0x100;
      -((-a) % 0x100)
  }

  /** `byte(a % 256)` in Go equals the Euclidean residue, also for negative `a`. */
  lemma ByteOfGoRem(a: int)
    ensures ToByte(GoRem256(a)) == a % 0x100
  {
    if a < 0 {
      var q, r := (-a) / 0x100, (-a) % 0x100;
      assert -a == q * 0x100 + r && 0 <= r < 0x100;
      if r == 0 {
        assert a == (-q) * 0x100;
      } else {
        assert a == (-q - 1) * 0x100 + (0x100 - r);
        assert -r == -1 * 0x100 + (0x100 - r);
      }
    }
  }
}
