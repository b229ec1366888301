/**
 * The Java value types the source relies on, with their widths made explicit:
 * bytes, 32-bit ints with wrap-around, Java's truncating `%`, UTF-16 chars.
 */
module JavaTypes {

  type byte = x: int | 0 <= x < 256
  type Bytes = seq<byte>

  /** A Java `char`: one UTF-16 code unit. */
  type JChar = x: int | 0 <= x < 0x1_0000
  /** A Java `String`: a sequence of UTF-16 code units. */
  type JString = seq<JChar>

  const INT32_MIN: int := -0x8000_0000
  const INT32_MAX: int := 0x7FFF_FFFF

  predicate IsInt32(x: int) { INT32_MIN <= x <= INT32_MAX }
  type int32 = x: int | INT32_MIN <= x <= INT32_MAX

  /** Two's-complement wrap-around of an unbounded integer into 32 bits. */
  function WrapInt32(x: int): (r: int32)
    ensures IsInt32(x) ==> r == x
    ensures (r - x) % 0x1_0000_0000 == 0
  {
    var m := x % 0x1_0000_0000;
    if m > INT32_MAX then m - 0x1_0000_0000 else m
  }

  /** Java's `a + b` on `int`. */
  function AddInt32(a: int32, b: int32): (r: int32)
    ensures IsInt32(a + b) ==> r == a + b
    ensures a + b > INT32_MAX ==> r == a + b - 0x1_0000_0000
  {
    WrapInt32(a + b)
  }

  /** Java's `a % b` on integers: truncating division, so the sign follows `a`. */
  function JavaRem(a: int, b: int): (r: int)
    requires b > 0
    ensures a >= 0 ==> 0 <= r < b && r == a % b
    ensures a < 0 ==> -b < r <= 0 && r == -((-a) % b)
  {
    if a >= 0 then a % b else -((-a) % b)
  }
}
