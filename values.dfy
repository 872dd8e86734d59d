/** Value types shared by every part of the model: identifiers, timestamps, decimals,
    bytes, and the byte length of Rust strings. */
module Values {

  /** An unsigned 8-bit value (`u8`). */
  newtype byte = x: int | 0 <= x < 0x100

  /** An unsigned 64-bit value (`u64`). */
  newtype u64 = x: int | 0 <= x < 0x1_0000_0000_0000_0000

  /** A UUID: an opaque 128-bit identifier. */
  newtype Uuid = x: int | 0 <= x < 0x1_0000_0000_0000_0000_0000_0000_0000_0000

  /** A server-assigned timestamp (`NaiveDateTime`); only its order is used. */
  type Timestamp = int

  /** An exact decimal (`BigDecimal`): an unscaled integer and a scale. No arithmetic
      is performed on it, so it is compared only for equality. */
  datatype Decimal = Decimal(digits: int, scale: nat)

  datatype Option<+T> = None | Some(value: T)

  /** The number of bytes in the UTF-8 encoding of one character. */
  function Utf8Width(c: char): (w: nat)
    ensures 1 <= w <= 4
    ensures w == 1 <==> (c as int) < 0x80
  {
    if (c as int) < 0x80 then 1
    else if (c as int) < 0x800 then 2
    else if (c as int) < 0x1_0000 then 3
    else 4
  }

  /** `String::len`: the length of a string in bytes of its UTF-8 encoding. */
  function Utf8Len(s: string): (n: nat)
    ensures |s| <= n <= 4 * |s|
    ensures n == |s| <==> forall i :: 0 <= i < |s| ==> (s[i] as int) < 0x80
  {
    if s == [] then 0
    else
      var rest := Utf8Len(s[1..]);
      assert forall i :: 1 <= i < |s| ==> s[i] == s[1..][i - 1];
      Utf8Width(s[0]) + rest
  }
}
