/** Number types and functions that several models share. */
module Numbers {
  /** `uint8_t` */
  type byte = x: int | 0 <= x < 256

  function Min(a: nat, b: nat): nat {
    if a < b then a else b
  }
}
