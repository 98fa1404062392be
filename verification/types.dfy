/** Machine types and small helpers shared by the models. */
module Types {
  datatype Option<+T> = None | Some(value: T)

  type Byte = x: int | 0 <= x < 0x100
  type Word = x: int | 0 <= x < 0x1_0000

  /** Conversion to `uint8_t`: reduction modulo 256. */
  function ToByte(x: int): Byte {
    x % 0x100
  }

  /** Conversion of a byte to `int8_t`. */
  function ToInt8(x: Byte): int {
    if x < 0x80 then x else x - 0x100
  }

  /** Conversion to `uint16_t`: reduction modulo 65536. */
  function ToWord(x: int): Word {
    x % 0x1_0000
  }

  function Max(a: nat, b: nat): nat {
    if a < b then b else a
  }
}
