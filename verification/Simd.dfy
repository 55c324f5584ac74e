/** The SSE intrinsics the validator uses, on a register of sixteen unsigned bytes. */
module Simd {
  import opened Bytes

  type Register = r: seq<byte> | |r| == 16 witness seq(16, _ => 0)

  function Signed(b: byte): int { if b < 128 then b else b - 256 }

  function Set1(x: byte): (r: Register)
    ensures forall i | 0 <= i < 16 :: r[i] == x
  {
    seq(16, _ => x)
  }

  /** Unsigned subtraction that saturates at zero. */
  function SubsU8(a: Register, b: Register): (r: Register)
    ensures forall i | 0 <= i < 16 :: r[i] == if a[i] > b[i] then a[i] - b[i] else 0
  {
    seq(16, i requires 0 <= i < 16 => if a[i] > b[i] then a[i] - b[i] else 0)
  }

  /** Addition modulo 256. */
  function AddByte(a: byte, b: byte): (r: byte)
    ensures a as int + b as int < 256 ==> r == a + b
  {
    (a as int + b as int) % 256
  }

  function Add8(a: Register, b: Register): (r: Register)
    ensures forall i | 0 <= i < 16 :: r[i] == AddByte(a[i], b[i])
  {
    seq(16, i requires 0 <= i < 16 => AddByte(a[i], b[i]))
  }

  function CmpGtS8(a: Register, b: Register): (r: Register)
    ensures forall i | 0 <= i < 16 :: r[i] == if Signed(a[i]) > Signed(b[i]) then 255 else 0
  {
    seq(16, i requires 0 <= i < 16 => if Signed(a[i]) > Signed(b[i]) then 255 else 0)
  }

  function CmpEq8(a: Register, b: Register): (r: Register)
    ensures forall i | 0 <= i < 16 :: r[i] == if a[i] == b[i] then 255 else 0
  {
    seq(16, i requires 0 <= i < 16 => if a[i] == b[i] then 255 else 0)
  }

  function OrByte(a: byte, b: byte): (r: byte)
    ensures r == 0 <==> a == 0 && b == 0
  {
    var r := (a as bv8) | (b as bv8);
    assert r == 0 <==> a as bv8 == 0 && b as bv8 == 0;
    r as int
  }

  function AndByte(a: byte, b: byte): (r: byte)
    ensures a == 0 || b == 0 ==> r == 0
    ensures a == 255 && b == 255 ==> r == 255
  {
    ((a as bv8) & (b as bv8)) as int
  }

  function Or(a: Register, b: Register): (r: Register)
    ensures forall i | 0 <= i < 16 :: r[i] == OrByte(a[i], b[i])
  {
    seq(16, i requires 0 <= i < 16 => OrByte(a[i], b[i]))
  }

  function And(a: Register, b: Register): (r: Register)
    ensures forall i | 0 <= i < 16 :: r[i] == AndByte(a[i], b[i])
  {
    seq(16, i requires 0 <= i < 16 => AndByte(a[i], b[i]))
  }

  /** The register that starts `16 - n` bytes into `low`, followed by `high`. */
  function AlignRight(high: Register, low: Register, n: nat): (r: Register)
    requires n <= 16
    ensures forall i | 0 <= i < 16 :: r[i] == if i + n < 16 then low[i + n] else high[i + n - 16]
  {
    seq(16, i requires 0 <= i < 16 => if i + n < 16 then low[i + n] else high[i + n - 16])
  }

  /** Look every byte up in a table; a byte with its top bit set yields zero. */
  function Shuffle(table: Register, index: Register): (r: Register)
    ensures forall i | 0 <= i < 16 :: r[i] == if index[i] >= 128 then 0 else table[index[i] % 16]
  {
    seq(16, i requires 0 <= i < 16 => if index[i] >= 128 then 0 else table[index[i] % 16])
  }

  /** Shift each 16-bit lane right by four; the low byte of a lane takes in the low nibble of the high byte. */
  function ShiftRight4(a: Register): (r: Register)
    ensures forall i | 0 <= i < 16 ::
              r[i] == if i % 2 == 0 then a[i] / 16 + (a[i + 1] % 16) * 16 else a[i] / 16
  {
    seq(16, i requires 0 <= i < 16 => if i % 2 == 0 then a[i] / 16 + (a[i + 1] % 16) * 16 else a[i] / 16)
  }

  /** Keep the low nibble of every byte. */
  function MaskLowNibbles(a: Register): (r: Register)
    ensures forall i | 0 <= i < 16 :: r[i] == a[i] % 16
  {
    seq(16, i requires 0 <= i < 16 => a[i] % 16)
  }

  /** `_mm_testz_si128(a, a)` */
  predicate TestZero(a: Register) { forall i | 0 <= i < 16 :: a[i] == 0 }
}
