/** Machine integers of the SM83 core.
    Rust's `u8`/`u16` are modelled as bounded mathematical integers; every place where the
    Rust code can overflow is written out with `Wrap8`/`Wrap16` (the release-build
    behaviour; a debug build would panic there instead). */
module Bytes {

  type u8 = x: int | 0 <= x < 0x100
  type u16 = x: int | 0 <= x < 0x10000
  type i8 = x: int | -0x80 <= x < 0x80

  /** Two's-complement wrap-around of an 8-bit result. */
  function Wrap8(x: int): u8 { x % 0x100 }

  /** Two's-complement wrap-around of a 16-bit result. */
  function Wrap16(x: int): u16 { x % 0x10000 }

  /** Bitwise operators on bytes, computed on the 8-bit pattern. */
  function And8(x: u8, y: u8): u8 { ((x as bv8) & (y as bv8)) as int }

  function Or8(x: u8, y: u8): u8 { ((x as bv8) | (y as bv8)) as int }

  function Xor8(x: u8, y: u8): u8 { ((x as bv8) ^ (y as bv8)) as int }

  function Not8(x: u8): u8 { (!(x as bv8)) as int }

  /** The complement of a byte is its difference from 0xFF. */
  lemma Not8IsComplement(x: u8)
    ensures Not8(x) == 0xFF - x
  {
    var b := x as bv8;
    assert b as int == x;
    assert !b == 0xFF - b;
    assert (0xFF - b) as int == 0xFF - b as int;
  }

  /** A byte read as an 8-bit pattern and back is the same byte, and the other way round. */
  lemma ByteToBits(a: u8)
    ensures (a as bv8) as int == a
  {
    PatternIsResidue(a);
    ByteIsOwnResidue(a);
  }

  lemma PatternIsResidue(a: u8)
    ensures (a as bv8) as int == a % 0x100
  {
  }

  lemma ByteIsOwnResidue(a: u8)
    ensures a % 0x100 == a
  {
  }

  lemma BitsToByte(b: bv8)
    ensures (b as int) as bv8 == b
  {
  }
}
