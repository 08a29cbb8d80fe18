/** The flag register F (`GbFlagsRegister`): Zero, Subtract, Half-carry and Carry,
    its byte packing and the shared branch-condition evaluator. */
module Flags {
  import opened Bytes

  /** The four condition bits. The Rust struct is owned by value by the register file;
      `set_as_f_register` overwrites all four fields, which is modelled by building a
      fresh `Flags` value that the owner stores. */
  datatype Flags = Flags(z: bool, n: bool, h: bool, c: bool)
  {
    /** `get_as_f_register`: bit 3..0 of `ret_val` collect z, n, h, c, then `ret_val << 4`.
        The four bits are disjoint, so each `|=` is an addition. */
    function GetAsFRegister(): (r: u8)
      ensures r % 0x10 == 0
    {
      var retVal := (if z then 0x8 else 0)
                    + (if n then 0x4 else 0)
                    + (if h then 0x2 else 0)
                    + (if c then 0x1 else 0);
      retVal * 0x10
    }

    /** `check_condition` for the 2-bit condition field cc of JR/JP/CALL/RET cc.
        Ids above 3 panic in the source; every caller passes a 2-bit field. */
    function CheckCondition(conditionId: nat): bool
      requires conditionId < 4
    {
      match conditionId
      case 0 => !z
      case 1 => z
      case 2 => !c
      case 3 => c
    }
  }

  /** The value every flag has after `set_as_f_register(0)`. */
  const Cleared := Flags(false, false, false, false)

  /** `set_as_f_register`: the flags read back from the high nibble of a byte
      (`new_f = new_val >> 4`, then one bit test per flag). */
  function SetAsFRegister(newVal: u8): (f: Flags)
    ensures f.z <==> newVal / 0x80 == 1
    ensures f.n <==> newVal / 0x40 % 2 == 1
    ensures f.h <==> newVal / 0x20 % 2 == 1
    ensures f.c <==> newVal / 0x10 % 2 == 1
  {
    var newF := newVal / 0x10;
    Flags(newF / 0x8 % 2 == 1, newF / 0x4 % 2 == 1, newF / 0x2 % 2 == 1, newF % 2 == 1)
  }

  /** Bit 7 of the packed byte is Z, bit 6 is N, bit 5 is H and bit 4 is C. */
  lemma PackedBitLayout(f: Flags)
    ensures f.GetAsFRegister() / 0x80 == (if f.z then 1 else 0)
    ensures f.GetAsFRegister() / 0x40 % 2 == (if f.n then 1 else 0)
    ensures f.GetAsFRegister() / 0x20 % 2 == (if f.h then 1 else 0)
    ensures f.GetAsFRegister() / 0x10 % 2 == (if f.c then 1 else 0)
  {
  }

  /** Unpacking reads only the high nibble (`b & 0xF0`); in particular a zero byte clears
      every flag. */
  lemma SetAsFRegisterReadsHighNibble(b: u8)
    ensures SetAsFRegister(b) == SetAsFRegister(b - b % 0x10)
    ensures SetAsFRegister(0) == Cleared
  {
  }

  /** Packing what was unpacked keeps exactly the high nibble: `b & 0xF0`. */
  lemma PackAfterSet(b: u8)
    ensures SetAsFRegister(b).GetAsFRegister() == b - b % 0x10
  {
  }

  /** Unpacking what was packed gives the flags back. */
  lemma SetAfterPack(f: Flags)
    ensures SetAsFRegister(f.GetAsFRegister()) == f
  {
  }

  /** Condition codes come in complementary pairs (NZ/Z, NC/C) and consult only Z and C. */
  lemma ConditionPairs(f: Flags, g: Flags)
    ensures f.CheckCondition(1) == f.z && f.CheckCondition(3) == f.c
    ensures f.CheckCondition(0) == !f.CheckCondition(1)
    ensures f.CheckCondition(2) == !f.CheckCondition(3)
    ensures f.z == g.z && f.c == g.c ==>
              forall id :: 0 <= id < 4 ==> f.CheckCondition(id) == g.CheckCondition(id)
  {
  }
}
