/** The register file (`GbRegisters`): seven 8-bit registers, the flags, SP and PC,
    the 16-bit pair views AF/BC/DE/HL and the opcode-field selectors r8, r16, r16mem and
    r16stk. `RegFile` is the value of the register file and carries the specification of
    every accessor; `GbRegisters` is the mutable struct whose methods are proved to
    update its fields as `RegFile` says. */
module Registers {
  import opened Bytes
  import opened Flags

  /** The high register written by the pair setters: `((new_val & 0xFF00) > 8) as u8`.
      The comparison `>` stands where a shift `>>` was meant, so the high register
      receives 1 when the word has any bit above bit 7 set, and 0 otherwise. */
  function PairHigh(newVal: u16): (r: u8)
    ensures r == (if newVal >= 0x100 then 1 else 0)
  {
    var masked := newVal - newVal % 0x100;  // new_val & 0xFF00
    if masked > 8 then 1 else 0
  }

  /** The value of the register file. */
  datatype RegFile = RegFile(a: u8, b: u8, c: u8, d: u8, e: u8, h: u8, l: u8,
                             f: Flags, sp: u16, pc: u16)
  {
    // Pair getters: `((hi as u16) << 8) | lo as u16`; the two bytes do not overlap,
    // so the bitwise or is an addition.

    function GetAF(): (r: u16)
      ensures r / 0x100 == a && r % 0x100 == f.GetAsFRegister()
      ensures r % 0x10 == 0
    {
      a * 0x100 + f.GetAsFRegister()
    }

    function GetBC(): (r: u16)
      ensures r / 0x100 == b && r % 0x100 == c
    {
      b * 0x100 + c
    }

    function GetDE(): (r: u16)
      ensures r / 0x100 == d && r % 0x100 == e
    {
      d * 0x100 + e
    }

    function GetHL(): (r: u16)
      ensures r / 0x100 == h && r % 0x100 == l
    {
      h * 0x100 + l
    }

    // Pair setters: the low byte is `(new_val & 0x00FF) as u8`, the high byte `PairHigh`.

    function SetAF(newVal: u16): (r: RegFile)
      ensures r.a == (if newVal >= 0x100 then 1 else 0)
      ensures r.f == SetAsFRegister(newVal % 0x100)
      ensures r == this.(a := r.a, f := r.f)
    {
      this.(a := PairHigh(newVal), f := SetAsFRegister(newVal % 0x100))
    }

    function SetBC(newVal: u16): (r: RegFile)
      ensures r.b == (if newVal >= 0x100 then 1 else 0) && r.c == newVal % 0x100
      ensures r == this.(b := r.b, c := r.c)
    {
      this.(b := PairHigh(newVal), c := newVal % 0x100)
    }

    function SetDE(newVal: u16): (r: RegFile)
      ensures r.d == (if newVal >= 0x100 then 1 else 0) && r.e == newVal % 0x100
      ensures r == this.(d := r.d, e := r.e)
    {
      this.(d := PairHigh(newVal), e := newVal % 0x100)
    }

    function SetHL(newVal: u16): (r: RegFile)
      ensures r.h == (if newVal >= 0x100 then 1 else 0) && r.l == newVal % 0x100
      ensures r == this.(h := r.h, l := r.l)
    {
      this.(h := PairHigh(newVal), l := newVal % 0x100)
    }

    /** `get_r16`: ids 0..3 select BC, DE, HL, SP; larger ids panic. */
    function GetR16(registerId: nat): u16
      requires registerId < 4
    {
      match registerId
      case 0 => GetBC()
      case 1 => GetDE()
      case 2 => GetHL()
      case 3 => sp
    }

    /** `set_r16`. */
    function SetR16(registerId: nat, newVal: u16): RegFile
      requires registerId < 4
    {
      match registerId
      case 0 => SetBC(newVal)
      case 1 => SetDE(newVal)
      case 2 => SetHL(newVal)
      case 3 => this.(sp := newVal)
    }

    /** `get_r16mem`: the address selected by an r16mem field, and the register file
        afterwards. Ids 2 and 3 are [HL+] and [HL-]: they return the old HL and store
        HL plus or minus one (wrapping) back through `set_hl`. */
    function GetR16Mem(registerId: nat): (r: (u16, RegFile))
      requires registerId < 4
      ensures r.0 == (if registerId == 0 then GetBC() else if registerId == 1 then GetDE() else GetHL())
      ensures registerId < 2 ==> r.1 == this
      ensures registerId >= 2 ==> r.1 == this.(h := r.1.h, l := r.1.l)
      ensures registerId >= 2 ==>
                var stepped := Wrap16(if registerId == 2 then GetHL() + 1 else GetHL() - 1);
                r.1.GetHL() == (if stepped >= 0x100 then 0x100 else 0) + stepped % 0x100
    {
      match registerId
      case 0 => (GetBC(), this)
      case 1 => (GetDE(), this)
      case 2 => var retVal := GetHL(); (retVal, SetHL(Wrap16(retVal + 1)))
      case 3 => var retVal := GetHL(); (retVal, SetHL(Wrap16(retVal - 1)))
    }

    /** `get_r16stk`: like r16, but id 3 is AF instead of SP. */
    function GetR16Stk(registerId: nat): u16
      requires registerId < 4
    {
      match registerId
      case 0 => GetBC()
      case 1 => GetDE()
      case 2 => GetHL()
      case 3 => GetAF()
    }

    /** `set_r16stk`. */
    function SetR16Stk(registerId: nat, newValue: u16): RegFile
      requires registerId < 4
    {
      match registerId
      case 0 => SetBC(newValue)
      case 1 => SetDE(newValue)
      case 2 => SetHL(newValue)
      case 3 => SetAF(newValue)
    }

    /** `internal_get_r8`: ids 0..5 and 7 are B, C, D, E, H, L, A. Id 6 ([HL]) is
        `unimplemented!` and ids above 7 panic, so both are excluded. */
    function InternalGetR8(registerId: nat): u8
      requires registerId < 8 && registerId != 6
    {
      match registerId
      case 0 => b
      case 1 => c
      case 2 => d
      case 3 => e
      case 4 => h
      case 5 => l
      case 7 => a
    }

    /** `internal_set_r8`. */
    function InternalSetR8(registerId: nat, newValue: u8): RegFile
      requires registerId < 8 && registerId != 6
    {
      match registerId
      case 0 => this.(b := newValue)
      case 1 => this.(c := newValue)
      case 2 => this.(d := newValue)
      case 3 => this.(e := newValue)
      case 4 => this.(h := newValue)
      case 5 => this.(l := newValue)
      case 7 => this.(a := newValue)
    }
  }

  /** Writing a pair and reading it back gives the written word exactly when it is below
      0x200: the high register only ever receives 0 or 1. */
  lemma PairSetGet(r: RegFile, v: u16)
    ensures r.SetBC(v).GetBC() == v <==> v < 0x200
    ensures r.SetDE(v).GetDE() == v <==> v < 0x200
    ensures r.SetHL(v).GetHL() == v <==> v < 0x200
    ensures r.SetBC(v).GetBC() == (if v >= 0x100 then 0x100 else 0) + v % 0x100
    ensures r.SetDE(v).GetDE() == (if v >= 0x100 then 0x100 else 0) + v % 0x100
    ensures r.SetHL(v).GetHL() == (if v >= 0x100 then 0x100 else 0) + v % 0x100
  {
  }

  /** For AF the low nibble is also lost: packing the flags keeps only the high nibble. */
  lemma AFSetGet(r: RegFile, v: u16)
    ensures r.SetAF(v).GetAF() == v <==> v < 0x200 && v % 0x10 == 0
  {
    var f := SetAsFRegister(v % 0x100);
    PackAfterSet(v % 0x100);
    assert f.GetAsFRegister() == v % 0x100 - v % 0x10;
  }

  /** The selectors r16 and r16stk agree on BC, DE and HL and differ only in slot 3,
      which is SP for r16 and AF for r16stk. */
  lemma R16StkAgreesWithR16(r: RegFile, registerId: nat, v: u16)
    requires registerId < 4
    ensures registerId < 3 ==> r.GetR16Stk(registerId) == r.GetR16(registerId)
    ensures registerId < 3 ==> r.SetR16Stk(registerId, v) == r.SetR16(registerId, v)
    ensures r.GetR16(3) == r.sp && r.GetR16Stk(3) == r.GetAF()
    ensures r.SetR16(3, v) == r.(sp := v) && r.SetR16Stk(3, v) == r.SetAF(v)
  {
  }

  /** [HL+] moves HL one up and [HL-] one down as long as the result stays below 0x200,
      where the pair setter is exact. */
  lemma R16MemStepsHL(r: RegFile)
    ensures r.GetHL() < 0x1FF ==> r.GetR16Mem(2).1.GetHL() == r.GetHL() + 1
    ensures 0 < r.GetHL() <= 0x200 ==> r.GetR16Mem(3).1.GetHL() == r.GetHL() - 1
  {
  }

  /** Above 0x1FF the post-increment collapses HL: from 0x8000 it lands on 0x0101. */
  lemma R16MemIncrementCollapses(r: RegFile)
    requires r.h == 0x80 && r.l == 0x00
    ensures r.GetR16Mem(2) == (0x8000, r.(h := 1, l := 1))
  {
  }

  /** `internal_set_r8` changes exactly the selected register. */
  lemma R8SetGet(r: RegFile, i: nat, j: nat, v: u8)
    requires i < 8 && i != 6 && j < 8 && j != 6
    ensures r.InternalSetR8(i, v).InternalGetR8(j) == (if i == j then v else r.InternalGetR8(j))
    ensures r.InternalSetR8(i, v).f == r.f
    ensures r.InternalSetR8(i, v).sp == r.sp && r.InternalSetR8(i, v).pc == r.pc
  {
  }

  /** The mutable register file. */
  class GbRegisters {
    var a: u8
    var b: u8
    var c: u8
    var d: u8
    var e: u8
    var h: u8
    var l: u8
    var f: Flags
    var stackPointer: u16
    var programCounter: u16

    function Value(): RegFile
      reads this
    {
      RegFile(a, b, c, d, e, h, l, f, stackPointer, programCounter)
    }

    /** The register file as `main` builds it: everything zero, SP = 0xFFFE. */
    constructor ()
      ensures Value() == RegFile(0, 0, 0, 0, 0, 0, 0, Cleared, 0xFFFE, 0)
    {
      a, b, c, d, e, h, l := 0, 0, 0, 0, 0, 0, 0;
      f := Flags(false, false, false, false);
      stackPointer := 0xFFFE;
      programCounter := 0;
    }

    method SetAF(newVal: u16)
      modifies this
      ensures Value() == old(Value()).SetAF(newVal)
    {
      a := PairHigh(newVal);
      f := SetAsFRegister(newVal % 0x100);
    }

    method SetBC(newVal: u16)
      modifies this
      ensures Value() == old(Value()).SetBC(newVal)
    {
      b := PairHigh(newVal);
      c := newVal % 0x100;
    }

    method SetDE(newVal: u16)
      modifies this
      ensures Value() == old(Value()).SetDE(newVal)
    {
      d := PairHigh(newVal);
      e := newVal % 0x100;
    }

    method SetHL(newVal: u16)
      modifies this
      ensures Value() == old(Value()).SetHL(newVal)
    {
      h := PairHigh(newVal);
      l := newVal % 0x100;
    }

    method SetR16(registerId: nat, newVal: u16)
      requires registerId < 4
      modifies this
      ensures Value() == old(Value()).SetR16(registerId, newVal)
    {
      match registerId
      case 0 => SetBC(newVal);
      case 1 => SetDE(newVal);
      case 2 => SetHL(newVal);
      case 3 => stackPointer := newVal;
    }

    method GetR16Mem(registerId: nat) returns (address: u16)
      requires registerId < 4
      modifies this
      ensures (address, Value()) == old(Value()).GetR16Mem(registerId)
    {
      match registerId
      case 0 => address := Value().GetBC();
      case 1 => address := Value().GetDE();
      case 2 =>
        address := Value().GetHL();
        SetHL(Wrap16(address + 1));  // wrapping_add(1)
      case 3 =>
        address := Value().GetHL();
        SetHL(Wrap16(address - 1));  // wrapping_sub(1)
    }

    method SetR16Stk(registerId: nat, newValue: u16)
      requires registerId < 4
      modifies this
      ensures Value() == old(Value()).SetR16Stk(registerId, newValue)
    {
      match registerId
      case 0 => SetBC(newValue);
      case 1 => SetDE(newValue);
      case 2 => SetHL(newValue);
      case 3 => SetAF(newValue);
    }

    method InternalSetR8(registerId: nat, newValue: u8)
      requires registerId < 8 && registerId != 6
      modifies this
      ensures Value() == old(Value()).InternalSetR8(registerId, newValue)
    {
      match registerId
      case 0 => b := newValue;
      case 1 => c := newValue;
      case 2 => d := newValue;
      case 3 => e := newValue;
      case 4 => h := newValue;
      case 5 => l := newValue;
      case 7 => a := newValue;
    }
  }
}
