/** The machine aggregate (`Gb`): register file, memory and the interrupt master enable
    (IME), with the operand fetches, the r8 routing of id 6 to [HL], and the stack
    primitives. `Machine` is the value of the aggregate and carries the specification;
    `Gb` is the mutable struct. */
module Gameboy {
  import opened Bytes
  import opened Flags
  import opened Registers
  import opened Memory

  datatype Machine = Machine(regs: RegFile, mem: Mem, ime: bool)
  {
    /** `get_r8`: id 6 reads the byte at HL, every other id a register. */
    function GetR8(registerId: nat): u8
      requires registerId < 8
    {
      if registerId != 6 then regs.InternalGetR8(registerId)
      else Read(mem, regs.GetHL())
    }

    /** `set_r8`: id 6 writes the byte at HL, every other id a register. */
    function SetR8(registerId: nat, newValue: u8): Machine
      requires registerId < 8
    {
      if registerId != 6 then this.(regs := regs.InternalSetR8(registerId, newValue))
      else this.(mem := Write(mem, regs.GetHL(), newValue))
    }

    /** PC with a new value, everything else unchanged. */
    function WithPC(pc: u16): Machine
    {
      this.(regs := regs.(pc := pc))
    }

    /** `read_byte_and_advance_program_counter`: PC is incremented first and the byte is
        read at PC - 1; both steps wrap (gameboy.rs:43, gameboy.rs:44). */
    function ReadByteAndAdvanceProgramCounter(): (r: (u8, Machine))
      ensures r.0 == Read(mem, regs.pc)
      ensures r.1 == WithPC(Wrap16(regs.pc + 1))
    {
      var pc := Wrap16(regs.pc + 1);
      (Read(mem, Wrap16(pc - 1)), WithPC(pc))
    }

    /** `read_word_and_advance_program_counter`: two fetches, the first is the low byte. */
    function ReadWordAndAdvanceProgramCounter(): (r: (u16, Machine))
      ensures r.0 == Read(mem, regs.pc) + 0x100 * Read(mem, Wrap16(regs.pc + 1))
      ensures r.1 == WithPC(Wrap16(regs.pc + 2))
    {
      var (b1, m1) := ReadByteAndAdvanceProgramCounter();
      var (b2, m2) := m1.ReadByteAndAdvanceProgramCounter();
      (b2 * 0x100 + b1, m2)  // (b2 << 8) | b1
    }

    /** `read_byte_signed_and_advance_program_counter`: the fetched byte reinterpreted as
        an `i8` (the `transmute` of gameboy.rs:55). */
    function ReadByteSignedAndAdvanceProgramCounter(): (r: (i8, Machine))
      ensures Wrap8(r.0) == Read(mem, regs.pc)
      ensures r.1 == WithPC(Wrap16(regs.pc + 1))
    {
      var pc := Wrap16(regs.pc + 1);
      var u8byte := Read(mem, Wrap16(pc - 1));
      (if u8byte < 0x80 then u8byte else u8byte - 0x100, WithPC(pc))
    }

    /** `read_hl_indirection_offset`: the byte at HL + offset (wrapping, gameboy.rs:59). */
    function ReadHLIndirectionOffset(offset: u16): u8
    {
      Read(mem, Wrap16(regs.GetHL() + offset))
    }

    /** `read_hl_indirection`. */
    function ReadHLIndirection(): (r: u8)
      ensures r == Read(mem, regs.GetHL())
    {
      ReadHLIndirectionOffset(0)
    }

    /** `set_hl_indirection_offset`: store at HL + offset (wrapping, gameboy.rs:65). */
    function SetHLIndirectionOffset(offset: u16, newValue: u8): (r: Machine)
      ensures r.regs == regs && r.ime == ime
      ensures r.ReadHLIndirectionOffset(offset) == newValue
      ensures forall address: u16 :: address != Wrap16(regs.GetHL() + offset) ==>
                Read(r.mem, address) == Read(mem, address)
    {
      var hlLocation := Wrap16(regs.GetHL() + offset);
      this.(mem := Write(mem, hlLocation, newValue))
    }

    /** `set_hl_indirection`. */
    function SetHLIndirection(newValue: u8): (r: Machine)
      ensures r == this.(mem := Write(mem, regs.GetHL(), newValue))
    {
      SetHLIndirectionOffset(0, newValue)
    }

    /** `pop_stack_byte`: read at SP, then SP + 1 (wrapping, gameboy.rs:73). */
    function PopStackByte(): (r: (u8, Machine))
    {
      var readByteLocation := regs.sp;
      (Read(mem, readByteLocation), this.(regs := regs.(sp := Wrap16(regs.sp + 1))))
    }

    /** `pop_stack_word`: the first popped byte is the low byte. */
    function PopStackWord(): (r: (u16, Machine))
      ensures r.0 == Read(mem, regs.sp) + 0x100 * Read(mem, Wrap16(regs.sp + 1))
      ensures r.1 == this.(regs := regs.(sp := Wrap16(regs.sp + 2)))
    {
      var (low, m1) := PopStackByte();
      var (high, m2) := m1.PopStackByte();
      (high * 0x100 + low, m2)  // read_byte_high | read_byte_low
    }

    /** `push_stack_byte`: write at SP, then SP - 1 (wrapping, gameboy.rs:83). */
    function PushStackByte(val: u8): Machine
    {
      var writeByteLocation := regs.sp;
      this.(regs := regs.(sp := Wrap16(regs.sp - 1)), mem := Write(mem, writeByteLocation, val))
    }

    /** `push_stack_word`: the high byte is pushed first, so it lands at the old SP and the
        low byte at SP - 1. */
    function PushStackWord(val: u16): (r: Machine)
      ensures r.regs == regs.(sp := Wrap16(regs.sp - 2)) && r.ime == ime
      ensures Read(r.mem, regs.sp) == val / 0x100
      ensures Read(r.mem, Wrap16(regs.sp - 1)) == val % 0x100
      ensures forall address: u16 :: address != regs.sp && address != Wrap16(regs.sp - 1) ==>
                Read(r.mem, address) == Read(mem, address)
    {
      var writeByteLow := val % 0x100;    // (val & 0xFF) as u8
      var writeByteHigh := val / 0x100;   // ((val & 0xFF00) >> 8) as u8
      PushStackByte(writeByteHigh).PushStackByte(writeByteLow)
    }
  }

  /** `get_r8` and `set_r8` behave as one register view: a write is read back, and a
      write leaves every other id unchanged, except that writing H or L moves the cell
      that id 6 ([HL]) reads. */
  lemma R8ViewSetGet(m: Machine, i: nat, j: nat, v: u8)
    requires i < 8 && j < 8
    ensures i == j ==> m.SetR8(i, v).GetR8(j) == v
    ensures i != j && (j != 6 || (i != 4 && i != 5)) ==> m.SetR8(i, v).GetR8(j) == m.GetR8(j)
  {
    if i != j && j == 6 && i != 4 && i != 5 {
      assert m.SetR8(i, v).regs.GetHL() == m.regs.GetHL();
    }
  }

  /** Pushing a word and popping it again restores SP but does not return the word:
      push stores at SP and SP - 1 and leaves SP two lower, while pop reads SP - 2 and
      SP - 1. The popped word is the pushed low byte over the old byte at SP - 2, so the
      round trip holds only for words whose two bytes equal that old byte. */
  lemma PushThenPop(m: Machine, v: u16)
    ensures m.PushStackWord(v).PopStackWord().1.regs == m.regs
    ensures m.PushStackWord(v).PopStackWord().0 == (v % 0x100) * 0x100 + Read(m.mem, Wrap16(m.regs.sp - 2))
    ensures m.PushStackWord(v).PopStackWord().0 == v <==>
              v / 0x100 == v % 0x100 == Read(m.mem, Wrap16(m.regs.sp - 2))
  {
    var pushed := m.PushStackWord(v);
    var sp: int := m.regs.sp;
    assert pushed.regs.sp == Wrap16(sp - 2);
    assert Wrap16(pushed.regs.sp + 1) == Wrap16(sp - 1);
    assert Wrap16(sp - 2) != sp && Wrap16(sp - 2) != Wrap16(sp - 1);
    assert Read(pushed.mem, Wrap16(sp - 2)) == Read(m.mem, Wrap16(sp - 2));
  }

  /** A byte push followed by a byte pop restores SP, but the pop reads the cell below the
      one the push wrote, so it returns the old byte at SP - 1 rather than the pushed one. */
  lemma PushByteThenPopByte(m: Machine, v: u8)
    ensures m.PushStackByte(v).PopStackByte() ==
              (Read(m.mem, Wrap16(m.regs.sp - 1)), m.(mem := Write(m.mem, m.regs.sp, v)))
  {
    var sp: int := m.regs.sp;
    assert Wrap16(Wrap16(sp - 1) + 1) == sp;
    assert Wrap16(sp - 1) != sp;
  }

  /** The machine as `main` leaves it before the first instruction: registers zero, flags
      clear, SP = 0xFFFE, PC = 0x0100, IME off, memory holding the resized ROM image. */
  function Initial(contents: seq<u8>): Machine
  {
    Machine(RegFile(0, 0, 0, 0, 0, 0, 0, Cleared, 0xFFFE, 0x100), Resized(contents), false)
  }

  /** The mutable aggregate. `registers` and `gbMemory` are owned by value in the source;
      here they are objects that only this aggregate refers to. */
  class Gb {
    const registers: GbRegisters
    const gbMemory: GbMemory
    var interruptMasterFlag: bool

    predicate Valid()
    {
      gbMemory.Valid()
    }

    function Value(): Machine
      reads this, registers, gbMemory.memoryArray
      requires Valid()
    {
      Machine(registers.Value(), gbMemory.Value(), interruptMasterFlag)
    }

    /** The initial `Gb` of `main` (main.rs:41-66): zeroed registers, SP = 0xFFFE,
        IME false, memory filled by `read_rom`, then PC = 0x100. */
    constructor (contents: seq<u8>)
      requires |contents| > 0x14A  // read_rom reads header bytes up to 0x14A
      ensures Valid() && fresh(registers) && fresh(gbMemory.memoryArray)
      ensures Value() == Initial(contents)
    {
      registers := new GbRegisters();
      gbMemory := new GbMemory();
      interruptMasterFlag := false;
      new;
      gbMemory.CopyFromImage(contents);
      registers.programCounter := 0x100;
    }

    function GetR8(registerId: nat): (r: u8)
      reads this, registers, gbMemory.memoryArray
      requires Valid() && registerId < 8
      ensures r == Value().GetR8(registerId)
    {
      if registerId != 6 then registers.Value().InternalGetR8(registerId)
      else gbMemory.ReadByte(registers.Value().GetHL())
    }

    method SetR8(registerId: nat, newValue: u8)
      requires Valid() && registerId < 8
      modifies registers, gbMemory.memoryArray
      ensures Value() == old(Value()).SetR8(registerId, newValue)
    {
      if registerId != 6 {
        registers.InternalSetR8(registerId, newValue);
      } else {
        var writeLocation := registers.Value().GetHL();
        gbMemory.WriteByte(writeLocation, newValue);
      }
    }

    method ReadByteAndAdvanceProgramCounter() returns (value: u8)
      requires Valid()
      modifies registers
      ensures (value, Value()) == old(Value()).ReadByteAndAdvanceProgramCounter()
    {
      registers.programCounter := Wrap16(registers.programCounter + 1);
      value := gbMemory.ReadByte(Wrap16(registers.programCounter - 1));
    }

    method ReadWordAndAdvanceProgramCounter() returns (value: u16)
      requires Valid()
      modifies registers
      ensures (value, Value()) == old(Value()).ReadWordAndAdvanceProgramCounter()
    {
      var b1 := ReadByteAndAdvanceProgramCounter();
      var b2 := ReadByteAndAdvanceProgramCounter();
      value := b2 as int * 0x100 + b1;
    }

    method ReadByteSignedAndAdvanceProgramCounter() returns (value: i8)
      requires Valid()
      modifies registers
      ensures (value, Value()) == old(Value()).ReadByteSignedAndAdvanceProgramCounter()
    {
      registers.programCounter := Wrap16(registers.programCounter + 1);
      var u8byte := gbMemory.ReadByte(Wrap16(registers.programCounter - 1));
      value := if u8byte < 0x80 then u8byte else u8byte as int - 0x100;
    }

    function ReadHLIndirectionOffset(offset: u16): (r: u8)
      reads this, registers, gbMemory.memoryArray
      requires Valid()
      ensures r == Value().ReadHLIndirectionOffset(offset)
    {
      gbMemory.ReadByte(Wrap16(registers.Value().GetHL() + offset))
    }

    function ReadHLIndirection(): (r: u8)
      reads this, registers, gbMemory.memoryArray
      requires Valid()
      ensures r == Value().ReadHLIndirection()
    {
      ReadHLIndirectionOffset(0)
    }

    method SetHLIndirectionOffset(offset: u16, newValue: u8)
      requires Valid()
      modifies gbMemory.memoryArray
      ensures Value() == old(Value()).SetHLIndirectionOffset(offset, newValue)
    {
      var hlLocation := Wrap16(registers.Value().GetHL() + offset);
      gbMemory.WriteByte(hlLocation, newValue);
    }

    method SetHLIndirection(newValue: u8)
      requires Valid()
      modifies gbMemory.memoryArray
      ensures Value() == old(Value()).SetHLIndirection(newValue)
    {
      SetHLIndirectionOffset(0, newValue);
    }

    method PopStackByte() returns (value: u8)
      requires Valid()
      modifies registers
      ensures (value, Value()) == old(Value()).PopStackByte()
    {
      var readByteLocation := registers.stackPointer;
      registers.stackPointer := Wrap16(registers.stackPointer + 1);
      value := gbMemory.ReadByte(readByteLocation);
    }

    method PopStackWord() returns (value: u16)
      requires Valid()
      modifies registers
      ensures (value, Value()) == old(Value()).PopStackWord()
    {
      var readByteLow := PopStackByte();
      var readByteHigh := PopStackByte();
      value := readByteHigh as int * 0x100 + readByteLow;
    }

    method PushStackByte(val: u8)
      requires Valid()
      modifies registers, gbMemory.memoryArray
      ensures Value() == old(Value()).PushStackByte(val)
    {
      var writeByteLocation := registers.stackPointer;
      registers.stackPointer := Wrap16(registers.stackPointer - 1);
      gbMemory.WriteByte(writeByteLocation, val);
    }

    method PushStackWord(val: u16)
      requires Valid()
      modifies registers, gbMemory.memoryArray
      ensures Value() == old(Value()).PushStackWord(val)
    {
      var writeByteLow := val % 0x100;
      var writeByteHigh := val / 0x100;
      PushStackByte(writeByteHigh);
      PushStackByte(writeByteLow);
    }
  }
}
