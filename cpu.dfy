/** The instruction semantics of `execute_op` (main.rs:186-788) as a function from the
    machine before an instruction to the machine after it, together with the half-carry
    helpers it uses. Each arm reads and writes the state in the order the source does;
    where a Rust `+` or `-` on `u8`/`u16` can overflow, the model wraps and says so. */
module Cpu {
  import opened Bytes
  import opened Flags
  import opened Registers
  import opened Memory
  import opened Gameboy
  import opened Decoder

  /** What `execute_op` reports. `Handled` is `ControlFlow::Break`, `Unrecognized` is
      `ControlFlow::Continue`; the DAA and HALT arms do not return, they panic. */
  datatype Outcome = Handled | Unrecognized | HaltPanic | DaaPanic

  /** `calculate_byte_half_carry_add`: the low nibbles sum to more than a nibble. */
  function CalculateByteHalfCarryAdd(a: u8, b: u8): bool
  {
    a % 0x10 + b % 0x10 > 0x0F
  }

  /** `calculate_word_half_carry_add`: the low bytes sum to more than a byte. */
  function CalculateWordHalfCarryAdd(a: u16, b: u16): bool
  {
    a % 0x100 + b % 0x100 > 0xFF
  }

  /** The byte added for a set carry flag (`if c { 1 } else { 0 }`). */
  function CarryBit(c: bool): u8
  {
    if c then 1 else 0
  }

  /** The accumulator and the flags after an accumulator operation. Every arm assigns all
      four flags, so the old flags matter only through the carry the caller passes in. */
  datatype AluResult = AluResult(a: u8, f: Flags)

  /** The group 2 arms (main.rs:412-496): `operand` is `get_r8(query_byte & 7)`. */
  function AluR8Result(op: AluOp, originalA: u8, operand: u8, carry: bool): AluResult
  {
    match op
    case Add =>
      var sum := operand + originalA;  // overflowing_add
      AluResult(Wrap8(sum),
                Flags(Wrap8(sum) == 0, false, CalculateByteHalfCarryAdd(operand, originalA), sum > 0xFF))
    case Adc =>
      // `original_a + carry_addition` overflows for A = 0xFF with carry (main.rs:427, 432);
      // modelled as wrapping
      var addend := Wrap8(originalA + CarryBit(carry));
      var sum := operand + addend;
      AluResult(Wrap8(sum),
                Flags(Wrap8(sum) == 0, false, CalculateByteHalfCarryAdd(operand, addend), sum > 0xFF))
    case Sub =>
      var diff := originalA - operand;  // overflowing_sub
      AluResult(Wrap8(diff), Flags(Wrap8(diff) == 0, true, false, diff < 0))
    case Sbc =>
      // the carry flag is not consulted: the arm is SUB's
      var diff := originalA - operand;
      AluResult(Wrap8(diff), Flags(Wrap8(diff) == 0, true, false, diff < 0))
    case And =>
      var r := And8(originalA, operand);
      AluResult(r, Flags(r == 0, false, true, false))
    case Xor =>
      var r := Xor8(originalA, operand);
      AluResult(r, Flags(r == 0, false, false, false))
    case Or =>
      var r := Or8(originalA, operand);
      AluResult(r, Flags(r == 0, false, false, false))
    case Cp =>
      var result := Wrap8(originalA - operand);
      AluResult(originalA, Flags(result == 0, true, false, operand > originalA))
  }

  /** The imm8 accumulator arms of group 3 (main.rs:562-659). */
  function AluImm8Result(op: AluOp, oldA: u8, nextByte: u8, carry: bool): AluResult
  {
    match op
    case Add =>
      var sum := oldA + nextByte;
      AluResult(Wrap8(sum), Flags(Wrap8(sum) == 0, false, false, sum > 0xFF))
    case Adc =>
      // `next_byte + carry_addition` overflows for 0xFF with carry (main.rs:579, 583);
      // modelled as wrapping
      var addend := Wrap8(nextByte + CarryBit(carry));
      var sum := oldA + addend;
      AluResult(Wrap8(sum),
                Flags(Wrap8(sum) == 0, false, CalculateByteHalfCarryAdd(oldA, addend), sum > 0xFF))
    case Sub =>
      var diff := oldA - nextByte;
      AluResult(Wrap8(diff), Flags(Wrap8(diff) == 0, true, false, diff < 0))
    case Sbc =>
      // `next_byte + carry_sub` overflows for 0xFF with carry (main.rs:605); modelled as wrapping
      var subtrahend := Wrap8(nextByte + CarryBit(carry));
      var diff := oldA - subtrahend;
      AluResult(Wrap8(diff), Flags(Wrap8(diff) == 0, true, false, diff < 0))
    case And =>
      var r := And8(oldA, nextByte);
      AluResult(r, Flags(r == 0, false, true, false))
    case Xor =>
      var r := Xor8(oldA, nextByte);
      AluResult(r, Flags(r == 0, false, false, false))
    case Or =>
      var r := Or8(oldA, nextByte);
      AluResult(r, Flags(r == 0, false, false, false))
    case Cp =>
      var diff := oldA - nextByte;
      AluResult(oldA, Flags(Wrap8(diff) == 0, true, false, diff < 0))
  }

  /** `u16::wrapping_add_signed` of JR. */
  function AddSigned(pc: u16, offset: i8): u16
  {
    Wrap16(pc + offset)
  }

  /** ADD SP, imm8 and LD HL, SP + imm8 (main.rs:740-763): the byte is added unsigned
      (`imm8 as u16`), H comes from the low byte of SP and C is `result > 0xFF`. */
  function SpPlusImm8(sp: u16, imm8: u8, f: Flags): (u16, Flags)
  {
    var newValue := Wrap16(sp + imm8);  // overflowing_add, overflow discarded
    (newValue, f.(h := CalculateByteHalfCarryAdd(sp % 0x100, imm8), c := newValue > 0xFF,
                  z := false, n := false))
  }

  /** The state after one `execute_op` arm and what the arm reports. The panicking arms and
      the unrecognized opcodes leave the state as it was. */
  function Execute(m: Machine, i: Instr): (Machine, Outcome)
    requires WellFormed(i)
  {
    match i
    case Nop => (m, Handled)
    case LdR16Imm16(r16) =>
      var (writeWord, m1) := m.ReadWordAndAdvanceProgramCounter();
      (m1.(regs := m1.regs.SetR16(r16, writeWord)), Handled)
    case LdR16MemA(r16mem) =>
      var (writeLocation, regs1) := m.regs.GetR16Mem(r16mem);
      (Machine(regs1, Write(m.mem, writeLocation, regs1.a), m.ime), Handled)
    case LdAR16Mem(r16mem) =>
      var (readLocation, regs1) := m.regs.GetR16Mem(r16mem);
      (m.(regs := regs1.(a := Read(m.mem, readLocation))), Handled)
    case LdImm16Sp =>
      // stores A, not SP
      var (writeLocation, m1) := m.ReadWordAndAdvanceProgramCounter();
      (m1.(mem := Write(m1.mem, writeLocation, m1.regs.a)), Handled)
    case IncR16(r16) =>
      // `get_r16(..) + 1` overflows at 0xFFFF (main.rs:234); modelled as wrapping
      var newVal := Wrap16(m.regs.GetR16(r16) + 1);
      (m.(regs := m.regs.SetR16(r16, newVal)), Handled)
    case DecR16(r16) =>
      var oldVal := m.regs.GetR16(r16);
      var newVal := if oldVal == 0 then 0 else oldVal - 1;  // saturating_sub(1)
      (m.(regs := m.regs.SetR16(r16, newVal)), Handled)
    case AddHlR16(r16) =>
      var oldHl := m.regs.GetHL();
      var operand := m.regs.GetR16(r16);
      var sum := oldHl + operand;  // overflowing_add
      var f := m.regs.f.(n := false, c := sum > 0xFFFF, h := CalculateWordHalfCarryAdd(oldHl, operand));
      (m.(regs := m.regs.(f := f).SetHL(Wrap16(sum))), Handled)
    case IncR8(r8) =>
      var oldVal := m.GetR8(r8);
      var newVal := Wrap8(oldVal + 1);  // overflowing_add(1)
      var m1 := m.SetR8(r8, newVal);
      var f := m1.regs.f.(n := false, z := newVal == 0, h := CalculateByteHalfCarryAdd(oldVal, 1));
      (m1.(regs := m1.regs.(f := f)), Handled)
    case DecR8(r8) =>
      var oldVal := m.GetR8(r8);
      var newVal := Wrap8(oldVal - 1);  // overflowing_sub(1)
      var m1 := m.SetR8(r8, newVal);
      var f := m1.regs.f.(n := true, z := newVal == 0, h := false);
      (m1.(regs := m1.regs.(f := f)), Handled)
    case LdR8Imm8(r8) =>
      var (writeByte, m1) := m.ReadByteAndAdvanceProgramCounter();
      (m1.SetR8(r8, writeByte), Handled)
    case JrImm8 =>
      var (offset, m1) := m.ReadByteSignedAndAdvanceProgramCounter();
      (m1.WithPC(AddSigned(m1.regs.pc, offset)), Handled)
    case JrCondImm8(cond) =>
      var (offset, m1) := m.ReadByteSignedAndAdvanceProgramCounter();
      if m1.regs.f.CheckCondition(cond) then (m1.WithPC(AddSigned(m1.regs.pc, offset)), Handled)
      else (m1, Handled)
    case Stop =>
      var (_, m1) := m.ReadByteAndAdvanceProgramCounter();
      (m1, Handled)
    case Rlca =>
      var regA := m.regs.a;
      var newVal := Wrap8(regA * 2) + regA / 0x80;  // rotate_left(1)
      (m.(regs := m.regs.(a := newVal, f := Cleared.(c := regA >= 0x80))), Handled)
    case Rrca =>
      var regA := m.regs.a;
      var newVal := regA / 2 + (regA % 2) * 0x80;  // rotate_right(1)
      (m.(regs := m.regs.(a := newVal, f := Cleared.(c := regA % 2 == 1))), Handled)
    case Rla =>
      // `overflowing_shl(1)` reports no overflow for a shift by 1, so C ends false; bit 0
      // of the shifted value is 0, so `|=` adds the old carry
      var oldC := m.regs.f.c;
      var newA := Wrap8(m.regs.a * 2) + CarryBit(oldC);
      (m.(regs := m.regs.(a := newA, f := Cleared)), Handled)
    case Rra =>
      var oldC := m.regs.f.c;
      var newA := m.regs.a / 2 + (if oldC then 0x80 else 0);
      (m.(regs := m.regs.(a := newA, f := Cleared)), Handled)
    case Daa => (m, DaaPanic)
    case Cpl =>
      (m.(regs := m.regs.(a := Not8(m.regs.a), f := m.regs.f.(n := true, h := true))), Handled)
    case Scf =>
      (m.(regs := m.regs.(f := m.regs.f.(n := false, h := false, c := true))), Handled)
    case Ccf =>
      (m.(regs := m.regs.(f := m.regs.f.(c := !m.regs.f.c))), Handled)
    case Halt => (m, HaltPanic)
    case LdR8R8(dst, src) =>
      (m.SetR8(dst, m.GetR8(src)), Handled)
    case AluR8(op, src) =>
      var res := AluR8Result(op, m.regs.a, m.GetR8(src), m.regs.f.c);
      (m.(regs := m.regs.(a := res.a, f := res.f)), Handled)
    case RetCond(cond) =>
      if m.regs.f.CheckCondition(cond) then
        var (newPc, m1) := m.PopStackWord();
        (m1.WithPC(newPc), Handled)
      else (m, Handled)
    case JpCondImm16(cond) =>
      var (jpLocation, m1) := m.ReadWordAndAdvanceProgramCounter();
      if m1.regs.f.CheckCondition(cond) then (m1.WithPC(jpLocation), Handled)
      else (m1, Handled)
    case CallCondImm16(cond) =>
      var (callLocation, m1) := m.ReadWordAndAdvanceProgramCounter();
      var returnPc := m1.regs.pc;
      if m1.regs.f.CheckCondition(cond) then
        (m1.PushStackWord(returnPc).WithPC(callLocation), Handled)
      else (m1, Handled)
    case Rst(target) =>
      (m.PushStackWord(m.regs.pc).WithPC(target * 8), Handled)
    case PopR16Stk(r16stk) =>
      var (readWord, m1) := m.PopStackWord();
      (m1.(regs := m1.regs.SetR16Stk(r16stk, readWord)), Handled)
    case PushR16Stk(r16stk) =>
      (m.PushStackWord(m.regs.GetR16Stk(r16stk)), Handled)
    case AluImm8(op) =>
      var oldA := m.regs.a;
      var (nextByte, m1) := m.ReadByteAndAdvanceProgramCounter();
      var res := AluImm8Result(op, oldA, nextByte, m1.regs.f.c);
      (m1.(regs := m1.regs.(a := res.a, f := res.f)), Handled)
    case Ret =>
      var (newPc, m1) := m.PopStackWord();
      (m1.WithPC(newPc), Handled)
    case Reti =>
      var (newPc, m1) := m.(ime := true).PopStackWord();
      (m1.WithPC(newPc), Handled)
    case JpImm16 =>
      var (newPc, m1) := m.ReadWordAndAdvanceProgramCounter();
      (m1.WithPC(newPc), Handled)
    case JpHl =>
      (m.WithPC(m.regs.GetHL()), Handled)
    case CallImm16 =>
      // the return address is pushed before the operand is fetched
      var returnPc := m.regs.pc;
      var m1 := m.PushStackWord(returnPc);
      var (newPc, m2) := m1.ReadWordAndAdvanceProgramCounter();
      (m2.WithPC(newPc), Handled)
    case LdhCA =>
      // `c as u16 + 0xFF00` cannot overflow
      (m.(mem := Write(m.mem, m.regs.c + 0xFF00, m.regs.a)), Handled)
    case LdhImm8A =>
      // addresses with C and fetches nothing; `0xFF00 | c` is `0xFF00 + c` since c < 0x100
      (m.(mem := Write(m.mem, 0xFF00 + m.regs.c, m.regs.a)), Handled)
    case LdImm16A =>
      var writeByte := m.regs.a;
      var (writeLocation, m1) := m.ReadWordAndAdvanceProgramCounter();
      (m1.(mem := Write(m1.mem, writeLocation, writeByte)), Handled)
    case LdhAC =>
      (m.(regs := m.regs.(a := Read(m.mem, 0xFF00 + m.regs.c))), Handled)
    case LdhAImm8 =>
      var (readLocationLow, m1) := m.ReadByteAndAdvanceProgramCounter();
      (m1.(regs := m1.regs.(a := Read(m1.mem, 0xFF00 + readLocationLow))), Handled)
    case LdAImm16 =>
      var (imm16, m1) := m.ReadWordAndAdvanceProgramCounter();
      (m1.(regs := m1.regs.(a := Read(m1.mem, imm16))), Handled)
    case AddSpImm8 =>
      var (imm8, m1) := m.ReadByteAndAdvanceProgramCounter();
      var (newSp, f) := SpPlusImm8(m1.regs.sp, imm8, m1.regs.f);
      (m1.(regs := m1.regs.(f := f, sp := newSp)), Handled)
    case LdHlSpImm8 =>
      var (imm8, m1) := m.ReadByteAndAdvanceProgramCounter();
      var (newHl, f) := SpPlusImm8(m1.regs.sp, imm8, m1.regs.f);
      (m1.(regs := m1.regs.(f := f).SetHL(newHl)), Handled)
    case LdSpHl =>
      (m.(regs := m.regs.(sp := m.regs.GetHL())), Handled)
    case Di => (m.(ime := false), Handled)
    case Ei => (m.(ime := true), Handled)
    case Undefined => (m, Unrecognized)
  }

  /** `execute_op(gb, query_byte)`. */
  function ExecuteOp(m: Machine, queryByte: u8): (Machine, Outcome)
  {
    Execute(m, Decode(queryByte as bv8))
  }

  /** The opcode-parsing part of one main-loop iteration (main.rs:137-153): fetch the byte
      at PC, then execute it. */
  function FetchExecute(m: Machine): (Machine, Outcome)
  {
    var (queryByte, m1) := m.ReadByteAndAdvanceProgramCounter();
    ExecuteOp(m1, queryByte)
  }
}
