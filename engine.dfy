/** `execute_op` on the mutable machine: one method per arm, or per group of arms whose
    code differs only in a selector, each assigning the fields of `Gb` in the order the
    arm does and proved to reach the state `Cpu.Execute` describes, and the dispatcher
    that decodes the opcode and runs the arm. */
module Engine {
  import opened Bytes
  import opened Flags
  import opened Registers
  import opened Memory
  import opened Gameboy
  import opened Decoder
  import opened Interrupts
  import Cpu
  import MainLoop

  /** LD r16, imm16 (main.rs:196-202). */
  method ExecLdR16Imm16(gb: Gb, r16: nat)
    requires gb.Valid() && r16 < 4
    modifies gb.registers
    ensures (gb.Value(), Cpu.Handled) == Cpu.Execute(old(gb.Value()), LdR16Imm16(r16))
  {
    var writeWord := gb.ReadWordAndAdvanceProgramCounter();
    gb.registers.SetR16(r16, writeWord);
  }

  /** LD [r16mem], A (main.rs:204-211). */
  method ExecLdR16MemA(gb: Gb, r16mem: nat)
    requires gb.Valid() && r16mem < 4
    modifies gb.registers, gb.gbMemory.memoryArray
    ensures (gb.Value(), Cpu.Handled) == Cpu.Execute(old(gb.Value()), LdR16MemA(r16mem))
  {
    var writeLocation := gb.registers.GetR16Mem(r16mem);
    var writeByte := gb.registers.a;
    gb.gbMemory.WriteByte(writeLocation, writeByte);
  }

  /** LD A, [r16mem] (main.rs:213-220). */
  method ExecLdAR16Mem(gb: Gb, r16mem: nat)
    requires gb.Valid() && r16mem < 4
    modifies gb.registers
    ensures (gb.Value(), Cpu.Handled) == Cpu.Execute(old(gb.Value()), LdAR16Mem(r16mem))
  {
    var readLocation := gb.registers.GetR16Mem(r16mem);
    var writeByte := gb.gbMemory.ReadByte(readLocation);
    gb.registers.a := writeByte;
  }

  /** LD [imm16], SP (main.rs:222-228), which stores A. */
  method ExecLdImm16Sp(gb: Gb)
    requires gb.Valid()
    modifies gb.registers, gb.gbMemory.memoryArray
    ensures (gb.Value(), Cpu.Handled) == Cpu.Execute(old(gb.Value()), LdImm16Sp)
  {
    var writeLocation := gb.ReadWordAndAdvanceProgramCounter();
    var writeByte := gb.registers.a;
    gb.gbMemory.WriteByte(writeLocation, writeByte);
  }

  /** INC r16 and DEC r16 (main.rs:230-246). */
  method ExecIncDecR16(gb: Gb, r16: nat, increment: bool)
    requires gb.Valid() && r16 < 4
    modifies gb.registers
    ensures (gb.Value(), Cpu.Handled) ==
              Cpu.Execute(old(gb.Value()), if increment then IncR16(r16) else DecR16(r16))
  {
    var oldVal: int := gb.registers.Value().GetR16(r16);
    var newVal: u16;
    if increment {
      newVal := Wrap16(oldVal + 1);  // `+ 1` overflows at 0xFFFF (main.rs:234): wrapping
    } else {
      newVal := if oldVal == 0 then 0 else oldVal - 1;  // saturating_sub(1)
    }
    gb.registers.SetR16(r16, newVal);
  }

  /** ADD HL, r16 (main.rs:248-259). */
  method ExecAddHlR16(gb: Gb, r16: nat)
    requires gb.Valid() && r16 < 4
    modifies gb.registers
    ensures (gb.Value(), Cpu.Handled) == Cpu.Execute(old(gb.Value()), AddHlR16(r16))
  {
    var oldHl := gb.registers.Value().GetHL();
    var operand := gb.registers.Value().GetR16(r16);
    var sum: int := oldHl as int + operand;
    gb.registers.f := gb.registers.f.(n := false);
    gb.registers.f := gb.registers.f.(c := sum > 0xFFFF);
    gb.registers.f := gb.registers.f.(h := Cpu.CalculateWordHalfCarryAdd(oldHl, operand));
    gb.registers.SetHL(Wrap16(sum));
  }

  /** INC r8 and DEC r8 (main.rs:261-283). */
  method ExecIncDecR8(gb: Gb, r8: nat, increment: bool)
    requires gb.Valid() && r8 < 8
    modifies gb.registers, gb.gbMemory.memoryArray
    ensures (gb.Value(), Cpu.Handled) ==
              Cpu.Execute(old(gb.Value()), if increment then IncR8(r8) else DecR8(r8))
  {
    var oldVal := gb.GetR8(r8);
    var newVal: u8 := if increment then Wrap8(oldVal as int + 1) else Wrap8(oldVal as int - 1);
    gb.SetR8(r8, newVal);
    gb.registers.f := gb.registers.f.(n := !increment);
    gb.registers.f := gb.registers.f.(z := newVal == 0);
    gb.registers.f := gb.registers.f.(h := increment && Cpu.CalculateByteHalfCarryAdd(oldVal, 1));
  }

  /** LD r8, imm8 (main.rs:284-290). */
  method ExecLdR8Imm8(gb: Gb, r8: nat)
    requires gb.Valid() && r8 < 8
    modifies gb.registers, gb.gbMemory.memoryArray
    ensures (gb.Value(), Cpu.Handled) == Cpu.Execute(old(gb.Value()), LdR8Imm8(r8))
  {
    var writeByte := gb.ReadByteAndAdvanceProgramCounter();
    gb.SetR8(r8, writeByte);
  }

  /** JR imm8 and JR cc, imm8 (main.rs:292-316); `cond` is absent for the unconditional form. */
  method ExecJr(gb: Gb, cond: nat, conditional: bool)
    requires gb.Valid() && cond < 4
    modifies gb.registers
    ensures (gb.Value(), Cpu.Handled) ==
              Cpu.Execute(old(gb.Value()), if conditional then JrCondImm8(cond) else JrImm8)
  {
    var offset := gb.ReadByteSignedAndAdvanceProgramCounter();
    var currentPc := gb.registers.programCounter;
    if !conditional || gb.registers.f.CheckCondition(cond) {
      gb.registers.programCounter := Cpu.AddSigned(currentPc, offset);
    }
  }

  /** STOP (main.rs:319-322): the operand byte is fetched and discarded. */
  method ExecStop(gb: Gb)
    requires gb.Valid()
    modifies gb.registers
    ensures (gb.Value(), Cpu.Handled) == Cpu.Execute(old(gb.Value()), Stop)
  {
    var _ := gb.ReadByteAndAdvanceProgramCounter();
  }

  /** RLCA (main.rs:324-332). */
  method ExecRlca(gb: Gb)
    requires gb.Valid()
    modifies gb.registers
    ensures (gb.Value(), Cpu.Handled) == Cpu.Execute(old(gb.Value()), Rlca)
  {
    gb.registers.f := SetAsFRegister(0);
    SetAsFRegisterReadsHighNibble(0);
    var regA: int := gb.registers.a;
    gb.registers.f := gb.registers.f.(c := regA >= 0x80);
    gb.registers.a := Wrap8(regA * 2) + regA / 0x80;
  }

  /** RRCA (main.rs:333-341). */
  method ExecRrca(gb: Gb)
    requires gb.Valid()
    modifies gb.registers
    ensures (gb.Value(), Cpu.Handled) == Cpu.Execute(old(gb.Value()), Rrca)
  {
    gb.registers.f := SetAsFRegister(0);
    SetAsFRegisterReadsHighNibble(0);
    var regA: int := gb.registers.a;
    gb.registers.f := gb.registers.f.(c := regA % 2 == 1);
    gb.registers.a := regA / 2 + (regA % 2) * 0x80;
  }

  /** RLA (main.rs:342-352): the shift reports no overflow, so C ends cleared. */
  method ExecRla(gb: Gb)
    requires gb.Valid()
    modifies gb.registers
    ensures (gb.Value(), Cpu.Handled) == Cpu.Execute(old(gb.Value()), Rla)
  {
    var oldC := gb.registers.f.c;
    var regA: int := gb.registers.a;
    gb.registers.f := SetAsFRegister(0);
    SetAsFRegisterReadsHighNibble(0);
    var newA := Wrap8(regA * 2) + Cpu.CarryBit(oldC);  // overflowing_shl(1), then |= old carry
    gb.registers.a := newA;
    gb.registers.f := gb.registers.f.(c := false);
  }

  /** RRA (main.rs:353-363): the shift reports no overflow, so C ends cleared. */
  method ExecRra(gb: Gb)
    requires gb.Valid()
    modifies gb.registers
    ensures (gb.Value(), Cpu.Handled) == Cpu.Execute(old(gb.Value()), Rra)
  {
    var oldC := gb.registers.f.c;
    var regA: int := gb.registers.a;
    gb.registers.f := SetAsFRegister(0);
    SetAsFRegisterReadsHighNibble(0);
    var newA := regA / 2 + (if oldC then 0x80 else 0);  // overflowing_shr(1), then |= old carry
    gb.registers.a := newA;
    gb.registers.f := gb.registers.f.(c := false);
  }

  /** CPL, SCF and CCF (main.rs:368-388). */
  method ExecFlagOp(gb: Gb, i: Instr)
    requires gb.Valid() && (i.Cpl? || i.Scf? || i.Ccf?)
    modifies gb.registers
    ensures (gb.Value(), Cpu.Handled) == Cpu.Execute(old(gb.Value()), i)
  {
    match i
    case Cpl =>
      var oldA := gb.registers.a;
      gb.registers.f := gb.registers.f.(n := true);
      gb.registers.f := gb.registers.f.(h := true);
      gb.registers.a := Not8(oldA);
    case Scf =>
      gb.registers.f := gb.registers.f.(n := false);
      gb.registers.f := gb.registers.f.(h := false);
      gb.registers.f := gb.registers.f.(c := true);
    case Ccf =>
      var oldCarry := gb.registers.f.c;
      gb.registers.f := gb.registers.f.(c := !oldCarry);
  }

  /** LD r8, r8 (main.rs:399-404). */
  method ExecLdR8R8(gb: Gb, dst: nat, src: nat)
    requires gb.Valid() && dst < 8 && src < 8
    modifies gb.registers, gb.gbMemory.memoryArray
    ensures (gb.Value(), Cpu.Handled) == Cpu.Execute(old(gb.Value()), LdR8R8(dst, src))
  {
    var writeByte := gb.GetR8(src);
    gb.SetR8(dst, writeByte);
  }

  /** The accumulator arms of group 2 (main.rs:406-496). */
  method ExecAluR8(gb: Gb, op: AluOp, src: nat)
    requires gb.Valid() && src < 8
    modifies gb.registers
    ensures (gb.Value(), Cpu.Handled) == Cpu.Execute(old(gb.Value()), AluR8(op, src))
  {
    var originalOperandValue := gb.GetR8(src);
    var originalA := gb.registers.a;
    ApplyAluR8(gb.registers, op, originalA, originalOperandValue);
  }

  /** The `match group_2_id` of the r8 accumulator arms (main.rs:411-496), each assigning
      A and the four flags in the order its arm does. */
  method ApplyAluR8(registers: GbRegisters, op: AluOp, originalA: u8, originalOperandValue: u8)
    requires originalA == registers.a
    modifies registers
    ensures var result := Cpu.AluR8Result(op, originalA, originalOperandValue, old(registers.f.c));
            registers.Value() == old(registers.Value()).(a := result.a, f := result.f)
  {
    match op
    case Add =>
      var sum: int := originalOperandValue + originalA;  // overflowing_add
      var newValue := Wrap8(sum);
      registers.f := registers.f.(n := false);
      registers.f := registers.f.(z := newValue == 0);
      registers.f := registers.f.(c := sum > 0xFF);
      registers.f := registers.f.(h := Cpu.CalculateByteHalfCarryAdd(originalOperandValue, originalA));
      registers.a := newValue;
    case Adc =>
      var carryAddition := if registers.f.c then 1 else 0;
      // `original_a + carry_addition` overflows for A = 0xFF with carry (main.rs:427, 432);
      // modelled as wrapping
      var addend := Wrap8(originalA + carryAddition);
      var sum: int := originalOperandValue + addend;
      var newValue := Wrap8(sum);
      registers.f := registers.f.(n := false);
      registers.f := registers.f.(z := newValue == 0);
      registers.f := registers.f.(h := Cpu.CalculateByteHalfCarryAdd(originalOperandValue, addend));
      registers.f := registers.f.(c := sum > 0xFF);
      registers.a := newValue;
    case Sub =>
      var diff: int := originalA - originalOperandValue;  // overflowing_sub
      var newValue := Wrap8(diff);
      registers.f := registers.f.(n := true);
      registers.f := registers.f.(z := newValue == 0);
      registers.f := registers.f.(h := false);
      registers.f := registers.f.(c := diff < 0);
      registers.a := newValue;
    case Sbc =>
      var diff: int := originalA - originalOperandValue;
      var newValue := Wrap8(diff);
      registers.f := registers.f.(n := true);
      registers.f := registers.f.(z := newValue == 0);
      registers.f := registers.f.(h := false);
      registers.f := registers.f.(c := diff < 0);
      registers.a := newValue;
    case And =>
      var newValue := And8(originalA, originalOperandValue);
      registers.a := newValue;
      registers.f := registers.f.(n := false);
      registers.f := registers.f.(h := true);
      registers.f := registers.f.(c := false);
      registers.f := registers.f.(z := newValue == 0);
    case Xor =>
      var newValue := Xor8(originalA, originalOperandValue);
      registers.a := newValue;
      registers.f := registers.f.(n := false);
      registers.f := registers.f.(h := false);
      registers.f := registers.f.(c := false);
      registers.f := registers.f.(z := newValue == 0);
    case Or =>
      var newValue := Or8(originalA, originalOperandValue);
      registers.a := newValue;
      registers.f := registers.f.(n := false);
      registers.f := registers.f.(h := false);
      registers.f := registers.f.(c := false);
      registers.f := registers.f.(z := newValue == 0);
    case Cp =>
      var result := Wrap8(originalA - originalOperandValue);
      registers.f := registers.f.(n := true);
      registers.f := registers.f.(z := result == 0);
      registers.f := registers.f.(h := false);
      registers.f := registers.f.(c := originalOperandValue > originalA);
  }

  /** RET cc (main.rs:504-513). */
  method ExecRetCond(gb: Gb, cond: nat)
    requires gb.Valid() && cond < 4
    modifies gb.registers
    ensures (gb.Value(), Cpu.Handled) == Cpu.Execute(old(gb.Value()), RetCond(cond))
  {
    var condState := gb.registers.f.CheckCondition(cond);
    if condState {
      var newPc := gb.PopStackWord();
      gb.registers.programCounter := newPc;
    }
  }

  /** JP cc, imm16 and JP imm16 (main.rs:514-523, 673-678). */
  method ExecJp(gb: Gb, cond: nat, conditional: bool)
    requires gb.Valid() && cond < 4
    modifies gb.registers
    ensures (gb.Value(), Cpu.Handled) ==
              Cpu.Execute(old(gb.Value()), if conditional then JpCondImm16(cond) else JpImm16)
  {
    var jpLocation := gb.ReadWordAndAdvanceProgramCounter();
    if !conditional || gb.registers.f.CheckCondition(cond) {
      gb.registers.programCounter := jpLocation;
    }
  }

  /** CALL cc, imm16 (main.rs:524-535). */
  method ExecCallCond(gb: Gb, cond: nat)
    requires gb.Valid() && cond < 4
    modifies gb.registers, gb.gbMemory.memoryArray
    ensures (gb.Value(), Cpu.Handled) == Cpu.Execute(old(gb.Value()), CallCondImm16(cond))
  {
    var callLocation := gb.ReadWordAndAdvanceProgramCounter();
    var condState := gb.registers.f.CheckCondition(cond);
    var returnPc := gb.registers.programCounter;
    if condState {
      gb.PushStackWord(returnPc);
      gb.registers.programCounter := callLocation;
    }
  }

  /** RST (main.rs:536-544). */
  method ExecRst(gb: Gb, target: nat)
    requires gb.Valid() && target < 8
    modifies gb.registers, gb.gbMemory.memoryArray
    ensures (gb.Value(), Cpu.Handled) == Cpu.Execute(old(gb.Value()), Rst(target))
  {
    var vec := target * 8;
    var returnPc := gb.registers.programCounter;
    gb.PushStackWord(returnPc);
    gb.registers.programCounter := vec;
  }

  /** POP r16stk (main.rs:545-552). */
  method ExecPop(gb: Gb, r16stk: nat)
    requires gb.Valid() && r16stk < 4
    modifies gb.registers
    ensures (gb.Value(), Cpu.Handled) == Cpu.Execute(old(gb.Value()), PopR16Stk(r16stk))
  {
    var readWord := gb.PopStackWord();
    gb.registers.SetR16Stk(r16stk, readWord);
  }

  /** PUSH r16stk (main.rs:553-559). */
  method ExecPush(gb: Gb, r16stk: nat)
    requires gb.Valid() && r16stk < 4
    modifies gb.registers, gb.gbMemory.memoryArray
    ensures (gb.Value(), Cpu.Handled) == Cpu.Execute(old(gb.Value()), PushR16Stk(r16stk))
  {
    var r16 := gb.registers.Value().GetR16Stk(r16stk);
    gb.PushStackWord(r16);
  }

  /** The imm8 accumulator arms (main.rs:562-659). */
  method ExecAluImm8(gb: Gb, op: AluOp)
    requires gb.Valid()
    modifies gb.registers
    ensures (gb.Value(), Cpu.Handled) == Cpu.Execute(old(gb.Value()), AluImm8(op))
  {
    var oldA := gb.registers.a;
    var nextByte := gb.ReadByteAndAdvanceProgramCounter();
    ApplyAluImm8(gb.registers, op, oldA, nextByte);
  }

  /** The rest of each imm8 accumulator arm (main.rs:561-659) after the operand fetch,
      assigning A and the four flags in the order the arm does. */
  method ApplyAluImm8(registers: GbRegisters, op: AluOp, oldA: u8, nextByte: u8)
    requires oldA == registers.a
    modifies registers
    ensures var result := Cpu.AluImm8Result(op, oldA, nextByte, old(registers.f.c));
            registers.Value() == old(registers.Value()).(a := result.a, f := result.f)
  {
    match op
    case Add =>
      var sum: int := oldA + nextByte;  // overflowing_add
      var result := Wrap8(sum);
      registers.f := registers.f.(z := result == 0);
      registers.f := registers.f.(n := false);
      registers.f := registers.f.(h := false);
      registers.f := registers.f.(c := sum > 0xFF);
      registers.a := result;
    case Adc =>
      var carryAddition := if registers.f.c then 1 else 0;
      // `next_byte + carry_addition` overflows for 0xFF with carry (main.rs:579, 583);
      // modelled as wrapping
      var addend := Wrap8(nextByte + carryAddition);
      var sum: int := oldA + addend;
      var result := Wrap8(sum);
      registers.f := registers.f.(z := result == 0);
      registers.f := registers.f.(n := false);
      registers.f := registers.f.(h := Cpu.CalculateByteHalfCarryAdd(oldA, addend));
      registers.f := registers.f.(c := sum > 0xFF);
      registers.a := result;
    case Sub =>
      var diff: int := oldA - nextByte;  // overflowing_sub
      var result := Wrap8(diff);
      registers.f := registers.f.(z := result == 0);
      registers.f := registers.f.(n := true);
      registers.f := registers.f.(h := false);
      registers.f := registers.f.(c := diff < 0);
      registers.a := result;
    case Sbc =>
      var carrySub := if registers.f.c then 1 else 0;
      // `next_byte + carry_sub` overflows for 0xFF with carry (main.rs:605); modelled as wrapping
      var subtrahend := Wrap8(nextByte + carrySub);
      var diff: int := oldA - subtrahend;
      var result := Wrap8(diff);
      registers.f := registers.f.(z := result == 0);
      registers.f := registers.f.(n := true);
      registers.f := registers.f.(h := false);
      registers.f := registers.f.(c := diff < 0);
      registers.a := result;
    case And =>
      var result := And8(oldA, nextByte);
      registers.a := result;
      registers.f := registers.f.(z := result == 0);
      registers.f := registers.f.(n := false);
      registers.f := registers.f.(h := true);
      registers.f := registers.f.(c := false);
    case Xor =>
      var result := Xor8(oldA, nextByte);
      registers.a := result;
      registers.f := registers.f.(z := result == 0);
      registers.f := registers.f.(n := false);
      registers.f := registers.f.(h := false);
      registers.f := registers.f.(c := false);
    case Or =>
      var result := Or8(oldA, nextByte);
      registers.a := result;
      registers.f := registers.f.(z := result == 0);
      registers.f := registers.f.(n := false);
      registers.f := registers.f.(h := false);
      registers.f := registers.f.(c := false);
    case Cp =>
      var diff: int := oldA - nextByte;  // overflowing_sub
      registers.f := registers.f.(z := Wrap8(diff) == 0);
      registers.f := registers.f.(n := true);
      registers.f := registers.f.(h := false);
      registers.f := registers.f.(c := diff < 0);
  }

  /** RET (main.rs:660-665). */
  method ExecRet(gb: Gb)
    requires gb.Valid()
    modifies gb.registers
    ensures (gb.Value(), Cpu.Handled) == Cpu.Execute(old(gb.Value()), Ret)
  {
    var newPc := gb.PopStackWord();
    gb.registers.programCounter := newPc;
  }

  /** RETI (main.rs:666-672): IME is set before the pop. */
  method ExecReti(gb: Gb)
    requires gb.Valid()
    modifies gb, gb.registers
    ensures (gb.Value(), Cpu.Handled) == Cpu.Execute(old(gb.Value()), Reti)
  {
    gb.interruptMasterFlag := true;
    var newPc := gb.PopStackWord();
    gb.registers.programCounter := newPc;
  }

  /** JP HL (main.rs:679-684). */
  method ExecJpHl(gb: Gb)
    requires gb.Valid()
    modifies gb.registers
    ensures (gb.Value(), Cpu.Handled) == Cpu.Execute(old(gb.Value()), JpHl)
  {
    var newPc := gb.registers.Value().GetHL();
    gb.registers.programCounter := newPc;
  }

  /** CALL imm16 (main.rs:685-694): the push comes before the operand fetch. */
  method ExecCall(gb: Gb)
    requires gb.Valid()
    modifies gb.registers, gb.gbMemory.memoryArray
    ensures (gb.Value(), Cpu.Handled) == Cpu.Execute(old(gb.Value()), CallImm16)
  {
    var returnPc := gb.registers.programCounter;
    gb.PushStackWord(returnPc);
    var newPc := gb.ReadWordAndAdvanceProgramCounter();
    gb.registers.programCounter := newPc;
  }

  /** LDH [C], A and LDH [imm8], A (main.rs:695-709); both address with C. */
  method ExecLdhStore(gb: Gb, i: Instr)
    requires gb.Valid() && (i.LdhCA? || i.LdhImm8A?)
    modifies gb.gbMemory.memoryArray
    ensures (gb.Value(), Cpu.Handled) == Cpu.Execute(old(gb.Value()), i)
  {
    var writeByte := gb.registers.a;
    var writeByteLocation := gb.registers.c + 0xFF00;
    gb.gbMemory.WriteByte(writeByteLocation, writeByte);
  }

  /** LD [imm16], A (main.rs:710-716). */
  method ExecLdImm16A(gb: Gb)
    requires gb.Valid()
    modifies gb.registers, gb.gbMemory.memoryArray
    ensures (gb.Value(), Cpu.Handled) == Cpu.Execute(old(gb.Value()), LdImm16A)
  {
    var writeByte := gb.registers.a;
    var writeLocation := gb.ReadWordAndAdvanceProgramCounter();
    gb.gbMemory.WriteByte(writeLocation, writeByte);
  }

  /** LDH A, [C] (main.rs:717-724). */
  method ExecLdhAC(gb: Gb)
    requires gb.Valid()
    modifies gb.registers
    ensures (gb.Value(), Cpu.Handled) == Cpu.Execute(old(gb.Value()), LdhAC)
  {
    var readByteLocation := 0xFF00 + gb.registers.c as int;
    gb.registers.a := gb.gbMemory.ReadByte(readByteLocation);
  }

  /** LDH A, [imm8] (main.rs:725-732). */
  method ExecLdhAImm8(gb: Gb)
    requires gb.Valid()
    modifies gb.registers
    ensures (gb.Value(), Cpu.Handled) == Cpu.Execute(old(gb.Value()), LdhAImm8)
  {
    var readLocationLow := gb.ReadByteAndAdvanceProgramCounter();
    var readLocation := 0xFF00 + readLocationLow as int;
    gb.registers.a := gb.gbMemory.ReadByte(readLocation);
  }

  /** LD A, [imm16] (main.rs:733-739). */
  method ExecLdAImm16(gb: Gb)
    requires gb.Valid()
    modifies gb.registers
    ensures (gb.Value(), Cpu.Handled) == Cpu.Execute(old(gb.Value()), LdAImm16)
  {
    var readLocation := gb.ReadWordAndAdvanceProgramCounter();
    gb.registers.a := gb.gbMemory.ReadByte(readLocation);
  }

  /** ADD SP, imm8 (main.rs:740-751). */
  method ExecAddSpImm8(gb: Gb)
    requires gb.Valid()
    modifies gb.registers
    ensures (gb.Value(), Cpu.Handled) == Cpu.Execute(old(gb.Value()), AddSpImm8)
  {
    var imm8 := gb.ReadByteAndAdvanceProgramCounter();
    var sp := gb.registers.stackPointer;
    var newSp := Wrap16(sp as int + imm8);
    gb.registers.f := gb.registers.f.(h := Cpu.CalculateByteHalfCarryAdd(sp % 0x100, imm8));
    gb.registers.f := gb.registers.f.(c := newSp > 0xFF);
    gb.registers.stackPointer := newSp;
    gb.registers.f := gb.registers.f.(z := false);
    gb.registers.f := gb.registers.f.(n := false);
  }

  /** LD HL, SP + imm8 (main.rs:752-763). */
  method ExecLdHlSpImm8(gb: Gb)
    requires gb.Valid()
    modifies gb.registers
    ensures (gb.Value(), Cpu.Handled) == Cpu.Execute(old(gb.Value()), LdHlSpImm8)
  {
    var imm8 := gb.ReadByteAndAdvanceProgramCounter();
    var sp := gb.registers.stackPointer;
    var newHl := Wrap16(sp as int + imm8);
    gb.registers.f := gb.registers.f.(h := Cpu.CalculateByteHalfCarryAdd(sp % 0x100, imm8));
    gb.registers.f := gb.registers.f.(c := newHl > 0xFF);
    gb.registers.SetHL(newHl);
    gb.registers.f := gb.registers.f.(z := false);
    gb.registers.f := gb.registers.f.(n := false);
  }

  /** LD SP, HL (main.rs:764-769). */
  method ExecLdSpHl(gb: Gb)
    requires gb.Valid()
    modifies gb.registers
    ensures (gb.Value(), Cpu.Handled) == Cpu.Execute(old(gb.Value()), LdSpHl)
  {
    var readByte := gb.registers.Value().GetHL();
    gb.registers.stackPointer := readByte;
  }

  /** DI (main.rs:770-774). */
  method ExecDi(gb: Gb)
    requires gb.Valid()
    modifies gb
    ensures (gb.Value(), Cpu.Handled) == Cpu.Execute(old(gb.Value()), Di)
  {
    gb.interruptMasterFlag := false;
  }

  /** EI (main.rs:775-779). */
  method ExecEi(gb: Gb)
    requires gb.Valid()
    modifies gb
    ensures (gb.Value(), Cpu.Handled) == Cpu.Execute(old(gb.Value()), Ei)
  {
    gb.interruptMasterFlag := true;
  }

  /** `execute_op` (main.rs:186-788): decode the opcode and run its arm. DAA and HALT
      stop with their panic outcome, an opcode no arm accepts with `Unrecognized`; in
      those cases nothing is changed. */
  method ExecuteOp(gb: Gb, queryByte: u8) returns (o: Cpu.Outcome)
    requires gb.Valid()
    modifies gb, gb.registers, gb.gbMemory.memoryArray
    ensures (gb.Value(), o) == Cpu.ExecuteOp(old(gb.Value()), queryByte)
  {
    var i := Decode(queryByte as bv8);
    o := Cpu.Handled;
    match i
    case Nop =>
    case LdR16Imm16(r16) => ExecLdR16Imm16(gb, r16);
    case LdR16MemA(r16mem) => ExecLdR16MemA(gb, r16mem);
    case LdAR16Mem(r16mem) => ExecLdAR16Mem(gb, r16mem);
    case LdImm16Sp => ExecLdImm16Sp(gb);
    case IncR16(r16) => ExecIncDecR16(gb, r16, true);
    case DecR16(r16) => ExecIncDecR16(gb, r16, false);
    case AddHlR16(r16) => ExecAddHlR16(gb, r16);
    case IncR8(r8) => ExecIncDecR8(gb, r8, true);
    case DecR8(r8) => ExecIncDecR8(gb, r8, false);
    case LdR8Imm8(r8) => ExecLdR8Imm8(gb, r8);
    case JrImm8 => ExecJr(gb, 0, false);
    case JrCondImm8(cond) => ExecJr(gb, cond, true);
    case Stop => ExecStop(gb);
    case Rlca => ExecRlca(gb);
    case Rrca => ExecRrca(gb);
    case Rla => ExecRla(gb);
    case Rra => ExecRra(gb);
    case Daa => o := Cpu.DaaPanic;
    case Cpl => ExecFlagOp(gb, i);
    case Scf => ExecFlagOp(gb, i);
    case Ccf => ExecFlagOp(gb, i);
    case Halt => o := Cpu.HaltPanic;
    case LdR8R8(dst, src) => ExecLdR8R8(gb, dst, src);
    case AluR8(op, src) => ExecAluR8(gb, op, src);
    case RetCond(cond) => ExecRetCond(gb, cond);
    case JpCondImm16(cond) => ExecJp(gb, cond, true);
    case CallCondImm16(cond) => ExecCallCond(gb, cond);
    case Rst(target) => ExecRst(gb, target);
    case PopR16Stk(r16stk) => ExecPop(gb, r16stk);
    case PushR16Stk(r16stk) => ExecPush(gb, r16stk);
    case AluImm8(op) => ExecAluImm8(gb, op);
    case Ret => ExecRet(gb);
    case Reti => ExecReti(gb);
    case JpImm16 => ExecJp(gb, 0, false);
    case JpHl => ExecJpHl(gb);
    case CallImm16 => ExecCall(gb);
    case LdhCA => ExecLdhStore(gb, i);
    case LdhImm8A => ExecLdhStore(gb, i);
    case LdImm16A => ExecLdImm16A(gb);
    case LdhAC => ExecLdhAC(gb);
    case LdhAImm8 => ExecLdhAImm8(gb);
    case LdAImm16 => ExecLdAImm16(gb);
    case AddSpImm8 => ExecAddSpImm8(gb);
    case LdHlSpImm8 => ExecLdHlSpImm8(gb);
    case LdSpHl => ExecLdSpHl(gb);
    case Di => ExecDi(gb);
    case Ei => ExecEi(gb);
    case Undefined => o := Cpu.Unrecognized;
  }

  /** The `match interupts` of the interrupt check (main.rs:80-115): the call location
      of the first set source and IF with that source cleared, or 0 and IF unchanged. */
  method SelectInterrupt(interupts: InterruptFlags, iF: InterruptFlags) returns (interruptCallLocation: u16, newIf: InterruptFlags)
    ensures interruptCallLocation == 0 <==> forall s: Source :: !IsSet(interupts, s)
    ensures forall s: Source :: Selected(interupts, s) ==> interruptCallLocation == Vector(s) && newIf == Clear(iF, s)
    ensures interruptCallLocation == 0 ==> newIf == iF
    ensures (interruptCallLocation, newIf) == InterruptCall(interupts, iF)
  {
    newIf := iF;
    if interupts.vBlank {
      newIf := iF.(vBlank := false);
      interruptCallLocation := 0x40;
    } else if interupts.lcd {
      newIf := iF.(lcd := false);
      interruptCallLocation := 0x48;
    } else if interupts.timer {
      newIf := iF.(timer := false);
      interruptCallLocation := 0x50;
    } else if interupts.serial {
      newIf := iF.(serial := false);
      interruptCallLocation := 0x58;
    } else if interupts.joypad {
      newIf := iF.(joypad := false);
      interruptCallLocation := 0x60;
    } else {
      interruptCallLocation := 0x0;
    }
    InterruptCallFindsSelected(interupts, iF);
  }

  /** The call of main.rs:114-122: IME is cleared, PC is pushed and PC becomes the
      handler location. */
  method EnterHandler(gb: Gb, interruptCallLocation: u16)
    requires gb.Valid()
    modifies gb, gb.registers, gb.gbMemory.memoryArray
    ensures gb.Value() == old(gb.Value()).(ime := false).PushStackWord(old(gb.Value()).regs.pc).WithPC(interruptCallLocation)
  {
    gb.interruptMasterFlag := false;
    var returnPc := gb.registers.programCounter;
    gb.PushStackWord(returnPc);
    gb.registers.programCounter := interruptCallLocation;
  }

  /** The interrupt check of `main` (main.rs:75-123). `ie` and `iF` are the IE and IF
      registers it reads; the IF register it writes back is returned. */
  method CheckInterrupts(gb: Gb, ie: InterruptFlags, iF: InterruptFlags) returns (newIf: InterruptFlags)
    requires gb.Valid()
    modifies gb, gb.registers, gb.gbMemory.memoryArray
    ensures (gb.Value(), newIf) == Dispatch(old(gb.Value()), ie, iF)
  {
    newIf := iF;
    if gb.interruptMasterFlag {
      var interruptCallLocation;
      interruptCallLocation, newIf := SelectInterrupt(Combined(ie, iF), iF);
      if interruptCallLocation != 0 {
        EnterHandler(gb, interruptCallLocation);
      }
    }
  }

  /** One iteration of `main`'s loop (main.rs:73-153) without input, timing and rendering:
      the interrupt check, the fetch of the opcode at PC and its execution. */
  method RunIteration(gb: Gb, ie: InterruptFlags, iF: InterruptFlags) returns (newIf: InterruptFlags, o: Cpu.Outcome)
    requires gb.Valid()
    modifies gb, gb.registers, gb.gbMemory.memoryArray
    ensures (gb.Value(), newIf, o) == MainLoop.Step(old(gb.Value()), ie, iF)
  {
    newIf := CheckInterrupts(gb, ie, iF);
    var queryByte := gb.ReadByteAndAdvanceProgramCounter();
    o := ExecuteOp(gb, queryByte);
  }
}
