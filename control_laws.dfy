/** Properties of the jumps, calls, returns, stack and load arms of `execute_op`. */
module ControlLaws {
  import opened Bytes
  import opened Flags
  import opened Registers
  import opened Memory
  import opened Gameboy
  import opened Decoder
  import opened Cpu

  /** A conditional JR whose condition fails still consumes its operand byte. */
  lemma UntakenJrSkipsOperand(m: Machine, cond: nat)
    requires cond < 4 && !m.regs.f.CheckCondition(cond)
    ensures Execute(m, JrCondImm8(cond)).0 == m.WithPC(Wrap16(m.regs.pc + 1))
  {
  }

  /** A conditional JP whose condition fails still consumes its two operand bytes. */
  lemma UntakenJpSkipsOperand(m: Machine, cond: nat)
    requires cond < 4 && !m.regs.f.CheckCondition(cond)
    ensures Execute(m, JpCondImm16(cond)).0 == m.WithPC(Wrap16(m.regs.pc + 2))
  {
  }

  /** A conditional CALL whose condition fails still consumes its two operand bytes and
      pushes nothing. */
  lemma UntakenCallSkipsOperand(m: Machine, cond: nat)
    requires cond < 4 && !m.regs.f.CheckCondition(cond)
    ensures Execute(m, CallCondImm16(cond)).0 == m.WithPC(Wrap16(m.regs.pc + 2))
  {
  }

  /** A conditional RET whose condition fails changes nothing. */
  lemma UntakenRetKeepsState(m: Machine, cond: nat)
    requires cond < 4 && !m.regs.f.CheckCondition(cond)
    ensures Execute(m, RetCond(cond)).0 == m
  {
  }

  /** JR lands at the address after its operand plus the operand read as a signed
      displacement. */
  lemma JrAddsDisplacement(m: Machine)
    ensures var b := Read(m.mem, m.regs.pc);
            Execute(m, JrImm8).0.regs.pc == Wrap16(m.regs.pc + 1 + (if b < 0x80 then b else b - 0x100))
  {
    var (off, m1) := m.ReadByteSignedAndAdvanceProgramCounter();
    assert Execute(m, JrImm8).0.regs.pc == AddSigned(m1.regs.pc, off);
    WrapAfterIncrement(m.regs.pc, off);
  }

  /** Adding to the wrapped successor of `pc` is adding to `pc + 1`. */
  lemma WrapAfterIncrement(pc: u16, off: int)
    ensures Wrap16(Wrap16(pc + 1) + off) == Wrap16(pc + 1 + off)
  {
    var x: int := pc + 1;
    assert x == Wrap16(x) + 0x10000 * (x / 0x10000);
  }

  /** A taken JR cc is the unconditional JR. */
  lemma TakenJrIsUnconditional(m: Machine, cond: nat)
    requires cond < 4 && m.regs.f.CheckCondition(cond)
    ensures Execute(m, JrCondImm8(cond)) == Execute(m, JrImm8)
  {
  }

  /** A taken JP cc is the unconditional JP. */
  lemma TakenJpIsUnconditional(m: Machine, cond: nat)
    requires cond < 4 && m.regs.f.CheckCondition(cond)
    ensures Execute(m, JpCondImm16(cond)) == Execute(m, JpImm16)
  {
  }

  /** A taken RET cc is the unconditional RET. */
  lemma TakenRetIsUnconditional(m: Machine, cond: nat)
    requires cond < 4 && m.regs.f.CheckCondition(cond)
    ensures Execute(m, RetCond(cond)) == Execute(m, Ret)
  {
  }

  /** A taken CALL cc pushes the address after its two operand bytes (high byte at the old
      SP, low byte below it), lowers SP by two and jumps to the operand. */
  lemma TakenCallCondPushesNextAddress(m: Machine, cond: nat)
    requires cond < 4 && m.regs.f.CheckCondition(cond)
    ensures var ret := Wrap16(m.regs.pc + 2);
            var m' := Execute(m, CallCondImm16(cond)).0;
            m'.regs.pc == m.ReadWordAndAdvanceProgramCounter().0
            && m'.regs.sp == Wrap16(m.regs.sp - 2)
            && Read(m'.mem, m.regs.sp) == ret / 0x100
            && Read(m'.mem, Wrap16(m.regs.sp - 1)) == ret % 0x100
  {
  }

  /** A taken CALL cc is a push of the address after the operand followed by a jump. */
  lemma TakenCallCondIsPushAndJump(m: Machine, cond: nat)
    requires cond < 4 && m.regs.f.CheckCondition(cond)
    ensures var (target, m1) := m.ReadWordAndAdvanceProgramCounter();
            Execute(m, CallCondImm16(cond)).0 == m1.PushStackWord(m1.regs.pc).WithPC(target)
  {
  }

  /** CALL nn pushes PC as it is right after the opcode (the opcode address plus one), not
      the address after its operand, and fetches the target only after the push. */
  lemma CallPushesOpcodeAddressPlusOne(m: Machine)
    ensures var m' := Execute(m, CallImm16).0;
            var pushed := m.PushStackWord(m.regs.pc);
            m'.regs.pc == pushed.ReadWordAndAdvanceProgramCounter().0
            && m'.regs.sp == Wrap16(m.regs.sp - 2)
            && Read(m'.mem, m.regs.sp) == m.regs.pc / 0x100
            && Read(m'.mem, Wrap16(m.regs.sp - 1)) == m.regs.pc % 0x100
  {
  }

  /** RST t pushes PC (high byte at the old SP) and jumps to 8 * t, one of 0x00, 0x08,
      ..., 0x38; for an opcode byte the target is its bits 3..5 times 8. */
  lemma RstJumpsToVector(m: Machine, t: nat)
    requires t < 8
    ensures var m' := Execute(m, Rst(t)).0;
            m'.regs.pc == t * 8 && m'.regs.pc <= 0x38 && m'.regs.pc % 8 == 0
            && m'.regs.sp == Wrap16(m.regs.sp - 2)
            && Read(m'.mem, m.regs.sp) == m.regs.pc / 0x100
            && Read(m'.mem, Wrap16(m.regs.sp - 1)) == m.regs.pc % 0x100
  {
  }

  /** RET pops the low byte at SP and the high byte at SP + 1 into PC and raises SP by
      two; RETI does the same and also sets IME. */
  lemma ReturnsPopIntoPC(m: Machine)
    ensures var m' := Execute(m, Ret).0;
            m' == m.(regs := m.regs.(sp := Wrap16(m.regs.sp + 2),
                                     pc := Read(m.mem, m.regs.sp) + 0x100 * Read(m.mem, Wrap16(m.regs.sp + 1))))
    ensures Execute(m, Reti).0 == Execute(m, Ret).0.(ime := true)
  {
  }

  /** Returning from a taken CALL cc restores SP, but because push and pop are offset by
      one cell PC becomes the pushed low byte over the byte below the stack, and equals
      the return address only when both of its bytes equal that byte. */
  lemma {:induction false} CallThenRet(m: Machine, cond: nat)
    requires cond < 4 && m.regs.f.CheckCondition(cond)
    ensures var ret := Wrap16(m.regs.pc + 2);
            var m' := Execute(Execute(m, CallCondImm16(cond)).0, Ret).0;
            m'.regs.sp == m.regs.sp
            && m'.regs.pc == (ret % 0x100) * 0x100 + Read(m.mem, Wrap16(m.regs.sp - 2))
            && (m'.regs.pc == ret <==> ret / 0x100 == ret % 0x100 == Read(m.mem, Wrap16(m.regs.sp - 2)))
  {
    var (target, m1) := m.ReadWordAndAdvanceProgramCounter();
    TakenCallCondIsPushAndJump(m, cond);
    assert Execute(m, CallCondImm16(cond)).0 == m1.PushStackWord(m1.regs.pc).WithPC(target);
    ReturnAfterPush(m1, m1.regs.pc, target);
  }

  /** RET right after a push of `ret` and a jump: SP is back where it was, and PC is the
      word that `PushThenPop` describes. */
  lemma ReturnAfterPush(m: Machine, ret: u16, target: u16)
    ensures var m' := Execute(m.PushStackWord(ret).WithPC(target), Ret).0;
            m'.regs.sp == m.regs.sp
            && m'.regs.pc == (ret % 0x100) * 0x100 + Read(m.mem, Wrap16(m.regs.sp - 2))
            && (m'.regs.pc == ret <==> ret / 0x100 == ret % 0x100 == Read(m.mem, Wrap16(m.regs.sp - 2)))
  {
    var called := m.PushStackWord(ret).WithPC(target);
    ReturnsPopIntoPC(called);
    PushThenPop(m, ret);
    var popped := m.PushStackWord(ret).PopStackWord();
    assert Execute(called, Ret).0.regs.pc == popped.0;
    assert Execute(called, Ret).0.regs.sp == popped.1.regs.sp;
  }

  /** PUSH rr followed by POP rr (BC, DE or HL) restores SP but not rr: push and pop are
      offset by one cell, so the low register receives the byte below the stack and the
      high register 1 or 0 according to whether the old low register was non-zero. A
      pair of 0x200 or more therefore never comes back. */
  lemma {:induction false} PushThenPopR16Stk(m: Machine, r16stk: nat)
    requires r16stk < 3
    ensures var m' := Execute(Execute(m, PushR16Stk(r16stk)).0, PopR16Stk(r16stk)).0;
            var oldLow := m.regs.GetR16Stk(r16stk) % 0x100;
            m'.regs.sp == m.regs.sp
            && m'.regs.GetR16Stk(r16stk) == (if oldLow > 0 then 0x100 else 0) + Read(m.mem, Wrap16(m.regs.sp - 2))
            && m'.regs.GetR16Stk(r16stk) < 0x200
  {
    var v := m.regs.GetR16Stk(r16stk);
    var pushed := m.PushStackWord(v);
    assert Execute(m, PushR16Stk(r16stk)).0 == pushed;
    PushThenPop(m, v);
    var (w, m1) := pushed.PopStackWord();
    assert Execute(pushed, PopR16Stk(r16stk)).0 == m1.(regs := m1.regs.SetR16Stk(r16stk, w));
    WordBytes(Read(m.mem, Wrap16(m.regs.sp - 2)), v % 0x100);
    R16StkAgreesWithR16(m1.regs, r16stk, w);
    PairSetGet(m1.regs, w);
  }

  /** POP AF takes the flags from the high nibble of the byte at SP and sets A through the
      pair setter, so A becomes 0 or 1. */
  lemma PopAFUnpacksFlags(m: Machine)
    ensures var m' := Execute(m, PopR16Stk(3)).0;
            m'.regs.f == SetAsFRegister(Read(m.mem, m.regs.sp))
            && m'.regs.a == (if Read(m.mem, Wrap16(m.regs.sp + 1)) > 0 then 1 else 0)
            && m'.regs.sp == Wrap16(m.regs.sp + 2)
  {
    var (w, m1) := m.PopStackWord();
    WordBytes(Read(m.mem, m.regs.sp), Read(m.mem, Wrap16(m.regs.sp + 1)));
    assert Execute(m, PopR16Stk(3)).0 == m1.(regs := m1.regs.SetAF(w));
  }

  /** The low byte and the high-byte test of a word built from two bytes. */
  lemma WordBytes(lo: u8, hi: u8)
    ensures (lo + 0x100 * hi) % 0x100 == lo
    ensures lo + 0x100 * hi >= 0x100 <==> hi > 0
  {
  }

  /** JP HL: the next opcode fetched is the byte at HL. */
  lemma JumpToHl(m: Machine)
    ensures Execute(m, JpHl).0.ReadByteAndAdvanceProgramCounter().0 == Read(m.mem, m.regs.GetHL())
  {
  }

  /** LD SP, HL followed by RET jumps to the little-endian word stored at HL and leaves SP
      two above HL. */
  lemma ReturnThroughHl(m: Machine)
    ensures var hl := m.regs.GetHL();
            var m' := Execute(Execute(m, LdSpHl).0, Ret).0;
            m'.regs.pc == Read(m.mem, hl) + 0x100 * Read(m.mem, Wrap16(hl + 1))
            && m'.regs.sp == Wrap16(hl + 2)
  {
    var m1 := m.(regs := m.regs.(sp := m.regs.GetHL()));
    assert Execute(m, LdSpHl).0 == m1;
    ReturnsPopIntoPC(m1);
  }

  /** LD [r16mem], A stores A at the selected address; through [HL+] it then moves HL one
      up as long as HL stays below 0x1FF. */
  lemma StoreThroughR16Mem(m: Machine, r16mem: nat)
    requires r16mem < 4
    ensures var m' := Execute(m, LdR16MemA(r16mem)).0;
            m'.mem == Write(m.mem, m.regs.GetR16Mem(r16mem).0, m.regs.a)
            && m'.regs.a == m.regs.a && m'.regs.pc == m.regs.pc
    ensures m.regs.GetHL() < 0x1FF ==>
              Execute(m, LdR16MemA(2)).0.regs.GetHL() == m.regs.GetHL() + 1
  {
    R16MemStepsHL(m.regs);
  }

  /** LDH [imm8], A is LDH [C], A: it stores A at 0xFF00 + C, ignores the operand byte and
      does not advance PC. Loading back through LDH A, [C] returns the stored A. */
  lemma HighPageStores(m: Machine)
    ensures Execute(m, LdhImm8A) == Execute(m, LdhCA)
    ensures Execute(m, LdhCA).0 == m.(mem := Write(m.mem, 0xFF00 + m.regs.c, m.regs.a))
    ensures Execute(Execute(m, LdhCA).0, LdhAC).0 == Execute(m, LdhCA).0
  {
  }

  /** LDH A, [imm8] reads 0xFF00 plus the operand byte, after advancing PC past it. */
  lemma HighPageLoad(m: Machine)
    ensures var m' := Execute(m, LdhAImm8).0;
            m' == m.(regs := m.regs.(a := Read(m.mem, 0xFF00 + Read(m.mem, m.regs.pc)),
                                     pc := Wrap16(m.regs.pc + 1)))
  {
  }

  /** ADD SP, imm8 adds the operand as an unsigned byte (so 0xFE adds 254, not -2),
      clears Z and N, takes H from the low byte of SP and sets C when the new SP is above
      0xFF. */
  lemma StackPointerOffset(m: Machine)
    ensures var n := Read(m.mem, m.regs.pc);
            var v := Wrap16(m.regs.sp + n);
            var m' := Execute(m, AddSpImm8).0;
            m'.regs.sp == v && !m'.regs.f.z && !m'.regs.f.n
            && (m'.regs.f.c <==> v > 0xFF)
            && (m'.regs.f.h <==> m.regs.sp % 0x10 + n % 0x10 > 0x0F)
            && m'.regs.a == m.regs.a && m'.mem == m.mem
  {
    var (n, m1) := m.ReadByteAndAdvanceProgramCounter();
    SpPlusImm8Flags(m.regs.sp, n, m.regs.f);
    var (v, f) := SpPlusImm8(m.regs.sp, n, m.regs.f);
    assert Execute(m, AddSpImm8).0 == m1.(regs := m1.regs.(f := f, sp := v));
  }

  /** The sum and flags shared by ADD SP, imm8 and LD HL, SP + imm8. */
  lemma SpPlusImm8Flags(sp: u16, n: u8, f: Flags)
    ensures var (v, f') := SpPlusImm8(sp, n, f);
            v == Wrap16(sp + n) && !f'.z && !f'.n && (f'.c <==> v > 0xFF)
            && (f'.h <==> sp % 0x10 + n % 0x10 > 0x0F)
  {
    var s: int := sp;
    assert s % 0x100 % 0x10 == s % 0x10;
  }

  /** LD HL, SP + imm8 computes the value and flags of ADD SP, imm8 but leaves SP and
      stores the value through `set_hl`. */
  lemma HlFromStackPointerOffset(m: Machine)
    ensures var v := Wrap16(m.regs.sp + Read(m.mem, m.regs.pc));
            var m' := Execute(m, LdHlSpImm8).0;
            m'.regs.sp == m.regs.sp && m'.regs.f == Execute(m, AddSpImm8).0.regs.f
            && m'.regs.h == (if v >= 0x100 then 1 else 0) && m'.regs.l == v % 0x100
  {
    var (n, m1) := m.ReadByteAndAdvanceProgramCounter();
    var (v, f) := SpPlusImm8(m.regs.sp, n, m.regs.f);
    assert Execute(m, AddSpImm8).0.regs.f == f;
    assert Execute(m, LdHlSpImm8).0 == m1.(regs := m1.regs.(f := f).SetHL(v));
  }

}
