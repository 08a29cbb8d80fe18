/** One iteration of `main`'s loop (main.rs:73-153) without its input polling, sleeping,
    timers and rendering: the interrupt check, then the fetch and execution of one opcode. */
module MainLoop {
  import opened Bytes
  import opened Flags
  import opened Registers
  import opened Memory
  import opened Gameboy
  import opened Decoder
  import opened Cpu
  import opened Interrupts

  /** The machine, the IF register and the outcome after one iteration, given the IE and
      IF registers the interrupt check reads. */
  function Step(m: Machine, ie: InterruptFlags, iF: InterruptFlags): (Machine, InterruptFlags, Outcome)
  {
    var (m1, newIf) := Dispatch(m, ie, iF);
    var (m2, o) := FetchExecute(m1);
    (m2, newIf, o)
  }

  /** The machine `main` starts from: the image byte at 0x100 is the first opcode fetched,
      every register but SP and PC is zero and IME is off. */
  lemma InitialState(contents: seq<u8>)
    requires |contents| > 0x14A
    ensures var m := Initial(contents);
            m.regs.pc == 0x100 && m.regs.sp == 0xFFFE && !m.ime
            && m.regs.a == m.regs.b == m.regs.c == m.regs.d == m.regs.e == m.regs.h == m.regs.l == 0
            && m.regs.f == Cleared
            && m.ReadByteAndAdvanceProgramCounter().0 == contents[0x100]
  {
  }

  /** IME starts off, so the first iteration never serves an interrupt, whatever IE and
      IF hold, and leaves IF as it was. */
  lemma FirstStepIgnoresInterrupts(contents: seq<u8>, ie: InterruptFlags, iF: InterruptFlags)
    requires |contents| > 0x14A
    ensures var (m', iF', o) := Step(Initial(contents), ie, iF);
            (m', o) == FetchExecute(Initial(contents)) && iF' == iF
  {
    NothingWithoutIME(Initial(contents), ie, iF);
  }

  /** With IME set and `s` the highest-priority source in IE | IF, the opcode executed by
      the iteration is the one at the vector of `s`, after the old PC has been pushed. */
  lemma ServedInterruptRunsHandler(m: Machine, ie: InterruptFlags, iF: InterruptFlags, s: Source)
    requires m.ime && Selected(Combined(ie, iF), s)
    ensures var entered := m.(ime := false).PushStackWord(m.regs.pc).WithPC(Vector(s));
            Step(m, ie, iF) == (FetchExecute(entered).0, Clear(iF, s), FetchExecute(entered).1)
            && entered.ReadByteAndAdvanceProgramCounter().0 == Read(entered.mem, Vector(s))
  {
    HighestPriorityServed(m, ie, iF, s);
  }

  /** A ROM whose entry point holds `01 34 12` (LD BC, 0x1234): the first iteration loads
      0x1234 into SP, not BC, and PC moves past the three bytes. */
  lemma LoadBcLoadsSp(contents: seq<u8>, ie: InterruptFlags, iF: InterruptFlags)
    requires |contents| > 0x14A
    requires contents[0x100] == 0x01 && contents[0x101] == 0x34 && contents[0x102] == 0x12
    ensures var (m', _, o) := Step(Initial(contents), ie, iF);
            o == Handled && m'.regs.sp == 0x1234 && m'.regs.GetBC() == 0 && m'.regs.pc == 0x103
            && m'.mem == Initial(contents).mem
  {
    var m0 := Initial(contents);
    NothingWithoutIME(m0, ie, iF);
    var (q, m1) := m0.ReadByteAndAdvanceProgramCounter();
    assert q == 0x01;
    OpcodeLdBc();
    assert FetchExecute(m0) == Execute(m1, LdR16Imm16(3));
  }

  /** Opcode 0x01 decodes to LD r16, imm16 with the SP operand. */
  lemma OpcodeLdBc()
    ensures Decode((0x01 as u8) as bv8) == LdR16Imm16(3)
  {
    assert (0x01 as u8) as bv8 == 0x01;
  }

  /** DI blocks the next interrupt check whatever IE and IF hold; after EI the check
      serves the selected source. Whichever of DI and EI runs last decides. */
  lemma DiEiGateInterrupts(m: Machine, ie: InterruptFlags, iF: InterruptFlags)
    ensures Dispatch(Execute(m, Di).0, ie, iF) == (Execute(m, Di).0, iF)
    ensures forall s: Source :: Selected(Combined(ie, iF), s) ==>
              Dispatch(Execute(m, Ei).0, ie, iF) ==
                (m.(ime := false).PushStackWord(m.regs.pc).WithPC(Vector(s)), Clear(iF, s))
    ensures Execute(Execute(m, Di).0, Ei).0 == Execute(m, Ei).0
    ensures Execute(Execute(m, Ei).0, Di).0 == Execute(m, Di).0
  {
    var off := m.(ime := false);
    var on := m.(ime := true);
    assert Execute(m, Di).0 == off && Execute(m, Ei).0 == on;
    assert Execute(off, Ei).0 == on && Execute(on, Di).0 == off;
    NothingWithoutIME(off, ie, iF);
    forall s: Source | Selected(Combined(ie, iF), s)
      ensures Dispatch(on, ie, iF) == (off.PushStackWord(m.regs.pc).WithPC(Vector(s)), Clear(iF, s))
    {
      HighestPriorityServed(on, ie, iF, s);
    }
  }

  /** A RETI at the end of a handler that leaves SP where the interrupt entry put it and
      keeps the byte the entry pushed at SP - 1 and the byte below it comes back with SP
      and IME restored, but, as for CALL and RET, PC is the low byte of the interrupted PC
      over the byte below the stack. */
  lemma {:induction false} HandlerReturn(m: Machine, handlerEnd: Machine)
    requires handlerEnd.regs.sp == Wrap16(m.regs.sp - 2)
    requires Read(handlerEnd.mem, Wrap16(m.regs.sp - 1)) == m.regs.pc % 0x100
    requires Read(handlerEnd.mem, Wrap16(m.regs.sp - 2)) == Read(m.mem, Wrap16(m.regs.sp - 2))
    ensures var back := Execute(handlerEnd, Reti).0;
            back.regs.sp == m.regs.sp && back.ime
            && back.regs.pc == (m.regs.pc % 0x100) * 0x100 + Read(m.mem, Wrap16(m.regs.sp - 2))
  {
    var sp: int := m.regs.sp;
    assert Wrap16(Wrap16(sp - 2) + 1) == Wrap16(sp - 1);
    assert Wrap16(Wrap16(sp - 2) + 2) == sp;
  }

  /** The state right after an interrupt entry meets what HandlerReturn asks of the
      handler's end, so a handler that returns at once lands there. */
  lemma EntryMeetsHandlerReturn(m: Machine, vector: u16)
    ensures var entered := m.(ime := false).PushStackWord(m.regs.pc).WithPC(vector);
            entered.regs.sp == Wrap16(m.regs.sp - 2)
            && Read(entered.mem, Wrap16(m.regs.sp - 1)) == m.regs.pc % 0x100
            && Read(entered.mem, Wrap16(m.regs.sp - 2)) == Read(m.mem, Wrap16(m.regs.sp - 2))
  {
    var sp: int := m.regs.sp;
    assert Wrap16(sp - 2) != sp && Wrap16(sp - 2) != Wrap16(sp - 1);
  }
}
