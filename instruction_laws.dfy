/** Properties of single instructions at the level of the whole machine: which registers,
    flags, memory cells and PC values an arm changes, and how arms relate to each other. */
module InstructionLaws {
  import opened Bytes
  import opened Flags
  import opened Registers
  import opened Memory
  import opened Gameboy
  import opened Decoder
  import opened Cpu
  import AluLaws

  /** The two panicking opcodes are the same numbers as bytes and as bit patterns. */
  lemma PanicBytes(op: u8)
    ensures op == 0x27 <==> op as bv8 == 0x27
    ensures op == 0x76 <==> op as bv8 == 0x76
  {
  }

  /** The outcome depends on the arm alone. */
  lemma OutcomeOfInstr(m: Machine, i: Instr)
    requires WellFormed(i)
    ensures Execute(m, i).1 == Unrecognized <==> i.Undefined?
    ensures Execute(m, i).1 == DaaPanic <==> i.Daa?
    ensures Execute(m, i).1 == HaltPanic <==> i.Halt?
    ensures Execute(m, i).1 != Handled ==> Execute(m, i).0 == m
  {
    if i.Undefined? || i.Daa? || i.Halt? {
      assert Execute(m, i).0 == m;
    } else {
      assert Execute(m, i).1 == Handled;
    }
  }

  /** `execute_op` reports `Continue` exactly for the twelve unused opcodes, panics exactly
      for DAA (0x27) and HALT (0x76), and reports `Break` for the other 242 bytes. An
      opcode that is not handled leaves the machine unchanged. */
  lemma OutcomeOfEveryOpcode(m: Machine, op: u8)
    ensures ExecuteOp(m, op).1 == Unrecognized <==> op as bv8 in UndefinedOpcodes
    ensures ExecuteOp(m, op).1 == DaaPanic <==> op == 0x27
    ensures ExecuteOp(m, op).1 == HaltPanic <==> op == 0x76
    ensures ExecuteOp(m, op).1 != Handled ==> ExecuteOp(m, op).0 == m
  {
    var i := Decode(op as bv8);
    DecodeClassification(op as bv8);
    OutcomeOfInstr(m, i);
    PanicBytes(op);
    assert ExecuteOp(m, op) == Execute(m, i);
  }

  /** NOP at PC only advances PC. */
  lemma NopOnlyAdvances(m: Machine)
    requires Read(m.mem, m.regs.pc) == 0x00
    ensures FetchExecute(m) == (m.WithPC(Wrap16(m.regs.pc + 1)), Handled)
  {
    DecodeClassification(0x00);
  }

  /** Every LD r16, imm16 (0x01, 0x11, 0x21, 0x31) consumes the two operand bytes and
      stores the word in SP; BC, DE and HL are left alone. */
  lemma LdR16Imm16WritesSP(m: Machine, op: u8)
    requires (op as bv8) & 0xCF == 0x01
    ensures ExecuteOp(m, op) ==
              (m.(regs := m.regs.(sp := m.ReadWordAndAdvanceProgramCounter().0,
                                  pc := Wrap16(m.regs.pc + 2))), Handled)
  {
    LdR16Imm16AlwaysSP(op as bv8);
  }

  /** LD A, imm8 (0x3E) stores the operand in E, because its register field is masked to
      two bits; A is unchanged. */
  lemma LdAImm8StoresE(m: Machine)
    ensures ExecuteOp(m, 0x3E).0 ==
              m.(regs := m.regs.(e := Read(m.mem, m.regs.pc), pc := Wrap16(m.regs.pc + 1)))
  {
    assert ExecuteOp(m, 0x3E) == Execute(m, LdR8Imm8(3)) by {
      assert (0x3E as u8) as bv8 == 0x3E;
      LdR8Imm8Aliases(0x3E);
    }
  }

  /** LD r8, imm8 never writes memory: the masked id is below 4, so never 6 ([HL]). */
  lemma LdR8Imm8KeepsMemory(m: Machine, op: u8)
    requires Decode(op as bv8).LdR8Imm8?
    ensures ExecuteOp(m, op).0.mem == m.mem
    ensures ExecuteOp(m, op).0.regs.pc == Wrap16(m.regs.pc + 1)
  {
    LdR8Imm8Aliases(op as bv8);
  }

  /** LD [imm16], SP (0x08) stores the one byte A at the operand address, not SP. */
  lemma LdImm16SpStoresA(m: Machine)
    ensures ExecuteOp(m, 0x08).0 ==
              Machine(m.regs.(pc := Wrap16(m.regs.pc + 2)),
                      Write(m.mem, m.ReadWordAndAdvanceProgramCounter().0, m.regs.a), m.ime)
  {
    assert ExecuteOp(m, 0x08) == Execute(m, LdImm16Sp) by {
      assert (0x08 as u8) as bv8 == 0x08;
      assert Decode(0x08) == LdImm16Sp;
    }
  }

  /** LD r8, r8 copies the source into the destination, and LD r, r changes nothing. */
  lemma LdR8R8Copies(m: Machine, dst: nat, src: nat)
    requires dst < 8 && src < 8
    ensures Execute(m, LdR8R8(dst, src)).0.GetR8(dst) == m.GetR8(src)
    ensures Execute(m, LdR8R8(src, src)).0 == m
  {
    R8ViewSetGet(m, dst, dst, m.GetR8(src));
  }

  /** An r8 arm of the accumulator group changes only A and F, with the value and flags of
      `AluR8Result` on the selected operand (for id 6 the byte at HL). */
  lemma AluR8Frame(m: Machine, op: AluOp, src: nat)
    requires src < 8
    ensures var r := AluR8Result(op, m.regs.a, m.GetR8(src), m.regs.f.c);
            Execute(m, AluR8(op, src)) == (m.(regs := m.regs.(a := r.a, f := r.f)), Handled)
    ensures op == Cp ==> Execute(m, AluR8(op, src)).0.regs == m.regs.(f := Execute(m, AluR8(op, src)).0.regs.f)
  {
    if op == Cp {
      AluLaws.AluR8Arithmetic(op, m.regs.a, m.GetR8(src), m.regs.f.c);
    }
  }

  /** XOR A (0xAF) clears A and sets only Z, whatever A held. */
  lemma XorAClearsA(m: Machine)
    ensures ExecuteOp(m, 0xAF).0 == m.(regs := m.regs.(a := 0, f := Flags(true, false, false, false)))
  {
    assert ExecuteOp(m, 0xAF) == Execute(m, AluR8(Xor, 7)) by {
      assert (0xAF as u8) as bv8 == 0xAF;
      assert Decode(0xAF) == AluR8(Xor, 7);
    }
    AluLaws.XorSelfClears(m.regs.a, m.regs.f.c);
  }

  /** INC r8 adds one (wrapping) to the selected register or [HL], sets Z for zero,
      clears N, sets H when the low nibble was 0xF, and keeps C and PC. */
  lemma IncR8Effect(m: Machine, r8: nat)
    requires r8 < 8
    ensures var m' := Execute(m, IncR8(r8)).0;
            m'.GetR8(r8) == Wrap8(m.GetR8(r8) + 1)
            && (m'.regs.f.z <==> m'.GetR8(r8) == 0) && !m'.regs.f.n
            && (m'.regs.f.h <==> m.GetR8(r8) % 0x10 == 0x0F)
            && m'.regs.f.c == m.regs.f.c && m'.regs.pc == m.regs.pc && m'.regs.sp == m.regs.sp
  {
    var newVal := Wrap8(m.GetR8(r8) + 1);
    R8ViewSetGet(m, r8, r8, newVal);
    AluLaws.ByteHalfCarryIsNibbleCarry(m.GetR8(r8), 1);
    var m1 := m.SetR8(r8, newVal);
    assert m1.regs.GetHL() == m1.regs.(f := m1.regs.f.(n := false)).GetHL();
  }

  /** DEC r8 subtracts one (wrapping), sets Z for zero, sets N, clears H, keeps C. */
  lemma DecR8Effect(m: Machine, r8: nat)
    requires r8 < 8
    ensures var m' := Execute(m, DecR8(r8)).0;
            m'.GetR8(r8) == Wrap8(m.GetR8(r8) - 1)
            && (m'.regs.f.z <==> m'.GetR8(r8) == 0) && m'.regs.f.n && !m'.regs.f.h
            && m'.regs.f.c == m.regs.f.c && m'.regs.pc == m.regs.pc && m'.regs.sp == m.regs.sp
  {
    var newVal := Wrap8(m.GetR8(r8) - 1);
    R8ViewSetGet(m, r8, r8, newVal);
  }

  /** DEC r8 undoes INC r8 on the selected register (its flags aside). */
  lemma {:induction false} DecUndoesIncR8(m: Machine, r8: nat)
    requires r8 < 8
    ensures Execute(Execute(m, IncR8(r8)).0, DecR8(r8)).0.GetR8(r8) == m.GetR8(r8)
  {
    var m1 := Execute(m, IncR8(r8)).0;
    IncR8Effect(m, r8);
    DecR8Effect(m1, r8);
    var x: int := m.GetR8(r8);
    assert Wrap8(Wrap8(x + 1) - 1) == x;
  }

  /** INC r16 and DEC r16 touch no flag. INC stores the wrapped successor through the
      r16 setter, so for BC, DE and HL the pair reads back only its low byte plus 0 or
      0x100; DEC saturates at 0. */
  lemma IncDecR16Effect(m: Machine, r16: nat)
    requires r16 < 4
    ensures var v := Wrap16(m.regs.GetR16(r16) + 1);
            var m' := Execute(m, IncR16(r16)).0;
            m'.regs.f == m.regs.f && m'.mem == m.mem && m'.regs.pc == m.regs.pc
            && m'.regs.GetR16(r16) == (if r16 == 3 then v else (if v >= 0x100 then 0x100 else 0) + v % 0x100)
    ensures var m' := Execute(m, DecR16(r16)).0;
            m'.regs.f == m.regs.f && m'.mem == m.mem
            && (m.regs.GetR16(r16) == 0 ==> m'.regs.GetR16(r16) == 0)
  {
    var v := Wrap16(m.regs.GetR16(r16) + 1);
    if r16 < 3 {
      PairSetGet(m.regs, v);
    }
  }

  /** On SP, DEC r16 undoes INC r16 unless SP was 0xFFFF (where INC wraps to 0 and DEC
      then saturates). */
  lemma DecUndoesIncSP(m: Machine)
    ensures Execute(Execute(m, IncR16(3)).0, DecR16(3)).0.regs.sp ==
              (if m.regs.sp == 0xFFFF then 0 else m.regs.sp)
  {
  }

  /** ADD HL, r16 clears N, keeps Z, sets C on 16-bit overflow and H on a carry out of
      bit 7, and stores the wrapped sum through `set_hl`. */
  lemma AddHlEffect(m: Machine, r16: nat)
    requires r16 < 4
    ensures var sum := m.regs.GetHL() + m.regs.GetR16(r16);
            var m' := Execute(m, AddHlR16(r16)).0;
            !m'.regs.f.n && m'.regs.f.z == m.regs.f.z && (m'.regs.f.c <==> sum > 0xFFFF)
            && (m'.regs.f.h <==> Wrap16(sum) % 0x100 < m.regs.GetHL() % 0x100)
            && m'.regs == m.regs.(f := m'.regs.f).SetHL(Wrap16(sum))
  {
    AluLaws.WordHalfCarryIsByteCarry(m.regs.GetHL(), m.regs.GetR16(r16));
  }

  /** RLCA and RRCA rotate A by one bit (Rust's `rotate_left(1)` / `rotate_right(1)`,
      stated against Dafny's bit-vector rotations) and copy the bit rotated out into C,
      clearing Z, N and H; that bit lands in bit 0 for RLCA and in bit 7 for RRCA. */
  lemma {:induction false} RotateAccumulator(m: Machine)
    ensures var m' := Execute(m, Rlca).0;
            m'.regs.f == Flags(false, false, false, m.regs.a >= 0x80)
            && (m'.regs.f.c <==> m'.regs.a % 2 == 1)
    ensures var m' := Execute(m, Rrca).0;
            m'.regs.f == Flags(false, false, false, m.regs.a % 2 == 1)
            && (m'.regs.f.c <==> m'.regs.a >= 0x80)
    ensures Execute(m, Rlca).0.regs.a as bv8 == (m.regs.a as bv8).RotateLeft(1)
    ensures Execute(m, Rrca).0.regs.a as bv8 == (m.regs.a as bv8).RotateRight(1)
  {
    var a: int := m.regs.a;
    RotatedBits(m.regs.a);
    RotateLeftAsBits(m.regs.a);
    RotateRightAsBits(m.regs.a);
    assert Execute(m, Rlca).0.regs.f == Cleared.(c := a >= 0x80);
    assert Execute(m, Rlca).0.regs.a == Wrap8(a * 2) + a / 0x80;
    assert Execute(m, Rrca).0.regs.f == Cleared.(c := a % 2 == 1);
    assert Execute(m, Rrca).0.regs.a == a / 2 + (a % 2) * 0x80;
  }

  /** The bit rotated out of a byte lands in bit 0 on a left rotation and in bit 7 on a
      right rotation. */
  lemma RotatedBits(a: u8)
    ensures (Wrap8(a * 2) + a / 0x80) % 2 == 1 <==> a >= 0x80
    ensures a / 2 + (a % 2) * 0x80 >= 0x80 <==> a % 2 == 1
  {
    var x: int := a * 2;
    assert x == Wrap8(x) + 0x100 * (x / 0x100);
    assert Wrap8(x) % 2 == 0;
  }

  /** Shifts of a byte by one and by seven bits, read as integers. */
  lemma ShiftValues(b: bv8)
    ensures (b << 1) as int == b as int % 0x80 * 2 && (b << 1) & 1 == 0
    ensures (b >> 7) as int == b as int / 0x80
    ensures (b >> 1) as int == b as int / 2
    ensures (b << 7) == if b as int % 2 == 1 then 0x80 else 0
  {
  }

  /** Setting a clear bit 0 or bit 7 of a byte adds that bit's weight. */
  lemma SetClearBit(x: bv8)
    ensures x & 1 == 0 ==> (x | 1) as int == x as int + 1
    ensures x < 0x80 ==> (x | 0x80) as int == x as int + 0x80
    ensures x | 0 == x
  {
  }

  /** A one-bit rotation of a byte, read as an integer: the bit rotated out re-enters
      at the other end. */
  lemma RotationValues(b: bv8)
    ensures b.RotateLeft(1) as int == b as int % 0x80 * 2 + b as int / 0x80
    ensures b.RotateRight(1) as int == b as int / 2 + b as int % 2 * 0x80
  {
    assert b.RotateLeft(1) == (b << 1) | (b >> 7);
    assert b.RotateRight(1) == (b >> 1) | (b << 7);
    ShiftValues(b);
    SetClearBit(b << 1);
    SetClearBit(b >> 1);
    if b as int >= 0x80 {
      assert b >> 7 == 1;
    } else {
      assert b >> 7 == 0;
    }
  }

  /** The arithmetic RLCA performs is the bit-vector rotation left by one. */
  lemma RotateLeftAsBits(a: u8)
    ensures (Wrap8(a * 2) + a / 0x80) as bv8 == (a as bv8).RotateLeft(1)
  {
    var r := (a as bv8).RotateLeft(1);
    ByteToBits(a);
    RotationValues(a as bv8);
    BitsToByte(r);
    var n := Wrap8(a * 2) + a / 0x80;
    assert n == r as int;
  }

  /** The arithmetic RRCA performs is the bit-vector rotation right by one. */
  lemma RotateRightAsBits(a: u8)
    ensures (a / 2 + (a % 2) * 0x80) as bv8 == (a as bv8).RotateRight(1)
  {
    var r := (a as bv8).RotateRight(1);
    ByteToBits(a);
    RotationValues(a as bv8);
    BitsToByte(r);
    var n := a / 2 + (a % 2) * 0x80;
    assert n == r as int;
  }

  /** Rotating a byte left by one and then right by one, or the other way round, gives
      it back. */
  lemma RotateByteInverse(a: u8)
    ensures var l := Wrap8(a * 2) + a / 0x80; l / 2 + (l % 2) * 0x80 == a
    ensures var r := a / 2 + (a % 2) * 0x80; Wrap8(r * 2) + r / 0x80 == a
  {
    if a < 0x80 {
      assert Wrap8(a * 2) == a * 2;
    } else {
      assert Wrap8(a * 2) == a * 2 - 0x100;
    }
    var r := a / 2 + (a % 2) * 0x80;
    if a % 2 == 0 {
      assert r == a / 2 && Wrap8(r * 2) == a;
    } else {
      assert r == a / 2 + 0x80 && Wrap8(r * 2) == a - 1;
    }
  }

  /** RRCA after RLCA, and RLCA after RRCA, restore A. */
  lemma RotationsAreInverse(m: Machine)
    ensures Execute(Execute(m, Rlca).0, Rrca).0.regs.a == m.regs.a
    ensures Execute(Execute(m, Rrca).0, Rlca).0.regs.a == m.regs.a
  {
    RotateByteInverse(m.regs.a);
  }

  /** RLA shifts the old carry into bit 0 and RRA into bit 7; both leave every flag,
      C included, cleared. */
  lemma RotateThroughCarry(m: Machine)
    ensures var m' := Execute(m, Rla).0;
            m'.regs.f == Cleared && m'.regs.a == Wrap8(m.regs.a * 2) + CarryBit(m.regs.f.c)
            && (m'.regs.a % 2 == 1 <==> m.regs.f.c)
    ensures var m' := Execute(m, Rra).0;
            m'.regs.f == Cleared && m'.regs.a % 0x80 == m.regs.a / 2
            && (m'.regs.a >= 0x80 <==> m.regs.f.c)
  {
  }

  /** CPL complements A (A becomes 0xFF - A) and sets N and H; CPL twice restores A. */
  lemma ComplementIsInvolution(m: Machine)
    ensures Execute(m, Cpl).0.regs.a == 0xFF - m.regs.a
    ensures Execute(m, Cpl).0.regs.f == m.regs.f.(n := true, h := true)
    ensures Execute(Execute(m, Cpl).0, Cpl).0.regs.a == m.regs.a
  {
    var m1 := m.(regs := m.regs.(a := Not8(m.regs.a), f := m.regs.f.(n := true, h := true)));
    assert Execute(m, Cpl).0 == m1;
    Not8IsComplement(m.regs.a);
    Not8IsComplement(0xFF - m.regs.a);
    assert Execute(m1, Cpl).0.regs.a == Not8(m1.regs.a);
  }

  /** SCF sets C and clears N and H; CCF flips C. Neither touches anything else, so CCF
      twice restores the machine. */
  lemma CarryFlagOps(m: Machine)
    ensures var m' := Execute(m, Scf).0;
            m'.regs == m.regs.(f := m.regs.f.(n := false, h := false, c := true))
            && m'.mem == m.mem && m'.ime == m.ime
    ensures var m' := Execute(m, Ccf).0;
            m'.regs == m.regs.(f := m.regs.f.(c := !m.regs.f.c))
            && m'.mem == m.mem && m'.ime == m.ime
    ensures Execute(Execute(m, Ccf).0, Ccf).0 == m
  {
    var m1 := m.(regs := m.regs.(f := m.regs.f.(c := !m.regs.f.c)));
    assert Execute(m, Ccf).0 == m1;
    assert Execute(m1, Ccf).0 == m;
  }

}
