/** Opcode decoding of `execute_op` (main.rs): the ordered chain of bit-pattern tests,
    written as a pure function from the opcode byte to the instruction it selects. The
    tests are made on the 8-bit pattern, in the order the source makes them, so that an
    opcode matched by two patterns decodes as the first. */
module Decoder {

  /** The accumulator operations of opcode groups 2 (r8 operand) and 3 (imm8 operand). */
  datatype AluOp = Add | Adc | Sub | Sbc | And | Xor | Or | Cp

  /** One instruction per arm of `execute_op`; the fields are the opcode fields the arm
      extracts, computed as the arm computes them. */
  datatype Instr =
    | Nop
    | LdR16Imm16(r16: nat)
    | LdR16MemA(r16mem: nat)
    | LdAR16Mem(r16mem: nat)
    | LdImm16Sp
    | IncR16(r16: nat)
    | DecR16(r16: nat)
    | AddHlR16(r16: nat)
    | IncR8(r8: nat)
    | DecR8(r8: nat)
    | LdR8Imm8(r8: nat)
    | JrImm8
    | JrCondImm8(cond: nat)
    | Stop
    | Rlca
    | Rrca
    | Rla
    | Rra
    | Daa
    | Cpl
    | Scf
    | Ccf
    | Halt
    | LdR8R8(dst: nat, src: nat)
    | AluR8(op: AluOp, src: nat)
    | RetCond(cond: nat)
    | JpCondImm16(cond: nat)
    | CallCondImm16(cond: nat)
    | Rst(target: nat)
    | PopR16Stk(r16stk: nat)
    | PushR16Stk(r16stk: nat)
    | AluImm8(op: AluOp)
    | Ret
    | Reti
    | JpImm16
    | JpHl
    | CallImm16
    | LdhCA
    | LdhImm8A
    | LdImm16A
    | LdhAC
    | LdhAImm8
    | LdAImm16
    | AddSpImm8
    | LdHlSpImm8
    | LdSpHl
    | Di
    | Ei
    | Undefined

  /** Every field is within the range its selector accepts. */
  predicate WellFormed(i: Instr)
  {
    match i
    case LdR16Imm16(r) => r < 4
    case LdR16MemA(r) => r < 4
    case LdAR16Mem(r) => r < 4
    case IncR16(r) => r < 4
    case DecR16(r) => r < 4
    case AddHlR16(r) => r < 4
    case IncR8(r) => r < 8
    case DecR8(r) => r < 8
    case LdR8Imm8(r) => r < 8
    case JrCondImm8(cc) => cc < 4
    case LdR8R8(d, s) => d < 8 && s < 8
    case AluR8(_, s) => s < 8
    case RetCond(cc) => cc < 4
    case JpCondImm16(cc) => cc < 4
    case CallCondImm16(cc) => cc < 4
    case Rst(t) => t < 8
    case PopR16Stk(r) => r < 4
    case PushR16Stk(r) => r < 4
    case _ => true
  }

  /** The operation of a group 2 opcode, from `query_byte >> 3` (0b10000 ..= 0b10111). */
  function Group2Op(group2Id: bv8): AluOp
    requires 0x10 <= group2Id < 0x18
  {
    if group2Id == 0x10 then Add
    else if group2Id == 0x11 then Adc
    else if group2Id == 0x12 then Sub
    else if group2Id == 0x13 then Sbc
    else if group2Id == 0x14 then And
    else if group2Id == 0x15 then Xor
    else if group2Id == 0x16 then Or
    else Cp
  }

  /** Group 0 (`query_byte >> 6 == 0b00`). */
  function DecodeGroup0(op: bv8): (i: Instr)
    requires op >> 6 == 0
    ensures WellFormed(i)
  {
    if op == 0x00 then Nop
    // LD r16, imm16 computes its selector with `|`, not `&`
    else if op & 0x0F == 0x01 then LdR16Imm16(((op | 0x30) >> 4) as nat)
    else if op & 0x0F == 0x02 then LdR16MemA(((op & 0x30) >> 4) as nat)
    else if op & 0x0F == 0x0A then LdAR16Mem(((op & 0x30) >> 4) as nat)
    else if op == 0x08 then LdImm16Sp
    else if op & 0x0F == 0x03 then IncR16(((op & 0x30) >> 4) as nat)
    else if op & 0x0F == 0x0B then DecR16(((op & 0x30) >> 4) as nat)
    else if op & 0x0F == 0x09 then AddHlR16(((op & 0x30) >> 4) as nat)
    else if op & 0x07 == 0x04 then IncR8(((op & 0x38) >> 3) as nat)
    else if op & 0x07 == 0x05 then DecR8(((op & 0x38) >> 3) as nat)
    // LD r8, imm8 masks with 0b0011000 (0x18): only two of the three field bits
    else if op & 0xC7 == 0x06 then LdR8Imm8(((op & 0x18) >> 3) as nat)
    else if op == 0x18 then JrImm8
    else if op & 0xE7 == 0x20 then JrCondImm8(((op & 0x18) >> 3) as nat)
    else if op == 0x10 then Stop
    else if op == 0x07 then Rlca
    else if op == 0x0F then Rrca
    else if op == 0x17 then Rla
    else if op == 0x1F then Rra
    else if op == 0x27 then Daa
    else if op == 0x2F then Cpl
    else if op == 0x37 then Scf
    else if op == 0x3F then Ccf
    else Undefined
  }

  /** Group 3 (`query_byte >> 6 == 0b11`). */
  function DecodeGroup3(op: bv8): (i: Instr)
    requires op >> 6 == 3
    ensures WellFormed(i)
  {
    if op & 0xE7 == 0xC0 then RetCond(((op & 0x18) >> 3) as nat)
    else if op & 0xE7 == 0xC2 then JpCondImm16(((op & 0x18) >> 3) as nat)
    else if op & 0xE7 == 0xC4 then CallCondImm16(((op & 0x18) >> 3) as nat)
    else if op & 0xC7 == 0xC7 then Rst(((op & 0x38) >> 3) as nat)
    else if op & 0xCF == 0xC1 then PopR16Stk(((op & 0x30) >> 4) as nat)
    else if op & 0xCF == 0xC5 then PushR16Stk(((op & 0x30) >> 4) as nat)
    else if op == 0xC6 then AluImm8(Add)
    else if op == 0xCE then AluImm8(Adc)
    else if op == 0xD6 then AluImm8(Sub)
    else if op == 0xDE then AluImm8(Sbc)
    else if op == 0xE6 then AluImm8(And)
    else if op == 0xEE then AluImm8(Xor)
    else if op == 0xF6 then AluImm8(Or)
    else if op == 0xFE then AluImm8(Cp)
    else if op == 0xC9 then Ret
    else if op == 0xD9 then Reti
    else if op == 0xC3 then JpImm16
    else if op == 0xE9 then JpHl
    else if op == 0xCD then CallImm16
    else if op == 0xE2 then LdhCA
    else if op == 0xE0 then LdhImm8A
    else if op == 0xEA then LdImm16A
    else if op == 0xF2 then LdhAC
    else if op == 0xF0 then LdhAImm8
    else if op == 0xFA then LdAImm16
    else if op == 0xE8 then AddSpImm8
    else if op == 0xF8 then LdHlSpImm8
    else if op == 0xF9 then LdSpHl
    else if op == 0xF3 then Di
    else if op == 0xFB then Ei
    else Undefined
  }

  /** `execute_op`'s dispatch on the two most significant bits, then on the rest. */
  function Decode(op: bv8): (i: Instr)
    ensures WellFormed(i)
  {
    var group := op >> 6;
    if group == 0 then DecodeGroup0(op)
    else if group == 1 then
      if op == 0x76 then Halt
      else LdR8R8(((op & 0x38) >> 3) as nat, (op & 0x07) as nat)
    else if group == 2 then AluR8(Group2Op(op >> 3), (op & 0x07) as nat)
    else DecodeGroup3(op)
  }

  /** The opcodes no arm accepts: `execute_op` returns `Continue` for exactly these. */
  const UndefinedOpcodes: set<bv8> :=
    {0xCB, 0xD3, 0xDB, 0xDD, 0xE3, 0xE4, 0xEB, 0xEC, 0xED, 0xF4, 0xFC, 0xFD}

  /** Exhaustive classification of the 256 opcode bytes: twelve are unrecognized, DAA and
      HALT are the only panicking arms, NOP is only 0x00. */
  lemma DecodeClassification(op: bv8)
    ensures Decode(op).Undefined? <==> op in UndefinedOpcodes
    ensures Decode(op).Daa? <==> op == 0x27
    ensures Decode(op).Halt? <==> op == 0x76
    ensures Decode(op).Nop? <==> op == 0x00
  {
    var group := op >> 6;
    if group == 0 {
      Group0Classification(op);
    } else if group == 3 {
      Group3Classification(op);
    }
  }

  lemma Group0Classification(op: bv8)
    requires op >> 6 == 0
    ensures DecodeGroup0(op).Undefined? <==> false
    ensures DecodeGroup0(op).Daa? <==> op == 0x27
    ensures DecodeGroup0(op).Nop? <==> op == 0x00
  {
  }

  lemma Group3Classification(op: bv8)
    requires op >> 6 == 3
    ensures DecodeGroup3(op).Undefined? <==> op in UndefinedOpcodes
  {
  }

  /** LD r16, imm16 is 0x01, 0x11, 0x21, 0x31, and all four select SP (r16 id 3). */
  lemma LdR16Imm16AlwaysSP(op: bv8)
    ensures Decode(op).LdR16Imm16? <==> op & 0xCF == 0x01
    ensures Decode(op).LdR16Imm16? ==> Decode(op).r16 == 3
  {
  }

  /** LD r8, imm8 is every 0b00xxx110 opcode, but its register id keeps only bits 3 and 4,
      so the ids 4..7 of the encoding (H, L, [HL], A) alias 0..3 (B, C, D, E). */
  lemma LdR8Imm8Aliases(op: bv8)
    ensures Decode(op).LdR8Imm8? <==> op & 0xC7 == 0x06
    ensures Decode(op).LdR8Imm8? ==>
              Decode(op).r8 < 4 && Decode(op).r8 == ((op >> 3) & 0x07) as nat % 4
    ensures Decode(0x26) == Decode(0x06) && Decode(0x3E) == LdR8Imm8(3)
  {
  }

  /** The r8 fields of INC r8, DEC r8, LD r8, r8 and the accumulator group are the 3-bit
      fields of the SM83 encoding. */
  lemma R8FieldsFollowEncoding(op: bv8)
    ensures Decode(op).IncR8? || Decode(op).DecR8? ==> Decode(op).r8 == ((op >> 3) & 0x07) as nat
    ensures Decode(op).LdR8R8? ==>
              Decode(op).dst == ((op >> 3) & 0x07) as nat && Decode(op).src == (op & 0x07) as nat
    ensures Decode(op).AluR8? ==> Decode(op).src == (op & 0x07) as nat
  {
  }

  /** The r16 field of INC r16, DEC r16 and ADD HL, r16 is bits 4 and 5. */
  lemma R16FieldFollowsEncoding(op: bv8)
    ensures Decode(op).IncR16? || Decode(op).DecR16? || Decode(op).AddHlR16? ==>
              Decode(op).r16 == ((op >> 4) & 0x03) as nat
  {
  }

  /** The cc field of the conditional branches is bits 3 and 4, and RST jumps to bits 3..5
      times 8. */
  lemma CondFieldsFollowEncoding(op: bv8)
    ensures (Decode(op).JrCondImm8? || Decode(op).RetCond? || Decode(op).JpCondImm16?
             || Decode(op).CallCondImm16?) ==> Decode(op).cond == ((op >> 3) & 0x03) as nat
    ensures Decode(op).Rst? ==> Decode(op).target * 8 == (op & 0x38) as nat
  {
  }
}
