/** Properties of the half-carry helpers and of the accumulator arms (ADD, ADC, SUB, SBC,
    AND, XOR, OR, CP in their r8 and imm8 forms). */
module AluLaws {
  import opened Bytes
  import opened Flags
  import opened Decoder
  import opened Cpu

  /** The byte half-carry is the carry out of bit 3: the low nibble of the wrapped sum is
      smaller than the low nibble of the first operand exactly when the nibbles overflow.
      Adding 1 half-carries exactly from a low nibble of 0xF. */
  lemma ByteHalfCarryIsNibbleCarry(a: u8, b: u8)
    ensures CalculateByteHalfCarryAdd(a, b) <==> Wrap8(a + b) % 0x10 < a % 0x10
    ensures CalculateByteHalfCarryAdd(a, 1) <==> a % 0x10 == 0x0F
  {
    var s := a % 0x10 + b % 0x10;
    var k := a / 0x10 + b / 0x10;
    var x: int := a + b;
    assert x == 0x10 * k + s;
    var w := if x >= 0x100 then 0x10 * (k - 0x10) + s else 0x10 * k + s;
    assert Wrap8(x) == w;
    assert w % 0x10 == if s > 0x0F then s - 0x10 else s;
  }

  /** The word half-carry is the carry out of bit 7 of the 16-bit sum (not out of bit 11). */
  lemma WordHalfCarryIsByteCarry(a: u16, b: u16)
    ensures CalculateWordHalfCarryAdd(a, b) <==> Wrap16(a + b) % 0x100 < a % 0x100
  {
    var s := a % 0x100 + b % 0x100;
    assert (a + b) % 0x10000 % 0x100 == (a + b) % 0x100;
    assert (a + b) % 0x100 == s % 0x100;
  }

  /** Wrapping an intermediate sum does not change the wrapped total. */
  lemma WrapInner(x: int, y: int)
    ensures Wrap8(x + Wrap8(y)) == Wrap8(x + y)
    ensures Wrap8(x - Wrap8(y)) == Wrap8(x - y)
  {
    var k := y / 0x100;
    assert y == k * 0x100 + Wrap8(y);
    assert x + y == (x + Wrap8(y)) + k * 0x100;
    assert x - y == (x - Wrap8(y)) - k * 0x100;
  }

  /** The arithmetic of the r8 arms: A receives the 8-bit sum or difference (with the carry
      for ADC but not for SBC), N is set exactly for the subtracting arms, C is the
      unsigned overflow or borrow of the operation as computed, and CP keeps A. */
  lemma AluR8Arithmetic(op: AluOp, a: u8, x: u8, carry: bool)
    ensures op == Add ==> AluR8Result(op, a, x, carry).a == Wrap8(a + x)
                           && (AluR8Result(op, a, x, carry).f.c <==> a + x > 0xFF)
    ensures op == Adc ==> AluR8Result(op, a, x, carry).a == Wrap8(a + x + CarryBit(carry))
                          && (AluR8Result(op, a, x, carry).f.c <==>
                                a + x + CarryBit(carry) > 0xFF && !(a == 0xFF && carry))
    ensures op == Sub || op == Sbc ==> AluR8Result(op, a, x, carry).a == Wrap8(a - x)
                                       && (AluR8Result(op, a, x, carry).f.c <==> x > a)
    ensures op == Cp ==> AluR8Result(op, a, x, carry).a == a
                         && (AluR8Result(op, a, x, carry).f.c <==> x > a)
    ensures AluR8Result(op, a, x, carry).f.n <==> op == Sub || op == Sbc || op == Cp
  {
    if op == Adc {
      WrapInner(x, a + CarryBit(carry));
      AdcCarry(x, a, carry);
    }
  }

  /** The carry of `x + (y + carry)` with the inner sum wrapped first: the true carry
      out, except that it is lost when y is 0xFF and the carry is set. */
  lemma AdcCarry(x: u8, y: u8, carry: bool)
    ensures x + Wrap8(y + CarryBit(carry)) > 0xFF <==> x + y + CarryBit(carry) > 0xFF && !(y == 0xFF && carry)
  {
    if y == 0xFF && carry {
      assert Wrap8(y + CarryBit(carry)) == 0;
    } else {
      assert Wrap8(y + CarryBit(carry)) == y + CarryBit(carry);
    }
  }

  /** Z reports a zero result: the new A for every arm but CP, and A == operand for CP. */
  lemma AluR8ZeroFlag(op: AluOp, a: u8, x: u8, carry: bool)
    ensures op != Cp ==> (AluR8Result(op, a, x, carry).f.z <==> AluR8Result(op, a, x, carry).a == 0)
    ensures op == Cp ==> (AluR8Result(op, a, x, carry).f.z <==> a == x)
  {
  }

  /** The logical arms fix H and C: AND sets H and clears C, XOR and OR clear both. */
  lemma LogicFlags(op: AluOp, a: u8, x: u8, carry: bool)
    requires op == And || op == Xor || op == Or
    ensures AluR8Result(op, a, x, carry).f.n == false && AluR8Result(op, a, x, carry).f.c == false
    ensures AluR8Result(op, a, x, carry).f.h <==> op == And
    ensures AluImm8Result(op, a, x, carry) == AluR8Result(op, a, x, carry)
  {
  }

  /** SBC A, r8 does not consult the carry flag: it is SUB A, r8 for either carry. */
  lemma SbcR8IgnoresCarry(a: u8, x: u8, c1: bool, c2: bool)
    ensures AluR8Result(Sbc, a, x, c1) == AluR8Result(Sub, a, x, c2)
  {
  }

  /** XOR of A with itself clears A and sets only Z. */
  lemma XorSelfClears(a: u8, carry: bool)
    ensures AluR8Result(Xor, a, a, carry) == AluResult(0, Flags(true, false, false, false))
  {
    assert (a as bv8) ^ (a as bv8) == 0;
  }

  /** ADC's carry flag is the overflow of `operand + (A + carry)` after A + carry has
      wrapped, so it misses the carry when A is 0xFF and the carry is set. */
  lemma AdcCarryLostOnWrappedAddend()
    ensures AluR8Result(Adc, 0xFF, 0x01, true) == AluResult(0x01, Flags(false, false, false, false))
    ensures 0xFF + 0x01 + CarryBit(true) > 0xFF
  {
  }

  /** The imm8 arms: ADC and SBC include the carry, H is cleared for ADD, and C is the
      overflow or borrow of the operation as computed. */
  lemma AluImm8Arithmetic(op: AluOp, a: u8, n: u8, carry: bool)
    ensures op == Add ==> AluImm8Result(op, a, n, carry).a == Wrap8(a + n)
                          && !AluImm8Result(op, a, n, carry).f.h
                          && (AluImm8Result(op, a, n, carry).f.c <==> a + n > 0xFF)
    ensures op == Adc ==> AluImm8Result(op, a, n, carry).a == Wrap8(a + n + CarryBit(carry))
                          && (AluImm8Result(op, a, n, carry).f.c <==>
                                a + n + CarryBit(carry) > 0xFF && !(n == 0xFF && carry))
    ensures op == Sbc ==> AluImm8Result(op, a, n, carry).a == Wrap8(a - n - CarryBit(carry))
                          && (AluImm8Result(op, a, n, carry).f.c <==> Wrap8(n + CarryBit(carry)) > a)
    ensures AluImm8Result(op, a, n, carry).f.n <==> op == Sub || op == Sbc || op == Cp
    ensures op != Cp ==> (AluImm8Result(op, a, n, carry).f.z <==> AluImm8Result(op, a, n, carry).a == 0)
  {
    if op == Adc {
      WrapInner(a, n + CarryBit(carry));
      AdcCarry(a, n, carry);
    } else if op == Sbc {
      WrapInner(a, n + CarryBit(carry));
    }
  }

  /** The r8 and imm8 encodings of an operation agree, except that ADD imm8 clears H
      where ADD r8 computes it, SBC imm8 subtracts the carry where SBC r8 does not, and
      the two ADC forms share A, Z and N but not H and C: ADC r8 folds the carry into A
      before adding the operand, ADC imm8 folds it into the operand (see AdcFormsDiffer). */
  lemma Imm8AgreesWithR8(op: AluOp, a: u8, x: u8, carry: bool)
    ensures op in {Sub, And, Xor, Or, Cp} ==> AluImm8Result(op, a, x, carry) == AluR8Result(op, a, x, carry)
    ensures op == Add ==> AluImm8Result(op, a, x, carry) == AluR8Result(op, a, x, carry).(f := AluR8Result(op, a, x, carry).f.(h := false))
    ensures op == Sbc ==> AluImm8Result(op, a, x, false) == AluR8Result(op, a, x, carry)
    ensures op == Adc ==> AluImm8Result(op, a, x, carry).a == AluR8Result(op, a, x, carry).a
                          && AluImm8Result(op, a, x, carry).f.z == AluR8Result(op, a, x, carry).f.z
                          && AluImm8Result(op, a, x, carry).f.n == AluR8Result(op, a, x, carry).f.n
  {
    if op == Adc {
      AdcFormsShareResult(a, x, carry);
    } else if op == Add {
      AddFormsDifferInH(a, x, carry);
    } else if op == Sbc {
      assert AluImm8Result(op, a, x, false) == AluR8Result(op, a, x, carry);
    } else {
      match op
      case Sub => case And => case Xor => case Or => case Cp =>
    }
  }

  /** The two ADD forms differ only in H, which the imm8 form clears. */
  lemma AddFormsDifferInH(a: u8, x: u8, carry: bool)
    ensures AluImm8Result(Add, a, x, carry) == AluR8Result(Add, a, x, carry).(f := AluR8Result(Add, a, x, carry).f.(h := false))
  {
  }

  /** Both ADC forms compute A + operand + carry, wrapped, and its zero test. */
  lemma AdcFormsShareResult(a: u8, x: u8, carry: bool)
    ensures AluImm8Result(Adc, a, x, carry).a == AluR8Result(Adc, a, x, carry).a == Wrap8(a + x + CarryBit(carry))
    ensures AluImm8Result(Adc, a, x, carry).f.z == AluR8Result(Adc, a, x, carry).f.z
    ensures AluImm8Result(Adc, a, x, carry).f.n == AluR8Result(Adc, a, x, carry).f.n
  {
    WrapInner(a, x + CarryBit(carry));
    WrapInner(x, a + CarryBit(carry));
  }

  /** Inputs on which the two ADC forms disagree: H for A = 0x0F, operand 0 and carry set,
      C for A = 0xFF, operand 1 and carry set. */
  lemma AdcFormsDiffer()
    ensures AluImm8Result(Adc, 0x0F, 0x00, true).f.h && !AluR8Result(Adc, 0x0F, 0x00, true).f.h
    ensures AluImm8Result(Adc, 0xFF, 0x01, true).f.c && !AluR8Result(Adc, 0xFF, 0x01, true).f.c
  {
  }
}
