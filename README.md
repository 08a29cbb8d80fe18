# Game Boy CPU core (SM83) in Dafny

This project models the CPU core of a small Game Boy emulator written in Rust. The core is a
deterministic state machine. Its state is:

- seven 8-bit registers (A, B, C, D, E, H, L);
- the flag register F with Z, N, H and C;
- the stack pointer SP and the program counter PC;
- a 64 KiB byte memory;
- the interrupt master enable (IME).

`execute_op` decodes one opcode byte with an ordered if/match chain and runs its arm. Before
each fetch, `main` runs an interrupt check that may push PC and jump to an interrupt vector.

The model has two layers.

- **Value layer: the specification.**
  - `Flags.Flags` is the flag register; `Registers.RegFile` the register file; `Memory.Mem`
    the memory; `Gameboy.Machine` the whole machine.
  - `Decoder.Decode` turns an opcode byte into an `Instr`. It follows the order of the
    source's if/match chain.
  - `Cpu.Execute` gives the machine after one arm, and the `Outcome` the arm reports:
    `Handled` (`Break`), `Unrecognized` (`Continue`), or the DAA and HALT panics.
  - `Interrupts.Dispatch` is the interrupt check. `MainLoop.Step` is one loop iteration:
    the interrupt check, then fetch and execute.
- **Imperative layer: the Rust structs.**
  - The classes `Registers.GbRegisters`, `Memory.GbMemory` and `Gameboy.Gb` hold the same
    fields as the structs.
  - Each method assigns those fields in the order the Rust code does.
  - Each method is proved to leave the object in the state the value layer describes.
  - `Engine` holds one method per `execute_op` arm, or per group of arms whose code
    differs only in a selector (INC/DEC r16, INC/DEC r8, JR and JR cc, JP and JP cc,
    CPL/SCF/CCF, LDH [C], A and LDH [imm8], A). The accumulator arms are assigned field
    by field in `Engine.ApplyAluR8` and `Engine.ApplyAluImm8`. `Engine` also holds the
    dispatching `Engine.ExecuteOp`, `Engine.CheckInterrupts` and `Engine.RunIteration`.

The model follows the code as written, defects included:

- The pair setters compare with `>` where a shift `>>` was meant, so the high register
  receives 0 or 1.
- Push writes at SP and then decrements; pop reads at SP and then increments.
- LD r16, imm16 always writes SP.
- LD r8, imm8 masks its register field to two bits.
- LD [imm16], SP stores A.
- CALL nn pushes PC before fetching its operand.
- LDH [imm8], A addresses with C and fetches nothing.
- SBC A, r8 ignores the carry.
- RLA and RRA clear C.
- ADD SP, e and LD HL, SP + e add the operand unsigned and set C when the result is above 0xFF.
- DEC r16 saturates at 0.
- The interrupt check combines IE and IF with `|`.

The lemmas state these behaviours and their consequences. Examples: a push followed by a pop
does not return the pushed word; CALL followed by RET does not come back to the return address.

Two points where the model had to choose between readings of the code:

- `GbMemory` declares an array of 0xFFFF bytes (src/gb_memory.rs:2), but `main` builds and
  `read_rom` copies 0x10000 bytes. The model uses 0x10000 cells. `Memory.EveryAddressIndexable`
  shows that the declared length would leave address 0xFFFF out of range.
- Rust `+` and `-` on `u8`/`u16` panic on overflow in a debug build and wrap in a release
  build. The model wraps, and each such site is marked with a comment:
  - src/gameboy.rs:43, 53, 59, 65, 73 and 83;
  - src/main.rs:234, 427, 432, 579, 583 and 605.

## Model

| member | source | states |
|---|---|---|
| `Flags.Flags.GetAsFRegister` | src/gb_registers_flags.rs:9-24 | the packed flag byte has a zero low nibble |
| `Flags.SetAsFRegister` | src/gb_registers_flags.rs:25-31 | Z, N, H, C are bits 7, 6, 5, 4 of the byte |
| `Flags.PackedBitLayout` | src/gb_registers_flags.rs:10-23 | bit 7 of the packed byte is Z, bit 6 N, bit 5 H, bit 4 C |
| `Flags.SetAsFRegisterReadsHighNibble` | src/gb_registers_flags.rs:25-31 | unpacking depends only on `b & 0xF0`; unpacking 0 clears every flag |
| `Flags.PackAfterSet` | src/gb_registers_flags.rs:9-31 | packing what was unpacked from `b` gives `b & 0xF0` |
| `Flags.SetAfterPack` | src/gb_registers_flags.rs:9-31 | unpacking what was packed gives the flags back |
| `Flags.Flags.CheckCondition` | src/gb_registers_flags.rs:32-40 | `check_condition` on a 2-bit cc field; `Flags.ConditionPairs` states that ids 0/1 test Z and 2/3 test C, odd ids for the set flag |
| `Flags.ConditionPairs` | src/gb_registers_flags.rs:32-40 | conditions 0/1 are NZ/Z and 2/3 are NC/C; they consult only Z and C |
| `Registers.PairHigh` | src/gb_registers.rs:30 | `(v & 0xFF00) > 8` is 1 exactly when v >= 0x100 |
| `Registers.RegFile.GetAF` | src/gb_registers.rs:17-19 | AF is A over the packed flags; its low nibble is zero |
| `Registers.RegFile.GetBC` | src/gb_registers.rs:20-22 | BC is B over C |
| `Registers.RegFile.GetDE` | src/gb_registers.rs:23-25 | DE is D over E |
| `Registers.RegFile.GetHL` | src/gb_registers.rs:26-28 | HL is H over L |
| `Registers.RegFile.SetAF` | src/gb_registers.rs:29-32 | A becomes 0 or 1 by `v >= 0x100`; F is unpacked from the low byte; nothing else changes |
| `Registers.RegFile.SetBC` | src/gb_registers.rs:33-36 | C gets the low byte, B gets 0 or 1; nothing else changes |
| `Registers.RegFile.SetDE` | src/gb_registers.rs:37-40 | E gets the low byte, D gets 0 or 1; nothing else changes |
| `Registers.RegFile.SetHL` | src/gb_registers.rs:41-44 | L gets the low byte, H gets 0 or 1; nothing else changes |
| `Registers.RegFile.GetR16Mem` | src/gb_registers.rs:63-79 | ids 0/1 return BC/DE and keep the file; ids 2/3 return the old HL, change only H and L, and leave HL equal to HL plus or minus one (wrapping) passed through the pair setter |
| `Registers.PairSetGet` | src/gb_registers.rs:20-44 | reading a pair back after setting it returns the word exactly when it is below 0x200 |
| `Registers.AFSetGet` | src/gb_registers.rs:17-32 | AF reads back the written word exactly when it is below 0x200 and has a zero low nibble |
| `Registers.RegFile.GetR16` | src/gb_registers.rs:45-53 | ids 0..3 read BC, DE, HL, SP; the pair getters state each pair as high over low, and `Registers.R16StkAgreesWithR16` relates it to r16stk |
| `Registers.RegFile.SetR16` | src/gb_registers.rs:54-62 | ids 0..3 write through the BC, DE, HL setters or into SP; `Registers.PairSetGet` gives what reads back and `Registers.GbRegisters.SetR16` equals it in place |
| `Registers.RegFile.GetR16Stk` | src/gb_registers.rs:80-88 | ids 0..3 read BC, DE, HL, AF; `Registers.R16StkAgreesWithR16` states where it differs from r16 |
| `Registers.RegFile.SetR16Stk` | src/gb_registers.rs:89-97 | ids 0..3 write through the BC, DE, HL, AF setters; `Registers.PairSetGet` and `Registers.AFSetGet` give what reads back and `ControlLaws.PushThenPopR16Stk` what POP leaves |
| `Registers.RegFile.InternalGetR8` | src/gb_registers.rs:98-110 | ids 0..5 and 7 read B, C, D, E, H, L, A; `Registers.R8SetGet` states that it reads back what `InternalSetR8` wrote |
| `Registers.RegFile.InternalSetR8` | src/gb_registers.rs:111-126 | ids 0..5 and 7 write B, C, D, E, H, L, A; `Registers.R8SetGet` states that only the selected register changes |
| `Registers.R16StkAgreesWithR16` | src/gb_registers.rs:45-97 | r16 and r16stk agree on ids 0..2; id 3 is SP for r16 and AF for r16stk |
| `Registers.R16MemStepsHL` | src/gb_registers.rs:63-79 | [HL+] raises HL by one and [HL-] lowers it by one while HL stays below 0x200 |
| `Registers.R16MemIncrementCollapses` | src/gb_registers.rs:67-71 | [HL+] from 0x8000 returns 0x8000 and leaves HL = 0x0101 |
| `Registers.R8SetGet` | src/gb_registers.rs:98-126 | `internal_set_r8` changes exactly the selected register and keeps F, SP and PC |
| `Registers.GbRegisters.constructor` | src/main.rs:42-56 | the register file starts zeroed with SP = 0xFFFE |
| `Registers.GbRegisters.SetAF` | src/gb_registers.rs:29-32 | the fields become the value-layer `SetAF` |
| `Registers.GbRegisters.SetBC` | src/gb_registers.rs:33-36 | the fields become the value-layer `SetBC` |
| `Registers.GbRegisters.SetDE` | src/gb_registers.rs:37-40 | the fields become the value-layer `SetDE` |
| `Registers.GbRegisters.SetHL` | src/gb_registers.rs:41-44 | the fields become the value-layer `SetHL` |
| `Registers.GbRegisters.SetR16` | src/gb_registers.rs:54-62 | ids 0..3 write BC, DE, HL or SP |
| `Registers.GbRegisters.GetR16Mem` | src/gb_registers.rs:63-79 | returns the address and steps HL as the value layer says |
| `Registers.GbRegisters.SetR16Stk` | src/gb_registers.rs:89-97 | ids 0..3 write BC, DE, HL or AF |
| `Registers.GbRegisters.InternalSetR8` | src/gb_registers.rs:111-126 | writes the selected 8-bit register |
| `Memory.Read` | src/gb_memory.rs:6-8 | the byte in the cell at the address; `Memory.Write` states what reads back and `Memory.EveryAddressIndexable` that every u16 is in range of the 0x10000 cells |
| `Memory.Write` | src/gb_memory.rs:9-11 | a written byte reads back, and every other address keeps its byte |
| `Memory.EveryAddressIndexable` | src/gb_memory.rs:2 | every u16 address is in range exactly for arrays of at least 0x10000 cells; 0xFFFF is out of range for the declared length |
| `Memory.Resized` | src/main.rs:810-811 | the image is cut or zero-padded to 0x10000 cells |
| `Memory.GbMemory.constructor` | src/main.rs:59-61 | memory starts as 0x10000 zero bytes |
| `Memory.GbMemory.ReadByte` | src/gb_memory.rs:6-8 | returns the byte at the address and changes nothing |
| `Memory.GbMemory.WriteByte` | src/gb_memory.rs:9-11 | memory becomes `Write` of the old memory |
| `Memory.GbMemory.CopyFromImage` | src/main.rs:810-811 | memory becomes the resized image |
| `Gameboy.Machine.ReadByteAndAdvanceProgramCounter` | src/gameboy.rs:42-45 | returns the byte at the old PC; PC becomes old PC + 1, wrapping |
| `Gameboy.Machine.ReadWordAndAdvanceProgramCounter` | src/gameboy.rs:46-50 | little-endian word at PC; PC advances by 2 |
| `Gameboy.Machine.ReadByteSignedAndAdvanceProgramCounter` | src/gameboy.rs:52-56 | the two's-complement reading of the byte at PC; PC advances by 1 |
| `Gameboy.Machine.ReadHLIndirection` | src/gameboy.rs:61-63 | the byte at HL |
| `Gameboy.Machine.SetHLIndirectionOffset` | src/gameboy.rs:64-67 | the byte at HL + offset (wrapping) reads back; registers and every other cell are kept |
| `Gameboy.Machine.SetHLIndirection` | src/gameboy.rs:68-70 | stores at HL |
| `Gameboy.Machine.PopStackWord` | src/gameboy.rs:71-80 | low byte at SP, high byte at SP + 1; SP rises by 2 |
| `Gameboy.Machine.PushStackWord` | src/gameboy.rs:81-91 | high byte at the old SP, low byte at SP - 1; SP falls by 2; every other cell is kept |
| `Gameboy.Machine.GetR8` | src/gameboy.rs:13-20 | ids 0..5 and 7 read the register file, id 6 the byte at HL; `Gameboy.R8ViewSetGet` states the read-back |
| `Gameboy.Machine.SetR8` | src/gameboy.rs:21-28 | ids 0..5 and 7 write the register file, id 6 the byte at HL; `Gameboy.R8ViewSetGet` states the read-back |
| `Gameboy.Machine.ReadHLIndirectionOffset` | src/gameboy.rs:57-60 | the byte at HL + offset, wrapping; `SetHLIndirectionOffset`'s contract states that a store there reads back through it |
| `Gameboy.Machine.PopStackByte` | src/gameboy.rs:71-75 | reads at SP, then SP + 1; `Gameboy.PushByteThenPopByte` states its relation to the byte push |
| `Gameboy.Machine.PushStackByte` | src/gameboy.rs:81-85 | writes at SP, then SP - 1; `Gameboy.PushByteThenPopByte` states its relation to the byte pop |
| `Gameboy.R8ViewSetGet` | src/gameboy.rs:13-28 | id 6 goes to [HL]; a write reads back and leaves other ids alone, except that H and L move [HL] |
| `Gameboy.PushByteThenPopByte` | src/gameboy.rs:71-85 | a byte push then a byte pop restores SP and returns the old byte below SP, not the pushed byte |
| `Gameboy.PushThenPop` | src/gameboy.rs:71-91 | push then pop restores SP but yields the pushed low byte over the byte at SP - 2; it is the word only when both bytes equal that byte |
| `Gameboy.Initial` | src/main.rs:41-66 | the start state `main` builds; `MainLoop.InitialState` states PC = 0x100, SP = 0xFFFE, IME off, other registers zero and the first opcode |
| `Gameboy.Gb.constructor` | src/main.rs:41-66 | the machine starts as `Initial`: registers zero, SP = 0xFFFE, PC = 0x100, IME off, memory the resized image |
| `Gameboy.Gb.GetR8` | src/gameboy.rs:13-20 | agrees with the value-layer `GetR8` |
| `Gameboy.Gb.SetR8` | src/gameboy.rs:21-28 | the state becomes the value-layer `SetR8` |
| `Gameboy.Gb.ReadByteAndAdvanceProgramCounter` | src/gameboy.rs:42-45 | result and new state are the value-layer fetch |
| `Gameboy.Gb.ReadWordAndAdvanceProgramCounter` | src/gameboy.rs:46-50 | result and new state are the value-layer word fetch |
| `Gameboy.Gb.ReadByteSignedAndAdvanceProgramCounter` | src/gameboy.rs:52-56 | result and new state are the value-layer signed fetch |
| `Gameboy.Gb.ReadHLIndirectionOffset` | src/gameboy.rs:57-60 | the byte at HL + offset, wrapping |
| `Gameboy.Gb.ReadHLIndirection` | src/gameboy.rs:61-63 | the byte at HL |
| `Gameboy.Gb.SetHLIndirectionOffset` | src/gameboy.rs:64-67 | the state becomes the value-layer store at HL + offset |
| `Gameboy.Gb.SetHLIndirection` | src/gameboy.rs:68-70 | the state becomes the value-layer store at HL |
| `Gameboy.Gb.PopStackByte` | src/gameboy.rs:71-75 | reads at SP, then SP + 1 |
| `Gameboy.Gb.PopStackWord` | src/gameboy.rs:76-80 | result and new state are the value-layer pop |
| `Gameboy.Gb.PushStackByte` | src/gameboy.rs:81-85 | writes at SP, then SP - 1 |
| `Gameboy.Gb.PushStackWord` | src/gameboy.rs:86-91 | the state becomes the value-layer push |
| `Decoder.Decode` | src/main.rs:186-787 | every opcode byte decodes to an arm whose fields are in range |
| `Decoder.DecodeClassification` | src/main.rs:186-787 | exactly the twelve bytes 0xCB, 0xD3, 0xDB, 0xDD, 0xE3, 0xE4, 0xEB, 0xEC, 0xED, 0xF4, 0xFC, 0xFD are unrecognized; DAA is only 0x27, HALT only 0x76, NOP only 0x00 |
| `Decoder.LdR16Imm16AlwaysSP` | src/main.rs:196-201 | LD r16, imm16 is exactly `op & 0xCF == 0x01` and always selects SP |
| `Decoder.LdR8Imm8Aliases` | src/main.rs:284-290 | LD r8, imm8 is exactly `op & 0xC7 == 0x06`; its id is bits 3-5 mod 4, so 0x26 acts as 0x06 and 0x3E loads E |
| `Decoder.R8FieldsFollowEncoding` | src/main.rs:261-499 | the r8 fields of INC, DEC, LD r8, r8 and the accumulator group are the 3-bit fields of the opcode |
| `Decoder.R16FieldFollowsEncoding` | src/main.rs:230-259 | the r16 field is bits 4 and 5 |
| `Decoder.CondFieldsFollowEncoding` | src/main.rs:306-544 | the cc field is bits 3 and 4; RST jumps to bits 3..5 times 8 |
| `Cpu.CalculateByteHalfCarryAdd` | src/main.rs:21-26 | `calculate_byte_half_carry_add`; `AluLaws.ByteHalfCarryIsNibbleCarry` states it is the carry out of bit 3 |
| `Cpu.CalculateWordHalfCarryAdd` | src/main.rs:27-29 | `calculate_word_half_carry_add`; `AluLaws.WordHalfCarryIsByteCarry` states it is the carry out of bit 7 |
| `Cpu.Execute` | src/main.rs:189-787 | one arm per decoded instruction; the AluLaws, InstructionLaws and ControlLaws lemmas state each arm's effect and `InstructionLaws.OutcomeOfInstr` its outcome |
| `Cpu.ExecuteOp` | src/main.rs:186-788 | `execute_op`: decode, then execute; `InstructionLaws.OutcomeOfEveryOpcode` states its outcome for all 256 bytes and `Engine.ExecuteOp` equals it in place |
| `Cpu.FetchExecute` | src/main.rs:137-153 | fetch the byte at PC, then `execute_op`; `MainLoop.LoadBcLoadsSp` and `MainLoop.ServedInterruptRunsHandler` state it on concrete and dispatched states |
| `AluLaws.ByteHalfCarryIsNibbleCarry` | src/main.rs:21-26 | the byte half carry is the carry out of bit 3; adding 1 half-carries exactly from low nibble 0xF |
| `AluLaws.WordHalfCarryIsByteCarry` | src/main.rs:27-29 | the word half carry is the carry out of bit 7 |
| `AluLaws.AluR8Arithmetic` | src/main.rs:406-499 | ADD/ADC/SUB/SBC give the wrapped sum or difference; C is the overflow for ADD, the borrow for SUB, SBC and CP, and for ADC the true carry out except when A is 0xFF with carry set, where it is lost; N is set exactly for SUB, SBC and CP; CP keeps A |
| `AluLaws.AdcCarry` | src/main.rs:423-437 | the carry of x + (y + carry) with the inner sum wrapped is the true carry out unless y is 0xFF with carry set |
| `AluLaws.AluR8ZeroFlag` | src/main.rs:406-499 | Z is set exactly for a zero result, and for CP exactly when A equals the operand |
| `AluLaws.LogicFlags` | src/main.rs:458-487 | AND sets H and clears C; XOR and OR clear H and C; the imm8 forms agree |
| `AluLaws.SbcR8IgnoresCarry` | src/main.rs:448-457 | SBC A, r8 equals SUB A, r8 whatever the carry |
| `AluLaws.XorSelfClears` | src/main.rs:468-477 | XOR of A with itself gives 0 with only Z set |
| `AluLaws.AdcCarryLostOnWrappedAddend` | src/main.rs:423-437 | for A = 0xFF with carry, ADC loses the carry out |
| `AluLaws.AluImm8Arithmetic` | src/main.rs:561-659 | imm8 arms: ADC and SBC include the carry, ADD clears H, C is the overflow for ADD, for ADC the true carry out except when the operand is 0xFF with carry set, and for SBC the borrow of the wrapped operand plus carry; Z reports zero |
| `AluLaws.Imm8AgreesWithR8` | src/main.rs:406-659 | the imm8 and r8 forms agree except in three places: ADD imm8 clears H, SBC imm8 subtracts the carry, and the two ADC forms share A, Z and N but fold the carry into different addends, so their H and C can differ |
| `AluLaws.AdcFormsDiffer` | src/main.rs:574-587 | ADC imm8 and ADC r8 disagree on H for A = 0x0F, operand 0 with carry, and on C for A = 0xFF, operand 1 with carry |
| `Bytes.Not8IsComplement` | src/main.rs:368-375 | the bitwise complement of a byte is 0xFF minus it |
| `InstructionLaws.OutcomeOfInstr` | src/main.rs:186-787 | an arm reports Continue exactly when undefined and panics exactly for DAA and HALT; an arm that does not report Break leaves the machine unchanged |
| `InstructionLaws.OutcomeOfEveryOpcode` | src/main.rs:186-787 | Continue exactly for the twelve unused bytes, a panic exactly for 0x27 and 0x76, Break otherwise; only a handled opcode changes state |
| `InstructionLaws.NopOnlyAdvances` | src/main.rs:191-194 | NOP at PC only advances PC |
| `InstructionLaws.LdR16Imm16WritesSP` | src/main.rs:196-202 | each LD r16, imm16 opcode writes the operand word into SP and skips two bytes |
| `InstructionLaws.LdAImm8StoresE` | src/main.rs:284-290 | 0x3E writes the operand into E |
| `InstructionLaws.LdR8Imm8KeepsMemory` | src/main.rs:284-290 | LD r8, imm8 never writes memory and skips one byte |
| `InstructionLaws.LdImm16SpStoresA` | src/main.rs:222-228 | 0x08 stores A at the operand address |
| `InstructionLaws.LdR8R8Copies` | src/main.rs:399-404 | LD r8, r8 copies the source into the destination |
| `InstructionLaws.AluR8Frame` | src/main.rs:406-499 | an accumulator r8 arm changes only A and F; CP changes only F |
| `InstructionLaws.XorAClearsA` | src/main.rs:468-477 | 0xAF clears A and sets only Z |
| `InstructionLaws.IncR8Effect` | src/main.rs:261-272 | INC r8 adds one (wrapping), Z for zero, N clear, H from the low nibble, C kept |
| `InstructionLaws.DecR8Effect` | src/main.rs:273-283 | DEC r8 subtracts one (wrapping), Z for zero, N set, H clear, C kept |
| `InstructionLaws.DecUndoesIncR8` | src/main.rs:261-283 | DEC r8 after INC r8 restores the register |
| `InstructionLaws.IncDecR16Effect` | src/main.rs:230-246 | INC/DEC r16 touch no flag; INC on a pair reads back through the setter; DEC of 0 stays 0 |
| `InstructionLaws.DecUndoesIncSP` | src/main.rs:230-246 | DEC SP after INC SP restores SP except at 0xFFFF, which becomes 0 |
| `InstructionLaws.AddHlEffect` | src/main.rs:248-259 | ADD HL: N clear, Z kept, C on 16-bit overflow, H on carry out of bit 7, HL through the setter |
| `InstructionLaws.RotateAccumulator` | src/main.rs:324-341 | RLCA leaves A as the old A rotated left by one bit and RRCA as the old A rotated right by one bit; both clear Z, N and H and set C to the bit rotated out, which lands in bit 0 or bit 7 of A |
| `InstructionLaws.RotateLeftAsBits` | src/main.rs:324-332 | the integer form of RLCA's new A is the bit-vector rotation left by one (`rotate_left(1)`) |
| `InstructionLaws.RotateRightAsBits` | src/main.rs:333-341 | the integer form of RRCA's new A is the bit-vector rotation right by one (`rotate_right(1)`) |
| `InstructionLaws.RotatedBits` | src/main.rs:324-341 | the bit rotated out of the byte is bit 0 of the left rotation and bit 7 of the right rotation |
| `InstructionLaws.RotateByteInverse` | src/main.rs:324-341 | rotating a byte left by one then right by one, or the reverse, gives it back |
| `InstructionLaws.RotationsAreInverse` | src/main.rs:324-341 | RRCA undoes RLCA and RLCA undoes RRCA |
| `InstructionLaws.RotateThroughCarry` | src/main.rs:342-363 | RLA/RRA shift the old carry into A and leave every flag clear |
| `InstructionLaws.ComplementIsInvolution` | src/main.rs:368-375 | CPL gives 0xFF - A and sets N and H, keeping Z and C; CPL twice restores A |
| `InstructionLaws.CarryFlagOps` | src/main.rs:376-388 | SCF sets C and clears N and H; CCF flips C; neither changes any other register, memory or IME, so CCF twice restores the machine |
| `ControlLaws.UntakenJrSkipsOperand` | src/main.rs:306-316 | an untaken JR cc still skips its operand |
| `ControlLaws.UntakenJpSkipsOperand` | src/main.rs:514-523 | an untaken JP cc still skips its operand |
| `ControlLaws.UntakenCallSkipsOperand` | src/main.rs:524-535 | an untaken CALL cc skips its operand and pushes nothing |
| `ControlLaws.UntakenRetKeepsState` | src/main.rs:504-513 | an untaken RET cc changes nothing |
| `ControlLaws.JrAddsDisplacement` | src/main.rs:292-301 | JR lands at the PC after the operand plus the operand read as a signed displacement, wrapping at 16 bits |
| `ControlLaws.TakenJrIsUnconditional` | src/main.rs:305-316 | a JR cc whose condition holds is exactly the unconditional JR |
| `ControlLaws.TakenJpIsUnconditional` | src/main.rs:514-523 | a taken JP cc equals JP |
| `ControlLaws.TakenRetIsUnconditional` | src/main.rs:504-513 | a taken RET cc equals RET |
| `ControlLaws.TakenCallCondPushesNextAddress` | src/main.rs:524-535 | a taken CALL cc pushes the address after the operand and jumps |
| `ControlLaws.CallPushesOpcodeAddressPlusOne` | src/main.rs:685-694 | CALL nn pushes the opcode address + 1 and fetches its target after the push |
| `ControlLaws.RstJumpsToVector` | src/main.rs:536-544 | RST t pushes PC and jumps to 8 * t |
| `ControlLaws.ReturnsPopIntoPC` | src/main.rs:660-672 | RET pops PC and raises SP by 2; RETI also sets IME |
| `ControlLaws.CallThenRet` | src/main.rs:524-535 | RET after a taken CALL cc restores SP but returns to the return address only in a degenerate case |
| `ControlLaws.ReturnAfterPush` | src/main.rs:660-665 | RET right after a push restores SP; PC is the pushed low byte over the byte below the stack, and equals the pushed word only when both its bytes equal that byte |
| `ControlLaws.PushThenPopR16Stk` | src/main.rs:545-559 | PUSH rr then POP rr (BC, DE, HL) restores SP, but rr becomes the byte below the stack plus 0x100 when the old low register was non-zero, so a pair of 0x200 or more never comes back |
| `ControlLaws.PopAFUnpacksFlags` | src/main.rs:545-552 | POP AF unpacks F from the byte at SP and leaves A at 0 or 1 |
| `ControlLaws.JumpToHl` | src/main.rs:679-684 | after JP HL the next opcode fetched is the byte at HL |
| `ControlLaws.ReturnThroughHl` | src/main.rs:764-769 | LD SP, HL then RET jumps to the little-endian word stored at HL and leaves SP at HL + 2 |
| `ControlLaws.StoreThroughR16Mem` | src/main.rs:204-211 | LD [r16mem], A stores A at the selected address; [HL+] then raises HL by one while HL < 0x1FF |
| `ControlLaws.HighPageStores` | src/main.rs:695-709 | LDH [imm8], A is LDH [C], A; loading back through LDH A, [C] returns the stored A |
| `ControlLaws.HighPageLoad` | src/main.rs:725-732 | LDH A, [imm8] reads 0xFF00 plus the operand |
| `ControlLaws.SpPlusImm8Flags` | src/main.rs:740-751 | the shared sum is SP plus the unsigned byte mod 0x10000; Z and N clear, C set above 0xFF, H the carry out of the low nibbles |
| `ControlLaws.StackPointerOffset` | src/main.rs:740-751 | ADD SP adds the operand unsigned, clears Z and N, sets C above 0xFF, keeps A and memory |
| `ControlLaws.HlFromStackPointerOffset` | src/main.rs:752-763 | LD HL, SP + e gives the flags of ADD SP, keeps SP and splits the value through the pair setter |
| `Interrupts.InterruptCall` | src/main.rs:80-115 | the `match interupts`; `Interrupts.InterruptCallFindsSelected` states that it yields the selected source's vector with only its IF field cleared, or 0 |
| `Interrupts.Dispatch` | src/main.rs:75-123 | the interrupt check; `Interrupts.HighestPriorityServed`, `Interrupts.NothingWithoutIME` and `Interrupts.NothingWhenNoneSet` state its effect |
| `Interrupts.Combined` | src/main.rs:78-80 | a source is set in the combination exactly when it is set in IE or in IF |
| `Interrupts.Vector` | src/main.rs:80-115 | the vector of a source is 0x40 plus 8 per priority rank |
| `Interrupts.Clear` | src/main.rs:80-115 | clears exactly one source's field |
| `Interrupts.SelectionIsUnique` | src/main.rs:80-115 | if any source is set, exactly one is the highest-priority set source |
| `Interrupts.NothingWithoutIME` | src/main.rs:75-76 | with IME clear nothing changes |
| `Interrupts.NothingWhenNoneSet` | src/main.rs:114-116 | with no field set in the or of IE and IF nothing changes |
| `Interrupts.InterruptCallFindsSelected` | src/main.rs:80-115 | the match yields location 0 exactly when no source is set, and otherwise the vector of the selected source with only its IF field cleared |
| `Interrupts.HighestPriorityServed` | src/main.rs:75-123 | the highest-priority source in the or of IE and IF is served: its IF field is cleared, IME cleared, PC pushed, PC set to its vector |
| `Interrupts.EnabledAloneIsServed` | src/main.rs:78-79 | a source only enabled in IE is served: IE and IF combine by bitwise or |
| `Interrupts.AllEnabledServesVBlank` | src/main.rs:78-87 | with all enabled, v-blank wins and IF keeps its other requests |
| `MainLoop.Step` | src/main.rs:73-153 | one loop iteration; `MainLoop.FirstStepIgnoresInterrupts` and `MainLoop.ServedInterruptRunsHandler` state it, and `Engine.RunIteration` equals it in place |
| `MainLoop.InitialState` | src/main.rs:41-66 | the start state: PC = 0x100, SP = 0xFFFE, IME off, other registers zero, the first opcode is image byte 0x100 |
| `MainLoop.FirstStepIgnoresInterrupts` | src/main.rs:75-153 | the first iteration serves no interrupt and keeps IF |
| `MainLoop.ServedInterruptRunsHandler` | src/main.rs:75-153 | after serving a source, the iteration executes the opcode at its vector |
| `MainLoop.LoadBcLoadsSp` | src/main.rs:137-153 | a ROM starting with `01 34 12` sets SP, not BC, to 0x1234 |
| `MainLoop.DiEiGateInterrupts` | src/main.rs:770-779 | after DI the next interrupt check changes nothing; after EI it serves the selected source; whichever of DI and EI runs last decides |
| `MainLoop.HandlerReturn` | src/main.rs:116-122 | RETI from a handler that leaves SP where the entry put it and keeps the pushed low byte and the byte below it restores SP and sets IME, but PC is the pushed low byte over the byte below the stack |
| `MainLoop.EntryMeetsHandlerReturn` | src/main.rs:116-122 | the state right after an interrupt entry has SP two lower, the interrupted PC's low byte at SP - 1 and the byte below it unchanged |
| `Engine.ExecLdR16Imm16` | src/main.rs:196-202 | field updates equal the value-layer arm |
| `Engine.ExecLdR16MemA` | src/main.rs:204-211 | field updates equal the value-layer arm |
| `Engine.ExecLdAR16Mem` | src/main.rs:213-220 | field updates equal the value-layer arm |
| `Engine.ExecLdImm16Sp` | src/main.rs:222-228 | field updates equal the value-layer arm |
| `Engine.ExecIncDecR16` | src/main.rs:230-246 | field updates equal the value-layer arm |
| `Engine.ExecAddHlR16` | src/main.rs:248-259 | field updates equal the value-layer arm |
| `Engine.ExecIncDecR8` | src/main.rs:261-283 | field updates equal the value-layer arm |
| `Engine.ExecLdR8Imm8` | src/main.rs:284-290 | field updates equal the value-layer arm |
| `Engine.ExecJr` | src/main.rs:292-316 | field updates equal the value-layer arm |
| `Engine.ExecStop` | src/main.rs:319-322 | field updates equal the value-layer arm |
| `Engine.ExecRlca` | src/main.rs:324-332 | field updates equal the value-layer arm |
| `Engine.ExecRrca` | src/main.rs:333-341 | field updates equal the value-layer arm |
| `Engine.ExecRla` | src/main.rs:342-352 | field updates equal the value-layer arm |
| `Engine.ExecRra` | src/main.rs:353-363 | field updates equal the value-layer arm |
| `Engine.ExecFlagOp` | src/main.rs:368-388 | field updates equal the value-layer arm |
| `Engine.ExecLdR8R8` | src/main.rs:399-404 | field updates equal the value-layer arm |
| `Engine.ExecAluR8` | src/main.rs:406-499 | field updates equal the value-layer arm |
| `Engine.ApplyAluR8` | src/main.rs:411-496 | the field-by-field assignments of each r8 accumulator arm leave A and F as `Cpu.AluR8Result` and every other register unchanged |
| `Engine.ExecRetCond` | src/main.rs:504-513 | field updates equal the value-layer arm |
| `Engine.ExecJp` | src/main.rs:514-523 | field updates equal the value-layer arm |
| `Engine.ExecCallCond` | src/main.rs:524-535 | field updates equal the value-layer arm |
| `Engine.ExecRst` | src/main.rs:536-544 | field updates equal the value-layer arm |
| `Engine.ExecPop` | src/main.rs:545-552 | field updates equal the value-layer arm |
| `Engine.ExecPush` | src/main.rs:553-559 | field updates equal the value-layer arm |
| `Engine.ExecAluImm8` | src/main.rs:561-659 | field updates equal the value-layer arm |
| `Engine.ApplyAluImm8` | src/main.rs:561-659 | the field-by-field assignments of each imm8 accumulator arm leave A and F as `Cpu.AluImm8Result` and every other register unchanged |
| `Engine.ExecRet` | src/main.rs:660-665 | field updates equal the value-layer arm |
| `Engine.ExecReti` | src/main.rs:666-672 | field updates equal the value-layer arm |
| `Engine.ExecJpHl` | src/main.rs:679-684 | field updates equal the value-layer arm |
| `Engine.ExecCall` | src/main.rs:685-694 | field updates equal the value-layer arm |
| `Engine.ExecLdhStore` | src/main.rs:695-709 | field updates equal the value-layer arm |
| `Engine.ExecLdImm16A` | src/main.rs:710-716 | field updates equal the value-layer arm |
| `Engine.ExecLdhAC` | src/main.rs:717-724 | field updates equal the value-layer arm |
| `Engine.ExecLdhAImm8` | src/main.rs:725-732 | field updates equal the value-layer arm |
| `Engine.ExecLdAImm16` | src/main.rs:733-739 | field updates equal the value-layer arm |
| `Engine.ExecAddSpImm8` | src/main.rs:740-751 | field updates equal the value-layer arm |
| `Engine.ExecLdHlSpImm8` | src/main.rs:752-763 | field updates equal the value-layer arm |
| `Engine.ExecLdSpHl` | src/main.rs:764-769 | field updates equal the value-layer arm |
| `Engine.ExecDi` | src/main.rs:770-774 | field updates equal the value-layer arm |
| `Engine.ExecEi` | src/main.rs:775-779 | field updates equal the value-layer arm |
| `Engine.ExecuteOp` | src/main.rs:186-788 | the state and outcome after the in-place `execute_op` equal `Cpu.ExecuteOp`, whose properties are the lemmas above |
| `Engine.SelectInterrupt` | src/main.rs:80-115 | the location is 0 exactly when no source is set (IF then unchanged); otherwise it is the vector of the highest-priority set source and only that source's IF field is cleared |
| `Engine.EnterHandler` | src/main.rs:114-122 | IME is cleared, the old PC is pushed with the stack-word push and PC becomes the location |
| `Engine.CheckInterrupts` | src/main.rs:75-123 | the state and new IF after the in-place check equal `Interrupts.Dispatch` |
| `Engine.RunIteration` | src/main.rs:73-153 | one in-place iteration equals `MainLoop.Step` |

## Left out

- Input: the SDL event polling of `main` (src/main.rs:127-135) is I/O. A key press ends the
  loop; the model only has single iterations.
- Timing: the `thread::sleep` pacing and the nanosecond counters (src/main.rs:155-159) are
  wall-clock time.
- Timers: the timer ticking (src/main.rs:161-176) calls `get_tima_ticks_per_second`,
  `tick_tima` and `tick_div`. These are not in src/gb_memory.rs, so they are not part of this
  model.
- Display: the render cadence (src/main.rs:179-182), `Gb::render` with the `renderer` field
  (src/gameboy.rs:8, 30-41) and all of src/renderer.rs are display glue.
- Interrupt registers: the `InterruptFlags` type, its byte conversions and the accessors
  `read_interrupt_enable`, `read_interrupt_flags` and `set_interrupt_flags` are not part of
  this model. IE and IF are five-field records passed in, and the IF register written back is
  returned. `Interrupts.Combined` assumes one bit per field, so the `|` of the two bytes is
  the field-wise or.
- `read_rom` (src/main.rs:789-812): reading the file, the UTF-8 title check and the header
  logging are I/O. Only the resize and copy into memory are modelled. `Gameboy.Gb.constructor`
  requires more than 0x14A bytes because the header reads go up to index 0x14A.
- `calculate_byte_half_carry_sub` (src/main.rs:30-33) is `unimplemented!` and never called.
- DAA (src/main.rs:364-366) and HALT (src/main.rs:394-396) panic in the source. They are the
  `DaaPanic` and `HaltPanic` outcomes, and the state is left as it was. STOP
  (src/main.rs:319-322) only consumes its operand byte.
- The `PANIC_ON_UNDEFINED_OPCODE` abort (src/main.rs:142-152) and all logging: an unrecognized
  opcode is the `Unrecognized` outcome, and the state after it is the state after the fetch.
- Overflow panics of a Rust debug build: every such site is modelled as wrapping.
- Panics for out-of-range selector ids (`get_r16` and the others): the selectors require ids
  in range. The decoder only produces ids in range (`Decoder.WellFormed`), so these panics are
  unreachable from `execute_op`.
- `Flags.SetAsFRegister`: `set_as_f_register` overwrites the four fields of the flag struct in
  place. It is modelled as a function returning the new flags, which the register file stores
  in its `f` field.
