# The ARMv4T recompiler and its reference interpreter

The recompiler turns guest machine words into C that works on a packed CPU (`g_cpu`) through the helpers of
`runtime_arm.cpp`; the interpreter gives the same words their meaning on an unpacked `CPUState`. The runtime's own
header asks that the two give the same bit-level result. This project models both, the decoders in front of them and
the machinery around them, and proves when they agree.

**The compiler core**

- `Words`, `Ir`, `Cpu`: 32-bit words with C's operators, flat little-endian memory, the decoded instruction record, the
  two register files and the abstraction `Abs` from the packed to the unpacked one.
- `ArmDecode`, `ThumbDecode`: the decoders. `ArmEncoding`, `ThumbEncoding`: the instruction layouts of the architecture
  as assemblers, and the round trip through the decoders.
- `Reference`: the interpreter's step on values. `Interpreter`: the same step as methods that update a CPU object and a
  bus, each proved to leave what `Reference` says.
- `RuntimeOps`: the packed helpers on values. `Runtime`: the same helpers as methods over the arrays of `g_cpu` and the
  generated-call stack.
- `Host`: the C statements the generator emits as a syntax tree, with an evaluator over the packed CPU, memory, the
  call stack, a pending cycle count and the cycles ticked so far. Control leaving the code is recorded as a handover:
  the machine, the tick count and the destination at that moment. A destination is code for an address and an
  instruction set (a named function, a dispatch, a label), the waiting frame of a caller, or out to the loop that
  dispatches R15. What other generated code does there is an arbitrary function of machine and destination.
- `Codegen`: `emit_instr` and `emit_block`, producing that tree.
- `Flags`, `Shifter`, `BankAgreement`, `Lowering`, `Alu`, `Branches`, `Transfers`, `BlockTransfers`, `Arithmetic`: one
  agreement after the other, up to `Compiler.InstrRuns`, which says what the code of every decodable instruction does.
- `Correctness`: when that is what `Interpreter::step` does. `Counterexamples`: an instruction word and a state for each
  way it is not. `Blocks`: straight-line blocks. `Decoded`: the decoders composed with all of this, and the THUMB long
  branch. `Bridge`: the fetch-decode-step loop on the interpreter's objects, and emitted blocks against it.
- Every handover must go where the registers handed over say (`Lowering.ToItsPc`): to R15 in the instruction set of
  CPSR.T, or to the frame that holds R15. A direct branch takes its instruction set from the function being compiled,
  so there the CPU has to be in it (`Lowering.InSet`).

**Where the two engines differ.** The code is kept as it is on both sides, and the agreement is proved if and only if
none of these applies. Each is a condition on the instruction's fields and on the machine before it runs, and together,
behind a passing condition, they are `Correctness.Differs`:

1. `TestDiffers`: TST, TEQ, CMP or CMN naming R15 with S in a mode that has an SPSR: only emitted code restores the SPSR.
   Harmless exactly if the SPSR holds the current fields and the banks of the mode already hold the live registers.
2. `LoadedPcDiffers`: a load to R15 in ARM state of a value with bit 1 set: word-aligned by the interpreter,
   halfword-aligned by emitted code.
3. `LateBaseDiffers`: LDM with S, R15 and writeback, the base not listed, in a mode that has an SPSR: only the interpreter
   writes the base back, after the mode change. Harmless exactly if the mode returned to sees the final base there already.
4. `LostSpsrDiffers`: MSR to an SPSR in User or System mode: dropped by emitted code, stored in the User slot by the
   interpreter, whose comment says it drops it too.
5. `ReservedBitsDiffer`: MRS of a CPSR word with a bit in 27..8 set: the interpreter's PSR has no such bits.
6. `BaseClobbersPc`: a base written back to R15 by a transfer that does not load R15, unless the address is the
   instruction's own.
7. `ResultClobbersPc`: R15 as destination of a multiply, long multiply, swap or MRS, unless the result is the
   instruction's own address.

Instruction fields that rule all of them out are `Blocks.Steady`; blocks of such instructions need no condition on any
state but the first.

A register offset taken from R15 reads the bare PC in the interpreter and the PC operand in emitted code
(`Transfers.AddressView`); `Correctness.SameOffset` asks that the shifted offsets coincide. Emitted code aborts on an
undefined word even when its condition fails (`Correctness.UndefinedRuns`).

**What the shared operators mean.** Both engines are modelled over the same named operators, so agreement alone would not
notice one that is wrong on both sides. These modules state each of them in other terms:

- `Numbers`: the adder, subtracter, comparisons and all multiplies as whole-number arithmetic, signed and unsigned.
- `Bits`: logic, shifts, rotation, alignment and sign extension bit by bit; from them the bits an MSR and an exception
  entry change.
- `MemoryLaws`: which byte lands where, and each store followed by the loads of its width.
- `CycleLaws`, `StepLaws`: the cost of each class of instruction, and what each class leaves alone.
- `ArmEncoding`, `ThumbEncoding`: the meaning of an encoding is written from the architecture's tables, not the decoder's.

**Companions**

- `Banks`: each mode's view of R8-R14 through mode changes; exception entry and return, field by field.
- `CallReturn`: the generated-call stack over whole runs. `IrqDriver`: the nested IRQ loop under any handler, what
  every handler is started with, and when the interrupted code cannot tell.
- `Cosim`, `Lockstep`: the checkpoint chain and ring, and the two-thread stepping protocol as a state machine.
- `ByteStreams`, `SaveState`, `SnapshotMachine`: the save-state container.
- `Ewram`: the hand-translated byte copy. `PushPop`: STMDB/LDMIA over the reference semantics.

The standard is the ARM Architecture Reference Manual for ARMv4T: sections A2.6, A3, A5.1, A5.4 and A6.

Every word operation has a name (`Add`, `And`, `Shl`, ...). Proofs hide the definitions they do not need and argue
about the named operations; small lemmas on plain variables hold the bit arithmetic.

## Model

| member | source | states |
|---|---|---|
| `Flags.ConditionsAgree` | gbarecomp/src/armv4t/runtime_arm.cpp:553-580 | for every condition and packed CPSR, `arm_cond_passes` holds exactly when the interpreter's check on the unpacked flags does |
| `Flags.CarryIsCompare` | gbarecomp/src/armv4t/runtime_arm.cpp:694-704 | bit 32 of a wide sum is set exactly when one operand exceeds the complement of the other, the fact behind `r < a` |
| `Flags.AddAgrees` | gbarecomp/src/armv4t/runtime_arm.cpp:694-704 | the add helper's wrapped result, `r < a` carry and sign-xor overflow are the interpreter's 33-bit adder, for all operands |
| `Flags.AdcAgrees` | gbarecomp/src/armv4t/runtime_arm.cpp:706-717 | the same for add with carry, either carry-in |
| `Flags.SubAgrees` | gbarecomp/src/armv4t/runtime_arm.cpp:719-728 | the subtract helper's `a >= b` and overflow are the adder on the complement with carry-in 1 |
| `Flags.SbcAgrees` | gbarecomp/src/armv4t/runtime_arm.cpp:730-742 | the same for subtract with borrow, either carry-in |
| `Flags.UnpackLogic` | gbarecomp/src/armv4t/runtime_arm.cpp:683-692 | the logical flag helper changes N, Z and C and keeps every other field |
| `Flags.UnpackNZ64` | gbarecomp/src/armv4t/arm_codegen.cpp:1126-1131 | the inline flag block of the long multiplies sets N from bit 63 and Z from the whole 64 bits, and nothing else |
| `Words.SextIsCast8` | gbarecomp/src/armv4t/interpreter.cpp:89-94 | mask, shift up, shift back arithmetically is C's cast through `int8_t` |
| `Words.SextIsCast16` | gbarecomp/src/armv4t/interpreter.cpp:89-94 | the same for `int16_t` |
| `Numbers.AdderIs` | gbarecomp/src/armv4t/interpreter.cpp:96-110 | the adder as whole numbers: the sum modulo 2^32, C exactly when it reaches 2^32, V exactly when the sum of the two's-complement operands is out of range, N and Z those of the result |
| `Numbers.SubtracterIs` | gbarecomp/src/armv4t/interpreter.cpp:112-116 | the same for subtraction by the complement: C exactly when nothing is borrowed |
| `Numbers.AtLeastIs` | gbarecomp/src/armv4t/runtime_arm.cpp:719-728 | the packed helpers' `>=` and `<` are those of the numbers |
| `Numbers.Mul64Is` | gbarecomp/src/armv4t/interpreter.cpp:906-968 | the 64-bit product is the product of the numbers modulo 2^64, by induction on one factor |
| `Numbers.MultiplyIs` | gbarecomp/src/armv4t/interpreter.cpp:874-904 | MUL and MLA: product and accumulator modulo 2^32 |
| `Numbers.MultiplyLongIs` | gbarecomp/src/armv4t/interpreter.cpp:906-968 | UMULL, UMLAL: the unsigned, SMULL, SMLAL: the signed product, plus the accumulator, modulo 2^64 in RdHi and RdLo; N its top bit, Z whether it is zero |
| `Bits.ShlBits` | gbarecomp/src/armv4t/interpreter.cpp:38-62 | bit i of a left shift by n is bit i - n |
| `Bits.ShrBits` | gbarecomp/src/armv4t/interpreter.cpp:38-62 | bit i of a logical right shift by n is bit i + n |
| `Bits.AsrBits` | gbarecomp/src/armv4t/interpreter.cpp:57-73 | bit i of an arithmetic right shift by n is bit i + n, or the sign above it |
| `Bits.Rotr32Bits` | gbarecomp/src/armv4t/interpreter.cpp:18-22 | bit i of a rotation by r is bit (i + r) modulo 32, for every r |
| `Bits.XorBits` | gbarecomp/src/armv4t/interpreter.cpp:541-565 | exclusive or, from and, or and complement, bit by bit |
| `Shifter.RegisterShiftAgrees` | gbarecomp/src/armv4t/arm_codegen.cpp:200-273 | for every shift type, operand, count and carry the emitted register-count branches leave `do_shift`'s value and carry-out |
| `Shifter.ImmediateShiftAgrees` | gbarecomp/src/armv4t/arm_codegen.cpp:274-322 | the emitted immediate shifts, LSR #0, ASR #0 and RRX included, leave `do_shift`'s value and carry-out |
| `Cpu.PackUnpack` | gbarecomp/src/armv4t/interpreter.cpp:1006-1014 | packing the unpacked fields keeps exactly the defined bits, and the whole word exactly if bits 27..8 are clear |
| `Cpu.UnpackPack` | gbarecomp/src/armv4t/interpreter.cpp:402-410 | unpacking a packed PSR gives back its fields |
| `BankAgreement.SwitchAgrees` | gbarecomp/src/armv4t/runtime_arm.cpp:917-945 | `bank_out` then `bank_in` is the interpreter's R13/R14 and R8-R12 switch, for any two PSRs |
| `BankAgreement.RestoreAgrees` | gbarecomp/src/armv4t/runtime_arm.cpp:1084-1097 | the runtime's SPSR restore is the interpreter's, in every mode |
| `BankAgreement.ReturnAgrees` | gbarecomp/src/armv4t/runtime_arm.cpp:1050-1075 | the runtime's exception return is the interpreter's |
| `BankAgreement.MsrCpsrAgrees` | gbarecomp/src/armv4t/runtime_arm.cpp:1001-1025 | MSR CPSR on the packed word and on the fields agree, bank switch included, though only one of them asks that the modes differ |
| `Bits.MsrCpsrBits` | gbarecomp/src/armv4t/runtime_arm.cpp:1001-1025 | MSR CPSR bit by bit: a byte selected by its field bit becomes the operand's, in User mode the top byte only, every other bit stays |
| `Bits.MsrSpsrBits` | gbarecomp/src/armv4t/runtime_arm.cpp:1027-1040 | MSR SPSR likewise on the mode's own SPSR, nothing at all where there is none |
| `Bits.UserMsrKeeps` | gbarecomp/src/armv4t/runtime_arm.cpp:1008-1011 | in User mode MSR CPSR keeps bits 23..0, so mode, I, F and T, and every register of every bank |
| `Bits.UserWriteKeeps` | gbarecomp/src/armv4t/interpreter.cpp:1056-1063 | the interpreter's likewise |
| `BankAgreement.UserRegAgrees` | gbarecomp/src/armv4t/runtime_arm.cpp:949-966 | both engines read the same User register |
| `BankAgreement.SetUserRegAgrees` | gbarecomp/src/armv4t/runtime_arm.cpp:968-990 | both engines write the same User register |
| `Alu.Op2Agrees` | gbarecomp/src/armv4t/arm_codegen.cpp:149-324 | after the emitted setup the operand and carry expressions hold the interpreter's operand 2 and shifter carry, R15 operands included |
| `Alu.DataProcessingAgrees` | gbarecomp/src/armv4t/arm_codegen.cpp:506-692 | the code of all sixteen data-processing operations leaves the interpreter's registers and flags, and a PC write or exception return leaves for the interpreter's PC with its cycles ticked |
| `Branches.LinkCall` | gbarecomp/src/armv4t/arm_codegen.cpp:399-442 | a link call hands over to the code for R15 with its cost ticked and its link pushed, and control stays exactly if that code came back to the link address |
| `Branches.BranchAgrees` | gbarecomp/src/armv4t/arm_codegen.cpp:694-774 | BL to the next instruction and the BL prefix keep control; every other branch hands over in the interpreter's state, to the interpreter's PC in the right instruction set, with exactly its cycles ticked, whether by goto, call, dispatch or return frame |
| `Transfers.LoadAgrees` | gbarecomp/src/armv4t/arm_codegen.cpp:776-917 | the emitted load has the interpreter's value: rotated unaligned words and halfwords, sign extension, the LDRSH odd-byte case |
| `Transfers.AddressAgrees` | gbarecomp/src/armv4t/arm_codegen.cpp:454-500 | the emitted address locals hold the interpreter's effective and writeback addresses, read through the register view the emitted code has |
| `Transfers.LoadInstrAgrees` | gbarecomp/src/armv4t/arm_codegen.cpp:776-917 | a load falls through with the interpreter's registers, writeback and cycles, or, loading the PC, leaves with them for the address loaded |
| `Transfers.StoreInstrAgrees` | gbarecomp/src/armv4t/arm_codegen.cpp:876-917 | a store leaves the interpreter's memory, base and cycles |
| `MemoryLaws.WordRead` | gbarecomp/src/armv4t/interpreter.cpp:704-746 | a word is the four bytes at its address, lowest first, as a number |
| `MemoryLaws.WordWritten` | gbarecomp/src/armv4t/interpreter.cpp:747-756 | a stored word puts byte k at address + k and changes no other byte |
| `MemoryLaws.HalfWritten` | gbarecomp/src/armv4t/interpreter.cpp:747-756 | a stored halfword likewise |
| `MemoryLaws.HalfRoundTrip` | gbarecomp/src/armv4t/interpreter.cpp:704-756 | STRH then LDRH gives the low half back, rotated by a byte at an odd address |
| `MemoryLaws.SignedHalfRoundTrip` | gbarecomp/src/armv4t/interpreter.cpp:704-756 | STRH then LDRSH gives it sign-extended, at an odd address its signed high byte |
| `MemoryLaws.ByteRoundTrip` | gbarecomp/src/armv4t/interpreter.cpp:704-756 | STRB then LDRB or LDRSB gives the low byte, zero- or sign-extended |
| `MemoryLaws.WordRoundTrip` | gbarecomp/src/armv4t/interpreter.cpp:704-756 | STR then LDR gives the word back, rotated by the unaligned bytes |
| `MemoryLaws.StoreTouches` | gbarecomp/src/armv4t/interpreter.cpp:747-756 | a store touches only the bytes of its aligned access |
| `BlockTransfers.LoopAgrees` | gbarecomp/src/armv4t/arm_codegen.cpp:919-1088 | before each register of the list the emitted code stands where the interpreter's register loop stands: state, cursor, cycles |
| `BlockTransfers.BlockAgrees` | gbarecomp/src/armv4t/arm_codegen.cpp:919-1088 | every LDM and STM, for any list (the empty one included), user-bank form, writeback or exception return; a loaded PC is where control goes |
| `Codegen.AppendTransfers` | gbarecomp/src/armv4t/arm_codegen.cpp:919-1088 | the appending loop with its first-access flag builds the statement the other lemmas are about |
| `Codegen.EmitBlock` | gbarecomp/src/armv4t/arm_codegen.cpp:1413-1425 | the block loop appends each instruction's code in order |
| `Arithmetic.MultiplyAgrees` | gbarecomp/src/armv4t/arm_codegen.cpp:1090-1118 | MUL and MLA: result, flags and operand-dependent cycles |
| `Arithmetic.MultiplyLongAgrees` | gbarecomp/src/armv4t/arm_codegen.cpp:1119-1194 | the four long multiplies: both halves, flags from 64 bits, cycles |
| `Arithmetic.SwapWordAgrees` | gbarecomp/src/armv4t/arm_codegen.cpp:1196-1234 | SWP rotates an unaligned word and stores the register |
| `Arithmetic.SwapByteAgrees` | gbarecomp/src/armv4t/arm_codegen.cpp:1196-1234 | SWPB exchanges one byte |
| `Arithmetic.MrsAgrees` | gbarecomp/src/armv4t/arm_codegen.cpp:1236-1259 | MRS reads the SPSR of the mode or the whole CPSR word |
| `Arithmetic.MsrAgrees` | gbarecomp/src/armv4t/arm_codegen.cpp:1236-1259 | MSR from an immediate or register, to CPSR or SPSR |
| `Compiler.InstrRuns` | gbarecomp/src/armv4t/arm_codegen.cpp:1276-1411 | for every instruction the decoders produce, in every state at it, the emitted code does exactly one stated step: state at handover or fall-through, where control goes, cycles; no instruction is excluded |
| `Compiler.FullStackAborts` | gbarecomp/src/armv4t/runtime_arm.cpp:830-842 | a taken link call aborts exactly if the generated-call stack is full |
| `Correctness.StepsEqual` | gbarecomp/src/armv4t/interpreter.cpp:486-1162 | that step equals `Interpreter::step` if and only if none of seven stated differences, each a guard on fields and pre-state, applies |
| `Correctness.ReturnedBase` | gbarecomp/src/armv4t/interpreter.cpp:768-871 | an LDM's register loop ends in an exception return exactly for S, R15 and an unlisted written-back base in a mode with an SPSR, and the base then reads as the restored mode sees it, whatever was loaded |
| `Correctness.CompilerCorrect` | gbarecomp/src/armv4t/runtime_arm.cpp:4-8 | compiler correctness: from any state with R15 at the instruction, running the emitted code does what `step` does, and sends control where `step` left the PC, if and only if no difference applies |
| `Correctness.OffsetExact` | gbarecomp/src/armv4t/interpreter.cpp:671-677 | with a register offset from R15 whose written-back base shows, agreement needs equal offsets too: it holds if and only if the offsets are equal and no difference applies, or the condition fails |
| `Correctness.CyclesConserved` | gbarecomp/src/armv4t/arm_codegen.cpp:1320-1409 | on every exit path, and in the differing states too, the emitted code ticks exactly the interpreter's cycles |
| `CycleLaws.WaitIs` | gbarecomp/src/armv4t/arm_ir.cpp:131-160 | the multiplier waits one cycle per significant byte of its operand: by size for the unsigned, by signed range for the signed forms |
| `CycleLaws.DpCost` | gbarecomp/src/armv4t/interpreter.cpp:1131-1150 | data processing costs 1, 1 more with a register shift, 2 more to reach a new PC |
| `CycleLaws.BranchCost` | gbarecomp/src/armv4t/arm_ir.cpp:82-98 | a taken branch costs 3, the first half of a THUMB BL 1 |
| `CycleLaws.MemoryCost` | gbarecomp/src/armv4t/arm_ir.cpp:99-110 | a load costs 2 and its access at its width, 2 more into the PC; a store 1 and its access |
| `CycleLaws.BlockCost` | gbarecomp/src/armv4t/interpreter.cpp:768-871 | a block transfer adds one access per listed register, the first nonsequential, or one for an empty list |
| `CycleLaws.MultiplyCost` | gbarecomp/src/armv4t/interpreter.cpp:874-968 | multiplies cost 1 and the wait, 1 more for accumulating and 1 more for a long result |
| `CycleLaws.OtherCost` | gbarecomp/src/armv4t/interpreter.cpp:486-505 | swaps and SWI cost 3, PSR transfers, failed conditions and undefined words 1 |
| `StepLaws.TestsOnlySetFlags` | gbarecomp/src/armv4t/interpreter.cpp:541-612 | TST, TEQ, CMP and CMN write no register and no memory, and only the flags of the CPSR |
| `StepLaws.DpWritesDestination` | gbarecomp/src/armv4t/interpreter.cpp:541-612 | every other data processing writes its destination alone, and without S no flag |
| `StepLaws.TransfersChange` | gbarecomp/src/armv4t/interpreter.cpp:656-765 | a load changes its destination and written-back base, the loaded value winning, and no memory; a store its base and memory |
| `StepLaws.SkippedOver` | gbarecomp/src/armv4t/interpreter.cpp:486-497 | a failed condition advances R15 by the instruction's size and does nothing else |
| `StepLaws.BlLinks` | gbarecomp/src/armv4t/interpreter.cpp:618-628 | BL leaves the address four bytes on in LR and the target in R15 |
| `StepLaws.PcAsOperand` | gbarecomp/src/armv4t/interpreter.cpp:569-576 | R15 as an ARM first operand is two instructions ahead, three with a register shift |
| `Correctness.SwiRuns` | gbarecomp/src/armv4t/arm_codegen.cpp:1261-1268 | a SWI reaches the supervisor vector, dispatched in ARM state with three cycles charged, or, its condition failing, is an ordinary skip |
| `Correctness.UndefinedRuns` | gbarecomp/src/armv4t/arm_codegen.cpp:1280-1290 | an undefined word aborts; the interpreter traps exactly if its condition passes |
| `Counterexamples.TestExample` | gbarecomp/src/armv4t/interpreter.cpp:541-550 | 0xE150F000, CMP with Rd = 15, in IRQ mode: decoded, emitted and run it does not do what `step` does |
| `Counterexamples.ThumbTestExample` | gbarecomp/src/armv4t/interpreter.cpp:541-550 | 0x4587, the THUMB CMP R15, R0, in IRQ mode likewise |
| `Counterexamples.LoadedPcExample` | gbarecomp/src/armv4t/arm_codegen.cpp:864-872 | 0xE590F000, LDR R15, [R0], of the word 2 in ARM state likewise |
| `Counterexamples.LateBaseExample` | gbarecomp/src/armv4t/arm_codegen.cpp:1009-1025 | 0xE8F08000, LDM R0!, {R15}^, in IRQ mode likewise |
| `Counterexamples.LostSpsrExample` | gbarecomp/src/armv4t/runtime_arm.cpp:1027-1032 | 0xE368F20F, MSR SPSR_f, #0xF0000000, in User mode likewise |
| `Counterexamples.ReservedBitExample` | gbarecomp/src/armv4t/runtime_arm.cpp:992-994 | 0xE10F0000, MRS R0, CPSR, with reserved bit 8 set likewise |
| `Counterexamples.ClobberedPcExample` | gbarecomp/src/armv4t/interpreter.cpp:874-886 | 0xE00F0090, MUL R15, R0, R0, likewise |
| `Counterexamples.PcOffsetExample` | gbarecomp/src/armv4t/interpreter.cpp:671-677 | 0xE7D1000F, LDRB R0, [R1, R15], likewise |
| `Blocks.HandoverStays` | gbarecomp/src/armv4t/arm_codegen.cpp:1413-1425 | the recorded handover is never overwritten by later code |
| `Blocks.BlockCorrect` | gbarecomp/src/armv4t/arm_codegen.cpp:1413-1425 | block correctness by induction: the code of consecutive instructions is iterating `step` until the first transfer of control, which goes to the PC `step` reached, cycles included |
| `Blocks.SteadyAgrees` | gbarecomp/src/armv4t/arm_codegen.cpp:1276-1411 | fields alone that rule out every difference, in every machine state |
| `Blocks.SteadyKeepsSet` | gbarecomp/src/armv4t/interpreter.cpp:486-1162 | unless it transfers control, such an instruction keeps the instruction set, MSR included |
| `Blocks.SteadyBlockCorrect` | gbarecomp/src/armv4t/arm_codegen.cpp:1413-1425 | block correctness with nothing assumed of the states in between |
| `ArmDecode.DecodeClosed` | gbarecomp/src/armv4t/arm_decode.cpp:317-389 | every 32-bit word decodes to Undefined, a SWI, or an instruction both engines handle |
| `ArmEncoding.AssembledDecodes` | gbarecomp/src/armv4t/arm_decode.cpp:57-389 | decoding an assembled ARM word gives back every field of the instruction, its operation and condition by the architecture's tables, for all seventeen encodings, all field values and all conditions |
| `ArmEncoding.TablesMatch` | gbarecomp/src/armv4t/arm_decode.cpp:94-102 | the decoder's opcode and condition tables are the architecture's |
| `ArmEncoding.UndefinedWords` | gbarecomp/src/armv4t/arm_decode.cpp:317-389 | exactly the coprocessor space, register-offset transfers with bit 4 set and the unassigned extension words are Undefined, and exactly the 1111 space is SWI |
| `ThumbDecode.ThumbClosed` | gbarecomp/src/armv4t/thumb_decode.cpp:480-547 | every halfword decodes to Undefined, a SWI, or an instruction both engines handle, and reaches R15 and the banked modes only through the listed forms |
| `ThumbEncoding.AssembledDecodes` | gbarecomp/src/armv4t/thumb_decode.cpp:44-478 | decoding an assembled halfword gives back the instruction, for all nineteen formats and all field values |
| `ThumbEncoding.UndefinedHalfwords` | gbarecomp/src/armv4t/thumb_decode.cpp:480-547 | exactly the unassigned part of 1011 and 11101 are Undefined, and exactly 11011111 is SWI |
| `Decoded.Handled` | gbarecomp/src/armv4t/interpreter.cpp:1122-1128 | no decoded instruction reaches NotImplemented or the emitted abort |
| `Decoded.ArmCorrect` | gbarecomp/src/armv4t/arm_codegen.cpp:1276-1411 | for every ARM word, decode and emit agrees with decode and step exactly outside the differences |
| `Decoded.ThumbCorrect` | gbarecomp/src/armv4t/arm_codegen.cpp:1276-1411 | for every THUMB halfword they agree, unless it is a CMP naming R15 in a mode whose SPSR would change something |
| `Decoded.LongBranchSteps` | gbarecomp/src/armv4t/thumb_decode.cpp:460-478 | interpreting a BL pair lands at pc + 4 + 2 * sext22(hi:lo) with LR = (pc + 4) | 1 |
| `Decoded.LongBranchEmitted` | gbarecomp/src/armv4t/arm_codegen.cpp:694-774 | the emitted code of a BL pair hands over there too, four cycles ticked |
| `Decoded.ThumbBlockCorrect` | gbarecomp/src/armv4t/arm_codegen.cpp:1413-1425 | any straight run of THUMB halfwords without SWI, undefined words and CMP naming R15, from any machine in THUMB state with room for a call: the emitted block is iterating `step` until the first transfer of control, destination included |
| `Decoded.ArmBlockCorrect` | gbarecomp/src/armv4t/arm_codegen.cpp:1413-1425 | the same for ARM words whose decoded fields rule the differences out, from any machine in ARM state |
| `Interpreter.CpuObject.SwapHighBanks` | gbarecomp/src/armv4t/interpreter.cpp:328-335 | the two copy loops are the R8-R12 switch on values |
| `Interpreter.CpuObject.RestoreFromSpsr` | gbarecomp/src/armv4t/interpreter.cpp:421-448 | the object after the restore is the value-level restore of the object before |
| `Interpreter.CpuObject.ReturnFromException` | gbarecomp/src/armv4t/interpreter.cpp:384-419 | likewise the exception return |
| `Interpreter.CpuObject.StoreUserReg` | gbarecomp/src/armv4t/interpreter.cpp:352-372 | likewise a User-register write |
| `Interpreter.StepBlock` | gbarecomp/src/armv4t/interpreter.cpp:768-871 | the register loop over CPU and bus is the value-level block transfer |
| `Interpreter.StepInstr` | gbarecomp/src/armv4t/interpreter.cpp:486-1162 | `step` on the CPU object and the bus reports and leaves exactly the value-level step |
| `Bridge.Interpret` | gbarecomp/src/runtime/runtime_arm_default_aborts.cpp:524-591 | the fetch, decode, step loop on the interpreter's CPU object and bus is its value-level run |
| `Bridge.BlockBridged` | gbarecomp/src/runtime/runtime_arm_default_aborts.cpp:524-591 | over a block whose bytes are in memory when reached, that run is iterating `step` up to the first transfer |
| `Bridge.ArmBridgeAgrees` | gbarecomp/src/runtime/runtime_arm_default_aborts.cpp:524-591 | the emitted code of a steady ARM block and fetching, decoding and stepping its words from memory reach the same machine in the same cycles, and the emitted code hands on to the PC the loop fetches next |
| `Bridge.ThumbBridgeAgrees` | gbarecomp/src/runtime/runtime_arm_default_aborts.cpp:524-591 | the same for any THUMB block without SWI, undefined words and CMP naming R15 |
| `PushPop.SlotsConsecutive` | gbarecomp/src/armv4t/interpreter.cpp:800-830 | the words of a transfer are consecutive aligned words, wrapping at the top of memory |
| `PushPop.PushStores` | gbarecomp/src/armv4t/interpreter.cpp:800-869 | a push stores each listed register in its own one of popcount(list) words below the base, and touches no other byte |
| `PushPop.PushThenPop` | gbarecomp/src/armv4t/interpreter.cpp:800-869 | push, anything that keeps the base and the pushed words, pop: listed registers and base are as before, all others untouched |
| `Runtime.LookupIn` | gbarecomp/src/armv4t/runtime_arm.cpp:751-763 | the binary search with its equal-address scan finds an entry exactly if the sorted table has one |
| `Runtime.PackedCpu.Out` | gbarecomp/src/armv4t/runtime_arm.cpp:917-929 | `bank_out` on the arrays is the value-level one |
| `Runtime.PackedCpu.In` | gbarecomp/src/armv4t/runtime_arm.cpp:933-945 | `bank_in` likewise |
| `Runtime.PackedCpu.WriteCpsr` | gbarecomp/src/armv4t/runtime_arm.cpp:1001-1025 | MSR CPSR on `g_cpu` is the value-level one |
| `Runtime.PackedCpu.ReadUser` | gbarecomp/src/armv4t/runtime_arm.cpp:949-966 | a User-register read likewise |
| `Runtime.PackedCpu.WriteSpsr` | gbarecomp/src/armv4t/runtime_arm.cpp:1027-1040 | MSR SPSR likewise, dropped in User and System mode |
| `Runtime.PackedCpu.Restore` | gbarecomp/src/armv4t/runtime_arm.cpp:1084-1097 | the SPSR restore likewise |
| `Runtime.PackedCpu.Enter` | gbarecomp/src/armv4t/runtime_arm.cpp:1144-1160 | the entry both SWI and IRQ share likewise |
| `Runtime.PackedCpu.WriteUser` | gbarecomp/src/armv4t/runtime_arm.cpp:968-990 | a User-register write likewise |
| `Runtime.ReturnStack.Push` | gbarecomp/src/armv4t/runtime_arm.cpp:830-842 | a push succeeds exactly below 16384 frames and appends the even address |
| `Runtime.ReturnStack.Returns` | gbarecomp/src/armv4t/runtime_arm.cpp:844-863 | the downward scan finds and unwinds to the topmost visible match |
| `Runtime.ReturnStack.Cancel` | gbarecomp/src/armv4t/runtime_arm.cpp:865-874 | a cancel pops only a matching top frame above the floor |
| `Runtime.ReturnStack.Restore` | gbarecomp/src/armv4t/runtime_arm.cpp:889-894 | a restored stack holds the saved frames, clipped to the array, and leaves the floor alone |
| `CallReturn.ReturnUnwinds` | gbarecomp/src/armv4t/runtime_arm.cpp:844-863 | should_return succeeds if and only if a visible frame matches, and leaves exactly the prefix below the topmost match |
| `CallReturn.PushUndone` | gbarecomp/src/armv4t/runtime_arm.cpp:830-874 | a return to the address just pushed, in either instruction set, and a cancel of it, undo the push |
| `CallReturn.RunsSafe` | gbarecomp/src/armv4t/runtime_arm.cpp:830-874 | over any run of push, return, cancel and IRQ enter and leave, floor <= depth <= 16384 and enclosing floors stay ordered |
| `CallReturn.BelowFloorKept` | gbarecomp/src/armv4t/runtime_arm.cpp:844-874 | over any run, nested IRQs included, frames below the floor are never changed or popped |
| `CallReturn.IrqKeepsMainline` | gbarecomp/src/armv4t/runtime_arm.cpp:1278-1322 | a whole IRQ gives back the floor and every frame of the interrupted code |
| `IrqDriver.Driver.ExceptionReturn` | gbarecomp/src/armv4t/runtime_arm.cpp:1050-1075 | a return from IRQ mode records the nesting depth it was made at |
| `IrqDriver.Driver.Perform` | gbarecomp/src/armv4t/runtime_arm.cpp:1196-1323 | whatever guest code does at a depth, IRQs included, the marker changes only by a return at that depth |
| `IrqDriver.Driver.Drive` | gbarecomp/src/armv4t/runtime_arm.cpp:1302-1316 | the loop ends with the first dispatch that saw a return at its own depth, or after 4,000,000 dispatches exactly if there was none |
| `IrqDriver.Driver.Irq` | gbarecomp/src/armv4t/runtime_arm.cpp:1196-1323 | for any handler, nested to any depth: it and every nested handler is started in IRQ mode at 0x18 with LR = return address + 4, IRQs masked, ARM state, the SPSR the interrupted CPSR and every other view kept; R0-R3, R12, depth, marker, floor and the interrupted frames equal their entry values; and for a handler not itself interrupted, the dispatches made, the outcome and the CPU left are exactly those of its actions |
| `IrqDriver.MainlineRestored` | gbarecomp/src/armv4t/runtime_arm.cpp:1206-1218 | a handler may clobber R0-R3 and R12: if it otherwise keeps what the interrupted mode sees and its SPSR, its return and the driver's restore give back CPSR and R0-R14 |
| `IrqDriver.OneDispatchSuffices` | gbarecomp/src/armv4t/runtime_arm.cpp:1278-1322 | such a handler returning in its first dispatch is dispatched once, not abandoned, and the interrupted code goes on with its own registers |
| `Banks.SwitchKeeps` | gbarecomp/src/armv4t/runtime_arm.cpp:917-945 | a bank switch leaves every mode's view of R8-R14 as it was |
| `Banks.EntryKeeps` | gbarecomp/src/armv4t/runtime_arm.cpp:1144-1160 | exception entry sets the handler's LR and SPSR and nothing else any mode can see |
| `Banks.EntryExact` | gbarecomp/src/armv4t/runtime_arm.cpp:1144-1160 | entry from any state, field by field: mode, I set, T clear, all other CPSR fields kept, LR, PC, SPSR, R0-R7 and every other view |
| `Banks.EntriesExact` | gbarecomp/src/armv4t/runtime_arm.cpp:1144-1255 | SWI enters 0x13 at 0x08 with LR the R15 it found; IRQ enters 0x12 at 0x18 with LR four past the return address |
| `Banks.ModeBanks` | gbarecomp/src/armv4t/runtime_arm.cpp:903-912 | User and System share bank 0, the other five modes have their own, in the runtime's order, and an SPSR |
| `Banks.ReturnGives` | gbarecomp/src/armv4t/runtime_arm.cpp:1050-1075 | an exception return puts the saved CPSR back and makes live exactly what that mode sees |
| `Bits.HandlerFields` | gbarecomp/src/armv4t/runtime_arm.cpp:1144-1160 | the handler's CPSR: entered mode, IRQs masked, ARM state, the other fields and bits 31..8 kept |
| `Banks.MsrKeeps` | gbarecomp/src/armv4t/runtime_arm.cpp:1001-1025 | MSR among the seven modes leaves every view as it was |
| `Banks.UserRegIsView` | gbarecomp/src/armv4t/runtime_arm.cpp:949-966 | reading a User register always gives the User view |
| `Banks.SetUserRegView` | gbarecomp/src/armv4t/runtime_arm.cpp:968-990 | writing a User register changes that register of the views that share it and of no other mode |
| `Banks.RunKeeps` | gbarecomp/src/armv4t/runtime_arm.cpp:1001-1160 | over any run of MSR, SWI and IRQ entry, SPSR restore and exception return among the seven modes every view is unchanged but for the LR of the last entry |
| `Banks.EntryThenReturn` | gbarecomp/src/armv4t/runtime_arm.cpp:1050-1075 | entry, a handler that keeps the interrupted view and its SPSR, and the return restore CPSR, R0-R14 and PC |
| `Cosim.FoldLoop` | gbarecomp/src/debug/cosim.cpp:54-57 | the eight-byte loop computes the fold the lemmas are about |
| `Cosim.FoldedBytes` | gbarecomp/src/debug/cosim.cpp:54-57 | the eight bytes folded are the value's own: byte i times 256^i adds up to it |
| `Cosim.FoldSees` | gbarecomp/src/debug/cosim.cpp:54-57 | values that differ in one byte have different folds, from that byte on |
| `Cosim.FoldInjective` | gbarecomp/src/debug/cosim.cpp:54-57 | the fold is injective in the chain for a fixed value |
| `Cosim.DivergenceStays` | gbarecomp/src/debug/cosim.cpp:80-84 | chains that differ still differ after any identical checkpoints |
| `Cosim.RunsTellApart` | gbarecomp/src/debug/cosim.cpp:80-84 | runs with the same checkpoints but one, whose cycle or hash differs in a byte, end with different chains, whatever follows |
| `Cosim.Recorder.Record` | gbarecomp/src/debug/cosim.cpp:80-85 | recording extends the history by one stamped entry, keeps the chain its fold, and keeps the last 8192 in the ring |
| `Cosim.Recorder.Window` | gbarecomp/src/debug/cosim.cpp:167-181 | the window command returns the last n checkpoints, oldest first, clipped to ring and run |
| `Lockstep.EveryInterleaving` | gbarecomp/src/debug/cosim.cpp:80-95 | in every interleaving granted = consumed + budget, recorded <= granted + 1, and the stamps are start + k * stride |
| `Lockstep.BooksMatchLog` | gbarecomp/src/debug/cosim.cpp:80-95 | guest time is the cycles ticked and the budget what was granted less what was taken, counted from the log of events |
| `Lockstep.ParkedExactly` | gbarecomp/src/debug/cosim.cpp:87-95 | a parked guest with zero budget has recorded exactly granted + 1 |
| `Lockstep.InstancesAlign` | gbarecomp/src/debug/cosim.cpp:280-296 | two parked instances with equal grants have identical stamps, whatever their timing |
| `Lockstep.BoundariesCovered` | gbarecomp/src/debug/cosim.cpp:288-296 | between ticks the recorded checkpoints are exactly the boundaries up to now, however ticks were batched |
| `Lockstep.GuestNeverStuck` | gbarecomp/src/debug/cosim.cpp:87-95 | the guest has a step of its own exactly unless it is parked without budget |
| `ByteStreams.ReadBack32` | gbarecomp/src/debug/snapshot.h:43-88 | a 32-bit word reads back as written |
| `ByteStreams.ReadBackWords` | gbarecomp/src/debug/snapshot.h:43-88 | a sequence of words reads back as written |
| `ByteStreams.Ok32` | gbarecomp/src/debug/snapshot.h:71-96 | the sticky flag stays set exactly if the read fits |
| `ByteStreams.Reader.U32` | gbarecomp/src/debug/snapshot.h:71-76 | the cursor object reads, or fails, as the value-level cursor does |
| `SaveState.FileParses` | gbarecomp/src/debug/snapshot.cpp:165-227 | a saved file is accepted exactly if no other ROM is wanted and the required sections are present, and parses into its own sections |
| `SaveState.PayloadsComeBack` | gbarecomp/src/debug/snapshot.cpp:196-218 | parsing recovers each section's exact payload |
| `SaveState.PrefixRejected` | gbarecomp/src/debug/snapshot.cpp:165-218 | every proper prefix of a saved file is rejected |
| `SaveState.WrongMagic` | gbarecomp/src/debug/snapshot.cpp:165-172 | any file is refused for its magic exactly if it does not start with GBAS |
| `SaveState.WrongVersion` | gbarecomp/src/debug/snapshot.cpp:173-181 | of the others, any with eight bytes is refused for its version exactly if the next four are not 2, little-endian |
| `SaveState.AcceptedFile` | gbarecomp/src/debug/snapshot.cpp:165-227 | any accepted file has a whole header with magic, version and the wanted hash, and all six required sections |
| `SaveState.RomGate` | gbarecomp/src/debug/snapshot.cpp:182-191 | between 40-character hashes the ROM gate is equality |
| `SaveState.TagNames` | gbarecomp/src/debug/snapshot.cpp:33-46 | the section tags spell CPU0, BUS0, IO_0, AUD0, SAV0, PPU0 and META |
| `SaveState.CpuComesBack` | gbarecomp/src/debug/snapshot.cpp:71-85 | the CPU section restores `g_cpu` and the call-return stack |
| `SaveState.SaveThenLoad` | gbarecomp/src/debug/snapshot.cpp:104-250 | loading a saved file restores the CPU, the stack, every device payload and the counters |
| `SnapshotMachine.CheckFile` | gbarecomp/src/debug/snapshot.cpp:165-227 | the gates of the load, in their order, are the value-level parse |
| `SnapshotMachine.Machine.Save` | gbarecomp/src/debug/snapshot.cpp:104-126 | saving writes exactly the container of the live machine |
| `SnapshotMachine.Machine.Load` | gbarecomp/src/debug/snapshot.cpp:141-250 | a rejected file changes nothing; an accepted one leaves exactly what it holds |
| `Ewram.AddsIsAdder` | ewram.c:24-32 | `op_adds` is the interpreter's adder, result and flags |
| `Ewram.CompareSets` | ewram.c:96-101 | after the compare Z says the operands are equal |
| `Ewram.Guest.Memcpy` | ewram.c:34-166 | for every 32-bit count the two blocks leave exactly the forward copy over the pushed frame and the control halfword, return to the saved LR, and charge 41 cycles for 0 and 42 + 12n otherwise; for an aligned stack and buffers clear of frame and control halfword R4, R5, SP and the return are the caller's and the bytes are copied |
| `Ewram.CallerRestored` | ewram.c:107-123 | with an aligned stack and an untouched frame, R4, R5 and the return address come back |
| `Ewram.ExactCopy` | ewram.c:34-166 | outside frame and control halfword memory is exactly the forward copy of the caller's memory |
| `Ewram.CopyMoves` | ewram.c:126-150 | unless the destination runs ahead into the source, each source byte arrives and no other byte changes |
| `Ewram.CallerServed` | ewram.c:34-166 | composes those: within these limits the caller gets its registers back, an exact forward copy of its own memory, and, unless the destination runs ahead into the source, every source byte and nothing else changed |

## Left out

- Correctness.CompilerCorrect: for a register offset taken from R15 the agreement is stated under `SameOffset`. Where the base is written back and shows, `Correctness.OffsetExact` proves that condition necessary too; without writeback two different addresses can still give the same result by what memory holds, and no condition short of comparing the outcomes describes that.
- Blocks.BlockCorrect: follows a block up to its first transfer of control; what runs after a returned link call depends on the callee, which is an arbitrary function, and is covered instruction by instruction by `Compiler.InstrRuns`.
- Compiler.InstrRuns: a link call is assumed to find room on the generated-call stack (`Lowering.HasRoom`); that the code aborts exactly if there is none is `Compiler.FullStackAborts`. A return frame carries no instruction set, in the source or here.
- Blocks.SteadyBlockCorrect: MRS CPSR, MSR SPSR, an MSR that may set T, and loads to R15 in ARM state are excluded by their fields alone, since what they do depends on values; with the values known, `Blocks.BlockCorrect` covers them.
- Bridge.Interpret: the loop runs a given number of turns; the stop address, the return to compiled code, the routing of a SWI to the runtime and the IRQs delivered by the tick are not part of it.
- Bridge.ArmBridgeAgrees: code that overwrites its own block before reaching the bytes is excluded, as emitted code is not regenerated.
- Lockstep.EveryInterleaving: cycles and budget are unbounded here, 64-bit in the source; the coordinator's bounded waits and the ring's readers in the other thread are not modelled.
- Cosim.FoldSees: for values that differ in several bytes the fold is not claimed to differ; eight bytes are mixed into 64 bits one after the other, and nothing rules out that two differences cancel.
- IrqDriver.OneDispatchSuffices: what a handler that is itself interrupted leaves in the registers is not described, only that every handler is started properly and what the driver restores.
- SaveState.SaveThenLoad: what a device serializes is opaque, its section payload standing for its state; a payload of 4 GiB or more, whose length field would wrap, is excluded by `Sized`.
- IrqDriver.Driver.Irq: nesting depth and marker are unbounded here, 32-bit in the source; the interpreter's `enter_irq` and `enter_swi`, which lack the R8-R12 switch, are not modelled as equals of the runtime's entry.
- Ewram.Guest.Memcpy: the block-chaining and guard callbacks of `RtApi` are not used by the two blocks and not modelled.
- The bus is flat memory with an uninterpreted access cost; device registers, open bus and prefetch are not modelled, so a read has no side effect.
- `runtime_tick` adds to a counter: no IRQ is delivered inside it, and `runtime_should_yield` is false; the IRQ path itself is `IrqDriver`.
- The 32-bit wrap of a single instruction's cycle count.
- Immediate overrides, idle-loop elision (`runtime_idle_backedge`), HLE and force-interpreter hooks, RAM dispatch and overlays: absent.
- The classification flags and raw word of the instruction record, which neither engine reads: `is_branch`, `is_call`, `is_return`, `is_pc_writing`.
- The `arm_shift_*` helpers, which the generator does not emit.
- C text: names, labels, indentation and comments of the emitted statements; locals carry no PC suffix because one instruction's code never reads another's.
- Trace events, fingerprints, logs, dumps and environment-variable aborts: no effect on guest state.
- The socket half of the co-simulation server and the TCP debug server: request parsing and network I/O.
- File I/O of the save state and the error texts; the error cases themselves are `SaveState.LoadError`.
- PPU, audio, DMA, timers, save devices and the overlay loader.
- The oracle and tools directories, the speech bridge and argument parsing.
- `crc32.cpp` and `symbol_lookup.cpp`: small, and would only add easy members.
