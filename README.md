# LC-3 emulator core in Dafny

This project models the core of MinimalVirutalMachine, an emulator for the
LC-3 16-bit teaching computer, and proves properties of the model.

- **Word helpers** (`bit_utilities.dfy`, module `BitUtilities`). A machine
  word is a `bv16`, so arithmetic wraps modulo 2^16 as `uint16_t` does.
  - `swap16` is proved to exchange the two bytes and to be an involution.
  - `sign_extend` is proved to keep the low bits. For an n-bit field it is
    proved to fill the upper bits with the sign; with the sign bit clear it
    returns x unchanged, higher bits included. Read as a signed 16-bit
    integer, the result for an n-bit field is the field's two's-complement
    value.
- **Decode vocabulary** (`opcodes.dfy`, module `Opcodes`): the sixteen
  4-bit operation codes and the six trap vectors, each with a total decoder
  proved to invert the encoding.
- **Machine state** (`core.dfy`, module `Core`).
  - A pure `State` (memory, the ten-slot register file, pending keyboard
    input) carries the specification functions for `update_flags`,
    `mem_write` and `mem_read`, with its memory-mapped keyboard registers.
  - A `Machine` class holds the `memory` and `registers` arrays. Its methods
    are proved to agree with those functions.
- **Instruction handlers** (`instruction_set.dfy`, module `InstructionSet`).
  - ADD is the one handler whose body the repository contains, and it is
    modelled from that body.
  - AND, NOT, BR, JMP, JSR, LD, LDI, LDR, LEA, ST, STI, STR and TRAP are only
    named by the dispatcher. They are modelled after section A.3 of the LC-3
    instruction set architecture and marked "(ISA)" below.
  - Each handler is a specification function `ExecX` on `State` plus a
    method on `Machine` that ensures `m.Snapshot() == ExecX(old(m.Snapshot()), instruction)`.
- **Fetch/execute** (`lc3.dfy`, module `Lc3`): `fetchExecute` as a method
  proved equal to `Step`, the fetch followed by the dispatch. Lemmas cover
  PC sequencing, the one-hot flag invariant and the fatal RTI/RES codes.
- **Image loader** (`read_image.dfy`, module `ReadImage`):
  - `read_image_file` is modelled with the bulk copy of `fread` and the
    in-place byte-swap loop over the memory array;
  - `read_image` is modelled with its 0/1 result.

Standard input is modelled as a queue of pending characters. `check_key`
is "the queue is non-empty" and `getchar` takes the head. The image file is
modelled as the sequence of 16-bit words a little-endian host reads from it,
and a file that cannot be opened is `None`.

Where the repository's code and its evident intent differ, the model keeps
both. It states the code as written, shows the discrepancy in a lemma, and
uses the intended behaviour everywhere else (see "## Findings").

## Model

| member | source | states |
|---|---|---|
| BitUtilities.Swap16 | src/core/bit-utilities.c:10-13 | the low byte of x becomes the high byte of the result and the high byte becomes the low byte |
| BitUtilities.Swap16Involution | src/core/bit-utilities.c:10-13 | swapping twice gives back every word |
| BitUtilities.SignExtend | src/core/bit-utilities.c:16-21 | with bit (n-1) clear x is returned unchanged; with it set, every bit from n to 15 of the result is 1; requires 1 <= n <= 16 |
| BitUtilities.SignExtendLowBits | src/core/bit-utilities.c:17-18 | the result differs from x in no bit below n |
| BitUtilities.SignExtendIdempotent | src/core/bit-utilities.c:16-21 | extending twice with the same width equals extending once |
| BitUtilities.SignExtendValue | src/core/bit-utilities.c:15-21 | for an n-bit field x, the result read as a signed 16-bit integer is the n-bit two's-complement value of x |
| BitUtilities.TwosComplementRange | src/core/bit-utilities.c:15-21 | an n-bit two's-complement value lies in -2^(n-1) .. 2^(n-1)-1 |
| Opcodes.Code | src/core/opcodes.h:13-29 | every operation's LC-3 code fits in 4 bits |
| Opcodes.Decode | src/core/opcodes.h:13-29 | every 4-bit value decodes to the operation whose code it is |
| Opcodes.DecodeCode | src/core/opcodes.h:13-29 | decoding inverts encoding, so the sixteen codes are distinct |
| Opcodes.UnusedCodes | src/core/opcodes.h:21-26 | exactly codes 8 (RTI) and 13 (RES) are the unused operations |
| Opcodes.DeclaredCode | src/core/opcodes.h:13-29 | the enumeration as declared names no AND and gives every other name a value below 15 |
| Opcodes.DeclaredDecode | src/core/opcodes.h:13-29 | decoding against the declared enumeration finds the name with that value, and none for 15 |
| Opcodes.DeclaredEnumMisroutes | src/core/opcodes.h:13-29 | with the declared enumeration, HALT (0xF025) matches no operation and the AND code selects LDR |
| Opcodes.TrapCode | src/core/opcodes.h:33-40 | each trap vector lies in 0x20 .. 0x25 |
| Opcodes.DecodeTrap | src/core/opcodes.h:33-40 | a vector names a service iff it lies in 0x20 .. 0x25, and then the one whose code it is |
| Opcodes.DecodeTrapCode | src/core/opcodes.h:33-40 | decoding inverts the vector table, so the six vectors are distinct |
| Core.Layout | src/core/core.h:18-43 | R0..R7 are 0..7, PC is 8, COND is 9, R_COUNT is 10; the flags are the distinct single bits 1, 2, 4 |
| Core.FlagsAsWritten | src/core/core.c:25-37 | update_flags as written: for a value with bit 15 clear it gives the intended flag; for a value with bit 15 set it gives back the old condition value |
| Core.FlagsFor | src/core/core.c:25-37 | exactly one flag: ZERO iff the value is 0, NEGATIVE iff bit 15 is set, POSITIVE iff nonzero with bit 15 clear |
| Core.NegativeKeepsStaleFlag | src/core/core.c:31-33 | as written, a negative value leaves the old condition value, where the intended flag is NEGATIVE |
| Core.StaleFlagExample | src/core/core.c:31-33 | as written, 0x8000 written with POSITIVE set leaves POSITIVE |
| Core.DeclaredMemoryMissesLastAddress | src/core/core.h:6-8 | the address 0xFFFF is outside memory as declared and inside the model's memory |
| Core.Initial | src/lc3.c:102-107 | the start-up state has PC = 0x3000, ZERO set, memory cleared and the given input pending |
| Core.SetFlags | src/core/core.c:25-37 | the state after update_flags; its own contract states only well-formedness, and Core.SetFlagsFrame and Core.FlagsFor give it its meaning |
| Core.WriteMemory | src/core/core.c:42-44 | the state after mem_write; its own contract states only well-formedness, and Core.WriteMemoryFrame and Core.ReadAfterWrite give it its meaning |
| Core.ReadMemory | src/core/core.c:48-59 | the word and the state of mem_read; its own contract states only well-formedness, and Core.ReadPlain, Core.ReadStatusPending, Core.ReadStatusIdle and Core.KeyboardHandshake give it its meaning |
| Core.SetFlagsFrame | src/core/core.c:25-37 | update_flags sets COND from the register and changes no other register, memory or input |
| Core.WriteMemoryFrame | src/core/core.c:42-44 | mem_write stores v at the address, changes no other cell and no register |
| Core.ReadPlain | src/core/core.c:48-59 | away from the keyboard status register, a read returns the cell and changes nothing |
| Core.ReadAfterWrite | src/core/core.c:42-58 | reading a written cell (other than the keyboard status register) returns the value written |
| Core.ReadStatusPending | src/core/core.c:49-53 | polling with a key pending returns 0x8000, sets the status to 0x8000, latches the key into the data register and consumes it; no register and no other cell changes |
| Core.ReadStatusIdle | src/core/core.c:54-58 | polling with no key pending returns 0, clears the status, and leaves the data register and all else unchanged |
| Core.KeyboardHandshake | src/core/core.c:48-59 | after the status read reports 0x8000, a read of the data register returns the pending key |
| Core.Machine.constructor | src/core/core.h:8-33 | fresh memory and register arrays whose contents are the start-up state |
| Core.Machine.UpdateFlags | src/core/core.c:25-37 | the arrays afterwards are the update_flags state (NEGATIVE for a negative value) |
| Core.Machine.MemWrite | src/core/core.c:42-44 | the arrays afterwards are the mem_write state |
| Core.Machine.MemRead | src/core/core.c:48-59 | the returned word and the new state are those of the mem_read specification |
| InstructionSet.Dr | src/instruction-set.c:84 | bits 11:9 name a general register, never PC or COND |
| InstructionSet.Sr1 | src/instruction-set.c:87 | bits 8:6 name a general register, never PC or COND |
| InstructionSet.Sr2 | src/instruction-set.c:100 | bits 2:0 name a general register, never PC or COND |
| InstructionSet.Imm5 | src/instruction-set.c:95 | the extended immediate, read as signed, is the 5-bit two's-complement value of bits 4:0, in -16 .. 15 |
| InstructionSet.Offset6 | src/lc3.c:55-69 | (ISA) the LDR/STR offset, read as signed, is the 6-bit value of bits 5:0, in -32 .. 31 |
| InstructionSet.PcOffset9 | src/lc3.c:40-66 | (ISA) the BR/LD/LDI/LEA/ST/STI offset, read as signed, is the 9-bit value of bits 8:0, in -256 .. 255 |
| InstructionSet.PcOffset11 | src/lc3.c:46-48 | (ISA) the JSR offset, read as signed, is the 11-bit value of bits 10:0, in -1024 .. 1023 |
| InstructionSet.ExecAdd | src/instruction-set.c:84-105 | the state after add; its own contract states only well-formedness, and InstructionSet.AddSemantics, AddExample and Increment give it its meaning |
| InstructionSet.AddSemantics | src/instruction-set.c:84-105 | ADD puts SR1 + operand (mod 2^16) in DR and sets exactly the flag of that value; no other register, no memory and no input changes |
| InstructionSet.AddExample | src/instruction-set.c:90-96 | ADD R2, R0, #-1 with R0 = 5 leaves 4 in R2 and sets POSITIVE |
| InstructionSet.Increment | src/instruction-set.c:93-96 | ADD R0, R0, #1 increments R0 modulo 2^16, and 0xFFFF wraps to 0 with ZERO set |
| InstructionSet.Add | src/instruction-set.c:84-105 | the register array afterwards is the ADD state |
| InstructionSet.ExecAnd | src/lc3.c:34-36 | (ISA) the state after AND; its own contract states only well-formedness, and InstructionSet.AndSemantics and AndClears give it its meaning |
| InstructionSet.AndSemantics | src/lc3.c:34-36 | (ISA) AND puts SR1 & operand in DR and sets exactly the flag of that value; no other register, no memory and no input changes |
| InstructionSet.AndClears | src/lc3.c:34-36 | (ISA) AND with immediate 0 clears DR and sets ZERO |
| InstructionSet.And | src/lc3.c:34-36 | (ISA) the register array afterwards is the AND state |
| InstructionSet.ExecNot | src/lc3.c:37-39 | (ISA) the state after NOT; its own contract states only well-formedness, and InstructionSet.NotTwice gives it its meaning |
| InstructionSet.NotTwice | src/lc3.c:37-39 | (ISA) NOT applied twice to one register gives back its value, with memory unchanged |
| InstructionSet.Not | src/lc3.c:37-39 | (ISA) the register array afterwards is the NOT state |
| InstructionSet.ExecBr | src/lc3.c:40-42 | (ISA) the state after BR; its own contract states only well-formedness, and InstructionSet.BranchTaken and BranchZeroExample give it its meaning |
| InstructionSet.BranchTaken | src/lc3.c:40-42 | (ISA) BR moves PC by its offset iff a selected flag is set; with all flags selected it always does, with none it changes nothing; only PC changes |
| InstructionSet.BranchZeroExample | src/lc3.c:40-42 | (ISA) BRz +2 moves PC by 2 exactly when ZERO is set |
| InstructionSet.Branch | src/lc3.c:40-42 | (ISA) the register array afterwards is the BR state |
| InstructionSet.ExecJmp | src/lc3.c:43-45 | (ISA) the state after JMP; its own contract states only well-formedness, and InstructionSet.CallAndReturn gives it its meaning |
| InstructionSet.Jump | src/lc3.c:43-45 | (ISA) the register array afterwards is the JMP state |
| InstructionSet.ExecJsr | src/lc3.c:46-48 | (ISA) the state after JSR/JSRR; its own contract states only well-formedness, and InstructionSet.CallAndReturn and CallRelative give it its meaning |
| InstructionSet.CallAndReturn | src/lc3.c:43-48 | (ISA) JSRR jumps to the base register read before R7 is linked, and RET afterwards returns to the word after the call |
| InstructionSet.CallRelative | src/lc3.c:46-48 | (ISA) JSR jumps to PC + offset, links R7 to the old PC, and changes no memory |
| InstructionSet.JumpToSubroutine | src/lc3.c:46-48 | (ISA) the register array afterwards is the JSR state |
| InstructionSet.ExecLd | src/lc3.c:49-51 | (ISA) the state after LD; its own contract states only well-formedness, and InstructionSet.StoreThenLoad gives it its meaning |
| InstructionSet.ExecLdi | src/lc3.c:52-54 | (ISA) the state after LDI; its own contract states only well-formedness, and InstructionSet.StoreIndirectThenLoadIndirect gives it its meaning |
| InstructionSet.ExecLdr | src/lc3.c:55-57 | (ISA) the state after LDR; its own contract states only well-formedness, and InstructionSet.StoreRegisterThenLoad gives it its meaning |
| InstructionSet.ExecSt | src/lc3.c:61-63 | (ISA) the state after ST; its own contract states only well-formedness, and InstructionSet.StoreThenLoad gives it its meaning |
| InstructionSet.ExecSti | src/lc3.c:64-66 | (ISA) the state after STI; its own contract states only well-formedness, and InstructionSet.StoreIndirectThenLoadIndirect gives it its meaning |
| InstructionSet.ExecStr | src/lc3.c:67-69 | (ISA) the state after STR; its own contract states only well-formedness, and InstructionSet.StoreRegisterThenLoad gives it its meaning |
| InstructionSet.StoreThenLoad | src/lc3.c:49-63 | (ISA) LD with the offset of a preceding ST loads the stored value and sets its flag |
| InstructionSet.StoreRegisterThenLoad | src/lc3.c:55-69 | (ISA) LDR with the base and offset of a preceding STR loads the stored value |
| InstructionSet.StoreIndirectThenLoadIndirect | src/lc3.c:52-66 | (ISA) LDI with the offset of a preceding STI loads the stored value through the same pointer |
| InstructionSet.Load | src/lc3.c:49-51 | (ISA) the machine afterwards is the LD state |
| InstructionSet.LoadIndirect | src/lc3.c:52-54 | (ISA) the machine afterwards is the LDI state |
| InstructionSet.LoadRegister | src/lc3.c:55-57 | (ISA) the machine afterwards is the LDR state |
| InstructionSet.ExecLea | src/lc3.c:58-60 | (ISA) the state after LEA; its own contract states only well-formedness, and InstructionSet.LeaSemantics gives it its meaning |
| InstructionSet.LeaSemantics | src/lc3.c:58-60 | (ISA) LEA loads the address PC + offset itself and reads no memory |
| InstructionSet.LoadEffectiveAddress | src/lc3.c:58-60 | (ISA) the register array afterwards is the LEA state |
| InstructionSet.Store | src/lc3.c:61-63 | (ISA) the memory array afterwards is the ST state |
| InstructionSet.StoreIndirect | src/lc3.c:64-66 | (ISA) the machine afterwards is the STI state |
| InstructionSet.StoreRegister | src/lc3.c:67-69 | (ISA) the memory array afterwards is the STR state |
| InstructionSet.ExecTrap | src/lc3.c:70-72 | (ISA) the outcome and state after TRAP; its own contract states only well-formedness, and InstructionSet.TrapSemantics and HaltTrap give it its meaning |
| InstructionSet.TrapSemantics | src/lc3.c:70-72 | (ISA) TRAP links R7 to PC and changes no memory; a service is requested iff the vector is in 0x20 .. 0x25, and it is the one with that vector |
| InstructionSet.HaltTrap | src/core/opcodes.h:39 | TRAP x25 requests HALT |
| InstructionSet.Trap | src/lc3.c:70-72 | (ISA) the outcome and the register array afterwards are those of the TRAP specification |
| Lc3.OpcodeOf | src/lc3.c:28 | the operation's code is the top four bits of the instruction |
| Lc3.Fetch | src/lc3.c:27 | the fetched word and the state after the fetch; its own contract states only well-formedness, and Lc3.FetchSemantics gives it its meaning |
| Lc3.Execute | src/lc3.c:30-83 | the dispatch of a fetched word; its own contract states only well-formedness, and Lc3.DispatchOutcome, DispatchAdd and ExecuteKeepsPc give it its meaning |
| Lc3.Step | src/lc3.c:25-84 | one fetch and dispatch; its own contract states only well-formedness, and Lc3.StepKeepsOneFlag, SequentialPc, UnusedAborts and HaltStep give it its meaning |
| Lc3.FetchSemantics | src/lc3.c:27 | the fetch increments PC modulo 2^16, changes no other register, and away from the keyboard status register returns the word at the old PC and changes no memory |
| Lc3.DispatchOutcome | src/lc3.c:30-83 | an instruction aborts iff its code is RTI or RES, and then with the state unchanged; a service or bad vector is reported iff the code is TRAP |
| Lc3.DispatchAdd | src/lc3.c:31-33 | the ADD code runs the ADD semantics on the full instruction word |
| Lc3.StepKeepsOneFlag | src/lc3.c:25-84 | if exactly one flag is set before a step, exactly one is set after it |
| Lc3.SequentialPc | src/lc3.c:25-84 | after every operation other than BR, JMP and JSR, PC is the word after the instruction |
| Lc3.UnusedAborts | src/lc3.c:73-78 | an RTI or RES instruction aborts after the fetch, with no handler run |
| Lc3.HaltStep | src/lc3.c:70-72 | HALT at PC requests the HALT routine and links R7 to the following word |
| Lc3.FetchExecute | src/lc3.c:25-84 | the outcome and the machine afterwards are those of one fetch and dispatch step |
| ReadImage.ImageOrigin | src/core/read-image.c:12-14 | the origin is the byte-swapped first word, at most 0xFFFF |
| ReadImage.ImageCount | src/core/read-image.c:17-19 | the count is all program words when they fit, else UINT16_MAX - origin; origin + count never exceeds 0xFFFF |
| ReadImage.LoadedImage | src/core/read-image.c:17-26 | memory after loading; its own contract states only its length, and ReadImage.LoadedPlacement and LoadEncodedImage give it its meaning |
| ReadImage.LoadedPlacement | src/core/read-image.c:17-26 | each placed word lands byte-swapped at origin + i, every other cell is unchanged, and cell 0xFFFF is never written |
| ReadImage.EncodeImage | src/core/read-image.c:12-14 | an encoded image has one word more than its program, and its decoded origin is the given one |
| ReadImage.LoadEncodedImage | src/core/read-image.c:8-27 | loading the encoded image of a program that fits places all of it, and exactly that program, at its origin |
| ReadImage.ReadImageFile | src/core/read-image.c:8-27 | the memory array afterwards is the loaded image of the file |
| ReadImage.SwapInPlace | src/core/read-image.c:23-26 | each of the count words from the start is byte-swapped in place and no other cell changes |
| ReadImage.ReadImage | src/core/read-image.c:29-38 | 0 with memory untouched iff the image cannot be opened; otherwise 1 with the image loaded |

## Left out

- `check_key`'s `select` poll and `getchar` are operating-system terminal I/O. They are modelled as a queue of pending characters; end of file (`getchar` returning -1) is not modelled.
- `fopen`, `fread`, `fclose` and the `printf` traces of the loader are file I/O. The file is modelled as its words, and a file that cannot be opened as `None`.
- ReadImage.ReadImageFile: requires a file of at least one word, since an empty file leaves the origin uninitialised in the source.
- ReadImage.ReadImageFile: a file whose length is an odd number of bytes is not modelled, because the file is a sequence of whole words.
- `main` in src/lc3.c (argument handling, `signal`, terminal buffering) is program set-up, not part of the step. Only its start PC (0x3000) is kept, in `Core.Initial`.
- src/main.c is not part of this model. Its switch arms are pseudo-code and its run loop repeats `fetchExecute`; only its initial ZERO flag is borrowed for `Core.Initial`.
- The trap service routines (GETC, OUT, PUTS, IN, PUTSP, HALT) are terminal I/O and their bodies are not in the repository. TRAP reports the requested routine in its outcome instead of running it.
- The bodies of `and`, `not`, `branch`, `jump`, `jumpToSubroutine`, `load`, `loadIndirect`, `loadRegister`, `loadEffectiveAddress`, `store`, `storeIndirect`, `storeRegister` and `trap` are not in the repository. Their models follow section A.3 of the LC-3 instruction set architecture, not this source.
- Lc3.FetchExecute: the `BAD OPCODE` default arm is left out, because every 4-bit code decodes to an operation and the arm is unreachable. `abort()` for RTI and RES is modelled as an `Abort` outcome rather than process termination.
- InstructionSet.Add: reads the undefined names `instr` and `register` of the source as `instruction` and `registers`.
- BitUtilities.SignExtend: the missing semicolon after the `|=` statement is read as present. The width is a 16-bit word restricted to 1..16 rather than an `int`. That covers width 5, which ADD uses, and widths 6, 9 and 11, which the other handlers use. Widths 17..32, for which the source returns x, are not modelled.
- BitUtilities.SignExtend: with width 16 and bit 15 set, the source computes `0xFFFF << 16` in `int` arithmetic, which overflows. The model returns x unchanged in that case.
- InstructionSet.Add: the sum is stated as 16-bit wrapping addition; its value as an integer modulo 2^16 is not stated separately.
- `MR_KBSR` and `MR_KBDR` are not defined in the repository. They take the LC-3 memory-map addresses 0xFE00 and 0xFE02.

## Findings

| source | as written | input that shows it | evidently intended | confidence | as-written member | corrected member |
|---|---|---|---|---|---|---|
| src/core/core.c:31-33 | the negative branch of `update_flags` shifts COND and discards the result, so COND keeps its old value | a register holding 0x8000 while COND is POSITIVE: COND stays POSITIVE | COND := FL_NEG | not executed | Core.NegativeKeepsStaleFlag | Core.FlagsFor |
| src/core/opcodes.h:13-29 | the opcode enumeration omits OP_AND, so every name after OP_JSR is one below its LC-3 code and 15 has no name | HALT (0xF025) has code 15 and matches no case; the AND code 5 selects OP_LDR | the LC-3 codes BR = 0 .. TRAP = 15 with AND = 5 | not executed | Opcodes.DeclaredEnumMisroutes | Opcodes.Decode |
| src/core/core.h:6-8 | memory is declared with UINT16_MAX = 65535 cells, though a 16-bit address reaches 65535 | mem_read(0xFFFF) indexes one past the end of memory | 65536 cells, one per 16-bit address | not executed | Core.DeclaredMemoryMissesLastAddress | Core.Machine.MemRead |
