/** The instruction handlers. ADD is the one handler whose body the repository
    contains (instruction-set.c); the others are named by the dispatcher in
    lc3.c but have no body there, and are modelled after the per-instruction
    semantics in section A.3 of the LC-3 instruction set architecture.
    Each handler is a specification function on State plus a method on the
    Machine proved to agree with it. */
module InstructionSet {

  import opened BitUtilities
  import opened Options
  import opened Opcodes
  import opened Core

  /** What the dispatcher should do after an instruction: carry on, run one
      of the trap service routines, report an unknown trap vector, or abort
      on an unused operation code. */
  datatype Outcome = Continue | Service(routine: TrapVector) | BadTrap(vector: Word) | Abort(opcode: Opcode)

  // ----- Instruction fields -----

  /** Bits 11:9, the destination register (DR); stores read their source
      register (SR) from the same bits. */
  function Dr(instruction: Word): (r: nat)
    ensures r <= R_R7 < R_PC
  {
    ((instruction >> 9) & 0x7) as int
  }

  /** Bits 8:6, the first source register (SR1), also the base register
      (BaseR) of JMP, JSRR, LDR and STR. */
  function Sr1(instruction: Word): (r: nat)
    ensures r <= R_R7 < R_PC
  {
    ((instruction >> 6) & 0x7) as int
  }

  /** Bits 2:0, the second source register (SR2) in register mode. */
  function Sr2(instruction: Word): (r: nat)
    ensures r <= R_R7 < R_PC
  {
    (instruction & 0x7) as int
  }

  /** Bit 5 selects immediate mode for ADD and AND. */
  predicate ImmediateMode(instruction: Word)
  {
    (instruction >> 5) & 0x1 == 1
  }

  /** The sign-extended 5-bit immediate of ADD and AND, a value in -16 .. 15. */
  function Imm5(instruction: Word): (v: Word)
    ensures Signed(v) == TwosComplement(instruction & 0x1F, 5)
    ensures -16 <= Signed(v) < 16
  {
    SignExtendValue(instruction & 0x1F, 5);
    TwosComplementRange(instruction & 0x1F, 5);
    assert Pow2(4) == 16;
    SignExtend(instruction & 0x1F, 5)
  }

  /** The sign-extended 6-bit offset of LDR and STR, a value in -32 .. 31. */
  function Offset6(instruction: Word): (v: Word)
    ensures Signed(v) == TwosComplement(instruction & 0x3F, 6)
    ensures -32 <= Signed(v) < 32
  {
    SignExtendValue(instruction & 0x3F, 6);
    TwosComplementRange(instruction & 0x3F, 6);
    assert Pow2(5) == 32;
    SignExtend(instruction & 0x3F, 6)
  }

  /** The sign-extended 9-bit PC offset of BR, LD, LDI, LEA, ST and STI, a
      value in -256 .. 255. */
  function PcOffset9(instruction: Word): (v: Word)
    ensures Signed(v) == TwosComplement(instruction & 0x1FF, 9)
    ensures -256 <= Signed(v) < 256
  {
    SignExtendValue(instruction & 0x1FF, 9);
    TwosComplementRange(instruction & 0x1FF, 9);
    assert Pow2(8) == 256;
    SignExtend(instruction & 0x1FF, 9)
  }

  /** The sign-extended 11-bit PC offset of JSR, a value in -1024 .. 1023. */
  function PcOffset11(instruction: Word): (v: Word)
    ensures Signed(v) == TwosComplement(instruction & 0x7FF, 11)
    ensures -1024 <= Signed(v) < 1024
  {
    SignExtendValue(instruction & 0x7FF, 11);
    TwosComplementRange(instruction & 0x7FF, 11);
    assert Pow2(10) == 1024;
    SignExtend(instruction & 0x7FF, 11)
  }

  // ----- Semantics on State -----

  /** The second operand of ADD and AND: the immediate or register SR2. */
  function SecondOperand(s: State, instruction: Word): Word
    requires WellFormed(s)
  {
    if ImmediateMode(instruction) then Imm5(instruction) else s.registers[Sr2(instruction)]
  }

  /** add: DR := SR1 + operand (mod 2^16), then the flags from DR. */
  function ExecAdd(s: State, instruction: Word): (t: State)
    requires WellFormed(s)
    ensures WellFormed(t)
  {
    var dr := Dr(instruction);
    SetFlags(WriteRegister(s, dr, WordAdd(s.registers[Sr1(instruction)], SecondOperand(s, instruction))), dr)
  }

  /** AND (ISA): DR := SR1 & operand, then the flags from DR. */
  function ExecAnd(s: State, instruction: Word): (t: State)
    requires WellFormed(s)
    ensures WellFormed(t)
  {
    var dr := Dr(instruction);
    SetFlags(WriteRegister(s, dr, WordAnd(s.registers[Sr1(instruction)], SecondOperand(s, instruction))), dr)
  }

  /** NOT (ISA): DR := the bitwise complement of SR, then the flags from DR. */
  function ExecNot(s: State, instruction: Word): (t: State)
    requires WellFormed(s)
    ensures WellFormed(t)
  {
    var dr := Dr(instruction);
    SetFlags(WriteRegister(s, dr, !s.registers[Sr1(instruction)]), dr)
  }

  /** The n, z, p bits 11:9 of BR. */
  function BranchMask(instruction: Word): Word
  {
    (instruction >> 9) & 0x7
  }

  /** BR (ISA): when one of the tested flags is set, PC := PC + PCoffset9. */
  function ExecBr(s: State, instruction: Word): (t: State)
    requires WellFormed(s)
    ensures WellFormed(t)
  {
    if BranchMask(instruction) & s.registers[R_COND] != 0 then
      WriteRegister(s, R_PC, WordAdd(s.registers[R_PC], PcOffset9(instruction)))
    else
      s
  }

  /** JMP and RET (ISA): PC := BaseR. */
  function ExecJmp(s: State, instruction: Word): (t: State)
    requires WellFormed(s)
    ensures WellFormed(t)
  {
    WriteRegister(s, R_PC, s.registers[Sr1(instruction)])
  }

  /** JSR and JSRR (ISA): the target (PC + PCoffset11 when bit 11 is set,
      BaseR otherwise) is computed from the registers before R7 receives the
      return address. */
  function ExecJsr(s: State, instruction: Word): (t: State)
    requires WellFormed(s)
    ensures WellFormed(t)
  {
    var pc := s.registers[R_PC];
    var target := if (instruction >> 11) & 0x1 == 1 then WordAdd(pc, PcOffset11(instruction)) else s.registers[Sr1(instruction)];
    WriteRegister(WriteRegister(s, R_PC, target), R_R7, pc)
  }

  /** Loads DR with v after the memory reads that produced state t. */
  function LoadInto(t: State, instruction: Word, v: Word): (u: State)
    requires WellFormed(t)
    ensures WellFormed(u)
  {
    SetFlags(WriteRegister(t, Dr(instruction), v), Dr(instruction))
  }

  /** LD (ISA): DR := mem[PC + PCoffset9], then the flags. */
  function ExecLd(s: State, instruction: Word): (t: State)
    requires WellFormed(s)
    ensures WellFormed(t)
  {
    var r := ReadMemory(s, WordAdd(s.registers[R_PC], PcOffset9(instruction)));
    LoadInto(r.1, instruction, r.0)
  }

  /** LDI (ISA): DR := mem[mem[PC + PCoffset9]], then the flags. */
  function ExecLdi(s: State, instruction: Word): (t: State)
    requires WellFormed(s)
    ensures WellFormed(t)
  {
    var pointer := ReadMemory(s, WordAdd(s.registers[R_PC], PcOffset9(instruction)));
    var r := ReadMemory(pointer.1, pointer.0);
    LoadInto(r.1, instruction, r.0)
  }

  /** LDR (ISA): DR := mem[BaseR + offset6], then the flags. */
  function ExecLdr(s: State, instruction: Word): (t: State)
    requires WellFormed(s)
    ensures WellFormed(t)
  {
    var r := ReadMemory(s, WordAdd(s.registers[Sr1(instruction)], Offset6(instruction)));
    LoadInto(r.1, instruction, r.0)
  }

  /** LEA (ISA): DR := PC + PCoffset9, then the flags. */
  function ExecLea(s: State, instruction: Word): (t: State)
    requires WellFormed(s)
    ensures WellFormed(t)
  {
    LoadInto(s, instruction, WordAdd(s.registers[R_PC], PcOffset9(instruction)))
  }

  /** ST (ISA): mem[PC + PCoffset9] := SR. */
  function ExecSt(s: State, instruction: Word): (t: State)
    requires WellFormed(s)
    ensures WellFormed(t)
  {
    WriteMemory(s, WordAdd(s.registers[R_PC], PcOffset9(instruction)), s.registers[Dr(instruction)])
  }

  /** STI (ISA): mem[mem[PC + PCoffset9]] := SR. */
  function ExecSti(s: State, instruction: Word): (t: State)
    requires WellFormed(s)
    ensures WellFormed(t)
  {
    var pointer := ReadMemory(s, WordAdd(s.registers[R_PC], PcOffset9(instruction)));
    WriteMemory(pointer.1, pointer.0, s.registers[Dr(instruction)])
  }

  /** STR (ISA): mem[BaseR + offset6] := SR. */
  function ExecStr(s: State, instruction: Word): (t: State)
    requires WellFormed(s)
    ensures WellFormed(t)
  {
    WriteMemory(s, WordAdd(s.registers[Sr1(instruction)], Offset6(instruction)), s.registers[Dr(instruction)])
  }

  /** The trap vector, bits 7:0. */
  function TrapField(instruction: Word): Word
  {
    instruction & 0xFF
  }

  /** TRAP (ISA): R7 := PC, and the service routine named by the vector is to
      run; a vector outside the table is reported. */
  function ExecTrap(s: State, instruction: Word): (r: (Outcome, State))
    requires WellFormed(s)
    ensures WellFormed(r.1)
  {
    var t := WriteRegister(s, R_R7, s.registers[R_PC]);
    match DecodeTrap(TrapField(instruction))
    case Some(routine) => (Service(routine), t)
    case None => (BadTrap(TrapField(instruction)), t)
  }

  // ----- Properties -----

  /** ADD writes SR1 + operand into DR, sets exactly the flag of that value,
      and changes no other register, no memory and no input. */
  lemma AddSemantics(s: State, instruction: Word)
    requires WellFormed(s)
    ensures var t := ExecAdd(s, instruction);
      && t.registers[Dr(instruction)] == WordAdd(s.registers[Sr1(instruction)], SecondOperand(s, instruction))
      && t.registers[R_COND] == FlagsFor(t.registers[Dr(instruction)])
      && OneFlag(t.registers[R_COND])
      && (forall i :: 0 <= i < R_COUNT && i != Dr(instruction) && i != R_COND ==> t.registers[i] == s.registers[i])
      && t.memory == s.memory && t.input == s.input
  {
  }

  /** ADD R2, R0, #-1 (0x143F) with R0 = 5 leaves 4 in R2 and sets POSITIVE. */
  lemma AddExample(s: State)
    requires WellFormed(s)
    requires s.registers[R_R0] == 5
    ensures ExecAdd(s, 0x143F).registers[R_R2] == 4
    ensures ExecAdd(s, 0x143F).registers[R_COND] == FL_POS
  {
    assert Dr(0x143F) == 2 && Sr1(0x143F) == 0 && ImmediateMode(0x143F);
    assert Imm5(0x143F) == 0xFFFF;
  }

  /** ADD R0, R0, #1 (0x1021) reads R0 before writing it: it increments R0
      modulo 2^16, so 0xFFFF wraps to 0 with ZERO set. */
  lemma Increment(s: State)
    requires WellFormed(s)
    ensures ExecAdd(s, 0x1021).registers[R_R0] == s.registers[R_R0] + 1
    ensures s.registers[R_R0] == 0xFFFF ==> ExecAdd(s, 0x1021).registers[R_COND] == FL_ZRO
  {
    assert Dr(0x1021) == 0 && Sr1(0x1021) == 0 && ImmediateMode(0x1021);
    assert Imm5(0x1021) == 1;
  }

  /** AND writes SR1 & operand into DR, sets exactly the flag of that value,
      and changes no other register, no memory and no input. */
  lemma AndSemantics(s: State, instruction: Word)
    requires WellFormed(s)
    ensures var t := ExecAnd(s, instruction);
      && t.registers[Dr(instruction)] == WordAnd(s.registers[Sr1(instruction)], SecondOperand(s, instruction))
      && t.registers[R_COND] == FlagsFor(t.registers[Dr(instruction)])
      && OneFlag(t.registers[R_COND])
      && (forall i :: 0 <= i < R_COUNT && i != Dr(instruction) && i != R_COND ==> t.registers[i] == s.registers[i])
      && t.memory == s.memory && t.input == s.input
  {
  }

  /** AND R, R, #0 clears the destination and sets ZERO whatever it held. */
  lemma AndClears(s: State, instruction: Word)
    requires WellFormed(s)
    requires ImmediateMode(instruction) && instruction & 0x1F == 0
    ensures ExecAnd(s, instruction).registers[Dr(instruction)] == 0
    ensures ExecAnd(s, instruction).registers[R_COND] == FL_ZRO
  {
    assert Imm5(instruction) == 0;
  }

  /** NOT with DR = SR is an involution on that register. */
  lemma NotTwice(s: State, instruction: Word)
    requires WellFormed(s)
    requires Dr(instruction) == Sr1(instruction)
    ensures ExecNot(ExecNot(s, instruction), instruction).registers[Dr(instruction)] == s.registers[Dr(instruction)]
    ensures ExecNot(ExecNot(s, instruction), instruction).memory == s.memory
  {
  }

  /** BR tests exactly the flags selected by its n, z, p bits: with one flag
      set, the branch is taken iff that flag's bit is selected. */
  lemma BranchTaken(s: State, instruction: Word)
    requires WellFormed(s) && OneFlag(s.registers[R_COND])
    ensures ExecBr(s, instruction).registers[R_PC] ==
      if BranchMask(instruction) & s.registers[R_COND] != 0 then WordAdd(s.registers[R_PC], PcOffset9(instruction))
      else s.registers[R_PC]
    ensures BranchMask(instruction) == 7 ==> ExecBr(s, instruction).registers[R_PC] == WordAdd(s.registers[R_PC], PcOffset9(instruction))
    ensures BranchMask(instruction) == 0 ==> ExecBr(s, instruction) == s
    ensures forall i :: 0 <= i < R_COUNT && i != R_PC ==> ExecBr(s, instruction).registers[i] == s.registers[i]
  {
  }

  /** BRz #2 (0x0402) moves PC forward by two words exactly when ZERO is set. */
  lemma BranchZeroExample(s: State)
    requires WellFormed(s) && OneFlag(s.registers[R_COND])
    ensures ExecBr(s, 0x0402).registers[R_PC] ==
      if s.registers[R_COND] == FL_ZRO then s.registers[R_PC] + 2 else s.registers[R_PC]
  {
    assert BranchMask(0x0402) == 2;
    assert PcOffset9(0x0402) == 2;
  }

  /** JSRR R7 followed by RET: the subroutine address is read from R7 before
      R7 receives the return address, and RET then comes back to the
      instruction after the call. */
  lemma CallAndReturn(s: State, call: Word)
    requires WellFormed(s)
    requires (call >> 11) & 0x1 == 0
    ensures ExecJsr(s, call).registers[R_PC] == s.registers[Sr1(call)]
    ensures ExecJsr(s, call).registers[R_R7] == s.registers[R_PC]
    ensures ExecJmp(ExecJsr(s, call), 0xC1C0).registers[R_PC] == s.registers[R_PC]
  {
    assert Sr1(0xC1C0) == R_R7;
  }

  /** JSR with an offset jumps relative to the incremented PC and links R7. */
  lemma CallRelative(s: State, call: Word)
    requires WellFormed(s)
    requires (call >> 11) & 0x1 == 1
    ensures ExecJsr(s, call).registers[R_PC] == WordAdd(s.registers[R_PC], PcOffset11(call))
    ensures ExecJsr(s, call).registers[R_R7] == s.registers[R_PC]
    ensures ExecJsr(s, call).memory == s.memory
  {
  }

  /** A value stored by ST is what LD with the same PC offset loads back
      (away from the keyboard status register), with its flag set. */
  lemma StoreThenLoad(s: State, store: Word, load: Word)
    requires WellFormed(s)
    requires store & 0x1FF == load & 0x1FF
    requires WordAdd(s.registers[R_PC], PcOffset9(store)) != MR_KBSR
    ensures ExecLd(ExecSt(s, store), load).registers[Dr(load)] == s.registers[Dr(store)]
    ensures ExecLd(ExecSt(s, store), load).registers[R_COND] == FlagsFor(s.registers[Dr(store)])
  {
    assert PcOffset9(store) == PcOffset9(load);
    ReadAfterWrite(s, WordAdd(s.registers[R_PC], PcOffset9(store)), s.registers[Dr(store)]);
  }

  /** The same for STR and LDR with equal base register and offset. */
  lemma StoreRegisterThenLoad(s: State, store: Word, load: Word)
    requires WellFormed(s)
    requires store & 0x3F == load & 0x3F && Sr1(store) == Sr1(load)
    requires WordAdd(s.registers[Sr1(store)], Offset6(store)) != MR_KBSR
    ensures ExecLdr(ExecStr(s, store), load).registers[Dr(load)] == s.registers[Dr(store)]
  {
    assert Offset6(store) == Offset6(load);
    ReadAfterWrite(s, WordAdd(s.registers[Sr1(store)], Offset6(store)), s.registers[Dr(store)]);
  }

  /** STI stores through the pointer that LDI follows: after STI, LDI with the
      same offset loads the stored value (no keyboard register on the path). */
  lemma StoreIndirectThenLoadIndirect(s: State, store: Word, load: Word)
    requires WellFormed(s)
    requires store & 0x1FF == load & 0x1FF
    requires WordAdd(s.registers[R_PC], PcOffset9(store)) != MR_KBSR
    requires s.memory[WordAdd(s.registers[R_PC], PcOffset9(store)) as int] != MR_KBSR
    requires s.memory[WordAdd(s.registers[R_PC], PcOffset9(store)) as int] != WordAdd(s.registers[R_PC], PcOffset9(store))
    ensures ExecLdi(ExecSti(s, store), load).registers[Dr(load)] == s.registers[Dr(store)]
  {
    var p := WordAdd(s.registers[R_PC], PcOffset9(store));
    var q := s.memory[p as int];
    var v := s.registers[Dr(store)];
    assert PcOffset9(store) == PcOffset9(load);
    ReadPlain(s, p);
    var t := WriteMemory(s, q, v);
    assert ExecSti(s, store) == t;
    WriteMemoryFrame(s, q, v);
    WordIndexInjective(p, q);
    assert t.memory[p as int] == q;
    ReadPlain(t, p);
    ReadPlain(t, q);
    assert ReadMemory(t, q) == (v, t);
  }

  /** LEA loads the address PC + PCoffset9 itself and reads no memory. */
  lemma LeaSemantics(s: State, instruction: Word)
    requires WellFormed(s)
    ensures ExecLea(s, instruction).registers[Dr(instruction)] == WordAdd(s.registers[R_PC], PcOffset9(instruction))
    ensures ExecLea(s, instruction).memory == s.memory && ExecLea(s, instruction).input == s.input
  {
  }

  /** TRAP saves PC in R7 and asks for the routine its vector names; the six
      vectors 0x20 .. 0x25 are exactly the ones served. */
  lemma TrapSemantics(s: State, instruction: Word)
    requires WellFormed(s)
    ensures ExecTrap(s, instruction).1.registers[R_R7] == s.registers[R_PC]
    ensures ExecTrap(s, instruction).1.registers[R_PC] == s.registers[R_PC]
    ensures ExecTrap(s, instruction).1.memory == s.memory
    ensures ExecTrap(s, instruction).0.Service? <==> 0x20 <= instruction & 0xFF <= 0x25
    ensures ExecTrap(s, instruction).0.Service? ==> TrapCode(ExecTrap(s, instruction).0.routine) == instruction & 0xFF
  {
  }

  /** TRAP x25 asks for HALT. */
  lemma HaltTrap(s: State)
    requires WellFormed(s)
    ensures ExecTrap(s, 0xF025).0 == Service(HALT)
  {
    assert TrapField(0xF025) == 0x25;
  }

  // ----- Handlers on the machine -----

  /** add(instruction), as written in the repository (with its undefined
      names read as `instruction` and `registers`). */
  method Add(m: Machine, instruction: Word)
    requires m.Valid()
    modifies m.registers
    ensures m.Snapshot() == ExecAdd(old(m.Snapshot()), instruction)
  {
    var r0 := Dr(instruction);
    var r1 := Sr1(instruction);
    if ImmediateMode(instruction) {
      var imm5 := Imm5(instruction);
      m.registers[r0] := WordAdd(m.registers[r1], imm5);
    } else {
      var r2 := Sr2(instruction);
      m.registers[r0] := WordAdd(m.registers[r1], m.registers[r2]);
    }
    m.UpdateFlags(r0);
  }

  /** and(instruction), per the ISA. */
  method And(m: Machine, instruction: Word)
    requires m.Valid()
    modifies m.registers
    ensures m.Snapshot() == ExecAnd(old(m.Snapshot()), instruction)
  {
    var r0 := Dr(instruction);
    var r1 := Sr1(instruction);
    if ImmediateMode(instruction) {
      var imm5 := Imm5(instruction);
      m.registers[r0] := WordAnd(m.registers[r1], imm5);
    } else {
      var r2 := Sr2(instruction);
      m.registers[r0] := WordAnd(m.registers[r1], m.registers[r2]);
    }
    m.UpdateFlags(r0);
  }

  /** not(instruction), per the ISA. */
  method Not(m: Machine, instruction: Word)
    requires m.Valid()
    modifies m.registers
    ensures m.Snapshot() == ExecNot(old(m.Snapshot()), instruction)
  {
    var r0 := Dr(instruction);
    m.registers[r0] := !m.registers[Sr1(instruction)];
    m.UpdateFlags(r0);
  }

  /** branch(instruction), per the ISA. */
  method Branch(m: Machine, instruction: Word)
    requires m.Valid()
    modifies m.registers
    ensures m.Snapshot() == ExecBr(old(m.Snapshot()), instruction)
  {
    if BranchMask(instruction) & m.registers[R_COND] != 0 {
      m.registers[R_PC] := WordAdd(m.registers[R_PC], PcOffset9(instruction));
    }
  }

  /** jump(instruction), per the ISA (RET is JMP R7). */
  method Jump(m: Machine, instruction: Word)
    requires m.Valid()
    modifies m.registers
    ensures m.Snapshot() == ExecJmp(old(m.Snapshot()), instruction)
  {
    m.registers[R_PC] := m.registers[Sr1(instruction)];
  }

  /** jumpToSubroutine(instruction), per the ISA. */
  method JumpToSubroutine(m: Machine, instruction: Word)
    requires m.Valid()
    modifies m.registers
    ensures m.Snapshot() == ExecJsr(old(m.Snapshot()), instruction)
  {
    var temp := m.registers[R_PC];
    if (instruction >> 11) & 0x1 == 1 {
      m.registers[R_PC] := WordAdd(temp, PcOffset11(instruction));
    } else {
      m.registers[R_PC] := m.registers[Sr1(instruction)];
    }
    m.registers[R_R7] := temp;
  }

  /** load(instruction), per the ISA. */
  method Load(m: Machine, instruction: Word)
    requires m.Valid()
    modifies m, m.memory, m.registers
    ensures m.Snapshot() == ExecLd(old(m.Snapshot()), instruction)
  {
    var r0 := Dr(instruction);
    var v := m.MemRead(WordAdd(m.registers[R_PC], PcOffset9(instruction)));
    m.registers[r0] := v;
    m.UpdateFlags(r0);
  }

  /** loadIndirect(instruction), per the ISA. */
  method LoadIndirect(m: Machine, instruction: Word)
    requires m.Valid()
    modifies m, m.memory, m.registers
    ensures m.Snapshot() == ExecLdi(old(m.Snapshot()), instruction)
  {
    var r0 := Dr(instruction);
    var pointer := m.MemRead(WordAdd(m.registers[R_PC], PcOffset9(instruction)));
    var v := m.MemRead(pointer);
    m.registers[r0] := v;
    m.UpdateFlags(r0);
  }

  /** loadRegister(instruction), per the ISA. */
  method LoadRegister(m: Machine, instruction: Word)
    requires m.Valid()
    modifies m, m.memory, m.registers
    ensures m.Snapshot() == ExecLdr(old(m.Snapshot()), instruction)
  {
    var r0 := Dr(instruction);
    var v := m.MemRead(WordAdd(m.registers[Sr1(instruction)], Offset6(instruction)));
    m.registers[r0] := v;
    m.UpdateFlags(r0);
  }

  /** loadEffectiveAddress(instruction), per the ISA. */
  method LoadEffectiveAddress(m: Machine, instruction: Word)
    requires m.Valid()
    modifies m.registers
    ensures m.Snapshot() == ExecLea(old(m.Snapshot()), instruction)
  {
    var r0 := Dr(instruction);
    m.registers[r0] := WordAdd(m.registers[R_PC], PcOffset9(instruction));
    m.UpdateFlags(r0);
  }

  /** store(instruction), per the ISA. */
  method Store(m: Machine, instruction: Word)
    requires m.Valid()
    modifies m.memory
    ensures m.Snapshot() == ExecSt(old(m.Snapshot()), instruction)
  {
    m.MemWrite(WordAdd(m.registers[R_PC], PcOffset9(instruction)), m.registers[Dr(instruction)]);
  }

  /** storeIndirect(instruction), per the ISA. */
  method StoreIndirect(m: Machine, instruction: Word)
    requires m.Valid()
    modifies m, m.memory
    ensures m.Snapshot() == ExecSti(old(m.Snapshot()), instruction)
  {
    var pointer := m.MemRead(WordAdd(m.registers[R_PC], PcOffset9(instruction)));
    m.MemWrite(pointer, m.registers[Dr(instruction)]);
  }

  /** storeRegister(instruction), per the ISA. */
  method StoreRegister(m: Machine, instruction: Word)
    requires m.Valid()
    modifies m.memory
    ensures m.Snapshot() == ExecStr(old(m.Snapshot()), instruction)
  {
    m.MemWrite(WordAdd(m.registers[Sr1(instruction)], Offset6(instruction)), m.registers[Dr(instruction)]);
  }

  /** trap(instruction), per the ISA: R7 := PC; the service routine itself is
      terminal I/O and is reported in the outcome rather than run. */
  method Trap(m: Machine, instruction: Word) returns (outcome: Outcome)
    requires m.Valid()
    modifies m.registers
    ensures (outcome, m.Snapshot()) == ExecTrap(old(m.Snapshot()), instruction)
  {
    m.registers[R_R7] := m.registers[R_PC];
    var vector := instruction & 0xFF;
    var routine := DecodeTrap(vector);
    if routine.Some? {
      outcome := Service(routine.value);
    } else {
      outcome := BadTrap(vector);
    }
  }
}
