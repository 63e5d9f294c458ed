/** The fetch/decode/dispatch step of the emulator (fetchExecute in lc3.c). */
module Lc3 {

  import opened BitUtilities
  import opened Opcodes
  import opened Core
  import opened InstructionSet

  /** The operation of an instruction, named by its top four bits. */
  function OpcodeOf(instruction: Word): (op: Opcode)
    ensures Code(op) == instruction >> 12
  {
    Decode(instruction >> 12)
  }

  /** The fetch: PC is incremented (modulo 2^16) and the word at the old PC
      is read through mem_read. */
  function Fetch(s: State): (r: (Word, State))
    requires WellFormed(s)
    ensures WellFormed(r.1)
  {
    var pc := s.registers[R_PC];
    ReadMemory(WriteRegister(s, R_PC, WordAdd(pc, 1)), pc)
  }

  /** The dispatch: each operation code runs its own handler on the full
      instruction word; RTI and RES abort. */
  function Execute(s: State, instruction: Word): (r: (Outcome, State))
    requires WellFormed(s)
    ensures WellFormed(r.1)
  {
    match OpcodeOf(instruction)
    case ADD => (Continue, ExecAdd(s, instruction))
    case AND => (Continue, ExecAnd(s, instruction))
    case NOT => (Continue, ExecNot(s, instruction))
    case BR => (Continue, ExecBr(s, instruction))
    case JMP => (Continue, ExecJmp(s, instruction))
    case JSR => (Continue, ExecJsr(s, instruction))
    case LD => (Continue, ExecLd(s, instruction))
    case LDI => (Continue, ExecLdi(s, instruction))
    case LDR => (Continue, ExecLdr(s, instruction))
    case LEA => (Continue, ExecLea(s, instruction))
    case ST => (Continue, ExecSt(s, instruction))
    case STI => (Continue, ExecSti(s, instruction))
    case STR => (Continue, ExecStr(s, instruction))
    case TRAP => ExecTrap(s, instruction)
    case RES => (Abort(RES), s)
    case RTI => (Abort(RTI), s)
  }

  /** One fetchExecute: fetch, then dispatch on the fetched word. */
  function Step(s: State): (r: (Outcome, State))
    requires WellFormed(s)
    ensures WellFormed(r.1)
  {
    var f := Fetch(s);
    Execute(f.1, f.0)
  }

  /** The fetch increments PC, reads the word at the old PC, and changes no
      other register; away from the keyboard status register it changes no
      memory either. */
  lemma FetchSemantics(s: State)
    requires WellFormed(s)
    ensures Fetch(s).1.registers[R_PC] == WordAdd(s.registers[R_PC], 1)
    ensures forall i :: 0 <= i < R_COUNT && i != R_PC ==> Fetch(s).1.registers[i] == s.registers[i]
    ensures s.registers[R_PC] != MR_KBSR ==> Fetch(s).0 == s.memory[s.registers[R_PC] as int]
    ensures s.registers[R_PC] != MR_KBSR ==> Fetch(s).1.memory == s.memory && Fetch(s).1.input == s.input
  {
  }

  /** Exactly the unused codes abort, and only TRAP asks for a service
      routine or reports a bad vector. */
  lemma DispatchOutcome(s: State, instruction: Word)
    requires WellFormed(s)
    ensures Execute(s, instruction).0.Abort? <==> Unused(OpcodeOf(instruction))
    ensures Execute(s, instruction).0.Abort? ==> Execute(s, instruction) == (Abort(OpcodeOf(instruction)), s)
    ensures Execute(s, instruction).0.Service? || Execute(s, instruction).0.BadTrap? <==> OpcodeOf(instruction) == TRAP
  {
  }

  /** The ADD code runs the ADD semantics on the fetched word. */
  lemma DispatchAdd(s: State, instruction: Word)
    requires WellFormed(s)
    requires instruction >> 12 == 1
    ensures Execute(s, instruction) == (Continue, ExecAdd(s, instruction))
  {
    assert OpcodeOf(instruction) == ADD;
  }

  /** Every instruction leaves exactly one flag set if one was set before:
      the handlers that write a register set the flag of the written value,
      and the others leave the condition register alone. */
  lemma StepKeepsOneFlag(s: State)
    requires WellFormed(s) && OneFlag(s.registers[R_COND])
    ensures OneFlag(Step(s).1.registers[R_COND])
  {
    var f := Fetch(s);
    FetchSemantics(s);
    ExecuteKeepsOneFlag(f.1, f.0);
  }

  lemma ExecuteKeepsOneFlag(s: State, instruction: Word)
    requires WellFormed(s) && OneFlag(s.registers[R_COND])
    ensures OneFlag(Execute(s, instruction).1.registers[R_COND])
  {
    match OpcodeOf(instruction)
    case ADD =>
    case AND =>
    case NOT =>
    case BR =>
    case JMP =>
    case JSR =>
    case LD => LoadFrame(s, instruction);
    case LDI => LoadFrame(s, instruction);
    case LDR => LoadFrame(s, instruction);
    case LEA =>
    case ST => StoreKeepsFlags(s, instruction);
    case STI => StoreKeepsFlags(s, instruction);
    case STR => StoreKeepsFlags(s, instruction);
    case TRAP =>
    case RES =>
    case RTI =>
  }

  lemma LoadFrame(s: State, instruction: Word)
    requires WellFormed(s)
    ensures OneFlag(ExecLd(s, instruction).registers[R_COND])
    ensures OneFlag(ExecLdi(s, instruction).registers[R_COND])
    ensures OneFlag(ExecLdr(s, instruction).registers[R_COND])
    ensures ExecLd(s, instruction).registers[R_PC] == s.registers[R_PC]
    ensures ExecLdi(s, instruction).registers[R_PC] == s.registers[R_PC]
    ensures ExecLdr(s, instruction).registers[R_PC] == s.registers[R_PC]
  {
  }

  lemma StoreKeepsFlags(s: State, instruction: Word)
    requires WellFormed(s)
    ensures ExecSt(s, instruction).registers == s.registers
    ensures ExecSti(s, instruction).registers == s.registers
    ensures ExecStr(s, instruction).registers == s.registers
  {
  }

  /** Every operation except BR, JMP and JSR leaves PC at the word after the
      instruction. */
  lemma SequentialPc(s: State)
    requires WellFormed(s)
    requires OpcodeOf(Fetch(s).0) !in {BR, JMP, JSR}
    ensures Step(s).1.registers[R_PC] == WordAdd(s.registers[R_PC], 1)
  {
    FetchSemantics(s);
    ExecuteKeepsPc(Fetch(s).1, Fetch(s).0);
  }

  lemma ExecuteKeepsPc(s: State, instruction: Word)
    requires WellFormed(s)
    requires OpcodeOf(instruction) !in {BR, JMP, JSR}
    ensures Execute(s, instruction).1.registers[R_PC] == s.registers[R_PC]
  {
    match OpcodeOf(instruction)
    case ADD =>
    case AND =>
    case NOT =>
    case LD => LoadFrame(s, instruction);
    case LDI => LoadFrame(s, instruction);
    case LDR => LoadFrame(s, instruction);
    case LEA =>
    case ST => StoreKeepsFlags(s, instruction);
    case STI => StoreKeepsFlags(s, instruction);
    case STR => StoreKeepsFlags(s, instruction);
    case TRAP =>
    case RES =>
    case RTI =>
  }

  /** An RTI or RES instruction aborts after the fetch, with nothing else
      changed. */
  lemma UnusedAborts(s: State)
    requires WellFormed(s)
    requires Unused(OpcodeOf(Fetch(s).0))
    ensures Step(s) == (Abort(OpcodeOf(Fetch(s).0)), Fetch(s).1)
  {
  }

  /** HALT (0xF025) at PC asks for the HALT routine and links R7 to the
      following word. */
  lemma HaltStep(s: State)
    requires WellFormed(s)
    requires s.registers[R_PC] != MR_KBSR && s.memory[s.registers[R_PC] as int] == 0xF025
    ensures Step(s).0 == Service(HALT)
    ensures Step(s).1.registers[R_R7] == WordAdd(s.registers[R_PC], 1)
  {
    FetchSemantics(s);
    assert OpcodeOf(0xF025) == TRAP;
    HaltTrap(Fetch(s).1);
  }

  /** fetchExecute on the machine. */
  method FetchExecute(m: Machine) returns (outcome: Outcome)
    requires m.Valid()
    modifies m, m.memory, m.registers
    ensures (outcome, m.Snapshot()) == Step(old(m.Snapshot()))
  {
    var pc := m.registers[R_PC];
    m.registers[R_PC] := WordAdd(pc, 1);
    var instruction := m.MemRead(pc);
    var opcode := instruction >> 12;
    outcome := Continue;
    match Decode(opcode) {
      case ADD => Add(m, instruction);
      case AND => And(m, instruction);
      case NOT => Not(m, instruction);
      case BR => Branch(m, instruction);
      case JMP => Jump(m, instruction);
      case JSR => JumpToSubroutine(m, instruction);
      case LD => Load(m, instruction);
      case LDI => LoadIndirect(m, instruction);
      case LDR => LoadRegister(m, instruction);
      case LEA => LoadEffectiveAddress(m, instruction);
      case ST => Store(m, instruction);
      case STI => StoreIndirect(m, instruction);
      case STR => StoreRegister(m, instruction);
      case TRAP => outcome := Trap(m, instruction);
      case RES => outcome := Abort(RES);
      case RTI => outcome := Abort(RTI);
    }
  }
}
