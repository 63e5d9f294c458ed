/** The machine state of the emulator (word memory, the ten-slot register
    file, the condition flags) and the three primitive operations on it:
    update_flags, mem_write and mem_read with its memory-mapped keyboard. */
module Core {

  import opened BitUtilities

  // Register indices: R0..R7, then the program counter and the condition register.
  const R_R0 := 0
  const R_R1 := 1
  const R_R2 := 2
  const R_R3 := 3
  const R_R4 := 4
  const R_R5 := 5
  const R_R6 := 6
  const R_R7 := 7
  const R_PC := 8
  const R_COND := 9
  const R_COUNT := 10

  // Condition flags, one bit each.
  const FL_POS: Word := 1 << 0
  const FL_ZRO: Word := 1 << 1
  const FL_NEG: Word := 1 << 2

  /** One cell per 16-bit address. */
  const MEMORY_SIZE := 0x1_0000
  /** The length the repository declares for memory (UINT16_MAX). */
  const DECLARED_MEMORY_SIZE := 0xFFFF

  // Memory-mapped keyboard registers (status and data), from the LC-3 memory map.
  const MR_KBSR: Word := 0xFE00
  const MR_KBDR: Word := 0xFE02

  /** Where execution starts. */
  const PC_START: Word := 0x3000

  /** A snapshot of everything the core reads and writes: memory, the register
      file, and the characters waiting on standard input. */
  datatype State = State(memory: seq<Word>, registers: seq<Word>, input: seq<Word>)

  predicate WellFormed(s: State)
  {
    |s.memory| == MEMORY_SIZE && |s.registers| == R_COUNT
  }

  /** Exactly one of the three flags is set. */
  predicate OneFlag(cond: Word)
  {
    cond == FL_POS || cond == FL_ZRO || cond == FL_NEG
  }

  /** The register layout and the flag bits. */
  lemma Layout()
    ensures R_R0 == 0 && R_R7 == 7 && R_PC == 8 && R_COND == 9 && R_COUNT == 10
    ensures FL_POS == 1 && FL_ZRO == 2 && FL_NEG == 4
    ensures FL_POS & FL_ZRO == 0 && FL_POS & FL_NEG == 0 && FL_ZRO & FL_NEG == 0
  {
  }

  /** The condition value for a word just written to a register: ZERO for 0,
      NEGATIVE when bit 15 is set, POSITIVE otherwise, and always exactly one. */
  function FlagsFor(v: Word): (cond: Word)
    ensures OneFlag(cond)
    ensures cond == FL_ZRO <==> v == 0
    ensures cond == FL_NEG <==> v >> 15 == 1
    ensures cond == FL_POS <==> v != 0 && v >> 15 == 0
  {
    if v == 0 then FL_ZRO
    else if v >> 15 == 1 then FL_NEG
    else FL_POS
  }

  /** update_flags as the repository writes it: in the negative branch the
      statement shifts the condition register and discards the result, so the
      old condition value stays. */
  function FlagsAsWritten(v: Word, cond: Word): (r: Word)
    ensures v >> 15 == 0 ==> r == FlagsFor(v)
    ensures v >> 15 == 1 ==> r == cond
  {
    if v == 0 then FL_ZRO
    else if v >> 15 == 1 then cond
    else FL_POS
  }

  /** As written, a negative result keeps whatever flag was set before; the
      intended flag is NEGATIVE. */
  lemma NegativeKeepsStaleFlag(v: Word, cond: Word)
    requires v >> 15 == 1
    ensures FlagsAsWritten(v, cond) == cond
    ensures FlagsFor(v) == FL_NEG
  {
  }

  /** A concrete case: after 0x8000 is written with POSITIVE set, the
      repository's code leaves POSITIVE. */
  lemma StaleFlagExample()
    ensures FlagsAsWritten(0x8000, FL_POS) == FL_POS
    ensures FlagsFor(0x8000) == FL_NEG
  {
  }

  /** Memory as declared has UINT16_MAX cells, so the address 0xFFFF, which a
      uint16_t can hold, indexes past its end; the model's memory covers it. */
  lemma DeclaredMemoryMissesLastAddress()
    ensures !(0xFFFF < DECLARED_MEMORY_SIZE)
    ensures 0xFFFF < MEMORY_SIZE
  {
  }

  /** The state at start-up: memory cleared, R0..R7 zero, PC at PC_START and
      the ZERO flag set. */
  function Initial(input: seq<Word>): (s: State)
    ensures WellFormed(s)
    ensures s.registers[R_PC] == PC_START && s.registers[R_COND] == FL_ZRO && OneFlag(s.registers[R_COND])
    ensures forall a :: 0 <= a < MEMORY_SIZE ==> s.memory[a] == 0
    ensures s.input == input
  {
    State(seq(MEMORY_SIZE, _ => 0),
          seq(R_COUNT, i => if i == R_PC then PC_START else if i == R_COND then FL_ZRO else 0),
          input)
  }

  /** The state after writing v into register r. */
  function WriteRegister(s: State, r: nat, v: Word): (t: State)
    requires WellFormed(s) && r < R_COUNT
    ensures WellFormed(t)
  {
    s.(registers := s.registers[r := v])
  }

  /** The state after update_flags(r). */
  function SetFlags(s: State, r: nat): (t: State)
    requires WellFormed(s) && r < R_COUNT
    ensures WellFormed(t)
  {
    WriteRegister(s, R_COND, FlagsFor(s.registers[r]))
  }

  /** The state after mem_write(address, v). */
  function WriteMemory(s: State, address: Word, v: Word): (t: State)
    requires WellFormed(s)
    ensures WellFormed(t)
  {
    s.(memory := s.memory[address as int := v])
  }

  /** The word mem_read(address) returns and the state after it. Reading the
      keyboard status register polls standard input first: with a character
      pending, the status becomes 0x8000 and the character is latched into the
      keyboard data register; otherwise the status becomes 0. */
  function ReadMemory(s: State, address: Word): (r: (Word, State))
    requires WellFormed(s)
    ensures WellFormed(r.1)
  {
    if address == MR_KBSR then
      var polled :=
        if s.input != [] then
          s.(memory := s.memory[MR_KBSR as int := 0x8000][MR_KBDR as int := s.input[0]], input := s.input[1..])
        else
          s.(memory := s.memory[MR_KBSR as int := 0]);
      (polled.memory[address as int], polled)
    else
      (s.memory[address as int], s)
  }

  /** update_flags changes only the condition register. */
  lemma SetFlagsFrame(s: State, r: nat)
    requires WellFormed(s) && r < R_COUNT
    ensures SetFlags(s, r).registers[R_COND] == FlagsFor(s.registers[r])
    ensures forall i :: 0 <= i < R_COUNT && i != R_COND ==> SetFlags(s, r).registers[i] == s.registers[i]
    ensures SetFlags(s, r).memory == s.memory && SetFlags(s, r).input == s.input
  {
  }

  /** mem_write stores v at the address and changes no other cell. */
  lemma WriteMemoryFrame(s: State, address: Word, v: Word)
    requires WellFormed(s)
    ensures WriteMemory(s, address, v).memory[address as int] == v
    ensures forall a :: 0 <= a < MEMORY_SIZE && a != address as int ==> WriteMemory(s, address, v).memory[a] == s.memory[a]
    ensures WriteMemory(s, address, v).registers == s.registers
  {
    var i := address as int;
    assert 0 <= i < MEMORY_SIZE;
  }

  /** Away from the keyboard status register a read is a plain load that
      changes nothing. */
  lemma ReadPlain(s: State, address: Word)
    requires WellFormed(s)
    requires address != MR_KBSR
    ensures ReadMemory(s, address) == (s.memory[address as int], s)
  {
  }

  /** Reading back a written cell (other than the status register) gives the
      value written. */
  lemma ReadAfterWrite(s: State, address: Word, v: Word)
    requires WellFormed(s)
    requires address != MR_KBSR
    ensures ReadMemory(WriteMemory(s, address, v), address).0 == v
  {
  }

  /** Polling with a character pending sets the status to 0x8000, latches the
      character into the data register and consumes it. */
  lemma ReadStatusPending(s: State)
    requires WellFormed(s)
    requires s.input != []
    ensures ReadMemory(s, MR_KBSR).0 == 0x8000
    ensures ReadMemory(s, MR_KBSR).1.memory[MR_KBSR as int] == 0x8000
    ensures ReadMemory(s, MR_KBSR).1.memory[MR_KBDR as int] == s.input[0]
    ensures ReadMemory(s, MR_KBSR).1.input == s.input[1..]
    ensures ReadMemory(s, MR_KBSR).1.registers == s.registers
    ensures forall a :: 0 <= a < MEMORY_SIZE && a != MR_KBSR as int && a != MR_KBDR as int ==>
      ReadMemory(s, MR_KBSR).1.memory[a] == s.memory[a]
  {
  }

  /** Polling with nothing pending clears the status and leaves the data
      register as it was. */
  lemma ReadStatusIdle(s: State)
    requires WellFormed(s)
    requires s.input == []
    ensures ReadMemory(s, MR_KBSR).0 == 0
    ensures ReadMemory(s, MR_KBSR).1.memory[MR_KBSR as int] == 0
    ensures ReadMemory(s, MR_KBSR).1.memory[MR_KBDR as int] == s.memory[MR_KBDR as int]
    ensures ReadMemory(s, MR_KBSR).1 == s.(memory := s.memory[MR_KBSR as int := 0])
  {
  }

  /** A program that sees the status bit set and then reads the data register
      receives the pending character. */
  lemma KeyboardHandshake(s: State)
    requires WellFormed(s)
    requires s.input != []
    ensures ReadMemory(s, MR_KBSR).0 == 0x8000
    ensures ReadMemory(ReadMemory(s, MR_KBSR).1, MR_KBDR).0 == s.input[0]
  {
  }

  /** The global memory and register arrays, with standard input modelled as
      the queue of characters not yet read. */
  class Machine {
    const memory: array<Word>
    const registers: array<Word>
    var input: seq<Word>

    ghost predicate Valid()
    {
      memory.Length == MEMORY_SIZE && registers.Length == R_COUNT && memory != registers
    }

    ghost function Snapshot(): (s: State)
      reads this, memory, registers
      requires Valid()
      ensures WellFormed(s)
    {
      State(memory[..], registers[..], input)
    }

    /** A machine in its start-up state, given the characters that will
        arrive on standard input. */
    constructor (pending: seq<Word>)
      ensures Valid() && fresh(memory) && fresh(registers)
      ensures Snapshot() == Initial(pending)
    {
      memory := new Word[MEMORY_SIZE](_ => 0);
      registers := new Word[R_COUNT](i => if i == R_PC then PC_START else if i == R_COND then FL_ZRO else 0);
      input := pending;
    }

    /** update_flags(r), with the negative case setting NEGATIVE. */
    method UpdateFlags(r: nat)
      requires Valid() && r < R_COUNT
      modifies registers
      ensures Snapshot() == SetFlags(old(Snapshot()), r)
    {
      if registers[r] == 0 {
        registers[R_COND] := FL_ZRO;
      } else if registers[r] >> 15 == 1 {
        registers[R_COND] := FL_NEG;
      } else {
        registers[R_COND] := FL_POS;
      }
    }

    /** mem_write(address, val). */
    method MemWrite(address: Word, val: Word)
      requires Valid()
      modifies memory
      ensures Snapshot() == WriteMemory(old(Snapshot()), address, val)
    {
      var a := address as int;
      assert 0 <= a < memory.Length;
      memory[a] := val;
      assert memory[..] == old(memory[..])[a := val];
      assert registers[..] == old(registers[..]);
    }

    /** mem_read(address); check_key and getchar act on the input queue. */
    method MemRead(address: Word) returns (v: Word)
      requires Valid()
      modifies this, memory
      ensures (v, Snapshot()) == ReadMemory(old(Snapshot()), address)
    {
      if address == MR_KBSR {
        if input != [] {
          memory[MR_KBSR as int] := 1 << 15;
          memory[MR_KBDR as int] := input[0];
          input := input[1..];
        } else {
          memory[MR_KBSR as int] := 0;
        }
      }
      v := memory[address as int];
    }
  }
}
