/** The decode vocabulary: the sixteen 4-bit operation codes and the six trap
    vectors of the LC-3. */
module Opcodes {

  import opened BitUtilities
  import opened Options

  /** The LC-3 operations, listed in the order of their 4-bit codes. */
  datatype Opcode = BR | ADD | LD | ST | JSR | AND | LDR | STR | RTI | NOT | LDI | STI | JMP | RES | LEA | TRAP

  /** The 4-bit code of each operation, as the LC-3 encodes it. */
  function Code(op: Opcode): (c: Word)
    ensures c < 16
  {
    match op
    case BR => 0
    case ADD => 1
    case LD => 2
    case ST => 3
    case JSR => 4
    case AND => 5
    case LDR => 6
    case STR => 7
    case RTI => 8
    case NOT => 9
    case LDI => 10
    case STI => 11
    case JMP => 12
    case RES => 13
    case LEA => 14
    case TRAP => 15
  }

  /** Every 4-bit value names exactly the operation whose code it is. */
  function Decode(nibble: Word): (op: Opcode)
    requires nibble < 16
    ensures Code(op) == nibble
  {
    if nibble == 0 then BR
    else if nibble == 1 then ADD
    else if nibble == 2 then LD
    else if nibble == 3 then ST
    else if nibble == 4 then JSR
    else if nibble == 5 then AND
    else if nibble == 6 then LDR
    else if nibble == 7 then STR
    else if nibble == 8 then RTI
    else if nibble == 9 then NOT
    else if nibble == 10 then LDI
    else if nibble == 11 then STI
    else if nibble == 12 then JMP
    else if nibble == 13 then RES
    else if nibble == 14 then LEA
    else TRAP
  }

  /** Decoding inverts encoding, so no two operations share a code. */
  lemma DecodeCode(op: Opcode)
    ensures Decode(Code(op)) == op
  {
  }

  /** The two codes that the dispatcher refuses to execute. */
  predicate Unused(op: Opcode)
  {
    op == RTI || op == RES
  }

  /** Exactly the codes 8 (RTI) and 13 (RES) are unused. */
  lemma UnusedCodes(nibble: Word)
    requires nibble < 16
    ensures Unused(Decode(nibble)) <==> nibble == 8 || nibble == 13
  {
  }

  /** The repository's own enumeration: it lists fifteen names from OP_BR = 0
      on and leaves out OP_AND, so every name after OP_JSR sits one below its
      LC-3 code and the value 15 has no name at all. */
  function DeclaredCode(op: Opcode): (c: Option<Word>)
    ensures c.None? <==> op == AND
    ensures c.Some? ==> c.value < 15
  {
    match op
    case BR => Some(0)
    case ADD => Some(1)
    case LD => Some(2)
    case ST => Some(3)
    case JSR => Some(4)
    case AND => None
    case LDR => Some(5)
    case STR => Some(6)
    case RTI => Some(7)
    case NOT => Some(8)
    case LDI => Some(9)
    case STI => Some(10)
    case JMP => Some(11)
    case RES => Some(12)
    case LEA => Some(13)
    case TRAP => Some(14)
  }

  /** Decoding a 4-bit field against the enumeration as declared. */
  function DeclaredDecode(nibble: Word): (op: Option<Opcode>)
    requires nibble < 16
    ensures op.Some? ==> DeclaredCode(op.value) == Some(nibble)
    ensures op.None? <==> nibble == 15
  {
    if nibble < 5 then Some(Decode(nibble))
    else if nibble < 15 then Some(Decode(nibble + 1))
    else None
  }

  /** With the declared enumeration an AND instruction would run as LDR, and
      the trap instruction (code 15, e.g. HALT = 0xF025) would match no case. */
  lemma DeclaredEnumMisroutes()
    ensures DeclaredDecode(0xF025 >> 12) == None && Decode(0xF025 >> 12) == TRAP
    ensures DeclaredDecode(Code(AND)) == Some(LDR)
  {
  }

  /** The six trap services. */
  datatype TrapVector = GETC | OUT | PUTS | IN | PUTSP | HALT

  /** The 8-bit vector of each trap service. */
  function TrapCode(t: TrapVector): (c: Word)
    ensures 0x20 <= c <= 0x25
  {
    match t
    case GETC => 0x20
    case OUT => 0x21
    case PUTS => 0x22
    case IN => 0x23
    case PUTSP => 0x24
    case HALT => 0x25
  }

  /** A trap vector names a service exactly when it lies in 0x20 .. 0x25. */
  function DecodeTrap(v: Word): (t: Option<TrapVector>)
    ensures t.Some? <==> 0x20 <= v <= 0x25
    ensures t.Some? ==> TrapCode(t.value) == v
  {
    if v == 0x20 then Some(GETC)
    else if v == 0x21 then Some(OUT)
    else if v == 0x22 then Some(PUTS)
    else if v == 0x23 then Some(IN)
    else if v == 0x24 then Some(PUTSP)
    else if v == 0x25 then Some(HALT)
    else None
  }

  /** Decoding inverts the vector table, so the six vectors are distinct. */
  lemma DecodeTrapCode(t: TrapVector)
    ensures DecodeTrap(TrapCode(t)) == Some(t)
  {
  }
}
