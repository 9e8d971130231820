/**
 * The Tiny-T instruction encoding shared by the CPU, the assembler and the
 * disassembler: a 16-bit word whose top four bits are the opcode and whose
 * low twelve bits are the operand, and the table of the sixteen mnemonics.
 */
module TinyTIsa {
  import opened Py

  /** The assembler's mnemonic table.  The halt mnemonic is spelled `htl`. */
  const OpcodeTable: map<string, nat> := map[
    "htl" := 0x0, "lda" := 0x1, "sta" := 0x2, "add" := 0x3,
    "sub" := 0x4, "and" := 0x5, "or" := 0x6, "xor" := 0x7,
    "not" := 0x8, "shl" := 0x9, "shr" := 0xA, "bra" := 0xB,
    "brp" := 0xC, "brz" := 0xD, "inp" := 0xE, "out" := 0xF
  ]

  /** The disassembler's mnemonic list, indexed by opcode. */
  const Instr: seq<string> := [
    "htl", "lda", "sta", "add", "sub", "and", "or", "xor",
    "not", "shl", "shr", "bra", "brp", "brz", "inp", "out"
  ]

  const WordModulus: nat := 0x1_0000
  const OperandModulus: nat := 0x1000

  /**
   * The opcode field, `(instr & 0xF000) >> 12`.  Python's `&` on a negative
   * int acts on its two's-complement bits, which `%` reproduces.
   */
  function Opcode(instr: int): (op: nat)
    ensures op < 16
    ensures 0 <= instr < WordModulus ==> op == instr / OperandModulus
  {
    (instr % WordModulus) / OperandModulus
  }

  /** The operand field, `instr & 0x0FFF`. */
  function Operand(instr: int): (x: nat)
    ensures x < OperandModulus
    ensures 0 <= instr < OperandModulus ==> x == instr
  {
    instr % OperandModulus
  }

  /** The word the assembler builds, `(opcode << 12) + operand`. */
  function Encode(opcode: nat, operand: nat): nat {
    opcode * OperandModulus + operand
  }

  /** Splitting a word and packing the fields again gives the word back. */
  lemma EncodeDecode(instr: int)
    requires 0 <= instr < WordModulus
    ensures Opcode(instr) < 16 && Operand(instr) < OperandModulus
    ensures Encode(Opcode(instr), Operand(instr)) == instr
  {
  }

  /** Packing an opcode and an operand that fit their fields and splitting the word gives them back. */
  lemma DecodeEncode(opcode: nat, operand: nat)
    requires opcode < 16 && operand < OperandModulus
    ensures Encode(opcode, operand) < WordModulus
    ensures Opcode(Encode(opcode, operand)) == opcode
    ensures Operand(Encode(opcode, operand)) == operand
  {
    var w := Encode(opcode, operand);
    assert w < WordModulus;
    assert w % WordModulus == w;
    assert w / OperandModulus == opcode;
    assert w % OperandModulus == operand;
  }

  /**
   * An operand wider than twelve bits spills into the opcode field: the
   * word names the opcode plus the operand's high bits.
   */
  lemma OperandSpills(opcode: nat, operand: nat)
    requires opcode < 16 && Encode(opcode, operand) < WordModulus
    ensures Opcode(Encode(opcode, operand)) == opcode + operand / OperandModulus
    ensures Operand(Encode(opcode, operand)) == operand % OperandModulus
  {
    var w := Encode(opcode, operand);
    assert w % WordModulus == w;
    assert w == (opcode + operand / OperandModulus) * OperandModulus + operand % OperandModulus;
  }

  /** The table maps the sixteen mnemonics one-to-one onto 0..15. */
  lemma OpcodeTableBijective()
    ensures forall m :: m in OpcodeTable ==> OpcodeTable[m] < 16
    ensures forall m1, m2 :: m1 in OpcodeTable && m2 in OpcodeTable && OpcodeTable[m1] == OpcodeTable[m2] ==> m1 == m2
    ensures forall op :: 0 <= op < 16 ==> Instr[op] in OpcodeTable && OpcodeTable[Instr[op]] == op
  {
    forall m | m in OpcodeTable ensures OpcodeTable[m] < 16 && Instr[OpcodeTable[m]] == m {
      MnemonicRoundTrip(m);
    }
  }

  /** The disassembler's list names every mnemonic at its own opcode. */
  lemma MnemonicRoundTrip(m: string)
    requires m in OpcodeTable
    ensures OpcodeTable[m] < |Instr| && Instr[OpcodeTable[m]] == m
  {
  }

  /** The entry of `OPCODE_TABLE` for `tok`, found by searching the mnemonics from opcode `k` on. */
  function Lookup(tok: string, k: nat): Option<nat>
    decreases 16 - k
  {
    if k >= 16 then None else if Instr[k] == tok then Some(k) else Lookup(tok, k + 1)
  }

  /** `OPCODE_TABLE.get(tok)` */
  function OpcodeOf(tok: string): Option<nat> {
    Lookup(tok, 0)
  }

  lemma {:induction false} LookupFinds(tok: string, k: nat)
    ensures Lookup(tok, k).Some? ==> k <= Lookup(tok, k).value < 16 && Instr[Lookup(tok, k).value] == tok
    ensures Lookup(tok, k).None? ==> forall i :: k <= i < 16 ==> Instr[i] != tok
    decreases 16 - k
  {
    if k < 16 && Instr[k] != tok {
      LookupFinds(tok, k + 1);
    }
  }

  /** The search agrees with the table: it finds exactly the mnemonics, at their opcodes. */
  lemma OpcodeOfTable(tok: string)
    ensures OpcodeOf(tok) == if tok in OpcodeTable then Some(OpcodeTable[tok]) else None
  {
    LookupFinds(tok, 0);
    OpcodeTableBijective();
    if tok in OpcodeTable {
      MnemonicRoundTrip(tok);
    }
  }

  /** `hlt` is not a mnemonic: the table spells halt `htl`. */
  lemma HaltSpelling()
    ensures "htl" in OpcodeTable && OpcodeTable["htl"] == 0
    ensures "hlt" !in OpcodeTable
  {
  }
}
