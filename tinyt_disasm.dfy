/**
 * The Tiny-T disassembler: it reads the listing the assembler writes, one
 * "address word" line at a time, and prints each word as its mnemonic and
 * hexadecimal operand.
 */
module TinyTDisasm {
  import opened Py
  import opened TinyTIsa
  import opened AsmText
  import opened TinyTAsm

  /** The text `decode` makes of the word `v`: a tab, the upper-case mnemonic and the operand in hex. */
  function InstrText(v: int): string {
    FieldsText(Opcode(v), TinyTIsa.Operand(v))
  }

  /** The text of opcode `op` and operand `x`. */
  function FieldsText(op: nat, x: nat): string
    requires op < 16
  {
    "\t " + Upper(Instr[op]) + " 0x" + HexUpper(x)
  }

  /** `decode(val)`: `int(val)`, then the mnemonic of its opcode field and its operand field. */
  function Decode(val: string): (r: Result<string>)
    ensures r.Ok? <==> ParseInt(val).Ok?
    ensures r.Err? ==> r.error == ValueError(NotAnInteger(val))
    ensures r.Ok? ==> r.value == InstrText(ParseInt(val).value)
  {
    match ParseInt(val)
    case Err(e) => Err(e)
    case Ok(v) => Ok(InstrText(v))
  }

  /** A line `disasm` gets through: an empty one, or one of two fields whose second is an integer. */
  predicate Readable(line: string) {
    line == "" || (|Words(line)| == 2 && ParseInt(Words(line)[1]).Ok?)
  }

  /**
   * One line of `disasm`: an empty line adds nothing; any other line must
   * split into exactly two fields, the address kept as written and the word
   * decoded.
   */
  function DisasmLine(line: string): (r: Result<string>)
    ensures r.Ok? <==> Readable(line)
    ensures line == "" ==> r == Ok("")
    ensures line != "" && |Words(line)| != 2 ==> r == Err(ValueError(WrongFieldCount(line)))
    ensures r.Ok? && line != "" ==> r.value == Words(line)[0] + "\t\t" + Decode(Words(line)[1]).value + "\n"
  {
    if line == "" then Ok("")
    else
      var ws := Words(line);
      if |ws| != 2 then Err(ValueError(WrongFieldCount(line)))
      else match Decode(ws[1])
        case Err(e) => Err(e)
        case Ok(d) => Ok(ws[0] + "\t\t" + d + "\n")
  }

  /** The disassembly of `lines`: the texts of the lines, in order, or the first line's failure. */
  function DisasmLines(lines: seq<string>): (r: Result<string>)
    ensures r.Ok? <==> forall k :: 0 <= k < |lines| ==> Readable(lines[k])
    decreases |lines|
  {
    if lines == [] then Ok("")
    else match DisasmLine(lines[0])
      case Err(e) => Err(e)
      case Ok(t) => Prefixed(t, DisasmLines(lines[1..]))
  }

  /** `done` followed by the text of `r`, or `r`'s failure. */
  function Prefixed(done: string, r: Result<string>): (p: Result<string>)
    ensures p.Ok? <==> r.Ok?
  {
    match r
    case Ok(t) => Ok(done + t)
    case Err(e) => Err(e)
  }

  /** `disasm(program_code)`: the lines of the text, split on newlines, disassembled one by one. */
  method Disasm(programCode: string) returns (r: Result<string>)
    ensures r == DisasmLines(Lines(programCode))
  {
    var lines := Lines(programCode);
    var asmText := "";
    var i := 0;
    PrefixedEmpty(DisasmLines(lines));
    while i < |lines|
      invariant 0 <= i <= |lines|
      invariant Prefixed(asmText, DisasmLines(lines[i..])) == DisasmLines(lines)
    {
      var line := lines[i];
      assert lines[i..][0] == line && lines[i..][1..] == lines[i + 1..];
      if line != "" {
        var ws := Words(line);
        if |ws| != 2 {
          return Err(ValueError(WrongFieldCount(line)));
        }
        var d := Decode(ws[1]);
        if d.Err? {
          return Err(d.error);
        }
        assert DisasmLine(line) == Ok(ws[0] + "\t\t" + d.value + "\n");
        PrefixedAppend(asmText, ws[0] + "\t\t" + d.value + "\n", DisasmLines(lines[i + 1..]));
        asmText := asmText + (ws[0] + "\t\t" + d.value + "\n");
      } else {
        PrefixedEmpty(DisasmLines(lines[i + 1..]));
      }
      i := i + 1;
    }
    assert lines[i..] == [];
    assert asmText + "" == asmText;
    r := Ok(asmText);
  }

  lemma PrefixedEmpty(r: Result<string>)
    ensures Prefixed("", r) == r
  {
    if r.Ok? {
      assert "" + r.value == r.value;
    }
  }

  lemma PrefixedAppend(done: string, t: string, r: Result<string>)
    ensures Prefixed(done, Prefixed(t, r)) == Prefixed(done + t, r)
  {
    if r.Ok? {
      assert done + (t + r.value) == done + t + r.value;
    }
  }

  // ---------------------------------------------------------------------------
  // What the text of a word says

  /** A word that fits sixteen bits shows its own opcode's mnemonic and its own operand. */
  lemma DecodeShowsFields(op: nat, x: nat)
    requires op < 16 && x < OperandModulus
    ensures Decode(Dec(Encode(op, x))) == Ok(FieldsText(op, x))
  {
    DecodeEncode(op, x);
    DecRoundTrip(Encode(op, x));
  }

  /** Only the low sixteen bits of a word show: `int` text of `v` and of `v` mod 0x10000 decode alike. */
  lemma DecodeIgnoresHighBits(v: int)
    ensures Decode(IntText(v)) == Decode(IntText(v % WordModulus))
  {
    IntTextRoundTrip(v);
    IntTextRoundTrip(v % WordModulus);
    assert (v % WordModulus) % WordModulus == v % WordModulus;
    assert (v % WordModulus) % OperandModulus == v % OperandModulus;
  }

  /** The hex literal the disassembler writes for `x`, as the assembler reads it. */
  function HexLiteral(x: nat): string {
    "0x" + Lower(HexUpper(x))
  }

  /**
   * The text of an opcode and an operand reads back, lower-cased as the
   * assembler reads it, as the opcode's mnemonic and a hex literal of the
   * operand.
   */
  lemma FieldsTextReadsBack(op: nat, x: nat)
    requires op < 16
    ensures Words(Lower(FieldsText(op, x))) == [Instr[op], HexLiteral(x)]
  {
    var m := Instr[op];
    var h := Lower(HexUpper(x));
    LowerFieldsText(op, x);
    MnemonicLetters(op);
    assert IsWord("0x" + h) by {
      assert forall k :: 0 <= k < |h| ==> IsHexDigit(h[k]);
    }
    assert Lower(FieldsText(op, x)) == "\t " + m + " " + ("0x" + h) + "";
    WordsOfTwo("\t ", m, " ", "0x" + h, "");
  }

  /** The text of an instruction is one line. */
  lemma FieldsTextOneLine(op: nat, x: nat)
    requires op < 16
    ensures '\n' !in FieldsText(op, x)
  {
    MnemonicLetters(op);
    UpperOneLine(Instr[op]);
    var hu := HexUpper(x);
    assert '\n' !in hu by {
      assert forall k :: 0 <= k < |hu| ==> IsHexDigit(hu[k]);
    }
  }

  lemma UpperOneLine(s: string)
    requires '\n' !in s
    ensures '\n' !in Upper(s)
  {
    forall k | 0 <= k < |s| ensures Upper(s)[k] != '\n' {
      assert s[k] != '\n';
    }
  }

  lemma LowerFieldsText(op: nat, x: nat)
    requires op < 16
    ensures Lower(FieldsText(op, x)) == "\t " + Instr[op] + " 0x" + Lower(HexUpper(x))
  {
    var m := Instr[op];
    var u := Upper(m);
    var hu := HexUpper(x);
    MnemonicLetters(op);
    LowerUpper(m);
    LowerAppend("\t " + u + " 0x", hu);
    LowerAppend("\t " + u, " 0x");
    LowerAppend("\t ", u);
    assert Lower("\t ") == "\t " && Lower(" 0x") == " 0x";
  }

  // ---------------------------------------------------------------------------
  // Disassembling a listing

  /** The line `disasm` prints for the listing line of `addr` and `word`, without its newline. */
  function DisasmText(addr: nat, word: nat): string {
    PaddedAddress(addr) + "\t\t" + InstrText(word)
  }

  function DisasmTexts(pairs: seq<(nat, nat)>): (ls: seq<string>)
    ensures |ls| == |pairs|
    ensures forall k :: 0 <= k < |pairs| ==> ls[k] == DisasmText(pairs[k].0, pairs[k].1)
  {
    seq(|pairs|, k requires 0 <= k < |pairs| => DisasmText(pairs[k].0, pairs[k].1))
  }

  /** A listing disassembles line for line, each address kept zero-padded as the listing wrote it. */
  lemma ListingDisassembles(pairs: seq<(nat, nat)>)
    ensures DisasmLines(Lines(Listing(pairs))) == Ok(Terminated(DisasmTexts(pairs)))
  {
    var ls := OutputLines(pairs);
    forall k | 0 <= k < |ls| ensures '\n' !in ls[k] {
      OutputLineFields(pairs[k].0, pairs[k].1);
    }
    LinesOfTerminated(ls);
    OutputLinesDisassemble(pairs);
  }

  lemma {:induction false} OutputLinesDisassemble(pairs: seq<(nat, nat)>)
    ensures DisasmLines(OutputLines(pairs) + [""]) == Ok(Terminated(DisasmTexts(pairs)))
  {
    var ls := OutputLines(pairs) + [""];
    if pairs == [] {
      assert ls == [""] && ls[1..] == [];
      assert "" + "" == "";
    } else {
      var (a, w) := pairs[0];
      OutputLineWords(a, w);
      DecRoundTrip(w);
      assert ls[0] == OutputLine(a, w) != "";
      assert DisasmLine(ls[0]) == Ok(DisasmText(a, w) + "\n");
      assert ls[1..] == OutputLines(pairs[1..]) + [""];
      OutputLinesDisassemble(pairs[1..]);
      assert DisasmTexts(pairs[1..]) == DisasmTexts(pairs)[1..];
      assert Terminated(DisasmTexts(pairs)) == DisasmText(a, w) + "\n" + Terminated(DisasmTexts(pairs[1..]));
    }
  }

  // ---------------------------------------------------------------------------
  // Reassembling a disassembly

  /**
   * The assembler reads a disassembled line back as the instruction it came
   * from: the zero-padded address is a token it skips, the mnemonic names
   * the opcode and the hex literal the operand.
   */
  lemma ReassembleLine(a: nat, op: nat, x: nat, st: AsmState)
    requires op < 16 && x < OperandModulus
    ensures '\n' !in DisasmText(a, Encode(op, x))
    ensures ParseLine(DisasmText(a, Encode(op, x)), st) == Ok(Emit(st, op, x))
  {
    DisasmTextWords(a, op, x);
    ReassembleTokens(PaddedAddress(a), op, x, st);
  }

  lemma DisasmTextWords(a: nat, op: nat, x: nat)
    requires op < 16 && x < OperandModulus
    ensures '\n' !in DisasmText(a, Encode(op, x))
    ensures IsNumeric(PaddedAddress(a))
    ensures Words(Lower(DisasmText(a, Encode(op, x)))) == [PaddedAddress(a), Instr[op], HexLiteral(x)]
  {
    DecodeEncode(op, x);
    assert InstrText(Encode(op, x)) == FieldsText(op, x);
    PaddedAddressValue(a);
    FieldsTextReadsBack(op, x);
    FieldsTextOneLine(op, x);
    AddressFirst(PaddedAddress(a), FieldsText(op, x));
  }

  /** A numeric field, two tabs and a text: the field is the first word, and no new line is added. */
  lemma AddressFirst(z: string, t: string)
    requires IsNumeric(z) && '\n' !in t
    ensures '\n' !in z + "\t\t" + t
    ensures Words(Lower(z + "\t\t" + t)) == [z] + Words(Lower(t))
  {
    assert forall k :: 0 <= k < |z| ==> IsDigit(z[k]);
    LowerAppend(z + "\t\t", t);
    LowerAppend(z, "\t\t");
    LowerIdle(z);
    assert Lower("\t\t") == "\t\t";
    WordsCons(z, "\t\t", Lower(t));
  }

  /** The tokens of a disassembled line record its instruction. */
  lemma ReassembleTokens(z: string, op: nat, x: nat, st: AsmState)
    requires IsNumeric(z) && op < 16 && x < OperandModulus
    ensures ParseTokens([z, Instr[op], HexLiteral(x)], st, Num(0)) == Ok(Emit(st, op, x))
  {
    var m := Instr[op];
    var hx := HexLiteral(x);
    DigitsAreNoMnemonic(z);
    OtherTokenSkipped(z, [m, hx], st, Num(0));
    assert [z, m, hx] == [z] + [m, hx];
    TokensCons(z, [m, hx], st, Num(0));
    HexInstruction(op, x, st);
  }

  /** A mnemonic followed by a hex literal records that instruction. */
  lemma HexInstruction(op: nat, x: nat, st: AsmState)
    requires op < 16 && x < OperandModulus
    ensures ParseTokens([Instr[op], HexLiteral(x)], st, Num(0)) == Ok(Emit(st, op, x))
  {
    var m := Instr[op];
    var hx := HexLiteral(x);
    MnemonicShape(op);
    HexToken(x, Lower(HexUpper(x)));
    assert [m, hx] == [m] + [hx];
    TokensCons(m, [hx], st, Num(0));
    InstructionEmitsOne(m, [hx], st, Num(0));
    var none: seq<string> := [];
    assert hx != "#" && [hx][1..] == none;
    assert !IsNumeric(hx) by {
      assert hx[1] == 'x';
    }
  }

  /** A run of digits is not a mnemonic, a label, a comment or a directive. */
  lemma DigitsAreNoMnemonic(z: string)
    requires IsNumeric(z)
    ensures z != "" && !EndsWith(z, ':') && z != "#" && !EndsWith(z, '.') && OpcodeOf(z).None?
  {
    forall i | 0 <= i < 16 ensures Instr[i] != z {
      MnemonicLetters(i);
      assert Instr[i][0] != z[0];
    }
    LookupFinds(z, 0);
  }

  /**
   * Disassembling the listing of a program that fits its fields and
   * assembling the result again gives the same listing back.
   */
  lemma Reassembly(prog: seq<(nat, nat)>)
    requires Fits(prog)
    ensures DisasmLines(Lines(Listing(Image(prog, 0, Format)))) == Ok(Terminated(DisasmTexts(Image(prog, 0, Format))))
    ensures Assemble(Terminated(DisasmTexts(Image(prog, 0, Format)))) == Ok(Listing(Image(prog, 0, Format)))
  {
    var img := Image(prog, 0, Format);
    FitsPacks(prog, 0);
    ListingDisassembles(img);
    var ls := DisasmTexts(img);
    forall k | 0 <= k < |ls| ensures '\n' !in ls[k] {
      assert ls[k] == DisasmText(k, Encode(prog[k].0, prog[k].1));
      ReassembleLine(k, prog[k].0, prog[k].1, Start);
    }
    forall k, st | 0 <= k < |ls| ensures ParseLine(ls[k], st) == Ok(Emit(st, prog[k].0, prog[k].1)) {
      assert ls[k] == DisasmText(k, Encode(prog[k].0, prog[k].1));
      ReassembleLine(k, prog[k].0, prog[k].1, st);
    }
    AssembleLines(prog, ls);
  }
}
