/**
 * The Tiny-T assembler.  Each source line is lower-cased and split on white
 * space; a token is a label (`name:`), a comment (`#`), a directive
 * (`name.`, of which only `org.` does anything), one of the sixteen
 * mnemonics followed by its operand, or ignored.  Every instruction becomes
 * one record at the current address, and the fix-up pass resolves deferred
 * names against the final symbol table and writes the "address word"
 * listing.
 *
 * `ParseTokens`, `ParseLines` and `FixupPairs` say what parsing and fixing
 * up compute; the `Assembler` class does it in place, popping tokens from
 * its lexer, and is proved to agree with them.
 */
module TinyTAsm {
  import opened Py
  import opened TinyTIsa
  import opened AsmText

  /** `is_hex(tok)`: a `0x`/`0X` prefix, and `int(rest, 16)` accepts the rest. */
  predicate IsHex(tok: string) {
    (StartsWith(tok, "0x") || StartsWith(tok, "0X")) && HexInt(tok[2..]).Some?
  }

  /** The value `int(tok[2:], 16)` of a hex token. */
  function HexOperand(tok: string): int
    requires IsHex(tok)
  {
    HexInt(tok[2..]).value
  }

  /** `from_hex(tok)`: the value of a hex token as decimal text; anything else raises. */
  function FromHex(tok: string): (r: Result<string>)
    ensures r.Ok? <==> IsHex(tok)
    ensures r.Err? ==> r.error == ValueError(NotHex(tok))
  {
    if IsHex(tok) then Ok(IntText(HexOperand(tok))) else Err(ValueError(NotHex(tok)))
  }

  // ---------------------------------------------------------------------------
  // Parsing

  /**
   * The operand an instruction records for the token `x` after its
   * mnemonic: a decimal literal, a hex literal, a known label's address, an
   * unknown name (deferred), 0 for a comment, or else the operand recorded
   * last on this line.
   */
  function InstrOperand(x: string, symbols: map<string, nat>, prev: Operand): Operand {
    if IsNumeric(x) then Num(DecValue(x))
    else if IsHex(x) then Num(HexOperand(x))
    else if IsAlnum(x) then (if x in symbols then Num(symbols[x]) else Name(x))
    else if StartsWith(x, "#") then Num(0)
    else prev
  }

  /**
   * The tokens of one line, from state `st`, with `operand` the operand the
   * line last recorded.
   */
  function ParseTokens(toks: seq<string>, st: AsmState, operand: Operand): Result<AsmState>
    decreases |toks|, 2
  {
    if toks == [] then Ok(st) else ParseToken(toks[0], toks[1..], st, operand)
  }

  /** The token `tok`, followed by the tokens `rest`. */
  function ParseToken(tok: string, rest: seq<string>, st: AsmState, operand: Operand): Result<AsmState>
    decreases |rest| + 1, 1
  {
    if tok == "" then Ok(st)
    else if EndsWith(tok, ':') then
      ParseTokens(rest, st.(symbols := st.symbols[tok[..|tok| - 1] := st.addr]), operand)
    else if tok == "#" then Ok(st)
    else if EndsWith(tok, '.') then
      if tok[..|tok| - 1] != "org" then ParseTokens(rest, st, operand) else Origin(rest, st)
    else if OpcodeOf(tok).Some? then Instruction(OpcodeOf(tok).value, rest, st, operand)
    else ParseTokens(rest, st, operand)
  }

  /**
   * `org.` followed by `rest`: a decimal operand sets the address, a hex
   * operand is read and dropped, anything else raises; a missing one is
   * Python's `None.isnumeric()`, the AttributeError.  The line ends here.
   */
  function Origin(rest: seq<string>, st: AsmState): Result<AsmState> {
    if rest == [] then Err(AttributeError)
    else if IsNumeric(rest[0]) then Ok(st.(addr := DecValue(rest[0])))
    else if IsHex(rest[0]) then Ok(st)
    else Err(ValueError(IllegalOrigin(rest[0])))
  }

  /**
   * The instruction `opcode` followed by `rest`: one record at the current
   * address, with the operand the next token gives, and the address
   * advances; a `#` operand also ends the line.
   */
  function Instruction(opcode: nat, rest: seq<string>, st: AsmState, operand: Operand): Result<AsmState>
    decreases |rest| + 1, 0
  {
    if rest == [] then Err(AttributeError)
    else
      var o := InstrOperand(rest[0], st.symbols, operand);
      var st' := st.(addr := st.addr + 1, code := st.code + [Record(st.addr, opcode, o)]);
      if rest[0] == "#" then Ok(st') else ParseTokens(rest[1..], st', o)
  }

  /** One source line: lower-cased, split, and parsed with the operand reset to 0. */
  function ParseLine(line: string, st: AsmState): Result<AsmState> {
    ParseTokens(Words(Lower(line)), st, Num(0))
  }

  /** The lines in order, stopping at the first exception. */
  function ParseLines(lines: seq<string>, st: AsmState): Result<AsmState>
    decreases |lines|
  {
    if lines == [] then Ok(st)
    else match ParseLine(lines[0], st)
      case Err(e) => Err(e)
      case Ok(st') => ParseLines(lines[1..], st')
  }

  /** Continue with `lines` after a parsing step that ended in `r`. */
  function Then(r: Result<AsmState>, lines: seq<string>): Result<AsmState> {
    match r
    case Err(e) => Err(e)
    case Ok(st) => ParseLines(lines, st)
  }

  // ---------------------------------------------------------------------------
  // Fixing up

  /** Tiny-T packs a record as `(opcode << 12) + operand` and refuses a word above 0xFFFF. */
  const Format: WordFormat := WordFormat(OperandModulus, 0xFFFF)

  /** `parse()` of `lines` from state `st`: parse every line, then fix up. */
  function Assembled(lines: seq<string>, st: AsmState): Result<string> {
    match ParseLines(lines, st)
    case Err(e) => Err(e)
    case Ok(st') => FixupText(st', Format)
  }

  /** A new assembler for `text`, parsed. */
  function Assemble(text: string): Result<string> {
    Assembled(Lines(text), Start)
  }

  // ---------------------------------------------------------------------------
  // What one token does

  /** `ParseTokens` takes the first token off the line. */
  lemma TokensCons(t: string, rest: seq<string>, st: AsmState, operand: Operand)
    ensures ParseTokens([t] + rest, st, operand) == ParseToken(t, rest, st, operand)
  {
    assert ([t] + rest)[0] == t && ([t] + rest)[1..] == rest;
  }

  /** What is left of a line once `tok` has been popped from the lexer and `rest` remains in it. */
  function ParsePending(tok: Option<string>, rest: seq<string>, st: AsmState, operand: Operand): Result<AsmState> {
    if tok.Some? then ParseToken(tok.value, rest, st, operand) else Ok(st)
  }

  lemma PendingTokens(tok: Option<string>, rest: seq<string>, st: AsmState, operand: Operand)
    requires tok.None? ==> rest == []
    ensures ParseTokens(Pending(tok, rest), st, operand) == ParsePending(tok, rest, st, operand)
  {
    if tok.Some? {
      TokensCons(tok.value, rest, st, operand);
    }
  }

  /** A label binds its name to the current address, which does not advance. */
  lemma LabelBinds(t: string, rest: seq<string>, st: AsmState, operand: Operand)
    requires EndsWith(t, ':')
    ensures ParseToken(t, rest, st, operand) == ParseTokens(rest, st.(symbols := st.symbols[t[..|t| - 1] := st.addr]), operand)
  {
  }

  /**
   * A mnemonic records one instruction at the current address, with the
   * operand its next token gives, and advances the address by one; a `#`
   * operand also ends the line, and a missing one raises.
   */
  lemma InstructionEmitsOne(t: string, rest: seq<string>, st: AsmState, operand: Operand)
    requires OpcodeOf(t).Some?
    ensures ParseToken(t, rest, st, operand) ==
      if rest == [] then Err(AttributeError)
      else
        var o := InstrOperand(rest[0], st.symbols, operand);
        var st' := st.(addr := st.addr + 1, code := st.code + [Record(st.addr, OpcodeOf(t).value, o)]);
        if rest[0] == "#" then Ok(st') else ParseTokens(rest[1..], st', o)
  {
    MnemonicIsPlain(t);
  }

  /** A mnemonic is no label, comment or directive. */
  lemma MnemonicIsPlain(t: string)
    requires OpcodeOf(t).Some?
    ensures t != "" && !EndsWith(t, ':') && t != "#" && !EndsWith(t, '.')
  {
    LookupFinds(t, 0);
    MnemonicLetters(OpcodeOf(t).value);
  }

  /** A token that is no label, comment, `org.` or mnemonic is skipped: other directives, `hlt`, stray words. */
  lemma OtherTokenSkipped(t: string, rest: seq<string>, st: AsmState, operand: Operand)
    requires t != "" && !EndsWith(t, ':') && t != "#"
    requires if EndsWith(t, '.') then t[..|t| - 1] != "org" else OpcodeOf(t).None?
    ensures ParseToken(t, rest, st, operand) == ParseTokens(rest, st, operand)
  {
  }

  /** A lone `#` ends the line, whatever follows it. */
  lemma CommentEndsLine(rest: seq<string>, st: AsmState, operand: Operand)
    ensures ParseToken("#", rest, st, operand) == Ok(st)
  {
  }

  /**
   * `org.` ends the line: a decimal operand sets the address, a hex operand
   * is read and dropped, anything else raises, and a missing one is the
   * AttributeError.
   */
  lemma OrgDirective(t: string, rest: seq<string>, st: AsmState, operand: Operand)
    requires EndsWith(t, '.') && t[..|t| - 1] == "org"
    ensures ParseToken(t, rest, st, operand) ==
      if rest == [] then Err(AttributeError)
      else if IsNumeric(rest[0]) then Ok(st.(addr := DecValue(rest[0])))
      else if IsHex(rest[0]) then Ok(st)
      else Err(ValueError(IllegalOrigin(rest[0])))
  {
  }

  /** `hlt`, the spelling of the halt mnemonic in the documentation, is no mnemonic: it is passed over. */
  lemma HltIsSkipped(rest: seq<string>, st: AsmState, operand: Operand)
    ensures ParseTokens(["hlt"] + rest, st, operand) == ParseTokens(rest, st, operand)
  {
    HaltSpelling();
    OpcodeOfTable("hlt");
    OtherTokenSkipped("hlt", rest, st, operand);
    TokensCons("hlt", rest, st, operand);
  }

  /** A decimal origin moves the address counter; a hex origin is read and has no effect. */
  lemma OriginOperand(x: string, rest: seq<string>, st: AsmState, operand: Operand)
    requires IsNumeric(x) || IsHex(x)
    ensures IsNumeric(x) ==> ParseTokens(["org.", x] + rest, st, operand) == Ok(st.(addr := DecValue(x)))
    ensures IsHex(x) ==> ParseTokens(["org.", x] + rest, st, operand) == Ok(st)
  {
    var t := "org.";
    assert t[..|t| - 1] == "org";
    OrgDirective(t, [x] + rest, st, operand);
    assert ["org.", x] + rest == [t] + ([x] + rest);
    TokensCons(t, [x] + rest, st, operand);
    if IsHex(x) {
      assert x[1] == 'x' || x[1] == 'X' by {
        assert x[..2][1] == x[1];
      }
      assert !IsDigit(x[1]);
    }
  }

  /**
   * An alphanumeric name that is not yet a label is recorded by name; the
   * fix-up pass gives it the final table's address, or raises for a name
   * that was never defined.  A label defined before its use is resolved at
   * once.
   */
  lemma NameOperand(x: string, symbols: map<string, nat>, prev: Operand, a: nat, op: nat, final: map<string, nat>)
    requires IsAlnum(x) && !IsNumeric(x) && !StartsWith(x, "0x") && !StartsWith(x, "0X")
    ensures x in symbols ==> InstrOperand(x, symbols, prev) == Num(symbols[x])
    ensures x !in symbols ==> InstrOperand(x, symbols, prev) == Name(x)
    ensures x !in final ==> FixupRecord(Record(a, op, Name(x)), final, Format) == Err(ValueError(UndefinedSymbol(x)))
    ensures x in final && Encode(op, final[x]) < WordModulus ==>
      FixupRecord(Record(a, op, Name(x)), final, Format) == Ok((a, Encode(op, final[x])))
  {
  }

  /**
   * An operand of 0x1000 or more is refused only when the word exceeds
   * 0xFFFF; otherwise it spills into the opcode field, and the word names
   * another instruction.
   */
  lemma WideOperand(a: nat, op: nat, x: nat, symbols: map<string, nat>)
    requires op < 16 && x >= OperandModulus
    ensures Encode(op, x) < WordModulus ==>
      FixupRecord(Record(a, op, Num(x)), symbols, Format) == Ok((a, Encode(op, x))) && Opcode(Encode(op, x)) != op
    ensures Encode(op, x) >= WordModulus ==>
      FixupRecord(Record(a, op, Num(x)), symbols, Format) == Err(ValueError(IllegalMachineCode(Encode(op, x))))
  {
    if Encode(op, x) < WordModulus {
      OperandSpills(op, x);
    }
  }

  /** `from_hex` writes the hex token's value as decimal text that `int` reads back. */
  lemma FromHexRoundTrip(tok: string)
    requires IsHex(tok)
    ensures FromHex(tok).Ok? && ParseInt(FromHex(tok).value) == Ok(HexOperand(tok))
  {
    IntTextRoundTrip(HexOperand(tok));
  }

  /** `0x` followed by a number's hex digits, in either case, is a hex token of that value. */
  lemma HexToken(n: nat, digits: string)
    requires digits == HexUpper(n) || digits == Lower(HexUpper(n))
    ensures IsHex("0x" + digits) && HexOperand("0x" + digits) == n
  {
    var t := "0x" + digits;
    assert t[..2] == "0x" && t[2..] == digits;
    HexRoundTrip(n);
    HexValueLower(HexUpper(n));
  }

  // ---------------------------------------------------------------------------
  // What parsing a whole line or text does

  /**
   * Parsing only appends: the earlier records stay, every label stays
   * bound, and without an `org.` token the new records sit at consecutive
   * addresses from the counter, which ends just past them.
   */
  lemma {:induction false} ParseTokensGrows(toks: seq<string>, st: AsmState, operand: Operand)
    requires ParseTokens(toks, st, operand).Ok?
    ensures var st' := ParseTokens(toks, st, operand).value;
      && st.code <= st'.code
      && st.symbols.Keys <= st'.symbols.Keys
      && ("org." !in toks ==>
            && st'.addr == st.addr + (|st'.code| - |st.code|)
            && forall k :: |st.code| <= k < |st'.code| ==> st'.code[k].addr == st.addr + (k - |st.code|))
    decreases |toks|
  {
    if toks != [] {
      var tok := toks[0];
      var rest := toks[1..];
      assert ParseTokens(toks, st, operand) == ParseToken(tok, rest, st, operand);
      assert "org." !in toks ==> "org." !in rest by {
        assert forall k :: 0 <= k < |rest| ==> rest[k] == toks[k + 1];
      }
      if tok == "" {
      } else if EndsWith(tok, ':') {
        LabelBinds(tok, rest, st, operand);
        ParseTokensGrows(rest, st.(symbols := st.symbols[tok[..|tok| - 1] := st.addr]), operand);
      } else if tok == "#" {
        CommentEndsLine(rest, st, operand);
      } else if EndsWith(tok, '.') && tok[..|tok| - 1] == "org" {
        assert tok == tok[..|tok| - 1] + "." == "org.";
        assert "org." in toks by {
          assert toks[0] == tok;
        }
        OrgDirective(tok, rest, st, operand);
      } else if EndsWith(tok, '.') || OpcodeOf(tok).None? {
        OtherTokenSkipped(tok, rest, st, operand);
        ParseTokensGrows(rest, st, operand);
      } else {
        InstructionEmitsOne(tok, rest, st, operand);
        GrowsByInstruction(OpcodeOf(tok).value, rest, st, operand);
      }
    }
  }

  lemma {:induction false} GrowsByInstruction(opcode: nat, rest: seq<string>, st: AsmState, operand: Operand)
    requires Instruction(opcode, rest, st, operand).Ok?
    ensures var st' := Instruction(opcode, rest, st, operand).value;
      && st.code <= st'.code
      && st.symbols.Keys <= st'.symbols.Keys
      && ("org." !in rest ==>
            && st'.addr == st.addr + (|st'.code| - |st.code|)
            && forall k :: |st.code| <= k < |st'.code| ==> st'.code[k].addr == st.addr + (k - |st.code|))
    decreases |rest|
  {
    var o := InstrOperand(rest[0], st.symbols, operand);
    var st1 := st.(addr := st.addr + 1, code := st.code + [Record(st.addr, opcode, o)]);
    if rest[0] != "#" {
      assert "org." !in rest ==> "org." !in rest[1..] by {
        assert forall k :: 0 <= k < |rest[1..]| ==> rest[1..][k] == rest[k + 1];
      }
      ParseTokensGrows(rest[1..], st1, o);
    }
  }

  /** No line of the text holds an `org.` directive. */
  predicate NoOrigin(lines: seq<string>) {
    forall k :: 0 <= k < |lines| ==> "org." !in Words(Lower(lines[k]))
  }

  /**
   * Without `org.`, a text parsed from a dense state leaves a dense state:
   * the records sit at 0, 1, 2, ... in source order, and the earlier ones
   * are kept.
   */
  lemma {:induction false} ParseLinesDense(lines: seq<string>, st: AsmState)
    requires Dense(st) && NoOrigin(lines) && ParseLines(lines, st).Ok?
    ensures st.code <= ParseLines(lines, st).value.code
    ensures Dense(ParseLines(lines, st).value)
    decreases |lines|
  {
    if lines != [] {
      ParseTokensGrows(Words(Lower(lines[0])), st, Num(0));
      var st1 := ParseLine(lines[0], st).value;
      assert Dense(st1);
      assert NoOrigin(lines[1..]) by {
        assert forall k :: 0 <= k < |lines[1..]| ==> lines[1..][k] == lines[k + 1];
      }
      ParseLinesDense(lines[1..], st1);
    }
  }

  // ---------------------------------------------------------------------------
  // Assembling a program written one instruction per line

  /** The line `<mnemonic> <operand>` for opcode `op` and the decimal operand `x`. */
  function SourceLine(op: nat, x: nat): string
    requires op < 16
  {
    Instr[op] + " " + Dec(x)
  }

  /** Each instruction fits its fields: an opcode below 16, an operand below 0x1000. */
  predicate Fits(prog: seq<(nat, nat)>) {
    forall k :: 0 <= k < |prog| ==> prog[k].0 < 16 && prog[k].1 < OperandModulus
  }

  function SourceLines(prog: seq<(nat, nat)>): (ls: seq<string>)
    requires Fits(prog)
    ensures |ls| == |prog|
  {
    seq(|prog|, k requires 0 <= k < |prog| => SourceLine(prog[k].0, prog[k].1))
  }

  /** A program that fits the fields packs into Tiny-T words, each its instruction's `Encode`. */
  lemma FitsPacks(prog: seq<(nat, nat)>, a: nat)
    requires Fits(prog)
    ensures Packs(prog, Format)
    ensures forall k :: 0 <= k < |prog| ==> Image(prog, a, Format)[k] == (a + k, Encode(prog[k].0, prog[k].1))
  {
    forall k | 0 <= k < |prog| ensures prog[k].0 * OperandModulus + prog[k].1 <= 0xFFFF {
      assert prog[k].0 <= 15;
      assert prog[k].0 * OperandModulus <= 15 * OperandModulus;
    }
  }

  /** Every mnemonic is a word of lower-case letters. */
  lemma MnemonicLetters(op: nat)
    requires op < 16
    ensures IsWord(Instr[op])
    ensures forall k :: 0 <= k < |Instr[op]| ==> 'a' <= Instr[op][k] <= 'z'
  {
  }

  /** Every mnemonic is a word of lower-case letters, bound to its own opcode. */
  lemma MnemonicShape(op: nat)
    requires op < 16
    ensures IsWord(Instr[op]) && OpcodeOf(Instr[op]) == Some(op)
    ensures forall k :: 0 <= k < |Instr[op]| ==> 'a' <= Instr[op][k] <= 'z'
  {
    MnemonicLetters(op);
    OpcodeTableBijective();
    OpcodeOfTable(Instr[op]);
  }

  /** A source line records its instruction at the current address and advances it. */
  lemma ParseSourceLine(op: nat, x: nat, st: AsmState)
    requires op < 16
    ensures '\n' !in SourceLine(op, x)
    ensures ParseLine(SourceLine(op, x), st) == Ok(Emit(st, op, x))
  {
    var m := Instr[op];
    var d := Dec(x);
    MnemonicShape(op);
    var line := SourceLine(op, x);
    assert line == m + " " + d;
    assert forall k :: 0 <= k < |line| ==> line[k] == ' ' || 'a' <= line[k] <= 'z' || IsDigit(line[k]);
    LowerIdle(line);
    assert IsWord(d) by {
      assert forall k :: 0 <= k < |d| ==> IsDigit(d[k]);
    }
    assert line == "" + m + " " + d + "";
    WordsOfTwo("", m, " ", d, "");
    InstructionEmitsOne(m, [d], st, Num(0));
    TokensCons(m, [d], st, Num(0));
    DecRoundTrip(x);
    assert d != "#";
    assert [d][1..] == [];
  }

  /** Each line of `ls` records the instruction of `prog` at the same index, from any state. */
  ghost predicate EmitsEach(ls: seq<string>, prog: seq<(nat, nat)>) {
    |ls| == |prog| && forall k, st :: 0 <= k < |ls| ==> ParseLine(ls[k], st) == Ok(Emit(st, prog[k].0, prog[k].1))
  }

  lemma {:induction false} ParseProgram(prog: seq<(nat, nat)>, ls: seq<string>, st: AsmState)
    requires EmitsEach(ls, prog)
    ensures ParseLines(ls + [""], st) == Ok(Emitted(prog, st))
    decreases |prog|
  {
    if prog == [] {
      ParseEmptyLine(st);
      assert ls + [""] == [""];
      assert st.code + Placed(prog, st.addr) == st.code;
    } else {
      ParseFirstLine(prog, ls, st);
      ParseProgram(prog[1..], ls[1..], Emit(st, prog[0].0, prog[0].1));
      EmittedCons(prog, st);
    }
  }

  /** The empty line a newline-terminated text ends with changes nothing. */
  lemma ParseEmptyLine(st: AsmState)
    ensures ParseLines([""], st) == Ok(st)
  {
    assert [""][1..] == [];
    assert Words(Lower("")) == [];
  }

  lemma ParseFirstLine(prog: seq<(nat, nat)>, ls: seq<string>, st: AsmState)
    requires EmitsEach(ls, prog) && prog != []
    ensures EmitsEach(ls[1..], prog[1..])
    ensures ParseLines(ls + [""], st) == ParseLines(ls[1..] + [""], Emit(st, prog[0].0, prog[0].1))
  {
    var all := ls + [""];
    assert all[0] == ls[0];
    assert all[1..] == ls[1..] + [""];
    assert ParseLine(ls[0], st) == Ok(Emit(st, prog[0].0, prog[0].1));
    forall k, st' | 0 <= k < |ls[1..]|
      ensures ParseLine(ls[1..][k], st') == Ok(Emit(st', prog[1..][k].0, prog[1..][k].1))
    {
      assert ls[1..][k] == ls[k + 1] && prog[1..][k] == prog[k + 1];
    }
  }

  /**
   * A text whose lines each record one instruction of a program that fits
   * its fields assembles to the listing of the packed words at addresses
   * 0, 1, 2, ...
   */
  lemma AssembleLines(prog: seq<(nat, nat)>, ls: seq<string>)
    requires Fits(prog) && EmitsEach(ls, prog)
    requires forall k :: 0 <= k < |ls| ==> '\n' !in ls[k]
    ensures Assemble(Terminated(ls)) == Ok(Listing(Image(prog, 0, Format)))
  {
    LinesOfTerminated(ls);
    ParseProgram(prog, ls, Start);
    assert Start.code + Placed(prog, 0) == Placed(prog, 0);
    FitsPacks(prog, 0);
    FixupPlaced(prog, 0, Emitted(prog, Start).symbols, Format);
  }

  /**
   * A program written one instruction per line, mnemonic and decimal
   * operand, assembles to the listing of its packed words at addresses 0,
   * 1, 2, ...
   */
  lemma AssembleProgram(prog: seq<(nat, nat)>)
    requires Fits(prog)
    ensures Assemble(Terminated(SourceLines(prog))) == Ok(Listing(Image(prog, 0, Format)))
  {
    var ls := SourceLines(prog);
    forall k | 0 <= k < |ls| ensures '\n' !in ls[k] {
      ParseSourceLine(prog[k].0, prog[k].1, Start);
    }
    forall k, st | 0 <= k < |ls| ensures ParseLine(ls[k], st) == Ok(Emit(st, prog[k].0, prog[k].1)) {
      ParseSourceLine(prog[k].0, prog[k].1, st);
    }
    AssembleLines(prog, ls);
  }

  // ---------------------------------------------------------------------------
  // The assembler object

  class Assembler {
    const lexer: Lexer
    var text: string
    var lines: seq<string>
    var currentAddress: nat
    var symbolTable: map<string, nat>
    var code: seq<Record>
    var opcode: nat
    var operand: Operand

    function View(): AsmState
      reads this
    {
      AsmState(currentAddress, symbolTable, code)
    }

    /** The assembler keeps the caller's lexer; `parse` sets its text before each line. */
    constructor (lexer: Lexer, text: string)
      ensures this.lexer == lexer && this.text == text && lines == Lines(text)
      ensures View() == Start
    {
      this.lexer := lexer;
      this.text := text;
      lines := Lines(text);
      currentAddress := 0;
      symbolTable := map[];
      code := [];
      opcode := 0;
      operand := Num(0);
    }

    /** `skip_comment(tok)`: a lone `#` drains the lexer; any other token leaves it alone. */
    method SkipComment(tok: string)
      requires lexer.Valid()
      modifies lexer
      ensures lexer.Valid() && lexer.line == old(lexer.line)
      ensures lexer.tokens == if tok == "#" then [] else old(lexer.tokens)
    {
      if tok == "#" {
        var t: Option<string> := Some(tok);
        while t.Some? && t.value != ""
          invariant lexer.Valid() && lexer.line == old(lexer.line)
          invariant t.Some? ==> t.value != ""
          invariant t.None? ==> lexer.tokens == []
          decreases |lexer.tokens| + (if t.Some? then 1 else 0)
        {
          t := lexer.NextToken();
        }
      }
    }

    /** `fixup()`: the listing of the records parsed so far. */
    method Fixup() returns (r: Result<string>)
      ensures r == FixupText(View(), Format)
    {
      r := FixupListing(View(), Format);
    }

    /** `parse()`: every line through the lexer, then the fix-up pass. */
    method Parse() returns (r: Result<string>)
      modifies this, lexer
      ensures lines == old(lines) && text == old(text)
      ensures r == Assembled(lines, old(View()))
      ensures ParseLines(lines, old(View())).Ok? ==> View() == ParseLines(lines, old(View())).value
    {
      var i := 0;
      while i < |lines|
        invariant 0 <= i <= |lines|
        invariant lines == old(lines) && text == old(text)
        invariant ParseLines(lines[i..], View()) == ParseLines(lines, old(View()))
      {
        assert lines[i..][1..] == lines[i + 1..];
        var s := ParseLineTokens(lines[i]);
        if s.Fail? {
          return Err(s.error);
        }
        i := i + 1;
      }
      r := Fixup();
    }

    /** One pass of `parse`'s loop over the lines: the tokens of `line`, popped from the lexer. */
    method ParseLineTokens(line: string) returns (s: Status)
      modifies this, lexer
      ensures lines == old(lines) && text == old(text)
      ensures s == StatusOf(ParseLine(line, old(View())))
      ensures s.Pass? ==> View() == ParseLine(line, old(View())).value
    {
      ghost var target := ParseLine(line, old(View()));
      opcode := 0;
      operand := Num(0);
      lexer.SetText(Lower(line));
      var tok := lexer.NextToken();
      PendingTokens(tok, lexer.tokens, View(), operand);
      while tok.Some?
        invariant lexer.Valid()
        invariant lines == old(lines) && text == old(text)
        invariant tok.Some? ==> IsWord(tok.value)
        invariant tok.None? ==> lexer.tokens == []
        invariant ParsePending(tok, lexer.tokens, View(), operand) == target
        decreases |lexer.tokens| + (if tok.Some? then 1 else 0)
      {
        var t := tok.value;
        ghost var rest := lexer.tokens;
        ghost var st := View();
        if EndsWith(t, ':') {
          LabelBinds(t, rest, st, operand);
          symbolTable := symbolTable[t[..|t| - 1] := currentAddress];
        } else if t == "#" {
          CommentEndsLine(rest, st, operand);
          SkipComment(t);
          return Pass;
        } else if EndsWith(t, '.') && t[..|t| - 1] == "org" {
          OrgDirective(t, rest, st, operand);
          s := ParseOrigin();
          return;
        } else if EndsWith(t, '.') {
          // any other directive is passed over
          OtherTokenSkipped(t, rest, st, operand);
        } else if OpcodeOf(t).Some? {
          InstructionEmitsOne(t, rest, st, operand);
          s := ParseInstruction(OpcodeOf(t).value);
          if s.Fail? {
            return;
          }
        } else {
          OtherTokenSkipped(t, rest, st, operand);
        }
        tok := lexer.NextToken();
        PendingTokens(tok, lexer.tokens, View(), operand);
      }
      s := Pass;
    }

    /** The `org.` branch of `parse`: the next token sets the address, is dropped, or raises. */
    method ParseOrigin() returns (s: Status)
      requires lexer.Valid()
      modifies this, lexer
      ensures lines == old(lines) && text == old(text)
      ensures s == StatusOf(Origin(old(lexer.tokens), old(View())))
      ensures s.Pass? ==> View() == Origin(old(lexer.tokens), old(View())).value
    {
      var x := lexer.NextToken();
      if x.None? {
        return Fail(AttributeError);
      }
      if IsNumeric(x.value) {
        currentAddress := DecValue(x.value);
      } else if IsHex(x.value) {
        // the value is computed and dropped
      } else {
        return Fail(ValueError(IllegalOrigin(x.value)));
      }
      s := Pass;
    }

    /**
     * The mnemonic branch of `parse`: the next token gives the operand, the
     * instruction is recorded at the current address, and the address
     * advances; on success the rest of the line is what the lexer holds.
     */
    method ParseInstruction(op: nat) returns (s: Status)
      requires lexer.Valid()
      modifies this, lexer
      ensures lexer.Valid() && lines == old(lines) && text == old(text)
      ensures s.Fail? ==> Instruction(op, old(lexer.tokens), old(View()), old(operand)) == Err(s.error)
      ensures s.Pass? ==> Instruction(op, old(lexer.tokens), old(View()), old(operand)) == ParseTokens(lexer.tokens, View(), operand)
      ensures s.Pass? ==> |lexer.tokens| < |old(lexer.tokens)|
    {
      opcode := op;
      var x := lexer.NextToken();
      if x.None? {
        return Fail(AttributeError);
      }
      operand := InstrOperand(x.value, symbolTable, operand);
      if StartsWith(x.value, "#") {
        SkipComment(x.value);
      }
      code := code + [Record(currentAddress, opcode, operand)];
      currentAddress := currentAddress + 1;
      s := Pass;
    }
  }
}
