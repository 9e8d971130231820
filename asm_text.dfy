/**
 * What the Tiny-T and Tiny-P tool chains share: the line lexer (both
 * assemblers define the same `Lexer`), the records an assembler collects
 * before its fix-up pass, the "address word" listing a fix-up pass writes,
 * and how a loader reads such a listing back.
 */
module AsmText {
  import opened Py

  /**
   * The lexer: `set_text` splits a line on white space, `next_token` pops
   * the first token, or yields None when none is left.
   */
  class Lexer {
    var line: Option<string>
    var tokens: seq<string>

    /** Every pending token is a non-empty run of non-space characters. */
    predicate Valid()
      reads this
    {
      forall k :: 0 <= k < |tokens| ==> IsWord(tokens[k])
    }

    constructor ()
      ensures line == None && tokens == [] && Valid()
    {
      line := None;
      tokens := [];
    }

    method SetText(line: string)
      modifies this
      ensures this.line == Some(line) && tokens == Words(line) && Valid()
    {
      this.line := Some(line);
      tokens := Words(line);
    }

    method NextToken() returns (tok: Option<string>)
      requires Valid()
      modifies this
      ensures Valid() && line == old(line)
      ensures old(tokens) == [] ==> tok == None && tokens == []
      ensures old(tokens) != [] ==> tok == Some(old(tokens)[0]) && tokens == old(tokens)[1..]
      ensures tok.Some? ==> IsWord(tok.value)
      ensures Pending(tok, tokens) == old(tokens)
    {
      if tokens == [] {
        return None;
      }
      assert [tokens[0]] + tokens[1..] == tokens;
      tok := Some(tokens[0]);
      tokens := tokens[1..];
    }
  }

  /** The current token followed by the ones still in the lexer. */
  function Pending(tok: Option<string>, rest: seq<string>): seq<string> {
    if tok.Some? then [tok.value] + rest else rest
  }

  /**
   * An instruction's operand as the record keeps it: a number (a decimal
   * literal, a converted hex literal or an already known label), or a name
   * left for the fix-up pass.
   */
  datatype Operand = Num(n: int) | Name(s: string)

  /**
   * One collected instruction.  The source keeps it as the text
   * "<addr> : <opcode>-<operand>" and splits it again on ':' and '-' in
   * the fix-up pass; neither character can occur in an address, an opcode
   * or an operand, so the record is kept here as its three fields.
   */
  datatype Record = Record(addr: nat, opcode: nat, operand: Operand)

  /** What parsing accumulates: the address counter, the symbol table and the records. */
  datatype AsmState = AsmState(addr: nat, symbols: map<string, nat>, code: seq<Record>)

  /** A new assembler's state. */
  const Start: AsmState := AsmState(0, map[], [])

  /** The records are placed at consecutive addresses from 0, and the counter is next. */
  predicate Dense(st: AsmState) {
    st.addr == |st.code| && forall k :: 0 <= k < |st.code| ==> st.code[k].addr == k
  }

  // ---------------------------------------------------------------------------
  // The listing

  /**
   * One line of the listing, `f'{addr.zfill(4)} {word}'`, where the address
   * text still carries the blank that followed it in the record text.
   */
  function OutputLine(addr: nat, word: nat): string {
    ZFill(Dec(addr) + " ", 4) + " " + Dec(word)
  }

  /** The listing of (address, word) pairs, one newline-terminated line each. */
  function Listing(pairs: seq<(nat, nat)>): string {
    Terminated(OutputLines(pairs))
  }

  function OutputLines(pairs: seq<(nat, nat)>): (ls: seq<string>)
    ensures |ls| == |pairs|
    ensures forall k :: 0 <= k < |pairs| ==> ls[k] == OutputLine(pairs[k].0, pairs[k].1)
  {
    seq(|pairs|, k requires 0 <= k < |pairs| => OutputLine(pairs[k].0, pairs[k].1))
  }

  lemma ListingAppend(pairs: seq<(nat, nat)>, p: (nat, nat))
    ensures Listing(pairs + [p]) == Listing(pairs) + OutputLine(p.0, p.1) + "\n"
  {
    assert OutputLines(pairs + [p]) == OutputLines(pairs) + [OutputLine(p.0, p.1)];
    TerminatedAppend(OutputLines(pairs), OutputLine(p.0, p.1));
  }

  // ---------------------------------------------------------------------------
  // Fixing up

  /**
   * How a fix-up pass packs a record into a word: `opcode * radix + operand`,
   * refused when the sum is above `limit`.  Nothing stops an operand of
   * `radix` or more: it spills into the opcode.
   */
  datatype WordFormat = WordFormat(radix: nat, limit: nat)

  /**
   * The value of a recorded operand in the fix-up pass: a number as it is,
   * a name as the final symbol table has it.  A negative number (only
   * Tiny-T's signed hex operands give one) is written into the record text
   * as `<opcode>--<n>`, so splitting it on '-' leaves an empty operand
   * field, and `int('')` raises.
   */
  function Resolve(o: Operand, symbols: map<string, nat>): (r: Result<nat>)
    ensures o.Name? ==> (r.Ok? <==> o.s in symbols)
    ensures o.Num? ==> (r.Ok? <==> o.n >= 0)
    ensures r.Ok? ==> r.value == if o.Num? then o.n else symbols[o.s]
    ensures r.Err? ==> r.error == ValueError(if o.Num? then NotAnInteger("") else UndefinedSymbol(o.s))
  {
    match o
    case Num(n) => if n < 0 then Err(ValueError(NotAnInteger(""))) else Ok(n)
    case Name(s) => if s in symbols then Ok(symbols[s]) else Err(ValueError(UndefinedSymbol(s)))
  }

  /** One record's listing pair: its address and its packed word, unless the word is above the limit. */
  function FixupRecord(r: Record, symbols: map<string, nat>, f: WordFormat): (p: Result<(nat, nat)>)
    ensures p.Ok? <==> Resolve(r.operand, symbols).Ok? && r.opcode * f.radix + Resolve(r.operand, symbols).value <= f.limit
    ensures p.Ok? ==> p.value == (r.addr, r.opcode * f.radix + Resolve(r.operand, symbols).value)
    ensures Resolve(r.operand, symbols).Ok? && p.Err? ==>
      p.error == ValueError(IllegalMachineCode(r.opcode * f.radix + Resolve(r.operand, symbols).value))
  {
    match Resolve(r.operand, symbols)
    case Err(e) => Err(e)
    case Ok(v) =>
      var word := r.opcode * f.radix + v;
      if word > f.limit then Err(ValueError(IllegalMachineCode(word))) else Ok((r.addr, word))
  }

  /** The pairs of every record, in record order, or the first exception. */
  function FixupPairs(code: seq<Record>, symbols: map<string, nat>, f: WordFormat): (r: Result<seq<(nat, nat)>>)
    ensures r.Ok? ==> |r.value| == |code|
    ensures r.Ok? ==> forall k :: 0 <= k < |code| ==> FixupRecord(code[k], symbols, f) == Ok(r.value[k])
    decreases |code|
  {
    if code == [] then Ok([])
    else match FixupRecord(code[0], symbols, f)
      case Err(e) => Err(e)
      case Ok(p) =>
        match FixupPairs(code[1..], symbols, f)
        case Err(e) => Err(e)
        case Ok(ps) =>
          assert forall k :: 0 < k < |code| ==> code[k] == code[1..][k - 1];
          Ok([p] + ps)
  }

  /** `done`, then the pairs `r` holds; or the exception `r` holds. */
  function After(done: seq<(nat, nat)>, r: Result<seq<(nat, nat)>>): Result<seq<(nat, nat)>> {
    match r
    case Err(e) => Err(e)
    case Ok(ps) => Ok(done + ps)
  }

  /** Fixing up from record `i` on: record `i` first, then the rest. */
  lemma FixupStep(code: seq<Record>, i: nat, symbols: map<string, nat>, f: WordFormat, done: seq<(nat, nat)>)
    requires i < |code|
    ensures After(done, FixupPairs(code[i..], symbols, f)) ==
      match FixupRecord(code[i], symbols, f)
      case Err(e) => Err(e)
      case Ok(p) => After(done + [p], FixupPairs(code[i + 1..], symbols, f))
  {
    assert code[i..][0] == code[i];
    assert code[i..][1..] == code[i + 1..];
    match FixupPairs(code[i + 1..], symbols, f)
    case Err(_) =>
    case Ok(ps) =>
      if FixupRecord(code[i], symbols, f).Ok? {
        assert done + ([FixupRecord(code[i], symbols, f).value] + ps) == (done + [FixupRecord(code[i], symbols, f).value]) + ps;
      }
  }

  /** Fixing up fails exactly when some record fails, and then with the first failing record's exception. */
  lemma {:induction false} FixupFailsAtFirstBadRecord(code: seq<Record>, symbols: map<string, nat>, f: WordFormat)
    ensures FixupPairs(code, symbols, f).Err? <==> exists k :: 0 <= k < |code| && FixupRecord(code[k], symbols, f).Err?
    ensures FixupPairs(code, symbols, f).Err? ==>
      exists k :: (0 <= k < |code| && FixupRecord(code[k], symbols, f) == Err(FixupPairs(code, symbols, f).error)
                   && forall j :: 0 <= j < k ==> FixupRecord(code[j], symbols, f).Ok?)
    decreases |code|
  {
    if code != [] {
      FixupFailsAtFirstBadRecord(code[1..], symbols, f);
      assert forall k :: 0 < k < |code| ==> code[k] == code[1..][k - 1];
      if FixupRecord(code[0], symbols, f).Ok? && FixupPairs(code[1..], symbols, f).Err? {
        var k :| 0 <= k < |code[1..]| && FixupRecord(code[1..][k], symbols, f) == Err(FixupPairs(code[1..], symbols, f).error)
          && forall j :: 0 <= j < k ==> FixupRecord(code[1..][j], symbols, f).Ok?;
        assert FixupRecord(code[k + 1], symbols, f) == Err(FixupPairs(code, symbols, f).error);
        assert forall j :: 0 <= j < k + 1 ==> FixupRecord(code[j], symbols, f).Ok?;
      }
    }
  }

  /** `fixup()`: the listing of the parsed records. */
  function FixupText(st: AsmState, f: WordFormat): Result<string> {
    match FixupPairs(st.code, st.symbols, f)
    case Err(e) => Err(e)
    case Ok(ps) => Ok(Listing(ps))
  }

  /** The loop of `fixup()`: one listing line per record, appended in record order. */
  method FixupListing(st: AsmState, f: WordFormat) returns (r: Result<string>)
    ensures r == FixupText(st, f)
  {
    var code, symbols := st.code, st.symbols;
    var out := "";
    ghost var done: seq<(nat, nat)> := [];
    var i := 0;
    assert code[0..] == code;
    assert FixupPairs(code, symbols, f).Ok? ==> [] + FixupPairs(code, symbols, f).value == FixupPairs(code, symbols, f).value;
    while i < |code|
      invariant 0 <= i <= |code|
      invariant out == Listing(done)
      invariant FixupPairs(code, symbols, f) == After(done, FixupPairs(code[i..], symbols, f))
    {
      FixupStep(code, i, symbols, f, done);
      var p := FixupRecord(code[i], symbols, f);
      if p.Err? {
        return Err(p.error);
      }
      ListingAppend(done, p.value);
      out := out + OutputLine(p.value.0, p.value.1) + "\n";
      done := done + [p.value];
      i := i + 1;
    }
    assert code[i..] == [];
    assert done + [] == done;
    r := Ok(out);
  }

  /**
   * `fixup()` writes one line per record, in record order: line `k` holds
   * record `k`'s address and word, and the text ends with a newline.
   */
  lemma FixupTextLines(st: AsmState, f: WordFormat)
    ensures FixupText(st, f).Ok? <==> FixupPairs(st.code, st.symbols, f).Ok?
    ensures FixupText(st, f).Ok? ==>
      var ls := Lines(FixupText(st, f).value);
      && |ls| == |st.code| + 1 && ls[|st.code|] == ""
      && forall k :: 0 <= k < |st.code| ==>
           FixupRecord(st.code[k], st.symbols, f).Ok?
           && ls[k] == OutputLine(st.code[k].addr, FixupRecord(st.code[k], st.symbols, f).value.1)
  {
    if FixupPairs(st.code, st.symbols, f).Ok? {
      var ps := FixupPairs(st.code, st.symbols, f).value;
      var ols := OutputLines(ps);
      forall k | 0 <= k < |ols| ensures '\n' !in ols[k] {
        OutputLineWords(ps[k].0, ps[k].1);
      }
      LinesOfTerminated(ols);
    }
  }

  // ---------------------------------------------------------------------------
  // A program placed one instruction per address

  /** The records of `prog`'s (opcode, operand) pairs placed at consecutive addresses from `a`. */
  function Placed(prog: seq<(nat, nat)>, a: nat): seq<Record> {
    seq(|prog|, k requires 0 <= k < |prog| => Record(a + k, prog[k].0, Num(prog[k].1)))
  }

  /** The listing pairs of `prog` placed from `a`: each address with its packed word. */
  function Image(prog: seq<(nat, nat)>, a: nat, f: WordFormat): (ps: seq<(nat, nat)>)
    ensures |ps| == |prog|
    ensures forall k :: 0 <= k < |prog| ==> ps[k] == (a + k, prog[k].0 * f.radix + prog[k].1)
  {
    seq(|prog|, k requires 0 <= k < |prog| => (a + k, prog[k].0 * f.radix + prog[k].1))
  }

  /** Every instruction of `prog` packs into a word the fix-up pass accepts. */
  predicate Packs(prog: seq<(nat, nat)>, f: WordFormat) {
    forall k :: 0 <= k < |prog| ==> prog[k].0 * f.radix + prog[k].1 <= f.limit
  }

  /** `st` after recording one instruction. */
  function Emit(st: AsmState, op: nat, x: nat): AsmState {
    st.(addr := st.addr + 1, code := st.code + [Record(st.addr, op, Num(x))])
  }

  /** `st` after recording the instructions of `prog` one after another. */
  function Emitted(prog: seq<(nat, nat)>, st: AsmState): AsmState {
    st.(addr := st.addr + |prog|, code := st.code + Placed(prog, st.addr))
  }

  lemma EmittedCons(prog: seq<(nat, nat)>, st: AsmState)
    requires prog != []
    ensures Emitted(prog, st) == Emitted(prog[1..], Emit(st, prog[0].0, prog[0].1))
  {
    PlacedCons(prog, st.addr, st.code);
  }

  lemma PlacedCons(prog: seq<(nat, nat)>, a: nat, code: seq<Record>)
    requires prog != []
    ensures Placed(prog, a) == [Record(a, prog[0].0, Num(prog[0].1))] + Placed(prog[1..], a + 1)
    ensures code + [Record(a, prog[0].0, Num(prog[0].1))] + Placed(prog[1..], a + 1) == code + Placed(prog, a)
  {
    var c := Placed(prog, a);
    var d := [Record(a, prog[0].0, Num(prog[0].1))] + Placed(prog[1..], a + 1);
    forall k | 0 <= k < |c| ensures c[k] == d[k] {
      if k > 0 {
        assert d[k] == Placed(prog[1..], a + 1)[k - 1];
      }
    }
    assert c == d;
    assert code + [Record(a, prog[0].0, Num(prog[0].1))] + Placed(prog[1..], a + 1) == code + d;
  }

  /** Fixing up a placed program that packs gives its image, whatever the symbol table. */
  lemma {:induction false} FixupPlaced(prog: seq<(nat, nat)>, a: nat, symbols: map<string, nat>, f: WordFormat)
    requires Packs(prog, f)
    ensures FixupPairs(Placed(prog, a), symbols, f) == Ok(Image(prog, a, f))
    decreases |prog|
  {
    if prog == [] {
      assert Placed(prog, a) == [] && Image(prog, a, f) == [];
    } else {
      FixupFirstPlaced(prog, a, symbols, f);
      assert Packs(prog[1..], f) by {
        assert forall k :: 0 <= k < |prog[1..]| ==> prog[1..][k] == prog[k + 1];
      }
      FixupPlaced(prog[1..], a + 1, symbols, f);
      ImageCons(prog, a, f);
    }
  }

  lemma ImageCons(prog: seq<(nat, nat)>, a: nat, f: WordFormat)
    requires prog != []
    ensures Image(prog, a, f) == [(a, prog[0].0 * f.radix + prog[0].1)] + Image(prog[1..], a + 1, f)
  {
    var c := Image(prog, a, f);
    var d := [(a, prog[0].0 * f.radix + prog[0].1)] + Image(prog[1..], a + 1, f);
    forall k | 0 <= k < |c| ensures c[k] == d[k] {
      if k > 0 {
        assert d[k] == Image(prog[1..], a + 1, f)[k - 1];
      }
    }
  }

  lemma FixupFirstPlaced(prog: seq<(nat, nat)>, a: nat, symbols: map<string, nat>, f: WordFormat)
    requires Packs(prog, f) && prog != []
    ensures FixupPairs(Placed(prog, a), symbols, f) ==
      After([(a, prog[0].0 * f.radix + prog[0].1)], FixupPairs(Placed(prog[1..], a + 1), symbols, f))
  {
    var c := Placed(prog, a);
    PlacedCons(prog, a, []);
    assert c[0] == Record(a, prog[0].0, Num(prog[0].1));
    assert c[1..] == Placed(prog[1..], a + 1);
    assert FixupRecord(c[0], symbols, f) == Ok((a, prog[0].0 * f.radix + prog[0].1));
  }

  // ---------------------------------------------------------------------------
  // Reading a listing back

  /**
   * What a loader makes of one line: nothing unless `line.split()` has
   * exactly two fields, and then `int` of the first and of the second.
   */
  function LineFields(line: string): (r: Option<Result<(int, int)>>)
    ensures r.None? <==> |Words(line)| != 2
    ensures r.Some? && r.value.Err? ==> r.value.error.ValueError?
  {
    var ws := Words(line);
    if |ws| != 2 then None
    else match ParseInt(ws[0])
      case Err(e) => Some(Err(e))
      case Ok(a) =>
        match ParseInt(ws[1])
        case Err(e) => Some(Err(e))
        case Ok(w) => Some(Ok((a, w)))
  }

  /** The pairs a loader writes, in order, for `lines`, or the first `int` failure. */
  function ListingPairs(lines: seq<string>): Result<seq<(int, int)>>
    decreases |lines|
  {
    if lines == [] then Ok([])
    else match LineFields(lines[0])
      case None => ListingPairs(lines[1..])
      case Some(Err(e)) => Err(e)
      case Some(Ok(p)) =>
        match ListingPairs(lines[1..])
        case Ok(ps) => Ok([p] + ps)
        case Err(e) => Err(e)
  }

  /** The address field of a listing line: `str(addr)` zero-padded to three digits. */
  function PaddedAddress(addr: nat): string {
    Repeat('0', if |Dec(addr)| >= 3 then 0 else 3 - |Dec(addr)|) + Dec(addr)
  }

  lemma PaddedAddressValue(addr: nat)
    ensures ZFill(Dec(addr) + " ", 4) == PaddedAddress(addr) + " "
    ensures IsNumeric(PaddedAddress(addr)) && DecValue(PaddedAddress(addr)) == addr
  {
    var d := Dec(addr);
    var k: nat := if |d| >= 3 then 0 else 3 - |d|;
    if |d| < 3 {
      assert (d + " ")[0] == d[0];
      assert ZFill(d + " ", 4) == Repeat('0', k) + (d + " ");
    } else {
      assert Repeat('0', 0) + d == d;
    }
    DecLeadingZeros(k, d);
    DecRoundTrip(addr);
  }

  /** A listing line splits into its padded address and its word. */
  lemma OutputLineWords(addr: nat, word: nat)
    ensures '\n' !in OutputLine(addr, word)
    ensures Words(OutputLine(addr, word)) == [PaddedAddress(addr), Dec(word)]
  {
    PaddedAddressValue(addr);
    assert OutputLine(addr, word) == PaddedAddress(addr) + "  " + Dec(word);
    TwoNumbers(PaddedAddress(addr), Dec(word));
  }

  lemma TwoNumbers(z: string, d: string)
    requires IsNumeric(z) && IsNumeric(d)
    ensures '\n' !in z + "  " + d
    ensures Words(z + "  " + d) == [z, d]
  {
    var line := z + "  " + d;
    assert line == "" + z + "  " + d + "";
    WordsOfTwo("", z, "  ", d, "");
    assert forall i :: 0 <= i < |line| ==> line[i] == ' ' || IsDigit(line[i]);
  }

  /** A listing line reads back as its address and word. */
  lemma OutputLineFields(addr: nat, word: nat)
    ensures '\n' !in OutputLine(addr, word)
    ensures LineFields(OutputLine(addr, word)) == Some(Ok((addr as int, word as int)))
  {
    OutputLineWords(addr, word);
    PaddedAddressValue(addr);
    DecRoundTrip(word);
  }

  /** The pairs as the `int` values a loader reads. */
  function IntPairs(pairs: seq<(nat, nat)>): (ps: seq<(int, int)>)
    ensures |ps| == |pairs|
    ensures forall k :: 0 <= k < |pairs| ==> ps[k] == (pairs[k].0 as int, pairs[k].1 as int)
  {
    seq(|pairs|, k requires 0 <= k < |pairs| => (pairs[k].0 as int, pairs[k].1 as int))
  }

  /** Reading a listing back yields exactly the pairs it was written from. */
  lemma {:induction false} ListingRoundTrip(pairs: seq<(nat, nat)>)
    ensures ListingPairs(Lines(Listing(pairs))) == Ok(IntPairs(pairs))
  {
    var ls := OutputLines(pairs);
    forall k | 0 <= k < |ls| ensures '\n' !in ls[k] {
      OutputLineFields(pairs[k].0, pairs[k].1);
    }
    LinesOfTerminated(ls);
    PairsOfOutputLines(pairs);
  }

  lemma {:induction false} PairsOfOutputLines(pairs: seq<(nat, nat)>)
    ensures ListingPairs(OutputLines(pairs) + [""]) == Ok(IntPairs(pairs))
  {
    var ls := OutputLines(pairs) + [""];
    if pairs == [] {
      assert ls == [""];
      assert Words("") == [];
      assert ListingPairs(ls[1..]) == Ok([]);
    } else {
      OutputLineFields(pairs[0].0, pairs[0].1);
      assert ls[1..] == OutputLines(pairs[1..]) + [""];
      PairsOfOutputLines(pairs[1..]);
      assert IntPairs(pairs) == [(pairs[0].0 as int, pairs[0].1 as int)] + IntPairs(pairs[1..]);
    }
  }
}
