/**
 * The Tiny-P CPU: a decimal machine whose words are `opcode * 100 +
 * operand`, with a program ROM and a data RAM kept apart, an unbounded
 * accumulator, and zero and positive flags.
 *
 * This module gives the meaning of each CPU operation as a function on a
 * `PState` value; the `CPU` class in module `TinyPCpu` carries out the same
 * operations in place and is proved to agree with it.
 */
module TinyPMachine {
  import opened Py

  /** The number of ROM and RAM cells `init_rom` and `init_memory` add, and where the program counter wraps. */
  const MaxMem: nat := 100

  /**
   * Every attribute the instruction cycle reads or writes.  `opcode` and
   * `operand` are the fields `decode` leaves behind.
   */
  datatype PState = PState(
    acc: int, pc: int, instr: int, zero: bool, pos: bool,
    prog: seq<int>, mem: seq<int>, halted: bool, opcode: int, operand: int)

  /** A new CPU: no ROM and no RAM yet, both flags set. */
  const Initial: PState := PState(0, 0, 0, true, true, [], [], false, 0, 0)

  /** The flags describe the accumulator: zero when it is 0, positive when it is not negative. */
  predicate FlagsMatch(s: PState) {
    (s.zero <==> s.acc == 0) && (s.pos <==> s.acc >= 0)
  }

  // ---------------------------------------------------------------------------
  // Registers and storage

  /** `update_status` */
  function UpdateStatus(s: PState): (s': PState)
    ensures FlagsMatch(s')
    ensures s'.(zero := s.zero, pos := s.pos) == s
  {
    s.(zero := s.acc == 0, pos := s.acc >= 0)
  }

  /** `update_acc(value)`: the accumulator takes the value as it is, and the flags follow it. */
  function UpdateAcc(s: PState, value: int): (s': PState)
    ensures s'.acc == value && FlagsMatch(s')
    ensures s'.(acc := s.acc, zero := s.zero, pos := s.pos) == s
  {
    UpdateStatus(s.(acc := value))
  }

  /** `init_rom`: appends `MAX_MEM` zero cells to the ROM. */
  function InitRom(s: PState): (s': PState)
    ensures |s'.prog| == |s.prog| + MaxMem && s'.prog[..|s.prog|] == s.prog
    ensures forall k :: |s.prog| <= k < |s'.prog| ==> s'.prog[k] == 0
    ensures s'.(prog := s.prog) == s
  {
    s.(prog := s.prog + Repeat(0, MaxMem))
  }

  /** `init_memory`: appends `MAX_MEM` zero cells to the RAM. */
  function InitMemory(s: PState): (s': PState)
    ensures |s'.mem| == |s.mem| + MaxMem && s'.mem[..|s.mem|] == s.mem
    ensures forall k :: |s.mem| <= k < |s'.mem| ==> s'.mem[k] == 0
    ensures s'.(mem := s.mem) == s
  {
    s.(mem := s.mem + Repeat(0, MaxMem))
  }

  /**
   * `reset`: clears the registers and sets both flags, then appends fresh
   * RAM; the cells already there keep their values.
   */
  function Reset(s: PState): (s': PState)
    ensures s'.acc == 0 && s'.pc == 0 && s'.instr == 0 && s'.zero && s'.pos && FlagsMatch(s')
    ensures |s'.mem| == |s.mem| + MaxMem && s'.mem[..|s.mem|] == s.mem
    ensures s'.prog == s.prog && s'.halted == s.halted
  {
    InitMemory(s.(acc := 0, pc := 0, instr := 0, zero := true, pos := true))
  }

  /** `read_memory(address)`: Python list indexing, so a negative address counts from the end. */
  function ReadMemory(s: PState, address: int): (r: Result<int>)
    ensures r.Ok? <==> -|s.mem| <= address < |s.mem|
    ensures r.Err? ==> r.error == IndexError
    ensures 0 <= address < |s.mem| ==> r == Ok(s.mem[address])
  {
    match PyIndex(|s.mem|, address)
    case Some(i) => Ok(s.mem[i])
    case None => Err(IndexError)
  }

  /** `write_memory(address, value)` */
  function WriteMemory(s: PState, address: int, value: int): (r: Result<PState>)
    ensures r.Ok? <==> -|s.mem| <= address < |s.mem|
    ensures r.Err? ==> r.error == IndexError
    ensures r.Ok? ==> r.value.(mem := s.mem) == s && |r.value.mem| == |s.mem|
    ensures r.Ok? && 0 <= address ==>
      r.value.mem[address] == value && forall k :: 0 <= k < |s.mem| && k != address ==> r.value.mem[k] == s.mem[k]
  {
    match PyIndex(|s.mem|, address)
    case Some(i) => Ok(s.(mem := s.mem[i := value]))
    case None => Err(IndexError)
  }

  /** `read_prog(address)` */
  function ReadProg(s: PState, address: int): (r: Result<int>)
    ensures r.Ok? <==> -|s.prog| <= address < |s.prog|
    ensures r.Err? ==> r.error == IndexError
    ensures 0 <= address < |s.prog| ==> r == Ok(s.prog[address])
  {
    match PyIndex(|s.prog|, address)
    case Some(i) => Ok(s.prog[i])
    case None => Err(IndexError)
  }

  /** `program(address, value)`: writes one ROM cell. */
  function Program(s: PState, address: int, value: int): (r: Result<PState>)
    ensures r.Ok? <==> -|s.prog| <= address < |s.prog|
    ensures r.Err? ==> r.error == IndexError
    ensures r.Ok? ==> r.value.(prog := s.prog) == s && |r.value.prog| == |s.prog|
    ensures r.Ok? && 0 <= address ==>
      r.value.prog[address] == value && forall k :: 0 <= k < |s.prog| && k != address ==> r.value.prog[k] == s.prog[k]
  {
    match PyIndex(|s.prog|, address)
    case Some(i) => Ok(s.(prog := s.prog[i := value]))
    case None => Err(IndexError)
  }

  // ---------------------------------------------------------------------------
  // The instruction cycle

  /** `fetch`: the ROM word at the program counter, which then advances and wraps to 0 at `MAX_MEM`. */
  function Fetch(s: PState): (r: Result<PState>)
    ensures r.Ok? <==> ReadProg(s, s.pc).Ok?
    ensures r.Ok? ==> r.value == s.(instr := ReadProg(s, s.pc).value, pc := if s.pc + 1 >= MaxMem then 0 else s.pc + 1)
  {
    match ReadProg(s, s.pc)
    case Err(e) => Err(e)
    case Ok(w) => Ok(s.(instr := w, pc := if s.pc + 1 >= MaxMem then 0 else s.pc + 1))
  }

  /**
   * The fields `decode` finds in a word: the hundreds digit and the rest,
   * for words 0..999 only.
   */
  function Fields(instr: int): (r: Option<(nat, nat)>)
    ensures r.Some? <==> 0 <= instr < 1000
    ensures r.Some? ==> r.value.0 < 10 && r.value.1 < MaxMem && 100 * r.value.0 + r.value.1 == instr
  {
    if 0 <= instr < 1000 then Some((instr / 100, instr % 100)) else None
  }

  /** Packing two fields and finding them again gives them back. */
  lemma FieldsRoundTrip(opcode: nat, operand: nat)
    requires opcode < 10 && operand < MaxMem
    ensures Fields(100 * opcode + operand) == Some((opcode, operand))
  {
    var w := 100 * opcode + operand;
    assert w / 100 == opcode && w % 100 == operand;
  }

  /** `test_opcode(expected)` followed by `test_operand()`. */
  function Tested(s: PState, expected: int): (t: Status)
    ensures t.Pass? <==> s.opcode == expected && s.operand < 100
    ensures s.opcode != expected ==> t == Fail(ValueError(IllegalOpcode(s.opcode)))
    ensures s.opcode == expected && s.operand >= 100 ==> t == Fail(ValueError(IllegalOperand(s.operand)))
  {
    if s.opcode != expected then Fail(ValueError(IllegalOpcode(s.opcode)))
    else if s.operand >= 100 then Fail(ValueError(IllegalOperand(s.operand)))
    else Pass
  }

  /** `nop`: checks its opcode only. */
  function Nop(s: PState): Result<PState> {
    if s.opcode != 0 then Err(ValueError(IllegalOpcode(s.opcode))) else Ok(s)
  }

  /** `lda` */
  function Lda(s: PState): Result<PState> {
    match Tested(s, 1)
    case Fail(e) => Err(e)
    case Pass =>
      match ReadMemory(s, s.operand)
      case Err(e) => Err(e)
      case Ok(v) => Ok(UpdateAcc(s, v))
  }

  /** `sta`: the flags are left alone. */
  function Sta(s: PState): Result<PState> {
    match Tested(s, 2)
    case Fail(e) => Err(e)
    case Pass => WriteMemory(s, s.operand, s.acc)
  }

  /** The two-operand instructions: AND, OR, ADD and SUB. */
  datatype AluOp = And | Or | Add | Sub

  /** `acc & value`, `acc | value`, `acc + value`, `acc - value`. */
  function Combine(op: AluOp, acc: int, value: int): int {
    match op
    case And => BitAnd(acc, value)
    case Or => BitOr(acc, value)
    case Add => acc + value
    case Sub => acc - value
  }

  function OpcodeOfAlu(op: AluOp): int {
    match op
    case And => 3
    case Or => 4
    case Add => 6
    case Sub => 7
  }

  /** `and_`, `or_`, `add`, `sub`: the accumulator combined with a RAM cell. */
  function Operate(s: PState, op: AluOp): Result<PState> {
    match Tested(s, OpcodeOfAlu(op))
    case Fail(e) => Err(e)
    case Pass =>
      match ReadMemory(s, s.operand)
      case Err(e) => Err(e)
      case Ok(v) => Ok(UpdateAcc(s, Combine(op, s.acc, v)))
  }

  /** `not_`: Python's logical `not`, so the accumulator becomes True (1) when it was 0 and False (0) otherwise. */
  function Not(s: PState): Result<PState> {
    match Tested(s, 5)
    case Fail(e) => Err(e)
    case Pass => Ok(UpdateAcc(s, if s.acc == 0 then 1 else 0))
  }

  /** `brz` and `brp`: branch when the flag is set; no flag changes. */
  function Branch(s: PState, expected: int, flag: bool): Result<PState> {
    match Tested(s, expected)
    case Fail(e) => Err(e)
    case Pass => Ok(if flag then s.(pc := s.operand) else s)
  }

  /** The instruction method `decode` calls for each opcode. */
  function Execute(s: PState): Result<PState>
    requires 0 <= s.opcode < 10
  {
    match s.opcode
    case 0 => Nop(s)
    case 1 => Lda(s)
    case 2 => Sta(s)
    case 3 => Operate(s, And)
    case 4 => Operate(s, Or)
    case 5 => Not(s)
    case 6 => Operate(s, Add)
    case 7 => Operate(s, Sub)
    case 8 => Branch(s, 8, s.zero)
    case _ => Branch(s, 9, s.pos)
  }

  /** `decode`: splits the word into `opcode` and `operand` and executes it; a word outside 0..999 is undefined. */
  function Decode(s: PState): Result<PState> {
    match Fields(s.instr)
    case None => Err(ValueError(UndefinedOpcode(s.instr)))
    case Some((op, x)) => Execute(s.(opcode := op, operand := x))
  }

  /** `step`: fetch, then decode. */
  function Step(s: PState): Result<PState> {
    match Fetch(s)
    case Err(e) => Err(e)
    case Ok(s') => Decode(s')
  }

  /** `halt` */
  function Halt(s: PState): PState {
    s.(halted := true)
  }

  /** `run`: steps until halted or until an exception; at most `fuel` steps. */
  function Run(s: PState, fuel: nat): Result<PState>
    decreases fuel
  {
    if s.halted || fuel == 0 then Ok(s)
    else match Step(s)
      case Err(e) => Err(e)
      case Ok(s') => Run(s', fuel - 1)
  }

  // ---------------------------------------------------------------------------
  // What the instructions do

  /**
   * The opcode and operand checks never fire: `decode` only dispatches to
   * the method of the opcode it found, with an operand below 100.  A step
   * fails only on a missing ROM or RAM cell or an undefined word.
   */
  lemma StepErrors(s: PState)
    requires Step(s).Err?
    ensures Step(s).error == IndexError || (Step(s).error.ValueError? && Step(s).error.reason.UndefinedOpcode?)
  {
    if Fetch(s).Ok? {
      var f := Fetch(s).value;
      if Fields(f.instr).Some? {
        var (op, x) := Fields(f.instr).value;
        DecodedPassesTests(f.(opcode := op, operand := x));
      }
    }
  }

  lemma DecodedPassesTests(s: PState)
    requires 0 <= s.opcode < 10 && 0 <= s.operand < MaxMem
    ensures Tested(s, s.opcode) == Pass
    ensures Execute(s).Err? ==> Execute(s).error == IndexError
  {
  }

  /** After any step the program counter lies in 0..99, as long as it was not negative before. */
  lemma StepKeepsPcInRange(s: PState)
    requires s.pc >= 0 && Step(s).Ok?
    ensures 0 <= Step(s).value.pc < MaxMem
  {
  }

  /** Every step keeps the flags in step with the accumulator. */
  lemma StepKeepsFlagsMatch(s: PState)
    requires FlagsMatch(s) && Step(s).Ok?
    ensures FlagsMatch(Step(s).value)
  {
    var f := Fetch(s).value;
    var (op, x) := Fields(f.instr).value;
    var d := f.(opcode := op, operand := x);
    assert FlagsMatch(d);
  }

  /**
   * NOT is a logical not: 0 becomes 1 and anything else 0, so the
   * positive flag is always set afterwards, unlike a bitwise complement.
   */
  lemma NotIsLogical(s: PState)
    requires s.opcode == 5 && 0 <= s.operand < MaxMem
    ensures Not(s).Ok?
    ensures Not(s).value.acc == (if s.acc == 0 then 1 else 0)
    ensures Not(s).value.pos && (Not(s).value.zero <==> s.acc != 0)
    ensures Not(Not(s).value).value.acc == (if s.acc == 0 then 0 else 1)
  {
  }

  /**
   * LDA loads the addressed RAM cell into the accumulator and the flags
   * follow it; nothing else changes.  It succeeds exactly when the opcode is
   * 1, the operand is below 100 and the operand indexes the RAM (counting
   * from the end when negative, as Python does).
   */
  lemma LdaLoadsMemory(s: PState)
    ensures Lda(s).Ok? <==> s.opcode == 1 && s.operand < MaxMem && -|s.mem| <= s.operand < |s.mem|
    ensures s.opcode == 1 && s.operand < MaxMem && Lda(s).Err? ==> Lda(s).error == IndexError
    ensures Lda(s).Ok? ==>
      && Lda(s).value.acc == ReadMemory(s, s.operand).value
      && FlagsMatch(Lda(s).value)
      && Lda(s).value.(acc := s.acc, zero := s.zero, pos := s.pos) == s
    ensures 0 <= s.operand < |s.mem| && Lda(s).Ok? ==> Lda(s).value.acc == s.mem[s.operand]
  {
  }

  /**
   * AND, OR, ADD and SUB combine the accumulator with the addressed RAM
   * cell (SUB leaves the accumulator minus the cell) and the flags follow
   * the result; nothing else changes.  Each succeeds exactly when the opcode
   * is its own, the operand is below 100 and the operand indexes the RAM.
   */
  lemma OperateCombinesMemory(s: PState, op: AluOp)
    ensures Operate(s, op).Ok? <==> s.opcode == OpcodeOfAlu(op) && s.operand < MaxMem && -|s.mem| <= s.operand < |s.mem|
    ensures s.opcode == OpcodeOfAlu(op) && s.operand < MaxMem && Operate(s, op).Err? ==> Operate(s, op).error == IndexError
    ensures Operate(s, op).Ok? ==>
      && Operate(s, op).value.acc == Combine(op, s.acc, ReadMemory(s, s.operand).value)
      && FlagsMatch(Operate(s, op).value)
      && Operate(s, op).value.(acc := s.acc, zero := s.zero, pos := s.pos) == s
    ensures 0 <= s.operand < |s.mem| && Operate(s, op).Ok? ==> Operate(s, op).value.acc == Combine(op, s.acc, s.mem[s.operand])
  {
  }

  /** STA, BRZ and BRP change neither the accumulator nor the flags; STA changes only the RAM. */
  lemma StoreAndBranchesKeepFlags(s: PState)
    requires 0 <= s.operand < MaxMem
    ensures s.opcode == 2 && Sta(s).Ok? ==> Sta(s).value.(mem := s.mem) == s
    ensures s.opcode == 8 ==> Branch(s, 8, s.zero) == Ok(if s.zero then s.(pc := s.operand) else s)
    ensures s.opcode == 9 ==> Branch(s, 9, s.pos) == Ok(if s.pos then s.(pc := s.operand) else s)
  {
  }

  /** Word 0..99 is a no-operation: a step only fetches it. */
  lemma NopOnlyFetches(s: PState)
    requires Fetch(s).Ok? && 0 <= Fetch(s).value.instr < 100
    ensures Step(s) == Ok(Fetch(s).value.(opcode := 0, operand := Fetch(s).value.instr))
  {
  }

  /** No instruction halts: a run from a running CPU that does not fail is still running. */
  lemma {:induction false} RunNeverHalts(s: PState, fuel: nat)
    requires !s.halted && Run(s, fuel).Ok?
    ensures !Run(s, fuel).value.halted
    decreases fuel
  {
    if fuel > 0 {
      StepKeepsRunning(s);
      RunNeverHalts(Step(s).value, fuel - 1);
    }
  }

  lemma StepKeepsRunning(s: PState)
    requires Step(s).Ok?
    ensures Step(s).value.halted == s.halted
    ensures Step(s).value.prog == s.prog
  {
  }

  /** A halted CPU does not run. */
  lemma HaltedStops(s: PState, fuel: nat)
    ensures Run(Halt(s), fuel) == Ok(Halt(s))
  {
  }

  // ---------------------------------------------------------------------------
  // Example runs

  /** A CPU after `init_rom` and `reset`: 100 zero ROM cells and 100 zero RAM cells. */
  function Booted(): (s: PState)
    ensures |s.prog| == MaxMem && |s.mem| == MaxMem
  {
    Reset(InitRom(Initial))
  }

  /**
   * The demonstration program: LDA 2, STA 1, AND 3, BRP 0 with 7 and 10 in
   * cells 2 and 3.  After four steps the accumulator holds 7 & 10 = 2, cell 1
   * holds 7, and the branch has taken the program counter back to 0.
   */
  lemma Demonstration()
    ensures var s0 := Booted().(mem := Booted().mem[2 := 7][3 := 10],
                                prog := Booted().prog[0 := 102][1 := 201][2 := 303][3 := 900]);
      && Run(s0, 4).Ok?
      && Run(s0, 4).value.acc == 2
      && Run(s0, 4).value.mem[1] == 7
      && Run(s0, 4).value.pc == 0
  {
    var b := Booted();
    var s0 := b.(mem := b.mem[2 := 7][3 := 10], prog := b.prog[0 := 102][1 := 201][2 := 303][3 := 900]);
    var s1 := Step(s0).value;
    assert s1.acc == 7 && s1.pc == 1;
    var s2 := Step(s1).value;
    assert s2.mem[1] == 7 && s2.pc == 2;
    var s3 := Step(s2).value;
    assert BitAnd(7, 10) == 2 by {
      assert BitAnd(3, 5) == 1 by {
        assert BitAnd(1, 2) == 0 by {
          assert BitAnd(0, 1) == 0;
        }
      }
    }
    assert s3.acc == 2 && s3.pos && s3.pc == 3;
    var s4 := Step(s3).value;
    assert s4.pc == 0;
    assert Run(s4, 0) == Ok(s4);
  }

  /** The first exercise: LDA 0, SUB 1, STA 3 with 9 and 6 in cells 0 and 1 leaves 9 - 6 = 3 in cell 3. */
  lemma Subtraction()
    ensures var s0 := Booted().(mem := Booted().mem[0 := 9][1 := 6][2 := 0],
                                prog := Booted().prog[0 := 100][1 := 701][2 := 203]);
      && Run(s0, 3).Ok?
      && Run(s0, 3).value.acc == 3
      && Run(s0, 3).value.mem[3] == 3
  {
    var b := Booted();
    var s0 := b.(mem := b.mem[0 := 9][1 := 6][2 := 0], prog := b.prog[0 := 100][1 := 701][2 := 203]);
    var s1 := Step(s0).value;
    assert s1.acc == 9;
    var s2 := Step(s1).value;
    assert s2.acc == 3;
    var s3 := Step(s2).value;
    assert s3.mem[3] == 3;
    assert Run(s3, 0) == Ok(s3);
  }
}
