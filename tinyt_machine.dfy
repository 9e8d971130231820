/**
 * The Tiny-T CPU: a 16-bit accumulator, a program counter, Z and P flags and
 * an `active` switch, executing one word per `step` over the bus.
 *
 * This module gives the meaning of each CPU operation as a function on a
 * `Machine` value (the registers, the bus latches and the device state) and
 * proves what the instructions do; the `CPU` class in module `TinyTCpu`
 * carries out the same operations in place and is proved to agree with it.
 */
module TinyTMachine {
  import opened Py
  import opened TinyTIsa
  import opened TinyTDevices
  import opened TinyTBus

  /** The accumulator is always masked to sixteen bits. */
  type Word = x: int | 0 <= x < 0x1_0000

  /** Bit 15, the sign bit tested for the P flag. */
  const SignBit: int := 0x8000
  /** The terminal's input and output ports. */
  const InputPort: int := 0xFE
  const OutputPort: int := 0xFF

  datatype Regs = Regs(acc: Word, pc: int, ir: Option<int>, z: bool, p: bool, active: bool)

  /** Everything a CPU operation can touch. */
  datatype Machine = Machine(regs: Regs, bus: BusView, devs: Devices)

  /** The registers of a new CPU: the flags start as the falsy 0. */
  const InitialRegs: Regs := Regs(0, 0, Some(0), false, false, true)

  /** `v & 0xFFFF`, also for negative `v` (two's complement). */
  function Low(v: int): Word {
    v % WordModulus
  }

  /**
   * `set_accumulator(v)`: the accumulator gets the low sixteen bits of `v`,
   * while Z and P are computed from `v` itself.
   */
  function SetAccumulator(r: Regs, v: int): (r': Regs)
    ensures r'.acc == Low(v)
    ensures r'.z <==> v == 0
    ensures r'.p <==> Low(v) < SignBit
    ensures r' == r.(acc := r'.acc, z := r'.z, p := r'.p)
  {
    r.(acc := Low(v), z := v == 0, p := Low(v) < SignBit)
  }

  /** For a value that already fits in sixteen bits, the flags describe the accumulator. */
  lemma SetAccumulatorInRange(r: Regs, v: int)
    requires 0 <= v < WordModulus
    ensures SetAccumulator(r, v).acc == v
    ensures SetAccumulator(r, v).z <==> SetAccumulator(r, v).acc == 0
    ensures SetAccumulator(r, v).p <==> SetAccumulator(r, v).acc < SignBit
  {
  }

  /**
   * Outside sixteen bits the flags and the accumulator disagree: a value of
   * 0x10000 leaves a zero accumulator with Z clear, and -1 leaves 0xFFFF
   * with Z clear and P clear.
   */
  lemma FlagsFromUnmaskedValue(r: Regs)
    ensures SetAccumulator(r, 0x10000).acc == 0 && !SetAccumulator(r, 0x10000).z
    ensures SetAccumulator(r, -1).acc == 0xFFFF && !SetAccumulator(r, -1).z && !SetAccumulator(r, -1).p
  {
  }

  // ---------------------------------------------------------------------------
  // The instructions that combine the accumulator with a memory word

  /** The five instructions that combine the accumulator with a word read from memory. */
  datatype AluOp = Add | Sub | And | Or | Xor

  /** The value each of them hands to `set_accumulator`. */
  function Combine(op: AluOp, acc: Word, v: int): int {
    match op
    case Add => acc + v
    case Sub => acc - v
    case And => BitAnd(acc, v)
    case Or => BitOr(acc, v)
    case Xor => BitXor(acc, v)
  }

  /** The opcode `execute` dispatches to each of them. */
  function AluOpcode(op: AluOp): int {
    match op
    case Add => 0x3
    case Sub => 0x4
    case And => 0x5
    case Or => 0x6
    case Xor => 0x7
  }

  // ---------------------------------------------------------------------------
  // Bus transactions

  /** `fetch(address)`: a bus read of `address & 0xFFF`. */
  function Fetch(m: Machine, address: int): (r: (Option<int>, Machine))
    ensures r.1.regs == m.regs && r.1.devs.ram == m.devs.ram
    ensures (r.0, r.1.bus, r.1.devs) == BusRead(m.bus, m.devs, Operand(address))
  {
    var (v, b, d) := BusRead(m.bus, m.devs, Operand(address));
    (v, m.(bus := b, devs := d))
  }

  /** `write(address, value)`: a bus write of the unmasked address. */
  function WriteWord(m: Machine, address: int, value: int): (r: Result<Machine>)
    ensures r.Ok? <==> BusWrite(m.bus, m.devs, address, value).Ok?
    ensures r.Ok? ==> r.value == m.(bus := BusWrite(m.bus, m.devs, address, value).value.0,
                                     devs := BusWrite(m.bus, m.devs, address, value).value.1)
  {
    match BusWrite(m.bus, m.devs, address, value)
    case Ok((b, d)) => Ok(m.(bus := b, devs := d))
    case Err(e) => Err(e)
  }

  /** `decode(instr)`: the opcode and operand fields of the fetched word. */
  function Decode(instr: int): (r: (nat, nat))
    ensures r.0 < 16 && r.1 < OperandModulus
    ensures 0 <= instr < WordModulus ==> Encode(r.0, r.1) == instr
  {
    EncodeDecode(if 0 <= instr < WordModulus then instr else 0);
    (Opcode(instr), Operand(instr))
  }

  // ---------------------------------------------------------------------------
  // The instructions

  function Halt(m: Machine): Machine {
    m.(regs := m.regs.(active := false))
  }

  /** LDA: a `None` read reaches `None & 0x8000` and raises. */
  function Load(m: Machine, operand: int): Result<Machine> {
    var (v, m1) := Fetch(m, operand);
    if v.None? then Err(TypeError) else Ok(m1.(regs := SetAccumulator(m1.regs, v.value)))
  }

  function Store(m: Machine, operand: int): Result<Machine> {
    WriteWord(m, operand, m.regs.acc)
  }

  /** ADD, SUB, AND, OR, XOR: a `None` read raises in the arithmetic. */
  function Operate(m: Machine, operand: int, op: AluOp): Result<Machine> {
    var (v, m1) := Fetch(m, operand);
    if v.None? then Err(TypeError) else Ok(m1.(regs := SetAccumulator(m1.regs, Combine(op, m1.regs.acc, v.value))))
  }

  /** NOT: `~acc`, which is `-acc - 1`. */
  function Not(m: Machine): Machine {
    m.(regs := SetAccumulator(m.regs, -(m.regs.acc as int) - 1))
  }

  /** Opcode 0x9, named SHL, shifts RIGHT: `acc >> 1`. */
  function ShiftLeft(m: Machine): Machine {
    m.(regs := SetAccumulator(m.regs, m.regs.acc / 2))
  }

  /** Opcode 0xA, named SHR, shifts LEFT: `acc << 1`. */
  function ShiftRight(m: Machine): Machine {
    m.(regs := SetAccumulator(m.regs, m.regs.acc * 2))
  }

  function BranchAlways(m: Machine, operand: int): Machine {
    m.(regs := m.regs.(pc := operand))
  }

  function BranchPositive(m: Machine, operand: int): Machine {
    if m.regs.p then m.(regs := m.regs.(pc := operand)) else m
  }

  function BranchZero(m: Machine, operand: int): Machine {
    if m.regs.z then m.(regs := m.regs.(pc := operand)) else m
  }

  /**
   * INP: with the I/O request set, read the input port and load the low byte
   * of the value; then clear the request.  A `None` read raises.
   */
  function Input(m: Machine): Result<Machine> {
    var (v, b, d) := BusRead(m.bus.(isIoRequest := true), m.devs, InputPort);
    if v.None? then Err(TypeError)
    else Ok(Machine(SetAccumulator(m.regs, v.value % 256), b.(isIoRequest := false), d))
  }

  /** OUT: with the I/O request set, write the whole accumulator to the output port; then clear the request. */
  function Output(m: Machine): Result<Machine> {
    match BusWrite(m.bus.(isIoRequest := true), m.devs, OutputPort, m.regs.acc)
    case Ok((b, d)) => Ok(m.(bus := b.(isIoRequest := false), devs := d))
    case Err(e) => Err(e)
  }

  /** `execute(opcode, operand)`: the sixteen-way dispatch. */
  function Execute(m: Machine, opcode: int, operand: int): (r: Result<Machine>)
    ensures !(0 <= opcode < 16) ==> r == Err(ValueError(IllegalOpcode(opcode)))
  {
    match opcode
    case 0x0 => Ok(Halt(m))
    case 0x1 => Load(m, operand)
    case 0x2 => Store(m, operand)
    case 0x3 => Operate(m, operand, Add)
    case 0x4 => Operate(m, operand, Sub)
    case 0x5 => Operate(m, operand, And)
    case 0x6 => Operate(m, operand, Or)
    case 0x7 => Operate(m, operand, Xor)
    case 0x8 => Ok(Not(m))
    case 0x9 => Ok(ShiftLeft(m))
    case 0xA => Ok(ShiftRight(m))
    case 0xB => Ok(BranchAlways(m, operand))
    case 0xC => Ok(BranchPositive(m, operand))
    case 0xD => Ok(BranchZero(m, operand))
    case 0xE => Input(m)
    case 0xF => Output(m)
    case _ => Err(ValueError(IllegalOpcode(opcode)))
  }

  /** `step`: fetch at the program counter, count it up, decode, execute.  `active` is not consulted. */
  function Step(m: Machine): Result<Machine> {
    var (ir, m1) := Fetch(m, m.regs.pc);
    var m2 := m1.(regs := m1.regs.(ir := ir, pc := m1.regs.pc + 1));
    match ir
    case None => Err(TypeError)
    case Some(w) => Execute(m2, Decode(w).0, Decode(w).1)
  }

  /** `run`: step while active, for at most `fuel` steps. */
  function Run(m: Machine, fuel: nat): (r: Result<Machine>)
    ensures !m.regs.active ==> r == Ok(m)
    decreases fuel
  {
    if !m.regs.active || fuel == 0 then Ok(m)
    else match Step(m)
      case Ok(m') => Run(m', fuel - 1)
      case Err(e) => Err(e)
  }

  // ---------------------------------------------------------------------------
  // Properties of the instructions

  /** An ADD that carries out of sixteen bits leaves a zero accumulator with Z clear. */
  lemma AddCarryLeavesZeroClear(m: Machine, operand: int, v: int)
    requires Fetch(m, operand).0 == Some(v) && m.regs.acc + v == WordModulus
    ensures Execute(m, 0x3, operand).Ok?
    ensures Execute(m, 0x3, operand).value.regs.acc == 0
    ensures !Execute(m, 0x3, operand).value.regs.z && Execute(m, 0x3, operand).value.regs.p
  {
  }

  /**
   * A step reads the word at `pc & 0xFFF` into the instruction register and
   * counts the program counter up by one, unwrapped, keeping the other
   * registers; then it executes the word's opcode field with its operand
   * field.  A read that yields no word raises in `decode`.
   */
  lemma StepFetchesAndAdvances(m: Machine)
    ensures Fetch(m, m.regs.pc).0.None? ==> Step(m) == Err(TypeError)
    ensures Fetch(m, m.regs.pc).0.Some? ==>
      var w := Fetch(m, m.regs.pc).0.value;
      var m2 := Fetch(m, m.regs.pc).1;
      && (Some(w), m2.bus, m2.devs) == BusRead(m.bus, m.devs, m.regs.pc % OperandModulus)
      && m2.devs.ram == m.devs.ram
      && Step(m) == Execute(m2.(regs := m.regs.(ir := Some(w), pc := m.regs.pc + 1)), Opcode(w), Operand(w))
      && (0 <= w < WordModulus ==> Encode(Opcode(w), Operand(w)) == w)
  {
    var (ir, m1) := Fetch(m, m.regs.pc);
    if ir.Some? {
      assert m1.regs == m.regs;
      EncodeDecode(if 0 <= ir.value < WordModulus then ir.value else 0);
    }
  }

  /** HLT clears `active` and changes nothing else; its operand is ignored. */
  lemma HaltClearsActive(m: Machine, operand: int)
    ensures Execute(m, 0x0, operand).Ok?
    ensures !Execute(m, 0x0, operand).value.regs.active
    ensures Execute(m, 0x0, operand).value == m.(regs := m.regs.(active := false))
  {
  }

  /**
   * LDA loads the word read at its operand: the accumulator and flags are
   * set from it as `set_accumulator` does, the bus and devices are as the
   * read left them, and the RAM is unchanged.  It raises exactly when the
   * read yields no word.
   */
  lemma LoadReadsMemory(m: Machine, operand: int)
    ensures Execute(m, 0x1, operand).Err? <==> Fetch(m, operand).0.None?
    ensures Execute(m, 0x1, operand).Err? ==> Execute(m, 0x1, operand).error == TypeError
    ensures Execute(m, 0x1, operand).Ok? ==>
      && Execute(m, 0x1, operand).value == Fetch(m, operand).1.(regs := SetAccumulator(m.regs, Fetch(m, operand).0.value))
      && Execute(m, 0x1, operand).value.devs.ram == m.devs.ram
  {
  }

  /**
   * ADD, SUB, AND, OR and XOR combine the accumulator with the word read at
   * their operand and hand the result, unmasked, to `set_accumulator`; the
   * RAM is unchanged.  Each raises exactly when the read yields no word.
   */
  lemma OperateCombinesMemory(m: Machine, operand: int, op: AluOp)
    ensures Execute(m, AluOpcode(op), operand).Err? <==> Fetch(m, operand).0.None?
    ensures Execute(m, AluOpcode(op), operand).Err? ==> Execute(m, AluOpcode(op), operand).error == TypeError
    ensures Execute(m, AluOpcode(op), operand).Ok? ==>
      && Execute(m, AluOpcode(op), operand).value
         == Fetch(m, operand).1.(regs := SetAccumulator(m.regs, Combine(op, m.regs.acc, Fetch(m, operand).0.value)))
      && Execute(m, AluOpcode(op), operand).value.devs.ram == m.devs.ram
  {
  }

  /**
   * NOT leaves the complement 0xFFFF - acc, P set exactly when the old sign
   * bit was set, and never sets Z, even when the complement is zero.
   */
  lemma NotNeverSetsZero(m: Machine, operand: int)
    ensures Execute(m, 0x8, operand) == Ok(Not(m))
    ensures Not(m).regs.acc == 0xFFFF - m.regs.acc
    ensures Not(m).regs.p <==> m.regs.acc >= SignBit
    ensures !Not(m).regs.z
  {
  }

  /**
   * The opcode the mnemonic table calls `shl` halves the accumulator, and
   * the one it calls `shr` doubles it (dropping bit 15); doubling 0x8000
   * leaves zero with Z clear.
   */
  lemma ShiftsSwapped(m: Machine, operand: int)
    ensures Execute(m, OpcodeTable["shl"], operand) == Ok(ShiftLeft(m))
    ensures ShiftLeft(m).regs.acc == m.regs.acc / 2
    ensures Execute(m, OpcodeTable["shr"], operand) == Ok(ShiftRight(m))
    ensures ShiftRight(m).regs.acc == (m.regs.acc * 2) % WordModulus
    ensures ShiftRight(m).regs.z <==> m.regs.acc == 0
  {
  }

  /**
   * BRA, BRP and BRZ set the program counter to the operand (BRP when P is
   * set, BRZ when Z is set) and change nothing else; STORE changes no
   * register.
   */
  lemma BranchesAndStoreKeepRegisters(m: Machine, opcode: int, operand: int)
    requires opcode in {0x2, 0xB, 0xC, 0xD}
    ensures var taken := opcode == 0xB || (opcode == 0xC && m.regs.p) || (opcode == 0xD && m.regs.z);
            opcode != 0x2 ==> Execute(m, opcode, operand) == Ok(m.(regs := m.regs.(pc := if taken then operand else m.regs.pc)))
    ensures opcode == 0x2 && Execute(m, opcode, operand).Ok? ==> Execute(m, opcode, operand).value.regs == m.regs
  {
  }

  /**
   * STORE to a memory cell (no I/O request, some memory client registered,
   * the address inside the window and the cells) writes the masked
   * accumulator there.
   */
  lemma StoreWritesMemory(m: Machine, operand: int)
    requires !m.bus.isIoRequest && HasMemory(m.bus.handlers)
    requires RamResponds(m.devs.ram, operand, false) && 0 <= operand < |m.devs.ram.mem|
    ensures Execute(m, 0x2, operand).Ok?
    ensures RamRead(Execute(m, 0x2, operand).value.devs.ram, operand) == Some(MaskData(m.regs.acc, m.devs.ram.bitMask))
  {
    WriteReachesEveryMatch(m.bus.handlers, m.devs, operand, false, m.regs.acc);
  }

  /**
   * OUT and INP ignore their operand and leave the I/O request cleared.  OUT
   * never fails and sends the low byte of the accumulator to the terminal
   * once per terminal registration, leaving memory alone.
   */
  lemma OutputToTerminal(m: Machine, x: int, y: int)
    ensures Execute(m, 0xF, x) == Execute(m, 0xF, y) == Output(m)
    ensures Execute(m, 0xE, x) == Execute(m, 0xE, y) == Input(m)
    ensures Input(m).Ok? ==> !Input(m).value.bus.isIoRequest
    ensures Output(m).Ok? && !Output(m).value.bus.isIoRequest
    ensures Output(m).value.regs == m.regs && Output(m).value.devs.ram == m.devs.ram
    ensures Output(m).value.devs.con.output == m.devs.con.output + Repeat(m.regs.acc % 256, ConsoleCount(m.bus.handlers))
  {
    WriteReachesEveryMatch(m.bus.handlers, m.devs, OutputPort, true, m.regs.acc);
  }

  /**
   * With one terminal registered, INP loads the low byte of its next input
   * value and consumes it; with no input pending, the read yields None and
   * INP raises.
   */
  lemma InputFromTerminal(m: Machine)
    requires ConsoleCount(m.bus.handlers) == 1
    ensures m.devs.con.input != [] ==>
      && Input(m).Ok?
      && Input(m).value.regs == SetAccumulator(m.regs, m.devs.con.input[0] % 256)
      && Input(m).value.devs.con.input == m.devs.con.input[1..]
    ensures m.devs.con.input == [] ==> Input(m) == Err(TypeError)
  {
    if m.devs.con.input != [] {
      IoReadOneConsole(m.bus.handlers, m.devs, None);
    } else {
      assert !AnyResponds(m.bus.handlers, m.devs, InputPort, true) ==> ReadAll(m.bus.handlers, m.devs, InputPort, true, None).0 == None by {
        if !AnyResponds(m.bus.handlers, m.devs, InputPort, true) {
          ReadNoMatch(m.bus.handlers, m.devs, InputPort, true, None);
        }
      }
      EmptyTerminalReadsNone(m.bus.handlers, m.devs, None);
    }
  }

  /** An I/O read of the input port with no input pending never produces a value. */
  lemma {:induction false} EmptyTerminalReadsNone(hs: seq<Client>, d: Devices, data: Option<int>)
    requires d.con.input == []
    ensures ReadAll(hs, d, InputPort, true, data) == (if data.None? || AnyResponds(hs, d, InputPort, true) then None else data, d)
  {
    if hs != [] {
      EmptyTerminalReadsNone(hs[1..], d, if Responds(hs[0], d, InputPort, true) then None else data);
      if AnyResponds(hs[1..], d, InputPort, true) {
        var k :| 0 <= k < |hs[1..]| && Responds(hs[1..][k], d, InputPort, true);
        assert hs[k + 1] == hs[1..][k];
      }
      if AnyResponds(hs, d, InputPort, true) && !Responds(hs[0], d, InputPort, true) {
        var k :| 0 <= k < |hs| && Responds(hs[k], d, InputPort, true);
        assert hs[1..][k - 1] == hs[k];
      }
    }
  }

  /**
   * `step` does not look at `active`: apart from that flag, a step of a
   * halted machine does exactly what a step of a running one does.
   */
  lemma StepIgnoresActive(m: Machine, a: bool)
    ensures var m' := m.(regs := m.regs.(active := a));
            && Step(m').Ok? == Step(m).Ok?
            && (Step(m).Ok? ==> SameButActive(Step(m').value, Step(m).value))
  {
    var m' := m.(regs := m.regs.(active := a));
    var (ir, m1) := Fetch(m, m.regs.pc);
    var m2 := m1.(regs := m1.regs.(ir := ir, pc := m1.regs.pc + 1));
    assert Fetch(m', m.regs.pc) == (ir, m1.(regs := m'.regs));
    if ir.Some? {
      ExecuteIgnoresActive(m2, a, Decode(ir.value).0, Decode(ir.value).1);
    }
  }

  /** Two machines that differ at most in `active`. */
  predicate SameButActive(m: Machine, m': Machine) {
    m.regs.(active := true) == m'.regs.(active := true) && m.bus == m'.bus && m.devs == m'.devs
  }

  lemma ExecuteIgnoresActive(m: Machine, a: bool, opcode: int, operand: int)
    ensures var m' := m.(regs := m.regs.(active := a));
            && Execute(m', opcode, operand).Ok? == Execute(m, opcode, operand).Ok?
            && (Execute(m, opcode, operand).Ok? ==> SameButActive(Execute(m', opcode, operand).value, Execute(m, opcode, operand).value))
  {
    var m' := m.(regs := m.regs.(active := a));
    match opcode
    case 0x1 => FetchIgnoresActive(m, a, operand);
    case 0x3 => OperateIgnoresActive(m, a, operand, Add);
    case 0x4 => OperateIgnoresActive(m, a, operand, Sub);
    case 0x5 => OperateIgnoresActive(m, a, operand, And);
    case 0x6 => OperateIgnoresActive(m, a, operand, Or);
    case 0x7 => OperateIgnoresActive(m, a, operand, Xor);
    case 0xE => assert Input(m').Ok? == Input(m).Ok?;
    case 0xF => assert Output(m').Ok? == Output(m).Ok?;
    case _ =>
  }

  /** A fetch reads the same value whatever `active` is, and keeps the registers it was given. */
  lemma FetchIgnoresActive(m: Machine, a: bool, operand: int)
    ensures Fetch(m.(regs := m.regs.(active := a)), operand)
         == (Fetch(m, operand).0, Fetch(m, operand).1.(regs := m.regs.(active := a)))
  {
  }

  /** An arithmetic or logic instruction acts the same whatever `active` is. */
  lemma OperateIgnoresActive(m: Machine, a: bool, operand: int, op: AluOp)
    ensures var m' := m.(regs := m.regs.(active := a));
            && Operate(m', operand, op).Ok? == Operate(m, operand, op).Ok?
            && (Operate(m, operand, op).Ok? ==> SameButActive(Operate(m', operand, op).value, Operate(m, operand, op).value))
  {
    FetchIgnoresActive(m, a, operand);
  }

  /**
   * The stored program counter is never wrapped: a step at 0xFFF leaves
   * 0x1000, and the next fetch reads address 0.
   */
  lemma ProgramCounterNotWrapped(m: Machine)
    requires m.regs.pc == 0xFFF
    requires Fetch(m, m.regs.pc).0.Some? && Opcode(Fetch(m, m.regs.pc).0.value) == 0x8
    ensures Step(m).Ok? && Step(m).value.regs.pc == 0x1000
    ensures Fetch(Step(m).value, Step(m).value.regs.pc) == Fetch(Step(m).value, 0)
  {
  }

  // ---------------------------------------------------------------------------
  // Example programs

  /** A new CPU on a bus holding the given handlers, over the given devices. */
  function Boot(handlers: seq<Client>, devs: Devices): Machine {
    Machine(InitialRegs, BusView(Some(0), 0, handlers, false), devs)
  }

  /** A 32-cell, 16-bit memory placed at address 0, as `Memory(32, 16)` builds it. */
  function SmallRam(): RamView {
    RamView(Repeat(0, 32), 0, 32, 0xFFFF)
  }

  /**
   * Three words (LDA 1, the data word 0x00FF, zero) and five steps.  The data
   * word decodes as a halt, and the three steps after halting still run: the
   * accumulator ends at 0xFF and the program counter at 5.
   */
  lemma StepsAfterHalt()
    ensures var m0 := Boot([MemoryClient], Devices(SmallRam(), ConsoleView([], [])));
            var m1 := WriteWord(m0, 0, 0x1001);
            && m1.Ok?
            && var m2 := WriteWord(m1.value, 1, 0x00FF);
            && m2.Ok?
            && var m3 := WriteWord(m2.value, 2, 0x0000);
            && m3.Ok?
            && var s1 := Step(m3.value);
            && s1.Ok? && s1.value.regs.acc == 0xFF && s1.value.regs.active
            && var s2 := Step(s1.value);
            && s2.Ok? && !s2.value.regs.active
            && var s5 := Step(Step(Step(s2.value).value).value);
            && s5.Ok? && s5.value.regs.acc == 0xFF && s5.value.regs.pc == 5 && !s5.value.regs.active
  {
    var m0 := Boot([MemoryClient], Devices(SmallRam(), ConsoleView([], [])));
    var m1 := WriteWord(m0, 0, 0x1001).value;
    var m2 := WriteWord(m1, 1, 0x00FF).value;
    var m3 := WriteWord(m2, 2, 0x0000).value;
    assert m3.devs.ram.mem[0] == 0x1001 && m3.devs.ram.mem[1] == 0x00FF && m3.devs.ram.mem[2] == 0;
    var s1 := Step(m3).value;
    assert s1.regs.acc == 0xFF;
    var s2 := Step(s1).value;
    var s3 := Step(s2).value;
    var s4 := Step(s3).value;
    assert s4.regs.pc == 4;
  }

  /** Writes each (address, word) pair in turn, as a sequence of `cpu.write` calls does. */
  function WriteWords(m: Machine, words: seq<(int, int)>): Result<Machine>
    decreases |words|
  {
    if words == [] then Ok(m)
    else match WriteWord(m, words[0].0, words[0].1)
      case Ok(m') => WriteWords(m', words[1..])
      case Err(e) => Err(e)
  }

  /** The echo program (LDA 4, OUT, INP, BRA 1, data 0x41) in the small memory. */
  const EchoWords: seq<(int, int)> := [(0, 0x1004), (1, 0xF0FF), (2, 0xE0FE), (3, 0xB001), (4, 0x0041)]

  function EchoRam(): RamView {
    SmallRam().(mem := [0x1004, 0xF0FF, 0xE0FE, 0xB001, 0x0041] + Repeat(0, 27))
  }

  /** A running machine with the echo program loaded, both devices registered, Z clear and P set. */
  function Echo(acc: Word, pc: int, ir: int, data: int, address: int, input: seq<int>, output: seq<int>): Machine {
    Machine(Regs(acc, pc, Some(ir), false, true, true),
            BusView(Some(data), address, [MemoryClient, ConsoleClient], false),
            Devices(EchoRam(), ConsoleView(input, output)))
  }

  lemma EchoLoads()
    ensures WriteWords(Boot([MemoryClient, ConsoleClient], Devices(SmallRam(), ConsoleView([0x42], []))), EchoWords)
         == Ok(Boot([MemoryClient, ConsoleClient], Devices(EchoRam(), ConsoleView([0x42], []))).(bus := BusView(Some(0x41), 4, [MemoryClient, ConsoleClient], false)))
  {
    var m0 := Boot([MemoryClient, ConsoleClient], Devices(SmallRam(), ConsoleView([0x42], [])));
    var m1 := WriteWord(m0, 0, 0x1004).value;
    var m2 := WriteWord(m1, 1, 0xF0FF).value;
    var m3 := WriteWord(m2, 2, 0xE0FE).value;
    var m4 := WriteWord(m3, 3, 0xB001).value;
    var m5 := WriteWord(m4, 4, 0x0041).value;
    assert m5.devs.ram.mem == EchoRam().mem;
    assert WriteWords(m4, EchoWords[4..]) == Ok(m5);
    assert WriteWords(m3, EchoWords[3..]) == Ok(m5);
    assert WriteWords(m2, EchoWords[2..]) == Ok(m5);
    assert WriteWords(m1, EchoWords[1..]) == Ok(m5);
  }

  lemma EchoLoadAndOut()
    ensures Step(Boot([MemoryClient, ConsoleClient], Devices(EchoRam(), ConsoleView([0x42], []))).(bus := BusView(Some(0x41), 4, [MemoryClient, ConsoleClient], false)))
         == Ok(Echo(0x41, 1, 0x1004, 0x41, 4, [0x42], []))
    ensures Step(Echo(0x41, 1, 0x1004, 0x41, 4, [0x42], [])) == Ok(Echo(0x41, 2, 0xF0FF, 0x41, 0xFF, [0x42], [0x41]))
  {
    EchoOut(Echo(0x41, 1, 0x1004, 0x41, 4, [0x42], []));
    assert [] + [0x41 % 256] == [0x41];
  }

  lemma EchoHandlers()
    ensures ConsoleCount([MemoryClient, ConsoleClient]) == 1
  {
    assert [MemoryClient, ConsoleClient][1..] == [ConsoleClient];
    assert [ConsoleClient][1..] == [];
  }

  /** OUT at address 1 of the echo program. */
  lemma EchoOut(m: Machine)
    requires m.regs.pc == 1 && m.devs.ram == EchoRam() && m.bus.handlers == [MemoryClient, ConsoleClient] && !m.bus.isIoRequest
    ensures Step(m) == Ok(m.(regs := m.regs.(pc := 2, ir := Some(0xF0FF)),
                             bus := m.bus.(data := Some(m.regs.acc), address := OutputPort),
                             devs := m.devs.(con := m.devs.con.(output := m.devs.con.output + [m.regs.acc % 256]))))
  {
    ReadAwayFromTerminal(m.bus.handlers, m.devs, 1, false, None);
    assert m.bus.handlers[0] == MemoryClient;
    var (ir, m1) := Fetch(m, 1);
    var m2 := m1.(regs := m1.regs.(ir := ir, pc := 2));
    EchoHandlers();
    OutputToTerminal(m2, 0xFF, 0xFF);
  }

  /** INP at address 2 of the echo program. */
  lemma EchoIn(m: Machine)
    requires m.regs.pc == 2 && m.devs.ram == EchoRam() && m.bus.handlers == [MemoryClient, ConsoleClient] && !m.bus.isIoRequest
    ensures m.devs.con.input != [] ==>
      Step(m) == Ok(Machine(SetAccumulator(m.regs.(pc := 3, ir := Some(0xE0FE)), m.devs.con.input[0] % 256),
                            m.bus.(data := Some(m.devs.con.input[0]), address := InputPort),
                            m.devs.(con := m.devs.con.(input := m.devs.con.input[1..]))))
    ensures m.devs.con.input == [] ==> Step(m) == Err(TypeError)
  {
    ReadAwayFromTerminal(m.bus.handlers, m.devs, 2, false, None);
    assert m.bus.handlers[0] == MemoryClient;
    var (ir, m1) := Fetch(m, 2);
    var m2 := m1.(regs := m1.regs.(ir := ir, pc := 3));
    EchoHandlers();
    InputFromTerminal(m2);
    if m.devs.con.input != [] {
      IoReadOneConsole(m2.bus.handlers, m2.devs, None);
    }
  }

  lemma EchoInAndBranch()
    ensures Step(Echo(0x41, 2, 0xF0FF, 0x41, 0xFF, [0x42], [0x41])) == Ok(Echo(0x42, 3, 0xE0FE, 0x42, 0xFE, [], [0x41]))
    ensures Step(Echo(0x42, 3, 0xE0FE, 0x42, 0xFE, [], [0x41])) == Ok(Echo(0x42, 1, 0xB001, 0xB001, 3, [], [0x41]))
  {
    EchoIn(Echo(0x41, 2, 0xF0FF, 0x41, 0xFF, [0x42], [0x41]));
    assert [0x42][1..] == [];
  }

  lemma EchoSecondPass()
    ensures Step(Echo(0x42, 1, 0xB001, 0xB001, 3, [], [0x41])) == Ok(Echo(0x42, 2, 0xF0FF, 0x42, 0xFF, [], [0x41, 0x42]))
    ensures Step(Echo(0x42, 2, 0xF0FF, 0x42, 0xFF, [], [0x41, 0x42])) == Err(TypeError)
  {
    EchoOut(Echo(0x42, 1, 0xB001, 0xB001, 3, [], [0x41]));
    assert [0x41] + [0x42 % 256] == [0x41, 0x42];
    EchoIn(Echo(0x42, 2, 0xF0FF, 0x42, 0xFF, [], [0x41, 0x42]));
  }

  /**
   * The echo program with one pending input value 0x42: after four steps
   * the terminal has received 0x41, the accumulator holds 0x42 and the
   * program counter is 1 (the branch word 0xB001 targets address 1).  The
   * next OUT echoes 0x42, and the INP after it, finding no input, raises.
   */
  lemma EchoProgram()
    ensures var loaded := WriteWords(Boot([MemoryClient, ConsoleClient], Devices(SmallRam(), ConsoleView([0x42], []))), EchoWords);
            && loaded.Ok?
            && Run(loaded.value, 4) == Ok(Echo(0x42, 1, 0xB001, 0xB001, 3, [], [0x41]))
            && Run(loaded.value, 5) == Ok(Echo(0x42, 2, 0xF0FF, 0x42, 0xFF, [], [0x41, 0x42]))
            && Run(loaded.value, 6) == Err(TypeError)
  {
    EchoLoads();
    EchoLoadAndOut();
    EchoInAndBranch();
    EchoSecondPass();
  }
}
