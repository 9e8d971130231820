/**
 * The Tiny-P `CPU` object: its registers, ROM and RAM are attributes that
 * each method updates in place.  Every method is proved to do what the
 * function of the same name in `TinyPMachine` says.
 */
module TinyPCpu {
  import opened Py
  import P = TinyPMachine

  class CPU {
    var acc: int
    var pc: int
    var instr: int
    var zeroFlag: bool
    var posFlag: bool
    var prog: seq<int>
    var mem: seq<int>
    var halted: bool
    var opcode: int
    var operand: int

    function View(): P.PState
      reads this
    {
      P.PState(acc, pc, instr, zeroFlag, posFlag, prog, mem, halted, opcode, operand)
    }

    constructor ()
      ensures View() == P.Initial
    {
      acc, pc, instr := 0, 0, 0;
      zeroFlag, posFlag := true, true;
      prog, mem := [], [];
      halted := false;
      opcode, operand := 0, 0;
    }

    /** `run`, stopped after `fuel` steps if nothing has halted the CPU by then. */
    method Run(fuel: nat) returns (s: Status)
      modifies this
      ensures s == StatusOf(P.Run(old(View()), fuel))
      ensures s.Pass? ==> View() == P.Run(old(View()), fuel).value
    {
      var n := fuel;
      while !halted && n > 0
        invariant P.Run(View(), n) == P.Run(old(View()), fuel)
        decreases n
      {
        s := Step();
        if s.Fail? {
          return;
        }
        n := n - 1;
      }
      s := Pass;
    }

    method Step() returns (s: Status)
      modifies this
      ensures s == StatusOf(P.Step(old(View())))
      ensures s.Pass? ==> View() == P.Step(old(View())).value
    {
      s := Fetch();
      if s.Fail? {
        return;
      }
      s := Decode();
    }

    method Halt()
      modifies this
      ensures View() == P.Halt(old(View()))
    {
      halted := true;
    }

    /** `cold_start` */
    method ColdStart()
      modifies this
      ensures View() == P.InitRom(old(View()))
    {
      InitRom();
    }

    method Reset()
      modifies this
      ensures View() == P.Reset(old(View()))
    {
      acc, pc, instr := 0, 0, 0;
      zeroFlag, posFlag := true, true;
      InitMemory();
    }

    method UpdateAcc(value: int)
      modifies this
      ensures View() == P.UpdateAcc(old(View()), value)
    {
      acc := value;
      UpdateStatus();
    }

    method UpdatePc(value: int)
      modifies this
      ensures View() == old(View()).(pc := value)
    {
      pc := value;
    }

    method UpdateStatus()
      modifies this
      ensures View() == P.UpdateStatus(old(View()))
    {
      zeroFlag := acc == 0;
      posFlag := acc >= 0;
    }

    /** `init_rom`: appends one zero cell at a time. */
    method InitRom()
      modifies this
      ensures View() == P.InitRom(old(View()))
    {
      var i := 0;
      while i < P.MaxMem
        invariant 0 <= i <= P.MaxMem
        invariant View() == old(View()).(prog := old(prog) + Repeat(0, i))
      {
        prog := prog + [0];
        i := i + 1;
        assert Repeat(0, i) == Repeat(0, i - 1) + [0];
      }
    }

    /** `init_memory`: appends one zero cell at a time. */
    method InitMemory()
      modifies this
      ensures View() == P.InitMemory(old(View()))
    {
      var i := 0;
      while i < P.MaxMem
        invariant 0 <= i <= P.MaxMem
        invariant View() == old(View()).(mem := old(mem) + Repeat(0, i))
      {
        mem := mem + [0];
        i := i + 1;
        assert Repeat(0, i) == Repeat(0, i - 1) + [0];
      }
    }

    method ReadMemory(address: int) returns (r: Result<int>)
      ensures r == P.ReadMemory(View(), address)
    {
      var i := PyIndex(|mem|, address);
      if i.None? {
        return Err(IndexError);
      }
      r := Ok(mem[i.value]);
    }

    method WriteMemory(address: int, value: int) returns (s: Status)
      modifies this
      ensures s == StatusOf(P.WriteMemory(old(View()), address, value))
      ensures s.Pass? ==> View() == P.WriteMemory(old(View()), address, value).value
    {
      var i := PyIndex(|mem|, address);
      if i.None? {
        return Fail(IndexError);
      }
      mem := mem[i.value := value];
      s := Pass;
    }

    method ReadProg(address: int) returns (r: Result<int>)
      ensures r == P.ReadProg(View(), address)
    {
      var i := PyIndex(|prog|, address);
      if i.None? {
        return Err(IndexError);
      }
      r := Ok(prog[i.value]);
    }

    /** `program(address, value)` */
    method Program(address: int, value: int) returns (s: Status)
      modifies this
      ensures s == StatusOf(P.Program(old(View()), address, value))
      ensures s.Pass? ==> View() == P.Program(old(View()), address, value).value
    {
      var i := PyIndex(|prog|, address);
      if i.None? {
        return Fail(IndexError);
      }
      prog := prog[i.value := value];
      s := Pass;
    }

    method TestOpcode(expected: int) returns (s: Status)
      ensures s.Pass? <==> opcode == expected
      ensures s.Fail? ==> s.error == ValueError(IllegalOpcode(opcode))
    {
      if opcode != expected {
        return Fail(ValueError(IllegalOpcode(opcode)));
      }
      s := Pass;
    }

    method TestOperand() returns (s: Status)
      ensures s.Pass? <==> operand < 100
      ensures s.Fail? ==> s.error == ValueError(IllegalOperand(operand))
    {
      if operand >= 100 {
        return Fail(ValueError(IllegalOperand(operand)));
      }
      s := Pass;
    }

    /** Both tests, as every instruction method but `nop` runs them. */
    method Tests(expected: int) returns (s: Status)
      ensures s == P.Tested(View(), expected)
    {
      s := TestOpcode(expected);
      if s.Fail? {
        return;
      }
      s := TestOperand();
    }

    method Fetch() returns (s: Status)
      modifies this
      ensures s == StatusOf(P.Fetch(old(View())))
      ensures s.Pass? ==> View() == P.Fetch(old(View())).value
    {
      var w := ReadProg(pc);
      if w.Err? {
        return Fail(w.error);
      }
      instr := w.value;
      pc := pc + 1;
      if pc >= P.MaxMem {
        pc := 0;
      }
      s := Pass;
    }

    /**
     * `decode`: the range of a hundred words `instr` lies in names the
     * opcode, and the instruction method of that opcode runs.
     */
    method Decode() returns (s: Status)
      modifies this
      ensures s == StatusOf(P.Decode(old(View())))
      ensures s.Pass? ==> View() == P.Decode(old(View())).value
    {
      if !(0 <= instr < 1000) {
        return Fail(ValueError(UndefinedOpcode(instr)));
      }
      SplitWord();
      s := Execute();
    }

    /** The opcode and operand fields of `instr`, one range at a time. */
    method SplitWord()
      requires 0 <= instr < 1000
      modifies this
      ensures P.Fields(old(instr)).Some?
      ensures View() == old(View()).(opcode := P.Fields(old(instr)).value.0, operand := P.Fields(old(instr)).value.1)
    {
      if 0 <= instr < 100 {
        P.FieldsRoundTrip(0, instr - 0);
        opcode, operand := 0, instr - 0;
      } else if 100 <= instr < 200 {
        P.FieldsRoundTrip(1, instr - 100);
        opcode, operand := 1, instr - 100;
      } else if 200 <= instr < 300 {
        P.FieldsRoundTrip(2, instr - 200);
        opcode, operand := 2, instr - 200;
      } else if 300 <= instr < 400 {
        P.FieldsRoundTrip(3, instr - 300);
        opcode, operand := 3, instr - 300;
      } else if 400 <= instr < 500 {
        P.FieldsRoundTrip(4, instr - 400);
        opcode, operand := 4, instr - 400;
      } else if 500 <= instr < 600 {
        P.FieldsRoundTrip(5, instr - 500);
        opcode, operand := 5, instr - 500;
      } else if 600 <= instr < 700 {
        P.FieldsRoundTrip(6, instr - 600);
        opcode, operand := 6, instr - 600;
      } else if 700 <= instr < 800 {
        P.FieldsRoundTrip(7, instr - 700);
        opcode, operand := 7, instr - 700;
      } else if 800 <= instr < 900 {
        P.FieldsRoundTrip(8, instr - 800);
        opcode, operand := 8, instr - 800;
      } else if 900 <= instr < 1000 {
        P.FieldsRoundTrip(9, instr - 900);
        opcode, operand := 9, instr - 900;
      }
    }

    /** The instruction method `decode` calls for the opcode it found. */
    method Execute() returns (s: Status)
      requires 0 <= opcode < 10
      modifies this
      ensures s == StatusOf(P.Execute(old(View())))
      ensures s.Pass? ==> View() == P.Execute(old(View())).value
    {
      match opcode {
        case 0 => s := Nop();
        case 1 => s := Lda();
        case 2 => s := Sta();
        case 3 => s := Operate(P.And);
        case 4 => s := Operate(P.Or);
        case 5 => s := Not();
        case 6 => s := Operate(P.Add);
        case 7 => s := Operate(P.Sub);
        case 8 => s := Brz();
        case _ => s := Brp();
      }
    }

    method Nop() returns (s: Status)
      ensures s == StatusOf(P.Nop(View()))
    {
      if opcode != 0 {
        return Fail(ValueError(IllegalOpcode(opcode)));
      }
      s := Pass;
    }

    method Lda() returns (s: Status)
      modifies this
      ensures s == StatusOf(P.Lda(old(View())))
      ensures s.Pass? ==> View() == P.Lda(old(View())).value
    {
      s := Tests(1);
      if s.Fail? {
        return;
      }
      var v := ReadMemory(operand);
      if v.Err? {
        return Fail(v.error);
      }
      UpdateAcc(v.value);
    }

    method Sta() returns (s: Status)
      modifies this
      ensures s == StatusOf(P.Sta(old(View())))
      ensures s.Pass? ==> View() == P.Sta(old(View())).value
    {
      s := Tests(2);
      if s.Fail? {
        return;
      }
      s := WriteMemory(operand, acc);
    }

    /** `and_`, `or_`, `add` and `sub`. */
    method Operate(op: P.AluOp) returns (s: Status)
      modifies this
      ensures s == StatusOf(P.Operate(old(View()), op))
      ensures s.Pass? ==> View() == P.Operate(old(View()), op).value
    {
      s := Tests(P.OpcodeOfAlu(op));
      if s.Fail? {
        return;
      }
      var v := ReadMemory(operand);
      if v.Err? {
        return Fail(v.error);
      }
      UpdateAcc(P.Combine(op, acc, v.value));
    }

    /** `not_` */
    method Not() returns (s: Status)
      modifies this
      ensures s == StatusOf(P.Not(old(View())))
      ensures s.Pass? ==> View() == P.Not(old(View())).value
    {
      s := Tests(5);
      if s.Fail? {
        return;
      }
      UpdateAcc(if acc == 0 then 1 else 0);
    }

    method Brz() returns (s: Status)
      modifies this
      ensures s == StatusOf(P.Branch(old(View()), 8, old(zeroFlag)))
      ensures s.Pass? ==> View() == P.Branch(old(View()), 8, old(zeroFlag)).value
    {
      s := Tests(8);
      if s.Fail? {
        return;
      }
      if zeroFlag {
        UpdatePc(operand);
      }
    }

    method Brp() returns (s: Status)
      modifies this
      ensures s == StatusOf(P.Branch(old(View()), 9, old(posFlag)))
      ensures s.Pass? ==> View() == P.Branch(old(View()), 9, old(posFlag)).value
    {
      s := Tests(9);
      if s.Fail? {
        return;
      }
      if posFlag {
        UpdatePc(operand);
      }
    }
  }
}
