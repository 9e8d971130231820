/**
 * The Tiny-T `CPU` object: its registers are fields updated in place, and
 * every bus transaction goes through the `Bus` object it was built with.
 * Each method is proved to do what the function of the same name in
 * `TinyTMachine` says.
 */
module TinyTCpu {
  import opened Py
  import opened TinyTIsa
  import opened TinyTBus
  import M = TinyTMachine

  class CPU {
    var accumulator: M.Word
    var programCounter: int
    var instructionRegister: Option<int>
    var zFlag: bool
    var pFlag: bool
    var active: bool
    const bus: Bus

    function Registers(): M.Regs
      reads this
    {
      M.Regs(accumulator, programCounter, instructionRegister, zFlag, pFlag, active)
    }

    function View(): M.Machine
      reads this, bus, bus.ram, bus.con
    {
      M.Machine(Registers(), bus.View(), bus.Devs())
    }

    constructor (bus: Bus)
      ensures Registers() == M.InitialRegs && this.bus == bus
    {
      accumulator := 0;
      programCounter := 0;
      instructionRegister := Some(0);
      zFlag := false;
      pFlag := false;
      this.bus := bus;
      active := true;
    }

    method SetAccumulator(value: int)
      modifies this
      ensures Registers() == M.SetAccumulator(old(Registers()), value)
    {
      zFlag := value == 0;
      pFlag := value % WordModulus < M.SignBit;
      accumulator := value % WordModulus;
    }

    method Fetch(address: int) returns (v: Option<int>)
      modifies bus, bus.con
      ensures (v, View()) == M.Fetch(old(View()), address)
    {
      v := bus.Read(address % OperandModulus);
    }

    method Write(address: int, value: int) returns (s: Status)
      modifies bus, bus.ram, bus.con
      ensures s == StatusOf(M.WriteWord(old(View()), address, value))
      ensures s.Pass? ==> View() == M.WriteWord(old(View()), address, value).value
    {
      s := bus.Write(address, value);
    }

    method Step() returns (s: Status)
      modifies this, bus, bus.ram, bus.con
      ensures s == StatusOf(M.Step(old(View())))
      ensures s.Pass? ==> View() == M.Step(old(View())).value
    {
      var ir := Fetch(programCounter);
      instructionRegister := ir;
      programCounter := programCounter + 1;
      if ir.None? {
        return Fail(TypeError);
      }
      var (opcode, operand) := M.Decode(ir.value);
      s := Execute(opcode, operand);
    }

    /** `run`, stopped after `fuel` steps if the program has not halted by then. */
    method Run(fuel: nat) returns (s: Status)
      modifies this, bus, bus.ram, bus.con
      ensures s == StatusOf(M.Run(old(View()), fuel))
      ensures s.Pass? ==> View() == M.Run(old(View()), fuel).value
    {
      var n := fuel;
      while active && n > 0
        invariant M.Run(View(), n) == M.Run(old(View()), fuel)
        decreases n
      {
        s := Step();
        if s.Fail? {
          return;
        }
        n := n - 1;
      }
      s := Pass;
    }

    method Execute(opcode: int, operand: int) returns (s: Status)
      modifies this, bus, bus.ram, bus.con
      ensures s == StatusOf(M.Execute(old(View()), opcode, operand))
      ensures s.Pass? ==> View() == M.Execute(old(View()), opcode, operand).value
    {
      match opcode {
        case 0x0 => active := false; s := Pass;
        case 0x1 => s := Load(operand);
        case 0x2 => s := Write(operand, accumulator);
        case 0x3 => s := Operate(operand, M.Add);
        case 0x4 => s := Operate(operand, M.Sub);
        case 0x5 => s := Operate(operand, M.And);
        case 0x6 => s := Operate(operand, M.Or);
        case 0x7 => s := Operate(operand, M.Xor);
        case 0x8 => SetAccumulator(-(accumulator as int) - 1); s := Pass;
        case 0x9 => SetAccumulator(accumulator / 2); s := Pass;
        case 0xA => SetAccumulator(accumulator * 2); s := Pass;
        case 0xB => programCounter := operand; s := Pass;
        case 0xC => if pFlag { programCounter := operand; } s := Pass;
        case 0xD => if zFlag { programCounter := operand; } s := Pass;
        case 0xE => s := Input();
        case 0xF => s := Output();
        case _ => s := Fail(ValueError(IllegalOpcode(opcode)));
      }
    }

    method Load(operand: int) returns (s: Status)
      modifies this, bus, bus.con
      ensures s == StatusOf(M.Load(old(View()), operand))
      ensures s.Pass? ==> View() == M.Load(old(View()), operand).value
    {
      var v := Fetch(operand);
      if v.None? {
        return Fail(TypeError);
      }
      SetAccumulator(v.value);
      s := Pass;
    }

    method Operate(operand: int, op: M.AluOp) returns (s: Status)
      modifies this, bus, bus.con
      ensures s == StatusOf(M.Operate(old(View()), operand, op))
      ensures s.Pass? ==> View() == M.Operate(old(View()), operand, op).value
    {
      var v := Fetch(operand);
      if v.None? {
        return Fail(TypeError);
      }
      SetAccumulator(M.Combine(op, accumulator, v.value));
      s := Pass;
    }

    method Input() returns (s: Status)
      modifies this, bus, bus.con
      ensures s == StatusOf(M.Input(old(View())))
      ensures s.Pass? ==> View() == M.Input(old(View())).value
    {
      bus.SetIoRequest();
      var v := bus.Read(M.InputPort);
      if v.None? {
        return Fail(TypeError);
      }
      SetAccumulator(v.value % 256);
      bus.ClearIoRequest();
      s := Pass;
    }

    method Output() returns (s: Status)
      modifies bus, bus.ram, bus.con
      ensures s == StatusOf(M.Output(old(View())))
      ensures s.Pass? ==> View() == M.Output(old(View())).value
    {
      bus.SetIoRequest();
      s := bus.Write(M.OutputPort, accumulator);
      if s.Fail? {
        return;
      }
      bus.ClearIoRequest();
    }
  }
}
