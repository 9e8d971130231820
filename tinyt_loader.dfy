/**
 * The Tiny-T loader: it reads the assembler's listing, one "address word"
 * line at a time, and writes each word through the CPU onto the bus.
 */
module TinyTLoader {
  import opened Py
  import opened TinyTIsa
  import opened TinyTDevices
  import opened TinyTBus
  import opened AsmText
  import opened TinyTAsm
  import M = TinyTMachine
  import opened TinyTCpu

  /**
   * What `load` does to the machine for the lines of the text: a line that
   * splits into two fields is written as `cpu.write(int(addr), int(word))`,
   * any other line is skipped; the first `int` or bus failure stops it.
   */
  function LoadLines(lines: seq<string>, m: M.Machine): Result<M.Machine>
    decreases |lines|
  {
    if lines == [] then Ok(m)
    else match LineFields(lines[0])
      case None => LoadLines(lines[1..], m)
      case Some(Err(e)) => Err(e)
      case Some(Ok((a, w))) =>
        match M.WriteWord(m, a, w)
        case Ok(m') => LoadLines(lines[1..], m')
        case Err(e) => Err(e)
  }

  /**
   * Loading is writing the pairs the listing reads back as: when every
   * line reads, the machine goes through the same writes, and loading
   * succeeds only when every line reads.
   */
  lemma {:induction false} LoadIsWriteWords(lines: seq<string>, m: M.Machine)
    ensures ListingPairs(lines).Ok? ==> LoadLines(lines, m) == M.WriteWords(m, ListingPairs(lines).value)
    ensures LoadLines(lines, m).Ok? ==> ListingPairs(lines).Ok?
    decreases |lines|
  {
    if lines != [] {
      match LineFields(lines[0]) {
        case None => LoadIsWriteWords(lines[1..], m);
        case Some(Err(e)) =>
        case Some(Ok((a, w))) =>
          match M.WriteWord(m, a, w) {
            case Ok(m') =>
              LoadIsWriteWords(lines[1..], m');
              if ListingPairs(lines).Ok? {
                var ps := ListingPairs(lines).value;
                assert ps[0] == (a, w) && ps[1..] == ListingPairs(lines[1..]).value;
              }
            case Err(e) =>
              if ListingPairs(lines).Ok? {
                var ps := ListingPairs(lines).value;
                assert ps[0] == (a, w);
              }
          }
      }
    }
  }

  class Loader {
    var machineCode: string
    var code: seq<string>
    const cpu: CPU

    /** `Loader(cpu, code_text)`: keeps the text and its lines, split on new lines. */
    constructor (cpu: CPU, codeText: string)
      ensures this.cpu == cpu && machineCode == codeText && code == Lines(codeText)
    {
      machineCode := codeText;
      code := Lines(codeText);
      this.cpu := cpu;
    }

    /** `load()` */
    method Load() returns (s: Status)
      modifies cpu.bus, cpu.bus.ram, cpu.bus.con
      ensures s == StatusOf(LoadLines(code, old(cpu.View())))
      ensures s.Pass? ==> cpu.View() == LoadLines(code, old(cpu.View())).value
    {
      var i := 0;
      while i < |code|
        invariant 0 <= i <= |code|
        invariant LoadLines(code[i..], cpu.View()) == LoadLines(code, old(cpu.View()))
      {
        assert code[i..][0] == code[i] && code[i..][1..] == code[i + 1..];
        var fields := Words(code[i]);
        if |fields| == 2 {
          var addr := ParseInt(fields[0]);
          if addr.Err? {
            return Fail(addr.error);
          }
          var opcode := ParseInt(fields[1]);
          if opcode.Err? {
            return Fail(opcode.error);
          }
          var w := cpu.Write(addr.value, opcode.value);
          if w.Fail? {
            return w;
          }
        }
        i := i + 1;
      }
      assert code[i..] == [];
      s := Pass;
    }
  }

  // ---------------------------------------------------------------------------
  // Where the words land

  /** A plain memory write to `a` reaches a memory cell: no I/O request, a memory client, `a` in the window and the cells. */
  predicate Loadable(m: M.Machine, a: int) {
    && !m.bus.isIoRequest
    && HasMemory(m.bus.handlers)
    && RamResponds(m.devs.ram, a, false)
    && 0 <= a < |m.devs.ram.mem|
  }

  /** Memory keeps its window, width, size and handlers. */
  predicate SameLayout(m: M.Machine, m': M.Machine) {
    && m'.bus.isIoRequest == m.bus.isIoRequest
    && m'.bus.handlers == m.bus.handlers
    && m'.devs.ram.start == m.devs.ram.start
    && m'.devs.ram.end == m.devs.ram.end
    && m'.devs.ram.bitMask == m.devs.ram.bitMask
    && |m'.devs.ram.mem| == |m.devs.ram.mem|
  }

  /** A write to a loadable address stores the masked word in that cell and changes no other cell. */
  lemma WriteWordStores(m: M.Machine, a: int, w: int)
    requires Loadable(m, a)
    ensures M.WriteWord(m, a, w).Ok?
    ensures var m' := M.WriteWord(m, a, w).value;
      && SameLayout(m, m')
      && m'.devs.ram.mem[a] == MaskData(w, m.devs.ram.bitMask)
      && forall k :: 0 <= k < |m.devs.ram.mem| && k != a ==> m'.devs.ram.mem[k] == m.devs.ram.mem[k]
  {
    WriteReachesEveryMatch(m.bus.handlers, m.devs, a, false, w);
  }

  /** The addresses of `pairs` are pairwise different. */
  predicate DistinctAddresses(pairs: seq<(int, int)>) {
    forall i, j :: 0 <= i < j < |pairs| ==> pairs[i].0 != pairs[j].0
  }

  /**
   * Writing pairs at distinct loadable addresses succeeds, leaves each
   * word, masked, in its cell, and leaves every other cell alone.
   */
  lemma {:induction false} WriteWordsStore(m: M.Machine, pairs: seq<(int, int)>)
    requires forall k :: 0 <= k < |pairs| ==> Loadable(m, pairs[k].0)
    requires DistinctAddresses(pairs)
    ensures M.WriteWords(m, pairs).Ok?
    ensures var m' := M.WriteWords(m, pairs).value;
      && SameLayout(m, m')
      && (forall k :: 0 <= k < |pairs| ==>
            0 <= pairs[k].0 < |m'.devs.ram.mem| && m'.devs.ram.mem[pairs[k].0] == MaskData(pairs[k].1, m.devs.ram.bitMask))
      && (forall c :: 0 <= c < |m.devs.ram.mem| && (forall k :: 0 <= k < |pairs| ==> pairs[k].0 != c) ==> m'.devs.ram.mem[c] == m.devs.ram.mem[c])
    decreases |pairs|
  {
    if pairs != [] {
      var (a, w) := pairs[0];
      WriteWordStores(m, a, w);
      var m1 := M.WriteWord(m, a, w).value;
      var rest := pairs[1..];
      forall k | 0 <= k < |rest| ensures Loadable(m1, rest[k].0) {
        assert rest[k] == pairs[k + 1];
      }
      assert DistinctAddresses(rest) by {
        forall i, j | 0 <= i < j < |rest| ensures rest[i].0 != rest[j].0 {
          assert rest[i] == pairs[i + 1] && rest[j] == pairs[j + 1];
        }
      }
      WriteWordsStore(m1, rest);
      var m' := M.WriteWords(m1, rest).value;
      assert M.WriteWords(m, pairs) == M.WriteWords(m1, rest);
      forall k | 0 <= k < |pairs|
        ensures 0 <= pairs[k].0 < |m'.devs.ram.mem| && m'.devs.ram.mem[pairs[k].0] == MaskData(pairs[k].1, m.devs.ram.bitMask)
      {
        if k == 0 {
          forall j | 0 <= j < |rest| ensures rest[j].0 != a {
            assert rest[j] == pairs[j + 1];
          }
        } else {
          assert pairs[k] == rest[k - 1];
        }
      }
      forall c | 0 <= c < |m.devs.ram.mem| && (forall k :: 0 <= k < |pairs| ==> pairs[k].0 != c)
        ensures m'.devs.ram.mem[c] == m.devs.ram.mem[c]
      {
        assert pairs[0].0 != c;
        forall j | 0 <= j < |rest| ensures rest[j].0 != c {
          assert rest[j] == pairs[j + 1];
        }
      }
    }
  }

  // ---------------------------------------------------------------------------
  // Assembling and loading a program

  /** The listing the assembler makes of a program reads back as the program's words at 0 .. n-1. */
  lemma AssembledWords(prog: seq<(nat, nat)>)
    requires Fits(prog)
    ensures Assemble(Terminated(SourceLines(prog))).Ok?
    ensures ListingPairs(Lines(Assemble(Terminated(SourceLines(prog))).value)) == Ok(IntPairs(Image(prog, 0, Format)))
    ensures forall k :: 0 <= k < |prog| ==> IntPairs(Image(prog, 0, Format))[k] == (k, Encode(prog[k].0, prog[k].1))
  {
    AssembleProgram(prog);
    ListingRoundTrip(Image(prog, 0, Format));
    FitsPacks(prog, 0);
  }

  /**
   * A program written one instruction per line, assembled and then loaded
   * into a machine whose memory takes plain writes at addresses 0 .. n-1,
   * leaves instruction k's packed word, masked to the memory's width, in
   * cell k and every later cell as it was.
   */
  lemma AssembleAndLoad(prog: seq<(nat, nat)>, m: M.Machine)
    requires Fits(prog)
    requires forall a :: 0 <= a < |prog| ==> Loadable(m, a)
    ensures Assemble(Terminated(SourceLines(prog))).Ok?
    ensures var loaded := LoadLines(Lines(Assemble(Terminated(SourceLines(prog))).value), m);
      && loaded.Ok?
      && SameLayout(m, loaded.value)
      && (forall k :: 0 <= k < |prog| ==>
            k < |loaded.value.devs.ram.mem| && loaded.value.devs.ram.mem[k] == MaskData(Encode(prog[k].0, prog[k].1), m.devs.ram.bitMask))
      && (forall c :: |prog| <= c < |m.devs.ram.mem| ==> loaded.value.devs.ram.mem[c] == m.devs.ram.mem[c])
  {
    AssembledWords(prog);
    var ws := IntPairs(Image(prog, 0, Format));
    var lines := Lines(Assemble(Terminated(SourceLines(prog))).value);
    LoadIsWriteWords(lines, m);
    assert LoadLines(lines, m) == M.WriteWords(m, ws);
    forall k | 0 <= k < |ws| ensures Loadable(m, ws[k].0) {
      assert ws[k].0 == k;
    }
    WriteWordsStore(m, ws);
    var m' := M.WriteWords(m, ws).value;
    forall k | 0 <= k < |prog|
      ensures k < |m'.devs.ram.mem| && m'.devs.ram.mem[k] == MaskData(Encode(prog[k].0, prog[k].1), m.devs.ram.bitMask)
    {
      assert ws[k] == (k, Encode(prog[k].0, prog[k].1));
    }
    forall c | |prog| <= c < |m.devs.ram.mem| ensures m'.devs.ram.mem[c] == m.devs.ram.mem[c] {
      assert forall k :: 0 <= k < |ws| ==> ws[k].0 != c;
    }
  }
}
