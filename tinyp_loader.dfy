/**
 * The Tiny-P loader: it prepares a CPU (`init_rom`, then `reset`) and
 * programs its ROM from the assembler's listing, one "address word" line
 * at a time, through `cpu.program`.
 */
module TinyPLoader {
  import opened Py
  import opened AsmText
  import opened TinyPAsm
  import P = TinyPMachine
  import opened TinyPCpu

  /**
   * What `load` does to the CPU for the lines of the text: a line that
   * splits into two fields becomes `cpu.program(int(addr), int(word))`,
   * any other line is skipped; the first `int` or indexing failure stops it.
   */
  function LoadLines(lines: seq<string>, s: P.PState): Result<P.PState>
    decreases |lines|
  {
    if lines == [] then Ok(s)
    else match LineFields(lines[0])
      case None => LoadLines(lines[1..], s)
      case Some(Err(e)) => Err(e)
      case Some(Ok((a, w))) =>
        match P.Program(s, a, w)
        case Ok(s') => LoadLines(lines[1..], s')
        case Err(e) => Err(e)
  }

  /** `cpu.program` for each (address, value) pair in order, stopping at the first failure. */
  function ProgramPairs(s: P.PState, ps: seq<(int, int)>): Result<P.PState>
    decreases |ps|
  {
    if ps == [] then Ok(s)
    else match P.Program(s, ps[0].0, ps[0].1)
      case Err(e) => Err(e)
      case Ok(s') => ProgramPairs(s', ps[1..])
  }

  /**
   * Loading is programming the pairs the listing reads back as: when every
   * line reads, the CPU goes through the same writes, and loading succeeds
   * only when every line reads.
   */
  lemma {:induction false} LoadIsProgramming(lines: seq<string>, s: P.PState)
    ensures ListingPairs(lines).Ok? ==> LoadLines(lines, s) == ProgramPairs(s, ListingPairs(lines).value)
    ensures LoadLines(lines, s).Ok? ==> ListingPairs(lines).Ok?
    decreases |lines|
  {
    if lines != [] {
      match LineFields(lines[0]) {
        case None => LoadIsProgramming(lines[1..], s);
        case Some(Err(e)) =>
        case Some(Ok((a, w))) =>
          match P.Program(s, a, w) {
            case Ok(s') =>
              LoadIsProgramming(lines[1..], s');
              if ListingPairs(lines).Ok? {
                var ps := ListingPairs(lines).value;
                assert ps[0] == (a, w) && ps[1..] == ListingPairs(lines[1..]).value;
              }
            case Err(e) =>
              if ListingPairs(lines).Ok? {
                var ps := ListingPairs(lines).value;
                assert ps[0] == (a, w);
              }
          }
      }
    }
  }

  /** Pair `i` is the last of `ps` to address ROM cell `k` of a ROM of `n` cells. */
  predicate LastFor(ps: seq<(int, int)>, n: nat, k: nat, i: int) {
    && 0 <= i < |ps|
    && PyIndex(n, ps[i].0) == Some(k)
    && forall j :: i < j < |ps| ==> PyIndex(n, ps[j].0) != Some(k)
  }

  /** No pair of `ps` addresses ROM cell `k` of a ROM of `n` cells. */
  predicate Untouched(ps: seq<(int, int)>, n: nat, k: nat) {
    forall i :: 0 <= i < |ps| ==> PyIndex(n, ps[i].0) != Some(k)
  }

  /**
   * Programming succeeds exactly when every address indexes the ROM; then
   * only the ROM changes, each cell holds the value of the LAST pair that
   * addressed it, and a cell no pair addressed keeps its value.
   */
  lemma {:induction false} ProgramPairsCells(s: P.PState, ps: seq<(int, int)>)
    ensures ProgramPairs(s, ps).Ok? <==> forall i :: 0 <= i < |ps| ==> PyIndex(|s.prog|, ps[i].0).Some?
    ensures ProgramPairs(s, ps).Ok? ==>
      var s' := ProgramPairs(s, ps).value;
      && |s'.prog| == |s.prog| && s'.(prog := s.prog) == s
      && (forall k, i :: 0 <= k < |s.prog| && LastFor(ps, |s.prog|, k, i) ==> s'.prog[k] == ps[i].1)
      && (forall k :: 0 <= k < |s.prog| && Untouched(ps, |s.prog|, k) ==> s'.prog[k] == s.prog[k])
    decreases |ps|
  {
    if ps != [] {
      var n := |s.prog|;
      var rest := ps[1..];
      assert forall i :: 0 < i < |ps| ==> ps[i] == rest[i - 1];
      match P.Program(s, ps[0].0, ps[0].1) {
        case Err(_) =>
        case Ok(s1) =>
          ProgramPairsCells(s1, rest);
          if ProgramPairs(s, ps).Ok? {
            var s' := ProgramPairs(s, ps).value;
            var c := PyIndex(n, ps[0].0).value;
            assert s1.prog == s.prog[c := ps[0].1];
            forall k, i | 0 <= k < n && LastFor(ps, n, k, i) ensures s'.prog[k] == ps[i].1 {
              if i == 0 {
                assert Untouched(rest, n, k);
              } else {
                assert LastFor(rest, n, k, i - 1);
              }
            }
            forall k | 0 <= k < n && Untouched(ps, n, k) ensures s'.prog[k] == s.prog[k] {
              assert Untouched(rest, n, k);
            }
          }
      }
    }
  }

  class Loader {
    var machineCode: string
    var code: seq<string>
    const cpu: CPU

    /** `Loader(cpu, code_text)`: keeps the text and its lines, split on new lines. */
    constructor (cpu: CPU, codeText: string)
      ensures this.cpu == cpu && machineCode == codeText && code == Lines(codeText)
    {
      machineCode := codeText;
      code := Lines(codeText);
      this.cpu := cpu;
    }

    /** `cpu_init()`: a ROM of zeros, then cleared registers, set flags and a RAM of zeros. */
    method CpuInit()
      modifies cpu
      ensures cpu.View() == P.Reset(P.InitRom(old(cpu.View())))
    {
      cpu.InitRom();
      cpu.Reset();
    }

    /** `load()` */
    method Load() returns (s: Status)
      modifies cpu
      ensures s == StatusOf(LoadLines(code, old(cpu.View())))
      ensures s.Pass? ==> cpu.View() == LoadLines(code, old(cpu.View())).value
    {
      var i := 0;
      while i < |code|
        invariant 0 <= i <= |code|
        invariant LoadLines(code[i..], cpu.View()) == LoadLines(code, old(cpu.View()))
      {
        assert code[i..][0] == code[i] && code[i..][1..] == code[i + 1..];
        var fields := Words(code[i]);
        if |fields| == 2 {
          var addr := ParseInt(fields[0]);
          if addr.Err? {
            return Fail(addr.error);
          }
          var opcode := ParseInt(fields[1]);
          if opcode.Err? {
            return Fail(opcode.error);
          }
          var w := cpu.Program(addr.value, opcode.value);
          if w.Fail? {
            return w;
          }
        }
        i := i + 1;
      }
      assert code[i..] == [];
      s := Pass;
    }
  }

  // ---------------------------------------------------------------------------
  // What loading a listing does

  /** A new CPU after `cpu_init`: a hundred zero ROM cells and a hundred zero RAM cells. */
  lemma BootedIsZero()
    ensures |P.Booted().prog| == P.MaxMem && |P.Booted().mem| == P.MaxMem
    ensures forall k :: 0 <= k < P.MaxMem ==> P.Booted().prog[k] == 0 && P.Booted().mem[k] == 0
    ensures P.Booted() == P.Initial.(prog := P.Booted().prog, mem := P.Booted().mem)
  {
  }

  /** A listing that names the same cell twice: the later line is what the cell holds. */
  lemma LaterLineWins(a: nat, v1: nat, v2: nat, s: P.PState)
    requires a < |s.prog|
    ensures LoadLines(Lines(Listing([(a, v1), (a, v2)])), s).Ok?
    ensures |LoadLines(Lines(Listing([(a, v1), (a, v2)])), s).value.prog| == |s.prog|
    ensures LoadLines(Lines(Listing([(a, v1), (a, v2)])), s).value.prog[a] == v2
  {
    var pairs: seq<(nat, nat)> := [(a, v1), (a, v2)];
    ListingRoundTrip(pairs);
    LoadIsProgramming(Lines(Listing(pairs)), s);
    var ps := IntPairs(pairs);
    ProgramPairsCells(s, ps);
    assert LastFor(ps, |s.prog|, a, 1);
  }

  /** A line that does not split into exactly two fields changes nothing. */
  lemma OtherLineIgnored(line: string, rest: seq<string>, s: P.PState)
    requires |Words(line)| != 2
    ensures LoadLines([line] + rest, s) == LoadLines(rest, s)
  {
    assert ([line] + rest)[0] == line && ([line] + rest)[1..] == rest;
  }

  /** The assembled listing of a program loads as programming its image, pair by pair. */
  lemma AssembledListing(prog: seq<(nat, nat)>, s: P.PState)
    requires Fits(prog)
    ensures Assemble(Terminated(SourceLines(prog))) == Ok(Listing(Image(prog, 0, Format)))
    ensures LoadLines(Lines(Listing(Image(prog, 0, Format))), s) == ProgramPairs(s, IntPairs(Image(prog, 0, Format)))
  {
    var img := Image(prog, 0, Format);
    AssembleProgram(prog);
    ListingRoundTrip(img);
    LoadIsProgramming(Lines(Listing(img)), s);
  }

  /** The image of a program at address 0, as loader pairs: pair `i` writes instruction `i`'s word to cell `i`. */
  lemma ImagePairs(prog: seq<(nat, nat)>, n: nat)
    requires Fits(prog) && |prog| <= n
    ensures |IntPairs(Image(prog, 0, Format))| == |prog|
    ensures forall i :: 0 <= i < |prog| ==>
      && IntPairs(Image(prog, 0, Format))[i] == (i, 100 * prog[i].0 + prog[i].1)
      && PyIndex(n, i) == Some(i)
  {
  }

  /**
   * Programming the image of a program that fits into a ROM at least as
   * long puts each packed word in its cell, where `decode` finds the
   * instruction again, and leaves the other cells alone.
   */
  lemma ProgramImage(prog: seq<(nat, nat)>, s: P.PState)
    requires Fits(prog) && |prog| <= |s.prog|
    ensures ProgramPairs(s, IntPairs(Image(prog, 0, Format))).Ok?
    ensures var s' := ProgramPairs(s, IntPairs(Image(prog, 0, Format))).value;
      && s'.(prog := s.prog) == s && |s'.prog| == |s.prog|
      && (forall k :: 0 <= k < |prog| ==> s'.prog[k] == 100 * prog[k].0 + prog[k].1 && P.Fields(s'.prog[k]) == Some(prog[k]))
      && (forall k :: |prog| <= k < |s.prog| ==> s'.prog[k] == s.prog[k])
  {
    var n := |s.prog|;
    var ps := IntPairs(Image(prog, 0, Format));
    ImagePairs(prog, n);
    ProgramPairsCells(s, ps);
    var s' := ProgramPairs(s, ps).value;
    forall k | 0 <= k < |prog|
      ensures s'.prog[k] == 100 * prog[k].0 + prog[k].1 && P.Fields(s'.prog[k]) == Some(prog[k])
    {
      assert LastFor(ps, n, k, k);
      P.FieldsRoundTrip(prog[k].0, prog[k].1);
    }
    forall k | |prog| <= k < n ensures s'.prog[k] == s.prog[k] {
      assert Untouched(ps, n, k);
    }
  }

  /**
   * Assembling a program of at most a hundred instructions, one per line,
   * and loading the listing into a freshly initialised CPU puts each
   * instruction's word in its ROM cell, where `decode` finds the
   * instruction again; the other cells stay 0 and nothing else changes.
   */
  lemma AssembleAndLoad(prog: seq<(nat, nat)>)
    requires Fits(prog) && |prog| <= P.MaxMem
    ensures Assemble(Terminated(SourceLines(prog))).Ok?
    ensures LoadLines(Lines(Assemble(Terminated(SourceLines(prog))).value), P.Booted()).Ok?
    ensures var s := LoadLines(Lines(Assemble(Terminated(SourceLines(prog))).value), P.Booted()).value;
      && s.(prog := P.Booted().prog) == P.Booted()
      && |s.prog| == P.MaxMem
      && (forall k :: 0 <= k < |prog| ==> s.prog[k] == 100 * prog[k].0 + prog[k].1 && P.Fields(s.prog[k]) == Some(prog[k]))
      && (forall k :: |prog| <= k < P.MaxMem ==> s.prog[k] == 0)
  {
    BootedIsZero();
    AssembledListing(prog, P.Booted());
    ProgramImage(prog, P.Booted());
  }
}
