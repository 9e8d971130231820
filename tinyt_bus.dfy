/**
 * The Tiny-T bus: an ordered list of registered clients, an address/data
 * latch and an I/O-request flag.  Every transaction asks each client, in
 * registration order, whether it answers the (effective) address; reads keep
 * the value of the last client that answers, writes go to every client that
 * answers.
 */
module TinyTBus {
  import opened Py
  import opened TinyTDevices

  /**
   * A registered bus client.  Every device method is a static method on
   * class-level state, so a client is known by its class alone.
   */
  datatype Client = MemoryClient | ConsoleClient

  /** The bus's own fields. */
  datatype BusView = BusView(data: Option<int>, address: int, handlers: seq<Client>, isIoRequest: bool)

  /** With the I/O request flag set, only the low eight address bits reach the clients. */
  function EffectiveAddress(address: int, isIoRequest: bool): (a: int)
    ensures isIoRequest ==> 0 <= a < 256 && a == address % 256
    ensures !isIoRequest ==> a == address
  {
    if isIoRequest then address % 256 else address
  }

  /** `handler.should_respond(address, is_io_request)` */
  predicate Responds(c: Client, d: Devices, address: int, isIoRequest: bool) {
    match c
    case MemoryClient => RamResponds(d.ram, address, isIoRequest)
    case ConsoleClient => ConsoleResponds(address)
  }

  /** `handler.read(address)` and the device state afterwards. */
  function ClientRead(c: Client, d: Devices, address: int): (Option<int>, Devices) {
    match c
    case MemoryClient => (RamRead(d.ram, address), d)
    case ConsoleClient =>
      var (v, con) := ConsoleRead(d.con, address);
      (v, d.(con := con))
  }

  /** `handler.write(address, data)` */
  function ClientWrite(c: Client, d: Devices, address: int, data: int): Result<Devices> {
    match c
    case MemoryClient =>
      (match RamWrite(d.ram, address, data)
       case Ok(ram) => Ok(d.(ram := ram))
       case Err(e) => Err(e))
    case ConsoleClient => Ok(d.(con := ConsoleWrite(d.con, address, data)))
  }

  /** The read loop over the remaining handlers `hs`, `data` being the value kept so far. */
  function ReadAll(hs: seq<Client>, d: Devices, address: int, isIoRequest: bool, data: Option<int>): (r: (Option<int>, Devices))
    ensures r.1.ram == d.ram
    decreases |hs|
  {
    if hs == [] then (data, d)
    else if Responds(hs[0], d, address, isIoRequest) then
      var (v, d') := ClientRead(hs[0], d, address);
      ReadAll(hs[1..], d', address, isIoRequest, v)
    else ReadAll(hs[1..], d, address, isIoRequest, data)
  }

  /** The write loop over the remaining handlers `hs`; the first failing write aborts it. */
  function WriteAll(hs: seq<Client>, d: Devices, address: int, isIoRequest: bool, data: int): Result<Devices>
    decreases |hs|
  {
    if hs == [] then Ok(d)
    else if Responds(hs[0], d, address, isIoRequest) then
      match ClientWrite(hs[0], d, address, data)
      case Ok(d') => WriteAll(hs[1..], d', address, isIoRequest, data)
      case Err(e) => Err(e)
    else WriteAll(hs[1..], d, address, isIoRequest, data)
  }

  /**
   * `Bus.read`: latches the effective address, clears the data latch, and
   * returns (and latches) the value kept by the read loop.
   */
  function BusRead(b: BusView, d: Devices, address: int): (r: (Option<int>, BusView, Devices))
    ensures r.1 == b.(data := r.0, address := EffectiveAddress(address, b.isIoRequest))
    ensures r.2.ram == d.ram
  {
    var a := EffectiveAddress(address, b.isIoRequest);
    var (v, d') := ReadAll(b.handlers, d, a, b.isIoRequest, None);
    (v, b.(data := v, address := a), d')
  }

  /** `Bus.write`: latches the effective address and the data, then runs the write loop. */
  function BusWrite(b: BusView, d: Devices, address: int, data: int): (r: Result<(BusView, Devices)>)
    ensures r.Ok? ==> r.value.0 == b.(data := Some(data), address := EffectiveAddress(address, b.isIoRequest))
  {
    var a := EffectiveAddress(address, b.isIoRequest);
    match WriteAll(b.handlers, d, a, b.isIoRequest, data)
    case Ok(d') => Ok((b.(data := Some(data), address := a), d'))
    case Err(e) => Err(e)
  }

  // ---------------------------------------------------------------------------
  // What a read returns

  /** Whether any handler in `hs` answers. */
  predicate AnyResponds(hs: seq<Client>, d: Devices, address: int, isIoRequest: bool) {
    exists k :: 0 <= k < |hs| && Responds(hs[k], d, address, isIoRequest)
  }

  /** Reads never move the memory window, so a handler's answer is the same all through the loop. */
  lemma RespondsStable(c: Client, d: Devices, d': Devices, address: int, isIoRequest: bool)
    requires d'.ram == d.ram
    ensures Responds(c, d', address, isIoRequest) == Responds(c, d, address, isIoRequest)
  {
  }

  /**
   * When no handler answers, the read loop returns the value it was seeded
   * with (None, as `Bus.read` seeds it) and touches no device.
   */
  lemma {:induction false} ReadNoMatch(hs: seq<Client>, d: Devices, address: int, isIoRequest: bool, data: Option<int>)
    requires !AnyResponds(hs, d, address, isIoRequest)
    ensures ReadAll(hs, d, address, isIoRequest, data) == (data, d)
  {
    if hs != [] {
      assert !Responds(hs[0], d, address, isIoRequest);
      assert !AnyResponds(hs[1..], d, address, isIoRequest) by {
        forall k | 0 <= k < |hs| - 1 ensures !Responds(hs[1..][k], d, address, isIoRequest) {
          assert hs[1..][k] == hs[k + 1];
        }
      }
      ReadNoMatch(hs[1..], d, address, isIoRequest, data);
    }
  }

  /**
   * The last answering handler wins: if handler `k` answers and none after it
   * does, the read returns what handler `k` reads in the device state left by
   * the handlers before it.
   */
  lemma {:induction false} ReadLastMatchWins(hs: seq<Client>, d: Devices, address: int, isIoRequest: bool, data: Option<int>, k: nat)
    requires k < |hs| && Responds(hs[k], d, address, isIoRequest)
    requires forall j :: k < j < |hs| ==> !Responds(hs[j], d, address, isIoRequest)
    ensures ReadAll(hs, d, address, isIoRequest, data)
         == ClientRead(hs[k], ReadAll(hs[..k], d, address, isIoRequest, data).1, address)
  {
    var (dk, devk) := ReadAll(hs[..k], d, address, isIoRequest, data);
    ReadSplit(hs, k, d, address, isIoRequest, data);
    RespondsStable(hs[k], d, devk, address, isIoRequest);
    var (v, d') := ClientRead(hs[k], devk, address);
    assert d'.ram == d.ram;
    var tail := hs[k + 1..];
    assert hs[k..][1..] == tail;
    assert !AnyResponds(tail, d', address, isIoRequest) by {
      forall j | 0 <= j < |tail| ensures !Responds(tail[j], d', address, isIoRequest) {
        assert tail[j] == hs[k + 1 + j];
        RespondsStable(tail[j], d, d', address, isIoRequest);
      }
    }
    ReadNoMatch(tail, d', address, isIoRequest, v);
  }

  /** The read loop over `hs` is the loop over its first `k` handlers followed by the loop over the rest. */
  lemma {:induction false} ReadSplit(hs: seq<Client>, k: nat, d: Devices, address: int, isIoRequest: bool, data: Option<int>)
    requires k <= |hs|
    ensures var (v, d') := ReadAll(hs[..k], d, address, isIoRequest, data);
            ReadAll(hs, d, address, isIoRequest, data) == ReadAll(hs[k..], d', address, isIoRequest, v)
  {
    if k > 0 {
      assert hs[..k][1..] == hs[1..][..k - 1];
      assert hs[1..][k - 1..] == hs[k..];
      if Responds(hs[0], d, address, isIoRequest) {
        var (v, d1) := ClientRead(hs[0], d, address);
        ReadSplit(hs[1..], k - 1, d1, address, isIoRequest, v);
      } else {
        ReadSplit(hs[1..], k - 1, d, address, isIoRequest, data);
      }
    } else {
      assert hs[..0] == [] && hs[0..] == hs;
    }
  }

  /**
   * With only memory clients registered, the read loop returns the memory
   * cell, or its seed (None in `Bus.read`) when no client answers.
   */
  lemma {:induction false} ReadMemoryOnly(hs: seq<Client>, d: Devices, address: int, isIoRequest: bool, data: Option<int>)
    requires forall k :: 0 <= k < |hs| ==> hs[k] == MemoryClient
    ensures ReadAll(hs, d, address, isIoRequest, data).1 == d
    ensures ReadAll(hs, d, address, isIoRequest, data).0
         == if hs != [] && RamResponds(d.ram, address, isIoRequest) then RamRead(d.ram, address) else data
  {
    if hs != [] {
      if RamResponds(d.ram, address, isIoRequest) {
        ReadMemoryOnly(hs[1..], d, address, isIoRequest, RamRead(d.ram, address));
      } else {
        ReadMemoryOnly(hs[1..], d, address, isIoRequest, data);
      }
    }
  }

  // ---------------------------------------------------------------------------
  // What a write does

  /** How many handlers in `hs` are the terminal. */
  function ConsoleCount(hs: seq<Client>): nat {
    if hs == [] then 0 else (if hs[0] == ConsoleClient then 1 else 0) + ConsoleCount(hs[1..])
  }

  /** Whether some handler in `hs` is a memory client. */
  predicate HasMemory(hs: seq<Client>) {
    exists k :: 0 <= k < |hs| && hs[k] == MemoryClient
  }

  /**
   * A write reaches every answering handler and no other: the memory cell is
   * written once if any memory client answers (further memory clients write
   * the same shared cell again), the terminal receives the byte once per
   * registration when it answers, and the write fails exactly when a memory
   * client answers an address outside the cells.
   */
  lemma {:induction false} WriteReachesEveryMatch(hs: seq<Client>, d: Devices, address: int, isIoRequest: bool, data: int)
    ensures var memHit := HasMemory(hs) && RamResponds(d.ram, address, isIoRequest);
            var times := if ConsoleResponds(address) then ConsoleCount(hs) else 0;
            WriteAll(hs, d, address, isIoRequest, data)
            == if memHit && RamWrite(d.ram, address, data).Err? then Err(IndexError)
               else Ok(Devices(if memHit then RamWrite(d.ram, address, data).value else d.ram,
                               d.con.(output := d.con.output + Repeat(data % 256, times))))
  {
    if hs == [] {
      assert d.con.output + Repeat(data % 256, 0) == d.con.output;
    } else {
      var rest := hs[1..];
      assert HasMemory(hs) <==> hs[0] == MemoryClient || HasMemory(rest) by {
        if HasMemory(rest) {
          var k :| 0 <= k < |rest| && rest[k] == MemoryClient;
          assert hs[k + 1] == MemoryClient;
        }
        if HasMemory(hs) && hs[0] != MemoryClient {
          var k :| 0 <= k < |hs| && hs[k] == MemoryClient;
          assert rest[k - 1] == MemoryClient;
        }
      }
      match hs[0]
      case MemoryClient =>
        if RamResponds(d.ram, address, isIoRequest) {
          var w := RamWrite(d.ram, address, data);
          if w.Ok? {
            var d' := d.(ram := w.value);
            WriteReachesEveryMatch(rest, d', address, isIoRequest, data);
            RamWriteIdempotent(d.ram, address, data);
          }
        } else {
          WriteReachesEveryMatch(rest, d, address, isIoRequest, data);
        }
      case ConsoleClient =>
        if ConsoleResponds(address) {
          var d' := d.(con := ConsoleWrite(d.con, address, data));
          WriteReachesEveryMatch(rest, d', address, isIoRequest, data);
          assert d.con.output + [data % 256] + Repeat(data % 256, ConsoleCount(rest))
              == d.con.output + Repeat(data % 256, ConsoleCount(hs));
        } else {
          WriteReachesEveryMatch(rest, d, address, isIoRequest, data);
        }
    }
  }

  /**
   * An I/O read of the input port with exactly one terminal registered takes
   * the terminal's next input value: memory clients refuse I/O requests.
   */
  lemma {:induction false} IoReadOneConsole(hs: seq<Client>, d: Devices, data: Option<int>)
    requires ConsoleCount(hs) == 1 && d.con.input != []
    ensures ReadAll(hs, d, BaseAddress, true, data) == (Some(d.con.input[0]), d.(con := d.con.(input := d.con.input[1..])))
  {
    assert hs != [];
    var rest := hs[1..];
    if hs[0] == ConsoleClient {
      var d' := d.(con := d.con.(input := d.con.input[1..]));
      assert !AnyResponds(rest, d', BaseAddress, true) by {
        forall k | 0 <= k < |rest| ensures !Responds(rest[k], d', BaseAddress, true) {
          ConsoleCountZero(rest, k);
        }
      }
      ReadNoMatch(rest, d', BaseAddress, true, Some(d.con.input[0]));
    } else {
      IoReadOneConsole(rest, d, data);
    }
  }

  /**
   * Away from the terminal's two addresses only memory clients answer, so a
   * read returns the memory cell when some memory client answers, otherwise
   * the loop's seed (None in `Bus.read`), and touches no device.
   */
  lemma {:induction false} ReadAwayFromTerminal(hs: seq<Client>, d: Devices, address: int, isIoRequest: bool, data: Option<int>)
    requires !ConsoleResponds(address)
    ensures ReadAll(hs, d, address, isIoRequest, data)
         == (if HasMemory(hs) && RamResponds(d.ram, address, isIoRequest) then RamRead(d.ram, address) else data, d)
  {
    if hs != [] {
      var rest := hs[1..];
      assert HasMemory(hs) <==> hs[0] == MemoryClient || HasMemory(rest) by {
        if HasMemory(rest) {
          var k :| 0 <= k < |rest| && rest[k] == MemoryClient;
          assert hs[k + 1] == MemoryClient;
        }
        if HasMemory(hs) && hs[0] != MemoryClient {
          var k :| 0 <= k < |hs| && hs[k] == MemoryClient;
          assert rest[k - 1] == MemoryClient;
        }
      }
      if hs[0] == MemoryClient && RamResponds(d.ram, address, isIoRequest) {
        ReadAwayFromTerminal(rest, d, address, isIoRequest, RamRead(d.ram, address));
      } else {
        ReadAwayFromTerminal(rest, d, address, isIoRequest, data);
      }
    }
  }

  /** A handler list without the terminal holds only memory clients. */
  lemma {:induction false} ConsoleCountZero(hs: seq<Client>, k: nat)
    requires ConsoleCount(hs) == 0 && k < |hs|
    ensures hs[k] == MemoryClient
  {
    if k > 0 {
      ConsoleCountZero(hs[1..], k - 1);
    }
  }

  /**
   * Two answering devices on one address: a write reaches both, and a read
   * returns the value of the one registered later.
   */
  lemma OverlapExample(d: Devices)
    requires d.ram == RamView([0, 0, 0, 0], 0, 0x100, 0xFFFF) && d.con.input == [0x42]
    ensures var b := BusView(Some(0), 0, [MemoryClient, ConsoleClient], false);
            && BusRead(b, d, 0xFE).0 == Some(0x42)
            && BusWrite(b, d, 0xFF, 0x41) == Err(IndexError)
            && BusWrite(b, d, 0x1FF, 0x41).Ok?
  {
  }

  /** The bus object. */
  class Bus {
    var data: Option<int>
    var address: int
    var handlers: seq<Client>
    var isIoRequest: bool
    const ram: MemoryBank
    const con: Console

    function View(): BusView
      reads this
    {
      BusView(data, address, handlers, isIoRequest)
    }

    function Devs(): Devices
      reads ram, con
    {
      Devices(ram.View(), con.View())
    }

    /** `Bus()`, wired to the memory class's store and the terminal. */
    constructor (ram: MemoryBank, con: Console)
      ensures View() == BusView(Some(0), 0, [], false)
      ensures this.ram == ram && this.con == con
    {
      this.data := Some(0);
      this.address := 0;
      this.handlers := [];
      this.isIoRequest := false;
      this.ram := ram;
      this.con := con;
    }

    /** `register_handler`: appends; handlers are never removed or reordered. */
    method RegisterHandler(handler: Client)
      modifies this
      ensures View() == old(View()).(handlers := old(handlers) + [handler])
    {
      handlers := handlers + [handler];
    }

    method SetIoRequest()
      modifies this
      ensures View() == old(View()).(isIoRequest := true)
    {
      isIoRequest := true;
    }

    method ClearIoRequest()
      modifies this
      ensures View() == old(View()).(isIoRequest := false)
    {
      isIoRequest := false;
    }

    method Read(address: int) returns (r: Option<int>)
      modifies this, con
      ensures (r, View(), Devs()) == BusRead(old(View()), old(Devs()), address)
    {
      var a := if isIoRequest then address % 256 else address;
      data := None;
      this.address := a;
      ghost var d0 := Devs();
      var i := 0;
      while i < |handlers|
        invariant 0 <= i <= |handlers|
        invariant View() == old(View()).(data := data, address := a)
        invariant ram.View() == old(ram.View())
        invariant ReadAll(handlers[i..], Devs(), a, isIoRequest, data) == ReadAll(handlers, d0, a, isIoRequest, None)
      {
        assert handlers[i..][1..] == handlers[i + 1..];
        match handlers[i] {
          case MemoryClient =>
            if RamResponds(ram.View(), a, isIoRequest) {
              data := RamRead(ram.View(), a);
            }
          case ConsoleClient =>
            if ConsoleResponds(a) {
              data := con.Read(a);
            }
        }
        i := i + 1;
      }
      r := data;
    }

    method Write(address: int, data: int) returns (s: Status)
      modifies this, ram, con
      ensures s == StatusOf(BusWrite(old(View()), old(Devs()), address, data))
      ensures s.Pass? ==> (View(), Devs()) == BusWrite(old(View()), old(Devs()), address, data).value
    {
      var a := if isIoRequest then address % 256 else address;
      this.data := Some(data);
      this.address := a;
      ghost var d0 := Devs();
      var i := 0;
      while i < |handlers|
        invariant 0 <= i <= |handlers|
        invariant View() == old(View()).(data := Some(data), address := a)
        invariant WriteAll(handlers[i..], Devs(), a, isIoRequest, data) == WriteAll(handlers, d0, a, isIoRequest, data)
      {
        assert handlers[i..][1..] == handlers[i + 1..];
        match handlers[i] {
          case MemoryClient =>
            if RamResponds(ram.View(), a, isIoRequest) {
              var w := ram.Write(a, data);
              if w.Fail? {
                return w;
              }
            }
          case ConsoleClient =>
            if ConsoleResponds(a) {
              con.Write(a, data);
            }
        }
        i := i + 1;
      }
      s := Pass;
    }
  }
}
