/**
 * The two kinds of device attached to the Tiny-T bus.
 *
 * `Memory` keeps its cells and its address window in CLASS attributes, and
 * `should_respond`, `read` and `write` are static methods on them, so every
 * `Memory` instance shares one store.  `MemoryBank` is that class-level
 * state; a `Memory` object only remembers its own size and width and acts on
 * the bank.  The terminal device is represented by `Console`, an abstract
 * port answering the addresses 0xFE..0xFF, whose input is a queue of values
 * and whose output is the list of bytes written to it.
 */
module TinyTDevices {
  import opened Py

  function Pow2(n: nat): (p: nat)
    ensures p >= 1
  {
    if n == 0 then 1 else 2 * Pow2(n - 1)
  }

  /** The value of `Memory`'s class attributes. */
  datatype RamView = RamView(mem: seq<int>, start: int, end: int, bitMask: nat)

  /**
   * `data & bit_mask`, for a mask of the form 2^w - 1 (or 0), where both keep
   * the low w bits of `data`.  Only `Memory`'s constructor sets the mask, and
   * it always sets 2^w - 1; for a mask of any other form the two differ.
   */
  function MaskData(data: int, bitMask: nat): int {
    data % (bitMask + 1)
  }

  /** `Memory.should_respond`: the window includes its end address, and I/O requests are refused. */
  predicate RamResponds(r: RamView, address: int, isIoRequest: bool) {
    r.start <= address <= r.end && !isIoRequest
  }

  /**
   * `Memory.read`: the cell at the ABSOLUTE address (Python list indexing);
   * an out-of-range index yields None, because the `IndexError` is caught
   * and the `ValueError` is built but never raised.
   */
  function RamRead(r: RamView, address: int): (v: Option<int>)
    ensures 0 <= address < |r.mem| ==> v == Some(r.mem[address])
    ensures v.None? <==> !(-|r.mem| <= address < |r.mem|)
  {
    match PyIndex(|r.mem|, address)
    case Some(i) => Some(r.mem[i])
    case None => None
  }

  /**
   * `Memory.write`: stores the masked value at the absolute address and
   * changes nothing else; an out-of-range index raises `IndexError`.
   */
  function RamWrite(r: RamView, address: int, data: int): (w: Result<RamView>)
    ensures w.Ok? <==> -|r.mem| <= address < |r.mem|
    ensures w.Err? ==> w.error == IndexError
    ensures w.Ok? ==> w.value.start == r.start && w.value.end == r.end && w.value.bitMask == r.bitMask
    ensures w.Ok? ==> |w.value.mem| == |r.mem|
    ensures w.Ok? && 0 <= address ==>
      w.value.mem[address] == MaskData(data, r.bitMask)
      && forall k :: 0 <= k < |r.mem| && k != address ==> w.value.mem[k] == r.mem[k]
  {
    match PyIndex(|r.mem|, address)
    case Some(i) => Ok(r.(mem := r.mem[i := MaskData(data, r.bitMask)]))
    case None => Err(IndexError)
  }

  /** Writing the same cell twice is the same as writing it once. */
  lemma RamWriteIdempotent(r: RamView, address: int, data: int)
    requires RamWrite(r, address, data).Ok?
    ensures RamWrite(RamWrite(r, address, data).value, address, data) == RamWrite(r, address, data)
  {
    var i := PyIndex(|r.mem|, address).value;
    var w := RamWrite(r, address, data).value;
    assert w.mem == r.mem[i := MaskData(data, r.bitMask)];
    assert w.mem[i := MaskData(data, r.bitMask)] == w.mem;
  }

  /**
   * Because the window's end is inclusive, a memory placed at 0 answers the
   * address one past its last cell: reading it yields None and writing it
   * raises `IndexError`.
   */
  lemma RamAnswersOnePastEnd(size: nat, bitMask: nat, mem: seq<int>)
    requires |mem| == size
    ensures RamResponds(RamView(mem, 0, size, bitMask), size, false)
    ensures RamRead(RamView(mem, 0, size, bitMask), size) == None
    ensures RamWrite(RamView(mem, 0, size, bitMask), size, 0) == Err(IndexError)
  {
  }

  /** The terminal port's addresses. */
  const BaseAddress: int := 0xFE
  const MaxAddress: int := 0xFF

  /** The value of the terminal port: pending input and the bytes written so far. */
  datatype ConsoleView = ConsoleView(input: seq<int>, output: seq<int>)

  /** The terminal answers 0xFE..0xFF whatever the I/O request flag says. */
  predicate ConsoleResponds(address: int) {
    BaseAddress <= address <= MaxAddress
  }

  /** Reading the terminal takes the next pending input value, or None when there is none. */
  function ConsoleRead(c: ConsoleView, address: int): (r: (Option<int>, ConsoleView))
    ensures r.1.output == c.output
    ensures ConsoleResponds(address) && c.input != [] ==> r == (Some(c.input[0]), c.(input := c.input[1..]))
    ensures !ConsoleResponds(address) || c.input == [] ==> r == (None, c)
  {
    if ConsoleResponds(address) && c.input != [] then (Some(c.input[0]), c.(input := c.input[1..]))
    else (None, c)
  }

  /** Writing the terminal emits the low byte of the value (`chr(data & 0xFF)`). */
  function ConsoleWrite(c: ConsoleView, address: int, data: int): (c': ConsoleView)
    ensures c'.input == c.input
    ensures c'.output == if ConsoleResponds(address) then c.output + [data % 256] else c.output
  {
    if ConsoleResponds(address) then c.(output := c.output + [data % 256]) else c
  }

  /** The state of every device: the memory class's store and the terminal. */
  datatype Devices = Devices(ram: RamView, con: ConsoleView)

  /** The class-level store of `Memory`. */
  class MemoryBank {
    var mem: seq<int>
    var startAddress: int
    var endAddress: int
    var bitMask: nat

    function View(): RamView
      reads this
    {
      RamView(mem, startAddress, endAddress, bitMask)
    }

    /** The class attributes before any instance exists. */
    constructor ()
      ensures View() == RamView([], 0, 4096, 0)
    {
      mem, startAddress, endAddress, bitMask := [], 0, 4096, 0;
    }

    /** `Memory.write` */
    method Write(address: int, data: int) returns (s: Status)
      modifies this
      ensures s == StatusOf(RamWrite(old(View()), address, data))
      ensures s.Pass? ==> View() == RamWrite(old(View()), address, data).value
      ensures s.Fail? ==> View() == old(View())
    {
      var i := PyIndex(|mem|, address);
      if i.None? {
        return Fail(IndexError);
      }
      mem := mem[i.value := MaskData(data, bitMask)];
      s := Pass;
    }
  }

  /** An instance of `Memory`: its own size, width and read-only flag, acting on the shared bank. */
  class Memory {
    const bank: MemoryBank
    var bitWidth: nat
    var size: nat
    var readOnly: bool

    /**
     * `Memory(size, bit_width, read_only)`: sets the SHARED mask, window and
     * cells, so constructing another instance resets every instance's store.
     */
    constructor (bank: MemoryBank, size: nat, bitWidth: nat, readOnly: bool)
      modifies bank
      ensures this.bank == bank && this.size == size && this.bitWidth == bitWidth && this.readOnly == readOnly
      ensures bank.View() == RamView(Repeat(0, size), 0, size, Pow2(bitWidth) - 1)
    {
      this.bank := bank;
      this.bitWidth := bitWidth;
      this.size := size;
      this.readOnly := readOnly;
      bank.bitMask := Pow2(bitWidth) - 1;
      bank.startAddress := 0;
      bank.endAddress := 0 + size;
      new;
      Clear();
    }

    /** `clear`: this instance's size many zero cells. */
    method Clear()
      modifies bank
      ensures bank.View() == old(bank.View()).(mem := Repeat(0, size))
    {
      bank.mem := seq(size, _ => 0);
    }

    /** `fill(value)`: this instance's size many cells holding the unmasked value. */
    method Fill(value: int)
      modifies bank
      ensures bank.View() == old(bank.View()).(mem := Repeat(value, size))
    {
      bank.mem := seq(size, _ => value);
    }

    /** `set_location`: moves the window only; cells are still indexed by absolute address. */
    method SetLocation(startAddress: int)
      modifies bank
      ensures bank.View() == old(bank.View()).(start := startAddress, end := startAddress + size)
    {
      bank.startAddress := startAddress;
      bank.endAddress := startAddress + size;
    }
  }

  /** The terminal port. */
  class Console {
    var input: seq<int>
    var output: seq<int>

    function View(): ConsoleView
      reads this
    {
      ConsoleView(input, output)
    }

    constructor (input: seq<int>)
      ensures View() == ConsoleView(input, [])
    {
      this.input := input;
      this.output := [];
    }

    method Read(address: int) returns (v: Option<int>)
      modifies this
      ensures (v, View()) == ConsoleRead(old(View()), address)
    {
      if ConsoleResponds(address) && input != [] {
        v := Some(input[0]);
        input := input[1..];
      } else {
        v := None;
      }
    }

    method Write(address: int, data: int)
      modifies this
      ensures View() == ConsoleWrite(old(View()), address, data)
    {
      if ConsoleResponds(address) {
        output := output + [data % 256];
      }
    }
  }

  /**
   * Two `Memory` instances share one store: writing through the bus to the
   * first is visible through the second, and constructing a third resets it.
   */
  method SharedStorage() returns (seen: Option<int>, afterReset: Option<int>)
    ensures seen == Some(3) && afterReset == None
  {
    var bank := new MemoryBank();
    var ram := new Memory(bank, 4, 4, false);
    var rom := new Memory(bank, 4, 4, true);
    assert Pow2(4) == 16;
    var s := bank.Write(2, 0x13);
    assert s == Pass;
    assert rom.bank == ram.bank;
    seen := RamRead(rom.bank.View(), 2);
    var other := new Memory(bank, 2, 1, false);
    afterReset := RamRead(rom.bank.View(), 2);
    assert bank.View().end == 2;
  }
}
