# Tiny-T and Tiny-P in Dafny

A model of two teaching machines from *Building Machines In Code*:

- **Tiny-P**, a decimal accumulator machine. It has a hundred-cell
  ROM and a hundred-cell RAM, and instruction words `100 * opcode + operand`.
  The model covers its CPU, its assembler and its loader.
- **Tiny-T**, a 16-bit accumulator machine. Its CPU talks to memory and a
  terminal through a bus, and its instruction words are
  `(opcode << 12) + operand`. The model covers its CPU, bus, memory,
  assembler, disassembler and loader.

Each Python object whose fields change in place is a Dafny `class`: the
CPUs, the bus, the memory bank, the terminal, the lexer, the assemblers and
the loaders. Each one reads its state out as a value through a `View()` function. A
pure function over those values specifies each operation. Every method is
proved to leave exactly the state that its function computes. The lemmas then
state what the source promises, and what it does instead, about those
functions. A Python exception is a value: a `Result`/`Status` carrying the
exception's class, and for `ValueError` the reason.

| module | file | models |
|---|---|---|
| `Py` | pystr.dfy | the Python built-ins the source relies on: `str.split()`, `split('\n')`, `lower`/`upper`, `isnumeric`/`isalnum`, `int()`, `str()`, `zfill`, hex formatting, list indexing with negative indices, `&`, `\|`, `^` |
| `TinyTIsa` | tinyt_isa.dfy | the Tiny-T instruction word and mnemonic table |
| `TinyTDevices` | tinyt_devices.dfy | `Memory` (its storage is class-level, hence one shared `MemoryBank`) and the terminal port |
| `TinyTBus` | tinyt_bus.dfy | `Bus`: address masking for I/O and the handler loops |
| `TinyTMachine`, `TinyTCpu` | tinyt_machine.dfy, tinyt_cpu.dfy | the Tiny-T CPU as a function on machine states, and the `CPU` class |
| `AsmText` | asm_text.dfy | what both assemblers share: the lexer, code records, the fix-up pass and the listing format |
| `TinyTAsm`, `TinyTDisasm`, `TinyTLoader` | tinyt_asm.dfy, tinyt_disasm.dfy, tinyt_loader.dfy | the Tiny-T tools |
| `TinyPMachine`, `TinyPCpu` | tinyp_machine.dfy, tinyp_cpu.dfy | the Tiny-P CPU |
| `TinyPAsm`, `TinyPLoader` | tinyp_asm.dfy, tinyp_loader.dfy | the Tiny-P tools |

The model follows the code as written, including these behaviours:

- Tiny-T `shl` shifts right and `shr` shifts left (`ShiftsSwapped`).
- Tiny-T `set_accumulator` computes the zero flag from the unmasked value.
  So a carry out of 0xFFFF stores 0 with Z clear (`FlagsFromUnmaskedValue`,
  `AddCarryLeavesZeroClear`), and NOT never sets Z (`NotNeverSetsZero`).
- The Tiny-T halt mnemonic is spelled `htl`, so `hlt` is silently skipped
  (`HaltSpelling`, `TinyTAsm.HltIsSkipped`).
- A Tiny-T `org.` with a hex operand reads the value and drops it: the
  address does not change (`OriginOperand`).
- Tiny-T `step` does not look at `active`: a program that has halted still
  executes when stepped (`StepIgnoresActive`, `StepsAfterHalt`). Its program
  counter is not wrapped; only the fetch masks it (`ProgramCounterNotWrapped`).
- In the Tiny-T assembler, an operand of 0x1000 or more is refused only when
  the whole word exceeds 0xFFFF. Below that it spills into the opcode field
  (`TinyTAsm.WideOperand`). The Tiny-P assembler behaves the same way with
  100 and 999 (`TinyPAsm.WideOperand`).
- The RAM answers the address one past its last cell. A read there gives `None`
  and a write raises `IndexError` (`RamAnswersOnePastEnd`).
- Tiny-P NOT is Python's logical `not`: the accumulator becomes 1 or 0
  (`NotIsLogical`).
- Tiny-P `run` loops while `halted` is false, and no instruction sets it
  (`RunNeverHalts`).
- The Tiny-P assembler's "Illegal Origin" message is not an f-string, so it
  reads literally `{operand}` (`HexOriginRefused`). It also refuses a hex
  origin.
- In the Tiny-P assembler, any directive ends its line, not only `org.`
  (`DirectiveEndsLine`).

## Model

| member | source | states |
|---|---|---|
| `TinyTIsa.Opcode` | part-8/cpu.py:75-77 | the opcode field is below 16 and, for a 16-bit word, is the word divided by 0x1000 |
| `TinyTIsa.Operand` | part-8/cpu.py:75-77 | the operand field is below 0x1000 and is the word itself when the word is below 0x1000 |
| `TinyTIsa.EncodeDecode` | part-8/cpu.py:75-77 | packing the two decoded fields of any 16-bit word gives the word back |
| `TinyTIsa.DecodeEncode` | part-9/assembler.py:145 | a 4-bit opcode and a 12-bit operand pack into a 16-bit word that decodes to the same two fields |
| `TinyTIsa.OperandSpills` | part-9/assembler.py:145-147 | an operand of 0x1000 or more that still packs below 0x10000 adds its high part to the decoded opcode and keeps only its low 12 bits |
| `TinyTIsa.OpcodeTableBijective` | part-9/assembler.py:54-71 | the opcode table maps its mnemonics one-to-one onto 0..15, in the order of the disassembler's list |
| `TinyTIsa.MnemonicRoundTrip` | part-9/disassembler.py:76-93 | the disassembler's name for a mnemonic's opcode is that mnemonic |
| `TinyTIsa.LookupFinds` | part-9/assembler.py:197 | the mnemonic search finds the token's opcode, or shows the token is no mnemonic |
| `TinyTIsa.OpcodeOfTable` | part-9/assembler.py:197-200 | the mnemonic lookup gives `OPCODE_TABLE[tok]` exactly when `tok` is a key, and nothing otherwise |
| `TinyTIsa.HaltSpelling` | part-9/assembler.py:55 | halt is spelled `htl` with opcode 0; `hlt` is no mnemonic |
| `TinyTDevices.RamRead` | part-9/memory.py:68-74 | a read gives the cell at a valid Python index and `None` otherwise, since the IndexError is caught and dropped |
| `TinyTDevices.RamWrite` | part-9/memory.py:76-79 | a write succeeds exactly for a valid index, else raises IndexError; it stores `data & bit_mask` in that cell and changes no other cell or bound |
| `TinyTDevices.RamWriteIdempotent` | part-9/memory.py:76-79 | writing the same data to the same cell twice leaves the same store as writing once |
| `TinyTDevices.RamAnswersOnePastEnd` | part-9/memory.py:62-79 | the inclusive bound check makes the RAM answer the address one past its last cell, where a read gives `None` and a write raises IndexError |
| `TinyTDevices.ConsoleRead` | part-8/console.py:44-56 | at 0xFE..0xFF the terminal hands over the next input value, or `None` when there is none; elsewhere it gives `None`; output is never touched |
| `TinyTDevices.ConsoleWrite` | part-8/console.py:58-67 | at 0xFE..0xFF the terminal emits `data & 0xFF`; elsewhere it emits nothing; input is never touched |
| `TinyTDevices.MemoryBank.constructor` | part-9/memory.py:34-38 | the class-level store starts empty, located at 0..4096, with mask 0 |
| `TinyTDevices.MemoryBank.Write` | part-9/memory.py:76-79 | the in-place write leaves the store `RamWrite` computes, and the old store when it raises |
| `TinyTDevices.Memory.constructor` | part-9/memory.py:40-47 | the shared mask becomes `2^bit_width - 1`, the location 0..size, and the shared store `size` zeros |
| `TinyTDevices.SharedStorage` | part-9/memory.py:33-47 | two `Memory` instances share one class-level store: a masked write through one is read back through the other, and constructing a smaller `Memory` replaces the store |
| `TinyTDevices.Memory.Clear` | part-9/memory.py:49-50 | the shared store becomes `size` zeros; bounds and mask are kept |
| `TinyTDevices.Memory.Fill` | part-9/memory.py:52-53 | the shared store becomes `size` copies of the value; bounds and mask are kept |
| `TinyTDevices.Memory.SetLocation` | part-9/memory.py:58-60 | the shared bounds become `start .. start + size`; cells and mask are kept |
| `TinyTDevices.Console.constructor` | part-8/console.py:39-42 | a terminal with the given pending input and no output |
| `TinyTDevices.Console.Read` | part-8/console.py:48-56 | the in-place read returns and leaves what `ConsoleRead` says |
| `TinyTDevices.Console.Write` | part-8/console.py:58-67 | the in-place write leaves what `ConsoleWrite` says |
| `TinyTBus.EffectiveAddress` | part-8/bus.py:62-64 | under an I/O request the address is masked to its low byte; otherwise it is kept |
| `TinyTBus.ReadAll` | part-8/bus.py:67-69 | the read loop over the handlers never changes memory |
| `TinyTBus.BusRead` | part-8/bus.py:62-70 | a read records the effective address and the value it returns on the bus, and leaves memory alone |
| `TinyTBus.BusWrite` | part-8/bus.py:72-79 | a write that goes through records the effective address and the data on the bus |
| `TinyTBus.ReadNoMatch` | part-8/bus.py:65-70 | when no handler responds, the read loop returns the value it was seeded with, which is `None` in `Bus.read`, and changes no device |
| `TinyTBus.ReadLastMatchWins` | part-8/bus.py:67-69 | when several handlers respond, the read returns what the last responding one gives |
| `TinyTBus.ReadMemoryOnly` | part-8/bus.py:62-70 | with only memory handlers, the read loop gives the RAM's read when the RAM responds and otherwise its seed (`None` in `Bus.read`), and changes nothing |
| `TinyTBus.WriteReachesEveryMatch` | part-8/bus.py:72-79 | every responding handler gets the write: the RAM stores it (or raises IndexError) and the terminal emits the low byte once per registration |
| `TinyTBus.IoReadOneConsole` | part-8/bus.py:62-70 | with one terminal registered, an I/O read of port 0xFE takes exactly the next input value |
| `TinyTBus.ReadAwayFromTerminal` | part-8/bus.py:62-70 | away from the terminal's ports the read loop gives the RAM's read when memory responds and otherwise its seed (`None` in `Bus.read`), and changes nothing |
| `TinyTBus.OverlapExample` | part-8/bus.py:62-79 | with RAM mapped over the terminal's ports, a read at 0xFE gets the terminal's value, a write at 0xFF raises IndexError from the small RAM, and a write no handler answers goes through |
| `TinyTBus.Bus.constructor` | part-8/bus.py:47-51 | a new bus holds data 0 at address 0, has no handlers and no I/O request |
| `TinyTBus.Bus.RegisterHandler` | part-8/bus.py:53-54 | the handler is appended and nothing else changes |
| `TinyTBus.Bus.SetIoRequest` | part-8/bus.py:56-57 | only the I/O request flag changes, to true |
| `TinyTBus.Bus.ClearIoRequest` | part-8/bus.py:59-60 | only the I/O request flag changes, to false |
| `TinyTBus.Bus.Read` | part-8/bus.py:62-70 | the in-place read returns and leaves what `BusRead` says |
| `TinyTBus.Bus.Write` | part-8/bus.py:72-79 | the in-place write leaves what `BusWrite` says, or reports its IndexError |
| `TinyTMachine.SetAccumulator` | part-8/cpu.py:45-59 | the accumulator becomes `value & 0xFFFF`; Z is set iff the unmasked value is 0; P is set iff bit 15 is clear; the other registers are kept |
| `TinyTMachine.SetAccumulatorInRange` | part-8/cpu.py:45-59 | for a 16-bit value the accumulator is the value and the flags describe it |
| `TinyTMachine.FlagsFromUnmaskedValue` | part-8/cpu.py:45-59 | 0x10000 stores 0 with Z clear; -1 stores 0xFFFF with Z and P clear |
| `TinyTMachine.Fetch` | part-8/cpu.py:67-70 | a fetch is a bus read at `address & 0xFFF`; registers and RAM are kept |
| `TinyTMachine.WriteWord` | part-8/cpu.py:72-73 | a CPU write is a bus write, succeeding exactly when the bus write does |
| `TinyTMachine.Decode` | part-8/cpu.py:75-77 | the fields are a 4-bit opcode and a 12-bit operand that pack back into any 16-bit word |
| `TinyTMachine.Execute` | part-8/cpu.py:90-125 | an opcode outside 0..15 raises the illegal-opcode ValueError |
| `TinyTMachine.StepFetchesAndAdvances` | part-8/cpu.py:67-83 | a step reads the word at `pc & 0xFFF` into `ir`, sets pc to pc + 1 unwrapped with the other registers kept, and executes the word's opcode and operand fields; a read of `None` raises TypeError in `decode` |
| `TinyTMachine.HaltClearsActive` | part-8/cpu.py:127-128 | HLT clears `active` and changes nothing else, whatever its operand |
| `TinyTMachine.LoadReadsMemory` | part-8/cpu.py:130-131 | LDA sets the accumulator and flags from the word read at its operand, keeps the RAM, and raises TypeError exactly when the read gives `None` |
| `TinyTMachine.OperateCombinesMemory` | part-8/cpu.py:136-159 | ADD, SUB, AND, OR and XOR hand the accumulator combined with the word read at the operand, unmasked, to `set_accumulator`, keep the RAM, and raise TypeError exactly when the read gives `None` |
| `TinyTMachine.Run` | part-8/cpu.py:85-87 | a CPU whose `active` is false runs no step |
| `TinyTMachine.AddCarryLeavesZeroClear` | part-8/cpu.py:136-139 | an ADD whose sum is 0x10000 stores 0 yet leaves Z clear and P set |
| `TinyTMachine.NotNeverSetsZero` | part-8/cpu.py:161-163 | NOT stores `0xFFFF - acc`, sets P iff bit 15 of acc was set, and never sets Z |
| `TinyTMachine.ShiftsSwapped` | part-8/cpu.py:165-171 | `shl` halves the accumulator and `shr` doubles it modulo 0x10000, with Z iff it was 0 |
| `TinyTMachine.BranchesAndStoreKeepRegisters` | part-8/cpu.py:173-182 | a branch changes only the program counter, and only when its condition holds; a store keeps every register |
| `TinyTMachine.StoreWritesMemory` | part-8/cpu.py:133-134 | a store to a cell the RAM answers leaves the masked accumulator there |
| `TinyTMachine.OutputToTerminal` | part-8/cpu.py:195-203 | INP and OUT ignore their operand; OUT emits `acc & 0xFF` once per registered terminal, keeps registers and RAM, and clears the I/O request |
| `TinyTMachine.InputFromTerminal` | part-8/cpu.py:184-193 | with one terminal, INP loads the next input byte and sets the flags; with no input the `None & 0xFF` raises TypeError |
| `TinyTMachine.EmptyTerminalReadsNone` | part-8/bus.py:62-70 | an I/O read of port 0xFE with no pending input gives `None` whenever any handler responds |
| `TinyTMachine.StepIgnoresActive` | part-8/cpu.py:79-83 | a step succeeds and acts the same whether or not `active` is set |
| `TinyTMachine.ExecuteIgnoresActive` | part-8/cpu.py:90-125 | executing an instruction does not depend on `active` |
| `TinyTMachine.ProgramCounterNotWrapped` | part-8/cpu.py:67-81 | after the step at 0xFFF the program counter is 0x1000, which the next fetch reads as address 0 |
| `TinyTMachine.StepsAfterHalt` | part-8/cpu.py:79-87 | after HLT clears `active`, further steps still execute the following words |
| `TinyTMachine.EchoLoads` | part-9/main.py:59-63 | the five writes of the echo program land in RAM |
| `TinyTMachine.EchoLoadAndOut` | part-9/main.py:59-66 | the echo program's first two steps load 'A' and print it |
| `TinyTMachine.EchoOut` | part-9/main.py:60 | from any state with the echo program at pc 1, the step prints the accumulator's low byte and moves to 2 |
| `TinyTMachine.EchoIn` | part-9/main.py:61 | the step at pc 2 reads the next input into the accumulator, or raises TypeError when there is none |
| `TinyTMachine.EchoInAndBranch` | part-9/main.py:61-62 | the echo program reads the typed byte and branches back to the output |
| `TinyTMachine.EchoSecondPass` | part-9/main.py:60-62 | the echoed byte is printed, and the next read raises TypeError once input runs out |
| `TinyTMachine.EchoProgram` | part-9/main.py:59-66 | loading and running the echo program for four and five steps prints 'A' then the typed byte |
| `TinyTCpu.CPU.constructor` | part-8/cpu.py:35-43 | a new CPU has a zero accumulator, program counter and instruction register, clear flags, and is active on its bus |
| `TinyTCpu.CPU.SetAccumulator` | part-8/cpu.py:45-59 | the registers become what `SetAccumulator` computes |
| `TinyTCpu.CPU.Fetch` | part-8/cpu.py:67-70 | the in-place fetch returns and leaves what `Fetch` says |
| `TinyTCpu.CPU.Write` | part-8/cpu.py:72-73 | the in-place write leaves what `WriteWord` says |
| `TinyTCpu.CPU.Step` | part-8/cpu.py:79-83 | one step leaves the machine `Step` computes, or reports its exception |
| `TinyTCpu.CPU.Run` | part-8/cpu.py:85-87 | the loop leaves the machine `Run` computes for the given step bound |
| `TinyTCpu.CPU.Execute` | part-8/cpu.py:90-125 | each opcode's handler leaves the machine `Execute` computes |
| `TinyTCpu.CPU.Load` | part-8/cpu.py:130-131 | LDA leaves the machine `Load` computes |
| `TinyTCpu.CPU.Operate` | part-8/cpu.py:136-159 | ADD, SUB, AND, OR and XOR leave the machine `Operate` computes |
| `TinyTCpu.CPU.Input` | part-8/cpu.py:184-193 | INP leaves the machine `Input` computes |
| `TinyTCpu.CPU.Output` | part-8/cpu.py:195-203 | OUT leaves the machine `Output` computes |
| `AsmText.Lexer.constructor` | part-9/assembler.py:75-77 | a new lexer has no line and no tokens |
| `AsmText.Lexer.SetText` | part-9/assembler.py:79-81 | the tokens become the whitespace-split words of the line |
| `AsmText.Lexer.NextToken` | part-9/assembler.py:83-87 | it pops and returns the first token, or returns `None` with no tokens left |
| `AsmText.OutputLines` | part-9/assembler.py:148 | one listing line per fixed-up record, in order |
| `AsmText.ListingAppend` | part-9/assembler.py:148-149 | each record adds exactly its own line to the end of the listing |
| `AsmText.Resolve` | part-9/assembler.py:136-141 | a name resolves exactly when it is in the symbol table, else raises "Undefined Symbol"; a non-negative number is itself, and a negative one raises ValueError because its record text splits on '-' to an empty operand that `int('')` refuses |
| `AsmText.FixupRecord` | part-9/assembler.py:136-147 | a record fixes up to `(address, opcode * radix + operand)` exactly when its operand resolves and the word is within the limit, else raises the illegal machine code error |
| `AsmText.FixupPairs` | part-9/assembler.py:127-151 | every record becomes its own fixed-up pair, in order |
| `AsmText.FixupFailsAtFirstBadRecord` | part-9/assembler.py:127-151 | fix-up fails exactly when some record fails, and the error is that of the first failing record |
| `AsmText.FixupListing` | part-9/assembler.py:127-151 | the fix-up loop over the records appends each record's listing line in order and returns the whole listing, or stops at the first record that fails with its error; the same loop is the Tiny-P fix-up of part-5/assembler.py:60-81 in the decimal format |
| `AsmText.FixupTextLines` | part-9/assembler.py:127-151 | the fix-up text holds one "address word" line per record in order, with nothing after the last newline |
| `AsmText.FixupPlaced` | part-9/assembler.py:127-151 | records of packable fields at consecutive addresses fix up to their image `(a + k, opcode * radix + operand)`, whatever the symbol table |
| `AsmText.LineFields` | part-9/loader.py:54-57 | a line is skipped exactly when it does not split into two fields; a field `int` cannot read raises ValueError |
| `AsmText.PaddedAddressValue` | part-9/assembler.py:148 | `zfill(4)` on the address text gives zero-padded digits that read back as the address |
| `AsmText.OutputLineWords` | part-9/assembler.py:148 | a listing line is a single line that splits into the padded address and the word's digits |
| `AsmText.OutputLineFields` | part-9/loader.py:54-57 | the loader reads a listing line back as exactly its address and word |
| `AsmText.ListingRoundTrip` | part-9/loader.py:52-58 | the loader reads every line of a listing back, giving exactly the pairs the assembler wrote |
| `TinyTAsm.FromHex` | part-9/assembler.py:119-125 | conversion succeeds exactly for a hex literal and raises ValueError otherwise |
| `TinyTAsm.LabelBinds` | part-9/assembler.py:169-172 | a token ending in ':' binds its name to the current address and parsing goes on |
| `TinyTAsm.InstructionEmitsOne` | part-9/assembler.py:197-222 | a mnemonic appends one record at the current address with the next token's operand and advances the address; a missing operand raises AttributeError |
| `TinyTAsm.MnemonicIsPlain` | part-9/assembler.py:166-197 | a mnemonic is not taken for an empty token, a label, a comment or a directive |
| `TinyTAsm.OtherTokenSkipped` | part-9/assembler.py:163-224 | a token that is no label, comment, `org.` or mnemonic is skipped |
| `TinyTAsm.CommentEndsLine` | part-9/assembler.py:174-177 | a `#` token ends the line without changing the state |
| `TinyTAsm.OrgDirective` | part-9/assembler.py:179-196 | `org.` sets the address from a decimal operand, drops a hex one, and raises for anything else or nothing |
| `TinyTAsm.HltIsSkipped` | part-9/assembler.py:54-71 | the token `hlt` is silently skipped |
| `TinyTAsm.OriginOperand` | part-9/assembler.py:181-196 | a decimal origin moves the address and a hex origin leaves the state unchanged |
| `TinyTAsm.NameOperand` | part-9/assembler.py:208-216 | a known name is replaced by its address at once and an unknown one is deferred; the fix-up raises "Undefined Symbol" if it is never defined, and uses its address otherwise |
| `TinyTAsm.WideOperand` | part-9/assembler.py:145-147 | an operand of 0x1000 or more is refused only when the word exceeds 0xFFFF; otherwise the word decodes to another opcode |
| `TinyTAsm.FromHexRoundTrip` | part-9/assembler.py:119-122 | the decimal text `from_hex` produces reads back as the hex literal's value |
| `TinyTAsm.HexToken` | part-9/assembler.py:110-117 | `0x` followed by a number's hex digits in either case is a hex literal of that number |
| `TinyTAsm.ParseTokensGrows` | part-9/assembler.py:163-224 | a line only appends records and adds labels; without `org.` its records take consecutive addresses from the current one |
| `TinyTAsm.GrowsByInstruction` | part-9/assembler.py:197-222 | an instruction and the rest of its line only append records and labels, at consecutive addresses without `org.` |
| `TinyTAsm.ParseLinesDense` | part-9/assembler.py:153-224 | without origin directives, the record at position k sits at address k |
| `TinyTAsm.FitsPacks` | part-9/assembler.py:145-147 | instructions with a 4-bit opcode and 12-bit operand never hit the 0xFFFF limit, and pack to their encoded words |
| `TinyTAsm.ParseSourceLine` | part-9/assembler.py:153-222 | a "mnemonic decimal" line parses to exactly one record of that instruction |
| `TinyTAsm.ParseProgram` | part-9/assembler.py:153-224 | lines that each hold one instruction parse to those records, in order, at consecutive addresses |
| `TinyTAsm.AssembleLines` | part-9/assembler.py:153-228 | any text whose lines each emit one fitting instruction assembles to the listing of the encoded words at addresses 0, 1, … |
| `TinyTAsm.AssembleProgram` | part-9/assembler.py:153-228 | a program written one instruction per line assembles to the listing of its encoded words at addresses 0, 1, … |
| `TinyTAsm.Assembler.constructor` | part-9/assembler.py:89-98 | the assembler keeps the lexer the caller passes in, the text is split into lines, and the state starts at address 0 with no symbols or code |
| `TinyTAsm.Assembler.SkipComment` | part-9/assembler.py:105-108 | a `#` drains the lexer's tokens; any other token leaves them |
| `TinyTAsm.Assembler.Fixup` | part-9/assembler.py:127-151 | returns the listing `FixupText` describes for the parsed records, in the 16-bit format, or its first error |
| `TinyTAsm.Assembler.Parse` | part-9/assembler.py:153-228 | parsing every line and then fixing up returns what `Assembled` describes, and leaves the parsed state |
| `TinyTAsm.Assembler.ParseLineTokens` | part-9/assembler.py:154-224 | the token loop for one line leaves the state `ParseLine` computes |
| `TinyTAsm.Assembler.ParseOrigin` | part-9/assembler.py:181-196 | the `org.` branch leaves the state `Origin` computes |
| `TinyTAsm.Assembler.ParseInstruction` | part-9/assembler.py:199-222 | the instruction branch appends the record `Instruction` describes and consumes at least one token |
| `TinyTDisasm.Decode` | part-9/disassembler.py:67-74 | a word is decoded exactly when `int` reads it, as the upper-case mnemonic and hex operand of its low 16 bits |
| `TinyTDisasm.DisasmLine` | part-9/disassembler.py:60-64 | an empty line gives nothing; a line must split into two fields, else ValueError; otherwise address, tabs and decoded word |
| `TinyTDisasm.DisasmLines` | part-9/disassembler.py:57-65 | a text disassembles exactly when each of its lines does |
| `TinyTDisasm.Disasm` | part-9/disassembler.py:56-65 | the loop returns what `DisasmLines` gives for the text's lines |
| `TinyTDisasm.DecodeShowsFields` | part-9/disassembler.py:67-74 | the decimal text of an encoded word decodes to its opcode's mnemonic and operand |
| `TinyTDisasm.DecodeIgnoresHighBits` | part-9/disassembler.py:71-72 | bits above 15 of a word do not change its disassembly |
| `TinyTDisasm.FieldsTextReadsBack` | part-9/disassembler.py:73-74 | lower-cased, a decoded instruction splits into its mnemonic and a `0x` hex operand |
| `TinyTDisasm.ListingDisassembles` | part-9/disassembler.py:57-65 | every assembler listing disassembles, one line per listing line |
| `TinyTDisasm.ReassembleLine` | part-9/disassembler.py:64 | the assembler parses one disassembled line back to the same instruction |
| `TinyTDisasm.Reassembly` | part-9/disassembler.py:57-65 | disassembling the listing of a program and assembling that text again gives the same listing |
| `TinyTLoader.LoadIsWriteWords` | part-9/loader.py:52-58 | loading a text writes the pairs its lines read as, in order, and succeeds only when every line reads |
| `TinyTLoader.Loader.constructor` | part-9/loader.py:47-50 | the loader keeps the text, its lines and the CPU |
| `TinyTLoader.Loader.Load` | part-9/loader.py:52-58 | the loop leaves the machine `LoadLines` computes, or reports its first exception |
| `TinyTLoader.WriteWordStores` | part-9/loader.py:58 | a CPU write to a cell the RAM answers stores the masked word there and changes no other cell |
| `TinyTLoader.WriteWordsStore` | part-9/loader.py:52-58 | writing pairs at distinct answered addresses leaves each masked word in its cell and the other cells alone |
| `TinyTLoader.AssembledWords` | part-9/loader.py:52-58 | the listing of an assembled program reads back as the pairs `(k, encoded instruction k)` |
| `TinyTLoader.AssembleAndLoad` | part-9/loader.py:52-58 | assembling a program and loading the listing puts each encoded instruction, masked, in its RAM cell and leaves the other cells alone |
| `TinyPMachine.UpdateStatus` | part-3/cpu.py:79-82 | the flags become Z iff acc is 0 and P iff acc is not negative; nothing else changes |
| `TinyPMachine.UpdateAcc` | part-3/cpu.py:71-74 | the accumulator takes the value and the flags follow it; nothing else changes |
| `TinyPMachine.InitRom` | part-3/cpu.py:84-87 | a hundred zero cells are appended to the ROM; nothing else changes |
| `TinyPMachine.InitMemory` | part-3/cpu.py:89-92 | a hundred zero cells are appended to the RAM; nothing else changes |
| `TinyPMachine.Reset` | part-3/cpu.py:66-69 | acc, pc and instr become 0, both flags are set, and a hundred zero cells are appended to the RAM |
| `TinyPMachine.ReadMemory` | part-3/cpu.py:94-96 | a read gives the cell at a valid Python index and raises IndexError otherwise |
| `TinyPMachine.WriteMemory` | part-3/cpu.py:98-100 | a write succeeds exactly at a valid index, changes only that RAM cell, else raises IndexError |
| `TinyPMachine.ReadProg` | part-3/cpu.py:102-104 | a ROM read gives the cell at a valid index and raises IndexError otherwise |
| `TinyPMachine.Program` | part-3/cpu.py:106-108 | programming succeeds exactly at a valid index, changes only that ROM cell, else raises IndexError |
| `TinyPMachine.Fetch` | part-3/cpu.py:121-126 | the instruction register takes the ROM cell at pc and pc advances, wrapping to 0 at 100 |
| `TinyPMachine.Fields` | part-3/cpu.py:128-181 | a word splits exactly when it is in 0..999, into an opcode below 10 and an operand below 100 that give the word back |
| `TinyPMachine.FieldsRoundTrip` | part-3/cpu.py:128-181 | the word `100 * opcode + operand` decodes to that opcode and operand |
| `TinyPMachine.Tested` | part-3/cpu.py:110-118 | the opcode test runs first and raises for a wrong opcode; then an operand of 100 or more raises |
| `TinyPMachine.StepErrors` | part-3/cpu.py:121-181 | a failing step raises IndexError or the "Undefined Opcode" ValueError and nothing else |
| `TinyPMachine.DecodedPassesTests` | part-3/cpu.py:110-118 | a decoded instruction always passes its own tests, so executing it can only raise IndexError |
| `TinyPMachine.StepKeepsPcInRange` | part-3/cpu.py:121-126 | after a successful step from a non-negative pc, pc is in 0..99 |
| `TinyPMachine.StepKeepsFlagsMatch` | part-3/cpu.py:184-261 | if the flags describe the accumulator before a step, they still do after it |
| `TinyPMachine.NotIsLogical` | part-3/cpu.py:219-225 | NOT gives 1 for a zero accumulator and 0 otherwise; applied twice it gives 0 or 1, not the original value |
| `TinyPMachine.LdaLoadsMemory` | part-3/cpu.py:190-193 | LDA succeeds exactly when the opcode is 1, the operand is below 100 and indexes the RAM; the accumulator becomes the cell, the flags follow it, and nothing else changes |
| `TinyPMachine.OperateCombinesMemory` | part-3/cpu.py:201-242 | AND, OR, ADD and SUB succeed exactly when the opcode is theirs, the operand is below 100 and indexes the RAM; the accumulator becomes `acc & cell`, `acc \| cell`, `acc + cell` or `acc - cell` (SUB subtracts the cell, despite its comment's wording), the flags follow, and nothing else changes |
| `TinyPMachine.StoreAndBranchesKeepFlags` | part-3/cpu.py:195-261 | STA changes only the RAM; BRZ and BRP change only pc, to the operand, and only when their flag is set |
| `TinyPMachine.NopOnlyFetches` | part-3/cpu.py:184-188 | a word below 100 only fetches and records opcode 0 and the word as its operand |
| `TinyPMachine.RunNeverHalts` | part-3/cpu.py:43-51 | running from a state that is not halted never reaches a halted one |
| `TinyPMachine.StepKeepsRunning` | part-3/cpu.py:47-51 | a step changes neither `halted` nor the ROM |
| `TinyPMachine.HaltedStops` | part-3/cpu.py:43-54 | after `halt`, `run` performs no step |
| `TinyPMachine.Demonstration` | part-3/cpu.py:264-280 | the demonstration program leaves `7 & 10 = 2` in acc and 7 in cell 1, and branches back to 0, after four steps |
| `TinyPMachine.Subtraction` | part-4/exercise-0.py:26-42 | the subtraction exercise leaves `9 - 6 = 3` in acc and in cell 3 after three steps |
| `TinyPCpu.CPU.constructor` | part-3/cpu.py:30-41 | a new CPU has zeroed registers, set flags, an empty ROM and RAM, and is not halted |
| `TinyPCpu.CPU.Run` | part-3/cpu.py:43-45 | the loop leaves the state `Run` computes for the given step bound |
| `TinyPCpu.CPU.Step` | part-3/cpu.py:47-51 | fetch then decode leave the state `Step` computes |
| `TinyPCpu.CPU.Halt` | part-3/cpu.py:53-54 | only `halted` changes, to true |
| `TinyPCpu.CPU.ColdStart` | part-3/cpu.py:63-64 | a cold start is `init_rom` |
| `TinyPCpu.CPU.Reset` | part-3/cpu.py:66-69 | the state becomes what `Reset` computes |
| `TinyPCpu.CPU.UpdateAcc` | part-3/cpu.py:71-74 | the state becomes what `UpdateAcc` computes |
| `TinyPCpu.CPU.UpdatePc` | part-3/cpu.py:76-77 | only pc changes, to the value |
| `TinyPCpu.CPU.UpdateStatus` | part-3/cpu.py:79-82 | the state becomes what `UpdateStatus` computes |
| `TinyPCpu.CPU.InitRom` | part-3/cpu.py:84-87 | the append loop leaves the state `InitRom` computes |
| `TinyPCpu.CPU.InitMemory` | part-3/cpu.py:89-92 | the append loop leaves the state `InitMemory` computes |
| `TinyPCpu.CPU.ReadMemory` | part-3/cpu.py:94-96 | returns what `ReadMemory` gives |
| `TinyPCpu.CPU.WriteMemory` | part-3/cpu.py:98-100 | the state becomes what `WriteMemory` computes, or the IndexError is reported |
| `TinyPCpu.CPU.ReadProg` | part-3/cpu.py:102-104 | returns what `ReadProg` gives |
| `TinyPCpu.CPU.Program` | part-3/cpu.py:106-108 | the state becomes what `Program` computes, or the IndexError is reported |
| `TinyPCpu.CPU.TestOpcode` | part-3/cpu.py:110-113 | passes exactly when the opcode is the expected one, else raises the illegal-opcode ValueError |
| `TinyPCpu.CPU.TestOperand` | part-3/cpu.py:115-118 | passes exactly when the operand is below 100, else raises the illegal-operand ValueError |
| `TinyPCpu.CPU.Tests` | part-3/cpu.py:110-118 | both tests in order give what `Tested` says |
| `TinyPCpu.CPU.Fetch` | part-3/cpu.py:121-126 | the state becomes what `Fetch` computes, or the IndexError is reported |
| `TinyPCpu.CPU.Decode` | part-3/cpu.py:128-181 | the range chain leaves the state `Decode` computes, or raises "Undefined Opcode" |
| `TinyPCpu.CPU.SplitWord` | part-3/cpu.py:130-178 | the range chain sets opcode and operand to the fields of the instruction |
| `TinyPCpu.CPU.Execute` | part-3/cpu.py:128-178 | the instruction method for the decoded opcode leaves the state `Execute` computes |
| `TinyPCpu.CPU.Nop` | part-3/cpu.py:184-188 | NOP passes exactly when `Nop` does |
| `TinyPCpu.CPU.Lda` | part-3/cpu.py:190-193 | LDA leaves the state `Lda` computes |
| `TinyPCpu.CPU.Sta` | part-3/cpu.py:195-199 | STA leaves the state `Sta` computes |
| `TinyPCpu.CPU.Operate` | part-3/cpu.py:201-242 | AND, OR, ADD and SUB leave the state `Operate` computes |
| `TinyPCpu.CPU.Not` | part-3/cpu.py:219-225 | NOT leaves the state `Not` computes |
| `TinyPCpu.CPU.Brz` | part-3/cpu.py:245-252 | BRZ leaves the state `Branch` computes on the zero flag |
| `TinyPCpu.CPU.Brp` | part-3/cpu.py:254-261 | BRP leaves the state `Branch` computes on the positive flag |
| `TinyPAsm.LookupFinds` | part-5/assembler.py:117 | the search of `MNEMONICS` finds the token's index, or shows the token is none of them |
| `TinyPAsm.MnemonicsIndexed` | part-5/assembler.py:7-20 | `MNEMONICS` lists the table's ten mnemonics in opcode order, and the table is its inverse |
| `TinyPAsm.OpcodeOfTable` | part-5/assembler.py:117-119 | the mnemonic lookup gives `OPCODE_TABLE[tok]` exactly when `tok` is a key |
| `TinyPAsm.MnemonicIsPlain` | part-5/assembler.py:95-117 | a mnemonic is not taken for an empty token, a label, a comment or a directive |
| `TinyPAsm.InstrOperand` | part-5/assembler.py:120-130 | an instruction's operand is a non-negative number, a deferred unknown name, or the operand recorded before on the line |
| `TinyPAsm.Origin` | part-5/assembler.py:110-115 | `org.` succeeds exactly with a decimal operand, which becomes the address |
| `TinyPAsm.LabelBinds` | part-5/assembler.py:98-101 | a token ending in ':' binds its name to the current address and parsing goes on |
| `TinyPAsm.CommentEndsLine` | part-5/assembler.py:103-106 | a `#` token ends the line without changing the state |
| `TinyPAsm.DirectiveEndsLine` | part-5/assembler.py:108-116 | a directive other than `org.` ends the line without changing the state |
| `TinyPAsm.OrgDirective` | part-5/assembler.py:108-116 | `org.` sets the address from a decimal operand and raises for anything else or nothing |
| `TinyPAsm.HexOriginRefused` | part-5/assembler.py:110-115 | `org. 0x10` raises "Illegal Origin" whose message shows the literal `{operand}` |
| `TinyPAsm.InstructionEmitsOne` | part-5/assembler.py:117-133 | a mnemonic appends one record at the current address with the next token's operand and advances the address |
| `TinyPAsm.OtherTokenSkipped` | part-5/assembler.py:92-135 | a token that is no label, comment, directive or mnemonic is skipped |
| `TinyPAsm.HltIsSkipped` | part-5/assembler.py:117 | Tiny-P has no halt mnemonic: `hlt` is silently skipped |
| `TinyPAsm.NameOperand` | part-5/assembler.py:123-127 | a known name is replaced by its address at once and an unknown one is deferred; the fix-up raises "Undefined Symbol" if it is never defined, and uses its address otherwise |
| `TinyPAsm.WideOperand` | part-5/assembler.py:75-77 | an operand of 100 or more is refused only when the word exceeds 999; otherwise the word decodes to another opcode |
| `TinyPAsm.ParseTokensGrows` | part-5/assembler.py:92-135 | a line only appends records and adds labels; without `org.` its records take consecutive addresses |
| `TinyPAsm.GrowsByInstruction` | part-5/assembler.py:117-135 | an instruction and the rest of its line only append records and labels, at consecutive addresses without `org.` |
| `TinyPAsm.ParseLinesDense` | part-5/assembler.py:83-135 | without origin directives, the record at position k sits at address k |
| `TinyPAsm.FitsPacks` | part-5/assembler.py:75-77 | instructions with opcode below 10 and operand below 100 never hit the 999 limit, and their words decode back to them |
| `TinyPAsm.ParseSourceLine` | part-5/assembler.py:84-133 | a "mnemonic decimal" line parses to exactly one record of that instruction |
| `TinyPAsm.ParseProgram` | part-5/assembler.py:84-135 | lines that each hold one instruction parse to those records, in order |
| `TinyPAsm.AssembleProgram` | part-5/assembler.py:83-139 | a program written one instruction per line assembles to the listing of `100 * opcode + operand` at addresses 0, 1, … |
| `TinyPAsm.Assembler.constructor` | part-5/assembler.py:41-49 | the text is split into lines, a fresh empty lexer of its own is built, and the state starts at address 0 with no symbols or code |
| `TinyPAsm.Assembler.SkipComment` | part-5/assembler.py:55-58 | a `#` drains the lexer's tokens; any other token leaves them |
| `TinyPAsm.Assembler.Fixup` | part-5/assembler.py:60-81 | returns the listing `FixupText` describes for the parsed records, in the decimal format, or its first error |
| `TinyPAsm.Assembler.Parse` | part-5/assembler.py:83-139 | parsing every line and then fixing up returns what `Assembled` describes |
| `TinyPAsm.Assembler.ParseLineTokens` | part-5/assembler.py:85-135 | the token loop for one line leaves the state `ParseLine` computes |
| `TinyPAsm.Assembler.ParseOrigin` | part-5/assembler.py:110-115 | the `org.` branch leaves the state `Origin` computes |
| `TinyPAsm.Assembler.ParseInstruction` | part-5/assembler.py:119-133 | the instruction branch appends the record `Instruction` describes and consumes at least one token |
| `TinyPLoader.LoadIsProgramming` | part-6/loader.py:26-32 | loading a text programs the pairs its lines read as, in order, and succeeds only when every line reads |
| `TinyPLoader.ProgramPairsCells` | part-6/loader.py:26-32 | programming succeeds exactly when every address is a valid ROM index; then only the ROM changes, each cell holds its last pair's value, and untouched cells keep theirs |
| `TinyPLoader.Loader.constructor` | part-6/loader.py:17-20 | the loader keeps the text, its lines and the CPU |
| `TinyPLoader.Loader.CpuInit` | part-6/loader.py:22-24 | the CPU becomes `reset(init_rom(cpu))` |
| `TinyPLoader.Loader.Load` | part-6/loader.py:26-32 | the loop leaves the state `LoadLines` computes, or reports its first exception |
| `TinyPLoader.BootedIsZero` | part-6/loader.py:22-24 | after `cpu_init` a new CPU has a hundred zero ROM cells and a hundred zero RAM cells, and nothing else has changed |
| `TinyPLoader.LaterLineWins` | part-6/loader.py:26-32 | when a listing names a cell twice, the later line is what the cell holds |
| `TinyPLoader.OtherLineIgnored` | part-6/loader.py:29 | a line that does not split into two fields changes nothing |
| `TinyPLoader.AssembledListing` | part-6/loader.py:26-32 | the assembled listing of a program loads as programming its image, pair by pair |
| `TinyPLoader.ProgramImage` | part-6/loader.py:26-32 | programming a fitting program's image puts each word in its cell, where decode finds the instruction again, and leaves the other cells alone |
| `TinyPLoader.AssembleAndLoad` | part-6/loader.py:22-32 | assembling a program of at most a hundred instructions and loading it into a new CPU puts each instruction's word in its ROM cell, leaves the rest 0, and changes nothing else |

## Left out

- Command-line entry points (`main` and `getopt` handling in the assemblers, disassembler and loaders), file reading and writing, and `print`: these are I/O around the modelled functions.
- The real terminal: `CommPort` reads `sys.stdin` and writes `sys.stdout`. The model replaces it with a port that takes values from an input queue and appends the bytes it emits to an output list. The real `read` returns a `bytes` object, which `& 0xFF` in the CPU's INP would reject; the model hands over integers instead. `write_char` and `get_buffer_char` are not used by the CPU and are not modelled.
- `Memory.random_fill`, `Memory.dump`, `__str__` and `__repr__`: randomness and text dumps that no modelled operation uses.
- The CPU `trace`/`debug` output of Tiny-P and the commented-out `time.sleep` of Tiny-T.
- The Tiny-T CPU's `address_register` field: it is set once and never read.
- The Tiny-P CPU's `cycle_time_in_ms` and `debug` fields, which no modelled operation reads. Its `opcode` and `operand` fields do not exist in Python until the first `decode`; the model starts them at 0.
- TinyTMachine.Run: `run` loops while `active` holds and may never stop; the model takes a step bound and stops after that many steps. TinyPMachine.Run does the same for Tiny-P's `run`, which never stops by itself.
- `skip_spaces`: `split()` never yields a whitespace token, so the loop never runs and the model leaves it out.
- `isnumeric`, `isalnum`, `isspace`, `lower`, `upper` and `int` are modelled on ASCII. Other Unicode digits and letters, and `int`'s underscores and surrounding spaces, are not modelled.
- After an exception, the state a class method leaves is not specified; its contract gives only the exception.
- Tiny-T `Bus` handlers are the two device kinds, memory and terminal, rather than arbitrary objects. Every device method is a static method over class-level state, so which instance was registered never matters.
- TinyTMachine.Execute: its own contract states only the illegal-opcode case; what each opcode does is stated by the lemmas beside it (`HaltClearsActive`, `LoadReadsMemory`, `OperateCombinesMemory`, `NotNeverSetsZero`, `ShiftsSwapped`, `BranchesAndStoreKeepRegisters`, `StoreWritesMemory`, `OutputToTerminal`, `InputFromTerminal`), each for every machine state except `StoreWritesMemory` (a cell the RAM answers) and `InputFromTerminal` (one terminal registered), which hold under the conditions they name.
