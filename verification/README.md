# The REX virtual machine and its T++ compiler, in Dafny

The repository contains a small virtual machine (32-bit registers, two stacks of
64-bit cells, byte-addressed memory with page types, a round-robin job
dispatcher), a one-pass compiler for the T++ language that prints assembly for
it, and tools around executables (a checksum signer, a loader, a disassembler).
This project models these parts and proves what they promise each other.

The central result is `Programs.ProgramRuns`: a text the compiler accepts,
assembled to bytes and laid out in executable memory, does on the machine what
the text means; `Installation.EveryProgramRuns` shows that every program that
fits has such a machine, and `Rendering.ProgramsExactly` which programs have a
text. It rests on a byte-level interpreter (`Machine`), a symbolic
assembler (`Assembly`, `Layout`), a big-step meaning of T++ with stack costs
(`Tpp`), the code each construct prints (`Codegen`), the simulation proof
(`Chunks`, `Setting`, `Correctness`), and the character-level reading of the
text (`Grammar`, `Statements`, `Accepted`). `Compiling.Compiler` is the compiler
itself: one look-ahead character, counters, the table of open loops, output in
order, each method proved against those functions. `Processor.Cpu` is the
interpreter itself, changing fields, stacks and memory in place, proved to do one
`Machine.Step`. `Instructions` says, opcode by opcode and byte by byte, what such a
step does. `Dispatcher.Domain` holds the jobs as objects, and its `Round`,
which loads a job, runs one instruction and saves the job, is proved to be one
`Scheduling.Iterate`, and its `CpuLoop` to be a run of them from the start;
fairness and isolation are then proved over all such runs.

Values are 32-bit words carried through 64-bit cells; wrap-around, truncation on
saving registers, unsigned comparison, and the operators' own meanings (`&&` and
`||` test for exactly 1, `not` is bitwise, `neg` is logical) are those of the code,
also where `docs/CPU.html` or `compiler/readme.txt` say otherwise.

Files, in the order they build on each other:

| part | files |
|---|---|
| machine | `Words`, `Isa`, `Machine`, `Instructions`, `Stack`, `Pages`, `Protection`, `Processor` |
| compiler | `Tpp`, `Codegen`, `Grammar`, `Printing`, `Literals`, `Operators`, `Statements`, `Compiler`, `Accepted`, `Rendering` |
| compiled code | `Assembly`, `Layout`, `Chunks`, `Setting`, `Correctness`, `Meaning`, `StraightLine`, `Programs`, `Installation`, `Results`, `Examples`, `Summing` |
| jobs | `Locality`, `Scheduling`, `Confinement`, `Isolation`, `Dispatcher`, `Sharing`, `Launching` |
| storage and tools | `Ledger`, `Crc`, `CheckValue`, `Signing`, `Disassembler` |

Properties that fail somewhere are stated with the exact condition under which
they hold: `Results.ArgumentExact` and `Results.MiscountedArgument` (the counter behind `$n`), `Meaning.LessIsLost`
(`<` selects no operation), `Protection.StoreExact` (unaligned stores into code),
`Ledger.FreeKeeps` (freeing NULL), `Pages.InsideTable`
(mapping a page that is not aligned), `Pages.RegionLonger` (heap requests near 2^32),
`Signing.SignedIsAccepted` (the unset byte behind a signed file, and a checksum
of zero), `Disassembler.SweepExactly` (`fsqrt` and `push64`), `Isolation.LateRequest`
(requests for memory by several jobs).

## Model

| member | source | states |
|---|---|---|
| Programs.ProgramRuns | compiler/tbc.c:1076-2016 | for every accepted text, assembled and installed, calls of `main` and any number of its parameters included, and every amount of fuel: a run from `main:` comes back with the returned value in R7, the meaning's store in the variable cells, the call stack as it was and only the five start-up zeros on the data stack; or stops at a division by zero; or lasts at least that long |
| Installation.EveryProgramRuns | compiler/tbc.c:1076-2016 | for every accepted program that fits below the end of the address space and every data stack that holds the arguments of `main`, there is a machine, with variables of zero, that runs it as its meaning says |
| Installation.Installable | compiler/tbc.c:606-788 | that machine's symbols, memory and pages: code first, then the variables in cells of their own |
| Examples.SevenRuns | compiler/tbc.c:1815-1820 | an example carried through: the text of a `main` that returns 7 is accepted, and its bytes run to a state with 7 in R7 |
| Examples.SevenText | compiler/tbc.c:1353-1543 | the characters of that text |
| Examples.LoopRuns | compiler/tbc.c:1766-1787 | and one that does not end: the text of a `main` with an endless loop is accepted, and its bytes run forever |
| Summing.SumRuns | compiler/tbc.c:1076-2016 | a text with an argument, variables, a loop and a condition, given character by character: its bytes, called with any n, leave the sum of the numbers up to n in R7 |
| Summing.SumText | compiler/tbc.c:1353-1543 | the characters of that text, line by line |
| Results.EndlessRuns | compiler/tbc.c:1766-1787 | a program whose meaning never ends, with stacks that never fill, runs forever: the machine neither halts, traps nor gets stuck |
| Accepted.AcceptedText | compiler/tbc.c:1353-1543 | what was printed for an accepted text whose functions and loops are closed is the code of those functions; no label occurs twice; every variable is declared and every call has the declared number of arguments |
| Programs.InstalledIsReady | compiler/tbc.c:606-788 | assembled bytes of an accepted text in executable pages are every function at its symbol, with start-up and initialisation code, ready to run |
| Programs.Assembles | compiler/tbc.c:606-788 | for every accepted text below the end of the address space the symbol table resolves all labels |
| Layout.AssembledIsLoaded | src/programs/libR3X/r3x_asm.pkg:58-546 | bytes of code without double labels, placed in executable memory under the symbols they were assembled with, are fetched as that code with every label where its symbol says |
| Layout.ProgramLabels | compiler/tbc.c:1744-1787 | a program defines exactly its functions' names, two labels a loop and one an `if`, each once |
| Statements.BlockOnLines | compiler/tbc.c:1766-1787 | each `endw` closes the innermost open `while`: what the line-by-line compiler prints for nested loops is the code of the nested block, and the table of open loops is as before |
| Statements.ClosedTextIsBlock | compiler/tbc.c:1766-1787 | lines the compiler accepts and after which no loop is open are the layout of a nested block |
| Statements.AcceptedIsNested | compiler/tbc.c:1781-1787 | accepted lines either nest properly up to where a loop outside them is closed, or leave a loop open |
| Accepted.PrintedIsShallow | compiler/tbc.c:165-179 | a block that is printed at all nests no deeper than the table of open loops holds |
| Correctness.SimExpr | compiler/tbc.c:1076-1238 | code of any expression follows its meaning: value in R1, both stacks, R4, R5, R9, R10 and everything outside variable cells unchanged, calls and `$` included; a division by zero stops at the division |
| StraightLine.ExpressionRuns | compiler/tbc.c:1076-1171 | code of an expression without calls and `$` takes one cycle a line, ends just past itself with the 32-bit value in R1, and changes nothing but R2, R12 and the flags; three data cells and two call cells for each parenthesis level and one more are room enough |
| Meaning.ExprUse | compiler/tbc.c:1076-1171 | such an expression never needs more than 3 data cells and 2 * (nesting + 1) call cells |
| Meaning.UseIsReached | compiler/tbc.c:1076-1171 | at every nesting depth an expression of the grammar needs exactly that much |
| Meaning.LessIsLost | compiler/tbc.c:1028-1109 | `<` alone selects no operation; it gives the comparison if and only if the right operand is 0, or is 1 with a left operand of 0 |
| Meaning.EvalMore | compiler/tbc.c:1076-1238 | the meaning of an expression does not depend on the fuel once there is enough |
| Meaning.ExecMore | compiler/tbc.c:1505-1543 | nor does the meaning of a statement |
| Correctness.SimCall | compiler/tbc.c:1975-2016 | a call follows its meaning from the state before its arguments are pushed |
| Results.CallRuns | compiler/tbc.c:1975-2016 | around a call that returns: value in R1, variables as the function left them, both stacks and the utility registers as before |
| Results.BlockRuns | compiler/tbc.c:1744-1787 | a block of `let`, calls, one-line `if` and nested `while` that falls through ends past its code with the new store in the cells and both stacks as they were |
| Correctness.SimBlock | compiler/tbc.c:1505-1543 | every block follows its meaning, also when it returns to its caller, divides by zero or goes on |
| Correctness.SimWhile | compiler/tbc.c:1766-1787 | every loop does, round after round |
| Correctness.SimInvoke | compiler/tbc.c:1999-2016 | saving the utility registers, entering, running the body and cleaning up restores the stacks |
| Correctness.StoreCell | compiler/tbc.c:1825-1883 | storing to one variable's cell changes that variable's value and no other, and no code |
| Results.ArgumentLoads | compiler/tbc.c:1184-1219 | the running `$` sequence loads the cell its counters select and leaves stacks and memory alone |
| Results.ArgumentExact | compiler/tbc.c:1184-1219 | that cell is argument j on every stack if and only if the compiler's count of pushed values is the true one |
| Results.CallInArgumentsMiscounts | compiler/tbc.c:1920-1921 | in `@f(1, @k(), $1)` the count at `$1` is 1 where two values were pushed |
| Results.MiscountedArgument | compiler/tbc.c:1184-1219 | so the running code of that list passes on not the first argument of its function but the second, or the caller's R4 if there is but one |
| Examples.WrongRuns | compiler/tbc.c:1920-1921 | an accepted text where it happens: in its `main`, called with 5 and 0, the bytes for `$1` pass on 0 |
| Rendering.LinesRoundTrip | compiler/tbc.c:1353-1543 | reading the printed lines of any statements, loops, functions and ends gives those lines, each `if` with the number of its line |
| Rendering.LinesShape | compiler/tbc.c:1353-1543 | whatever the compiler can read is lines that can be printed |
| Rendering.TextOfAccepted | compiler/tbc.c:1353-1543 | the printed text of an accepted program is accepted as the same program, line by line |
| Rendering.ProgramsExactly | compiler/tbc.c:1353-1543 | a program has a text the compiler accepts if and only if its names and trees are those of the grammar, declared before use, its `if`s numbered by line and its loops within the table |
| Printing.ClosedRoundTrip | compiler/tbc.c:1076-1238 | parsing the printed text of any tree of the grammar's two levels gives the tree back and consumes exactly the printed text |
| Printing.PrintOfParse | compiler/tbc.c:1076-1238 | printing what was parsed and parsing again gives the same tree |
| Printing.ExprShape | compiler/tbc.c:1076-1238 | every parsed tree is one of those trees, and no operator is left unread |
| Printing.NumberRoundTrip | compiler/tbc.c:842-1027 | a printed number is read back for every 32-bit value |
| Literals.EveryBase | compiler/tbc.c:842-956 | every 32-bit number written in base 16, 8, 2 or 10 is read back |
| Literals.HexadecimalLiteral | compiler/tbc.c:850-886 | `0x` or `0X` and any row of digits is their value by position, cut to 32 bits |
| Literals.OctalLiteral | compiler/tbc.c:887-899 | the same for `0o`; with an 8 or a 9 it is refused |
| Literals.BinaryLiteral | compiler/tbc.c:900-908 | the same for `0b` |
| Literals.DecimalLiteral | compiler/tbc.c:913-948 | the same for decimal digits, leading zeros included |
| Literals.CharacterLiteral | compiler/tbc.c:1220-1230 | a character in quotes is its code |
| Literals.NameCharacters | compiler/tbc.c:961-977 | which characters may be part of a name |
| Operators.Arithmetic | compiler/tbc.c:1028-1171 | `+ - * / %` between two written numbers: the value in 32 bits, or a division by zero |
| Operators.Comparisons | compiler/tbc.c:1028-1171 | `:= != >= <= >` without a sign |
| Operators.Conjunctions | compiler/tbc.c:1028-1171 | the doubled operators test for exactly 1 |
| Operators.BitOperators | compiler/tbc.c:1028-1171 | the single operators bit by bit |
| Operators.Sums | compiler/tbc.c:1076-1171 | products before sums, sums from the left |
| Operators.Levels | compiler/tbc.c:1076-1171 | comparisons bind like products |
| Operators.Parentheses | compiler/tbc.c:1175-1238 | parentheses bind first |
| Operators.Unary | compiler/tbc.c:1175-1238 | `not`, `neg` and a leading sign |
| Rendering.RunEnds | compiler/tbc.c:1353-1386 | a line that starts with `run` in either case ends the program, one with `ru` and another character is refused |
| Rendering.EmptyLine | compiler/tbc.c:1353-1386 | an empty line is skipped and counted |
| Rendering.KeywordInCapitals | compiler/tbc.c:1282-1310 | keywords may be written in capitals |
| Statements.TableOfLoops | compiler/tbc.c:1766-1777 | the table holds 257 open loops |
| Compiling.Compiler.constructor | compiler/tbc.c:160-215 | the compiler's state before the first character |
| Compiling.Compiler.DoExpression | compiler/tbc.c:1076-1093 | consumes exactly the expression the grammar reads and prints exactly its code, keeping the counter of pushed values |
| Compiling.Compiler.DoTerm | compiler/tbc.c:1097-1171 | likewise for terms |
| Compiling.Compiler.DoFactor | compiler/tbc.c:1175-1238 | likewise for factors |
| Compiling.Compiler.GetComparisonOperator | compiler/tbc.c:1028-1072 | the operator number for one or two characters and what stays unread |
| Compiling.Compiler.GetNum | compiler/tbc.c:842-1027 | reads the literals the grammar reads, to the same value |
| Compiling.Compiler.DoFunctionCall | compiler/tbc.c:1920-2016 | prints arguments left to right, the saves, the call and the clean-up, and clears the counter |
| Compiling.Compiler.DoIf | compiler/tbc.c:1744-1754 | reads an `if` line and prints the code of that statement with the line's number as label |
| Compiling.Compiler.DoWhile | compiler/tbc.c:1766-1777 | prints the loop's head and opens it in the table |
| Compiling.Compiler.DoEndw | compiler/tbc.c:1781-1787 | closes the innermost open loop in the table, or fails without one |
| Compiling.Compiler.DoLet | compiler/tbc.c:1825-1883 | declares the variable and prints evaluation and store |
| Compiling.Compiler.DoReturn | compiler/tbc.c:1815-1820 | prints evaluation, the move to R7 and the return |
| Compiling.Compiler.CompileText | compiler/tbc.c:1353-1386 | accepts exactly the texts whose lines are read and printed, and prints those lines in order |
| Compiling.Compile | compiler/tbc.c:280-302 | the same for a whole file |
| Instructions.BadRegisterRaises | src/cpu.c:1396-1447 | a register that is none is exception 1, before a stack is touched |
| Isa.FetchOfEncode | src/cpu.c:210-1904 | wherever the bytes of an instruction lie, the interpreter decodes that instruction with its little-endian operands |
| Isa.IncrementIsLength | src/cpu.c:210-1904 | falling through moves by exactly the bytes the assembler wrote |
| Instructions.Decrements | src/cpu.c:1431-1447 | bytes 33 r: one less, wrapping below 0, and nothing else |
| Instructions.Increments | src/cpu.c:1414-1430 | bytes 32 r: one more, wrapping to 0 |
| Instructions.CountsExactly | src/cpu.c:1414-1447 | a loop of `decr` or `incr`, a comparison with 0 and a jump back is left after exactly as many rounds as the register is away from 0, with 0 in it and all else as before but the flags |
| Instructions.Pushes | src/cpu.c:236-248 | byte 01: the operand on top, or a stop when the stack is full |
| Instructions.PushesCall | src/cpu.c:1335-1346 | byte 26: the same on the call stack |
| Instructions.PushesCell | src/rfc.c:24-27 | bytes 8C 01 push eight bytes |
| Instructions.LoadsRegister | src/cpu.c:1360-1377 | byte 2B: the operand in the register |
| Instructions.PopsRegister | src/cpu.c:1396-1413 | bytes 2D r: the lower half of the top cell, all ones from an empty stack |
| Instructions.PopsCallRegister | src/cpu.c:1479-1497 | byte 39: the same from the call stack |
| Instructions.Drops | src/cpu.c:249-261 | bytes 02 and 27 drop one cell |
| Instructions.DropsMany | src/cpu.c:262-276 | byte 68: as many cells as the operand says, or all |
| Instructions.Copies | src/cpu.c:303-315 | byte 15 copies the top cell, 86 pushes the instruction's own address |
| Instructions.CopiesItem | src/cpu.c:545-556 | byte 17 copies the cell as far below the top as the operand says |
| Instructions.CopiesItemAt | src/cpu.c:557-574 | bytes 70 r copy the cell as far below the top as the register says |
| Instructions.Adds | src/cpu.c:316-354 | bytes 03, 04, 05: sum, difference and product of two cells in 64 bits, operands left in place |
| Instructions.Divides | src/cpu.c:355-371 | byte 06: the signed quotient rounded toward zero |
| Instructions.Remains | src/cpu.c:1752-1767 | byte 5D: the remainder of the unsigned cells |
| Instructions.Bits | src/cpu.c:1196-1231 | bytes 12, 13, 14 bit by bit, the last on the lower halves only |
| Instructions.Logic | src/cpu.c:1845-1877 | bytes 8E and 8D test for exactly 1 |
| Instructions.Inverts | src/cpu.c:1232-1243 | byte 36 turns every bit round |
| Instructions.TestsZero | src/cpu.c:1244-1256 | byte 37 tests for 0 |
| Instructions.Compares | src/cpu.c:507-518 | byte 0B: the flags tell how the lower halves compare without a sign |
| Instructions.ComparesSigned | src/cpu.c:519-529 | byte 67: with a sign |
| Instructions.JumpsTo | src/cpu.c:618-693 | bytes 20, 0C, 0E, 0D, 11: which flag each jump asks for, and where it goes |
| Instructions.JumpsBy | src/cpu.c:694-784 | bytes 82, 83, 84, 85, 87: the same by a distance |
| Instructions.Sets | src/cpu.c:425-506 | bytes 72 to 75: 1 into the register if the flags say so |
| Instructions.Calls | src/cpu.c:798-810 | byte 24: a call of its operand, the address behind on the call stack |
| Instructions.CallsBy | src/cpu.c:811-826 | byte 8B: a call by a distance, the address behind on the call stack |
| Instructions.Returns | src/cpu.c:827-838 | byte 25: back to that address |
| Instructions.StoresBytes | src/cpu.c:941-1000 | bytes 2A, 61, 2E store the low bytes of R1, the lowest first, and nothing else, or raise exception 0 |
| Instructions.LoadsBytes | src/cpu.c:881-940 | bytes 29, 62, 31 load them, or raise exception 0 |
| Instructions.DivisionByZeroRaises | src/cpu.c:355-371 | division by zero is exception 3 |
| Instructions.BadOpcodeRaises | src/cpu.c:1898-1902 | a byte that is no opcode is exception 1 |
| Words.BitwiseAt | src/cpu.c:316-366 | the bitwise operators work on every bit position alone |
| Chunks.ComputeIsBinVal | src/cpu.c:316-456 | 64-bit arithmetic on zero-extended cells, cut to 32 bits, is 32-bit arithmetic for every operator |
| Chunks.ArgumentFlow | compiler/tbc.c:1190-1219 | the `$` sequence loads the cell n + k + 4 - (j - 1) below the top |
| Assembly.RunStraight | src/cpu.c:210-1904 | loaded code that does not branch runs line by line to its end |
| Processor.Cpu.EmulateInstruction | src/cpu.c:210-1904 | one call of the interpreter changes the processor exactly as one machine step says, exceptions and stops included |
| Processor.Cpu.Fetch | src/cpu.c:210-1904 | the opcode switch reads the instruction the decoder defines |
| Processor.Cpu.DoAlu | src/cpu.c:316-456 | arithmetic pushes its result and pops nothing; division by zero raises the arithmetic exception |
| Processor.Cpu.PopRegister | src/cpu.c:1396-1412 | popping into a register keeps 32 bits of the 64-bit cell, an invalid register raises before anything is popped |
| Processor.Cpu.Drop | src/cpu.c:262-274 | `popn` drops as many cells as there are, at most the operand |
| Processor.Cpu.HandleCpuException | src/cpu.c:2258-2297 | enters the handler with R0 pushed, or stops when there is none or one is running |
| Processor.Cpu.AllocMemory | src/cpu.c:2098-2112 | SYSCALL_ALLOC pushes the old size and grows memory and page table |
| Stack.DoublingIsCheap | src/stack.c:79-114 | over every run of pushes and pops the capacity is 0 or 16 * 2^k and never below the height, and all doublings copy fewer than two cells a push |
| Stack.VStack.Push | src/stack.c:79-114 | appends, or changes nothing exactly at the limit; the buffer grows as specified |
| Stack.VStack.Pop | src/stack.c:115-124 | removes and returns the last value, or the underflow mark |
| Stack.VStack.FromTop | src/cpu.c:80-80 | counting from the top in 32 bits gives the cell, or the underflow mark below the bottom |
| Stack.VStack.SetAt | src/stack.c:62-69 | replaces one value in place and nothing else |
| Pages.PageTable.Map | src/memory.c:41-65 | refuses what does not fit; otherwise types one page more than it counts, as far as the table goes; in addresses: every address of the range has the type, none on a lower page or more than one above changes |
| Pages.PageTable.Rebuild | src/memory.c:21-40 | the old types, then absent pages |
| Pages.PageTable.Build | src/memory.c:4-20 | as many absent pages as the size calls for |
| Pages.PageTable.TypeAt | src/include/r3x_memory.h:28-34 | the type of an address's page, absent beyond the table |
| Pages.RunGrowth | src/cpu.c:2106-2111 | over any run of heap requests the size stays page-aligned, lower addresses keep their types and all memory added is readable and writable |
| Pages.RegionsApart | src/cpu.c:2106-2111 | regions of different requests never overlap, and each is longer than its request if and only if the request is below 0xFFFFF000 |
| Pages.RegionsWritable | src/cpu.c:2106-2111 | every address of every region reads as read/write ever after |
| Pages.RegionLonger | src/cpu.c:2107-2107 | a request within a page of 2^32 is given nothing |
| Protection.StoreExact | src/cpu.c:941-994 | a store of any value leaves all code alone if and only if its last byte is not on an executable page |
| Protection.UnalignedStoreHitsCode | src/cpu.c:975-994 | a store two bytes before a page of code passes the check and can change code |
| Isolation.AllCodeStaysFixed | src/cpu.c:162-185 | along any run of all jobs, dispatching and requesting memory included, with aligned stores, the bytes of executable pages of the initial memory never change and stay executable |
| Locality.StepLocal | src/cpu.c:210-1904 | a step depends on no memory but the instruction's bytes and the cell it loads |
| Locality.StepWrites | src/cpu.c:941-994 | a step writes nothing but the bytes of a permitted store, and keeps size and types of memory |
| Locality.FetchIsInstruction | src/cpu.c:210-1904 | the bytes fetched are those of the instruction and no others |
| Pages.MappedRange | src/memory.c:41-65 | mapping a range gives every address in it the new type and leaves lower pages, and those more than one above its end, alone |
| Pages.InsideTable | src/memory.c:41-65 | what is not refused lies inside the table, but for a range of exactly a page that starts inside the last page |
| Pages.PageCountIs | src/memory.c:4-20 | the table has a page for every address up to the size |
| Pages.HeapPagesIs | src/cpu.c:2106-2107 | a request is given one page more than it fills, or nothing at all near 2^32 |
| Launching.AllocCall | src/cpu.c:2098-2112 | bytes 21 07: the old size on top of the request, memory longer by whole writable pages, old bytes and types as before |
| Launching.DispatchCall | src/cpu.c:2113-2130 | bytes 21 08 start a job at the address on top of the stack, or raise exception 0 past the end of memory |
| Launching.Launched | src/dispatcher.c:42-72 | after such a round the next slot holds a job that is to begin at that address, with zeros in all registers, one zero on each stack and no flag set |
| Launching.FirstTurn | src/cpu.c:162-185 | it waits so until its own first turn, which carries out the instruction at that address in the memory of then |
| Launching.LaunchedProgramRuns | src/cpu.c:162-185 | a program dispatched at its start comes to the end its meaning gives in as many of its own turns, whatever the others do |
| Launching.RoundMovesOn | src/cpu.c:162-185 | a round checks the page the last job got to, and moves on to the next slot |
| Launching.TableGrowth | src/dispatcher.c:42-52 | sixteen slots, and sixteen more when but one is left |
| Scheduling.TableSound | src/dispatcher.c:42-72 | over any run of dispatches and exits the active count is the number of slots in use, and the search for a free slot cannot fail |
| Scheduling.DispatchKeeps | src/dispatcher.c:42-72 | a dispatch takes the lowest free slot and leaves every other job alone |
| Scheduling.OneTurnEach | src/cpu.c:162-185 | while the table keeps its size, each slot has exactly one of any size + 1 rounds in a row, through the wrap of the unsigned counter |
| Isolation.JobsAreIsolated | src/cpu.c:162-185 | in every run of the loop, requests for memory by any job included, a job whose reads no other job writes has the context of its turns taken alone with memory to itself; once another job has requested memory, it must stay below the end of its own and request no more |
| Isolation.OwnIsAll | src/cpu.c:2098-2112 | while no other job requests memory, a job may, and nothing is asked of its accesses |
| Isolation.OwnIsStart | src/cpu.c:2098-2112 | the memory of a job that requests none is the one there was at the start, whatever the others request |
| Isolation.AloneIsUndisturbed | src/cpu.c:162-185 | a job that has the processor to itself is undisturbed |
| Isolation.LateRequest | src/cpu.c:2098-2112 | the answer to a request is the same in two memories if and only if they have the same size, so a request after another job's cannot be isolated |
| Isolation.LoadBeyond | src/cpu.c:881-940 | nor can a load past the end of the job's own memory |
| Confinement.TurnCut | src/cpu.c:210-1904 | a turn whose accesses lie below some address is the same turn in a memory that ends there |
| Isolation.FairAndIsolated | src/cpu.c:162-185 | after r times round, every such job is exactly r steps of its own further |
| Sharing.ProgramShares | src/cpu.c:162-185 | a compiled program reaches the same end among other jobs as alone, whatever memory those request |
| Dispatcher.Domain.constructor | src/dispatcher.c:33-41 | sixteen free slots |
| Dispatcher.Domain.DispatchJob | src/dispatcher.c:42-72 | the table of job objects after a dispatch is the one specified; the new job's stacks are new objects, its context that of a job about to begin at the address given |
| Dispatcher.Domain.ExitJob | src/dispatcher.c:121-132 | frees one slot, and keeps the count and all other jobs |
| Dispatcher.Domain.LoadJobState | src/dispatcher.c:73-98 | the processor becomes the job's saved context over the shared memory, on the job's own stack objects |
| Dispatcher.Domain.SaveJobState | src/dispatcher.c:99-120 | the job's slot becomes the processor's context, registers cut to 32 bits; no other job changes |
| Dispatcher.Domain.EmulateJob | src/cpu.c:176-178 | an instruction of one job leaves the contexts of all others as they were |
| Dispatcher.Domain.Round | src/cpu.c:162-185 | one pass of the loop over job objects is one `Iterate`, dispatch and heap requests included |
| Dispatcher.BootJobsAre | src/cpu.c:128-133 | the first job begins at address 0 and finds the program's start in R0 |
| Dispatcher.Domain.Boot | src/cpu.c:128-133 | the machine before the first pass |
| Dispatcher.Domain.CpuLoop | src/cpu.c:128-185 | the loop over job objects, boot included: the machine is what that many rounds make of it, or the loop has ended exactly where the rounds do |
| Scheduling.RoundsArePath | src/cpu.c:162-185 | what the rounds of the loop lead to is the end of a path |
| Scheduling.PathIsRounds | src/cpu.c:162-185 | every path is a number of rounds, so the results about paths are about all runs of the loop |
| Ledger.RunKeeps | src/lib/ntmalloc/nt_malloc.c:33-138 | over any run of malloc, realloc and non-NULL free each live pointer has one slot, and the allocation counter is the number of slots in use and the total minus the frees |
| Ledger.TableSizes | src/lib/ntmalloc/nt_malloc.c:67-118 | 15 slots, and sixteen more each time the table was full |
| Ledger.MallocKeeps | src/lib/ntmalloc/nt_malloc.c:89-118 | the scan finds a free slot before the end of the table |
| Ledger.FreeKeeps | src/lib/ntmalloc/nt_malloc.c:120-138 | a free keeps the count right if and only if the pointer is not NULL or no slot is free |
| Ledger.Allocator.NtMalloc | src/lib/ntmalloc/nt_malloc.c:67-118 | puts the pointer into the first free slot of a table that grows when full; the fault branch is dead |
| Ledger.Allocator.NtRealloc | src/lib/ntmalloc/nt_malloc.c:33-63 | moves the pointer within its slot, refuses unknown pointers |
| Ledger.Allocator.NtFree | src/lib/ntmalloc/nt_malloc.c:120-138 | releases a known pointer once, refuses others |
| Ledger.Allocator.NtFreeAll | src/lib/ntmalloc/nt_malloc.c:140-153 | releases every live pointer once, after which frees equal allocations |
| Crc.GenerateChecksumCRC32 | src/include/r3x_checksum_generator.h:8-26 | the masked loop computes the checksum of one byte more than its size |
| Crc.StepBijective | src/include/r3x_checksum_generator.h:20-23 | every inner round can be undone |
| Crc.BurstDetected | src/include/r3x_checksum_generator.h:14-26 | data of equal length differing only within 32 bits in a row never have the same checksum |
| Crc.ChecksumAffine | src/include/r3x_checksum_generator.h:14-26 | for equal lengths the checksum of a xor b xor c is the xor of the checksums |
| Crc.ChecksumIsRemainder | src/include/r3x_checksum_generator.h:14-26 | the checksum is the complement of the remainder of the message, first 32 bits complemented and 32 zeros appended, modulo the polynomial |
| CheckValue.PolynomialIs | src/include/r3x_checksum_generator.h:21-21 | the polynomial has exactly the powers 32, 26, 23, 22, 16, 12, 11, 10, 8, 7, 5, 4, 2, 1 and 0 |
| CheckValue.StepIsNext | src/include/r3x_checksum_generator.h:20-22 | the round on rows of bits is the shift and exclusive or of 32-bit numbers |
| CheckValue.NineDigits | src/include/r3x_checksum_generator.h:10-25 | the checksum of the text "123456789" is 0xCBF43926 |
| Crc.Division | src/include/r3x_checksum_generator.h:20-23 | that remainder really is one: dividend = quotient * divisor + remainder |
| Signing.FieldIs | src/include/r3x_format.h:34-51 | the field stands behind the header's first sixteen, its bytes lowest first |
| Signing.Sign | disasm/cgen.c:22-39 | writes the checksum into a zero field, refuses a file that has one |
| Signing.CheckImage | src/format.c:93-116 | judges the image and puts the field back |
| Signing.SignedIsAccepted | src/format.c:103-115 | a signed file is accepted if and only if the byte after it is the same as for the signer, unless its checksum is zero; with the field cleared it is the original |
| Signing.ChangeIsRejected | src/format.c:103-115 | a signed file changed within four bytes in a row outside the field is rejected |
| Signing.ChangedFieldIsRejected | src/format.c:93-115 | a changed field is rejected, or, if cleared, taken for no signature |
| Disassembler.SweepExactly | src/disassemble.c:6-442 | over assembled code the sweep stops exactly where the processor does and ends with the code if and only if there is no `fsqrt` and no `push64` |
| Disassembler.WalkIsExact | src/cpu.c:210-1904 | the processor's own fall-through walk stops at every instruction of assembled code and nowhere else |
| Disassembler.NothingSkipped | src/disassemble.c:6-442 | bytes that begin no instruction are skipped one by one, the prefix with the byte behind it |
| Disassembler.Disassemble | src/disassemble.c:6-442 | the loop visits the sweep's stops |

## Left out

- Floating point (instructions, `mul_f` and its kind, dotted literals), trigonometry, rotations, `tern`, `cmps*`, `load`, `store`, `memcpy`, exception bookkeeping (`catch`, `handle`, `throw`), native and dynamic libraries: their opcodes have a length in the model and no effect (`Undefined`).
- Input and output, graphics, keyboard, streams, clocks, the debugger, the `.rxs` scripts, the server: system calls other than heap request and dispatch end a run in the model.
- T++ statements `print`, `input`, `alloc`, `free`, `asm`, `goto`, `gosub`, `end`, `rem`, labels, `struct`, `global`, `extern`, `native`, `thread`, `run` as anything but the end, pointer accesses and casts, strings, `sizeof`, `addressof`, shifts, `raw_call`, and the `-d` output: the modelled compiler rejects them.
- Compiling.Compiler.DoIf: accepts only `let`, `return` and a call after `if`; the compiler also takes a loop or a second `if` there, which then share a label or straddle it.
- Compiling.Compiler.CompileText: statements outside a function, which the compiler takes, are rejected. The look-ahead after the last line is the end of the file; a last line without a newline is rejected, as in the compiler. Text is taken as ASCII. The compiler's tables have no limit but that of open loops; the entries `xrealloc` adds to a table hold what memory held, which is not modelled.
- Compiling.Compile: the same subset of the language.
- Compiling.Compiler.DoFactor: strings, memory in brackets and the built-in functions other than `not` and `neg` are rejected.
- Compiling.Compiler.GetNum: dotted literals are rejected.
- Compiling.Compiler.DoLet: targets in brackets and pointer targets are rejected.
- Compiling.Compiler.DoFunctionCall: `raw_call` and external and native functions are left out.
- Programs.ProgramRuns: needs a `Careful` program, that is, no `$` behind a call in the same argument list, where `Results.MiscountedArgument` says what goes wrong, and a data stack that holds the arguments of `main` where its frame has them: with more than one, the program finds them below the five zeros. Arguments to `$` out of range and a function that ends without `return` have no meaning (`Wrong`). What `_exit:` does afterwards, and the runtime routines between `main:` and `__internal_init:`, are not part of this model.
- Programs.InstalledIsReady: that the assembler reserves distinct four-byte cells on writable pages for the variables (`declare_bss_entry`) is a hypothesis, `CellsOk`; `Installation.Installable` chooses such cells.
- Chunks.ComputeIsBinVal: dividing the most negative 64-bit number by -1 is undefined; 32-bit operands never reach it.
- Processor.Cpu.EmulateInstruction: stack offsets outside the stack read cells left over in the buffer; the model stops there (`Undefined`). `stores` and `storesr` are not modelled. The computed-goto build and big-endian hosts are not modelled.
- Stack.VStack.Push: the limit is at most 2^31, so that capacities fit in 32 bits. Destroying a stack is the garbage collector's here.
- Stack.VStack.SetAt: the index equal to the capacity, where the source writes one cell past the buffer, is excluded.
- Stack.VStack.FromTop: so is an offset that comes to that index.
- Pages.PageTable.Map: what it does to addresses is said for ranges that end below 0xFFFFF000; beyond, the page counts wrap. The loop's last index, which may be one past the table, is left out; a page number equal to the table's size counts as absent.
- Pages.PageTable.Rebuild: a table smaller than the old one, past which the source writes, is excluded.
- Processor.Cpu.AllocMemory: a heap request that would take the size past 2^32 shrinks memory in the source; the model stops.
- Dispatcher.Domain.DispatchJob: slots added by reallocation are taken to be empty, which the source does not ensure. The `Jobs` vector is a sequence field, since it moves when it grows.
- Dispatcher.Domain.CpuLoop: runs at most as many rounds as it is given heap contents for, where the source's loop has no bound. The copy of the program's arguments into memory is not modelled.
- Dispatcher.Domain.ExitJob: the number equal to the table's size passes the source's test (`>`) and indexes one past the table; it is excluded.
- Dispatcher.Domain.Round: every job is dispatched as a main job in the source, so an exit instruction ends the run; job exit appears only as `ExitJob`. The page type is checked for the instruction pointer left by the previous job, so a new job's first instruction is not checked; the model does the same.
- Isolation.JobsAreIsolated: a job's request for memory after another job's, and its accesses past the end of its own memory after that, are excluded, for the reasons `LateRequest` and `LoadBeyond` give.
- Ledger.Allocator.NtMalloc: sizes, the total size counter and 32-bit overflow of the counters are not modelled; the system allocator's answer is a parameter.
- Crc.GenerateChecksumCRC32: words and bytes are rows of bits, lowest first, rather than numbers.
- Signing.Sign: the file is an array; opening and seeking are not modelled. The signer's extra byte is a parameter because the source does not set it.
- Signing.CheckImage: the other checks of the header, and the question put to the user, are not modelled.
- Disassembler.Disassemble: what is printed at each stop is left out. At `fsqrt` the source's loop never ends; the method reports it.
