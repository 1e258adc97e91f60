# NanoShell in Dafny

A model of the parts of the NanoShell operating system whose correctness depends on more than one function, with
proofs about all inputs, all runs or all reachable states. It is written for Dafny 4.11; `dafny verify dfyconfig.toml`
checks the whole project.

- **The NSScript compiler and its machine.** `Vm` is the accumulator machine, `Runner` its interpreter loop. `Parser`
  and `Declarations` are the one-pass compiler on token streams: precedence climbing, backpatched jumps, the last load
  rewritten for places, symbols hidden and restored. `Compiler` is the same compiler as an object that updates its
  fields token by token and word by word, proved equal to those functions. `CodeGen` defines the code of a tree,
  `Semantics` what a script means (with fuel, so that endless scripts have a meaning too); `Operators` fixes its
  operators by laws about numbers, `Defined` says where it is defined. `Precedence` has the tiers of the expression
  grammar of C, `Printer` prints a tree with the parentheses these tiers ask for, and `Grouping` says how a row of
  operators without any is grouped. `Correct` shows that running the code of a tree does what the tree means;
  `ParserCorrect` and `DeclarationsCorrect` that compiling a printed tree emits exactly its code; `Layout` says where
  variables live and what enumerators count; `Whole` joins them from text to exit code. `Flow` shows that jumps stay
  in their function and the stack depth is the same on every path. `Lvalues` says exactly which trees the compiler
  takes for places, and what a post-step yields; `Errors` has the other errors of the compiler, each with the texts
  that lead to it. `Script` compiles and runs a script with the two objects, one after the other.
- **The user heap.** `Blocks` is the block list, `Pages` the page reference table, `Arena` both together over whole
  runs, `Rests` what a request takes and leaves, in bytes, `Headers` the list as words in memory, `UserHeap` the
  allocator as an object over that memory.
- **Scheduling and processes.** `Kernel` is a transition system over task and process slots whose steps are the
  sections that run uninterrupted; `Sleeping` how long a suspended task is passed over and when it runs again; `Joins`
  what happens to a join of a slot that is not in use; `Scheduler` the same functions as loops over the tables;
  `Locks` the kernel lock.
- **Data structures.** `Hashing` (chained hash table with resize), `HashRuns` (its whole runs as those of a multimap),
  `Sorting` (generic heap sort), `Symbols` (merge sort of symbols and address lookup), `Wildcards` (pattern matching).
- **Bounds and arithmetic.** `Video` (overlapping blit, scroll, clipped fill), `Lines` (line drawing), `Calendar`
  (calendar conversions and weekday), `Numbers` (saturating number parsing), `Numerals` (numbers written out and read
  back).

Some promises of the code hold only under a condition. The code is modelled as it is, and the condition is proved to be
the exact one:

- An assignment, a step or an address-of compiles exactly when the last word of its operand looks like a load; `9 = 5`
  compiles to code that takes a word off the stack it never pushed (`src/cinterp.c:527-614`, `src/cinterp.c:625-637`).
- `c++` on a char yields the old value exactly when the step stays in the range of a char (`src/cinterp.c:846-873`).
- A request that is given a larger block without splitting it references only the pages of the request, while freeing
  gives up the pages of the block. Runs in which both end on the same page keep the counts right; and where the pages
  that are left out have no reference to spare, the counts are right afterwards exactly then. Otherwise repeating malloc
  and free stops the program (`crt/src/a_mem.c:268-312`, `crt/src/a_mem.c:402`).
- When nothing fits, the block list is extended past its last block, and the heap stays sound exactly when the new block
  is aligned and ends in the arena. A tiled heap comes to this exactly for requests of two gigabytes or more, where the
  sum wraps; a heap whose last block was shrunk comes to it for small ones (`crt/src/a_mem.c:322-365`).
- Shrinking a block always leaves a gap (`crt/src/a_mem.c:500-514`).
- Joining a process slot keeps the tables in order exactly when the slot is in use, detached or dying. A process that
  could not be created leaves its slot attached; who joins it waits until it is revived by name or the slot is given to
  a new process, and then for that process (`src/process.c:244-259`, `src/process.c:290-317`).
- A task that is interrupted between leaving its process and being marked can lose its process
  (`src/task.c:622-645`, `src/process.c:130-160`).
- The kernel lock stays exclusive unless the kernel, which is also what an unowned lock records, releases a free lock
  (`src/task.c:1037-1053`).
- A resize leaves the links back right exactly when every new bucket starts with an item that was the first of its old
  chain; when the number of buckets is multiplied, exactly when no bucket held two items. The insertion that made the
  table grow mends the one bucket its item goes to (`src/ht.c:54-140`).
- Looking up an address finds its symbol exactly when the last of the symbols that share the address is the first of
  them that the bisection looks at, as it is when there is just one (`src/elf.c:167-186`).
- A date survives conversion to seconds and back exactly when it is not 29 February (`src/time.c:237-267`).
- Reading the lowest number raises a range error exactly when the base divides it (`crt/src/a_string.c:868-892`).
- A horizontal or vertical line outside the screen is drawn along its border (`src/video.c:728-759`).

## Model

| member | source | states |
|---|---|---|
| Vm.XorOnes | src/cinterp.c:552-562 | XOR with all ones is the complement, which the code for `~` relies on, for every word and width |
| Vm.Complement | src/cinterp.c:552-562 | the word the machine computes for `~x` is -1 - x |
| Words.LoadStore | src/cinterp.c:1398-1402 | a stored word reads back as its low 32 bits |
| Words.LittleEndian | src/cinterp.c:1398-1402 | a word is stored with its lowest byte first, which is the one that a char pointer to it reads |
| Words.CharReduces | src/cinterp.c:1399-1401 | what a char holds after a store is the one number from -128 to 127 congruent to what was stored |
| Operators.MachineComputes | src/cinterp.c:1405-1420 | every opcode of a binary operator computes what the operator means on plain numbers |
| Operators.Comparisons | src/cinterp.c:1408-1413 | the six comparisons yield 1 or 0 as the difference of the operands is negative, zero or positive |
| Operators.Sums | src/cinterp.c:1416-1418 | sum, difference and product are the one word congruent to the exact result |
| Operators.QuotientTruncates | src/cinterp.c:1419-1420 | quotient and remainder of a division satisfy l = q * r + m with m nearer to zero than r and of the sign of l |
| Operators.TruncatesOnce | src/cinterp.c:1419-1420 | no other quotient and remainder do |
| Operators.Divisions | src/cinterp.c:1419-1420 | division and remainder give exactly these, and trap exactly for a zero divisor and for the lowest number by -1 |
| Operators.Shifts | src/cinterp.c:1414-1415 | one more place to the left doubles the word, one more to the right halves it and rounds down, no place changes nothing, and other distances are undefined |
| Operators.BitOperators | src/cinterp.c:1405-1407 | OR, XOR and AND work on each of the 32 bits by itself |
| Operators.BitsDecide | src/cinterp.c:1405-1407 | two words with the same 32 bits are the same |
| Operators.PointersMove | src/cinterp.c:777-819 | adding to a pointer, and stepping it, moves it by whole cells of what it points to |
| Operators.PointersDiffer | src/cinterp.c:795-812 | the difference of a pointer and the one i cells further on is i |
| Operators.SubscriptIsSum | src/cinterp.c:874-895 | `a[i]` has the type, the code and the place of `*(a + i)` |
| Operators.TypesFit | src/cinterp.c:500-541 | following an address that was just taken gives the type back, and the difference of two pointers to words is an int |
| CodeGen.PlaceCode | src/cinterp.c:514-526 | the code of a place is the code of its address and one load, so the load can be rewritten |
| Defined.PureMeans | src/cinterp.c:410-860 | with enough stack, an expression built from numbers means exactly the value its operators and conditionals compute, and is undefined exactly when one of them has none |
| Defined.AssignedIsRead | src/cinterp.c:625-641 | a variable holds what was last assigned to it, cut to eight bits for a char |
| Defined.EndsEverything | src/cinterp.c:1568-1572 | a call of exit in an operand ends the whole expression |
| Defined.ExitCalled | src/cinterp.c:1568-1572 | calling exit ends the script with its argument's value |
| Defined.SubscriptMeans | src/cinterp.c:874-895 | the place of `a[i]` is the value of `a + i` |
| Correct.ExprSound | src/cinterp.c:355-907 | from any machine state, the code of a well-typed expression stops just past itself with the value the expression means, with sp, bp and every word outside the free stack and the objects unchanged; timeouts and exits included |
| Correct.AddressSound | src/cinterp.c:514-540 | the code of a place's address leaves the address, with the same frame conditions |
| Correct.TwoSound | src/cinterp.c:680-845 | left operand, push, right operand and operator: each runs once and in this order, exactly the left operand is popped, and a failing operand decides the outcome |
| Correct.BinSound | src/cinterp.c:680-845 | the code of an operator expression computes what the operator, one case of plain arithmetic each, means for the values of its operands |
| Correct.TailMeaning | src/cinterp.c:777-819 | the one to five words emitted behind the right operand compute that meaning, pointers included |
| Correct.AssignSound | src/cinterp.c:625-637 | an assignment evaluates its place first, then the value, stores it and yields it |
| Correct.StepSound | src/cinterp.c:589-614 | a pre-step stores and yields the stepped value |
| Correct.UndoSound | src/cinterp.c:846-873 | a post-step stores the stepped value and takes the step back from the accumulator |
| Correct.CondSound | src/cinterp.c:638-657 | exactly one arm of a conditional is run |
| Correct.ShortSound | src/cinterp.c:658-679 | or-else and `&&` yield the deciding operand and skip the other |
| Correct.ArgsSound | src/cinterp.c:412-435 | arguments are evaluated left to right, each ending in its cell below the last |
| Correct.CallSound | src/cinterp.c:412-452 | a call runs the function and gives the caller's stack and frame back, at any depth of recursion |
| Correct.InvokeSound | src/cinterp.c:1378-1397 | JSR, ENT and LEV: the callee has its own frame, and afterwards sp, bp and the caller's words are what they were |
| Correct.Enter | src/cinterp.c:1378-1390 | entering a function lays its frame out as the source lays out parameters and locals |
| Correct.LeaveSound | src/cinterp.c:1392-1397 | LEV restores the caller's frame |
| Correct.BodySound | src/cinterp.c:1288-1300 | a body that falls off its end comes to the LEV after it |
| Correct.StmtSound | src/cinterp.c:908-1008 | the code of a statement does what the statement means: falls through, returns, exits or runs on |
| Correct.BlockSound | src/cinterp.c:986-992 | statements run in order until one does not fall through |
| Correct.WhileSound | src/cinterp.c:946-972 | a loop's code simulates it round by round, endless loops included |
| Correct.IfSound | src/cinterp.c:912-945 | a conditional statement without else |
| Correct.IfElseSound | src/cinterp.c:912-945 | a conditional statement with else |
| ParserCorrect.WholeParses | src/cinterp.c:355-907 | compiling an expression printed where the C grammar asks for any tier, parenthesized exactly where that tier is tighter than its own, consumes exactly its tokens and emits exactly its code and type |
| ParserCorrect.Numbered | src/cinterp.c:33-33 | the numbers of the operator tokens order the tiers of the C grammar as section 6.5 of C11 does |
| ParserCorrect.InnerNumber | src/cinterp.c:680-845 | each right operand is compiled at the number of the next tighter tier |
| Precedence.InnerIsNext | src/cinterp.c:680-845 | that tier is the next one: nothing is tighter than an operator and not at least as tight as its right operand |
| Grouping.TwoOperators | src/cinterp.c:642-845 | `a p b q c` compiles to the code of `a p (b q c)` exactly when q is in a tighter tier of section 6.5 of C11 than p, and otherwise to that of `(a p b) q c`, for all binary operators, `&&` and or-else |
| Grouping.ConditionalGroups | src/cinterp.c:642-661 | a conditional takes any tighter test, any expression in the middle, and all of another conditional at its end |
| Grouping.AssignmentGroups | src/cinterp.c:625-641 | an assignment takes all that follows, another assignment included |
| ParserCorrect.LeftBinds | src/cinterp.c:622-906 | what is printed as a left operand is taken as one, so operators of one level associate to the left |
| ParserCorrect.BinParses | src/cinterp.c:680-845 | an operator takes a left operand of its own tier or tighter and a right one that is tighter, any other only in parentheses |
| ParserCorrect.CondParses | src/cinterp.c:638-657 | a conditional binds to the right |
| ParserCorrect.ShortParses | src/cinterp.c:658-679 | or-else and `&&` bind as printed, and their jumps are patched to the end |
| ParserCorrect.AssignParses | src/cinterp.c:625-637 | an assignment binds to the right and rewrites the last load of its place |
| ParserCorrect.IndexParses | src/cinterp.c:874-900 | an index binds as a postfix operator |
| ParserCorrect.PrefixParses | src/cinterp.c:514-614 | prefix operators take the smallest operand |
| ParserCorrect.CallParses | src/cinterp.c:412-452 | calls with any number of arguments |
| ParserCorrect.StmtParses | src/cinterp.c:908-1008 | compiling a printed statement emits exactly its code; an else belongs to the nearest if |
| ParserCorrect.StmtsParse | src/cinterp.c:986-992 | compiling a printed block consumes it up to its brace |
| Errors.NoExpression | src/cinterp.c:358-619 | what no expression starts with is a bad expression, and the end of the text an unexpected one |
| Errors.SizeofNeedsParentheses | src/cinterp.c:380-408 | `sizeof` without its parentheses |
| Errors.UnknownVariable | src/cinterp.c:465-472 | a name without a meaning, or that of a function, where a variable must be |
| Errors.UnknownFunction | src/cinterp.c:418-442 | a call of what is not a function |
| Errors.CastNeedsParenthesis | src/cinterp.c:476-495 | a cast that is not closed |
| Errors.Unclosed | src/cinterp.c:496-512 | a parenthesis that is not closed |
| Errors.DereferenceOfNumber | src/cinterp.c:514-524 | only pointers are followed |
| Errors.NoColon | src/cinterp.c:642-650 | a conditional without its colon |
| Errors.BadSubscript | src/cinterp.c:874-898 | a subscript that is not closed, or of what is not a pointer |
| Errors.ErrorsPass | src/cinterp.c:496-512 | an error inside parentheses, a condition or a return is the error of the whole |
| Errors.ConditionNeedsParenthesis | src/cinterp.c:912-929 | an if or while without its parenthesis |
| Errors.NoSemicolon | src/cinterp.c:972-1008 | a statement or return that does not end in a semicolon |
| Errors.BadDeclarator | src/cinterp.c:1188-1200 | a declaration without a name |
| Errors.TwiceDeclared | src/cinterp.c:1188-1205 | a global name declared twice |
| Errors.BadParameter | src/cinterp.c:1215-1237 | a parameter without a name, or with that of an earlier one |
| Errors.BadLocal | src/cinterp.c:1255-1276 | a local without a name, or with that of an earlier one |
| Errors.FunctionNeedsBody | src/cinterp.c:1248-1252 | a function without a body |
| Errors.BadEnumerator | src/cinterp.c:1156-1176 | an enumerator without a name, or with a value that is not a number |
| DeclarationsCorrect.ParamsRead | src/cinterp.c:1214-1246 | parameters take frame slots in order and hide outer names |
| DeclarationsCorrect.LocalsRead | src/cinterp.c:1255-1286 | locals take the slots after the parameters |
| DeclarationsCorrect.EnumsRead | src/cinterp.c:1150-1187 | enumerators take given values or count on |
| DeclarationsCorrect.DeclReads | src/cinterp.c:1141-1322 | one printed declaration builds its image |
| DeclarationsCorrect.UnitReads | src/cinterp.c:1116-1344 | compiling a printed unit succeeds with exactly the code, symbols and data of its tree |
| DeclarationsCorrect.BraceDeclaresNothing | src/cinterp.c:1188-1188 | a type followed by a closing brace is taken for a declaration of nothing |
| Layout.EnumeratorsCount | src/cinterp.c:1150-1185 | each enumerator without a value is one more than the one before, around the end of the integers |
| Layout.FirstIsZero | src/cinterp.c:1150-1185 | the first enumerator is zero |
| Layout.GlobalsApart | src/cinterp.c:1313-1318 | over a whole unit no two globals share a byte |
| Layout.CellsApart | src/cinterp.c:1213-1289 | parameters have cells above the two saved words of a frame, locals below in the words that ENT makes room for, and no two the same cell |
| Lvalues.LastWord | src/cinterp.c:116-119 | which trees emit code whose last word looks like a load |
| Lvalues.AssignmentAccepted | src/cinterp.c:625-637 | an assignment compiles exactly when its left side looks like a place; otherwise the error is a bad lvalue |
| Lvalues.PrefixAccepted | src/cinterp.c:527-614 | address-of and the two pre-steps compile exactly when their operand looks like a place; otherwise the error is a bad reference or a bad lvalue |
| Lvalues.PostStepAccepted | src/cinterp.c:846-873 | so do the two post-steps |
| Lvalues.PlacesLookLikePlaces | src/cinterp.c:625-637 | every real place is accepted |
| Lvalues.LiteralAssignment | src/cinterp.c:625-637 | `9 = 5` compiles, and its code takes a word off the stack that it never pushed |
| Lvalues.PostStepYields | src/cinterp.c:846-873 | a post-step yields the value read exactly unless a char is stored and the step leaves its range |
| Lvalues.CharOverflows | src/cinterp.c:846-873 | on a char of 127, `c++` yields -129 and leaves -128 |
| Flow.ExprRuns | src/cinterp.c:355-907 | the code of an expression leaves the stack as deep as it found it, at every instruction with the same depth on every path |
| Flow.CondRuns | src/cinterp.c:638-657 | both backpatched jumps of a conditional go to instructions at the depth they are made at |
| Flow.ShortRuns | src/cinterp.c:658-679 | the jump of or-else and `&&` goes behind the right operand, at its depth |
| Flow.StmtRuns | src/cinterp.c:908-1008 | between statements nothing is left on the frame's stack |
| Flow.WhileRuns | src/cinterp.c:946-972 | the jumps of a loop go to its test and behind it |
| Flow.FunctionRuns | src/cinterp.c:1288-1300 | each function's code is closed: instructions are decoded whole, jumps go to its own instructions, no instruction takes more than is there |
| Flow.JumpsStayInside | src/cinterp.c:638-679 | every jump operand is the start of an instruction of the same function, at the same depth, and no instruction takes more words off the stack than the function has put there |
| Whole.LoadedIsLinked | src/cinterp.c:1208-1210 | in the loaded image every function's code is where its symbol says |
| Whole.ProgramRuns | src/cinterp.c:1323-1586 | the machine started on the image does what main means, for every fuel |
| Whole.HaltsOnce | src/cinterp.c:1345-1586 | the machine halts with one value at most, and then does not run on |
| Whole.TextToExit | src/cinterp.c:1116-1586 | the compiler accepts a printed unit, and its code halts exactly when the script ends, with main's value or the argument of exit |
| Whole.AnswerHalts | src/cinterp.c:1116-1586 | the conditions of that theorem can be met: a program that returns a number, compiled from its text, halts with it |
| Script.Execute | src/cinterp.c:1116-1420 | the compiler and machine objects, one after the other: a printed unit compiles, and when the machine has halted within the given cycles, the script has ended with that result |
| Script.MainAddress | src/cinterp.c:1323-1327 | no compiled main has the address 0, which the compiler takes for a missing one |
| Compiler.CMachine.constructor | src/cinterp.c:1116-1140 | the machine before the first token |
| Compiler.CMachine.CcNextToken | src/cinterp.c:133-139 | one token is consumed, and the end of the text stays the end |
| Compiler.CMachine.CcOnExpression | src/cinterp.c:355-907 | the climber's loop consumes and emits what the expression function says, or fails with its error |
| Compiler.CMachine.CcPrefix | src/cinterp.c:359-620 | literals, names, parentheses, casts and prefix operators |
| Compiler.CMachine.CcSizeof | src/cinterp.c:381-411 | sizeof of a type |
| Compiler.CMachine.CcName | src/cinterp.c:412-473 | a call, constant or variable |
| Compiler.CMachine.CcVariable | src/cinterp.c:448-472 | locals by frame offset, globals by address, constants by value |
| Compiler.CMachine.CcCall | src/cinterp.c:416-447 | arguments, the transfer of control and the clean-up after it |
| Compiler.CMachine.CcParenthesis | src/cinterp.c:474-513 | casts and parentheses |
| Compiler.CMachine.CcInfix | src/cinterp.c:622-906 | one round of the climber |
| Compiler.CMachine.CcAssignment | src/cinterp.c:625-637 | the last load is rewritten to a push, or the lvalue is bad |
| Compiler.CMachine.CcConditional | src/cinterp.c:638-657 | two jumps are emitted and patched |
| Compiler.CMachine.CcShortCircuit | src/cinterp.c:658-679 | one jump is emitted and patched |
| Compiler.CMachine.CcBinary | src/cinterp.c:680-845 | a binary operator, pointer operands scaled |
| Compiler.CMachine.CcPostStep | src/cinterp.c:846-873 | a post-step |
| Compiler.CMachine.CcSubscript | src/cinterp.c:874-900 | an index |
| Compiler.CMachine.CcStatement | src/cinterp.c:908-1008 | statements consume and emit what the statement function says |
| Compiler.CMachine.CcIf | src/cinterp.c:912-945 | the jump over the first arm |
| Compiler.CMachine.CcReturn | src/cinterp.c:973-985 | a return with or without a value |
| Compiler.CMachine.CcElse | src/cinterp.c:934-944 | the jump is patched to the second arm or to the end |
| Compiler.CMachine.CcWhile | src/cinterp.c:946-972 | the loop's two jumps |
| Compiler.CMachine.CcBlock | src/cinterp.c:986-992 | statements up to the brace |
| Compiler.CMachine.CcParameters | src/cinterp.c:1214-1246 | the parameter list, each name hiding what it meant |
| Compiler.CMachine.CcLocals | src/cinterp.c:1255-1286 | the locals of a function |
| Compiler.CMachine.CcUnwind | src/cinterp.c:1301-1312 | at the end of a function every name means what it meant before |
| Compiler.CMachine.CcFunction | src/cinterp.c:1208-1315 | a function definition |
| Compiler.CMachine.CcEnumerators | src/cinterp.c:1150-1187 | an enumeration |
| Compiler.CMachine.CcDeclarators | src/cinterp.c:1188-1320 | the names a declaration declares |
| Compiler.CMachine.CcCompileCode | src/cinterp.c:1116-1344 | a whole unit: the image, or the first error |
| Runner.Registers.constructor | src/cinterp.c:1329-1340 | the stack with the words main returns to and its two arguments |
| Runner.Registers.CcRunMachine | src/cinterp.c:1345-1420 | the interpreter loop makes exactly as many steps as it is given, and stops when it halts |
| Runner.Registers.CcStep | src/cinterp.c:1347-1420 | one round of the loop is one step of the machine |
| Blocks.PadUp | crt/src/a_mem.c:242-243 | padding reaches the request, except for the three largest, which become zero |
| Blocks.CarveKeeps | crt/src/a_mem.c:262-318 | allocation keeps the list in order and tiled, and leaves no two free neighbours |
| Blocks.ExtendKeepsIff | crt/src/a_mem.c:322-365 | a block after the last one keeps the list in order exactly when it is aligned and ends in the arena |
| Blocks.ExtendAddsOne | crt/src/a_mem.c:342-365 | and it is one more live block that was not live before |
| Blocks.ExpandsIff | crt/src/a_mem.c:322-341 | on every ordered list, the list is extended exactly when nothing fits and the end stays below the limit, or wraps around |
| Blocks.ReleaseKeeps | crt/src/a_mem.c:395-446 | release keeps the list in order and tiled, and leaves no two free neighbours |
| Blocks.ShrinkKeeps | crt/src/a_mem.c:500-514 | shrinking keeps the order and always loses the tiling |
| Blocks.FreeUndoesMalloc | crt/src/a_mem.c:237-446 | freeing what was just allocated gives the same list back |
| Blocks.CarveAddsOne | crt/src/a_mem.c:262-318 | allocation adds one live block, as large as asked, that was not live before, and touches no other |
| Blocks.ReleaseRemovesOne | crt/src/a_mem.c:395-446 | release removes exactly the released block from the live ones |
| Blocks.AllFreeIsInitial | crt/src/a_mem.c:395-446 | a tiled list of free blocks without free neighbours is the initial block |
| Blocks.Disjoint | crt/src/a_mem.c:237-446 | different blocks of an ordered list share no address |
| Pages.SplitAccounted | crt/src/a_mem.c:277-278 | mapping the header cut off keeps every count at least the number of users exactly when no counter wraps |
| Pages.TakeAccounted | crt/src/a_mem.c:312-318 | taking a block keeps the counts right exactly when no counter wraps and the pages left out had a reference to spare |
| Pages.ExtendAccounted | crt/src/a_mem.c:344-362 | extending the list keeps the counts right exactly when no counter wraps in either of its two regions |
| Pages.DropAccounted | crt/src/a_mem.c:395-400 | giving up a live block never meets a zero count and keeps the counts right |
| Pages.JoinAccounted | crt/src/a_mem.c:408-444 | merging never meets a zero count and keeps the counts right |
| Arena.GrantAccounted | crt/src/a_mem.c:262-318 | the exact condition on the counters under which an allocation in a free block keeps the counts right |
| Arena.AllocateSound | crt/src/a_mem.c:237-365 | malloc, the extension of the list included, keeps the whole invariant exactly when its counters do, and a block after the last one is aligned and in the arena; it keeps the tiling and every live block |
| Arena.DeallocateSound | crt/src/a_mem.c:367-446 | freeing a live block never aborts, removes it alone, and keeps the invariant and the tiling |
| Arena.FreeAbortsIff | crt/src/a_mem.c:367-446 | free stops the program exactly for a pointer that is neither NULL nor the payload of a live block |
| Arena.NarrowSound | crt/src/a_mem.c:500-514 | shrinking aborts exactly when a counter wraps |
| Arena.CallKeeps | crt/src/a_mem.c:237-547 | one call of malloc, free or realloc under that condition keeps the invariant, and the tiling unless it shrinks |
| Arena.RunKeeps | crt/src/a_mem.c:237-547 | over every run of such calls the heap stays ordered, coalesced and accounted, is never aborted, and stays tiled without shrinking |
| Arena.CarefulRunKeeps | crt/src/a_mem.c:237-547 | so does every run in which requests end on the last page of their block and no counter wraps |
| Arena.SnugIff | crt/src/a_mem.c:268-312 | when the pages left out have no more references than users, the counts are right after an allocation exactly when the request ends on the last page of its block |
| Arena.FreedRunRestores | crt/src/a_mem.c:222-446 | a run that frees everything ends with the one initial block, and only such a run does |
| Arena.PayloadsDisjoint | crt/src/a_mem.c:237-547 | over every run, payloads of different live blocks share no address and lie in the arena, those behind a shrunk block included |
| Rests.StartInNumbers | crt/src/a_mem.c:222-234 | the arena begins as one free block of 0x3FFFFFEC bytes at 0x40000000, with one reference to its first page |
| Rests.UseInNumbers | crt/src/a_mem.c:149-184 | a region references each 4096-byte page from its first byte up to the byte after it, in counts of 16 bits |
| Rests.GrantIsTight | crt/src/a_mem.c:262-318 | the block given to a padded request is less than 52 bytes larger; a block with 52 bytes or more to spare is cut, leaving a free block of exactly the rest less 20 |
| Rests.AllocatesTight | crt/src/a_mem.c:237-318 | so of every request that a free block can hold |
| Rests.RefusedIff | crt/src/a_mem.c:246-345 | a request is refused exactly when no free block has its bytes and the end of the list is too high |
| Rests.RestServes | crt/src/a_mem.c:262-318 | what a large enough block has left over serves the next request that fits it |
| Rests.NearlyAllThenMore | crt/src/a_mem.c:262-318 | after a request for all but 1040 bytes of the arena, one for 100, or for 1000, is served |
| Arena.ExpandsIffHuge | crt/src/a_mem.c:326-365 | on a tiled heap the list is extended exactly for padded requests of two gigabytes or more |
| Arena.ShrunkThenExtended | crt/src/a_mem.c:322-365 | after everything was allocated and shrunk, any request that ends below the limit gets a block after it, and the heap is sound exactly when that is aligned and ends in the arena |
| Arena.ExtendedExamples | crt/src/a_mem.c:334-362 | a sound extension by 8 bytes, one whose block ends 16 bytes past the arena, and one that is misaligned |
| Arena.RoundDrifts | crt/src/a_mem.c:237-446 | what malloc and free of one block change in the page counts, and when they abort |
| Arena.RoundTrip | crt/src/a_mem.c:237-446 | malloc and free give the same heap back exactly when the request ends on its block's last page and the header cut off lies on one page |
| Arena.LooseRoundsAbort | crt/src/a_mem.c:98-106 | otherwise, repeating them aborts at the first round after the last page's count is used up |
| Arena.LooseFitHappens | crt/src/a_mem.c:98-106 | a run of valid calls from the initial heap that reaches this |
| Arena.StraddlingRounds | crt/src/a_mem.c:268-312 | rounds of allocating and freeing whose cut-off header lies on two pages add one reference to the second each |
| Arena.WrapHappens | crt/src/a_mem.c:92-103 | a run of valid calls from the initial heap that wraps a counter, after which the counts no longer cover the users |
| Headers.HeaderWords | crt/src/a_mem.c:26-46 | the five words of every header: magic numbers that say whether it is free, next, previous and size |
| Headers.SplitRepresents | crt/src/a_mem.c:268-309 | the writes of a split turn the words of the list into those of the split list |
| Headers.SplitKeepsLive | crt/src/a_mem.c:268-309 | and write to no live payload |
| Headers.ExtendRepresents | crt/src/a_mem.c:341-356 | the writes of an extension turn the words of the list into those of the extended list, and touch no live payload |
| Headers.JoinRepresents | crt/src/a_mem.c:411-444 | the writes of a merge turn the words of the list into those of the merged list |
| Headers.JoinKeepsPayloads | crt/src/a_mem.c:411-444 | and write to no live payload |
| UserHeap.WipedKeeps | crt/src/a_mem.c:149-183 | when the counts cover the users, mapping fresh pages over unreferenced ones spares every header and live payload |
| UserHeap.UserHeap.constructor | crt/src/a_mem.c:222-234 | the heap at program start |
| UserHeap.UserHeap.UseMemoryRegion | crt/src/a_mem.c:149-183 | every page of the region gets one reference, and exactly the unreferenced ones are mapped anew, in streaks |
| UserHeap.UserHeap.FreeMemoryRegion | crt/src/a_mem.c:185-219 | every page loses one reference; a page without any stops the program, so no page is ever unmapped |
| UserHeap.UserHeap.SplitBlock | crt/src/a_mem.c:268-309 | the rest of a block becomes a free block behind it |
| UserHeap.UserHeap.ExtendList | crt/src/a_mem.c:341-365 | a used block after the last one, mapped and linked |
| UserHeap.UserHeap.AllocateMemory | crt/src/a_mem.c:237-365 | the lowest free block that fits is taken, with less than 52 bytes more than the padded request, or else the list extended, nothing only when neither is possible; every live byte is kept when the request keeps the heap sound |
| UserHeap.UserHeap.FreeMemory | crt/src/a_mem.c:367-446 | a live block is freed and merged with free neighbours on both sides, every other live byte kept; anything recognizably not live stops the program |
| UserHeap.UserHeap.Malloc | crt/src/a_mem.c:597-605 | as above, and the block's first bytes are scrubbed |
| UserHeap.UserHeap.Calloc | crt/src/a_mem.c:607-615 | the same with zeros, for the product as it is in 32 bits |
| UserHeap.UserHeap.ShrinkBlock | crt/src/a_mem.c:500-514 | a smaller size in place, every live byte kept |
| UserHeap.UserHeap.Relocate | crt/src/a_mem.c:516-547 | the block's bytes are carried over to a new block, the old one freed, all others kept |
| UserHeap.UserHeap.ReAllocateMemory | crt/src/a_mem.c:479-547 | the old contents up to the smaller size are a prefix of the new ones; nothing changes only when neither a free block nor the end of the list can take the block |
| UserHeap.UserHeap.Realloc | crt/src/a_mem.c:590-595 | without a block, realloc allocates |
| Kernel.DeactivationIff | src/process.c:35-98 | in every step, a process slot becomes inactive exactly in a switch, when it is dying, has no threads, is detached, is not held for a crash report, and is not the switching task's process |
| Kernel.StepKeeps | src/task.c:238-999 | every step keeps existing tasks below the last index and nobody waiting for a slot not in use |
| Kernel.JoinKeepsIff | src/process.c:290-317 | joining keeps that exactly when the slot is in use, detached or dying |
| Kernel.RunKeeps | src/task.c:238-999 | so over every run, in every interleaving |
| Kernel.EndWakes | src/task.c:462-547 | when a task ends, exactly those waiting for it go on, and its slot is free unless it is joinable |
| Kernel.AttachedStays | src/process.c:35-98 | an attached process keeps its slot in every run in which nobody detaches it |
| Kernel.StartsOne | src/task.c:238-337 | a new task is suspended, in the lowest free slot, listed with its process; nothing else changes |
| Kernel.CreatesOne | src/process.c:201-282 | a new process is attached and has one detached thread that can run at once |
| Kernel.CreateFails | src/process.c:232-259 | without a task slot the process slot is given up again, still attached |
| Kernel.DetachThenEnd | src/task.c:447-567 | a task that was detached leaves its slot free when it ends |
| Kernel.SwitchAdvances | src/task.c:831-864 | a switch selects a given runnable task or comes strictly closer to it |
| Kernel.SelectedSoon | src/task.c:831-999 | a task that stays runnable is selected within as many switches as there are task slots |
| Kernel.NobodyTwice | src/task.c:831-999 | and no other task is selected twice before it |
| Sleeping.SwitchRespects | src/task.c:808-865 | a switch selects a sleeping task only at a tick later than its own, any other waiting task only once woken, and whom it selects is no longer suspended |
| Sleeping.PassedOver | src/task.c:808-865 | over every run that does not name it, a waiting task keeps waiting and is not selected, a sleeping one as long as no tick is later than its own |
| Sleeping.SleepsUntil | src/task.c:779-865 | in runs whose other steps do not name it, a task that suspends itself until a tick is selected by no switch up to that tick; past it, fewer than MAX_TASKS switches go by before it is, and it is then not suspended |
| Sleeping.WaitsOn | src/task.c:808-865 | a task suspended for any other reason is not selected until it is unsuspended or what it waits for has happened |
| Sleeping.UnsuspendedRuns | src/task.c:60-80 | once unsuspended it is selected before MAX_TASKS switches have gone by |
| Kernel.JoinCompletes | src/process.c:35-98 | a joiner is woken by the first switch after its process died; the slot stays, over every run, until the joiner has left, and is free after the next switch |
| Kernel.DetachThenDie | src/process.c:35-98 | a process without threads that was detached and condemned is gone after the next switch from another process |
| Kernel.JoinOfDead | src/process.c:290-317 | joining a detached process does nothing, and joining a dying one detaches it without a wait |
| Joins.FailedCreateStrands | src/process.c:201-282 | a state in which creating a process fails for want of a task slot, and a join of the slot it gave up breaks the order of the tables |
| Joins.StrandedStays | src/process.c:290-317 | no step but reviving or ending the joiner by name, or a new process in the slot, ends such a wait |
| Joins.StrandedWaitsOn | src/process.c:290-317 | so over every run without these the joiner goes on waiting |
| Joins.ReuseAdopts | src/process.c:201-317 | a new process in the slot puts the tables in order again, and the joiner waits for it |
| Kernel.HousedIff | src/process.c:35-98 | a switch leaves a task without its process exactly when the task is not in the thread list of a process that can go |
| Kernel.MoveKeeps | src/task.c:551-645 | when a task leaves its process and is marked without a switch in between, no task outlives its process |
| Kernel.MovesKeep | src/task.c:551-645 | and so over every run of such moves |
| Kernel.ExitRace | src/task.c:622-645 | a run in which a task that exits is interrupted and loses its process first |
| Locks.StepKeepsIff | src/task.c:1001-1053 | the lock stays exclusive in every step but a release of the free lock by the kernel |
| Locks.RunKeeps | src/task.c:1001-1053 | mutual exclusion in every interleaving, whoever else tries to release the lock |
| Locks.OneInside | src/task.c:1001-1035 | at most one task is inside |
| Locks.TryTakesFree | src/task.c:1001-1035 | whoever tries takes a free lock, and a held one lets nobody in |
| Locks.OthersWait | src/task.c:1001-1053 | while somebody is inside, no run of steps of the others changes anything |
| Locks.OwnerReleases | src/task.c:1037-1053 | the owner's release, with any steps of the others before and in between, frees the lock, and the next task that tries is let in |
| Locks.KernelLetsTwoIn | src/task.c:1037-1053 | an interleaving in which such a release lets two tasks in |
| Scheduler.Tables.constructor | src/task.c:18-27 | tables with nothing in use, in order, while the kernel itself runs |
| Scheduler.Tables.KeFindLastRunningTaskIndex | src/task.c:101-112 | one more than the highest slot in use |
| Scheduler.Tables.IsTaskSuspended | src/task.c:808-829 | whether a task is passed over; one whose suspension has ended is revived |
| Scheduler.Tables.GetNextTask | src/task.c:831-864 | the two loops find the first ready task above the current one, or else below it |
| Scheduler.Tables.UnsuspendTasksWaitingFor | src/task.c:352-369 | exactly the tasks waiting for the target are revived |
| Scheduler.Tables.KeResetTask | src/task.c:462-547 | a task that is not running ends as the transition system says |
| Scheduler.Tables.KeCheckDyingTasks | src/task.c:668-677 | all marked tasks but the spared one end, in slot order |
| Scheduler.Tables.ExDisposeProcess | src/process.c:35-85 | a dying process is kept, announced or taken apart |
| Scheduler.Tables.ExCheckDyingProcesses | src/process.c:87-98 | all dying processes but the spared one |
| Scheduler.Tables.KeSwitchTask | src/task.c:940-999 | the timer interrupt is the switch step of the transition system |
| Scheduler.Tables.ExMakeUpAProcess | src/process.c:23-31 | the lowest process slot not in use |
| Scheduler.Tables.KeStartTask | src/task.c:238-337 | starting a task is the step of the transition system |
| Scheduler.Tables.ExCreateProcess | src/process.c:201-282 | creating a process is the step of the transition system, its failure included |
| Scheduler.Tables.ExOnThreadExit | src/process.c:130-160 | the task is removed from the list, and the process condemned with its last thread |
| Scheduler.Tables.ExJoinProcess | src/process.c:290-317 | the part of a join before the wait |
| Scheduler.Tables.ExJoined | src/process.c:290-317 | the part after it: the slot is given up and condemned |
| Hashing.AddKeepsChains | src/ht.c:54-69 | adding at the head keeps chains acyclic, complete, counted and in their bucket |
| Hashing.AddBackLinkedIff | src/ht.c:54-69 | adding keeps the links back exactly when the item comes without one |
| Hashing.BackLinkedIff | src/ht.c:54-69 | when all items but the first ones are linked back, the whole table is exactly when no first one has a link left over |
| Hashing.GrowthKeepsIff | src/ht.c:72-107 | when the number of buckets is multiplied, the links back survive exactly when no bucket held two items |
| Hashing.TwoItemsBreak | src/ht.c:54-107 | a table of 16 buckets with the keys 0 and 16, whose links back moving to 32 buckets breaks |
| Hashing.AddMends | src/ht.c:54-69 | a new item mends its bucket: afterwards the links back are right exactly when every other bucket starts with an item that had none |
| Hashing.EraseKeepsChains | src/ht.c:166-186 | with links in both directions an item can be taken out |
| Hashing.EraseKeepsBackLinks | src/ht.c:166-186 | and the links back stay right |
| Hashing.HashTable.constructor | src/ht.c:5-38 | a new table has 16 buckets and is empty, and no item is in memory |
| Hashing.HashTable.LookUp | src/ht.c:150-164 | an item with an equal key is found exactly when there is one, if equal keys have equal hashes and no data is NULL |
| Hashing.HashTable.AddItem | src/ht.c:54-69 | the table gains exactly the item |
| Hashing.HashTable.Resize | src/ht.c:72-107 | every pair of the table is there afterwards, once, and no other; the links back are right exactly when every new bucket starts with an item that had none |
| Hashing.HashTable.SetUnchecked | src/ht.c:109-140 | the table gains the pair exactly when there is memory for it, at the head of its bucket; it doubles exactly when that bucket held two items and there is memory for it; and when the links back are right afterwards |
| Hashing.HashTable.Set | src/ht.c:142-148 | a pair is added exactly when its key is new, keys stay unique, and the table grows exactly when it adds to a full bucket |
| Hashing.HashTable.Erase | src/ht.c:188-207 | one pair with an equal key is removed, if there is one, and nothing else |
| HashRuns.BagTake | src/ht.c:54-107 | the pairs of a table form a multimap, whatever items hold them |
| HashRuns.Perform | src/ht.c:109-207 | every operation answers as the multimap does, and changes it so |
| HashRuns.RunAll | src/ht.c:54-207 | so does every run of insertions, checked insertions, lookups and, before it may have grown, removals |
| HashRuns.RunFromNew | src/ht.c:36-207 | in particular from a new table, whose multimap is empty |
| HashRuns.InsertionsCollect | src/ht.c:109-148 | a run of insertions adds exactly the pairs whose insertion was answered with yes |
| HashRuns.PutsStayUnique | src/ht.c:142-148 | a run without unchecked insertions keeps one pair to a key |
| HashRuns.ResizingBreaks | src/ht.c:72-107 | resizing the table with the keys 0 and 16 to 32 buckets breaks its links back |
| HashRuns.GrowingMends | src/ht.c:109-140 | inserting 32 instead makes it grow and leaves them right |
| HashRuns.GrowingBreaks | src/ht.c:109-140 | inserting 48 makes it grow and leaves them broken |
| Sorting.Mended | src/misc.c:35-60 | where the sift stops, the heap is whole |
| Sorting.MovedDown | src/misc.c:49-55 | a swap moves the only break of the heap down |
| Sorting.RootIsLargest | src/misc.c:72-76 | no element of a heap is above its root |
| Sorting.SettlesOne | src/misc.c:72-76 | moving the root behind the heap settles one more element |
| Sorting.HeapCombine | src/misc.c:35-60 | sifting one element down makes a heap from its index on, permuting only the heap |
| Sorting.HeapSort | src/misc.c:62-77 | the array is sorted and a permutation of what it was, for any comparison that orders |
| Symbols.MergeSortedSorts | src/elf.c:216-245 | the sort yields a sorted permutation |
| Symbols.MergedSorts | src/elf.c:229-241 | interleaving sorted runs yields a sorted run |
| Symbols.ElfSortSymbolsSub | src/elf.c:216-245 | sorts its part of the table in place and leaves the rest |
| Symbols.ElfSortSymbols | src/elf.c:247-254 | the whole table is a sorted permutation of what it was |
| Symbols.SortedRises | src/elf.c:152-214 | after sorting by value, then size, the values never fall, which is what the lookup relies on |
| Symbols.SortedLexicographic | src/elf.c:206-213 | sorted means by value, then size, then info, then name |
| Symbols.SomebodyCovers | src/elf.c:152-190 | an address between the first and the last value is covered by exactly one symbol |
| Symbols.StretchExists | src/elf.c:152-190 | the symbols that share such an address, or the one that covers it, are one stretch of the table |
| Symbols.FoundIff | src/elf.c:167-186 | the search finds the covering symbol exactly when the first midpoint that falls on the stretch is its last symbol; otherwise it finds nothing |
| Symbols.UnsharedIsFound | src/elf.c:167-186 | an address that is the value of one symbol at most is found |
| Symbols.ElfGetSymbolAtAddress | src/elf.c:152-190 | what is found covers the address, and it is found exactly when the first midpoint on the stretch of symbols that share it is the last of them |
| Symbols.TwinsAreMissed | src/elf.c:167-186 | two sorted tables with a shared address: in one it is missed, in the other found |
| Wildcards.WildcardMatches | src/string.c:383-422 | matches exactly when the text can be cut into one piece for each character of the pattern |
| Video.MemmoveInts | src/string.c:80-103 | the words arrive as they were, for any overlap |
| Video.RectangleParts | src/video.c:550-562 | a rectangle of one row and one column is one pixel, and cutting one in two loses and doubles no pixel |
| Video.ClippedExactly | src/video.c:1143-1180 | clipping cuts off exactly what has no source or no destination, and moves nothing |
| Video.Surface.CopyRows | src/video.c:1205-1223 | rows are copied in an order that reads each before it is overwritten |
| Video.Surface.BitBlit | src/video.c:1143-1244 | each pixel with a source becomes the old source pixel, for any overlap and position; all others stay |
| Video.Surface.ScrollRect | src/video.c:1246-1259 | each pixel of the rectangle whose source is in the rectangle takes it; all others stay |
| Video.Surface.SetClipRectEx | src/video.c:1044-1066 | the clip rectangle is cut to the surface, or is all of it when none is given; the old one is handed out |
| Video.Surface.FillRect | src/video.c:616-655 | exactly the pixels of the rectangle inside the clip rectangle are filled |
| Lines.Arrived | src/video.c:797-825 | after the last step the line is exactly at its end |
| Lines.DrawFlat | src/video.c:797-825 | one pixel per column, none further than half a pixel off, from one end to the other |
| Lines.DrawSteep | src/video.c:826-852 | one pixel per row, none further than half a pixel off, from one end to the other |
| Lines.DrawSlanted | src/video.c:793-853 | the same for every slope and direction |
| Lines.DrawLine | src/video.c:767-853 | any line; along an axis the pixels are those of the line on the screen exactly when its row or column is on the screen or nothing could be seen |
| Calendar.YearsClosedForm | src/time.c:209-220 | the count of leap days agrees with counting years one by one |
| Calendar.CalculateEpochTime | src/time.c:209-230 | the seconds of a time, counting days one by one |
| Calendar.GetHumanTimeFromEpoch | src/time.c:237-267 | a valid date and time of day with exactly these seconds, or day 0 of March for a leap day |
| Calendar.ThereAndBack | src/time.c:209-267 | a valid time converted to seconds and back is the same exactly when it is not on a leap day |
| Calendar.BackAndThere | src/time.c:209-267 | seconds converted to a time and back are the same |
| Calendar.FitsUntil2038 | src/time.c:209-230 | up to the end of 2037 the seconds fit the program's integers |
| Calendar.WeekDayAdvances | src/time.c:48-61 | the weekday advances by one from each Gregorian day to the next |
| Calendar.WeekDayRight | src/time.c:48-61 | so it is right for every date from the first Monday of the calendar on |
| Calendar.TmGetWeekDay | src/time.c:48-61 | the program's expression |
| Numbers.TooLargeIff | crt/src/a_string.c:761-784 | the test before a digit is added decides whether the sum exceeds the limit |
| Numbers.StopsExactly | crt/src/a_string.c:746-791 | so reading digits below the base stops early exactly when the number exceeds the limit, and never computes one that does |
| Numbers.HeldIsExact | crt/src/a_string.c:746-791 | what the 64-bit variable holds is the exact value, for any letters when the maximum is not within 35 of 2^64, and always for digits below the base |
| Numbers.ReadDigits | crt/src/a_string.c:746-791 | letters and digits are read up to the end or to the first that the test refuses, in 64-bit arithmetic; every intermediate value is exact as Numbers.HeldIsExact says, and within the limit for digits below the base |
| Numbers.Strtoux | crt/src/a_string.c:702-797 | for any letters and digits, the value read or the maximum and a range error; for digits below the base, the exact number or the maximum, whichever is less, and a range error exactly when it is exceeded |
| Numbers.Strtox | crt/src/a_string.c:800-906 | the same with a sign; for digits below the base, the exact number brought into the range, and exactly when a range error is raised |
| Numbers.LowestIsRefused | crt/src/a_string.c:868-892 | the lowest 32-bit number has a range error in base 16 and none in base 10 |
| Numerals.UnsignedRead | crt/src/a_string.c:702-797 | blanks, an optional 0x or 0, and digits of two written-out alphabets, followed by anything else: the number they spell, or the maximum and a range error exactly when it is larger |
| Numerals.SignedRead | crt/src/a_string.c:800-906 | the same with a sign: the number, or the end of the range it is beyond, and exactly when a range error is raised |
| Numerals.RoundTrip | crt/src/a_string.c:702-797 | a number written in a base from 2 to 36 is read back as itself, or as the maximum |
| Numerals.OnlyBlanks | crt/src/a_string.c:702-716 | in blanks alone there is no number: 0, up to the end, and an error |
| Numerals.HexMisfits | crt/src/a_string.c:720-737 | a 0x that does not fit the base is read as 0, up to the x |

## Left out

The compiler and its machine:

- Compiler.CMachine.CcNextToken: takes the next of a given sequence of tokens, as the next line says.
- Source text is a stream of tokens: the lexer, identifier hashing, string literals and the printed listing are not part of this model.
- Code addresses count words from the start of the emitted code instead of being pointers, and the two words main returns to stand behind the code instead of on top of the stack.
- The emitted code grows without the limit of its buffer, and a store into the code area is not modelled.
- Runner.Registers.CcRunMachine: ends in a fault at a library opcode other than EXIT, and has no interrupt check.
- Runner.Registers.CcStep: the same.
- Library opcodes other than EXIT have no meaning (a script that calls one does something undefined), and the interrupt check between steps is not modelled.
- Scripts that do something undefined (shifts by 32 or more, division by zero, reading what was never written, addresses outside objects, running out of stack) are excluded from the simulation.
- Errors are the first one met; the jump out of the compiler and the freeing of its memory are not modelled.

The heap:

- UserHeap.UserHeap.ReAllocateMemory: asks that the page counts cover the users and that the block is live, which the program does not look at; and states nothing about growing a block when a page counter is within two of wrapping around and the request does not keep the heap sound, since then an allocation can map fresh pages over live ones before the old block is read.
- UserHeap.UserHeap.Realloc: the same restriction, for the same reason.
- UserHeap.UserHeap.Relocate: the same restriction, for the same reason.
- UserHeap.UserHeap.AllocateMemory: says what memory holds afterwards only if the page counts cover the users on entry, since mapping can otherwise wipe headers; where that is lost is stated by Arena.AllocateSound.
- UserHeap.UserHeap.FreeMemory: asks that a pointer before which a header is found is that of a block; the program takes payload bytes that imitate a header for one.
- A request whose end wraps around is recognized and not followed further, since its pages are not in the page table; neither is a move to a block that is misaligned or not wholly in the arena, nor a fill or copy that runs past its block because padding wrapped to zero.
- The hint about the last header decides nothing and is not modelled; running out of memory while mapping pages is not modelled.
- The entry that a block at the arena's end touches one past the page table is modelled as one more entry of the table.

Scheduling and processes:

- Saving and restoring registers and contexts, times spent, file and window resources, and memory for stacks are not modelled; allocating them never fails.
- The wait primitives that set a task's fields with interrupts on are steps of their own here; a switch in the middle of setting them, waiting on zombies, and more than one joiner of a process are not modelled.
- Scheduler.Tables.ExOnThreadExit: is stated for a run without interruption; the transition system has its parts as separate steps.
- Killing all threads of a process at once is not modelled.

Data structures and arithmetic:

- Items of the hash table live in a map from addresses to records rather than in heap objects; the growth of the bucket count is not bounded by an integer width. Iterating and deleting the table are not modelled.
- Hashing.HashTable.Erase: asks that items are linked back, which a resize can break; Hashing.HashTable.Resize and Hashing.HashTable.SetUnchecked say exactly when.
- HashRuns.RunAll: has no removals after an insertion that may have made the table grow, for the same reason, and no NULL data, which a lookup cannot tell from a missing key.
- Symbols.ElfGetSymbolAtAddress: asks for at least one symbol, since the program reads the last entry of an empty table.
- Heap sort compares and swaps elements, not bytes; binary search is not modelled.
- Video.Surface.BitBlit: copies within one off-screen surface; the main screen's second frame buffer, blits between two surfaces and other blit modes are not modelled.
- Coordinates and sizes are unbounded integers; clipping of single pixels and dirty rectangles are not modelled.
- Numbers.Strtoux: goes on reading, as the program does, where section 7.22.1.4 of C11 stops at the first letter that the base does not have.
- Numbers.Strtox: the same; for the largest signed type a threshold or a value can overflow, where the program is undefined and the model has the exact value.
- Calendar.CalculateEpochTime: seconds are unbounded; Calendar.FitsUntil2038 says how far they fit.
- Drivers, the window manager, the shell, file systems and the rest of the library are not part of this model.
