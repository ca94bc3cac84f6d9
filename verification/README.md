# Verified models of the m8rscript sources

This project models the parts of m8rscript (a scripting language for small ESP8266 boards, with its own heap,
compiler, register machine and tools) whose correctness is hardest to see from the code, and proves what they are
for. `dafny verify dfyconfig.toml` checks everything.

- **The heap** (`UmmHeap`, `UmmTheorems`, `UmmCheck`): `umm_malloc.c` keeps a chain of all blocks and a list of the
  free ones in a single array of cells. A cell is four 16-bit words, next, prev and two body words, and the body
  words hold either the free links or user data, so keeping data is a statement about the same words that the free
  list rewires. `View` is a heap with its set of block starts and its free list; `WellFormed` says that the blocks
  tile the array, that `next` and `prev` are inverse to each other, that the free list is a doubly linked chain of
  exactly the flagged blocks, and that no two free blocks are neighbours.
- **The compiler and the register machine** (`Machine`, `Source`, `Simulation`, `SwitchRuns`, `Slots`, `Codegen`,
  `Layout`, `Statements`, `Branches`, `Selection`, `Switching`, `Reconciliation`, `Functions`, `Tokens`, `Precedence`,
  `Engine`, `Programs`): `ParseEngine` reads tokens and drives `Parser`, which emits code through a parse stack,
  temporaries counted down from register 255, jumps that are aimed later, and a stack of deferred code. At the end of
  a function the temporaries are renumbered. The main theorem is the contract of `Engine.Compile`: a function that is
  `Engine.Compilable`, which limits its defaults, instructions, temporaries and constants as a reader of the source
  can count them, compiles without an error, and its final code does on any frame what the source statements do. It
  halts exactly when they do (`Functions.HaltsTogether`). It holds for any arithmetic. `Precedence` says which text
  stands for which expression without mentioning precedences, and `Programs` what some whole programs compute in
  numbers, from their tokens to the registers of the machine.
- **Calls and captured variables** (`Frames`, `UpValues`, with `Values`): frames on one value stack against calls that
  have registers of their own (`Frames.Performed`), and the list of open upvalues against variables that have an
  identity (`UpValues.World`, `Next`, `After`). `UpValues.ExecutionUnit.Run` says that any run of captures, stores,
  stack writes, pushes, pops and closings does to the stack and the upvalues what it does to the variables.
- **Fixed point arithmetic** (`Float64`), **the regular expression matcher** (`Regex`) with the language of its
  patterns (`RegexLanguage`), **the atom table** (`Atoms`), **the task list** (`Tasks`) against a queue in which nobody
  overtakes, **Base64** (`Base64`), **SLIP** (`Slip`) and **firmware images** (`Firmware`, and `FirmwareLayout` for
  their bytes place by place); `Wrappers` holds what several of them need.

Where the code does not do what one would expect, the contracts follow the code and say exactly when it does:

- `UmmTheorems.UmmBlocksExact`: the number of blocks for a request is right if and only if the request is at most
  524276 bytes, because the result is cut to 16 bits. Where it is 0 (`UmmTheorems.ZeroBlocksIff`) a split leaves a heap
  that is well formed for no list of blocks whatever (`UmmTheorems.ZeroBlocksBreak`), and without a free block the head
  of the free list is given out (`UmmTheorems.ZeroBlocksFull`).
- `UmmHeap.Umm.Realloc`: the old block is freed even where no block for the new size is found.
- `UmmCheck.ConsistentIff`: the integrity check compares the flag of a block with the free list only for the blocks that
  it meets, and only if the prev word does not carry the flag. What is on the free list but is no block goes unnoticed
  (`UmmCheck.StrayAccepted`).
- `Slots.SlotsApartIff`: renumbering keeps registers apart if and only if fewer locals and temporaries than registers
  are in use, or the only temporary is register 255 itself.
- `Codegen.AimedExact`: aiming a conditional jump keeps its choice if and only if its operand is a register. This is
  why constant conditions of `if`, `while` and `for` are not in `Tokens.Supported`.
- `Codegen.JumpFromSwitch`: a `break` or `continue` out of a switch is aimed if and only if the code happens to be as
  long as the deferred code below the block of the switch; where it is not, the machine never gets past it
  (`Codegen.UnaimedHangs`).
- `UpValues.ReturnShares`: a return closes the captured variables from the caller's frame on, so closures keep sharing a
  variable if and only if it belongs to a function below the caller; the caller's own are parted from the closures that
  captured them. Closing from the callee's frame on would keep these, too.
- `Atoms.PassesIff`: with bytes above 127 a place that passes the tests of the search is an entry for the string if and
  only if the byte before it is the length of an entry, and of this string. `Atoms.HighBytesMistaken` shows the three
  ways in which it is not, and `Atoms.PlaceChanges` a string that gets another atom the second time.
- `Float64.Multiply`: the product is right if and only if it is not the product of two small factors of different
  signs; the wrong value is stated, too.
- `Tasks.TaskManager.FireEvent`: the list stays a list if and only if no repeating task has scheduled itself while it
  was executing; otherwise it runs into a ring. A repeating task that does not come first again posts no event.
- `Regex.Foo`: finds a match if and only if there is one in which every optional operation (`?`) is taken wherever it
  can be; `Regex.FoundMatches` says what this means for the language, which `RegexLanguage` describes, and
  `Regex.OptionNotLeftOut` what it leaves out.
- `Regex.Repeat`: a greedy star takes the largest number of repetitions behind which the rest matches, except that it
  falls back to none where the rest does not match behind the largest number of all and takes something in front of the
  first one: `a*a` takes one letter of `aa` (`Regex.StarFallsBack`).
- `Firmware.V1RoundTrip` and `V2RoundTrip`: a saved image loads if and only if it has at most 16 segments (besides
  irom) and all of them are in range.

## Model

| member | source | states |
|---|---|---|
| UmmHeap.Umm.constructor | esp/core-save/umm_malloc.c:1193-1246 | A new heap is well formed, with one free block from 1 to the last and no live block. |
| UmmHeap.Umm.DisconnectFromFreeList | esp/core-save/umm_malloc.c:1147-1156 | Taking out element j of the free list leaves a linked list of the others; no live block's header size or data changes. |
| UmmHeap.Umm.MakeNewBlock | esp/core-save/umm_malloc.c:1134-1143 | Cuts a block in two with the flags wanted for each half. |
| UmmHeap.Umm.AssimilateUp | esp/core-save/umm_malloc.c:1160-1179 | A live block absorbs the block after it if that one is free; then the heap is well formed and the next block is not free. |
| UmmHeap.Umm.AssimilateDown | esp/core-save/umm_malloc.c:1183-1189 | A block is joined to the one before it, whose start is returned and whose flag is as given. |
| UmmHeap.Umm.Free | esp/core-save/umm_malloc.c:1250-1332 | Freeing a live block keeps the heap well formed, removes just this block from the live ones, and keeps size and data of all others; freeing null changes nothing. |
| UmmHeap.Umm.Split | esp/core-save/umm_malloc.c:1420-1446 | The front of a free block becomes live and the rest takes over its place in the free list, with both neighbours relinked. |
| UmmHeap.Umm.FindBestFit | esp/core-save/umm_malloc.c:1375-1402 | The search finds the smallest block that is large enough, the first one of several in list order, and 0 exactly if there is none. |
| UmmHeap.Umm.Malloc | esp/core-save/umm_malloc.c:1336-1462 | Null exactly for size 0 or if no free block is large enough, and then nothing changes; otherwise the best fit becomes live with exactly the blocks asked for, and all other live blocks keep size and data. |
| UmmHeap.Umm.MoveDown | esp/core-save/umm_malloc.c:1567-1595 | A block joined to its free predecessor and moved there keeps its data although the two may overlap. |
| UmmHeap.Umm.Shrink | esp/core-save/umm_malloc.c:1606-1615 | The rest of a block that is too large is freed, and the front keeps its data. |
| UmmHeap.Umm.Relocate | esp/core-save/umm_malloc.c:1616-1633 | Copies the data to a new best fit if there is one; the old block is freed in any case. |
| UmmHeap.Umm.Realloc | esp/core-save/umm_malloc.c:1466-1639 | Which of the paths is taken and which block it returns, decided by the neighbours and their sizes; on success the first min(old, new) words of data are kept, and every other live block keeps size and data. |
| UmmTheorems.UmmBlocksExact | esp/core-save/umm_malloc.c:1098-1120 | The least n with 8n - 4 >= size, if and only if the size is at most 524276. |
| UmmTheorems.ZeroBlocksBreak | esp/core-save/umm_malloc.c:1098-1143 | Where a request comes to no blocks, the writes that cut a free block of any well-formed heap leave one that is well formed for no set of blocks and no free list, whatever the free links are. |
| UmmTheorems.ZeroBlocksIff | esp/core-save/umm_malloc.c:1098-1120 | The number of blocks is 0 if and only if the size is 524277 to 524284, or that plus a multiple of 2^19. |
| UmmTheorems.ZeroBlocksFull | esp/core-save/umm_malloc.c:1375-1418 | Without a free block such a request is taken for an exact fit at block 0, which is no live block. |
| UmmTheorems.LiveDisjoint | esp/core-save/umm_malloc.c:1336-1462 | Live blocks do not overlap. |
| UmmTheorems.BestFitUnique | esp/core-save/umm_malloc.c:1375-1402 | The best fit is a function of the heap. |
| UmmTheorems.FitsIffVacant | esp/core-save/umm_malloc.c:1336-1462 | A free block of k cells exists if and only if any k cells in a row belong to no live block: no room is lost to fragments side by side. |
| UmmTheorems.EmptyHeap | esp/core-save/umm_malloc.c:1250-1332 | Once every live block is freed a single free block from 1 to the last remains. |
| UmmTheorems.LayoutDetermined | esp/core-save/umm_malloc.c:1134-1639 | Two well-formed heaps with the same live blocks have the same blocks and the same free ones, whatever history led to them. |
| UmmTheorems.MallocFreeRestores | esp/core-save/umm_malloc.c:1250-1462 | Freeing what malloc returned restores all blocks, the set of free blocks, and all data. |
| UmmTheorems.Run | esp/core-save/umm_malloc.c:1193-1639 | Any sequence of malloc, free and realloc on live pointers keeps the heap well formed and its live blocks distinct; with nothing live the heap is one free block again. |
| UmmCheck.FreeWalkNew | esp/core-save/umm_malloc.c:664-703 | A block that names the last one met as its predecessor was not met before, on arbitrary heap contents: the walk ends. |
| UmmCheck.CheckFreeLinks | esp/core-save/umm_malloc.c:664-703 | The first walk accepts exactly the heaps whose free links form a closed chain, and marks exactly its blocks. |
| UmmCheck.CheckBlockLinks | esp/core-save/umm_malloc.c:705-756 | The second walk accepts exactly the closed chains of all blocks whose flags agree with the marks (`UmmCheck.ConsistentIff` in numbers), and clears the marks it meets. |
| UmmCheck.IntegrityCheck | esp/core-save/umm_malloc.c:664-756 | On any contents it ends and accepts exactly the heaps of `UmmCheck.ConsistentIff`; on those the top bit of the prev word ends up cleared in every block met and set in what is on the free list but is no block met, and nothing else changes. It accepts every well-formed heap and changes no word of it. |
| UmmCheck.ConsistentIff | esp/core-save/umm_malloc.c:664-756 | What is accepted, in numbers: the free list closes, the links of the blocks lead from the first to the last one and back, and a block met has the top bit of its next word set if and only if it is on the free list or its prev word has that bit, too. |
| UmmCheck.Rejected | esp/core-save/umm_malloc.c:723-735 | One block that is flagged and not on the free list, or on it and not flagged, is enough for the heap to be rejected, whatever else it holds. |
| UmmCheck.NotClosed | esp/core-save/umm_malloc.c:664-721 | So is a free list that does not close, or a chain of blocks that does not. |
| UmmCheck.AcceptedMarks | esp/core-save/umm_malloc.c:664-756 | Where no prev word has the top bit set, the flags of an accepted heap are exactly those of its free list. |
| UmmCheck.StrayAccepted | esp/core-save/umm_malloc.c:664-756 | A heap is accepted whose free list holds a cell inside a block. |
| Codegen.Parser.EmitUnOp | m8rscript/Parser.cpp:526-545 | The code for a unary expression on top of the code for its operand: it computes the value into its result operand and changes no local and no temporary in use. |
| Codegen.Parser.EmitBinOp | m8rscript/Parser.cpp:492-509 | The same for a binary operator and its two operands; the result goes where the first free temporary was before both. |
| Codegen.Parser.EmitStep | m8rscript/Parser.cpp:526-537 | Increment and decrement before and after: the code has the effect of the operator on the local. |
| Codegen.Parser.EmitAssign | m8rscript/Parser.cpp:359-417 | The code for an assignment to a local sets it to the value of the right side, and nothing else. |
| Codegen.ParenDone | m8rscript/ParseEngine.cpp:592-597 | The code for an expression is the code for it in parentheses. |
| Codegen.Parser.EmitCaseTest | m8rscript/Parser.cpp:511-524 | The selector stays on the parse stack below the result of the comparison. |
| Codegen.Parser.DoMatchJump | m8rscript/Parser.cpp:139-157 | Adds an error exactly if the distance is out of range and none came before; otherwise aims the jump and changes no other instruction, nor the number of errors. The operand keeps 8 bits only. |
| Codegen.AimedExact | m8rscript/Parser.cpp:139-157 | An aimed jump makes the same choice as before for all registers and constants if and only if it makes none or its operand is a register. |
| Codegen.JumpFromSwitch | m8rscript/ParseEngine.cpp:517-533 | A jump out of a switch, noted where it is in the deferred code, is aimed if and only if the code is as long as the deferred code below its block; otherwise it stays unaimed. |
| Codegen.UnaimedHangs | m8rscript/ExecutionUnit.cpp:795-809 | The machine never gets past an unaimed jump. |
| Codegen.Parser.EmitDeferred | m8rscript/Parser.cpp:627-641 | Moves the innermost deferred block to the end of the code and leaves the blocks below alone. |
| Codegen.Parser.ReconcileRegisters | m8rscript/Parser.cpp:697-729 | Every register operand of every instruction is renumbered, and no constant. |
| Codegen.Parser.FunctionEnd | m8rscript/Parser.cpp:669-690 | Ends the function and counts its temporaries in a byte. |
| Slots.SlotsApartIff | m8rscript/Parser.cpp:692-695 | No two registers in use share a slot, and all slots are in the frame, if and only if locals and temporaries do not overlap (with the one exception at register 255). |
| Slots.SlotsFit | m8rscript/Parser.cpp:692-729 | Every slot is below locals plus temporaries. |
| Reconciliation.RunSame | m8rscript/Parser.cpp:692-729 | Renumbered code on a frame of that size runs in step with the code before, for any number of steps. |
| Tokens.SpineFolds | m8rscript/ParseEngine.cpp:632-674 | An expression is the fold from the left of the operators along its spine. |
| Tokens.SpineTokens | m8rscript/ParseEngine.cpp:632-674 | Its tokens, with the parentheses that the precedences require, are those of the head and of the operators along the spine. |
| Tokens.SpineFalls | m8rscript/ParseEngine.cpp:632-674 | Along the spine precedence never rises, so the loop of expression reads all of it. |
| Precedence.OneLevel | m8rscript/ParseEngine.cpp:58-76 | Every binary operator stands on exactly one of the ten levels. |
| Precedence.Tighter | m8rscript/ParseEngine.cpp:58-76 | Of any two operators of different levels, the one of the tighter level takes the operand between them, on whichever side it stands: `a + b * c` and `a * b + c` need no parentheses, and the other trees do. For all pairs of levels and all operands that are locals, constants or in parentheses. |
| Precedence.GroupsLeft | m8rscript/ParseEngine.cpp:656-674 | Two operators of one level group to the left, and a group on the right needs parentheses. |
| Precedence.UnaryTightest | m8rscript/ParseEngine.cpp:590-615 | Minus, complement and not before an operand are -, ~ and !, and bind tighter than every binary operator. |
| Precedence.Assigned | m8rscript/ParseEngine.cpp:46-57 | Exactly the eleven arithmetic, shift and bit operators can assign, and what is assigned is written without parentheses. |
| Engine.ParseEngine.ArithmeticPrimary | m8rscript/ParseEngine.cpp:590-630 | Reads exactly the tokens of a primary expression, one in parentheses, a unary one or an increment, and emits code for it; parentheses need no code. |
| Engine.ParseEngine.Expression | m8rscript/ParseEngine.cpp:632-674 | From the tokens of any expression statement, with the parentheses it needs (`Precedence.Tighter`, `Precedence.GroupsLeft`) and any others, it emits code that computes the value of that tree, or has the effect of that assignment, and stops at the first token behind it. |
| Engine.ParseEngine.JumpStatement | m8rscript/ParseEngine.cpp:517-533 | A break or continue is noted for the innermost loop, whose end aims it. |
| Engine.ParseEngine.CompoundStatement | m8rscript/ParseEngine.cpp:222-231 | The code for a block, whose breaks and continues are those of its statements. |
| Engine.ParseEngine.SelectionStatement | m8rscript/ParseEngine.cpp:233-259 | The code for an if with or without else does what the statement does; an else belongs to the nearest if. |
| Engine.ParseEngine.WhileStatement | m8rscript/ParseEngine.cpp:430-455 | The code for a while loop with its breaks and continues. |
| Engine.ParseEngine.DoStatement | m8rscript/ParseEngine.cpp:456-470 | The code for a do-while loop: continue goes to the condition. |
| Engine.ParseEngine.ForLoopCondAndIt | m8rscript/ParseEngine.cpp:359-382 | The iterator is written to deferred code before the body and moved behind it afterwards, under any nesting; continue goes to the iterator. |
| Engine.ParseEngine.ForStatement | m8rscript/ParseEngine.cpp:471-504 | The code for a for loop. |
| Engine.ParseEngine.CaseTest | m8rscript/ParseEngine.cpp:293-309 | The test of one case, and its jump. |
| Engine.ParseEngine.Clauses | m8rscript/ParseEngine.cpp:261-325 | All clauses, with the tests in the code and the statements in one deferred block, and a note of every jump still to be aimed. |
| Engine.ParseEngine.FinishSwitch | m8rscript/ParseEngine.cpp:325-357 | After the deferred block has been moved every jump of the switch is aimed at the right address, and the whole does what the switch statement does. |
| Engine.ParseEngine.SwitchStatement | m8rscript/ParseEngine.cpp:261-357 | The statement of the first equal case runs, cases without one share the next, otherwise the default wherever it is written; then the code goes on behind the switch. |
| Engine.ParseEngine.Statement | m8rscript/ParseEngine.cpp:98-136 | Reads one statement of the fragment, or none before a closing brace or another case, and emits correct code for it in the code or in a deferred block. |
| Engine.ParseEngine.FunctionBody | m8rscript/ParseEngine.cpp:822-833 | If there was no error, a register is left over and there are fewer than 255 constants, the final code does on every frame what the statements of the function do, uses slots of the frame only, and the frame size is that of its locals and temporaries. An error means two defaults in a switch, or code too long for its jumps. No more temporaries and constants are in use than the statements need (`Layout.StmtNeed`). |
| Engine.Compile | m8rscript/ParseEngine.cpp:822-833 | From the tokens of a function to its final code: if no switch has two defaults, the statements take at most 32767 instructions, locals and needed temporaries together at most 255 registers, and fewer than 254 constants are written, there is no error and the code is that of the function. Two defaults are an error. |
| Programs.Formula | m8rscript/ParseEngine.cpp:632-674 | `x = 7 - 2 * 3 - -1;` sets x to 2, from its tokens. |
| Programs.Steps | m8rscript/ParseEngine.cpp:590-630 | `{ x++; --y; z -= x; }` adds one, takes one, and subtracts the new x. |
| Programs.SumRuns | m8rscript/ParseEngine.cpp:471-504 | `for (i = 0; i < n; i++) s += i;` adds n (n - 1) / 2 to s, for every n. |
| Programs.CompileSum | m8rscript/ParseEngine.cpp:822-833 | The nineteen tokens of that loop in braces compile without an error, with at most one temporary, to code that ends with this sum on every frame. |
| Programs.SumCompiled | m8rscript/ExecutionUnit.cpp:500-809 | Any correct code for the loop ends on the machine with the sum in the register of s. |
| Programs.LeastRuns | m8rscript/ParseEngine.cpp:233-259 | `if (i < n) s = i; else s = n;`, from its tokens, leaves the smaller of i and n in s. |
| Programs.SearchRuns | m8rscript/ParseEngine.cpp:430-455 | `while (i < n) { if (i == k) break; i++; }` stops at k, or at n if k is not in between. |
| Programs.SearchSpelled | m8rscript/ParseEngine.cpp:430-455 | These are its tokens. |
| Programs.SkipRuns | m8rscript/ParseEngine.cpp:456-470 | `do { i++; if (i == k) continue; s++; } while (i < n);` counts all rounds but that of k. |
| Programs.SkipSpelled | m8rscript/ParseEngine.cpp:456-470 | These are its tokens. |
| Programs.ChoiceRuns | m8rscript/ParseEngine.cpp:261-357 | `switch (x) { case 1: case 2: y = 5; default: y = 7; case 3: y = 9; }` gives 5 for 1 and 2, 9 for 3 and 7 otherwise. |
| Programs.ChoiceSpelled | m8rscript/ParseEngine.cpp:261-357 | These are its tokens. |
| Programs.Computes | m8rscript/ExecutionUnit.cpp:500-720 | A move, an operator with its operands in this order, and a unary one set one register, with registers below 256 and constants from there on, and go on with the next instruction. |
| Programs.StepsBy | m8rscript/ExecutionUnit.cpp:721-740 | Increment and decrement change the operand, and leave its new value in the result if they come before, and its old one if they come behind. |
| Programs.Jumps | m8rscript/ExecutionUnit.cpp:795-809 | Jumps are relative to themselves; JT jumps if and only if the value is not 0, JF if and only if it is. |
| Simulation.WhileOk | m8rscript/ExecutionUnit.cpp:795-809 | The shape of a while loop on the machine simulates the statement in any program that contains it. |
| Simulation.DoWhileOk | m8rscript/ExecutionUnit.cpp:795-809 | The same for do-while. |
| Simulation.ForOk | m8rscript/ExecutionUnit.cpp:795-809 | The same for a for loop, with its iterator behind the body. |
| Simulation.IfOk | m8rscript/ExecutionUnit.cpp:795-809 | The same for if with else. |
| SwitchRuns.SwitchOk | m8rscript/ExecutionUnit.cpp:795-809 | The same for a chain of tests with bodies behind it. |
| Statements.WhileDone | m8rscript/ParseEngine.cpp:430-455 | From correct code for the body to correct code for the loop, with all jumps aimed. |
| Statements.ForDone | m8rscript/ParseEngine.cpp:359-382 | The same with the deferred iterator. |
| Branches.RepeatDone | m8rscript/ParseEngine.cpp:456-470 | The same for do-while. |
| Branches.AppendDone | m8rscript/ParseEngine.cpp:222-231 | Correct code for a list and for one more statement is correct code for both. |
| Selection.IfDone | m8rscript/ParseEngine.cpp:233-259 | From correct code for both branches to correct code for the if. |
| Switching.SwitchDone | m8rscript/ParseEngine.cpp:325-357 | From correct tests and statements to a correct switch, when every jump has been aimed. |
| Functions.StmtStays | m8rscript/ParseEngine.cpp:517-533 | No break or continue leaves a supported statement outside a loop. |
| Functions.FunctionCorrect | m8rscript/Parser.cpp:669-729 | From correct code for a body to a correct function after renumbering. |
| Functions.HaltsTogether | m8rscript/ExecutionUnit.cpp:500-809 | The machine halts on the code of a function if and only if the source statements come to an end. |
| Frames.ExecutionUnit.StartFunction | m8rscript/ExecutionUnit.cpp:292-319 | The context of the caller without the arguments is recorded; the new function has registers of its own, in which each formal parameter holds its argument and missing ones and other locals are null, for fewer, equal and more arguments. |
| Frames.ExecutionUnit.SetInFrame | m8rscript/ExecutionUnit.h:186-194 | Setting a register changes this register of the running function and nothing else, neither another register, what it has pushed, nor anything below its frame. |
| Frames.ExecutionUnit.Return | m8rscript/ExecutionUnit.cpp:407-499 | A return restores program counter, function, this, frame base and parameter counts of the caller, and its stack without the arguments plus the value returned: the first of those left on the stack, or null. |
| Frames.ExecutionUnit.Call | m8rscript/ExecutionUnit.cpp:292-499 | A call and everything up to its return, calls inside it included, leave the context of the caller as it was with one value in place of the arguments: the one that the function computes when it has registers of its own (`Frames.ReturnsConstant`, `Frames.CallPicks`). |
| Frames.ExecutionUnit.Run | m8rscript/ExecutionUnit.cpp:292-499 | However calls nest, a balanced run on the one stack has the result of the same run with separate registers for every call; it keeps its frame and context and touches nothing below its frame. |
| Frames.ReturnsConstant | m8rscript/ExecutionUnit.cpp:407-499 | A function that pushes the constant v and returns one value returns v. |
| Frames.ReturnsRegister | m8rscript/ExecutionUnit.h:207-216 | A function that returns register r returns argument r, or null where r is no formal parameter or has no argument. |
| Frames.CallPicks | m8rscript/ExecutionUnit.cpp:292-499 | The arguments of a call are the last n values pushed, in the order of the parameters; a call of a function that returns parameter r leaves the r-th of them in their place. |
| Frames.Pushes | m8rscript/ExecutionUnit.cpp:582-584 | Pushing a constant adds it, pushing a register adds the value it holds; nothing else changes. |
| Frames.Pops | m8rscript/ExecutionUnit.cpp:585-588 | Popping takes the last value and sets one register to it. |
| Frames.Moves | m8rscript/ExecutionUnit.cpp:500-502 | Moving sets one register to the constant or to the value of the other register. |
| Frames.CallRecorded | m8rscript/ExecutionUnit.cpp:292-319 | Pushing a record keeps every call in progress able to return. |
| Frames.CallReturns | m8rscript/ExecutionUnit.cpp:456-498 | Popping one, too. |
| UpValues.ExecutionUnit.NewUpValue | m8rscript/ExecutionUnit.cpp:278-290 | One open upvalue per variable, shared by all closures that capture it: a variable captured before gives its upvalue and changes nothing; a new one is added at the end of the upvalues and at the head of the list, and all others stay as they are. |
| UpValues.ExecutionUnit.LoadUpValue | m8rscript/Closure.cpp:54-63 | Reads the last value stored to the captured variable, whether it is closed or not. |
| UpValues.ExecutionUnit.StoreUpValue | m8rscript/Closure.cpp:65-74 | Stores to the captured variable, so that all that share it see the value, on the stack while it is open and in the upvalue from then on. |
| UpValues.ExecutionUnit.Write | m8rscript/ExecutionUnit.h:186-194 | A write to the stack is a store to the variable there, whoever has captured it. |
| UpValues.ExecutionUnit.CloseIfNeeded | m8rscript/Closure.cpp:95-104 | Closes an upvalue with the current value of its variable exactly if that is at f or above, and changes no other. |
| UpValues.ExecutionUnit.CloseUpValues | m8rscript/ExecutionUnit.cpp:153-167 | For any f: upvalue by upvalue, those open at f or above are closed with the value of their variable, those open below f keep their variable, and closed ones keep their value; the list stays linked, with exactly the variables below f on it. |
| UpValues.ExecutionUnit.Return | m8rscript/ExecutionUnit.cpp:456-498 | What a return does to captured variables: closing from the frame of the caller, dropping the frame that ends and pushing the value. |
| UpValues.ExecutionUnit.Run | m8rscript/ExecutionUnit.cpp:153-290 | Any run of captures, stores, stack writes, pushes, pops and closings does what it does to variables with an identity; after it every upvalue reads the last value stored to its variable. |
| UpValues.SeenNext | m8rscript/Closure.cpp:54-74 | What is read through an upvalue changes with a store to it and with a write to the place on the stack that it shares, to the value written, and with nothing else; not with closing, either. |
| UpValues.OnStackNext | m8rscript/Closure.cpp:65-74 | The same for every place of the stack: a store through an upvalue changes exactly the place it shares. |
| UpValues.CaptureShares | m8rscript/ExecutionUnit.cpp:278-290 | After a capture exactly one upvalue shares the variable. |
| UpValues.SharesUntilClosed | m8rscript/ExecutionUnit.cpp:153-167 | Over any run, an upvalue and its place on the stack are the same variable if and only if no closing at or below that place has happened. |
| UpValues.ReturnShares | m8rscript/ExecutionUnit.cpp:464-467 | After a return exactly the variables below the frame of the caller are still shared; closing from the frame that ends would keep those of the caller, too. |
| UpValues.Removed | m8rscript/ExecutionUnit.cpp:156-161 | Closing an element and bypassing it keeps the list linked and all values remembered. |
| UpValues.OpenDistinct | m8rscript/ExecutionUnit.cpp:278-290 | Open upvalues have distinct places in the list and distinct variables. |
| Float64.Mult64to128 | m8rscript/Float.h:44-63 | hi * 2^64 + lo is the product of any two 64-bit numbers. |
| Float64.Columns | m8rscript/Float.h:44-63 | The wrapped sums of partial products, as the code forms them, give the full product of two words. |
| Float64.SumsFit | m8rscript/Float.h:44-63 | None of the sums and products on the way overflows: each of them modulo 2^64 is itself. |
| Float64.ProductRounds | m8rscript/Float.h:353-386 | The product that Multiply is held against is x * y / 2^30 cut off toward zero: the rest is less than 2^30 and has the sign of x * y; from 2^90 on it is 0. |
| Float64.Truncates | m8rscript/Float.h:388-407 | The quotient that Divide is held against leaves a rest smaller than the divisor with the sign of the dividend. |
| Float64.Multiply | m8rscript/Float.h:353-386 | sign * floor(abs(x) * abs(y) / 2^30), or 0 from 2^90 on, if and only if the factors are not both small and of different signs; and what comes out then. |
| Float64.Divide | m8rscript/Float.h:388-407 | Exact truncated division for small dividends, 0 for small dividends divided by 0, a bound on the error of division by the reciprocal, for all signs, and 0 where the product with the reciprocal is 2^90 or more. |
| Float64.ReciprocalError | m8rscript/Float.h:401-406 | That bound: at most abs(x) / 2^32 plus one half, plus a quarter if the signs differ. |
| Regex.SimpleRegular | m8rscript/slre.cpp:369-422 | What the first pass accepts without brackets, sets and alternatives is a sequence of operations with quantifiers, and anchors at the ends. |
| Regex.Repeat | m8rscript/slre.cpp:211-256 | A star or plus takes a number of matches of its operation and a match of the rest, and fails if and only if no number would do. Not greedy: the least number from one on behind which the rest matches, none only if there is no such number. Greedy: the largest, with the exact case in which a star falls back to none. |
| Regex.StarFallsBack | m8rscript/slre.cpp:238-245 | The star of `a*a` takes nothing in front of `aa`, and nothing else is possible. |
| Regex.AllTried | m8rscript/slre.cpp:221-252 | The numbers of repetitions that the loop tries, with the one tried after it, are all that matter. |
| Regex.Bar | m8rscript/slre.cpp:187-304 | Ends for every pattern, and either yields what the matcher may take at the start of the subject or fails because there is nothing it may take. |
| Regex.TakesAccepts | m8rscript/slre.cpp:187-304 | Whatever the matcher takes is in the language of the pattern, at the end of the subject if there is a dollar sign. |
| Regex.AcceptsTakes | m8rscript/slre.cpp:207-210 | For patterns without optional operations it takes all of the language. |
| Regex.OptionNotLeftOut | m8rscript/slre.cpp:207-210 | With one it does not: `ab` is a match of `a?ab`, and the matcher finds none anywhere in the subject. |
| Regex.Doh | m8rscript/slre.cpp:307-323 | The same as Bar for the only branch of a pattern without alternatives. |
| Regex.Baz | m8rscript/slre.cpp:325-338 | The leftmost match that can be found, at 0 for an anchored pattern, or failure if and only if there is none. |
| Regex.FoundMatches | m8rscript/slre.cpp:325-338 | Every match found is a match s[i..n] of the language, and without optional operations every match of the language can be found. |
| Regex.Foo | m8rscript/slre.cpp:369-427 | The same for the whole matcher: the end of the leftmost match that can be found, -1 exactly if there is none, and -6 exactly for malformed escapes (`RegexLanguage.EscapesAt`). |
| RegexLanguage.Classes | m8rscript/slre.cpp:122-124 | `\s` is exactly a space, tab, newline, return, vertical tab or form feed, `\S` any other character, and `\d` a digit, for every string. |
| RegexLanguage.Dot | m8rscript/slre.cpp:148 | A dot is any one character. |
| RegexLanguage.Escaped | m8rscript/slre.cpp:125-143 | `\b \t \n \v \f \r` are the characters 8 to 13, and a backslash before any other character stands for it. |
| RegexLanguage.HexByte | m8rscript/slre.cpp:107-136 | `\x` with the digits of n, in either case, is exactly the character n. |
| RegexLanguage.Itself | m8rscript/slre.cpp:150-158 | A character without a meaning of its own stands for itself. |
| RegexLanguage.EitherCase | m8rscript/slre.cpp:150-158 | Where case is ignored a letter stands for exactly its two cases, and any other character for itself. |
| RegexLanguage.Sequence | m8rscript/slre.cpp:276-304 | The language of an operation followed by a pattern: a character of the first and then a string of the second. |
| RegexLanguage.AtMostOnce | m8rscript/slre.cpp:207-210 | With a question mark the first may be missing. |
| RegexLanguage.AnyNumber | m8rscript/slre.cpp:211-256 | A star is none, or one and then a star again; a lazy star has the same language. |
| RegexLanguage.AtLeastOnce | m8rscript/slre.cpp:211-256 | A plus is one and then a star; the same lazily. |
| RegexLanguage.Integers | m8rscript/slre.cpp:187-304 | `^-?\d+$` matches exactly the integers in decimal digits. |
| RegexLanguage.EscapesAt | m8rscript/slre.cpp:389-401 | Which characters may follow a backslash, and that something must. |
| RegexLanguage.HexEscapesAt | m8rscript/slre.cpp:391-398 | `\x` needs two hexadecimal digits. |
| RegexLanguage.SimpleParts | m8rscript/slre.cpp:369-422 | Every pattern put together from operations, quantifiers and anchors is in the fragment. |
| Atoms.WholeIsEntry | m8rscript/Atom.cpp:108-113 | With characters of 7 bits a match between a length byte and another or the end is an entry: no substring passes for one. |
| Atoms.OffsetIs | m8rscript/Atom.cpp:78-87 | Each entry starts with its negated length and takes one more byte than it has characters. |
| Atoms.PassesIff | m8rscript/Atom.cpp:103-113 | Whatever bytes the strings have: a match that passes is an entry for s if and only if the byte before it is the length of an entry and the length of s. |
| Atoms.EntryPasses | m8rscript/Atom.cpp:103-113 | Every entry passes. |
| Atoms.HighBytesMistaken | m8rscript/Atom.cpp:103-113 | With bytes above 127 the end of an entry passes, the beginning of one, and what reaches over several. |
| Atoms.PlaceChanges | m8rscript/Atom.cpp:56-90 | A string that has just been added at the end is found elsewhere when it is looked up again. |
| Atoms.AtomTable.FindAtom | m8rscript/Atom.cpp:92-117 | For any bytes: the first place that passes, and -1 exactly if none does; -1 only if there is no entry for s, and with characters of 7 bits the place of the entry. |
| Atoms.AtomTable.AtomizeString | m8rscript/Atom.cpp:56-90 | For any bytes: no atom, which is 65535, exactly for empty strings and those of more than 127 characters; otherwise the first place that passes, or if none does the end of the table, where the entry for s is added. With characters of 7 bits it is the place of the entry for s. |
| Atoms.AtomTable.StringFromAtom | m8rscript/Atom.h:65-72 | The string of the entry at an atom. |
| Atoms.OneToOne | m8rscript/Atom.cpp:56-90 | Two atoms are equal if and only if their strings are. |
| Atoms.StaysAt | m8rscript/Atom.cpp:56-90 | Atoms keep their strings as the table grows. |
| Atoms.AtomTable.AtomizeAll | m8rscript/Atom.cpp:56-117 | Over any sequence of strings of 7-bit characters, while the table is at most 65535 bytes: two get the same atom if and only if they are equal, all atoms are good at the end, and empty and overlong strings get none. |
| Tasks.TaskManager.RunTask | m8rscript/TaskManager.cpp:45-87 | The task fires now for a delay below 5, after its delay up to 6000000, and 6000000 from now above that. If it is not queued it goes behind all that fire no later, as in the reference queue, and the list stays sorted; one that is queued already makes the list run into a ring. Only a new head posts an event. |
| Tasks.CaughtNotLinked | m8rscript/TaskManager.cpp:45-87 | A list that runs into a ring is not the list of any tasks. |
| Tasks.TaskManager.RemoveTask | m8rscript/TaskManager.cpp:89-103 | Exactly this task is taken out, if it is there, and the others keep their order. |
| Tasks.TaskManager.Execute | m8rscript/TaskManager.cpp:45-103 | Any run of scheduling and removing keeps the list sorted and linked, with exactly the scheduled tasks on it, in the order of the reference queue. |
| Tasks.TaskManager.FireEvent | m8rscript/TaskManager.cpp:105-120 | Fires a task with the least fire time, whatever it does to the list while executing; the list stays well formed if and only if the task is not both repeating and queued again, and then is the reference queue after the script, with a repeating task put back behind all that fire no later. |
| Tasks.TaskManager.Run | m8rscript/TaskManager.cpp:45-120 | Any interleaving of scheduling unqueued tasks, removing and firing, with whatever the firing tasks do, keeps the list sorted and linked, does to it what it does to the reference queue, and fires the tasks in its order. |
| Tasks.SteppedKeeps | m8rscript/TaskManager.cpp:45-120 | Every step keeps the reference queue in the order of fire times, each task at most once. |
| Tasks.BehindIff | m8rscript/TaskManager.cpp:45-87 | A newly scheduled task stands behind a waiting one if and only if it does not fire earlier; with equal times it stands behind. |
| Tasks.AheadFires | m8rscript/TaskManager.cpp:45-120 | Over any run that removes neither, the one of two waiting tasks that stands ahead fires first. |
| Tasks.FirstInFirstOut | m8rscript/TaskManager.cpp:45-120 | A task scheduled while another one is waiting that fires no later, at the same time for instance, fires after it. |
| Tasks.FireTimes | m8rscript/TaskManager.cpp:45-55 | The same fire times in the reference queue, which Run is held against. |
| Tasks.SoonerFires | m8rscript/TaskManager.cpp:45-120 | A task whose delay ends before a waiting one is due fires before it, over any run that removes neither. |
| Tasks.DueAgain | m8rscript/TaskManager.cpp:105-120 | A repeating task that has fired waits again with the delay it was scheduled with, behind all that are due no later. |
| Base64.Lengths | m8rscript/Base64.cpp:96-125 | The length of the encoding is 4 * ceil(n / 3), as in section 4 of RFC 4648. |
| Base64.SameBits | m8rscript/Base64.cpp:103-112 | The four digits of a group hold the 24 bits of its three bytes. |
| Base64.Alphabet | m8rscript/Base64.cpp:46 | The digits are those of table 1 of RFC 4648: capitals, small letters, digits, plus and slash, in this order. |
| Base64.Readable | m8rscript/Base64.cpp:48-65 | The decoding table has the value of each of these digits, and 255 exactly for the characters that are none of them nor the equals sign; which characters are white space. |
| Base64.ByteIn | m8rscript/Base64.cpp:103-112 | The accumulator, although it wraps modulo 2^32, brings out exactly the digits of the groups. |
| Base64.Encode | m8rscript/Base64.cpp:96-125 | Writes the encoding by groups with padding and a terminator, and returns -1 exactly if the buffer is shorter than that. |
| Base64.SextetIn | m8rscript/Base64.cpp:79-85 | The same for bytes out of digits. |
| Base64.Decode | m8rscript/Base64.cpp:68-94 | On any bytes: the bytes of the digits up to the first other character, white space apart, and -1 exactly if they do not fit. |
| Base64.SpaceSkipped | m8rscript/Base64.cpp:76 | White space anywhere makes no difference. |
| Base64.OtherStops | m8rscript/Base64.cpp:77-79 | The equals sign, or any other character outside the alphabet, ends the input. |
| Base64.RoundTrip | m8rscript/Base64.cpp:68-125 | decode(encode(x)) = x for every sequence of bytes. |
| Slip.EscapedByReplacing | esp/esptool.py:83-88 | The two replacements, in this order, are the escaping of RFC 1055 byte by byte. |
| Slip.SentBytes | esp/esptool.py:83-88 | 0xC0 travels as 0xDB 0xDC, 0xDB as 0xDB 0xDD, and every other byte as itself. |
| Slip.Framed | esp/esptool.py:83-88 | A packet travels between two bytes 0xC0 with none in between. |
| Slip.Receives | esp/esptool.py:694-714 | Whatever the reader accepted is what its packets and its state say was sent. |
| Slip.ReadsExactlyWhatWasWritten | esp/esptool.py:679-714 | The reader has yielded some packets and waits for another if and only if exactly these were written to the line. |
| Slip.SlipReader.Take | esp/esptool.py:688-714 | One read of any size advances the reader byte by byte, and fails exactly if it is empty or a byte is invalid. |
| Slip.SlipReader.TakeAll | esp/esptool.py:679-714 | However the bytes of some packets are chunked into reads, exactly these packets are yielded. |
| Firmware.FirmwareImage.SaveV1 | esp/esptool.py:419-425 | The bytes of a version 1 image: header, segments, padding, and the checksum at the end of a block of 16. |
| Firmware.FirmwareImage.SaveV2 | esp/esptool.py:468-488 | The same for version 2, with the irom segment first; fails exactly if not just one segment is irom. |
| Firmware.FirmwareImage.LoadSegment | esp/esptool.py:362-373 | One segment, or failure for one that is out of range or cut short. |
| Firmware.FirmwareImage.LoadFirst | esp/esptool.py:402-417 | What is loaded from any file, and when that fails. |
| Firmware.FirmwareImage.LoadSecond | esp/esptool.py:432-466 | The same for version 2. |
| Firmware.UnpackPacked | esp/esptool.py:365-377 | Little-endian words are unpacked as they were packed. |
| Firmware.LoadAllSaved | esp/esptool.py:362-380 | Saved segments load if and only if all are in range, and then they are the same. |
| FirmwareLayout.V1Bytes | esp/esptool.py:375-425 | Every byte of a version 1 file: 0xE9, the number of segments, flash mode, flash size and frequency, the entry point; for each segment its address, its size and its data, one behind the other; zeros and the checksum up to a multiple of 16. Words have their lowest byte first. |
| FirmwareLayout.V2Bytes | esp/esptool.py:468-488 | The same for version 2: 0xEA, 4, the fields, the irom segment, and then as in version 1. |
| FirmwareLayout.LoadsExactly | esp/esptool.py:362-417 | A saved version 1 image loads if and only if it has at most 16 segments, at addresses from 0x3FFE0000 to 0x40200000 and of at most 65536 bytes. |
| FirmwareLayout.ChecksumBalances | esp/esptool.py:90-95 | The checksum is 0xEF exclusive-or all bytes of data. |
| Firmware.V1RoundTrip | esp/esptool.py:400-425 | A saved version 1 image loads with the same fields, segments and checksum if and only if it has at most 16 segments and all are in range. |
| Firmware.V2RoundTrip | esp/esptool.py:428-488 | The same for version 2, irom segment first and with any address. |
| Codegen.Parser.PushRegister | m8rscript/Parser.cpp:738-747 | Temporaries are taken downwards; minReg remembers the lowest one. |
| Codegen.Parser.Pop | m8rscript/Parser.cpp:749-759 | A popped temporary is the one given out last, and is free again. |
| Codegen.Parser.AddMatchedJump | m8rscript/Parser.cpp:123-137 | Adds a jump without a target, in the deferred code if that is being written. |
| Codegen.Parser.JumpToLabel | m8rscript/Parser.cpp:159-173 | Adds a jump back to a place met before. |
| Codegen.Parser.StartDeferred | m8rscript/Parser.h:116-122 | Starts a block of deferred code on top of the others. |
| Frames.ExecutionUnit.SetLocalFrame | m8rscript/Containers.h:453-461 | The arguments already on the stack become the start of the new frame, which is filled up with null. |
| Frames.ExecutionUnit.GetReg | m8rscript/ExecutionUnit.h:198-205 | Registers are read inside the current frame only. |

## Left out

- UmmHeap.Umm.Malloc: a request whose number of blocks is cut to 0 is not modelled, and breaks the heap (see UmmTheorems.ZeroBlocksBreak and ZeroBlocksFull); other sizes above 524276 give the cut number of blocks.
- UmmHeap.Umm.Realloc: the same.
- UmmHeap.Umm.CopyPayload: data is moved in whole words of the cells, not byte by byte; calloc, poison bytes, the information dump and the critical sections are not modelled.
- UmmCheck.IntegrityCheck: the heap has at most 65535 cells, so that block numbers fit.
- Engine.ParseEngine.FunctionBody: parameters and variables are declared before the body, so their number is fixed when code generation starts; declarations between statements, `return`, nested functions, classes, `delete` and the empty statement are not modelled.
- Engine.ParseEngine.Expression: operands are locals, integer constants and expressions of them, without assignments and increments inside expressions and without the conditional operator; parentheses stand around values, not around the target of an assignment; properties, elements, calls, strings and closures are not modelled.
- Tokens.Supported: leaves out what the code generator does not compile: constant conditions of `if`, `while` and `for` (see Codegen.AimedExact), `for` and `switch` inside the clauses of a switch, because deferred code cannot be started there, and `break` or `continue` out of a switch, because such a jump is not moved with its statement (see Codegen.JumpFromSwitch and Codegen.UnaimedHangs).
- Codegen.JumpFromSwitch: says what becomes of such a jump in any state of the code generator; whole loops around such a switch are not compiled here.
- Codegen.Parser.AddConstant: the number of constants is not limited here; their ids take 8 bits in the source, which is a hypothesis of FunctionBody and Compile.
- Codegen.Parser.AddCode: line number instructions are not emitted.
- Machine.RunStraight: the arithmetic is a parameter, and every theorem holds for any choice of it; values are integers.
- Frames.ExecutionUnit.Return: events, termination, the end of the program and native calls are not modelled, nor is the call of closeUpValues, which is in UpValues.ExecutionUnit.Return. Call records keep the program counter in 23 bits and the parameter count in 8 bits in the source; here they are unbounded.
- Frames.ExecutionUnit.Run: a run is a tree of balanced calls, with the instructions that push, pop, move and call; the instructions are not fetched from the code of a function.
- UpValues.ExecutionUnit.NewUpValue: references to upvalues are indices into all that were made so far; collecting unused ones is not modelled.
- Float64.Divide: division of a large number by zero is undefined in the source.
- Regex.Bar: groups, sets and alternatives are not modelled, nor is the filling of captures.
- Tasks.TaskManager.RunTask: the clock does not wrap around; posting an event is counted, and the platforms' reactions to it are not modelled.
- Tasks.TaskManager.Run: steps that make the list run into a ring are excluded; RunTask and FireEvent say exactly which.
- Atoms.AtomTable.AtomizeString: the second, identical search of the source and the table of predefined atoms are not modelled.
- Atoms.AtomTable.FindAtom: strings are not empty, as those that are looked up.
- Base64.Decode: characters are unsigned, as the table of 256 entries needs; where they are signed, those above 127 would index before it. The branch behind the loop never runs and is not modelled.
- Slip.SlipReader.Take: a read that times out is an empty read; what the error messages say is not modelled.
- Firmware.FirmwareImage.SaveV1: only appending to a new file is modelled; warnings about differing headers are not.
- Garbage collection, the scanner, properties and objects, JSON, sockets, GPIO, the file system, the shell and the user interfaces.
