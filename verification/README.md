# uc80: a verified model

uc80 is a C compiler for the Z80, with an emulator and a random-program tester beside it. This project
models the parts of it that replace something simple by something clever, and proves that the two agree.
`dafny verify dfyconfig.toml` checks everything.

- **AST passes.** `CLang` is a small C: expressions with effects, structured statements, `goto`, labels,
  `switch`, and an interpreter with fuel over an arbitrary `World` of operators, conversions, calls and
  volatile accesses. `Frames` says what evaluation depends on. `DeadLocals`, `Overwrites` and `DeadStore`
  are the dead-store pass, and `DeadExact` says exactly what it finds; `AddrShare`, `ShareRuns` and
  `ShareApply` share an address over runs of statements; `CountedLoops` and `MemoryCounters` fold and
  unroll counted loops. Each pass keeps every run: the same end, memory and trace of effects.
- **Integer arithmetic.** `CInt` has the integer types, conversion, and bitwise operators on unbounded
  integers, and `IntFacts` says what these operators are. `Interval` and `IntervalProof` are the tester's
  interval analysis, `IntervalMeans` the meaning of the expressions it builds, `Fold` and `FoldMeans` the
  typed constant folder for every choice of the integer sizes, and `Narrow` the computation of an index
  in 16 bits.
- **Generated Z80 code.** `Z80` gives the instructions that the generators use, with flags, sizes,
  T-states and the log of data accesses, as a step machine and as a function on straight code; `Cpu` is
  the emulator that changes its registers in place. `BlockOps` proves the copies and fills, and
  `WorkArea` the save and restore text of an interrupt function, for every size.
- **Graphs.** `Reach` is the search for what an interrupt function reaches, and `AsmDce` dead code
  elimination over blocks of assembly text.
- **Parser and printer.** `AsmExpr` has the lexer, the precedence-climbing parser and the printer of
  assembler expressions in two dialects, down to the characters, and `AsmNot` what MACRO-80 text gives
  back. `AsmLevels` says how operators group, `AsmWords` how numbers and words may be spelled, and
  `AsmFold` what folding computes.
- **State machines.** `Terminal` is a terminal that reads bytes (ECMA-48), and `TinyCurses` the shadow
  screen that drives it. `Events` is the emulator's event queue with the timers of the sound chip.

Code that changes state in the source is a class or a method with loops here, proved against a
specification function or predicate; the lemmas are about that specification.

Where the code does not do what its description says, the model follows the code:

- the folder returns `x` alone for `(x + c) - c` and can so change the type (`Fold.NestedAlone` says
  exactly when, `Fold.AloneLosesType` gives an input);
- the unroller does not check that its counter type holds the last value (`CountedLoops.UnrollSame` and
  `CountedLoops.UnrollNeedsExact` give the exact condition, `CountedLoops.NarrowCounter` an endless loop
  whose copies end), nor that no store of the body meets a global counter
  (`MemoryCounters.UnrollCell`, `MemoryCounters.StepExact` and `MemoryCounters.StoreMeetsCounter`);
- the printers drop parentheses that LOW under LOW, HIGH under HIGH, and NOT before a tight operator
  need (`AsmExpr.SdasReadable` and `AsmNot.M80Readable` say exactly which trees come back,
  `AsmExpr.DoubleLost` and `AsmNot.ProductLost` are trees that do not);
- a cell that is not a graphic character, which only a box can put on the screen, is sent as it is:
  `TinyCurses.Screen.Refresh` shows the screen on every device if and only if every cell that it sends
  is graphic, and `TinyCurses.Screen.BoxThenRefresh` says which boxes meet this (`TinyCurses.BoxNotShown`
  is one that does not).

## Model

| member | source | states |
|---|---|---|
| Frames.PureEval | src/uc80/deadstore.py:158-176 | evaluating an expression that `pure` accepts changes no state and causes no event |
| DeadLocals.SimplifySame | src/uc80/deadstore.py:301-327 | a discarded expression and what `simplify` leaves of it have the same effects outside the dead names, so impure right sides stay |
| DeadLocals.StmtSame | src/uc80/deadstore.py:347-404 | a statement and what `stmt`, `decl` and `stmts` make of it end alike and leave equal states outside the dead names, entered at its start or at any label |
| DeadLocals.BodySame | src/uc80/deadstore.py:329-404 | for every start, fuel and set of names whose counted reads are zero, the rewritten body ends alike with the same memory, effects and values outside that set, through gotos and labels |
| DeadLocals.NamesGoneIn | src/uc80/deadstore.py:406-417 | no dead name is left in the rewritten tree, so `mentions` finds nothing |
| Overwrites.KillSame | src/uc80/deadstore.py:457-467 | when `kill` accepts, the rest of the list run with and without the store meets the overwrite, or leaves the function, before any read |
| Overwrites.OverListSame | src/uc80/deadstore.py:483-538 | one list and its rewriting end alike with equal memory and effects, whatever the enclosing statements do with labels and gotos |
| Overwrites.OverBodySame | src/uc80/deadstore.py:461-550 | removing stores and initializers that a later store overwrites changes no run of the function |
| DeadExact.PureExact | src/uc80/deadstore.py:158-176 | an expression is pure if and only if no node of it, however deep, stores, calls or touches something volatile |
| DeadExact.DiscardedReads | src/uc80/deadstore.py:264-297 | a discarded expression reads a candidate if and only if an operand of its commas is no store to it alone and mentions it; `++`, `--` and stores whose right side goes too are no reads |
| DeadExact.ReadsListExact | src/uc80/deadstore.py:211-297 | a candidate counts as read in a body if and only if the rewriting for it alone would leave an occurrence, or a declaration holds it |
| DeadExact.KillExact | src/uc80/deadstore.py:457-467 | a store is judged overwritten if and only if some later item of its list sets the name first, and no item before it mentions the name, jumps or is a target |
| DeadExact.OverNothingLeft | src/uc80/deadstore.py:480-540 | the rewriting leaves a body as it is if and only if no store and no initializer of a candidate is overwritten in any list of it |
| DeadStore.DeclaredAll | src/uc80/deadstore.py:178-209 | the declarations of a function are those of all its statements, however deep, the start of a `for` included |
| DeadStore.Pass.FindCandidates | src/uc80/deadstore.py:178-209 | the candidates are exactly the declared names and parameters that no address operator, other file or second declaration rules out |
| DeadStore.Pass.Count | src/uc80/deadstore.py:211-262 | a candidate's counted reads are zero if and only if the recursive definition of its reads does not contain it |
| DeadStore.Pass.KillAt | src/uc80/deadstore.py:457-467 | the scan of the items after a store decides `Kill` |
| DeadStore.Pass.OverwriteItem | src/uc80/deadstore.py:483-538 | one item of a list is rewritten as `OverList` rewrites it |
| DeadStore.Pass.Overwritten | src/uc80/deadstore.py:483-538 | the loop over a list computes `OverList` of it and says whether it changed |
| DeadStore.Pass.RunPass | src/uc80/deadstore.py:552-586 | the whole pass, at most 20 rounds from exactly the candidates: every run of the function shows the same end, memory and effects in every world that gives the candidates no address, and when it stops early every candidate left has an occurrence that its rewriting would keep or a declaration that holds it, and no store is overwritten |
| AddrShare.IntSound | src/uc80/addrcse.py:533-600 | an index that `pure_int` accepts has no effect, and its value is the value of its key |
| AddrShare.PureIntExact | src/uc80/addrcse.py:533-600 | an index has a key if and only if each of its integer nodes is a number, a variable that may be read, an operator that keeps congruence, a cast to an integer type, or an element of a named array |
| AddrShare.BaseSound | src/uc80/addrcse.py:602-646 | a base that `pure_base` accepts has no effect, and its address is that of its key |
| AddrShare.KeyFrame | src/uc80/addrcse.py:112-203 | the address of a key is the same in two states that agree on its leaf variables and its memory roots |
| AddrShare.OccurrenceSame | src/uc80/addrcse.py:678-741 | an occurrence and the access through the shared pointer denote the same element, with no effect |
| AddrShare.OccursNear | src/uc80/addrcse.py:691-707 | with `a[c]` also `a[c + k]`, `a[k + c]` and `a[c - k]` are occurrences of the key at their distances, exactly for k from -100 to 100 |
| ShareRuns.StoreSafe | src/uc80/addrcse.py:187-197 | a store that `note_store` allows inside a run writes no leaf variable and no memory root of the key |
| ShareRuns.UseSame | src/uc80/addrcse.py:951-1000 | an item of a run and its rewriting have the same value and effects while the pointer holds the address |
| ShareRuns.CutSame | src/uc80/addrcse.py:951-1000 | a block with the pointer computed once before its run ends as the original block does, on every path, also when a jump enters another part |
| ShareRuns.ShareBodySame | src/uc80/addrcse.py:951-1004 | sharing an address over one run of one block changes no run of the function: same end, memory and effects |
| ShareRuns.RunsOf | src/uc80/addrcse.py:782-835 | the runs cover the good occurrences in order, no run has a bad item from its first to its last member, and a run ends only before a bad item or at the end |
| ShareRuns.RunIsCut | src/uc80/addrcse.py:782-1000 | a run that `RunsOf` finds meets what `ShareBodySame` needs: no bad item between its ends |
| ShareApply.AllRunsSame | src/uc80/addrcse.py:782-1004 | a key shared over all its runs of a block, one cut after the other, anywhere in a function: same end, memory and effects for every start |
| ShareApply.RunsOrdered | src/uc80/addrcse.py:782-835 | the runs that `RunsOf` returns can all be cut out: each is a run still when those after it have been |
| ShareApply.CutOutIsCut | src/uc80/addrcse.py:951-1004 | the edited block, with the declaration in front and every occurrence replaced, is one that `ShareBodySame` is about |
| ShareApply.ApplyAll | src/uc80/addrcse.py:951-1004 | inserting the declarations and replacing the occurrences, run by run, gives the block of `AllRunsSame` |
| CountedLoops.MoreFuel | src/uc80/ast_opt.py:338-464 | a run that ends does the same with more fuel (the interpreter is deterministic in its loops) |
| CountedLoops.PassesCount | src/uc80/ast_opt.py:319-331 | the number of passes computed from the bounds is the first one whose condition fails, for `<`, `<=` and `!=` |
| CountedLoops.UnrollWhen | src/uc80/ast_opt.py:404-420 | a loop is unrolled if and only if its condition first fails after one to four passes and its body is plain |
| CountedLoops.CounterIs | src/uc80/ast_opt.py:319-331 | the counter of a narrow type is the exact value converted, after any number of updates |
| CountedLoops.EmptyLoop | src/uc80/ast_opt.py:232-334 | an empty counted loop ends after exactly the passes counted, and leaves the value of the folded assignment, for every counter of at least 16 bits, in a register or in memory; with less fuel it has not ended |
| CountedLoops.CopyExec | src/uc80/ast_opt.py:164-183 | a copy of the body with the counter replaced by its value ends as the body does, with equal states but for the counter |
| CountedLoops.FitsExact | src/uc80/ast_opt.py:338-464 | a counter type that holds the value after the loop takes the literal's value on each pass and ends the loop |
| CountedLoops.UnrollSame | src/uc80/ast_opt.py:338-464 | when the counter is exact, the loop and its copies with the final assignment end alike with the same state, or neither ends |
| CountedLoops.UnrollNeedsExact | src/uc80/ast_opt.py:338-464 | the condition is needed: with a body that shows its counter, a loop that ends and shows what the copies show has an exact counter |
| CountedLoops.NarrowCounter | src/uc80/ast_opt.py:388-464 | `for (uc = 0; uc < 256; uc += 64)` is counted as four passes and meets every condition of unrolling but perhaps its cost, and the copies end; with an unsigned char counter no plain body without a return ever leaves the loop, for any fuel |
| MemoryCounters.UnrollCell | src/uc80/ast_opt.py:338-464 | a counter anywhere, a global one too: when the counter is exact and each pass that ends leaves its value in its cell, the loop and the copies that assign it end in the same state, or neither ends |
| MemoryCounters.StepExact | src/uc80/ast_opt.py:388-464 | the condition is exact at each pass: after a pass the loop and the copies go on from one state if and only if the pass left the counter its value |
| MemoryCounters.StoreMeetsCounter | src/uc80/ast_opt.py:388-464 | `for (i = 0; i < 2; i++) *p = 0;` with p at the global counter i meets every condition of unrolling but perhaps its cost; the copies end, and the loop never does |
| IntervalProof.BinSound | bench/difftest.py:197-241 | no operator on operands inside their intervals is undefined when the analysis says safe, and its result lies in the computed interval and in its type |
| IntervalProof.UnarySound | bench/difftest.py:387-433 | the same for unary operators |
| IntervalProof.SafeBinary | bench/difftest.py:444-525 | a binary node that the analysis calls safe evaluates, inside its interval, in every well-typed store |
| IntervalProof.CondSound | bench/difftest.py:545-561 | a conditional lies in the hull of its two branches |
| IntervalProof.CastSound | bench/difftest.py:563-575 | a cast lies in the converted interval |
| IntervalProof.OddSound | bench/difftest.py:1418-1433 | the odd guard keeps a value and makes it not zero, and not the least of its type where it says so |
| IntervalProof.MakeUnarySound | bench/difftest.py:1401-1406 | what `mk_un` builds from sound operands is sound and safe |
| IntervalProof.MakeShiftSound | bench/difftest.py:1408-1417 | a shift that `mk_bin` builds has its count inside the width and no undefined left operand |
| IntervalProof.MakeDivSound | bench/difftest.py:1418-1434 | a division or remainder that `mk_bin` builds never divides by zero and never divides the least value by -1 |
| IntervalProof.MakeBinarySound | bench/difftest.py:1408-1439 | what `mk_bin` builds from sound operands is sound and safe, for every operator and pair of types |
| IntervalProof.BuildSound | bench/difftest.py:1401-1439 | every tree built with the generator's constructors evaluates without undefined behaviour in every well-typed store, and the value lies in its interval |
| IntFacts.DivisionIs | bench/difftest.py:197-241 | the quotient truncates toward 0: a pair is quotient and remainder if and only if the remainder is smaller than the divisor and has the sign of the dividend |
| IntFacts.BitsAre | bench/difftest.py:197-241 | and, or, exclusive or and complement, bit by bit, on two's complement integers of any width |
| IntFacts.ShiftsAre | bench/difftest.py:197-241 | a shift to the left is a product by a power of 2, a shift to the right the quotient rounded down |
| IntervalMeans.SumMeans | bench/difftest.py:1435-1439 | a built sum, difference or product has the exact result, converted to the common type, whether it is computed as unsigned or not |
| IntervalMeans.ShiftMeans | bench/difftest.py:1411-1417 | a built shift computes the shift by its count, which is the value of `b` whenever the analysis bounds it, and its low bits otherwise |
| IntervalMeans.DivMeans | bench/difftest.py:1418-1434 | a built division has the quotient or the remainder of its operands, each as it is unless its guard was needed |
| IntervalMeans.BinMeans | bench/difftest.py:1408-1439 | where C defines the operator on the values of the operands and no guard of a division is needed, the built tree has that value and that type, for every operator |
| IntervalMeans.UnaryMeans | bench/difftest.py:1401-1406 | the same for unary operators, and a negation has the exact result, converted |
| IntervalMeans.GuardsNeeded | bench/difftest.py:1418-1434 | a guard is put on a division only where some values inside the intervals of its operands are undefined |
| IntervalMeans.BuildMeans | bench/difftest.py:1401-1439 | a whole generated tree has the type of the choices it was made from and, where C gives them a value without guards, that value |
| IntervalMeans.ComparisonMeans | bench/difftest.py:1435-1439 | a built comparison is 1 exactly when it holds of the converted values, and 0 otherwise |
| IntervalMeans.ExactIs | bench/difftest.py:197-241 | the quotient and remainder that C defines are the one pair that truncates, and the bitwise operators go bit by bit |
| IntervalMeans.NotMeans | bench/difftest.py:387-433 | `!` is 1 exactly for 0, and `~` complements each bit |
| IntervalMeans.LogicMeans | bench/difftest.py:1394-1399 | a logical and is 1 exactly when both operands, and a logical or when one of them, are not 0 |
| Fold.LiteralTypeIsFirst | src/uc80/ast_opt.py:597-613 | a literal gets the first type of its row in the table of section 6.4.4.1 of ISO/IEC 9899:2011 that holds its value |
| Fold.MintRead | src/uc80/ast_opt.py:622-630 | reading a minted literal in range gives its rank, its signedness and its value back |
| Fold.CommonIsC | src/uc80/ast_opt.py:632-643 | the common type is that of the usual arithmetic conversions of section 6.3.1.8 of ISO/IEC 9899:2011, for every choice of the sizes |
| Fold.CommonAssoc | src/uc80/ast_opt.py:632-643 | the common type is an associative join over constants of one rank |
| Fold.FoldIsC | src/uc80/ast_opt.py:645-674 | whenever C defines the operation, the folded literal has the type and the value that C gives |
| Fold.FoldNoneIsUndefined | src/uc80/ast_opt.py:645-674 | the folder leaves an operation only when C leaves it undefined |
| FoldMeans.SumIs | src/uc80/ast_opt.py:645-674 | the folded sum, difference and product are exact before the type reduces them |
| FoldMeans.QuotientIs | src/uc80/ast_opt.py:664-670 | folded quotient and remainder are the one pair that truncates, and none exists exactly for the divisor 0 |
| FoldMeans.BitsResult | src/uc80/ast_opt.py:672-674 | the folded bitwise operators, bit by bit |
| FoldMeans.ComparisonIs | src/uc80/ast_opt.py:660-663 | a folded comparison is 1 exactly when it holds |
| FoldMeans.Ranges | src/uc80/ast_opt.py:592-595 | the values of the six types when `int`, `long` and `long long` have 2, 4 and 8 bytes |
| FoldMeans.LiteralElse | src/uc80/ast_opt.py:597-613 | a literal that no type of its row holds is reduced to the largest unsigned type |
| Fold.FoldUnaryIsC | src/uc80/ast_opt.py:694-704 | a folded unary operator keeps the type of its operand and has the exact or the reduced value |
| FoldMeans.SignIs | src/uc80/ast_opt.py:694-704 | a folded minus plus its operand is 0, before the type reduces it, and a plus changes nothing |
| Fold.NestedReplaced | src/uc80/ast_opt.py:721-761 | `x op3 c3` has the type and the value of `(x op c1) op2 c2`, for every integer type and value of x |
| Fold.NestedAlone | src/uc80/ast_opt.py:759-760 | `x` alone keeps the value if and only if the common type of promoted x and the constants holds it, and the type too if and only if x, of whatever width, has that common type |
| Fold.AloneLosesType | src/uc80/ast_opt.py:759-760 | `(i + 1u) - 1u` becomes `i`, which is not unsigned |
| Narrow.ConstExact | src/uc80/narrow.py:206-210 | the constant that the pass finds is the value of the expression, and evaluates no leaf |
| Narrow.LeafNarrows | src/uc80/narrow.py:236-249 | a leaf is evaluated once and becomes its value modulo 65536, as unsigned |
| Narrow.NarrowSame | src/uc80/narrow.py:212-234 | the narrowed expression is unsigned, evaluates the same leaves in the same order, and is congruent to the original modulo 65536, through + - * & | ^, shifts by 0 to 15, unary - + ~ and casts of at least 16 bits |
| Narrow.GivesUp | src/uc80/narrow.py:206-249 | an index is given up if and only if a subexpression that narrowing keeps whole is no integer of at most 32 bits |
| Narrow.OpsAre | src/uc80/narrow.py:206-234 | the operators of the constant finder: sums and products exact, the others bit by bit |
| Narrow.AddressSame | src/uc80/narrow.py:163-179 | the address of the element does not change |
| Z80.LdirSteps | bench/romrun/z80.py:503-546 | repeating the LDIR opcode until BC is 0 does as many transfers as BC says, 0 standing for 65536 |
| Z80.StraightSteps | bench/romrun/z80.py:720-743 | the step machine that runs a straight piece of code inside a program ends after it in the state that the code computes |
| Z80.TransferRegs | bench/romrun/z80.py:503-512 | one transfer of LDI or LDIR moves a byte, adds 1 to HL and DE and takes 1 from BC, modulo 65536 |
| Z80.TransferFlags | bench/romrun/z80.py:503-512 | after a transfer P tells whether BC was not 1, Y and X are bits 1 and 3 of A plus the byte, and S, Z and C stay |
| Z80.DecMeans | bench/romrun/z80.py:103-105 | DEC C sets S, Z, P and H to sign, zero, signed overflow and borrow of the decrement, and keeps C |
| Z80.XorMeans | bench/romrun/z80.py:93-94 | XOR A gives 0 with the zero and parity flags alone |
| Z80.AddMeans | bench/romrun/z80.py:217-227 | ADD HL,SP: the sum exceeds the result by 65536 times the carry, H is the carry into bit 12, and S, Z and P stay |
| Z80.FlagsRound | bench/romrun/z80.py:40-60 | PUSH AF and POP AF: the flags are the bits of one byte, from S down to C, and come back from it |
| Cpu.Cpu.Step | bench/romrun/z80.py:720-743 | the emulator that changes its registers in place does one step of the machine, for every instruction used |
| Cpu.Cpu.Run | bench/romrun/z80.py:720-743 | a run of at most n instructions is n steps of the machine |
| BlockOps.CopyExact | src/uc80/blockops.py:328-336 | a forward copy whose destination does not start inside its source copies every byte and changes no other |
| BlockOps.CopyRuns | src/uc80/blockops.py:328-336 | the unrolled and the LDIR form of a copy of 1 to 65535 bytes leave the same memory, with the exact T-states of each |
| BlockOps.FillExact | src/uc80/blockops.py:342-389 | for every size from 1 to 65535, limit of unrolling, constant or register address and value, the fill sets exactly its bytes and nothing else, in exactly the stated T-states |
| BlockOps.LdirNotEmpty | src/uc80/blockops.py:342-389 | LDIR is the last instruction of a fill above the limit of unrolling only, and BC is then size - 1, never 0 |
| BlockOps.LongLoopRuns | src/uc80/blockops.py:415-426 | the loop on C and B stores exactly 256 * (B - 1) + C bytes, with 0 read as 256, and takes 29 T-states a byte and 8 more for each round of B, less 5 |
| BlockOps.CountersRun | src/uc80/blockops.py:408-426 | the loaded counters give exactly n rounds up to 65535, also when the loaded 256 is truncated to 0 |
| BlockOps.DevExact | src/uc80/blockops.py:391-426 | a device fill makes exactly n stores at ascending addresses and no other data access, in exactly the stated T-states, for every n from 1 to 65535 |
| BlockOps.Emitter.Copy | src/uc80/blockops.py:328-336 | the emitted lines are those that CopyRuns is about |
| BlockOps.Emitter.Fill | src/uc80/blockops.py:342-389 | the emitted lines are those that FillExact is about |
| BlockOps.Emitter.FillDevice | src/uc80/blockops.py:391-426 | the emitted lines are those that DevExact is about |
| WorkArea.PieceUndone | src/uc80/isr_check.py:573-612 | the restore text of a word, a byte or an LDIR area undoes its save text, given back the stack pointer and the saved stack bytes, with exact T-states |
| WorkArea.AllUndone | src/uc80/isr_check.py:594-614 | the same for a sequence of pieces, restored in the reverse order |
| WorkArea.SaveRestore | src/uc80/isr_check.py:573-614 | for every plan apart from the stack bytes it uses: after save, any code that gives SP back and keeps the saved bytes, and restore, SP and every area byte are as before, and no other byte changed in the restore |
| WorkArea.WordArea | src/uc80/isr_check.py:573-588 | the lines of an area of up to six bytes are the words and the odd byte in order, and the restore in reverse |
| WorkArea.Code | src/uc80/isr_check.py:594-614 | the text of a plan is the text of its pieces |
| WorkArea.Cost | src/uc80/isr_check.py:662-679 | the accumulated pair is the sum over the plan of the cost formula |
| WorkArea.CostExact | src/uc80/isr_check.py:662-679 | the cost is exact for every plan, from any states: the bytes of both texts, and the T-states that executing them takes |
| Reach.Function | src/uc80/isr_check.py:295-305 | the loop over aliases decides whether a label stands for code and is not local |
| Reach.FunctionExact | src/uc80/isr_check.py:295-305 | a label is a function if and only if falling through regions without code comes to code, however the aliases loop, and it is not one of the compiler's own |
| Reach.Pass | src/uc80/isr_check.py:315-341 | one search with fixed taken functions gives a tree of edges with breadth-first distances, expands all it finds, and collects exactly the functions that the found regions take |
| Reach.Reach | src/uc80/isr_check.py:308-343 | the search ends, and its result is the least set with the start, closed under references and falling through and, with an indirect call inside, with the initially taken functions and those whose address a reached library region or unit takes |
| Reach.Chain | src/uc80/isr_check.py:346-351 | the chain of parents is a path from the start, and no path is shorter |
| AsmDce.EndsWithTerminator | src/uc80/asm_dce.py:567-609 | the backward scan finds whether the last line of code leaves the block, and never so in a block with inline assembly |
| AsmDce.EndsExact | src/uc80/asm_dce.py:567-609 | a block ends with a terminator if and only if it is not hand-written inside a function and its last instruction, before comments alone, returns or jumps |
| AsmDce.AssemblyDCE.Explore | src/uc80/asm_dce.py:540-565 | the worklist keeps what is found inside every closed set and leaves it closed under jumps and falling through |
| AsmDce.AssemblyDCE.FindReachable | src/uc80/asm_dce.py:516-538 | the kept blocks are the least set with the entries and the file-scope assembly that is closed under jumps, falling through and whole groups |
| AsmDce.AssemblyDCE.FindReferencedData | src/uc80/asm_dce.py:402-454 | the kept data is the least set with what the kept code names, the public data unless entries are given, and the kept labels, closed under what data names |
| AsmDce.NextKept | src/uc80/asm_dce.py:611-620 | in the rebuilt order a kept block is directly followed by its old successor when that is kept |
| AsmDce.AssemblyDCE.Rebuild | src/uc80/asm_dce.py:668-671 | the kept blocks stay in the order of the source |
| AsmDce.RunsSame | src/uc80/asm_dce.py:516-671 | the block-level runs from an entry, with calls and returns, are the same before and after |
| AsmDce.LineRunsSame | src/uc80/asm_dce.py:516-671 | line by line, with jumps, calls, conditional returns and falling off the end of a block, every run from an entry is the same before and after |
| AsmExpr.Tokens | src/uc80/asmexpr.py:98-124 | the loop over the text computes the recursive lexer |
| AsmExpr.Parser.ClimbLoop | src/uc80/asmexpr.py:164-172 | the parser that advances an index computes the recursive definition of precedence climbing |
| AsmExpr.Parser.Operand | src/uc80/asmexpr.py:174-231 | the same for operands |
| AsmExpr.NumberRead | src/uc80/asmexpr.py:77-96 | reading a printed number gives its value and base 16 or 10, in both dialects |
| AsmExpr.TextReads | src/uc80/asmexpr.py:313-408 | the text of a tree followed by an operator, a parenthesis or the end lexes into the tokens of the tree, character by character |
| AsmExpr.ExprReads | src/uc80/asmexpr.py:164-172 | the tokens of a tree climb back to the tree, with the parentheses the printer leaves out, before any operator that does not bind tighter |
| AsmExpr.PrintParse | src/uc80/asmexpr.py:332-408 | print, then parse: the tree comes back up to the spelling of its literals, for both dialects |
| AsmExpr.SdasReadable | src/uc80/asmexpr.py:332-370 | in sdas this holds if and only if no LOW stands directly under LOW and no HIGH under HIGH |
| AsmNot.M80Readable | src/uc80/asmexpr.py:373-408 | in MACRO-80 a printable tree comes back if and only if no operator that binds tighter than NOT follows, unparenthesized, the operand of a NOT anywhere in it |
| AsmExpr.DoubleLost | src/uc80/asmexpr.py:332-370 | in sdas LOW of LOW of a symbol does not come back |
| AsmNot.ProductLost | src/uc80/asmexpr.py:373-408 | in MACRO-80 the complement of a symbol times 2 does not come back |
| AsmNot.ExprTokens | src/uc80/asmexpr.py:164-231 | the parser on the tokens of an unparenthesized expression with operators after it reads exactly what the reader of operands and operators reads |
| AsmExpr.NormFolds | src/uc80/asmexpr.py:245-289 | the tree that comes back folds to the same value |
| AsmExpr.TextFolds | src/uc80/asmexpr.py:245-408 | a text means in its dialect what the tree means |
| AsmFold.LeafFolds | src/uc80/asmexpr.py:245-262 | the text of a number, a character or a symbol with a value folds to that number, code or value |
| AsmFold.UnaryFolds | src/uc80/asmexpr.py:245-289 | a negation plus its operand is 0, NOT plus its operand is 0xFFFF modulo 65536, and 256 times HIGH plus LOW is the value modulo 65536 |
| AsmFold.SumFolds | src/uc80/asmexpr.py:264-271 | a value is the fold of a difference if and only if it and the fold of the right operand add up to the left; a product is the left operand added up |
| AsmFold.DivisionFolds | src/uc80/asmexpr.py:272-289 | quotient and MOD fold to the one pair that truncated division gives, and are an error exactly for the divisor 0 |
| AsmFold.ShiftFolds | src/uc80/asmexpr.py:245-289 | SHL is that many doublings and SHR that many halvings of the value modulo 65536; a negative count is an error |
| AsmFold.BitsFold | src/uc80/asmexpr.py:245-289 | AND, OR and XOR bit by bit |
| AsmFold.RelationFolds | src/uc80/asmexpr.py:245-289 | a relation folds to 0xFFFF exactly when it holds, and to 0 otherwise |
| AsmFold.ValueKnown | src/uc80/asmexpr.py:245-289 | folding fails exactly when some division by 0 or negative shift is in the tree, and is otherwise without a value exactly when the tree has the location counter or a symbol without a value |
| AsmLevels.Grouped | src/uc80/asmexpr.py:130-172 | a tree written with parentheses only where the operator levels of its dialect ask for them is read as that tree: levels group, and operators of one level group from the left |
| AsmWords.NumberSpelled | src/uc80/asmexpr.py:77-96 | a number in any spelling of its dialect, in base 2, 8, 10 or 16, is read as the value of its digits |
| AsmWords.RelationRead | src/uc80/asmexpr.py:56-59 | the word of a relation in any case is the operator in MACRO-80 and a symbol in sdas |
| AsmWords.EscapeRead | src/uc80/asmexpr.py:199-204 | an escape in a character of sdas is its control character, or the character itself |
| AsmWords.SymbolRead | src/uc80/asmexpr.py:61-75 | a text of the symbol characters of a dialect that is no word is one symbol |
| AsmWords.NumberedLabel | src/uc80/asmexpr.py:62-73 | digits before a dollar sign are one symbol of sdas |
| AsmWords.OperatorRead | src/uc80/asmexpr.py:65-75 | each operator character of a dialect alone is that operator |
| AsmWords.NothingElse | src/uc80/asmexpr.py:104-106 | a text that starts with any other character is refused |
| AsmWords.StringRead | src/uc80/asmexpr.py:192-198 | a string of MACRO-80 in either quote is read with its doubled quotes halved |
| TinyCurses.Screen.PutNumber | bench/support/tinycurses.c:29-44 | the digits sent are read back by the terminal as the number, and the buffer of six is never overrun |
| TinyCurses.Screen.GoTo | bench/support/tinycurses.c:47-57 | the terminal's cursor is at the position asked for (section 8.3.21 of ECMA-48) |
| TinyCurses.Screen.SetStandout | bench/support/tinycurses.c:59-66 | the terminal's standout is as asked for (section 8.3.117 of ECMA-48) |
| TinyCurses.Screen.Refresh | bench/support/tinycurses.c:289-328 | when every cell that is sent is a graphic character the terminal shows exactly the virtual screen, without standout, with its cursor at the window cursor, and as many characters were drawn as cells differed; when one is not, a device that draws nothing of its own does not show it; nothing is sent when the terminal was already right |
| TinyCurses.Screen.InitScreen | bench/support/tinycurses.c:73-87 | a blank screen, the standard window alone in use, and a repaint due |
| TinyCurses.Screen.EndScreen | bench/support/tinycurses.c:89-97 | whatever the newline does to the terminal, a repaint is due |
| TinyCurses.Screen.NewWindow | bench/support/tinycurses.c:99-125 | a window if and only if it lies on the screen and one is free, with sizes to the edge for 0 or less |
| TinyCurses.Screen.DeleteWindow | bench/support/tinycurses.c:127-133 | only the given window is released, and never the standard one |
| TinyCurses.Screen.MoveCursor | bench/support/tinycurses.c:135-142 | the cursor moves if and only if the position is in the window |
| TinyCurses.Screen.ClearToEnd | bench/support/tinycurses.c:144-151 | exactly the rest of the line is blank |
| TinyCurses.Screen.ClearToBottom | bench/support/tinycurses.c:153-162 | exactly the rest of the window from the cursor is blank |
| TinyCurses.Screen.Erase | bench/support/tinycurses.c:164-173 | exactly the window is blank, and its cursor at the top left |
| TinyCurses.Screen.Clear | bench/support/tinycurses.c:176-181 | the same, and a repaint is due |
| TinyCurses.Screen.AddCh | bench/support/tinycurses.c:183-231 | one character does what the specification of a character does to the screen and the window, with its result, inside bounds |
| TinyCurses.Screen.AddStr | bench/support/tinycurses.c:233-241 | a string is its characters up to the first that reports the end |
| TinyCurses.Screen.Box | bench/support/tinycurses.c:403-424 | the border cells get the sides, bars and corners, and no other cell changes; when each character that the window has room for is graphic, only graphic characters come to the screen, and otherwise one that is not stands on it |
| TinyCurses.Screen.BoxThenRefresh | bench/support/tinycurses.c:289-424 | a box and a refresh: the terminal shows the screen if the box has graphic characters alone where it has cells, and with another character some device does not |
| TinyCurses.BoxNotShown | bench/support/tinycurses.c:289-424 | a new screen, a box with sides of character 1 around it, which is then on the virtual screen, and a refresh: a device that draws nothing of its own does not show it |
| TinyCurses.Screen.GetCh | bench/support/tinycurses.c:330-344 | a refresh before the key and after its echo: when what is to be sent can be drawn the terminal shows the screen, with the echo |
| TinyCurses.ReadBack | bench/support/tinycurses.c:395-400 | what is read at a cell where a character was added is that character with its standout bit, and nothing else |
| TinyCurses.PutBack | bench/support/tinycurses.c:183-231 | outside standout mode, adding a character leaves the cell at the cursor as it is if and only if it is what is read there |
| TinyCurses.TextFlows | bench/support/tinycurses.c:218-240 | text with room for it goes to the cells from the cursor on, line after line inside the window, and nothing else changes |
| TinyCurses.RoomCount | bench/support/tinycurses.c:222-229 | there is room up to the last cell of the window, counted over its lines |
| TinyCurses.LastCell | bench/support/tinycurses.c:222-226 | at the last cell a character is drawn, the end is reported and the cursor stays |
| TinyCurses.MovedAt | bench/support/tinycurses.c:218-230 | on the lines of the window laid end to end the cursor moves one cell for each character |
| TinyCurses.NewlineFlows | bench/support/tinycurses.c:191-240 | text, a newline and more text with room: the first text flows from the cursor, the rest of its last line is blank, the second flows from the next line, at column 0 with nl() and in the same column otherwise, and nothing else changes |
| TinyCurses.LastLine | bench/support/tinycurses.c:191-240 | a newline on the last line blanks its rest, reports the end and leaves the cursor, and what follows is not added |
| TinyCurses.ReturnFlows | bench/support/tinycurses.c:200-203 | after a carriage return, which changes no cell, text flows from column 0 of the line |
| TinyCurses.BackOver | bench/support/tinycurses.c:204-208 | character, backspace, character leaves the second character where the first stood |
| TinyCurses.NoTrace | bench/support/tinycurses.c:204-219 | a backspace at column 0 and every other control character leave no trace in a text |
| TinyCurses.TabColumn | bench/support/tinycurses.c:208-216 | a tab that stays on its line moves to the next multiple of 8 |
| TinyCurses.StringInWindow | bench/support/tinycurses.c:183-241 | whatever the text, only cells of the window change, and the window keeps its place |
| TinyCurses.Screen.Run | bench/support/tinycurses.c:73-430 | in every sequence of calls whose box characters can be drawn, after every refresh the terminal shows the virtual screen |
| Terminal.NotDrawn | bench/support/tinycurses.c:317-317 | on a device that draws nothing of its own, no sequence of bytes brings into a cell what is not a graphic character |
| Events.Machine.AddAt | bench/romrun/machine.py:334-347 | an interrupt is queued in order of time and arrival, and its counter is the number of pending entries |
| Events.Machine.AddEvery | bench/romrun/machine.py:349-368 | a periodic source is queued with its first event, and a period that is not positive is refused |
| Events.Machine.SetLevel | bench/romrun/machine.py:370-378 | the interrupt line is high exactly while a source holds it |
| Events.Machine.LineIs | bench/romrun/devices.py:201-203 | the line is high if and only if an enabled flag of the chip is set or another device holds it |
| Events.Machine.TakeSignal | bench/romrun/machine.py:384-413 | a fired interrupt leaves the queue with its counter and is logged as the event of its source that it is; a periodic one is queued again from its exact time while its count lasts |
| Events.Machine.Request | bench/romrun/machine.py:386-394 | a non-maskable interrupt is held while the gate is closed, and requested otherwise |
| Events.Machine.OpenGate | bench/romrun/machine.py:298-308 | opening the gate requests the interrupt that it held, and only that |
| Events.Machine.Fire | bench/romrun/machine.py:380-414 | every due event fires: interrupts, held interrupts and timer flags come out as the due entries say, every source has fired exactly its events up to t, every running timer expires next at its first exact time after t, no later entry is lost and no single interrupt invented, and the log only grows; the time of the next is given |
| Events.NextTickFirst | bench/romrun/devices.py:190-199 | the next exact time is the first multiple of the period from the expiry on that is after t |
| Events.CountFired | bench/romrun/machine.py:358-413 | a source with a count of n has fired max(1, n) times once all its events are due |
| Events.DueCount | bench/romrun/machine.py:358-413 | a source without a count has fired exactly the events whose time has come |
| Events.NoDrift | bench/romrun/machine.py:400-406 | two events of a source lie apart by exactly the difference of their numbers times the period, and no number comes twice |
| Events.Machine.FireExpiry | bench/romrun/devices.py:190-199 | an expiry of an old generation does nothing; a live one is of a running timer, sets its enabled flag and starts again from its exact time |
| Events.Machine.Start | bench/romrun/devices.py:182-188 | a started timer has a new generation and exactly one expiry of it |
| Events.Machine.Control | bench/romrun/devices.py:168-180 | the control register sets what is enabled, what is cleared and which timers run; every timer that this starts at t has a live expiry at t plus its period, no other entry is new and none is lost, and a timer whose bit does not change keeps its generation |
| Events.Machine.WriteReg | bench/romrun/devices.py:161-180 | the same for a write to register 0x27; the counts of the timers from the other registers, and no effect from any other |
| Events.BitIs | bench/romrun/devices.py:168-180 | the bits of the control register that load, enable and reset the timers |
| Events.Machine.TicksAre | bench/romrun/devices.py:130-135 | each timer has the period of its own count, and at least one T-state |

## Left out

- CountedLoops.UnrollSame: the counter is a variable without an address (`MemoryCounters.UnrollCell` has the others); the unrolling of inner loops first, and the folding and the cost of the copies, are not modelled.
- ShareApply.AllRunsSame: one key in one block, with every occurrence in its runs replaced; for a second key or another block the theorem applies to the edited function, with its facts computed anew. Chained stores are not modelled.
- AddrShare.IntSound: constants are literals; the wider constant evaluator of the code generator is used only in `Narrow`.
- Interval: array elements, members, pointer targets, calls and statements of the generated programs; a variable stands for any of them.
- Events.Machine.FireExpiry: the timer periods are positive integers chosen by a function, not rounded floats; only the chip's callbacks and interrupts are events, not any function.
- Events.Machine.SetLevel: the data bus byte of a raised level.
- Events.Machine.Fire: which data bus byte stays after several interrupts (`Events.Machine.Request` has it for each).
- TinyCurses: the formatted output functions, which format into a buffer first, and the calls that do nothing.
- TinyCurses.Screen.NewWindow: sizes whose sum with the corner overflows an `int` are not calls that C defines.
- WorkArea: entries that call a helper routine, the choice of the plan, and interrupts that arrive between two instructions of the save.
- BlockOps: the choice of which call becomes inline code, and the evaluation of its arguments.
- Z80: code in memory is separate from data, so code that stores over itself is not modelled; opcodes that the generators do not use, interrupts inside a run, and breakpoints.
- Reach and AsmDce: the reading of assembly text; regions and blocks come with their edges. The marker comments that are kept from dead blocks, and the filtering of PUBLIC and EXTRN lines.
- Reach.Chain: which labels of a chain are shown.
- Name resolution: names are resolved, so two variables of one name in different scopes are two names.
- Scratch state that only saves time (cached facts about items), recursion limits, environment switches, and the estimates of gain and cost, which decide when a pass fires.
- `setjmp`, inline assembly and functions under `optnone`, which the passes leave alone.
- The order of evaluation is one fixed order, the order in which the passes assume operands are evaluated.
- `fillidiom.py`: loops that become block fills.
