# A verified model of the Lilith M-code system

The repository holds two programs that were made for each other: a single-pass Modula-2 compiler
(`disk/*.MOD`), which writes byte code for the Lilith's M-code machine, and an emulator of that
machine in C (`src/`), which loads the compiler's object files and runs them. This project models
both and proves that they fit together.

`dafny verify dfyconfig.toml` verifies everything.

## What is proved

**From source text to a halted machine.** `Lang` and `StmtLang` give expressions and statements of
the language (16-bit CARDINAL and INTEGER, BOOLEAN, variables at all levels; assignment, IF, WHILE
with several guards, REPEAT, LOOP and EXIT, FOR, CASE) a meaning that knows values, traps and
endless running. `ExprGen` and `StmtGen` say which bytes the generator chooses: deferred items,
folded constants, shifts and masks for powers of two, short and far jumps, jump tables. `MCode` is
the machine: decoding of bytes and the effect of every instruction. `Programs.ProgramMeaning` says
that the code of a body halts with a store, faults, or runs for ever exactly when the source
finishes with that store, traps, or diverges.

**One pass with backpatching.** The compiler never builds that code as a value: it appends bytes,
counts the words on the expression stack, and stores displacements into jumps emitted before.
`Emitter`, `Compiler`, `Loops`, `Cases` and `Statements` do the same, with a buffer, a stack of LOOPs
and a table of case labels changed in place, and `Statements.CompileBody` proves that what ends up in
the buffer is the code with all jumps resolved. `Acceptance`, `AcceptedStmts` and `CodeRoom` say on the
source alone which well-typed programs are compiled without an error: constants in range, variables
within reach, labels apart, steps other than zero, at most 16 words of stack, and code that is short
enough. `AcceptedCalls` does so for expressions with calls.

**The emulator.** `Emulator.Processor` is the fetch-execute loop over mutable registers, memory and
expression stack; `Execute` is proved to be n steps of `MCode`. `EndToEnd.CompileAndRun` puts
compiler, buffer and emulator together. `FarData` shows that modules share their data words: what one
stores as its own, another loads as external.

**Calls.** `Calls` proves over whole runs that static links lead to live activations of the lexical
parent and that a return brings back the caller. `CallGen` ties the calls of a run to the bytes of
`GenCall`, `BodyMoves` the moves between them to compiled statements. `Pending` and `CallProof` show
that operands that wait on the expression stack survive calls nested in expressions, when the called
functions return, `Waiting` that they do so for results of one word and of two; `Functions` proves that compiled functions do, and gives an example that has all the
premises.

**Starting, loading, storing.** `Startup` and `StartupRuns` prove that the module prologues walk
over the import graph and run each module once; `StartupGen` and `ModuleBodies` connect this with
the generator and with compiled bodies. `ObjFile` to `ObjStreams` are the object file with writer
and loader, `Relocation` the relocation of calls of imported procedures, `Closure` the module table
with loading and unloading, and programs that call programs; `LoadLimits` says when a load must
succeed. `ModuleGen` compiles a whole module, `ModuleFiles` follows it through its file, and
`ProgramRun.RunProgram` runs a program of such modules to its halt. `SymFile` to `SymStreams` are the
symbol file: cyclic type graphs written and read back. `Symbols` is the compiler's symbol tree,
`HeapList`, `Heap` and `HeapRuns` the emulator's heap, `FileTable` its list of open files.

**Where the code does less than it might seem.** Some properties hold only under a condition, which
is then proved to be exact. The short form of a local address below 4, or of a procedure number 0 in
CLL, is another instruction (`Limits`, `CallGen.CallDecodes`). A store into an outer frame beyond
address 15 has no instruction (`Limits.OuterStoreForm`). The short jump of AND and OR lands behind
its operand only when the distance fits a byte (`Limits.ShortJumpLands`); at 255 bytes it leads into
itself. The compiler allows 16 words of expression stack and the emulator has 15: an expression that
needs the last one faults (`Overflow.StackLimit`). A FOR whose step behind the last value leaves 16
bits goes on (`Counting.ForEndsInTime`), and a FOR over CARDINAL compares signed words
(`Counting.CardinalCounts`). Data frames overlap when they do not fit in memory together
(`Closure.LoadCloses`), and a program whose import is missing leaves modules behind
(`Closure.LeftBehind`). Names of more than 16 characters break an object file
(`ObjProof.RoundTripWhen`). Symbol files hold 993 structures (`SymProof.RoundTrip`). Releasing by
owner can leave free neighbours (`HeapRuns.FreeAllCoalesces`).

The source code is followed where comments say something else: GB 0 follows the static chain 256
times, as the loop in `src/le_mcode.c:1386-1395` does.

## Model

| member | source | states |
|---|---|---|
| `EndToEnd.CompileAndRun` | disk/M2SPL.MOD:886-1152 | a body compiled behind what the buffer holds, loaded and run by the fetch-execute loop: no error is reported if and only if the body is acceptable (`Acceptable`, on the source), its EXITs are in LOOPs with at most 16 waiting, and its code is short enough; a halt leaves the source's final store in the variables, a machine that gets stuck ran a source that traps, and a diverging source does neither |
| `EndToEnd.EndMeaning` | disk/M2SPL.MOD:891-1037 | a halted machine means that the source neither traps nor diverges, and finishes with the store in memory |
| `Programs.ProgramMeaning` | disk/M2SPL.MOD:891-1037 | the compiled body halts with store t in memory if and only if the source finishes with t, faults if and only if the source traps, and runs for ever if and only if the source does |
| `Programs.OneOfThree` | disk/M2SPL.MOD:891-1037 | every source program finishes, traps or diverges, and the code of a diverging one runs for ever |
| `Programs.HaltIsFinal` | src/le_mcode.c:91-1504 | the machine is deterministic: a halted run ends in one state only, and neither faults nor goes on |
| `ExprProof.LoadedRuns` | disk/M2SGL.MOD:209-252 | the code of a loaded expression pushes the value of the source expression and changes nothing else, or faults exactly when the source has no value; for every operand item mode, level, operator and stack depth |
| `ExprProof.ExprRuns` | disk/M2SPL.MOD:505-597 | the same for an expression that the operators themselves have loaded |
| `ExprProof.DeferredRuns` | disk/M2SGL.MOD:209-252 | a constant or variable still deferred in its item is loaded by the code of `load` |
| `ExprProof.VarRuns` | disk/M2SGL.MOD:138-163 | `PutLd` loads the word of the variable's address in its own frame, at every level |
| `ExprProof.OuterVarRuns` | disk/M2SGL.MOD:151-158 | GB and LSW reach a variable of an outer level through the static chain |
| `ExprProof.ShortRuns` | disk/M2SGL.MOD:472-488 | AND and OR by ANDJP and ORJP: the right operand is evaluated only when the left one does not decide |
| `ExprProof.UnaryRuns` | disk/M2SGL.MOD:441-470 | NEG and NOT yield the negated value |
| `ExprProof.BinRuns` | disk/M2SGL.MOD:727-857 | binary operators of the three one-word types, with the operands in their order |
| `ExprProof.SwappedRuns` | disk/M2SGL.MOD:728-741 | a constant power of two on the left of `*` is multiplied by shifting the right operand |
| `ExprMeaning.OperatorMeaning` | disk/M2SGL.MOD:727-857 | on operands of the common type the machine operator computes the source operator, and has no result exactly when the source has none |
| `ExprMeaning.FoldMeaning` | disk/M2SGL.MOD:560-725 | an operation on two constants is folded to the value it has at run time |
| `ExprMeaning.StrengthReduction` | disk/M2SGL.MOD:758-775 | SHL, SHR and AND by a power of two are `*`, DIV and MOD |
| `ExprMeaning.PowerConstant` | disk/M2SGL.MOD:339-347 | a constant whose odd part is 1 is 2 to the exponent that `clog` finds, below 16 |
| `ExprMeaning.GenDescribes` | disk/M2SGL.MOD:547-857 | the item of generated code has the type of the source expression, and its constant or variable is that of the expression |
| `Words.MaskIsRemainder` | disk/M2SGL.MOD:770-775 | masking with 2^n - 1 is the remainder modulo 2^n, for all n and all words |
| `StmtRun.StmtRuns` | disk/M2SPL.MOD:891-1037 | compiled statements simulate the source statements from every state at a statement boundary: normal end, EXIT, trap, and going on for at least as many steps as the source has rounds |
| `StmtRun.IfElseRuns` | disk/M2SPL.MOD:979-985 | IF with ELSE: two far jumps around the parts |
| `StmtRun.WhileRuns` | disk/M2SPL.MOD:988-995 | WHILE with any number of guards |
| `StmtRun.GuardsRun` | disk/M2SPL.MOD:988-994 | one round of a WHILE from any of its guards on |
| `StmtRun.RepeatRuns` | disk/M2SPL.MOD:996-1001 | REPEAT: a short or far conditional jump back |
| `StmtRun.LoopRuns` | disk/M2SPL.MOD:1002-1004 | LOOP: an EXIT in it leads behind it, everything else back to its start |
| `StmtRun.ForRuns` | disk/M2SPL.MOD:928-955 | FOR: address, bounds, FOR1 and FOR2, with nothing done when the range is empty |
| `StmtRun.CaseRuns` | disk/M2SPL.MOD:908-926 | CASE: the arm the selector belongs to, the ELSE part, or trap 4 |
| `StmtRun.CaseTraps` | src/le_mcode.c:1048-1051 | where no label matches and there is no ELSE, the machine comes to a TRAP with 4 on its stack |
| `StmtRun.ExitRuns` | disk/M2SPL.MOD:1022-1023 | EXIT goes where the enclosing LOOP ends |
| `StmtRun.SeqRuns` | disk/M2SPL.MOD:958-1036 | a sequence of statements |
| `StmtProof.AssignRuns` | disk/M2SGL.MOD:952-1012 | an assignment stores the value in the variable's word at its level, after the sign check that a change between CARDINAL and INTEGER needs, or faults |
| `StmtProof.BackJumpStep` | disk/M2SGL.MOD:1025-1030 | both forms of the backward jump go back exactly to the given place |
| `Nested.EnterForRuns` | src/le_mcode.c:984-1005 | FOR1 stores the first value and opens its two words on the memory stack, or leaves the loop |
| `Nested.NextForRuns` | src/le_mcode.c:1007-1025 | FOR2 steps in 16 bits, and compares before it stores |
| `Nested.HeadRuns` | disk/M2SGL.MOD:1216-1250 | address, first value and limit of a FOR are pushed one above the other, or a bound traps |
| `Nested.EnterCaseRuns` | src/le_mcode.c:1027-1041 | ENTC goes where the table says and leaves the end of the table on the memory stack |
| `Nested.ExitCaseRuns` | src/le_mcode.c:1043-1046 | EXC leaves the CASE |
| `StmtLang.NeverExits` | disk/M2SPL.MOD:1022-1023 | statements in which every EXIT is inside a LOOP of their own never end by EXIT |
| `Counting.ForRunsItsValues` | disk/M2SGL.MOD:1216-1254 | a FOR leads to an outcome if and only if its body, run for the values from the first to the limit in order, does; when stepping behind the last value stays within 16 bits |
| `Counting.ForEndsInTime` | src/le_mcode.c:1007-1025 | the FOR ends after its last value if and only if stepping behind it stays within 16 bits |
| `Counting.ForFollows` | src/le_mcode.c:1007-1025 | behind its last value the FOR stops, or goes on with the wrapped value |
| `Counting.ValuesAre` | src/le_mcode.c:984-1025 | the values of a FOR are first, first + step, ... up to the last one not beyond the limit |
| `Counting.Kept` | disk/M2SPL.MOD:928-955 | a statement that does not assign a variable leaves it as it was |
| `Counting.CardinalCounts` | src/le_mcode.c:984-1025 | the values a FOR over CARDINAL goes through, compared as signed words, are those from the first to the limit if and only if both are in the same half of the words |
| `Counting.CardinalFor` | src/le_mcode.c:984-1025 | in the same half, the FOR leads to an outcome if and only if its body, run for the cardinals in order, does |
| `Counting.CardinalSkips` | src/le_mcode.c:984-1025 | in different halves, a FOR that should count does nothing |
| `Statements.CompileBody` | disk/M2SPL.MOD:886-1152 | what one pass with backpatching leaves in the buffer is the code with all jumps resolved and RTN, and, of a well-typed body, an error is reported if and only if it is not acceptable, an EXIT is outside all LOOPs or the 17th to wait, or the code passes byte 11000; a body whose length counted on the source stays below is never too long |
| `Statements.StatSeq` | disk/M2SPL.MOD:891-1037 | every statement is placed as its sketch says: code and stack, recorded exits, and errors |
| `Statements.Assignment` | disk/M2SGL.MOD:952-1012 | base address, value and store, in this order |
| `Statements.IfPart` | disk/M2SPL.MOD:979-985 | the conditional jump is patched behind the THEN part |
| `Statements.WhilePart` | disk/M2SPL.MOD:988-995 | all guards, one behind the other |
| `Statements.ExitPart` | disk/M2SPL.MOD:1022-1023 | a jump whose place is recorded |
| `Statements.IfElsePart` | disk/M2SPL.MOD:979-985 | the jump to the ELSE part and the jump over it are patched to their targets |
| `Statements.GuardsPart` | disk/M2SPL.MOD:988-995 | every guard is placed with its own jumps, at its own distance from the start |
| `Statements.RepeatPart` | disk/M2SPL.MOD:996-1001 | body, condition and jump back |
| `Statements.LoopPart` | disk/M2SPL.MOD:1002-1004 | the exits recorded in the body are patched behind the loop |
| `Statements.ForPart` | disk/M2SPL.MOD:928-955 | FOR1, the body, FOR2, and the jump over both |
| `Statements.CasePart` | disk/M2SPL.MOD:908-926 | arms, ELSE part and table, with ENTC led to the table |
| `Statements.ArmsPart` | disk/M2SPL.MOD:913-919 | after every arm the table array holds exactly the ranges so far, with their places |
| `Statements.DefaultPart` | disk/M2SPL.MOD:920-924 | the ELSE part with EXC, or the trap in its place |
| `Statements.CheckStack` | disk/M2SGL.MOD:1410-1414 | the stack count starts from 0 at every statement, and code beyond the limit is an error |
| `Compiler.Expression` | disk/M2SPL.MOD:505-597 | the item and the code of an expression, or an error, are those of the expression's fragment |
| `Compiler.ShortExpression` | disk/M2SGL.MOD:472-488 | the short jump over the right operand is patched with the distance modulo 256 |
| `Exits.OpenResolves` | disk/M2SPL.MOD:866-881 | patching the open EXITs of a statement resolves them, and only them |
| `Placing.AcceptedIsResolved` | disk/M2SPL.MOD:886-1152 | accepted code outside all LOOPs has no open jumps |
| `Placing.ChoicePlaced` | disk/M2SGL.MOD:1179-1214 | a CASE whose jump to the table is patched is the CASE as a whole |
| `Placing.Branch2Placed` | disk/M2SPL.MOD:979-985 | the two patched jumps make exactly the code of IF with ELSE |
| `Loops.LoopStack.EnterLoop` | disk/M2SPL.MOD:866-868 | a mark for the exits of the new LOOP |
| `Loops.LoopStack.RecordExit` | disk/M2SPL.MOD:870-876 | the place is recorded; errors 39 and 93 exactly outside a LOOP and for more than 16 exits |
| `Loops.LoopStack.ExitLoop` | disk/M2SPL.MOD:878-881 | all exits of the innermost LOOP, and no others, are led to this place |
| `Cases.Enter` | disk/M2SPL.MOD:132-147 | a range inserted in place in the sorted table, or refused |
| `Cases.CaseLabelList` | disk/M2SPL.MOD:119-153 | the table after the labels of an arm is the insertion of all its ranges; an error exactly when one overlaps or the table is full |
| `Cases.GenCase3` | disk/M2SGL.MOD:1192-1214 | the bytes of the table for the ranges in the array |
| `Cases.TableShift` | disk/M2SGL.MOD:1192-1214 | where the code starts does not matter for the words of the table |
| `CaseTable.OverlapFound` | disk/M2SPL.MOD:133-141 | error 62 is reported if and only if the new range overlaps one in the table |
| `CaseTable.InsertAdds` | disk/M2SPL.MOD:132-147 | insertion adds exactly the new range |
| `CaseTable.InsertOrdered` | disk/M2SPL.MOD:132-147 | insertion keeps the table sorted and free of overlaps |
| `CaseTable.InsertAllMeaning` | disk/M2SPL.MOD:119-153 | after all labels of an arm exactly these values lead to it |
| `CaseTable.TableSelects` | disk/M2SGL.MOD:1192-1214 | the finished table sends each selector to its own arm and every other value to ELSE |
| `CaseTable.TableWords` | disk/M2SGL.MOD:1192-1214 | bounds, jump to ELSE and jump words stand where ENTC looks for them |
| `CaseProof.TableMeaning` | disk/M2SPL.MOD:908-926 | the table selects by the machine word what the source selects by value |
| `Emitter.Generator.PutByte` | disk/M2SGL.MOD:65-67 | one byte, taken modulo 256, or an error when the buffer is full |
| `Emitter.Generator.PutOpArg` | disk/M2SGL.MOD:87-94 | short form below 16, long form below 256, error 211 beyond |
| `Emitter.Generator.PutOpArg1` | disk/M2SGL.MOD:96-103 | the long form has its own opcode, 40B higher |
| `Emitter.Generator.PutLit` | disk/M2SGL.MOD:129-136 | LI, LIB, LIN or LIW, whichever is shortest |
| `Emitter.Generator.PutLd` | disk/M2SGL.MOD:138-163 | the load of a variable of any visible level |
| `Emitter.Generator.PutSto` | disk/M2SGL.MOD:165-187 | the store of a variable of the module or the own level |
| `Emitter.Generator.FixupByte` | disk/M2SGL.MOD:105-107 | the byte at loc becomes the distance to here modulo 256, nothing else changes |
| `Emitter.Generator.Fixup` | disk/M2SGL.MOD:109-112 | the word at loc becomes the distance to here, nothing else changes |
| `Emitter.Generator.Load` | disk/M2SGL.MOD:209-252 | the item is loaded, once |
| `Emitter.Generator.Load2` | disk/M2SGL.MOD:291-294 | two deferred operands are loaded in their order |
| `Emitter.Generator.Clog` | disk/M2SGL.MOD:339-347 | the odd part of a number and how often 2 divides it |
| `Emitter.Generator.PutWord` | disk/M2SGL.MOD:60-63 | two bytes, high byte first |
| `Emitter.Generator.PutOp` | disk/M2SGL.MOD:69-72 | an operation code, with its effect on the stack count; error 215 beyond the stack limit |
| `Emitter.Generator.LoadAdr` | disk/M2SGL.MOD:254-289 | the address of a variable of any visible level |
| `Emitter.Generator.GenFJ` | disk/M2SGL.MOD:1015-1017 | a far jump with a hole |
| `Emitter.Generator.GenCFJ` | disk/M2SGL.MOD:1019-1023 | the condition and a far conditional jump with a hole |
| `Emitter.Generator.GenBJ` | disk/M2SGL.MOD:1025-1030 | a jump back to loc, short below 255 bytes |
| `Emitter.Generator.GenFor2` | disk/M2SGL.MOD:1225-1241 | the limit loaded, when its type fits the control variable's |
| `Emitter.Generator.GenTrap` | disk/M2SGL.MOD:1256-1258 | the trap number and TRAP |
| `Emitter.Generator.GenNeg` | disk/M2SGL.MOD:441-460 | negation of an item, with the constant and sign-check cases |
| `Emitter.Generator.GenNot` | disk/M2SGL.MOD:462-470 | negation of a BOOLEAN item |
| `Emitter.Generator.GenShort` | disk/M2SGL.MOD:472-488 | the operand, ANDJP or ORJP, and a hole for the distance |
| `Emitter.Generator.GenOp` | disk/M2SGL.MOD:547-857 | the code and the item of the operation, or its error |
| `Emitter.Generator.FoldConstants` | disk/M2SGL.MOD:560-725 | the folded constant, or the error for an overflow or a division by zero |
| `Emitter.Generator.CheckAssComp` | disk/M2SGL.MOD:860-950 | the value loaded and converted for the destination's type, or its error: a literal of the other of CARDINAL and INTEGER is refused if and only if it is above MaxInt or there is no room |
| `Emitter.Generator.GenCBJ` | disk/M2SGL.MOD:1032-1038 | the condition and a conditional jump back, short below 255 bytes |
| `Emitter.Generator.GenCase1` | disk/M2SGL.MOD:1179-1186 | the selector and ENTC with a hole for the table |
| `Emitter.Generator.GenFor3` | disk/M2SGL.MOD:1243-1250 | FOR1 up or down, with a hole for the end; a step of 0 is an error |
| `Emitter.Generator.GenFor4` | disk/M2SGL.MOD:1252-1254 | FOR2, the jump back to the body, and the hole patched |
| `Tails.GenWellFormed` | disk/M2SGL.MOD:547-857 | an item that is not on the stack has no code behind it that needs the stack |
| `Tails.OpIsTail` | disk/M2SGL.MOD:547-857 | emitting the operation behind two emitted operands gives the fragment of the whole |
| `Acceptance.ExprAccepted` | disk/M2SGL.MOD:547-857 | a well-typed expression is compiled if and only if every constant that is computed fits its type and every variable has a visible level and an address below 256 (a variable by itself is only an item until it is loaded); its item has its type and constant |
| `Acceptance.LoadedWhen` | disk/M2SGL.MOD:209-252 | and its value needs exactly as many words of the stack as its source is said to |
| `Acceptance.FoldAccepted` | disk/M2SGL.MOD:560-725 | two constants are folded if and only if the sum or product of their values fits the type |
| `AcceptedStmts.AssignedAccepted` | disk/M2SGL.MOD:860-950 | a value is accepted for a destination if and only if it fits the stack and, as a constant of the other of CARDINAL and INTEGER, lies between 0 and 32767 |
| `AcceptedStmts.TableAccepted` | disk/M2SPL.MOD:119-153 | the labels of a CASE are accepted if and only if each range is nonempty, no two have a value in common, and they are at most 128 |
| `AcceptedStmts.StmtAccepted` | disk/M2SPL.MOD:891-1037 | a well-typed statement is compiled if and only if it is acceptable: literals, constants, addresses, levels, steps, labels and stack need, all on the source |
| `AcceptedStmts.ExitsAccepted` | disk/M2SPL.MOD:870-876 | its EXITs are accepted if and only if each is in a LOOP and at most 16 wait at a time, counted on the source |
| `CodeRoom.StmtRoom` | disk/M2SPL.MOD:891-1037 | the code of a statement is never longer than what is counted on its source |
| `Limits.LocalForms` | disk/M2SGL.MOD:87-94 | the short form of LLW and SLW is decoded as such if and only if the address is at least 4 |
| `Limits.GlobalForms` | disk/M2SGL.MOD:87-94 | the short form of LGW and SGW is decoded as such if and only if the address is at least 2 |
| `Limits.OuterStoreForm` | disk/M2SGL.MOD:96-103 | a store into an outer frame is an instruction of the machine if and only if the address is below 16 |
| `Limits.StepForm` | disk/M2SGL.MOD:1252-1254 | the step of a FOR survives its byte if and only if it is between -128 and 127 |
| `Limits.ShortJumpLands` | disk/M2SGL.MOD:105-107 | the jump over a right operand leads behind it if and only if the distance fits its byte |
| `Limits.JumpIntoItself` | disk/M2SGL.MOD:472-488 | with an operand of 255 bytes the jump leads to its own displacement, and three words stay on the stack |
| `Limits.LongOperand` | disk/M2SGL.MOD:462-470 | there is a right operand of every length |
| `Overflow.StackLimit` | src/le_stack.c:45-48 | accepted code of an expression without AND and OR yields the expression's value if the words the generator counted, with those already there, fit the emulator's 15; if not, which means that they are 16, it always faults |
| `Limits.TowerLimit` | src/le_stack.c:45-48 | there are expressions for every count: one that needs n words yields its value if and only if there is room for them, and 16 are accepted by the generator |
| `Emulator.Processor.Execute` | src/le_mcode.c:91-1504 | after n turns of the loop the machine is where n steps of its specification lead; it stops only with program counter 0 or stuck, and when stuck the specification faults |
| `Emulator.Processor.Turn` | src/le_mcode.c:91-115 | one turn of the loop is one step: fetch, decode, execute |
| `Emulator.Processor.Perform` | src/le_mcode.c:111-1504 | every instruction of the model does to registers, memory and expression stack what its specification says |
| `Emulator.Processor.FetchInstr` | src/le_mcode.c:50-66 | operation code and operands are fetched byte by byte, the program counter wraps, jumps are relative to the operand |
| `Emulator.Processor.Push` | src/le_stack.c:45-48 | a word on the expression stack, as long as it has fewer than 15 |
| `Emulator.Processor.PopWord` | src/le_stack.c:54-57 | the top word is taken off |
| `Emulator.Processor.EsSave` | src/le_stack.c:95-106 | the whole expression stack moved to the memory stack, with its count on top |
| `Emulator.Processor.EsRestore` | src/le_stack.c:112-119 | the saved words come back in order |
| `Emulator.Processor.StkMark` | src/le_stack.c:124-140 | the frame of a call: link, static link or caller's frame, return address, for all four kinds of call |
| `Emulator.Processor.GoBack` | src/le_mcode.c:1427-1450 | RTN, within the module and back to another one |
| `Emulator.Processor.CallOut` | src/le_mcode.c:1452-1484 | CLX and CLF |
| `Emulator.Processor.CallIn` | src/le_mcode.c:1466-1498 | CLI and CLL |
| `Emulator.Processor.BaseAdr` | src/le_mcode.c:1386-1400 | GB follows the static chain; GB 0 follows it 256 times |
| `Emulator.Processor.ForEnter` | src/le_mcode.c:984-1005 | FOR1 in place |
| `Emulator.Processor.ForNext` | src/le_mcode.c:1007-1025 | FOR2 in place |
| `Emulator.Processor.CaseEnter` | src/le_mcode.c:1027-1041 | ENTC in place |
| `Emulator.Processor.TestAndSet` | src/le_mcode.c:526-532 | TS: the old value is pushed, the word becomes 1 |
| `Emulator.Processor.Binary` | src/le_mcode.c:805-1229 | the binary operations, unsigned and signed comparisons, arithmetic, shifts and AND: operands popped in their order, the result pushed |
| `Emulator.Processor.JumpOp` | src/le_mcode.c:157-243 | conditional and unconditional jumps, ORJP and ANDJP |
| `Emulator.Processor.LoadOp` | src/le_mcode.c:245-340 | loads of local, global and external words; which word LEW loads is said by `FarData.OwnThenFar` |
| `Emulator.Processor.StoreOp` | src/le_mcode.c:281-352 | stores of local, global and external words |
| `Emulator.Processor.StoreTwo` | src/le_mcode.c:286-292 | SLD stores the upper word first |
| `Emulator.Processor.ReloadTwo` | src/le_mcode.c:865-873 | LODFD: the saved words beneath the two top words |
| `Emulator.Processor.Reload` | src/le_mcode.c:857-863 | LODFW: the saved words beneath the top word |
| `Emulator.Processor.FrameOp` | src/le_mcode.c:1386-1498 | base addresses, ENTR, calls and return |
| `Emulator.SaveRestore` | src/le_stack.c:95-119 | what `es_save` leaves, `es_restore` brings back in order, above whatever the stack holds by then |
| `Emulator.PendingPair` | src/le_mcode.c:865-878 | STORE before and LODFD behind a call put the two words of a result on top of the operands that were waiting, in their order |
| `FarData.OwnThenFar` | src/le_mcode.c:258-263 | SGW n in module m, control passing to another module, LEW m n there: the word stored is the word loaded |
| `FarData.FarThenOwn` | src/le_mcode.c:294-300 | SEW m n in another module, control passing to module m, LGW n there: the same |
| `FarData.SharedByCall` | src/le_mcode.c:1452-1484 | with a call by CLX in between, executed from its bytes |
| `FarData.PairComesBack` | src/le_mcode.c:250-292 | SLD n and then LLD n bring back the two words in their order, and all other words stay |
| `FarData.MovedAndDropped` | src/le_mcode.c:889-905 | STOT puts the word at S, and DECS behind it brings S back |
| `Emulator.PendingOperands` | src/le_mcode.c:857-878 | STORE before and LODFW behind a call put the result on top of the operands that were waiting |
| `Calls.RunIsLive` | src/le_mcode.c:1386-1498 | in every state of every run of calls and returns the static link of each live activation leads to an older live activation of its lexical parent, and L equals CS |
| `Calls.CallConserves` | src/le_mcode.c:1427-1498 | between a call and the return that ends it, however deep calls are nested, the caller's module, data frame, program counter, L, CS and S come back |
| `Calls.BaseIsLive` | src/le_mcode.c:1386-1400 | GB n yields the frame of the live activation of the n-th lexical ancestor |
| `Calls.MoveKeeps` | src/le_mcode.c:1427-1498 | every legal move succeeds and keeps all live frames |
| `Calls.CallPushes` | src/le_stack.c:124-140 | a call adds one activation with the caller's registers |
| `Calls.ReturnRestores` | src/le_mcode.c:1427-1450 | RTN brings back exactly the registers of the call |
| `BodyMoves.StatementsMove` | disk/M2SPL.MOD:891-1037 | the code of compiled statements that finish is a legal move of a run of calls: registers and all live frames stay, and the source's final store is in the variables |
| `CallGen.CallDecodes` | disk/M2SGL.MOD:1092-1106 | at every lexical distance the bytes of a call decode to the call the procedure's level demands, if and only if it is not a CLL of number 0 |
| `CallGen.MoveRuns` | disk/M2SGL.MOD:1092-1106 | a call or return of a run, executed from the bytes of `GenCall`, takes the machine where the run goes |
| `CallGen.PrepCall` | disk/M2SGL.MOD:1041-1046 | STORE exactly when operands are waiting; their number is kept |
| `CallGen.AdjustStack` | disk/M2SGL.MOD:1079-1090 | the result counted on top of the waiting operands, which LODFW or LODFD reload; `Waiting.OperandsWait` says what they do |
| `Waiting.OperandsWait` | disk/M2SGL.MOD:1041-1090 | for results of one word and of two: the code around a call, executed, leaves the waiting operands with the result on top in its order, memory below is as it was, and the count is the height of the stack |
| `AcceptedCalls.CallsAccepted` | disk/M2SPL.MOD:505-550 | an expression with calls is accepted if and only if the procedures called by CLL have numbers of one byte and there is room for its words (16), its calls of imports (1000) and its bytes (12000), all counted on the source |
| `AcceptedCalls.AdjustedWhen` | disk/M2SGL.MOD:1079-1090 | a result of no word, one or two behind n waiting operands: when there is room, and what is counted then |
| `CallGen.GenCall` | disk/M2SGL.MOD:1092-1107 | the call's bytes, with the module number of an imported procedure noted for relocation, and the stack adjusted |
| `CallGen.Expression` | disk/M2SPL.MOD:505-550 | an expression with calls is emitted, its relocations are noted, or an error is reported, as its specification says |
| `CallGen.EmitsCode` | disk/M2SPL.MOD:505-550 | what is emitted without error assembles the steps of the expression for the counted stack, whatever calls are nested in it |
| `CallGen.EmitsNoted` | disk/M2SGL.MOD:122-127 | every place noted for relocation is the module number of a CLX, and the places stay in order with room between them |
| `CallGen.CallsFixed` | src/le_loader.c:323-360 | code with such a table is relocated if and only if every module number in it is that of an import |
| `CallProof.EmittedRuns` | disk/M2SPL.MOD:505-550 | the emitted bytes, executed, leave the value of the expression on top of the waiting operands and memory below S as it was, with room and when the called functions return |
| `Functions.FunctionReturns` | disk/M2SGL.MOD:1120-1176 | a compiled function, with its entry code, statements and RETURN, returns to the code that called it with the value of its source on the stack, and memory below the call is as it was |
| `Functions.FunctionsReturn` | disk/M2SGL.MOD:1120-1176 | so that compiled functions are what calls in expressions need |
| `Functions.CallsRun` | disk/M2SPL.MOD:505-550 | an expression with nested calls of compiled functions, executed from its bytes, leaves its value on top of the waiting operands |
| `Functions.ExampleRuns` | disk/M2SPL.MOD:505-550 | a program for which all premises hold, with one operand waiting during the call |
| `Pending.CodeRuns` | disk/M2SGL.MOD:1041-1090 | the steps of an expression with nested calls leave its value on top of all waiting operands, and the compiler's count is the stack's depth |
| `Startup.EachReachedOnce` | disk/M2SGL.MOD:1451-1465 | starting a program runs the statements of every module reached through imports exactly once, the program's own last, and of no other module, also when imports are cyclic |
| `Startup.ImportsRunFirst` | disk/M2SGL.MOD:1451-1465 | without import cycles a module's statements run after those of all its imports |
| `Startup.SpreadGives` | disk/M2SGL.MOD:1417-1439 | every structured variable gets the space behind those before it |
| `Startup.SpreadEnds` | disk/M2SGL.MOD:1451-1457 | word 2 of the data gets the address behind all structured variables |
| `StartupRuns.ProgramStarts` | src/le_mcode.c:76-89 | the started machine comes to a halt with the data the walk over the imports ends with, S where it was, and an empty expression stack |
| `StartupRuns.VisitRuns` | disk/M2SGL.MOD:1451-1465 | a call of a module's procedure 0 returns to its caller with the data of the walk |
| `StartupRuns.StructsRun` | disk/M2SGL.MOD:1417-1439 | the code for structured variables stores their addresses one behind the other |
| `StartupGen.ScanList` | disk/M2SGL.MOD:1417-1439 | `scanlist1` emits exactly that code and adds their sizes to datasize |
| `StartupGen.GenEndDecl` | disk/M2SGL.MOD:1451-1465 | structured variables, SGW2, and a call of every import, each noted for relocation; an error if and only if there is no room |
| `ModuleBodies.SourceBodyEnds` | disk/M2SPL.MOD:886-1152 | a compiled module body comes to its RTN with exactly the effect of its source on the data |
| `ModuleBodies.SourcesEnd` | disk/M2SPL.MOD:886-1152 | with compiled bodies whose sources finish from the data the walk over the imports reaches, the premise of the start theorem holds |
| `ModuleBodies.VisitHolds` | disk/M2SGL.MOD:1451-1465 | starting modules keeps a value of its own type in every variable, BOOLEAN included |
| `ModuleBodies.ProgramRuns` | src/le_mcode.c:76-89 | a program of compiled modules comes to a halt with the data its sources end with |
| `Relocation.InitGenerator` | disk/M2SGL.MOD:1526-1532 | the prologue of procedure 0 |
| `Relocation.RelocTable.Reloc` | disk/M2SGL.MOD:122-127 | the place is noted; error 224 exactly when the table is full |
| `Relocation.RelocTable.CallImports` | disk/M2SGL.MOD:1459-1463 | CLX for every import, with its module number noted; an error if and only if buffer or table are too small |
| `Relocation.FixedWhen` | src/le_loader.c:323-360 | relocation succeeds if and only if every noted byte follows a relocatable instruction and numbers an import |
| `Relocation.FixedExactly` | src/le_loader.c:323-360 | it changes exactly the noted bytes, each to the place of the import it numbers |
| `Relocation.FixExtCalls` | src/le_loader.c:294-379 | procedure table and code fixed in place |
| `FarData.FarRelocated` | src/le_loader.c:329-350 | in LEW, SEW, CLX and a procedure descriptor in LIW the number of an import becomes its place in the module table, and nothing else of the decoded instruction changes |
| `FarData.OnlyFarRelocated` | src/le_loader.c:334-357 | a noted byte is relocated if and only if it follows one of the seven operation codes that take a module number |
| `Relocation.TableRebuilt` | src/le_loader.c:306-322 | the table of a loaded module holds its entry points in the order of their numbers |
| `Relocation.CallsRelocated` | src/le_loader.c:323-360 | relocated, the calls of imports are those of their places in the module table |
| `ObjProof.RoundTrip` | src/le_loader.c:113-288 | loading what the generator wrote rebuilds identification, data, code, imports, entry points and relocations |
| `ObjProof.CodeDelivered` | disk/M2SGL.MOD:1485-1487 | what is loaded as code behind the entry table is the generated code with the address of the data in byte 7, RTN, and NOP exactly when the length is odd then |
| `ObjProof.DataDelivered` | disk/M2SGL.MOD:1500-1506 | the data that is loaded: words 1 and 2 are 0, the strings stand behind all variables, all other words are what memory held |
| `ObjProof.TablesDelivered` | disk/M2SGL.MOD:1489-1519 | identification and imports by name, filled up with zeros, and key; entry points in the order of their numbers and relocations, both moved behind the entry table |
| `ModuleFiles.LoadedFresh` | disk/M2SGL.MOD:1500-1501 | after loading no module counts as started |
| `ModuleFiles.ModuleLaid` | src/le_loader.c:294-379 | a compiled module, written, loaded and relocated: its prologue, structured variables, calls of imports, statements and RTN lie where the start of a program wants them |
| `ModuleFiles.FilesRun` | src/le_mcode.c:76-89 | a program whose modules were all compiled, written, loaded and relocated comes to a halt with the data its sources end with on the walk over the imports |
| `ModuleGen.CompileModule` | disk/M2SGL.MOD:1451-1532 | a whole module: an error if and only if there is no room for what comes before its statements or these are not acceptable; else its file is that of the compiled module |
| `ModuleGen.FixupC` | disk/M2SGL.MOD:114-120 | the jump over the procedures is patched, or taken back when there are none |
| `ProgramRun.Begin` | src/le_mcode.c:80-89 | the first frame, which returns to address 0 of the system module, and the registers for procedure 0 |
| `ProgramRun.RunProgram` | src/le_mcode.c:76-115 | such a program run by the fetch-execute loop: the machine never gets stuck, with enough turns it comes to its halt, and then the data is what the sources end with |
| `ObjProof.RoundTripWhen` | disk/M2SGL.MOD:1476-1483 | for sizes that fit in 16 bits, it does so if and only if no name is longer than 16 characters |
| `ObjProof.NameLen` | disk/M2SGL.MOD:1476-1483 | a name takes 16 bytes if and only if it has at most 16 characters |
| `ObjProof.NamesDiffer` | disk/M2SGL.MOD:1476-1483 | different names or keys give different bytes |
| `ObjStreams.CodeFile.OutCodeFile` | disk/M2SGL.MOD:1467-1524 | the file as it is written, section by section; what its code is, `ObjProof.CodeDelivered` says |
| `ObjStreams.CodeFile.WriteNameAndKey` | disk/M2SGL.MOD:1476-1483 | name, padding and key |
| `ObjStreams.ObjLoader.ParseObjFile` | src/le_loader.c:113-288 | the sections read one after the other, or an error, as specified |
| `ObjStreams.ObjLoader.ModuleEntry` | src/le_loader.c:140-170 | identification and sizes of a module |
| `ObjStreams.ObjLoader.ImportEntries` | src/le_loader.c:172-199 | the imports, each by name and key |
| `ObjStreams.ObjLoader.ProcEntries` | src/le_loader.c:220-246 | the entry points, numbered from 0 |
| `ObjStreams.ObjLoader.RelocEntry` | src/le_loader.c:264-280 | the places to relocate, kept until all modules are there |
| `ObjStreams.ObjLoader.ReadId` | src/le_loader.c:89-95 | 16 bytes of name and 6 of key |
| `ObjStreams.ObjLoader.DataEntry` | src/le_loader.c:201-217 | a data section stored over the frame, or an error beyond its end |
| `ObjStreams.ObjLoader.CodeEntry` | src/le_loader.c:247-260 | a code section stored in the code frame, or an error beyond its end |
| `Closure.LoadCloses` | src/le_loader.c:440-471 | loading a program loads one module for each name and all of them and resolves every import by name and key; their frames fill the space above data_top without overlapping if and only if their sum stays below 2^16 |
| `Closure.TwoTooLarge` | src/le_loader.c:153-156 | two modules that are loaded without an error, the second one over the first |
| `Closure.LoadMisses` | src/le_loader.c:440-471 | a load is left unfinished only where a file is missing: the program's own, and nothing has changed, or that of a module in the table |
| `LoadLimits.LoadSucceeds` | src/le_mach.c:91-117 | with one key for each name and at most 255 modules loading never ends the emulator; when each of them has a file or is loaded, the program is loaded with all its imports |
| `Closure.CallRestores` | src/le_mcode.c:751-785 | programs that call programs, to any depth: table, data_top, S, L, CS, PC and the height of the expression stack come back, whatever the called programs do to the registers; a missing file yields 0 and nothing else |
| `Closure.LeftBehind` | src/le_mcode.c:751-785 | where the file of an imported module is missing, modules stay in the table and S is left above their frames |
| `Closure.UnloadUndoesLoad` | src/le_mcode.c:1506-1519 | module table and data_top are as they were, also when data_top has wrapped at 16 bits |
| `Closure.ModuleTable.FindModEntry` | src/le_mach.c:52-85 | the first entry of that name |
| `Closure.ModuleTable.InitModEntry` | src/le_mach.c:91-117 | the entry of a module, made when there is none; an end when the keys differ or the table is full |
| `Closure.ModuleTable.ParseObjFile` | src/le_loader.c:140-199 | the module's own entry and frame, and the entries of its imports |
| `Closure.ModuleTable.LoadObjFile` | src/le_loader.c:440-471 | the module and everything with an entry that is not loaded |
| `Closure.ModuleTable.Unload` | src/le_mach.c:169-180 | all modules from a place on are taken out |
| `Closure.ModuleTable.CallProgram` | src/le_mcode.c:751-785 | SVC 1: table, registers and result as specified, or the emulator has ended |
| `Closure.ModuleTable.Execute` | src/le_mcode.c:76-89 | the run of a program with its calls, after which its modules are taken out; it begins with the registers of the machine's first state |
| `ProgramRun.StartsAlike` | src/le_mcode.c:80-89 | these registers are those of the state from which `StartupRuns.ProgramStarts` runs |
| `SymProof.RoundTrip` | disk/M2SRL.MOD:96-278 | reading what was written yields an isomorphic type graph, cycles and sharing included, and the same objects, and exactly the data address, procedure number and module number given to the writer, if and only if the structures do not run out of their 993 numbers |
| `SymProof.OnlyNeeded` | disk/M2SRL.MOD:318-433 | only types are written that the objects need |
| `SymRead.NameRoundTrip` | disk/M2SRL.MOD:280-288 | `ReadId` undoes `WriteId` |
| `SymStreams.RefWriter.OutFile` | disk/M2SRL.MOD:514-545 | the whole file as specified, for every cyclic type graph; which words end it, `SymProof.RoundTrip` says |
| `SymStreams.RefWriter.OutUnit` | disk/M2SRL.MOD:514-529 | head and objects |
| `SymStreams.RefWriter.OutObj` | disk/M2SRL.MOD:435-496 | an object behind its type, if that has no number yet |
| `SymStreams.RefWriter.OutPar` | disk/M2SRL.MOD:305-316 | the parameters of a procedure type |
| `SymStreams.RefWriter.OutFlds` | disk/M2SRL.MOD:329-338 | the fields of a record type |
| `SymStreams.RefWriter.OutStr` | disk/M2SRL.MOD:318-385 | a structure, after all it refers to except through pointers |
| `SymStreams.RefWriter.OutLink` | disk/M2SRL.MOD:498-512 | the pointers' targets, while the list of pointers still grows |
| `SymStreams.RefWriter.WriteId` | disk/M2SRL.MOD:280-288 | a name two bytes at a time |
| `SymStreams.RefReader.InRef` | disk/M2SRL.MOD:96-278 | the file read block by block, with the data address and the procedure number at its end, or an error, as specified |
| `SymStreams.RefReader.ReadId` | disk/M2SRL.MOD:48-58 | a name with its length in front |
| `Symbols.Diff` | disk/M2SS.MOD:104-114 | the identifiers in the buffer are compared by the first byte that differs |
| `Symbols.EqualOnly` | disk/M2SS.MOD:104-114 | two identifiers compare as equal if and only if they are equal |
| `Symbols.Transitive` | disk/M2SS.MOD:104-114 | the comparison is an order |
| `Symbols.Opposite` | disk/M2SS.MOD:104-114 | the comparison is antisymmetric |
| `Symbols.LookupFinds` | disk/M2STL.MOD:39-50 | searching an ordered tree finds exactly what the tree binds |
| `Symbols.InsertBinds` | disk/M2STL.MOD:78-112 | a name not declared twice gets its binding, all others keep theirs, and the tree stays ordered |
| `Symbols.InsertAgain` | disk/M2STL.MOD:78-112 | a name declared twice changes no search |
| `Symbols.CopyBinds` | disk/M2STL.MOD:132-160 | an imported binding is entered unless the name has one, and the tree stays ordered in any case |
| `Symbols.ImportsBind` | disk/M2STL.MOD:132-160 | an import binds its name and the constants of its type, and leaves all names that were bound as they were |
| `Symbols.VisibleInnermost` | disk/M2STL.MOD:52-63 | the binding of the innermost scope that has one and is not behind a module, else the universe's |
| `Symbols.SymTable.Find` | disk/M2STL.MOD:52-63 | the visible binding |
| `Symbols.FindInScope` | disk/M2STL.MOD:39-50 | the search along one path of the tree |
| `Symbols.SymTable.NewObj` | disk/M2STL.MOD:78-112 | the binding in the innermost scope; error 100 exactly for a name declared twice |
| `Symbols.SymTable.NewScope` | disk/M2STL.MOD:169-177 | an empty scope inside the others |
| `Symbols.SymTable.CloseScope` | disk/M2STL.MOD:179-181 | what was visible before the scope was opened is visible again |
| `Symbols.SymTable.FindImport` | disk/M2STL.MOD:65-76 | what is visible around the innermost scope |
| `Symbols.SymTable.NewImp` | disk/M2STL.MOD:132-160 | the import, with the constants of an enumeration type; error 100 exactly for a name that is bound |
| `Heap.HeapSpace.Alloc` | src/le_heap.c:47-103 | first fit in the linked list, or a new block below the heap, or the end of the emulator |
| `Heap.HeapSpace.constructor` | src/le_heap.c:206-215 | an empty heap: one header at the top of memory |
| `Heap.HeapSpace.Split` | src/le_heap.c:62-73 | a gap cut in two, its upper part taken |
| `Heap.HeapSpace.FreeInt` | src/le_heap.c:111-181 | release by address or by owner, with the list joined and shortened in place |
| `Heap.HeapSpace.Consolidate` | src/le_heap.c:116-122 | two neighbours as one, with the lower one unlinked |
| `Heap.HeapSpace.Release` | src/le_heap.c:140-154 | a block set free and joined with its neighbours |
| `Heap.HeapSpace.Trim` | src/le_heap.c:156-166 | the lowest free block is given back |
| `HeapList.AllocTiles` | src/le_heap.c:47-103 | allocation keeps the tiling of the heap |
| `HeapList.AllocPlace` | src/le_heap.c:47-103 | the first gap that is large enough is taken from its upper end; only without one a block is made below the heap, if and only if it stays above the memory stack |
| `HeapList.AllocLive` | src/le_heap.c:47-103 | it adds exactly its own block, which overlaps no live one; all others keep address, size and owner |
| `HeapList.FreeMeaning` | src/le_heap.c:187-190 | a release by address takes exactly the block there, and succeeds if and only if there is one |
| `HeapList.SweepMeaning` | src/le_heap.c:197-200 | a release by owner takes exactly the owner's blocks at or below the limit |
| `HeapList.RunTiles` | src/le_heap.c:47-200 | the blocks tile the heap at every moment of every run |
| `HeapList.RunAnswered` | src/le_syscall.c:54-82 | a run succeeds if and only if each of its requests is answerable in the heap it finds |
| `HeapList.RunKeepsBlocks` | src/le_syscall.c:54-82 | a block that has been allocated and not been given back is live, unchanged, and overlaps no later allocation |
| `HeapList.HandledLive` | src/le_syscall.c:54-82 | one request keeps a live block if and only if it does not give it back |
| `HeapList.PointerRun` | src/le_heap.c:111-190 | allocations and releases by address leave no free neighbours, and when all is released the initial heap |
| `HeapList.ScopeIsExact` | disk/M2STL.MOD:197-203 | what a scope has allocated since its mark is released exactly, whatever scopes were opened and closed in between |
| `HeapRuns.FreeAllCoalesces` | src/le_heap.c:111-200 | `hp_free_all` leaves no free neighbours if and only if every run of released blocks above a free block has an odd length and no free block above a run lies beyond the limit |
| `HeapList.FreeAllLeavesNeighbours` | src/le_heap.c:111-200 | a heap on which it does leave free neighbours |
| `FileTable.OpenFiles.FindFd` | src/le_filesys.c:78-107 | the cached search finds the most recently opened file of the descriptor |
| `FileTable.OpenFiles.Open` | src/le_filesys.c:115-160 | the new file in front of the others |
| `FileTable.OpenFiles.Close` | src/le_filesys.c:222-231 | exactly the most recently opened file of the descriptor is taken out, if there is one |
| `FileTable.OpenFiles.CloseInt` | src/le_filesys.c:177-216 | one node unlinked, wherever it stands |
| `FileTable.OpenFiles.CloseAll` | src/le_filesys.c:237-256 | exactly the module's files are closed, the others stay in their order |

## Left out

What the contracts above deliberately do not cover:

- Programs.ProgramMeaning: variables of one word (CARDINAL, INTEGER, BOOLEAN) of the body itself and the levels around it; no calls, RETURN, WITH, records, arrays, pointers, sets, REAL or imported variables.
- Programs.ProgramMeaning: no INTEGER MOD (`disk/M2SGL.MOD:776-777`, CHKS and UMOD); the language has MOD for CARDINAL only.
- Programs.ProgramMeaning: operands of mixed type are covered where one of them is a literal; other mixtures of CARDINAL and INTEGER are an error of the compiler.
- Programs.ProgramMeaning: no EXIT out of a FOR or CASE, which would leave their words on the memory stack, no FOR over BOOLEAN, and no negative CASE labels.
- Programs.OneOfThree: the same language.
- EndToEnd.EndMeaning: the same language.
- EndToEnd.CompileAndRun: the same language; the number of instructions is bounded by a parameter, since a program may run for ever.
- ExprProof.LoadedRuns: expressions of that language; calls in expressions are the matter of `CallGen`, `CallProof` and `Functions`.
- ExprProof.ExprRuns: expressions of that language; calls in expressions are the matter of `CallGen`, `CallProof` and `Functions`.
- ExprProof.BinRuns: operators of CARDINAL, INTEGER and BOOLEAN, without INTEGER MOD.
- ExprMeaning.OperatorMeaning: operators of CARDINAL, INTEGER and BOOLEAN, without INTEGER MOD.
- ExprMeaning.FoldMeaning: constants of CARDINAL and INTEGER, without INTEGER MOD, sets and REAL.
- ExprMeaning.GenDescribes: items of the three one-word types.
- Tails.GenWellFormed: items of the three one-word types.
- Tails.OpIsTail: items of the three one-word types.
- StmtRun.StmtRuns: statements of that language.
- StmtRun.CaseRuns: labels of 0 and above.
- StmtProof.AssignRuns: destinations of one word.
- Statements.CompileBody: statements of that language, LOOPs nested at most four deep, as the compiler's array allows; beyond, its index check stops the compiler. `failed` stands for every such stop and for every reported error; messages and recovery are not modelled.
- Statements.StatSeq: statements of that language.
- AcceptedStmts.StmtAccepted: well-typed statements; which others the compiler takes, as a computed constant beside an INTEGER, is not said.
- Acceptance.ExprAccepted: well-typed expressions.
- AcceptedCalls.CallsAccepted: the expressions of `CallGen.Expression`.
- Statements.Assignment: destinations of one word.
- Compiler.Expression: expressions of that language, without selectors, sets and calls.
- Emitter.Generator.PutLd: one-word variables of the module itself; imported ones (LEW, SEW) are instructions of the machine model only.
- Emitter.Generator.PutSto: one-word variables of the module itself; imported ones (LEW, SEW) are instructions of the machine model only.
- Emitter.Generator.LoadAdr: one-word variables of the module itself; imported ones (LEW, SEW) are instructions of the machine model only.
- Emitter.Generator.Load: items that are constants, variables or loaded; indexed, indirect and procedure items are left out.
- Emitter.Generator.GenFor2: control variables of type CARDINAL and INTEGER.
- Emitter.Generator.GenNeg: items of the three one-word types, without INTEGER MOD.
- Emitter.Generator.GenOp: items of the three one-word types, without INTEGER MOD.
- Emitter.Generator.FoldConstants: items of the three one-word types, without INTEGER MOD.
- Emitter.Generator.CheckAssComp: the three one-word types; subranges and structured types are left out.
- Emitter.Generator.GenCase1: selectors of the three one-word types.
- Emulator.Processor.Execute: no instructions for real and double-word arithmetic, sets, block moves, display and coroutines, and no interrupts.
- Emulator.Processor.Turn: no instructions for real and double-word arithmetic, sets, block moves, display and coroutines, and no interrupts.
- Emulator.Processor.Perform: no instructions for real and double-word arithmetic, sets, block moves, display and coroutines, and no interrupts.
- Emulator.Processor.FrameOp: without the monitor and coroutine instructions of these lines.
- Overflow.StackLimit: no AND and OR, whose right operand may never be loaded; expressions of that language otherwise.
- Calls.RunIsLive: between calls and returns any instructions that leave the registers and the three link words of live frames alone; `BodyMoves.StatementsMove` shows that compiled statements are such instructions, the entry code of procedures with structured parameters is left out.
- Calls.CallConserves: between calls and returns any instructions that leave the registers and the three link words of live frames alone; `BodyMoves.StatementsMove` shows that compiled statements are such instructions, the entry code of procedures with structured parameters is left out.
- CallGen.PrepCall: procedures only; code procedures and procedure variables are left out.
- CallGen.GenCall: procedures only; code procedures and procedure variables are left out.
- CallGen.AdjustStack: results of at most two words.
- Waiting.OperandsWait: that the called function comes back with its result alone on the stack is a premise; `Functions` proves it for results of one word.
- CallGen.Expression: constants, operators that always have a result, and calls, with every operand loaded before the next one is compiled.
- CallGen.EmitsCode: constants, operators that always have a result, and calls, with every operand loaded before the next one is compiled.
- CallProof.EmittedRuns: the called functions have a result that depends on their arguments only and do not change memory below S; operators as above.
- Functions.FunctionReturns: functions declared at module level with value parameters of type CARDINAL and INTEGER, no local variables, and bodies without calls.
- Functions.CallsRun: calls of such functions.
- Pending.CodeRuns: steps of the generator; `CallProof` and `Functions` connect them with machine instructions.
- StartupRuns.ProgramStarts: modules without inner modules (`scanlist2`), and without the monitor entry of `GenEnterMod`.
- StartupGen.GenEndDecl: without inner modules.
- ModuleBodies.SourcesEnd: bodies that finish; a body that traps or diverges stops the program. Variables of different modules have different words.
- ModuleGen.CompileModule: the code of the procedures is given, and so are imports, strings and the address of the data; no inner modules, no monitor entry.
- ModuleFiles.FilesRun: modules of `ModuleGen.CompileModule` whose statements are of that language and finish.
- ProgramRun.RunProgram: modules of `ModuleGen.CompileModule` whose statements are of that language and finish.
- LoadLimits.LoadSucceeds: one direction only: with a module under two keys, or with more than 255, it depends on the order of loading whether the emulator ends.
- ObjProof.RoundTrip: string constants of an even number of bytes.
- ObjProof.RoundTripWhen: string constants of an even number of bytes and sizes that fit in 16 bits.
- ObjStreams.ObjLoader.ParseObjFile: reading stops at the end of the file or at an unknown section number; other errors of the host's file functions and older formats are left out.
- Closure.CallRestores: G is whatever the called program leaves; `src/le_mcode.c:761-781` does not bring it back. The file name is given, its copying from the memory stack is left out, and so are the called program's files and heap.
- Closure.ModuleTable.CallProgram: a program that has an entry in the table already: the emulator would go on behind the end of the table.
- SymProof.RoundTrip: the reader takes the module number and drops it (`disk/M2SRL.MOD:223`); the model keeps it, so that it can be said which it is.
- SymProof.RoundTrip: no imported types and anchors, and objects are types and variables; constants and procedures as objects, procedure types with a result type that is not a standard one, and two objects of the same name are left out.
- SymProof.OnlyNeeded: no imported types.
- SymStreams.RefWriter.OutFile: types and variables as objects; imported modules and anchors are left out.
- SymStreams.RefWriter.OutUnit: types and variables as objects; imported modules and anchors are left out.
- SymStreams.RefWriter.OutObj: types and variables as objects; imported modules and anchors are left out.
- SymStreams.RefWriter.OutPar: parameters whose types are standard or have a number.
- SymStreams.RefWriter.OutStr: no imported types.
- SymStreams.RefReader.InRef: the blocks that `OutFile` writes.
- Symbols.InsertBinds: trees are values, not linked nodes.
- Symbols.SymTable.Find: the global `Scope`, which is left at the scope of the object, is not modelled.
- Symbols.SymTable.NewObj: trees are values; after a name declared twice, which is an error, `Symbols.InsertAgain` says what the tree finds.
- HeapList.RunKeepsBlocks: owners other than 0, which marks free blocks; the program's own stores into the heap are not part of this model.
- FileTable.OpenFiles.Open: the host's files themselves are left out.
- Heap.HeapSpace.Alloc: the end of the memory stack is a parameter.

What the repository does and this project does not:

- Scanning and parsing, reference points, error recovery, the listing, and the user interface of the compiler.
- Standard procedures and functions (`GenStParam`, `GenStFct`), WITH, index checks, strings, and structured parameters.
- Instructions for real and double-word arithmetic, sets, block moves, fields of bits, display, monitor, coroutines and interrupts.
- Operations on host files other than opening and closing, the clock, the keyboard, the screen, and the debugger.
- Old formats of object files beyond what the loader's sections share with the new one.
