# Vestra: a verified model

Vestra is a language that compiles to C++: a lexer, a Pratt parser, flow-sensitive checkers, a
compile-time evaluator, a module loader, and an emitter whose output carries a small async runtime.
This project models the parts of it that hold invariants and proves them for all inputs, all runs
and all reachable states. `dafny verify dfyconfig.toml` checks everything.

Two styles are used side by side. Code that updates objects, maps, cursors or buffers in place is
written as classes and methods with loops (`Runtime`, `Parser`, `Recovery`, `OwnershipChecker`,
`ModuleLoader`, `Exclusivity.Checker`, `ComptimeFolder`, `MatchLowering.Emitter`, `Lexer`,
`Slicing.Chunks`), and each method is proved to compute a function on values or to keep a stated
invariant. What the repository promises is then proved about those functions.

## What is modelled

**Async runtime.** `Machine` is a transition system: ready queue, timers, waiters with their fired
flag, channels, coroutines, futures. A step is one operation of a running coroutine or one turn of
the run loop, and a run is any interleaving; deadlines are numbers. `Safety` proves an invariant of
every step and draws at-most-once resumption from it. `Wakeups` proves, for every operation, exactly
when it can lose a wakeup: only a select that was woken by one channel and then takes another arm.
`Discipline` shows that this never happens when every channel has either plain receivers only or
one sole consumer, which may select; the discipline is a condition on each call's own arguments.
`Streams` proves conservation for all runs, and for a channel read by one coroutine's suspending
receives that nil means closed and drained. `Fetches` gives the same for any number of receivers: a
step keeps a value for every woken coroutine exactly when it does not take one that it has promised,
and over runs of such steps nil means closed and drained. `Counterexamples` builds runs, one
coroutine at a time, that strand a receiver, or return nil on an open channel. `Runtime` has the
objects themselves, shared by reference, with their loops; it and `Machine` are both stated with the
functions of `ParkedQueue` and `TimerQueue`. A coroutine is awaited directly only before it has
started and when no future owns it; starting a coroutine that is already running is outside the
model.

**Parser, printer, emitted text.** `Syntax.Spell` is the token string of a tree, and `Normal` the
trees that need no further parentheses, over any table of binding powers. `RoundTrip` proves that
the parser returns a tree exactly when that tree is normal and spelled by the tokens read. The
printer adds no parentheses; `Printer` proves that it round-trips exactly on the trees that hold no
node it loses, tokens that run together included. The same theory, with the C++ table in place of
Vestra's, decides when the emitter's text keeps its grouping. `Parser` is the cursor that moves over
a token array, and `Recovery` the declaration loops above it: they end on every token list, whatever
the parts below them read.

**Ownership.** `Ownership` is the forward pass of the checker; `MoveSyntax` gives bodies a meaning
as traces of reads, moves and fresh values, one per choice of branches. No report means no reuse
after a move, on every path (`OwnershipSound`); without branches the reports are exactly the faults
(`OwnershipExact`); linear locals are moved exactly once (`LinearOnce`); and the set of linear
structs is the reachable one (`LinearClosure`).

**Exclusivity.** `Places` has a store of nested records. Overlap is proved to be the same thing as
interference through some store, and hence an accepted call is one whose borrows do not interfere.

**Compile-time evaluation.** `Comptime` is the folder as functions, `ComptimeMeaning` a big-step
semantics with lexical scopes and checked 64-bit arithmetic. The two agree on integers, booleans,
vectors, blocks, assignments, calls, early returns, and on loops whose bodies run to their end
(`ComptimeSound`). For such code the call depth that is left decides whether it folds, never what it
returns (`ComptimeDepth`). `ComptimeFaults` has the inputs that show why the conditions are there.

**Modules, layout, match, lexer, slicing.** The loader as a depth-first walk with a stack set, and
the topological order; C layout down to every scalar of every nested value; the three lowerings of
`match`, with the exact conditions under which they are C++ and keep source order; the lexer as a
tiling of the source by tokens and trivia, each token in the language of its kind, with interpolated
strings nested by the splice stack; the partitioning helpers of the runtime.

## Where the code and its words differ

The model follows the code.

- `include/vestra/sema/exclusivity.hpp` says that two index expressions over one buffer are taken to
  overlap. An index expression yields no place, so it borrows nothing.
- `include/vestra/sema/comptime.hpp` says that overflow does not fold. The arithmetic is plain
  64-bit; the model wraps, and agreement is claimed where the checked meaning does not overflow.
- A `return` inside an operand of a returned expression is overwritten by the outer `return`
  (`ComptimeFaults.OuterReturnOverwrites`), and then the value can depend on the call depth left
  (`ComptimeFaults.DepthChangesTheValue`).
- `src/sema/comptime.cpp` drops the result of a loop body, so a body that does not fold is skipped
  from the point where it failed, and the loop goes on (`ComptimeFaults.FailedBodyIsDropped`). Its
  comment says that `break` and `continue` make the fold bail; in a loop they are skipped in the
  same way (`ComptimeFaults.BreakIsDropped`).
- An `&` argument that starts with a minus is printed as `&-`, which is one wrapping operator token;
  the printer drops `nil`, tuples, vectors and `throw`, prints the postfix unwrap in front and `?.`
  as `.`; the two marks of `T? ?` are printed as `??`, which is another token
  (`Printer.NestedOptionalIsLost`). `Printer.Faithful` leaves exactly these out.
- A negation of a negation is emitted as two adjacent minus signs, which C++ reads as a decrement;
  comparisons of bitwise operands regroup in C++ (`CppGrouping.EmittedGrouping`).
- A catch-all arm that is not last, or has a guard, is moved behind the others and loses its guard
  (`MatchExact.PreservesIffHarmless`).
- Over an enum with payloads, arms that name no case are emitted as an `else` without an `if`
  (`MatchLowering.CatchAllAloneIsRejected`).
- `src/lex/lexer.cpp` says that the look-ahead behind a newline passes over comments. It passes over
  line comments only (`Lexer.CommentedLineContinues`).
- A `module` or `import` behind the first declaration is reported at the same place until the error
  cap is reached (`Recovery.DeclParser.ReadDecls`).
- The lexer counts brackets without their kinds. A closing bracket of another kind inside a splice
  can end the splice early; the nesting result therefore ends at the first bracket that does not
  match.

## Model

| member | source | states |
|---|---|---|
| `ParkedQueue.WakeOneEffect` | src/codegen/cpp_emitter.cpp:781-791 | `wake_one` schedules at most one waiter: the first that has not fired; only fired ones are dropped ahead of it, and what stays parked is the untouched tail |
| `ParkedQueue.WakeAllEffect` | src/codegen/cpp_emitter.cpp:793-802 | `wake_all` schedules exactly the parked waiters that have not fired, each once, however often a waiter is parked |
| `ParkedQueue.UnparkEffect` | src/codegen/cpp_emitter.cpp:772-779 | `unpark` removes exactly one occurrence of the waiter, and nothing else |
| `TimerQueue.Earliest` | src/codegen/cpp_emitter.cpp:727-731 | the timer serviced is the first among those with the least deadline |
| `TimerQueue.LiveMembers` | src/codegen/cpp_emitter.cpp:725 | a timer survives the clean-up exactly when it was there and its waiter has not fired |
| `Safety.WakeParts` | src/codegen/cpp_emitter.cpp:781-802 | waking a channel only removes waiters it held and fires waiters it held, as the queue functions say |
| `Safety.WakeChanKeeps` | src/codegen/cpp_emitter.cpp:781-802 | waking one or all waiters of a channel keeps the runtime invariant |
| `Safety.ArmAllKeeps` | src/codegen/cpp_emitter.cpp:1232-1240 | arming a select on any mix of channels and futures, some of which may be named twice or become ready at once, keeps the invariant |
| `Safety.SuspendKeeps` | src/codegen/cpp_emitter.cpp:1181-1185 | suspending on a receive or a select, with or without a timer, keeps the invariant |
| `Safety.DisarmChans` | src/codegen/cpp_emitter.cpp:1241-1244 | disarming takes a waiter out of a channel once per arm that names the channel, and leaves the other waiters alone |
| `Safety.DisarmSlots` | src/codegen/cpp_emitter.cpp:975-977 | disarming clears the remembered waiter of every unfinished future among the arms and sets none |
| `Safety.DisarmKeeps` | src/codegen/cpp_emitter.cpp:1241-1247 | after a parked coroutine disarms its arms, its waiter is parked on no channel and remembered by no unfinished future |
| `Safety.ResumeKeeps` | src/codegen/cpp_emitter.cpp:717-721 | the handle at the front of the ready queue belongs to a queued or a parked coroutine, and resuming it keeps the invariant |
| `Safety.FinishKeeps` | src/codegen/cpp_emitter.cpp:822-833 | completing a coroutine, which fires a remembered select waiter and hands control to its awaiter, keeps the invariant |
| `Safety.ServiceKeeps` | src/codegen/cpp_emitter.cpp:725-738 | a turn of timer service keeps the invariant |
| `Safety.AwaitKeeps` | src/codegen/cpp_emitter.cpp:850-856 | awaiting another coroutine keeps the invariant |
| `Safety.StepKeeps` | src/codegen/cpp_emitter.cpp:697-741 | every operation of the runtime, in any order, keeps the invariant |
| `Safety.ReachableInv` | src/codegen/cpp_emitter.cpp:686-741 | the invariant holds in every state that any run reaches |
| `Safety.AtMostOnceResumption` | src/codegen/cpp_emitter.cpp:680-689 | in every reachable state the ready queue holds no handle twice, a waiter has been scheduled once if it fired and never otherwise, a parked coroutine is ready exactly when its waiter fired, and no channel or unfinished future holds a waiter whose coroutine is not still parked on it |
| `Wakeups.SendServes` | src/codegen/cpp_emitter.cpp:1161-1164 | a send leaves every channel served: a coroutine that still sleeps on a channel sleeps on an open one with no more values than coroutines it has woken |
| `Wakeups.CloseServes` | src/codegen/cpp_emitter.cpp:1165-1168 | a close leaves every channel served |
| `Wakeups.SuspendServes` | src/codegen/cpp_emitter.cpp:1181-1185 | a coroutine that suspends because no arm is ready leaves every channel served |
| `Wakeups.ResumeServes` | src/codegen/cpp_emitter.cpp:1241-1247 | resuming a parked coroutine leaves a channel served exactly when it is not a select woken by that channel that takes another arm while values and woken coroutines are even |
| `Wakeups.StepServesIff` | src/codegen/cpp_emitter.cpp:781-803 | for every operation in every reachable state: all channels stay served if and only if the operation is not such a resumption |
| `Discipline.OrderlyNeverLoses` | src/codegen/cpp_emitter.cpp:1216-1248 | when each channel has only plain receivers or one selecting consumer, that resumption cannot occur |
| `Discipline.StepOrderly` | src/codegen/cpp_emitter.cpp:1216-1248 | the discipline about who is parked where is kept by every operation whose caller respects it |
| `Discipline.NoLostWakeup` | src/codegen/cpp_emitter.cpp:743-803 | over every run that respects the discipline, no channel on which a coroutine sleeps is closed or holds more values than coroutines it has woken; once the ready queue is empty nobody sleeps on a ready channel |
| `Counterexamples.SharedSelectLosesWakeup` | src/codegen/cpp_emitter.cpp:1225-1247 | without the discipline the claim is false, with one coroutine running at a time: a run reaches a state in which the run loop resumes a select that takes another arm, and once that coroutine has finished no handle is ready, no timer is set, every coroutine has finished or sleeps, and a receiver sleeps on a channel that holds a value |
| `Counterexamples.PollCausesPrematureNil` | src/codegen/cpp_emitter.cpp:1169-1192 | with one coroutine running at a time, a poll that robs a woken receiver is possible in a reachable state, and a suspending receive returns nil on an open channel |
| `Streams.StepConserves` | src/codegen/cpp_emitter.cpp:1161-1206 | every operation keeps, for each channel, values sent = values received, then values queued |
| `Streams.Conservation` | src/codegen/cpp_emitter.cpp:1150-1206 | over every run, the values sent on a channel are in order the values received by poll, receive and select together, followed by the queue |
| `Streams.EndOfStream` | src/codegen/cpp_emitter.cpp:1177-1193 | on a channel read only by one coroutine's suspending receives, over every run, a receive that returns does so with nil exactly when the channel is closed and everything sent on it was received |
| `Fetches.StepProvidesIff` | src/codegen/cpp_emitter.cpp:1161-1206 | for every operation in every reachable state in which each open channel has a value for every coroutine it woke that has not resumed: the step keeps that so if and only if it does not take a value from an open channel whose queue is no longer than the number of other woken coroutines |
| `Fetches.NilMeansEnd` | src/codegen/cpp_emitter.cpp:1177-1193 | over every run in which no operation does that, whoever receives or selects, a suspending receive returns nil exactly when the channel is closed and everything sent on it was received |
| `Runtime.Scheduler.Fire` | src/codegen/cpp_emitter.cpp:735-738 | the shared flag goes up, and the handle is queued only the first time |
| `Runtime.Scheduler.ServiceTimers` | src/codegen/cpp_emitter.cpp:725-738 | dead timers are dropped; the earliest of the others is taken out and fires, or the scheduler is idle; at most that one waiter fires |
| `Runtime.Channel.Unpark` | src/codegen/cpp_emitter.cpp:772-779 | in place, the first occurrence is erased |
| `Runtime.Channel.WakeOne` | src/codegen/cpp_emitter.cpp:781-791 | the loop over shared waiter objects refines the queue function, flags and ready queue included |
| `Runtime.Channel.WakeAll` | src/codegen/cpp_emitter.cpp:793-802 | as for one, over the whole queue, where a waiter may be parked several times |
| `Runtime.Channel.Send` | src/codegen/cpp_emitter.cpp:1161-1164 | the value is queued and one waiter is woken |
| `Runtime.Channel.Close` | src/codegen/cpp_emitter.cpp:1165-1168 | the channel is closed and every waiter is woken; the values stay |
| `Runtime.Channel.Take` | src/codegen/cpp_emitter.cpp:1169-1174 | the front value leaves the queue, or nothing where it is empty |
| `Runtime.Channel.Suspend` | src/codegen/cpp_emitter.cpp:1181-1185 | a new waiter for the caller is parked |
| `Runtime.Channel.Resume` | src/codegen/cpp_emitter.cpp:1186-1192 | the waiter is unparked and the front value taken, nil on an empty queue |
| `Runtime.FirstReady` | src/codegen/cpp_emitter.cpp:1225-1230 | the first ready arm in source order, channels and futures alike, or -1 |
| `Runtime.SelectSuspend` | src/codegen/cpp_emitter.cpp:1232-1240 | one shared waiter is parked once per channel arm and remembered by every future arm; each future not yet scheduled is queued once, in order; a timeout registers one timer |
| `Runtime.SelectResume` | src/codegen/cpp_emitter.cpp:1241-1247 | the waiter is unparked once per channel arm, unfinished futures forget it, and the winner is the first ready arm, or else the timeout |
| `Runtime.UnparkedEverywhere` | src/codegen/cpp_emitter.cpp:1241-1244 | unparking once per arm leaves none of the waiter behind and all of the others |
| `Runtime.Future.EnsureScheduled` | src/codegen/cpp_emitter.cpp:938-943 | however often it is called, the task is queued at most once |
| `Runtime.Future.Arm` | src/codegen/cpp_emitter.cpp:964-974 | a future that is ready fires the waiter at once; one that is not is scheduled and remembers the waiter |
| `Runtime.Future.Disarm` | src/codegen/cpp_emitter.cpp:975-977 | an unfinished future forgets the waiter |
| `Runtime.Future.Complete` | src/codegen/cpp_emitter.cpp:822-833 | completion fires the remembered waiter unless it has fired |
| `PrattSound.BpSound` | src/parse/parser_exprs.cpp:136-165 | for any table of binding powers, an error-free parse returns a precedence-normal tree, and spelling it in front of the remaining tokens gives the tokens read |
| `PrattSound.PrefixSound` | src/parse/parser_exprs.cpp:168-237 | the operand of a prefix operator is never a cast or a binary operator |
| `PrattSound.RestSound` | src/parse/parser_exprs.cpp:805-893 | suffixes apply to primaries and to each other only |
| `PrattSound.PrimarySound` | src/parse/parser_exprs.cpp:239-385 | literals, names, groups, tuples and vectors are read as they are spelled |
| `PrattSound.TypeSound` | src/parse/parser_types.cpp:120-167 | a cast target without errors is a dotted name, which may start with `Self`, with `?` suffixes, spelled by the tokens read |
| `PrattComplete.BpStops` | src/parse/parser_exprs.cpp:136-165 | a normal tree, spelled in front of a token that does not continue it, is parsed back whole |
| `PrattComplete.PostfixComplete` | src/parse/parser_exprs.cpp:805-893 | suffix chains are parsed back whole |
| `PrattComplete.PrefixComplete` | src/parse/parser_exprs.cpp:168-237 | prefix chains are parsed back whole |
| `PrattComplete.ArgsComplete` | src/parse/parser_exprs.cpp:807-828 | labelled and `&` arguments are parsed back, labels never confused with names |
| `RoundTrip.ParseIffSpelled` | src/parse/parser_exprs.cpp:33-165 | a parse returns a tree without error if and only if the tree is precedence-normal, the tokens read spell it, and the next token does not continue it |
| `RoundTrip.SpellingIsUnique` | src/parse/parser_exprs.cpp:33-165 | two precedence-normal trees spelled alike are one tree: the operator grammar is unambiguous |
| `Printer.PrintMirrors` | src/ast/printer.cpp:678-870 | the printed tokens of a normal tree are its spelling, if and only if the tree holds no node the printer loses; adjacent `?` of a type are one `??` token |
| `Printer.PrintGivesSourceBack` | src/ast/printer.cpp:678-870 | printing what was parsed gives back the tokens that were read, if and only if the tree is faithful |
| `Printer.PrintThenParse` | src/ast/printer.cpp:76-142 | parsing what was printed gives the tree back, if and only if the tree is faithful |
| `Printer.NestedOptionalIsLost` | src/ast/printer.cpp:506-509 | `x as T? ?` is normal and is not faithful: printed, it ends in `??`, and neither the source nor the tree comes back |
| `CppGrouping.EmitMirrors` | src/codegen/cpp_emitter.cpp:3362-3401 | the emitted text of an operator tree is the spelling of the tree that was meant, unless a minus is written against a minus |
| `CppGrouping.LevelsAgree` | src/parse/parser_exprs.cpp:33-73 | where the two precedence tables order an operator and its operands differently |
| `CppGrouping.LoweredNormal` | src/parse/parser_exprs.cpp:33-73 | a tree that is precedence-normal for Vestra is so under the C++ table if and only if no comparison has a bare bitwise operand and no relational operator a bare equality on its left |
| `CppGrouping.EmittedGrouping` | src/codegen/cpp_emitter.cpp:1935-1982 | the emitted text, read with the precedences of sections 7.6.5 to 7.6.15 of ISO/IEC 14882:2020, is the tree that was meant if and only if that holds and no negation is applied directly to a negation |
| `Parser.Parser.Advance` | src/parse/parser.cpp:44-50 | the cursor moves over one token and never past the final Eof |
| `Parser.Parser.Match` | src/parse/parser.cpp:56-62 | steps over the token only when it is next |
| `Parser.Parser.Expect` | src/parse/parser.cpp:64-72 | steps over the token, or reports one error and stays |
| `Parser.Parser.ParseType` | src/parse/parser_types.cpp:120-167 | the cursor version of the type grammar: same tree, same rest, same number of errors |
| `Parser.Parser.ParseExprBp` | src/parse/parser_exprs.cpp:136-165 | the loop that rebuilds the left operand computes the recursive definition on every token array: same tree, same rest, same number of errors; it terminates |
| `Parser.Parser.ParsePrefix` | src/parse/parser_exprs.cpp:168-237 | same, for prefix operators |
| `Parser.Parser.ParsePrimary` | src/parse/parser_exprs.cpp:239-385 | same, for primaries, including the error stub for anything else |
| `Parser.Parser.ParsePostfix` | src/parse/parser_exprs.cpp:805-893 | same, for the suffix loop |
| `Parser.Parser.ParseArgs` | src/parse/parser_exprs.cpp:807-828 | same, for argument lists |
| `Recovery.DeclParser.SyncToDecl` | src/parse/parser.cpp:80-109 | recovery goes past the first newline or to the first token that may start a declaration, whichever comes first, and moves exactly when it is not on such a token |
| `Recovery.DeclParser.ReadAttributes` | src/parse/parser.cpp:217-247 | the attribute loop ends, and moves exactly when an `@` is next |
| `Recovery.DeclParser.ReadStruct` | src/parse/parser_decls.cpp:42-96 | the body loop ends on every token list: each turn reads a token, or leaves the body |
| `Recovery.DeclParser.ReadEnum` | src/parse/parser_decls.cpp:271-317 | same, for enum bodies |
| `Recovery.DeclParser.ReadProtocol` | src/parse/parser_decls.cpp:342-382 | same, for protocol bodies |
| `Recovery.DeclParser.ReadExtension` | src/parse/parser_decls.cpp:402-416 | same, for extension bodies, which hold declarations again |
| `Recovery.DeclParser.ReadDecl` | src/parse/parser_decls.cpp:102-170 | a declaration was read and the cursor moved, or an error was reported |
| `Recovery.DeclParser.Turn` | src/parse/parser.cpp:142-157 | a turn of the top-level loop leaves the cursor where it is if and only if it is on a `module` or an `import`, and then it reports one error |
| `Recovery.DeclParser.ReadUnit` | src/parse/parser.cpp:130-159 | a unit is read to its end unless the error cap is reached, and its declarations do not share tokens |
| `Recovery.DeclParser.ReadDecls` | src/parse/parser.cpp:142-158 | the loop ends after at most as many turns as tokens plus errors left before the cap; it reads to the end unless the cap is reached; entered on a `module` or an `import` it uses up the cap without moving; declarations do not share tokens |
| `MoveSyntax.MovedIff` | src/sema/ownership.cpp:399-419 | a binding counts as moved exactly when it was moved somewhere and has not been bound or reassigned since |
| `MoveSyntax.FaultFreeIff` | src/sema/ownership.cpp:421-440 | a trace has no faults if and only if no tracked binding is read or moved after a move without a fresh value between |
| `Ownership.MergeAll` | src/sema/ownership.cpp:445-456 | after branches, a binding is consumed if and only if it was before or is in some branch |
| `OwnershipSound.IfSound` | src/sema/ownership.cpp:238-273 | bindings after an `if` cover both paths through it |
| `OwnershipSound.MatchSound` | src/sema/ownership.cpp:274-308 | bindings after a `match` cover every path: some guards, then any arm |
| `OwnershipSound.StmtSound` | src/sema/ownership.cpp:95-173 | each statement keeps the checker's bindings in step with every path |
| `OwnershipSound.NoUseAfterMove` | src/sema/ownership.cpp:63-173 | if no move error is reported on a body without loops, whose operands and guards that may be skipped bind no struct and reassign no tracked binding, no path through it reads or moves a tracked binding after a move without a fresh value between |
| `OwnershipSound.SkippedReassignmentIsMissed` | src/sema/ownership.cpp:445-456 | outside those bodies the claim is false: in `f(x); c && { x = g(); true }; f(x)` no error is reported, and the path that skips the block moves `x` twice |
| `OwnershipExact.ReportsAreFaults` | src/sema/ownership.cpp:179-440 | on code without branches, nested blocks and their bindings included, the reports are the faults of the run, one for one and in order |
| `LinearOnce.BranchesAgree` | src/sema/ownership.cpp:525-551 | where no divergence is reported, all branches agree whether the linear local was moved |
| `LinearOnce.MovedExactlyOnce` | src/sema/ownership.cpp:63-89 | a linear local of an accepted body is moved exactly once on every path |
| `LinearClosure.LeastIsReachable` | src/sema/ownership.cpp:466-516 | the least closed set is exactly the structs from which a marked struct is reached through named field types |
| `OwnershipChecker.Checker.ComputeLinearDecls` | src/sema/ownership.cpp:466-516 | the fixpoint loop terminates with the least set that holds the marked structs and is closed under named fields |
| `OwnershipChecker.Checker.OwnsLinear` | src/sema/ownership.cpp:505-513 | a struct joins exactly when a field type is already linear |
| `OwnershipChecker.Checker.ConsumePlace` | src/sema/ownership.cpp:399-419 | in place, one consumption, reported when it is the second |
| `OwnershipChecker.Checker.CheckUse` | src/sema/ownership.cpp:421-440 | a read of a consumed binding is reported |
| `OwnershipChecker.Checker.MergeConsumed` | src/sema/ownership.cpp:445-456 | the loop over a branch's bindings computes the merge |
| `OwnershipChecker.Checker.ReportLinearDivergence` | src/sema/ownership.cpp:525-551 | reports the linear bindings on which branches disagree |
| `OwnershipChecker.Checker.CheckExpr` | src/sema/ownership.cpp:179-328 | the walk that updates the bindings in place computes the specification: bindings, reports in order, divergences |
| `OwnershipChecker.Checker.CheckIf` | src/sema/ownership.cpp:238-273 | swapping the branch states in and out computes the same |
| `OwnershipChecker.Checker.CheckMatch` | src/sema/ownership.cpp:274-308 | guards in sequence, every body from one state, joined |
| `OwnershipChecker.Checker.CheckStmt` | src/sema/ownership.cpp:95-173 | same, for statements |
| `OwnershipChecker.Checker.CheckFunc` | src/sema/ownership.cpp:63-89 | bindings start empty; linear ones still live at the end are leaks |
| `ImportGraph.NoCycle` | src/driver/driver.cpp:418-515 | a list in which all readable imports of a file come before it rules out a cycle through any of its files |
| `ImportGraph.AcyclicHasNoLoop` | src/driver/driver.cpp:588-605 | with ranked dependencies no chain of dependencies returns to its start |
| `ModuleLoader.CycleReportedIff` | src/driver/driver.cpp:390-521 | a cyclic import is reported if and only if some file reachable from the entry imports its way back to itself |
| `ModuleLoader.EachFileOnce` | src/driver/driver.cpp:418-515 | the units are exactly the readable files that the entry reaches, once each |
| `ModuleLoader.DepsAcyclic` | src/driver/driver.cpp:500-511 | the recorded dependencies are acyclic, even where cycles were reported |
| `ModuleLoader.DepsAreImports` | src/driver/driver.cpp:445-512 | without cycles, the dependencies of a unit are exactly the readable files it imports |
| `ModuleLoader.Loader.Load` | src/driver/driver.cpp:418-515 | one file and everything below it is loaded, the stack is as before, earlier units and their dependencies are unchanged; terminates because every call visits a new file |
| `ModuleLoader.Loader.LoadImports` | src/driver/driver.cpp:445-513 | every import of the file has been followed, dropped or reported |
| `ModuleLoader.LoadModuleGraph` | src/driver/driver.cpp:390-521 | cycle errors, the set of units and acyclic dependencies, for any set of files |
| `ModuleLoader.TopoSort.Visit` | src/driver/driver.cpp:588-605 | the unit and all it depends on are listed, dependencies first; the walk terminates |
| `ModuleLoader.TopoOrder` | src/driver/driver.cpp:588-605 | a permutation of the units in which every dependency comes before its importers |
| `Places.WritesCommute` | src/sema/exclusivity.cpp:396-411 | writes to places that do not overlap commute |
| `Places.OverlapIffInterferes` | src/sema/exclusivity.cpp:396-411 | two places overlap if and only if some write through one, in some store where both exist, changes what is read at the other |
| `Exclusivity.ConflictsClean` | src/sema/exclusivity.cpp:303-330 | the nested scan reports nothing if and only if no pair of borrows conflicts |
| `Exclusivity.AcceptedIffNonInterfering` | src/sema/exclusivity.cpp:242-331 | a call is accepted if and only if, for every two places it borrows of which one is inout, no write through an inout one changes the other |
| `Exclusivity.OrderIrrelevant` | src/sema/exclusivity.cpp:242-331 | writes to pairwise disjoint places give the same store in every order |
| `Exclusivity.InoutWritesCommute` | src/sema/exclusivity.cpp:242-331 | hence the writes of an accepted call through its inout places, one each, may be made in any order |
| `Exclusivity.Checker.CheckCall` | src/sema/exclusivity.cpp:242-331 | the checker as it runs: reports of the call and its parts, in order |
| `Exclusivity.Checker.GatherBorrows` | src/sema/exclusivity.cpp:260-301 | the loop that builds the borrows computes them |
| `Exclusivity.Checker.Scan` | src/sema/exclusivity.cpp:303-330 | the index loops report every conflicting pair once |
| `Exclusivity.Checker.Overlaps` | src/sema/exclusivity.cpp:396-411 | the component loop decides overlap |
| `Comptime.Wrap` | src/sema/comptime.cpp:1379-1417 | results are 64-bit two's complement, and in-range results are exact |
| `Comptime.QuotientTruncates` | src/sema/comptime.cpp:1418-1451 | division truncates toward zero: the remainder has the dividend's sign and is smaller than the divisor |
| `ComptimeSound.ResultStays` | src/sema/comptime.cpp:717-735 | once a function has returned, nothing changes its result |
| `ComptimeSound.CallAgrees` | src/sema/comptime.cpp:1193-1219 | a call folds its body with the parameters alone, at one more depth, and agrees with the meaning |
| `ComptimeSound.BlockAgrees` | src/sema/comptime.cpp:990-1023 | a block, with its early returns and its trailing value, agrees with the meaning |
| `ComptimeSound.StmtAgrees` | src/sema/comptime.cpp:1686-1971 | a statement, compound and slot assignments and loops included, agrees with the meaning, its effect on the bindings included |
| `ComptimeSound.TurnsAgree` | src/sema/comptime.cpp:1862-1902 | the turns of a `for` loop whose body runs to its end agree with the meaning, from any turn on; within the limit on turns the loop yields a value |
| `ComptimeSound.ForAgrees` | src/sema/comptime.cpp:1821-1938 | a `for` over a range or a vector, its bounds and its binder included, agrees with the meaning |
| `ComptimeSound.WhileAgrees` | src/sema/comptime.cpp:1939-1962 | a `while`, its condition folded again before each turn, agrees with the meaning |
| `ComptimeSound.FoldAgrees` | src/sema/comptime.cpp:717-1546 | for regular code, loops whose bodies cannot fail included: a fold that yields a value yields the value of the code under a big-step semantics with lexical scopes and checked arithmetic, unless that semantics overflows or goes wrong; early returns and short circuits included |
| `ComptimeSound.ResultPassed` | src/sema/comptime.cpp:1736-1748 | where an expression that passes returns on has returned, its value is what was returned |
| `ComptimeDepth.DepthIrrelevant` | src/sema/comptime.cpp:717-721 | where a `return` stands only at the end of what passes it on, and the bodies of loops run to their end: a fold that succeeds at some depth gives the same value and frame at every smaller depth |
| `ComptimeDepth.DepthsNeverConflict` | src/sema/comptime.cpp:717-721 | for all regular code in all regular programs and any two depths: where both folds succeed they have returned the same, and where nothing was returned value and frame are equal; the value is the same wherever returns are passed on |
| `ComptimeFaults.OuterReturnOverwrites` | src/sema/comptime.cpp:1736-1748 | a `return` inside an operand of a returned expression is overwritten by the outer one: the code means 1 and folds to 4 |
| `ComptimeFaults.DepthChangesTheValue` | src/sema/comptime.cpp:990-1023 | outside regular code two depths can give two values: with `f` returning 5, `{ { return { return 1 } + f() } }` folds to 6 at depth 0 and to 1 where the call runs out of depth |
| `ComptimeFaults.DepthChangesTheFailure` | src/sema/comptime.cpp:717-735 | in regular code a smaller depth can still lose the value: a concrete block folds to 1 where a call behind a `return` runs out of depth, and not at all at depth 0 |
| `ComptimeFaults.FailedBodyIsDropped` | src/sema/comptime.cpp:1862-1872 | a loop whose body does not fold goes on as if it had: `for _ in 0 ..< 1 { if true { y = 1 }; y = 5 }` leaves `y` at 1, and the code means 5 |
| `ComptimeFaults.BreakIsDropped` | src/sema/comptime.cpp:1963-1967 | the comment says that a body with `break` makes the fold bail; the loop goes on instead: `for _ in 0 ..< 2 { y += 1; break }` takes `y` from 0 to 2, and the code means 1 |
| `ComptimeFolder.Folder.FoldTop` | src/sema/comptime.cpp:709-715 | folding on its own starts from an empty frame at depth zero |
| `ComptimeFolder.Folder.FoldWith` | src/sema/comptime.cpp:717-1546 | the walk that mutates the frame computes the specification; terminates on depth left, then size |
| `ComptimeFolder.Folder.FoldCall` | src/sema/comptime.cpp:1193-1219 | arguments in the caller's frame, the body in its own; the caller's bindings survive |
| `ComptimeFolder.Folder.FoldStatements` | src/sema/comptime.cpp:990-1023 | the statement loop, stopped by a return or a failure |
| `ComptimeFolder.Folder.FoldStmt` | src/sema/comptime.cpp:1686-1971 | binding, plain, compound and slot assignment, return, loops and jumps update the frame in place as specified |
| `ComptimeFolder.Folder.FoldFor` | src/sema/comptime.cpp:1821-1938 | the `for` loop, which binds its name turn by turn, restores what it hid and stops at a return or at the limit on turns, computes the specification |
| `ComptimeFolder.Folder.FoldWhile` | src/sema/comptime.cpp:1939-1962 | same, for `while`; terminates on turns left |
| `Alignment.AlignUpLeast` | src/sema/comptime.cpp:437-442 | rounding up gives the least multiple of the alignment that is not below the offset |
| `Alignment.SmallerDivides` | src/sema/comptime.cpp:397-435 | of two powers of two the smaller divides the larger, so the greatest alignment is a common multiple |
| `StructLayout.FieldsPacked` | src/sema/comptime.cpp:481-497 | every field is aligned and starts at the first multiple of its alignment that is free |
| `StructLayout.FieldsOrdered` | src/sema/comptime.cpp:481-497 | fields increase and do not overlap |
| `StructLayout.WholeCovers` | src/sema/comptime.cpp:449-468 | the size is the least multiple of the alignment that covers the last field, and every field alignment divides that of the struct |
| `StructLayout.TypeSane` | src/sema/comptime.cpp:499-533 | every known layout has a power of two as alignment, which divides its size |
| `StructLayout.ScalarsSound` | src/sema/comptime.cpp:397-533 | at an aligned address, every scalar inside a value of any type, through nested structs and vectors, is aligned, and no two overlap |
| `StructLayout.ComputeType` | src/sema/comptime.cpp:499-533 | the recursive size computation gives the specified layout |
| `StructLayout.ComputeStruct` | src/sema/comptime.cpp:449-468 | the running-size loop gives the layout of the whole |
| `StructLayout.ComputeFields` | src/sema/comptime.cpp:481-497 | the per-field loop gives the placement of the same layouts, so the two functions agree |
| `MatchLowering.LoweringSelectsFirstMatch` | src/codegen/cpp_emitter_match.cpp:216-616 | with any catch-all arm unguarded and last, and code that is C++, the switch, the if-chain and the grouped visit select the arm that source order selects, after evaluating the same guards |
| `MatchLowering.ExhaustiveNeverUnreachable` | src/codegen/cpp_emitter_match.cpp:599-612 | such a lowering of exhaustive arms always selects an arm |
| `MatchLowering.RejectedIff` | src/codegen/cpp_emitter_match.cpp:216-616 | the code is not C++ if and only if an enum with payloads has no arm that names a case, or a switch repeats a label |
| `MatchLowering.CatchAllAloneIsRejected` | src/codegen/cpp_emitter_match.cpp:527-532 | `match x { default: 0 }` over an enum with payloads is emitted as an `else` without an `if` |
| `MatchLowering.EarlyDefaultIsPassedOver` | src/codegen/cpp_emitter_match.cpp:279-347 | a catch-all arm that is not last is passed over by the arms behind it |
| `MatchLowering.GroupsHold` | src/codegen/cpp_emitter_match.cpp:432-472 | the group of a case holds exactly the arms that name it, in source order |
| `MatchLowering.LiveSuffices` | src/codegen/cpp_emitter_match.cpp:549-593 | cutting a group after its first unguarded arm, and falling to the default when there is none, changes nothing |
| `MatchExact.LoweredChooses` | src/codegen/cpp_emitter_match.cpp:216-616 | for any arms whose code is C++: the code selects the first arm that names the case and whose guard holds, else the last catch-all arm whatever its guard |
| `MatchExact.PreservesIffHarmless` | src/codegen/cpp_emitter_match.cpp:216-616 | for any arms and declared cases: the code keeps source order on all of the cases and all guard values if and only if it is C++ and every case is settled by an unguarded arm before the first catch-all, or that catch-all has no guard and nothing behind it names the case or catches everything |
| `MatchLowering.Emitter.EmitMatch` | src/codegen/cpp_emitter_match.cpp:216-616 | the pass over the arms emits the specified code |
| `MatchLowering.Emitter.NeedsChain` | src/codegen/cpp_emitter_match.cpp:257-271 | an if-chain is used exactly when an arm has a guard or a plain case repeats |
| `MatchLowering.Emitter.AddToGroup` | src/codegen/cpp_emitter_match.cpp:434-442 | in place, the arm joins the group of the case, or opens one at the end |
| `MatchLowering.Emitter.EmitArms` | src/codegen/cpp_emitter_match.cpp:549-593 | emission stops after the first unguarded arm, and falls to the default when there is none |
| `Lexemes.TokensOrdered` | src/lex/lexer.cpp:120-143 | tokens stand in source order and do not overlap |
| `Lexemes.StringsEnded` | src/lex/lexer.cpp:450-460 | once no splice is open, no interpolated string is |
| `Lexemes.CommentEndsOnce` | src/lex/lexer.cpp:149-166 | a nested comment has one end: no shorter and no longer text from the same start is a comment |
| `Lexemes.SignificantIff` | src/lex/lexer.cpp:184-200 | the place that the look-ahead finds is the only one that is past blanks, newlines and line comments and on none of them |
| `Lexer.CommentedLineContinues` | src/lex/lexer.cpp:184-212 | only line comments are looked past: a newline before a line that starts with a block comment is suppressed, whatever stands behind the comment |
| `Lexer.LongestOperator` | src/lex/lexer.cpp:497-629 | an operator token is the longest operator the text starts with |
| `Lexer.ParenthesisCloses` | src/lex/lexer.cpp:450-460 | the bracket depth falls below the innermost splice depth exactly when the parenthesis closes that splice |
| `Lexer.SpliceOpens` | src/lex/lexer.cpp:386-395 | opening a splice pushes a depth that tells its closing parenthesis apart |
| `Lexer.Lexer.Emit` | src/lex/lexer.cpp:120-129 | a token is the slice of the source at its place, and extends the tiling of the source |
| `Lexer.Lexer.ScanBlockComment` | src/lex/lexer.cpp:149-166 | reads exactly a balanced nested comment, or reports one error and ends at the end of the text, which happens only where no comment starts |
| `Lexer.Lexer.SkipTrivia` | src/lex/lexer.cpp:168-227 | what is skipped is whitespace, newlines and comments only |
| `Lexer.Lexer.SkipNewline` | src/lex/lexer.cpp:173-214 | a newline gives one token, unless a bracket is open, an operator precedes it, or the next significant character is one of nine that only continue an expression: exactly then it gives none |
| `Lexer.Lexer.EatNumber` | src/lex/lexer.cpp:229-266 | the text read is an integer or a float literal of its radix, and a point belongs to it only before a digit |
| `Lexer.Lexer.EatWord` | src/lex/lexer.cpp:268-295 | the text read is a word, with the `?` or `!` of `try` and `as` |
| `Lexer.Lexer.HasSplice` | src/lex/lexer.cpp:309-330 | finds a splice exactly when one opens before the closing quote or the end of the line |
| `Lexer.Lexer.EatString` | src/lex/lexer.cpp:338-361 | the text read is a quoted literal without a splice, unless the line or the text ends first |
| `Lexer.Lexer.ScanInterpContinue` | src/lex/lexer.cpp:363-413 | from a string whose next part is due, to a state in which the tokens nest again: a part and the end, or a part and an open splice |
| `Lexer.Lexer.CloseParen` | src/lex/lexer.cpp:450-460 | a closing parenthesis keeps tokens and counters in step, the string resuming where a splice ends |
| `Lexer.Lexer.Tokenize` | src/lex/lexer.cpp:433-664 | for every text not cut off by the error limit, tokens and trivia tile the source, each token has a text of its kind, only an unclosed comment that was reported is lost; without errors interpolated strings nest, or some closing bracket did not match |
| `Slicing.FindFrom` | src/codegen/cpp_emitter.cpp:473-483 | the first occurrence of the separator from a position |
| `Slicing.Split` | src/codegen/cpp_emitter.cpp:473-485 | joining the pieces with the separator gives the string back, and each cut is at the first separator |
| `Slicing.PieceWithout` | src/codegen/cpp_emitter.cpp:473-485 | no piece holds the separator |
| `Slicing.GreedyCutUnique` | src/codegen/cpp_emitter.cpp:473-485 | there is only one such cut of a string |
| `Slicing.Parallel` | src/codegen/cpp_emitter.cpp:1077-1089 | the sub-spans concatenate to the data and their lengths differ by at most one, longer ones first |
| `Slicing.SplitAt` | src/codegen/cpp_emitter.cpp:1096-1101 | the two views concatenate to the data, cut at the clamped index |
| `Slicing.CountCovers` | src/codegen/cpp_emitter.cpp:1126-1129 | an index is below the count exactly when its chunk starts inside the data |
| `Slicing.CountWraps` | src/codegen/cpp_emitter.cpp:1126-1129 | computed in 64 bits, the count is right if and only if the step is zero, the data are empty, or their size and the step together do not exceed 2^64 |
| `Slicing.Chunks.Next` | src/codegen/cpp_emitter.cpp:1114-1120 | the pieces come in order and are the ones indexing gives, then nothing |
| `Slicing.Chunks.Drain` | src/codegen/cpp_emitter.cpp:1109-1135 | exactly `count` pieces, equal to the indexed ones, concatenating to the data |
| `Slicing.Chunks.CursorFits` | src/codegen/cpp_emitter.cpp:1114-1120 | the cursor plus the step stays below 2^64 wherever a chunk is left, as spans hold at most 2^63 elements |

## Left out

- The re-entrant run loop inside `Future::force` and `Task::get`, coroutine frames, symmetric transfer and real clocks: a step of the machine is one operation, whichever coroutine is running.
- Lost wakeups through futures that two selects share: a future remembers one waiter only, and the discipline speaks of channels.
- OuterReturnOverwrites: the condition under which nested returns fold correctly is given one way (`ComptimeMeaning.Regular`); a returned operand that returns the same value would also fold correctly, which no caller could check.
- NoUseAfterMove: claimed for bodies without loops, `do`-`catch` and compound assignment, whose operands and guards that may be skipped bind no struct and reassign no tracked binding; closures are not walked by the checker. The condition is one-way: outside it the claim fails exactly when some path faults, and which paths do depends on moves before and behind the skipped operand, so a caller could only decide it by walking the paths.
- MovedExactlyOnce: for locals bound once at top level, and bodies whose only return is the last statement, with no move under a short-circuit operand.
- EndOfStream: for one consumer that only uses suspending receives, a condition on who calls what; `Fetches.NilMeansEnd` has the other condition, on the steps of a run, which is exact step by step (`Fetches.StepProvidesIff`).
- ScalarsSound: for structs without by-value cycles, on which the original does not terminate; sizes are not bounded by 64 bits; embedded fields take no space, as in the original.
- FoldAgrees: strings, floats, unsigned integers, shifts and bit operations other than complement, macros, reflection; a loop body is covered where it must run to its end: no calls, no `while` inside, no jump, and nothing whose folding fails without the code going wrong; assignment to a vector slot whose right side shrinks the vector.
- StmtAgrees: as for FoldAgrees; destructuring patterns in `for` do not fold and are not modelled.
- FoldWith: the same forms are left out of the walk as of FoldAgrees.
- FoldStmt: destructuring patterns, and the forms left out of FoldAgrees.
- DepthIrrelevant: for code in which a `return` stands only at the end of what passes it on, and loop bodies run to their end; one-way, because outside it success at a depth says nothing about smaller ones (`ComptimeFaults.DepthChangesTheFailure`). `ComptimeDepth.DepthsNeverConflict` holds for all regular code.
- PrimarySound: brace, `if`, `match` and closure expressions, interpolated strings and macros; the parser reports the error stub where the original reads one of them.
- ParsePrimary: as for PrimarySound.
- TypeSound: generic arguments and function, tuple, vector, `some` and `dyn` types as cast targets; they are errors here.
- ParseType: as for TypeSound.
- Trees of declarations and statements.
- ReadDecls: types, blocks, parameter lists and other parts below the declarations are reduced to how far they read and how many errors they report, which are arbitrary; declarations quoted inside expressions are among those parts.
- Printer: character level; a token stands for its text, and literal quoting and escapes are not modelled. Statement sequences are not printed, because newlines between braces are lost.
- EmittedGrouping: operator trees only; `??`, ranges and vector arithmetic are emitted as calls, and a wrapping operator is emitted as the plain one.
- PreservesIffHarmless: payload patterns that bind or ignore; literal payload patterns and matches over plain values use other code. Arms that name cases the enum does not declare are refused before emission.
- AcceptedIffNonInterfering: records without embedded fields; sub-views of a partition are named segments of their parent.
- Load: resolution of import paths over the search roots is a map from files to their imports; every file that exists but cannot be read counts as no unit.
- Diagnostics text and positions, line and column lookup, the command line, capability walking, derive and type emission, generic inference and type checking, hardware access: mechanical or not part of this model.
