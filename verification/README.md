# A verified model of the Eshkol compiler driver

This project models the algorithmic core of the Eshkol compiler driver, with the string coding of its
compile server and the C lexer of its ABI inventory script, and proves properties of the model in
Dafny 4.11.  `dafny verify dfyconfig.toml` checks the whole project.

| files | what they model |
|---|---|
| `OwnershipSyntax`, `OwnershipAnalysis`, `OwnershipPass` | the ownership analyzer: its syntax tree, what it computes, and the object that computes it |
| `OwnershipSemantics`, `OwnershipFrame`, `OwnershipSoundness`, `OwnershipExactness`, `OwnershipReports`, `OwnershipBranches`, `OwnershipLambdas`, `OwnershipLimits` | a trace semantics independent of the analyzer, its soundness, its exactness, its reports, and programs that show why each restriction is needed |
| `ModuleLoader`, `DependencyResolver`, `Graphs` | expansion of requires, and the three-colour dependency search |
| `Renaming`, `RenamingSemantics`, `RenamingAgreement`, `RenamingScopes` | the two private-symbol renamers, an evaluator, and when renaming preserves meaning |
| `EscapeAnalysis`, `EscapeRounds`, `EscapeTheorems`, `EscapePass` | the capped escape fixed point |
| `RunCache`, `PruneCache`, `CacheKey`, `TransitiveSources`, `Depfile`, `MakeReader` | the shared run cache as a protocol, its eviction, its key, the two source walkers, and the depfile with two readers |
| `CommandLine`, `OptionReports` | the argv-permuting option scanner, and a grammar of command lines it is checked against |
| `Base64`, `JsonStrings` | the server's coding of modules and strings |
| `StripComments` | blanking comments and literals in C headers |

Code that updates fields, arrays or strings in place is a class or a method with a loop, proved equal
to a function on values.  The properties are lemmas about those functions.

Where the code and its documentation or intent part:

- The comment at exe/eshkol-run.cpp:1317 promises dependencies first.  The search list already is, and
  the reversal behind the comment puts dependents first.
- The cycle test at exe/eshkol-run.cpp:3982 never fires, since a file is recorded as imported before its
  requires are processed.  Cyclic requires are treated as already loaded.
- The renamer in use, `eshkol::rename_private_symbols`, reads the initializers of a parallel `let` under
  the binders before them.  The evaluator takes `let` as parallel, as lib/backend/binding_codegen.cpp:640
  does.
- The C lexer leaves the opening quote of a literal, although its documentation says literals are
  blanked.
- A failed inspection of one cache entry's kind ends the pruning scan, because its error code is not
  cleared.

Choices of the model:

- Ownership programs are typed trees.  A tape of booleans decides which operands of a conditional run, so
  a claim about all tapes covers every real execution and more.
- The soundness fragment excludes lambdas and function definitions.  It asks that initializers do not
  mention names bound too early, that borrow operands are variables, that a scope does not borrow a
  borrowed name again, and that conditional operands define nothing.  Shadowing and redefinition are
  allowed.
- Module resolution is an arbitrary function from a name and a directory to an optional file, and a file
  is a list of forms.  The references of a source file are a function of the file.
- A cache key is compared by what it was computed from.  Processes interleave by single file-system
  operations, with unique temporary names.
- Evaluation in the renaming proof has a fuel parameter; the theorem holds for every fuel, and running out
  is matched by running out.

## Model

| member | source | states |
|---|---|---|
| OwnershipSoundness.AcceptedIsSafe | exe/eshkol-run.cpp:1481-1816 | Soundness for every program of the fragment and every choice of operands in if, cond, and, or: if the analyzer reports nothing, no execution reads, moves or borrows a moved value, and none moves a value on loan. |
| OwnershipSoundness.AcceptedIsLinear | exe/eshkol-run.cpp:1557-1571 | Linearity on straight-line programs: if the analyzer reports nothing, each owned binding of an inner scope is moved exactly once before its scope is left. |
| OwnershipExactness.AcceptedIffFine | exe/eshkol-run.cpp:1481-1816 | Exactness: a straight-line program of the fragment that rebinds no borrowed name inside the borrow is accepted if and only if its run is safe and linear, so the analyzer rejects nothing it should accept. |
| OwnershipBranches.AcceptedIffFullRunFine | exe/eshkol-run.cpp:1767-1777 | Exactness with conditionals: a program that is straight-line and of the fragment once its conditionals are read as calls is accepted if and only if the run that evaluates every operand is safe and linear. |
| OwnershipBranches.TraceFull | exe/eshkol-run.cpp:1767-1777 | On a tape that evaluates every operand a program does what it does with its conditionals turned into calls. |
| OwnershipBranches.AcceptedSame | exe/eshkol-run.cpp:1758-1777 | The analyzer's verdict does not tell a conditional from a call. |
| OwnershipExactness.VerdictHolds | exe/eshkol-run.cpp:1481-1499 | Both promises of a verdict together: soundness on the fragment and exactness on its straight-line part. |
| OwnershipReports.FirstFaultIsReported | exe/eshkol-run.cpp:1481-1816 | On the programs of that exactness theorem the reports are the right ones: whatever goes wrong first in a run is reported, with its kind and the variable it happens to. |
| OwnershipReports.ReportedIffFault | exe/eshkol-run.cpp:1481-1816 | And something is reported if and only if something goes wrong. |
| OwnershipReports.FineIff | exe/eshkol-run.cpp:1481-1571 | A run is safe and linear if and only if no event of it is a use, move or borrow of a moved value, a move of a lent one, or the end of a scope with an owned value left. |
| OwnershipReports.Blame | exe/eshkol-run.cpp:1575-1816 | The inductive step: a first fault inside a node is reported by the walk over it. |
| OwnershipLambdas.LambdaIsLet | exe/eshkol-run.cpp:1740-1756 | A lambda is analyzed where it is written, exactly like a let that binds its parameters to unowned values around its body. |
| OwnershipLambdas.RekindWalk | exe/eshkol-run.cpp:1575-1816 | What kind of scope encloses a node makes no difference to the walk over it. |
| OwnershipExactness.FineIsAccepted | exe/eshkol-run.cpp:1481-1499 | The converse of soundness: a safe and linear run leaves the analyzer without a single report. |
| OwnershipExactness.Precise | exe/eshkol-run.cpp:1581-1816 | The inductive form: from a state that mirrors the run, a node whose run stays safe and linear adds no error, whatever the node. |
| OwnershipExactness.PreciseMove | exe/eshkol-run.cpp:1640-1659 | Where the run may move a variable, the analyzer sees it neither as moved nor as borrowed. |
| OwnershipExactness.PreciseBorrow | exe/eshkol-run.cpp:1661-1682 | Where the run may borrow a variable, the analyzer reports nothing for the borrow form, bound or not. |
| OwnershipExactness.PreciseLeave | exe/eshkol-run.cpp:1557-1572 | A scope whose owned values were all moved is left without a report. |
| OwnershipExactness.PreciseLet | exe/eshkol-run.cpp:1684-1740 | The same for let, let* and letrec, scope exit included. |
| OwnershipSoundness.ProgramSimulates | exe/eshkol-run.cpp:1481-1499 | The analysis simulates the run: acceptance gives safety for any tape of branch choices and, without branches, linearity. |
| OwnershipSoundness.Simulates | exe/eshkol-run.cpp:1581-1816 | The step of that simulation: if a node adds no error, running it preserves the correspondence between the scope stack and the run, its loans and its trace. |
| OwnershipSoundness.SimulatesMove | exe/eshkol-run.cpp:1640-1659 | An unreported move is a move of a location that was neither moved nor on loan. |
| OwnershipSoundness.SimulatesBorrow | exe/eshkol-run.cpp:1661-1682 | An unreported borrow form keeps the correspondence and gives every loan back. |
| OwnershipSoundness.SimulatesLet | exe/eshkol-run.cpp:1684-1740 | An unreported let, let* or letrec keeps the correspondence across its scope. |
| OwnershipSoundness.SimulatesBranch | exe/eshkol-run.cpp:1767-1777 | A conditional form keeps it whichever operands run, since analyzing an operand that does not run only adds moves. |
| OwnershipSoundness.ConsumedOnce | exe/eshkol-run.cpp:1557-1572 | A scope left without a report has had each of its owned locations moved once. |
| OwnershipSoundness.MovedAtMostOnce | exe/eshkol-run.cpp:1643-1650 | In a safe trace no location is moved twice. |
| OwnershipFrame.WalkExtends | exe/eshkol-run.cpp:1581-1816 | What every walk keeps: outer scopes gain no names, borrow marks are restored, no move is forgotten, no error is withdrawn. |
| OwnershipFrame.WalkCommutes | exe/eshkol-run.cpp:1619-1630 | Registering a binder that a node does not mention commutes with analyzing the node. |
| OwnershipFrame.EarlyIsLate | exe/eshkol-run.cpp:1688-1703 | Registering let binders before their initializers gives the same state as registering them all afterwards, if no initializer mentions an earlier or its own binder. |
| OwnershipLimits.OwnBinderEscapes | exe/eshkol-run.cpp:1688-1703 | Why initializers may not mention their binder: an accepted program reads a moved value through (let* ((x x)) ...). |
| OwnershipLimits.EarlierBinderEscapes | exe/eshkol-run.cpp:1688-1703 | Why initializers of a parallel let may not mention an earlier binder: it is looked up instead of the outer, moved variable. |
| OwnershipLimits.OwnDefinitionEscapes | exe/eshkol-run.cpp:1619-1630 | Why a definition may not mention itself: the new name is registered before its value is looked at. |
| OwnershipLimits.BorrowOperandEscapes | exe/eshkol-run.cpp:1661-1672 | Why borrow operands must be variables: another operand is not analyzed and can read a moved value. |
| OwnershipLimits.OtherOperationEscapes | exe/eshkol-run.cpp:1808-1816 | Why operations without a case are excluded: what is inside them is not analyzed. |
| OwnershipLimits.ConditionalDefineEscapes | exe/eshkol-run.cpp:1767-1777 | Why conditional forms may not define: a definition that did not run hides a moved variable. |
| OwnershipLimits.NestedBorrowEscapes | exe/eshkol-run.cpp:1670-1679 | Why a scope may not borrow a borrowed name again: the inner end erases the outer mark and a move on loan is accepted. |
| OwnershipLimits.ConditionalMoveLeaks | exe/eshkol-run.cpp:1767-1777 | Why linearity is for straight-line programs: a move on one arm counts for both. |
| OwnershipLimits.ShadowedBorrowRejected | exe/eshkol-run.cpp:1542-1549 | Why exactness excludes rebinding inside a borrow: marks go by name, and a safe and linear program is rejected. |
| OwnershipLimits.UncalledLambdaRejected | exe/eshkol-run.cpp:1742-1756 | Why lambdas are excluded: the body counts where it is defined, and a lambda that is never called makes the analyzer reject a safe and linear program. |
| OwnershipLimits.UncalledFunctionRejected | exe/eshkol-run.cpp:1616-1631 | The same for function definitions. |
| OwnershipLimits.RedefinitionLeaks | exe/eshkol-run.cpp:1619-1630 | Why linearity excludes redefinition in a scope: the second binding hides an owned value that is never moved. |
| OwnershipPass.OwnershipAnalyzer.constructor | exe/eshkol-run.cpp:1512-1514 | An analyzer starts with no scope and no error. |
| OwnershipPass.OwnershipAnalyzer.AnalyzeForms | exe/eshkol-run.cpp:1481-1499 | Returns whether the specification of the analysis accepts the program, with exactly its errors and an empty scope stack, whatever was in the analyzer before. The verdict is sound on the fragment and exact on its straight-line part, where the first fault of the run is among the errors. |
| OwnershipPass.OwnershipAnalyzer.AnalyzeAst | exe/eshkol-run.cpp:1581-1610 | The in-place walk over a node computes the specified state. |
| OwnershipPass.OwnershipAnalyzer.AnalyzeOperation | exe/eshkol-run.cpp:1612-1817 | The same for the operation switch. |
| OwnershipPass.OwnershipAnalyzer.AnalyzeBorrow | exe/eshkol-run.cpp:1661-1682 | A borrow marks the name in the innermost scope, walks the body and unmarks it; an operand that is no variable only walks the body. |
| OwnershipPass.OwnershipAnalyzer.AnalyzeLet | exe/eshkol-run.cpp:1684-1740 | A let pushes a scope, registers and analyzes its bindings in the order of its kind, and leaves the scope. |
| OwnershipPass.OwnershipAnalyzer.AnalyzeLambda | exe/eshkol-run.cpp:1742-1756 | A lambda body is analyzed once, with its parameters registered as unowned. |
| OwnershipPass.OwnershipAnalyzer.AnalyzeRegion | exe/eshkol-run.cpp:1786-1794 | A region body has a scope of its own. |
| OwnershipPass.OwnershipAnalyzer.MoveVariable | exe/eshkol-run.cpp:1643-1657 | A move reports a second move or a move on loan, and otherwise marks the innermost binding. |
| OwnershipPass.OwnershipAnalyzer.CheckScopeExit | exe/eshkol-run.cpp:1557-1572 | Adds one error for every owned binding of the innermost scope that was never moved, and none for the global scope. |
| OwnershipPass.OwnershipAnalyzer.PopScope | exe/eshkol-run.cpp:1520-1524 | Drops the innermost scope, if any. |
| OwnershipPass.OwnershipAnalyzer.LookupVariable | exe/eshkol-run.cpp:1531-1540 | Finds the innermost scope that holds the name. |
| OwnershipPass.OwnershipAnalyzer.FindBorrow | exe/eshkol-run.cpp:1542-1549 | Says whether any scope marks the name as borrowed. |
| OwnershipPass.OwnershipAnalyzer.AnalyzeLetBindings | exe/eshkol-run.cpp:1688-1738 | Registers and analyzes bindings in the order the kind of let asks for. |
| ModuleLoader.LoadProgram | exe/eshkol-run.cpp:3805-4077 | From one entry file, over any require graph, cyclic ones included, loading terminates. Exactly the files reached are loaded, once each, in the order of a depth-first search with required files first, so a file follows what it requires unless that requires the file in turn. Whatever is flattened on the way, the leaves of the output are the leaves of the files in that order, less the directives that were at top level or directly in a sequence. It fails exactly when a require among them resolves to nothing. |
| ModuleLoader.ContentsLeaves | exe/eshkol-run.cpp:2479-2500 | The forms each file contributes are its own, from left to right, however often sequences were opened. |
| ModuleLoader.FlattenLeaves | exe/eshkol-run.cpp:2479-2495 | Opening sequences changes no leaf and no order. |
| ModuleLoader.RequiredPrecedes | exe/eshkol-run.cpp:3805-4077 | In what was loaded, all forms of a required file come before all forms of the requiring one, if the required file does not lead back to it. |
| ModuleLoader.MutualIsCyclic | exe/eshkol-run.cpp:3805-4077 | A required file that leads back closes a cycle, so on an acyclic graph the previous order holds for every require. |
| ModuleLoader.NoDirectivesIff | exe/eshkol-run.cpp:2498-2500 | Processing imports flattens again, for a file and everything it loaded: no require or provide is left at top level if and only if no file kept a form that holds one at most as many sequences deep as the files it was loaded through. |
| ModuleLoader.NoDirectives | exe/eshkol-run.cpp:2479-2495 | In particular none is left before imports are processed, nor in the end where no sequence is nested in another. |
| ModuleLoader.DirectiveLiftedIff | exe/eshkol-run.cpp:2479-2500 | For any list of forms, n flattenings bring a directive to top level if and only if one was at most n sequences deep. |
| ModuleLoader.NestedRequireStays | exe/eshkol-run.cpp:2479-2495 | The expansion of requires opens sequences one level only: it neither loads nor drops a require two levels down. |
| ModuleLoader.LoadedAll | exe/eshkol-run.cpp:3805-4077 | The files loaded from an entry are the ones reached from it, no more and no fewer. |
| ModuleLoader.LoadsThen | exe/eshkol-run.cpp:3832-4044 | Loading one list of targets after another composes: once each, required files first, over both. |
| ModuleLoader.RequireFile | exe/eshkol-run.cpp:3987-4043 | A file loaded for the first time comes after the files its own requires added, and everything they contribute is flattened once more. |
| ModuleLoader.RequiresIff | exe/eshkol-run.cpp:3821-3975 | What it requires: the modules named by its requires at top level or directly in a sequence, where the search from its directory finds them. |
| ModuleLoader.Loader.LoadFile | exe/eshkol-run.cpp:2424-2477 | A file gives its forms the first time and none afterwards, and is recorded as imported before anything it requires is looked at. |
| ModuleLoader.Loader.LoadModule | exe/eshkol-run.cpp:3976-4043 | One file and everything it requires that was not loaded yet, flattened again; the loading set stays within the imported one, so the cycle error is never raised. |
| ModuleLoader.Loader.RequireModule | exe/eshkol-run.cpp:3934-4043 | The same for a module name, which sets the failure flag when it resolves to no file. |
| ModuleLoader.Loader.RequireAll | exe/eshkol-run.cpp:3832-4044 | The same for the names of one require, in order. |
| ModuleLoader.Loader.ExpandForm | exe/eshkol-run.cpp:3821-4069 | A require becomes what it loads, a provide nothing, any other form itself. |
| ModuleLoader.Loader.ProcessRequires | exe/eshkol-run.cpp:3805-4077 | The forms of the required files in load order, followed by the remaining forms, with the failure flag set exactly when some require resolved to nothing. |
| RunCache.StableCacheIsSound | exe/eshkol-run.cpp:863-1092 | In every interleaving of any number of processes, with sources stable during each transaction, every entry is a complete build for its key and every executed file is a complete build for the key of the process that ran it. |
| RunCache.HitRuns | exe/eshkol-run.cpp:914-917 | A process whose entry is there runs that entry and starts no child, in any interleaving in which nobody evicts or replaces the entry. |
| RunCache.HitIsPossible | exe/eshkol-run.cpp:914-917 | The lookup and the launch are possible from there, and change nothing but the process. |
| RunCache.RenameRuns | exe/eshkol-run.cpp:1071-1092 | After a rename the process runs its own build where it succeeded, the entry that was there where it failed beside one, and falls back to the in-process compiler otherwise, in any such interleaving. |
| RunCache.MissBuilds | exe/eshkol-run.cpp:918-1013 | A process whose entry was not there ends only after its compiler child did. |
| RunCache.ChildDecides | exe/eshkol-run.cpp:1011-1069 | Over any run, how the child ended and whether its artefact is still there decide what the parent does next. |
| RunCache.StatusTells | exe/eshkol-run.cpp:355-370 | Only a delivered artefact ends with status 0, and link and diagnostic failures are told apart exactly to a `-r` parent. |
| RunCache.Advances | exe/eshkol-run.cpp:863-1092 | No process waits for another: each has a step it can take until it has ended, and each such step brings it closer to its end. |
| RunCache.EndsSoon | exe/eshkol-run.cpp:863-1092 | So in any interleaving a process takes at most seven of them, evictions apart. |
| RunCache.EntriesAreGenuine | exe/eshkol-run.cpp:863-1092 | Without that proviso: entries are complete, and built for their key exactly when the builder's child read the sources its key was computed from. |
| RunCache.ExecutedIsGenuine | exe/eshkol-run.cpp:1064-1092 | The same for whatever a process executed. |
| RunCache.RejectedNeverRuns | exe/eshkol-run.cpp:1011-1062 | A run is refused if and only if its child reported a rejection or a link failure, and then the program runs neither from the cache nor in process. |
| RunCache.OnlyPruneDeletes | exe/eshkol-run.cpp:521-577 | Over any run, an entry that was there and is gone was evicted by a pruner on the way, and one that is new or changed was renamed into place by a process with its key. |
| RunCache.LastTouchDecides | exe/eshkol-run.cpp:521-577 | The last step that touches an entry decides what is under its key: nothing after an eviction, what the process had built after a rename. |
| RunCache.NoTemporaryLeft | exe/eshkol-run.cpp:1011-1092 | A process that ended has left no temporary behind. |
| RunCache.StepKeeps | exe/eshkol-run.cpp:863-1092 | The protocol invariant is kept by every step of every process, by edits and by eviction. |
| RunCache.RunKeeps | exe/eshkol-run.cpp:863-1092 | And so it holds after any sequence of steps. |
| RunCache.VerdictsKept | exe/eshkol-run.cpp:1011-1062 | The exit status of the child decides the result of the parent, over whole runs. |
| RunCache.StableNeverDrifts | exe/eshkol-run.cpp:863-1092 | With stable sources no child reads other sources than its parent's key covers. |
| RunCache.BuildPublishes | exe/eshkol-run.cpp:999-1091 | A build publishes, under the key computed before it, a program compiled from the sources as they were when it read them. |
| RunCache.EditDuringBuildPoisons | exe/eshkol-run.cpp:863-1092 | Stability is needed: an edit between the key and the build leaves an entry for the old sources that holds a program built from the new ones. |
| PruneCache.PrunedFits | exe/eshkol-run.cpp:521-577 | When every removal succeeds, the evicted entries are those written before the ones left, and sparing the last one evicted would have left too much. What is left of the entries the scan kept is at most one gibibyte if and only if their sizes add up to less than a 64-bit word. |
| PruneCache.AllCurrentFit | exe/eshkol-run.cpp:521-577 | Where no current entry stands behind an unreadable one the scan kept them all, so the same holds of all current entries. |
| PruneCache.FitsIff | exe/eshkol-run.cpp:539-576 | The last condition by itself, for any list of entries. |
| PruneCache.WrappedStopsEarly | exe/eshkol-run.cpp:566-576 | Where the total has wrapped, the eviction stops while more than the limit is left. |
| PruneCache.KeptIff | exe/eshkol-run.cpp:539-559 | The scan keeps all current entries if and only if none stands behind an entry whose kind could not be read. |
| PruneCache.UnreadableHidesTheRest | exe/eshkol-run.cpp:540-544 | An input: one such entry in front hides an oversized one from the pruning. |
| PruneCache.NeverClamped | exe/eshkol-run.cpp:566-576 | Any number of steps of the loop, clamp included, from the sum of the sizes or more, give the exact difference. |
| PruneCache.EvictionIsExact | exe/eshkol-run.cpp:563-576 | From the total the scan holds in a 64-bit word, with failing removals too: the loop tries a prefix of the entries by time, and before each attempt more than the limit was left. If it stops early or no removal fails, what is left is within the limit if and only if the sizes add up to less than a word. |
| PruneCache.AgedIff | exe/eshkol-run.cpp:552-556 | Exactly the cached files written more than thirty days ago that the scan gets to go by age. |
| PruneCache.EvictsIff | exe/eshkol-run.cpp:561-576 | Something is tried for its size if and only if the total the scan holds is more than a gibibyte. |
| PruneCache.SmallStays | exe/eshkol-run.cpp:521-577 | A cache with no old file, of no more than a gibibyte, is left alone. |
| PruneCache.WrappedLeavesTooMuch | exe/eshkol-run.cpp:566-576 | Where they add up to a word or more, more than the limit is left, whatever removals fail. |
| PruneCache.TriedIsShortest | exe/eshkol-run.cpp:566-576 | The prefix tried is the shortest that brings the exact size down. |
| PruneCache.RunningTotalIff | exe/eshkol-run.cpp:566-576 | From the total the scan holds, the loop's running total is the sum of the surviving sizes after any number of evictions if and only if the sizes add up to less than a word. |
| PruneCache.SurvivorsAddUp | exe/eshkol-run.cpp:566-576 | From the exact sum of the sizes the running total is the sum of the surviving sizes. |
| PruneCache.GuardIff | exe/eshkol-run.cpp:571-573 | From any total, with any failing removals, the guard against underflow takes effect if and only if the total is over the limit, the removable sizes exceed it, and no prefix of them brings it to between zero and the limit. |
| PruneCache.NeverUnderflows | exe/eshkol-run.cpp:571-573 | So, from the total the scan holds, it never takes effect where the sizes add up to less than a word. |
| PruneCache.GuardTakesEffect | exe/eshkol-run.cpp:566-576 | An input where it does: an unread size before an oversized entry sets the total to zero, and the oversized entry stays. |
| PruneCache.UnreadSizeHidesTheRest | exe/eshkol-run.cpp:545-558 | An input: a size that could not be read counts as the largest word, so the total wraps and an oversized cache is left alone. |
| PruneCache.CacheDirectory.Scan | exe/eshkol-run.cpp:539-559 | The scan removes exactly the entries over thirty days old and keeps the others with their total in a 64-bit word; it ends at an entry whose kind cannot be read. |
| PruneCache.CacheDirectory.Evict | exe/eshkol-run.cpp:566-576 | The loop removes the specified prefix, less what cannot be removed, and nothing else. |
| PruneCache.CacheDirectory.Prune | exe/eshkol-run.cpp:521-577 | Both together; the entries are considered in an order sorted by time whenever something must go, only earlier ones are tried, and with no failed removal the rest fits if and only if the sizes fit in a word. |
| PruneCache.SortByTime | exe/eshkol-run.cpp:563-565 | A permutation in order of time. |
| CacheKey.EncodeInjective | exe/eshkol-run.cpp:433-438 | The label NUL value NUL framing of NUL-free fields is uniquely decodable, over field lists of any length. |
| CacheKey.SameInputSameConfig | exe/eshkol-run.cpp:579-633 | Two run configurations with the same digest input agree on every scalar and on the ordered include paths, library paths and libraries. The source bytes may hold NULs; the other fields are paths, numbers, versions and digests, which cannot. |
| CacheKey.BytesSplit | exe/eshkol-run.cpp:596-604 | Whatever bytes stand in front, the fields from the transitive digest on determine where they start. |
| CacheKey.Aligned | exe/eshkol-run.cpp:433-438 | An encoding that starts behind a NUL of another one starts at one of its fields: the cut cannot fall between a label and its value. |
| CacheKey.FieldsInjective | exe/eshkol-run.cpp:596-630 | The list of fields determines the configuration. |
| CacheKey.GroupsInjective | exe/eshkol-run.cpp:628-630 | A run of fields under one label is told apart from fields under other labels behind it. |
| CacheKey.DependenciesUniqueIff | exe/eshkol-run.cpp:2991-3003 | In the dependency digest, where file bytes are framed raw and a sorted map gives the paths in increasing order, a list is the only such one with its digest input if and only if it is empty, or has one entry whose bytes hold nothing that could separate it from a later path. |
| CacheKey.Merges | exe/eshkol-run.cpp:2991-3003 | Why: two dependencies and one whose bytes hold both, with the labels between them, have the same digest input. |
| CacheKey.FrameSplits | exe/eshkol-run.cpp:433-438 | A frame is told apart from whatever follows it. |
| CacheKey.HashInput.Update | exe/eshkol-run.cpp:433-438 | An update appends one frame to what the digest has absorbed. |
| CacheKey.KeyInput | exe/eshkol-run.cpp:594-632 | The key's digest absorbs exactly the encoding of the fields, in order. |
| TransitiveSources.CollectBoth | exe/eshkol-run.cpp:2928-3099 | Over any reference graph both walkers terminate and cover the same files, those reached from the entry; the paths come once each, in the order of a depth-first search with the entry first, and the bytes are those of each file. |
| TransitiveSources.ExploredAll | exe/eshkol-run.cpp:2928-3099 | A walk from nothing has explored exactly the files reached. |
| TransitiveSources.LinksIff | exe/eshkol-run.cpp:2928-2989 | A file leads on to what it refers to if and only if it can be read and is not empty. |
| TransitiveSources.SourceCollector.Collect | exe/eshkol-run.cpp:2928-2989 | One call explores what it can reach without passing files seen before, and records the bytes of each. |
| TransitiveSources.PathCollector.Collect | exe/eshkol-run.cpp:3040-3099 | The path walker appends what a depth-first search from the file finds beyond the files seen before, each file before what it refers to. |
| Depfile.TextRoundTrip | exe/eshkol-run.cpp:3134-3162 | For newline-free paths the depfile parses back, line by line, to the target and the dependencies in order. |
| MakeReader.MakeReadsIff | exe/eshkol-run.cpp:3134-3162 | By Make's rules for backslashes, blanks, comments and dollars the prerequisites read back as written if and only if no path has a tab, a newline, or a backslash in front of a space, a hash or its end. |
| MakeReader.RecoveredIff | exe/eshkol-run.cpp:3104-3123 | The same condition for one escaped path, whatever follows it. |
| Depfile.EscapeRoundTrip | exe/eshkol-run.cpp:3104-3123 | The escape has a left inverse, although backslashes are not escaped. |
| Depfile.EscapeInjective | exe/eshkol-run.cpp:3104-3123 | Distinct paths are escaped differently. |
| Depfile.EscapeDepfilePath | exe/eshkol-run.cpp:3104-3123 | The loop computes the specified escape. |
| Depfile.WriteDepfile | exe/eshkol-run.cpp:3134-3162 | The writer computes the specified text. |
| RenamingAgreement.RenamingPreservesMeaning | exe/eshkol-run.cpp:3757-3800 | For any module whose forms agree with scoping and use no mangled name, running the renamed module gives the renamed values and the renamed store, closures and divergence included, for either renamer. |
| RenamingAgreement.ModuleSameIffAgrees | exe/eshkol-run.cpp:3757-3800 | A renamer treats a module as scoping asks if and only if each reference is read under the right binders and, for the copy in the driver, no private name is quoted. |
| RenamingScopes.ModuleSameIffScoped | lib/core/module_visibility.cpp:110-142 | Said of the module alone: the renamer in use is right if and only if no initializer of a parallel let refers to a private name, not bound around it, that an earlier binder of that let has; the copy in the driver if and only if no binder of a private name has a use and no private name is quoted. |
| RenamingScopes.ScopedKeepsMeaning | lib/core/module_visibility.cpp:388-411 | And then it preserves the meaning of the module. |
| RenamingScopes.AgreesIffUncaptured | lib/core/module_visibility.cpp:110-142 | For one expression under any binders, for the renamer in use. |
| RenamingScopes.AgreesIffUnused | exe/eshkol-run.cpp:3392-3475 | For one expression under any binders, for the copy in the driver. |
| RenamingAgreement.SameIffAgrees | exe/eshkol-run.cpp:3392-3475 | The same for one expression. |
| RenamingAgreement.BlindCapturesParameter | exe/eshkol-run.cpp:3392-3475 | The copy in the driver renames a parameter's use and not the parameter. |
| RenamingAgreement.LetStarMissesInitializer | lib/core/module_visibility.cpp:110-142 | The renamer in use reads a parallel let as let* and leaves a reference to a private name alone. |
| RenamingAgreement.LetStarBreaksModule | lib/core/module_visibility.cpp:388-411 | Such a module runs, and is stuck once renamed. |
| RenamingSemantics.ModuleSame | lib/core/module_visibility.cpp:388-411 | Lexical renaming preserves the meaning of a module from any store. |
| RenamingSemantics.EvalSame | lib/core/module_visibility.cpp:110-142 | And of an expression, in every environment of clean names. |
| RenamingSemantics.ApplySame | lib/core/module_visibility.cpp:110-142 | And of the application of a closure that was itself renamed. |
| Renaming.PrivateNamesDiffer | exe/eshkol-run.cpp:1415-1424 | For a fixed module the mangling is injective and changes every name. |
| Renaming.PrivateNamesInjective | exe/eshkol-run.cpp:3757-3775 | So the rename map of a module is injective. |
| Renaming.PrivateNamesCollideIff | exe/eshkol-run.cpp:1415-1424 | Across modules two names coincide if and only if one mangled module name starts the other and what is left is empty, one underscore, or starts with two, with the symbols differing by just that. |
| Renaming.PrivateNamesCollide | exe/eshkol-run.cpp:1415-1424 | Inputs for each of the three ways. |
| Renaming.RenamePrivateSymbols | exe/eshkol-run.cpp:3757-3800 | The in-place pass collects the names the module defines and does not export, and rewrites every form with them. |
| Renaming.CollectPrivateNames | exe/eshkol-run.cpp:3757-3775 | The loop collects exactly the definitions the module does not export, each with its mangled name. |
| Renaming.NothingToRename | lib/core/module_visibility.cpp:388-411 | A module with no private names is left as it was. |
| DependencyResolver.ModuleDependencyResolver.Resolve | exe/eshkol-run.cpp:1302-1321 | On a fresh resolver the result is empty if and only if the graph is empty or cyclic. Otherwise it lists every mentioned module once, in the reverse of the order in which a depth-first search from the registered modules finishes them, which is dependencies-first; what is reported on failure is a cycle of the graph. On a used resolver the same holds relative to the modules an earlier search left coloured. |
| DependencyResolver.DependentsFirst | exe/eshkol-run.cpp:1317-1318 | In the returned order a module stands before its dependencies, contrary to the comment on the reversal. |
| DependencyResolver.DependenciesFirstIff | exe/eshkol-run.cpp:1317-1318 | So the returned order is dependencies-first, as that comment says, if and only if no module has a dependency. |
| DependencyResolver.ReportedIsCycle | exe/eshkol-run.cpp:1367-1385 | The printed segment is a closed walk along dependencies. |
| DependencyResolver.ResolvedAll | exe/eshkol-run.cpp:1302-1321 | A first search without a report has listed every module, and the graph is acyclic. |
| DependencyResolver.FinishVisit | exe/eshkol-run.cpp:1360-1364 | Finishing a module whose dependencies are finished keeps the list dependencies-first. |
| DependencyResolver.ModuleDependencyResolver.AddModule | exe/eshkol-run.cpp:1293-1299 | The first registration of a module wins, and a fresh resolver stays fresh. |
| DependencyResolver.ModuleDependencyResolver.Dfs | exe/eshkol-run.cpp:1333-1365 | Visiting an unvisited module either appends it and everything new below it, dependencies first, or returns a walk that closes on the stack. |
| DependencyResolver.ModuleDependencyResolver.VisitDependencies | exe/eshkol-run.cpp:1340-1358 | After the loop every dependency is finished, or a walk closed on the stack. |
| DependencyResolver.ModuleDependencyResolver.FormatCycle | exe/eshkol-run.cpp:1367-1385 | Prints the part of the path from the first occurrence of its last module. |
| DependencyResolver.ModuleDependencyResolver.VisitAll | exe/eshkol-run.cpp:1306-1315 | Every registered module is finished, or a walk closed. |
| Graphs.OrderedIsAcyclic | exe/eshkol-run.cpp:1287-1321 | A graph whose nodes can be listed dependencies-first has no cycle. |
| Graphs.DepthFirstThen | exe/eshkol-run.cpp:3832-4044 | A depth-first search from some targets and then from others is one from all of them in turn. |
| EscapeTheorems.NeverAboveLevel | exe/eshkol-run.cpp:2280-2317 | The kind computed for a value never exceeds the greatest marker among the values it flows into, for any graph and any number of rounds. |
| EscapeTheorems.ReachesLevel | exe/eshkol-run.cpp:2280-2317 | With no more values than rounds it is exactly that least fixed point. |
| EscapeTheorems.CapMissesLongChain | exe/eshkol-run.cpp:2283-2287 | The bound is tight: with more values than rounds, the first value of a chain stays on the stack and flows into a shared one. |
| EscapeTheorems.MissesChainOf101 | exe/eshkol-run.cpp:2283-2287 | In particular the analyzer, with its 100 rounds, leaves the first value of a chain of 101 on the stack. |
| EscapeTheorems.ExactIff | exe/eshkol-run.cpp:2280-2317 | The capped iteration is exact on all graphs of n values if and only if n is at most the cap. |
| EscapeTheorems.StackStaysOnStack | exe/eshkol-run.cpp:2319-2334 | For up to 100 values no STACK value flows transitively into a REGION or SHARED one, and no REGION value into a SHARED one. |
| EscapeTheorems.AllocationIff | exe/eshkol-run.cpp:2280-2334 | For up to 100 values, a value is SHARED if and only if it flows, transitively, into one that is stored or captured, and on the STACK if and only if it flows into none that is stored, captured or returned. |
| EscapeRounds.KindIs | exe/eshkol-run.cpp:2280-2317 | On every graph and under any positive cap the kind of a value is exactly the greatest marker at the end of the walks from it that go to a higher table position fewer times than the cap. |
| EscapeRounds.KindMeans | exe/eshkol-run.cpp:2292-2301 | In terms of the marks, for any graph and cap: a value escapes globally if and only if such a walk leads to a stored value, through a closure if not but one leads to a captured value, by a return if neither but one leads to a returned value. |
| EscapeTheorems.ExactGraphIff | exe/eshkol-run.cpp:2280-2317 | So on one graph the capped iteration is exact if and only if every marker a value reaches is matched at the end of such a walk from it. |
| EscapeRounds.RoundTracks | exe/eshkol-run.cpp:2286-2316 | Each round carries markers along any steps to lower positions and one step more to a higher one, and no further. |
| EscapeTheorems.ShortWalk | exe/eshkol-run.cpp:2280-2317 | A walk between two values can be cut to at most as many nodes as there are values. |
| EscapePass.EscapeAnalyzer.ComputeEscapeKinds | exe/eshkol-run.cpp:2280-2317 | The in-place loop computes the capped iteration. From the initial table every kind is the greatest marker at the end of walks with fewer than 100 steps to a higher position, and for up to 100 values the least fixed point. |
| EscapePass.EscapeAnalyzer.Analyze | exe/eshkol-run.cpp:1907-1910 | Both phases leave the strategies this demands. |
| EscapePass.EscapeAnalyzer.UpdateAll | exe/eshkol-run.cpp:2288-2315 | One round in place, with later values seeing earlier updates, reports a change exactly when there was one. |
| EscapePass.EscapeAnalyzer.DetermineAllocationStrategies | exe/eshkol-run.cpp:2319-2334 | Every value gets the strategy of its kind. |
| CommandLine.RunSorts | exe/eshkol-run.cpp:1118-1243 | Over a whole run argv stays a permutation with argv[0] in place. The words from optind on are the positional ones in their order, except that the words after `--` come before them and that a last option without its argument takes the first. |
| CommandLine.InOrderIff | exe/eshkol-run.cpp:1130-1150 | A whole run leaves the words in the original order if and only if the words after a `--` and the positional ones before it repeat one common list of words, and no option that lacks its argument finds a positional word to take. |
| OptionReports.RunReports | exe/eshkol-run.cpp:1118-1243 | Whichever way argv is read as positional words, long and short options in their spellings, a `--` or an option that lacks its argument, a run reports what these say, in order and with their arguments, and leaves the positional words they leave. |
| OptionReports.Parse | exe/eshkol-run.cpp:1118-1243 | Every argv can be read that way, so this covers every run. |
| OptionReports.ReadsLong | exe/eshkol-run.cpp:1151-1199 | A long option alone, with a joined or separate argument, with one it does not take, or unknown, is reported as such. |
| OptionReports.RunLetters | exe/eshkol-run.cpp:1201-1242 | A group of letters is reported letter by letter, known or unknown. |
| OptionReports.SplitItems | exe/eshkol-run.cpp:1130-1150 | The positional words are exactly those written as such. |
| CommandLine.CommuteIff | exe/eshkol-run.cpp:1136-1147 | Two lists of words may swap places unnoticed if and only if both repeat one list. |
| CommandLine.NextPermutes | exe/eshkol-run.cpp:1118-1243 | Each call permutes argv and leaves the words before optind alone. |
| CommandLine.NextProgresses | exe/eshkol-run.cpp:1118-1243 | A call that does not report the end makes progress, so a run ends. |
| CommandLine.NextExpected | exe/eshkol-run.cpp:1118-1243 | A call does not change which words will be left in the end, nor their order. |
| CommandLine.RunLeaves | exe/eshkol-run.cpp:1118-1243 | So a run leaves the words a simple left-to-right split predicts. |
| CommandLine.ScanAll | exe/eshkol-run.cpp:1118-1243 | The in-place scanner over argv has these properties, and reports what the specification reports. |
| CommandLine.OptionScanner.RotateToEnd | exe/eshkol-run.cpp:1141-1147 | A positional word moves behind all others, which keep their order. |
| CommandLine.OptionScanner.SkipToOption | exe/eshkol-run.cpp:1130-1150 | Positional words are moved away until an option or the end is in front. |
| CommandLine.OptionScanner.LongOptionAt | exe/eshkol-run.cpp:1151-1199 | A long option with its attached, separate or missing argument, or an unknown one. |
| CommandLine.OptionScanner.ShortOptionAt | exe/eshkol-run.cpp:1201-1242 | A short option, alone or in a cluster, with its attached, separate or missing argument, or an unknown one. |
| CommandLine.OptionScanner.NextOption | exe/eshkol-run.cpp:1118-1243 | One call computes the specified next state and report. |
| CommandLine.OptionScanner.ScanToEnd | exe/eshkol-run.cpp:1118-1243 | Calls until the end compute the specified run. |
| Base64.Base64RoundTrip | exe/eshkol-server.cpp:265-279 | Every byte string is recovered by a strict decoder of section 4 of RFC 4648, which takes nothing but the digits of its alphabet and pads at the end. |
| Base64.Base64Length | exe/eshkol-server.cpp:265-279 | The output has four characters for every started group of three bytes. |
| Base64.GroupRoundTrip | exe/eshkol-server.cpp:268-278 | The same for one group of one, two or three bytes, with its padding. |
| Base64.EncodeBase64 | exe/eshkol-server.cpp:265-279 | The loop computes the specified encoding. |
| JsonStrings.ReadWritten | exe/eshkol-server.cpp:441-468 | The reader recovers a written member of a document if and only if the string holds no double quote and no control character other than newline, carriage return and tab. |
| JsonStrings.StandardReadsBack | exe/eshkol-server.cpp:235-257 | Every string, quotes and control characters included, is recovered from its escaped form by a reader of section 7 of RFC 8259. |
| JsonStrings.ReadBackIff | exe/eshkol-server.cpp:235-257 | The same condition for the text behind the opening quote, whatever follows the string. |
| JsonStrings.FirstMember | exe/eshkol-server.cpp:441-447 | In a document that starts with the member, the member is what the reader finds first. |
| JsonStrings.GetJsonString | exe/eshkol-server.cpp:441-468 | The value of the first occurrence of the key, unescaped up to the next quote; empty if the key or the quote is missing. |
| JsonStrings.WriteJsonString | exe/eshkol-server.cpp:235-257 | The writer computes the specified escape. |
| StripComments.LexIsExact | scripts/abi_header_inventory.py:341-384 | Every text is a list of tokens of an independent grammar, and stripping blanks exactly the comments and the literals after their opening quote, newlines apart. |
| StripComments.LexIsUnique | scripts/abi_header_inventory.py:341-384 | That list is the only one with this text, so what is blanked is determined by the grammar. |
| StripComments.TokensBlanked | scripts/abi_header_inventory.py:341-384 | The text of any token list comes out blanked token by token, unterminated comments and literals included. |
| StripComments.LinesAgree | scripts/abi_header_inventory.py:413-414 | The length is kept, and every offset has the same line number in the stripped text as in the file. |
| StripComments.StripOverlays | scripts/abi_header_inventory.py:341-384 | Every character is kept or blanked in place, and newlines are never touched. |
| StripComments.SecondPassIff | scripts/abi_header_inventory.py:366-382 | Since the opening quote of a literal is left, stripping twice equals stripping once if and only if behind the first literal there are only comments, spaces and newlines. |
| StripComments.SecondPass | scripts/abi_header_inventory.py:341-384 | The same for any text, by its tokens. |
| StripComments.SecondPassDiffers | scripts/abi_header_inventory.py:366-382 | An input for it: a literal with code behind it. |
| StripComments.StripCommentsAndStrings | scripts/abi_header_inventory.py:341-384 | The in-place loop computes the specified text and terminates. |
| StripComments.BlankLine | scripts/abi_header_inventory.py:351-354 | A line comment is blanked up to its newline. |
| StripComments.BlankBlock | scripts/abi_header_inventory.py:355-365 | A block comment is blanked with its marks, newlines apart, to its end or the end of the text. |
| StripComments.BlankLiteral | scripts/abi_header_inventory.py:366-382 | A literal is blanked after its opening quote, escaped characters included. |

## Left out

- LLVM code generation, object emission, linking and toolchain probing: foreign calls and platform branches.
- The parser and the module resolver: files are lists of forms and resolution is a parameter.
- Import forms, precompiled modules, unit libraries and prefix aliases in the loader: they add cases and no harder property. Of `process_imports` only the flattening is modelled.
- Renaming inside the loader: it is modelled on its own, in `Renaming`.
- SHA-256: the key is reasoned about before digestion.
- The object-code module cache: its key omits settings that its contents depend on.
- Building the escape graph from the syntax tree: the fixed point is over any graph.
- The text of ownership error messages and the order of errors: errors are a multiset.
- The order in which the resolver takes up unvisited modules: any order is allowed, so the sorted map's is one of them.
- The text scan that finds the references of a source file.
- The text of option-scanner messages, and flag variables of long options.
- The fixed columns of a header snippet and the detectors behind the C lexer: set comparisons and regular expressions.
- Server sockets, sessions and request parsing beyond one string member.
- OwnershipSoundness.AcceptedIsSafe: the fragment leaves out lambdas and function definitions, because the analyzer looks at their bodies once, at the definition, and not at their calls.
- OwnershipReports.FirstFaultIsReported: says nothing of what is reported after the first fault, where the analyzer and the run part: a move of a lent value is reported and not carried out.
- OwnershipLimits.UncalledLambdaRejected: calls of closures are no part of the semantics, so what a body does when it is called, once or twice, is not modelled.
- ModuleLoader.LoadProgram: is about one source file. With several, requires are processed once per file over all forms, and a require lifted by an earlier flattening is then loaded.
- ModuleLoader.NoDirectivesIff: the same.
- RunCache.OnlyPruneDeletes: a pruner may evict any file; which ones it picks is in `PruneCache`.
- RunCache.EntriesAreGenuine: computing a key and building each read all sources in one step, so an edit between the reading of two files of one step is not modelled.
- RunCache.ExecutedIsGenuine: the same.
- MakeReader.MakeReadsIff: is about the prerequisites, which the driver writes as canonical paths; targets, pattern characters and variable references are left out.
- PruneCache.SortByTime: is an insertion sort in place of the library's sort; entries written at the same time may come in either order.
- ModuleLoader.Loader.LoadFile: a file that exists and cannot be opened is not distinguished from one without forms.
- RunCache.StableCacheIsSound: a process that is killed between two steps is one that takes no further step, and the directory is not lost.
