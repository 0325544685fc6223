# Models of an Idris 2 compiler and its run-time support

This project models parts of an Idris 2 compiler written in Idris, together with the
C and JavaScript run-time code it ships, and proves what those parts keep or preserve.

- **The back end.** `CExp`, the untyped lambda calculus handed to the back end, is
  lambda-lifted, converted to administrative normal form and turned into register
  code. Each language has an evaluator in which fuel bounds the depth of calls and
  applications. Every pass preserves outcomes with the same fuel, and the passes are
  composed into one statement about whole programs (`Backend.BackEndCorrect`). The
  lifting record and the variable counter are classes, as in the compiler, proved to
  compute the functions the theorems are about.
- **Transformations of `CExp`.** Case-of-case, floating a lambda out of a case, merging
  lambdas into the argument list, fixing arities, and forgetting de Bruijn indices.
  They share a theory of renamings: a term and its renaming have the same outcome, up
  to the layout of closures.
- **The reference-counted heap** of the RefC run time: counters that saturate, recursive
  release, and the operations on closures, references and arrays.
- **Elaborator bookkeeping.** The search for missing patterns, the least sub-environment
  of a term, and the context with its staged branches.
- **The XML canary**: tokenizer, tree builder and bounded search.
- **32-bit arithmetic in doubles** and **the lock-free signal collector**.

Files follow that order: `Base`, `CExp`, `CEval`, `CFuel`, `RenEval` (shared); `Lifted`,
`LambdaLift`, `DropUnused`, `LiftCorrect`, `LiftState`, `LiftProgram`, `LiftNames`, `ANF*`, `VM*`,
`Backend` (back end); `CaseOpts`, `CaseLam*`, `Merge`, `Arity*`, `CurriedEval`, `Forget`
(transformations); `RefCount`, `RefCRuntime` (heap); `Coverage*`, `SubEnv*`, `Context*`
(elaborator); `Xbrl*`; `JsArith`; `Signals`.

Where a property does not hold of all inputs, one lemma names inputs on which it fails
and another states, if and only if, when it holds:

- forcing a global directly: `LiftProgram.ForcedConstantIsLost`, `LiftProgram.ForcedReferenceIsLost`;
- different names for all lifted functions: `LiftNames.AccessorClashes`, `LiftNames.LiftedDistinctIff`;
- declaring registers: `VMSafe.NullTargetUndeclared`, `VMSafe.DeclaredExactly`;
- a block and the lambda lifted out of it, unapplied: `CaseLamCorrect.LiftingDelays` (both);
- merging lambdas: `MergingCorrect.MergeCaptures`, `MergingCorrect.MergeIsRen`;
- saturation by arity fixing: `AritySaturates.ConstructorHides`, `AritySaturates.FixSaturatesIff`;
- distinct names in missing patterns: `CoverageNames.NestedDefaultsRepeat`, `CoverageNames.MissingLinearIff`;
- exactness of missing patterns: `CoverageExact.MatchingTwiceOverreports`, `CoverageReports.MissingExactIff`;
- shrinking an environment: `ShrinkEnv.DefaultBreaks`, `ShrinkEnv.ShrinkEnvIff`;
- restoring a context after a commit: `ContextSpec.CommitLeaks`, `ContextSpec.CommitRestoresIff`;
- returning signals no more often than raised: `Signals.TwoConsumers`, `Signals.NeverTwiceIff`.

## Model
| member | source | states |
|---|---|---|
| CExpSyntax.RenCompose | Core/CompileExpr.idr:429-480 | Renaming a scoped term twice is renaming it once by the composition |
| CExpSyntax.RenIdentity | Core/CompileExpr.idr:429-480 | The identity renaming changes nothing |
| CExpSyntax.TraverseRenIff | Core/CompileExpr.idr:429-480 | A traversal that renames locals is a renaming of the whole term exactly when it keeps every global reference of the term |
| CExpSyntax.InsertNamesIsRen | Core/CompileExpr.idr:429-480 | Inserting names shifts exactly the variables at or beyond the insertion point, under every binder |
| CExpFuel.EvalMore | Core/CompileExpr.idr:70-119 | More fuel never changes an outcome that was reached |
| RenamingCorrect.RenEval | Core/CompileExpr.idr:429-480 | A term and its renaming, in environments that agree through the renaming, have the same outcome for every fuel, up to the layout of closures |
| RenamingCorrect.SameTrans | Core/CompileExpr.idr:70-119 | Agreement of values up to closure layout is transitive |
| LambdaLift.UsedVarsExact | Compiler/LambdaLift.idr:400-442 | `usedVars` adds exactly the free variables of the term to those already marked, whatever order its folds take |
| LambdaLift.MkNameInjective | Compiler/LambdaLift.idr:331-345 | Generated names of one definition are pairwise distinct |
| LiftNames.MkNameEqualIff | Compiler/LambdaLift.idr:331-345 | Names generated from any two definitions are equal exactly when the numbers are and the definitions clash on number zero |
| LiftNames.GeneratedEqualIff | Compiler/LambdaLift.idr:331-345 | From user-written definitions: exactly when namespaces, displayed roots and numbers are equal |
| LiftNames.GeneratedIsNew | Compiler/LambdaLift.idr:331-345 | No name generated from a user-written definition is user-written |
| LiftNames.OrdinaryEqualIff | Compiler/LambdaLift.idr:331-345 | From definitions named by words, case blocks, with blocks, machine or resolved names, in any namespaces: exactly when definition and number are equal |
| LiftNames.DisplayedAlikeIff | Core/Name.idr:169-172 | Two user names are displayed alike exactly when one string spells both, the underscore being spelled `_` |
| LiftNames.DisplayIgnored | Compiler/LambdaLift.idr:339-345 | How a definition is displayed, at any depth, does not change the names it generates |
| LiftNames.LiftNumbered | Compiler/LambdaLift.idr:546-589 | Lifting takes the names of its definition in order, without gap, one for each new function |
| LiftNames.LiftedDistinctIff | Compiler/LambdaLift.idr:592-609 | The lifted definitions of a program have different names if and only if the program's own names do not clash, whatever names they are |
| LiftNames.UserProgramDistinctIff | Compiler/LambdaLift.idr:592-609 | With user-written names, if and only if they are distinct and of two displayed alike in one namespace at most one has something lifted out of it |
| LiftNames.OrdinaryProgramDistinct | Compiler/LambdaLift.idr:592-609 | With words, case blocks and with blocks as names, if and only if they are distinct |
| LiftNames.AccessorClashes | Compiler/LambdaLift.idr:340-341 | A function and a field accessor of the same name, each holding a lambda, lift to one name |
| DropUnusedCorrect.KeepsIsSafe | Compiler/LambdaLift.idr:444-468 | If every occurring variable is kept, dropping never meets a variable marked unused, under any number of binders |
| DropUnusedCorrect.UnusedIsSafe | Compiler/LambdaLift.idr:518-528 | What `makeLam` drops is exactly what is never referenced, so the internal error in `dropIdx` is not reached |
| DropUnusedCorrect.DropIdxLookup | Compiler/LambdaLift.idr:444-456 | A dropped index finds, in the shortened environment, what the original index found |
| DropUnusedCorrect.DropEval | Compiler/LambdaLift.idr:458-508 | Dropping unused variables from a term and from its environment leaves every outcome as it was |
| LambdaLiftCorrect.Sim | Compiler/LambdaLift.idr:546-589 | A term and what it lifts to, in related environments and with the same fuel, have related outcomes: the same crash, the same exhaustion, values related by the closure each partial application represents |
| LambdaLiftCorrect.EnterBody | Compiler/LambdaLift.idr:511-542 | Giving a lifted function its last argument runs the lambda body with the dropped variables restored and arguments in the right order |
| LambdaLiftCorrect.ApplySim | Compiler/LambdaLift.idr:511-589 | Applying a closure and its partial application to related arguments gives related outcomes, saturated or not |
| LambdaLiftCorrect.ForceSim | Compiler/LambdaLift.idr:567-572 | Forcing a delayed term corresponds to applying its lifted function to an erased argument |
| LambdaLiftCorrect.CallSim | Compiler/LambdaLift.idr:600-609 | For every program in which no global is forced directly, a call of a source function and of its lifted definition have related outcomes for every fuel |
| LiftProgram.LiftScoped | Compiler/LambdaLift.idr:546-589 | Every definition made by lifting is well scoped, which the source's types promise |
| LiftProgram.ProgramLifts | Compiler/LambdaLift.idr:600-609 | Lifting all definitions of a program with pairwise distinct names, generated ones included, yields a program to which the call theorem applies |
| LiftProgram.ForcedReferenceIsLost | Compiler/LambdaLift.idr:567-569 | Forcing a global directly: if it takes no arguments the lifted run is stuck, otherwise the source run is; the two correspond exactly when the source run is stuck |
| LiftProgram.ForcedDelay | Compiler/LambdaLift.idr:567-569 | For a delayed global the source run is that of the delayed term and the lifted run is stuck |
| LiftProgram.ForcedConstantIsLost | Compiler/LambdaLift.idr:567-569 | A program that lifts, in which forcing a delayed constant gives the constant in the source and is stuck when lifted |
| LambdaLifter.LDefs.constructor | Compiler/LambdaLift.idr:592-596 | The record starts with no definitions and name zero |
| LambdaLifter.LDefs.GenName | Compiler/LambdaLift.idr:331-345 | Returns the next name of the base and steps the counter |
| LambdaLifter.LDefs.MakeLam | Compiler/LambdaLift.idr:511-542 | Returns the partial application, and adds to the record exactly the definitions, that the pure function gives |
| LambdaLifter.LDefs.LiftExp | Compiler/LambdaLift.idr:546-589 | Returns the term, adds the definitions and steps the counter exactly as the pure function says |
| LambdaLifter.LambdaLiftDef | Compiler/LambdaLift.idr:600-609 | Lifts one definition from an empty record to the list of definitions the theorems are about |
| ANFForm.ConvGood | Compiler/ANF.idr:194-252 | A converted term binds each variable at most once, only numbers from its own range, has free variables only in scope, and crashes only with messages of the source |
| ANFForm.DefinitionForm | Compiler/ANF.idr:254-302 | A converted definition is single-assignment with parameters apart from all binders, its free variables are its parameters, and neither "Can't happen" crash is emitted |
| ANFRegisters.ConvDraws | Compiler/ANF.idr:152-252 | A conversion draws exactly one number for each let, each field of a branch, each argument that is neither a variable nor erased and each scrutinee that is no variable, and binds every number it draws |
| ANFCorrect.DoBindEval | Compiler/ANF.idr:152-177 | Binding the non-trivial arguments and building the head evaluates arguments in order, with the outcome of the lifted arguments |
| ANFCorrect.ConvEval | Compiler/ANF.idr:194-252 | A converted term has exactly the outcome of the lifted term in an agreeing environment |
| ANFCorrect.CallConv | Compiler/ANF.idr:254-275 | Calling a converted definition on arguments followed by the reversed scope has exactly the outcome of the lifted one, for every fuel |
| ANFConverter.Counter.NextVar | Compiler/ANF.idr:141-146 | Returns the counter and steps it by one |
| ANFConverter.Counter.BindArgs | Compiler/ANF.idr:152-164 | Allocates one variable per argument that is not a variable already, in order |
| ANFConverter.Counter.LetBind | Compiler/ANF.idr:166-177 | Wraps the head in lets for the allocated variables |
| ANFConverter.Counter.Convert | Compiler/ANF.idr:194-252 | Returns the term and steps the counter exactly as the pure conversion says |
| ANFConverter.ToANF | Compiler/ANF.idr:254-275 | Converts a definition from a fresh counter to the definition the theorems are about |
| VMCorrect.ProjectSim | Compiler/VMCode.idr:115-120 | Projecting only the used fields gives every register that is read later its field, and touches nothing else |
| VMCorrect.ProjectIff | Compiler/VMCode.idr:115-120 | A field is projected exactly when its register is read, and from its own position |
| VMCorrect.VSim | Compiler/VMCode.idr:149-194 | From registers that agree with the environment on what is used, running the code leaves the result in the target and changes no other register but binders; a lone alternative without a tag test included |
| VMCorrect.VCallSim | Compiler/VMCode.idr:231-239 | Calling a compiled definition has the outcome of the converted one, for every fuel |
| VMSafe.Safe | Compiler/VMCode.idr:149-194 | No run of compiled code reads an unassigned register, whether or not the term has a meaning |
| VMSafe.SafeCall | Compiler/VMCode.idr:231-239 | The same for calls of compiled definitions |
| VMSafe.TailCallsExact | Compiler/VMCode.idr:149-194 | In a function body a call is flagged tail if and only if it writes the result register and is last on its path |
| VMSafe.LoneAlternativeUntested | Compiler/VMCode.idr:170-173 | A lone alternative without a default is never tested, anywhere in the code |
| VMSafe.DeclareAllExact | Compiler/VMCode.idr:218-229 | Each variable found and not already a parameter is declared, once |
| VMSafe.DefinitionCode | Compiler/VMCode.idr:218-239 | A compiled definition is its declarations, the start, then its code: it declares each register its code writes and `findVars` finds, parameters apart, once, and flags calls as they should be |
| VMSafe.DeclaredExactly | Compiler/VMCode.idr:196-229 | Every register the code writes is a parameter or declared before the start exactly when each target of a `NULL` is a parameter or written by another instruction too |
| VMSafe.NullTargetUndeclared | Compiler/VMCode.idr:196-216 | A register that only ever receives an erased value is not declared |
| Backend.BackEndConnects | Compiler/VMCode.idr:231-239 | Any well scoped lifted program converts and compiles to programs in the form the other passes rely on |
| Backend.OrdinaryProgramCompiles | Compiler/LambdaLift.idr:592-609 | Programs with words, case blocks and with blocks as names meet the hypothesis of the next theorem exactly when the names are distinct |
| Backend.OtherDefinitions | Compiler/VMCode.idr:231-243 | Constructors and foreign functions keep tag and arity through lifting and conversion; constructors get no register code |
| Backend.BackEndCorrect | Compiler/VMCode.idr:149-239 | From source to register code: a call has the related value, the same crash or exhausts fuel alike, and never reads an unassigned register |
| Backend.DataRelated | Core/CompileExpr.idr:70-119 | On values without functions the relation of that theorem is equality |
| CaseOfCaseCorrect.OuterCase | Compiler/CaseOpts.idr:306-317 | An outer case choosing among weakened branches has the outcome it had outside the inner branch |
| CaseOfCaseCorrect.ConStep | Compiler/CaseOpts.idr:299-317 | One step on constructor cases keeps every outcome, no matching branch included |
| CaseOfCaseCorrect.ConstStep | Compiler/CaseOpts.idr:319-335 | One step on constant cases keeps every outcome exactly |
| CaseOfCaseCorrect.CaseOfCaseSame | Compiler/CaseOpts.idr:337-380 | `caseOfCase`, through its five rounds, keeps every outcome with the same fuel |
| CaseOfCaseCorrect.StepIff | Compiler/CaseOpts.idr:337-372 | A step is taken exactly when it would copy the outer block at most once or the head of the inner block's value is known on every branch |
| CaseOfCaseCorrect.StepNoLarger | Compiler/CaseOpts.idr:351-353 | A step that copies the outer block at most once makes no term larger |
| CaseOfCaseCorrect.GoFlattens | Compiler/CaseOpts.idr:373-380 | Each round removes exactly one level of nesting, and the rounds stop early only when no step applies |
| CaseOfCaseCorrect.CaseOfCaseFlattens | Compiler/CaseOpts.idr:373-380 | From at most five levels no step is left: a block still in a block would be copied more than once without knowing its branch |
| CaseLamCorrect.MovedLookup | Compiler/CaseOpts.idr:30-44 | After the move, an index finds what it found before |
| CaseLamCorrect.ShiftBinderIsMove | Compiler/CaseOpts.idr:46-100 | `shiftBinder` is exactly the permutation moving one variable past the constructor arguments, under any outer binders, so leaving the index alone at the `believe_me` is right |
| CaseLamCorrect.LiftOutIff | Compiler/CaseOpts.idr:112-145 | `tryLiftOut` succeeds exactly when every alternative is a lambda, and then moves each lambda's variable |
| CaseLamCorrect.LiftOutConstIff | Compiler/CaseOpts.idr:122-151 | The same for constant alternatives |
| CaseLamCorrect.NoInternalError | Compiler/CaseOpts.idr:171-208 | Neither "Can't happen" error of `caseLam` is reached, and a lambda is lifted exactly when every branch and the default is one |
| CaseLamCorrect.LiftedDoes | Compiler/CaseOpts.idr:171-208 | What a case of lambdas comes to when applied, the lifted lambda applied to the same value comes to with one more unit of fuel; constructors, constants and defaults |
| CaseLamCorrect.LiftedOnlyDoes | Compiler/CaseOpts.idr:171-208 | Conversely, what the lifted lambda comes to the original does with no more fuel |
| CaseLamCorrect.LiftingDelays | Compiler/CaseOpts.idr:171-208 | Unapplied the two differ: the lifted one is always a value, the original exactly when its scrutinee is one that some branch takes |
| CaseLamSim.Sim | Compiler/CaseOpts.idr:171-208 | When a term yields a value, so does the term with case blocks lifted anywhere in it and in the program, under any renaming, and the values agree |
| CaseLamSim.SimConLifted | Compiler/CaseOpts.idr:171-191 | The lambda a constructor block came to agrees with the lambda lifted out of the block, which evaluates the scrutinee on every application |
| CaseLamPreserves.CaseLamBecomes | Compiler/CaseOpts.idr:165-245 | `caseLam` lifts blocks of a renamed term and changes nothing else but binders' names |
| CaseLamPreserves.CaseLamCalls | Compiler/CaseOpts.idr:248-260 | A call that yields a value yields one that agrees after `caseLam` of every definition |
| CaseLamPreserves.CaseLamData | Compiler/CaseOpts.idr:248-260 | A call on data that yields data yields the same data after `caseLam` |
| CaseLamCounter.Names.GetName | Compiler/CaseOpts.idr:158-163 | Returns a name with the counter's value and steps the counter |
| CaseLamCounter.Names.CaseLam | Compiler/CaseOpts.idr:165-245 | The traversal with the counter computes the term and the counter of the pure traversal |
| CaseLamCounter.CaseLamDef | Compiler/CaseOpts.idr:248-260 | Functions are traversed with a fresh counter, other definitions left alone |
| MergingCorrect.TraverseFuse | Core/CompileExpr.idr:540-647 | Substituting and then rebinding is one traversal |
| MergingCorrect.MergeIsRen | Compiler/Inline.idr:411-442 | The merged body is the original with its variables permuted exactly when no reference in it uses a name that merging generates |
| MergingCorrect.MergeSame | Compiler/Inline.idr:433-442 | Calling the merged function on all arguments comes to what calling the original and applying its lambdas one by one comes to, with the same fuel |
| MergingCorrect.MergeCaptures | Compiler/Inline.idr:411-442 | A body that does use a generated name changes meaning |
| AritySaturates.ExpandSaturated | Compiler/CompileExpr.idr:45-80 | Expanding an application that lacks arguments saturates it, by lambdas or single applications |
| AritySaturates.FixSaturatesIff | Compiler/Inline.idr:340-397 | Every global ends up applied to exactly its arity, under all binders, if and only if names are known, what an applied constructor, operator or primitive holds is exact already, and the arguments not dropped with an erased head are exact |
| AritySaturates.UncompiledName | Compiler/Inline.idr:344-351 | A known name without compiled code is called on no argument and applied to its arguments one by one, and is saturated when they are |
| ArityLifted.ArityIsParams | Compiler/Inline.idr:42-46 | The arity that calls are fixed to is the number of parameters of the lifted definition |
| AritySaturates.FixSaturates | Compiler/Inline.idr:340-397 | So with all names known and no constructor, operator or primitive in function position |
| AritySaturates.ConstructorHides | Compiler/Inline.idr:364-397 | An applied constructor whose arguments are not all exact stays so |
| ArityMeaning.EtaMeaning | Compiler/CompileExpr.idr:45-60 | An eta-expanded application, given the arguments it lacks, calls the name on all of them in order |
| ArityMeaning.ExpandMeaning | Compiler/CompileExpr.idr:63-80 | `expandToArity` with too few or just enough arguments: the same for its result |
| ArityMeaning.ExpandOverMeaning | Compiler/CompileExpr.idr:63-80 | With more arguments, it calls the name on what it takes and applies the outcome to the rest one at a time |
| ArityPreserves.SimSpine | Compiler/Inline.idr:340-397 | With a stack of fixed arguments, the fixed term yields the value related to what the original yields when applied to them |
| ArityPreserves.SimExp | Compiler/Inline.idr:340-397 | Whenever a term yields a value in the semantics where names take any number of arguments, the fixed term yields a related value in the exact one |
| ArityPreserves.CallsPreserved | Compiler/Inline.idr:404-409 | The same for calls in a program whose every definition is fixed; data comes out unchanged |
| Forgetting.UniqueName | Core/CompileExpr.idr:281-294 | The search ends, measured by clashing machine names at or above the counter, with a name that is not taken |
| Forgetting.AddLocs | Core/CompileExpr.idr:302-306 | Adds one name per argument in front of those in scope |
| Forgetting.AddLocsDistinct | Core/CompileExpr.idr:302-306 | The names of a scope are pairwise distinct under the compiler's own equality, which ignores display names |
| Forgetting.UniqueNameLeast | Core/CompileExpr.idr:285-294 | A free name is kept; one that is taken keeps its root and gets the least free number |
| Forgetting.AddLocsKeepsIff | Core/CompileExpr.idr:301-306 | Arguments keep their names exactly when these clash with nothing |
| Forgetting.ForgetInverts | Core/CompileExpr.idr:313-353 | Resolving each local name to its innermost binder gives the term back, up to binder names and inline flags |
| Forgetting.ForgetDefInverts | Core/CompileExpr.idr:356-369 | The same for every definition, with tags and arities, and a function's arguments get distinct names |
| RefCRuntime.Runtime.NewValue | _/support/refc/memoryManagement.c:45-93 | A new object has count one, belongs to the caller and takes over the references put in its fields |
| RefCRuntime.Runtime.NewPredefined | _/support/refc/memoryManagement.c:303-360 | A predefined value is immortal from the start |
| RefCRuntime.Runtime.NewReference | _/support/refc/memoryManagement.c:205-216 | Counts one more reference unless the value is null, unboxed or immortal; a counter that reaches the maximum makes the object immortal |
| RefCount.SaturatesAtWrap | _/support/refc/_datatypes.h:37-38 | Counting a reference adds one in 16 bits and stops exactly where that would wrap |
| RefCRuntime.Runtime.RemoveReference | _/support/refc/memoryManagement.c:218-301 | Keeps counters exact and leaves no dangling reference, revives or changes no object, leaves immortals alone, and terminates on the sum of live counters, cycles included |
| RefCRuntime.Runtime.Release | _/support/refc/memoryManagement.c:229-300 | Releasing the last reference passes the object's references to the releaser, gives each up and frees the object |
| RefCount.LastReference | _/support/refc/memoryManagement.c:226-229 | With count one the reference given up is the only one, from fields or owners |
| RefCount.ReleaseKeeps | _/support/refc/memoryManagement.c:229-300 | Starting a release keeps the invariant and lowers the measure |
| RefCount.LiveIffReferenced | _/support/refc/memoryManagement.c:205-301 | In a heap at rest a mortal object is live exactly while something refers to it |
| RefCRuntime.Runtime.TailcallApplyClosure | _/support/refc/runtime.c:151-175 | Extending a closure consumes the caller's references to it and to the argument; its arguments move when it dies and are counted once more when it does not; nothing else changes |
| RefCRuntime.Runtime.NewIORef | _/support/refc/prim.c:6-13 | A new cell counts its own reference to its content |
| RefCRuntime.Runtime.WriteIORef | _/support/refc/prim.c:15-25 | The cell holds the new value and stays live, the old content is released, even when it leads back to the cell |
| RefCRuntime.Runtime.NewArray | _/support/refc/prim.c:74-86 | Every slot counts its own reference to the initial value |
| RefCRuntime.Runtime.ArraySet | _/support/refc/prim.c:88-97 | The slot holds the new value and the array stays live although the old element is released while the slot still holds it |
| CoverageSound.RunMissing | Core/Coverage.idr:151-192 | With the missing branches added, some branch takes every well-typed value and the verdict is as before |
| CoverageSound.RunRep | Core/Coverage.idr:238-254 | Replacing a default by one branch per constructor keeps the verdict |
| CoverageSound.RunDropRep | Core/Coverage.idr:256-262 | Dropping repeated branches keeps the verdict |
| CoverageSound.BranchesRun | Core/Coverage.idr:212-289 | So does filtering by the known tag and the excluded tags, when they are true of the value |
| CoveragePaths.BranchIff | Core/Coverage.idr:151-289 | The branches looked at, after default expansion, completion and both filters, are the first branches for the constructors still allowed |
| CoveragePaths.MissingIsPaths | Core/Coverage.idr:264-346 | The lists reported are exactly what the patterns become on first-match paths to unmatched leaves |
| CoverageSound.BuildArgsSound | Core/Coverage.idr:264-328 | Every tuple of values that first-match evaluation leaves unmatched is an instance of a pattern list the search returns |
| CoverageSound.MissingSound | Core/Coverage.idr:335-346 | The same for the whole tree |
| CoverageSound.NothingMissing | Core/Coverage.idr:335-346 | If nothing is reported missing, no well-typed tuple is unmatched |
| CoverageExact.BuildArgsRefines | Core/Coverage.idr:264-328 | Every list the search returns is an instance of the patterns it started from |
| CoverageExact.BranchDecides | Core/Coverage.idr:238-289 | A branch looked at that has the value's tag decides what first-match evaluation does |
| CoverageExact.BuildArgsExact | Core/Coverage.idr:264-328 | When the tree matches only on variables the patterns mention, every instance of a returned list is left unmatched |
| CoverageExact.MissingExact | Core/Coverage.idr:335-346 | Trees that match only on variables the patterns mention: a tuple is unmatched if and only if it is an instance of a reported list |
| CoverageReports.CoveredIff | Core/Coverage.idr:264-346 | On every tree a reported list covers a tuple if and only if some run misses it that forgets the fields of variables matched again |
| CoverageReports.MissingExactIff | Core/Coverage.idr:335-346 | The lists describe exactly the unmatched tuples if and only if no tuple the tree decides is missed by such a run |
| CoverageExact.MatchingTwiceOverreports | Core/Coverage.idr:280-296 | Matching a variable twice and then a field of the second match reports a list that covers a matched tuple |
| CoverageSound.NamesRepeat | Core/Coverage.idr:246-254 | Generated names repeat along a path: two nested defaults return a list in which one name stands for two different fields |
| CoverageNames.MissingLinearIff | Core/Coverage.idr:246-328 | The reported lists use each name once if and only if no path to an unmatched leaf goes through two generated branches with fields on variables the patterns mention |
| CoverageNames.NestedDefaultsRepeat | Core/Coverage.idr:246-254 | Two nested defaults over constructors with fields always repeat a name |
| SubEnv.FindUsed | Core/Env.idr:188-230 | Returns a superset of the variables already found, and terminates because a binder mentions only outer variables |
| SubEnvLeast.UsedSettled | Core/Env.idr:188-230 | Every variable newly found has everything its type and value mention in the result |
| SubEnvLeast.UsedLeast | Core/Env.idr:188-230 | The result is inside every closed set that contains what was given |
| SubEnvLeast.UsedLocsLeast | Core/Env.idr:233-235 | The variables found are the least set containing the term's free variables, those in default-implicit terms not counted, and closed under types and let-values |
| ShrinkEnv.MkShrinkKeeps | Core/Env.idr:237-254 | The thinning made from a set keeps exactly that set |
| ShrinkEnv.ShrinkEnvIff | Core/Env.idr:265-271 | Shrinking an environment succeeds exactly when what the kept binders mention, defaults included, is kept |
| ShrinkEnv.SubEnvShrinks | Core/Env.idr:259-271 | Without default terms the environment and the term shrink to the sub-environment found |
| ShrinkMeaning.ShrinkVarIff | Core/TT/Var.idr:382-400 | Shrinking and thinning a variable are inverse |
| ShrinkMeaning.ThinVarIncreases | Core/TT/Var.idr:382-387 | The kept variables stay in order and in scope |
| ShrinkMeaning.MkShrinkLists | Core/Env.idr:237-254 | What the new variables were is exactly the set |
| ShrinkMeaning.ShrinkTermIs | Core/TT/Term.idr:184-262 | Shrinking and thinning are inverse: a term shrinks to the term that thins to it, to no other, and fails exactly when there is none |
| ShrinkMeaning.ShrinkBinderIs | Core/TT/Term.idr:191-235 | The same for binders |
| ShrinkMeaning.OutsideThins | Core/Env.idr:265-271 | The thinning a kept binder is shrunk by numbers the variables outside it as the whole thinning does |
| ShrinkMeaning.ShrinkEnvIs | Core/Env.idr:265-271 | An environment shrinks to exactly the part that is kept: as many entries as are kept, the j-th thinning to the j-th kept one |
| ShrinkMeaning.SubEnvIs | Core/Env.idr:259-271 | Without default terms the sub-environment of a term exists, is the part of the environment at the set found, in order, and the shrunk term thins to the term |
| ShrinkEnv.DefaultBreaks | Core/Env.idr:223-230 | With a default term the environment may not shrink |
| ContextSpec.AddSets | Core/Context.idr:141-163 | Adding an entry, staged or not, makes lookups see it and changes no other lookup |
| ContextSpec.CommitIff | Core/Context.idr:296-314 | Committing leaves every lookup as it was exactly when every staged index is inside the array |
| ContextSpec.CommitKeeps | Core/Context.idr:296-314 | In a valid state committing changes no lookup |
| ContextSpec.RunKeeps | Core/Context.idr:101-208 | Over any run, with branches committed or taken back, distinct names keep distinct indices, allocated indices stay inside the array, and the array only grows |
| ContextTransactions.GrowsRarely | Core/Context.idr:101-113 | Allocating new names takes one index each, and grows the array only when it is full, by ten thousand |
| ContextSpec.BranchRestores | Core/Context.idr:1441-1463 | Going back to what `branch` saved restores every lookup exactly, after any run inside the branch, with inner branches committed or taken back in turn |
| ContextSpec.CommitRestoresIff | Core/Context.idr:1446-1463 | If the outermost branch is committed first, going back restores every lookup if and only if every staged entry is what was seen before |
| ContextSpec.CommitLeaks | Core/Context.idr:1446-1463 | So a committed addition is seen through the restored record, and only one that changes nothing leaves all lookups as they were |
| ContextTransactions.AllTransact | Core/Context.idr:1441-1463 | Branches nested in any way, committed or taken back in turn, end at the depth they began with and have the effect the same program has on a plain map that is copied and put back |
| ContextTransactions.BalancedCommit | Core/Context.idr:296-314 | A branch, well-nested work and a commit end at the depth they began with, with the work done |
| ContextTransactions.TopLevelStored | Core/Context.idr:296-314 | Well-nested work at the top level leaves nothing staged: every entry made and not taken back is in the array itself |
| ContextStore.Store.constructor | Core/Context.idr:58-79 | An empty context over an array of the given size |
| ContextStore.Store.NewEntry | Core/Context.idr:102-113 | Allocates the next index, replacing the array by a longer copy when it is full |
| ContextStore.Store.GetPosition | Core/Context.idr:119-125 | Returns the index of a known name or allocates one |
| ContextStore.Store.AddCtxt | Core/Context.idr:141-150 | Writes the array at the top level and the staging area inside a branch |
| ContextStore.Store.LookupCtxtExact | Core/Context.idr:175-208 | Sees the array overlaid by the staging area |
| ContextStore.Store.Branch | Core/Context.idr:1446-1453 | Returns the record to go back to and enters a branch |
| ContextStore.Store.Commit | Core/Context.idr:296-314 | Writes the staged entries when the outermost branch ends |
| XbrlTokens.ScanStands | XbrlCanary.idric:45-67 | A scan returns exactly the input at its span, the longest run its state keeps |
| XbrlTokens.AttributesStand | XbrlCanary.idric:104-125 | Attribute names and values are the input at their spans, and names are distinct |
| XbrlTokens.TagStands | XbrlCanary.idric:127-138 | A tag token covers its span from `<` to `>` and its parts are the input at their spans |
| XbrlTokens.TokenizeLossless | XbrlCanary.idric:140-152 | Token spans tile the input with no gap, overlap or empty token; text has no `<` or `&` and is never adjacent to text |
| XbrlGrammar.EndTagIff | XbrlCanary.idric:127-138 | A tag is an end tag if and only if a slash follows its `<` |
| XbrlGrammar.TokenizeIff | XbrlCanary.idric:69-152 | The tokenizer returns exactly the list of at most 64 tokens that spells the input, kinds, names, attributes in order and spans included, and fails if and only if there is none |
| XbrlWriting.WriteThenTokenize | XbrlCanary.idric:69-152 | Any list of at most 64 tokens with proper names, at most eight distinct attributes each and no text next to text, written down and tokenized, comes back with the spans of where it was written |
| XbrlTokens.SearchExactLists | XbrlCanary.idric:154-162 | The search lists exactly the occurrences of a non-empty needle, each once, in order, overlaps included |
| XbrlTree.ParseIsClose | XbrlCanary.idric:175-184 | Parsing children succeeds exactly when a stack of open names closes, and leaves the same tokens |
| XbrlTree.BuildTreeIff | XbrlCanary.idric:186-196 | A tree is built exactly when the tokens, trimmed of outer whitespace text, are one well-bracketed element at most eight deep |
| XbrlTreeInverts.BuildTreeFlattens | XbrlCanary.idric:191-196 | Flattening the tree returns the trimmed tokens up to spans |
| XbrlTreeInverts.BuildTreeInverts | XbrlCanary.idric:191-196 | Every element of height at most eight is built back from tokens it flattens to |
| XbrlTreeInverts.BuildTreeNested | XbrlCanary.idric:168-184 | Child spans are ordered and strictly inside their parent's |
| XbrlFind.FindIsFirst | XbrlCanary.idric:202-216 | The bounded search returns the first match in preorder |
| XbrlFind.PreorderIff | XbrlCanary.idric:198-216 | The nodes visited are exactly the elements at paths within the bound |
| XbrlFind.PreorderInOrder | XbrlCanary.idric:202-216 | Their paths are strictly increasing in document order |
| XbrlFind.FindBoundedIff | XbrlCanary.idric:202-216 | It returns the element with that name that comes first in document order among those at most that deep, and nothing only when there is none |
| JsArith.TruncIsToInt32 | _/support/js/support.js:134-134 | Masking with 32 ones is the signed representative mod 2^32 |
| JsArith.TruncUIsToUint32 | _/support/js/support.js:188-191 | `_truncUInt32` is the unsigned representative mod 2^32 |
| JsArith.RangeTest | _/support/js/support.js:142-144 | However doubles round, the test sends exactly the products outside the safe range to the split path, and the others are exact |
| JsArith.SplitExact | _/support/js/support.js:145-145 | On the split path every intermediate is below 2^53 and the sum is congruent to the product |
| JsArith.Mul32sExact | _/support/js/support.js:142-149 | `_mul32s` is the in-range representative of the product mod 2^32, for signed and unsigned operands |
| JsArith.Mul32uExact | _/support/js/support.js:195-195 | `_mul32u` is the unsigned one |
| JsArith.Shr32uExact | _/support/js/support.js:199-199 | `_shr32u` is division by a power of two rounding down |
| Signals.Scan | _/support/c/idris_signal.c:79-92 | Finds the lowest signal in a non-empty snapshot; the abort after the loop is not reached |
| Signals.NeverStuck | _/support/c/idris_signal.c:79-92 | A consumer that loaded something can always return a signal |
| Signals.Decided | _/support/c/idris_signal.c:79-92 | What a consumer does is decided by what it loaded: the lowest signal in it, and -1 exactly when there is none |
| Signals.ReturnsWhatWasPending | _/support/c/idris_signal.c:79-92 | In every run a consumer returns the lowest signal that was pending when it last loaded, or -1 if none was |
| Signals.PendingStays | _/support/c/idris_signal.c:24-38 | A pending signal stays pending until it is returned: clearing one never clears another |
| Signals.NothingLost | _/support/c/idris_signal.c:24-38 | Under any interleaving each raise is followed by a return of that signal, or the signal is still pending |
| Signals.SoleConsumer | _/support/c/idris_signal.c:79-92 | A sole consumer returns a signal no more often than it was raised |
| Signals.TwoConsumers | _/support/c/idris_signal.c:79-92 | Any two consumers can both return any signal, raised once |
| Signals.NeverTwiceIff | _/support/c/idris_signal.c:79-92 | Over all runs of a set of consumers signals are returned no more often than raised, if and only if there is at most one consumer |

## Left out
- Lambda lifting with lazy annotations: its meaning belongs to back ends that are not modelled.
- Primitives, foreign functions and external primitives are parameters that must agree on related values; their effects, and input and output, are not modelled.
- Source locations, constructor information, inline flags on definitions, hashing and all display code.
- LambdaLiftCorrect.CallSim: a stuck source run promises nothing of the lifted run, because the source's own types rule such runs out; programs that force a global directly are excluded, and `LiftProgram.ForcedReferenceIsLost` says what happens to them.
- ArityPreserves.SimExp: only runs that yield a value are related; eta expansion delays the evaluation of arguments, so a crash or a divergence in an argument of an under-applied name may disappear.
- CaseLamCorrect.LiftedDoes: states one lifting step, for the block as applied; the traversal is the subject of `CaseLamPreserves.CaseLamCalls`.
- CaseLamPreserves.CaseLamCalls: only runs that yield a value are related; a block that is stuck or diverges unapplied becomes a lambda, as `CaseLamCorrect.LiftingDelays` says.
- The inliner, constant folding, common subexpression elimination and constructor optimisations, which rest on the global context.
- The RefC model has no pointers with finalisers, mutexes or conditions; addresses are not reused, and string or number payloads are not stored.
- RefCRuntime.Runtime.TailcallApplyClosure: the closure must stay below the counter limit, because the code decrements without a test for saturation; `idris2_trampoline` and constructor reuse decrement the same way and are not modelled.
- RefCRuntime.Runtime.ArraySet: the index is in range, as the callers of the primitive ensure.
- Coverage over primitive types, `Type` and delayed matches; the types of branches are given as constructor lists, and values outside them are not considered; names of variables and of constructors are kept apart.
- CoverageExact.MissingExact: the condition on trees is sufficient only; `CoverageReports.MissingExactIff` gives the exact one.
- The context's entries are opaque: decoding, the list of possible names, aliases, hidden names and the inline-only filter are not modelled. Names that are already indices are assumed to be allocated ones.
- Forgetting.UniqueName: the counter in machine names is unbounded, not a machine integer, and names of case and with blocks are quoted without escaping.
- Error messages of the XML canary carry no positions; its JSON output and command line are not modelled.
- JsArith: a double product is any monotonic rounding that is exact up to 2^53; not-a-number and infinities do not arise from 32-bit operands.
- Signals: the range check of signal numbers and the installation of handlers; a handler is one atomic step.
- File, network, terminal, clock and thread support, the type checker, unification, totality and linearity checking, and reading and writing compiled files.
