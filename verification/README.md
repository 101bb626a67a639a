# Verified model of the Izel compiler's core

Izel is a small compiled language. A function is a `forge`; `given` is its conditional, `zone` a region of
memory that is freed on leaving, `give` an explicit return. This project models the parts of its compiler
where correctness is hardest to see by reading, and proves what they promise.

**Middle end** (`izel_mir`, `izel_borrow`). The object that lowers structured code to a control-flow graph is
the class `MirLowerer`, proved equal step by step to functions from state to state (`LowerSpec`). Structured
code has a big-step meaning (`HirSemantics`), the graph a small-step one (`MirSemantics`); calls are events
whose answers come from an oracle, arithmetic is any total interpretation of the operators. On top:

- lowering preserves meaning, both ways, including runs that never end (`LowerTheorem`);
- what lowering does with the code that theorem leaves out: for any state and expression (`LowerRules`), as the
  meaning of another forge with the same code (`LowerSame`, `LowerOps`), and on forges where the two meanings part,
  with the exact condition where they depend on arguments (`LowerLimits`, `LowerReturns`);
- runtime contract checks stop exactly the runs that break a contract and never change a run otherwise
  (`LowerContracts`);
- the graph is coherent exactly if the while conditions lowered, those of checked clauses among them, stay in one
  block (`LowerShape`, `LowerFrame`, `LowerBent`);
- zone markers are bracketed on every path and run; they agree on all paths to a block, and are all closed on
  return, exactly if no trapped return is in the way (`LowerEarly`, `LowerZones`, `ZonePaths`);
- dead code elimination, in place over an array of blocks, preserves behaviour when the graph's edges cover
  the terminators, which lowering establishes (`Dce`, `DceCorrect`, `Pipeline`);
- liveness is the least solution of its equations and is reachability of an exposed use (`Liveness`); the
  borrow checker accepts exactly the bodies that keep four rules stated over that (`Borrow`, `BorrowCheck`), and
  these hold along control flow under an exact condition on liveness (`BorrowPaths`, `BorrowLowered`);
- every slot of lowered code has the type of what is put into it, for forges whose types fit, and keeps it through
  every run (`LowerTypes`, `SlotTypes`); names and messages are the text's own (`LowerTexts`);
- what elimination and liveness count as uses is what running the code can notice (`DceUses`, `LiveUses`), and the
  borrow check treats each type as it should (`BorrowTypes`);
- lowered code borrows nothing and moves only temporaries, each for the last time, which leaves liveness at the
  entry as that condition (`LowerPlain`, `LowerMoves`, `LowerTidy`, `LoweredBorrows`).

**Front end** (`izel_lexer`, `izel_parser`). The lexer is two classes over a character sequence; tokens tile the
source, lexing is local, comments follow a recursive grammar, raw and quoted strings end where they should, and
every keyword and sign is the token of its spelling (`LexSpec`, `LexFacts`, `Lexer`, `LexWords`, `LexShapes`). The
expression parser is a class of mutually recursive methods; it ends, loses no token that matters, and reads back
operator trees printed with minimal parentheses, whatever white space and comments stand between the tokens
(`ParseSpec`, `ParseFacts`, `ParseTrees`, `ParseSpaces`, `Parser`). Its precedences are compared with the
documented ones (`ParseLevels`), and its token kinds written out (`ParseKinds`).

**Compile-time evaluation** (`izel_parser/src/eval.rs`, `izel_ast_lower`). 128-bit wrapping evaluation with unknown
values, macro substitution, and the contract checks that use them (`Ast`, `ConstEval`, `EvalLaws`, `Macro`,
`MacroShape`, `ContractCheck`).

**Language server.** The module order and the dependencies it uses (`ModuleOrder`, `ModuleRounds`).

`dafny verify dfyconfig.toml` checks everything.

## Where the code differs from its documents, or from what a reader would expect

The model follows the code; every point has a lemma.

- A body's last expression is documented as its implicit return value (`docs/project_overview.md:433`). Lowering
  ends an unfinished body with an empty return, so the value is lost exactly on runs that reach that end
  (`LowerReturns.ImplicitReturnIff`).
- The concrete syntax tree is documented as holding every token (`docs/project_overview.md:1567`). White space and
  comments before an infix operator are in no leaf, and these are all that an operator tree loses
  (`ParseSpaces.LosslessIff`).
- `f( )` is not parsed as `f()`, nor `S { }` as `S {}`: the closing bracket becomes an erroneous element exactly if
  white space or a comment comes before it (`ParseSpaces.CallSpacing`, `StructSpacing`, `TypeSpacing`). Macro calls
  do not have this fault (`MacroSpacing`).
- The documented precedence table (`docs/project_overview.md:1570-1585`) differs from the parser's in these pairs only
  (`ParseLevels.SameOrderIff`): equalities and comparisons share a level there, but `a == b < c` is read as
  `a == (b < c)` (`ReadAsDocumentedIff`, `ComparisonFirst`); and `as` and `!` share one, but `!` binds tighter, as tight
  as the level above (`MarkBindsToType`). Of its two levels for `not` the parser has only the higher
  (`NotBindsTightly`). Its `|` ends an expression (`NothingBehindBar`), and its `<<` and `>>` are two comparisons, the
  second an error (`ShiftIsTwoComparisons`).
- A body accepted by the borrow checker may still, on some path, read a local that path never set, because
  initialisation is tracked in block order (`BorrowLowered.AcceptsUninitialisedPath`). None does exactly if only
  parameters are live at the entry and no moved local is live after its move (`BorrowPaths.AcceptedOnAllPathsIff`).
- A `while` whose condition contains control flow gets its branch in the wrong block (`LowerLimits.BentLoopDiffers`),
  in a checked clause too (`BentClauseIncoherent`).
- Operators without a MIR form become addition, or negation, the reference operator among them
  (`LowerOps.OperatorsMean`); a returned given is worth 0 (`LowerSame.ReturnedGivenMeans`); code behind a return runs
  before it (`LowerSame.CodeBehindReturnMeans`) or takes its place (`LowerRules.BranchAfterReturn`).
- A zone is left by its exit marker only on the way through its end: a return or self tail call under a given or
  while inside it goes past (`LowerLimits.EarlyReturnLeavesZoneOpen`, `TailCallLeavesZoneOpen`).
- A self tail call does not hand its arguments to the code it jumps to (`LowerRules.TailCallPassesIff`), and code
  behind it reads parameters from slots only that call would set (`LowerLimits.TailCallHidesParameter`).
- A variable that its `let` does not set has a slot of unknown type (`LowerTypes.UnboundSlot`), as has a parameter
  behind a self tail call (`ReboundSlots`), and arithmetic on two of them is stored as a 32-bit integer
  (`UnknownArithmetic`).
- Parameters of a macro are not replaced inside a `loop` (`MacroShape.FormKept`).
- In a row of `draw` keywords each second one is stepped over (`ModuleOrder.EverySecondDrawIsLost`).
- Expanding a macro is not calling it when its body binds a name an argument reads, or binds its own parameter
  (`Macro.ExpansionCaptures`).

## Model

| member | source | states |
|---|---|---|
| LowerTheorem.LoweringPreservesMeaning | crates/izel_mir/src/lower.rs:42-444 | for every forge of the fragment and all arguments, the HIR run ends with a status and events if and only if the MIR run from the entry does, through unbounded loops |
| LowerTheorem.LoweringPreservesDivergence | crates/izel_mir/src/lower.rs:397-443 | a forge that never ends is lowered to code that never ends and makes every prefix of its events |
| LowerTheorem.ForgeSimulated | crates/izel_mir/src/lower.rs:42-78 | HIR evaluation to any depth, from any unset variables, is matched by some number of MIR steps: same events, same end, or still running for at least as many steps |
| LowerCorrect.SimExpr | crates/izel_mir/src/lower.rs:177-444 | code of one expression, wherever it is embedded, leads where evaluating the expression leads, with the same events, agreeing variables and the same value |
| LowerCorrect.SimOperands | crates/izel_mir/src/lower.rs:235-240 | operands of a call, evaluated left to right, still hold their values when the last is done |
| LowerCorrect.SimClauses | crates/izel_mir/src/lower.rs:311-321 | the emitted postcondition checks pass exactly when every clause is true of the returned value |
| LowerCorrect.SimBranches | crates/izel_mir/src/lower.rs:367-393 | each branch of a given lands at the join block with that branch's effects, or returns |
| LowerCorrect.SimLoop | crates/izel_mir/src/lower.rs:397-442 | any number of iterations of a while are matched by the condition, body and exit blocks |
| HirFacts.SubstMeaning | crates/izel_mir/src/lower.rs:512-539 | replacing `result` by the returned expression has the meaning of binding it to the returned value |
| HirFacts.EvalKeeps | crates/izel_mir/src/lower.rs:144-150 | evaluation changes no variable outside the set an expression may write |
| LowerReturns.ImplicitReturnIff | crates/izel_mir/src/lower.rs:72-75 | lowered code returns the documented implicit value on exactly the arguments whose run never reaches the end of a body with a last expression |
| LowerReturns.ValueDropped | crates/izel_mir/src/lower.rs:104-113 | on every other run the value is promised and nothing is returned |
| LowerReturns.ExplicitReturnsAreSafe | crates/izel_mir/src/lower.rs:68-75 | a body without a last expression, or ending in a return, behaves as documented on all arguments |
| LowerRules.CodeAfterReturn | crates/izel_mir/src/lower.rs:323-325 | for every state: straight code behind a return is appended to the block the return ended, in front of its terminator |
| LowerRules.CallAfterReturn | crates/izel_mir/src/lower.rs:323-325 | in particular a straight call behind a return is the last thing done before returning |
| LowerRules.BranchAfterReturn | crates/izel_mir/src/lower.rs:332-442 | for every state: behind a return, every while, and every given or other branching code that has itself nothing behind a return, takes the return's place: the block it ended leads on and does not return |
| LowerSame.ReturnComesLast | crates/izel_mir/src/lower.rs:323-325 | returning a literal and then straight code is lowered to the very code of that code and then the return |
| LowerSame.CodeBehindReturnMeans | crates/izel_mir/src/lower.rs:323-325 | so, if the latter forge is in the fragment, the code runs as the latter means, for all arguments and runs |
| LowerLimits.CodeAfterReturnRuns | crates/izel_mir/src/lower.rs:323-325 | on a concrete forge: it runs, so a call is made that the meaning does not make |
| LowerRules.GivenIsZero | crates/izel_mir/src/lower.rs:395 | every given has the value 0, so returning any given returns 0 |
| LowerSame.ReturnedGivenIsZero | crates/izel_mir/src/lower.rs:395 | a body that ends by returning a given is lowered to the very code of the given as a statement and returning 0 |
| LowerSame.ReturnedGivenMeans | crates/izel_mir/src/lower.rs:395 | so, if the latter forge is in the fragment, its code runs as the latter means |
| LowerLimits.GivenLosesItsValue | crates/izel_mir/src/lower.rs:395 | on a concrete forge: 0 is returned where the meaning is 7 |
| LowerRules.OtherOperators | crates/izel_mir/src/lower.rs:209-232 | in any state, code of an operator without a MIR form is that of addition, or of negation |
| LowerOps.SameCode | crates/izel_mir/src/lower.rs:209-232 | every forge is lowered to the very code of the forge with each operator MIR lacks replaced by addition or negation |
| LowerOps.OperatorsMean | crates/izel_mir/src/lower.rs:209-232 | so, if that forge is in the fragment, the code runs as that forge means: rightly if and only if the two forges end alike |
| LowerLimits.UnmappedOperatorAdds | crates/izel_mir/src/lower.rs:209-222 | a binary operator without a MIR form is lowered rightly on given values if and only if it agrees with addition on them |
| LowerLimits.UnmappedUnaryNegates | crates/izel_mir/src/lower.rs:228-232 | likewise a unary one, if and only if it agrees with negation |
| LowerRules.VariableOperand | crates/izel_mir/src/lower.rs:189-191 | an operand that is a variable adds no instruction where it stands: it is its slot, read when the operand is used |
| LowerLimits.LateReadSeesWrite | crates/izel_mir/src/lower.rs:203-207 | on a concrete forge and any argument: an operand read after a later operand writes its variable is right if and only if the sum happens to be the same |
| LowerRules.RebindIsFresh | crates/izel_mir/src/lower.rs:287-297 | rebinding the parameters assigns only slots that did not exist before |
| LowerRules.TailCallKeepsSlots | crates/izel_mir/src/lower.rs:287-305 | for every self tail call in any state: the run comes back to the header with every older slot, the parameters' own among them, as it was |
| LowerRules.TailCallPassesIff | crates/izel_mir/src/lower.rs:287-305 | so the header finds the arguments in the parameters' slots if and only if they were there before the call |
| LowerRules.TailCallHides | crates/izel_mir/src/lower.rs:287-297 | what is lowered behind a self tail call finds each rebound parameter in a slot that call made |
| LowerLimits.SelfTailCallSpins | crates/izel_mir/src/lower.rs:280-306 | on a concrete forge: a self tail call whose recursion ends is lowered to a loop that never does |
| LowerLimits.TailCallHidesParameter | crates/izel_mir/src/lower.rs:287-297 | on a concrete forge and every argument with which the call is not taken: a parameter returned behind a self tail call comes back undefined |
| LowerRules.ResultAgain | crates/izel_mir/src/lower.rs:311-320 | in any state, a checked clause `result` lowers the returned expression a second time |
| LowerRules.ReturnedCallTwice | crates/izel_mir/src/lower.rs:308-321 | in any state, returning a straight call under a checked clause `result` makes the call twice in the block that returns |
| LowerLimits.EnsuresRepeatsCall | crates/izel_mir/src/lower.rs:313-320 | on a concrete forge: the returned call is made twice |
| LowerLimits.CallingClauseIsSeen | crates/izel_mir/src/lower.rs:311-321 | on a concrete forge: a clause that calls makes, with checks on, a call that is not made with checks off |
| LowerLimits.BentLoopIncoherent | crates/izel_mir/src/lower.rs:416-426 | a while with a given in its condition: a block is left without an end and the graph does not fit the terminators |
| LowerLimits.BentLoopDiffers | crates/izel_mir/src/lower.rs:416-426 | its lowered code makes one decision where the meaning makes two |
| LowerLimits.BentClauseIncoherent | crates/izel_mir/src/lower.rs:311-321 | the same while in a clause: coherent code without checks, incoherent code with them |
| LowerLimits.TailCallLeavesZoneOpen | crates/izel_mir/src/lower.rs:280-306 | a self tail call under a given inside a zone: two paths to the header have different zones open |
| LowerLimits.EarlyReturnLeavesZoneOpen | crates/izel_mir/src/lower.rs:193-202 | a return under a given inside a zone: the run ends with that zone open |
| LowerContracts.ChecksJudgeRuns | crates/izel_mir/src/lower.rs:243-321 | with checks on and pure call conditions, the lowered forge stops at a precondition exactly if a reached call's condition is false, at a postcondition exactly if none is and a clause is false of the returned value, and returns exactly if none is and all are true |
| LowerContracts.ChecksKeepDivergence | crates/izel_mir/src/lower.rs:243-321 | checked code runs for ever exactly if unchecked code does and no reached call's condition is false |
| LowerContracts.ChecksOnlyStop | crates/izel_mir/src/lower.rs:243-251 | checked code returns only what unchecked code returns; where unchecked code returns, checked code does the same or has failed after a prefix of its events |
| LowerShape.ForgeCoherent | crates/izel_mir/src/lower.rs:42-78 | with nothing behind a return and straight while conditions, in the body and, where checks lower them, in the clauses, each block's graph successors are its terminator's targets, all targets exist, every block has ended, self-tail-call back edges included, and each edge's label fits: the true edge of a branch is the one taken on 1, the false edge the other, any other edge a jump |
| LowerBent.CoherentIffStraight | crates/izel_mir/src/lower.rs:397-442 | for every forge with nothing behind a return, checks on or off: the graph is coherent if and only if all while conditions that are lowered are straight, those of clauses behind a returned value included, and likewise every block has ended if and only if they are |
| LowerBent.MovesExpr | crates/izel_mir/src/lower.rs:177-444 | code of an expression stays in its block if and only if the expression is straight |
| LowerFrame.ConfineExpr | crates/izel_mir/src/lower.rs:177-444 | for every expression, straight or not: only the current block and blocks made since change, and edges are only added |
| LowerShape.GrowExpr | crates/izel_mir/src/lower.rs:177-444 | at every step: only the current block may be unfinished, finished blocks never change, the graph stays coherent, variables keep their own slots |
| LowerShape.GrowStmts | crates/izel_mir/src/lower.rs:104-113 | the same over a statement list, with the block ended exactly if the last statement leaves it |
| ZonePaths.PathsBracketZones | crates/izel_mir/src/lower.rs:193-202 | for every forge with nothing behind a return and straight while conditions, checks on or off, self tail calls included: along every path every exit closes the innermost zone |
| ZonePaths.ZonesAgreeIff | crates/izel_mir/src/lower.rs:193-306 | for these the zones open on entry to each block are the same along all paths if and only if no path reaches a self tail call that lies under a given or while inside a zone |
| ZonePaths.ZonesAgreeOnAllPaths | crates/izel_mir/src/lower.rs:193-202 | so they are the same in every forge whose text has no such tail call, whatever tail calls it has elsewhere |
| LowerEarly.ClearForgeOuts | crates/izel_mir/src/lower.rs:272-331 | any forge whose text has no return of a kind under a given or while inside a zone has no block in which one ends |
| ZonePaths.RunsBracketZones | crates/izel_mir/src/lower.rs:193-202 | at every moment of every run of these forges, self tail calls included, the markers executed so far are bracketed |
| ZonePaths.ReturnsLeaveZonesIff | crates/izel_mir/src/lower.rs:193-331 | a run that returns has left every zone it entered if and only if neither the return it takes nor a self tail call it took lies under a given or while inside a zone |
| ZonePaths.ReturnsLeaveZones | crates/izel_mir/src/lower.rs:193-331 | so it has in every forge whose text has no such return |
| Lower.MirLowerer.LowerForge | crates/izel_mir/src/lower.rs:42-78 | the object's method returns the specified body whatever it lowered before, and is ready for the next forge |
| Lower.MirLowerer.LowerExpr | crates/izel_mir/src/lower.rs:177-444 | the in-place method changes the fields exactly as the specification |
| Lower.MirLowerer.LowerStmt | crates/izel_mir/src/lower.rs:115-155 | likewise for let, assignment and expression statements |
| Lower.MirLowerer.LowerBlock | crates/izel_mir/src/lower.rs:104-113 | likewise for blocks, with the value of the last expression |
| Lower.MirLowerer.LowerGiven | crates/izel_mir/src/lower.rs:332-396 | likewise for a given: three blocks, two branches, one join |
| Lower.MirLowerer.LowerWhile | crates/izel_mir/src/lower.rs:397-442 | likewise for a while: condition, body and exit blocks |
| Lower.MirLowerer.LowerReturn | crates/izel_mir/src/lower.rs:272-331 | likewise for returns: checks, terminator, or the self-tail-call jump |
| Lower.MirLowerer.LowerCall | crates/izel_mir/src/lower.rs:235-271 | likewise for calls with their precondition checks |
| Lower.MirLowerer.Rebind | crates/izel_mir/src/lower.rs:287-297 | parameters get fresh slots in order, as many as there are arguments |
| Lower.MirLowerer.RvalueToOperand | crates/izel_mir/src/lower.rs:446-458 | a computed value is stored in a fresh temporary of the inferred type |
| Lower.MirLowerer.ReadVariable | crates/izel_mir/src/lower.rs:90-102 | an unknown variable gets a slot on first read |
| LowerTypes.LetSlot | crates/izel_mir/src/lower.rs:115-175 | for every state and every new variable without annotation: its slot has the written type of what it is set to, the return type for a call, the annotation for a variable or operator, the constant's own for a literal |
| LowerTypes.AnnotatedSlot | crates/izel_mir/src/lower.rs:127-131 | with an annotation the slot has that |
| LowerTypes.UnboundSlot | crates/izel_mir/src/lower.rs:94-102 | a variable assigned without having been set by its `let` gets a slot of unknown type |
| LowerTypes.CallSlot | crates/izel_mir/src/lower.rs:264-268 | a call's value is in a slot of the call's return type |
| LowerTypes.UnknownArithmetic | crates/izel_mir/src/lower.rs:487-502 | in any state, arithmetic on two variables of unknown type is stored as a 32-bit integer |
| LowerTypes.ReboundSlots | crates/izel_mir/src/lower.rs:287-297 | a self tail call puts as many parameters as it has arguments into slots of unknown type |
| SlotTypes.TypedExpr | crates/izel_mir/src/lower.rs:177-510 | at every step, if types fit: every variable's slot keeps the variable's type, whatever is put into a slot fits it, and the value of an expression has the type it is worth |
| SlotTypes.HonestSlot | crates/izel_mir/src/lower.rs:115-175 | a new variable set to an expression whose annotation is right has a slot of exactly the type a temporary holding the same value would have, so an unknown one only if the value's type is unknown |
| SlotTypes.SlotsKeepTheirTypes | crates/izel_mir/src/lower.rs:42-78 | for every forge whose types fit, every meaning of values that respects the operators, and all typed arguments: at every moment of every run every slot, of a variable, parameter, call or temporary, holds a value of its type or none yet |
| SlotTypes.SomeRespect | crates/izel_mir/src/lower.rs:477-510 | there is such a meaning of values |
| LowerTexts.NamedCall | crates/izel_mir/src/lower.rs:254-270 | for every call in any state, the last instruction calls the function by the name written, `unknown` if none is, with one operand for each argument |
| LowerTexts.TailCallIff | crates/izel_mir/src/lower.rs:274-306 | for every state and expression: returning it goes back to the header if and only if it is a call of the forge's own name; else it returns a value |
| LowerTexts.StartsWithParams | crates/izel_mir/src/lower.rs:42-65 | lowering starts with one slot per parameter, in order, with its name and type, which its variable stands for, and jumps to the header |
| LowerTexts.CheckTexts | crates/izel_mir/src/lower.rs:243-251 | a checked condition of a call fails as a precondition, a clause as a postcondition |
| LowerTexts.DigitsShape | crates/izel_mir/src/lower.rs:98 | numbers in names of slots are decimal, without leading zeros |
| LowerTexts.UnboundName | crates/izel_mir/src/lower.rs:94-102 | the slot of a variable first met when read is named after it |
| Dce.Run | crates/izel_mir/src/optim.rs:7-65 | in place, the blocks become the swept fixpoint with unreachable blocks emptied; it ends |
| Dce.Sweep | crates/izel_mir/src/optim.rs:24-45 | one round removes exactly the dead assignments and phis and reports whether anything changed |
| Dce.SweepOne | crates/izel_mir/src/optim.rs:25-44 | removal by index over one block equals filtering it |
| Dce.CollectUsed | crates/izel_mir/src/optim.rs:12-21 | the set of locals read by any instruction or terminator |
| Dce.CollectReachable | crates/izel_mir/src/optim.rs:48-57 | the search finds exactly the blocks some edge path reaches from the entry |
| Dce.SweepShrinks | crates/izel_mir/src/optim.rs:9-46 | a round that changes anything strictly lowers the instruction count |
| DceCorrect.EliminationPreserves | crates/izel_mir/src/optim.rs:7-65 | if edges cover the terminators of reachable blocks, every run makes the same calls, branches, assertions and end, through phis, loops and the wipe |
| DceCorrect.SweepReachesFixpoint | crates/izel_mir/src/optim.rs:8-46 | after the loop every surviving assignment or phi writes a local that is read |
| DceCorrect.SweepAllKeeps | crates/izel_mir/src/optim.rs:28-43 | each block is a subsequence of itself that keeps every call, assertion, storage and zone instruction |
| DceCorrect.SweepAllIsGreatest | crates/izel_mir/src/optim.rs:8-46 | any set of locals that supports itself survives whole: sweeping removes nothing it need not |
| DceUses.UsedIffNoticed | crates/izel_mir/src/optim.rs:84-100 | a local is counted as used by an instruction if and only if under some meaning of the operators two runs of the instruction that differ in that local alone do something different, apart from leaving it different; and besides, if it is borrowed, or in a phi entry behind an earlier one for the same predecessor |
| DceUses.EndUsedIffNoticed | crates/izel_mir/src/optim.rs:102-113 | a local is counted as used by a terminator if and only if the terminator can tell what it holds |
| DceUses.UsedIffObserved | crates/izel_mir/src/optim.rs:12-21 | so the collected locals are exactly those that something in the body can notice, borrows or lists |
| DceUses.NothingUnnoticedIsLeft | crates/izel_mir/src/optim.rs:8-46 | after the loop a local that an assignment or phi writes is noticed, borrowed or listed by something left |
| DceUses.SupportedSurvive | crates/izel_mir/src/optim.rs:8-46 | and locals that notice one another's values through what would be left of them alone are all still observed |
| Pipeline.LoweredEdgesCover | crates/izel_mir/src/lower.rs:354-365 | lowering records every terminator target as an edge, which elimination needs |
| Pipeline.OptimizedLoweringPreservesMeaning | crates/izel_mir/src/optim.rs:7-65 | eliminating dead code of lowered code keeps the meaning of the forge |
| Pipeline.WipeNeedsEdges | crates/izel_mir/src/optim.rs:59-64 | without covering edges the wipe turns a returning program into a stuck one |
| Liveness.Compute | crates/izel_borrow/src/lib.rs:308-349 | the rounds end with both equations solved at every block, and a local is in an entry or exit set exactly if some path leads to an exposed use with no definition before |
| Liveness.LivenessIsLeast | crates/izel_borrow/src/lib.rs:317-341 | every solution of the equations contains path liveness |
| Liveness.GetBlockUsesDefs | crates/izel_borrow/src/lib.rs:351-378 | one pass computes exposed uses and definitions of a block |
| Liveness.ExposedIff | crates/izel_borrow/src/lib.rs:380-403 | a local is among the computed uses exactly if some counted read of it has no definition earlier in the block |
| LiveUses.CountedIffNoticed | crates/izel_borrow/src/lib.rs:355-369 | what the analysis counts as read is what an assignment or call can notice or an assignment borrows, and nothing that an assertion or phi looks at |
| LiveUses.DefinedIffSet | crates/izel_borrow/src/lib.rs:357-369 | what it counts as set is what an assignment or call sets, and nothing that a phi does |
| LiveUses.SwitchIffNoticed | crates/izel_borrow/src/lib.rs:373-375 | of terminators it counts exactly what a switch can notice |
| Liveness.JoinSuccessors | crates/izel_borrow/src/lib.rs:318-324 | the union of the known entry sets of a block's graph successors |
| Liveness.OutLeft | crates/izel_borrow/src/lib.rs:326-329 | an exit-set update that changes something leaves less room to grow |
| Liveness.InLeft | crates/izel_borrow/src/lib.rs:342-345 | an entry-set update that changes something leaves less room to grow |
| Borrow.InferBorrowRegions | crates/izel_borrow/src/lib.rs:43-77 | per local, one borrow per reference taken, in program order, held where it is made and wherever the reference is live on entry or exit by some path |
| BorrowCheck.BorrowChecker.Check | crates/izel_borrow/src/lib.rs:32-41 | accepts if and only if nothing was reported before and the body keeps the four rules: exclusive borrows in every block, owned reads, no move of borrowed data, no borrow of zone data held from the zone's exit on; and reports exactly what `Reported` says: each message, about the named local or zone, if and only if some event or block breaks that rule |
| BorrowCheck.BorrowChecker.CheckAll | crates/izel_borrow/src/lib.rs:79-219 | the pass over blocks in index order adds exactly those messages |
| BorrowCheck.BorrowChecker.CheckInstr | crates/izel_borrow/src/lib.rs:122-213 | initialised locals, open zones and zone allocations follow the events so far, and exactly the messages about the instruction's own events are added |
| BorrowCheck.BorrowChecker.CheckClashes | crates/izel_borrow/src/lib.rs:92-120 | the two tests per block report a local exactly if a mutable and a shared borrow of it, or two mutable ones, meet there |
| BorrowCheck.BorrowChecker.CheckOperand | crates/izel_borrow/src/lib.rs:247-290 | appends, in order, that the local is not owned, that a moved one is borrowed, that a copied one may not be copied, each exactly if so; a move of a non-copyable local ends its ownership |
| BorrowCheck.BorrowChecker.CheckZoneExit | crates/izel_borrow/src/lib.rs:130-178 | reports the zone exactly if some local allocated in it is borrowed in the exit block or a later one |
| BorrowCheck.AcceptedIff | crates/izel_borrow/src/lib.rs:32-41 | a body is accepted if and only if nothing is reported about it |
| BorrowTypes.OwnedIff | crates/izel_borrow/src/lib.rs:79-290 | a local is owned after some events if and only if it was a parameter or set by one of them and, if it is a mutable pointer, a structure or of another constructed type, not moved since |
| BorrowTypes.CopyAllowedIff | crates/izel_borrow/src/lib.rs:276-299 | a copy is allowed if and only if the local is owned and primitive, a shared pointer, or of unknown type |
| BorrowTypes.AcceptedCopies | crates/izel_borrow/src/lib.rs:276-299 | an accepted body copies no mutable pointer, structure or other constructed type |
| BorrowTypes.MovedIsSetFirst | crates/izel_borrow/src/lib.rs:276-288 | in an accepted body a moved local of these types is set again before any later read, move or borrow of it in block order |
| BorrowTypes.MoveKeepsShareable | crates/izel_borrow/src/lib.rs:276-288 | a moved local of the other types is still owned |
| BorrowTypes.NothingEscapes | crates/izel_borrow/src/lib.rs:126-213 | where an accepted body closes its innermost zone, no pointer or structure set in it is borrowed from that block on |
| BorrowTypes.RefusedExit | crates/izel_borrow/src/lib.rs:126-213 | and closing a zone is refused only for such a local |
| BorrowCheck.AcceptedAlongPath | crates/izel_borrow/src/lib.rs:92-120 | in an accepted body, along every path on which a reference is live, other borrows held there are shared, as is it, and nothing moves the local |
| BorrowPaths.OwnedOnAllPathsIff | crates/izel_borrow/src/lib.rs:79-290 | for every body: along all paths from the entry only set and unmoved locals are read, moved or borrowed, if and only if just parameters are live at the entry and no reachable move is followed by a look at that local before it is set again |
| BorrowPaths.SetBeforeReadIff | crates/izel_borrow/src/lib.rs:308-349 | the first half alone, setting before reading, holds if and only if the entry set the liveness analysis returns holds only parameters |
| BorrowPaths.AcceptedOnAllPathsIff | crates/izel_borrow/src/lib.rs:79-290 | an accepted body keeps the ownership rules along every path if and only if it meets that condition |
| BorrowLowered.AcceptsUninitialisedPath | crates/izel_borrow/src/lib.rs:80-90 | a lowered forge that is accepted and does not: a variable set in one branch only is read behind the join |
| LowerPlain.PlainForge | crates/izel_mir/src/lower.rs:177-458 | whatever the forge, its code is assignments, calls, assertions and zone markers over slots that exist, without references |
| LoweredBorrows.LoweredInRange | crates/izel_borrow/src/lib.rs:240-284 | so the checker, which indexes slots without a check, may be called on the code of every forge |
| LoweredBorrows.NothingBorrowed | crates/izel_borrow/src/lib.rs:43-77 | in it no local is ever borrowed |
| LoweredBorrows.AcceptedLoweredIff | crates/izel_borrow/src/lib.rs:32-41 | so a lowered forge is accepted if and only if, in block order, it reads only owned locals and copies only copyable ones |
| LowerTidy.TidyExpr | crates/izel_mir/src/lower.rs:177-458 | at every step: moves are of fresh temporaries, each looked at nowhere else and set on every way to that look; operands not used yet stay so |
| LoweredBorrows.LoweredMovesFinal | crates/izel_mir/src/lower.rs:446-458 | with nothing behind a return and straight while conditions, what a move takes is never looked at again before it is set |
| LoweredBorrows.LoweredSafeIff | crates/izel_borrow/src/lib.rs:79-290 | so an accepted lowered forge keeps the ownership rules along every path if and only if only parameters are live at the entry |
| LexFacts.LexemeLocal | crates/izel_lexer/src/lexer.rs:20-416 | every token's own text, lexed alone, is exactly that one token again, of the same kind |
| LexFacts.QuotedEndsAt | crates/izel_lexer/src/lexer.rs:296-335 | a string ends right after the first quote preceded by an even run of backslashes; it is unterminated exactly if there is none |
| LexFacts.QuotedEscape | crates/izel_lexer/src/string_reader.rs:5-26 | however much an escape consumes, the string ends where it would if one character were skipped |
| LexFacts.RawEndsAt | crates/izel_lexer/src/lexer.rs:377-396 | a raw string ends right after the first quote followed by as many hashes as opened it, else at the end of input |
| LexFacts.RawRoundTrip | crates/izel_lexer/src/lexer.rs:365-396 | content without the closing sequence, between its delimiters, is one terminated token of that span whatever follows |
| LexFacts.CommentMatchesGrammar | crates/izel_lexer/src/lexer.rs:398-416 | a block comment is terminated exactly if a body of the recursive grammar and a closing follow, and ends with that closing |
| LexFacts.BodyKeepsDepth | crates/izel_lexer/src/lexer.rs:398-416 | scanning a body of the grammar leaves the depth counter as it was |
| LexFacts.NumberLocal | crates/izel_lexer/src/lexer.rs:260-294 | a number's text alone is that number again, in spite of the two-character look-ahead at a dot |
| Lexer.Cursor.Bump | crates/izel_lexer/src/cursor.rs:37-41 | consumes the first character and keeps the byte count of the rest |
| Lexer.Cursor.EatWhile | crates/izel_lexer/src/cursor.rs:44-51 | consumes the longest prefix that satisfies the predicate |
| Lexer.Cursor.PosWithin | crates/izel_lexer/src/cursor.rs:54-56 | the bytes before the remaining characters |
| Lexer.Lexer.NextToken | crates/izel_lexer/src/lexer.rs:20-179 | one lexeme of the grammar, its span exactly the characters consumed; at the end an empty `Eof`, again and again |
| Lexer.Lexer.LexRawString | crates/izel_lexer/src/lexer.rs:365-396 | the hash-counting loops stop where the grammar says |
| Lexer.Lexer.EatMultiLineComment | crates/izel_lexer/src/lexer.rs:398-416 | the depth-counting loop stops where the grammar says |
| Lexer.Lexer.LexQuoted | crates/izel_lexer/src/lexer.rs:296-335 | the string loop stops where the grammar says, terminated or not |
| Lexer.Lexer.EatEscape | crates/izel_lexer/src/string_reader.rs:5-26 | consumes one escape sequence |
| Lexer.Lexer.LexIdentOrKeyword | crates/izel_lexer/src/lexer.rs:181-258 | keyword, identifier, or the raw or byte literal its text announces |
| Lexer.Lexer.LexNumber | crates/izel_lexer/src/lexer.rs:260-294 | base prefix, digits and fraction |
| Lexer.Tokenize | crates/izel_driver/src/main.rs:53-61 | the driver's loop reaches `Eof` and yields the specified token list |
| Lexer.TokensTile | crates/izel_lexer/src/lexer.rs:20-179 | for sources under 4 GiB, non-empty token texts joined are the source and spans are contiguous byte ranges of them from 0 to the end |
| Lexer.TilesMeet | crates/izel_lexer/src/lexer.rs:418-424 | in such a list exactly the last token is `Eof` and each span starts where the one before ended |
| LexWords.KeywordIff | crates/izel_lexer/src/lexer.rs:181-251 | wherever a lexeme starts: it is a keyword if and only if that keyword's spelling stands there and no letter, number or underscore follows, and then it is just that text |
| LexWords.SignTaken | crates/izel_lexer/src/lexer.rs:56-155 | wherever no comment begins, the longest sign whose characters stand there is the token made |
| LexWords.SignText | crates/izel_lexer/src/lexer.rs:56-155 | and a token of a sign's kind has exactly that sign's characters, no longer sign standing there |
| LexWords.KeywordAlone | crates/izel_lexer/src/lexer.rs:181-251 | a keyword's spelling, alone, is that keyword |
| LexWords.SignAlone | crates/izel_lexer/src/lexer.rs:56-155 | a sign's characters, alone, are that sign |
| LexWords.TokenTexts | crates/izel_lexer/src/lexer.rs:20-179 | in the token list of every source each keyword has its spelling as text and each sign its characters |
| LexShapes.FirstChooses | crates/izel_lexer/src/lexer.rs:56-178 | the first character of a lexeme that is no sign, comment or white space chooses between word, number, the three quoted forms, and an unknown character |
| LexShapes.WordShape | crates/izel_lexer/src/lexer.rs:181-258 | a word is the longest stretch of letters, numbers and underscores; `r` and `b` in front of a quote or hash begin raw and byte literals; any other is the keyword it spells or an identifier that spells none |
| LexShapes.NumberShape | crates/izel_lexer/src/lexer.rs:260-294 | a number is its prefix and the longest stretch of the base's digits and underscores, and a fraction behind a single point |
| LexShapes.EscapeShape | crates/izel_lexer/src/string_reader.rs:5-26 | an escape takes the braces after `u` with the hexadecimal digits in them, one or two digits after `x`, or one character |
| LexShapes.LineComment | crates/izel_lexer/src/lexer.rs:36-43 | a line comment ends in front of the next newline or NUL |
| LexShapes.NestedComment | crates/izel_lexer/src/lexer.rs:44-49 | a block comment goes on to where its depth is zero |
| LexShapes.SpaceShape | crates/izel_lexer/src/lexer.rs:28-33 | white space is taken whole |
| LexShapes.ShortestForm | crates/izel_lexer/src/cursor.rs:54-56 | a character counts for as many bytes as its code point needs in UTF-8 and no more |
| ParseTrees.RoundTrip | crates/izel_parser/src/expr.rs:26-105 | a well-shaped operator tree, printed and parsed, is that tree, and parsing stops at its end whatever looser token follows |
| ParseTrees.MinimalRoundTrip | crates/izel_parser/src/expr.rs:53-105 | any operator tree, printed with minimal parentheses, parses to the same operators and operands with just those parentheses |
| ParseTrees.MinimalFits | crates/izel_parser/src/expr.rs:26-105 | minimal parentheses make a tree well shaped, keep its operators, and add nothing where nothing is needed |
| ParseTrees.PrintDetermines | crates/izel_parser/src/expr.rs:26-105 | well-shaped trees with the same tokens are equal |
| ParseTrees.SpacedRoundTrip | crates/izel_parser/src/expr.rs:53-105 | the same with any white space and comments between the tokens: position, and the tree without them |
| ParseTrees.TokensRoundTrip | crates/izel_parser/src/expr.rs:53-105 | any tokens that, without white space and comments, are a printed tree parse to that tree to the last of them |
| ParseKinds.TreeKinds | crates/izel_parser/src/expr.rs:26-50 | the atoms and operators of these trees, written out: seven literal kinds, three names, seven prefix operators and the infix operators up to the products |
| ParseKinds.PrimaryByKind | crates/izel_parser/src/expr.rs:107-259 | in any input, at these prefix operators and no others a primary is a unary expression of the operand read behind it; at the literals and names, unless a macro is called, it is that one token; at `(` a group, at `bind` a closure; at anything outside the block forms an error holding the token |
| ParseKinds.LoopByKind | crates/izel_parser/src/expr.rs:53-105 | behind an expression the next operator is taken if and only if its written-out level is above the one asked for, and no brace opens a condition's block; what is taken is a node of that operator's form |
| ParseKinds.InfixByKind | crates/izel_parser/src/expr.rs:261-267 | an infix operator, the opening bracket among them, takes the expression before it and the one after it read above its own level |
| ParseKinds.ArgumentLabel | crates/izel_parser/src/expr.rs:277-306 | a call's argument is named if and only if a colon follows an identifier or one of the thirty keywords that are also names |
| ParseKinds.BlockKinds | crates/izel_parser/src/expr.rs:221-251 | the keywords of the forms left out are these eight |
| ParseSpaces.LosslessIff | crates/izel_parser/src/expr.rs:58-85 | an operator tree holds exactly its tokens outside the gaps before infix operators, so it holds all if and only if there are no such gaps |
| ParseSpaces.CallSpacing | crates/izel_parser/src/expr.rs:269-318 | in any input, an empty argument list closes at its parenthesis if and only if that follows the opening one at once; else the first argument holds it as an error |
| ParseSpaces.StructSpacing | crates/izel_parser/src/expr.rs:333-357 | likewise for the braces of an empty structure literal |
| ParseSpaces.TypeSpacing | crates/izel_parser/src/lib.rs:799-829 | likewise for empty type arguments |
| ParseSpaces.MacroSpacing | crates/izel_parser/src/expr.rs:160-196 | an empty macro call closes at its bracket whatever white space and comments come before it |
| ParseLevels.SameOrderIff | docs/project_overview.md:1570-1585 | of all pairs of documented infix and postfix operators but the bar, the parser orders exactly those otherwise that are an equality and a comparison, or `!` and a cast or access |
| ParseLevels.ReadAsDocumentedIff | crates/izel_parser/src/expr.rs:26-50 | three operands around two documented infix operators, any trivia between, are read as documented if and only if they are not an equality followed by a comparison |
| ParseLevels.ComparisonFirst | crates/izel_parser/src/expr.rs:33-34 | those are read with the comparison first |
| ParseLevels.NotBindsTightly | crates/izel_parser/src/expr.rs:210-220 | `not` before an operand and any infix operator takes the operand only |
| ParseLevels.NoBarNoShift | crates/izel_parser/src/expr.rs:26-50 | no token has the precedence of the bar or of a shift |
| ParseLevels.NothingBehindBar | crates/izel_parser/src/expr.rs:53-80 | an operator tree followed by a bar and anything is parsed to that tree, up to the bar |
| ParseLevels.ShiftIsTwoComparisons | crates/izel_parser/src/expr.rs:261-267 | two adjacent angle brackets are a comparison whose right operand starts with the second as an error |
| ParseLevels.MarkBindsToType | crates/izel_parser/src/expr.rs:261-267 | a mark behind a cast's type belongs to the type |
| ParseFacts.ParsesLossless | crates/izel_parser/src/expr.rs:53-418 | for every token sequence without block forms the position moves forward and the tree's tokens, less trivia and end markers, are those consumed, in order |
| ParseFacts.TightIsLossless | crates/izel_parser/src/expr.rs:53-418 | with no trivia before possible operators the leaves, trivia included, are exactly the tokens consumed |
| Parser.Parser.ParseExpr | crates/izel_parser/src/expr.rs:53-105 | the climbing loop ends and builds the specified tree |
| Parser.Parser.ParsePrimary | crates/izel_parser/src/expr.rs:107-259 | primaries, prefix operators and macro invocations as specified |
| Parser.Parser.ParseCallArgs | crates/izel_parser/src/expr.rs:273-316 | the argument loop makes progress and ends, on malformed input too |
| Parser.Parser.ParseStructFields | crates/izel_parser/src/expr.rs:337-356 | the field loop makes progress and ends |
| Parser.Parser.ParseGenericArgs | crates/izel_parser/src/lib.rs:799-829 | type arguments up to the closing bracket; the safety bump is never needed |
| Parser.Parser.ParseBangTail | crates/izel_parser/src/expr.rs:370-403 | `!` alone, or with `or` and a context expression |
| Parser.Parser.ParseBindExpr | crates/izel_parser/src/lib.rs:1131-1145 | a closure's parameters and body |
| Parser.Parser.EatTrivia | crates/izel_parser/src/lib.rs:1147-1155 | collects exactly the run of trivia at the cursor |
| Parser.Parser.Bump | crates/izel_parser/src/lib.rs:1164-1179 | returns the next token and never passes an end marker |
| ConstEval.EvalStable | crates/izel_parser/src/eval.rs:14-200 | an outcome other than unknown is unchanged by extending the context or replacing unknown bindings |
| ConstEval.EvalBlock | crates/izel_parser/src/eval.rs:150-200 | the statement loop with its early returns gives the specified outcome |
| ConstEval.DivRem | crates/izel_parser/src/eval.rs:48-61 | truncating quotient and remainder fit together, the remainder smaller than the divisor with the dividend's sign |
| ConstEval.BitwiseAt | crates/izel_parser/src/eval.rs:62-64 | each bit of the result, in two's complement and the sign's included, is the operation on those bits of the operands |
| ConstEval.BitsDetermine | crates/izel_parser/src/eval.rs:62-64 | numbers with the same bits are the same, so that settles the result |
| ConstEval.Bitwise | crates/izel_parser/src/eval.rs:62-64 | results stay inside the width |
| ConstEval.Wrap | crates/izel_parser/src/eval.rs:45-47 | wrapped results are 128-bit and congruent to the exact ones |
| EvalLaws.IntegerRing | crates/izel_parser/src/eval.rs:45-47 | evaluating a sum, difference, product or negation gives the 128-bit number congruent to the exact one |
| EvalLaws.WrapsExactly | crates/izel_parser/src/eval.rs:45-47 | which is the exact one where that fits |
| EvalLaws.IntegerDivision | crates/izel_parser/src/eval.rs:48-61 | quotient and remainder recompose the dividend, the remainder smaller than the divisor and of the dividend's sign; by zero they are unknown, and the smallest number by -1 traps |
| EvalLaws.IntegerBits | crates/izel_parser/src/eval.rs:62-64 | each bit of the three bit operations, and of inversion in `InvertedBits` |
| EvalLaws.InvertedBits | crates/izel_parser/src/eval.rs:130-134 | inversion flips every bit |
| EvalLaws.IntegerShifts | crates/izel_parser/src/eval.rs:65-78 | shifts by less than the width multiply, wrapping, or divide, rounding down; others are unknown |
| EvalLaws.IntegerOrder | crates/izel_parser/src/eval.rs:79-85 | the six comparisons of integers are theirs, and the logical operators are unknown on them |
| EvalLaws.Truths | crates/izel_parser/src/eval.rs:106-112 | what each operator gives on truth values |
| EvalLaws.Texts | crates/izel_parser/src/eval.rs:113-118 | on strings |
| EvalLaws.Nils | crates/izel_parser/src/eval.rs:119-123 | on nil |
| EvalLaws.Floats | crates/izel_parser/src/eval.rs:87-105 | on floats, in terms of the host's operations |
| EvalLaws.MixedKinds | crates/izel_parser/src/eval.rs:124 | operands of different kinds, or unknown ones, give unknown, with `and` and `or` too |
| EvalLaws.OtherUnary | crates/izel_parser/src/eval.rs:127-145 | a unary operator on another kind is unknown |
| EvalLaws.TrapsSpread | crates/izel_parser/src/eval.rs:41-44 | a trap in an operand is one of the whole |
| EvalLaws.KnownLeaves | crates/izel_parser/src/eval.rs:16-23 | literals are known, names as far as the context knows them |
| EvalLaws.GivenBranches | crates/izel_parser/src/eval.rs:25-40 | a given takes the branch its condition says, is nil without that branch, and unknown without a truth value |
| EvalLaws.OtherForms | crates/izel_parser/src/eval.rs:146 | every other form is unknown |
| EvalLaws.LetThen | crates/izel_parser/src/eval.rs:155-170 | a `let` puts its value under its name for the rest of the block |
| EvalLaws.AssignThen | crates/izel_parser/src/eval.rs:171-186 | an assignment does so only for a name that has a value |
| EvalLaws.ExprThen | crates/izel_parser/src/eval.rs:187-199 | an expression statement is only there to be known; a block is worth its last expression, or nil |
| Macro.SubstMeaning | crates/izel_ast_lower/src/lib.rs:2141-2239 | if nothing the expression writes is a parameter or read by an argument, evaluating after substitution is evaluating with the arguments' values bound |
| MacroShape.FormKept | crates/izel_ast_lower/src/lib.rs:2141-2239 | for every expression: substitution keeps the form of everything but an identifier, with all that is no expression in it, and substitutes its parts one by one; an identifier becomes what the map has for it; a `loop` stays as it is |
| MacroShape.FormAndParts | crates/izel_ast_lower/src/lib.rs:2141-2239 | and form and parts are all there is to an expression |
| MacroShape.LeavesSpread | crates/izel_ast_lower/src/lib.rs:2141-2239 | so outside loops exactly the identifiers in the map are replaced, in place, each by what it stands for |
| MacroShape.Untouched | crates/izel_ast_lower/src/lib.rs:2141-2239 | and an expression that mentions none of them there stays as it is |
| Macro.ExpansionIsCall | crates/izel_ast_lower/src/lib.rs:2083-2098 | a capture-free macro call evaluates as its body called by value, repeated parameter names included |
| Macro.ExpandMacroCall | crates/izel_ast_lower/src/lib.rs:2083-2098 | variadic or miscounted calls expand to nil, others to the substituted body |
| Macro.EvalAgrees | crates/izel_parser/src/eval.rs:14-200 | an outcome depends only on the free names of the expression |
| Macro.ExpansionCaptures | crates/izel_ast_lower/src/lib.rs:2119-2139 | for any parameter and any name bound by a `let` in the body, every argument is evaluated, in the expansion, with that name bound by the body; a call by value gives the argument's own value, or the bound one if the name is the parameter |
| ContractCheck.CheckRequires | crates/izel_parser/src/contracts.rs:14-40 | reports, as preconditions, exactly the clauses false of the bound arguments, by index, in order |
| ContractCheck.CheckEnsures | crates/izel_parser/src/contracts.rs:51-76 | likewise, as postconditions, with the returned value bound to `result` |
| ContractCheck.StableIffDistinct | crates/izel_parser/src/contracts.rs:24-39 | reports made from partial arguments hold for every completion if and only if parameter names are distinct |
| ContractCheck.EnsuresStays | crates/izel_parser/src/contracts.rs:59-74 | learning parameters or the result never withdraws a postcondition report |
| ModuleOrder.OrderModules | crates/izel_lsp/src/lib.rs:734-759 | the loop ends with every module once; those placed before the fallback follow their other dependencies; the fallback's each depend on another of them, and are sorted; and the whole order is that of the rounds, each over the waiting modules in name order |
| ModuleOrder.OrderMeans | crates/izel_lsp/src/lib.rs:741-746 | the same in terms of the recorded dependencies |
| ModuleOrder.SortedUnique | crates/izel_lsp/src/lib.rs:737-738 | each round's list of candidates, and with it the whole order, is unique |
| ModuleOrder.BelowIff | crates/izel_lsp/src/lib.rs:737-738 | names are in lexicographic order of their characters |
| ModuleRounds.StepBack | crates/izel_lsp/src/lib.rs:734-751 | where a placed module stands right behind one of a greater name, it depends on a module of a greater name before it |
| ModuleOrder.FullOrderIffAcyclic | crates/izel_lsp/src/lib.rs:734-759 | no fallback happens if and only if the dependencies, self-references aside, are acyclic |
| ModuleOrder.DrawDependencies | crates/izel_lsp/src/lib.rs:627-659 | the scanning loops collect the specified names |
| ModuleOrder.DepsIff | crates/izel_lsp/src/lib.rs:627-659 | a module is recorded if and only if some `draw` that names it is not stepped over by the scan of an earlier one that is not itself stepped over |
| ModuleOrder.RecordedIff | crates/izel_lsp/src/lib.rs:627-659 | so exactly those are recorded whose name follows such a `draw` over nothing but white space, comments and `::` |
| ModuleOrder.EatenIff | crates/izel_lsp/src/lib.rs:638-655 | a `draw` is stepped over if and only if it is the first thing behind an earlier one, over nothing but these, that is not stepped over itself |
| ModuleOrder.EverySecondDrawIsLost | crates/izel_lsp/src/lib.rs:638-655 | a module behind a row of adjacent `draw`s is recorded if and only if their number is odd |

## Left out

- LowerTheorem.LoweringPreservesMeaning: is proved for `SoundForge` (see `Fragment`): the ten mapped binary and two mapped unary operators, givens not used as values, straight while conditions, nothing behind a return, no self tail call, no operand that writes a variable an earlier operand still has to read, and, with checks on, clauses that are pure and do not repeat a returned call; for each, `LowerRules`, `LowerSame`, `LowerOps` or `LowerLimits` shows what happens without it.
- LowerTheorem.LoweringPreservesDivergence: is proved for `SoundForge` too.
- LowerTheorem.ForgeSimulated: is proved for `SoundForge` too.
- LowerReturns.ImplicitReturnIff: is stated for `SoundForge`, as are `ValueDropped` and `ExplicitReturnsAreSafe`.
- LowerOps.OperatorsMean: asks that the forge with the operators replaced is in `SoundForge`; `SameCode` asks nothing.
- LowerSame.ReturnedGivenMeans: asks the same of the forge with the same code, and that no clauses are checked.
- LowerSame.CodeBehindReturnMeans: asks the same, for a literal returned and straight code behind it.
- LowerRules.BranchAfterReturn: leaves out branching code that itself has code behind a return, whiles excepted.
- LowerLimits.SelfTailCallSpins: shows one looping forge; of self tail calls in general, coherence, zones and the exact fate of the slots are proved, but not for which whole recursions the loop still ends as they do.
- LowerLimits.CallingClauseIsSeen: compares lowered code with checks on and off; clauses with effects have no meaning in `HirSemantics`.
- LowerContracts.ChecksJudgeRuns: is stated for `SoundForge`, and asks that the conditions of calls are pure; they may fail.
- LowerContracts.ChecksOnlyStop: asks for the same.
- LowerContracts.ChecksKeepDivergence: asks for the same.
- ZonePaths.ReturnsLeaveZones: is about runs that return; a run stopped by a failed assertion may leave zones open.
- ZonePaths.PathsBracketZones: asks for straight while conditions, in the clauses that checks lower too, without which the graph itself is broken (`LowerBent.CoherentIffStraight`).
- LoweredBorrows.LoweredMovesFinal: asks for the same.
- BorrowCheck.BorrowChecker.Check: initialisation and zone tracking are stated in block order, as the code does them, initialisation and moves along control flow in `BorrowPaths`; return, assert and phi operands are not counted as reads, as in the code.
- Macro.ExpansionIsCall: gives a sufficient condition for capture-freedom, and `ExpansionCaptures` what a capturing expansion means; a body that captures may still happen to mean the same, so there is no converse.
- ParseFacts.TightIsLossless: gives a sufficient condition for arbitrary tokens; trivia before a prefix minus, for example, is kept although the condition excludes it. The condition of `ParseSpaces.LosslessIff` is exact, for operator trees; for postfix forms none is given.
- SlotTypes.SlotsKeepTheirTypes: asks that every variable is bound before it is read or assigned, in the order of lowering, that what is put into it fits, that operators are applied to types they work on, and that there is no self tail call; `LowerTypes.UnboundSlot`, `UnknownArithmetic` and `ReboundSlots` show the slots it would be about otherwise.
- LexWords.KeywordIff: assumes that the host's character tables classify ASCII as Unicode does, as do `SignTaken` and `LexShapes.FirstChooses`.
- LexFacts.RawRoundTrip: assumes that the host's character tables treat `r`, `#` and the quote as Unicode does; the tables themselves are parameters.
- Arithmetic in the middle end is any total interpretation: a trapping division in an expression statement, whose operator lowering drops, is not modelled.
- Evaluation to a number of nested loop iterations stands for unbounded runs; all theorems hold for every such number.
- Memory through references and pointers is not modelled: a reference is an address value, and calls change no local.
- Types the modelled branches do not inspect are one opaque form; the widths of integer literals in the two intermediate forms are not modelled.
- `petgraph` is a list of blocks and a list of edges; parallel edges and neighbour order are not observable here.
- The order in which hash maps are walked is arbitrary, so of the messages about one block's clashes and one zone's borrows neither order nor number is stated, only which there are.
- Lowering from the syntax tree to the high-level form is not part of this model.
- Given, branch, loop, while, each, zone, seek and raw expressions, which contain blocks or patterns, are not part of the parser model; token sequences that hold their keywords are excluded.
- Floats are bit patterns with abstract operations; source spans and type syntax are left out of the syntax tree.
- `Int`'s always-false `empty_int` flag and the depth counter's machine width are not modelled.
- File, package, formatter, code generation, linter and documentation crates do input, output or plumbing.
- The stub passes of `optim.rs` do nothing.
