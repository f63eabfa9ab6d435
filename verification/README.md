# Verified cores of the rev.ng decompiler back end

The decompiler turns lifted code into C in several steps, each of which must keep the meaning of the
program. This project models the steps in which most can go wrong and proves that they do.

**Control flow on Clift.** `Clift` defines statement trees with labels, gotos, `break_to` and
`continue_to`, and their runs. A run shows visible actions and condition outcomes; `Equivalent(p, q)` says
that, for every valuation of expressions, both programs show the same traces, end after the same traces and
silently diverge after the same traces. All local rewrites are instances of one family (`Rules`), and one
simulation theorem (`Preservation.RulePreserves`, built from `Behaviours`, `Static`, `Conditions`, `Lookup`,
`Sites`, `LabelLaws`, `Preserve`, `Places`, `Simulation`, `Steps` and `SiteSteps`) covers them; `InPlace` runs a
rule backwards, so that hoisting is the inverse of sinking. `Branches`, `LoopConditions` and `Positions` are
the statement patterns, and `PatternShapes` says what each makes of its operation; `JumpLaws`, `NewLoop`,
`OpenGotos`, `NamedJumps`, `GotoCollection`, `LoopCreation`, `LoopJumps`, `LoopNesting` and `LoopDetection` are loop
detection;
`StatementPasses`, with `JumpNames`, runs patterns in any order before and after it. `Combining` says when merging
nested ifs is right.

**Printing C.** `CPrinter` is the emitter with its ambient precedence, `CTokens` the lexer with maximal munch,
`CParser` a parser with one function per nonterminal of section 6.5 of ISO/IEC 9899:2011, which reads macros as
the preprocessor leaves them (`CMacros`). `CRoundTrip` proves that what is printed is read back, `CBreaks`,
`CYield` and `CHidden` what happens otherwise, and `CExactness` that an expression is read back exactly if none of
four shapes occurs in it. `CMeaning` defines what C text computes and `PrintedMeaning` what an expression computes,
and that both are the same. `CDeclarators` and `CDeclEmitter` do the same for declarations and section 6.7.6.

**Data flow.** `AvailableExpressions` is the must-analysis over coalesced program points with its worklist
solver, `Picker` the choice of values to serialize, `Serialization` the two together, `StructPhis` the splitting
of struct phis in SSA form, `ExpressionSize` the bound on expression sizes.

**Legal C.** `TwosComplement` and `Expressions` define widths, integer and pointer expressions and their values.
`Legalization` adapts pointer sizes and promotes, writes immediates and matches signs; `CVerifier` is the C
verifier. `CastElision` computes the usual arithmetic conversions, `CEvaluation` defines what C computes from an
expression whose casts were left out, `ElisionSound` proves that it is the value of the expression, and
`ElisionTight` that no cast is left that could be dropped; `PrintedValues` joins the two passes.

**Layout.** `EmissionOrder` orders type declarations and bodies, `VariableScopes` places declarations.

Some claims that one might expect do not hold of the code, and the project says exactly when they do: joining two
nested ifs by a conjunction (`Combining.CombiningExact`), reading printed expressions back (`CExactness.Exact`),
printing the body of a held class first (`EmissionExactness.FieldOrderExact`), adapting narrow operations and
pointers of another size (`LegalizationExactness.AdaptExact`), the acceptance of narrow immediates
(`CVerifier.LegalizeAccepted`), dropping casts to types below `int` (`ComparisonExactness.CompareExact`,
`ElisionExactness.ShiftExact`), and dropping all casts that C performs by itself (`ElisionTight.ElideTight`).

## Model

| member | source | states |
|---|---|---|
| LoopDetection.CreateLoops | lib/CliftTransforms/LoopDetection.cpp:221-262 | the whole pass: every run is preserved, no backward goto is left (so a second run finds nothing), every collected goto is gone, breaks and continues stay inside their loops; there is a stage for every label, made from the one before exactly as LoopJumps.CreateLoop states, the result has the jumps of the last stage, and every label around a new loop is erased unless something jumps to it |
| GotoCollection.IsBackwardGoto | lib/CliftTransforms/LoopDetection.cpp:41-66 | climbing from a goto reaches the block of its label through block statements and branches only |
| GotoCollection.CollectBackwardGotos | lib/CliftTransforms/LoopDetection.cpp:221-245 | the walk collects all labels in syntactic order and for each exactly the gotos behind it in its block that lie outside loops |
| LoopJumps.CreateLoop | lib/CliftTransforms/LoopDetection.cpp:108-219 | one loop: same behaviours, labels keep their order, gotos to labels outside the affected code stay. The loop stands behind the label and holds the statements up to the last one with a looping goto, what follows is untouched. A looping goto that ends it is erased, every other one continues the loop; a goto of the body to the label right behind the loop becomes a break of it, one to the label in front of the erased goto continues it; all other jumps stay, the only new one leaves a loop without closing goto, and the loop has labels only for jumps inside it. The affected labels are that of the loop, the one behind it and the one at its end |
| LoopJumps.MadeBreaks | lib/CliftTransforms/LoopDetection.cpp:169-193 | if a label is assigned right behind the loop, no goto of the body to it is left, and each is a break of the new loop |
| LoopJumps.MadeContinues | lib/CliftTransforms/LoopDetection.cpp:195-218 | if a looping goto ends the loop and a label is assigned in front of it, no goto of the body to that label is left, and each continues the new loop |
| LoopJumps.MadeLoopings | lib/CliftTransforms/LoopDetection.cpp:131-165 | the looping goto that ends the loop is gone, all others continue the new loop |
| LoopJumps.MadeOthers | lib/CliftTransforms/LoopDetection.cpp:131-218 | every other jump of the program, inside and outside the loop, stays as it was, and the only new jump is the break at the end of a loop that no looping goto ends |
| LoopCreation.AfterLoop | lib/CliftTransforms/LoopDetection.cpp:173-193 | a label right behind the loop leads where the break label leads |
| LoopCreation.EndOfLoop | lib/CliftTransforms/LoopDetection.cpp:195-218 | a label at the end of the body leads where the continue label leads, once the last goto is erased |
| LoopCreation.LastIsGoto | lib/CliftTransforms/LoopDetection.cpp:81-87 | a jump that bounds the loop in the scope of the label is one of the looping gotos |
| LoopCreation.BuildLoop | lib/CliftTransforms/LoopDetection.cpp:117-129 | wrapping the code behind the label preserves all runs, all gotos and the order of labels, and where the loop labels lead |
| LoopDetection.CreateAllLoops | lib/CliftTransforms/LoopDetection.cpp:246-251 | handling labels in reverse converts every collected goto and preserves runs, labels and nesting; every stage is made from the one before as one loop, or unchanged, and all labels around the new loops are affected |
| LoopDetection.CanonicalizeAll | lib/CliftTransforms/LoopDetection.cpp:253-261 | afterwards every affected label still assigned is jumped to, and all jumps are as before |
| LoopDetection.EarlierApart | lib/CliftTransforms/LoopDetection.cpp:246-251 | handling labels in reverse never touches the code of a label still to come |
| LoopNesting.CreatedNested | lib/Clift/Clift.cpp:589-657 | creating a loop keeps every break and continue inside the loop it targets and every goto outside the loops whose labels it targets |
| LoopDetection.Canonicalize | lib/Clift/Clift.cpp:1049-1072 | a label without jumps disappears with its assignment or from its loop, one with jumps stays; runs are preserved |
| Preservation.RulePreserves | lib/CliftTransforms/Statements.cpp:55-428 | any local rewrite whose side conditions hold preserves traces, endings and silent divergence |
| StatementPasses.AnyRun | lib/CliftTransforms/Statements.cpp:456-490 | any finite sequence of pattern applications, label canonicalization and erasing single copies of a duplicated jump included, preserves all behaviours and well-formedness |
| StatementPasses.LoopsBetweenRuns | lib/CliftTransforms/LoopDetection.cpp:221-262 | loop detection after any run of the patterns and before any other: same behaviours throughout, and no backward goto after it |
| JumpNames.AlikeEquivalent | lib/CliftTransforms/Statements.cpp:273-320 | programs that differ in the identity of jumps only have the same behaviours |
| JumpNames.NumberedKeeps | lib/CliftTransforms/Statements.cpp:273-320 | giving every jump, copies included, an identity of its own keeps behaviours and form |
| Branches.FindUniqueFallthroughRegion | lib/CliftTransforms/Statements.cpp:200-214 | finds the only region that falls through, or none if there is none or several |
| Branches.BranchEqualization | lib/CliftTransforms/Statements.cpp:216-269 | moving the code behind a branch into its only fallthrough region preserves every run, also runs that jump into the moved code |
| PatternShapes.EqualizedShape | lib/CliftTransforms/Statements.cpp:216-269 | the code up to the trailing labels stands at the end of the fallthrough region, the labels stay behind the branch, and nothing else changes in it |
| Branches.Hoistable | lib/CliftTransforms/Statements.cpp:237-253 | the moved code ends before the trailing labels |
| Branches.JumpDuplication | lib/CliftTransforms/Statements.cpp:273-320 | copying a trailing jump into every region that falls through preserves every run |
| PatternShapes.DuplicatedShape | lib/CliftTransforms/Statements.cpp:273-320 | nothing is left behind the branch, and the jump ends exactly the regions that fell through |
| Branches.IfInversion | lib/CliftTransforms/RewriteHelpers.cpp:72-94 | negating the condition and swapping the regions preserves every run |
| PatternShapes.InvertedShape | lib/CliftTransforms/RewriteHelpers.cpp:72-94 | the condition is negated, the then-region is the old else-region and the other way round |
| Branches.HoistPreserves | lib/CliftTransforms/RewriteHelpers.cpp:96-119 | hoisting a region out of its branch, with the inversion when it is the then-region, preserves every run if all other regions stop |
| PatternShapes.HoistedShape | lib/CliftTransforms/RewriteHelpers.cpp:96-119 | the hoisted region stands behind the branch and is empty in it; if it was the then-region of an if, the condition is negated and the old else-region is the then-region |
| Branches.UniqueFallthroughHoisting | lib/CliftTransforms/UniqueFallthroughBranchHoisting.cpp:31-51 | hoisting the only fallthrough region preserves every run |
| Branches.TerminalHoisting | lib/CliftTransforms/TerminalBranchHoisting.cpp:156-172 | hoisting any region of a branch none of whose regions falls through preserves every run, whichever the weights choose |
| Branches.IfAndCombining | lib/CliftTransforms/Statements.cpp:122-177 | merging an if nested in an outer then-region by a short-circuit conjunction preserves every run, with conditions evaluated in the same order |
| PatternShapes.CombinedShape | lib/CliftTransforms/Statements.cpp:122-177 | the inner if is gone, the outer one tests the conjunction with the inner condition, negated for an inner else-region, and its then-region is the and-then code |
| Combining.CombiningExact | lib/CliftTransforms/Statements.cpp:122-177 | for all four configurations of nested ifs, in any program that reaches the outer if and asks the inner condition nowhere else: the rewritten program has the same behaviours if and only if the inner if is in the outer then-region |
| Combining.InElseDiffers | lib/CliftTransforms/Statements.cpp:142-157 | an if in an else-region and its rewritten form behave differently |
| Combining.ExecSub | lib/CliftTransforms/Statements.cpp:155-177 | until the merged if is first reached, both programs run in step |
| Combining.NeverAsks | lib/CliftTransforms/Statements.cpp:155-177 | after the outer condition, the program that does not ask the inner one next does not ask it before another event |
| LoopConditions.WhileConditionPromotion | lib/CliftTransforms/WhileConditionPromotion.cpp:29-82 | a leading conditional break becomes the condition of the while loop; every run is preserved |
| PatternShapes.WhileShape | lib/CliftTransforms/WhileConditionPromotion.cpp:29-82 | the leading if is gone, the loop tests the condition under which it went on, and the rest of the body stays |
| LoopConditions.DoWhileConditionPromotion | lib/CliftTransforms/DoWhileConditionPromotion.cpp:29-83 | a trailing conditional break becomes the condition of a do-while loop; every run is preserved |
| PatternShapes.DoWhileShape | lib/CliftTransforms/DoWhileConditionPromotion.cpp:29-83 | the trailing if is gone and the loop is a do-while that tests the condition under which it went on |
| Positions.GetFallthroughTarget | lib/CliftTransforms/RewriteHelpers.cpp:121-147 | the position reached past labels and out of branches, at which neither is left |
| Positions.FallSame | lib/CliftTransforms/RewriteHelpers.cpp:121-147 | falling through reaches the same next visible statement |
| Positions.PlaceSound | lib/CliftTransforms/Statements.cpp:370-386 | the position taken for a label is where jumps to it continue |
| Positions.TrivialJumpElimination | lib/CliftTransforms/Statements.cpp:343-428 | erasing any set of trivial jumps at once preserves every run, without new silent cycles |
| PatternShapes.ErasedShape | lib/CliftTransforms/Statements.cpp:343-428 | exactly the named jumps are gone |
| CPrinter.Emitter.EmitExpression | lib/CliftEmitC/CBackend.cpp:878-908 | emits exactly the text of the expression at the ambient precedence and restores that precedence; CExactness.Exact says when that text is read back, PrintedMeaning.ReadsTheSame what it computes |
| CPrinter.Emitter.EmitBody | lib/CliftEmitC/CBackend.cpp:626-868 | dispatches each kind of expression to the emitter of its text |
| CPrinter.Emitter.EmitList | lib/CliftEmitC/CBackend.cpp:289-305 | arguments and initializers at comma precedence, separated by commas |
| CPrinter.Emitter.EmitAggregate | lib/CliftEmitC/CBackend.cpp:307-315 | a compound literal |
| CPrinter.Emitter.EmitIntrinsic | lib/CliftEmitC/CBackend.cpp:190-207 | a macro call with its operands |
| CPrinter.Emitter.EmitIntrinsicCast | lib/CliftEmitC/CBackend.cpp:178-188 | a macro call with a type and an operand |
| CPrinter.Emitter.EmitAccess | lib/CliftEmitC/CBackend.cpp:374-390 | member access |
| CPrinter.Emitter.EmitSubscript | lib/CliftEmitC/CBackend.cpp:392-410 | subscript, with commas in the index parenthesized |
| CPrinter.Emitter.EmitCall | lib/CliftEmitC/CBackend.cpp:412-435 | call |
| CPrinter.Emitter.EmitPostfix | lib/CliftEmitC/CBackend.cpp:583-591 | postfix increment and decrement |
| CPrinter.Emitter.EmitBitCast | lib/CliftEmitC/CBackend.cpp:446-460 | the bit_cast macro |
| CPrinter.Emitter.EmitCast | lib/CliftEmitC/CBackend.cpp:462-479 | a C cast |
| CPrinter.Emitter.EmitImplicitCast | lib/CliftEmitC/CBackend.cpp:481-487 | nothing but the operand, whatever number of implicit casts it has |
| CPrinter.Emitter.EmitPrefix | lib/CliftEmitC/CBackend.cpp:562-581 | a prefix operator, with a space between minus signs |
| CPrinter.Emitter.EmitInfix | lib/CliftEmitC/CBackend.cpp:593-614 | an infix operator, associating to the left except for assignment; PrintedMeaning.SameOperation says that its symbol means the operation |
| CPrinter.Emitter.EmitTernary | lib/CliftEmitC/CBackend.cpp:489-508 | a conditional expression |
| CLexing.LexText | lib/CliftEmitC/CBackend.cpp:562-581 | maximal munch splits the emitted text into exactly the tokens that were meant |
| CRoundTrip.InfixLevels | lib/CliftEmitC/CBackend.cpp:49-67 | the printer's precedences are the levels of the grammar |
| CMacros.CommasTokens | share/revng/include/runtime-library.h:114-155 | what the preprocessor counts as commas outside parentheses in the text of any expression |
| CRoundTrip.RoundTrip | lib/CliftEmitC/CBackend.cpp:446-908 | parsing the printed text of any printable expression, a comma expression in bit_cast included, gives the tree of the expression with implicit casts erased; PrintedMeaning.ReadsTheSame says what that tree means |
| PrintedMeaning.ReadsTheSame | lib/CliftEmitC/CBackend.cpp:510-908 | for every printable expression, in every world and memory: if the operations of the dialect give it a value or a place, then C, by its own operators on the tree read from the text, gives the same value or place and the same memory |
| PrintedMeaning.SameOperation | lib/CliftEmitC/CBackend.cpp:510-560 | the infix symbol that is printed for an operation computes, on numbers and pointers, what the operation computes |
| PrintedMeaning.SameUnary | lib/CliftEmitC/CBackend.cpp:510-560 | the same for prefix symbols on values |
| PrintedMeaning.SameStep | lib/CliftEmitC/CBackend.cpp:510-560 | the same for increments and decrements of what a place holds |
| CRoundTrip.ReadBitCast | share/revng/include/primitive-types.h:219-247 | the variadic macro takes everything after its first comma as one expression |
| CExactness.Exact | lib/CliftEmitC/CBackend.cpp:446-908 | for every expression with lvalues where the dialect wants them: the reader sees the expression if and only if none of the four shapes below occurs anywhere in it |
| CBreaks.BreakParse | lib/CliftEmitC/CBackend.cpp:446-908 | a shape that is printed wrongly anywhere in a text that is split as meant makes the whole text unreadable |
| CYield.ParseYield | lib/CliftEmitC/CBackend.cpp:446-908 | a tree that was read accounts for all tokens of the text but its parentheses |
| CHidden.WrongText | lib/CliftEmitC/CBackend.cpp:568-575 | where minus signs run together anywhere in a text, the reader sees another token than was meant |
| CExactness.AssignmentThird | lib/CliftEmitC/CBackend.cpp:504-507 | an assignment as third operand of a conditional is not an expression of C |
| CExactness.OpenInitializer | lib/CliftEmitC/CBackend.cpp:178-207 | an operand of an intrinsic that shows the comma of an initializer list outside parentheses is split by the preprocessor, and nothing is read |
| CExactness.InitializerInAddition | share/revng/include/runtime-library.h:121 | a member of a compound literal under an intrinsic addition is such an operand |
| CExactness.HiddenMinus | lib/CliftEmitC/CBackend.cpp:568-575 | two minus signs with an implicit cast between them are read as a decrement |
| CExactness.EmptyAggregate | lib/CliftEmitC/CBackend.cpp:289-315 | an empty initializer list is not an expression of C |
| CDeclarators.DeclarationRead | lib/CliftEmitC/CEmitter.cpp:131-330 | the tokens of a declaration declare exactly its name and type |
| CDeclEmitter.Emitter.EmitDeclaration | lib/CliftEmitC/CEmitter.cpp:131-330 | the two passes over the stack emit the tokens of the declaration and keep words apart |
| CDeclEmitter.Emitter.Unfold | lib/CliftEmitC/CEmitter.cpp:154-214 | the stack and the terminal type together stand for the declared type |
| CDeclEmitter.Emitter.EmitTerminal | lib/CliftEmitC/CEmitter.cpp:165-207 | the specifiers, with foreign pointers as macros around their pointee |
| CDeclEmitter.Emitter.EmitLefts | lib/CliftEmitC/CEmitter.cpp:216-247 | the pass before the name: stars, qualifiers, opening parentheses |
| CDeclEmitter.Emitter.EmitRights | lib/CliftEmitC/CEmitter.cpp:257-323 | the pass after the name: closing parentheses, extents, parameter lists |
| CDeclEmitter.Emitter.EmitArguments | lib/CliftEmitC/CEmitter.cpp:286-320 | parameters with their names where given, `void` where there are none; CDeclEmitter.AllParams says which name belongs to which parameter |
| CDeclEmitter.PassesWriteDeclarator | lib/CliftEmitC/CEmitter.cpp:216-323 | what both passes write around the name is one well-formed declarator |
| CDeclEmitter.ForeignMacroSize | lib/CliftEmitC/CEmitter.cpp:77-84 | the macro name of a foreign pointer determines its size |
| CDeclEmitter.Declare | lib/CliftEmitC/CEmitter.cpp:131-330 | lexing and parsing the emitted text gives back name and type, for any nesting of pointers, arrays, const, an outermost function and foreign pointers: decoded without the emitter, the text states exactly the declared type, and for a function its result, the types of its parameters in order, and name number j for parameter number j |
| CDeclEmitter.FromTo | lib/CliftEmitC/CEmitter.cpp:131-330 | decoding the C type of a declaration gives the declared type back: const, extents, pointer sizes and nesting |
| CDeclEmitter.AllParams | lib/CliftEmitC/CEmitter.cpp:293-319 | parameter number j of a declared function has the type number j and the name number j |
| AvailableExpressions.ApplyTransfer | lib/Canonicalize/SwitchToStatements.cpp:274-349 | editing the set in place removes what is clobbered or dead and adds what is generated |
| AvailableExpressions.ApplyRun | lib/Canonicalize/SwitchToStatements.cpp:351-393 | a coalesced run is replayed instruction by instruction |
| AvailableExpressions.ReplayExact | lib/Canonicalize/SwitchToStatements.cpp:274-393 | a run leaves exactly what it generated and then neither clobbered nor pruned, and what it found and neither clobbered nor pruned |
| AvailableExpressions.Sound | lib/Canonicalize/SwitchToStatements.cpp:274-393 | for every solution and every path to a point: what the set contains was generated on the path and nothing since may clobber the expression or the assignment |
| AvailableExpressions.LastGeneration | lib/Canonicalize/SwitchToStatements.cpp:274-393 | the generation may be taken to be the last one |
| AvailableExpressions.Solve | include/revng/MFP/MFP.h:384-476 | the worklist algorithm ends with the greatest solution |
| AvailableExpressions.Exactly | lib/Canonicalize/SwitchToStatements.cpp:274-393 | in a graph whose nodes are all reached, the result of the solver contains a pair if and only if on every path to the node the pair was generated and since then neither clobbered nor pruned |
| AvailableExpressions.Propagate | include/revng/MFP/MFP.h:427-471 | one iteration lowers successors and keeps all settled edges settled |
| AvailableExpressions.Coalescing | lib/Canonicalize/SwitchToStatements.cpp:572-596 | replaying runs from the greatest coarse solution gives the greatest solution with one point per instruction |
| AvailableExpressions.LoadRun | lib/Canonicalize/SwitchToStatements.cpp:616-630 | a load run answers about earlier values exactly as single points would |
| AvailableExpressions.ConstStoreRun | lib/Canonicalize/SwitchToStatements.cpp:616-630 | a constant-store run answers with a subset |
| AvailableExpressions.FindRun | lib/Canonicalize/SwitchToStatements.cpp:572-596 | the run of a program point is the longest stretch of its kind |
| Picker.SelectAssignment | lib/Canonicalize/SwitchToStatements.cpp:1040-1090 | the first assignment in program order that makes the value available, if any |
| Picker.Choice.CheckUses | lib/Canonicalize/SwitchToStatements.cpp:958-1017 | every use is replaced, replaceable by the first assignment that still holds the value, or available; or some use finds neither the read nor the value |
| Picker.Choice.PickForMemoryRead | lib/Canonicalize/SwitchToStatements.cpp:871-1037 | afterwards the value is closed: serialized, or inlined without repeating side effects and with every use replaced or available with a closed user; only what has to be is serialized or replaced |
| Picker.Choice.Pick | lib/Canonicalize/SwitchToStatements.cpp:850-869 | all memory reads end up closed, whatever later reads add |
| Picker.ChainAvailable | lib/Canonicalize/SwitchToStatements.cpp:871-1037 | on every chain without serialized value and replaced use the read is available at every user |
| Picker.ChainOnce | lib/Canonicalize/SwitchToStatements.cpp:883-895 | where an inlined chain from a read with side effects ends, the value is serialized or has a single use |
| Picker.ChainsAgree | lib/Canonicalize/SwitchToStatements.cpp:883-895 | of two inlined chains from a read with side effects one continues the other, so that the read is evaluated once |
| Picker.Choose | lib/Canonicalize/SwitchToStatements.cpp:850-1037 | the final choice, for any answers of the analysis: inlined reads are available along all chains, reads with side effects are inlined along one chain only, replaced uses read the first assignment that still holds their value, and a value is serialized only if a read that reaches it would be repeated or is lost at some use |
| Serialization.AnswerSound | lib/Canonicalize/SwitchToStatements.cpp:616-669 | what is answered at an instruction, from the value before or after its point or run, was generated on every path to it and not clobbered since |
| Serialization.AnswerExact | lib/Canonicalize/SwitchToStatements.cpp:616-669 | a pair is answered at an instruction if and only if on every path to it, to the end of its run where it stands in one, the pair was generated and since then neither clobbered nor pruned |
| Serialization.Serialize | lib/Canonicalize/SwitchToStatements.cpp:680-1037 | analysis and choice together: an inlined read was evaluated on every path to every user of its chain with nothing clobbered since, it is inlined along one chain only if it has side effects, and a replaced use reads a location that still holds its value; with the answers of the greatest solution, nothing is serialized or replaced without need |
| StructPhis.SplitPreserves | lib/Canonicalize/SplitStructPhis.cpp:131-271 | after every step of every run, per-field phis are the fields of the struct phis, reconstructions equal them, kept values and all uses are unchanged |
| StructPhis.NoneLeft | lib/Canonicalize/SplitStructPhis.cpp:131-271 | no value of the new program uses a split phi or an extraction from one, fields are extracted only from incoming values that are neither split phis nor initializers, and per-field phis are scalars |
| StructPhis.FieldComing | lib/Canonicalize/SplitStructPhis.cpp:25-85 | what a per-field phi receives from a predecessor is that field of the incoming struct, through undef, chained phis, initializers and extractions |
| StructPhis.InitField | lib/Canonicalize/SplitStructPhis.cpp:55-67 | a field of a struct initializer still equals its argument wherever the initializer dominates |
| StructPhis.Persist | lib/Canonicalize/SplitStructPhis.cpp:204-259 | where an instruction dominates, its operand has not been recomputed since |
| EmissionOrder.UnwrapType | lib/CliftEmitC/TypeDependencyGraph.cpp:151-183 | the named type under pointers and arrays, and which of them was met |
| EmissionOrder.Emitter.EmitTree | lib/CliftEmitC/TypeDefinitionEmitter.cpp:378-422 | a post-order visit prints the root after everything it depends on, in the order of a depth-first search, and leaves open nodes open |
| EmissionOrder.Emitter.EmitGraph | lib/CliftEmitC/Headers.cpp:83-95 | both sweeps together print every node |
| EmissionOrder.EmitTypeGraph | lib/CliftEmitC/Headers.cpp:83-95 | every node exactly once, after everything it depends on, in visiting order |
| EmissionOrder.AddDependenciesFrom | lib/CliftEmitC/TypeDependencyGraph.cpp:185-257 | adds exactly the dependencies that a part of a definition causes; EmissionOrder.NamedBefore and EmissionOrder.PointersAreFree say that these are enough and not too many |
| EmissionOrder.AddDependencies | lib/CliftEmitC/TypeDependencyGraph.cpp:259-281 | the dependencies of all fields, of the underlying type, or of return and argument types |
| EmissionOrder.BuildGraph | lib/CliftEmitC/TypeDependencyGraph.cpp:58-137 | declaration and body nodes for all types, with exactly these edges |
| EmissionOrder.EmitTypes | lib/CliftEmitC/Headers.cpp:83-95 | from the types to the printed order: each node once, after its dependencies; whatever a definition names, through pointers and arrays, is declared before it, what it holds arrays of is defined before it, and class bodies come after the bodies they hold |
| EmissionOrder.NamedBefore | lib/CliftEmitC/TypeDependencyGraph.cpp:185-257 | for every definition and every type that one of its parts names: the declaration of that type comes first, and its full definition if the part holds an array of it |
| EmissionOrder.PointersAreFree | lib/CliftEmitC/TypeDependencyGraph.cpp:220-226 | dependencies are acyclic as soon as values, arrays and typedefs are: pointers to classes and enums never make a cycle |
| EmissionOrder.BodiesInOrder | lib/CliftEmitC/TypeDependencyGraph.cpp:104-257 | a class body follows its declaration and the bodies of the classes it holds |
| EmissionOrder.HiddenElement | lib/CliftEmitC/TypeDependencyGraph.cpp:212-224 | with an array of a typedef, the order that is printed obeys all dependencies and yet has the holder first |
| EmissionExactness.ReachExactly | lib/CliftEmitC/TypeDependencyGraph.cpp:185-257 | the dependencies of a field lead, directly or not, to the body of a class that it holds if and only if no typedef names the class behind the last array |
| EmissionExactness.OrderExact | lib/CliftEmitC/Headers.cpp:83-95 | in all emissions that obey the dependencies one node precedes another if and only if the other depends on it, directly or not |
| EmissionExactness.BodyReaches | lib/CliftEmitC/TypeDependencyGraph.cpp:104-137 | the body of a class depends on another body exactly if one of its fields does |
| EmissionExactness.FieldOrderExact | lib/CliftEmitC/TypeDependencyGraph.cpp:185-257 | the body of a held class always precedes the body of the holder if and only if no typedef hides it, unless another field leads to it |
| VariableScopes.UpdateVariableLocation | lib/CliftTransforms/TightenVariableScopes.cpp:50-96 | the operation of the innermost common region that contains the current location |
| VariableScopes.FindLocation | lib/CliftTransforms/TightenVariableScopes.cpp:106-145 | merging use by use gives the lowest region common to all uses, at the operation around the first |
| VariableScopes.DeclarationDominates | lib/CliftTransforms/TightenVariableScopes.cpp:147-158 | the new place comes before every use |
| VariableScopes.WalkInOrder | lib/CliftTransforms/TightenVariableScopes.cpp:26-41 | what the post-order walk visits earlier does not come after what it visits later |
| VariableScopes.DeclarationPrecedes | lib/CliftTransforms/TightenVariableScopes.cpp:100-158 | for the uses that the walk visits, the declaration is placed before all of them |
| VariableScopes.TargetStays | lib/CliftTransforms/TightenVariableScopes.cpp:147-158 | no move target is itself moved |
| ExpressionSize.SizeOf | lib/Canonicalize/SplitExponentialDataflow.cpp:61-68 | the estimate is the size of the expression that will be emitted |
| ExpressionSize.ChooseStored | lib/Canonicalize/SplitExponentialDataflow.cpp:88-136 | exactly the expressions above the threshold are stored |
| ExpressionSize.SizeBound | lib/Canonicalize/SplitExponentialDataflow.cpp:120-133 | inlined expressions have at most the threshold of nodes, all others at most one plus the threshold for each operand |
| ExpressionSize.EmittedBound | lib/Canonicalize/SplitExponentialDataflow.cpp:88-143 | the emitted code is linear in the number of instructions |
| ExpressionSize.Execute | lib/Canonicalize/SplitExponentialDataflow.cpp:71-86 | in every run, with instructions executed in any order and any number of times, reading stored values back gives the original values |
| TwosComplement.Promotion | lib/CliftTransforms/Legalization.cpp:277-329 | extending, computing at the wider width and cutting equals the narrow operation, for every operation and width, with matching signs where the sign matters |
| TwosComplement.PromotionExact | lib/CliftTransforms/Legalization.cpp:277-329 | the promoted operation equals the narrow one on all operands if and only if the signs match where they matter, or it is an unsigned remainder and every positive divisor divides what sign extension adds |
| TwosComplement.PromotionSigns | lib/CliftTransforms/Legalization.cpp:277-329 | at the widths of C types the second case does not occur |
| TwosComplement.PromotionNeedsSigns | lib/CliftTransforms/Legalization.cpp:277-329 | a concrete narrow signed division of mismatched sign that changes its value |
| Legalization.EmitCastValue | lib/CliftTransforms/Legalization.cpp:28-53 | the emitted cast converts by the sign of its operand, pointers as unsigned |
| Legalization.AdaptValue | lib/CliftTransforms/Legalization.cpp:95-329 | resizing pointer operations, comparing pointers as integers and promoting preserve the value of the operation |
| LegalizationExactness.AdaptExact | lib/CliftTransforms/Legalization.cpp:95-329 | for an operation on different variables: its value is preserved for all their values if and only if its sign matches where it matters and its pointers are no larger than the target's |
| Legalization.ImmediateBits | lib/CliftTransforms/Legalization.cpp:416-491 | a rewritten immediate, cast back, has the same bits at every width |
| Legalization.RequiredEnough | lib/CliftTransforms/Legalization.cpp:458-475 | the chosen size holds all significant bits |
| Legalization.RequiredLeast | lib/CliftTransforms/Legalization.cpp:458-475 | the chosen size is that of int or a power of two, holds the number, and no smaller power of two from int on does |
| Legalization.RepresentValue | lib/CliftTransforms/Legalization.cpp:334-491 | rewriting immediates and boolean extensions preserves values |
| Legalization.MatchValue | lib/CliftTransforms/Legalization.cpp:346-409 | sign matching preserves values |
| Legalization.RewriteValue | lib/CliftTransforms/Legalization.cpp:583-740 | a stage applied to every node preserves the value of the tree |
| Legalization.LegalizeValue | lib/CliftTransforms/Legalization.cpp:583-740 | all stages together preserve the value of every integer and pointer expression |
| CVerifier.RewriteRule | lib/CliftTransforms/Legalization.cpp:583-740 | which rules of the verifier each stage establishes and which it keeps, both ways |
| CVerifier.LegalizeAccepted | lib/CliftEmitC/CSemantics.cpp:38-119 | after all stages the verifier, with its clause on pointer sizes, accepts an expression if and only if its narrow immediates can be written; extensions have operands of their sign, null pointers the target's size, and booleans extend to int only |
| CVerifier.LegalizeTwice | lib/CliftTransforms/Legalization.cpp:583-740 | an expression that follows all rules is left unchanged, and legalizing twice is legalizing once |
| CastElision.CommonIntegerType | lib/CliftTransforms/ImplicitCastElision.cpp:99-127 | the computed size is the common size, odd if the common type is unsigned |
| CastElision.OperatorIsUsual | lib/CliftTransforms/ImplicitCastElision.cpp:99-127 | equal operator types mean equal common types under section 6.3.1.8, both ways, for power-of-two sizes |
| CastElision.ElideArithmeticCasts | lib/CliftTransforms/ImplicitCastElision.cpp:212-233 | successive commits keep the common type, and a cast is dropped exactly when that is possible |
| ElisionSound.ElideCommon | lib/CliftTransforms/ImplicitCastElision.cpp:212-233 | the decisions for two operands, the second one after the first |
| ElisionSound.ElideCasts | lib/CliftTransforms/ImplicitCastElision.cpp:91-306 | the pass on a whole expression, and that C computes the value of the expression from the result |
| ElisionSound.ElideValue | lib/CliftTransforms/ImplicitCastElision.cpp:91-306 | for every accepted tree of unary, binary, shift, comparison, cast and pointer operations: evaluated by C, with its promotions and usual conversions, the printed expression has the type and value of the original |
| ElisionTight.ElideTight | lib/CliftTransforms/ImplicitCastElision.cpp:91-306 | in the result no cast could be dropped with the type of its operator unchanged, under unary operators, shifts, arithmetic and comparisons, and no comparison is extended to int explicitly, if and only if under every dropped cast there is none that could be dropped as well |
| ElisionTight.CastOnCast | lib/CliftTransforms/ImplicitCastElision.cpp:212-233 | a concrete pair of casts of which only the outer one is dropped |
| ElisionSound.IntWideFits | lib/CliftTransforms/ImplicitCastElision.cpp:91-127 | trees without operands narrower than int meet the condition on dropped casts |
| ElisionSound.LegalizeThenElide | lib/CliftTransforms/ImplicitCastElision.cpp:91-306 | both passes together: what C computes from the printed expression is the value of the expression before legalization |
| PrintedValues.PrintedValue | lib/CliftTransforms/ImplicitCastElision.cpp:91-306 | both passes together for expressions whose comparison operands and shift counts below int are read from variables or memory, orderings with their sign: what C computes from the text is the value of the expression |
| ComparisonExactness.CompareExact | lib/CliftTransforms/ImplicitCastElision.cpp:99-127 | with casts to a type below int on either or both sides of a comparison: the printed comparison is right for all values if and only if, for orderings, the type contains the types that C sees, and, for equality, numbers of those types are less than its number of values apart |
| ElisionExactness.ShiftExact | lib/CliftTransforms/ImplicitCastElision.cpp:133-134 | a cast of a shift count below int is dropped without changing the shift if and only if the cast is kept or does not cut |
| PrintedValues.PrintedSum | lib/CliftTransforms/ImplicitCastElision.cpp:212-233 | comparing a sum of two numbers of a small unsigned type passes the verifier and is printed so that C compares the sum before it wraps around |
| PrintedValues.NegativeImmediate | lib/CliftTransforms/Legalization.cpp:421-456 | comparing a variable of a small signed type with a negative immediate passes the verifier and is printed so that C never finds them equal |

## Left out

- `for` statements, label-less `break` and `continue`, local variables and their initializers in statement trees.
- The order in which the pattern driver applies patterns: any order is covered.
- The weights of terminal branch hoisting, which only choose a region; every choice is proved safe.
- StatementPasses.AnyRun: merging an if in an outer else-region is not among the patterns, because it does not preserve behaviours (Combining.CombiningExact).
- Splicing of operation lists is modelled on values: trees are rebuilt, not updated in place.
- Branches.JumpDuplication: copies of a jump share its name; StatementPasses numbers jumps anew after every pattern.
- Branches.IfAndCombining: for an inner if in the outer then-region, because the rewrite is wrong in an else-region, as Combining.CombiningExact shows; regions without block and regions with an empty block are one case, because both do nothing.
- Identifiers, literals, type names and macro names are single glyphs; negative literals are not printable leaves.
- CRoundTrip.RoundTrip: operands of assignment, increment, decrement and address-of are lvalues, as the dialect requires.
- PrintedMeaning.ReadsTheSame: numbers are unbounded and operands are evaluated from left to right; widths and conversions at operators are the subject of ElisionSound, and a value that the dialect leaves undefined may be anything in C.
- CParser: the preprocessor is modelled by where it splits the arguments of macros; their expansion is not.
- C attributes, comments, regions of the token stream, radix and suffixes of literals.
- CDeclEmitter.Declare: types are finite trees, so a function type that returns a pointer to itself is not covered.
- Alias analysis, post-dominators and the ordering of the worklist are parameters or any choice.
- The order of side effects of different calls in the picker, and the loads inserted by replacement.
- AvailableExpressions.Exactly, like Serialization.AnswerExact: every node is reached, because an unreached one passes on a set that no path computes.
- StructPhis.SplitPreserves: phis with one incoming value are taken to be replaced already, and fields are not split further.
- EmissionOrder.EmitTypes: the omission of one type on request is not modelled, and which types of the module take part is given.
- ExpressionSize.SizeBound: operands that are struct initializers are excluded, because the pass never splits them.
- The generated canonicalization patterns that legalization uses to collapse its own casts; enumeration types, calls through pointers and addresses of anything but objects.
- Differences of pointers of two different sizes, on which the pass stops.
- The intrinsic marking stage of legalization, which changes no value and which the verifier does not look at.
- Legalization.LegalizeValue: operations are adaptable, the exact condition of LegalizationExactness.AdaptExact.
- TwosComplement.PromotionExact: widths are at least three bits; the narrowest type has eight.
- ElisionSound.ElideValue: casts dropped below the size of int hold every value of their operand, as ComparisonExactness.CompareExact shows they must for orderings; boolean tests and coercing contexts are not modelled, and intrinsics, which the pass skips, are not in the trees.
- CEvaluation.CEval: signed arithmetic wraps around, because the emitted C is compiled with `-fno-strict-overflow` (share/revng/compile-flags.cfg:11-13); division by zero and shifts by a negative count have a fixed value.
- ElisionExactness.ShiftExact: a count whose cast changes its sign is not covered, because shifting by a negative count is undefined in C.
- Control-flow structuring before Clift, model import, pipes, exit from SSA, variable naming and all tooling.
