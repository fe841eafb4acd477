# A verified model of the CML2 configurator and of seven kernel and tool algorithms

The repository holds the CML2 kernel configurator (a rule language, its compiler and its front ends, in Python) and the
L4 kernel debugger (in C++). This project models the parts of both whose correctness is hardest to see and proves what
they are for.

**The configurator** (`contrib/cml2`). Every symbol has a stack of bindings. Each binding also hangs on the side-effect
chain of the primary, the symbol the user set. `set_symbol` propagates a setting's side effects, conceals the chains
that committing would remove, checks every formula, and commits or rolls back.

| file | content |
|---|---|
| `Rulebase.dfy` | expressions, evaluation, flattening, which symbol watches which formula |
| `Evaluation.dfy` | what the operators mean, apart from the evaluator, and what an expression rests on |
| `PartialEval.dfy` | `eval_frozen`, when it keeps a formula's meaning, and its three faulty steps |
| `Journal.dfy` | the binding journal as functions on a state, and the partition invariant |
| `Propagation.dfy` | the mutual recursion of side effects, bounded by a fuel |
| `FrozenSymbols.dfy` | when a frozen symbol's value is secure |
| `Transactions.dfy` | what every propagation step keeps |
| `Sessions.dfy` | one `set_symbol`: exact rollback, check equals commit, what a commit leaves |
| `Effects.dfy` | whom a setting reaches, and to which values: siblings, trits, ancestors, dependents |
| `Deductions.dfy` | what a formula forces, and what holds when the rounds of deduction end |
| `Causes.dfy` | the converse: nothing is bound, and no frozen symbol's change refused, without a cause |
| `Commits.dfy` | what an accepted call undoes, freezes, switches and watches |
| `Runs.dfy` | runs of a front end: single source, the partition, whole-run safety |
| `Freezing.dfy` | exactly when the formulas go on holding while symbols are frozen |
| `Permanence.dfy` | frozen symbols that no call and no run can change |
| `Requirements.dfy` | exactly when the simplified formulas go on standing for the rulebase's requirements |
| `FrozenRuns.dfy` | concrete runs in which freezing breaks a promise |
| `Exceptions.dfy` | calls that stop with an exception, and rulebases that do not |
| `Fuel.dfy` | the fuel bounds the call depth and nothing else |
| `Configurator.dfy` | the class with the source's fields and methods, each proved equal to its specification |
| `MenuTree.dfy` | `next_node` visits every item once |
| `TreeControl.dfy`, `TreeState.dfy`, `TreeNodes.dfy` | the tree control: neighbours, and restoring the open nodes |
| `Syntax.dfy`, `Parser.dfy` | the nine-level expression parser against the printer |
| `Precedence.dfy` | the operators' precedence: text with as few parentheses as possible is read back |
| `TypeDeduction.dfy` | the loop that types derived symbols, as a least fixed point |

**The kernel debugger and disassembler.** `LinkerSet.dfy` groups linker-set entries in place. `PageTables.dfy` dumps
page tables with explicit stacks. `MaskOperand.dfy` is the mask operand of the PowerPC rotate instructions, the MASK
notation of the Power ISA, Book I, "Fixed-Point Rotate and Shift Instructions". `FreeList.dfy` counts aligned runs of
free chunks. `Numbers.dfy` prints numbers and reads them back through a line editor. `Arithmetic.dfy` and
`Options.dfy` hold what several files share.

The Python is read with the semantics of its time (Python 2.1 and 2.2): `not` yields the integer 1 or 0, which is no
trit.

## What was found in the code

Where the code and its comments or documentation differ, the model follows the code.

- `eval_frozen` has three faulty steps: `implies` with an open premise and a conclusion frozen at n is reported true
  (`cmlsystem.py:1014-1015`); `not n` is reported m (974); a derived bool is not cast (965-966). `ImpliesExact`,
  `NotExact` and `DerivedExact` say exactly when each is harmless; formulas without such a step keep their meaning. The
  `not` step is out of the compiler's reach, since its lexer makes no `not` token; it takes a rulebase made otherwise.
- The implies step alone is enough to make a satisfied formula n (`FreezingLosesFormula`, two accepted calls on three
  bools); from then on every setting is rejected (`BrokenStays`). Which formulas are lost can be told from the values and
  the frozen set (`Lost`, `LostExact`), before the call if a symbol is frozen at the value it has (`IdleFreezeExact`);
  `FreezingCallExact` and `RunExact` have the exact conditions for calls and for runs.
- The implies step can also make a formula true that stands for a requirement still open, and then the requirement can
  be broken (`FreezingLosesConstraint`). `FaithfulCallExact` says exactly when a freezing call keeps the formulas
  standing for the requirements, `ImplicationsExact` puts that as the guard of the faulty branch, and
  `RequirementsSurvive` concludes that the requirements hold after runs in which the guards do not fire and the symbols
  frozen are secure.
- A frozen symbol's value can change. Its binding may hang on an unfrozen primary, whose later setting undoes it
  (`cmlsystem.py:861-867`, `282-289`; `FrozenSymbolChanges`); or it may have no binding and follow its default
  (`FrozenDefaultChanges`). Conditions on the state tell when it cannot: a symbol whose topmost bindings say the same as
  one that hangs on a frozen primary keeps its value for ever (`SafeCall`, `AnchoredRun`), and so does one at a default
  that rests on such symbols (`SecureRun`). A freezing call makes every symbol that shows one of its bindings so
  (`FreezeAnchors`). For the others `FrozenShows` says before the call whether the binding shown stays.
- `__inner_constrain` stops with an exception in several branches: it calls `trit`, a name its module does not have, for
  a failing `<` or `>` (1092-1116); it indexes into a literal (1042) and past the end of a negation (1044). A symbol
  without a menu has no menu ancestors to look up (736, 917). The model raises the corresponding error there
  (`NameErrorRaised`, `NotATritRaised`; `MildCall` has a condition on the formulas under which no call does). For `!=`
  between bools it passes a Python truth value on as the value to bind (1086-1091); the source goes on with that
  integer, which compares with trits by object identity. The model stops there (see below).
- `not` is not among the lexer's operators (`cmlcompile.py:64-69`, 154), so a printed negation is read as a word. A
  hexadecimal constant is a Python long and printed with an L, at which the lexer raises an exception (129), as is a
  decimal too big for a plain integer; and a string is printed with escapes that the lexer does not undo (121). Names
  are stripped of the rulebase's prefix (159-164), for the sake of names like CONFIG_3C515; what is left need not be read
  as a name again (`StrippedNameLost`). `RoundTripExact` has the exact condition for the printer and the parser to be
  inverse.
- The free-list scan starts from a null predecessor, so it miscounts exactly when the first free chunk lies at the
  chunk size (`CountsAreTheLists`).
- `update_tree` restores the open nodes exactly, but then goes back to the cursor with `expand`, which opens the node
  there if it was closed (`cmlconfigure.py:1984`, `TreeNodes.Tree.UpdateTree`).
- `print_hex` returns the greater of the width and the number of digits, not the width, as its comment has it. A number
  printed with more padding zeros than `get_hex` has room for is not read back unless it is 0 (`HexRoundTrip`).
- In `get_dec` a backspace takes back a digit only if the number with it fitted a word (`BackspaceUndoes`).

## Model

| member | source | states |
|---|---|---|
| Rulebase.EvalDependsOnFlatten | contrib/cml2/cml.py:263-348 | the value of an expression depends on nothing but the values of the symbols `flatten_expr` yields for it, given no bindings on derived symbols |
| Rulebase.WatchingExact | contrib/cml2/cml.py:252-259 | a requirement is among a symbol's constraints exactly when the symbol is in its flattening, and at most once |
| Rulebase.WatchersSeeEveryChange | contrib/cml2/cml.py:252-348 | whenever a requirement changes value, some symbol that watches it changed value |
| Evaluation.EvalExact | contrib/cml2/cml.py:263-332 | an expression has a value exactly if it means that value: a relation with the operators as tables over the order n, m, y, a binding before a default, and a bool's default as y or n |
| Evaluation.OperatorExact | contrib/cml2/cml.py:280-312 | each operator yields exactly one value, the evaluator's, stated without it |
| Evaluation.LogicalLaws | contrib/cml2/cml.py:280-288 | `and`, `or`, `implies` and `not` look only at whether their operands are n, and yield y or n |
| Evaluation.ComparisonLaws | contrib/cml2/cml.py:289-300 | `==`, `<=` and `>=` are y or n by the order n, m, y |
| Evaluation.ConverseLaws | contrib/cml2/cml.py:289-300 | `!=`, `>` and `<` are n where those are y, and y elsewhere |
| Evaluation.BoundLaws | contrib/cml2/cml.py:302-312 | the operator `&` is the greatest lower bound, its dual the least upper bound, and `$` the common value or n |
| Evaluation.SymbolLaws | contrib/cml2/cml.py:88-109 | a binding wins; else the value is the default's, a bool's as y or n, and n without a default |
| Evaluation.FlattenExact | contrib/cml2/cml.py:334-348 | `flatten_expr` yields exactly the settable symbols that the expression mentions itself or through a chain of derivations |
| PartialEval.CleanIsSound | contrib/cml2/cmlsystem.py:958-1019 | a formula evaluated without one of the three faulty steps can be replaced by the result: they agree under every valuation of the symbols that are neither frozen nor chilled |
| PartialEval.NotExact | contrib/cml2/cmlsystem.py:969-974 | simplifying a negation keeps its meaning if and only if its argument is not frozen at n |
| PartialEval.DerivedExact | contrib/cml2/cmlsystem.py:962-966 | simplifying a derived bool keeps its meaning if and only if its derivation is not frozen at m |
| PartialEval.ImpliesExact | contrib/cml2/cmlsystem.py:1009-1017 | simplifying an implication keeps its meaning if and only if it is not the case that the premise is open and satisfiable and the conclusion frozen at n |
| PartialEval.SymbolImpliesExact | contrib/cml2/cmlsystem.py:1009-1017 | for a premise that is a settable symbol the condition is the guard of the branch alone |
| PartialEval.FaultySteps | contrib/cml2/cmlsystem.py:958-1019 | concrete formulas for each of the three steps, a derived bool among them, to which simplification gives a value they do not have, or compares an integer with a trit |
| PartialEval.PatchedExact | contrib/cml2/cmlsystem.py:958-1019 | the partial evaluator answers exactly for decided formulas, and with the value of the formula in which each subformula at a faulty step's guard is replaced by what the step reports |
| PartialEval.LostExact | contrib/cml2/cmlsystem.py:958-1019 | simplification makes n of a formula if and only if it is decided and false with the faulty steps taken, in terms of the values and the frozen set alone |
| PartialEval.CleanKept | contrib/cml2/cmlsystem.py:958-1019 | a formula that holds is not lost unless a faulty step's guard fires in it |
| PartialEval.TameKeeps | contrib/cml2/cmlsystem.py:958-1019 | in formulas that a syntactic test accepts, the faulty steps do no harm to a formula that holds: simplification may not lose truth |
| Journal.InsertPoint | contrib/cml2/cmlsystem.py:269-278 | a sorted binding goes right behind the longest run of greater (or lesser) values at the top of the stack |
| Journal.SortedInsertShown | contrib/cml2/cmlsystem.py:220-278 | what a symbol shows after a sorted binding; it moves against the direction of the sort if and only if it precedes the new value and everything the new binding went behind is hidden |
| Journal.BindKeepsInv | contrib/cml2/cmlsystem.py:234-280 | binding keeps the partition: every binding is on exactly one chain of exactly one primary and once on its own symbol's stack, and nothing else is |
| Journal.UnbindOldKeepsInv | contrib/cml2/cmlsystem.py:282-289 | unbinding a set of primaries from the committed chains keeps the partition |
| Journal.UnbindNewKeepsInv | contrib/cml2/cmlsystem.py:282-289 | unbinding a set of primaries from the uncommitted chains keeps the partition |
| Journal.BindCommitKeepsInv | contrib/cml2/cmlsystem.py:295-313 | committing keeps the partition when each primary being committed is in the set that is undone |
| Journal.ChainIdsExact | contrib/cml2/cmlsystem.py:282-289 | the bindings taken off the stacks are exactly those on the chains of the primaries named |
| Journal.HideIsRemove | contrib/cml2/cmlsystem.py:220-227 | concealing bindings and removing them show the same value of the symbol |
| Journal.ConcealIsCommit | contrib/cml2/cmlsystem.py:306-329 | with the commit set concealed every symbol shows the value it shows after the physical commit |
| Transactions.BindWithin | contrib/cml2/cmlsystem.py:234-280 | a binding made for the transaction's source keeps the transaction invariant: the partition, all new bindings and chilled entries belong to the source, no (symbol, value) pair twice on its chain, and taking the new bindings out gives the stacks from before the transaction |
| Transactions.SetInternalWithin | contrib/cml2/cmlsystem.py:844-941 | setting a symbol, with everything it triggers, keeps the transaction invariant and all that was bound, touched or refused before and leaves no more hidden than it found |
| Transactions.SetUnfrozenWithin | contrib/cml2/cmlsystem.py:868-941 | setting an unfrozen symbol, whose old bindings are concealed meanwhile and shown again, keeps the transaction invariant |
| Transactions.SideEffectsWithin | contrib/cml2/cmlsystem.py:897-937 | all side effects of one setting together keep the transaction invariant |
| Transactions.SetSiblingsWithin | contrib/cml2/cmlsystem.py:903-905 | unsetting the siblings of a choice keeps the transaction invariant |
| Transactions.RaiseTritsWithin | contrib/cml2/cmlsystem.py:907-910 | forcing all trits at m to y keeps the transaction invariant |
| Transactions.ForceRelativesWithin | contrib/cml2/cmlsystem.py:911-921 | raising the ancestors and lowering the dependents of one symbol keeps the transaction invariant |
| Transactions.ForceAncestorsWithin | contrib/cml2/cmlsystem.py:714-737 | the upward recursion keeps the transaction invariant and all that was bound, touched or refused before |
| Transactions.ForceDependentsWithin | contrib/cml2/cmlsystem.py:739-766 | the downward recursion keeps the transaction invariant and all that was bound, touched or refused before |
| Transactions.DeduceWithin | contrib/cml2/cmlsystem.py:922-937 | settings deduced from visibility and formulas keep the transaction invariant |
| Transactions.ConstrainWithin | contrib/cml2/cmlsystem.py:1021-1124 | forcing a formula keeps the transaction invariant and all that was bound, touched or refused before |
| Transactions.ConstrainSymbolWithin | contrib/cml2/cmlsystem.py:1030-1041 | forcing a symbol, derived or not, keeps the transaction invariant |
| Transactions.RelateWithin | contrib/cml2/cmlsystem.py:1064-1124 | forcing one operand of a comparison keeps the transaction invariant and all that was bound, touched or refused before |
| Transactions.ConstrainRoundsWithin | contrib/cml2/cmlsystem.py:927-937 | the rounds over the watched formulas keep the transaction invariant, however many there are |
| Sessions.FailuresExact | contrib/cml2/cmlsystem.py:809-816 | the check reports exactly the formulas that evaluate to n, and nothing if and only if all hold |
| Sessions.ProposalWithin | contrib/cml2/cmlsystem.py:818-828 | when propagation returns, the transaction invariant holds, nothing is hidden or chilled, and the commit set is that of the symbol set |
| Sessions.RejectedIsUndone | contrib/cml2/cmlsystem.py:829-842 | a rejected setting leaves every binding stack, both chain families, all visible flags, the frozen set, the formulas and the switches as before the call |
| Sessions.DecisionIsAboutTheCommit | contrib/cml2/cmlsystem.py:818-842 | a setting is accepted if and only if no frozen symbol was to be raised and every formula holds in the state the commit produces; accepting produces that state |
| Sessions.CommitStacks | contrib/cml2/cmlsystem.py:306-313 | a binding is stacked after a commit exactly if it is new, or old and not on an undone chain |
| Sessions.CommitChains | contrib/cml2/cmlsystem.py:306-313 | which bindings hang on which primary after a commit |
| Sessions.AcceptedCommit | contrib/cml2/cmlsystem.py:295-313 | after an accepted setting the journal is a partition again; of the old bindings exactly those of earlier settings of the symbol or of its choices-menu siblings are gone, the new ones hang on the symbol set |
| Sessions.FrozenShows | contrib/cml2/cmlsystem.py:282-313 | across an accepted setting a frozen symbol that no formula in play mentions shows the same if and only if the symbol set is frozen or has the value already, or its stack shows the same without the chains of the symbol set and its menu siblings; one bound again shows the latest such binding |
| Effects.SetRecorded | contrib/cml2/cmlsystem.py:844-941 | what is set while a call is worked out stays on the chain of the symbol the user set, to the end; a frozen symbol that was to be raised stays among the refused changes |
| Effects.SetPlaced | contrib/cml2/cmlsystem.py:269-278 | where it is bound on its stack, to the end: below the greater (or lesser) bindings on top if it goes up (or down), above all others |
| Effects.DependentLowered | contrib/cml2/cmlsystem.py:739-766 | the value to which an unfrozen dependent with a greater one is bound, for each combination of kinds, with and without trits |
| Effects.AncestorRaised | contrib/cml2/cmlsystem.py:714-737 | the value to which an unfrozen ancestor is bound, for each combination of kinds, with and without trits |
| Effects.DependentsSeen | contrib/cml2/cmlsystem.py:761-766 | going down comes to every symbol on every path of items and dependents, and lowers it by that table if it finds it greater |
| Effects.AncestorsSeen | contrib/cml2/cmlsystem.py:732-737 | going up comes to every symbol on every path of ancestors and menus' ancestors, and raises it by that table |
| Effects.SideEffectsReach | contrib/cml2/cmlsystem.py:897-937 | one setting, the user's or a forced one, reaches its siblings, the trits if it is the tie going to n, all above it, all below it, its visibility and the formulas it watches |
| Effects.SettingReaches | contrib/cml2/cmlsystem.py:868-941 | so does every setting that does something, from the state in which it is bound and its old bindings are concealed |
| Effects.SiblingsExcluded | contrib/cml2/cmlsystem.py:903-905 | an accepted setting to a value other than n binds every unfrozen symbol of its choice group to n on its chain |
| Effects.AncestorsRaised | contrib/cml2/cmlsystem.py:714-737 | an accepted setting binds every unfrozen symbol above it to the table's value; a safe frozen one had at least that value before the call |
| Effects.DependentsLowered | contrib/cml2/cmlsystem.py:739-766 | an accepted setting binds every unfrozen symbol below it that propagation finds greater to the table's value; one with a greater value on top of its stack, from another chain, ends up with a binding to that value or to one not above the value set |
| Effects.AllBelowGoToN | contrib/cml2/cmlsystem.py:739-766 | an accepted setting to n binds to n every unfrozen symbol below it whose stack is topped by another value from another chain |
| Effects.LoweredAgain | contrib/cml2/cmlsystem.py:890-921 | the side effects are worked out with the symbol's old bindings concealed: a first dependent that is not n without them is bound to n again, though an earlier setting shows it at n |
| Effects.NoTritStaysAtM | contrib/cml2/cmlsystem.py:907-910 | an accepted setting of the trit tie to n binds to y every unfrozen trit that propagation finds at m; one with m on top of its stack, from another chain, ends up with a binding to y or n |
| Deductions.SymbolForced | contrib/cml2/cmlsystem.py:1030-1041 | forcing a settable symbol binds it, on the chain, to the value demanded, unless it is frozen at another; it counts as a setting exactly if the value differs |
| Deductions.ComparisonForced | contrib/cml2/cmlsystem.py:1057-1124 | what each of the six comparisons, demanded or denied, does to its one free operand, on either side: bind it to the value of the other, leave everything alone, or not return |
| Deductions.ForcingPassesOn | contrib/cml2/cmlsystem.py:1042-1056 | what is forced next: a derivation, the branch the guard selects, the conclusion of an implication whose premise holds, both parts of a conjunction or of a denied disjunction; every other logical or lattice operator is left alone |
| Deductions.ImpliedEqualityForced | contrib/cml2/cmlsystem.py:1052-1085 | an implied equality, its premise true, binds the free symbol to the other's value; its premise false, nothing happens |
| Deductions.ImplicationObeyed | contrib/cml2/cmlsystem.py:922-937 | in an accepted setting of a symbol that watches an implied equality, the free symbol is bound so on the chain if the premise holds when propagation comes to it |
| Deductions.RequirementSets | contrib/cml2/cmlsystem.py:922-937 | `S implies T==v`, watched by S: an accepted setting of S to another value than n, not taken back to n meanwhile, binds T to v |
| Deductions.QuietHolds | contrib/cml2/cmlsystem.py:1029-1124 | if forcing a formula sets nothing and the formula is one that forcing decides, it has the truth value demanded |
| Deductions.RoundsSettle | contrib/cml2/cmlsystem.py:927-937 | the rounds end only when every such formula among those gone through holds |
| Deductions.SideEffectsSettle | contrib/cml2/cmlsystem.py:897-937 | so when a setting's side effects are worked out, every such formula that its symbol watches holds |
| Causes.NothingWithoutCause | contrib/cml2/cmlsystem.py:844-1124 | every binding an accepted call made is the user's, or follows from one made before it: as sibling, switched trit, symbol above or below with the table's value, or as a value that a formula in force demands |
| Causes.ProposalAccounted | contrib/cml2/cmlsystem.py:818-828 | the same of what a call proposes; and every refused change is to a frozen symbol that something would have raised |
| Causes.ConstrainAccounted | contrib/cml2/cmlsystem.py:1021-1124 | forcing a formula binds nothing but what the formula demands of the values at that time |
| Causes.RejectedForCause | contrib/cml2/cmlsystem.py:818-842 | a call is rejected only if a formula fails in the state the commit would produce, or there was a cause to raise a frozen symbol |
| Causes.NothingFrozen | contrib/cml2/cmlsystem.py:818-842 | while nothing is frozen a call is accepted if and only if every formula holds in the state the commit produces |
| Commits.AlternativesUndone | contrib/cml2/cmlsystem.py:295-313 | of the bindings from earlier calls an accepted one keeps exactly those not brought by the symbol set, or, in a choices menu, by any of the menu's items |
| Commits.FreezeAllExact | contrib/cml2/cmlsystem.py:149-157 | freezing freezes the symbol and, with an alternative of a choices menu, the menu and all its items, and nothing else |
| Commits.AcceptedFreezes | contrib/cml2/cmlsystem.py:776-802 | an accepted freezing call freezes exactly what it touched, in that sense; another call freezes nothing |
| Commits.FrozenSetExact | contrib/cml2/cmlsystem.py:159-169 | the formulas are simplified with exactly those symbols constant that a setting treats as frozen |
| Commits.SiblingsFrozen | contrib/cml2/cmlsystem.py:787-789 | an accepted freezing call freezes the symbols that its choice excludes |
| Commits.TritsFollowTie | contrib/cml2/cmlsystem.py:781-784 | an accepted call on the trit tie that does not freeze leaves trits enabled exactly if the tie is not n after the commit; a freezing call leaves the switch |
| Commits.AlwaysWatched | contrib/cml2/cmlsystem.py:793-801 | in every state of every run each symbol watches exactly the formulas now in force that rest on it |
| Runs.SingleSource | contrib/cml2/cmlsystem.py:818-892 | all bindings of one call hang on the symbol the user set, at most three for each symbol, and the UNSATISFIABLE exception is unreachable |
| Runs.ChainBound | contrib/cml2/cmlsystem.py:239-246 | a chain without a repeated (symbol, value) pair has at most three bindings per symbol |
| Runs.AlwaysPartition | contrib/cml2/cmlsystem.py:282-313 | in every state reachable from a fresh configurator, whatever its requirements, each binding is on exactly one chain of exactly one primary and exactly once on its own symbol's stack, and conversely; nothing is uncommitted, concealed or chilled |
| Runs.ConstraintsAlwaysHold | contrib/cml2/cmlsystem.py:776-842 | from a rulebase whose requirements hold under defaults, after every run that freezes nothing, each setting accepted or rejected and the flags switched at will, every requirement holds |
| Runs.FormulasAlwaysHold | contrib/cml2/cmlsystem.py:776-842 | if the requirements pass the syntactic test, then after every run, freezing or not, what freezing left of them holds |
| Freezing.FreezingExact | contrib/cml2/cmlsystem.py:793-800 | simplifying a satisfied list of formulas keeps it satisfied if and only if none of them is lost |
| Freezing.FreezingCallExact | contrib/cml2/cmlsystem.py:776-807 | an accepted freezing call leaves formulas that hold if and only if none is lost at the values and with the frozen set it proposes |
| Freezing.RunExact | contrib/cml2/cmlsystem.py:776-842 | for arbitrary formulas, freezing and switching: after a run the formulas hold if and only if no acceptable freezing call on the way loses one |
| Freezing.BrokenStays | contrib/cml2/cmlsystem.py:776-842 | once a formula is n no setting is accepted any more |
| Freezing.IdleFreeze | contrib/cml2/cmlsystem.py:776-807 | freezing a symbol at the value it has is accepted whenever the formulas hold, and changes the frozen set and the formulas only |
| Freezing.IdleFreezeExact | contrib/cml2/cmlsystem.py:776-807 | such a freeze keeps the formulas satisfied if and only if none is lost at the values before the call, with the symbol added to the frozen set |
| Transactions.SafeSteady | contrib/cml2/cmlsystem.py:844-941 | throughout propagation, with old bindings concealed and formulas binding it again, a safe frozen symbol keeps its value |
| Permanence.SafeCall | contrib/cml2/cmlsystem.py:818-842 | no call changes a frozen symbol one of whose bindings hangs on a frozen primary under bindings to the same value, nor one at a default that rests on such symbols; and either stays so |
| Permanence.FreezeLasts | contrib/cml2/cmlsystem.py:149-157 | after an accepted freezing call the chain of the symbol set can no longer be undone |
| Permanence.FreezeAnchors | contrib/cml2/cmlsystem.py:776-807 | so every frozen symbol that shows a binding of that chain is anchored |
| Permanence.AnchoredRun | contrib/cml2/cmlsystem.py:818-842 | an anchored symbol keeps its value over every run, whatever is set, frozen or switched |
| Permanence.SecureStep | contrib/cml2/cmlsystem.py:818-842 | if all frozen symbols are secure, no step changes any of them, and only one that freezes can add insecure ones |
| Permanence.SecureRun | contrib/cml2/cmlsystem.py:818-842 | if each symbol is secure when it is frozen, every frozen symbol keeps its value to the end of the run |
| Permanence.IdleFreezeSecure | contrib/cml2/cmlsystem.py:776-807 | freezing a symbol at its value leaves all frozen symbols secure if and only if the state before the call, with the symbol frozen, does |
| Requirements.FaithfulHolds | contrib/cml2/cmlsystem.py:793-816 | while the formulas stand for the requirements, checking the formulas checks the requirements |
| Requirements.ImpliesStandsExact | contrib/cml2/cmlsystem.py:1009-1017 | the simplified implication stands for the implication if and only if it is not the case that the premise is open and satisfiable and the conclusion frozen at n |
| Requirements.GuardedStandsExact | contrib/cml2/cmlsystem.py:1009-1017 | for a settable premise the guard of the branch alone is the condition |
| Requirements.SimplifyStandsExact | contrib/cml2/cmlsystem.py:793-800 | a simplified list goes on standing for the requirements if and only if each simplified formula stands for its formula |
| Requirements.FaithfulCallExact | contrib/cml2/cmlsystem.py:776-842 | if all frozen symbols are secure, a call keeps the formulas standing for the requirements: if it is accepted and freezes, if and only if each simplification stands for its formula; otherwise always |
| Requirements.ImplicationsExact | contrib/cml2/cmlsystem.py:776-842 | for formulas that are clean or implications with a settable premise and a clean conclusion, a freezing call does so if and only if no implication has an open premise over a conclusion frozen at n |
| Requirements.SecureLeavesFrozen | contrib/cml2/cmlsystem.py:818-842 | if all frozen symbols are secure, accepting a call leaves each of them its value |
| Requirements.RequirementsSurvive | contrib/cml2/cmlsystem.py:776-842 | every requirement of the rulebase holds after every run, freezing or not, in which no faulty step's guard fires in a formula being frozen, and each symbol is secure when it is frozen |
| FrozenRuns.FreezingLosesFormula | contrib/cml2/cmlsystem.py:776-842 | a run of two accepted freezing calls after which a requirement that held under the defaults has become n |
| FrozenRuns.FreezingLosesConstraint | contrib/cml2/cmlsystem.py:776-842 | a run of two accepted calls, the first freezing, after which a requirement of the rulebase is violated |
| FrozenRuns.FrozenSymbolChanges | contrib/cml2/cmlsystem.py:844-941 | a symbol frozen at the value its dependent forced on it changes when the dependent is set back |
| FrozenRuns.FrozenDefaultChanges | contrib/cml2/cmlsystem.py:844-941 | a symbol frozen at its default value changes with the symbol its default mentions |
| Exceptions.MildCall | contrib/cml2/cmlsystem.py:1029-1124 | in a rulebase whose watched formulas meet no `<`, `>` or bool `!=`, also where they are forced to n, no call uses the undefined name, and none that does not freeze stops for want of a trit |
| Exceptions.NameErrorRaised | contrib/cml2/cmlsystem.py:1092-1100 | a rulebase that holds under its defaults and a call on it that uses the undefined name |
| Exceptions.NotATritRaised | contrib/cml2/cmlsystem.py:1086-1091 | a rulebase and a call after a freeze that would bind a truth value |
| Fuel.SetInternalMore | contrib/cml2/cmlsystem.py:844-941 | a propagation that does not run out of fuel has the same outcome with more |
| Fuel.ConstrainMore | contrib/cml2/cmlsystem.py:1021-1124 | a forced formula that does not run out of fuel has the same outcome with more |
| Fuel.SetSymbolSettled | contrib/cml2/cmlsystem.py:818-842 | set_symbol's outcome is the same for every fuel that lets it finish |
| Configurator.CMLSystem.constructor | contrib/cml2/cmlsystem.py:84-184 | a fresh configurator has empty stacks and chains, nothing frozen, and the rulebase's requirements as its formulas |
| Configurator.CMLSystem.InsertSorted | contrib/cml2/cmlsystem.py:269-278 | the loop finds the insertion point of a sorted binding |
| Configurator.CMLSystem.FindDuplicate | contrib/cml2/cmlsystem.py:239-246 | found exactly when the chain has a binding of the symbol to the value |
| Configurator.CMLSystem.BindSymbol | contrib/cml2/cmlsystem.py:234-280 | the object changes as the journal's binding step, duplicates included |
| Configurator.CMLSystem.RemoveChain | contrib/cml2/cmlsystem.py:282-288 | removing a chain's bindings one by one removes exactly them from all stacks |
| Configurator.CMLSystem.UnbindOldSymbol | contrib/cml2/cmlsystem.py:282-289 | the object changes as the journal's unbinding step on the committed chains, and stays a partition |
| Configurator.CMLSystem.UnbindNewSymbol | contrib/cml2/cmlsystem.py:282-289 | the object changes as the journal's unbinding step on the uncommitted chains, and stays a partition |
| Configurator.CMLSystem.BindConceal | contrib/cml2/cmlsystem.py:322-329 | hides exactly the committed bindings of one primary |
| Configurator.CMLSystem.BindReveal | contrib/cml2/cmlsystem.py:314-321 | shows exactly the committed bindings of one primary |
| Configurator.CMLSystem.FindCommitSet | contrib/cml2/cmlsystem.py:295-305 | the set of symbols to undo does not depend on the order of the primaries; a primary without a menu is an error |
| Configurator.CMLSystem.BindCommit | contrib/cml2/cmlsystem.py:306-313 | the loop over the commit set commits as specified, and the journal stays a partition |
| Configurator.CMLSystem.Rollback | contrib/cml2/cmlsystem.py:768-774 | the loop over the primaries takes back all uncommitted chains, in any order |
| Configurator.CMLSystem.SaneCheck | contrib/cml2/cmlsystem.py:809-816 | appends exactly the failing formulas to the list of refused changes, which it aliases |
| Configurator.CMLSystem.OptimizeConstraintAccess | contrib/cml2/cml.py:252-259 | the loops leave each symbol with the formulas that rest on it |
| Configurator.CMLSystem.FreezeSymbol | contrib/cml2/cmlsystem.py:149-157 | freezes the symbol, and with a choices menu the menu and all its items |
| Configurator.CMLSystem.SimplifyReduced | contrib/cml2/cmlsystem.py:797-800 | each formula is replaced by its simplification where there is one |
| Configurator.CMLSystem.FreezeTouched | contrib/cml2/cmlsystem.py:787-801 | freezes every touched symbol before it simplifies |
| Configurator.CMLSystem.Commit | contrib/cml2/cmlsystem.py:776-807 | the object changes as the specified commit, freezing or not |
| Configurator.CMLSystem.SetInternal | contrib/cml2/cmlsystem.py:714-1124 | the methods of the recursion change the fields, and raise exceptions, as `Propagation` specifies; the others without a loop (SetUnfrozen, SideEffects, ForceRelatives, ForceAncestors, ForceDependents, Deduce, Constrain, ConstrainSymbol, Relate) do so in the same way |
| Configurator.CMLSystem.ForceAllAncestors | contrib/cml2/cmlsystem.py:733-737 | the loops over ancestors leave the fields as the specified recursion does, with the same exceptions |
| Configurator.CMLSystem.ForceAllDependents | contrib/cml2/cmlsystem.py:759-766 | the loops over items or dependents leave the fields as the specified recursion does, with the same exceptions |
| Configurator.CMLSystem.SetSiblings | contrib/cml2/cmlsystem.py:903-905 | the fields end up as in `Propagation.SetSiblings`, or the same exception is raised, for the loop over the siblings |
| Configurator.CMLSystem.RaiseTrits | contrib/cml2/cmlsystem.py:907-910 | the fields end up as in `Propagation.RaiseTrits`, or the same exception is raised, for the loop over the dictionary, whose values change on the way |
| Configurator.CMLSystem.ConstrainAll | contrib/cml2/cmlsystem.py:933-935 | the fields end up as in `Propagation.ConstrainAll`, or the same exception is raised, for one round over the formulas |
| Configurator.CMLSystem.ConstrainRounds | contrib/cml2/cmlsystem.py:927-937 | the fields end up as in `Propagation.ConstrainRounds`, or the same exception is raised, for the rounds until one sets nothing |
| Configurator.CMLSystem.SetSymbol | contrib/cml2/cmlsystem.py:818-842 | propagation, check, and commit or rollback change the object exactly as the specified setting, to which all theorems about calls and runs apply, and leave it ready for the next call |
| MenuTree.NextNode | contrib/cml2/cmlsystem.py:1154-1169 | climbing with a local variable finds the preorder successor, and the start menu after the last item |
| MenuTree.StepsEnumerate | contrib/cml2/cmlsystem.py:1154-1169 | stepping on from the start goes through all items in preorder and is then back at the start |
| MenuTree.EveryItemOnce | contrib/cml2/cmlsystem.py:1154-1169 | every item, with choices as leaves, is met at exactly one step of the round |
| TreeControl.NextEnumerates | contrib/cml2/tree.py:244-257 | `next` enumerates the visible nodes in preorder |
| TreeControl.PrevEnumerates | contrib/cml2/tree.py:260-274 | `prev` enumerates them backwards |
| TreeControl.InPreorder | contrib/cml2/tree.py:244-274 | every visible node has a place in the preorder list |
| TreeControl.PreorderDistinct | contrib/cml2/tree.py:244-274 | and no two places hold the same node |
| TreeControl.NextAndPrev | contrib/cml2/tree.py:244-274 | `prev` undoes `next` except at the last node, `next` undoes `prev` except at the root, and `next` stands still at the last node only |
| TreeControl.Next | contrib/cml2/tree.py:244-257 | the climbing loop finds the next visible node, or stays at the last |
| TreeControl.Prev | contrib/cml2/tree.py:260-274 | the previous sibling's bottom or the parent is the previous visible node |
| TreeControl.LastVisible | contrib/cml2/tree.py:454-459 | going down the last subnodes ends at the one node from which `next` does not move |
| TreeState.ExpandShows | contrib/cml2/tree.py:144-236 | expanding a path leaves a tree that shows the contents |
| TreeState.ExpandOpened | contrib/cml2/tree.py:226-236 | expanding one more path opens exactly its existing prefixes in addition |
| TreeState.OpenedExpanded | contrib/cml2/tree.py:115-134 | the expanded paths determine an open tree: the nodes on their prefixes are exactly its open nodes |
| TreeState.Restored | contrib/cml2/cmlconfigure.py:1975-1984 | collapsing the root and expanding the recorded paths gives back the tree if and only if the root was open (or cannot be) |
| TreeState.ExpandVisible | contrib/cml2/tree.py:226-236 | expanding the path to a visible node changes nothing if and only if that node is open or cannot be opened |
| TreeNodes.TreeNode.ToggleState | contrib/cml2/tree.py:144-223 | opening replaces the subnodes by closed new ones for the contents, closing drops them; nothing happens in the wanted state or without an open icon |
| TreeNodes.TreeNode.CreateSubnodes | contrib/cml2/tree.py:172-181 | one closed node per entry, in order, on separate footprints |
| TreeNodes.TreeNode.Expand | contrib/cml2/tree.py:226-236 | the objects under the node change as the specified expansion, the other nodes not at all |
| TreeNodes.TreeNode.Expanded | contrib/cml2/tree.py:115-134 | the explicit-stack loop terminates and yields the paths of the innermost open nodes, the last subnode's first |
| TreeNodes.TreeNode.PushOpen | contrib/cml2/tree.py:125-133 | one turn of the loop neither loses nor adds a path to be found |
| TreeNodes.Tree.Redraw | contrib/cml2/cmlconfigure.py:1978-1983 | collapsing and expanding again restores an open tree exactly, with new node objects |
| TreeNodes.Tree.UpdateTree | contrib/cml2/cmlconfigure.py:1975-1984 | the update leaves the tree as it was if and only if the node at the cursor is open or cannot be opened |
| Syntax.RoundTrip | contrib/cml2/cmlcompile.py:212-348 | for an expression without negations whose leaves are read as they are printed, parsing the printed form, followed by anything that does not start with an operator, gives the expression and leaves the rest; so does the form without its outer parentheses |
| Syntax.RoundTripExact | contrib/cml2/cml.py:350-362 | printing and parsing are inverse on an expression if and only if it has no negation, no long constant, no string that repr escapes, no name that the lexer reads as anything else, and no hole unless a property is called None |
| Syntax.NameExact | contrib/cml2/cmlcompile.py:112-165 | the lexer reads a name as itself if and only if it is a word that starts with no digit, is no trit, keyword, operator, property or inclusion, and does not start with the declared prefix |
| Syntax.StrippedNameLost | contrib/cml2/cmlcompile.py:128-164 | with the prefix CONFIG_ declared, CONFIG_3C515 becomes a name that does not come back |
| Syntax.EscapedExact | contrib/cml2/cml.py:361-362 | repr leaves a text as it is if and only if it has only printable characters but backslash and not both kinds of quotes |
| Syntax.Canonical | contrib/cml2/cmlcompile.py:212-348 | whatever spelling was parsed, the printed form parses to the same tree, if and only if its leaves are read as they are printed |
| Syntax.Operand | contrib/cml2/cmlcompile.py:212-348 | each of the nine parsing functions reads back a fully parenthesised operand up to a token that would not continue it |
| Syntax.Lift | contrib/cml2/cmlcompile.py:212-348 | a parse that no higher level would continue is the higher level's parse too |
| Precedence.SparseReads | contrib/cml2/cmlcompile.py:212-348 | an expression printed with only the parentheses that the order of the operators requires (the lattice operators, comparisons, `not`, `and`, `or`, `implies`, `*`, `? :`, `+ -`) is read back as it is, at each of the nine levels |
| Precedence.ChainReads | contrib/cml2/cmlcompile.py:232-348 | `a op b op' c`, for every two operators: the looser one is outside, equally loose ones group to the right, `*` takes all that follows, and a second comparison or `implies` is left unread |
| Parser.TokenStream.LexToken | contrib/cml2/cmlcompile.py:112-160 | takes the next token, the end of file again and again |
| Parser.TokenStream.PushToken | contrib/cml2/cmlcompile.py:232-239 | a token pushed back is the next one read, and an end of file pushed back changes nothing |
| Parser.TokenStream.ParseAtom | contrib/cml2/cmlcompile.py:212-230 | the method on the push-back stream consumes and returns what the specification does, with the same errors |
| Parser.TokenStream.ParseTerm | contrib/cml2/cmlcompile.py:232-243 | consumes from the push-back stream and returns exactly what `Syntax.ParseTerm` does, errors included |
| Parser.TokenStream.ParseRelational | contrib/cml2/cmlcompile.py:245-256 | consumes from the push-back stream and returns exactly what `Syntax.ParseRelational` does, errors included |
| Parser.TokenStream.ParseAssertion | contrib/cml2/cmlcompile.py:258-264 | consumes from the push-back stream and returns exactly what `Syntax.ParseAssertion` does, errors included |
| Parser.TokenStream.ParseConjunct | contrib/cml2/cmlcompile.py:266-277 | consumes from the push-back stream and returns exactly what `Syntax.ParseConjunct` does, errors included |
| Parser.TokenStream.ParseDisjunct | contrib/cml2/cmlcompile.py:279-290 | consumes from the push-back stream and returns exactly what `Syntax.ParseDisjunct` does, errors included |
| Parser.TokenStream.ParseFactor | contrib/cml2/cmlcompile.py:292-304 | consumes from the push-back stream and returns exactly what `Syntax.ParseFactor` does, errors included |
| Parser.TokenStream.ParseSummand | contrib/cml2/cmlcompile.py:306-317 | consumes from the push-back stream and returns exactly what `Syntax.ParseSummand` does, errors included |
| Parser.TokenStream.ParseTernary | contrib/cml2/cmlcompile.py:319-335 | consumes from the push-back stream and returns exactly what `Syntax.ParseTernary` does, errors included |
| Parser.TokenStream.ParseExpr | contrib/cml2/cmlcompile.py:337-348 | consumes from the push-back stream and returns exactly what `Syntax.ParseExpr` does, errors included |
| TypeDeduction.DeduceMonotone | contrib/cml2/cmlcompile.py:1073-1099 | a type once deduced stays deducible when more types are known |
| TypeDeduction.Pass | contrib/cml2/cmlcompile.py:1070-1102 | a pass deduces nothing only if no untyped derived symbol can be typed, and otherwise types one more |
| TypeDeduction.DeduceTypes | contrib/cml2/cmlcompile.py:1069-1104 | at most one round more than there are derived symbols, and the result is the least assignment that deduction settles at: each symbol has the type its derivation leads to, if any |
| TypeDeduction.LeastIsUnique | contrib/cml2/cmlcompile.py:1069-1104 | so the types do not depend on the dictionary's order |
| TypeDeduction.LeastExact | contrib/cml2/cmlcompile.py:1069-1104 | a symbol ends up with a type exactly if its derivation leads to it: through symbols whose type is taken over to one declared with it, or to a form that has it |
| TypeDeduction.DeduceForms | contrib/cml2/cmlcompile.py:1074-1097 | the type of each form of derivation, and from which symbol the others take theirs |
| LinkerSets.GroupedPermutes | kernel/kdb/generic/linker_set.cc:71-100 | the stable grouping is a permutation of the entries |
| LinkerSets.GroupedBlock | kernel/kdb/generic/linker_set.cc:66-69 | in it every set is one contiguous block with its entries in their original order |
| LinkerSets.GroupedPush | kernel/kdb/generic/linker_set.cc:81-99 | one more entry goes to the end of its set's block |
| LinkerSets.MoveStep | kernel/kdb/generic/linker_set.cc:91-97 | a swap keeps the list pointers of the sets whose blocks are passed right |
| LinkerSets.MoveUp | kernel/kdb/generic/linker_set.cc:81-99 | the inner loop terminates within bounds, inserts the entry at the end of its block and shifts the blocks above by one |
| LinkerSets.Place | kernel/kdb/generic/linker_set.cc:73-99 | after one more entry the section's prefix is grouped and all descriptors describe it |
| LinkerSets.InitSets | kernel/kdb/generic/linker_set.cc:52-101 | the section ends up as the stable grouping of what was linked, and the descriptors describe it |
| LinkerSets.SetHoldsItsEntries | kernel/kdb/generic/linker_set.cc:66-100 | after start-up each set's `list[0..entries)` is the sequence of its original entries, empty for a set without any |
| LinkerSets.Visit | kernel/kdb/generic/linker_set.cc:116-131 | `reset` and then `next` until NULL yields exactly that sequence |
| LinkerSets.LinkerSet.Next | kernel/kdb/generic/linker_set.cc:126-131 | the next member, or NULL without moving when there is none |
| LinkerSets.LinkerSet.Size | kernel/kdb/generic/linker_set.cc:137-140 | the number of the set's members in the section, none for a set without entries |
| LinkerSets.LinkerSet.Get | kernel/kdb/generic/linker_set.cc:146-151 | the n-th member, or NULL |
| PageTables.Dump | kernel/kdb/generic/linear_ptab_dump.cc:104-167 | the loop terminates, keeps its stack indices in bounds, prints exactly the recursive traversal's listing, each entry met at its own address, and ends num pages further on; or the listing up to the first multiple of 4000 at which the user declines to continue |
| PageTables.PathListed | kernel/kdb/generic/linear_ptab_dump.cc:104-156 | each entry of each table is listed behind those met before it, with its own address and size and, if it maps a page, the frame; an invalid one gives nothing |
| PageTables.Origin | kernel/kdb/generic/linear_ptab_dump.cc:104-166 | every place of the listing is that of an entry |
| PageTables.WalkEntry | kernel/kdb/generic/linear_ptab_dump.cc:110-156 | the i-th entry of a run: the mapping of its frame, or a table with the table's own listing behind it, at the address i pages on |
| PageTables.PassOver | kernel/kdb/generic/linear_ptab_dump.cc:127-156 | passing an entry without subtree emits its mapping at the address reached, or nothing for an invalid one, and leaves the traversal's continuation |
| PageTables.GoDown | kernel/kdb/generic/linear_ptab_dump.cc:111-126 | pushing and entering a subtree leaves the same listing to come |
| PageTables.ComeUp | kernel/kdb/generic/linear_ptab_dump.cc:158-166 | popping a finished table leaves the same listing to come |
| PageTables.Push | kernel/kdb/generic/linear_ptab_dump.cc:117-119 | the stack arrays hold the rests of the tables above, within bounds |
| PageTables.Ascend | kernel/kdb/generic/linear_ptab_dump.cc:158-166 | the inner loop goes up past every finished table and no further |
| PageTables.FindStart | kernel/kdb/generic/linear_ptab_dump.cc:92-101 | finds the entry the index function names in a full table of the wanted size, from which every dump prints a contiguous part of the whole space's listing, at the path's address; finds none if and only if the path is blocked by an entry without subtree above that size |
| PageTables.BaseIsPage | kernel/kdb/generic/linear_ptab_dump.cc:84-101 | if the indexes are the digits of the page number, the path's address is the page that contains the address |
| MaskOperand.InsertMbe | contrib/disas/ppc-opc.cc:985-1038 | an error if and only if the mask is not one cyclic run of ones; otherwise the fields are those of MASK(mb, me), and over a clear field they read back as the mask; no other bit changes |
| MaskOperand.Scan | contrib/disas/ppc-opc.cc:1001-1027 | the loop counts the transitions around the circle, as many rises as falls, and finds the last of each |
| MaskOperand.ExtractMbe | contrib/disas/ppc-opc.cc:1040-1068 | all three branches yield MASK(mb, me) of the fields |
| MaskOperand.MaskUnique | contrib/disas/ppc-opc.cc:1040-1068 | different fields denote different masks, except the ways to write the full mask |
| MaskOperand.Reinsert | contrib/disas/ppc-opc.cc:985-1068 | inserting an extracted mask restores the fields, except that the full mask becomes (0, 31) |
| MaskOperand.FieldsOfEncode | contrib/disas/ppc-opc.cc:1037 | over a clear field both numbers read back |
| FreeList.KmemStats | kernel/kdb/generic/kmemory.cc:61-99 | below the cap each count is the number of aligned runs of that many adjacent chunks on the list with null in front; the maximum is the largest size with a run |
| FreeList.CountRuns | kernel/kdb/generic/kmemory.cc:76-98 | one chunk adds, for each size, one if an aligned run of the size ends there |
| FreeList.BuddyLaw | kernel/kdb/generic/kmemory.cc:76-98 | each count is at least twice the count of the next size |
| FreeList.CountsAreTheLists | kernel/kdb/generic/kmemory.cc:66-74 | the counts are those of the list itself if and only if its first chunk is not at the chunk size |
| Numbers.Console.PrintDec | kernel/kdb/generic/print.cc:208-229 | the decimal digits of the value, padded to the width; the result is the number of characters emitted |
| Numbers.Console.Leading | kernel/kdb/generic/print.cc:211-215 | the divisor never exceeds the value (or 1) and is the weight of the leading digit |
| Numbers.Console.PrintHex | kernel/kdb/generic/print.cc:62-97 | the hexadecimal digits, padded on the side and with the character asked for; the result is the number of characters emitted |
| Numbers.Console.HexWidth | kernel/kdb/generic/print.cc:70-77 | the number of digits without leading zeros |
| Numbers.Console.GetHex | kernel/kdb/generic/input.cc:66-127 | under backspaces and a 0x prefix the word always holds the number on the edited line and never overflows; reading ends at RETURN, ESC or a full line |
| Numbers.Console.GetDec | kernel/kdb/generic/input.cc:158-197 | the word and the counter go through the keys as specified, and stand for the edited line as long as its number fits a word |
| Numbers.DecLine | kernel/kdb/generic/input.cc:158-197 | as long as the numbers typed fit a word, the word and the counter are the value and the length of the line |
| Numbers.BackspaceUndoes | kernel/kdb/generic/input.cc:164-178 | backspace takes back a digit if and only if the number with it fitted a word |
| Numbers.HexRoundTrip | kernel/kdb/generic/print.cc:62-97 | what `print_hex` prints, with RETURN, is read by `get_hex` as the number if and only if its digits fit the line or it is 0 |
| Numbers.DecRoundTrip | kernel/kdb/generic/print.cc:208-229 | what `print_dec` prints, padded with anything that reads as no digit from 1 to 9 and ends no line, is read back by `get_dec` |
| Numbers.LenBounds | kernel/kdb/generic/print.cc:70-77 | the number of digits is the least that holds the value |
| Numbers.FixedValue | kernel/kdb/generic/print.cc:224-226 | the digits emitted have the value printed |
| Numbers.HexTextAt | kernel/kdb/generic/print.cc:62-97 | each character printed: the digit of its weight in the case asked for, or the padding, on its side |
| Numbers.DecTextAt | kernel/kdb/generic/print.cc:208-229 | each character printed: the padding, then the digit of its weight |

## Left out

- Propagation: its functions take a fuel, since contradictory rules can make the source's recursion diverge. A run that
  exhausts it is one for which nothing is claimed; `Fuel.SetSymbolSettled` shows that the fuel has no other effect.
- Transactions: nothing is said about the state after an exception; the source gives no promise for it either.
- Numeric and string symbols in the evaluator, and messages' texts; values are trits. The compiler's circularity checks
  are not modelled: the default graph is taken as acyclic, by numbering the symbols.
- Journal.BindCommitKeepsInv: asks that each committed primary is in the set undone; `Sessions.MenuMatches` (a symbol
  of a choices menu is among its items) is what supplies it.
- Runs.FormulasAlwaysHold: its syntactic test is sufficient, not necessary; `Freezing.RunExact` is the exact statement.
- Requirements.RequirementsSurvive: gives one direction for runs, since a requirement can hold by luck; the exact statement for a call is `Requirements.FaithfulCallExact`.
- Sessions.FrozenShows: is about the binding shown, not about a default (`Permanence.SafeCall` is about both); for an insecure symbol that a formula bound again it gives the value shown, which may be one it showed while other chains were concealed.
- Permanence.SecureRun: security is sufficient for a symbol to keep its value, not necessary: another one keeps it as long as nothing undoes its chain.
- Effects.AllBelowGoToN: leaves out a symbol whose value is a default or comes from the symbol's own earlier chain; `Effects.DependentsLowered` speaks of it by the value it has when propagation comes to it.
- Deductions.RoundsSettle: formulas with two free operands or none, and `!=`, which the code does not force, may be left failing for the check to find. It is for states in which no derived symbol is bound and menus link to settable symbols (`Transactions.Orderly`), as the front ends leave them.
- Causes.NothingWithoutCause: a condition on a symbol's value is given for some state of the same call, not for the moment itself.
- Exceptions.MildCall: its condition on the formulas is sufficient, not necessary.
- Propagation.Relate: for `!=` between bools the source binds the integers 1 or 0 and goes on, comparing them with trits by object identity; the model raises `NotATrit`.
- Transactions.RelateWithin: covers such calls only up to that point, and so do all theorems about calls that return.
- Runs.ConstraintsAlwaysHold: leaves out the calls that would go on from it.
- Frozen menus: a menu or choices symbol counts as frozen by its own flag only, as the visibility of menu items
  (`is_visible`) is not part of this model.
- `load`, `loadcommit`, `save`, the shell-like lexing and pickling: file handling. Recovery in `loadcommit` inherits
  the aliasing of `changes_to_frozen`.
- `visits`, `setcount`, `menuvalue`, `side_effects`, `cdepth`, the debug log and the help tie: counters and messages
  that rollback does not restore.
- PartialEval.CleanIsSound: a comparison of the integer 1 with a trit, and a derived symbol without a derivation, are
  results for which nothing is claimed.
- The order of Python's dictionaries is a list in the rulebase; properties hold for every such list.
- `circularity_check`, `ancestry_check`, `validity_check` and the rest of the compiler; lexing, whose tokens are
  the parser's input.
- TypeDeduction.DeduceTypes: a long (hexadecimal) constant gets no type, as in the code, whose later complaint about it
  is not modelled.
- TreeNodes.Tree.UpdateTree: the cursor is a path of ids to a visible node; parent pointers, the canvas, bindings and
  hooks are not modelled. `TreeControl` moves over trees as values, by path.
- MenuTree.NextNode: items are named by their path; menus are not empty.
- Syntax.ReadName: a name that is printed as nothing, or as several tokens, counts as not read; inclusion and the end token of embedded rules are not modelled further.
- Syntax.RoundTripExact: a plain integer is taken to have whatever width the token's kind says; the quotes of a printed string are part of its token.
- LinkerSets.InitSets: pointers are indexes into the section; entries are taken as having a set. `print` is formatting.
- PageTables.Dump: printed columns other than kind, address, size and frame, and the choice of space and processor,
  are left out; entry numbers must stay within their table.
- MaskOperand.InsertMbe: words have 32 bits; where a C long is wider, the bits above are not modelled.
- FreeList.KmemStats: the list is the sequence of its chunks' addresses; the printed report is left out. Testing a mask
  is testing a remainder, since the chunk size is a power of two.
- Numbers.Console.GetHex: prompts, echo and the printing of the default are left out; `getc` reads from a sequence of
  keys, and a line without its end leaves the reader waiting.
- Numbers.Console.PrintHex: a precision above the number of a word's digits shifts by more than a word's width and is
  excluded. `print_hex64`, `print_dec64`, `do_printf` and `print_tid` are variants or foreign interfaces.
- The other disassembler operands, the opcode tables and the remaining debugger commands: tables and formatting.
- `configtrans.py` and the front ends: line editing and user interfaces.
