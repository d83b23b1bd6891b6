# The Kconfig engine of Buildroot, verified

Buildroot configures itself with two implementations of one language. The C one, in
`buildroot/support/kconfig`, rewrites dependency expressions, calculates symbols on demand,
restructures the menu and reads and writes configuration files. The Python one,
`buildroot/support/scripts/kconfiglib.py`, parses and prints the same expressions and keeps
caches that it invalidates when a user changes a value. This project models both and proves what
they are for. `dafny verify dfyconfig.toml` checks all of it.

Expressions have three values, n < m < y; AND is the minimum, OR the maximum and NOT the distance
from y. An environment gives each symbol a tristate value and a string. It is *well-formed* if
bool symbols are never m, the string of a bool or tristate symbol follows its value, and different
constants have different strings; `SymbolTheory.SolutionWellFormed` shows that calculated symbol
tables are well-formed. Buildroot has no modules symbol, so `modules_sym` is the constant n
(`buildroot/support/kconfig/zconf.y:503-504`), m counts as y wherever a symbol gets its value, and the evaluator, the file
theory and the caches are modelled for that case.

| files | what they model |
|---|---|
| `Exprs`, `ExprEq`, `ExprTransform`, `ExprJoin` | what the passes of `expr.c` do to an expression, as functions, and what they keep |
| `ExprNodes` | the passes that overwrite nodes, on nodes: each turns the tree it is given into the one that its function says |
| `ExprSlots`, `ExprDups` | `expr_eliminate_dups`: a `struct expr **` into a tree is a path from its root, so that both passes, which start with the same root pointer twice, overwrite parts of one tree |
| `SymbolSpec`, `SymbolTheory` | the meaning of a configuration: one equation for each symbol over the symbols it reads |
| `SymbolLaws` | what the values then are, said without the functions that compute them: by prompts, selects, and the first default and range that apply |
| `SymbolTable`, `SymbolEval`, `SymbolSetting`, `ChoiceSetting` | `sym_calc_value` and its helpers, which fill in a mutable symbol table, against that meaning; setting symbols and choice values and reading them back |
| `Sample`, `SampleRuns` | a small configuration that meets all hypotheses at once, and runs on it in which a value is not read back |
| `SymbolCheck` | the recursive dependency check |
| `Defconfig`, `DefconfigLaws`, `DefconfigFiles` | the reduced configuration file: that it loses nothing, that nothing in it is redundant, its writer and its reader |
| `ConfigStrings` | escaping and unescaping of strings, in place |
| `MenuForest`, `MenuLists`, `MenuDeps`, `MenuFinalize` | the linked menu entries, `menu_finalize`, and the pointer walk of `conf_write` |
| `KconfiglibExprs`, `KconfiglibGrammar` | Kconfiglib's parser over a token feed, printer, evaluator and smart constructors; what sequences of tokens mean |
| `KconfiglibSpec`, `KconfiglibTheory`, `KconfiglibCache` | Kconfiglib's values and what keeps its caches right |
| `KconfiglibLaws` | what these values are, said without the functions that compute them, and that what is set is read back |
| `EngineAgreement`, `EngineSample` | both implementations give the symbols of one configuration the same values; a configuration that meets all hypotheses of that |

## Findings

Where a property that one would expect does not hold of the code, the code is modelled as it is.
Each item names the lemma with the exact condition or, where there is none, what is proved instead.

- `expr_eliminate_dups` (`buildroot/support/kconfig/expr.c:556-634`) keeps the value of an
  expression wherever that value is not m (`EliminateDups`); its second pass overwrites a
  contradicted operand correctly if and only if the value is not m (`ContradictionExact`);
  `(a || b) && (!a && !b)` with a at m and b at n is an instance where it does not
  (`ContradictionOnMod`).
- `expr_trans_bool` (`buildroot/support/kconfig/expr.c:330`) tests for tristate symbols, although
  its comment speaks of bool ones. Dropping one test is exact if and only if the tested symbol is
  not m (`TransBoolExact`).
- `expr_trans_compare` (`buildroot/support/kconfig/expr.c:877-936`) compares with t, which is n or y,
  the expression in which a symbol counts as t if it has the string of t, and as the opposite
  otherwise (`TransCompareMeaning`). It is exact if and only if reading the symbols so makes no
  difference to the comparison (`TransCompareExact`). It does for a negated part that is m
  (`TransCompareNegation`), and for a number that stands alone, which is n but counts as y
  (`TransCompareNumber`).
- For the same reason `menu_finalize` (`buildroot/support/kconfig/menu.c:338-368`) moves an entry that
  depends on `NUMBER != n && !FLAG` below a symbol `FLAG` with a prompt `if NUMBER`. Where the number
  is 5 and the flag n, the entry is available, and neither the flag nor its prompt is
  (`MovedByNumber`). Wherever the conditions of both are read exactly, a moved entry is available
  only if the symbol or its prompt is (`JustifiedExactly`).
- Recalculating from the reduced configuration file (`buildroot/support/kconfig/confdata.c:661-732`)
  gives every symbol its value back if and only if three things hold (`DefconfigLossless`).
  - Every string or number that may be written passes its own range check. The value 4 in the empty
    range from 5 to 3 is calculated as 5, written, and recalculated as 3 (`LossyRange`).
  - Every symbol outside choices that is never written has the value that it has without the user:
    symbols from the environment, and strings and numbers that are selected. A user value for a symbol
    from the environment that has a prompt is lost (`LossyEnvironment`).
  - The pick of every open choice is written, or is what the choice falls back to because it is
    selected, as one that is not optional is (`MandatoryChoice`). A pick that has the default y itself
    is not written, and the choice falls back to another value (`LossyPick`); `PickLost` says exactly
    which picks are lost.
- Calculating a choice that comes out at y clears its `SYMBOL_DEF_USER` flag if one of its visible
  values is not set by the user (`buildroot/support/kconfig/symbol.c:269-278`, `StillSetExactly`).
  The user values mean the same as before if and only if every open choice that is not selected still
  counts as set (`UsersSettled`). Otherwise a value that `sym_set_tristate_value` accepts can be lost in the
  next calculation, because that closes the choice: this happens after reading a reduced file, which
  has a line for the pick of a choice only (`AcceptedAndLost`). A value is always read back if and
  only if it is accepted after a recalculation (`SetReadsBack`).
- `sym_check_deps` (`buildroot/support/kconfig/symbol.c:1255-1287`) reports every cycle, but on menus
  without choices its outermost call always returns NULL, so that `conf_parse`
  (`buildroot/support/kconfig/zconf.y:510-513`) never counts an error for one (`CheckAll`). The
  bounds of ranges are not part of the check: a rank of what is checked is one of what the evaluator
  reads if and only if it puts the bounds of ranges below their symbols, too (`RankedExactly`).
- Kconfiglib's parser (`buildroot/support/scripts/kconfiglib.py:872-884`) takes any token, and even
  the end of the line, as the right operand of a relation (`RelationParsed`). What it returns can be
  printed if and only if a symbol or string follows every relation operator among the tokens that it
  consumed (`ParsedPrintable`).
- Kconfiglib's cached selection of a choice can become stale if a default of the choice is not one of
  its members (`buildroot/support/scripts/kconfiglib.py:2748-2757`, `StaleSelection`), and so can the
  values of the members and of what depends on them. It stays right if whatever reaches what the
  default reads also reaches the members (`Covered`, which holds for defaults among the members:
  `InsideCovered`). Everything outside a closed set around the members of other choices stays right
  (`StillCoherent`, `Get`, `GetSelected`).
- Kconfiglib never invalidates a symbol that has its value from the environment
  (`buildroot/support/scripts/kconfiglib.py:2401-2403`). If such a symbol has a prompt, its cached
  visibility stays as it was first asked for (`StaleVisibility`). It stays right until the user value
  of a symbol that it depends on changes (`SetUserValue`), and no value or selection outside those
  sets reads it.
- A string symbol whose default names a bool or tristate symbol gets the string "n" from the C code,
  whatever the value of that symbol (`buildroot/support/kconfig/symbol.c:395-403` copies `curr.val`),
  and the value of that symbol from Kconfiglib (`buildroot/support/scripts/kconfiglib.py:1908`). The
  two agree on it if and only if the named symbol is n (`NamedTri`); other strings, bool and tristate
  symbols outside choices always agree (`EnginesAgree`).

## Model

| member | source | states |
|---|---|---|
| ExprEquality.EliminateYnExact | buildroot/support/kconfig/expr.c:231-312 | removing constant operands keeps the value in every tristate environment |
| ExprEquality.EliminateYnNormal | buildroot/support/kconfig/expr.c:231-312 | no constant operand is left, and the tree shrinks exactly when there was one |
| ExprEquality.EliminateCommonFactors | buildroot/support/kconfig/expr.c:130-162 | both trees are one common factor combined with what is left of them |
| ExprEquality.EliminateEqMonotone | buildroot/support/kconfig/expr.c:164-184 | an order between the two remainders already held between the originals; if the second becomes y, the first implies the second |
| ExprEquality.ExprEqSound | buildroot/support/kconfig/expr.c:189-229 | expressions that `expr_eq` calls equal have the same value in every tristate environment |
| ExprEquality.ExprEqFlat | buildroot/support/kconfig/expr.c:130-229 | on trees of one operator over literals, `expr_eq` holds exactly when both have the same operands, each as often |
| ExprEquality.ExtractEqExact | buildroot/support/kconfig/expr.c:826-875 | each original is the extracted part combined with its remainder, for any number of matches |
| ExprEquality.ExtractFlat | buildroot/support/kconfig/expr.c:848-875 | the remainders are the originals without exactly the common operands |
| ExprEquality.ExtractConserves | buildroot/support/kconfig/expr.c:826-875 | the extracted part receives exactly the operands taken from the first tree |
| ExprTransformation.TransformExact | buildroot/support/kconfig/expr.c:636-771 | `expr_transform`, including De Morgan's laws and its runs on its own output, keeps the value in every well-formed environment |
| ExprTransformation.TransformNormal | buildroot/support/kconfig/expr.c:636-771 | negation is left only above a non-constant symbol, and no bool symbol is compared with n, m or y |
| ExprTransformation.TransformFixed | buildroot/support/kconfig/expr.c:636-771 | exactly the expressions in that form are left alone, so the transformation is idempotent |
| ExprTransformation.TransCompareMeaning | buildroot/support/kconfig/expr.c:877-936 | compared with n or y, the expression built is, in every environment, the comparison in which a symbol counts as that value if it has its string, and as the opposite otherwise |
| ExprTransformation.TransCompareExact | buildroot/support/kconfig/expr.c:877-936 | it is exact if and only if reading the symbols so makes no difference to the comparison |
| ExprTransformation.TransCompareNegation | buildroot/support/kconfig/expr.c:908-909 | for the negation of an expression that is compared exactly, it is exact if and only if the expression is not m |
| ExprTransformation.TransCompareDefiniteParts | buildroot/support/kconfig/expr.c:877-936 | expressions of bool and tristate symbols are compared exactly wherever no negated part is m |
| ExprTransformation.TransCompareNumber | buildroot/support/kconfig/expr.c:928-929 | an instance: a number that stands alone is n, and compared with n it is not n |
| ExprTransformation.TransCompareDefinite | buildroot/support/kconfig/expr.c:877-936 | the comparison is never m, in any environment |
| ExprTransformation.TransBoolExact | buildroot/support/kconfig/expr.c:314-341 | dropping `!= n` from tristate symbols keeps the value where none of them is m, and for a single test only there |
| ExprTransformation.TransBoolNormal | buildroot/support/kconfig/expr.c:314-341 | no test of a tristate symbol for n is left, and exactly the expressions without one stay as they are |
| ExprTransformation.DependsSymbolSound | buildroot/support/kconfig/expr.c:797-824 | an expression that depends on a symbol is n whenever the symbol is |
| MenuDependencies.DependsExactly | buildroot/support/kconfig/expr.c:797-824 | `expr_depends_symbol` holds exactly for conjunctions, however nested, with the symbol, `= y`, `= m` or `!= n` of it among the operands |
| MenuDependencies.ContainsExactly | buildroot/support/kconfig/expr.c:773-795 | `expr_contains_symbol` holds exactly for the expressions that mention the symbol |
| ExprNodes.EliminateYn | buildroot/support/kconfig/expr.c:231-312 | overwriting nodes in place, and copying a dropped node's contents over its parent, builds the tree of the function; no other node changes |
| ExprNodes.Copy | buildroot/support/kconfig/expr.c:62-97 | an equal tree of new nodes |
| ExprNodes.EliminateCommon | buildroot/support/kconfig/expr.c:130-162 | both slots get the trees of the function, which still share no node |
| ExprNodes.EliminateEq | buildroot/support/kconfig/expr.c:164-184 | the same for the whole comparison, one operator after the other |
| ExprNodes.ExprEq | buildroot/support/kconfig/expr.c:189-229 | the comparison works on copies, leaves the originals alone, and ends |
| ExprNodes.Transform | buildroot/support/kconfig/expr.c:636-771 | rewriting in place, De Morgan's laws with one new node included, builds the tree of the function |
| ExprNodes.TransBool | buildroot/support/kconfig/expr.c:317-341 | so does dropping tests |
| ExprJoin.JoinExact | buildroot/support/kconfig/expr.c:346-502 | every rule that joins two operands gives their or, or their and, in every well-formed environment, m included |
| ExprJoin.RedundantJoined | buildroot/support/kconfig/expr.c:346-502 | two operands that are equal, or redundant by one of the listed patterns (`a` or `!a`, `a = x` and `a != y`, and so on), are always joined |
| ExprSlots.SlotAbsorbs | buildroot/support/kconfig/expr.c:556-610 | a tree of one operator is not changed by combining it with one of its own operands |
| ExprDuplicates.MergeStep | buildroot/support/kconfig/expr.c:529-553 | replacing two operands by the joined one and the unit keeps the value and counts as progress |
| ExprDuplicates.EliminateDups1 | buildroot/support/kconfig/expr.c:504-554 | the join pass, from two slots into one tree, keeps the value at all three values; it changes nothing exactly if nothing can be joined |
| ExprDuplicates.JoinedTidy | buildroot/support/kconfig/expr.c:504-554 | where nothing can be joined, no operand occurs twice and no two are redundant, at any level outside negations |
| ExprDuplicates.ContradictionExact | buildroot/support/kconfig/expr.c:582-608 | overwriting a contradicted operand keeps the value if and only if the value is not m |
| ExprDuplicates.ContradictionOnMod | buildroot/support/kconfig/expr.c:582-595 | an instance where the value is m and becomes n |
| ExprDuplicates.EliminateDups2 | buildroot/support/kconfig/expr.c:556-610 | the contradiction pass keeps every value but m; it changes nothing exactly if no two operands contradict each other |
| ExprDuplicates.ConsistentUnopposed | buildroot/support/kconfig/expr.c:556-610 | where nothing contradicts, no operand stands beside its own negation, at any depth |
| ExprDuplicates.EliminateDups | buildroot/support/kconfig/expr.c:612-634 | the loop over both passes ends, keeps every value but m, does not grow the tree, leaves nothing for either pass to do, and leaves alone what they leave alone; in the result no operand occurs twice, no two operands are redundant, and none contradicts another or one of its parts |
| SymbolTheory.Agreement | buildroot/support/kconfig/symbol.c:293-440 | two meanings agree on every symbol below a rank if the user values do; the meaning is unique |
| SymbolTheory.SpecSolves | buildroot/support/kconfig/symbol.c:293-440 | every configuration without cyclic dependencies has a meaning |
| SymbolTheory.SolutionWellFormed | buildroot/support/kconfig/symbol.c:63-74 | calculated values are never m and make a well-formed environment: the hypothesis of the rewriter |
| SymbolTheory.SelectBound | buildroot/support/kconfig/symbol.c:380-383 | a bool or tristate symbol other than a choice is y if one of the symbols that select it is not n |
| SymbolLaws.TriLaw | buildroot/support/kconfig/symbol.c:340-384 | a bool or tristate symbol outside choices is y exactly if it is selected, or the user says so where one of its prompts is shown, or, without such a user, the first default whose condition is not n does |
| SymbolLaws.ChoiceLaw | buildroot/support/kconfig/symbol.c:340-411 | a choice is y exactly if it is selected, or opened by the user where a prompt is shown, and one of its values is then shown |
| SymbolLaws.MemberLaw | buildroot/support/kconfig/symbol.c:342-373 | a choice value that is shown is y exactly if its choice is y and picked it; one that is not shown goes by the first default that applies |
| SymbolLaws.TextLaw | buildroot/support/kconfig/symbol.c:385-404 | a string is the user's where a prompt is shown, else that of the symbol which the first default that applies names, by its index, else empty |
| SymbolLaws.NumberLaw | buildroot/support/kconfig/symbol.c:139-187 | a number is found in the same way and becomes the violated bound of the first range whose condition is not n, the lower one first |
| SymbolLaws.NumberInRange | buildroot/support/kconfig/symbol.c:155-187 | it lies in that range, if the range is not empty and its bounds survive printing |
| SymbolTheory.PickVisible | buildroot/support/kconfig/symbol.c:261-291 | a choice at y picks one of its values, and a visible one |
| SymbolTheory.MemberValue | buildroot/support/kconfig/symbol.c:342-345 | a choice value without defaults is y exactly when the choice is y and picked it |
| SymbolTheory.ChoiceExclusive | buildroot/support/kconfig/symbol.c:342-411 | a choice at y has exactly one value at y, its pick; a choice at n has all of them at n |
| SymbolTheory.ChoicePicks | buildroot/support/kconfig/symbol.c:235-291 | the pick is the user's if visible, else that of the first applicable visible default, else the first visible value |
| SymbolTheory.SetReadsBack | buildroot/support/kconfig/symbol.c:474-527 | a new user value for a symbol outside choices is its value after recalculation if and only if it is accepted, as the present value or within range; nothing that the symbol depends on moves |
| ChoiceSettings.MemberAccepts | buildroot/support/kconfig/symbol.c:474-491 | exactly y is accepted for a choice value, where it is shown |
| ChoiceSettings.PickReadsBack | buildroot/support/kconfig/symbol.c:504-519 | a choice value that is shown and set to y is y and the pick of its choice in the new meaning; all its siblings that are shown are n; nothing that the choice depends on moves |
| ChoiceSettings.PickStays | buildroot/support/kconfig/symbol.c:515-518 | the choice goes on counting as set, because all of its visible values do |
| SymbolTables.ClearedTracks | buildroot/support/kconfig/symbol.c:442-452 | a cleared table agrees with every meaning under its user values |
| SymbolEvaluator.SymbolTable.CalcValue | buildroot/support/kconfig/symbol.c:293-440 | calculation ends on every symbol graph, cyclic ones included, only ever adds valid symbols unless a pending request is served, and agrees with the meaning of an acyclic configuration |
| SymbolEvaluator.SymbolTable.CalcTri | buildroot/support/kconfig/symbol.c:340-384 | the bool and tristate cases give the value of the symbol's equation |
| SymbolEvaluator.SymbolTable.CalcExpr | buildroot/support/kconfig/expr.c:938-977 | evaluating an expression calculates all its symbols on the way and gives its value under the values found |
| SymbolEvaluator.SymbolTable.CalcVisibility | buildroot/support/kconfig/symbol.c:189-227 | the visibility and the select value of a symbol, while others may be calculated in between |
| SymbolEvaluator.SymbolTable.ValidateRange | buildroot/support/kconfig/symbol.c:139-187 | a number is clamped into the active range, with bounds read in the right base |
| SymbolEvaluator.SymbolTable.ReadStr | buildroot/support/kconfig/symbol.c:385-404 | a string or number is the user's if visible, else the value of the symbol that the active default names |
| SymbolEvaluator.SymbolTable.CalcChoice | buildroot/support/kconfig/symbol.c:261-291 | the pick of a choice at y, found from visibilities calculated in the middle of the choice's own calculation, and whether the choice still counts as set |
| SymbolEvaluator.SymbolTable.ChooseDefault | buildroot/support/kconfig/symbol.c:235-259 | the default pick from the visibilities in the table is that of the meaning |
| SymbolEvaluator.SymbolTable.SetAllChoiceValues | buildroot/support/kconfig/confdata.c:1129-1147 | every choice value without a user value gets n, the choice counts as set, and must be calculated again |
| SymbolEvaluator.SymbolTable.ClearAllValid | buildroot/support/kconfig/symbol.c:442-452 | only n, m and y stay valid, and nothing else changes |
| SymbolEvaluator.SymbolTable.CalcAll | buildroot/support/kconfig/confdata.c:416-417 | after any sequence of calls every valid symbol has the value that the meaning gives it |
| SymbolEvaluator.SymbolTable.SetTristateValue | buildroot/support/kconfig/symbol.c:493-527 | which values are accepted, and exactly what changes in the table: the user values, the choice's pick and its visible values included, and the calculated symbols |
| SymbolEvaluator.SymbolTable.ToggleTristateValue | buildroot/support/kconfig/symbol.c:529-550 | stops at the cyclically next accepted value, or at the old one |
| DependencyCheck.NoCycle | buildroot/support/kconfig/symbol.c:1184-1216 | a configuration with a cycle of checked dependencies has no rank function |
| DependencyCheck.RankedExactly | buildroot/support/kconfig/symbol.c:1184-1216 | without choices, a rank of the checked dependencies is one of all that the evaluator reads, except for the bounds of ranges |
| DependencyCheck.Checker.PrintRecursive | buildroot/support/kconfig/symbol.c:1081-1151 | what is reported is the part of the stack from the symbol met again to the top: a real cycle |
| DependencyCheck.Checker.CheckDeps | buildroot/support/kconfig/symbol.c:1255-1287 | the search keeps its invariant; a symbol whose check ended without a report has all its dependencies done before it |
| DependencyCheck.Checker.CheckSymDeps | buildroot/support/kconfig/symbol.c:1184-1216 | the same while the symbol is on the stack, which is as before afterwards |
| DependencyCheck.Checker.CheckExpr | buildroot/support/kconfig/symbol.c:1153-1181 | an expression is walked up to the first cycle; without one, all its symbols are done |
| DependencyCheck.Checker.CheckAll | buildroot/support/kconfig/zconf.y:510-513 | the sweep reports a cycle exactly when the checked dependencies are cyclic, every report is a cycle, and the order in which checks end is a rank; its error count stays zero |
| DefconfigTheory.MandatoryChoice | buildroot/support/kconfig/menu.c:436-440 | a choice that is not optional is selected by its prompts and follows them, whatever the user says |
| DefconfigTheory.KeptTri | buildroot/support/kconfig/confdata.c:682-692 | leaving out what equals the default does not move a bool or tristate symbol that is not from the environment |
| DefconfigTheory.KeptMember | buildroot/support/kconfig/confdata.c:694-713 | whatever is written for a choice value, it keeps its value while its choice does; it is written as y only if it is the pick |
| DefconfigTheory.MemberWritten | buildroot/support/kconfig/confdata.c:682-712 | the pick of an open choice is written exactly unless it comes from the environment, has the default y, or is a bool that a choice which is not optional falls back to |
| DefconfigTheory.PickLost | buildroot/support/kconfig/confdata.c:682-712 | the pick is lost exactly if it comes from the environment or has the default y, and the choice is not selected or falls back to another value |
| DefconfigTheory.KeptString | buildroot/support/kconfig/confdata.c:682-692 | a string or number that may be written keeps its value exactly when the value passes its own range check |
| DefconfigLaws.KeptNeeded | buildroot/support/kconfig/confdata.c:682-713 | a symbol gets a line exactly if a prompt is shown, it is not selected, and its value is not that of the first default that applies, by its index, nor the bool that a choice falls back to; without its line a bool, tristate or string outside choices would change, and each bool or tristate one without a line would not |
| DefconfigLaws.FallbackLaw | buildroot/support/kconfig/symbol.c:235-259 | the default of a choice is the value named by the first default that applies and is shown, by its index, else the first value shown |
| DefconfigTheory.DefconfigLossless | buildroot/support/kconfig/confdata.c:661-732 | recalculation from the written values gives every symbol the value it had, if and only if every string or number that may be written passes its own range check, every symbol that is never written has the value it has without the user, and the pick of every open choice is written or is what a selected choice falls back to |
| DefconfigTheory.RangesUsuallySettled | buildroot/support/kconfig/symbol.c:155-187 | numbers pass their own range check if no range is empty and the bounds survive printing |
| DefconfigTheory.UsersSettled | buildroot/support/kconfig/symbol.c:261-291 | after calculation the user values still have the same meaning if and only if every open choice that is not selected counts as set |
| DefconfigTheory.StillSetExactly | buildroot/support/kconfig/symbol.c:269-278 | an open choice still counts as set exactly when it was set and all of its visible values were |
| DefconfigTheory.AcceptedReadsBack | buildroot/support/kconfig/symbol.c:474-527 | on a calculated table whose open choices count as set unless they are selected, an accepted value is read back |
| SymbolSetting.SetAndCalculate | buildroot/support/kconfig/symbol.c:493-527 | after an accepted value and the calculation of any symbols, these have the values that the new user values mean; if the open choices counted as set unless they are selected, the symbol, a choice value included, has the accepted value, and its choice has picked it and no other |
| SymbolSetting.AcceptedStays | buildroot/support/kconfig/symbol.c:504-519 | a choice whose values were calculated keeps counting as set after one of them was accepted |
| SampleRuns.AcceptedAndLost | buildroot/support/kconfig/symbol.c:269-278 | a run in which a value is accepted and lost, because the next calculation closes an optional choice |
| SampleRuns.LossyRange | buildroot/support/kconfig/symbol.c:155-187 | a number in an empty range that is written and recalculated as another one |
| SampleRuns.LossyPick | buildroot/support/kconfig/confdata.c:690-692 | a picked choice value with the default y that is not written, so that the choice falls back to another value |
| SampleRuns.LossyEnvironment | buildroot/support/kconfig/symbol.c:435-436 | a user value for a symbol from the environment that is not written |
| DefconfigFiles.StringDefault | buildroot/support/kconfig/symbol.c:693-758 | the default that a value is compared with, selects included, calculating what it reads |
| DefconfigFiles.DefaultOfChoice | buildroot/support/kconfig/symbol.c:235-259 | the pick that a choice falls back to |
| DefconfigFiles.KeepsLine | buildroot/support/kconfig/confdata.c:682-713 | the tests of the writer hold exactly for the symbols that the theory keeps |
| DefconfigFiles.WriteDefconfig | buildroot/support/kconfig/confdata.c:661-732 | the file has one line, with the calculated value, for each symbol met that needs one, and no other line: none that is at its default, selected, not shown, from the environment, or what its choice falls back to |
| DefconfigFiles.ReadDefconfig | buildroot/support/kconfig/confdata.c:377-397 | reading the lines in any order gives the user values of the theory, those of choices included |
| DefconfigFiles.ScanPrinted | buildroot/support/kconfig/confdata.c:622-641 | lines with quoted and escaped strings are read as they were meant, for all strings |
| DefconfigFiles.SaveAndRestore | buildroot/support/kconfig/confdata.c:661-732 | writing with escaped strings, reading and calculating again restores every symbol under the same condition, and only then |
| ConfigStrings.UnescapeEscape | buildroot/support/kconfig/symbol.c:915-956 | unescaping an escaped string gives it back, whatever follows the closing quote |
| ConfigStrings.EscapedSize | buildroot/support/kconfig/symbol.c:923-934 | the first pass counts the exact size of the buffer |
| ConfigStrings.EscapeStringValue | buildroot/support/kconfig/symbol.c:915-956 | the second pass fills exactly that buffer with the quoted, escaped string and its NUL |
| ConfigStrings.UnescapeInPlace | buildroot/support/kconfig/confdata.c:154-168 | the loop over a NUL-terminated buffer leaves the unescaped string in place, or fails exactly when there is no closing quote |
| ConfigStrings.DropBackslash | buildroot/support/kconfig/confdata.c:162 | one `memmove` removes one backslash and nothing else |
| ConfigStrings.WriteThenRead | buildroot/support/kconfig/confdata.c:154-169 | what is written for a NUL-free string is read back as that string |
| ConfigStrings.SameEscape | buildroot/support/scripts/kconfiglib.py:2500-2504 | both implementations write the same text |
| ConfigStrings.KconfiglibRoundTrip | buildroot/support/scripts/kconfiglib.py:304-312 | Kconfiglib's replacements undo each other, for every string |
| MenuForest.Walk | buildroot/support/kconfig/confdata.c:786-819 | the pointer walk visits every entry below the root exactly once, in preorder, and stops |
| MenuForest.NextAbove | buildroot/support/kconfig/confdata.c:813-818 | climbing ends at the next entry in preorder, or above the root |
| MenuForest.ParentFirst | buildroot/support/kconfig/confdata.c:786-819 | in preorder every entry comes after the one that it stands below |
| MenuDependencies.Inherit | buildroot/support/kconfig/menu.c:312-328 | a dependency becomes its conjunction with the inherited one, in every environment without m, with no operand left twice, none redundant and none contradicted, or, for a symbol that is no tristate, with no test of a tristate for n left |
| MenuDependencies.NotNo | buildroot/support/kconfig/menu.c:340-341 | the compared form of a condition says, in every well-formed environment, that it is not n when every symbol whose string is not "n" counts as y |
| MenuDependencies.Belongs | buildroot/support/kconfig/menu.c:344-358 | an entry that is moved is available only where the symbol is not n, or, with symbols read in that way, only where its prompt is available; one that depends on the symbol is always moved |
| MenuDependencies.JustifiedTwoValued | buildroot/support/kconfig/menu.c:338-368 | in every assignment of n and y, an available entry below a bool symbol has the symbol or its prompt at y |
| MenuDependencies.JustifiedExactly | buildroot/support/kconfig/menu.c:338-368 | wherever both conditions are read exactly, a moved entry is available only if the symbol or its prompt is |
| MenuDependencies.MovedByNumber | buildroot/support/kconfig/menu.c:344-358 | a run in which an entry is moved that is available where neither the symbol nor its prompt is |
| MenuFinalization.Propagate | buildroot/support/kconfig/menu.c:311-334 | one entry takes over the inherited dependency, and its properties take over the entry's |
| MenuFinalization.PropagateAll | buildroot/support/kconfig/menu.c:311-335 | so do all entries of a menu, and no others |
| MenuFinalization.FinalizeKids | buildroot/support/kconfig/menu.c:287-337 | the entries of a menu are finalized one by one while their list is being respliced; order and links are kept |
| MenuFinalization.Absorb | buildroot/support/kconfig/menu.c:338-368 | following entries become the list of the symbol; each is justified, and the first one left out does not depend on the symbol |
| MenuFinalization.Hang | buildroot/support/kconfig/menu.c:364-368 | the three assignments turn a prefix of the following entries into the list of the entry |
| MenuLists.Reparent | buildroot/support/kconfig/menu.c:413-417 | the loop gives all entries of a list a new parent and finds the last one |
| MenuLists.LiftKids | buildroot/support/kconfig/menu.c:412-421 | the entries below an entry without a prompt move behind it |
| MenuLists.LiftAll | buildroot/support/kconfig/menu.c:372-422 | afterwards no entry of the list without a prompt has entries below it; the preorder is unchanged |
| MenuLists.LiftedParents | buildroot/support/kconfig/menu.c:412-421 | only an entry with a prompt and a text then has entries below it |
| MenuFinalization.Finalize | buildroot/support/kconfig/menu.c:279-441 | the preorder of entries is unchanged, all links and parent pointers are right, each entry is finalized once, in preorder, dependencies are handed down, and every move is justified by the final dependencies |
| MenuFinalization.FinalizeAndWrite | buildroot/support/kconfig/confdata.c:786-819 | whatever moved, the walk then writes each entry once, in the order of declaration |
| MenuFinalization.HandedDown | buildroot/support/kconfig/menu.c:287-335 | in the end an entry depends on what it depended on and on what stands above it, a choice, the condition of a prompt, or a dependency, wherever none of these is m; so do its prompt and its other properties |
| MenuFinalization.MovedSoundly | buildroot/support/kconfig/menu.c:338-368 | in every assignment of n and y, a moved entry is available only if the symbol above it, or its prompt, is y |
| KconfiglibExprs.EvalExpr | buildroot/support/scripts/kconfiglib.py:1425-1480 | the short-circuiting evaluator computes minimum, maximum and complement of expressions whose relations are complete |
| KconfiglibExprs.MakeExact | buildroot/support/scripts/kconfiglib.py:3196-3246 | the constructors denote minimum and maximum, None being y, before and after m is promoted |
| KconfiglibExprs.MakePrintable | buildroot/support/scripts/kconfiglib.py:3196-3246 | what they build from printable expressions can be printed |
| KconfiglibExprs.Parser.ParseExpr | buildroot/support/scripts/kconfiglib.py:821-826 | the parser over its feed returns the expression, the remaining tokens or the error of the grammar |
| KconfiglibExprs.Parser.ParseOrTerm | buildroot/support/scripts/kconfiglib.py:828-833 | the same for the operands of an or |
| KconfiglibExprs.Parser.ParseFactor | buildroot/support/scripts/kconfiglib.py:835-884 | the same for parentheses, negations, symbols and relations, with the rewriting of m |
| KconfiglibExprs.RelationParsed | buildroot/support/scripts/kconfiglib.py:872-884 | a relation takes any token, or the end of the feed, as its right operand |
| KconfiglibExprs.RoundTrip | buildroot/support/scripts/kconfiglib.py:3301-3357 | parsing a printed expression consumes all tokens and gives it back with directly nested lists of one operator flattened |
| KconfiglibExprs.RoundTripValue | buildroot/support/scripts/kconfiglib.py:3301-3357 | and with the same value |
| KconfiglibExprs.NormalFixed | buildroot/support/scripts/kconfiglib.py:821-884 | exactly the flat expressions that do not compare the symbol m come back unchanged |
| KconfiglibExprs.ParsedPrintable | buildroot/support/scripts/kconfiglib.py:821-884 | what the parser returns can be printed if and only if the relations among the consumed tokens are complete |
| KconfiglibGrammar.Joined | buildroot/support/scripts/kconfiglib.py:821-833 | tokens joined by an operator mean the minimum or maximum of what the two sides mean |
| KconfiglibGrammar.Alone | buildroot/support/scripts/kconfiglib.py:821-833 | an operand of the and is also one of the or, so that and binds more tightly |
| KconfiglibGrammar.Nested | buildroot/support/scripts/kconfiglib.py:836-850 | parentheses make an operand of any expression, and ! negates the operand that follows |
| KconfiglibGrammar.Simple | buildroot/support/scripts/kconfiglib.py:852-884 | a symbol means its value, m && MODULES where m is to be rewritten, and a relation compares strings |
| KconfiglibExprs.SameAsC | buildroot/support/kconfig/expr.c:938-977 | both implementations give every expression the same value |
| KconfiglibSpec.ValueLocal | buildroot/support/scripts/kconfiglib.py:1508-1549 | the value of a symbol depends only on the symbols that `_build_dep` records for it, for its choice, and for what the defaults of the choice name |
| KconfiglibLaws.ReadsExactly | buildroot/support/scripts/kconfiglib.py:1508-1549 | the symbols recorded are exactly those that occur in a prompt, default, select or range, or in a prompt or default condition of the choice |
| KconfiglibSpec.SelectionLocal | buildroot/support/scripts/kconfiglib.py:1544-1549 | so do the mode and the selection of a choice |
| KconfiglibTheory.Unique | buildroot/support/scripts/kconfiglib.py:1830-1982 | the values of a configuration without cyclic dependencies are determined by the user values |
| KconfiglibTheory.FreshSolves | buildroot/support/scripts/kconfiglib.py:1830-1982 | and a fresh computation finds them |
| KconfiglibLaws.TriLaw | buildroot/support/scripts/kconfiglib.py:1862-1892 | a bool or tristate symbol outside choices is y exactly if it is selected, or the user says so where one of its prompts is shown, or, without such a user, the first default whose condition is not n does |
| KconfiglibLaws.SelectionLaw | buildroot/support/scripts/kconfiglib.py:2720-2762 | an open choice takes the user's pick if it is shown, else, unless it is optional, the symbol of its first active default, by its index, or its first member, or where that is not shown the first member that is |
| KconfiglibLaws.MemberLaw | buildroot/support/scripts/kconfiglib.py:1850-1860 | a member is y exactly if it is shown, and its choice is open and takes it |
| KconfiglibLaws.Exclusive | buildroot/support/scripts/kconfiglib.py:1850-1860 | at most one member of a choice is y, none in a closed one, and exactly one in an open one that is not optional and has a member shown |
| KconfiglibLaws.TextLaw | buildroot/support/scripts/kconfiglib.py:1895-1909 | a string is the user's where a prompt is shown, else that of the first default that applies, by its index, else empty |
| KconfiglibLaws.NumberLaw | buildroot/support/scripts/kconfiglib.py:1911-1979 | a number is the user's where a prompt is shown and it lies in the first active range, else the first active default that is a number, clamped, else a positive low end, else the last active default |
| KconfiglibLaws.SetReadsBack | buildroot/support/scripts/kconfiglib.py:2416-2475 | a bool or tristate symbol outside choices that is set has the new value where it is shown and not selected; otherwise it stays what its selects and defaults make it |
| KconfiglibLaws.MemberReadsBack | buildroot/support/scripts/kconfiglib.py:2467-2475 | a member that is shown and set to y is y, and every other member is n |
| KconfiglibLaws.TextReadsBack | buildroot/support/scripts/kconfiglib.py:2447-2465 | a string that is shown has the string it was set to, and so has a number in range |
| KconfiglibLaws.UnfitIgnored | buildroot/support/scripts/kconfiglib.py:2426-2457 | a value that does not suit the type, or one for a special or undefined symbol, changes no value at all |
| KconfiglibLaws.UnsetReadsDefault | buildroot/support/scripts/kconfiglib.py:2477-2482 | without its user value a symbol goes by its selects and defaults |
| KconfiglibLaws.UnsetChoosesDefault | buildroot/support/scripts/kconfiglib.py:2477-2482 | and the choice of a member by its defaults |
| KconfiglibLaws.LoadedLast | buildroot/support/scripts/kconfiglib.py:282-348 | what is assigned last counts: the assignments before it only come before it |
| EngineAgreement.EnginesAgree | buildroot/support/scripts/kconfiglib.py:1830-1982 | in corresponding configurations under corresponding user values, Kconfiglib and the C code give every bool, tristate, string and untyped symbol of the configuration outside choices and the environment the same value, as long as they agree about the others, and about the strings whose default names a bool or tristate symbol |
| EngineAgreement.FreshAgrees | buildroot/support/scripts/kconfiglib.py:1830-1982 | without such others, a fresh computation by Kconfiglib and the meaning that the C code calculates agree on all symbols |
| EngineAgreement.NamedTri | buildroot/support/kconfig/symbol.c:395-403 | a string whose default names a bool or tristate symbol is the same in both exactly if that symbol is n |
| EngineSample.SidesAgree | buildroot/support/scripts/kconfiglib.py:1830-1982 | an instance, for all user values: a bool symbol, one that it selects, and a string whose default depends on it |
| KconfiglibTheory.Unaffected | buildroot/support/scripts/kconfiglib.py:2513-2541 | a change of one user value changes nothing outside a set closed under readers and choices, if for all choices outside whatever reaches their defaults reaches their members |
| KconfiglibTheory.InsideCovered | buildroot/support/scripts/kconfiglib.py:1544-1549 | that is so for choices whose defaults are among their members |
| KconfiglibTheory.StillCoherent | buildroot/support/scripts/kconfiglib.py:2401-2414 | what survives the invalidation is right for the new user values, except for visibilities of special symbols behind the change |
| KconfiglibCaches.StaleSelection | buildroot/support/scripts/kconfiglib.py:2748-2757 | if a choice default is no member and reads what does not reach the members, the dependents of a symbol can miss a choice whose selection it changes; nothing but the choice and its member is in doubt there |
| KconfiglibCaches.StaleVisibility | buildroot/support/scripts/kconfiglib.py:2401-2403 | a run in which the visibility of a symbol from the environment stays n although it has become y |
| KconfiglibCaches.Configuration.BuildDep | buildroot/support/scripts/kconfiglib.py:1508-1549 | the `dep` set of a symbol holds exactly the symbols that read it |
| KconfiglibCaches.Configuration.GetDependent | buildroot/support/scripts/kconfiglib.py:2513-2531 | ends on acyclic configurations, and returns the least set that with the symbol is closed under readers and choices |
| KconfiglibCaches.Configuration.AddDependentIgnoreSiblings | buildroot/support/scripts/kconfiglib.py:2533-2541 | adds exactly the readers with all of their dependents |
| KconfiglibCaches.Configuration.GetValue | buildroot/support/scripts/kconfiglib.py:1830-1982 | the value of the symbol's equation, from the caches or computed and cached, with every cache staying right |
| KconfiglibCaches.Configuration.GetNumber | buildroot/support/scripts/kconfiglib.py:1911-1979 | numbers: user values within the range, defaults clamped into it, and the low end as a last resort |
| KconfiglibCaches.Configuration.GetVisibility | buildroot/support/scripts/kconfiglib.py:3175-3194 | the visibility of a symbol, bounded by that of its choice; what is cached is returned unchanged |
| KconfiglibCaches.Configuration.GetSelection | buildroot/support/scripts/kconfiglib.py:2720-2739 | the selection of a choice with members |
| KconfiglibCaches.Configuration.SelectionFromDefaults | buildroot/support/scripts/kconfiglib.py:2741-2762 | the selection that defaults and visibilities give |
| KconfiglibCaches.Configuration.GetMode | buildroot/support/scripts/kconfiglib.py:2849-2860 | the mode of a choice |
| KconfiglibCaches.Configuration.InvalidateDependent | buildroot/support/scripts/kconfiglib.py:2401-2414 | everything cached about the least closed set around the symbol is dropped, special symbols excepted |
| KconfiglibCaches.Configuration.Get | buildroot/support/scripts/kconfiglib.py:1830-1982 | after any run of the operations, the value of a fresh computation, for every symbol that is not behind a choice with special members or defaults that are not covered |
| KconfiglibCaches.Configuration.GetVisible | buildroot/support/scripts/kconfiglib.py:3175-3194 | the visibility of a fresh computation, unless it is that of a special symbol behind a change |
| KconfiglibCaches.Configuration.GetSelected | buildroot/support/scripts/kconfiglib.py:2720-2739 | the selection of a fresh computation, for every choice none of whose members is in doubt |
| KconfiglibCaches.Configuration.SetUserValue | buildroot/support/scripts/kconfiglib.py:1984-2016 | exactly what it changes in the user values, that whatever stays cached is what a fresh computation gives, and that only visibilities of special symbols that depend on the symbol come into doubt |
| KconfiglibCaches.Configuration.UnsetUserValue | buildroot/support/scripts/kconfiglib.py:2018-2023 | the same for removing a user value |
| KconfiglibCaches.Configuration.UnsetUserValues | buildroot/support/scripts/kconfiglib.py:578-582 | no user value, selection or mode is left, and nothing but special symbols stays cached |
| KconfiglibCaches.Configuration.LoadConfig | buildroot/support/scripts/kconfiglib.py:282-348 | the user values after all assignments, and caches that are right for them although nothing is invalidated in between |

## Left out

- User interfaces, message callbacks, warnings, environment variables, temporary files and memory management.
- Line tokenizers: configuration files are sequences of lines of a symbol and a text, expressions sequences of tokens; that the printed text splits into those tokens again (which a quote inside a string would break) is not part of this model.
- `strtoll`, `sprintf`, `int`, `hex` and `str` are parameters of the model, without any assumption about them.
- The modules symbol: only configurations without one are modelled in the evaluator, the file theory and the caches.
- Expression nodes of the kinds E_LIST, E_RANGE and E_NONE; `expr_free`, after which dropped nodes are simply not part of any tree; and the counter `trans_count` outside `expr_eliminate_dups`.
- ExtractEqExact: `expr_extract_eq` and `expr_trans_compare` are modelled on values, not on nodes.
- EliminateDups: works on one tree as a value and replaces parts of it at paths, so that the nodes themselves are not modelled there.
- The flag SYMBOL_WRITE of the symbol table: the writer of the reduced file keeps the set of symbols it has met instead, since a symbol whose visibility exceeds its select value always has the flag until it is written.
- `sym_string_valid`: the values that are read back are assumed to pass it.
- KeepsLine: calculates the members of a choice before it asks for the choice's default, where `sym_choice_default` relies on the calculation of the choice having found their visibilities.
- ReadDefconfig: reads the lines that the writer produces; overrides, invalid values and symbols that do not exist are not modelled.
- SaveAndRestore: ends with the calculation of all symbols; `conf_read` then also drops the user values of numbers that are out of range and of symbols that are not visible (`buildroot/support/kconfig/confdata.c:440-462`), which is not modelled.
- DefconfigLossless: for configurations whose choices and values are linked as `menu_finalize` links them, all of them bool or tristate.
- CheckDeps: for menus without choices, whose values are checked together with the choice (so that `PrintRecursive` never meets a choice value); properties are walked kind by kind instead of in the order of declaration, so that another cycle may be met first.
- Finalize: registration of choice values and the condition `choice = y` that values of another type than their tristate choice get after propagation (`buildroot/support/kconfig/menu.c:373-411`), inference of choice types, warnings, and the collection of direct and reverse dependencies on symbols are not modelled; neither is the construction of the tree by the parser, whose result is described by the precondition.
- GetValue: the flag `write_to_conf` is not modelled; a relation without a symbol or string on its right, which makes the source raise an exception, has a value here.
- ChooseDefault: every default of a choice is one of its members; for another one `sym_choice_default` (`buildroot/support/kconfig/symbol.c:245-247`) reads a visibility that may not have been calculated yet, so that the pick depends on the order of calls.
- SetUserValue: expressions as values of string defaults are excluded, because they have no string; what is cached about the symbols behind a choice with special members or defaults that are not covered is not described.
- UnsetUserValue: a MODULES symbol that is defined, for which Kconfiglib does not invalidate everything, is left out with all of modules support.
- EnginesAgree: numbers and choices are not compared, because the two implementations decide them differently: Kconfiglib ignores a user's number outside the range where the C code clamps it, and tries only the first active default of a choice where the C code tries them all.
- `menu_is_visible`, which sets a flag as a side effect, random configurations, symbol search and the hash table.
