# Kconfiglib in Dafny

A model of the configuration engine that the SDK bundles in `tools/Kconfiglib`, with
proofs about it: how values are computed, memoised and invalidated; how configurations
are saved and loaded; how the menu tree is built and walked; how dependency loops are
found; how expressions are parsed and printed; how macros are expanded; and two user
interfaces on top, `oldconfig` and `menuconfig`.

## The parts

**Values.** `Config` is what the parser leaves: symbols and choices with their properties,
known by their indices. `Values` says what each property of a symbol or choice computes,
as a function of a partial map of slots: a computation that needs a slot that is not there
gives `None`, so the same function says which slots a short-circuiting computation needs.
`Reads` holds the one fact on which everything rests: such a computation gives the same
result on all maps that agree on what it can read. `Meaning` defines the value of a slot
from scratch and shows that there is exactly one consistent assignment of values.

**Engine.** `Engine.Kconfig` is the object with the memoised attributes: `cache` holds the
`_cached_*` slots of all objects (a missing key is `None`), `users` the user values and
selections, `wasSet` the `_was_set` flags. Every read fills the cache as it goes, every
assignment invalidates with the pruning at items without cached visibility, and every
method keeps the invariant that each entry follows from the other entries. `DepTable`,
`Deps`, `Caches` and `Invalidation` say why, and `Sessions` draws the conclusion for whole
runs. `ValueLaws` and `AssignLaws` state what the values of every state satisfy. What the
functions of `Values` compute is pinned by laws that do not mention them: `ExprMeaning` says
what expressions and comparisons mean, `NumeralLaws` what numerals do, `SlotMeaning` what makes
each attribute of a symbol or choice what it is, and `DepMeaning` what depends on what.

**Files.** `ConfText` is the text of configuration files, `ConfigFile` what loading does,
`Writers` and `ConfigWalk` what is written; `LoadLaws`, `SaveLaws`, `Reload`, `RoundTrip` and
`MinimalTrip` say when what is written is read back. `LoadMeaning` says what each line of a file
does, in terms of its text, `FileMeaning` what a written file contains, and `MinimalLaws` what a
minimal one leaves out, in terms of the state without a user value. `SyncDeps` is sync_deps() with the text
of auto.conf and the C header, `SyncMeaning` what it touches and what the header defines, and
`SyncGap` what a line break in a value does to it.

**Structure.** `DepLoop` is the search for dependency loops, `LoopLaws` what it reports,
`LoopComplete` when it finds all loops, `LoopRanks` why evaluation then ends, and `LoopGap` a
loop that it misses;
`ExprSyntax` the expression parser and printer, and `GrammarLaws` the lines it accepts; `MenuTree`, `MenuLinks` and `MenuWalk` the
menu tree as a tree, as linked nodes, and the walk over it, `MenuPlaces` where each node ends
up, and `AutoMenu` the test for implicit submenus; `Propagate`, `PropagateLaws` and `PropagateOrder` dependency propagation, what it means
and in which order properties are collected, and `BuiltConfig` what a configuration built from a
finalized tree satisfies; `Macro`, `MacroLaws` and `MacroMeaning` the preprocessor.

**User interfaces.** `OldConfigLaws` and `OldConfig` are the question loop of oldconfig on
top of the engine, with the user's input as an arbitrary sequence of lines, and
`OldConfigMeaning` says whom it asks. `MenuNav` is the navigation state of menuconfig,
`EditBox` its text box, and `NavMeaning` says what single keys do.

## Premises

- Evaluation is defined under a rank of the slots (`Meaning.Ranked`): no value depends on
  itself. `LoopRanks.QuietSearchRanks` derives it from the loop search, with or without choices,
  if symbols of a choice do not lead around it to each other (`LoopComplete.SymsApart`), if
  whatever depends on a choice is one of its symbols or depends on one
  (`LoopComplete.ChoicesClosed`), and if MODULES and what it depends on are not tristate.
- Each choice symbol has its choice among its dependencies (`Deps.ChoicesLinked`); propagation
  gives this unless the conditions of all its prompts in the choice become n
  (`BuiltConfig.ChoicesAreLinked`). The defaults of a choice are symbols of it; one that is not
  only draws a warning in the source.
- The round trips are about bool and tristate choices with symbols of their own, symbols with
  prompts that are not taken from the environment and are not the defconfig_list symbol,
  strings without line breaks and numbers without surrounding white space
  (`Reload.PlainChoices`, `SaveLaws.AllSaved`, `SaveLaws.Writable`). For minimal configurations,
  only bool and tristate symbols are selected, and visible symbols have their direct
  dependencies met, as `BuiltConfig.VisibleMeetsDependencies` says they do.
- oldconfig assumes that the prompts of choice symbols are under their choice, as
  `BuiltConfig.PromptsAreUnder` says they are if all nodes of the symbol are in the choice.

## Where the code and its documentation differ

- `assignable` is documented as the values that can be assigned; `AssignLaws.AssignableIsExact`
  gives the one case in which a listed value does not take effect.
- A saved configuration is meant to be loaded back, and so is a minimal one;
  `RoundTrip.ConfigRoundTrip` and `MinimalTrip.MinimalRoundTrip` say exactly for which states
  they are.
- The loop search is meant to find all loops; `LoopComplete.MissedLoops` says which ones it
  misses, and `LoopGap` has one.
- sync_deps() is meant to touch exactly what has changed; with a line break in a value it
  touches too much (`SyncDeps.SecondSyncIsQuiet`) and can touch too little (`SyncGap`).
- The comment on automatic menu dependencies lists `sym = m/y` and `sym != n`; the test also accepts
  `sym != y`, with which a node goes in the submenu of a symbol and is shown when that symbol is n
  (`AutoMenu`).
- The comment on horizontal scrolling says that the cursor never touches the edges of the
  box except at the ends of the text; in a box of six columns it does.

## Model

| member | source | states |
|---|---|---|
| Reads.Transfer | tools/Kconfiglib/kconfiglib.py:4287-4523 | a value that could be worked out from some memoised slots comes out the same on any slots that agree with them on all that its short-circuit evaluation can read |
| Meaning.BodyTotal | tools/Kconfiglib/kconfiglib.py:4287-4523 | if everything a value may read is known, the value is defined and has the right form |
| Meaning.Value | tools/Kconfiglib/kconfiglib.py:4287-4523 | the value of a slot from scratch exists for every slot once no slot depends on itself, and has the form of that slot |
| Meaning.JustifiedIsRight | tools/Kconfiglib/kconfiglib.py:4287-4523 | a cache in which every entry follows from the other entries holds only values that agree with evaluation from scratch |
| Meaning.AllValues | tools/Kconfiglib/kconfiglib.py:4287-4523 | every user state has an assignment of values to all slots in which each value follows from the others |
| Meaning.SolutionsAgree | tools/Kconfiglib/kconfiglib.py:4287-4523 | that assignment is unique |
| Deps.ReadsAreBelow | tools/Kconfiglib/kconfiglib.py:3466-3525 | whatever the computation of a slot reads is an earlier slot of the same item, a constant, MODULES, or belongs to an item on which the item depends |
| Deps.DropKeepsJustified | tools/Kconfiglib/kconfiglib.py:4865-4894 | after a change of user values, forgetting a set of items that is cut off from all items with cached visibility leaves a cache that is right for the new user values: the argument for stopping invalidation at items without cached visibility |
| Deps.PromptlessKeepsJustified | tools/Kconfiglib/kconfiglib.py:4896-4916 | a user value of a symbol without a prompt has no effect on any cached value |
| Invalidation.CutCombines | tools/Kconfiglib/kconfiglib.py:4883-4894 | the sets forgotten by nested invalidations combine into one that is cut off, dependent by dependent |
| Invalidation.CachedShrinks | tools/Kconfiglib/kconfiglib.py:4883-4894 | each recursive invalidation starts with fewer items with cached visibility, which is why it ends on the cyclic graph of choices and choice symbols |
| Invalidation.SetChanges | tools/Kconfiglib/kconfiglib.py:4558-4645 | what a set_value() can change directly: one symbol, or, when a choice symbol becomes y, its choice and a symbol that depends on the choice |
| DepTable.Dependents.DependOn | tools/Kconfiglib/kconfiglib.py:6316-6332 | an expression makes the item a dependent of exactly the symbols and choices in it that are not constants |
| DepTable.Dependents.BuildDep | tools/Kconfiglib/kconfiglib.py:3466-3525 | the _dependents sets hold exactly the pairs of the dependency relation |
| DepTable.Dependents.AddChoiceDeps | tools/Kconfiglib/kconfiglib.py:3527-3539 | and afterwards also each choice as a dependent of its symbols |
| Engine.Kconfig.constructor | tools/Kconfiglib/kconfiglib.py:1095-1123 | the caches of a new configuration, with only the constants filled in, satisfy the invariant of the engine |
| Engine.Kconfig.ExprValue | tools/Kconfiglib/kconfiglib.py:5988-6042 | evaluates like the specification, fills caches only with justified values, and terminates by the rank of the slots read |
| Engine.Kconfig.RelationValue | tools/Kconfiglib/kconfiglib.py:6010-6042 | comparison of strings, numbers, or strings again if an operand is not a number |
| Engine.Kconfig.SymTypeOf | tools/Kconfiglib/kconfiglib.py:4274-4285 | the type that depends on the mode of the choice and on MODULES |
| Engine.Kconfig.Visibility | tools/Kconfiglib/kconfiglib.py:4517-4524 | the memoised visibility is the specified one |
| Engine.Kconfig.SymVisibility | tools/Kconfiglib/kconfiglib.py:6286-6313 | the maximum over the prompts, hidden by the choice mode, promoted to y for non-tristates |
| Engine.Kconfig.ChoiceVisibility | tools/Kconfiglib/kconfiglib.py:6286-6313 | the same for choices |
| Engine.Kconfig.TriValue | tools/Kconfiglib/kconfiglib.py:4428-4505 | the memoised tri_value is the specified one, and the write flag comes with it |
| Engine.Kconfig.PlainTriValue | tools/Kconfiglib/kconfiglib.py:4446-4492 | user value, defaults, implies, selects and the promotion of m to y, in the order in which they are read |
| Engine.Kconfig.ChoiceSymTriValue | tools/Kconfiglib/kconfiglib.py:4494-4502 | the value of a choice symbol from its visibility, the selection and the user value |
| Engine.Kconfig.StrValue | tools/Kconfiglib/kconfiglib.py:4287-4426 | the memoised str_value is the specified one, and the write flag comes with it |
| Engine.Kconfig.NumValue | tools/Kconfiglib/kconfiglib.py:4317-4402 | ranges, user values and clamped defaults of int and hex symbols |
| Engine.Kconfig.TextValue | tools/Kconfiglib/kconfiglib.py:4404-4424 | user values and defaults of string symbols |
| Engine.Kconfig.ChoiceMode | tools/Kconfiglib/kconfiglib.py:5190-5207 | the mode of a choice |
| Engine.Kconfig.SelectionOf | tools/Kconfiglib/kconfiglib.py:5236-5242 | the memoised selection is the specified one |
| Engine.Kconfig.NewSelection | tools/Kconfiglib/kconfiglib.py:5424-5453 | user selection if visible, then the defaults, then the first visible symbol |
| Engine.Kconfig.AssignableValues | tools/Kconfiglib/kconfiglib.py:4508-4515 | the memoised assignable values are the specified ones |
| Engine.Kconfig.SymAssignableValues | tools/Kconfiglib/kconfiglib.py:4813-4857 | assignable values of bool and tristate symbols |
| Engine.Kconfig.ChoiceAssignableValues | tools/Kconfiglib/kconfiglib.py:5405-5422 | assignable modes of choices |
| Engine.Kconfig.RecInvalidate | tools/Kconfiglib/kconfiglib.py:4865-4894 | forgets the item and a set of items such that no item that keeps a cached visibility depends on one of them; every forgotten item is one whose value the item or MODULES can influence; all other slots are kept |
| Engine.Kconfig.InvalidateAll | tools/Kconfiglib/kconfiglib.py:3541-3549 | forgets all slots of defined symbols and choices, and nothing else |
| Engine.Kconfig.InvalidateIfHasPrompt | tools/Kconfiglib/kconfiglib.py:4896-4916 | the caches are right again after the user value of a symbol changed, also when nothing is forgotten because there is no prompt |
| Engine.Kconfig.SetValue | tools/Kconfiglib/kconfiglib.py:4558-4645 | accepts exactly the valid values, stores them with the user selection of the choice, and keeps every cached value right |
| Engine.Kconfig.UnsetValue | tools/Kconfiglib/kconfiglib.py:4647-4655 | likewise for removing a user value |
| Engine.Kconfig.SetMode | tools/Kconfiglib/kconfiglib.py:5244-5283 | likewise for the mode of a choice |
| Engine.Kconfig.UnsetMode | tools/Kconfiglib/kconfiglib.py:5285-5293 | likewise for removing mode and selection of a choice |
| Engine.Kconfig.Read | tools/Kconfiglib/kconfiglib.py:4287-4523 | reading any property gives the value computed from scratch from the present user values |
| Sessions.Run | tools/Kconfiglib/kconfiglib.py:4558-4655 | over any interleaving of assignments, removals and reads, what is read is what would be read if nothing were ever cached |
| DepMeaning.SymDependsOn | tools/Kconfiglib/kconfiglib.py:3477-3511 | a defined symbol depends on exactly the items other than constants that occur in its prompts, defaults, ranges and dependencies |
| DepMeaning.ChoiceDependsOn | tools/Kconfiglib/kconfiglib.py:3513-3539 | a choice depends on exactly those in its prompts and the conditions of its defaults, and on its symbols |
| ExprMeaning.LeafAndNot | tools/Kconfiglib/kconfiglib.py:6000-6013 | a symbol in an expression has its tri_value, and a negation is y minus its operand |
| ExprMeaning.AndAndOr | tools/Kconfiglib/kconfiglib.py:6003-6010 | && and || have the minimum and the maximum of the values of their operands, whatever is short-circuited |
| ExprMeaning.NumbersCompare | tools/Kconfiglib/kconfiglib.py:6023-6042 | operands that read as numbers, and are not both strings, compare as numbers: each of the six relations is y if and only if it holds of the numbers, and n otherwise |
| ExprMeaning.TextsCompare | tools/Kconfiglib/kconfiglib.py:6019-6042 | two strings, and operands of which one is not a numeral, compare as texts, by the first difference or because one is a proper prefix of the other: each of the six relations is y if and only if it holds of the texts, and n otherwise |
| ExprMeaning.MNeedsModules | tools/Kconfiglib/kconfiglib.py:3426-3448 | m in a condition has the value m if modules are enabled and n otherwise; in comparisons, and where it is not rewritten, it stays as it is |
| NumeralLaws.NumeralsAre | tools/Kconfiglib/kconfiglib.py:6353-6375 | a text is a numeral for a number if and only if it consists of a sign, a prefix that the base allows and digits that say the number |
| NumeralLaws.PlaceValue | tools/Kconfiglib/kconfiglib.py:6353-6375 | digits in front count as often as the base to the number of digits behind |
| NumeralLaws.PrintedForm | tools/Kconfiglib/kconfiglib.py:4388-4394 | rewritten numbers have a minus sign if negative, 0x if hexadecimal, and no leading zeros |
| SlotMeaning.TypeMeans | tools/Kconfiglib/kconfiglib.py:4274-4285 | a tristate symbol is of type bool exactly without modules and in a choice in y mode |
| SlotMeaning.ModeMeans | tools/Kconfiglib/kconfiglib.py:5190-5207 | a choice is in n mode exactly if it is invisible, or optional and not set by the user; in y mode exactly if it is not in n mode and is bool, or set to y by the user and y-visible |
| SlotMeaning.VisibilityMeans | tools/Kconfiglib/kconfiglib.py:6286-6313 | with p the greatest prompt condition, a symbol is invisible exactly if p is n or its choice hides it, and m-visible exactly if p is m, it is not hidden and can be m |
| SlotMeaning.ChoiceVisibilityMeans | tools/Kconfiglib/kconfiglib.py:6286-6313 | a choice is invisible exactly if its greatest prompt condition is n, and m-visible exactly if that is m and the choice is tristate |
| SlotMeaning.TriMeans | tools/Kconfiglib/kconfiglib.py:4446-4492 | a bool or tristate symbol outside choices is not n exactly if a select, the user as far as it is visible, or else the first default whose condition is met or an imply with met dependencies makes it so; it is y exactly if one of these reaches y, or reaches m and the symbol cannot be m or is implied to y |
| SlotMeaning.ChoiceSymMeans | tools/Kconfiglib/kconfiglib.py:4494-4502 | a choice symbol is y exactly if it is y-visible and selected, and m exactly if it is m-visible and the user has set it |
| SlotMeaning.OtherTriMeans | tools/Kconfiglib/kconfiglib.py:4287-4308 | symbols of other types are n, undefined symbols and the constants n, m and y have their name as value, and str_value is the letter of tri_value |
| SlotMeaning.TextMeans | tools/Kconfiglib/kconfiglib.py:4404-4424 | a string is what the user has set if it is visible, and otherwise the value of the first default whose condition is met |
| SlotMeaning.FreeNumberMeans | tools/Kconfiglib/kconfiglib.py:4335-4385 | the same for numbers without an active range, where an empty user value counts as none |
| SlotMeaning.BoundedNumberMeans | tools/Kconfiglib/kconfiglib.py:4324-4402 | with the first range whose condition is met, a number is what the user has set if that is in the range, the default if that is in the range, the lower bound if the default is below it and the upper bound if it is above |
| SlotMeaning.SelectionMeans | tools/Kconfiglib/kconfiglib.py:5424-5453 | in y mode the selection is the visible user selection, or else the first default that applies, or else the first visible symbol, or else none; in other modes there is none |
| SlotMeaning.WrittenMeans | tools/Kconfiglib/kconfiglib.py:4287-4505 | a bool or tristate symbol is written exactly if it is visible or not n; a string or number exactly if it is visible or has a default whose condition is met, and is neither taken from the environment nor the defconfig_list symbol |
| SlotMeaning.AssignableMeans | tools/Kconfiglib/kconfiglib.py:4813-4857 | assignable is in increasing order, and empty for what is invisible or not bool or tristate; a y-visible choice symbol can only be y, an m-visible one that nothing forces n or m |
| SlotMeaning.SetMeans | tools/Kconfiglib/kconfiglib.py:4558-4645 | set_value() stores exactly what the type allows, in its canonical form, and makes a choice symbol set to y the user selection; all other user values, modes and selections stay |
| SlotMeaning.SetModeMeans | tools/Kconfiglib/kconfiglib.py:5244-5283 | for choices: n, m and y for tristate ones, n and y for bool ones, and nothing else |
| ValueLaws.ChoiceModes | tools/Kconfiglib/kconfiglib.py:5190-5207 | in a y-mode choice exactly the selection is y and all other symbols are n, and there is a selection if and only if some symbol is visible; outside y mode no symbol is y |
| ValueLaws.NModeHidesSyms | tools/Kconfiglib/kconfiglib.py:6286-6313 | in an n-mode choice all symbols are invisible and n |
| ValueLaws.SelectionInYMode | tools/Kconfiglib/kconfiglib.py:5424-5453 | the selection is a visible symbol of the choice; if there is none, no symbol is visible |
| ValueLaws.RangeIsKept | tools/Kconfiglib/kconfiglib.py:4317-4402 | the value of an int or hex symbol, whether from the user, a default or clamping, lies in its active range if and only if the range is not empty |
| Numerals.PrintedIntReads | tools/Kconfiglib/kconfiglib.py:4380-4402 | a number reprinted in base 10 or 16 is read back as the same number |
| AssignLaws.BelowIsUnchanged | tools/Kconfiglib/kconfiglib.py:4558-4645 | assigning a value changes nothing that is evaluated before the assigned item: an item's own user value cannot change what it depends on |
| AssignLaws.AssignableIsExact | tools/Kconfiglib/kconfiglib.py:4813-4857 | assignable lists a value of a visible symbol if and only if assigning the value and reading it back gives that value, unless the symbol is m-visible, selected to m and implied to y; then only m is listed, and y is read back |
| Counterexamples.ForcedPastMHappens | tools/Kconfiglib/kconfiglib.py:4855-4857 | a configuration in which that exception occurs |
| AssignLaws.ModesAreExact | tools/Kconfiglib/kconfiglib.py:5405-5422 | assignable of a visible choice lists exactly the modes that are read back |
| AssignLaws.SelectingReadsBack | tools/Kconfiglib/kconfiglib.py:4837-4839 | selecting a y-visible choice symbol gives y if and only if the choice is in y mode |
| ConfText.UnescapeEscape | tools/Kconfiglib/kconfiglib.py:6176-6194 | unescaping an escaped string gives the string |
| ConfText.QuotedCapturesEscape | tools/Kconfiglib/kconfiglib.py:7160 | the pattern for quoted strings captures exactly the escaped string, whatever follows the closing quote |
| ConfText.SetLineReads | tools/Kconfiglib/kconfiglib.py:1283-1298 | an assignment line is split into its name and value |
| ConfText.UnsetLineReads | tools/Kconfiglib/kconfiglib.py:1320-1335 | a `# ... is not set` line is recognised with its name |
| ConfText.LinesReadBack | tools/Kconfiglib/kconfiglib.py:1262-1275 | lines without line breaks survive being joined, written and split again |
| ConfigFile.LoadOne | tools/Kconfiglib/kconfiglib.py:1275-1359 | one line of a configuration file: which value it assigns, and the mode it implies for the choice of the symbol |
| ConfigFile.LoadConfig | tools/Kconfiglib/kconfiglib.py:1247-1366 | the user state after loading or merging a file is the specified one, and with replace what the file does not mention is unset |
| ConfigFile.UnsetOthers | tools/Kconfiglib/kconfiglib.py:1356-1366 | exactly the items that were not set while loading lose their user values |
| LoadLaws.LoadedSyms | tools/Kconfiglib/kconfiglib.py:1247-1366 | after replacing a configuration, each symbol has the last valid value that the file gives it, and no other user value |
| LoadLaws.LoadedChoices | tools/Kconfiglib/kconfiglib.py:1305-1318 | and each choice the last mode and selection inferred from its symbols |
| LoadLaws.LoadedStateOk | tools/Kconfiglib/kconfiglib.py:1247-1366 | loading any file keeps the user state well formed |
| LoadMeaning.LastAssignmentDecides | tools/Kconfiglib/kconfiglib.py:1275-1354 | if the last line about a symbol is an assignment, the first character of the value makes a bool symbol n or y and a tristate one n, m or y, a string must start with a string literal and has its text, numbers must be numerals, not negative for hex; any other value leaves what the earlier lines gave |
| LoadMeaning.LastUnsetDecides | tools/Kconfiglib/kconfiglib.py:1320-1354 | if it is a `# ... is not set` line, a bool or tristate symbol is n, and others have what the earlier lines gave |
| LoadMeaning.SilentFile | tools/Kconfiglib/kconfiglib.py:1356-1366 | a symbol that the file says nothing about has no user value after replacing a configuration |
| LoadMeaning.SilentMerge | tools/Kconfiglib/kconfiglib.py:1262-1366 | and keeps the one it had after merging |
| LoadMeaning.LastMemberDecides | tools/Kconfiglib/kconfiglib.py:1297-1318 | the last line about the symbols of a choice makes its symbol the selection and the mode y if it assigns y, and the mode m if it assigns m in a tristate choice |
| LoadMeaning.SilentFileOnChoice | tools/Kconfiglib/kconfiglib.py:1362-1366 | a choice has neither mode nor selection after a file that says nothing about its symbols |
| SaveLaws.LineReads | tools/Kconfiglib/kconfiglib.py:4526-4549 | the line written for a symbol is read back as an assignment of its value to it, for all types and all values without line breaks |
| FileMeaning.LineMeans | tools/Kconfiglib/kconfiglib.py:4526-4549 | a symbol has a line exactly if it is written; it says `is not set` for n, and otherwise assigns the value, with strings quoted and only quotes and backslashes escaped |
| FileMeaning.ContentsMean | tools/Kconfiglib/kconfiglib.py:1583-1656 | each symbol with a line has it where it occurs first, after an empty line if only the end of a menu is before it; menus and comments have headings exactly if their dependencies, and for menus their visibility, are not n, and so have the ends of menus |
| ConfigWalk.VisitsInOrder | tools/Kconfiglib/kconfiglib.py:1602-1625 | the nodes are met in pre-order |
| ConfigWalk.LeftBehindKids | tools/Kconfiglib/kconfiglib.py:1607-1625 | each node with children is left directly behind everything that is met below it |
| SaveLaws.OnlySelectionIsY | tools/Kconfiglib/kconfiglib.py:5424-5453 | a choice symbol is y exactly if it is the selection, and m only outside y mode; in both cases it is written |
| Writers.ConfigString | tools/Kconfiglib/kconfiglib.py:4526-4549 | config_string, read through the caches |
| ConfigWalk.ConfigContents | tools/Kconfiglib/kconfiglib.py:1583-1656 | the walk over the links with the texts for symbols, menus, comments and the ends of menus: the text written is that of the pre-order of the tree, each menu left after its children |
| ConfigWalk.WalkCovers | tools/Kconfiglib/kconfiglib.py:1607-1656 | the walk over the finalized tree meets every defined symbol |
| ConfigWalk.FinalizeAndWrite | tools/Kconfiglib/kconfiglib.py:1607-1656 | finalising a parsed tree by pointer surgery and writing the configuration from the links writes the text that the round trip is about |
| Writers.MinConfigContents | tools/Kconfiglib/kconfiglib.py:1695-1730 | the minimal configuration written is the specified one |
| Writers.StrDefaultNow | tools/Kconfiglib/kconfiglib.py:4918-4951 | the default value that decides whether a symbol is left out |
| FileMeaning.MinimalIsMinimal | tools/Kconfiglib/kconfiglib.py:1703-1728 | a symbol with a line in the full file has none in the minimal one if and only if, outside choices, its visibility is not above its selects or its value is the one it has without its user value, or, in a choice, it is n, or the bool symbol that is y and selected by default in a choice that is not optional; numbers whose default is outside of their range are always kept, and symbols implied with unmet dependencies are compared with what met ones would give |
| FileMeaning.MinimalIsPart | tools/Kconfiglib/kconfiglib.py:1703-1728 | a symbol without a line in the full file has none in the minimal one |
| MinimalLaws.StrDefaultIsWithout | tools/Kconfiglib/kconfiglib.py:4918-4943 | what the value of a bool or tristate symbol is compared with is its value in the state without its user value, unless it is implied with unmet dependencies |
| MinimalLaws.InsideIsWithout | tools/Kconfiglib/kconfiglib.py:4945-4951 | the same for strings, and for numbers whose default is not outside of their range |
| Reload.RestoredValues | tools/Kconfiglib/kconfiglib.py:1247-1366 | any user state that gives each symbol its saved value, or nothing where the defaults give that value, each choice its selection or nothing where the defaults give that, and each choice its mode, has the same values everywhere |
| RoundTrip.ConfigRoundTrip | tools/Kconfiglib/kconfiglib.py:1583-1656 | writing a configuration and loading it over any other one gives every slot the value and every choice the mode it had, if and only if no m-visible symbol is y by a default alone and the symbols of each choice show its mode; bool and tristate, optional and not optional choices |
| RoundTrip.ModeLostWhen | tools/Kconfiglib/kconfiglib.py:5190-5207 | the mode of a choice is lost exactly in y mode without a visible symbol, if the choice is optional or tristate, and in m mode without an m symbol, if it is optional |
| Counterexamples.YOnlyByDefaultHappens | tools/Kconfiglib/kconfiglib.py:4456-4467 | a configuration in which a symbol is y by a default alone: it is saved as y, and loading the saved text over any configuration makes it m |
| RoundTrip.SavedTextIsStable | tools/Kconfiglib/kconfiglib.py:1583-1656 | saving again after loading gives the same text, unless a value or mode is lost |
| MinimalTrip.LeftOutTri | tools/Kconfiglib/kconfiglib.py:1705-1726 | a bool or tristate symbol that is left out of the minimal configuration gets its value from its defaults if and only if it is not an m symbol, selected to m, whose default is y |
| MinimalTrip.LeftOutRestoresSym | tools/Kconfiglib/kconfiglib.py:1705-1726 | the same for symbols of all types and for choice symbols, which are never left out when they are m |
| MinimalTrip.MinimalRoundTrip | tools/Kconfiglib/kconfiglib.py:1695-1730 | loading the minimal configuration over any other one gives every slot the value and every choice the mode it had, if and only if no symbol in it is y by a default alone, none left out is overruled by its default, and the symbols in it show the modes of the choices |
| MinimalTrip.MinimalModeLostWhen | tools/Kconfiglib/kconfiglib.py:1720-1726 | the mode of a choice is lost where the full configuration loses it, and where the y symbol of a tristate choice is left out because the defaults select it |
| SyncDeps.LoadOldVals | tools/Kconfiglib/kconfiglib.py:1841-1882 | reads the text of auto.conf line by line; names that are gone are touched |
| SyncDeps.Sync | tools/Kconfiglib/kconfiglib.py:1732-1905 | touches the names of changed and of vanished symbols, and gives the new text of auto.conf |
| SyncMeaning.TouchedAre | tools/Kconfiglib/kconfiglib.py:1794-1882 | exactly the names of signalled symbols are touched, and those that auto.conf assigns to and that no longer occur in the Kconfig files |
| SyncMeaning.HeaderMeans | tools/Kconfiglib/kconfiglib.py:1460-1501 | the C header defines exactly the symbols that are written: y as 1, m as 1 under the name with _MODULE, n not at all, strings quoted, and hex values with 0x |
| SyncMeaning.AutoLineMeans | tools/Kconfiglib/kconfiglib.py:1884-1905 | auto.conf has the lines of the configuration file, but none for n |
| SyncDeps.HeaderShowsRemembered | tools/Kconfiglib/kconfiglib.py:1460-1501 | two values of a symbol give the same line in autoconf.h if and only if auto.conf remembers the same of them, up to the 0x of hex values |
| SyncDeps.OldValsReadBack | tools/Kconfiglib/kconfiglib.py:1841-1905 | without line breaks in the values, the next sync finds in the text of auto.conf exactly what it remembers of each symbol, and no names that are gone |
| SyncDeps.SignalledIffChanged | tools/Kconfiglib/kconfiglib.py:1794-1839 | between two syncs, if the first values have no line breaks, a symbol is signalled if and only if what auto.conf remembers of it has changed |
| SyncDeps.NoRebuildIsMissed | tools/Kconfiglib/kconfiglib.py:1794-1839 | if the values of the first build have no line breaks, every symbol whose line in autoconf.h changed is touched, and, except for hex values that only lost or gained 0x, no others are |
| SyncDeps.SecondSyncIsQuiet | tools/Kconfiglib/kconfiglib.py:1794-1839 | a second sync without a change touches nothing, if and only if no remembered value has a line break |
| SyncGap.RebuildIsMissed | tools/Kconfiglib/kconfiglib.py:1860-1882 | a configuration in which a changed symbol is not touched, because a line inside the value of another symbol sets its old value |
| DepLoop.LoopSearch.CheckDepLoopSym | tools/Kconfiglib/kconfiglib.py:6559-6631 | the three-colour search from a symbol, with its _visited attributes, ends and does what the specification does |
| DepLoop.LoopSearch.CheckDepLoopChoice | tools/Kconfiglib/kconfiglib.py:6634-6665 | the same for choices, with the symbol to skip |
| DepLoop.LoopSearch.CheckDepLoops | tools/Kconfiglib/kconfiglib.py:1116-1119 | the search from all defined symbols |
| LoopLaws.ReportedLoopIsReal | tools/Kconfiglib/kconfiglib.py:6668-6676 | a reported loop has no repeated item, each item leads to the one before it and the first to the last, and it is not just a step from a symbol to its choice and back; a search never ends with half a loop |
| LoopLaws.QuietSearchOrders | tools/Kconfiglib/kconfiglib.py:6617-6622 | if nothing is reported, all defined symbols end finished, none half visited, and whatever depends on a symbol was finished before it |
| LoopLaws.NoSymLoopIsMissed | tools/Kconfiglib/kconfiglib.py:6559-6631 | with or without choices: if nothing is reported, no symbols depend on each other in a loop |
| LoopComplete.SearchKeepsChoices | tools/Kconfiglib/kconfiglib.py:6634-6665 | whatever depends on a symbol of a choice is finished before the choice, though the search skips the symbol it came from and does not look back at the choice from the others |
| LoopComplete.MissedLoops | tools/Kconfiglib/kconfiglib.py:6559-6714 | if whatever depends on a choice is one of its symbols or depends on one, and nothing is reported, then there is a loop if and only if a symbol of some choice leads to another symbol of it around the choice |
| LoopComplete.LoopIffReported | tools/Kconfiglib/kconfiglib.py:6559-6714 | with symbols of a choice apart from each other, a loop is reported if and only if there is one |
| LoopRanks.QuietSearchRanks | tools/Kconfiglib/kconfiglib.py:1116-1119 | under the same conditions, if nothing is reported, no value depends on itself, so that evaluation terminates, also with choices |
| LoopGap.LoopThroughChoiceIsMissed | tools/Kconfiglib/kconfiglib.py:6640-6647 | a configuration with a choice in which nothing is reported although there is a loop around the choice, and no rank |
| LoopGap.EvaluationIsStuck | tools/Kconfiglib/kconfiglib.py:6640-6647 | in it, with one symbol selected, none of three values can be computed before the others |
| LoopGap.ChoiceCanBeRanked | tools/Kconfiglib/kconfiglib.py:6634-6665 | the same choice without the dependency meets the conditions, nothing is reported, and there is a rank |
| ExprSyntax.Parser.RunExpr | tools/Kconfiglib/kconfiglib.py:3376-3415 | the parser stays inside its tokens, terminates, and accepts and returns what the grammar says |
| ExprSyntax.Parser.RunFactor | tools/Kconfiglib/kconfiglib.py:3426-3460 | symbols, comparisons, negations and parentheses, with m rewritten to m && MODULES if asked |
| GrammarLaws.LinesAccepted | tools/Kconfiglib/kconfiglib.py:3376-3460 | a line is parsed as a whole to an expression if and only if it is written by the grammar, with `!` binding before `&&` and `&&` before `||`, and means that expression |
| GrammarLaws.ExprIsWritten | tools/Kconfiglib/kconfiglib.py:3376-3460 | whatever the parser accepts in front of other tokens is an expression of the grammar, with that meaning |
| ExprSyntax.PrintedExprParses | tools/Kconfiglib/kconfiglib.py:6060-6101 | parsing the tokens of a printed expression, in any place where no operator follows, gives its right-associated form and leaves the rest |
| ExprSyntax.PrintParseRoundTrip | tools/Kconfiglib/kconfiglib.py:6060-6101 | that form uses up all tokens, has the same value in every state (and reads the same slots for it), the same operands at the top level, and the same printed form |
| ExprSyntax.RightFormOperands | tools/Kconfiglib/kconfiglib.py:6131-6173 | split_expr() gives the same operands in the same order |
| ExprSyntax.PrintedOnce | tools/Kconfiglib/kconfiglib.py:6060-6101 | expressions that are printed alike have the same right-associated form |
| ExprSyntax.ReadPrinted | tools/Kconfiglib/kconfiglib.py:2579-2585 | running the parser on a printed line ends at its end |
| MenuTree.FinalizedOrder | tools/Kconfiglib/kconfiglib.py:3556-3635 | implicit submenus, flattening and if-removal keep the order of all nodes but the if nodes, leave no if node, and leave children only below nodes with a prompt and choices |
| MenuTree.FinalizedSyms | tools/Kconfiglib/kconfiglib.py:1917-1921 | the symbols are met in the order in which they were defined |
| MenuTree.FlattenKeepsOrder | tools/Kconfiglib/kconfiglib.py:6476-6502 | flattening keeps the order of all nodes |
| MenuLinks.Tree.Splice | tools/Kconfiglib/kconfiglib.py:6488-6500 | the pointer surgery that moves the children of a node behind it, parents included |
| MenuLinks.Tree.FlattenFrom | tools/Kconfiglib/kconfiglib.py:6476-6502 | flattening by pointers does what flattening of the tree does, and touches no other node |
| MenuLinks.Tree.RemoveIfsFrom | tools/Kconfiglib/kconfiglib.py:6505-6528 | removal of if nodes by pointers |
| MenuLinks.Tree.TakeSubmenu | tools/Kconfiglib/kconfiglib.py:3585-3603 | the loop that finalizes and takes in the symbols after a symbol that depend on it, and tilts them up |
| MenuLinks.Tree.FinalizeNode | tools/Kconfiglib/kconfiglib.py:3556-3635 | after finalisation by pointers, next, list and parent of every node are those of the finalized tree, and no node outside it is touched |
| MenuPlaces.FinalizedPlaces | tools/Kconfiglib/kconfiglib.py:3584-3622 | the parent of a node in the finalized tree is the innermost node around it that has a prompt or is a choice, where what is around a node are its parsed ancestors and the symbols that take it in: the last symbol before it among its siblings on which it depends and below which everything in between is; exactly the nodes that are no ifs have such a place |
| AutoMenu.AcceptedForms | tools/Kconfiglib/kconfiglib.py:6439-6464 | the test for an automatic menu dependency accepts exactly the conjunctions that contain the symbol, `= m`, `= y` or `!= n`, as its comment says, or `!= y`, which it does not say |
| AutoMenu.SubmenuIsHidden | tools/Kconfiglib/kconfiglib.py:6439-6473 | a condition that contains one of the forms of the comment is n whenever the bool or tristate symbol is n, so that what goes in its implicit submenu is hidden then |
| AutoMenu.NotYIsShown | tools/Kconfiglib/kconfiglib.py:6456-6460 | `!= y` is accepted, and is y when the symbol is n |
| MenuPlaces.UnbrokenRun | tools/Kconfiglib/kconfiglib.py:3585-3603 | the siblings that a symbol takes in directly or indirectly follow it without a gap |
| MenuPlaces.FinalizeAndPlace | tools/Kconfiglib/kconfiglib.py:3556-3635 | pointer surgery leaves the parent of each node at that place |
| MenuWalk.NodeIter | tools/Kconfiglib/kconfiglib.py:1930-1956 | the walk with three pointers terminates and visits exactly the pre-order of the tree, or with unique_syms that order without later nodes of a symbol |
| MenuWalk.KeepsFirsts | tools/Kconfiglib/kconfiglib.py:1950-1954 | with unique_syms exactly the first node of each symbol is kept, and all other nodes |
| MenuWalk.PreorderOnce | tools/Kconfiglib/kconfiglib.py:1930-1956 | each node is visited once |
| MenuWalk.FinalizeAndWalk | tools/Kconfiglib/kconfiglib.py:1907-1956 | the walk over the finalized tree meets what was parsed, in order, without the if nodes |
| PropagateLaws.MakeAndValue | tools/Kconfiglib/kconfiglib.py:2863-2875 | the simplifications of _make_and() do not change the value |
| PropagateLaws.MakeOrValue | tools/Kconfiglib/kconfiglib.py:2877-2889 | nor those of _make_or() |
| PropagateLaws.StatesGiveValues | tools/Kconfiglib/kconfiglib.py:5988-6042 | the values of expressions in any state are such values, and they are those of expr_value() |
| PropagateLaws.FinalizedPropagates | tools/Kconfiglib/kconfiglib.py:3637-3687 | every node below a finalized one has had the conditions of its parent pushed to it exactly once |
| PropagateLaws.ConditionsMean | tools/Kconfiglib/kconfiglib.py:3637-3687 | in every state, each prompt condition has the least of the values of its own condition, its depends-on, all enclosing dependencies, visible-ifs and the choice mode; and so for defaults, ranges, selects and implies |
| PropagateLaws.ConditionsInStates | tools/Kconfiglib/kconfiglib.py:3637-3687 | the same with the values that expr_value() computes in a state of a configuration |
| PropagateLaws.DependenciesMean | tools/Kconfiglib/kconfiglib.py:3689-3720 | direct_dep has the greatest value over the nodes of the symbol, rev_dep the greatest over all selects of the least of selecting symbol and propagated condition, and weak_rev_dep likewise for implies |
| PropagateLaws.DependenciesInStates | tools/Kconfiglib/kconfiglib.py:3689-3720 | the same with the values that expr_value() computes in a state of a configuration |
| PropagateLaws.PromptsNeedDependencies | tools/Kconfiglib/kconfiglib.py:3637-3720 | a prompt is visible only as far as the direct dependencies of its symbol are met |
| PropagateLaws.ChoiceSymsUnder | tools/Kconfiglib/kconfiglib.py:3640-3647 | the prompts of the symbols of a choice have the choice among their conditions |
| BuiltConfig.VisibleMeetsDependencies | tools/Kconfiglib/kconfiglib.py:3637-3720 | in a configuration built from a finalized tree, a visible symbol has its direct dependencies met |
| BuiltConfig.PromptsAreUnder | tools/Kconfiglib/kconfiglib.py:3637-3687 | a symbol whose nodes are all in its choice has all its prompts under the choice |
| BuiltConfig.ChoicesAreLinked | tools/Kconfiglib/kconfiglib.py:3466-3525 | each choice symbol depends on its choice if it has a prompt in the choice whose condition has not become n |
| Propagate.Finalizer.PropagateDeps | tools/Kconfiglib/kconfiglib.py:3637-3687 | the loop over the children |
| Propagate.Finalizer.AddPropsToSym | tools/Kconfiglib/kconfiglib.py:3689-3720 | the properties of a node are added to its symbol and to the symbols it selects and implies |
| Propagate.Finalizer.FinalizeNode | tools/Kconfiglib/kconfiglib.py:3556-3635 | the columns of all nodes and symbols after finalisation |
| PropagateOrder.SymbolsInOrder | tools/Kconfiglib/kconfiglib.py:3689-3706 | the defaults and the ranges of a symbol are those of its nodes with their propagated conditions, one node after the other in the order of the parsed tree |
| PropagateOrder.ChoicesInOrder | tools/Kconfiglib/kconfiglib.py:3624-3635 | the defaults of a choice are those of its nodes in the order in which the nodes end, and its dependencies have the greatest of the values of theirs |
| PropagateOrder.PicksInOrder | tools/Kconfiglib/kconfiglib.py:3624-3635 | which is the order of the parsed tree unless a choice is nested in itself |
| Macro.Preprocessor.ExpandMacro | tools/Kconfiglib/kconfiglib.py:2742-2802 | expansion in place always ends; it leaves the text before the macro, puts the value in its place, returns the index after it, and restores every _n_expansions |
| Macro.Preprocessor.ExpandWhole | tools/Kconfiglib/kconfiglib.py:2660-2673 | expansion of all macros in a text |
| Macro.Preprocessor.CallFn | tools/Kconfiglib/kconfiglib.py:2804-2857 | variables, functions and environment variables, with the guard against recursion |
| Macro.BudgetFalls | tools/Kconfiglib/kconfiglib.py:2814-2825 | each nested expansion of a variable lowers the number of expansions that can still be nested |
| MacroLaws.EndsAtMatchingClose | tools/Kconfiglib/kconfiglib.py:2742-2802 | expansion ends at the parenthesis that matches in the unexpanded text, and leaves the text after it as it is |
| MacroLaws.ScanAppend | tools/Kconfiglib/kconfiglib.py:2742-2802 | text after a macro has no effect on its value |
| MacroLaws.WholeAppend | tools/Kconfiglib/kconfiglib.py:2660-2673 | expanding two texts one after the other is expanding their concatenation, unless this makes a new $( |
| MacroMeaning.CallIsSplit | tools/Kconfiglib/kconfiglib.py:2742-2802 | a call without macros inside is split into name and arguments at its commas outside of parentheses, and has their value |
| MacroMeaning.InnerFirst | tools/Kconfiglib/kconfiglib.py:2800-2802 | a macro inside is expanded first, and its value becomes part of the argument it is in |
| MacroMeaning.OneCall | tools/Kconfiglib/kconfiglib.py:2660-2673 | a text that is one call expands to the value of the call |
| MacroMeaning.ArgumentsAreNumbered | tools/Kconfiglib/kconfiglib.py:2776-2784 | a number as the name stands for the argument of the call around with this index, counted from the end if it is negative |
| MacroMeaning.EnvironmentIsLast | tools/Kconfiglib/kconfiglib.py:2804-2857 | a name that is no argument and no variable is a function, or else an environment variable, or else empty |
| MacroMeaning.ArgumentsReachVariables | tools/Kconfiglib/kconfiglib.py:2804-2827 | a variable whose value is a reference to an argument expands to what it is called with, unless it is stuck |
| MacroMeaning.RecursionIsCaught | tools/Kconfiglib/kconfiglib.py:2812-2827 | a variable without arguments has its expanded value, and none while it is being expanded |
| MacroMeaning.SelfReferenceFails | tools/Kconfiglib/kconfiglib.py:2812-2820 | a variable that only refers to itself has no value |
| OldConfigLaws.StillSolves | tools/Kconfiglib/oldconfig.py:62-147 | if the slots that look at a changed user value keep their values, all slots do |
| OldConfigLaws.SelectOutsideYMode | tools/Kconfiglib/oldconfig.py:104-142 | answering y for a choice symbol outside y mode changes no value if the symbol's value stays the same |
| OldConfigLaws.AnswersStay | tools/Kconfiglib/oldconfig.py:62-147 | a node that is not asked about stays so while answers change no value |
| OldConfig.OldConfig.AskSym | tools/Kconfiglib/oldconfig.py:104-147 | takes the first line that is a valid value, an empty line standing for the present value and hex values getting a 0x, and assigns it; the flag is raised exactly if the value of the symbol changes, and if not, no value changes and it is not asked about again |
| OldConfig.OldConfig.AskChoice | tools/Kconfiglib/oldconfig.py:149-212 | takes the first line that is the number of an option, or empty for the present selection, and makes that option the selection and y; only other symbols of the choice become n; the flag is raised exactly if the option was not y, and if not, all other visible symbols are n, no value changes, and the choice is settled |
| OldConfig.OldConfig.Visit | tools/Kconfiglib/oldconfig.py:62-212 | asks about a node exactly if it is visible, has a prompt and is new; otherwise nothing is read or changed |
| OldConfigMeaning.SymbolsAsked | tools/Kconfiglib/oldconfig.py:84-102 | a symbol is new exactly if it is visible, has no user value, is not in a choice in y mode and, if bool or tristate, has two values to choose from |
| OldConfigMeaning.OptionsInOrder | tools/Kconfiglib/oldconfig.py:150-153 | the options are the y-visible symbols in the order of the choice |
| OldConfig.OldConfig.Pass | tools/Kconfiglib/oldconfig.py:48-53 | a pass that changes no value leaves no question open; if none is open, a pass asks nothing and changes nothing |
| OldConfig.OldConfig.Run | tools/Kconfiglib/oldconfig.py:45-59 | the loop ends for every input, and when it ends normally a further pass would ask nothing |
| MenuNav.SelectionStaysInWindow | tools/Kconfiglib/menuconfig.py:1049-1345 | over any sequence of navigation keys, entering and leaving menus, show-all toggles, jumps, value changes and resizes, the selected entry is inside the window |
| MenuNav.EnterThenLeave | tools/Kconfiglib/menuconfig.py:1103-1233 | leaving a menu after any moves in it restores the exact state before it was entered |
| MenuNav.ToggleTwice | tools/Kconfiglib/menuconfig.py:1292-1336 | turning show-all on keeps the selected entry on its row, and turning it off again restores the exact state |
| MenuNav.TimesInWindow | tools/Kconfiglib/menuconfig.py:859-869 | page keys move by six entries or to the end, and keep the entry in the window |
| NavMeaning.EndAndHome | tools/Kconfiglib/menuconfig.py:1273-1289 | End and Home select what pressing Down and Up often enough selects, and End shows as many entries as fit |
| NavMeaning.MovesKeepRoom | tools/Kconfiglib/menuconfig.py:1236-1270 | in a window with room for it, Down and Up keep the selected entry the scroll offset away from the edges where the list goes on, and scroll by at most one row |
| NavMeaning.CenteredRow | tools/Kconfiglib/menuconfig.py:1339-1345 | centring puts the entry in the middle unless the list begins or ends before that |
| NavMeaning.EnteredMenu | tools/Kconfiglib/menuconfig.py:1103-1153 | an entered menu shows its entries, with the cursor on the first shown node of the selected symbol, or on the first entry |
| NavMeaning.ClosestMeans | tools/Kconfiglib/menuconfig.py:1303-1327 | a toggle selects the last entry up to the selected one that is in the new list, or else the first one after it |
| NavMeaning.UpdateKeepsNode | tools/Kconfiglib/menuconfig.py:1688-1713 | after a value change the same node is selected, in the same row unless the list is too short above it |
| NavMeaning.JumpShowsNode | tools/Kconfiglib/menuconfig.py:1156-1202 | a jump to a node shows the menu it is in with it selected, with show-all turned on only if it is not shown otherwise, and forgets the remembered rows |
| NavMeaning.JumpIntoMenu | tools/Kconfiglib/menuconfig.py:1156-1202 | a jump into a menu or choice shows its entries |
| NavMeaning.ResizeKeepsNode | tools/Kconfiglib/menuconfig.py:1049-1088 | a resize leaves three rows besides menu and help, and scrolls only as far as the selected entry needs |
| NavMeaning.EditsAtCursor | tools/Kconfiglib/menuconfig.py:2876-2937 | each editing key does to the texts before and behind the cursor what it should |
| MenuNav.Menuconfig.PageNext | tools/Kconfiglib/menuconfig.py:859-863 | a page down is six keys down |
| MenuNav.Menuconfig.PagePrev | tools/Kconfiglib/menuconfig.py:865-869 | a page up is six keys up |
| MenuNav.Menuconfig.SelectNext | tools/Kconfiglib/menuconfig.py:1236-1254 | selection and scroll after the key down; the selected entry stays in the window |
| MenuNav.Menuconfig.SelectPrev | tools/Kconfiglib/menuconfig.py:1257-1270 | selection and scroll after the key up; the selected entry stays in the window |
| MenuNav.Menuconfig.EnterMenu | tools/Kconfiglib/menuconfig.py:1103-1153 | entering a menu, with the cursor on the selected symbol of a choice, in the window |
| MenuNav.Menuconfig.LeaveMenu | tools/Kconfiglib/menuconfig.py:1205-1233 | leaving a menu, with the remembered row, in the window |
| MenuNav.Menuconfig.ToggleShowAll | tools/Kconfiglib/menuconfig.py:1292-1336 | the entry selected after a toggle, in the window |
| MenuNav.Menuconfig.UpdateMenu | tools/Kconfiglib/menuconfig.py:1688-1713 | the menu after a value change, with the selected entry in the window |
| MenuNav.Menuconfig.ResizeMain | tools/Kconfiglib/menuconfig.py:1049-1088 | the scroll after a resize, with the selected entry in the window |
| MenuNav.Menuconfig.JumpToNode | tools/Kconfiglib/menuconfig.py:1156-1202 | the state after a jump, with the selected entry in the window |
| EditBox.EditText | tools/Kconfiglib/menuconfig.py:2876-2949 | the text, cursor and scroll after each editing key |
| EditBox.WordStartErases | tools/Kconfiglib/menuconfig.py:2926-2930 | CTRL-W erases a word or one other character, and the spaces after it |
| EditBox.WordStartIsFirst | tools/Kconfiglib/menuconfig.py:2926-2930 | and there is no earlier place where the pattern matches |
| EditBox.CursorStaysInBox | tools/Kconfiglib/menuconfig.py:2939-2949 | from opening the box, over any sequence of editing keys, the cursor stays in the text and in a box of at least six columns |
| EditBox.ScrollingShowsCursor | tools/Kconfiglib/menuconfig.py:2939-2949 | scrolling shows the cursor from every state if and only if the box has at least six columns |
| EditBox.ScrollingAvoidsEdges | tools/Kconfiglib/menuconfig.py:2939-2949 | and keeps it away from the edges, as its comment says, if and only if there are at least seven |
| EditBox.EditsUndone | tools/Kconfiglib/menuconfig.py:2903-2937 | backspace undoes inserting, and CTRL-K and CTRL-U take the text apart at the cursor |

## Left out

- Object identity: symbols, choices and menu nodes are known by indices, and their mutable attributes are columns of one object; aliasing of Python objects is not modelled.
- Deps.DropKeepsJustified: `_write_to_conf` is treated as one more memoised slot, because it is only looked at after the value it comes with.
- Engine.Kconfig.SetValue: the numerals that Python's int() accepts beyond plain ones, with underscores, surrounding white space or non-ASCII digits, are rejected here.
- LoopComplete.LoopIffReported: a dependent of a choice that is not one of its symbols and depends on none of them is not covered; the search does not follow it, so that only `LoopLaws.ReportedLoopIsReal` and `LoopLaws.NoSymLoopIsMissed` hold there.
- MinimalTrip.MinimalRoundTrip: symbols of other types than bool and tristate are not selected; the source warns about such selects.
- SyncDeps.NoRebuildIsMissed: both builds are of the same Kconfig files; symbols that disappear between builds are touched by name (`SyncDeps.LoadOldVals`) but have no header line to compare.
- OldConfig.OldConfig.Run: the help text and the list of options that are printed, and the end of input, which is an exception in the source and an unfinished run here.
- MenuNav.SelectionStaysInWindow: a node that is looked up in the list of shown nodes and is not there raises an exception, after which nothing is claimed; which nodes a menu shows is given, not computed.
- EditBox.WordStartErases: word characters and white space are those of ASCII; the pattern in the source is about Unicode characters.
- EditBox.WordStartIsFirst: the same.
- Macro.Preprocessor.ExpandMacro: built-in and user-defined functions are given as total functions; they run commands and read files in the source.
- ExprSyntax.PrintedExprParses: starts from tokens; quoting of constant symbols is covered by `ConfText.UnescapeEscape`, and choices, which cannot be written in expressions, are left out.
- MenuTree.FinalizedOrder: whether a node has an automatic menu dependency on another is an arbitrary relation here; `AutoMenu` says what the test of the source accepts.
- Propagate.Finalizer.FinalizeNode: works on the tree as parsed and not on the links, because propagation only goes from parsed parents to their children; types that choices and choice symbols take from each other are not modelled.
- Files, environment variables, commands, `source` and globbing, the tokenizer, help texts and all warnings, among them the extra evaluation that a warning about unmet dependencies of a selected symbol does after reading them.
- The curses drawing and the dialogs of menuconfig, the jump-to search, guiconfig, and the command line scripts around the engine.
- The C sources of the firmware, the device configuration tables and the build scripts of the SDK.
