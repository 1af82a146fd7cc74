# DraftBudget line tree, in Dafny

DraftBudget is a browser budgeting tool. A budget is an ordered tree of *lines*. A leaf holds a quantity (`unitNumber`), a unit type, a unit cost, a frequency and a currency. A parent line's total is the sum of its children's totals, each converted into the parent's currency, plus any overhead surcharges on the line. Every line has a dotted `index` such as `"2.1.3"` (the root's is `0`), and `getLine` resolves an index back to a line. The tree can be exported to plain records and rebuilt from them, laid out as an Excel sheet with `SUM` formulas, and shown through a few DOM helpers.

This project models the line tree and the modules around it:

- `Trees` — the tree itself, as a value.
  - A node is addressed by its path of 0-based child positions, so a parent is derived from position and never stored.
  - Covers `level`, `lineNumber`, `index` and the `getLine` resolution, plus the placement rule of `add`/`addLine`, the splice of `remove`, and the loop-built queries `siblings`, `ancestors`, `root`, `index` and `descendants`.
- `Js` — the JavaScript-level semantics the code relies on:
  - numbers with NaN (an unset field is undefined, which behaves as NaN everywhere it is used);
  - truthiness and `||`;
  - `split`/`join`;
  - `Number(segment)` on index segments, for optionally negative decimal numerals;
  - `toUpperCase` on ASCII letters, `substring`, and `trim` with the full white-space set;
  - the start index of `splice`.
- `Lines` — the stored state of one line, the validating setters, the constructor, and `update`.
- `Options` — the options object that `add` fills in before building the child. Key order matters here: a unit type of `"ls"` forces the quantity to 1 only when it is assigned after the quantity.
- `Money` — `cost`, `totalWithoutOverhead`, `total` and the overheads. The currency converter is a parameter.
- `Queries` — `currencies`, `getFirst`/`getLast`, the `start`/`end`/`modified` rollups, and `listCategory`.
- `Navigation` — `before` and `after`, shown to walk the document (pre-) order.
- `Budgets` — `add` and `addLine`, plus the overhead and category methods. A `Budget` class holds the root and applies the mutations in place.
- `Serialize` — `exportToJSON` (object mode) and `cloneLine`.
- `Fx` — the rate cache, its 24-hour validity, the direct-rate `convert`, and the bookkeeping of `fetchRatesForBase`. The cache is a class that holds the in-flight set and the requests sent.
- `Excel` — the sheet plan:
  - `collectLines`;
  - the first pass that numbers rows and fills `rowMap`/`childRows`;
  - the second pass that writes the `SUM` and product formulas;
  - the grand-total reference;
  - the filename stem.
- `Dom` — `columnToLetter` (bijective base 26), the comma grouping and falsy branch of `formatN`, and the tag-descriptor parse of `n`.
- `Legacy` — the older standalone `Line` in `app.js`. It differs from the modules:
  - its `cost` includes the frequency;
  - its `convert` returns error strings, which make the `total` loop throw;
  - its `move` is implemented: it removes the line and re-adds a JSON clone, which loses the moved line's children.

Wall-clock reads are a `now` parameter. The table of known currency symbols is a `symbols` parameter. The network answer in `Fx` is a parameter.

The model follows the code, including these behaviours:

- **Overheads do not compound.** Each overhead's cost is `totalWithoutOverhead * rate` (src/modules/Line.js:750-752), so `total` is `totalWithoutOverhead * (1 + Σ rate)` (`Money.TotalDoesNotCompound`).
- **`add` has no depth limit or cycle check.** A numeric or dotted index that does not fit its target parent makes `add` push onto the receiver's own `children`. The new line's `parent` still reports the resolved line (`Trees.Placement`, the `Misplaced` outcome).
- **`move` in the module is a stub.** It only calls `cloneLine`, which throws when a descendant shows an amount (`Budgets.Budget.Move`).
- **`removeOverhead` tests `overhead[index]` but splices at `index - 1`.** The model follows the code (`Budgets.RemoveOverheadAt`).
- **A failed intermediate hop in a dotted `getLine` does not simply give `false`.** The next hop then runs on `false` and throws; only a missing last hop gives `false` (`Trees.GetLineMissingHop`).
- **The Excel `rowMap` is keyed by path here rather than by the index string.** The root's key is `'root'`; every other key is the dotted index. Distinct paths have distinct keys (`Excel.RowKeyInjective`), so the two maps hold the same entries.

## Model

| member | source | states |
|---|---|---|
| Trees.Level | src/modules/Line.js:237-240 | the level of a line is its depth: 0 for the root, one more than its parent's |
| Trees.LineNumber | src/modules/Line.js:250-252 | the line number is at least 1: the 1-based position under the parent, 1 for the root |
| Trees.IndexInjective | src/modules/Line.js:264-272 | two lines with the same index are the same line |
| Trees.ComputeIndex | src/modules/Line.js:264-272 | the loop that unshifts line numbers while climbing yields the dotted index of the line (0 for the root) |
| Trees.Hop | src/modules/Line.js:704-711 | `getLine(number)` never throws; when it finds a line, it is the receiver (falsy number) or one of the receiver's children |
| Trees.Walk | src/modules/Line.js:712-717 | a dotted walk only moves downwards from the line it starts at |
| Trees.GetLine | src/modules/Line.js:704-718 | a line that `getLine` returns lies at or below the receiver |
| Trees.GetLineIndex | src/modules/Line.js:704-718 | resolving the relative index of any line below a receiver finds exactly that line |
| Trees.RootGetLineIndex | src/modules/Line.js:704-718 | for every line x, `root.getLine(x.index)` returns x |
| Trees.GetLineMissingHop | src/modules/Line.js:712-717 | when a hop of a dotted index is past the end, the walk gives `false` if that hop was the last one and throws otherwise |
| Trees.DescMembers | src/modules/Line.js:300-309 | `descendants` lists exactly the lines strictly below the line |
| Trees.PreOrderMembers | src/modules/Line.js:300-309 | the line followed by its descendants lists exactly the lines of the subtree |
| Trees.DescDistinct | src/modules/Line.js:300-309 | no line appears twice in `descendants` |
| Trees.Descendants | src/modules/Line.js:300-309 | the push-and-concat loop yields the pre-order list of lines below |
| Trees.Siblings | src/modules/Line.js:290-298 | the root has no parent (TypeError); otherwise the result is every other child of the parent, in order |
| Trees.Ancestors | src/modules/Line.js:280-288 | one ancestor per level, nearest first: the i-th entry is the line i+1 levels up |
| Trees.Root | src/modules/Line.js:274-278 | the climb ends at the root after exactly `level` steps |
| Trees.Replace | src/modules/Line.js:612-615 | writing a line in place puts exactly that line at the path |
| Trees.ReplaceElsewhere | src/modules/Line.js:612-615 | writing one line leaves every line outside its subtree in place, and keeps the data and child count of its ancestors |
| Trees.Placement | src/modules/Line.js:627-631 | where `add` puts the new line: at 1-based position k of the target when k is truthy and below the target's child count; the first child creates the list; else pushed onto the receiver's own children; throws when there is no target, or when it must push onto a receiver without a children array |
| Trees.Place | src/modules/Line.js:627-631 | the new line sits at the reported position; the receiving line's other children keep their order on either side and its data is kept; every line off the receiving line's branch is unchanged, and the lines above it keep their data and number of children |
| Trees.InsertPlaces | src/modules/Line.js:629 | a splice inserts the node at the position and shifts the later children by one; lines off that line's branch are unchanged, and the lines above it keep their data and number of children |
| Trees.RemoveAt | src/modules/Line.js:650-653 | `remove` throws exactly on the root, which has no parent |
| Trees.RemoveDeletes | src/modules/Line.js:650-653 | `remove` deletes exactly this line from its parent's children at `lineNumber - 1`; the other siblings keep their order; the parent's data is unchanged |
| Trees.RemoveUndoesInsert | src/modules/Line.js:650-653 | removing a line just inserted gives back the tree before the insert (the parent then has its children array) |
| Js.Split | src/modules/Line.js:619 | `split` always yields at least one part |
| Js.SplitPartsFree | src/modules/Line.js:619 | no part of a split contains the separator |
| Js.JoinSplit | src/modules/Line.js:619-621 | joining the parts of a split gives back the string |
| Js.SplitJoin | src/modules/Line.js:619-621 | splitting a join of separator-free parts gives back the parts |
| Js.ToNumber | src/modules/Line.js:620 | `Number("")` is 0; in the modelled grammar a segment converts to an integer only when it is a run of decimal digits, optionally preceded by `-` |
| Js.NumberOfString | src/modules/Line.js:715 | `Number` of the decimal text of an integer gives the integer back |
| Js.NatToStringInjective | src/modules/Line.js:268-271 | distinct line numbers have distinct decimal texts |
| Js.SpliceStart | src/modules/Line.js:629 | the start position `splice` uses: the index itself when in range, counted from the end when negative, clamped to the array |
| Js.Trim | src/modules/Line.js:184-187 | the trimmed title neither starts nor ends with white space (tab, vertical tab, form feed, byte order mark, every space separator, and the line terminators) |
| Js.TrimSlice | src/modules/Line.js:184-187 | the trimmed title is a slice of the text, and everything dropped before and after it is white space |
| Lines.CurrencyOf | src/modules/Line.js:205-208 | the currency getter yields one to three characters, none an ASCII lower-case letter (under the ASCII case mapping) |
| Lines.CurrencyNormalStable | src/modules/Line.js:205-208 | storing the getter's result and reading it again gives the same code |
| Lines.DetachedTitleIsDefault | src/modules/Line.js:180-182 | a detached line's default title is `Budget-1` |
| Lines.TrimIdempotent | src/modules/Line.js:184-187 | trimming a title twice is trimming it once |
| Lines.SetTitle | src/modules/Line.js:110-114 | the title setter keeps the trimmed text when it is not blank, otherwise leaves the shown title as it was; it stamps `modified` and changes nothing else |
| Lines.SetCurrency | src/modules/Line.js:144-151 | the currency setter stores a code found in `symbols` and stamps `modified`; an unknown code changes nothing |
| Lines.Assign | src/modules/Line.js:96-157 | assigning a property: the getter-only keys throw (strict mode); validated setters store what they accept; the `'ls'` unit type forces a quantity of 1; category becomes a list; only the touched fields and `modified` change |
| Lines.ApplyProps | src/modules/Line.js:47-49 | copying an options object throws exactly when it names a getter-only key |
| Lines.ApplyFinal | src/modules/Line.js:47-49 | after copying the options, each cost field and the currency hold the value of the last assignment to them that took effect |
| Lines.AssignStep | src/modules/Line.js:96-157 | one assignment changes the cost fields and the currency as the last-assignment functions say |
| Lines.ApplyModified | src/modules/Line.js:47-49 | after copying, `modified` is the last explicit value, or the stamp of a later setter |
| Lines.NormaliseCurrency | src/modules/Line.js:50 | `this.currency = this.currency \|\| default` keeps the shown currency; it stores the normalised code only when `symbols` knows it |
| Lines.DefaultSpan | src/modules/Line.js:51-52 | a missing start becomes `now`; a missing end becomes start plus one day |
| Lines.DefaultStamps | src/modules/Line.js:54-55 | `created` defaults to `now`, and `modified` defaults to `created` |
| Lines.Construct | src/modules/Line.js:11-56 | the constructor throws exactly for a getter-only option; otherwise the copied options then the currency, span and stamp defaults, with start, created and modified always set |
| Lines.Update | src/modules/Line.js:803-811 | `update` throws exactly for a getter-only key |
| Lines.UpdateFields | src/modules/Line.js:803-811 | an update that does not throw leaves each cost field and the currency as the option list leaves them, keeps the overheads, and leaves `modified` as the list leaves the stamp it starts from: now, unless a truthy `modified` option is given |
| Lines.UpdateModified | src/modules/Line.js:803-811 | `update` without a `modified` key stamps now; with `modified` as its last key, that value is kept |
| Lines.LastModifiedWins | src/modules/Line.js:805-809 | the last `modified` assignment wins |
| Lines.NoModifiedKeepsStamp | src/modules/Line.js:804 | without a `modified` key, the stamp set first stays |
| Options.SetOpt | src/modules/Line.js:605-609 | `options[key] = v` overwrites that key where it stands or appends it as the last key; every other entry is kept |
| Options.Lookup | src/modules/Line.js:605-609 | reading `options[key]` finds an entry with that key exactly when one exists |
| Options.Inherit | src/modules/Line.js:605-609 | each cost field is the option when truthy, else the receiver's value when truthy, else the default (1, `ls`, 0, 1); the currency is the option when non-empty, else the receiver's currency, which is never empty |
| Options.InheritedList | src/modules/Line.js:605-609 | after the five assignments, every inherited key is present with the inherited value, and the unit type comes after the quantity exactly when it did in the caller's object |
| Options.FinalUnitNumberUniform | src/modules/Line.js:120-128 | with the quantity and a unit type in the options, the quantity is forced to 1 exactly when the type is `'ls'` and comes after the quantity |
| Options.SetOptReadOnly | src/modules/Line.js:605-609 | filling in the options never adds or removes a getter-only key |
| Money.TotalDoesNotCompound | src/modules/Line.js:227-235 | `total` is `totalWithoutOverhead * (1 + Σ rate)`: each overhead is charged on the base, not on earlier overheads |
| Money.WithOverheadsLinear | src/modules/Line.js:750-752 | adding each overhead's `base * rate` to the base is multiplying by one plus the rates |
| Money.WithOverheadsNaN | src/modules/Line.js:229-233 | the overhead sum is NaN exactly when the base or some rate is |
| Money.TotalNaN | src/modules/Line.js:227-235 | `total` is NaN exactly when `totalWithoutOverhead` or some overhead rate is NaN |
| Money.KidsSumNaN | src/modules/Line.js:216-222 | the children's sum is NaN exactly when some child's converted share is |
| Money.ParentTotalNaN | src/modules/Line.js:216-222 | a parent's `totalWithoutOverhead` is unavailable exactly when some child's converted total is |
| Money.LeafTotal | src/modules/Line.js:223 | a leaf totals `unitNumber * unitCost * frequency` when `cost` is truthy, and 0 otherwise |
| Money.TotalIgnoresRates | src/modules/Line.js:218-221 | a tree in one currency totals the same under any converter |
| Money.ComputeTotalWithoutOverhead | src/modules/Line.js:214-225 | the summing loop computes `totalWithoutOverhead` |
| Money.ComputeTotal | src/modules/Line.js:227-235 | the overhead loop computes `total` |
| Queries.Insert | src/modules/Line.js:348 | inserting into a sorted list adds exactly the element |
| Queries.InsertIncreasing | src/modules/Line.js:348 | inserting a new element keeps the list strictly increasing |
| Queries.SortStrings | src/modules/Line.js:348 | the sort keeps exactly the elements and the length |
| Queries.SortIncreasing | src/modules/Line.js:348 | sorting a list without duplicates gives a strictly increasing list |
| Queries.CurrencySetMembers | src/modules/Line.js:334-347 | `currencies` holds the line's currency, the default currency, and the currencies of its children's subtrees |
| Queries.KidsCurrenciesMembers | src/modules/Line.js:339-347 | the children's loop collects exactly the codes found in some child's subtree |
| Queries.CurrencySetSound | src/modules/Line.js:334-349 | every code other than the default belongs to some line of the subtree |
| Queries.CurrencySetComplete | src/modules/Line.js:334-349 | every line's currency appears in its ancestors' `currencies` |
| Queries.Currencies | src/modules/Line.js:334-349 | the loop yields a sorted list without duplicates of exactly those codes |
| Queries.AddMissing | src/modules/Line.js:341-345 | the inner loop keeps the list's order and distinctness, pushes only new codes, and ends with exactly the codes of the list and the child's list |
| Queries.FirstMaxIsFirstMaximum | src/modules/Line.js:731-737 | the stable descending sort puts the first maximum first |
| Queries.LastMinIsLastMinimum | src/modules/Line.js:731-737 | the last entry after the sort is the last minimum |
| Queries.Values | src/modules/Line.js:726-730 | the map holds the requested property of each descendant, in order |
| Queries.Pick | src/modules/Line.js:724-742 | `getLast`/`getFirst` is undefined exactly when there are no descendants, and otherwise one of them |
| Queries.PickValid | src/modules/Line.js:739-740 | the line picked is a line of the tree |
| Queries.GetLast | src/modules/Line.js:724-742 | the loop-and-sort method computes the pick |
| Queries.RollupIsExtreme | src/modules/Line.js:161-174 | a leaf's `start`/`end`/`modified` is its own; otherwise `start` is the minimum over the descendants, and `end` and `modified` are the maximum |
| Queries.RollupValue | src/modules/Line.js:161-174 | the rollup reads the picked descendant's own field |
| Queries.ListCategoryAsWritten | src/modules/Line.js:789-801 | as written, `listCategory` reports at most the receiver's own index, and reports it exactly when the receiver has the category |
| Queries.WithCategory | src/modules/Line.js:793 | keeps exactly the lines whose categories include the one asked for |
| Queries.ListCategoryFindsAll | src/modules/Line.js:789-801 | the corrected `listCategory` reports exactly the lines of the subtree that carry the category |
| Queries.ListCategoryDropsDescendants | src/modules/Line.js:796-800 | a root without the category and a child with it: the code as written reports nothing, the corrected version reports the child |
| Navigation.Climb | src/modules/Line.js:325-330 | the climb in `after` stops at an ancestor (or the line) or throws |
| Navigation.AfterOf | src/modules/Line.js:321-332 | `after` yields a line of the tree, undefined, or a TypeError |
| Navigation.After | src/modules/Line.js:321-332 | the climbing loop computes `after` |
| Navigation.BeforeOf | src/modules/Line.js:311-319 | `before` yields a line of the tree when it yields one |
| Navigation.AfterFollowsDocumentOrder | src/modules/Line.js:321-332 | `after` steps from each line of the pre-order to the next; after the last it is undefined for a lone root and throws otherwise |
| Navigation.BeforeFollowsDocumentOrder | src/modules/Line.js:311-319 | `before` steps from each line to the previous one in pre-order; it is undefined at the root |
| Navigation.BeforeIsPredecessor | src/modules/Line.js:311-319 | `before` of a line is the line that precedes it in pre-order |
| Navigation.AfterPredecessor | src/modules/Line.js:321-332 | `after` of a line's predecessor is the line |
| Navigation.AfterParent | src/modules/Line.js:322 | `after` of a line with children is its first child |
| Navigation.DocFromIsPreOrder | src/modules/Line.js:300-309 | the line, then its descendants, is the pre-order of its subtree |
| Serialize.Entries | src/modules/serialize.js:12-20 | a property is exported exactly when it is truthy or is `index`, and the cost fields only for a line without children; each exported value is the getter's value |
| Serialize.Export | src/modules/serialize.js:5-29 | the record holds exactly the entries above and one child record per child |
| Serialize.ExportIndex | src/modules/serialize.js:14 | `index` is always exported |
| Serialize.ExportLeafCost | src/modules/serialize.js:15-17 | a leaf with a truthy `cost` exports it |
| Serialize.ExportParentNoCost | src/modules/serialize.js:15-17 | a line with children exports none of `unitNumber`, `unitType`, `unitCost`, `frequency`, `cost` |
| Serialize.ExportChild | src/modules/serialize.js:21-27 | the record's `i`-th child is the `i`-th child line's export with the default property list, whatever list the caller passed |
| Serialize.ExportRaisesChild | src/modules/serialize.js:24 | rebuilding the `i`-th child record throws exactly when that child, under the default list, shows a truthy amount or a line below it does |
| Serialize.CloneProps | src/modules/serialize.js:45-49 | copying a record's properties throws exactly when it carries a truthy `cost` or `total` (getter-only on a new line) |
| Serialize.ClonePropsMembers | src/modules/serialize.js:45-49 | a property is assigned exactly when its value is truthy and its key is neither `level` nor `index` (`children` is held apart from the entries), and each is assigned the record's value |
| Serialize.ClonePropsConcat | src/modules/serialize.js:45-49 | the assignments follow the record's own order: copying two runs of entries assigns the first run's properties, then the second's |
| Serialize.ClonePropsOne | src/modules/serialize.js:46-48 | a single entry is assigned exactly when it is truthy and neither `level` nor `index` |
| Serialize.CloneKids | src/modules/serialize.js:39-44 | the rebuilt children come one per child record |
| Serialize.CloneKidsEach | src/modules/serialize.js:39-44 | each rebuilt child is the clone of its child record, in the records' order |
| Serialize.CloneRecordKids | src/modules/serialize.js:39-44 | a clone that succeeds has one child per child record, each the clone of that record, in the records' order, and a children array exactly when there are child records |
| Serialize.CloneRecordData | src/modules/serialize.js:45-51 | the data of a clone that succeeds is a new line's once the copied properties are assigned through the setters |
| Serialize.CloneLineKids | src/modules/serialize.js:31-44 | a successful `cloneLine` of a line has one child per child of the line, each the clone of that child's export under the default list, in order |
| Serialize.CloneRecordThrows | src/modules/serialize.js:31-52 | rebuilding a record throws exactly when it or a nested record carries an amount |
| Serialize.CloneKidsThrows | src/modules/serialize.js:39-44 | rebuilding children throws exactly when one of them does |
| Serialize.OwnAmount | src/modules/serialize.js:12-20 | a record carries a truthy amount exactly when the line shows one under that property list |
| Serialize.DefaultShows | src/modules/serialize.js:6-9 | under the default list, a line shows an amount when its `total`, or as a leaf its `cost`, is truthy |
| Serialize.CloneKeysNoAmount | src/modules/serialize.js:34-36 | the list `cloneLine` exports carries no amount |
| Serialize.ExportKidsRaise | src/modules/serialize.js:21-27 | rebuilding the child records throws exactly when some line below shows an amount |
| Serialize.ExportRaises | src/modules/serialize.js:21-27 | rebuilding an export throws exactly when the line shows an amount or a descendant does |
| Serialize.CloneLineThrows | src/modules/serialize.js:31-52 | `cloneLine` of a line throws exactly when some descendant shows an amount |
| Serialize.CloneLeaf | src/modules/serialize.js:39-44 | cloning a leaf succeeds and gives a line without children |
| Budgets.SetData | src/modules/Line.js:612-615 | writing a line's own fields leaves the rest of the line in place |
| Budgets.SetDataBelow | src/modules/Line.js:612-615 | writing a line's fields keeps the lines below as they were |
| Budgets.Cleared | src/modules/Line.js:612-615 | the receiver's quantity, unit cost and frequency become 0 and its unit type empty; nothing else changes |
| Budgets.ResolveIndex | src/modules/Line.js:617-623 | a number index keeps the receiver as parent; a string is split, its last segment is the position, and the rest resolves below the receiver |
| Budgets.ResolveDotted | src/modules/Line.js:617-623 | a dotted index to a line below and a position resolves to that line and that position |
| Budgets.NewLine | src/modules/Line.js:605-626 | building the child throws exactly when the caller's options name a getter-only key |
| Budgets.AddClearsReceiver | src/modules/Line.js:612-615 | after `add`, the receiver's cost fields are cleared, whatever else happened |
| Budgets.AddThrowsOnReadOnly | src/modules/Line.js:626 | a getter-only option still clears the receiver, then throws before anything is attached |
| Budgets.AppliedUniform | src/modules/Line.js:605-609 | the new line stores the inherited type, unit cost, frequency and currency, with the `'ls'` quantity rule |
| Budgets.ConstructKeepsCost | src/modules/Line.js:47-55 | the constructor's defaults do not touch the copied cost fields |
| Budgets.NewLineData | src/modules/Line.js:605-609 | the child gets option-else-receiver values for each cost field and currency, with the `'ls'` rule |
| Budgets.NewLineWithoutOptions | src/modules/Line.js:605-608 | without options: the receiver's truthy values, else 1, `'ls'`, 0 and 1, and a lump sum counts as a quantity of 1 |
| Budgets.AddPlacesNewLine | src/modules/Line.js:626-631 | the line `add` attaches is a new leaf holding the constructed data |
| Budgets.NumericPosition | src/modules/Line.js:628-630 | a numeric position k in 1..count-1 lands at k-1; otherwise the line goes last |
| Budgets.AddLeavesOthers | src/modules/Line.js:600-635 | `add` leaves a line unchanged where it was when it is neither above, at nor below the receiver, and neither above, at nor below the line that receives the new child |
| Budgets.AddAtNumber | src/modules/Line.js:627-631 | `add` with a number inserts under the receiver at that position, the other children keeping their order |
| Budgets.AddAtDotted | src/modules/Line.js:617-631 | `add` with a dotted index inserts under the resolved line when the position fits or that line has no children; otherwise it pushes onto the receiver, or throws when the receiver has no children array |
| Budgets.AddLineResult | src/modules/Line.js:637-648 | `addLine` attaches the given line |
| Budgets.AddLineInserts | src/modules/Line.js:640-645 | `addLine` inserts at the numeric position, the other children keeping their order |
| Budgets.AddLineThenRemove | src/modules/Line.js:637-653 | removing a line just added with `addLine` restores the parent's children |
| Budgets.AddOverheadTo | src/modules/Line.js:744-758 | `addOverhead` appends one entry and creates the list when there is none |
| Budgets.RemoveOverheadAt | src/modules/Line.js:760-766 | `removeOverhead(i)` changes nothing unless entry i exists; it then splices at i-1, so index 0 drops the last entry |
| Budgets.UpdateOverheadAt | src/modules/Line.js:768-775 | `updateOverhead(i)` sets a truthy title and rate on entry i, changes nothing without that entry, and leaves the other entries alone |
| Budgets.UpdateOverheadIdempotent | src/modules/Line.js:768-775 | updating an overhead twice with the same values is updating it once |
| Budgets.TotalWithoutOverheadData | src/modules/Line.js:214-225 | a line's pre-overhead total does not depend on its title, dates, categories or overheads |
| Budgets.AddOverheadTotal | src/modules/Line.js:744-758 | after `addOverhead`, `total` grows by the new entry's `totalWithoutOverhead * rate`, with `totalWithoutOverhead` unchanged |
| Budgets.AddCategoryTo | src/modules/Line.js:777-783 | `addCategory` with a list on a line that has a list appends to it without stamping; otherwise the setter replaces the list and stamps `modified` |
| Budgets.AddCategoryMembers | src/modules/Line.js:777-783 | after `addCategory`, the categories are the new ones plus, when appended, the old ones |
| Budgets.Budget.constructor | src/modules/Line.js:11-56 | a new budget is one line without children |
| Budgets.Budget.Add | src/modules/Line.js:600-635 | `add` updates the tree in place as the add result says and reports where the line went |
| Budgets.Budget.AddLine | src/modules/Line.js:637-648 | `addLine` updates the tree in place |
| Budgets.Budget.Remove | src/modules/Line.js:650-658 | `remove` throws on the root and otherwise deletes the line |
| Budgets.Budget.Move | src/modules/Line.js:660-675 | `move` only clones: the tree is untouched, and the call throws exactly when a descendant shows an amount |
| Budgets.Budget.AddOverhead | src/modules/Line.js:744-758 | the overhead is appended to that line's data in place |
| Budgets.Budget.RemoveOverhead | src/modules/Line.js:760-766 | the overhead list changes in place as `removeOverhead` says |
| Budgets.Budget.UpdateOverhead | src/modules/Line.js:768-775 | the overhead entry changes in place as `updateOverhead` says |
| Budgets.Budget.AddCategory | src/modules/Line.js:777-783 | the categories change in place as `addCategory` says |
| Budgets.Budget.Update | src/modules/Line.js:803-811 | `update` throws exactly for a getter-only key and stores the updated data |
| Budgets.Budget.Set | src/modules/Line.js:96-157 | one property assignment on a line: a getter-only key throws and changes nothing |
| Fx.Code | src/modules/fx.js:130-131 | a missing code becomes the default currency, upper-cased |
| Fx.ConvertOutcomes | src/modules/fx.js:129-146 | `convert` returns the amount for the same code, `amount * rate` for a direct rate, and NaN otherwise |
| Fx.ConvertUsesSourceTable | src/modules/fx.js:135-138 | only the source base's table matters: no cross rate |
| Fx.ConvertDefaults | src/modules/fx.js:130-131 | an empty code means the default currency, and case does not matter |
| Fx.FetchedTable | src/modules/fx.js:86-89 | a stored table holds the self-rate 1; it is valid for exactly 24 hours |
| Fx.Rates.constructor | src/modules/fx.js:23-37 | the rate state starts from the loaded cache, with nothing in flight and no requests sent |
| Fx.Rates.BeginFetch | src/modules/fx.js:76-80 | `fetchRatesForBase` returns `null` at once for a base in flight; otherwise it marks the base and sends one request |
| Fx.Rates.CompleteFetch | src/modules/fx.js:81-104 | a response is stored stamped `now`, with the self-rate added, and returned; a failure stores nothing and gives `null`; either way the base is no longer in flight |
| Fx.Rates.Convert | src/modules/fx.js:129-146 | `convert` returns the value above; a fetch of the source base starts exactly when the rate is missing, its cache is not valid and it is not in flight |
| Excel.RowKeyInjective | src/modules/excel.js:147-157 | distinct lines have distinct row-map keys |
| Excel.Collect | src/modules/excel.js:102-118 | `collectLines` lists the line first, flagged as root exactly at the root |
| Excel.CollectLines | src/modules/excel.js:102-118 | the pushing recursion computes the collection |
| Excel.CollectOrder | src/modules/excel.js:111-115 | the lines are collected in document order |
| Excel.CollectIsPreOrder | src/modules/excel.js:120 | all lines in pre-order, root first |
| Excel.CollectFields | src/modules/excel.js:102-118 | each entry records its line, its parent key, and the root flag |
| Excel.AllLinesDistinct | src/modules/excel.js:120 | no line is collected twice |
| Excel.FirstPass | src/modules/excel.js:123-160 | the first pass writes one row per line and builds the row map |
| Excel.FoldEntry | src/modules/excel.js:147-157 | a line's row-map entry holds its row and the rows registered under it afterwards |
| Excel.FoldKeys | src/modules/excel.js:147-152 | the row map holds exactly the collected lines |
| Excel.PlanLine | src/modules/excel.js:123-160 | line i of the pre-order gets row i+2, and `childRows` lists its children's rows in child order |
| Excel.PlanKeys | src/modules/excel.js:147-152 | every line of the tree, and nothing else, has a row-map entry |
| Excel.LaterRows | src/modules/excel.js:155-157 | the rows registered with a line are exactly its children's rows |
| Excel.TotalRefs | src/modules/excel.js:180 | one `H{row}` reference per child row, in order |
| Excel.SecondPass | src/modules/excel.js:163-235 | the second pass finishes each row from its row-map entry |
| Excel.ExportPlan | src/modules/excel.js:120-256 | the two passes produce the sheet, and the grand total references the root's row, H2 |
| Excel.SheetAt | src/modules/excel.js:163-235 | each sheet row is the first-pass row finished with its entry |
| Excel.SheetLine | src/modules/excel.js:131-201 | a parent's row totals `SUM` over its children's H cells, with its cost fields blank; a leaf's row computes `C*E` and `F*G` on its own row, with quantity and rate defaulting to 0 and frequency to 1 |
| Excel.Sanitize | src/modules/excel.js:292 | every character that is not a letter or digit becomes `_` |
| Excel.Collapse | src/modules/excel.js:293 | collapsing runs of `_` keeps the first character |
| Excel.CollapseNoDouble | src/modules/excel.js:293 | after collapsing, no two `_` are adjacent |
| Excel.CollapseLetters | src/modules/excel.js:293 | collapsing keeps every letter and digit, in order |
| Excel.CollapseKeeps | src/modules/excel.js:293 | collapsing a string without adjacent `_` leaves it as it is |
| Excel.CollapseConcat | src/modules/excel.js:293 | collapsing a concatenation whose split does not fall inside a run of `_` collapses each part on its own |
| Excel.CollapseRunHead | src/modules/excel.js:293 | a run of one or more `_` at the front becomes a single `_` |
| Excel.CollapseRun | src/modules/excel.js:293 | a whole run of one or more `_` between two parts becomes exactly one `_`, so `a__b` gives `a_b` |
| Excel.CollapseRuns | src/modules/excel.js:293 | for every whole run of `_` in a string, the collapse is the collapsed text before it, one `_`, and the collapsed text after it |
| Excel.SanitizeLetters | src/modules/excel.js:292 | sanitising keeps exactly the letters and digits, in order |
| Excel.StemShape | src/modules/excel.js:291-293 | the stem (default `Budget`) has only letters, digits and single `_`; it keeps the title's letters and digits in order; it is not empty, no longer than the title, and is its own stem; each whole run of `_` in the sanitized title leaves exactly one `_`, with the text on either side collapsed on its own |
| Dom.ColumnToLetter | src/modules/dom.js:32-40 | the while loop computes the column letters |
| Dom.LettersShape | src/modules/dom.js:34-36 | the result is empty exactly for columns of 0 or less, and every letter is in A..Z |
| Dom.LettersRoundTrip | src/modules/dom.js:32-40 | reading the letters as bijective base 26 gives back the column |
| Dom.ValueRoundTrip | src/modules/dom.js:32-40 | every string of capital letters is the letters of its own column |
| Dom.GroupingDigits | src/modules/dom.js:45 | the regular expression puts a comma before every group of three digits counted from the right |
| Dom.AddCommasInteger | src/modules/dom.js:45 | a minus sign is left in front of the grouped digits |
| Dom.GroupingOnlyInserts | src/modules/dom.js:45 | grouping only inserts commas |
| Dom.FormatFixedParts | src/modules/dom.js:44-46 | only the integer part is grouped; the fraction is kept |
| Dom.FormatNShape | src/modules/dom.js:42-48 | a truthy number shows as sign, grouped digits, then the unchanged fraction; a falsy number shows `if0`, or 0 without it |
| Dom.TagName | src/modules/dom.js:10 | the element name is the text before the first `#`, `.` or `\|`, or `div` when that is empty |
| Dom.TagId | src/modules/dom.js:11 | an id is set exactly when some text follows the first `#` before the next `#` (`a##b` sets none); the id is the text after the first `#` up to the next `#`, `.` or `\|` |
| Dom.TagClasses | src/modules/dom.js:12 | classes are added exactly when some text follows the first `.` before the next `.` (`a..b` adds none); they are the `.`-separated names of the text after the first `.`, up to the first `\|` |
| Dom.TagAttributes | src/modules/dom.js:13-16 | attributes are set exactly when some text follows the first `\|` before the next `\|` (`a\|\|x=1` sets none); then one attribute per `\|`-segment after the first `\|`: the name before its first `=`, and the value between its first and second `=`, missing without `=` |
| Legacy.CodeOf | app.js:58-59 | a code is upper-cased and an empty code is the default currency |
| Legacy.Convert | app.js:57-66 | the same code returns the amount; both tables present give `amount * rates[from][to]`; otherwise the `'No rates found for '` message (`Message`) for the missing code: `from` when its table is missing and `to` otherwise |
| Legacy.CodesAgree | app.js:58-59 | the legacy code normalisation agrees with the module's |
| Legacy.ConvertAgreesWithModules | app.js:57-66 | when the legacy `convert` yields a number, it is the module `convert` over the same rates |
| Legacy.CurrencyOf | app.js:232-235 | the currency getter yields one to three characters, none an ASCII lower-case letter (under the ASCII case mapping) |
| Legacy.Create | app.js:170-178 | the constructor copies the options and defaults an empty currency, keeping the shown currency |
| Legacy.Cost | app.js:334-338 | `cost` is defined exactly when unit, frequency and unit cost are all truthy; it is their product and is never 0 |
| Legacy.Share | app.js:344-347 | a child thrown makes the parent throw; a child in the parent's currency adds its own total |
| Legacy.Total | app.js:340-353 | the summing loop computes the legacy total |
| Legacy.KidsSum | app.js:343-348 | the loop over the children computes the running total after the last child, ending at once when a child's total throws |
| Legacy.KidsTotalThrows | app.js:342-348 | the loop throws exactly when some child's converted total throws |
| Legacy.MissingRatesThrow | app.js:340-353 | a child whose total throws, or whose currency has no rate table, makes `total` throw: a string is added to a number and `toFixed` then fails |
| Legacy.TotalOneCurrency | app.js:340-349 | a tree in one currency totals the sum of its leaves' costs |
| Legacy.KidsOneCurrency | app.js:342-348 | in one currency, the children's loop sums their leaf costs |
| Legacy.SumConcat | app.js:342-348 | the sum of two lists of leaf costs is the sum of the sums |
| Legacy.Inherit | app.js:377-380 | the child gets the option's truthy unit, frequency and unit cost, else the receiver's, else 1, 1 and 0 |
| Legacy.Cleared | app.js:382-385 | the receiver loses its unit, frequency and unit cost, so it has no cost; title and currency are kept |
| Legacy.AddResult | app.js:374-402 | `add` attaches the new line where it fits, or throws |
| Legacy.AddLeavesOthers | app.js:374-402 | `add` leaves a line unchanged where it was when it is neither above, at nor below the receiver, and neither above, at nor below the line that receives the new child |
| Legacy.AddInherits | app.js:374-402 | after `add`, the receiver is cleared and the new leaf holds the inherited values |
| Legacy.AddOwnChild | app.js:388-402 | an index of 0 or a string without `.` attaches the new line under the receiver |
| Legacy.AddIndex | app.js:417-423 | the index `move` passes on to `add` is 0 for `addAsChild`, otherwise the last segment |
| Legacy.MoveResult | app.js:415-426 | `move` ends as unresolved, changing nothing, exactly when the new parent does not resolve from the root; a line that is re-added went under the line the index named, which lies outside the moved line, and the moved line is not the root |
| Legacy.RemoveKeeps | app.js:406-413 | removing a line keeps every line outside its subtree, with the later siblings' positions shifted by one |
| Legacy.MoveThrows | app.js:415-426 | `move` throws exactly when the parent index throws in `getLine`, or when it moves the root |
| Legacy.MoveDropsDescendants | app.js:415-426 | after `move`, the new parent is cleared and has the moved line as a new leaf, without its children, with inherited values |
| Legacy.MoveIntoItself | app.js:415-426 | moving a line under itself or one of its descendants removes it from the tree |
| Legacy.GetLineCases | app.js:454-468 | `getLine` of a falsy index is the receiver; a number picks that child or gives `false`; a segment without dots is a single hop |
| Legacy.Budget.constructor | app.js:170-178 | a new legacy budget is one line without children |
| Legacy.Budget.Add | app.js:374-402 | `add` changes the tree in place as the add result says |
| Legacy.Budget.RemoveLine | app.js:406-413 | `removeLine` throws on the root and otherwise splices exactly that line out |
| Legacy.Budget.Move | app.js:415-426 | `move` changes the tree in place as the move result says |

## Left out

- The view code of `Line` is not modelled because it builds and updates the DOM: the `view` construction, event listeners, and the `viewAdd`, `viewRemove` and `viewUpdate` calls in mutating methods. The same goes for the element building of `n`.
- Logging is treated as having no effect, so `log` and `console` calls are omitted.
- Timestamps are not modelled. Reading the clock is the `now` parameter. The Excel filename's timestamp suffix and its `.xlsx` extension are not modelled; only the stem is.
- Network, async and persistence are not modelled: the HTTP call of `fetchRatesForBase`, `fetchCurrencies`, the prewarm functions, the re-render timers, `saveCache`/`loadCache` and localStorage. A fetch is split into its synchronous start and its completion, and the response is a parameter.
- The legacy `fetch`/`loadRates` are network code and are not modelled.
- Floating point is not modelled. Amounts are exact reals with NaN.
- Dom.FormatNShape: the `parseFloat(number).toFixed(showDecimals)` text is taken as an input string of digits, because rounding to decimals is floating-point formatting.
- Legacy.Total: does not model the `Number(total.toFixed(roundDecimals))` rounding. Its only modelled effect is the TypeError when the total is a string.
- `getDuration` divides a duration by floating constants and is not modelled. The `duration` getter is only a getter-only key (assigning it throws).
- `absLineNumber` is modelled only as a getter-only key; its value is not computed here. `levelName` is a getter-only key too, and its value is computed as `Lines.LevelName`, which the default title uses.
- The module's `recurse` (src/modules/Line.js:678-683) is a pre-order visitor that passes each line to a callback. It is not modelled, because the callback is arbitrary code outside the modelled core; `descendants` models the same order. The legacy `recurse` (app.js:428-433) is not modelled either: it calls an undefined global `recurse` with one argument.
- Queries.FirstMaxIsFirstMaximum: holds for real values only. With a NaN value the comparator of `getLast` (src/modules/Line.js:733-737) returns 0 against every value. It is then not a consistent order, and which line `sort` puts first depends on the engine. The model's scan makes a choice of its own for such input.
- Queries.LastMinIsLastMinimum: the same as `Queries.FirstMaxIsFirstMaximum`. It holds for real values only, and the line picked for NaN values is the model's own choice.
- `removeCategory` is not modelled because its body is empty.
- The JSON text mode of `exportToJSON` (`JSON.stringify`) is not modelled. Only the object form is.
- The ExcelJS sheets, styling, column widths, the `level` and colour cells, the currency cell, workbook writing and the download are not modelled. Only the row plan, the formulas and the filename stem are.
- Numeric indexes that are not integers, such as `1.5`, are not modelled. A NaN index is: it comes from `Number` on a bad segment.
- The options object `add` fills in is changed for its caller as well. The model returns the filled-in list but does not model the caller still holding it.
- A line that `add` pushes onto the receiver while its `parent` reports another line (the `Misplaced` outcome) is recorded as such. The later queries on that line (its `lineNumber` from `indexOf` of -1, its `index`) are not followed further.
- Legacy.MoveResult: an undefined `newIndex` without `addAsChild` throws on `toString` and is not modelled. The index is always a number or a string.
- Legacy.Create: the options are a fixed record of title, currency, unit, frequency and unit cost. Other keys and the getter-only keys of the legacy class are not modelled.
- Dom.TagClasses: an empty class name, as in `div..x`, makes `classList.add` throw in a browser. The model returns the empty name.
- Js.ToNumber: models `Number` on the grammar of an optional `-` followed by decimal digits, with the empty string giving 0. Other text gives NaN. This includes text that JavaScript still converts: surrounding white space, a leading `+`, a fraction or an exponent, `0x`/`0o`/`0b` numerals, and `Infinity`. In a dotted index such as `1. 2` the second segment is therefore NaN in the model, while JavaScript reads it as 2.
- Js.ToUpper: maps only the ASCII letters `a`-`z`; every other character is kept. The full Unicode case mapping is not modelled, neither the mappings that lengthen the text (`ß` gives `SS`) nor those outside ASCII (`ı` gives `I`).
- Lines.CurrencyOf: the bound of three characters assumes the ASCII case mapping of `Js.ToUpper`. In JavaScript, `toUpperCase` is applied after `substring(0, 3)` and can lengthen the text: `ßßß` gives `SSSSSS`.
- Legacy.CurrencyOf: the same as `Lines.CurrencyOf`. The bound of three characters assumes the ASCII case mapping.
- Lines.Update: an option with the own key `children` or `overhead` is not modelled. `update` assigns every own key, so such an option would replace the line's children array or its overhead list. The option lists of the model have no such keys.
- Lines.Construct: an `overhead` option is not modelled, although the constructor assigns it (only `children` is skipped). The option lists of the model have no such key, so a new line starts without overheads.
- The `Line` object identity is not modelled: references kept outside the tree, and a line held in two places. Lines are addressed by path.

## Findings

| source | as written | input that shows it | evidently intended | confidence | as-written member | corrected member |
|---|---|---|---|---|---|---|
| src/modules/Line.js:796-800 | `listCategory` calls itself on each child but drops the list the call returns, so only the receiver itself can ever be reported | a root without the category whose only child has it: the result is `[]` | every line in the subtree that carries the category is reported | high (found by proof, not executed) | Queries.ListCategoryAsWritten | Queries.ListCategory |
