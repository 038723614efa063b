# ChemCraft offline reaction resolver, in Dafny

ChemCraft is a browser chemistry lab. The user picks up to four chemicals from a
fixed catalog, sets a relative amount for each and types free-text conditions.
The offline resolver then looks the combination up in a static reaction table.
It builds an order-independent key from the reactant formulas: the formulas are
sorted lexicographically and joined with `-`. The key of every table entry is
built the same way. The resolver returns the stored result of the first entry
whose key matches. On a miss it returns one of two fixed results: "Reaction Not
in Database" for a non-empty list, and "No Reactants" for an empty one.

This project models that resolver, the reaction table, the chemical catalog and
the three reactant-list rules of the experiment panel (`addReactant`,
`removeReactant`, `updateReactantAmount`). It proves what the resolver promises:

- the key forgets order, names, ids and amounts;
- two lists of catalog formulas have the same key exactly when they hold the same formulas, counted with multiplicity;
- every table entry is found from any arrangement of its formulas;
- every other non-empty list of non-empty, `-`-free formulas (every catalog formula is one) gets the miss result;
- the panel keeps its invariant of at most four reactants with distinct formulas.

Modules, one per file:

| file | module | models |
|---|---|---|
| types.dfy | `Types` | the data shapes of types.ts |
| lexicographic.dfy | `Lexicographic` | the string order used by `Array.prototype.sort` |
| sorting.dfy | `Sorting` | sorting a formula list; uniqueness of the sorted permutation |
| reaction_key.dfy | `ReactionKey` | `createReactantKey`, joining with `-`, and its inverse |
| catalog.dfy | `Catalog` | `AVAILABLE_CHEMICALS` and the lookup by formula |
| database.dfy | `ReactionDatabase` | `REACTION_DATABASE` and `NO_REACTION_FOUND` |
| reaction_service.dfy | `ReactionService` | `performReaction` |
| input_panel.dfy | `InputPanel` | `addReactant`, `removeReactant`, `updateReactantAmount` |
| coverage.dfy | `Coverage` | which table entries the panel can reach, and what it gets back |

Modelling choices:

- **Sort order.** JavaScript's default sort compares UTF-16 code units. Every character in the catalog and the table is in the Basic Multilingual Plane, so this is the order of Dafny `char`s. The sort is modelled as insertion sort. `Sorting.SortedUnique` shows that a list has only one sorted permutation, so any correct sort gives the same key, stable or not.
- **The table.** The 18 entries and both fixed results are copied field for field, prose included. Facts about the table are proved by computation in small groups of entries. `EntryKeys` and `EntryIds` spell out the computed keys and ids, and lemmas check them against the table.
- **Key injectivity.** Joining with `-` loses information only for an empty formula or a formula that contains `-`. `ReactionKey.SeparatorCollisions` shows both collisions. No catalog or table formula has either defect (`Catalog.CatalogFormulasSeparable`, `ReactionDatabase.EntriesWellFormed`).
- **The panel's catalog.** `AddReactant` takes the chemical list it searches as a parameter. The panel passes `AvailableChemicals`. The id of a new reactant comes from the clock in the source; here it is a parameter too.
- **Amounts** are unbounded integers. The slider only produces 1..10, but `updateReactantAmount` does not check this.

Two properties of the code worth stating plainly:

- The comment above `createReactantKey` calls the key "unique". The code keeps repeated formulas, so `[HCl, HCl]` has key `HCl-HCl`, which differs from the key of `[HCl]` (`ReactionKey.KeyKeepsMultiplicity`).
- The lookup is a first-match scan of the table in order (`ReactionService.FindMatch`). The table keys are pairwise distinct (`ReactionDatabase.EntryKeysDistinct`), so at most one entry can match any list.

## Model

| member | source | states |
|---|---|---|
| Types.Formulas | services/reactionService.ts:6 | the formula list has one formula per reactant, in list order |
| Lexicographic.NotAboveTotalOrder | services/reactionService.ts:6 | the order the sort uses is reflexive, antisymmetric, transitive and total on strings |
| Lexicographic.BelowTransitive | services/reactionService.ts:6 | strict lexicographic order is transitive |
| Lexicographic.BelowTotal | services/reactionService.ts:6 | any two different strings are ordered one way or the other |
| Sorting.Insert | services/reactionService.ts:6 | no contract of its own; specified by `Sorting.InsertSpec` |
| Sorting.Sort | services/reactionService.ts:6 | `.sort()` on formulas; no contract of its own; specified by `Sorting.SortSpec` and `Sorting.SortedUnique` |
| Sorting.InsertSpec | services/reactionService.ts:6 | inserting into a sorted list keeps it sorted and adds exactly one copy of the element |
| Sorting.SortSpec | services/reactionService.ts:6 | the sorted list is sorted and is a permutation of the input, of the same length |
| Sorting.SortedUnique | services/reactionService.ts:6 | two sorted lists with the same elements, counted with multiplicity, are equal, so every correct sort gives the same result |
| Sorting.SortPermutationInvariant | services/reactionService.ts:6 | permutations of one list sort to the same list |
| Sorting.SortIdentityOnSorted | services/reactionService.ts:6 | a sorted list is left as it is |
| ReactionKey.Join | services/reactionService.ts:6 | `.join('-')`; no contract of its own; specified by `ReactionKey.SplitJoin`, `ReactionKey.JoinInjective` and `ReactionKey.JoinEmptyIff` |
| ReactionKey.KeyOf | services/reactionService.ts:20 | the key of an entry's formula list; no contract of its own; specified by `ReactionKey.KeyEqualIffSameFormulas` and `ReactionKey.KeyEmptyIff` |
| ReactionKey.CreateReactantKey | services/reactionService.ts:5-7 | `createReactantKey`; no contract of its own; specified by `ReactionKey.KeyEqualIffSameFormulas` and `ReactionKey.ReactantKeyPermutationInvariant` |
| ReactionKey.JoinShape | services/reactionService.ts:6 | helper for `SplitJoin`: `Join`'s recursive definition restated with indices (the first element, then `-` and the join of the rest) |
| ReactionKey.FieldEnd | services/reactionService.ts:6 | the first field of a key ends at its first `-`, or at its end when there is none |
| ReactionKey.SplitJoin | services/reactionService.ts:6 | splitting the join of non-empty, `-`-free strings gives the list back |
| ReactionKey.JoinInjective | services/reactionService.ts:6 | two lists of non-empty, `-`-free strings with equal joins are equal |
| ReactionKey.JoinEmptyIff | services/reactionService.ts:6 | over such strings, only the empty list joins to the empty string |
| ReactionKey.KeyEmptyIff | services/reactionService.ts:5-7 | over such formulas, the key is empty exactly for the empty list |
| ReactionKey.KeyEqualIffSameFormulas | services/reactionService.ts:5-21 | two formula lists have equal keys if and only if they hold the same formulas with the same multiplicities |
| ReactionKey.ReactantKeyPermutationInvariant | services/reactionService.ts:5-7 | the key depends only on the multiset of formulas: not on order, names, ids or amounts |
| ReactionKey.ReactantKeySwap | services/reactionService.ts:5-7 | reversing a two-reactant list keeps its key |
| ReactionKey.SeparatorCollisions | services/reactionService.ts:6 | a formula containing `-` collides with the two formulas it spells, and `[""]` collides with `[]` |
| ReactionKey.KeyKeepsMultiplicity | services/reactionService.ts:6 | a repeated formula stays repeated in the key |
| Catalog.AvailableChemicals | constants.ts:3-57 | the catalog, group by group in source order; its properties are `Catalog.CatalogFormulasDistinct`, `Catalog.CatalogFormulasSeparable` and `Catalog.GroupMembersInCatalog` |
| Catalog.FindChemical | constants.ts:3-57 | the lookup returns the first chemical with the formula, and nothing exactly when no chemical has it |
| Catalog.CatalogFormulasDistinct | constants.ts:3-57 | no two catalog chemicals share a formula |
| Catalog.LookupExact | constants.ts:3-57 | looking up a formula returns the one catalog chemical with that formula, and nothing exactly when the formula is not offered |
| Catalog.LookupUnique | constants.ts:3-57 | in any chemical list whose formulas are distinct, the lookup finds exactly the chemical carrying the formula, and nothing exactly when no chemical carries it |
| Catalog.CatalogFormulasSeparable | constants.ts:3-57 | every catalog formula is non-empty and free of `-` |
| Catalog.InCatalogSeparable | constants.ts:3-57 | every formula the catalog offers can be read back out of a key |
| Catalog.DefaultSelection | components/InputPanel.tsx:26 | the initial selection, the first catalog formula, is `HCl`, and looking it up finds Hydrochloric Acid |
| Catalog.GroupMembersInCatalog | constants.ts:4-56 | every chemical of every group is offered by the catalog |
| Catalog.CatalogListsCompounds | constants.ts:5-14 | the acids and the base the table uses are offered |
| Catalog.CatalogListsSalts | constants.ts:21-31 | the salts the table uses are offered |
| Catalog.CatalogListsElementsAndOrganics | constants.ts:34-55 | the metals, non-metals and organics the table uses are offered |
| ReactionDatabase.ReactionTable | services/reactionDatabase.ts:9-263 | the 18 entries in source order; their properties are `ReactionDatabase.EntriesWellFormed`, `ReactionDatabase.EntryKeysDistinct` and `ReactionDatabase.EntryIdsDistinct` |
| ReactionDatabase.NoReactionFound | services/reactionDatabase.ts:265-273 | the fixed miss result; its fields are stated by `ReactionDatabase.NoReactionFoundFields` |
| ReactionDatabase.EntriesWellFormed | services/reactionDatabase.ts:9-263 | the table has 18 entries; each has one or two distinct, non-empty, `-`-free formulas and a positive result with at least one product |
| ReactionDatabase.EntryIdsDistinct | services/reactionDatabase.ts:4-263 | entry ids are pairwise distinct |
| ReactionDatabase.EntryKeysComputed | services/reactionDatabase.ts:9-263 | the key of each entry is the spelled-out key in `EntryKeys` |
| ReactionDatabase.EntryKeysDistinct | services/reactionDatabase.ts:9-263 | no two entries share a key, so the first-match scan has at most one candidate |
| ReactionDatabase.NoEntryKeyEmpty | services/reactionDatabase.ts:9-263 | no entry has the empty key |
| ReactionDatabase.SingleReactantEntry | services/reactionDatabase.ts:221-222 | the hydrogen-peroxide entry is the only one with a single formula; all others have two |
| ReactionDatabase.NoReactionFoundFields | services/reactionDatabase.ts:265-273 | the miss result reports no reaction, no products, type "None" and equation "Reaction Not in Database" |
| ReactionService.NoReactants | services/reactionService.ts:37-45 | the fixed empty-list result; stated by `ReactionService.EmptyListExample` |
| ReactionService.FindMatch | services/reactionService.ts:18-22 | the scan returns the first entry whose key equals the given key, or nothing when no entry has it |
| ReactionService.Resolve | services/reactionService.ts:16-45 | the first match's stored result is returned unchanged; on a miss, the fixed result chosen by whether the list is empty; nothing else is ever returned |
| ReactionService.PerformReaction | services/reactionService.ts:15-45 | against the reaction table: the first match's result, the miss result for a non-empty list that matches nothing, and "No Reactants" for the empty list |
| ReactionService.ResolveIgnoresArrangement | services/reactionService.ts:5-29 | against any table, lists with the same formula multiset get the same answer |
| ReactionService.ResolveFindsEntry | services/reactionService.ts:16-29 | in any table with distinct keys, any arrangement of an entry's formulas resolves to exactly that entry's stored result |
| ReactionService.ResolveMisses | services/reactionService.ts:31-45 | with separable formulas, a list that arranges no entry's formulas gets "not in database" when non-empty and "No Reactants" when empty |
| ReactionService.ResolvePossibleIff | services/reactionService.ts:16-45 | when every stored result reports a reaction, the answer reports one if and only if the list arranges some entry's formulas |
| ReactionService.ResultDependsOnlyOnFormulas | services/reactionService.ts:12-29 | lists with the same formula multiset get identical results, whatever their order, names, ids, amounts or conditions |
| ReactionService.ResolvesEveryEntry | services/reactionService.ts:18-29 | any arrangement of an entry's formulas resolves to exactly that entry's stored result |
| ReactionService.UnknownCombinationNotFound | services/reactionService.ts:32-34 | a non-empty list of well-formed formulas that arranges no entry's formulas gets the miss result |
| ReactionService.PossibleIffKnownCombination | services/reactionService.ts:16-45 | for well-formed formulas, a reaction is reported possible if and only if the list arranges some entry's formulas |
| ReactionService.MatchIffSpelledKey | services/reactionService.ts:18-22 | a key matches no entry exactly when it is not one of the spelled-out entry keys |
| ReactionService.NeutralizationExample | services/reactionDatabase.ts:11-23 | `[HCl, NaOH]` and `[NaOH, HCl]` both give the neutralisation to sodium chloride and water |
| ReactionService.IronOxygenExample | services/reactionService.ts:32-34 | `[Fe, O₂]` gets the miss result, with no reaction possible |
| ReactionService.EmptyListExample | services/reactionService.ts:37-45 | the empty list gets "No Reactants", with no reaction and no products |
| InputPanel.AddReactant | components/InputPanel.tsx:28-34 | a full list, an unknown formula or a formula already present leaves the list unchanged; otherwise exactly one reactant is appended, with the catalog name, the formula, the fresh id and amount 5 |
| InputPanel.RemoveReactant | components/InputPanel.tsx:36-38 | exactly the reactants with the id are dropped: the rest keep their multiplicities |
| InputPanel.RemoveDistributes | components/InputPanel.tsx:37 | removal works piece by piece on a concatenation, so survivors keep their order |
| InputPanel.UpdateReactantAmount | components/InputPanel.tsx:40-42 | length, order, names, formulas and ids are kept; the amount changes to the new value exactly where the id matches |
| InputPanel.AddPreservesInvariant | components/InputPanel.tsx:28-34 | adding keeps at most four reactants with distinct formulas, all offered by the catalog, with amounts in the slider range |
| InputPanel.RemovePreservesInvariant | components/InputPanel.tsx:36-38 | removal keeps the same three properties |
| InputPanel.RemoveKeepsFormulasUnique | components/InputPanel.tsx:37 | removal keeps formulas pairwise distinct |
| InputPanel.UpdatePreservesInvariant | components/InputPanel.tsx:40-42 | amount edits keep the invariant and catalog origin, and keep amounts in 1..10 when the new amount is in 1..10 |
| InputPanel.AddThenRemove | components/InputPanel.tsx:28-38 | removing a just-added reactant by its fresh id gives the old list back |
| InputPanel.RemoveAbsentId | components/InputPanel.tsx:37 | removing an id no reactant carries changes nothing |
| InputPanel.UpdateOverwrites | components/InputPanel.tsx:41 | of two edits to the same id, the last one wins |
| InputPanel.UpdateSameAmount | components/InputPanel.tsx:41 | setting an amount to the value it already has changes nothing |
| InputPanel.AddedFormulas | components/InputPanel.tsx:31-32 | an accepted addition appends exactly the selected formula to the list's formulas |
| InputPanel.AddTwoDistinct | components/InputPanel.tsx:28-34 | two different offered formulas added in turn to the empty list are both accepted, in order |
| InputPanel.FromCatalogSeparable | components/InputPanel.tsx:30-31 | a list built from the catalog has only non-empty, `-`-free formulas |
| InputPanel.FullListRefusesAdd | components/InputPanel.tsx:29 | a list of four or more reactants refuses every addition |
| InputPanel.DuplicateFormulaRefused | components/InputPanel.tsx:31 | a formula already in the list is refused |
| Coverage.PairEntriesUseCatalogFormulas | services/reactionDatabase.ts:9-263 | every formula of every two-reactant entry is offered by the catalog |
| Coverage.PeroxideNotInCatalog | services/reactionDatabase.ts:222 | `H₂O₂` is not offered by the catalog |
| Coverage.DecompositionUnreachable | services/reactionDatabase.ts:220-232 | no list built from the catalog has the hydrogen-peroxide entry's formulas or key |
| Coverage.SessionResolutionIff | services/reactionService.ts:16-45 | for a list built from the catalog, a reaction is reported possible if and only if the list arranges the two formulas of some two-reactant entry |
| Coverage.PairEntriesReachable | components/InputPanel.tsx:28-34 | adding a two-reactant entry's formulas to the empty panel gives a two-reactant list that resolves to that entry's result |
| Coverage.AddedPairResolves | components/InputPanel.tsx:28-34 | in any table with distinct keys, adding an entry's two different, offered formulas to the empty panel gives a two-reactant list that resolves to that entry's result |
| Coverage.AmountEditKeepsResult | components/InputPanel.tsx:40-42 | editing an amount never changes the resolver's answer |
| Coverage.AmountEditKeepsAnswer | components/InputPanel.tsx:40-42 | against any table, editing an amount never changes the answer |

## Left out

- The network inference backend in services/geminiService.ts is not part of this model. Its behaviour is an opaque external call. App.tsx wires that backend, not the offline resolver, into the run button.
- App.tsx is not part of this model: async React state, the loading flag, error display and reset.
- The rendering components (Header, ResultsPanel, VisualizationPanel, and the markup of InputPanel) are not modelled. They only display state.
- The 500 ms delay before `performReaction` returns is left out. It does not affect the result.
- `performReaction` returns a Promise in the source; the model returns the value directly.
- `Date.now().toString()` ids are a parameter of `AddReactant`. The source does not guarantee that they are unique, so lemmas that need a fresh id ask for it (`InputPanel.AddThenRemove`).
- InputPanel.UpdateReactantAmount: amounts are unbounded integers. `parseInt` results such as `NaN` and non-integer JavaScript numbers are not modelled.
- Strings with characters outside the Basic Multilingual Plane are not modelled. The JavaScript sort compares them by UTF-16 code unit, which can differ from code-point order. The catalog and the table use none.
- The `conditions` text, the selected-chemical state and the panel's disabled button are not modelled beyond what the lemmas state: conditions are accepted and never read.
