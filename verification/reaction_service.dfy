/**
 The offline reaction resolver of services/reactionService.ts. It builds the
 key of the live reactant list, scans the table for the first entry with the
 same key and returns that entry's stored result; on a miss it returns one
 of two fixed results. The conditions text is accepted and never read.
 */
module ReactionService {
  import opened Types
  import opened ReactionKey
  import opened ReactionDatabase
  import Sorting
  import Lexicographic

  /** The fixed result for an empty reactant list (services/reactionService.ts:37-45). */
  const NoReactants: ReactionResult := ReactionResult(
    isReactionPossible := false,
    balancedEquation := "No Reactants",
    products := [],
    reactionType := "None",
    explanation := "Please add reactants to start a simulation.",
    visualObservation := "The lab is empty.",
    safetyWarning := "N/A")

  /** Entry `i` is the first entry of `table` whose key is `key`. */
  ghost predicate FirstMatch(table: seq<Entry>, key: string, i: int)
  {
    && 0 <= i < |table|
    && KeyOf(table[i].reactants) == key
    && forall j :: 0 <= j < i ==> KeyOf(table[j].reactants) != key
  }

  /** No entry of `table` has the key `key`. */
  ghost predicate NoMatch(table: seq<Entry>, key: string)
  {
    forall j :: 0 <= j < |table| ==> KeyOf(table[j].reactants) != key
  }

  /**
   `REACTION_DATABASE.find(reaction => dbKey === reactantKey)`, as the index of
   the entry found: the first entry with the key, or nothing when none has it.
   */
  function FindMatch(table: seq<Entry>, key: string): (r: Option<nat>)
    ensures r.Some? ==> FirstMatch(table, key, r.value)
    ensures r.None? ==> NoMatch(table, key)
  {
    if |table| == 0 then None
    else if KeyOf(table[0].reactants) == key then Some(0)
    else
      match FindMatch(table[1..], key)
      case Some(i) =>
        assert forall j :: 1 <= j < i + 1 ==> table[j] == table[1..][j - 1];
        Some(i + 1)
      case None =>
        assert forall j :: 1 <= j < |table| ==> table[j] == table[1..][j - 1];
        None
  }

  /**
   The decision of `performReaction` against a given table: the first matching
   entry's stored result, unchanged; the "not in database" result for a
   non-empty list that matches nothing; the "No Reactants" result for an empty
   list that matches nothing. It returns nothing else and has no error case.
   */
  function Resolve(table: seq<Entry>, reactants: seq<Reactant>): (r: ReactionResult)
    ensures forall i :: FirstMatch(table, CreateReactantKey(reactants), i) ==> r == table[i].result
    ensures NoMatch(table, CreateReactantKey(reactants)) ==>
              r == (if |reactants| > 0 then NoReactionFound else NoReactants)
    ensures r == NoReactionFound || r == NoReactants || exists i :: 0 <= i < |table| && r == table[i].result
  {
    match FindMatch(table, CreateReactantKey(reactants))
    case Some(i) => table[i].result
    case None => if |reactants| > 0 then NoReactionFound else NoReactants
  }

  /**
   `performReaction`: `Resolve` against the reaction table. No entry's key is
   empty, so the empty list always gets the "No Reactants" result. The
   conditions text is not read.
   */
  function PerformReaction(reactants: seq<Reactant>, conditions: string): (r: ReactionResult)
    ensures forall i :: FirstMatch(ReactionTable, CreateReactantKey(reactants), i) ==> r == ReactionTable[i].result
    ensures NoMatch(ReactionTable, CreateReactantKey(reactants)) && |reactants| > 0 ==> r == NoReactionFound
    ensures |reactants| == 0 ==> r == NoReactants
  {
    NoEntryKeyEmpty();
    Resolve(ReactionTable, reactants)
  }

  /** No two entries of `table` share a key. */
  predicate DistinctKeys(table: seq<Entry>)
  {
    forall i, j :: 0 <= i < j < |table| ==> KeyOf(table[i].reactants) != KeyOf(table[j].reactants)
  }

  /** Every entry of `table` lists only formulas that can be read back out of a key. */
  predicate SeparableEntries(table: seq<Entry>)
  {
    forall i :: 0 <= i < |table| ==> AllSeparable(table[i].reactants)
  }

  /**
   Against any table, the answer depends only on the multiset of formulas: not
   on the order of the list, nor on any reactant's name, id or amount.
   */
  lemma ResolveIgnoresArrangement(table: seq<Entry>, rs: seq<Reactant>, ts: seq<Reactant>)
    requires multiset(Formulas(rs)) == multiset(Formulas(ts))
    ensures Resolve(table, rs) == Resolve(table, ts)
  {
    ReactantKeyPermutationInvariant(rs, ts);
    assert |rs| == |multiset(Formulas(rs))| == |multiset(Formulas(ts))| == |ts|;
  }

  /**
   In a table whose keys are distinct, any arrangement of an entry's formulas
   resolves to exactly that entry's stored result.
   */
  lemma ResolveFindsEntry(table: seq<Entry>, i: nat, rs: seq<Reactant>)
    requires i < |table| && DistinctKeys(table)
    requires multiset(Formulas(rs)) == multiset(table[i].reactants)
    ensures Resolve(table, rs) == table[i].result
  {
    Sorting.SortPermutationInvariant(Formulas(rs), table[i].reactants);
    assert FirstMatch(table, CreateReactantKey(rs), i);
  }

  /**
   A list of separable formulas that arranges no entry's formulas gets one of
   the two fixed results, chosen by whether the list is empty.
   */
  lemma ResolveMisses(table: seq<Entry>, rs: seq<Reactant>)
    requires AllSeparable(Formulas(rs)) && SeparableEntries(table)
    requires forall i :: 0 <= i < |table| ==> multiset(Formulas(rs)) != multiset(table[i].reactants)
    ensures Resolve(table, rs) == (if |rs| > 0 then NoReactionFound else NoReactants)
  {
    forall j | 0 <= j < |table| ensures KeyOf(table[j].reactants) != CreateReactantKey(rs) {
      KeyEqualIffSameFormulas(Formulas(rs), table[j].reactants);
    }
  }

  /**
   When every stored result reports a possible reaction, the answer reports one
   exactly when the list arranges some entry's formulas.
   */
  lemma ResolvePossibleIff(table: seq<Entry>, rs: seq<Reactant>)
    requires AllSeparable(Formulas(rs)) && SeparableEntries(table) && DistinctKeys(table)
    requires forall i :: 0 <= i < |table| ==> table[i].result.isReactionPossible
    ensures Resolve(table, rs).isReactionPossible <==>
              exists i :: 0 <= i < |table| && multiset(Formulas(rs)) == multiset(table[i].reactants)
  {
    if exists i :: 0 <= i < |table| && multiset(Formulas(rs)) == multiset(table[i].reactants) {
      var i :| 0 <= i < |table| && multiset(Formulas(rs)) == multiset(table[i].reactants);
      ResolveFindsEntry(table, i, rs);
    } else {
      ResolveMisses(table, rs);
    }
  }

  /**
   The result depends only on the multiset of formulas: not on the order of the
   list, on any reactant's name, id or amount, nor on the conditions text.
   */
  lemma ResultDependsOnlyOnFormulas(rs: seq<Reactant>, ts: seq<Reactant>, c1: string, c2: string)
    requires multiset(Formulas(rs)) == multiset(Formulas(ts))
    ensures PerformReaction(rs, c1) == PerformReaction(ts, c2)
  {
    ResolveIgnoresArrangement(ReactionTable, rs, ts);
  }

  /**
   Resolving any arrangement of an entry's formulas, with any names, ids,
   amounts and conditions, returns exactly that entry's stored result.
   */
  lemma ResolvesEveryEntry(i: nat, rs: seq<Reactant>, conditions: string)
    requires i < |ReactionTable|
    requires multiset(Formulas(rs)) == multiset(ReactionTable[i].reactants)
    ensures PerformReaction(rs, conditions) == ReactionTable[i].result
  {
    EntryKeysDistinct();
    ResolveFindsEntry(ReactionTable, i, rs);
  }

  /**
   A list of separable formulas that is no arrangement of any entry's formulas
   resolves to the fixed "not in database" result when non-empty.
   */
  lemma UnknownCombinationNotFound(rs: seq<Reactant>, conditions: string)
    requires |rs| > 0 && AllSeparable(Formulas(rs))
    requires forall i :: 0 <= i < |ReactionTable| ==> multiset(Formulas(rs)) != multiset(ReactionTable[i].reactants)
    ensures PerformReaction(rs, conditions) == NoReactionFound
  {
    EntriesWellFormed();
    ResolveMisses(ReactionTable, rs);
  }

  /**
   For separable formulas, the resolver reports a possible reaction exactly
   when the list is an arrangement of some entry's formulas.
   */
  lemma PossibleIffKnownCombination(rs: seq<Reactant>, conditions: string)
    requires AllSeparable(Formulas(rs))
    ensures PerformReaction(rs, conditions).isReactionPossible <==>
              exists i :: 0 <= i < |ReactionTable| && multiset(Formulas(rs)) == multiset(ReactionTable[i].reactants)
  {
    EntriesWellFormed();
    EntryKeysDistinct();
    ResolvePossibleIff(ReactionTable, rs);
  }

  /** `[HCl, NaOH]` in either order gives the neutralisation to sodium chloride and water. */
  lemma NeutralizationExample(x: Reactant, y: Reactant, conditions: string)
    requires x.formula == "HCl" && y.formula == "NaOH"
    ensures PerformReaction([x, y], conditions) == PerformReaction([y, x], conditions)
    ensures PerformReaction([x, y], conditions).isReactionPossible
    ensures PerformReaction([x, y], conditions).balancedEquation == "HCl(aq) + NaOH(aq) → NaCl(aq) + H₂O(l)"
    ensures PerformReaction([x, y], conditions).reactionType == "Acid-Base Neutralization"
  {
    assert Formulas([x, y]) == ["HCl", "NaOH"];
    assert Formulas([y, x]) == ["NaOH", "HCl"];
    assert multiset(["NaOH", "HCl"]) == multiset(["HCl", "NaOH"]);
    ResolvesEveryEntry(0, [x, y], conditions);
    ResolvesEveryEntry(0, [y, x], conditions);
  }

  /** `[Fe, O₂]` is in no entry: it resolves to the fixed "not in database" result. */
  lemma IronOxygenExample(x: Reactant, y: Reactant, conditions: string)
    requires x.formula == "Fe" && y.formula == "O₂"
    ensures PerformReaction([x, y], conditions) == NoReactionFound
    ensures !PerformReaction([x, y], conditions).isReactionPossible
    ensures PerformReaction([x, y], conditions).balancedEquation == "Reaction Not in Database"
  {
    assert Formulas([x, y]) == ["Fe", "O₂"];
    assert KeyOf(["Fe", "O₂"]) == "Fe-O₂" by {
      assert Lexicographic.Below("Fe", "O₂");
    }
    assert "Fe-O₂" !in EntryKeys;
    MatchIffSpelledKey("Fe-O₂");
  }

  /** A key matches some entry exactly when it is one of the spelled-out entry keys. */
  lemma MatchIffSpelledKey(key: string)
    ensures NoMatch(ReactionTable, key) <==> key !in EntryKeys
  {
    EntryKeysComputed();
  }

  /** The empty list resolves to the fixed "No Reactants" result. */
  lemma EmptyListExample(conditions: string)
    ensures PerformReaction([], conditions) == NoReactants
    ensures !PerformReaction([], conditions).isReactionPossible
    ensures PerformReaction([], conditions).products == []
    ensures PerformReaction([], conditions).balancedEquation == "No Reactants"
  {
  }
}
