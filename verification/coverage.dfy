/**
 How the catalog, the experiment panel and the reaction table fit together:
 which table entries a user can reach by adding catalog chemicals, and what
 the resolver answers for any list the panel can build.
 */
module Coverage {
  import opened Types
  import opened ReactionKey
  import opened Catalog
  import opened ReactionDatabase
  import opened ReactionService
  import opened InputPanel

  /** The formulas the table's two-reactant entries are made of, by catalog group. */
  predicate PairCompound(f: Formula)
  {
    f == "HCl" || f == "H₂SO₄" || f == "HNO₃" || f == "CH₃COOH" || f == "NaOH"
  }

  predicate PairSalt(f: Formula)
  {
    f == "NaCl" || f == "AgNO₃" || f == "Pb(NO₃)₂" || f == "KMnO₄" || f == "KI" || f == "CaCO₃"
  }

  predicate PairElementOrOrganic(f: Formula)
  {
    || f == "Na" || f == "Zn" || f == "Cu" || f == "H₂O" || f == "H₂"
    || f == "O₂" || f == "Cl₂" || f == "N₂" || f == "CH₄" || f == "C₂H₅OH"
  }

  predicate PairFormula(f: Formula)
  {
    PairCompound(f) || PairSalt(f) || PairElementOrOrganic(f)
  }

  lemma PairFormulaInCatalog(f: Formula)
    requires PairFormula(f)
    ensures InCatalog(f)
  {
    if PairCompound(f) {
      CatalogListsCompounds();
    } else if PairSalt(f) {
      CatalogListsSalts();
    } else {
      CatalogListsElementsAndOrganics();
    }
  }

  lemma PairEntriesFirstSix()
    ensures forall i, k :: 0 <= i < 6 && 0 <= k < 2 ==> PairFormula(ReactionTable[i].reactants[k])
  {
  }

  lemma PairEntriesMiddleSix()
    ensures forall i, k :: 6 <= i < 12 && 0 <= k < 2 ==> PairFormula(ReactionTable[i].reactants[k])
  {
  }

  lemma PairEntriesLastSix()
    ensures forall i, k :: 12 <= i < |ReactionTable| && i != 15 && 0 <= k < 2 ==> PairFormula(ReactionTable[i].reactants[k])
  {
  }

  /** Every formula of every two-reactant entry is a catalog formula. */
  lemma PairEntriesUseCatalogFormulas()
    ensures forall i, k :: 0 <= i < |ReactionTable| && |ReactionTable[i].reactants| == 2 && 0 <= k < 2 ==>
              InCatalog(ReactionTable[i].reactants[k])
  {
    PairEntriesFirstSix();
    PairEntriesMiddleSix();
    PairEntriesLastSix();
    SingleReactantEntry();
    forall i, k | 0 <= i < |ReactionTable| && |ReactionTable[i].reactants| == 2 && 0 <= k < 2
      ensures InCatalog(ReactionTable[i].reactants[k])
    {
      PairFormulaInCatalog(ReactionTable[i].reactants[k]);
    }
  }

  /** No chemical of the list carries the formula. */
  predicate Lacks(cs: seq<Chemical>, formula: Formula)
  {
    forall i :: 0 <= i < |cs| ==> cs[i].formula != formula
  }

  lemma LacksAppend(cs: seq<Chemical>, ds: seq<Chemical>, formula: Formula)
    requires Lacks(cs, formula) && Lacks(ds, formula)
    ensures Lacks(cs + ds, formula)
  {
    forall i | |cs| <= i < |cs + ds| ensures (cs + ds)[i].formula != formula {
      assert (cs + ds)[i] == ds[i - |cs|];
    }
  }

  lemma CompoundsLackPeroxide()
    ensures Lacks(Acids, "H₂O₂") && Lacks(Bases, "H₂O₂") && Lacks(Salts, "H₂O₂")
  {
  }

  lemma ElementsOrganicsLackPeroxide()
    ensures Lacks(Metals, "H₂O₂") && Lacks(NonMetals, "H₂O₂") && Lacks(SimpleOrganics, "H₂O₂")
  {
  }

  /** Hydrogen peroxide, the one single-reactant entry's formula, is not in the catalog. */
  lemma PeroxideNotInCatalog()
    ensures !InCatalog("H₂O₂")
  {
    CompoundsLackPeroxide();
    ElementsOrganicsLackPeroxide();
    var f := "H₂O₂";
    LacksAppend(Acids, Bases, f);
    LacksAppend(Acids + Bases, Salts, f);
    LacksAppend(Acids + Bases + Salts, Metals, f);
    LacksAppend(Acids + Bases + Salts + Metals, NonMetals, f);
    LacksAppend(Acids + Bases + Salts + Metals + NonMetals, SimpleOrganics, f);
  }

  /**
   No list built from the catalog reaches the hydrogen-peroxide entry: its only
   formula is not offered, so no session list has that entry's formulas or key.
   */
  lemma DecompositionUnreachable(reactants: seq<Reactant>)
    requires FromCatalog(AvailableChemicals, reactants)
    ensures multiset(Formulas(reactants)) != multiset(ReactionTable[15].reactants)
    ensures CreateReactantKey(reactants) != KeyOf(ReactionTable[15].reactants)
  {
    var fs := Formulas(reactants);
    PeroxideNotInCatalog();
    SingleReactantEntry();
    forall i | 0 <= i < |fs| ensures fs[i] != "H₂O₂" {
      assert InCatalog(fs[i]);
    }
    assert "H₂O₂" !in fs;
    assert multiset(fs)["H₂O₂"] == 0;
    assert multiset(ReactionTable[15].reactants)["H₂O₂"] == 1;
    FromCatalogSeparable(reactants);
    EntriesWellFormed();
    KeyEqualIffSameFormulas(fs, ReactionTable[15].reactants);
  }

  /**
   For any list the panel can build from the catalog, the resolver reports a
   possible reaction exactly when the list holds the two formulas of one of
   the table's two-reactant entries, in either order.
   */
  lemma SessionResolutionIff(reactants: seq<Reactant>, conditions: string)
    requires FromCatalog(AvailableChemicals, reactants)
    ensures PerformReaction(reactants, conditions).isReactionPossible <==>
              exists i :: 0 <= i < |ReactionTable| && |ReactionTable[i].reactants| == 2 &&
                multiset(Formulas(reactants)) == multiset(ReactionTable[i].reactants)
  {
    FromCatalogSeparable(reactants);
    PossibleIffKnownCombination(reactants, conditions);
    DecompositionUnreachable(reactants);
    SingleReactantEntry();
  }

  /**
   In any table with distinct keys, an entry of two different formulas that the
   panel's chemical list offers is reached by adding its formulas, in the
   stored order, to the empty panel.
   */
  lemma AddedPairResolves(catalog: seq<Chemical>, table: seq<Entry>, i: nat, firstId: string, secondId: string)
    requires i < |table| && DistinctKeys(table) && |table[i].reactants| == 2
    requires Offers(catalog, table[i].reactants[0]) && Offers(catalog, table[i].reactants[1])
    requires table[i].reactants[0] != table[i].reactants[1]
    ensures |AddReactant(catalog, AddReactant(catalog, [], table[i].reactants[0], firstId), table[i].reactants[1], secondId)| == 2
    ensures Resolve(table, AddReactant(catalog, AddReactant(catalog, [], table[i].reactants[0], firstId), table[i].reactants[1], secondId))
            == table[i].result
  {
    var f0, f1 := table[i].reactants[0], table[i].reactants[1];
    AddTwoDistinct(catalog, f0, f1, firstId, secondId);
    var two := AddReactant(catalog, AddReactant(catalog, [], f0, firstId), f1, secondId);
    assert Formulas(two) == table[i].reactants;
    ResolveFindsEntry(table, i, two);
  }

  /**
   Every two-reactant entry can be reached from the empty panel: adding its
   two formulas in the stored order gives a two-reactant list that resolves to
   that entry's result.
   */
  lemma PairEntriesReachable(i: nat, firstId: string, secondId: string, conditions: string)
    requires i < |ReactionTable| && |ReactionTable[i].reactants| == 2
    ensures |AddReactant(AvailableChemicals, AddReactant(AvailableChemicals, [], ReactionTable[i].reactants[0], firstId), ReactionTable[i].reactants[1], secondId)| == 2
    ensures PerformReaction(
              AddReactant(AvailableChemicals, AddReactant(AvailableChemicals, [], ReactionTable[i].reactants[0], firstId), ReactionTable[i].reactants[1], secondId),
              conditions) == ReactionTable[i].result
  {
    PairEntriesUseCatalogFormulas();
    EntriesWellFormed();
    EntryKeysDistinct();
    AddedPairResolves(AvailableChemicals, ReactionTable, i, firstId, secondId);
  }

  /** Against any table, editing an amount never changes the answer. */
  lemma AmountEditKeepsAnswer(table: seq<Entry>, reactants: seq<Reactant>, id: string, amount: int)
    ensures Resolve(table, UpdateReactantAmount(reactants, id, amount)) == Resolve(table, reactants)
  {
    assert Formulas(UpdateReactantAmount(reactants, id, amount)) == Formulas(reactants);
    ResolveIgnoresArrangement(table, UpdateReactantAmount(reactants, id, amount), reactants);
  }

  /** Editing an amount never changes what the resolver answers. */
  lemma AmountEditKeepsResult(reactants: seq<Reactant>, id: string, amount: int, conditions: string)
    ensures PerformReaction(UpdateReactantAmount(reactants, id, amount), conditions)
            == PerformReaction(reactants, conditions)
  {
    AmountEditKeepsAnswer(ReactionTable, reactants, id, amount);
  }
}
