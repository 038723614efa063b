/**
 The chemical catalog of constants.ts: the only formulas a user can add to
 an experiment, and the universe the experiment panel looks formulas up in.
 The catalog is kept in the source's six groups; `AvailableChemicals` is
 their concatenation in source order.
 */
module Catalog {
  import opened Types
  import opened ReactionKey

  /** Acids (constants.ts:5-10). */
  const Acids: seq<Chemical> := [
    Chemical("Hydrochloric Acid", "HCl"),
    Chemical("Sulfuric Acid", "H₂SO₄"),
    Chemical("Nitric Acid", "HNO₃"),
    Chemical("Acetic Acid", "CH₃COOH"),
    Chemical("Phosphoric Acid", "H₃PO₄"),
    Chemical("Carbonic Acid", "H₂CO₃")
  ]

  /** Bases (constants.ts:13-18). */
  const Bases: seq<Chemical> := [
    Chemical("Sodium Hydroxide", "NaOH"),
    Chemical("Potassium Hydroxide", "KOH"),
    Chemical("Calcium Hydroxide", "Ca(OH)₂"),
    Chemical("Magnesium Hydroxide", "Mg(OH)₂"),
    Chemical("Barium Hydroxide", "Ba(OH)₂"),
    Chemical("Ammonia", "NH₃")
  ]

  /** Salts (constants.ts:21-31). */
  const Salts: seq<Chemical> := [
    Chemical("Sodium Chloride", "NaCl"),
    Chemical("Sodium Carbonate", "Na₂CO₃"),
    Chemical("Sodium Bicarbonate", "NaHCO₃"),
    Chemical("Copper(II) Sulfate", "CuSO₄"),
    Chemical("Silver Nitrate", "AgNO₃"),
    Chemical("Lead(II) Nitrate", "Pb(NO₃)₂"),
    Chemical("Potassium Permanganate", "KMnO₄"),
    Chemical("Potassium Iodide", "KI"),
    Chemical("Potassium Dichromate", "K₂Cr₂O₇"),
    Chemical("Iron(III) Chloride", "FeCl₃"),
    Chemical("Calcium Carbonate", "CaCO₃")
  ]

  /** Metals (constants.ts:34-41). */
  const Metals: seq<Chemical> := [
    Chemical("Sodium", "Na"),
    Chemical("Magnesium", "Mg"),
    Chemical("Aluminum", "Al"),
    Chemical("Zinc", "Zn"),
    Chemical("Iron", "Fe"),
    Chemical("Lead", "Pb"),
    Chemical("Copper", "Cu"),
    Chemical("Silver", "Ag")
  ]

  /** Non-metals and other (constants.ts:44-51). */
  const NonMetals: seq<Chemical> := [
    Chemical("Water", "H₂O"),
    Chemical("Hydrogen", "H₂"),
    Chemical("Oxygen", "O₂"),
    Chemical("Chlorine", "Cl₂"),
    Chemical("Nitrogen", "N₂"),
    Chemical("Iodine", "I₂"),
    Chemical("Sulfur", "S"),
    Chemical("Carbon Dioxide", "CO₂")
  ]

  /** Simple organic compounds (constants.ts:54-56). */
  const SimpleOrganics: seq<Chemical> := [
    Chemical("Methane", "CH₄"),
    Chemical("Ethanol", "C₂H₅OH"),
    Chemical("Ethene", "C₂H₄")
  ]

  /** `AVAILABLE_CHEMICALS` (constants.ts:3-57). */
  const AvailableChemicals: seq<Chemical> :=
    Acids + Bases + Salts + Metals + NonMetals + SimpleOrganics

  /**
   `chemicals.find(c => c.formula === formula)`: a chemical of the list that
   carries the formula (the first one), or nothing when none does.
   */
  function FindChemical(chemicals: seq<Chemical>, formula: Formula): (r: Option<Chemical>)
    ensures r.Some? ==> exists k :: 0 <= k < |chemicals| && chemicals[k] == r.value && r.value.formula == formula
                          && forall j :: 0 <= j < k ==> chemicals[j].formula != formula
    ensures r.None? <==> forall i :: 0 <= i < |chemicals| ==> chemicals[i].formula != formula
  {
    if |chemicals| == 0 then None
    else if chemicals[0].formula == formula then Some(chemicals[0])
    else
      var r := FindChemical(chemicals[1..], formula);
      assert forall j :: 1 <= j < |chemicals| ==> chemicals[j] == chemicals[1..][j - 1];
      r
  }

  /** Some chemical of the list carries the formula. */
  predicate Offers(chemicals: seq<Chemical>, formula: Formula)
  {
    exists c :: c in chemicals && c.formula == formula
  }

  /** The formula is offered by the catalog. */
  predicate InCatalog(formula: Formula)
  {
    Offers(AvailableChemicals, formula)
  }

  predicate DistinctFormulas(cs: seq<Chemical>)
  {
    forall i, j :: 0 <= i < j < |cs| ==> cs[i].formula != cs[j].formula
  }

  predicate DisjointFormulas(cs: seq<Chemical>, ds: seq<Chemical>)
  {
    forall i, j :: 0 <= i < |cs| && 0 <= j < |ds| ==> cs[i].formula != ds[j].formula
  }

  predicate SeparableFormulas(cs: seq<Chemical>)
  {
    forall i :: 0 <= i < |cs| ==> Separable(cs[i].formula)
  }

  lemma DistinctAppend(cs: seq<Chemical>, ds: seq<Chemical>)
    requires DistinctFormulas(cs) && DistinctFormulas(ds) && DisjointFormulas(cs, ds)
    ensures DistinctFormulas(cs + ds)
  {
    var e := cs + ds;
    forall i, j | 0 <= i < j < |e| ensures e[i].formula != e[j].formula {
      if j < |cs| {
      } else if i >= |cs| {
        assert e[i] == ds[i - |cs|] && e[j] == ds[j - |cs|];
      } else {
        assert e[j] == ds[j - |cs|];
      }
    }
  }

  lemma DisjointAppend(cs: seq<Chemical>, ds: seq<Chemical>, es: seq<Chemical>)
    requires DisjointFormulas(cs, es) && DisjointFormulas(ds, es)
    ensures DisjointFormulas(cs + ds, es)
  {
    var e := cs + ds;
    forall i, j | 0 <= i < |e| && 0 <= j < |es| ensures e[i].formula != es[j].formula {
      if i >= |cs| {
        assert e[i] == ds[i - |cs|];
      }
    }
  }

  lemma CompoundGroupsDistinct()
    ensures DistinctFormulas(Acids) && DistinctFormulas(Bases)
  {
  }

  lemma SaltsDistinct()
    ensures DistinctFormulas(Salts)
  {
  }

  lemma ElementGroupsDistinct()
    ensures DistinctFormulas(Metals) && DistinctFormulas(NonMetals) && DistinctFormulas(SimpleOrganics)
  {
  }

  lemma AcidsDisjointCompounds()
    ensures DisjointFormulas(Acids, Bases) && DisjointFormulas(Acids, Salts)
  {
  }

  lemma AcidsDisjointElements()
    ensures DisjointFormulas(Acids, Metals) && DisjointFormulas(Acids, NonMetals) && DisjointFormulas(Acids, SimpleOrganics)
  {
  }

  lemma BasesDisjointSalts()
    ensures DisjointFormulas(Bases, Salts)
  {
  }

  lemma BasesDisjointElements()
    ensures DisjointFormulas(Bases, Metals) && DisjointFormulas(Bases, NonMetals) && DisjointFormulas(Bases, SimpleOrganics)
  {
  }

  lemma SaltsDisjointMetals()
    ensures DisjointFormulas(Salts, Metals)
  {
  }

  lemma SaltsDisjointOthers()
    ensures DisjointFormulas(Salts, NonMetals) && DisjointFormulas(Salts, SimpleOrganics)
  {
  }

  lemma MetalsDisjoint()
    ensures DisjointFormulas(Metals, NonMetals) && DisjointFormulas(Metals, SimpleOrganics)
  {
  }

  lemma NonMetalsDisjoint()
    ensures DisjointFormulas(NonMetals, SimpleOrganics)
  {
  }

  /** No two catalog chemicals share a formula. */
  lemma CatalogFormulasDistinct()
    ensures DistinctFormulas(AvailableChemicals)
  {
    CompoundGroupsDistinct();
    SaltsDistinct();
    ElementGroupsDistinct();
    AcidsDisjointCompounds();
    AcidsDisjointElements();
    BasesDisjointSalts();
    BasesDisjointElements();
    SaltsDisjointMetals();
    SaltsDisjointOthers();
    MetalsDisjoint();
    NonMetalsDisjoint();
    DisjointAppend(Acids, Bases, Salts);
    DisjointAppend(Acids, Bases, Metals);
    DisjointAppend(Acids + Bases, Salts, Metals);
    DisjointAppend(Acids, Bases, NonMetals);
    DisjointAppend(Acids + Bases, Salts, NonMetals);
    DisjointAppend(Acids + Bases + Salts, Metals, NonMetals);
    DisjointAppend(Acids, Bases, SimpleOrganics);
    DisjointAppend(Acids + Bases, Salts, SimpleOrganics);
    DisjointAppend(Acids + Bases + Salts, Metals, SimpleOrganics);
    DisjointAppend(Acids + Bases + Salts + Metals, NonMetals, SimpleOrganics);
    DistinctAppend(Acids, Bases);
    DistinctAppend(Acids + Bases, Salts);
    DistinctAppend(Acids + Bases + Salts, Metals);
    DistinctAppend(Acids + Bases + Salts + Metals, NonMetals);
    DistinctAppend(Acids + Bases + Salts + Metals + NonMetals, SimpleOrganics);
  }

  /** Every catalog formula is non-empty and free of the key separator '-'. */
  lemma CatalogFormulasSeparable()
    ensures SeparableFormulas(AvailableChemicals)
  {
    AcidsBasesSeparable();
    SaltsSeparable();
    ElementsOrganicsSeparable();
    SeparableAppend(Acids, Bases);
    SeparableAppend(Acids + Bases, Salts);
    SeparableAppend(Acids + Bases + Salts, Metals);
    SeparableAppend(Acids + Bases + Salts + Metals, NonMetals);
    SeparableAppend(Acids + Bases + Salts + Metals + NonMetals, SimpleOrganics);
  }

  lemma AcidsBasesSeparable()
    ensures SeparableFormulas(Acids) && SeparableFormulas(Bases)
  {
  }

  lemma SaltsSeparable()
    ensures SeparableFormulas(Salts)
  {
  }

  lemma ElementsOrganicsSeparable()
    ensures SeparableFormulas(Metals) && SeparableFormulas(NonMetals) && SeparableFormulas(SimpleOrganics)
  {
  }

  /** Every formula a user can pick can be read back out of a key. */
  lemma InCatalogSeparable(formula: Formula)
    requires InCatalog(formula)
    ensures Separable(formula)
  {
    CatalogFormulasSeparable();
    var c :| c in AvailableChemicals && c.formula == formula;
    var i :| 0 <= i < |AvailableChemicals| && AvailableChemicals[i] == c;
  }

  lemma SeparableAppend(cs: seq<Chemical>, ds: seq<Chemical>)
    requires SeparableFormulas(cs) && SeparableFormulas(ds)
    ensures SeparableFormulas(cs + ds)
  {
    forall i | |cs| <= i < |cs + ds| ensures Separable((cs + ds)[i].formula) {
      assert (cs + ds)[i] == ds[i - |cs|];
    }
  }

  /** Every member of every group is a catalog chemical. */
  lemma GroupMembersInCatalog()
    ensures forall i :: 0 <= i < |Acids| ==> InCatalog(Acids[i].formula)
    ensures forall i :: 0 <= i < |Bases| ==> InCatalog(Bases[i].formula)
    ensures forall i :: 0 <= i < |Salts| ==> InCatalog(Salts[i].formula)
    ensures forall i :: 0 <= i < |Metals| ==> InCatalog(Metals[i].formula)
    ensures forall i :: 0 <= i < |NonMetals| ==> InCatalog(NonMetals[i].formula)
    ensures forall i :: 0 <= i < |SimpleOrganics| ==> InCatalog(SimpleOrganics[i].formula)
  {
    forall i | 0 <= i < |Acids| ensures InCatalog(Acids[i].formula) {
      assert Acids[i] in AvailableChemicals;
    }
    forall i | 0 <= i < |Bases| ensures InCatalog(Bases[i].formula) {
      assert Bases[i] in AvailableChemicals;
    }
    forall i | 0 <= i < |Salts| ensures InCatalog(Salts[i].formula) {
      assert Salts[i] in AvailableChemicals;
    }
    forall i | 0 <= i < |Metals| ensures InCatalog(Metals[i].formula) {
      assert Metals[i] in AvailableChemicals;
    }
    forall i | 0 <= i < |NonMetals| ensures InCatalog(NonMetals[i].formula) {
      assert NonMetals[i] in AvailableChemicals;
    }
    forall i | 0 <= i < |SimpleOrganics| ensures InCatalog(SimpleOrganics[i].formula) {
      assert SimpleOrganics[i] in AvailableChemicals;
    }
  }

  /** Formulas the catalog offers, each found through its group. */
  lemma CatalogListsCompounds()
    ensures InCatalog("HCl")
    ensures InCatalog("H₂SO₄")
    ensures InCatalog("HNO₃")
    ensures InCatalog("CH₃COOH")
    ensures InCatalog("NaOH")
  {
    GroupMembersInCatalog();
    assert InCatalog(Acids[0].formula);
    assert InCatalog(Acids[1].formula);
    assert InCatalog(Acids[2].formula);
    assert InCatalog(Acids[3].formula);
    assert InCatalog(Bases[0].formula);
  }

  lemma CatalogListsSalts()
    ensures InCatalog("NaCl")
    ensures InCatalog("AgNO₃")
    ensures InCatalog("Pb(NO₃)₂")
    ensures InCatalog("KMnO₄")
    ensures InCatalog("KI")
    ensures InCatalog("CaCO₃")
  {
    GroupMembersInCatalog();
    assert InCatalog(Salts[0].formula);
    assert InCatalog(Salts[4].formula);
    assert InCatalog(Salts[5].formula);
    assert InCatalog(Salts[6].formula);
    assert InCatalog(Salts[7].formula);
    assert InCatalog(Salts[10].formula);
  }

  lemma CatalogListsElementsAndOrganics()
    ensures InCatalog("Na")
    ensures InCatalog("Zn")
    ensures InCatalog("Cu")
    ensures InCatalog("H₂O")
    ensures InCatalog("H₂")
    ensures InCatalog("O₂")
    ensures InCatalog("Cl₂")
    ensures InCatalog("N₂")
    ensures InCatalog("CH₄")
    ensures InCatalog("C₂H₅OH")
  {
    GroupMembersInCatalog();
    assert InCatalog(Metals[0].formula);
    assert InCatalog(Metals[3].formula);
    assert InCatalog(Metals[6].formula);
    assert InCatalog(NonMetals[0].formula);
    assert InCatalog(NonMetals[1].formula);
    assert InCatalog(NonMetals[2].formula);
    assert InCatalog(NonMetals[3].formula);
    assert InCatalog(NonMetals[4].formula);
    assert InCatalog(SimpleOrganics[0].formula);
    assert InCatalog(SimpleOrganics[1].formula);
  }

  /**
   The default selection of the panel, the first catalog formula, is "HCl"
   and looks up the first catalog chemical.
   */
  lemma DefaultSelection()
    ensures |AvailableChemicals| > 0
    ensures AvailableChemicals[0].formula == "HCl"
    ensures FindChemical(AvailableChemicals, "HCl") == Some(Chemical("Hydrochloric Acid", "HCl"))
  {
  }

  /**
   Because catalog formulas are distinct, looking a formula up finds exactly the
   catalog chemical that carries it, and fails exactly for foreign formulas.
   */
  lemma LookupExact(formula: Formula, c: Chemical)
    ensures FindChemical(AvailableChemicals, formula) == Some(c) <==>
              (c in AvailableChemicals && c.formula == formula)
    ensures FindChemical(AvailableChemicals, formula).None? <==> !InCatalog(formula)
  {
    CatalogFormulasDistinct();
    LookupUnique(AvailableChemicals, formula, c);
  }

  /**
   In any list whose formulas are distinct, the lookup finds exactly the one
   chemical that carries the formula, and fails exactly when none does.
   */
  lemma LookupUnique(chemicals: seq<Chemical>, formula: Formula, c: Chemical)
    requires DistinctFormulas(chemicals)
    ensures FindChemical(chemicals, formula) == Some(c) <==> (c in chemicals && c.formula == formula)
    ensures FindChemical(chemicals, formula).None? <==> !Offers(chemicals, formula)
  {
    if c in chemicals && c.formula == formula {
      var k :| 0 <= k < |chemicals| && chemicals[k] == c;
      var r := FindChemical(chemicals, formula);
      assert r.Some?;
      var m :| 0 <= m < |chemicals| && chemicals[m] == r.value && r.value.formula == formula;
      assert k == m;
    }
    if !Offers(chemicals, formula) {
      assert forall i :: 0 <= i < |chemicals| ==> chemicals[i].formula != formula by {
        forall i | 0 <= i < |chemicals| ensures chemicals[i].formula != formula {
          assert chemicals[i] in chemicals;
        }
      }
    }
  }
}
