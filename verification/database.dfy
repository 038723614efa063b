/**
 The static reaction table of services/reactionDatabase.ts and its fixed
 "not in database" result. The table is data: the facts below are checked
 against it entry by entry.
 */
module ReactionDatabase {
  import opened Types
  import opened ReactionKey

  /** `ReactionDatabaseEntry`: a reactant formula list and the result it resolves to. */
  datatype Entry = Entry(id: string, reactants: seq<Formula>, result: ReactionResult)

  /** `REACTION_DATABASE`, in source order. */
  const ReactionTable: seq<Entry> := [
      // services/reactionDatabase.ts:11-23
      Entry(
        id := "HCl-NaOH",
        reactants := ["HCl", "NaOH"],
        result := ReactionResult(
          isReactionPossible := true,
          balancedEquation := "HCl(aq) + NaOH(aq) → NaCl(aq) + H₂O(l)",
          products := [Product("NaCl", "aqueous"), Product("H₂O", "liquid")],
          reactionType := "Acid-Base Neutralization",
          explanation := "Hydrochloric acid, a strong acid, reacts with sodium hydroxide, a strong base, to produce salt (sodium chloride) and water. This is a classic neutralization reaction.",
          visualObservation := "No visible change as both reactants and products are colorless solutions. The solution might warm up slightly as the reaction is exothermic.",
          safetyWarning := "Both reactants are corrosive. Handle with care.")),
      // services/reactionDatabase.ts:24-36
      Entry(
        id := "H2SO4-NaOH",
        reactants := ["H₂SO₄", "NaOH"],
        result := ReactionResult(
          isReactionPossible := true,
          balancedEquation := "H₂SO₄(aq) + 2NaOH(aq) → Na₂SO₄(aq) + 2H₂O(l)",
          products := [Product("Na₂SO₄", "aqueous"), Product("H₂O", "liquid")],
          reactionType := "Acid-Base Neutralization",
          explanation := "Sulfuric acid reacts with sodium hydroxide in a neutralization reaction to produce sodium sulfate salt and water.",
          visualObservation := "Clear, colorless solutions are mixed, resulting in a clear, colorless solution. The reaction is exothermic and releases heat.",
          safetyWarning := "Sulfuric acid and Sodium Hydroxide are highly corrosive. Avoid contact with skin and eyes.")),
      // services/reactionDatabase.ts:37-49
      Entry(
        id := "CH3COOH-NaOH",
        reactants := ["CH₃COOH", "NaOH"],
        result := ReactionResult(
          isReactionPossible := true,
          balancedEquation := "CH₃COOH(aq) + NaOH(aq) → CH₃COONa(aq) + H₂O(l)",
          products := [Product("CH₃COONa", "aqueous"), Product("H₂O", "liquid")],
          reactionType := "Acid-Base Neutralization",
          explanation := "Acetic acid (a weak acid) reacts with sodium hydroxide (a strong base) to form sodium acetate and water.",
          visualObservation := "Mixing two clear, colorless solutions results in another clear, colorless solution.",
          safetyWarning := "Handle sodium hydroxide with care as it is corrosive.")),
      // services/reactionDatabase.ts:52-64
      Entry(
        id := "AgNO3-NaCl",
        reactants := ["AgNO₃", "NaCl"],
        result := ReactionResult(
          isReactionPossible := true,
          balancedEquation := "AgNO₃(aq) + NaCl(aq) → AgCl(s)↓ + NaNO₃(aq)",
          products := [Product("AgCl", "solid"), Product("NaNO₃", "aqueous")],
          reactionType := "Double Displacement (Precipitation)",
          explanation := "When solutions of silver nitrate and sodium chloride are mixed, the silver and sodium ions switch partners. Silver chloride (AgCl) is insoluble in water and forms a solid precipitate.",
          visualObservation := "A white, curdy precipitate of silver chloride forms immediately upon mixing the clear solutions.",
          safetyWarning := "Silver nitrate can stain skin and clothes.")),
      // services/reactionDatabase.ts:65-77
      Entry(
        id := "Pb(NO3)2-KI",
        reactants := ["Pb(NO₃)₂", "KI"],
        result := ReactionResult(
          isReactionPossible := true,
          balancedEquation := "Pb(NO₃)₂(aq) + 2KI(aq) → PbI₂(s)↓ + 2KNO₃(aq)",
          products := [Product("PbI₂", "solid"), Product("KNO₃", "aqueous")],
          reactionType := "Double Displacement (Precipitation)",
          explanation := "Lead(II) nitrate and potassium iodide react in a double displacement reaction to form a vibrant yellow precipitate of lead(II) iodide and soluble potassium nitrate.",
          visualObservation := "A brilliant yellow solid (lead iodide) precipitates out of the solution when the two clear liquids are mixed.",
          safetyWarning := "Lead compounds are toxic. Avoid ingestion and inhalation.")),
      // services/reactionDatabase.ts:80-92
      Entry(
        id := "HCl-Zn",
        reactants := ["HCl", "Zn"],
        result := ReactionResult(
          isReactionPossible := true,
          balancedEquation := "2HCl(aq) + Zn(s) → ZnCl₂(aq) + H₂(g)↑",
          products := [Product("ZnCl₂", "aqueous"), Product("H₂", "gas")],
          reactionType := "Single Displacement (Redox)",
          explanation := "Zinc is more reactive than hydrogen, so it displaces hydrogen from hydrochloric acid. This forms zinc chloride and releases hydrogen gas.",
          visualObservation := "Bubbles of hydrogen gas are produced on the surface of the zinc metal. The zinc metal gradually dissolves.",
          safetyWarning := "Produces flammable hydrogen gas. Ensure good ventilation.")),
      // services/reactionDatabase.ts:93-105
      Entry(
        id := "AgNO3-Cu",
        reactants := ["AgNO₃", "Cu"],
        result := ReactionResult(
          isReactionPossible := true,
          balancedEquation := "2AgNO₃(aq) + Cu(s) → Cu(NO₃)₂(aq) + 2Ag(s)↓",
          products := [Product("Cu(NO₃)₂", "aqueous"), Product("Ag", "solid")],
          reactionType := "Single Displacement (Redox)",
          explanation := "Copper is more reactive than silver, so it displaces silver from the silver nitrate solution. This results in solid silver crystals and copper(II) nitrate solution.",
          visualObservation := "A copper wire placed in a clear silver nitrate solution will start to form beautiful, shiny silver crystals on its surface. The solution will slowly turn blue as copper(II) nitrate is formed.",
          safetyWarning := "Silver nitrate can stain skin. Copper salts can be toxic if ingested.")),
      // services/reactionDatabase.ts:108-120
      Entry(
        id := "CaCO3-HCl",
        reactants := ["CaCO₃", "HCl"],
        result := ReactionResult(
          isReactionPossible := true,
          balancedEquation := "CaCO₃(s) + 2HCl(aq) → CaCl₂(aq) + H₂O(l) + CO₂(g)↑",
          products := [Product("CaCl₂", "aqueous"), Product("H₂O", "liquid"), Product("CO₂", "gas")],
          reactionType := "Acid-Base (Gas Formation)",
          explanation := "Calcium carbonate (found in limestone and chalk) reacts with hydrochloric acid to produce calcium chloride, water, and carbon dioxide gas.",
          visualObservation := "Vigorous bubbling (effervescence) is observed as carbon dioxide gas is released. The solid calcium carbonate dissolves.",
          safetyWarning := "Ensure adequate ventilation due to CO₂ production.")),
      // services/reactionDatabase.ts:123-135
      Entry(
        id := "H2O-Na",
        reactants := ["H₂O", "Na"],
        result := ReactionResult(
          isReactionPossible := true,
          balancedEquation := "2Na(s) + 2H₂O(l) → 2NaOH(aq) + H₂(g)↑",
          products := [Product("NaOH", "aqueous"), Product("H₂", "gas")],
          reactionType := "Single Displacement (Redox)",
          explanation := "Sodium is a highly reactive alkali metal that reacts vigorously with water. It displaces one hydrogen atom from water to form sodium hydroxide and hydrogen gas.",
          visualObservation := "The piece of sodium metal fizzes and darts across the water surface, producing bubbles of hydrogen gas. It may even ignite with a yellow flame.",
          safetyWarning := "Highly exothermic and dangerous reaction. Produces flammable hydrogen gas and a corrosive solution. Should only be performed by professionals.")),
      // services/reactionDatabase.ts:136-148
      Entry(
        id := "Cu-HNO3",
        reactants := ["Cu", "HNO₃"],
        result := ReactionResult(
          isReactionPossible := true,
          balancedEquation := "Cu(s) + 4HNO₃(aq) → Cu(NO₃)₂(aq) + 2NO₂(g)↑ + 2H₂O(l)",
          products := [Product("Cu(NO₃)₂", "aqueous"), Product("NO₂", "gas"), Product("H₂O", "liquid")],
          reactionType := "Redox",
          explanation := "Copper reacts with concentrated nitric acid to produce copper(II) nitrate, nitrogen dioxide gas, and water. This is a redox reaction where copper is oxidized and nitric acid is reduced.",
          visualObservation := "A piece of copper metal dissolves in the acid. The solution turns a distinct blue color due to the formation of aqueous copper(II) nitrate. A pungent, reddish-brown gas (nitrogen dioxide) is evolved.",
          safetyWarning := "Nitric acid is highly corrosive. Nitrogen dioxide (NO₂) is a toxic gas. This reaction must be performed in a well-ventilated fume hood.")),
      // services/reactionDatabase.ts:149-161
      Entry(
        id := "KMnO4-HCl",
        reactants := ["KMnO₄", "HCl"],
        result := ReactionResult(
          isReactionPossible := true,
          balancedEquation := "2KMnO₄(aq) + 16HCl(aq) → 2KCl(aq) + 2MnCl₂(aq) + 8H₂O(l) + 5Cl₂(g)↑",
          products := [Product("KCl", "aqueous"), Product("MnCl₂", "aqueous"), Product("H₂O", "liquid"), Product("Cl₂", "gas")],
          reactionType := "Redox",
          explanation := "Potassium permanganate, a strong oxidizing agent, reacts with hydrochloric acid. The manganese is reduced from the +7 to the +2 oxidation state, while chloride is oxidized to chlorine gas.",
          visualObservation := "The deep purple solution of potassium permanganate becomes colorless (or very pale pink) as the MnO₄⁻ ion is consumed. A pale, greenish-yellow gas (chlorine) is produced.",
          safetyWarning := "Chlorine gas is toxic and a respiratory irritant. Reactants are corrosive. Must be performed in a fume hood.")),
      // services/reactionDatabase.ts:164-176
      Entry(
        id := "CH4-O2",
        reactants := ["CH₄", "O₂"],
        result := ReactionResult(
          isReactionPossible := true,
          balancedEquation := "CH₄(g) + 2O₂(g) → CO₂(g)↑ + 2H₂O(g)↑",
          products := [Product("CO₂", "gas"), Product("H₂O", "gas")],
          reactionType := "Combustion",
          explanation := "Methane (natural gas) undergoes complete combustion in the presence of excess oxygen to produce carbon dioxide and water vapor, releasing a significant amount of energy as heat and light.",
          visualObservation := "A blue flame is produced. Water vapor may condense on cool surfaces.",
          safetyWarning := "Combustion reactions are highly exothermic and produce a flame. Methane is flammable.")),
      // services/reactionDatabase.ts:177-189
      Entry(
        id := "C2H5OH-O2",
        reactants := ["C₂H₅OH", "O₂"],
        result := ReactionResult(
          isReactionPossible := true,
          balancedEquation := "C₂H₅OH(l) + 3O₂(g) → 2CO₂(g)↑ + 3H₂O(g)↑",
          products := [Product("CO₂", "gas"), Product("H₂O", "gas")],
          reactionType := "Organic Combustion",
          explanation := "Ethanol burns in the presence of oxygen to produce carbon dioxide and water. This is a complete combustion reaction, releasing energy as heat and light.",
          visualObservation := "A clean blue flame is observed during the combustion.",
          safetyWarning := "Ethanol is flammable. The reaction is highly exothermic.")),
      // services/reactionDatabase.ts:192-204
      Entry(
        id := "Na-Cl2",
        reactants := ["Na", "Cl₂"],
        result := ReactionResult(
          isReactionPossible := true,
          balancedEquation := "2Na(s) + Cl₂(g) → 2NaCl(s)",
          products := [Product("NaCl", "solid")],
          reactionType := "Synthesis (Redox)",
          explanation := "Sodium, a highly reactive alkali metal, reacts vigorously with chlorine, a halogen gas, to form sodium chloride, commonly known as table salt. This is a synthesis reaction where electrons are transferred from sodium to chlorine.",
          visualObservation := "A piece of sodium metal burns with a brilliant yellow-orange flame in a container of pale green chlorine gas, producing a white smoke of solid sodium chloride.",
          safetyWarning := "This is a highly energetic reaction. Chlorine gas is toxic and corrosive. Sodium reacts violently with water. This should only be performed in a fume hood by professionals.")),
      // services/reactionDatabase.ts:205-217
      Entry(
        id := "H2-O2",
        reactants := ["H₂", "O₂"],
        result := ReactionResult(
          isReactionPossible := true,
          balancedEquation := "2H₂(g) + O₂(g) → 2H₂O(l)",
          products := [Product("H₂O", "liquid")],
          reactionType := "Synthesis (Redox)",
          explanation := "Hydrogen gas and oxygen gas react to form water. This reaction is highly exothermic and is the basis for hydrogen fuel cells.",
          visualObservation := "The reaction is explosive and produces a burst of energy. Water is formed as a product.",
          safetyWarning := "This is a highly explosive reaction. A mixture of hydrogen and oxygen gas is extremely flammable.")),
      // services/reactionDatabase.ts:220-232
      Entry(
        id := "H2O2",
        reactants := ["H₂O₂"],
        result := ReactionResult(
          isReactionPossible := true,
          balancedEquation := "2H₂O₂(aq) → 2H₂O(l) + O₂(g)↑",
          products := [Product("H₂O", "liquid"), Product("O₂", "gas")],
          reactionType := "Decomposition (Catalytic)",
          explanation := "Hydrogen peroxide decomposes into water and oxygen gas. This process can be slow but is often accelerated by a catalyst like potassium iodide or manganese dioxide.",
          visualObservation := "Bubbles of oxygen gas are produced. If a catalyst is used, the reaction can be very vigorous, producing a lot of foam and heat (the 'Elephant's Toothpaste' experiment).",
          safetyWarning := "Concentrated hydrogen peroxide is a strong oxidizer and can cause chemical burns.")),
      // services/reactionDatabase.ts:235-247
      Entry(
        id := "N2-H2",
        reactants := ["N₂", "H₂"],
        result := ReactionResult(
          isReactionPossible := true,
          balancedEquation := "N₂(g) + 3H₂(g) ⇌ 2NH₃(g)",
          products := [Product("NH₃", "gas")],
          reactionType := "Equilibrium / Synthesis (Haber Process)",
          explanation := "This is the Haber process for synthesizing ammonia. It is a reversible reaction that reaches equilibrium. High pressure and a moderate temperature (around 400-450°C), along with an iron catalyst, are used to favor the forward reaction and increase the rate.",
          visualObservation := "This industrial reaction involves colorless gases and shows no visible change without analytical equipment. The conditions (high T & P) are crucial.",
          safetyWarning := "This reaction requires extremely high pressures and temperatures, making it unsuitable for a standard lab. Ammonia is a pungent, corrosive gas.")),
      // services/reactionDatabase.ts:250-262
      Entry(
        id := "CH3COOH-C2H5OH",
        reactants := ["CH₃COOH", "C₂H₅OH"],
        result := ReactionResult(
          isReactionPossible := true,
          balancedEquation := "CH₃COOH(l) + C₂H₅OH(l) ⇌ CH₃COOC₂H₅(l) + H₂O(l)",
          products := [Product("CH₃COOC₂H₅", "liquid"), Product("H₂O", "liquid")],
          reactionType := "Organic (Esterification)",
          explanation := "This is Fischer esterification, where acetic acid and ethanol react to form an ester (ethyl acetate) and water. The reaction is an equilibrium and is typically catalyzed by a strong acid like sulfuric acid.",
          visualObservation := "Two colorless liquids are mixed and gently heated. The product, ethyl acetate, has a characteristic sweet, fruity smell (often described as nail polish remover or fruit drops).",
          safetyWarning := "Reactants are flammable and corrosive. Use gentle heating and a fume hood."))
  ]

  /** `NO_REACTION_FOUND` (services/reactionDatabase.ts:265-273). */
  const NoReactionFound: ReactionResult := ReactionResult(
    isReactionPossible := false,
    balancedEquation := "Reaction Not in Database",
    products := [],
    reactionType := "None",
    explanation := "This specific combination of reactants is not available in our pre-compiled database. The app is currently running in offline mode and cannot simulate new reactions.",
    visualObservation := "No data available.",
    safetyWarning := "No data available.")

  /**
   What every entry satisfies on its own: one or two reactant formulas, each
   non-empty and free of the key separator, no formula twice, and a result
   that reports a possible reaction with at least one product.
   */
  predicate WellFormedEntry(e: Entry)
  {
    && 1 <= |e.reactants| <= 2
    && AllSeparable(e.reactants)
    && (forall i, j :: 0 <= i < j < |e.reactants| ==> e.reactants[i] != e.reactants[j])
    && e.result.isReactionPossible
    && |e.result.products| > 0
  }

  lemma WellFormedFirstSix()
    ensures forall i :: 0 <= i < 6 ==> WellFormedEntry(ReactionTable[i])
  {
  }

  lemma WellFormedMiddleSix()
    ensures forall i :: 6 <= i < 12 ==> WellFormedEntry(ReactionTable[i])
  {
  }

  lemma WellFormedLastSix()
    ensures forall i :: 12 <= i < |ReactionTable| ==> WellFormedEntry(ReactionTable[i])
  {
  }

  /** Every entry of the table is well formed. */
  lemma EntriesWellFormed()
    ensures |ReactionTable| == 18
    ensures forall i :: 0 <= i < |ReactionTable| ==> WellFormedEntry(ReactionTable[i])
  {
    WellFormedFirstSix();
    WellFormedMiddleSix();
    WellFormedLastSix();
  }

  /** The id of every entry, in table order. */
  const EntryIds: seq<string> := [
    "HCl-NaOH", "H2SO4-NaOH", "CH3COOH-NaOH", "AgNO3-NaCl", "Pb(NO3)2-KI", "HCl-Zn",
    "AgNO3-Cu", "CaCO3-HCl", "H2O-Na", "Cu-HNO3", "KMnO4-HCl", "CH4-O2",
    "C2H5OH-O2", "Na-Cl2", "H2-O2", "H2O2", "N2-H2", "CH3COOH-C2H5OH"
  ]

  lemma IdsFirstNine()
    ensures forall i :: 0 <= i < 9 ==> ReactionTable[i].id == EntryIds[i]
  {
  }

  lemma IdsLastNine()
    ensures forall i :: 9 <= i < |ReactionTable| ==> ReactionTable[i].id == EntryIds[i]
  {
  }

  lemma SpelledIdsDistinct()
    ensures forall i, j :: 0 <= i < j < |EntryIds| ==> EntryIds[i] != EntryIds[j]
  {
  }

  /** Entry ids are pairwise distinct. */
  lemma EntryIdsDistinct()
    ensures forall i, j :: 0 <= i < j < |ReactionTable| ==> ReactionTable[i].id != ReactionTable[j].id
  {
    IdsFirstNine();
    IdsLastNine();
    SpelledIdsDistinct();
  }

  /** The lookup key of every entry, in table order. */
  const EntryKeys: seq<string> := [
    "HCl-NaOH", "H₂SO₄-NaOH", "CH₃COOH-NaOH", "AgNO₃-NaCl", "KI-Pb(NO₃)₂", "HCl-Zn",
    "AgNO₃-Cu", "CaCO₃-HCl", "H₂O-Na", "Cu-HNO₃", "HCl-KMnO₄", "CH₄-O₂",
    "C₂H₅OH-O₂", "Cl₂-Na", "H₂-O₂", "H₂O₂", "H₂-N₂", "CH₃COOH-C₂H₅OH"
  ]

  lemma Keys0To1()
    ensures forall i :: 0 <= i < 2 ==> KeyOf(ReactionTable[i].reactants) == EntryKeys[i]
  {
  }

  lemma Keys2To3()
    ensures forall i :: 2 <= i < 4 ==> KeyOf(ReactionTable[i].reactants) == EntryKeys[i]
  {
  }

  lemma Keys4To5()
    ensures forall i :: 4 <= i < 6 ==> KeyOf(ReactionTable[i].reactants) == EntryKeys[i]
  {
  }

  lemma Keys6To7()
    ensures forall i :: 6 <= i < 8 ==> KeyOf(ReactionTable[i].reactants) == EntryKeys[i]
  {
  }

  lemma Keys8To9()
    ensures forall i :: 8 <= i < 10 ==> KeyOf(ReactionTable[i].reactants) == EntryKeys[i]
  {
  }

  lemma Keys10To11()
    ensures forall i :: 10 <= i < 12 ==> KeyOf(ReactionTable[i].reactants) == EntryKeys[i]
  {
  }

  lemma Keys12To13()
    ensures forall i :: 12 <= i < 14 ==> KeyOf(ReactionTable[i].reactants) == EntryKeys[i]
  {
  }

  lemma Keys14To15()
    ensures forall i :: 14 <= i < 16 ==> KeyOf(ReactionTable[i].reactants) == EntryKeys[i]
  {
  }

  lemma Keys16To17()
    ensures forall i :: 16 <= i < 18 ==> KeyOf(ReactionTable[i].reactants) == EntryKeys[i]
  {
  }

  /** `EntryKeys` spells out the key the resolver computes for each entry. */
  lemma EntryKeysComputed()
    ensures |EntryKeys| == |ReactionTable|
    ensures forall i :: 0 <= i < |ReactionTable| ==> KeyOf(ReactionTable[i].reactants) == EntryKeys[i]
  {
    Keys0To1();
    Keys2To3();
    Keys4To5();
    Keys6To7();
    Keys8To9();
    Keys10To11();
    Keys12To13();
    Keys14To15();
    Keys16To17();
  }

  /** No two entries share a lookup key, so the first-match scan has at most one candidate. */
  lemma EntryKeysDistinct()
    ensures forall i, j :: 0 <= i < j < |ReactionTable| ==>
              KeyOf(ReactionTable[i].reactants) != KeyOf(ReactionTable[j].reactants)
  {
    EntryKeysComputed();
    SpelledKeysDistinct();
  }

  lemma SpelledKeysDistinct()
    ensures forall i, j :: 0 <= i < j < |EntryKeys| ==> EntryKeys[i] != EntryKeys[j]
  {
  }

  /** No entry has the empty key, the key of an empty reactant list. */
  lemma NoEntryKeyEmpty()
    ensures forall i :: 0 <= i < |ReactionTable| ==> KeyOf(ReactionTable[i].reactants) != ""
  {
    EntriesWellFormed();
    forall i | 0 <= i < |ReactionTable| ensures KeyOf(ReactionTable[i].reactants) != "" {
      KeyEmptyIff(ReactionTable[i].reactants);
    }
  }

  /** The hydrogen peroxide decomposition is the one entry with a single reactant. */
  lemma SingleReactantEntry()
    ensures ReactionTable[15].reactants == ["H₂O₂"]
    ensures forall i :: 0 <= i < |ReactionTable| && |ReactionTable[i].reactants| != 2 ==> i == 15
  {
    WellFormedFirstSix();
    WellFormedMiddleSix();
  }

  /** The fixed miss result reports no reaction and no products. */
  lemma NoReactionFoundFields()
    ensures !NoReactionFound.isReactionPossible
    ensures NoReactionFound.products == []
    ensures NoReactionFound.reactionType == "None"
    ensures NoReactionFound.balancedEquation == "Reaction Not in Database"
  {
  }
}
