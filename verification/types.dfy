/**
 The data shapes shared by the reaction resolver and the experiment panel
 (types.ts). Strings are sequences of Unicode characters; formulas use
 subscript digits such as '₂' (U+2082), all inside the Basic Multilingual
 Plane, so comparing characters agrees with comparing UTF-16 code units.
 */
module Types {

  /** A chemical formula such as "H₂SO₄". */
  type Formula = string

  /** The conventional optional value, used for `Array.prototype.find` results. */
  datatype Option<+T> = None | Some(value: T)

  /** A catalog entry: identified by its formula. */
  datatype Chemical = Chemical(name: string, formula: Formula)

  /**
   One user-added instance of a chemical. `id` identifies the instance (not the
   chemical); `amount` is a relative quantity that the slider keeps in 1..10.
   */
  datatype Reactant = Reactant(name: string, formula: Formula, id: string, amount: int)

  datatype Product = Product(name: string, state: string)

  /** The output of one resolution attempt, whichever backend produced it. */
  datatype ReactionResult = ReactionResult(
    isReactionPossible: bool,
    balancedEquation: string,
    products: seq<Product>,
    reactionType: string,
    explanation: string,
    visualObservation: string,
    safetyWarning: string
  )

  /** The formulas of a reactant list, in list order (`reactants.map(r => r.formula)`). */
  function Formulas(reactants: seq<Reactant>): (fs: seq<Formula>)
    ensures |fs| == |reactants|
    ensures forall i :: 0 <= i < |reactants| ==> fs[i] == reactants[i].formula
  {
    seq(|reactants|, i requires 0 <= i < |reactants| => reactants[i].formula)
  }
}
