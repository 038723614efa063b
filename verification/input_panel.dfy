/**
 The reactant-list rules of components/InputPanel.tsx: `addReactant`,
 `removeReactant` and `updateReactantAmount`, each a pure map from the old
 list to the new one. The id of a new reactant comes from the clock in the
 source; here it is a parameter. So is the list of chemicals `addReactant`
 looks the selection up in: the panel uses the catalog `AvailableChemicals`.
 */
module InputPanel {
  import opened Types
  import opened Catalog
  import opened ReactionKey

  /** At most this many reactants take part in one experiment. */
  const MaxReactants: nat := 4

  /** The amount a newly added reactant starts with. */
  const DefaultAmount: int := 5

  /** The bounds of the amount slider. */
  const MinAmount: int := 1
  const MaxAmount: int := 10

  /** Some reactant of the list carries the formula. */
  predicate HasFormula(reactants: seq<Reactant>, formula: Formula)
  {
    exists i :: 0 <= i < |reactants| && reactants[i].formula == formula
  }

  /** `addReactant` accepts the selection: room left, an offered formula, not present yet. */
  predicate Accepts(catalog: seq<Chemical>, reactants: seq<Reactant>, selected: Formula)
  {
    |reactants| < MaxReactants && Offers(catalog, selected) && !HasFormula(reactants, selected)
  }

  /**
   `addReactant`: appends a reactant for the selected catalog formula, with the
   catalog name, the given id and the default amount; leaves the list as it is
   when it is full, when the formula is not in the catalog, or when a reactant
   with that formula is already present.
   */
  function AddReactant(catalog: seq<Chemical>, reactants: seq<Reactant>, selected: Formula, freshId: string)
    : (r: seq<Reactant>)
    ensures !Accepts(catalog, reactants, selected) ==> r == reactants
    ensures Accepts(catalog, reactants, selected) ==>
              && |r| == |reactants| + 1
              && r[..|reactants|] == reactants
              && r[|reactants|].formula == selected
              && Chemical(r[|reactants|].name, selected) in catalog
              && r[|reactants|].id == freshId
              && r[|reactants|].amount == DefaultAmount
  {
    if |reactants| >= MaxReactants then reactants
    else
      match FindChemical(catalog, selected)
      case None => reactants
      case Some(chemical) =>
        if HasFormula(reactants, selected) then reactants
        else reactants + [Reactant(chemical.name, chemical.formula, freshId, DefaultAmount)]
  }

  /** `removeReactant`: `reactants.filter(r => r.id !== id)`. */
  function RemoveReactant(reactants: seq<Reactant>, id: string): (r: seq<Reactant>)
    ensures |r| <= |reactants|
    ensures forall x :: x in r <==> x in reactants && x.id != id
    ensures forall x :: multiset(r)[x] == if x.id == id then 0 else multiset(reactants)[x]
  {
    if |reactants| == 0 then []
    else
      assert reactants == [reactants[0]] + reactants[1..];
      var rest := RemoveReactant(reactants[1..], id);
      if reactants[0].id == id then rest else [reactants[0]] + rest
  }

  /**
   `updateReactantAmount`: `reactants.map(r => r.id === id ? { ...r, amount } : r)`.
   Length, order, names, formulas and ids are kept; only the amounts of the
   reactants with that id change, to `amount`.
   */
  function UpdateReactantAmount(reactants: seq<Reactant>, id: string, amount: int): (r: seq<Reactant>)
    ensures |r| == |reactants|
    ensures forall i :: 0 <= i < |r| ==>
              && r[i].name == reactants[i].name
              && r[i].formula == reactants[i].formula
              && r[i].id == reactants[i].id
              && r[i].amount == (if reactants[i].id == id then amount else reactants[i].amount)
  {
    if |reactants| == 0 then []
    else
      var head := if reactants[0].id == id then reactants[0].(amount := amount) else reactants[0];
      [head] + UpdateReactantAmount(reactants[1..], id, amount)
  }

  /** Removing from a concatenation removes from each part: the order of survivors is kept. */
  lemma {:induction false} RemoveDistributes(a: seq<Reactant>, b: seq<Reactant>, id: string)
    ensures RemoveReactant(a + b, id) == RemoveReactant(a, id) + RemoveReactant(b, id)
  {
    if |a| > 0 {
      assert (a + b)[1..] == a[1..] + b;
      RemoveDistributes(a[1..], b, id);
    } else {
      assert a + b == b;
    }
  }

  /** The session invariant: at most four reactants, no formula twice. */
  predicate SessionInvariant(reactants: seq<Reactant>)
  {
    |reactants| <= MaxReactants && FormulasUnique(reactants)
  }

  /** Every reactant of the list carries a formula the catalog offers. */
  predicate FromCatalog(catalog: seq<Chemical>, reactants: seq<Reactant>)
  {
    forall i :: 0 <= i < |reactants| ==> Offers(catalog, reactants[i].formula)
  }

  /** Every amount lies within the slider bounds. */
  predicate AmountsInRange(reactants: seq<Reactant>)
  {
    forall i :: 0 <= i < |reactants| ==> MinAmount <= reactants[i].amount <= MaxAmount
  }

  /** Adding keeps the session invariant, catalog origin and amount bounds. */
  lemma AddPreservesInvariant(catalog: seq<Chemical>, reactants: seq<Reactant>, selected: Formula, freshId: string)
    ensures SessionInvariant(reactants) ==> SessionInvariant(AddReactant(catalog, reactants, selected, freshId))
    ensures FromCatalog(catalog, reactants) ==> FromCatalog(catalog, AddReactant(catalog, reactants, selected, freshId))
    ensures AmountsInRange(reactants) ==> AmountsInRange(AddReactant(catalog, reactants, selected, freshId))
  {
    if Accepts(catalog, reactants, selected) {
      var r := AddReactant(catalog, reactants, selected, freshId);
      AddedKeepsPrefix(catalog, reactants, selected, freshId);
      AddedUnique(reactants, r);
      assert Offers(catalog, r[|reactants|].formula);
    }
  }

  /** An accepted addition leaves the old reactants in place, at the same indices. */
  lemma AddedKeepsPrefix(catalog: seq<Chemical>, reactants: seq<Reactant>, selected: Formula, freshId: string)
    requires Accepts(catalog, reactants, selected)
    ensures forall i :: 0 <= i < |reactants| ==> AddReactant(catalog, reactants, selected, freshId)[i] == reactants[i]
  {
    var r := AddReactant(catalog, reactants, selected, freshId);
    forall i | 0 <= i < |reactants| ensures r[i] == reactants[i] {
      assert r[i] == r[..|reactants|][i];
    }
  }

  /** Appending a reactant whose formula is new to a list of unique formulas keeps them unique. */
  lemma AddedUnique(reactants: seq<Reactant>, r: seq<Reactant>)
    requires |r| == |reactants| + 1
    requires forall i :: 0 <= i < |reactants| ==> r[i] == reactants[i]
    requires !HasFormula(reactants, r[|reactants|].formula)
    ensures FormulasUnique(reactants) ==> FormulasUnique(r)
  {
  }

  /** Removal keeps a subsequence, so each property of the list survives it. */
  lemma RemovePreservesInvariant(catalog: seq<Chemical>, reactants: seq<Reactant>, id: string)
    ensures SessionInvariant(reactants) ==> SessionInvariant(RemoveReactant(reactants, id))
    ensures FromCatalog(catalog, reactants) ==> FromCatalog(catalog, RemoveReactant(reactants, id))
    ensures AmountsInRange(reactants) ==> AmountsInRange(RemoveReactant(reactants, id))
  {
    var r := RemoveReactant(reactants, id);
    if FormulasUnique(reactants) {
      RemoveKeepsFormulasUnique(reactants, id);
    }
    forall i | 0 <= i < |r| ensures r[i] in reactants {
    }
  }

  /** No formula occurs twice in the list. */
  predicate FormulasUnique(reactants: seq<Reactant>)
  {
    forall i, j :: 0 <= i < j < |reactants| ==> reactants[i].formula != reactants[j].formula
  }

  lemma {:induction false} RemoveKeepsFormulasUnique(reactants: seq<Reactant>, id: string)
    requires FormulasUnique(reactants)
    ensures FormulasUnique(RemoveReactant(reactants, id))
  {
    if |reactants| > 0 {
      var head, tail := reactants[0], reactants[1..];
      assert FormulasUnique(tail) by {
        forall i, j | 0 <= i < j < |tail| ensures tail[i].formula != tail[j].formula {
          assert tail[i] == reactants[i + 1] && tail[j] == reactants[j + 1];
        }
      }
      RemoveKeepsFormulasUnique(tail, id);
      if head.id != id {
        var rest := RemoveReactant(tail, id);
        forall k | 0 <= k < |rest| ensures rest[k].formula != head.formula {
          assert rest[k] in tail;
          var m :| 0 <= m < |tail| && tail[m] == rest[k];
          assert tail[m] == reactants[m + 1];
        }
        PrependKeepsUnique(head, rest);
      }
    }
  }

  lemma PrependKeepsUnique(head: Reactant, rest: seq<Reactant>)
    requires FormulasUnique(rest)
    requires forall k :: 0 <= k < |rest| ==> rest[k].formula != head.formula
    ensures FormulasUnique([head] + rest)
  {
    var r := [head] + rest;
    forall i, j | 0 <= i < j < |r| ensures r[i].formula != r[j].formula {
      assert r[j] == rest[j - 1];
      if i > 0 {
        assert r[i] == rest[i - 1];
      }
    }
  }

  /**
   Amount edits keep every formula, so they keep the invariant and catalog
   origin; edits within the slider bounds keep all amounts within them.
   */
  lemma UpdatePreservesInvariant(catalog: seq<Chemical>, reactants: seq<Reactant>, id: string, amount: int)
    ensures SessionInvariant(reactants) ==> SessionInvariant(UpdateReactantAmount(reactants, id, amount))
    ensures FromCatalog(catalog, reactants) ==> FromCatalog(catalog, UpdateReactantAmount(reactants, id, amount))
    ensures AmountsInRange(reactants) && MinAmount <= amount <= MaxAmount ==>
              AmountsInRange(UpdateReactantAmount(reactants, id, amount))
  {
    var r := UpdateReactantAmount(reactants, id, amount);
    assert forall i :: 0 <= i < |r| ==> r[i].formula == reactants[i].formula;
  }

  /** A list whose reactants all come from the catalog has separable formulas only. */
  lemma FromCatalogSeparable(reactants: seq<Reactant>)
    requires FromCatalog(AvailableChemicals, reactants)
    ensures AllSeparable(Formulas(reactants))
  {
    forall i | 0 <= i < |reactants| ensures Separable(Formulas(reactants)[i]) {
      InCatalogSeparable(reactants[i].formula);
    }
  }

  /** Removing an id no reactant carries leaves the list as it is. */
  lemma {:induction false} RemoveAbsentId(reactants: seq<Reactant>, id: string)
    requires forall i :: 0 <= i < |reactants| ==> reactants[i].id != id
    ensures RemoveReactant(reactants, id) == reactants
  {
    if |reactants| > 0 {
      RemoveAbsentId(reactants[1..], id);
      assert reactants == [reactants[0]] + reactants[1..];
    }
  }

  /** Removing a just-added reactant by its fresh id undoes the addition. */
  lemma AddThenRemove(catalog: seq<Chemical>, reactants: seq<Reactant>, selected: Formula, freshId: string)
    requires forall i :: 0 <= i < |reactants| ==> reactants[i].id != freshId
    ensures RemoveReactant(AddReactant(catalog, reactants, selected, freshId), freshId) == reactants
  {
    RemoveAbsentId(reactants, freshId);
    var r := AddReactant(catalog, reactants, selected, freshId);
    if Accepts(catalog, reactants, selected) {
      assert r == reactants + [r[|reactants|]];
      RemoveDistributes(reactants, [r[|reactants|]], freshId);
    }
  }

  /** The last amount edit for an id wins: an earlier edit of the same id is forgotten. */
  lemma UpdateOverwrites(reactants: seq<Reactant>, id: string, first: int, second: int)
    ensures UpdateReactantAmount(UpdateReactantAmount(reactants, id, first), id, second)
            == UpdateReactantAmount(reactants, id, second)
  {
  }

  /** Setting a reactant's amount to the value it already has changes nothing. */
  lemma UpdateSameAmount(reactants: seq<Reactant>, k: nat)
    requires k < |reactants|
    requires forall i :: 0 <= i < |reactants| && reactants[i].id == reactants[k].id ==>
               reactants[i].amount == reactants[k].amount
    ensures UpdateReactantAmount(reactants, reactants[k].id, reactants[k].amount) == reactants
  {
  }

  /** An accepted addition appends exactly the selected formula to the list's formulas. */
  lemma AddedFormulas(catalog: seq<Chemical>, reactants: seq<Reactant>, selected: Formula, freshId: string)
    requires Accepts(catalog, reactants, selected)
    ensures Formulas(AddReactant(catalog, reactants, selected, freshId)) == Formulas(reactants) + [selected]
  {
    AddedKeepsPrefix(catalog, reactants, selected, freshId);
  }

  /**
   Two different catalog formulas added one after the other to the empty list
   are both accepted, in that order.
   */
  lemma AddTwoDistinct(catalog: seq<Chemical>, first: Formula, second: Formula, firstId: string, secondId: string)
    requires Offers(catalog, first) && Offers(catalog, second) && first != second
    ensures Formulas(AddReactant(catalog, AddReactant(catalog, [], first, firstId), second, secondId)) == [first, second]
  {
    AddedFormulas(catalog, [], first, firstId);
    var one := AddReactant(catalog, [], first, firstId);
    assert Formulas(one) == [first];
    assert !HasFormula(one, second) by {
      assert forall i :: 0 <= i < |one| ==> one[i].formula == Formulas(one)[i];
    }
    AddedFormulas(catalog, one, second, secondId);
  }

  /** A fifth reactant is always refused. */
  lemma FullListRefusesAdd(catalog: seq<Chemical>, reactants: seq<Reactant>, selected: Formula, freshId: string)
    requires |reactants| >= MaxReactants
    ensures AddReactant(catalog, reactants, selected, freshId) == reactants
  {
  }

  /** A formula already present is refused. */
  lemma DuplicateFormulaRefused(catalog: seq<Chemical>, reactants: seq<Reactant>, k: nat, freshId: string)
    requires k < |reactants|
    ensures AddReactant(catalog, reactants, reactants[k].formula, freshId) == reactants
  {
  }
}
