/**
 The order-independent lookup key of services/reactionService.ts: the
 formulas of a reactant list, sorted lexicographically and joined with '-'.
 The same construction is applied to the live reactant list and to the
 formula list of every database entry.
 */
module ReactionKey {
  import opened Types
  import opened Sorting
  import Lexicographic

  const Separator: char := '-'

  /** `Array.prototype.join('-')`: the empty list joins to "", one element to itself. */
  function Join(xs: seq<string>): string
  {
    if |xs| == 0 then ""
    else if |xs| == 1 then xs[0]
    else xs[0] + [Separator] + Join(xs[1..])
  }

  /** A join starts with its first element, followed by the separator when more follow. */
  lemma JoinShape(xs: seq<string>)
    requires |xs| > 0
    ensures |Join(xs)| >= |xs[0]| && Join(xs)[..|xs[0]|] == xs[0]
    ensures |xs| == 1 ==> Join(xs) == xs[0]
    ensures |xs| > 1 ==> |Join(xs)| > |xs[0]| && Join(xs)[|xs[0]|] == Separator
                         && Join(xs)[|xs[0]| + 1..] == Join(xs[1..])
  {
    if |xs| > 1 {
      var s := Join(xs);
      assert s == xs[0] + ([Separator] + Join(xs[1..]));
    }
  }

  /** A formula that can be read back out of a key: non-empty and free of the separator. */
  predicate Separable(f: Formula)
  {
    |f| > 0 && Separator !in f
  }

  predicate AllSeparable(fs: seq<Formula>)
  {
    forall i :: 0 <= i < |fs| ==> Separable(fs[i])
  }

  /** `[...formulas].sort().join('-')`, the key of a database entry. */
  function KeyOf(formulas: seq<Formula>): string
  {
    Join(Sort(formulas))
  }

  /** `createReactantKey`: the key of a live reactant list, built from its formulas. */
  function CreateReactantKey(reactants: seq<Reactant>): string
  {
    KeyOf(Formulas(reactants))
  }

  /** Sorting keeps separability, since it keeps the elements. */
  lemma SortKeepsSeparable(fs: seq<Formula>)
    requires AllSeparable(fs)
    ensures AllSeparable(Sort(fs))
  {
    var s := Sort(fs);
    SortSpec(fs);
    forall i | 0 <= i < |s| ensures Separable(s[i]) {
      assert s[i] in multiset(s);
      assert s[i] in multiset(fs);
    }
  }

  /** Over separable formulas the key is empty exactly for the empty list. */
  lemma KeyEmptyIff(fs: seq<Formula>)
    requires AllSeparable(fs)
    ensures KeyOf(fs) == "" <==> |fs| == 0
  {
    SortKeepsSeparable(fs);
    SortSpec(fs);
    JoinEmptyIff(Sort(fs));
  }

  /** Where the first field of `s` ends: its first separator, or its end. */
  function FieldEnd(s: string): (n: nat)
    ensures n <= |s|
    ensures forall k :: 0 <= k < n ==> s[k] != Separator
    ensures n < |s| ==> s[n] == Separator
  {
    if |s| == 0 || s[0] == Separator then 0 else 1 + FieldEnd(s[1..])
  }

  /**
   Reads a key back into its fields, like `key.split('-')`. The source never
   splits keys; `Split` is the inverse that shows joining loses nothing.
   */
  function Split(s: string): (r: seq<string>)
    ensures |r| > 0
    decreases |s|
  {
    var n := FieldEnd(s);
    if n == |s| then [s] else [s[..n]] + Split(s[n + 1..])
  }

  /** The first separator is the only index with the three properties of `FieldEnd`. */
  lemma FieldEndUnique(s: string, m: nat)
    requires m <= |s|
    requires forall k :: 0 <= k < m ==> s[k] != Separator
    requires m < |s| ==> s[m] == Separator
    ensures FieldEnd(s) == m
  {
  }

  /** Splitting a joined list of separable strings gives the list back. */
  lemma {:induction false} SplitJoin(xs: seq<string>)
    requires |xs| > 0 && AllSeparable(xs)
    ensures Split(Join(xs)) == xs
  {
    var s, a := Join(xs), xs[0];
    JoinShape(xs);
    forall k | 0 <= k < |a| ensures s[k] != Separator {
      assert s[k] == s[..|a|][k] == a[k];
    }
    FieldEndUnique(s, |a|);
    if |xs| == 1 {
      assert s == a;
    } else {
      assert s[..|a|] == a;
      SplitJoin(xs[1..]);
      assert xs == [a] + xs[1..];
    }
  }

  /** Over separable strings only the empty list joins to "". */
  lemma JoinEmptyIff(xs: seq<string>)
    requires AllSeparable(xs)
    ensures Join(xs) == "" <==> |xs| == 0
  {
    if |xs| > 0 {
      JoinShape(xs);
    }
  }

  /** Joining separable strings loses nothing: equal joins come from equal lists. */
  lemma JoinInjective(xs: seq<string>, ys: seq<string>)
    requires AllSeparable(xs) && AllSeparable(ys)
    requires Join(xs) == Join(ys)
    ensures xs == ys
  {
    JoinEmptyIff(xs);
    JoinEmptyIff(ys);
    if |xs| > 0 && |ys| > 0 {
      SplitJoin(xs);
      SplitJoin(ys);
    }
  }

  /**
   Over separable formulas, two lists have the same key exactly when they hold
   the same formulas with the same multiplicities, in whatever order.
   */
  lemma KeyEqualIffSameFormulas(xs: seq<Formula>, ys: seq<Formula>)
    requires AllSeparable(xs) && AllSeparable(ys)
    ensures KeyOf(xs) == KeyOf(ys) <==> multiset(xs) == multiset(ys)
  {
    if multiset(xs) == multiset(ys) {
      SortPermutationInvariant(xs, ys);
    }
    if KeyOf(xs) == KeyOf(ys) {
      SortKeepsSeparable(xs);
      SortKeepsSeparable(ys);
      JoinInjective(Sort(xs), Sort(ys));
      SortSpec(xs);
      SortSpec(ys);
    }
  }

  /**
   The key of a reactant list depends only on the multiset of its formulas:
   not on the order of the list, nor on any reactant's name, id or amount.
   */
  lemma ReactantKeyPermutationInvariant(rs: seq<Reactant>, ts: seq<Reactant>)
    requires multiset(Formulas(rs)) == multiset(Formulas(ts))
    ensures CreateReactantKey(rs) == CreateReactantKey(ts)
  {
    SortPermutationInvariant(Formulas(rs), Formulas(ts));
  }

  /** Reversing a two-reactant list does not change its key. */
  lemma ReactantKeySwap(x: Reactant, y: Reactant)
    ensures CreateReactantKey([x, y]) == CreateReactantKey([y, x])
  {
    assert Formulas([x, y]) == [x.formula, y.formula];
    assert Formulas([y, x]) == [y.formula, x.formula];
    ReactantKeyPermutationInvariant([x, y], [y, x]);
  }

  /**
   The separator condition cannot be dropped: a single formula that contains
   '-' collides with the two formulas it spells, and the empty formula
   collides with the empty list.
   */
  lemma SeparatorCollisions()
    ensures KeyOf(["HCl-NaOH"]) == KeyOf(["HCl", "NaOH"])
    ensures multiset(["HCl-NaOH"]) != multiset(["HCl", "NaOH"])
    ensures KeyOf([""]) == KeyOf([])
  {
    assert Lexicographic.Below("HCl", "NaOH");
  }

  /** The key keeps multiplicity: a repeated formula is not merged into one. */
  lemma KeyKeepsMultiplicity()
    ensures KeyOf(["HCl", "HCl"]) == "HCl-HCl"
    ensures KeyOf(["HCl", "HCl"]) != KeyOf(["HCl"])
  {
    Lexicographic.BelowIrreflexive("HCl");
  }
}
