/**
 The order JavaScript's `Array.prototype.sort` uses when no comparator is
 given: strings compared character by character, a proper prefix first.
 */
module Lexicographic {

  /** `a` sorts strictly before `b`. */
  predicate Below(a: string, b: string)
  {
    if |a| == 0 then |b| > 0
    else if |b| == 0 then false
    else a[0] < b[0] || (a[0] == b[0] && Below(a[1..], b[1..]))
  }

  /** `a` may sort before or together with `b`. */
  predicate NotAbove(a: string, b: string)
  {
    !Below(b, a)
  }

  lemma {:induction false} BelowIrreflexive(a: string)
    ensures !Below(a, a)
  {
    if |a| > 0 {
      BelowIrreflexive(a[1..]);
    }
  }

  lemma {:induction false} BelowAsymmetric(a: string, b: string)
    requires Below(a, b)
    ensures !Below(b, a)
  {
    if |a| > 0 && |b| > 0 && a[0] == b[0] {
      BelowAsymmetric(a[1..], b[1..]);
    }
  }

  lemma {:induction false} BelowTransitive(a: string, b: string, c: string)
    requires Below(a, b) && Below(b, c)
    ensures Below(a, c)
  {
    if |a| > 0 && a[0] == b[0] && b[0] == c[0] {
      BelowTransitive(a[1..], b[1..], c[1..]);
    }
  }

  /** Any two different strings are ordered one way or the other. */
  lemma {:induction false} BelowTotal(a: string, b: string)
    requires a != b
    ensures Below(a, b) || Below(b, a)
  {
    if |a| > 0 && |b| > 0 && a[0] == b[0] {
      assert a == [a[0]] + a[1..] && b == [b[0]] + b[1..];
      BelowTotal(a[1..], b[1..]);
    }
  }

  /** `NotAbove` is a total order: reflexive, antisymmetric, transitive, total. */
  lemma NotAboveTotalOrder(a: string, b: string, c: string)
    ensures NotAbove(a, a)
    ensures NotAbove(a, b) && NotAbove(b, a) ==> a == b
    ensures NotAbove(a, b) && NotAbove(b, c) ==> NotAbove(a, c)
    ensures NotAbove(a, b) || NotAbove(b, a)
  {
    BelowIrreflexive(a);
    if a != b {
      BelowTotal(a, b);
      if Below(a, b) { BelowAsymmetric(a, b); } else { BelowAsymmetric(b, a); }
    }
    if NotAbove(a, b) && NotAbove(b, c) && Below(c, a) {
      if a == b {
      } else if b == c {
      } else {
        BelowTotal(a, b);
        BelowTotal(b, c);
        BelowTransitive(a, b, c);
        BelowAsymmetric(a, c);
      }
    }
  }
}
