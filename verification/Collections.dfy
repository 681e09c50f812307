/** Facts about finite sets and sequences that several components share. */
module Collections {

  predicate NoDup(s: seq<nat>) { forall i, j | 0 <= i < j < |s| :: s[i] != s[j] }

  lemma {:induction false} CardinalityOfSubset(a: set<nat>, b: set<nat>)
    requires a <= b
    ensures |a| <= |b|
    decreases b
  {
    if b != {} {
      var x: nat :| x in b;
      CardinalityOfSubset(a - {x}, b - {x});
    }
  }
}
