/** Facts about sequences of numbers that more than one component needs. */
module Sequences {
  predicate Ascending(ns: seq<nat>) {
    forall i, j :: 0 <= i < j < |ns| ==> ns[i] < ns[j]
  }

  /** Taking a middle piece out leaves what is around it, in the same order. */
  lemma MiddleOut(a: seq<nat>, b: seq<nat>, c: seq<nat>, bound: nat)
    requires var all := a + b + c; Ascending(all) && forall i :: 0 <= i < |all| ==> all[i] < bound
    ensures var all := a + c; Ascending(all) && forall i :: 0 <= i < |all| ==> all[i] < bound
  {
    var long, short := a + b + c, a + c;
    forall i | 0 <= i < |short| ensures short[i] == long[if i < |a| then i else i + |b|] {
    }
  }
}
