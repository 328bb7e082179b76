/** Unused identifiers: a finite set of numbers never has them all. */
module Identifiers {

  lemma {:induction false} Bounded(ids: set<nat>)
    returns (bound: nat)
    ensures forall id :: id in ids ==> id < bound
    decreases |ids|
  {
    if ids == {} {
      bound := 0;
    } else {
      var id :| id in ids;
      var smaller := Bounded(ids - {id});
      bound := if smaller < id + 1 then id + 1 else smaller;
      forall other | other in ids ensures other < bound {
        assert other == id || other in ids - {id};
      }
    }
  }

  lemma {:induction false} Unused(ids: set<nat>)
    returns (id: nat)
    ensures id !in ids
  {
    id := Bounded(ids);
  }
}
