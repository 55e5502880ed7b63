/** A number not yet in use. */
module FreshIds {

  ghost function Fresh(used: set<nat>): (w: nat)
    ensures w !in used
  {
    Bound(used)
  }

  ghost function Bound(used: set<nat>): (b: nat)
    ensures forall x :: x in used ==> x < b
    decreases |used|
  {
    if used == {} then 0
    else
      var x :| x in used;
      assert used == {x} + (used - {x});
      var b := Bound(used - {x});
      if x < b then b else x + 1
  }
}
