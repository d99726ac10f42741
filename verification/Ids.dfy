/** Ids are the creation numbers of rows and calls: there is always a new one. */
module Ids {

  lemma {:induction false} AboveAll(taken: set<nat>) returns (t: nat)
    ensures forall x | x in taken :: x < t
    decreases |taken|
  {
    if taken == {} {
      t := 0;
    } else {
      var x :| x in taken;
      var rest := AboveAll(taken - {x});
      t := if rest > x then rest else x + 1;
      assert forall y | y in taken :: y == x || y in taken - {x};
    }
  }
}
