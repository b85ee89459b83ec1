/** What several modules need of options and sequences. */
module Basics {

  datatype Option<+T> = None | Some(value: T)

  predicate Distinct(c: seq<nat>) {
    forall i, j | 0 <= i < j < |c| :: c[i] != c[j]
  }

  function Elems(c: seq<nat>): set<nat> {
    set n | n in c
  }

  lemma {:induction false} ElemsSize(c: seq<nat>)
    requires Distinct(c)
    ensures |Elems(c)| == |c|
  {
    if c == [] {
      assert Elems(c) == {};
    } else {
      var front, last := c[..|c| - 1], c[|c| - 1];
      ElemsSize(front);
      assert c == front + [last];
      assert Elems(c) == Elems(front) + {last};
      assert last !in Elems(front);
    }
  }
}
