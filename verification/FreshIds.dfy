/** Identifiers not in use yet. */
module FreshIds {
  /** A number above all of the given ones. */
  lemma {:induction false} FreshId(keys: set<nat>) returns (id: nat)
    ensures forall k :: k in keys ==> k < id
    decreases keys
  {
    id := 0;
    if keys != {} {
      var k :| k in keys;
      var b := FreshId(keys - {k});
      id := if b > k then b else k + 1;
      assert forall x :: x in keys ==> x == k || x in keys - {k};
    }
  }
}
