/** Facts about finite sets used when a loop takes the elements of a set one
    at a time, in an order left open. */
module Sets {
  /** A set other than the empty one has an element. */
  lemma NonEmptyHasElement(s: set<int>)
    requires s != {}
    ensures exists x :: x in s
  {
    if forall x :: x !in s {
      assert false;
    }
  }
}
