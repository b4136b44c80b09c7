/** Vocabulary shared by every state machine of the model. */
module Common {

  datatype Option<+T> = None | Some(value: T)

  /** Time on one clock, in nanoseconds. */
  type Time = int

  /**
   * A finite history of actions, newest last. Positions in a history are counted
   * from 1, so the position of the newest action is the length of the history.
   */
  datatype Run<A> = Empty | Then(before: Run<A>, last: A)
  {
    function Length(): nat {
      if Empty? then 0 else before.Length() + 1
    }
  }

  /** `later` continues `earlier`: the same actions, possibly followed by more. */
  ghost predicate Continues<A>(later: Run<A>, earlier: Run<A>) {
    later == earlier || (later.Then? && Continues(later.before, earlier))
  }

  lemma {:induction false} ContinuesTransitive<A>(h3: Run<A>, h2: Run<A>, h1: Run<A>)
    requires Continues(h3, h2) && Continues(h2, h1)
    ensures Continues(h3, h1)
  {
    if h3 != h2 {
      ContinuesTransitive(h3.before, h2, h1);
    }
  }

  lemma {:induction false} ContinuesLength<A>(later: Run<A>, earlier: Run<A>)
    requires Continues(later, earlier)
    ensures earlier.Length() <= later.Length()
  {
    if later != earlier {
      ContinuesLength(later.before, earlier);
    }
  }
}
