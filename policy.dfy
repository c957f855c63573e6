/** The epsilon-greedy policy that a greedy agent consults to pick an action. */
module Policy {

  /** The policy only carries its exploration rate; it is rebuilt on every reset. */
  datatype EGreedyPolicy = EGreedyPolicy(epsilon: real)

  /**
   * Calling the policy on an action-value table picks one of the table's
   * actions. The random draw between exploring and exploiting is not modelled:
   * any action of the table may come back.
   */
  method Select(policy: EGreedyPolicy, values: map<nat, int>) returns (a: nat)
    requires values != map[]
    ensures a in values
  {
    a :| a in values;
  }
}
