/**
 * The environment the agent plays against. Its own dynamics are outside the
 * model: it is a finite stream of step outcomes read through a cursor, and
 * `Reset` hands out a fixed initial state.
 */
module Environment {

  /** What one call of `step` reports: the next state, the reward and whether the episode is over. */
  datatype Outcome<S> = Outcome(next: S, reward: int, done: bool)

  class Env<S> {
    /** The state `reset` returns. */
    const start: S
    /** The size `n` of the discrete action space. */
    const actionCount: nat
    /** Every outcome `step` will ever report, in order. */
    const outcomes: seq<Outcome<S>>
    /** How many outcomes have been reported so far. */
    var pos: nat
    /** The actions passed to `step`, in order. */
    ghost var taken: seq<nat>

    ghost predicate Valid()
      reads this`pos
    {
      pos <= |outcomes|
    }

    constructor (start: S, actionCount: nat, outcomes: seq<Outcome<S>>)
      ensures Valid()
      ensures this.start == start && this.actionCount == actionCount && this.outcomes == outcomes
      ensures pos == 0 && taken == []
    {
      this.start := start;
      this.actionCount := actionCount;
      this.outcomes := outcomes;
      pos := 0;
      taken := [];
    }

    method Reset() returns (s: S)
      ensures s == start
    {
      s := start;
    }

    /** Report the next outcome of the stream and record the action taken. */
    method Step(action: nat) returns (o: Outcome<S>)
      requires Valid() && pos < |outcomes|
      modifies this`pos, this`taken
      ensures Valid()
      ensures o == outcomes[old(pos)] && pos == old(pos) + 1
      ensures taken == old(taken) + [action]
    {
      o := outcomes[pos];
      pos := pos + 1;
      taken := taken + [action];
    }
  }
}
