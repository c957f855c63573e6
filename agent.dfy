/**
 * The agent side of the interaction loop: the base agent's episode and scoring
 * loops, with the greedy agent's fixed action space, policy and action-value
 * table. Learning rules belong to concrete agents; here `Learn` is the hook
 * they fill in, and the model records every call made to it.
 */
module Agent {
  import opened Wrappers
  import opened Environment
  import opened Episodes
  import opened Trace
  import opened Policy

  /** The hyperparameters `SetParams` may assign; an absent entry keeps its current value. */
  datatype Params = Params(epsilon: Option<real>, nbEpisodes: Option<nat>)

  /** What `ActionValues` answers: one estimate when asked about one action, the whole table otherwise. */
  datatype ValueQuery = One(value: int) | Table(values: map<nat, int>)

  /** The list of actions `0, 1, ..., n - 1`. */
  function Range(n: nat): (r: seq<nat>)
    ensures |r| == n
    ensures forall i :: 0 <= i < n ==> r[i] == i
  {
    if n == 0 then [] else Range(n - 1) + [n - 1]
  }

  /** An action is in the list `Range(n)` exactly when it is below `n`. */
  lemma InRange(n: nat, a: nat)
    ensures a in Range(n) <==> a < n
  {
    if a < n {
      assert Range(n)[a] == a;
    }
  }

  /** Concatenation of sequences is associative. */
  lemma Associative<T>(a: seq<T>, b: seq<T>, c: seq<T>)
    ensures a + (b + c) == (a + b) + c
  {
  }

  class GreedyAgent<S> {
    const env: Env<S>
    /** Episodes per call of `Score`. */
    var nbEpisodes: nat
    /** Exploration rate the policy is built from. */
    var epsilon: real
    const actionSpaceDim: nat
    const actionSpace: seq<nat>
    var policy: EGreedyPolicy
    /** The action-value estimate of an action in a state, as the concrete agent computes it. */
    const model: (S, nat) -> int
    /** Reward collected over the agent's lifetime since the last reset. */
    var totalReward: int
    /** Non-terminal steps taken since the last reset. */
    var globalStep: nat
    /** Every action `ChooseAction` returned, in order. */
    ghost var chosen: seq<nat>
    /** Every state `ChooseAction` was asked to choose in, in order. */
    ghost var chosenIn: seq<S>
    /** Every call of `Learn`, in order. */
    ghost var learned: seq<Transition<S>>

    ghost predicate Valid()
      reads this`chosen, env`pos
    {
      && env.Valid()
      && actionSpaceDim == env.actionCount
      && actionSpaceDim > 0
      && actionSpace == Range(actionSpaceDim)
      && forall j :: 0 <= j < |chosen| ==> chosen[j] < actionSpaceDim
    }

    constructor (env: Env<S>, nbEpisodes: nat, model: (S, nat) -> int, epsilon: real := 0.1)
      requires env.Valid() && env.actionCount > 0
      ensures Valid()
      ensures this.env == env && this.nbEpisodes == nbEpisodes && this.model == model && this.epsilon == epsilon
      ensures actionSpace == Range(env.actionCount)
      ensures policy == EGreedyPolicy(epsilon) && totalReward == 0 && globalStep == 0
      ensures chosen == [] && chosenIn == [] && learned == []
    {
      this.epsilon := epsilon;
      this.env := env;
      this.nbEpisodes := nbEpisodes;
      this.model := model;
      actionSpaceDim := env.actionCount;
      actionSpace := Range(env.actionCount);
      chosen, chosenIn, learned := [], [], [];
      new;
      Reset();
    }

    /** The base agent's reset: both counters back to zero. */
    method ResetCounters()
      modifies this`totalReward, this`globalStep
      ensures totalReward == 0 && globalStep == 0
    {
      totalReward := 0;
      globalStep := 0;
    }

    /** The greedy agent's reset: the base reset, then a policy built afresh from the current epsilon. */
    method Reset()
      modifies this`totalReward, this`globalStep, this`policy
      ensures totalReward == 0 && globalStep == 0
      ensures policy == EGreedyPolicy(epsilon)
    {
      ResetCounters();
      policy := EGreedyPolicy(epsilon);
    }

    /** Assign every given hyperparameter, then reset. */
    method SetParams(p: Params)
      requires Valid()
      modifies this`epsilon, this`nbEpisodes, this`totalReward, this`globalStep, this`policy
      ensures Valid()
      ensures epsilon == p.epsilon.GetOr(old(epsilon))
      ensures nbEpisodes == p.nbEpisodes.GetOr(old(nbEpisodes))
      ensures totalReward == 0 && globalStep == 0
      ensures policy == EGreedyPolicy(epsilon)
    {
      if p.epsilon.Some? {
        epsilon := p.epsilon.value;
      }
      if p.nbEpisodes.Some? {
        nbEpisodes := p.nbEpisodes.value;
      }
      Reset();
    }

    /**
     * The estimate of `action` in `state` when an action is given; otherwise the
     * table of the estimates of every action of the action space.
     */
    function ActionValues(state: S, action: Option<nat>): (r: ValueQuery)
      requires Valid()
      reads this`chosen, env`pos
      ensures action.Some? ==> r == One(model(state, action.value))
      ensures action.None? ==> r.Table? && forall a: nat :: a in r.values <==> a < actionSpaceDim
      ensures action.None? ==> forall a :: a in r.values ==> r.values[a] == model(state, a)
      decreases if action.None? then 1 else 0
    {
      if action.Some? then One(model(state, action.value))
      else
        assert forall a: nat :: a in actionSpace <==> a < actionSpaceDim by {
          forall a: nat {
            InRange(actionSpaceDim, a);
          }
        }
        Table(map a | a in actionSpace :: ActionValues(state, Some(a)).value)
    }

    /** Ask the policy for an action, given the table of estimates in `state`. */
    method ChooseAction(state: S) returns (a: nat)
      requires Valid()
      modifies this`chosen, this`chosenIn
      ensures Valid()
      ensures a < actionSpaceDim
      ensures chosen == old(chosen) + [a] && chosenIn == old(chosenIn) + [state]
    {
      var values := ActionValues(state, None).values;
      assert 0 in values;
      a := Select(policy, values);
      chosen, chosenIn := chosen + [a], chosenIn + [state];
    }

    /** The learning hook of the concrete agents; the model records the call. */
    method Learn(state: S, action: nat, reward: int, nextState: S, nextAction: Option<nat>, done: bool)
      modifies this`learned
      ensures learned == old(learned) + [Transition(state, action, reward, nextState, nextAction, done)]
    {
      learned := learned + [Transition(state, action, reward, nextState, nextAction, done)];
    }

    /**
     * Play one episode: reset the environment, choose a first action, then step
     * until a step reports `done`, learning from every step.
     */
    method PlayOneEpisode() returns (currentReward: int, ghost played: seq<nat>)
      requires Valid()
      requires DoneCount(env.outcomes, env.pos) > 0
      modifies this`totalReward, this`globalStep, this`chosen, this`chosenIn, this`learned, env`pos, env`taken
      ensures Valid()
      ensures var p, end := old(env.pos), EpisodeEnd(env.outcomes, old(env.pos));
        && currentReward == EpisodeReturn(env.outcomes, p)
        && totalReward == old(totalReward) + currentReward
        && env.pos == end + 1
        && globalStep == old(globalStep) + (end - p)
        && |played| == end + 1 - p
        && chosen == old(chosen) + played
        && chosenIn == old(chosenIn) + States(env.start, env.outcomes, p, |played|)
        && env.taken == old(env.taken) + played
        && learned == old(learned) + Calls(env.start, env.outcomes, p, played)
    {
      ghost var os, p0, l0, s0 := env.outcomes, env.pos, learned, chosenIn;
      ghost var end := EpisodeEnd(os, p0);
      EpisodeEndIsFirst(os, p0);
      var state := env.Reset();
      var action := ChooseAction(state);
      played := [action];
      assert States(env.start, os, p0, 1) == [state];
      ghost var stepped := [];
      currentReward := 0;
      ghost var i: nat := 0;
      while true
        invariant Valid()
        invariant p0 + i <= end && env.pos == p0 + i
        invariant currentReward == SumRewards(os, p0, p0 + i)
        invariant totalReward == old(totalReward) + currentReward
        invariant globalStep == old(globalStep) + i
        invariant chosen == old(chosen) + played
        invariant chosenIn == s0 + States(env.start, os, p0, i + 1)
        invariant |stepped| == i && stepped + [action] == played
        invariant state == if i == 0 then env.start else os[p0 + i - 1].next
        invariant env.taken == old(env.taken) + stepped
        invariant learned == l0 + Calls(env.start, os, p0, played)[..i]
        decreases end - (p0 + i)
      {
        var o := env.Step(action);
        Associative(old(env.taken), stepped, [action]);
        stepped := stepped + [action];
        currentReward := currentReward + o.reward;
        totalReward := totalReward + o.reward;
        if o.done {
          assert p0 + i == end;
          CallsStepDone(env.start, os, p0, l0, played, i, state);
          Learn(state, action, o.reward, o.next, None, o.done);
          break;
        }
        assert p0 + i < end;
        var nextAction := ChooseAction(o.next);
        CallsStepOn(env.start, os, p0, l0, played, i, state, nextAction);
        StatesStepOn(env.start, os, p0, s0, i);
        Associative(old(chosen), played, [nextAction]);
        played := played + [nextAction];
        Learn(state, action, o.reward, o.next, Some(nextAction), o.done);
        action := nextAction;
        state := o.next;
        globalStep := globalStep + 1;
        i := i + 1;
      }
    }

    /** Play `nbEpisodes` episodes in a row and add up what they return. */
    method Score() returns (total: int, ghost played: seq<nat>)
      requires Valid()
      requires DoneCount(env.outcomes, env.pos) >= nbEpisodes
      modifies this`totalReward, this`globalStep, this`chosen, this`chosenIn, this`learned, env`pos, env`taken
      ensures Valid()
      ensures var p, end := old(env.pos), EndAfter(env.outcomes, old(env.pos), nbEpisodes);
        && total == Returns(env.outcomes, p, nbEpisodes)
        && totalReward == old(totalReward) + total
        && env.pos == end
        && globalStep == old(globalStep) + (end - p) - nbEpisodes
        && |played| == end - p
        && chosen == old(chosen) + played
        && chosenIn == old(chosenIn) + States(env.start, env.outcomes, p, |played|)
        && env.taken == old(env.taken) + played
        && learned == old(learned) + Calls(env.start, env.outcomes, p, played)
    {
      ghost var os, p0 := env.outcomes, env.pos;
      played := [];
      total := 0;
      for e := 0 to nbEpisodes
        invariant Valid()
        invariant env.pos == EndAfter(os, p0, e) && env.pos == p0 + |played|
        invariant total == Returns(os, p0, e)
        invariant totalReward == old(totalReward) + total
        invariant globalStep == old(globalStep) + |played| - e
        invariant chosen == old(chosen) + played
        invariant chosenIn == old(chosenIn) + States(env.start, os, p0, |played|)
        invariant env.taken == old(env.taken) + played
        invariant learned == old(learned) + Calls(env.start, os, p0, played)
      {
        var r, episode := PlayOneEpisode();
        AppendEpisode(env.start, os, p0, e, played, episode);
        Associative(old(chosen), played, episode);
        Associative(old(chosenIn), States(env.start, os, p0, |played|), States(env.start, os, EndAfter(os, p0, e), |episode|));
        Associative(old(env.taken), played, episode);
        Associative(old(learned), Calls(env.start, os, p0, played), Calls(env.start, os, EndAfter(os, p0, e), episode));
        total := total + r;
        played := played + episode;
      }
    }

    /** Scoring right after a reset: the lifetime total then equals the score. */
    method ResetAndScore() returns (total: int)
      requires Valid()
      requires DoneCount(env.outcomes, env.pos) >= nbEpisodes
      modifies this`totalReward, this`globalStep, this`policy, this`chosen, this`chosenIn, this`learned, env`pos, env`taken
      ensures Valid()
      ensures total == Returns(env.outcomes, old(env.pos), nbEpisodes)
      ensures totalReward == total && policy == EGreedyPolicy(epsilon)
    {
      Reset();
      ghost var played;
      total, played := Score();
    }
  }
}
