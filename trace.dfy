/**
 * The calls an agent makes to its `learn` hook while it plays episodes,
 * stated from the outcomes the environment reports and the actions the agent
 * chooses.
 */
module Trace {
  import opened Wrappers
  import opened Environment
  import opened Episodes

  /** The arguments of one call of `learn`. */
  datatype Transition<S> = Transition(
    state: S, action: nat, reward: int, nextState: S, nextAction: Option<nat>, done: bool)

  /**
   * The state step `j` of a run resumed at `from` is taken from: the state the
   * previous step reached, or `start` when the step opens an episode.
   */
  function StateAt<S>(start: S, os: seq<Outcome<S>>, from: nat, j: nat): S
    requires from + j <= |os|
  {
    if j == 0 || os[from + j - 1].done then start else os[from + j - 1].next
  }

  /** The states the first `k` steps of a run resumed at `from` are taken from. */
  function States<S>(start: S, os: seq<Outcome<S>>, from: nat, k: nat): seq<S>
    requires from + k <= |os|
  {
    seq(k, j requires 0 <= j < k => StateAt(start, os, from, j))
  }

  /**
   * The call of `learn` for the step at position `from + j` of the stream,
   * when play resumed at `from` and took the actions `acts`, one per step. The
   * step starts in the state `StateAt` gives; it hands on the next action
   * unless it ended the episode.
   */
  function CallAt<S>(start: S, os: seq<Outcome<S>>, from: nat, acts: seq<nat>, j: nat): Transition<S>
    requires j < |acts| && from + |acts| <= |os|
  {
    var o := os[from + j];
    Transition(StateAt(start, os, from, j),
               acts[j], o.reward, o.next,
               if !o.done && j + 1 < |acts| then Some(acts[j + 1]) else None,
               o.done)
  }

  /** The calls of `learn` for the steps at positions `from` onwards, one per action taken. */
  function Calls<S>(start: S, os: seq<Outcome<S>>, from: nat, acts: seq<nat>): seq<Transition<S>>
    requires from + |acts| <= |os|
  {
    seq(|acts|, j requires 0 <= j < |acts| => CallAt(start, os, from, acts, j))
  }

  /**
   * Within one episode, every call but the last is for a step that did not end
   * the episode and hands on the action that the next step takes from the state
   * it reached; the last call is for the step flagged `done` and hands on no action.
   */
  lemma LearnProtocol<S>(start: S, os: seq<Outcome<S>>, from: nat, acts: seq<nat>)
    requires DoneCount(os, from) > 0 && |acts| == EpisodeEnd(os, from) + 1 - from
    ensures var t := Calls(start, os, from, acts);
      && |t| == |acts| && t[0].state == start
      && (forall j :: 0 <= j < |t| ==> t[j].action == acts[j] && t[j].reward == os[from + j].reward)
      && (forall j :: 0 <= j < |t| - 1 ==>
            !t[j].done && t[j].nextAction == Some(t[j + 1].action) && t[j + 1].state == t[j].nextState)
      && t[|t| - 1].done && t[|t| - 1].nextAction == None
  {
    EpisodeEndIsFirst(os, from);
    var t := Calls(start, os, from, acts);
    forall j | 0 <= j < |t| - 1
      ensures !t[j].done && t[j].nextAction == Some(t[j + 1].action) && t[j + 1].state == t[j].nextState
    {
      assert !os[from + j].done;
    }
  }

  /** The calls of the first `i` steps do not depend on actions chosen after step `i`. */
  lemma CallsStable<S>(start: S, os: seq<Outcome<S>>, from: nat, acts: seq<nat>, more: seq<nat>, i: nat)
    requires i < |acts| && from + |acts| + |more| <= |os|
    ensures Calls(start, os, from, acts + more)[..i] == Calls(start, os, from, acts)[..i]
  {
  }

  /** The calls of the first `i + 1` steps are those of the first `i` steps and the call for step `i`. */
  lemma CallsGrow<S>(start: S, os: seq<Outcome<S>>, from: nat, acts: seq<nat>, i: nat)
    requires i < |acts| && from + |acts| <= |os|
    ensures Calls(start, os, from, acts)[..i + 1] == Calls(start, os, from, acts)[..i] + [CallAt(start, os, from, acts, i)]
  {
  }

  /**
   * Step `i` of a run, taken from `state` with the last of the actions `acts`,
   * did not end the episode: it adds the call that hands on the next action
   * chosen, which joins the actions taken.
   */
  lemma CallsStepOn<S>(start: S, os: seq<Outcome<S>>, from: nat, before: seq<Transition<S>>,
                       acts: seq<nat>, i: nat, state: S, next: nat)
    requires |acts| == i + 1 && from + i + 2 <= |os| && !os[from + i].done
    requires i == 0 || !os[from + i - 1].done
    requires state == if i == 0 then start else os[from + i - 1].next
    ensures before + Calls(start, os, from, acts + [next])[..i + 1]
      == before + Calls(start, os, from, acts)[..i]
         + [Transition(state, acts[i], os[from + i].reward, os[from + i].next, Some(next), false)]
  {
    CallsStable(start, os, from, acts, [next], i);
    CallsGrow(start, os, from, acts + [next], i);
  }

  /**
   * Step `i` of a run, taken from `state` with the last of the actions `acts`,
   * ended the episode: it adds the call that hands on no action, completing
   * the run's calls.
   */
  lemma CallsStepDone<S>(start: S, os: seq<Outcome<S>>, from: nat, before: seq<Transition<S>>,
                         acts: seq<nat>, i: nat, state: S)
    requires |acts| == i + 1 && from + i + 1 <= |os| && os[from + i].done
    requires i == 0 || !os[from + i - 1].done
    requires state == if i == 0 then start else os[from + i - 1].next
    ensures before + Calls(start, os, from, acts)
      == before + Calls(start, os, from, acts)[..i]
         + [Transition(state, acts[i], os[from + i].reward, os[from + i].next, None, true)]
  {
    CallsGrow(start, os, from, acts, i);
    assert Calls(start, os, from, acts)[..i + 1] == Calls(start, os, from, acts);
  }

  /**
   * Step `i` of a run did not end the episode, so the next step is taken from
   * the state it reached: after the states `before`, the states of the first
   * `i + 2` steps are those of the first `i + 1` followed by that state.
   */
  lemma StatesStepOn<S>(start: S, os: seq<Outcome<S>>, from: nat, before: seq<S>, i: nat)
    requires from + i + 2 <= |os| && !os[from + i].done
    ensures before + States(start, os, from, i + 2) == before + States(start, os, from, i + 1) + [os[from + i].next]
  {
    assert States(start, os, from, i + 2) == States(start, os, from, i + 1) + [os[from + i].next];
  }

  /** The states of a run split at an episode boundary into those before it and those after it. */
  lemma StatesAppend<S>(start: S, os: seq<Outcome<S>>, from: nat, k: nat, m: nat)
    requires from + k + m <= |os| && (k == 0 || os[from + k - 1].done)
    ensures States(start, os, from, k + m) == States(start, os, from, k) + States(start, os, from + k, m)
  {
  }

  /**
   * The agent chooses its actions in the states the calls of `learn` start
   * from: the action of step `j` is chosen in the state of call `j`, and when
   * step `j` did not end the episode, the action it hands on was chosen in the
   * state it reached.
   */
  lemma ChoiceProtocol<S>(start: S, os: seq<Outcome<S>>, from: nat, acts: seq<nat>)
    requires from + |acts| <= |os|
    ensures var t, s := Calls(start, os, from, acts), States(start, os, from, |acts|);
      && |s| == |t|
      && (forall j :: 0 <= j < |t| ==> s[j] == t[j].state)
      && (forall j :: 0 <= j < |t| - 1 && !t[j].done ==> s[j + 1] == t[j].nextState)
  {
  }

  /** The calls of a run that ends on an episode boundary, followed by more steps, are its own calls followed by theirs. */
  lemma CallsAppend<S>(start: S, os: seq<Outcome<S>>, from: nat, acts: seq<nat>, more: seq<nat>)
    requires from + |acts| + |more| <= |os| && (acts == [] || os[from + |acts| - 1].done)
    ensures Calls(start, os, from, acts + more) == Calls(start, os, from, acts) + Calls(start, os, from + |acts|, more)
  {
  }

  /**
   * Playing one more whole episode after `e` of them moves the stream to the end
   * of episode `e + 1`, adds that episode's return, and appends its calls of
   * `learn`, and the states its actions were chosen in, to those so far.
   */
  lemma AppendEpisode<S>(start: S, os: seq<Outcome<S>>, from: nat, e: nat, played: seq<nat>, episode: seq<nat>)
    requires DoneCount(os, from) > e && from + |played| == EndAfter(os, from, e)
    requires |episode| == EpisodeEnd(os, EndAfter(os, from, e)) + 1 - EndAfter(os, from, e)
    ensures from + |played + episode| == EndAfter(os, from, e + 1)
    ensures os[EndAfter(os, from, e + 1) - 1].done
    ensures Returns(os, from, e + 1) == Returns(os, from, e) + EpisodeReturn(os, EndAfter(os, from, e))
    ensures Calls(start, os, from, played + episode) == Calls(start, os, from, played) + Calls(start, os, EndAfter(os, from, e), episode)
    ensures States(start, os, from, |played + episode|)
      == States(start, os, from, |played|) + States(start, os, EndAfter(os, from, e), |episode|)
  {
    NextEpisode(os, from, e);
    CallsAppend(start, os, from, played, episode);
    StatesAppend(start, os, from, |played|, |episode|);
  }

  /**
   * Across a run of whole episodes, a call hands on no action exactly when its
   * step ended an episode. Otherwise the next call continues from the state
   * reached, with the action handed on; after an episode ends, the next call
   * starts again from `start`.
   */
  lemma RunProtocol<S>(start: S, os: seq<Outcome<S>>, from: nat, acts: seq<nat>)
    requires from + |acts| <= |os| && (|acts| > 0 ==> os[from + |acts| - 1].done)
    ensures var t := Calls(start, os, from, acts);
      && (|t| > 0 ==> t[0].state == start)
      && (forall j :: 0 <= j < |t| ==> (t[j].nextAction == None <==> t[j].done))
      && (forall j :: 0 <= j < |t| - 1 ==>
            if t[j].done then t[j + 1].state == start
            else t[j + 1].state == t[j].nextState && t[j].nextAction == Some(t[j + 1].action))
  {
  }

  /** The sum of the rewards handed to `learn`, in call order. */
  function LearnedReward<S>(t: seq<Transition<S>>): int {
    if t == [] then 0 else LearnedReward(t[..|t| - 1]) + t[|t| - 1].reward
  }

  /** The first `k` calls of `learn` are handed exactly the rewards of the first `k` steps. */
  lemma {:induction false} LearnedRewardPrefix<S>(start: S, os: seq<Outcome<S>>, from: nat, acts: seq<nat>, k: nat)
    requires from + |acts| <= |os| && k <= |acts|
    ensures LearnedReward(Calls(start, os, from, acts)[..k]) == SumRewards(os, from, from + k)
    decreases k
  {
    if k > 0 {
      var t := Calls(start, os, from, acts);
      assert t[..k][..k - 1] == t[..k - 1];
      LearnedRewardPrefix(start, os, from, acts, k - 1);
    }
  }

  /** What `n` whole episodes return in total is what their calls of `learn` were handed. */
  lemma ReturnsAreLearnedRewards<S>(start: S, os: seq<Outcome<S>>, from: nat, acts: seq<nat>, n: nat)
    requires from <= |os| && DoneCount(os, from) >= n && from + |acts| == EndAfter(os, from, n)
    ensures Returns(os, from, n) == LearnedReward(Calls(start, os, from, acts))
  {
    ReturnsAreConsumedRewards(os, from, n);
    var t := Calls(start, os, from, acts);
    assert t[..|acts|] == t;
    LearnedRewardPrefix(start, os, from, acts, |acts|);
  }
}
