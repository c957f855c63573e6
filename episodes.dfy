/**
 * Facts about a stream of step outcomes read from a cursor position on, as a
 * sequence of episodes: each episode runs up to and including the first
 * outcome flagged `done`.
 */
module Episodes {
  import opened Environment

  /** The number of outcomes at or after `from` that end an episode. */
  function DoneCount<S>(os: seq<Outcome<S>>, from: nat): nat
    decreases |os| - from
  {
    if from >= |os| then 0 else (if os[from].done then 1 else 0) + DoneCount(os, from + 1)
  }

  /** The position of the step that ends the episode starting at `from`. */
  function EpisodeEnd<S>(os: seq<Outcome<S>>, from: nat): (k: nat)
    requires DoneCount(os, from) > 0
    ensures from <= k < |os| && os[k].done
    ensures DoneCount(os, k + 1) == DoneCount(os, from) - 1
    decreases |os| - from
  {
    if os[from].done then from else EpisodeEnd(os, from + 1)
  }

  /** No outcome between `from` and the episode's end is flagged `done`. */
  lemma {:induction false} EpisodeEndIsFirst<S>(os: seq<Outcome<S>>, from: nat)
    requires DoneCount(os, from) > 0
    ensures forall j :: from <= j < EpisodeEnd(os, from) ==> !os[j].done
    decreases |os| - from
  {
    if !os[from].done {
      EpisodeEndIsFirst(os, from + 1);
    }
  }

  /** The sum of the rewards at positions `lo` up to (not including) `hi`, accumulated front to back as the episode loop does. */
  function SumRewards<S>(os: seq<Outcome<S>>, lo: nat, hi: nat): int
    requires lo <= hi <= |os|
    decreases hi - lo
  {
    if hi == lo then 0 else SumRewards(os, lo, hi - 1) + os[hi - 1].reward
  }

  /** Reward sums over adjacent ranges add up. */
  lemma {:induction false} SumRewardsSplit<S>(os: seq<Outcome<S>>, lo: nat, mid: nat, hi: nat)
    requires lo <= mid <= hi <= |os|
    ensures SumRewards(os, lo, hi) == SumRewards(os, lo, mid) + SumRewards(os, mid, hi)
    decreases hi - mid
  {
    if hi > mid {
      SumRewardsSplit(os, lo, mid, hi - 1);
    }
  }

  /** The reward collected over the episode starting at `from`. */
  function EpisodeReturn<S>(os: seq<Outcome<S>>, from: nat): int
    requires DoneCount(os, from) > 0
  {
    SumRewards(os, from, EpisodeEnd(os, from) + 1)
  }

  /** The position right after `n` consecutive episodes starting at `from`. */
  function EndAfter<S>(os: seq<Outcome<S>>, from: nat, n: nat): (c: nat)
    requires DoneCount(os, from) >= n
    ensures from + n <= c && (n > 0 ==> c <= |os| && os[c - 1].done)
    ensures DoneCount(os, c) == DoneCount(os, from) - n
    decreases n
  {
    if n == 0 then from else EndAfter(os, EpisodeEnd(os, from) + 1, n - 1)
  }

  /** The sum of the returns of `n` consecutive episodes starting at `from`. */
  function Returns<S>(os: seq<Outcome<S>>, from: nat, n: nat): int
    requires DoneCount(os, from) >= n
    decreases n
  {
    if n == 0 then 0 else EpisodeReturn(os, from) + Returns(os, EpisodeEnd(os, from) + 1, n - 1)
  }

  /** Playing one episode more ends at that episode's end and adds its return. */
  lemma {:induction false} NextEpisode<S>(os: seq<Outcome<S>>, from: nat, n: nat)
    requires DoneCount(os, from) > n
    ensures EndAfter(os, from, n + 1) == EpisodeEnd(os, EndAfter(os, from, n)) + 1
    ensures Returns(os, from, n + 1) == Returns(os, from, n) + EpisodeReturn(os, EndAfter(os, from, n))
    decreases n
  {
    if n > 0 {
      NextEpisode(os, EpisodeEnd(os, from) + 1, n - 1);
    }
  }

  /** The returns of `n` episodes add up to every reward those episodes consumed. */
  lemma {:induction false} ReturnsAreConsumedRewards<S>(os: seq<Outcome<S>>, from: nat, n: nat)
    requires from <= |os| && DoneCount(os, from) >= n
    ensures Returns(os, from, n) == SumRewards(os, from, EndAfter(os, from, n))
    decreases n
  {
    if n > 0 {
      var e := EpisodeEnd(os, from) + 1;
      ReturnsAreConsumedRewards(os, e, n - 1);
      SumRewardsSplit(os, from, e, EndAfter(os, from, n));
    }
  }
}
