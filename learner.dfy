/**
 * The bookkeeping of the training and evaluation loops of
 * cyberbattle/agents/baseline/learner.py. The learner (explore, exploit),
 * the wrapped environment (step) and the random draws are oracles indexed by
 * episode and step; the loops' own counters, statistics, reward lists,
 * running means, epsilon and detection-point tables are modelled exactly,
 * with rewards as exact reals.
 */
module Learner {
  import opened Model

  // ----------------------------------------------------------- statistics

  /** What the step's action was: 'local_vulnerability', 'remote_vulnerability', or a connection. */
  datatype ActionKind = LocalVulnerability | RemoteVulnerability | Connect

  datatype Breakdown = Breakdown(local: nat, remote: nat, connect: nat)
  datatype Outcomes = Outcomes(reward: Breakdown, noreward: Breakdown)
  datatype Stats = Stats(exploit: Outcomes, explore: Outcomes, exploitDeflectedToExplore: nat)

  const ZeroBreakdown: Breakdown := Breakdown(0, 0, 0)
  const NewStats: Stats := Stats(Outcomes(ZeroBreakdown, ZeroBreakdown), Outcomes(ZeroBreakdown, ZeroBreakdown), 0)

  /** One of the twelve counters, addressed by action type, outcome and kind. */
  function Counter(s: Stats, exploit: bool, rewarded: bool, kind: ActionKind): nat
  {
    var o := if exploit then s.exploit else s.explore;
    var b := if rewarded then o.reward else o.noreward;
    match kind
    case LocalVulnerability => b.local
    case RemoteVulnerability => b.remote
    case Connect => b.connect
  }

  function BreakdownTotal(b: Breakdown): nat
  {
    b.local + b.remote + b.connect
  }

  /** The sum of the twelve counters. */
  function Total(s: Stats): nat
  {
    BreakdownTotal(s.exploit.reward) + BreakdownTotal(s.exploit.noreward) +
    BreakdownTotal(s.explore.reward) + BreakdownTotal(s.explore.noreward)
  }

  function Bump(b: Breakdown, kind: ActionKind): Breakdown
  {
    match kind
    case LocalVulnerability => b.(local := b.local + 1)
    case RemoteVulnerability => b.(remote := b.remote + 1)
    case Connect => b.(connect := b.connect + 1)
  }

  /** The statistics after counting one step: exactly one of the twelve counters goes up by one. */
  function Count(s: Stats, exploit: bool, rewarded: bool, kind: ActionKind): (r: Stats)
    ensures forall x, y, k :: Counter(r, x, y, k) == Counter(s, x, y, k) + (if x == exploit && y == rewarded && k == kind then 1 else 0)
    ensures Total(r) == Total(s) + 1
    ensures r.exploitDeflectedToExplore == s.exploitDeflectedToExplore
  {
    var o := if exploit then s.exploit else s.explore;
    var o' := if rewarded then o.(reward := Bump(o.reward, kind)) else o.(noreward := Bump(o.noreward, kind));
    if exploit then s.(exploit := o') else s.(explore := o')
  }

  /**
   * The success rate `print_stats` shows for one kind: None stands for the
   * 'NaN' printed when neither counter moved, otherwise the exact share of
   * rewarded steps (its two-decimal rendering is not modelled).
   */
  function Ratio(rewarded: nat, unrewarded: nat): (r: Option<real>)
    ensures r.None? <==> rewarded + unrewarded == 0
    ensures r.Some? ==> 0.0 <= r.value <= 1.0 && r.value * (rewarded + unrewarded) as real == rewarded as real
  {
    var sum := rewarded + unrewarded;
    if sum == 0 then None else Some(rewarded as real / sum as real)
  }

  // -------------------------------------------------------------- oracles

  /**
   * Everything the loops receive from outside, at episode `e` and step `t`:
   * the random draw, the learner's explore and exploit proposals (a style and
   * an action; exploit may propose none), the environment's reward and done
   * flag, and the deception trackers' trigger times at the end of an episode.
   */
  datatype Oracles = Oracles(
    draw: (nat, nat) -> real,
    explore: (nat, nat) -> (string, ActionKind),
    exploit: (nat, nat) -> (string, Option<ActionKind>),
    step: (nat, nat) -> (real, bool),
    trackers: nat -> seq<(string, seq<int>)>)

  /** The step explores rather than exploits: only in training, when the draw is at most epsilon. */
  predicate Explores(o: Oracles, training: bool, epsilon: real, e: nat, t: nat)
  {
    training && o.draw(e, t) <= epsilon
  }

  /** Exploitation proposed no action, so the step falls back on exploration. */
  predicate Deflected(o: Oracles, training: bool, epsilon: real, e: nat, t: nat)
  {
    !Explores(o, training, epsilon, e, t) && o.exploit(e, t).1.None?
  }

  /** The style the step is filed under: exploit's style is kept when it deflects to explore's action. */
  function StyleAt(o: Oracles, training: bool, epsilon: real, e: nat, t: nat): string
  {
    if Explores(o, training, epsilon, e, t) then o.explore(e, t).0 else o.exploit(e, t).0
  }

  /** The action the step takes. */
  function ActionAt(o: Oracles, training: bool, epsilon: real, e: nat, t: nat): ActionKind
  {
    if Explores(o, training, epsilon, e, t) || o.exploit(e, t).1.None? then o.explore(e, t).1 else o.exploit(e, t).1.value
  }

  /** The statistics of episode `e` after its first `n` steps. */
  function StatsAfter(o: Oracles, training: bool, epsilon: real, e: nat, n: nat): Stats
  {
    if n == 0 then NewStats
    else
      var s := StatsAfter(o, training, epsilon, e, n - 1);
      var s' := if Deflected(o, training, epsilon, e, n) then s.(exploitDeflectedToExplore := s.exploitDeflectedToExplore + 1) else s;
      Count(s', StyleAt(o, training, epsilon, e, n) == "exploit", o.step(e, n).0 > 0.0, ActionAt(o, training, epsilon, e, n))
  }

  /** One step adds one to the twelve counters, and one to the deflection counter when it deflects. */
  lemma StatsStep(o: Oracles, training: bool, epsilon: real, e: nat, n: nat)
    requires n > 0
    ensures Total(StatsAfter(o, training, epsilon, e, n)) == Total(StatsAfter(o, training, epsilon, e, n - 1)) + 1
    ensures StatsAfter(o, training, epsilon, e, n).exploitDeflectedToExplore ==
            StatsAfter(o, training, epsilon, e, n - 1).exploitDeflectedToExplore + (if Deflected(o, training, epsilon, e, n) then 1 else 0)
  {
    var s := StatsAfter(o, training, epsilon, e, n - 1);
    var s' := if Deflected(o, training, epsilon, e, n) then s.(exploitDeflectedToExplore := s.exploitDeflectedToExplore + 1) else s;
    assert Total(s') == Total(s);
    assert StatsAfter(o, training, epsilon, e, n) ==
           Count(s', StyleAt(o, training, epsilon, e, n) == "exploit", o.step(e, n).0 > 0.0, ActionAt(o, training, epsilon, e, n));
  }

  /** Each step is counted exactly once: the twelve counters add up to the number of steps. */
  lemma {:induction false} StatsTotal(o: Oracles, training: bool, epsilon: real, e: nat, n: nat)
    ensures Total(StatsAfter(o, training, epsilon, e, n)) == n
    decreases n
  {
    if n == 0 {
      assert StatsAfter(o, training, epsilon, e, n) == NewStats;
    } else {
      StatsTotal(o, training, epsilon, e, n - 1);
      StatsStep(o, training, epsilon, e, n);
    }
  }

  /**
   * The deflection counter counts the steps whose exploitation proposed no
   * action; it stays at zero as long as exploitation always proposes one.
   */
  lemma {:induction false} DeflectionsCounted(o: Oracles, training: bool, epsilon: real, e: nat, n: nat)
    ensures StatsAfter(o, training, epsilon, e, n).exploitDeflectedToExplore <= n
    ensures (forall t :: 1 <= t <= n ==> !Deflected(o, training, epsilon, e, t)) ==>
              StatsAfter(o, training, epsilon, e, n).exploitDeflectedToExplore == 0
    ensures n > 0 ==> StatsAfter(o, training, epsilon, e, n).exploitDeflectedToExplore ==
                      StatsAfter(o, training, epsilon, e, n - 1).exploitDeflectedToExplore + (if Deflected(o, training, epsilon, e, n) then 1 else 0)
  {
    if n > 0 {
      DeflectionsCounted(o, training, epsilon, e, n - 1);
      StatsStep(o, training, epsilon, e, n);
    }
  }

  // -------------------------------------------------------------- episodes

  /** The sum of a list of rewards. */
  function Sum(s: seq<real>): real
  {
    if s == [] then 0.0 else Sum(s[..|s| - 1]) + s[|s| - 1]
  }

  lemma SumAppend(s: seq<real>, x: real)
    ensures Sum(s + [x]) == Sum(s) + x
  {
    assert (s + [x])[..|s|] == s;
  }

  /** The first step from `t` on at which the environment is done, or `iterationCount` when there is none. */
  function FirstDone(step: (nat, nat) -> (real, bool), e: nat, t: nat, iterationCount: nat): (n: nat)
    requires t >= 1
    ensures n <= iterationCount && (t <= iterationCount ==> t <= n)
    decreases iterationCount + 1 - t
  {
    if t > iterationCount then iterationCount
    else if step(e, t).1 then t
    else FirstDone(step, e, t + 1, iterationCount)
  }

  /** The number of steps episode `e` runs. */
  function EpisodeLength(step: (nat, nat) -> (real, bool), e: nat, iterationCount: nat): (n: nat)
    ensures n <= iterationCount && (iterationCount >= 1 ==> n >= 1)
  {
    FirstDone(step, e, 1, iterationCount)
  }

  lemma {:induction false} FirstDoneFacts(step: (nat, nat) -> (real, bool), e: nat, t: nat, iterationCount: nat)
    requires 1 <= t
    ensures var n := FirstDone(step, e, t, iterationCount);
            && (forall k :: t <= k < n ==> !step(e, k).1)
            && ((exists k :: t <= k <= iterationCount && step(e, k).1) ==> step(e, n).1)
            && ((forall k :: t <= k <= iterationCount ==> !step(e, k).1) ==> n == iterationCount)
    decreases iterationCount + 1 - t
  {
    if t <= iterationCount && !step(e, t).1 {
      FirstDoneFacts(step, e, t + 1, iterationCount);
    }
  }

  /**
   * An episode runs until the first step at which the environment is done,
   * and for `iterationCount` steps when it never is; never longer.
   */
  lemma EpisodeLengthFacts(step: (nat, nat) -> (real, bool), e: nat, iterationCount: nat)
    ensures var n := EpisodeLength(step, e, iterationCount);
            && (forall t :: 1 <= t < n ==> !step(e, t).1)
            && ((exists t :: 1 <= t <= iterationCount && step(e, t).1) ==> step(e, n).1)
            && ((forall t :: 1 <= t <= iterationCount ==> !step(e, t).1) ==> n == iterationCount)
  {
    FirstDoneFacts(step, e, 1, iterationCount);
  }

  /** The rewards of the first `n` steps of episode `e`. */
  function RewardsOf(step: (nat, nat) -> (real, bool), e: nat, n: nat): (r: seq<real>)
    ensures |r| == n && forall k :: 0 <= k < n ==> r[k] == step(e, k + 1).0
  {
    seq(n, k requires 0 <= k < n => step(e, k + 1).0)
  }

  /** No step before `t` ends the episode. */
  predicate NoneDoneBefore(step: (nat, nat) -> (real, bool), e: nat, t: nat)
  {
    t <= 1 || (NoneDoneBefore(step, e, t - 1) && !step(e, t - 1).1)
  }

  lemma {:induction false} NoneDoneBeforeFacts(step: (nat, nat) -> (real, bool), e: nat, t: nat)
    requires NoneDoneBefore(step, e, t)
    ensures forall k :: 1 <= k < t ==> !step(e, k).1
  {
    if t > 1 {
      NoneDoneBeforeFacts(step, e, t - 1);
    }
  }

  lemma RewardsStep(step: (nat, nat) -> (real, bool), e: nat, n: nat)
    ensures RewardsOf(step, e, n + 1) == RewardsOf(step, e, n) + [step(e, n + 1).0]
  {
    assert RewardsOf(step, e, n + 1)[..n] == RewardsOf(step, e, n);
  }

  /** The summed reward of episode `e`. */
  function EpisodeReturn(step: (nat, nat) -> (real, bool), e: nat, iterationCount: nat): real
  {
    Sum(RewardsOf(step, e, EpisodeLength(step, e, iterationCount)))
  }

  /** What one episode yields to the outer loop. */
  datatype Episode = Episode(rewards: seq<real>, totalReward: real, endedAt: Option<nat>, stats: Stats, stepsDone: nat)

  /**
   * The inner loop shared by `epsilon_greedy_search` (learner.py:582-646) and
   * `evaluate_model` (learner.py:250-307): each step the global step counter
   * moves by one, the action is chosen, taken and counted, and its reward
   * recorded, until the environment is done or the iteration count is reached.
   */
  method RunEpisode(o: Oracles, training: bool, epsilon: real, e: nat, iterationCount: nat, stepsBefore: nat) returns (ep: Episode)
    ensures |ep.rewards| == EpisodeLength(o.step, e, iterationCount)
    ensures ep.rewards == RewardsOf(o.step, e, |ep.rewards|)
    ensures ep.stepsDone == stepsBefore + |ep.rewards|
    ensures ep.totalReward == Sum(ep.rewards) == EpisodeReturn(o.step, e, iterationCount)
    ensures ep.stats == StatsAfter(o, training, epsilon, e, |ep.rewards|)
    ensures ep.endedAt.Some? ==> ep.endedAt.value == |ep.rewards| && o.step(e, |ep.rewards|).1
    ensures ep.endedAt.None? ==> |ep.rewards| == iterationCount && forall t :: 1 <= t <= iterationCount ==> !o.step(e, t).1
  {
    var stepsDone := stepsBefore;
    var totalReward := 0.0;
    var rewards: seq<real> := [];
    var stats := NewStats;
    var endedAt: Option<nat> := None;
    var t := 1;
    while t <= iterationCount
      invariant 1 <= t <= iterationCount + 1
      invariant rewards == RewardsOf(o.step, e, t - 1)
      invariant stepsDone == stepsBefore + t - 1
      invariant totalReward == Sum(rewards)
      invariant stats == StatsAfter(o, training, epsilon, e, t - 1)
      invariant NoneDoneBefore(o.step, e, t)
      invariant FirstDone(o.step, e, t, iterationCount) == EpisodeLength(o.step, e, iterationCount)
    {
      var done;
      stepsDone, totalReward, rewards, stats, done := EpisodeStep(o, training, epsilon, e, t, stepsDone, totalReward, rewards, stats);
      if done {
        endedAt := Some(t);
        break;
      }
      t := t + 1;
    }
    NoneDoneBeforeFacts(o.step, e, t);
    ep := Episode(rewards, totalReward, endedAt, stats, stepsDone);
  }

  /** One pass of the episode loop: step `t` taken, its reward recorded. */
  method EpisodeStep(o: Oracles, training: bool, epsilon: real, e: nat, t: nat,
                     stepsDone: nat, totalReward: real, rewards: seq<real>, stats: Stats)
    returns (stepsDone': nat, totalReward': real, rewards': seq<real>, stats': Stats, done: bool)
    requires t >= 1 && rewards == RewardsOf(o.step, e, t - 1) && totalReward == Sum(rewards)
    requires stats == StatsAfter(o, training, epsilon, e, t - 1)
    ensures rewards' == RewardsOf(o.step, e, t) && totalReward' == Sum(rewards')
    ensures stepsDone' == stepsDone + 1 && stats' == StatsAfter(o, training, epsilon, e, t)
    ensures done == o.step(e, t).1
  {
    stepsDone' := stepsDone + 1;
    var reward;
    stats', reward, done := TakeStep(o, training, epsilon, e, t, stats);
    RewardRecorded(o.step, e, t, rewards, reward);
    rewards' := rewards + [reward];
    totalReward' := totalReward + reward;
  }

  /** Recording the reward of step `t` extends the rewards of the steps before it, and their sum. */
  lemma RewardRecorded(step: (nat, nat) -> (real, bool), e: nat, t: nat, rewards: seq<real>, reward: real)
    requires t >= 1 && rewards == RewardsOf(step, e, t - 1) && reward == step(e, t).0
    ensures rewards + [reward] == RewardsOf(step, e, t)
    ensures Sum(rewards + [reward]) == Sum(rewards) + reward
  {
    SumAppend(rewards, reward);
    RewardsStep(step, e, t - 1);
  }

  /**
   * One step of the inner loop: explore when training and the draw is at
   * most epsilon, otherwise exploit, falling back on explore's action (and
   * counting the deflection) when exploit proposes none; then take the
   * action and count it under its style, outcome and kind.
   */
  method TakeStep(o: Oracles, training: bool, epsilon: real, e: nat, t: nat, stats: Stats)
    returns (counted: Stats, reward: real, done: bool)
    requires t >= 1 && stats == StatsAfter(o, training, epsilon, e, t - 1)
    ensures counted == StatsAfter(o, training, epsilon, e, t)
    ensures reward == o.step(e, t).0 && done == o.step(e, t).1
  {
    counted := stats;
    var style: string;
    var action: ActionKind;
    if training && o.draw(e, t) <= epsilon {
      style, action := o.explore(e, t).0, o.explore(e, t).1;
    } else {
      var proposal := o.exploit(e, t).1;
      style := o.exploit(e, t).0;
      if proposal.None? {
        counted := counted.(exploitDeflectedToExplore := counted.exploitDeflectedToExplore + 1);
        action := o.explore(e, t).1;
      } else {
        action := proposal.value;
      }
    }
    reward, done := o.step(e, t).0, o.step(e, t).1;
    counted := Count(counted, style == "exploit", reward > 0.0, action);
  }

  /** The episode length the outer loop records: where the episode ended, or the iteration count. */
  function RecordedLength(ep: Episode, iterationCount: nat): nat
  {
    if ep.endedAt.Some? then ep.endedAt.value else iterationCount
  }

  // --------------------------------------------------- detection points

  /**
   * The detection points of one tracker name, stored in CSR form: the trigger
   * times of all episodes one after the other, the offsets where each
   * episode's times start, and each episode's length.
   */
  datatype DetectionPoints = DetectionPoints(indices: seq<int>, indptr: seq<int>, eplength: seq<nat>)

  /** The entry a name gets the first time it is seen. */
  const NoDetections: DetectionPoints := DetectionPoints([], [0], [])

  /** The entry has the last offset that recording reads. */
  predicate HasOffsets(d: DetectionPoints)
  {
    |d.indptr| >= 1
  }

  /** The offsets start at 0, never decrease, end at the number of times, and there is one length per episode. */
  ghost predicate CsrValid(d: DetectionPoints)
  {
    && HasOffsets(d)
    && d.indptr[0] == 0
    && (forall i, j :: 0 <= i <= j < |d.indptr| ==> d.indptr[i] <= d.indptr[j])
    && d.indptr[|d.indptr| - 1] == |d.indices|
    && |d.eplength| == |d.indptr| - 1
  }

  predicate OffsetsPresent(table: map<string, DetectionPoints>)
  {
    forall name :: name in table ==> HasOffsets(table[name])
  }

  /** Every entry of the table is in CSR form. */
  ghost predicate TableValid(table: map<string, DetectionPoints>)
  {
    OffsetsPresent(table) && forall name :: name in table ==> CsrValid(table[name])
  }

  /** An entry after one more episode with trigger times `times` and length `length`. */
  function Detect(d: DetectionPoints, times: seq<int>, length: nat): DetectionPoints
    requires HasOffsets(d)
  {
    DetectionPoints(d.indices + times, d.indptr + [d.indptr[|d.indptr| - 1] + |times|], d.eplength + [length])
  }

  /** Recording an episode keeps an entry in CSR form and adds one episode length. */
  lemma DetectKeepsCsr(d: DetectionPoints, times: seq<int>, length: nat)
    requires CsrValid(d)
    ensures CsrValid(Detect(d, times, length))
    ensures |Detect(d, times, length).eplength| == |d.eplength| + 1
  {
  }

  lemma NoDetectionsValid()
    ensures CsrValid(NoDetections)
  {
  }

  /** The table after one tracker is recorded: its entry, created empty when the name is new, gets the episode appended. */
  function DetectOne(table: map<string, DetectionPoints>, tracker: (string, seq<int>), length: nat): (r: map<string, DetectionPoints>)
    requires OffsetsPresent(table)
    ensures OffsetsPresent(r) && r.Keys == table.Keys + {tracker.0}
  {
    var entry := if tracker.0 in table then table[tracker.0] else NoDetections;
    table[tracker.0 := Detect(entry, tracker.1, length)]
  }

  /** The table after the first `n` trackers of an episode are recorded. */
  function DetectAll(results: map<string, DetectionPoints>, trackers: seq<(string, seq<int>)>, n: nat, length: nat): (r: map<string, DetectionPoints>)
    requires n <= |trackers|
    requires OffsetsPresent(results)
    ensures OffsetsPresent(r)
  {
    if n == 0 then results else DetectOne(DetectAll(results, trackers, n - 1, length), trackers[n - 1], length)
  }

  /** Every entry of the table stays in CSR form however many trackers are recorded. */
  lemma {:induction false} DetectAllKeepsCsr(results: map<string, DetectionPoints>, trackers: seq<(string, seq<int>)>, n: nat, length: nat)
    requires n <= |trackers|
    requires TableValid(results)
    ensures TableValid(DetectAll(results, trackers, n, length))
  {
    if n > 0 {
      var prev := DetectAll(results, trackers, n - 1, length);
      DetectAllKeepsCsr(results, trackers, n - 1, length);
      DetectOneKeepsCsr(prev, trackers[n - 1], length);
      assert DetectAll(results, trackers, n, length) == DetectOne(prev, trackers[n - 1], length);
    }
  }

  lemma DetectOneKeepsCsr(table: map<string, DetectionPoints>, tracker: (string, seq<int>), length: nat)
    requires TableValid(table)
    ensures TableValid(DetectOne(table, tracker, length))
  {
    var entry := if tracker.0 in table then table[tracker.0] else NoDetections;
    NoDetectionsValid();
    DetectKeepsCsr(entry, tracker.1, length);
  }

  /** Recording keeps every name already in the table and adds exactly the names of the recorded trackers. */
  lemma {:induction false} DetectAllKeys(results: map<string, DetectionPoints>, trackers: seq<(string, seq<int>)>, n: nat, length: nat)
    requires n <= |trackers|
    requires OffsetsPresent(results)
    ensures forall name :: name in results ==> name in DetectAll(results, trackers, n, length)
    ensures forall k :: 0 <= k < n ==> trackers[k].0 in DetectAll(results, trackers, n, length)
    ensures forall name :: name in DetectAll(results, trackers, n, length) ==>
              name in results || exists k :: 0 <= k < n && trackers[k].0 == name
  {
    if n > 0 {
      var prev := DetectAll(results, trackers, n - 1, length);
      var next := DetectAll(results, trackers, n, length);
      DetectAllKeys(results, trackers, n - 1, length);
      assert next == DetectOne(prev, trackers[n - 1], length);
      assert next.Keys == prev.Keys + {trackers[n - 1].0};
      forall name | name in next
        ensures name in results || exists k :: 0 <= k < n && trackers[k].0 == name
      {
        if name !in prev {
          assert trackers[n - 1].0 == name;
        }
      }
    }
  }

  /** The loop of learner.py:655-661 over the trackers of one episode. */
  method RecordDetections(results: map<string, DetectionPoints>, trackers: seq<(string, seq<int>)>, length: nat)
    returns (r: map<string, DetectionPoints>)
    requires TableValid(results)
    ensures r == DetectAll(results, trackers, |trackers|, length)
    ensures TableValid(r)
  {
    r := results;
    for i := 0 to |trackers|
      invariant r == DetectAll(results, trackers, i, length)
    {
      r := DetectOne(r, trackers[i], length);
    }
    DetectAllKeepsCsr(results, trackers, |trackers|, length);
  }

  /**
   * The table once episodes 1..n are recorded, each with the trackers of its
   * last observation and its length.
   */
  function DetectionsAfter(o: Oracles, iterationCount: nat, n: nat): (r: map<string, DetectionPoints>)
    ensures OffsetsPresent(r)
  {
    if n == 0 then map[]
    else DetectAll(DetectionsAfter(o, iterationCount, n - 1), o.trackers(n), |o.trackers(n)|, EpisodeLength(o.step, n, iterationCount))
  }

  /** The recorded table is in CSR form after any number of episodes. */
  lemma {:induction false} DetectionsAfterValid(o: Oracles, iterationCount: nat, n: nat)
    ensures TableValid(DetectionsAfter(o, iterationCount, n))
  {
    if n > 0 {
      DetectionsAfterValid(o, iterationCount, n - 1);
      DetectAllKeepsCsr(DetectionsAfter(o, iterationCount, n - 1), o.trackers(n), |o.trackers(n)|, EpisodeLength(o.step, n, iterationCount));
    }
  }

  /** Some tracker of the list has that name. */
  ghost predicate NamedIn(trackers: seq<(string, seq<int>)>, name: string)
  {
    exists k :: 0 <= k < |trackers| && trackers[k].0 == name
  }

  /** A tracker name of an episode that was recorded. */
  ghost predicate TrackedBy(o: Oracles, n: nat, name: string)
  {
    exists e :: 1 <= e <= n && NamedIn(o.trackers(e), name)
  }

  /** The recorded table has an entry for exactly the tracker names of the recorded episodes. */
  lemma {:induction false} DetectionsAfterKeys(o: Oracles, iterationCount: nat, n: nat)
    ensures forall name :: name in DetectionsAfter(o, iterationCount, n) <==> TrackedBy(o, n, name)
  {
    if n > 0 {
      DetectionsAfterKeys(o, iterationCount, n - 1);
      var before := DetectionsAfter(o, iterationCount, n - 1);
      DetectAllKeys(before, o.trackers(n), |o.trackers(n)|, EpisodeLength(o.step, n, iterationCount));
      forall name
        ensures name in DetectionsAfter(o, iterationCount, n) <==> name in before || NamedIn(o.trackers(n), name)
      {
      }
      forall name
        ensures TrackedBy(o, n, name) <==> TrackedBy(o, n - 1, name) || NamedIn(o.trackers(n), name)
      {
        if TrackedBy(o, n, name) && !NamedIn(o.trackers(n), name) {
          var e :| 1 <= e <= n && NamedIn(o.trackers(e), name);
          assert e < n;
        }
      }
    }
  }

  // -------------------------------------------- running means, epsilon

  /** Python's `s[-w:]`: the last `w` entries, or all of them when `w` is 0 or at least the length. */
  function Tail(s: seq<real>, w: nat): (r: seq<real>)
    ensures s != [] ==> r != []
  {
    if w == 0 || w >= |s| then s else s[|s| - w..]
  }

  function Mean(s: seq<real>): real
    requires s != []
  {
    Sum(s) / |s| as real
  }

  /** The mean of the summed rewards over the last `w` episodes. */
  function WindowMean(sums: seq<real>, w: nat): real
    requires sums != []
  {
    Mean(Tail(sums, w))
  }

  /** The best running mean after a new window mean: kept, or replaced by a strictly larger mean. */
  function Improve(best: real, mean: real): (r: real)
    ensures r >= best && (r != best ==> r == mean && mean > best)
    ensures r == best <==> mean <= best
  {
    if best < mean then mean else best
  }

  /** The best running mean once the episodes with summed rewards `sums` are done. */
  function BestOver(initial: real, sums: seq<real>, w: nat): real
  {
    if sums == [] then initial else Improve(BestOver(initial, sums[..|sums| - 1], w), WindowMean(sums, w))
  }

  /** The best running mean never decreases from one episode to a later one, and is at least any window mean seen. */
  lemma {:induction false} BestOverMonotone(initial: real, sums: seq<real>, w: nat, k: nat)
    requires k <= |sums|
    ensures BestOver(initial, sums[..k], w) <= BestOver(initial, sums, w)
    ensures 1 <= k ==> WindowMean(sums[..k], w) <= BestOver(initial, sums, w)
    ensures initial <= BestOver(initial, sums, w)
    decreases |sums|
  {
    if sums != [] {
      var init := sums[..|sums| - 1];
      if k == |sums| {
        assert sums[..k] == sums;
        if k > 1 {
          BestOverMonotone(initial, init, w, k - 1);
        } else {
          BestOverMonotone(initial, init, w, 0);
        }
      } else {
        assert sums[..k] == init[..k];
        BestOverMonotone(initial, init, w, k);
      }
    } else {
      assert sums[..k] == sums;
    }
  }

  /** Python's truthiness of `epsilon_multdecay`: set and non-zero. */
  predicate DecayActive(multdecay: Option<real>)
  {
    multdecay.Some? && multdecay.value != 0.0
  }

  /** Epsilon after an episode: multiplied by the decay and clipped at the minimum, when the decay is set. */
  function Decay(epsilon: real, minimum: real, multdecay: Option<real>): (r: real)
    ensures DecayActive(multdecay) ==> r >= minimum && (r == minimum || r == epsilon * multdecay.value)
    ensures !DecayActive(multdecay) ==> r == epsilon
  {
    if DecayActive(multdecay) then
      var decayed := epsilon * multdecay.value;
      if minimum >= decayed then minimum else decayed
    else epsilon
  }

  /** Epsilon after `n` episodes. */
  function EpsilonAfter(epsilon: real, minimum: real, multdecay: Option<real>, n: nat): real
  {
    if n == 0 then epsilon else Decay(EpsilonAfter(epsilon, minimum, multdecay, n - 1), minimum, multdecay)
  }

  lemma EpsilonStep(epsilon: real, minimum: real, multdecay: Option<real>, n: nat)
    ensures EpsilonAfter(epsilon, minimum, multdecay, n + 1) == Decay(EpsilonAfter(epsilon, minimum, multdecay, n), minimum, multdecay)
  {
  }

  /** With the multiplicative decay set, epsilon is at least the minimum after every episode. */
  lemma EpsilonStaysAboveMinimum(epsilon: real, minimum: real, multdecay: Option<real>, n: nat)
    requires DecayActive(multdecay) && n >= 1
    ensures EpsilonAfter(epsilon, minimum, multdecay, n) >= minimum
  {
  }

  // --------------------------------------------------------- the budget

  /** The steps of the first `n` episodes. */
  function StepsAfter(step: (nat, nat) -> (real, bool), iterationCount: nat, n: nat): nat
  {
    if n == 0 then 0 else StepsAfter(step, iterationCount, n - 1) + EpisodeLength(step, n, iterationCount)
  }

  /** The steps done only grow from one episode to the next. */
  lemma {:induction false} StepsMonotone(step: (nat, nat) -> (real, bool), iterationCount: nat, k: nat, n: nat)
    requires k <= n
    ensures StepsAfter(step, iterationCount, k) <= StepsAfter(step, iterationCount, n)
    decreases n - k
  {
    if k < n {
      StepsMonotone(step, iterationCount, k, n - 1);
    }
  }

  /** A loop that goes on while the steps are below the budget stops after the first episode that reaches it. */
  lemma StopsWhenBudgetReached(step: (nat, nat) -> (real, bool), iterationCount: nat, budget: nat, n: nat)
    requires n > 0 ==> StepsAfter(step, iterationCount, n - 1) < budget
    requires StepsAfter(step, iterationCount, n) >= budget
    ensures StopsAfter(step, iterationCount, budget, true, n)
  {
    forall k | 0 <= k < n
      ensures StepsAfter(step, iterationCount, k) < budget
    {
      StepsMonotone(step, iterationCount, k, n - 1);
    }
  }

  /** The outer loop's test before an episode: the steps done are below the budget (`strict`) or at most the budget. */
  predicate Continues(steps: nat, budget: nat, strict: bool)
  {
    if strict then steps < budget else steps <= budget
  }

  /** The outer loop stops after exactly `n` episodes: its test held before each of them and fails after them. */
  ghost predicate StopsAfter(step: (nat, nat) -> (real, bool), iterationCount: nat, budget: nat, strict: bool, n: nat)
  {
    && (forall k :: 0 <= k < n ==> Continues(StepsAfter(step, iterationCount, k), budget, strict))
    && !Continues(StepsAfter(step, iterationCount, n), budget, strict)
  }

  /** The episodes `epsilon_greedy_search` runs as written (learner.py:527): while the steps are at most the budget. */
  ghost predicate StopsAfterAsWritten(step: (nat, nat) -> (real, bool), iterationCount: nat, budget: nat, n: nat)
  {
    StopsAfter(step, iterationCount, budget, false, n)
  }

  /** The episodes the outer loop runs with the budget test corrected: while the steps are below the budget. */
  ghost predicate StopsAfterCorrected(step: (nat, nat) -> (real, bool), iterationCount: nat, budget: nat, n: nat)
  {
    StopsAfter(step, iterationCount, budget, true, n)
  }

  /** No episode ends before its last step. */
  ghost predicate NeverDoneEarly(step: (nat, nat) -> (real, bool), iterationCount: nat)
  {
    forall e, t :: 1 <= t < iterationCount ==> !step(e, t).1
  }

  lemma FullLength(step: (nat, nat) -> (real, bool), iterationCount: nat, e: nat)
    requires NeverDoneEarly(step, iterationCount)
    ensures EpisodeLength(step, e, iterationCount) == iterationCount
  {
    EpisodeLengthFacts(step, e, iterationCount);
  }

  lemma {:induction false} FullLengthSteps(step: (nat, nat) -> (real, bool), iterationCount: nat, n: nat)
    requires NeverDoneEarly(step, iterationCount)
    ensures StepsAfter(step, iterationCount, n) == n * iterationCount
  {
    if n > 0 {
      FullLengthSteps(step, iterationCount, n - 1);
      FullLength(step, iterationCount, n);
      assert n * iterationCount == (n - 1) * iterationCount + iterationCount;
    }
  }

  lemma MulMonotone(k: nat, c: nat, m: nat)
    ensures k <= c ==> k * m <= c * m
    ensures k < c && m >= 1 ==> k * m < c * m
  {
    if k <= c {
      assert c * m == k * m + (c - k) * m;
    }
  }

  /**
   * When no episode ends early, the loop as written runs `episode_count + 1`
   * episodes, one more than `episode_count`, and so `iteration_count` steps
   * past the budget.
   */
  lemma ExtraEpisodeAsWritten(episodeCount: nat, iterationCount: nat, step: (nat, nat) -> (real, bool))
    requires iterationCount >= 1 && NeverDoneEarly(step, iterationCount)
    ensures StopsAfterAsWritten(step, iterationCount, episodeCount * iterationCount, episodeCount + 1)
    ensures StepsAfter(step, iterationCount, episodeCount + 1) == episodeCount * iterationCount + iterationCount
  {
    forall k | 0 <= k < episodeCount + 1
      ensures StepsAfter(step, iterationCount, k) <= episodeCount * iterationCount
    {
      FullLengthSteps(step, iterationCount, k);
      MulMonotone(k, episodeCount, iterationCount);
    }
    FullLengthSteps(step, iterationCount, episodeCount + 1);
    assert (episodeCount + 1) * iterationCount == episodeCount * iterationCount + iterationCount;
  }

  /** With the corrected test, episodes that all run full length are exactly `episode_count` of them. */
  lemma EpisodeCountCorrected(episodeCount: nat, iterationCount: nat, step: (nat, nat) -> (real, bool))
    requires iterationCount >= 1 && NeverDoneEarly(step, iterationCount)
    ensures StopsAfterCorrected(step, iterationCount, episodeCount * iterationCount, episodeCount)
    ensures StepsAfter(step, iterationCount, episodeCount) == episodeCount * iterationCount
  {
    forall k | 0 <= k < episodeCount
      ensures StepsAfter(step, iterationCount, k) < episodeCount * iterationCount
    {
      FullLengthSteps(step, iterationCount, k);
      MulMonotone(k, episodeCount, iterationCount);
    }
    FullLengthSteps(step, iterationCount, episodeCount);
  }

  /**
   * With `iteration_count == 0` no episode takes a step and the budget is 0:
   * the loop as written never stops, while the corrected test stops before
   * the first episode.
   */
  lemma {:induction false} NoStepsNeverStopAsWritten(step: (nat, nat) -> (real, bool), episodeCount: nat, n: nat)
    ensures StepsAfter(step, 0, n) == 0
    ensures !StopsAfterAsWritten(step, 0, episodeCount * 0, n)
    ensures StopsAfterCorrected(step, 0, episodeCount * 0, 0)
  {
    if n > 0 {
      NoStepsNeverStopAsWritten(step, episodeCount, n - 1);
    }
  }

  /** The summed rewards of the first `n` episodes, in order. */
  function ReturnsOf(step: (nat, nat) -> (real, bool), iterationCount: nat, n: nat): (r: seq<real>)
    ensures |r| == n && forall k :: 0 <= k < n ==> r[k] == EpisodeReturn(step, k + 1, iterationCount)
  {
    seq(n, k requires 0 <= k < n => EpisodeReturn(step, k + 1, iterationCount))
  }

  /** The reward lists of the first `n` episodes, in order. */
  function RewardListsOf(step: (nat, nat) -> (real, bool), iterationCount: nat, n: nat): (r: seq<seq<real>>)
    ensures |r| == n && forall k :: 0 <= k < n ==> r[k] == RewardsOf(step, k + 1, EpisodeLength(step, k + 1, iterationCount))
  {
    seq(n, k requires 0 <= k < n => RewardsOf(step, k + 1, EpisodeLength(step, k + 1, iterationCount)))
  }

  /** Each summed reward is the sum of its episode's reward list, one per step the episode ran. */
  lemma ReturnsAreSums(step: (nat, nat) -> (real, bool), iterationCount: nat, n: nat)
    ensures forall k :: 0 <= k < n ==>
              && ReturnsOf(step, iterationCount, n)[k] == Sum(RewardListsOf(step, iterationCount, n)[k])
              && |RewardListsOf(step, iterationCount, n)[k]| == EpisodeLength(step, k + 1, iterationCount)
  {
  }

  // --------------------------------------------------------- the loops

  lemma RewardListsStep(step: (nat, nat) -> (real, bool), iterationCount: nat, n: nat)
    ensures RewardListsOf(step, iterationCount, n + 1) ==
            RewardListsOf(step, iterationCount, n) + [RewardsOf(step, n + 1, EpisodeLength(step, n + 1, iterationCount))]
  {
    assert RewardListsOf(step, iterationCount, n + 1)[..n] == RewardListsOf(step, iterationCount, n);
  }

  lemma ReturnsStep(step: (nat, nat) -> (real, bool), iterationCount: nat, n: nat)
    ensures ReturnsOf(step, iterationCount, n + 1) == ReturnsOf(step, iterationCount, n) + [EpisodeReturn(step, n + 1, iterationCount)]
  {
    assert ReturnsOf(step, iterationCount, n + 1)[..n] == ReturnsOf(step, iterationCount, n);
  }

  /**
   * The end of an episode (learner.py:683-690 and 332-339): the summed reward
   * is appended, and the best running mean is replaced by the mean over the
   * window when that is strictly larger.
   */
  method RecordReturn(sums: seq<real>, best: real, episodeReturn: real, window: nat, ghost initialBest: real)
    returns (sums': seq<real>, best': real)
    requires best == BestOver(initialBest, sums, window)
    ensures sums' == sums + [episodeReturn]
    ensures best' == BestOver(initialBest, sums', window)
    ensures best' >= best && (best' != best ==> best' == WindowMean(sums', window))
  {
    sums' := sums + [episodeReturn];
    assert sums'[..|sums'| - 1] == sums;
    var meanOverWindow := WindowMean(sums', window);
    best' := best;
    if best' < meanOverWindow {
      best' := meanOverWindow;
    }
  }

  /** Epsilon's multiplicative decay after a training episode (learner.py:707-708). */
  method DecayEpsilon(epsilon: real, minimum: real, multdecay: Option<real>) returns (r: real)
    ensures r == Decay(epsilon, minimum, multdecay)
  {
    r := epsilon;
    if multdecay.Some? && multdecay.value != 0.0 {
      var decayed := epsilon * multdecay.value;
      r := if minimum >= decayed then minimum else decayed;
    }
  }

  /**
   * One pass of the outer loop of `epsilon_greedy_search` (learner.py:528-708):
   * episode `done + 1` runs at the current epsilon, then its detection points
   * are recorded when results are logged, its reward list and summed reward
   * are appended, the best running mean is improved and epsilon decays.
   */
  method TrainingEpisode(o: Oracles, done: nat, iterationCount: nat, stepsDone: nat,
                         rewards: seq<seq<real>>, sums: seq<real>, best: real, epsilon: real, detections: map<string, DetectionPoints>,
                         logResults: bool, window: nat, ghost initialEpsilon: real, epsilonMinimum: real, multdecay: Option<real>,
                         ghost initialBest: real)
    returns (stepsDone': nat, rewards': seq<seq<real>>, sums': seq<real>, best': real, epsilon': real, detections': map<string, DetectionPoints>)
    requires stepsDone == StepsAfter(o.step, iterationCount, done)
    requires rewards == RewardListsOf(o.step, iterationCount, done) && sums == ReturnsOf(o.step, iterationCount, done)
    requires best == BestOver(initialBest, sums, window)
    requires epsilon == EpsilonAfter(initialEpsilon, epsilonMinimum, multdecay, done)
    requires TableValid(detections) && detections == if logResults then DetectionsAfter(o, iterationCount, done) else map[]
    ensures stepsDone' == stepsDone + EpisodeLength(o.step, done + 1, iterationCount) == StepsAfter(o.step, iterationCount, done + 1)
    ensures rewards' == RewardListsOf(o.step, iterationCount, done + 1) && sums' == ReturnsOf(o.step, iterationCount, done + 1)
    ensures best' == BestOver(initialBest, sums', window)
    ensures epsilon' == Decay(epsilon, epsilonMinimum, multdecay) == EpsilonAfter(initialEpsilon, epsilonMinimum, multdecay, done + 1)
    ensures TableValid(detections') && detections' == if logResults then DetectionsAfter(o, iterationCount, done + 1) else map[]
  {
    var iEpisode := done + 1;
    ghost var length := EpisodeLength(o.step, iEpisode, iterationCount);
    ReturnsStep(o.step, iterationCount, done);
    RewardListsStep(o.step, iterationCount, done);
    EpsilonStep(initialEpsilon, epsilonMinimum, multdecay, done);
    var ep := RunEpisode(o, true, epsilon, iEpisode, iterationCount, stepsDone);
    assert RecordedLength(ep, iterationCount) == length;
    stepsDone' := ep.stepsDone;
    rewards' := rewards + [ep.rewards];
    detections' := detections;
    if logResults {
      detections' := RecordDetections(detections, o.trackers(iEpisode), RecordedLength(ep, iterationCount));
    }
    sums', best' := RecordReturn(sums, best, Sum(ep.rewards), window, initialBest);
    epsilon' := DecayEpsilon(epsilon, epsilonMinimum, multdecay);
  }

  datatype TrainingRun = TrainingRun(
    episodes: nat, stepsDone: nat, rewards: seq<seq<real>>, sums: seq<real>, bestRunningMean: real, epsilon: real,
    detections: map<string, DetectionPoints>)

  /**
   * The outer loop of `epsilon_greedy_search` (learner.py:527-708) with the
   * corrected budget test: episodes run while the steps done are below
   * `episode_count * iteration_count`; after each one the detection points
   * are recorded when results are logged, the summed reward is appended,
   * the best running mean improved and epsilon decayed.
   */
  method EpsilonGreedySearch(o: Oracles, episodeCount: nat, iterationCount: nat, epsilon: real, epsilonMinimum: real,
                             multdecay: Option<real>, window: nat, initialBest: real, logResults: bool)
    returns (run: TrainingRun)
    ensures StopsAfterCorrected(o.step, iterationCount, episodeCount * iterationCount, run.episodes)
    ensures run.stepsDone == StepsAfter(o.step, iterationCount, run.episodes)
    ensures run.episodes > 0 ==> run.stepsDone < episodeCount * iterationCount + iterationCount
    ensures run.rewards == RewardListsOf(o.step, iterationCount, run.episodes)
    ensures run.sums == ReturnsOf(o.step, iterationCount, run.episodes)
    ensures run.bestRunningMean == BestOver(initialBest, run.sums, window)
    ensures run.epsilon == EpsilonAfter(epsilon, epsilonMinimum, multdecay, run.episodes)
    ensures run.detections == if logResults then DetectionsAfter(o, iterationCount, run.episodes) else map[]
    ensures TableValid(run.detections)
  {
    var budget := episodeCount * iterationCount;
    var stepsDone := 0;
    var iEpisode := 0;
    var rewards: seq<seq<real>> := [];
    var sums: seq<real> := [];
    var best := initialBest;
    var eps := epsilon;
    var detections: map<string, DetectionPoints> := map[];
    if iterationCount == 0 {
      assert budget == 0;
    }
    while stepsDone < budget
      invariant iterationCount == 0 ==> budget == 0
      invariant stepsDone == StepsAfter(o.step, iterationCount, iEpisode)
      invariant iEpisode > 0 ==> stepsDone < budget + iterationCount
      invariant iEpisode > 0 ==> StepsAfter(o.step, iterationCount, iEpisode - 1) < budget
      invariant rewards == RewardListsOf(o.step, iterationCount, iEpisode)
      invariant sums == ReturnsOf(o.step, iterationCount, iEpisode)
      invariant best == BestOver(initialBest, sums, window)
      invariant eps == EpsilonAfter(epsilon, epsilonMinimum, multdecay, iEpisode)
      invariant detections == if logResults then DetectionsAfter(o, iterationCount, iEpisode) else map[]
      invariant TableValid(detections)
      decreases budget - stepsDone
    {
      stepsDone, rewards, sums, best, eps, detections :=
        TrainingEpisode(o, iEpisode, iterationCount, stepsDone, rewards, sums, best, eps, detections, logResults, window,
                        epsilon, epsilonMinimum, multdecay, initialBest);
      iEpisode := iEpisode + 1;
    }
    StopsWhenBudgetReached(o.step, iterationCount, budget, iEpisode);
    run := TrainingRun(iEpisode, stepsDone, rewards, sums, best, eps, detections);
  }

  /**
   * One pass of the episode loop of `evaluate_model` (learner.py:229-356):
   * episode `done + 1` runs exploiting first, its reward list and summed
   * reward are appended, the best running mean is improved, and its
   * detection points are recorded when `record` holds.
   */
  method EvaluationEpisode(o: Oracles, done: nat, iterationCount: nat, epsilon: real, stepsDone: nat,
                           rewards: seq<seq<real>>, sums: seq<real>, best: real, detections: map<string, DetectionPoints>,
                           record: bool, window: nat, ghost initialBest: real)
    returns (stepsDone': nat, rewards': seq<seq<real>>, sums': seq<real>, best': real, detections': map<string, DetectionPoints>)
    requires stepsDone == StepsAfter(o.step, iterationCount, done)
    requires rewards == RewardListsOf(o.step, iterationCount, done) && sums == ReturnsOf(o.step, iterationCount, done)
    requires best == BestOver(initialBest, sums, window)
    requires TableValid(detections) && detections == if record then DetectionsAfter(o, iterationCount, done) else map[]
    ensures stepsDone' == StepsAfter(o.step, iterationCount, done + 1)
    ensures rewards' == RewardListsOf(o.step, iterationCount, done + 1) && sums' == ReturnsOf(o.step, iterationCount, done + 1)
    ensures best' == BestOver(initialBest, sums', window)
    ensures TableValid(detections') && detections' == if record then DetectionsAfter(o, iterationCount, done + 1) else map[]
  {
    var iEpisode := done + 1;
    ghost var length := EpisodeLength(o.step, iEpisode, iterationCount);
    ReturnsStep(o.step, iterationCount, done);
    RewardListsStep(o.step, iterationCount, done);
    var ep := RunEpisode(o, false, epsilon, iEpisode, iterationCount, stepsDone);
    assert RecordedLength(ep, iterationCount) == length;
    stepsDone' := ep.stepsDone;
    rewards' := rewards + [ep.rewards];
    detections' := detections;
    if record {
      detections' := RecordDetections(detections, o.trackers(iEpisode), RecordedLength(ep, iterationCount));
    }
    sums', best' := RecordReturn(sums, best, Sum(ep.rewards), window, initialBest);
  }

  datatype EvaluationRun = EvaluationRun(
    stepsDone: nat, rewards: seq<seq<real>>, sums: seq<real>, bestRunningMean: real, detections: map<string, DetectionPoints>)

  /** The episodes of `evaluate_model`, with the detection points recorded or not. */
  method EvaluationEpisodes(o: Oracles, iterationCount: nat, epsilon: real, evalEpisodeCount: nat, bestEvalRunningMean: real,
                            window: nat, record: bool)
    returns (run: EvaluationRun)
    ensures run.stepsDone == StepsAfter(o.step, iterationCount, evalEpisodeCount)
    ensures run.rewards == RewardListsOf(o.step, iterationCount, evalEpisodeCount)
    ensures run.sums == ReturnsOf(o.step, iterationCount, evalEpisodeCount)
    ensures run.bestRunningMean == BestOver(bestEvalRunningMean, run.sums, window)
    ensures TableValid(run.detections)
    ensures run.detections == if record then DetectionsAfter(o, iterationCount, evalEpisodeCount) else map[]
  {
    var stepsDone := 0;
    var rewards: seq<seq<real>> := [];
    var sums: seq<real> := [];
    var best := bestEvalRunningMean;
    var detections: map<string, DetectionPoints> := map[];
    for done := 0 to evalEpisodeCount
      invariant stepsDone == StepsAfter(o.step, iterationCount, done)
      invariant rewards == RewardListsOf(o.step, iterationCount, done)
      invariant sums == ReturnsOf(o.step, iterationCount, done)
      invariant best == BestOver(bestEvalRunningMean, sums, window)
      invariant detections == if record then DetectionsAfter(o, iterationCount, done) else map[]
      invariant TableValid(detections)
    {
      stepsDone, rewards, sums, best, detections :=
        EvaluationEpisode(o, done, iterationCount, epsilon, stepsDone, rewards, sums, best, detections, record, window, bestEvalRunningMean);
    }
    run := EvaluationRun(stepsDone, rewards, sums, best, detections);
  }

  /**
   * The episode loop of `evaluate_model` (learner.py:228-356): exactly
   * `eval_episode_count` episodes, exploiting first; detection points are
   * recorded when results are logged and the training episode count is a
   * multiple of five times the evaluation frequency.
   */
  method EvaluateModel(o: Oracles, iterationCount: nat, epsilon: real, evalEpisodeCount: nat, bestEvalRunningMean: real,
                       evalFreq: nat, trainingEpisodeDone: nat, window: nat, logResults: bool)
    returns (run: EvaluationRun)
    requires evalFreq >= 1
    ensures run.stepsDone == StepsAfter(o.step, iterationCount, evalEpisodeCount)
    ensures run.rewards == RewardListsOf(o.step, iterationCount, evalEpisodeCount)
    ensures run.sums == ReturnsOf(o.step, iterationCount, evalEpisodeCount)
    ensures run.bestRunningMean == BestOver(bestEvalRunningMean, run.sums, window)
    ensures TableValid(run.detections)
    ensures run.detections == if logResults && trainingEpisodeDone % (5 * evalFreq) == 0
                              then DetectionsAfter(o, iterationCount, evalEpisodeCount) else map[]
  {
    var record := logResults && trainingEpisodeDone % (5 * evalFreq) == 0;
    run := EvaluationEpisodes(o, iterationCount, epsilon, evalEpisodeCount, bestEvalRunningMean, window, record);
  }
}
