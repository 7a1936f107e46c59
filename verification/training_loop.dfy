/** The bookkeeping of `PolicyOptimizer.run` (tfmdp/train/optimizer.py:62-117)
    and its hook helpers (lines 206-219): a left fold over the per-step
    `(loss, reward)` pairs the session returns, producing the two improvement
    histories and one ordered trace of everything the run does to the outside
    world (summaries, policy saves, hook calls). Hooks are opaque values `H`;
    what a hook does when called is not modelled. */
module TrainingLoop {
  import opened Wrappers

  /** `-sys.maxsize` on a 64-bit CPython (`sys.maxsize == 2^63 - 1`): the best
      reward before the first step. */
  const InitialBest: real := -9223372036854775807.0

  /** What one `sess.run` of the training op returns: `loss_` and `reward_`. */
  datatype Sample = Sample(loss: real, reward: real)

  /** An entry of `losses` or `rewards`: the tuple `(step, value)`. */
  datatype Event = Event(step: nat, value: real)

  /** Everything the run does that can be observed from outside. */
  datatype Effect<H> =
    | HookSetup(hook: H)
    | InitVariables
    | TrainSummary(step: nat)
    | BestSummary(step: nat)
    | SavePolicy(step: nat)
    | HookCall(hook: H, step: nat)
    | HookTeardown(hook: H)

  /** The loop's state: `reward`, `losses`, `rewards`, and the effects so far. */
  datatype Loop<H> = Loop(best: real, losses: seq<Event>, rewards: seq<Event>, trace: seq<Effect<H>>)

  /** `range(epochs)` has `max(0, epochs)` elements. */
  function StepCount(epochs: int): (r: nat)
    ensures epochs <= 0 ==> r == 0
    ensures 0 <= epochs ==> r == epochs
  {
    if epochs < 0 then 0 else epochs
  }

  /** `self._hooks`, where `None` calls nothing, just as an empty list does. */
  function HookList<H>(hooks: Option<seq<H>>): (r: seq<H>)
    ensures hooks.None? ==> r == []
    ensures hooks.Some? ==> r == hooks.value
  {
    if hooks.Some? then hooks.value else []
  }

  /** `_hooks_setup`: `hook.setup(...)` for each hook, in list order. */
  function HookSetups<H>(hs: seq<H>): (r: seq<Effect<H>>)
    ensures |r| == |hs| && forall i :: 0 <= i < |hs| ==> r[i] == HookSetup(hs[i])
    decreases |hs|
  {
    if |hs| == 0 then [] else [HookSetup(hs[0])] + HookSetups(hs[1..])
  }

  /** `_hooks_run(sess, step)`: each hook called with `step`, in list order. */
  function HookCalls<H>(hs: seq<H>, step: nat): (r: seq<Effect<H>>)
    ensures |r| == |hs| && forall i :: 0 <= i < |hs| ==> r[i] == HookCall(hs[i], step)
    decreases |hs|
  {
    if |hs| == 0 then [] else [HookCall(hs[0], step)] + HookCalls(hs[1..], step)
  }

  /** `_hooks_teardown`: `hook.teardown()` for each hook, in list order. */
  function HookTeardowns<H>(hs: seq<H>): (r: seq<Effect<H>>)
    ensures |r| == |hs| && forall i :: 0 <= i < |hs| ==> r[i] == HookTeardown(hs[i])
    decreases |hs|
  {
    if |hs| == 0 then [] else [HookTeardown(hs[0])] + HookTeardowns(hs[1..])
  }

  /** The effects of one pass through the loop body: the train summary, then,
      on an improvement, the best summary and the policy save, then the hooks. */
  function StepEffects<H>(step: nat, improved: bool, hs: seq<H>): seq<Effect<H>> {
    [TrainSummary(step)]
    + (if improved then [BestSummary(step), SavePolicy(step)] else [])
    + HookCalls(hs, step)
  }

  /** One pass through the loop body (lines 94-113) at `step`. */
  function Advance<H>(l: Loop<H>, step: nat, x: Sample, hs: seq<H>): Loop<H> {
    if x.reward > l.best then
      Loop(x.reward,
           l.losses + [Event(step, x.loss)],
           l.rewards + [Event(step, x.reward)],
           l.trace + StepEffects(step, true, hs))
    else
      l.(trace := l.trace + StepEffects(step, false, hs))
  }

  /** The loop after one step per element of `obs`; step `k` reads `obs[k]`. */
  function Steps<H>(obs: seq<Sample>, hs: seq<H>): Loop<H>
    decreases |obs|
  {
    if |obs| == 0 then Loop(InitialBest, [], [], [])
    else Advance(Steps(obs[..|obs| - 1], hs), |obs| - 1, obs[|obs| - 1], hs)
  }

  /** The bookkeeping of a whole `run` whose session yields `obs[k]` at step `k`:
      `(losses, rewards)` and the trace from the first hook setup to the last
      teardown. Only the first `max(0, epochs)` samples are read. */
  function Session<H>(epochs: int, obs: seq<Sample>, hooks: Option<seq<H>>): (seq<Event>, seq<Event>, seq<Effect<H>>)
    requires StepCount(epochs) <= |obs|
  {
    var hs := HookList(hooks);
    var l := Steps(obs[..StepCount(epochs)], hs);
    (l.losses, l.rewards, Frame(hs, l.trace))
  }

  /** The loop's effects between the hook setups and the variable
      initialisation before it, and the hook teardowns after it. */
  function Frame<H>(hs: seq<H>, body: seq<Effect<H>>): seq<Effect<H>> {
    HookSetups(hs) + [InitVariables] + body + HookTeardowns(hs)
  }

  // ---------------------------------------------------------------------------
  // The best reward and which steps improve on it

  function Max(a: real, b: real): real {
    if a < b then b else a
  }

  /** The largest of `InitialBest` and every reward in `obs`. */
  function Best(obs: seq<Sample>): real
    decreases |obs|
  {
    if |obs| == 0 then InitialBest else Max(Best(obs[..|obs| - 1]), obs[|obs| - 1].reward)
  }

  /** Step `k` improves on everything before it: its reward beats `-sys.maxsize`
      and every earlier reward, strictly. */
  predicate IsRecord(obs: seq<Sample>, k: nat)
    requires k < |obs|
  {
    InitialBest < obs[k].reward && forall j :: 0 <= j < k ==> obs[j].reward < obs[k].reward
  }

  lemma {:induction false} BestBounds(obs: seq<Sample>)
    ensures InitialBest <= Best(obs)
    ensures forall j :: 0 <= j < |obs| ==> obs[j].reward <= Best(obs)
    ensures Best(obs) == InitialBest || exists j :: 0 <= j < |obs| && Best(obs) == obs[j].reward
    decreases |obs|
  {
    if |obs| > 0 {
      var init := obs[..|obs| - 1];
      BestBounds(init);
      assert forall j :: 0 <= j < |init| ==> init[j] == obs[j];
      if Best(obs) != InitialBest && Best(obs) != obs[|obs| - 1].reward {
        var j :| 0 <= j < |init| && Best(init) == init[j].reward;
        assert Best(obs) == obs[j].reward;
      }
    }
  }

  /** Beating the running best is the same as beating `-sys.maxsize` and every
      earlier reward. */
  lemma BeatsBestIffRecord(obs: seq<Sample>, k: nat)
    requires k < |obs|
    ensures obs[k].reward > Best(obs[..k]) <==> IsRecord(obs, k)
  {
    var init := obs[..k];
    BestBounds(init);
    assert forall j :: 0 <= j < k ==> init[j] == obs[j];
  }

  /** The loop's `reward` variable is the running best. */
  lemma {:induction false} LoopBestIsBest<H>(obs: seq<Sample>, hs: seq<H>)
    ensures Steps(obs, hs).best == Best(obs)
    decreases |obs|
  {
    if |obs| > 0 {
      LoopBestIsBest(obs[..|obs| - 1], hs);
    }
  }

  /** The steps of a history, in order. */
  function StepsOf(es: seq<Event>): (r: seq<nat>)
    ensures |r| == |es| && forall i :: 0 <= i < |es| ==> r[i] == es[i].step
    decreases |es|
  {
    if |es| == 0 then [] else StepsOf(es[..|es| - 1]) + [es[|es| - 1].step]
  }

  /** `0, 1, ..., n - 1`: the steps `range(n)` visits. */
  function Range(n: nat): (r: seq<nat>)
    ensures |r| == n && forall i :: 0 <= i < n ==> r[i] == i
  {
    if n == 0 then [] else Range(n - 1) + [n - 1]
  }

  /** `losses` and `rewards` have equal length and the same step at each index. */
  predicate Aligned(losses: seq<Event>, rewards: seq<Event>) {
    |losses| == |rewards| && forall i :: 0 <= i < |rewards| ==> losses[i].step == rewards[i].step
  }

  /** Every entry holds the loss, or the reward, sampled at its step. */
  predicate Sampled(obs: seq<Sample>, losses: seq<Event>, rewards: seq<Event>)
    requires Aligned(losses, rewards)
  {
    forall i :: 0 <= i < |rewards| ==>
      && rewards[i].step < |obs|
      && rewards[i].value == obs[rewards[i].step].reward
      && losses[i].value == obs[rewards[i].step].loss
  }

  /** Steps and rewards both strictly increase along the history. */
  predicate Increasing(rewards: seq<Event>) {
    forall i, j :: 0 <= i < j < |rewards| ==>
      rewards[i].step < rewards[j].step && rewards[i].value < rewards[j].value
  }

  /** The best so far is the last recorded reward, or `-sys.maxsize` before
      the first, and every recorded reward lies above `-sys.maxsize`. */
  predicate BestIsLast(best: real, rewards: seq<Event>) {
    && best == (if |rewards| == 0 then InitialBest else rewards[|rewards| - 1].value)
    && forall i :: 0 <= i < |rewards| ==> InitialBest < rewards[i].value <= best
  }

  /** The histories are what the `if reward_ > reward` test (lines 99-102) lets
      through: equal lengths, the same step at each index, steps below the
      number of steps run, each value the one sampled at its step, steps and
      rewards strictly increasing, rewards above `-sys.maxsize`, and the loop's
      best the last recorded reward. */
  lemma {:induction false} HistoriesWellFormed<H>(obs: seq<Sample>, hs: seq<H>)
    ensures var l := Steps(obs, hs);
      && Aligned(l.losses, l.rewards)
      && Sampled(obs, l.losses, l.rewards)
      && Increasing(l.rewards)
      && BestIsLast(l.best, l.rewards)
    decreases |obs|
  {
    if |obs| > 0 {
      var init, x := obs[..|obs| - 1], obs[|obs| - 1];
      assert init + [x] == obs;
      assert Steps(obs, hs) == Advance(Steps(init, hs), |init|, x, hs);
      HistoriesWellFormed(init, hs);
      AdvanceKeepsWellFormed(init, x, Steps(init, hs), hs);
    }
  }

  lemma AdvanceKeepsWellFormed<H>(init: seq<Sample>, x: Sample, l: Loop<H>, hs: seq<H>)
    requires Aligned(l.losses, l.rewards) && Sampled(init, l.losses, l.rewards)
    requires Increasing(l.rewards) && BestIsLast(l.best, l.rewards)
    ensures var obs := init + [x];
      var m := Advance(l, |init|, x, hs);
      && Aligned(m.losses, m.rewards)
      && Sampled(obs, m.losses, m.rewards)
      && Increasing(m.rewards)
      && BestIsLast(m.best, m.rewards)
  {
    SampledExtends(init, x, l.losses, l.rewards);
    if x.reward > l.best {
      RecordKeepsSampled(init, x, l.losses, l.rewards);
      RecordKeepsOrder(|init|, x.reward, l.best, l.rewards);
    }
  }

  /** A history sampled from a prefix of the run is sampled from the run. */
  lemma SampledExtends(init: seq<Sample>, x: Sample, losses: seq<Event>, rewards: seq<Event>)
    requires Aligned(losses, rewards) && Sampled(init, losses, rewards)
    ensures Sampled(init + [x], losses, rewards)
  {
    forall i | 0 <= i < |rewards|
      ensures (init + [x])[rewards[i].step] == init[rewards[i].step]
    {
    }
  }

  /** Recording the sample at the next step keeps the histories aligned and sampled. */
  lemma RecordKeepsSampled(init: seq<Sample>, x: Sample, losses: seq<Event>, rewards: seq<Event>)
    requires Aligned(losses, rewards) && Sampled(init + [x], losses, rewards)
    ensures var ls, rs := losses + [Event(|init|, x.loss)], rewards + [Event(|init|, x.reward)];
      Aligned(ls, rs) && Sampled(init + [x], ls, rs)
  {
    var ls, rs := losses + [Event(|init|, x.loss)], rewards + [Event(|init|, x.reward)];
    forall i | 0 <= i < |rewards|
      ensures rs[i] == rewards[i] && ls[i] == losses[i]
    {
    }
  }

  /** Recording a reward above the best at a step past every recorded one keeps
      steps and rewards increasing, and makes it the best. */
  lemma RecordKeepsOrder(step: nat, reward: real, best: real, rewards: seq<Event>)
    requires Increasing(rewards) && BestIsLast(best, rewards) && reward > best
    requires forall i :: 0 <= i < |rewards| ==> rewards[i].step < step
    ensures var rs := rewards + [Event(step, reward)];
      Increasing(rs) && BestIsLast(reward, rs)
  {
    var rs := rewards + [Event(step, reward)];
    forall i | 0 <= i < |rewards|
      ensures rs[i] == rewards[i]
    {
    }
  }

  /** The steps that improve on everything before them, in increasing order. */
  function Records(obs: seq<Sample>): seq<nat>
    decreases |obs|
  {
    if |obs| == 0 then []
    else Records(obs[..|obs| - 1]) + (if IsRecord(obs, |obs| - 1) then [|obs| - 1] else [])
  }

  lemma {:induction false} RecordsMembers(obs: seq<Sample>, k: nat)
    ensures k in Records(obs) <==> k < |obs| && IsRecord(obs, k)
    decreases |obs|
  {
    if |obs| > 0 {
      var init := obs[..|obs| - 1];
      RecordsMembers(init, k);
      if k < |init| {
        assert forall j :: 0 <= j <= k ==> init[j] == obs[j];
        assert IsRecord(init, k) <==> IsRecord(obs, k);
      }
    }
  }

  /** The recorded steps are exactly the improving ones. */
  lemma {:induction false} RecordedStepsAreRecords<H>(obs: seq<Sample>, hs: seq<H>)
    ensures StepsOf(Steps(obs, hs).rewards) == Records(obs)
    ensures StepsOf(Steps(obs, hs).losses) == Records(obs)
    decreases |obs|
  {
    if |obs| > 0 {
      var init := obs[..|obs| - 1];
      RecordedStepsAreRecords(init, hs);
      LoopBestIsBest(init, hs);
      BeatsBestIffRecord(obs, |obs| - 1);
      assert obs[..|obs| - 1] == init;
      var l := Steps(init, hs);
      var e := Event(|obs| - 1, obs[|obs| - 1].reward);
      var f := Event(|obs| - 1, obs[|obs| - 1].loss);
      assert (l.rewards + [e])[..|l.rewards|] == l.rewards;
      assert (l.losses + [f])[..|l.losses|] == l.losses;
    }
  }

  /** A step is recorded, and so the policy saved, exactly when its reward
      strictly beats `-sys.maxsize` and every earlier reward; in particular a
      reward of at most `-sys.maxsize` is never recorded. */
  lemma RecordedIffImproves<H>(obs: seq<Sample>, hs: seq<H>, k: nat)
    ensures k in StepsOf(Steps(obs, hs).rewards) <==> k < |obs| && IsRecord(obs, k)
    ensures k < |obs| && obs[k].reward <= InitialBest ==> k !in StepsOf(Steps(obs, hs).rewards)
  {
    RecordedStepsAreRecords(obs, hs);
    RecordsMembers(obs, k);
  }

  // ---------------------------------------------------------------------------
  // Projections of the trace

  /** The elements of `s` that `f` keeps, in order, as `f` rewrites them. */
  function Select<T, U>(s: seq<T>, f: T -> Option<U>): (r: seq<U>)
    ensures |r| <= |s|
    decreases |s|
  {
    if |s| == 0 then []
    else
      match f(s[0])
      case Some(u) => [u] + Select(s[1..], f)
      case None => Select(s[1..], f)
  }

  lemma {:induction false} SelectAppend<T, U>(a: seq<T>, b: seq<T>, f: T -> Option<U>)
    ensures Select(a + b, f) == Select(a, f) + Select(b, f)
    decreases |a|
  {
    if |a| == 0 {
      assert a + b == b;
    } else {
      assert (a + b)[1..] == a[1..] + b;
      SelectAppend(a[1..], b, f);
    }
  }

  lemma {:induction false} SelectNone<T, U>(s: seq<T>, f: T -> Option<U>)
    requires forall i :: 0 <= i < |s| ==> f(s[i]).None?
    ensures Select(s, f) == []
    decreases |s|
  {
    if |s| > 0 {
      SelectNone(s[1..], f);
    }
  }

  lemma {:induction false} SelectAll<T>(s: seq<T>, f: T -> Option<T>)
    requires forall i :: 0 <= i < |s| ==> f(s[i]) == Some(s[i])
    ensures Select(s, f) == s
    decreases |s|
  {
    if |s| > 0 {
      SelectAll(s[1..], f);
    }
  }

  function SaveStep<H>(e: Effect<H>): Option<nat> {
    if e.SavePolicy? then Some(e.step) else None
  }

  function BestSummaryStep<H>(e: Effect<H>): Option<nat> {
    if e.BestSummary? then Some(e.step) else None
  }

  function TrainSummaryStep<H>(e: Effect<H>): Option<nat> {
    if e.TrainSummary? then Some(e.step) else None
  }

  /** Keeps the hook setups, calls and teardowns. */
  function HookEffect<H>(e: Effect<H>): Option<Effect<H>> {
    if e.HookSetup? || e.HookCall? || e.HookTeardown? then Some(e) else None
  }

  /** Every hook called with steps `0` to `n - 1`: all hooks for step 0, in list
      order, then all for step 1, and so on. */
  function CallsUpTo<H>(hs: seq<H>, n: nat): seq<Effect<H>>
    decreases n
  {
    if n == 0 then [] else CallsUpTo(hs, n - 1) + HookCalls(hs, n - 1)
  }

  /** Call number `k * |hs| + i` is hook `i` at step `k`. */
  lemma {:induction false} CallsUpToIndex<H>(hs: seq<H>, n: nat, k: nat, i: nat)
    requires k < n && i < |hs|
    ensures |CallsUpTo(hs, n)| == n * |hs|
    ensures k * |hs| + i < n * |hs|
    ensures CallsUpTo(hs, n)[k * |hs| + i] == HookCall(hs[i], k)
    decreases n
  {
    var m := |hs|;
    CallsUpToLength(hs, n - 1);
    NextMultiple(n - 1, m);
    var before := CallsUpTo(hs, n - 1);
    assert CallsUpTo(hs, n) == before + HookCalls(hs, n - 1);
    if k < n - 1 {
      CallsUpToIndex(hs, n - 1, k, i);
    } else {
      assert k * m + i == |before| + i;
    }
  }

  lemma NextMultiple(n: nat, m: nat)
    ensures (n + 1) * m == n * m + m
  {
  }

  lemma {:induction false} CallsUpToLength<H>(hs: seq<H>, n: nat)
    ensures |CallsUpTo(hs, n)| == n * |hs|
    decreases n
  {
    if n > 0 {
      CallsUpToLength(hs, n - 1);
      NextMultiple(n - 1, |hs|);
    }
  }

  lemma SelectSingle<T, U>(x: T, f: T -> Option<U>)
    ensures Select([x], f) == if f(x).Some? then [f(x).value] else []
  {
    assert [x][1..] == [];
  }

  lemma StepProjections<H>(step: nat, improved: bool, hs: seq<H>)
    ensures Select(StepEffects(step, improved, hs), SaveStep) == if improved then [step] else []
    ensures Select(StepEffects(step, improved, hs), BestSummaryStep) == if improved then [step] else []
    ensures Select(StepEffects(step, improved, hs), TrainSummaryStep) == [step]
    ensures Select(StepEffects(step, improved, hs), HookEffect) == HookCalls(hs, step)
  {
    var t: Effect<H>, b: Effect<H>, v: Effect<H> := TrainSummary(step), BestSummary(step), SavePolicy(step);
    var head, best, save := [t], [b], [v];
    var mid: seq<Effect<H>> := if improved then best + save else [];
    var calls := HookCalls(hs, step);
    assert StepEffects(step, improved, hs) == head + mid + calls;
    SelectNone(calls, SaveStep);
    SelectNone(calls, BestSummaryStep);
    SelectNone(calls, TrainSummaryStep);
    SelectAll(calls, HookEffect);
    SelectSingle(t, SaveStep);
    SelectSingle(t, BestSummaryStep);
    SelectSingle(t, TrainSummaryStep);
    SelectSingle(t, HookEffect);
    SelectSingle(b, SaveStep);
    SelectSingle(b, BestSummaryStep);
    SelectSingle(b, TrainSummaryStep);
    SelectSingle(b, HookEffect);
    SelectSingle(v, SaveStep);
    SelectSingle(v, BestSummaryStep);
    SelectSingle(v, TrainSummaryStep);
    SelectSingle(v, HookEffect);
    SelectAppend(best, save, SaveStep);
    SelectAppend(best, save, BestSummaryStep);
    SelectAppend(best, save, TrainSummaryStep);
    SelectAppend(best, save, HookEffect);
    SelectAppend(head, mid, SaveStep);
    SelectAppend(head, mid, BestSummaryStep);
    SelectAppend(head, mid, TrainSummaryStep);
    SelectAppend(head, mid, HookEffect);
    SelectAppend(head + mid, calls, SaveStep);
    SelectAppend(head + mid, calls, BestSummaryStep);
    SelectAppend(head + mid, calls, TrainSummaryStep);
    SelectAppend(head + mid, calls, HookEffect);
  }

  /** Over the loop: the policy is saved, and the best summary written, exactly
      at the recorded steps and in step order; the train summary is written at
      every step; between them the hooks are called step by step. */
  lemma {:induction false} LoopProjections<H>(obs: seq<Sample>, hs: seq<H>)
    ensures var l := Steps(obs, hs);
      && Select(l.trace, SaveStep) == StepsOf(l.rewards)
      && Select(l.trace, BestSummaryStep) == StepsOf(l.rewards)
      && Select(l.trace, TrainSummaryStep) == Range(|obs|)
      && Select(l.trace, HookEffect) == CallsUpTo(hs, |obs|)
    decreases |obs|
  {
    if |obs| > 0 {
      var init := obs[..|obs| - 1];
      var step := |obs| - 1;
      LoopProjections(init, hs);
      var l := Steps(init, hs);
      var improved := obs[step].reward > l.best;
      var more := StepEffects(step, improved, hs);
      SelectAppend(l.trace, more, SaveStep);
      SelectAppend(l.trace, more, BestSummaryStep);
      SelectAppend(l.trace, more, TrainSummaryStep);
      SelectAppend(l.trace, more, HookEffect);
      StepProjections(step, improved, hs);
      if improved {
        var e := Event(step, obs[step].reward);
        assert (l.rewards + [e])[..|l.rewards|] == l.rewards;
      }
    }
  }

  // ---------------------------------------------------------------------------
  // Whole runs

  /** Selecting from a framed loop trace selects from each part of the frame. */
  lemma SelectFrame<H, U>(hs: seq<H>, body: seq<Effect<H>>, f: Effect<H> -> Option<U>)
    ensures Select(Frame(hs, body), f)
      == Select(HookSetups(hs), f) + Select([InitVariables], f) + Select(body, f) + Select(HookTeardowns(hs), f)
  {
    var setups := HookSetups(hs);
    var init: seq<Effect<H>> := [InitVariables];
    var teardowns := HookTeardowns(hs);
    SelectAppend(setups + init + body, teardowns, f);
    SelectAppend(setups + init, body, f);
    SelectAppend(setups, init, f);
  }

  /** The hook effects of a framed trace: the setups, the body's, the teardowns. */
  lemma FrameHooks<H>(hs: seq<H>, body: seq<Effect<H>>)
    ensures Select(Frame(hs, body), HookEffect) == HookSetups(hs) + Select(body, HookEffect) + HookTeardowns(hs)
  {
    var init: seq<Effect<H>> := [InitVariables];
    var setups, teardowns := HookSetups(hs), HookTeardowns(hs);
    var mid := Select(body, HookEffect);
    calc {
      Select(Frame(hs, body), HookEffect);
    ==  { SelectFrame(hs, body, HookEffect); }
      Select(setups, HookEffect) + Select(init, HookEffect) + mid + Select(teardowns, HookEffect);
    ==  { SelectAll(setups, HookEffect); SelectAll(teardowns, HookEffect); SelectSingle(init[0], HookEffect); }
      setups + [] + mid + teardowns;
    ==  { assert setups + [] == setups; }
      setups + mid + teardowns;
    }
  }

  /** A projection that ignores hook effects and the initialisation sees only the body. */
  lemma FrameOthers<H, U>(hs: seq<H>, body: seq<Effect<H>>, f: Effect<H> -> Option<U>)
    requires forall e: Effect<H> :: e.HookSetup? || e.HookTeardown? || e.InitVariables? ==> f(e).None?
    ensures Select(Frame(hs, body), f) == Select(body, f)
  {
    var init: Effect<H> := InitVariables;
    SelectFrame(hs, body, f);
    SelectNone(HookSetups(hs), f);
    SelectNone(HookTeardowns(hs), f);
    SelectSingle(init, f);
  }

  /** The hook trace of a run: every setup in list order, then every hook for
      each step in increasing order, then every teardown in list order. */
  lemma HookOrder<H>(epochs: int, obs: seq<Sample>, hooks: Option<seq<H>>)
    requires StepCount(epochs) <= |obs|
    ensures var hs := HookList(hooks);
      Select(Session(epochs, obs, hooks).2, HookEffect)
        == HookSetups(hs) + CallsUpTo(hs, StepCount(epochs)) + HookTeardowns(hs)
  {
    var hs := HookList(hooks);
    var run := obs[..StepCount(epochs)];
    var l := Steps(run, hs);
    assert Session(epochs, obs, hooks).2 == Frame(hs, l.trace);
    LoopProjections(run, hs);
    FrameHooks(hs, l.trace);
  }

  /** With `hooks = None` the run makes no hook call at all. */
  lemma NoHooksNoCalls<H>(epochs: int, obs: seq<Sample>)
    requires StepCount(epochs) <= |obs|
    ensures Select(Session<H>(epochs, obs, None).2, HookEffect) == []
  {
    HookOrder<H>(epochs, obs, None);
    CallsUpToLength<H>([], StepCount(epochs));
  }

  /** Over a whole run, the policy is saved, and the best summary written,
      exactly at the recorded steps, each below `max(0, epochs)`, and the train
      summary is written at every step. */
  lemma SessionSaves<H>(epochs: int, obs: seq<Sample>, hooks: Option<seq<H>>)
    requires StepCount(epochs) <= |obs|
    ensures var r := Session(epochs, obs, hooks);
      && Select(r.2, SaveStep) == StepsOf(r.1)
      && Select(r.2, BestSummaryStep) == StepsOf(r.1)
      && Select(r.2, TrainSummaryStep) == Range(StepCount(epochs))
      && forall k: nat :: k in StepsOf(r.1) <==> k < StepCount(epochs) && IsRecord(obs, k)
  {
    var hs := HookList(hooks);
    var run := obs[..StepCount(epochs)];
    var l := Steps(run, hs);
    var r := Session(epochs, obs, hooks);
    assert r.1 == l.rewards && r.2 == Frame(hs, l.trace);
    LoopProjections(run, hs);
    FrameOthers(hs, l.trace, SaveStep);
    FrameOthers(hs, l.trace, BestSummaryStep);
    FrameOthers(hs, l.trace, TrainSummaryStep);
    forall k: nat
      ensures k in StepsOf(l.rewards) <==> k < StepCount(epochs) && IsRecord(obs, k)
    {
      RecordedIffImproves(run, hs, k);
      if k < |run| {
        assert forall j :: 0 <= j <= k ==> run[j] == obs[j];
        assert IsRecord(run, k) <==> IsRecord(obs, k);
      }
    }
  }

  /** With `epochs <= 0` nothing is recorded or saved, and every hook is set up
      once and torn down once, around the variable initialisation. */
  lemma NoEpochs<H>(epochs: int, obs: seq<Sample>, hooks: Option<seq<H>>)
    requires epochs <= 0
    ensures var r := Session(epochs, obs, hooks);
      var hs := HookList(hooks);
      && r.0 == [] && r.1 == []
      && r.2 == HookSetups(hs) + [InitVariables] + HookTeardowns(hs)
  {
    assert obs[..StepCount(epochs)] == [];
    var hs := HookList(hooks);
    assert Frame(hs, []) == HookSetups(hs) + [InitVariables] + HookTeardowns(hs);
  }
}
