/**
 * Whose limits a stale-while-revalidate value is kept under: every queued refresh, every
 * refresh started and every stored value goes back to one call of the run, and carries the
 * freshness and the time to live that call gave.
 */
module FlexibleCallers {
  import opened Options
  import opened CacheStore
  import opened Flexible

  // ------------------------------------------------------------------ which call it was

  /** Nothing was queued for the request, and the stamp found stale and the caller's limits are these. */
  predicate QueuedBy(before: State, step: Step, r: Refresh)
    requires step.Serve?
  {
    && step.scope !in before.queue && r.freshFor == step.freshFor && r.total == step.total
    && Ask(before, step.freshFor).Stale? && Ask(before, step.freshFor).created == r.created
  }

  /** The `i`th step found the value stale, with nothing queued for its request, and so queued this. */
  ghost predicate Queues(s: State, steps: seq<Step>, i: int, scope: Scope, r: Refresh) {
    && 0 <= i < |steps| && Runs(s, steps[..i])
    && steps[i].Serve? && steps[i].scope == scope
    && QueuedBy(Run(s, steps[..i]), steps[i], r)
  }

  ghost predicate NeverFlushed(steps: seq<Step>, scope: Scope) {
    forall i :: 0 <= i < |steps| ==> !(steps[i].Flush? && steps[i].scope == scope)
  }

  ghost predicate StillQueued(s: State, steps: seq<Step>, i: int, scope: Scope, r: Refresh) {
    Queues(s, steps, i, scope, r) && NeverFlushed(steps[i + 1..], scope)
  }

  /** The `j`th step started, as `id`, the refresh that was then queued for its request. */
  ghost predicate StartedAt(s: State, steps: seq<Step>, i: int, j: int, id: Id, r: Refresh) {
    && 0 <= i < j < |steps| && steps[j].Flush? && steps[j].id == id
    && StillQueued(s, steps[..j], i, steps[j].scope, r)
  }

  /** The `i`th step, a call of this caller, gave this time to live. */
  predicate Gave(steps: seq<Step>, i: int, total: Option<int>) {
    0 <= i < |steps| && steps[i].Serve? && steps[i].total == total
  }

  predicate GaveAs(steps: seq<Step>, i: int, caller: Id, total: Option<int>) {
    Gave(steps, i, total) && steps[i].caller == caller
  }

  ghost predicate QueuedFor(s: State, steps: seq<Step>, scope: Scope, r: Refresh) {
    exists i :: StillQueued(s, steps, i, scope, r)
  }

  ghost predicate StartedFor(s: State, steps: seq<Step>, id: Id, r: Refresh) {
    exists i, j :: StartedAt(s, steps, i, j, id, r)
  }

  ghost predicate MissedFor(steps: seq<Step>, caller: Id, total: Option<int>) {
    exists i :: GaveAs(steps, i, caller, total)
  }

  ghost predicate GivenBySome(steps: seq<Step>, total: Option<int>) {
    exists i :: Gave(steps, i, total)
  }

  /** All that is under way or stored goes back to a call. */
  ghost predicate Accounted(s: State, t: State, steps: seq<Step>) {
    && (forall scope :: scope in t.queue ==> QueuedFor(s, steps, scope, t.queue[scope]))
    && (forall id :: id in t.refreshes ==> StartedFor(s, steps, id, t.refreshes[id]))
    && (forall c :: c in t.misses ==> MissedFor(steps, c, t.misses[c]))
    && (t.value.Some? ==> GivenBySome(steps, t.value.value.value.total))
  }

  // ------------------------------------------------------------------ one step more

  lemma QueuesLater(s: State, steps: seq<Step>, last: Step, i: int, scope: Scope, r: Refresh)
    requires Queues(s, steps, i, scope, r)
    ensures Queues(s, steps + [last], i, scope, r)
  {
    assert (steps + [last])[..i] == steps[..i];
  }

  lemma QueuedLater(s: State, steps: seq<Step>, last: Step, scope: Scope, r: Refresh)
    requires QueuedFor(s, steps, scope, r) && !(last.Flush? && last.scope == scope)
    ensures QueuedFor(s, steps + [last], scope, r)
  {
    var i: int :| StillQueued(s, steps, i, scope, r);
    QueuesLater(s, steps, last, i, scope, r);
    assert (steps + [last])[i + 1..] == steps[i + 1..] + [last];
    assert StillQueued(s, steps + [last], i, scope, r);
  }

  lemma StartedLater(s: State, steps: seq<Step>, last: Step, id: Id, r: Refresh)
    requires StartedFor(s, steps, id, r)
    ensures StartedFor(s, steps + [last], id, r)
  {
    var i: int, j: int :| StartedAt(s, steps, i, j, id, r);
    assert (steps + [last])[..j] == steps[..j];
    assert StartedAt(s, steps + [last], i, j, id, r);
  }

  lemma MissedLater(steps: seq<Step>, last: Step, caller: Id, total: Option<int>)
    requires MissedFor(steps, caller, total)
    ensures MissedFor(steps + [last], caller, total) && GivenBySome(steps, total)
  {
    var i: int :| GaveAs(steps, i, caller, total);
    assert GaveAs(steps + [last], i, caller, total) && Gave(steps, i, total);
  }

  lemma GivenLater(steps: seq<Step>, last: Step, total: Option<int>)
    requires GivenBySome(steps, total)
    ensures GivenBySome(steps + [last], total)
  {
    var i: int :| Gave(steps, i, total);
    assert Gave(steps + [last], i, total);
  }

  lemma StartedWasGiven(s: State, steps: seq<Step>, id: Id, r: Refresh)
    requires StartedFor(s, steps, id, r)
    ensures GivenBySome(steps, r.total)
  {
    var i: int, j: int :| StartedAt(s, steps, i, j, id, r);
    assert Gave(steps, i, r.total);
  }

  lemma ServeQueues(s: State, steps: seq<Step>, last: Step, r: Refresh)
    requires Runs(s, steps) && last.Serve? && QueuedBy(Run(s, steps), last, r)
    ensures QueuedFor(s, steps + [last], last.scope, r)
  {
    var all := steps + [last];
    assert all[..|steps|] == steps && all[|steps| + 1..] == [];
    assert StillQueued(s, all, |steps|, last.scope, r);
  }

  lemma FlushStarts(s: State, steps: seq<Step>, last: Step, r: Refresh)
    requires last.Flush? && QueuedFor(s, steps, last.scope, r)
    ensures StartedFor(s, steps + [last], last.id, r)
  {
    var i: int :| StillQueued(s, steps, i, last.scope, r);
    var all := steps + [last];
    assert all[..|steps|] == steps && all[|steps|] == last;
    assert StartedAt(s, all, i, |steps|, last.id, r);
  }

  lemma NextQueue(t: State, last: Step, scope: Scope)
    requires Enabled(t, last) && scope in Next(t, last).queue
    ensures var r := Next(t, last).queue[scope];
            if scope in t.queue then r == t.queue[scope] && !(last.Flush? && last.scope == scope)
            else last.Serve? && last.scope == scope && QueuedBy(t, last, r)
  {}

  lemma QueueAccounted(s: State, t: State, steps: seq<Step>, last: Step, scope: Scope)
    requires Runs(s, steps) && t == Run(s, steps) && Enabled(t, last) && scope in Next(t, last).queue
    requires scope in t.queue ==> QueuedFor(s, steps, scope, t.queue[scope])
    ensures QueuedFor(s, steps + [last], scope, Next(t, last).queue[scope])
  {
    NextQueue(t, last, scope);
    if scope in t.queue {
      QueuedLater(s, steps, last, scope, t.queue[scope]);
    } else {
      ServeQueues(s, steps, last, Next(t, last).queue[scope]);
    }
  }

  lemma NextRefresh(t: State, last: Step, id: Id)
    requires Enabled(t, last) && id in Next(t, last).refreshes
    ensures var r := Next(t, last).refreshes[id];
            if id in t.refreshes then r == t.refreshes[id]
            else last.Flush? && last.id == id && last.scope in t.queue && r == t.queue[last.scope]
  {}

  lemma RefreshAccounted(s: State, t: State, steps: seq<Step>, last: Step, id: Id)
    requires Enabled(t, last) && id in Next(t, last).refreshes
    requires id in t.refreshes ==> StartedFor(s, steps, id, t.refreshes[id])
    requires last.Flush? ==> QueuedFor(s, steps, last.scope, t.queue[last.scope])
    ensures StartedFor(s, steps + [last], id, Next(t, last).refreshes[id])
  {
    NextRefresh(t, last, id);
    if id in t.refreshes {
      StartedLater(s, steps, last, id, t.refreshes[id]);
    } else {
      FlushStarts(s, steps, last, t.queue[last.scope]);
    }
  }

  lemma NextMiss(t: State, last: Step, caller: Id)
    requires Enabled(t, last) && caller in Next(t, last).misses
    ensures if caller in t.misses then Next(t, last).misses[caller] == t.misses[caller]
            else last.Serve? && last.caller == caller && Next(t, last).misses[caller] == last.total
  {}

  lemma MissAccounted(t: State, steps: seq<Step>, last: Step, caller: Id)
    requires Enabled(t, last) && caller in Next(t, last).misses
    requires caller in t.misses ==> MissedFor(steps, caller, t.misses[caller])
    ensures MissedFor(steps + [last], caller, Next(t, last).misses[caller])
  {
    NextMiss(t, last, caller);
    if caller in t.misses {
      MissedLater(steps, last, caller, t.misses[caller]);
    } else {
      assert GaveAs(steps + [last], |steps|, caller, last.total);
    }
  }

  lemma NextValue(t: State, last: Step)
    requires Enabled(t, last) && Next(t, last).value.Some?
    ensures var total := Next(t, last).value.value.value.total;
            match last
            case Finish(id, _) => total == t.refreshes[id].total
            case FinishMiss(id, _) => total == t.misses[id]
            case _ => t.value.Some? && total == t.value.value.value.total
  {}

  lemma ValueAccounted(s: State, t: State, steps: seq<Step>, last: Step)
    requires Accounted(s, t, steps) && Enabled(t, last) && Next(t, last).value.Some?
    ensures GivenBySome(steps + [last], Next(t, last).value.value.value.total)
  {
    var total := Next(t, last).value.value.value.total;
    NextValue(t, last);
    match last {
      case Finish(id, _) => StartedWasGiven(s, steps, id, t.refreshes[id]);
      case FinishMiss(id, _) => MissedLater(steps, last, id, t.misses[id]);
      case _ =>
    }
    GivenLater(steps, last, total);
  }

  lemma StepAccounted(s: State, t: State, steps: seq<Step>, last: Step)
    requires Runs(s, steps) && t == Run(s, steps) && Accounted(s, t, steps) && Enabled(t, last)
    ensures Accounted(s, Next(t, last), steps + [last])
  {
    var u := Next(t, last);
    forall scope | scope in u.queue ensures QueuedFor(s, steps + [last], scope, u.queue[scope]) {
      QueueAccounted(s, t, steps, last, scope);
    }
    forall id | id in u.refreshes ensures StartedFor(s, steps + [last], id, u.refreshes[id]) {
      RefreshAccounted(s, t, steps, last, id);
    }
    forall c | c in u.misses ensures MissedFor(steps + [last], c, u.misses[c]) {
      MissAccounted(t, steps, last, c);
    }
    if u.value.Some? {
      ValueAccounted(s, t, steps, last);
    }
  }

  lemma {:induction false} FrontRuns(s: State, steps: seq<Step>, last: Step)
    requires Runs(s, steps + [last])
    ensures Runs(s, steps) && Enabled(Run(s, steps), last)
    decreases |steps|
  {
    assert steps != [] ==> (steps + [last])[1..] == steps[1..] + [last];
    if steps != [] {
      FrontRuns(Next(s, steps[0]), steps[1..], last);
    } else {
      assert [] + [last] == [last];
    }
  }

  // ------------------------------------------------------------------ main results

  /** In every run, whatever is queued, under way or stored goes back to the call that asked for it. */
  lemma {:induction false} EverythingGoesBackToACall(now: nat, steps: seq<Step>)
    requires Runs(Start(now), steps)
    ensures Accounted(Start(now), Run(Start(now), steps), steps)
    decreases |steps|
  {
    if steps != [] {
      var front, last := steps[..|steps| - 1], steps[|steps| - 1];
      assert steps == front + [last];
      FrontRuns(Start(now), front, last);
      EverythingGoesBackToACall(now, front);
      RunThen(Start(now), front, last);
      StepAccounted(Start(now), Run(Start(now), front), front, last);
    }
  }

  /** Where every call gives the same time to live, no answer is ever as old as that. */
  lemma NothingOlderIsServed(now: nat, steps: seq<Step>, freshFor: int, total: int)
    requires Runs(Start(now), steps) && total > 0
    requires forall i :: 0 <= i < |steps| && steps[i].Serve? ==> steps[i].total == Some(total)
    requires !Ask(Run(Start(now), steps), freshFor).Missed?
    requires Run(Start(now), steps).now / 1000 + total < FOREVER
    ensures Run(Start(now), steps).now - Ask(Run(Start(now), steps), freshFor).item.at < 1000 * total
  {
    var s := Run(Start(now), steps);
    EverythingGoesBackToACall(now, steps);
    ServedBeforeTotal(now, steps, freshFor);
    var i: int :| Gave(steps, i, s.value.value.value.total);
  }

  // ------------------------------------------------------------------ what is served

  function Clock(now: nat, steps: seq<Step>): nat {
    if steps == [] then now
    else
      var last := steps[|steps| - 1];
      Clock(now, steps[..|steps| - 1]) + if last.Tick? then last.milliseconds else 0
  }

  /** What was computed last and when, unless the value was forgotten since. */
  function LastComputed(now: nat, steps: seq<Step>): Option<(nat, nat)> {
    if steps == [] then None
    else
      var front, last := steps[..|steps| - 1], steps[|steps| - 1];
      match last
      case Finish(_, data) => Some((data, Clock(now, front)))
      case FinishMiss(_, data) => Some((data, Clock(now, front)))
      case ForgetValue => None
      case _ => LastComputed(now, front)
  }

  ghost predicate HoldsTheLast(now: nat, steps: seq<Step>, s: State) {
    && s.now == Clock(now, steps)
    && (s.value.Some? ==> LastComputed(now, steps) == Some((s.value.value.value.data, s.value.value.value.at)))
  }

  lemma StepHoldsTheLast(now: nat, front: seq<Step>, s: State, last: Step)
    requires HoldsTheLast(now, front, s) && Enabled(s, last)
    ensures HoldsTheLast(now, front + [last], Next(s, last))
  {
    assert (front + [last])[..|front|] == front;
  }

  /**
   * In every run a value that is held, and so every answer but a miss, is the one computed
   * last, as of when it was computed, and none is held once it was forgotten.
   */
  lemma {:induction false} AnswersTheLastComputed(now: nat, steps: seq<Step>)
    requires Runs(Start(now), steps)
    ensures HoldsTheLast(now, steps, Run(Start(now), steps))
    decreases |steps|
  {
    if steps != [] {
      var front, last := steps[..|steps| - 1], steps[|steps| - 1];
      assert steps == front + [last];
      FrontRuns(Start(now), front, last);
      AnswersTheLastComputed(now, front);
      RunThen(Start(now), front, last);
      StepHoldsTheLast(now, front, Run(Start(now), front), last);
    }
  }

  /** A miss that was computed is over, and the next caller is served its value as fresh. */
  lemma ComputedMissIsFresh(now: nat, steps: seq<Step>, caller: Id, data: nat, freshFor: int)
    requires Runs(Start(now), steps) && freshFor >= 1
    requires var s := Run(Start(now), steps);
             caller in s.misses && (s.misses[caller].Some? ==> s.misses[caller].value > 0)
    ensures var s := Run(Start(now), steps);
            var t := Next(s, FinishMiss(caller, data));
            && Ask(t, freshFor) == Answer.Fresh(Item(data, s.now, s.misses[caller])) && caller !in t.misses
            && caller !in Next(s, ThrowMiss(caller)).misses
  {}
}
