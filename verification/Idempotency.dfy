/** The single-flight idempotency store, stepped at its awaits: calls join, runs settle, the first
  caller releases its slot. What a run computes is up to the run. */
module Idempotency {
  import opened Outcomes

  /** A scope and a key. */
  datatype Id = Id(scope: string, key: string)

  datatype RunState<+V> = Going | Succeeded(value: V) | Failed

  datatype Run<+V> = Run(id: Id, owner: nat, state: RunState<V>)

  datatype Caller<+V> =
    | Owner(id: Id, run: nat)
    | Joined(id: Id, run: nat)
    | Returned(id: Id, value: V)
    | Threw(id: Id)

  datatype Store<V> = Store(done: map<Id, V>, inFlight: map<Id, nat>, runs: seq<Run<V>>, callers: seq<Caller<V>>)

  datatype Step<+V> =
    | Call(id: Id)
    | Succeed(run: nat, value: V)
    | Fail(run: nat)
    | Release(caller: nat)
    | Wake(caller: nat)

  predicate Settled<V>(s: Store<V>, run: nat) {
    run < |s.runs| && !s.runs[run].state.Going?
  }

  predicate CanStep<V>(s: Store<V>, step: Step<V>) {
    match step
    case Call(_) => true
    case Succeed(r, _) => r < |s.runs| && s.runs[r].state.Going?
    case Fail(r) => r < |s.runs| && s.runs[r].state.Going?
    case Release(c) => c < |s.callers| && s.callers[c].Owner? && Settled(s, s.callers[c].run)
    case Wake(c) => c < |s.callers| && s.callers[c].Joined? && Settled(s, s.callers[c].run)
  }

  /** What a caller gets out of a settled run. */
  function Outcome<V>(s: Store<V>, id: Id, run: nat): Caller<V>
    requires Settled(s, run)
  {
    if s.runs[run].state.Succeeded? then Returned(id, s.runs[run].state.value) else Threw(id)
  }

  function Take<V>(s: Store<V>, step: Step<V>): Store<V>
    requires CanStep(s, step)
  {
    match step
    case Call(id) =>
      if id in s.done then s.(callers := s.callers + [Returned(id, s.done[id])])
      else if id in s.inFlight then s.(callers := s.callers + [Joined(id, s.inFlight[id])])
      else s.(inFlight := s.inFlight[id := |s.runs|],
              runs := s.runs + [Run(id, |s.callers|, Going)],
              callers := s.callers + [Owner(id, |s.runs|)])
    case Succeed(r, v) =>
      s.(done := s.done[s.runs[r].id := v], runs := s.runs[r := s.runs[r].(state := Succeeded(v))])
    case Fail(r) =>
      s.(runs := s.runs[r := s.runs[r].(state := Failed)])
    case Release(c) =>
      var id := s.callers[c].id;
      s.(inFlight := s.inFlight - {id}, callers := s.callers[c := Outcome(s, id, s.callers[c].run)])
    case Wake(c) =>
      s.(callers := s.callers[c := Outcome(s, s.callers[c].id, s.callers[c].run)])
  }

  /** The store's two maps, with the runs and callers that hold on to its promises. Each method is one
    stretch of execute between awaits. */
  class MemoryIdempotencyStore<V> {
    var done: map<Id, V>
    var inFlight: map<Id, nat>
    var runs: seq<Run<V>>
    var callers: seq<Caller<V>>

    ghost function Contents(): Store<V>
      reads this
    {
      Store(done, inFlight, runs, callers)
    }

    constructor ()
      ensures Contents() == Store(map[], map[], [], [])
    {
      done, inFlight, runs, callers := map[], map[], [], [];
    }

    /** From the call to its first await, or to the cached answer. */
    method Execute(id: Id)
      modifies this
      ensures Contents() == Take(old(Contents()), Call(id))
    {
      if id in done {
        callers := callers + [Returned(id, done[id])];
        return;
      }
      if id in inFlight {
        callers := callers + [Joined(id, inFlight[id])];
        return;
      }
      runs := runs + [Run(id, |callers|, Going)];
      inFlight := inFlight[id := |runs| - 1];
      callers := callers + [Owner(id, |runs| - 1)];
    }

    /** The run's own last stretch: a value is cached, a throw is not. */
    method SettleRun(r: nat, result: Option<V>)
      requires r < |runs| && runs[r].state.Going?
      modifies this
      ensures Contents() == Take(old(Contents()), if result.Some? then Succeed(r, result.value) else Fail(r))
    {
      if result.Some? {
        done := done[runs[r].id := result.value];
        runs := runs[r := runs[r].(state := Succeeded(result.value))];
      } else {
        runs := runs[r := runs[r].(state := Failed)];
      }
    }

    /** The first caller wakes up and releases the slot, whatever the run did. */
    method ReleaseSlot(c: nat)
      requires CanStep(Contents(), Release(c))
      modifies this
      ensures Contents() == Take(old(Contents()), Release(c))
    {
      var caller := callers[c];
      inFlight := inFlight - {caller.id};
      var state := runs[caller.run].state;
      callers := callers[c := if state.Succeeded? then Returned(caller.id, state.value) else Threw(caller.id)];
    }
  }

  /** The slot of a key is taken exactly while its run's first caller has not left, a run that is going
    or not yet released holds the slot, and the cache holds exactly what successful runs returned. */
  ghost predicate RunOk<V(!new)>(s: Store<V>, r: nat)
    requires r < |s.runs|
  {
    var run := s.runs[r];
    && run.owner < |s.callers|
    && (run.state.Going? || s.callers[run.owner] == Owner(run.id, r) ==>
          s.callers[run.owner] == Owner(run.id, r) && run.id in s.inFlight && s.inFlight[run.id] == r)
    && (run.state.Succeeded? ==> run.id in s.done && s.done[run.id] == run.state.value)
  }

  ghost predicate CallerOk<V(!new)>(s: Store<V>, c: nat)
    requires c < |s.callers|
  {
    match s.callers[c]
    case Owner(id, r) => r < |s.runs| && s.runs[r].id == id && s.runs[r].owner == c
    case Joined(id, r) => r < |s.runs| && s.runs[r].id == id
    case Returned(id, v) => id in s.done && s.done[id] == v
    case Threw(id) => HasFailed(s, id)
  }

  ghost predicate HasFailed<V(!new)>(s: Store<V>, id: Id) {
    exists r | 0 <= r < |s.runs| :: s.runs[r].id == id && s.runs[r].state.Failed?
  }

  lemma FailedStays<V(!new)>(s: Store<V>, s': Store<V>, id: Id)
    requires HasFailed(s, id) && |s.runs| <= |s'.runs| && forall r | 0 <= r < |s.runs| && s.runs[r].state.Failed? :: s'.runs[r] == s.runs[r]
    ensures HasFailed(s', id)
  {
    var r :| 0 <= r < |s.runs| && s.runs[r].id == id && s.runs[r].state.Failed?;
    assert s'.runs[r] == s.runs[r];
  }

  ghost predicate SlotOk<V(!new)>(s: Store<V>, id: Id)
    requires id in s.inFlight
  {
    var r := s.inFlight[id];
    r < |s.runs| && s.runs[r].id == id && s.runs[r].owner < |s.callers| && s.callers[s.runs[r].owner] == Owner(id, r)
  }

  ghost predicate CacheOk<V(!new)>(s: Store<V>, id: Id)
    requires id in s.done
  {
    exists r | 0 <= r < |s.runs| :: s.runs[r].id == id && s.runs[r].state == Succeeded(s.done[id])
  }

  /** A key runs again only after its earlier runs have failed. */
  ghost predicate RetriesOk<V(!new)>(s: Store<V>) {
    forall q, r | 0 <= q < r < |s.runs| && s.runs[q].id == s.runs[r].id :: s.runs[q].state.Failed?
  }

  ghost predicate Inv<V(!new)>(s: Store<V>) {
    && (forall r | 0 <= r < |s.runs| :: RunOk(s, r))
    && (forall c | 0 <= c < |s.callers| :: CallerOk(s, c))
    && (forall id | id in s.inFlight :: SlotOk(s, id))
    && (forall id | id in s.done :: CacheOk(s, id))
    && RetriesOk(s)
  }

  /** A call that is served from the cache or joins a run adds only itself. */
  lemma ServedKeepsInv<V(!new)>(s: Store<V>, id: Id)
    requires Inv(s) && (id in s.done || id in s.inFlight)
    ensures Inv(Take(s, Call(id)))
  {
    var s' := Take(s, Call(id));
    forall r | 0 <= r < |s'.runs| ensures RunOk(s', r) { assert RunOk(s, r); }
    forall c | 0 <= c < |s'.callers| ensures CallerOk(s', c) {
      if c < |s.callers| {
        assert CallerOk(s, c);
        if s.callers[c].Threw? { FailedStays(s, s', s.callers[c].id); }
      } else if id !in s.done {
        assert SlotOk(s, id);
      }
    }
    forall j | j in s'.inFlight ensures SlotOk(s', j) { assert SlotOk(s, j); }
    forall j | j in s'.done ensures CacheOk(s', j) { assert CacheOk(s, j); }
  }

  lemma StartKeepsInv<V(!new)>(s: Store<V>, id: Id)
    requires Inv(s) && id !in s.done && id !in s.inFlight
    ensures Inv(Take(s, Call(id)))
  {
    var s' := Take(s, Call(id));
    forall r | 0 <= r < |s'.runs| ensures RunOk(s', r) {
      if r < |s.runs| { assert RunOk(s, r); }
    }
    forall c | 0 <= c < |s'.callers| ensures CallerOk(s', c) {
      if c < |s.callers| {
        assert CallerOk(s, c);
        if s.callers[c].Threw? { FailedStays(s, s', s.callers[c].id); }
      }
    }
    forall j | j in s'.inFlight ensures SlotOk(s', j) {
      if j in s.inFlight { assert SlotOk(s, j); }
    }
    CacheGrows(s, s');
    forall q, r | 0 <= q < r < |s'.runs| && s'.runs[q].id == s'.runs[r].id ensures s'.runs[q].state.Failed? {
      assert RunOk(s, q);
    }
  }

  lemma CacheGrows<V(!new)>(s: Store<V>, s': Store<V>)
    requires (forall j | j in s.done :: CacheOk(s, j)) && s'.done == s.done && s.runs <= s'.runs
    ensures forall j | j in s'.done :: CacheOk(s', j)
  {
    forall j | j in s'.done ensures CacheOk(s', j) {
      assert CacheOk(s, j);
      var r :| 0 <= r < |s.runs| && s.runs[r].id == j && s.runs[r].state == Succeeded(s.done[j]);
      assert s'.runs[r] == s.runs[r];
    }
  }

  /** A run that is still going has its key to itself. */
  lemma GoingAlone<V(!new)>(s: Store<V>, r: nat, q: nat)
    requires Inv(s) && r < |s.runs| && q < |s.runs| && s.runs[r].state.Going? && s.runs[q].id == s.runs[r].id
    ensures s.runs[r].id !in s.done
    ensures q == r || s.runs[q].state.Failed?
  {
    assert RunOk(s, r) && RunOk(s, q);
    forall id | id in s.done ensures id != s.runs[r].id {
      assert CacheOk(s, id);
    }
  }

  lemma SettleKeepsInv<V(!new)>(s: Store<V>, step: Step<V>)
    requires Inv(s) && CanStep(s, step) && (step.Succeed? || step.Fail?)
    ensures Inv(Take(s, step))
  {
    var s' := Take(s, step);
    var r := step.run;
    GoingAlone(s, r, r);
    forall q | 0 <= q < |s'.runs| ensures RunOk(s', q) {
      assert RunOk(s, q);
      if s.runs[q].id == s.runs[r].id { GoingAlone(s, r, q); }
    }
    forall c | 0 <= c < |s'.callers| ensures CallerOk(s', c) {
      assert CallerOk(s, c);
      if s.callers[c].Threw? { FailedStays(s, s', s.callers[c].id); }
    }
    forall j | j in s'.inFlight ensures SlotOk(s', j) {
      assert SlotOk(s, j);
    }
    forall j | j in s'.done ensures CacheOk(s', j) {
      if j in s.done {
        assert CacheOk(s, j);
        var q :| 0 <= q < |s.runs| && s.runs[q].id == j && s.runs[q].state == Succeeded(s.done[j]);
        assert s'.runs[q] == s.runs[q];
      } else {
        assert s'.runs[r].id == j;
      }
    }
    forall p, q | 0 <= p < q < |s'.runs| && s'.runs[p].id == s'.runs[q].id ensures s'.runs[p].state.Failed? {
      assert s.runs[p].state.Failed?;
    }
  }

  lemma LeaveKeepsInv<V(!new)>(s: Store<V>, step: Step<V>)
    requires Inv(s) && CanStep(s, step) && (step.Release? || step.Wake?)
    ensures Inv(Take(s, step))
  {
    var s' := Take(s, step);
    assert CallerOk(s, step.caller);
    var run := s.callers[step.caller].run;
    assert RunOk(s, run);
    forall r | 0 <= r < |s'.runs| ensures RunOk(s', r) {
      assert RunOk(s, r);
    }
    forall c | 0 <= c < |s'.callers| ensures CallerOk(s', c) {
      assert CallerOk(s, c);
      if s.callers[c].Threw? { FailedStays(s, s', s.callers[c].id); }
      if c == step.caller && s'.callers[c].Threw? { assert s'.runs[run].state.Failed?; }
    }
    forall j | j in s'.inFlight ensures SlotOk(s', j) {
      assert SlotOk(s, j);
    }
    forall j | j in s'.done ensures CacheOk(s', j) {
      assert CacheOk(s, j);
    }
  }

  lemma StepKeepsInv<V(!new)>(s: Store<V>, step: Step<V>)
    requires Inv(s) && CanStep(s, step)
    ensures Inv(Take(s, step))
  {
    if step.Call? {
      if step.id in s.done || step.id in s.inFlight { ServedKeepsInv(s, step.id); } else { StartKeepsInv(s, step.id); }
    } else if step.Succeed? || step.Fail? {
      SettleKeepsInv(s, step);
    } else {
      LeaveKeepsInv(s, step);
    }
  }

  ghost predicate IsRun<V(!new)>(trace: seq<Store<V>>, steps: seq<Step<V>>) {
    && |trace| == |steps| + 1 && trace[0] == Store(map[], map[], [], [])
    && forall n | 0 <= n < |steps| :: CanStep(trace[n], steps[n]) && trace[n + 1] == Take(trace[n], steps[n])
  }

  lemma {:induction false} RunKeepsInv<V(!new)>(trace: seq<Store<V>>, steps: seq<Step<V>>, n: nat)
    requires IsRun(trace, steps) && n < |trace|
    ensures Inv(trace[n])
    decreases n
  {
    if n > 0 {
      RunKeepsInv(trace, steps, n - 1);
      StepKeepsInv(trace[n - 1], steps[n - 1]);
    }
  }

  /** At every moment of every interleaving, two different runs of one key do not overlap and do not
    both succeed: if neither has failed they are the same run. */
  lemma SingleFlight<V(!new)>(trace: seq<Store<V>>, steps: seq<Step<V>>, n: nat, q: nat, r: nat)
    requires IsRun(trace, steps) && n < |trace| && q < |trace[n].runs| && r < |trace[n].runs|
    requires trace[n].runs[q].id == trace[n].runs[r].id && !trace[n].runs[q].state.Failed? && !trace[n].runs[r].state.Failed?
    ensures q == r
  {
    RunKeepsInv(trace, steps, n);
    assert RetriesOk(trace[n]);
  }

  /** Whoever returns normally for a key returns the value of its one successful run. */
  lemma EveryoneGetsTheValue<V(!new)>(trace: seq<Store<V>>, steps: seq<Step<V>>, n: nat, c: nat, r: nat)
    requires IsRun(trace, steps) && n < |trace| && c < |trace[n].callers| && r < |trace[n].runs|
    requires trace[n].callers[c].Returned? && trace[n].runs[r].id == trace[n].callers[c].id && trace[n].runs[r].state.Succeeded?
    ensures trace[n].callers[c].value == trace[n].runs[r].state.value
  {
    RunKeepsInv(trace, steps, n);
    assert CallerOk(trace[n], c) && RunOk(trace[n], r);
  }

  /** A normal return means that some run of the key did succeed. */
  lemma ReturnsComeFromRuns<V(!new)>(trace: seq<Store<V>>, steps: seq<Step<V>>, n: nat, c: nat)
    requires IsRun(trace, steps) && n < |trace| && c < |trace[n].callers| && trace[n].callers[c].Returned?
    ensures exists r | 0 <= r < |trace[n].runs| ::
              trace[n].runs[r].id == trace[n].callers[c].id && trace[n].runs[r].state == Succeeded(trace[n].callers[c].value)
  {
    RunKeepsInv(trace, steps, n);
    assert CallerOk(trace[n], c);
    assert CacheOk(trace[n], trace[n].callers[c].id);
  }

  /** A throw means that some run of the key did fail. */
  lemma ThrowsComeFromRuns<V(!new)>(trace: seq<Store<V>>, steps: seq<Step<V>>, n: nat, c: nat)
    requires IsRun(trace, steps) && n < |trace| && c < |trace[n].callers| && trace[n].callers[c].Threw?
    ensures exists r | 0 <= r < |trace[n].runs| :: trace[n].runs[r].id == trace[n].callers[c].id && trace[n].runs[r].state.Failed?
  {
    RunKeepsInv(trace, steps, n);
    assert CallerOk(trace[n], c);
  }

  /** Whoever waits for a run leaves with that run's own result; a call on a key that has succeeded leaves at
    once with the value of that run. */
  lemma LeavesWithResult<V(!new)>(trace: seq<Store<V>>, steps: seq<Step<V>>, n: nat)
    requires IsRun(trace, steps) && n < |steps|
    ensures var s, s', step := trace[n], trace[n + 1], steps[n];
            && (step.Release? || step.Wake? ==>
                  var c := step.caller;
                  && c < |s.callers| == |s'.callers| && (s.callers[c].Owner? || s.callers[c].Joined?) && s.callers[c].run < |s.runs|
                  && (match s.runs[s.callers[c].run].state
                      case Succeeded(v) => s'.callers[c] == Returned(s.callers[c].id, v)
                      case Failed => s'.callers[c] == Threw(s.callers[c].id)
                      case Going => false))
            && (step.Call? ==>
                  && |s'.callers| == |s.callers| + 1
                  && forall r | 0 <= r < |s.runs| && s.runs[r].id == step.id && s.runs[r].state.Succeeded? ::
                       s'.callers[|s.callers|] == Returned(step.id, s.runs[r].state.value))
  {
    RunKeepsInv(trace, steps, n);
    var s := trace[n];
    assert trace[n + 1] == Take(s, steps[n]);
    forall r | 0 <= r < |s.runs| && s.runs[r].state.Succeeded? ensures s.runs[r].id in s.done && s.done[s.runs[r].id] == s.runs[r].state.value {
      assert RunOk(s, r);
    }
    hide Inv;
  }

  /** A key is free for a new run exactly when all its runs have failed and their first callers have
    left; until then a call is served from the cache or joins the run in flight. */
  lemma RunsAgainIff<V(!new)>(trace: seq<Store<V>>, steps: seq<Step<V>>, n: nat, id: Id)
    requires IsRun(trace, steps) && n < |trace|
    ensures |Take(trace[n], Call(id)).runs| > |trace[n].runs|
            <==> forall r | 0 <= r < |trace[n].runs| && trace[n].runs[r].id == id ::
                   trace[n].runs[r].state.Failed? && Left(trace[n], r)
  {
    var s := trace[n];
    RunKeepsInv(trace, steps, n);
    if id in s.done {
      assert CacheOk(s, id);
    } else if id in s.inFlight {
      assert SlotOk(s, id);
    }
    forall r | 0 <= r < |s.runs| && s.runs[r].id == id && id !in s.done && id !in s.inFlight
      ensures s.runs[r].state.Failed? && Left(s, r)
    {
      assert RunOk(s, r) && CallerOk(s, s.runs[r].owner);
    }
  }

  /** The caller that started run `r` has left. */
  predicate Left<V>(s: Store<V>, r: nat)
    requires r < |s.runs|
  {
    s.runs[r].owner < |s.callers| && !(s.callers[s.runs[r].owner].Owner? && s.callers[s.runs[r].owner].run == r)
  }
}
