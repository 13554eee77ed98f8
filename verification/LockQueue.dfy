/** The per-key promise chain that serialises wallet calls, stepped at every await.

  A call joins the queue of each of its keys in one synchronous stretch, remembering the tails it
  found; its critical section may start when those have finished, runs one stretch between awaits at
  a time, finishes, and only later drops the tails that still name it. What a stretch does is left
  open: any function of the store. A call's places are the keys it locks and its own places, such as
  its locals and the hold it settles. */
module LockQueue {

  datatype Job<!L, !V> = Job(locks: set<L>, own: set<L>, body: seq<map<L, V> -> map<L, V>>) {
    function Places(): set<L> {
      locks + own
    }
  }

  datatype Phase = Waiting | Running(done: nat) | Finished | Cleaned {
    predicate Done() {
      Finished? || Cleaned?
    }
  }

  /** Calls are numbered in the order they joined. */
  datatype Queue<!L, !V> = Queue(
    jobs: seq<Job<L, V>>, phases: seq<Phase>, waits: seq<set<nat>>, tails: map<L, nat>, store: map<L, V>)

  datatype Step<!L, !V> =
    | Join(job: Job<L, V>)
    | Start(i: nat)
    | Act(i: nat)
    | Finish(i: nat)
    | Clean(i: nat)

  predicate Same<L(==), V(==)>(s: map<L, V>, t: map<L, V>, l: L) {
    (l in s <==> l in t) && (l in s ==> s[l] == t[l])
  }

  ghost predicate Agree<L(!new), V(!new)>(s: map<L, V>, t: map<L, V>, places: set<L>) {
    forall l | l in places :: Same(s, t, l)
  }

  /** The stretch reads and writes nothing but `places`. */
  ghost predicate Local<L(!new), V(!new)>(f: map<L, V> -> map<L, V>, places: set<L>) {
    && (forall s, l | l !in places :: Same(f(s), s, l))
    && (forall s, t | Agree(s, t, places) :: Agree(f(s), f(t), places))
  }

  predicate Sized<L, V>(q: Queue<L, V>) {
    |q.jobs| == |q.phases| == |q.waits|
  }

  ghost predicate Enabled<L(!new), V(!new)>(q: Queue<L, V>, step: Step<L, V>)
    requires Sized(q)
  {
    match step
    case Join(_) => true
    case Start(i) =>
      i < |q.jobs| && q.phases[i].Waiting? && forall p | p in q.waits[i] && p < |q.jobs| :: q.phases[p].Done()
    case Act(i) => i < |q.jobs| && q.phases[i].Running? && q.phases[i].done < |q.jobs[i].body|
    case Finish(i) => i < |q.jobs| && q.phases[i] == Running(|q.jobs[i].body|)
    case Clean(i) => i < |q.jobs| && q.phases[i].Finished?
  }

  ghost function Next<L(!new), V(!new)>(q: Queue<L, V>, step: Step<L, V>): (q': Queue<L, V>)
    requires Sized(q) && Enabled(q, step)
    ensures Sized(q')
  {
    match step
    case Join(job) =>
      var n := |q.jobs|;
      Queue(q.jobs + [job], q.phases + [Waiting], q.waits + [set k | k in job.locks && k in q.tails :: q.tails[k]],
            map k | k in q.tails.Keys + job.locks :: if k in job.locks then n else q.tails[k], q.store)
    case Start(i) => q.(phases := q.phases[i := Running(0)])
    case Act(i) => q.(phases := q.phases[i := Running(q.phases[i].done + 1)], store := q.jobs[i].body[q.phases[i].done](q.store))
    case Finish(i) => q.(phases := q.phases[i := Finished])
    case Clean(i) => q.(phases := q.phases[i := Cleaned], tails := map k | k in q.tails && q.tails[k] != i :: q.tails[k])
  }

  // ---- who waits for whom -----------------------------------------------------------------

  ghost predicate Shares<L(!new), V(!new)>(q: Queue<L, V>, i: nat, j: nat, k: L)
    requires i < |q.jobs| && j < |q.jobs|
  {
    k in q.jobs[i].locks && k in q.jobs[j].locks
  }

  /** A key's tail is the last call that locks it; a key without a tail has nobody left to wait for. */
  ghost predicate TailsOk<L(!new), V(!new)>(q: Queue<L, V>)
    requires Sized(q)
  {
    && (forall k | k in q.tails :: q.tails[k] < |q.jobs| && k in q.jobs[q.tails[k]].locks)
    && (forall k, i | k in q.tails && 0 <= i < |q.jobs| && k in q.jobs[i].locks :: i <= q.tails[k])
    && (forall k, i | 0 <= i < |q.jobs| && k in q.jobs[i].locks && k !in q.tails :: q.phases[i].Done())
  }

  ghost predicate Covered<L(!new), V(!new)>(q: Queue<L, V>, i: nat, j: nat, k: L)
    requires Sized(q) && i < |q.jobs| && j < |q.jobs|
  {
    q.phases[i].Done() || exists p :: p in q.waits[j] && i <= p < j && k in q.jobs[p].locks
  }

  /** Waits only point to earlier calls, and no earlier call on a shared key is ever forgotten. */
  ghost predicate WaitsOk<L(!new), V(!new)>(q: Queue<L, V>)
    requires Sized(q)
  {
    && (forall j, p | 0 <= j < |q.jobs| && p in q.waits[j] :: p < j)
    && (forall i, j, k | 0 <= i < j < |q.jobs| && Shares(q, i, j, k) :: Covered(q, i, j, k))
  }

  /** A call has started only if every earlier call that locks one of its keys has finished. */
  ghost predicate InOrder<L(!new), V(!new)>(q: Queue<L, V>)
    requires Sized(q)
  {
    forall i, j, k | 0 <= i < j < |q.jobs| && Shares(q, i, j, k) && !q.phases[j].Waiting? :: q.phases[i].Done()
  }

  ghost predicate QueueOk<L(!new), V(!new)>(q: Queue<L, V>) {
    Sized(q) && TailsOk(q) && WaitsOk(q) && InOrder(q)
  }

  lemma StepKeepsQueue<L(!new), V(!new)>(q: Queue<L, V>, step: Step<L, V>)
    requires QueueOk(q) && Enabled(q, step)
    ensures QueueOk(Next(q, step))
  {
    var q' := Next(q, step);
    match step
    case Join(job) => JoinKeepsWaits(q, job);
    case Start(j) => StartKeepsOrder(q, j);
    case Act(i) =>
      assert forall a, b, k | 0 <= a < b < |q.jobs| && Shares(q', a, b, k) :: Shares(q, a, b, k) && Covered(q, a, b, k);
    case Finish(i) =>
      assert forall a, b, k | 0 <= a < b < |q.jobs| && Shares(q', a, b, k) :: Shares(q, a, b, k) && Covered(q, a, b, k);
    case Clean(i) => CleanKeepsTails(q, i);
  }

  lemma JoinKeepsWaits<L(!new), V(!new)>(q: Queue<L, V>, job: Job<L, V>)
    requires QueueOk(q) && Enabled(q, Join(job))
    ensures QueueOk(Next(q, Join(job)))
  {
    var q' := Next(q, Join(job));
    var n := |q.jobs|;
    forall i, j, k | 0 <= i < j < n + 1 && Shares(q', i, j, k) ensures Covered(q', i, j, k) {
      if j < n {
        assert Shares(q, i, j, k) && Covered(q, i, j, k);
      } else if k in q.tails {
        assert q.tails[k] in q'.waits[n];
      }
    }
    forall i, j, k | 0 <= i < j < n + 1 && Shares(q', i, j, k) && !q'.phases[j].Waiting? ensures q'.phases[i].Done() {
      assert Shares(q, i, j, k);
    }
  }

  lemma StartKeepsOrder<L(!new), V(!new)>(q: Queue<L, V>, j: nat)
    requires QueueOk(q) && Enabled(q, Start(j))
    ensures QueueOk(Next(q, Start(j)))
    ensures forall i, k | 0 <= i < j && Shares(q, i, j, k) :: q.phases[i].Done()
  {
    var q' := Next(q, Start(j));
    forall i, k | 0 <= i < j && Shares(q, i, j, k) ensures q.phases[i].Done() {
      assert Covered(q, i, j, k);
      if !q.phases[i].Done() {
        var p :| p in q.waits[j] && i <= p < j && k in q.jobs[p].locks;
        assert i < p ==> Shares(q, i, p, k);
      }
    }
    forall a, b, k | 0 <= a < b < |q.jobs| && Shares(q', a, b, k) ensures Covered(q', a, b, k) {
      assert Shares(q, a, b, k) && Covered(q, a, b, k);
    }
    forall a, b, k | 0 <= a < b < |q.jobs| && Shares(q', a, b, k) && !q'.phases[b].Waiting? ensures q'.phases[a].Done() {
      assert Shares(q, a, b, k);
    }
  }

  lemma CleanKeepsTails<L(!new), V(!new)>(q: Queue<L, V>, i: nat)
    requires QueueOk(q) && Enabled(q, Clean(i))
    ensures QueueOk(Next(q, Clean(i)))
  {
    var q' := Next(q, Clean(i));
    forall a, b, k | 0 <= a < b < |q.jobs| && Shares(q', a, b, k) ensures Covered(q', a, b, k) {
      assert Shares(q, a, b, k) && Covered(q, a, b, k);
    }
    forall a, b, k | 0 <= a < b < |q.jobs| && Shares(q', a, b, k) && !q'.phases[b].Waiting? ensures q'.phases[a].Done() {
      assert Shares(q, a, b, k);
    }
    forall k, a | 0 <= a < |q.jobs| && k in q.jobs[a].locks && k !in q'.tails ensures q'.phases[a].Done() {
      if k in q.tails && a < i {
        assert Shares(q, a, i, k);
      }
    }
  }

  /** At most one critical section per key runs at a time. */
  lemma MutualExclusion<L(!new), V(!new)>(q: Queue<L, V>, i: nat, j: nat, k: L)
    requires QueueOk(q) && i < |q.jobs| && j < |q.jobs| && Shares(q, i, j, k)
    requires q.phases[i].Running? && q.phases[j].Running?
    ensures i == j
  {
    assert i < j ==> q.phases[i].Done();
    assert j < i ==> Shares(q, j, i, k);
  }

  /** Nobody waits for ever: the earliest unfinished call can always take its next step. */
  lemma SomebodyCanMove<L(!new), V(!new)>(q: Queue<L, V>, j: nat)
    requires QueueOk(q) && j < |q.jobs| && !q.phases[j].Done()
    requires forall n | 0 <= n < |q.jobs| && q.phases[n].Running? :: q.phases[n].done <= |q.jobs[n].body|
    ensures exists i | 0 <= i <= j :: Enabled(q, Start(i)) || Enabled(q, Act(i)) || Enabled(q, Finish(i))
  {
    if i :| 0 <= i < j && !q.phases[i].Done() {
      SomebodyCanMove(q, i);
    } else {
      assert Enabled(q, Start(j)) || Enabled(q, Act(j)) || Enabled(q, Finish(j));
    }
  }

  /** `trace` lists the states of a run, step after step, from an idle queue over `init`. */
  ghost predicate IsRun<L(!new), V(!new)>(trace: seq<Queue<L, V>>, steps: seq<Step<L, V>>, init: map<L, V>) {
    && |trace| == |steps| + 1 && trace[0] == Queue([], [], [], map[], init)
    && forall n | 0 <= n < |steps| :: Sized(trace[n]) && Enabled(trace[n], steps[n]) && trace[n + 1] == Next(trace[n], steps[n])
  }

  /** Whatever the critical sections do, the queue itself is in order at every moment of every run. */
  lemma {:induction false} RunKeepsQueue<L(!new), V(!new)>(trace: seq<Queue<L, V>>, steps: seq<Step<L, V>>, init: map<L, V>, n: nat)
    requires IsRun(trace, steps, init) && n < |trace|
    ensures QueueOk(trace[n])
    decreases n
  {
    if n > 0 {
      RunKeepsQueue(trace, steps, init, n - 1);
      StepKeepsQueue(trace[n - 1], steps[n - 1]);
    }
  }

  // ---- the same as one after the other ----------------------------------------------------

  /** The call keeps to its places, and shares none with an unfinished call but keys that both lock. */
  ghost predicate Apart<L(!new), V(!new)>(q: Queue<L, V>, job: Job<L, V>)
    requires Sized(q)
  {
    && (forall n | 0 <= n < |job.body| :: Local(job.body[n], job.Places()))
    && (forall i, l | 0 <= i < |q.jobs| && l in q.jobs[i].Places() && l in job.Places() ::
          q.phases[i].Done() || (l in q.jobs[i].locks && l in job.locks))
  }

  ghost predicate Admissible<L(!new), V(!new)>(q: Queue<L, V>, step: Step<L, V>)
    requires Sized(q)
  {
    Enabled(q, step) && (step.Join? ==> Apart(q, step.job))
  }

  /** The store after the first `n` stretches of `body`. */
  ghost function Played<L, V>(body: seq<map<L, V> -> map<L, V>>, n: nat, s: map<L, V>): map<L, V>
    requires n <= |body|
  {
    if n == 0 then s else body[n - 1](Played(body, n - 1, s))
  }

  /** The store after running the first `n` calls one after the other, in the order they joined. */
  ghost function Serial<L, V>(jobs: seq<Job<L, V>>, n: nat, s: map<L, V>): map<L, V>
    requires n <= |jobs|
  {
    if n == 0 then s else Played(jobs[n - 1].body, |jobs[n - 1].body|, Serial(jobs, n - 1, s))
  }

  ghost predicate JobsLocal<L(!new), V(!new)>(jobs: seq<Job<L, V>>) {
    forall i, n | 0 <= i < |jobs| && 0 <= n < |jobs[i].body| :: Local(jobs[i].body[n], jobs[i].Places())
  }

  /** Of two calls that use a place, the earlier one has finished or both lock it. */
  ghost predicate SharingOk<L(!new), V(!new)>(q: Queue<L, V>)
    requires Sized(q)
  {
    forall i, j, l | 0 <= i < j < |q.jobs| && l in q.jobs[i].Places() && l in q.jobs[j].Places() ::
      q.phases[i].Done() || Shares(q, i, j, l)
  }

  /** Everyone before `j` who uses place `l` has finished, and nobody from `j` on has started. */
  ghost predicate Between<L(!new), V(!new)>(q: Queue<L, V>, l: L, j: nat)
    requires Sized(q)
  {
    forall i | 0 <= i < |q.jobs| && l in q.jobs[i].Places() ::
      (i < j ==> q.phases[i].Done()) && (i >= j ==> q.phases[i].Waiting?)
  }

  /** A place that nobody is working on holds what the serial run up to there leaves in it, and a
    running call sees in its places exactly what it would see in the serial run. */
  ghost predicate StoreOk<L(!new), V(!new)>(q: Queue<L, V>, init: map<L, V>)
    requires Sized(q)
  {
    && (forall i | 0 <= i < |q.jobs| && q.phases[i].Running? :: SeesSerial(q, init, i))
    && (forall l, j | 0 <= j <= |q.jobs| && Between(q, l, j) :: Same(q.store, Serial(q.jobs, j, init), l))
  }

  ghost predicate SeesSerial<L(!new), V(!new)>(q: Queue<L, V>, init: map<L, V>, i: nat)
    requires Sized(q) && i < |q.jobs| && q.phases[i].Running?
  {
    && q.phases[i].done <= |q.jobs[i].body|
    && Agree(q.store, Played(q.jobs[i].body, q.phases[i].done, Serial(q.jobs, i, init)), q.jobs[i].Places())
  }

  ghost predicate QueueInv<L(!new), V(!new)>(q: Queue<L, V>, init: map<L, V>) {
    QueueOk(q) && JobsLocal(q.jobs) && SharingOk(q) && StoreOk(q, init)
  }

  lemma {:induction false} PlayedElsewhere<L(!new), V(!new)>(body: seq<map<L, V> -> map<L, V>>, n: nat, s: map<L, V>, places: set<L>, l: L)
    requires n <= |body| && l !in places && forall m | 0 <= m < |body| :: Local(body[m], places)
    ensures Same(Played(body, n, s), s, l)
    decreases n
  {
    if n > 0 {
      PlayedElsewhere(body, n - 1, s, places, l);
      assert Local(body[n - 1], places);
    }
  }

  lemma {:induction false} SerialElsewhere<L(!new), V(!new)>(jobs: seq<Job<L, V>>, i: nat, j: nat, s: map<L, V>, l: L)
    requires JobsLocal(jobs) && i <= j <= |jobs|
    requires forall n | i <= n < j :: l !in jobs[n].Places()
    ensures Same(Serial(jobs, j, s), Serial(jobs, i, s), l)
    decreases j
  {
    if i < j {
      SerialElsewhere(jobs, i, j - 1, s, l);
      PlayedElsewhere(jobs[j - 1].body, |jobs[j - 1].body|, Serial(jobs, j - 1, s), jobs[j - 1].Places(), l);
    }
  }

  lemma {:induction false} SerialAppended<L(!new), V(!new)>(jobs: seq<Job<L, V>>, job: Job<L, V>, n: nat, s: map<L, V>)
    requires n <= |jobs|
    ensures Serial(jobs + [job], n, s) == Serial(jobs, n, s)
    decreases n
  {
    if n > 0 {
      SerialAppended(jobs, job, n - 1, s);
    }
  }

  lemma JoinKeepsJobs<L(!new), V(!new)>(q: Queue<L, V>, job: Job<L, V>)
    requires Sized(q) && JobsLocal(q.jobs) && SharingOk(q) && Apart(q, job)
    ensures JobsLocal(q.jobs + [job]) && SharingOk(Next(q, Join(job)))
  {
    hide Local;
    var q' := Next(q, Join(job));
    forall i, j, l | 0 <= i < j < |q'.jobs| && l in q'.jobs[i].Places() && l in q'.jobs[j].Places()
      ensures q'.phases[i].Done() || Shares(q', i, j, l)
    {
      assert j < |q.jobs| && !q.phases[i].Done() ==> Shares(q, i, j, l);
    }
  }

  lemma JoinKeepsStore<L(!new), V(!new)>(q: Queue<L, V>, job: Job<L, V>, init: map<L, V>)
    requires QueueInv(q, init) && Apart(q, job)
    ensures StoreOk(Next(q, Join(job)), init)
  {
    var q' := Next(q, Join(job));
    var n := |q.jobs|;
    hide QueueOk, JobsLocal, SharingOk, Local, Serial, Played, Same;
    assert forall i | 0 <= i < n :: q'.jobs[i] == q.jobs[i] && q'.phases[i] == q.phases[i];
    forall i | 0 <= i < |q'.jobs| && q'.phases[i].Running? ensures SeesSerial(q', init, i) {
      assert SeesSerial(q, init, i);
      SerialAppended(q.jobs, job, i, init);
    }
    forall l, j | 0 <= j <= |q'.jobs| && Between(q', l, j) ensures Same(q'.store, Serial(q'.jobs, j, init), l) {
      var m := if j > n then n else j;
      assert Between(q, l, m);
      SerialAppended(q.jobs, job, m, init);
      if j > n {
        assert q'.jobs[n] == job && l !in job.Places();
        JoinedElsewhere(q.jobs, job, init, l);
        SameTransitive(q.store, Serial(q.jobs, n, init), Serial(q'.jobs, j, init), l);
      }
    }
  }

  lemma JoinedElsewhere<L(!new), V(!new)>(jobs: seq<Job<L, V>>, job: Job<L, V>, s: map<L, V>, l: L)
    requires l !in job.Places() && forall n | 0 <= n < |job.body| :: Local(job.body[n], job.Places())
    ensures Same(Serial(jobs, |jobs|, s), Serial(jobs + [job], |jobs| + 1, s), l)
  {
    SerialAppended(jobs, job, |jobs|, s);
    PlayedElsewhere(job.body, |job.body|, Serial(jobs, |jobs|, s), job.Places(), l);
  }

  lemma SameTransitive<L, V>(s: map<L, V>, t: map<L, V>, u: map<L, V>, l: L)
    requires Same(s, t, l) && Same(t, u, l)
    ensures Same(s, u, l)
  {
  }

  lemma StartKeepsStore<L(!new), V(!new)>(q: Queue<L, V>, i: nat, init: map<L, V>)
    requires QueueInv(q, init) && Enabled(q, Start(i))
    ensures StoreOk(Next(q, Start(i)), init)
  {
    var q' := Next(q, Start(i));
    StartKeepsOrder(q, i);
    forall l | l in q.jobs[i].Places() ensures Same(q.store, Serial(q.jobs, i, init), l) {
      forall a | 0 <= a < |q.jobs| && l in q.jobs[a].Places()
        ensures (a < i ==> q.phases[a].Done()) && (a >= i ==> q.phases[a].Waiting?)
      {
        if a > i {
          assert Shares(q, i, a, l);
        }
      }
      assert Between(q, l, i);
    }
    forall a | 0 <= a < |q.jobs| && q'.phases[a].Running? ensures SeesSerial(q', init, a) {
      if a != i { assert SeesSerial(q, init, a); }
    }
    forall l, j | 0 <= j <= |q.jobs| && Between(q', l, j) ensures Same(q'.store, Serial(q.jobs, j, init), l) {
      assert l !in q.jobs[i].Places();
      assert Between(q, l, j);
    }
  }

  lemma ActKeepsStore<L(!new), V(!new)>(q: Queue<L, V>, i: nat, init: map<L, V>)
    requires QueueInv(q, init) && Enabled(q, Act(i))
    ensures StoreOk(Next(q, Act(i)), init)
  {
    var q' := Next(q, Act(i));
    assert SeesSerial(q, init, i);
    assert Local(q.jobs[i].body[q.phases[i].done], q.jobs[i].Places());
    forall a | 0 <= a < |q.jobs| && q'.phases[a].Running? ensures SeesSerial(q', init, a) {
      assert SeesSerial(q, init, a);
      if a != i {
        forall l | l in q.jobs[a].Places() ensures l !in q.jobs[i].Places() {
          if l in q.jobs[i].Places() { NotBothRunning(q, a, i, l); }
        }
      }
    }
    forall l, j | 0 <= j <= |q.jobs| && Between(q', l, j) ensures Same(q'.store, Serial(q.jobs, j, init), l) {
      assert l !in q.jobs[i].Places();
      assert Between(q, l, j);
    }
  }

  /** Two running calls have no place in common. */
  lemma NotBothRunning<L(!new), V(!new)>(q: Queue<L, V>, i: nat, j: nat, l: L)
    requires QueueOk(q) && SharingOk(q) && i < |q.jobs| && j < |q.jobs| && q.phases[i].Running? && q.phases[j].Running?
    requires l in q.jobs[i].Places() && l in q.jobs[j].Places()
    ensures i == j
  {
    assert i < j ==> Shares(q, i, j, l);
    assert j < i ==> Shares(q, j, i, l);
    if i != j { MutualExclusion(q, i, j, l); }
  }

  /** Whoever joined later and uses a place of a running call is still waiting. */
  lemma LaterSharersWait<L(!new), V(!new)>(q: Queue<L, V>, i: nat, l: L)
    requires QueueOk(q) && SharingOk(q) && i < |q.jobs| && q.phases[i].Running? && l in q.jobs[i].Places()
    ensures forall n | i < n < |q.jobs| && l in q.jobs[n].Places() :: q.phases[n].Waiting?
  {
    forall n | i < n < |q.jobs| && l in q.jobs[n].Places() ensures q.phases[n].Waiting? {
      assert Shares(q, i, n, l);
    }
  }

  lemma FinishKeepsStore<L(!new), V(!new)>(q: Queue<L, V>, i: nat, init: map<L, V>)
    requires QueueInv(q, init) && Enabled(q, Finish(i))
    ensures StoreOk(Next(q, Finish(i)), init)
  {
    var q' := Next(q, Finish(i));
    assert SeesSerial(q, init, i);
    forall a | 0 <= a < |q.jobs| && q'.phases[a].Running? ensures SeesSerial(q', init, a) {
      assert SeesSerial(q, init, a);
    }
    forall l, j | 0 <= j <= |q.jobs| && Between(q', l, j) ensures Same(q'.store, Serial(q.jobs, j, init), l) {
      if l in q.jobs[i].Places() {
        assert q'.phases[i].Done();
        LaterSharersWait(q, i, l);
        SerialElsewhere(q.jobs, i + 1, j, init, l);
      } else {
        assert Between(q, l, j);
      }
    }
  }

  lemma CleanKeepsStore<L(!new), V(!new)>(q: Queue<L, V>, i: nat, init: map<L, V>)
    requires QueueInv(q, init) && Enabled(q, Clean(i))
    ensures StoreOk(Next(q, Clean(i)), init)
  {
    var q' := Next(q, Clean(i));
    forall a | 0 <= a < |q.jobs| && q'.phases[a].Running? ensures SeesSerial(q', init, a) {
      assert SeesSerial(q, init, a);
    }
    forall l, j | 0 <= j <= |q.jobs| && Between(q', l, j) ensures Same(q'.store, Serial(q.jobs, j, init), l) {
      assert Between(q, l, j);
    }
  }

  lemma SharingKept<L(!new), V(!new)>(q: Queue<L, V>, step: Step<L, V>)
    requires Sized(q) && SharingOk(q) && Enabled(q, step) && !step.Join?
    ensures SharingOk(Next(q, step))
  {
    var q' := Next(q, step);
    assert forall i, j, l | 0 <= i < j < |q.jobs| && Shares(q, i, j, l) :: Shares(q', i, j, l);
  }

  lemma StepKeepsInv<L(!new), V(!new)>(q: Queue<L, V>, step: Step<L, V>, init: map<L, V>)
    requires QueueInv(q, init) && Admissible(q, step)
    ensures QueueInv(Next(q, step), init)
  {
    StepKeepsQueue(q, step);
    if !step.Join? { SharingKept(q, step); }
    match step
    case Join(job) => JoinKeepsJobs(q, job); JoinKeepsStore(q, job, init);
    case Start(i) => StartKeepsStore(q, i, init);
    case Act(i) => ActKeepsStore(q, i, init);
    case Finish(i) => FinishKeepsStore(q, i, init);
    case Clean(i) => CleanKeepsStore(q, i, init);
  }

  ghost predicate KeptApart<L(!new), V(!new)>(trace: seq<Queue<L, V>>, steps: seq<Step<L, V>>) {
    |trace| > |steps| && forall n | 0 <= n < |steps| && steps[n].Join? :: Sized(trace[n]) && Apart(trace[n], steps[n].job)
  }

  lemma {:induction false} RunKeepsInv<L(!new), V(!new)>(trace: seq<Queue<L, V>>, steps: seq<Step<L, V>>, init: map<L, V>, n: nat)
    requires IsRun(trace, steps, init) && KeptApart(trace, steps) && n < |trace|
    ensures QueueInv(trace[n], init)
    decreases n
  {
    if n > 0 {
      RunKeepsInv(trace, steps, init, n - 1);
      StepKeepsInv(trace[n - 1], steps[n - 1], init);
    }
  }

  /** At every moment, a place that no unfinished call uses already holds what the serial run of all
    calls that joined so far leaves there. */
  lemma IdlePlaceSerial<L(!new), V(!new)>(q: Queue<L, V>, init: map<L, V>, l: L)
    requires QueueInv(q, init) && forall i | 0 <= i < |q.jobs| && l in q.jobs[i].Places() :: q.phases[i].Done()
    ensures Same(q.store, Serial(q.jobs, |q.jobs|, init), l)
  {
    assert Between(q, l, |q.jobs|);
  }

  lemma SamePlaces<L(!new), V(!new)>(s: map<L, V>, t: map<L, V>)
    requires forall l :: Same(s, t, l)
    ensures s == t
  {
    assert forall l | l in s :: Same(s, t, l);
    assert forall l | l in t :: Same(s, t, l);
  }

  lemma DoneIsSerial<L(!new), V(!new)>(q: Queue<L, V>, init: map<L, V>)
    requires QueueInv(q, init) && forall i | 0 <= i < |q.jobs| :: q.phases[i].Done()
    ensures q.store == Serial(q.jobs, |q.jobs|, init)
  {
    forall l ensures Same(q.store, Serial(q.jobs, |q.jobs|, init), l) {
      IdlePlaceSerial(q, init, l);
    }
    SamePlaces(q.store, Serial(q.jobs, |q.jobs|, init));
  }

  /** However the calls were interleaved, once all of them have finished every place holds what
    running them one after the other, in the order they joined, leaves there. */
  lemma InterleavingIsSerial<L(!new), V(!new)>(trace: seq<Queue<L, V>>, steps: seq<Step<L, V>>, init: map<L, V>, n: nat)
    requires IsRun(trace, steps, init) && KeptApart(trace, steps) && n < |trace|
    requires Sized(trace[n]) && forall i | 0 <= i < |trace[n].jobs| :: trace[n].phases[i].Done()
    ensures trace[n].store == Serial(trace[n].jobs, |trace[n].jobs|, init)
  {
    RunKeepsInv(trace, steps, init, n);
    DoneIsSerial(trace[n], init);
  }

  /** The queue after a running call has played the first `k` stretches of its section. */
  ghost function PlayedBy<L(!new), V(!new)>(q: Queue<L, V>, i: nat, k: nat): Queue<L, V>
    requires Sized(q) && i < |q.jobs| && k <= |q.jobs[i].body|
  {
    q.(phases := q.phases[i := Running(k)], store := Played(q.jobs[i].body, k, q.store))
  }

  lemma ActPlays<L(!new), V(!new)>(q: Queue<L, V>, i: nat, k: nat)
    requires Sized(q) && i < |q.jobs| && k < |q.jobs[i].body|
    ensures Enabled(PlayedBy(q, i, k), Act(i)) && Next(PlayedBy(q, i, k), Act(i)) == PlayedBy(q, i, k + 1)
  {
    var p := PlayedBy(q, i, k);
    assert p.phases[i := Running(k + 1)] == PlayedBy(q, i, k + 1).phases;
  }

  lemma RunExtended<L(!new), V(!new)>(trace: seq<Queue<L, V>>, steps: seq<Step<L, V>>, init: map<L, V>, step: Step<L, V>)
    requires IsRun(trace, steps, init) && Sized(trace[|steps|]) && Enabled(trace[|steps|], step)
    ensures IsRun(trace + [Next(trace[|steps|], step)], steps + [step], init)
  {
    var trace', steps' := trace + [Next(trace[|steps|], step)], steps + [step];
    hide Enabled, Next;
    forall n | 0 <= n < |steps'| ensures Sized(trace'[n]) && Enabled(trace'[n], steps'[n]) && trace'[n + 1] == Next(trace'[n], steps'[n]) {
      if n < |steps| { assert trace'[n] == trace[n] && trace'[n + 1] == trace[n + 1] && steps'[n] == steps[n]; }
    }
  }

  /** A call that joins when nobody is in flight can start at once. */
  lemma JoinsAndStarts<L(!new), V(!new)>(q: Queue<L, V>, job: Job<L, V>)
    requires QueueOk(q) && forall i | 0 <= i < |q.jobs| :: q.phases[i].Done()
    ensures var n, q1 := |q.jobs|, Next(q, Join(job));
            && |q1.jobs| == n + 1 && q1.jobs == q.jobs + [job] && q1.store == q.store && (forall i | 0 <= i < n :: q1.phases[i].Done())
            && Enabled(q1, Start(n)) && Next(q1, Start(n)) == PlayedBy(q1, n, 0)
  {
    var n, q1 := |q.jobs|, Next(q, Join(job));
    assert forall p | p in q1.waits[n] :: p < n;
  }

  /** Any run that has come to rest can go on with any call, alone, from its join to its end. */
  lemma RunsAlone<L(!new), V(!new)>(trace: seq<Queue<L, V>>, steps: seq<Step<L, V>>, init: map<L, V>, job: Job<L, V>)
    returns (trace': seq<Queue<L, V>>, steps': seq<Step<L, V>>)
    requires IsRun(trace, steps, init) && Sized(trace[|steps|])
    requires forall i | 0 <= i < |trace[|steps|].jobs| :: trace[|steps|].phases[i].Done()
    ensures IsRun(trace', steps', init) && trace <= trace' && steps + [Join(job)] <= steps'
    ensures forall n | |steps| < n < |steps'| :: !steps'[n].Join?
    ensures var q, q' := trace[|steps|], trace'[|steps'|];
            && q'.jobs == q.jobs + [job] && Sized(q') && (forall i | 0 <= i < |q'.jobs| :: q'.phases[i].Done())
            && q'.store == Played(job.body, |job.body|, q.store)
  {
    RunKeepsQueue(trace, steps, init, |steps|);
    var q := trace[|steps|];
    var n := |q.jobs|;
    var q1 := Next(q, Join(job));
    JoinsAndStarts(q, job);
    assert Enabled(q, Join(job)) && Sized(q1);
    var plays := PlayedBy(q1, n, 0);
    RunExtended(trace, steps, init, Join(job));
    trace', steps' := trace + [q1], steps + [Join(job)];
    RunExtended(trace', steps', init, Start(n));
    trace', steps' := trace' + [plays], steps' + [Start(n)];
    var k := 0;
    while k < |job.body|
      invariant k <= |job.body| && IsRun(trace', steps', init) && trace'[|steps'|] == PlayedBy(q1, n, k)
      invariant trace <= trace' && steps + [Join(job)] <= steps'
      invariant forall m | |steps| < m < |steps'| :: !steps'[m].Join?
    {
      hide IsRun, Enabled, Next;
      ActPlays(q1, n, k);
      RunExtended(trace', steps', init, Act(n));
      trace', steps' := trace' + [PlayedBy(q1, n, k + 1)], steps' + [Act(n)];
      k := k + 1;
    }
    assert Enabled(trace'[|steps'|], Finish(n));
    RunExtended(trace', steps', init, Finish(n));
    trace', steps' := trace' + [Next(trace'[|steps'|], Finish(n))], steps' + [Finish(n)];
  }
}
