/** The single-use nonce store that forgets expired nonces, against a store that never forgets. */
module Nonce {

  /** One checkAndConsume call at time `now`; `exp` is the parsed expiry, nothing if it does not parse. */
  datatype Expiry = NotADate | At(ms: int)

  datatype Check = Check(now: int, nonce: string, exp: Expiry)

  // ---- the store that keeps everything ----------------------------------------------------

  datatype Kept = Kept(nonce: string, exp: int)

  /** A nonce is fresh if it has not expired and no acceptance of it is still running. */
  predicate Fresh(kept: seq<Kept>, c: Check) {
    && c.exp.At? && c.exp.ms > c.now
    && forall i | 0 <= i < |kept| :: kept[i].nonce == c.nonce ==> kept[i].exp <= c.now
  }

  function Remember(kept: seq<Kept>, c: Check): seq<Kept> {
    if Fresh(kept, c) then kept + [Kept(c.nonce, c.exp.ms)] else kept
  }

  // ---- the store that prunes --------------------------------------------------------------

  function Pruned(seen: map<string, int>, now: int): map<string, int> {
    map n | n in seen && seen[n] > now :: seen[n]
  }

  function Accepts(seen: map<string, int>, c: Check): bool {
    c.exp.At? && c.exp.ms > c.now && c.nonce !in Pruned(seen, c.now)
  }

  function Consume(seen: map<string, int>, c: Check): map<string, int> {
    if Accepts(seen, c) then Pruned(seen, c.now)[c.nonce := c.exp.ms] else Pruned(seen, c.now)
  }

  class MemoryNonceStore {
    var seen: map<string, int>

    constructor ()
      ensures seen == map[]
    {
      seen := map[];
    }

    method CheckAndConsume(now: int, nonce: string, exp: Expiry) returns (ok: bool)
      modifies this
      ensures ok == Accepts(old(seen), Check(now, nonce, exp))
      ensures seen == Consume(old(seen), Check(now, nonce, exp))
    {
      Prune(now);
      if exp.NotADate? || exp.ms <= now { return false; }
      if nonce in seen { return false; }
      seen := seen[nonce := exp.ms];
      ok := true;
    }

    /** Visits every entry once and deletes the expired ones. */
    method Prune(now: int)
      modifies this
      ensures seen == Pruned(old(seen), now)
    {
      var entries := seen.Keys;
      while entries != {}
        invariant entries <= old(seen).Keys
        invariant seen == map n | n in old(seen) && (n in entries || old(seen)[n] > now) :: old(seen)[n]
        decreases entries
      {
        var n :| n in entries;
        if seen[n] <= now { seen := seen - {n}; }
        entries := entries - {n};
      }
    }
  }

  // ---- the two agree ----------------------------------------------------------------------

  /** At time `now` the pruned map holds exactly the running acceptances. */
  ghost predicate Agrees(seen: map<string, int>, kept: seq<Kept>, now: int) {
    && (forall n | n in seen && seen[n] > now :: Kept(n, seen[n]) in kept)
    && (forall i | 0 <= i < |kept| && kept[i].exp > now :: kept[i].nonce in seen && seen[kept[i].nonce] == kept[i].exp)
  }

  lemma CheckAgrees(seen: map<string, int>, kept: seq<Kept>, last: int, c: Check)
    requires Agrees(seen, kept, last) && last <= c.now
    ensures Accepts(seen, c) == Fresh(kept, c)
    ensures Agrees(Consume(seen, c), Remember(kept, c), c.now)
  {
    if c.nonce in seen && seen[c.nonce] > c.now {
      var i :| 0 <= i < |kept| && kept[i] == Kept(c.nonce, seen[c.nonce]);
    }
    var kept' := Remember(kept, c);
    forall n | n in Consume(seen, c) && Consume(seen, c)[n] > c.now ensures Kept(n, Consume(seen, c)[n]) in kept' {
      if n == c.nonce && Accepts(seen, c) {
        assert kept'[|kept|] == Kept(n, c.exp.ms);
      }
    }
  }

  ghost predicate ClockForward(calls: seq<Check>, last: int) {
    forall i | 0 <= i < |calls| :: last <= calls[i].now && forall j | i <= j < |calls| :: calls[i].now <= calls[j].now
  }

  function AnswersPruned(seen: map<string, int>, calls: seq<Check>): seq<bool>
    decreases |calls|
  {
    if calls == [] then [] else [Accepts(seen, calls[0])] + AnswersPruned(Consume(seen, calls[0]), calls[1..])
  }

  function AnswersKept(kept: seq<Kept>, calls: seq<Check>): seq<bool>
    decreases |calls|
  {
    if calls == [] then [] else [Fresh(kept, calls[0])] + AnswersKept(Remember(kept, calls[0]), calls[1..])
  }

  /** With a clock that never goes back, forgetting expired nonces is invisible: every call gets the
    answer that a store which keeps every acceptance for ever would give. */
  lemma {:induction false} PruningInvisible(seen: map<string, int>, kept: seq<Kept>, last: int, calls: seq<Check>)
    requires Agrees(seen, kept, last) && ClockForward(calls, last)
    ensures AnswersPruned(seen, calls) == AnswersKept(kept, calls)
    decreases |calls|
  {
    if calls != [] {
      CheckAgrees(seen, kept, last, calls[0]);
      assert forall i | 0 <= i < |calls| - 1 :: calls[1..][i] == calls[i + 1];
      PruningInvisible(Consume(seen, calls[0]), Remember(kept, calls[0]), calls[0].now, calls[1..]);
    }
  }

  /** The call names an expiry that is still to come. */
  predicate Unexpired(c: Check) {
    match c.exp
    case NotADate => false
    case At(ms) => c.now < ms
  }

  /** Every earlier call of the same nonce was refused or has expired by now. */
  predicate NoneRunning(answers: seq<bool>, calls: seq<Check>, j: nat)
    requires j < |calls| <= |answers|
  {
    forall i | 0 <= i < j && calls[i].nonce == calls[j].nonce && answers[i] :: calls[i].exp.At? && calls[i].exp.ms <= calls[j].now
  }

  lemma {:induction false} KeptAnswer(kept: seq<Kept>, calls: seq<Check>, j: nat)
    requires j < |calls|
    ensures |AnswersKept(kept, calls)| == |calls|
    ensures AnswersKept(kept, calls)[j] <==>
              && Unexpired(calls[j]) && (forall k | k in kept && k.nonce == calls[j].nonce :: k.exp <= calls[j].now)
              && NoneRunning(AnswersKept(kept, calls), calls, j)
    decreases |calls|
  {
    AnswersLength(kept, calls);
    if j > 0 {
      var kept', rest := Remember(kept, calls[0]), calls[1..];
      var answers, later := AnswersKept(kept, calls), AnswersKept(kept', rest);
      assert rest[j - 1] == calls[j];
      KeptAnswer(kept', rest, j - 1);
      assert answers == [Fresh(kept, calls[0])] + later;
      RestRunning(kept, calls, j);
    } else {
      FreshIff(kept, calls[0]);
    }
  }

  lemma FreshIff(kept: seq<Kept>, c: Check)
    ensures Fresh(kept, c) <==> Unexpired(c) && forall k | k in kept && k.nonce == c.nonce :: k.exp <= c.now
  {
    forall i | 0 <= i < |kept| ensures kept[i] in kept { }
  }

  lemma RestRunning(kept: seq<Kept>, calls: seq<Check>, j: nat)
    requires 0 < j < |calls| && |AnswersKept(kept, calls)| == |calls|
    requires AnswersKept(kept, calls) == [Fresh(kept, calls[0])] + AnswersKept(Remember(kept, calls[0]), calls[1..])
    ensures var kept', c := Remember(kept, calls[0]), calls[j];
            ((forall k | k in kept' && k.nonce == c.nonce :: k.exp <= c.now) && NoneRunning(AnswersKept(kept', calls[1..]), calls[1..], j - 1))
            <==> ((forall k | k in kept && k.nonce == c.nonce :: k.exp <= c.now) && NoneRunning(AnswersKept(kept, calls), calls, j))
  {
    var kept', c := Remember(kept, calls[0]), calls[j];
    var answers, rest := AnswersKept(kept, calls), calls[1..];
    var later := AnswersKept(kept', rest);
    assert forall i | 0 <= i < |rest| :: rest[i] == calls[i + 1] && later[i] == answers[i + 1];
    assert answers[0] == Fresh(kept, calls[0]);
    hide AnswersKept;
    assert NoneRunning(answers, calls, j) <==>
             NoneRunning(later, rest, j - 1) && (calls[0].nonce == c.nonce && answers[0] ==> calls[0].exp.At? && calls[0].exp.ms <= c.now) by {
      assert forall i | 0 < i < j :: calls[i] == rest[i - 1] && answers[i] == later[i - 1];
    }
    if answers[0] {
      assert kept' == kept + [Kept(calls[0].nonce, calls[0].exp.ms)];
      assert forall k :: k in kept' <==> k in kept || k == Kept(calls[0].nonce, calls[0].exp.ms);
    }
  }

  /** In every run from the empty store, with a clock that never goes back: a call is accepted exactly if its
    expiry is a date still to come and every call accepted before under the same nonce has expired. */
  lemma AcceptedIff(calls: seq<Check>, last: int, j: nat)
    requires ClockForward(calls, last) && j < |calls|
    ensures |AnswersPruned(map[], calls)| == |calls|
    ensures AnswersPruned(map[], calls)[j] <==> Unexpired(calls[j]) && NoneRunning(AnswersPruned(map[], calls), calls, j)
  {
    PruningInvisible(map[], [], last, calls);
    KeptAnswer([], calls, j);
  }

  lemma {:induction false} RejectedWhileKept(kept: seq<Kept>, calls: seq<Check>, j: nat, k: Kept)
    requires k in kept && j < |calls| && calls[j].nonce == k.nonce && calls[j].exp == At(k.exp)
    ensures |AnswersKept(kept, calls)| == |calls| && !AnswersKept(kept, calls)[j]
    decreases |calls|
  {
    if j == 0 {
      AnswersLength(Remember(kept, calls[0]), calls[1..]);
    } else {
      assert calls[1..][j - 1] == calls[j];
      RejectedWhileKept(Remember(kept, calls[0]), calls[1..], j - 1, k);
    }
  }

  lemma {:induction false} AnswersLength(kept: seq<Kept>, calls: seq<Check>)
    ensures |AnswersKept(kept, calls)| == |calls|
    decreases |calls|
  {
    if calls != [] { AnswersLength(Remember(kept, calls[0]), calls[1..]); }
  }

  lemma {:induction false} KeptOnce(kept: seq<Kept>, calls: seq<Check>, i: nat, j: nat)
    requires i < j < |calls| && calls[i].nonce == calls[j].nonce && calls[i].exp == calls[j].exp
    ensures |AnswersKept(kept, calls)| == |calls| && !(AnswersKept(kept, calls)[i] && AnswersKept(kept, calls)[j])
    decreases |calls|
  {
    AnswersLength(kept, calls);
    if i > 0 {
      assert calls[1..][i - 1] == calls[i] && calls[1..][j - 1] == calls[j];
      KeptOnce(Remember(kept, calls[0]), calls[1..], i - 1, j - 1);
    } else if Fresh(kept, calls[0]) {
      assert calls[1..][j - 1] == calls[j];
      var k := Kept(calls[0].nonce, calls[0].exp.ms);
      assert Remember(kept, calls[0])[|kept|] == k;
      RejectedWhileKept(Remember(kept, calls[0]), calls[1..], j - 1, k);
    }
  }

  /** In any run from the empty store, the same signed (nonce, expiry) pair is accepted at most once. */
  lemma AcceptedAtMostOnce(calls: seq<Check>, last: int, i: nat, j: nat)
    requires ClockForward(calls, last) && i < j < |calls|
    requires calls[i].nonce == calls[j].nonce && calls[i].exp == calls[j].exp
    ensures |AnswersPruned(map[], calls)| == |calls| && !(AnswersPruned(map[], calls)[i] && AnswersPruned(map[], calls)[j])
  {
    PruningInvisible(map[], [], last, calls);
    KeptOnce([], calls, i, j);
  }
}
