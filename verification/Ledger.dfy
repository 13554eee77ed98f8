/** The append-only, hash-chained ledger: what verifyChain accepts, what it pins down, and what two
  overlapping appends do. */
module Ledger {
  import opened Outcomes
  import opened Merkle
  import opened HashChain

  datatype Content = Content(number: int, ts: string, kind: string, subject: Option<string>, payload: string)

  datatype Entry = Entry(
    number: int, prevHash: Hash, hash: Hash, ts: string, kind: string, subject: Option<string>, payload: string)
  {
    /** Exactly what the entry's hash covers. */
    function HashedContent(): Content {
      Content(number, ts, kind, subject, payload)
    }

    function AsLink(): Link<Content> {
      Link(number, prevHash, hash, HashedContent())
    }
  }

  /** One append call, with the time the clock gave it. */
  datatype Input = Input(ts: string, kind: string, subject: Option<string>, payload: string)

  function Links(es: seq<Entry>): (links: seq<Link<Content>>)
    ensures |links| == |es| && forall i | 0 <= i < |es| :: links[i] == es[i].AsLink()
  {
    seq(|es|, i requires 0 <= i < |es| => es[i].AsLink())
  }

  /** The entry an append builds on the head it read: the last of `es`. */
  function NextEntry(h: ChainHash<Content>, es: seq<Entry>, x: Input): Entry {
    var number := if es == [] then 1 else es[|es| - 1].number + 1;
    var prevHash := if es == [] then GENESIS_PREV_HASH else es[|es| - 1].hash;
    Entry(number, prevHash, h(prevHash, Content(number, x.ts, x.kind, x.subject, x.payload)), x.ts, x.kind, x.subject, x.payload)
  }

  ghost function Appended(h: ChainHash<Content>, inputs: seq<Input>): seq<Entry> {
    if inputs == [] then []
    else
      var es := Appended(h, inputs[..|inputs| - 1]);
      es + [NextEntry(h, es, inputs[|inputs| - 1])]
  }

  ghost predicate Verified(h: ChainHash<Content>, es: seq<Entry>) {
    Chained(h, GENESIS_PREV_HASH, Links(es))
  }

  class LedgerService {
    const h: ChainHash<Content>
    var entries: seq<Entry>

    constructor (h: ChainHash<Content>)
      ensures this.h == h && entries == []
    {
      this.h, entries := h, [];
    }

    method Append(x: Input) returns (entry: Entry)
      modifies this
      ensures entry == NextEntry(h, old(entries), x)
      ensures entries == old(entries) + [entry]
    {
      var number, prevHash := 1, GENESIS_PREV_HASH;
      if |entries| > 0 {
        number, prevHash := entries[|entries| - 1].number + 1, entries[|entries| - 1].hash;
      }
      var hash := h(prevHash, Content(number, x.ts, x.kind, x.subject, x.payload));
      entry := Entry(number, prevHash, hash, x.ts, x.kind, x.subject, x.payload);
      entries := entries + [entry];
    }

    /** Accepts exactly the lists that appends from the empty ledger produce. */
    method VerifyChain() returns (ok: bool)
      ensures ok <==> exists inputs :: entries == Appended(h, inputs)
    {
      ProducedIffVerified(h, entries);
      var prevHash, prevNumber := GENESIS_PREV_HASH, 0;
      var i := 0;
      while i < |entries|
        invariant 0 <= i <= |entries| && prevNumber == i && prevHash == HeadHash(GENESIS_PREV_HASH, Links(entries)[..i])
        invariant forall j | 0 <= j < i :: Follows(h, GENESIS_PREV_HASH, Links(entries)[..j], Links(entries)[j])
      {
        var e := entries[i];
        assert Follows(h, GENESIS_PREV_HASH, Links(entries)[..i], Links(entries)[i])
           <==> e.number == prevNumber + 1 && e.prevHash == prevHash && e.hash == h(prevHash, e.HashedContent());
        if e.number != prevNumber + 1 { return false; }
        if e.prevHash != prevHash { return false; }
        var expected := h(prevHash, e.HashedContent());
        if e.hash != expected { return false; }
        prevHash, prevNumber := e.hash, e.number;
        i := i + 1;
      }
      ok := true;
    }
  }

  lemma AppendVerifiedIff(h: ChainHash<Content>, es: seq<Entry>, e: Entry)
    requires Verified(h, es)
    ensures Verified(h, es + [e]) <==> Follows(h, GENESIS_PREV_HASH, Links(es), e.AsLink())
  {
    assert Links(es + [e]) == Links(es) + [e.AsLink()];
    ExtendsIff(h, GENESIS_PREV_HASH, Links(es), e.AsLink());
  }

  lemma {:induction false} AppendedVerified(h: ChainHash<Content>, inputs: seq<Input>)
    ensures Verified(h, Appended(h, inputs)) && |Appended(h, inputs)| == |inputs|
    decreases |inputs|
  {
    if inputs != [] {
      var es := Appended(h, inputs[..|inputs| - 1]);
      AppendedVerified(h, inputs[..|inputs| - 1]);
      NextFollows(h, es, inputs[|inputs| - 1]);
      AppendVerifiedIff(h, es, NextEntry(h, es, inputs[|inputs| - 1]));
    }
  }

  lemma LastNumber(h: ChainHash<Content>, es: seq<Entry>)
    requires Verified(h, es) && es != []
    ensures es[|es| - 1].number == |es|
  {
    var n := |es| - 1;
    assert Follows(h, GENESIS_PREV_HASH, Links(es)[..n], Links(es)[n]);
  }

  lemma NextFollows(h: ChainHash<Content>, es: seq<Entry>, x: Input)
    requires Verified(h, es)
    ensures Follows(h, GENESIS_PREV_HASH, Links(es), NextEntry(h, es, x).AsLink())
  {
    if es != [] { LastNumber(h, es); }
  }

  lemma {:induction false} VerifiedProduced(h: ChainHash<Content>, es: seq<Entry>) returns (inputs: seq<Input>)
    requires Verified(h, es)
    ensures es == Appended(h, inputs)
    decreases |es|
  {
    if es == [] {
      inputs := [];
    } else {
      var n := |es| - 1;
      var e := es[n];
      assert Links(es[..n]) == Links(es)[..n];
      ChainedPrefix(h, GENESIS_PREV_HASH, Links(es), n);
      var before := VerifiedProduced(h, es[..n]);
      var x := Input(e.ts, e.kind, e.subject, e.payload);
      inputs := before + [x];
      assert inputs[..|inputs| - 1] == before;
      NextFollows(h, es[..n], x);
      assert Follows(h, GENESIS_PREV_HASH, Links(es)[..n], Links(es)[n]);
      assert e == NextEntry(h, es[..n], x);
      assert es == es[..n] + [e];
    }
  }

  lemma ProducedIffVerified(h: ChainHash<Content>, es: seq<Entry>)
    ensures Verified(h, es) <==> exists inputs :: es == Appended(h, inputs)
  {
    if Verified(h, es) {
      var inputs := VerifiedProduced(h, es);
    }
    forall inputs | es == Appended(h, inputs) ensures Verified(h, es) {
      AppendedVerified(h, inputs);
    }
  }

  // ---- tampering --------------------------------------------------------------------------

  lemma LinksDetermine(a: seq<Entry>, b: seq<Entry>)
    requires Links(a) == Links(b)
    ensures a == b
  {
    assert |a| == |Links(a)| == |b|;
    forall i | 0 <= i < |a| ensures a[i] == b[i] {
      assert Links(a)[i] == a[i].AsLink() && Links(b)[i] == b[i].AsLink();
    }
  }

  /** Two accepted ledgers whose last hashes agree are equal in every field of every entry. The entry
    number is under the hash, so their lengths need not be compared first. */
  lemma SameLastHashSameLedger(h: ChainHash<Content>, a: seq<Entry>, b: seq<Entry>)
    requires InjectiveChain(h) && Verified(h, a) && Verified(h, b) && a != [] && b != []
    requires a[|a| - 1].hash == b[|b| - 1].hash
    ensures a == b
  {
    LastNumber(h, a);
    LastNumber(h, b);
    var m, n := |a| - 1, |b| - 1;
    assert Follows(h, GENESIS_PREV_HASH, Links(a)[..m], Links(a)[m]) && Follows(h, GENESIS_PREV_HASH, Links(b)[..n], Links(b)[n]);
    LastHashBinds(h, GENESIS_PREV_HASH, Links(a), Links(b));
    LinksDetermine(a, b);
  }

  function Hashes(es: seq<Entry>): (hs: seq<Hash>)
    ensures |hs| == |es| && forall i | 0 <= i < |es| :: hs[i] == es[i].hash
  {
    seq(|es|, i requires 0 <= i < |es| => es[i].hash)
  }

  /** So are two accepted ledgers of equal length with the same Merkle root. */
  lemma SameRootSameLedger(h: ChainHash<Content>, pair: PairHash, empty: Hash, a: seq<Entry>, b: seq<Entry>)
    requires InjectiveChain(h) && Injective(pair) && Verified(h, a) && Verified(h, b) && |a| == |b|
    requires Root(pair, empty, Hashes(a)) == Root(pair, empty, Hashes(b))
    ensures a == b
  {
    RootBinding(pair, empty, Hashes(a), Hashes(b));
    if a != [] {
      assert Hashes(a)[|a| - 1] == Hashes(b)[|b| - 1];
      SameLastHashSameLedger(h, a, b);
    }
  }

  // ---- overlapping appends ----------------------------------------------------------------

  /** Where an append call stands between its awaits. The head is read when the call starts, and
    again, into `again`, before the await that the final check and push come after. `seen` and `again`
    are the ledger lengths at those reads. */
  datatype Writer = Reading(x: Input, seen: nat) | Checking(x: Input, seen: nat, again: nat)

  datatype Shared = Shared(entries: seq<Entry>, writers: map<nat, Writer>)

  datatype Step = Begin(w: nat, x: Input) | Recheck(w: nat) | Push(w: nat)

  function HeadNumber(es: seq<Entry>, n: nat): int
    requires n <= |es|
  {
    if n == 0 then 0 else es[n - 1].number
  }

  predicate WriterOk(es: seq<Entry>, w: Writer) {
    w.seen <= |es| && (w.Checking? ==> w.seen <= w.again <= |es|)
  }

  ghost predicate SharedOk(s: Shared) {
    forall w | w in s.writers :: WriterOk(s.entries, s.writers[w])
  }

  predicate CanStep(s: Shared, step: Step) {
    match step
    case Begin(w, _) => w !in s.writers
    case Recheck(w) => w in s.writers && s.writers[w].Reading?
    case Push(w) => w in s.writers && s.writers[w].Checking?
  }

  /** The final check compares the two heads that were read, not the head of this moment. */
  predicate Passes(s: Shared, w: nat)
    requires w in s.writers && WriterOk(s.entries, s.writers[w]) && s.writers[w].Checking?
  {
    HeadNumber(s.entries, s.writers[w].again) == HeadNumber(s.entries, s.writers[w].seen)
  }

  ghost function Take(h: ChainHash<Content>, s: Shared, step: Step): (s': Shared)
    requires SharedOk(s) && CanStep(s, step)
  {
    match step
    case Begin(w, x) => s.(writers := s.writers[w := Reading(x, |s.entries|)])
    case Recheck(w) => s.(writers := s.writers[w := Checking(s.writers[w].x, s.writers[w].seen, |s.entries|)])
    case Push(w) =>
      var es := if Passes(s, w) then s.entries + [NextEntry(h, s.entries[..s.writers[w].seen], s.writers[w].x)] else s.entries;
      Shared(es, s.writers - {w})
  }

  lemma StepKeepsShared(h: ChainHash<Content>, s: Shared, step: Step)
    requires SharedOk(s) && CanStep(s, step)
    ensures SharedOk(Take(h, s, step)) && s.entries <= Take(h, s, step).entries
  {
  }

  lemma {:induction false} PrefixVerified(h: ChainHash<Content>, es: seq<Entry>, n: nat)
    requires Verified(h, es) && n <= |es|
    ensures Verified(h, es[..n]) && HeadNumber(es, n) == n
  {
    assert Links(es[..n]) == Links(es)[..n];
    ChainedPrefix(h, GENESIS_PREV_HASH, Links(es), n);
    if n > 0 { LastNumber(h, es[..n]); }
  }

  /** The push of an append whose check passes although another append has pushed since it read the head. */
  predicate Raced(s: Shared, step: Step) {
    && step.Push? && step.w in s.writers && s.writers[step.w].Checking?
    && s.writers[step.w].again == s.writers[step.w].seen && |s.entries| != s.writers[step.w].again
  }

  /** The final check covers only part of the race: from an accepted ledger a step leaves an accepted
    ledger exactly when it is not the push of a checked append after another append pushed. */
  lemma StepKeepsChainIff(h: ChainHash<Content>, s: Shared, step: Step)
    requires SharedOk(s) && CanStep(s, step) && Verified(h, s.entries)
    ensures Verified(h, Take(h, s, step).entries) <==> !Raced(s, step)
  {
    if step.Push? {
      var w := s.writers[step.w];
      var es := s.entries;
      PrefixVerified(h, es, w.seen);
      PrefixVerified(h, es, w.again);
      var e := NextEntry(h, es[..w.seen], w.x);
      NextFollows(h, es[..w.seen], w.x);
      AppendVerifiedIff(h, es, e);
      if w.seen == |es| { assert es[..w.seen] == es; }
    }
  }

  ghost predicate IsRun(h: ChainHash<Content>, trace: seq<Shared>, steps: seq<Step>) {
    && |trace| == |steps| + 1 && trace[0] == Shared([], map[])
    && forall n | 0 <= n < |steps| ::
         CanStep(trace[n], steps[n]) && (SharedOk(trace[n]) ==> trace[n + 1] == Take(h, trace[n], steps[n]))
  }

  /** Two appends that start together on an empty ledger both pass their checks and fork the chain. */
  lemma OverlappingAppendsFork(h: ChainHash<Content>, x: Input, y: Input) returns (trace: seq<Shared>)
    ensures IsRun(h, trace, [Begin(0, x), Begin(1, y), Recheck(0), Recheck(1), Push(0), Push(1)])
    ensures |trace[6].entries| == 2 && trace[6].entries[0].number == 1 == trace[6].entries[1].number
    ensures !Verified(h, trace[6].entries)
  {
    var s1 := Take(h, Shared([], map[]), Begin(0, x));
    var s2 := Take(h, s1, Begin(1, y));
    var s3 := Take(h, s2, Recheck(0));
    var s4 := Take(h, s3, Recheck(1));
    assert Verified(h, s4.entries);
    StepKeepsChainIff(h, s4, Push(0));
    var s5 := Take(h, s4, Push(0));
    StepKeepsChainIff(h, s5, Push(1));
    trace := [Shared([], map[]), s1, s2, s3, s4, s5, Take(h, s5, Push(1))];
  }

  lemma {:induction false} RunKeepsShared(h: ChainHash<Content>, trace: seq<Shared>, steps: seq<Step>, n: nat)
    requires IsRun(h, trace, steps) && n <= |steps|
    ensures SharedOk(trace[n])
    decreases n
  {
    if n > 0 {
      RunKeepsShared(h, trace, steps, n - 1);
      StepKeepsShared(h, trace[n - 1], steps[n - 1]);
    }
  }

  /** In every run of overlapping appends the ledger is accepted if and only if no checked push came
    after another push: one that did is never healed by what follows. */
  lemma {:induction false} VerifiedIffUnraced(h: ChainHash<Content>, trace: seq<Shared>, steps: seq<Step>, n: nat)
    requires IsRun(h, trace, steps) && n <= |steps|
    ensures Verified(h, trace[n].entries) <==> forall m | 0 <= m < n :: !Raced(trace[m], steps[m])
    decreases n
  {
    if n > 0 {
      var s, s' := trace[n - 1], trace[n];
      VerifiedIffUnraced(h, trace, steps, n - 1);
      RunKeepsShared(h, trace, steps, n - 1);
      StepKeepsShared(h, s, steps[n - 1]);
      if Verified(h, s.entries) {
        StepKeepsChainIff(h, s, steps[n - 1]);
      } else {
        assert s'.entries[..|s.entries|] == s.entries;
        if Verified(h, s'.entries) { PrefixVerified(h, s'.entries, |s.entries|); }
      }
    }
  }
}
