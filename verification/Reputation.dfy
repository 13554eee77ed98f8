/** Measured reputation: the fold of settled receipts into an accumulator, the metrics projected from
  it, and the trust computed from those. Times are milliseconds, numbers exact. */
module Reputation {
  import opened Outcomes
  import opened Products
  import opened Sorting
  import opened Sums

  datatype Result = Delivered | Partial | Refunded | Disputed

  /** `latency` is nothing when it is not a finite number. */
  datatype Receipt = Receipt(
    id: string, payer: string, payee: string, latency: Option<real>, result: Result, amount: real, currency: string, settledAt: int)

  datatype Accumulator = Accumulator(
    jobs: nat, credit: real, disputes: nat, refunds: nat, samples: seq<real>, value: real, currency: Option<string>,
    firstSeen: Option<int>, lastSettled: Option<int>, counterparties: set<string>, stake: real, spamFlags: real, postFlags: real,
    ingested: set<string>)

  const EMPTY := Accumulator(0, 0.0, 0, 0, [], 0.0, None, None, None, {}, 0.0, 0.0, 0.0, {})

  function CreditOf(r: Result): real {
    match r
    case Delivered => 1.0
    case Partial => 0.5
    case _ => 0.0
  }

  function ValueOf(r: Receipt): real {
    if r.result == Refunded then 0.0 else r.amount
  }

  predicate Sampled(r: Receipt) {
    r.latency.Some? && r.latency.value >= 0.0
  }

  function Earliest(a: Option<int>, b: int): int {
    if a.None? then b else if b < a.value then b else a.value
  }

  function Latest(a: Option<int>, b: int): int {
    if a.None? then b else if b > a.value then b else a.value
  }

  /** Everything about a receipt except its value and its times. */
  function Counted(acc: Accumulator, r: Receipt): Accumulator {
    acc.(ingested := acc.ingested + {r.id}, jobs := acc.jobs + 1, counterparties := acc.counterparties + {r.payer},
         samples := if Sampled(r) then acc.samples + [r.latency.value] else acc.samples,
         credit := acc.credit + CreditOf(r.result),
         refunds := acc.refunds + if r.result == Refunded then 1 else 0,
         disputes := acc.disputes + if r.result == Disputed then 1 else 0)
  }

  /** The currency guard: amounts in a second currency are refused. */
  function WithValue(acc: Accumulator, amount: real, currency: string): Outcome<Accumulator> {
    if acc.currency.Some? && acc.currency.value != currency then Thrown(acc, Invalid)
    else Done(acc.(currency := Some(currency), value := acc.value + amount))
  }

  /** A receipt in a second currency throws after it has been counted. */
  function Ingest(acc: Accumulator, r: Receipt): Outcome<Accumulator> {
    if r.payee == "" || r.payer == "" then Thrown(acc, Invalid)
    else if r.id in acc.ingested then Done(acc)
    else
      var acc := Counted(acc, r);
      var acc :- if r.result == Refunded then Done(acc) else WithValue(acc, r.amount, r.currency);
      Done(acc.(firstSeen := Some(Earliest(acc.firstSeen, r.settledAt)), lastSettled := Some(Latest(acc.lastSettled, r.settledAt))))
  }

  class LiveAccumulator {
    var jobs: nat
    var credit: real
    var disputes: nat
    var refunds: nat
    var samples: seq<real>
    var value: real
    var currency: Option<string>
    var firstSeen: Option<int>
    var lastSettled: Option<int>
    var counterparties: set<string>
    var stake: real
    var spamFlags: real
    var postFlags: real
    var ingested: set<string>

    ghost function Contents(): Accumulator
      reads this
    {
      Accumulator(jobs, credit, disputes, refunds, samples, value, currency, firstSeen, lastSettled, counterparties, stake,
                  spamFlags, postFlags, ingested)
    }

    constructor ()
      ensures Contents() == EMPTY
    {
      jobs, credit, disputes, refunds, samples, value, currency := 0, 0.0, 0, 0, [], 0.0, None;
      firstSeen, lastSettled, counterparties, stake, spamFlags, postFlags, ingested := None, None, {}, 0.0, 0.0, 0.0, {};
    }

    method IngestReceipt(r: Receipt) returns (error: Option<Error>)
      modifies this
      ensures Contents() == Ingest(old(Contents()), r).state
      ensures error == ErrorOf(Ingest(old(Contents()), r))
    {
      if r.payee == "" || r.payer == "" { return Some(Invalid); }
      if r.id in ingested { return None; }
      hide Counted, WithValue, Earliest, Latest;
      Count(r);
      if r.result != Refunded {
        error := AddValue(r.amount, r.currency);
        if error.Some? { return; }
      }
      firstSeen := Some(Earliest(firstSeen, r.settledAt));
      lastSettled := Some(Latest(lastSettled, r.settledAt));
      error := None;
    }

    method AddValue(amount: real, cur: string) returns (error: Option<Error>)
      modifies this
      ensures Contents() == WithValue(old(Contents()), amount, cur).state
      ensures error == ErrorOf(WithValue(old(Contents()), amount, cur))
    {
      if currency.None? {
        currency := Some(cur);
      } else if currency.value != cur {
        return Some(Invalid);
      }
      value := value + amount;
      error := None;
    }

    /** The part of the fold that cannot fail. */
    method Count(r: Receipt)
      modifies this
      ensures Contents() == Counted(old(Contents()), r)
    {
      ingested := ingested + {r.id};
      jobs := jobs + 1;
      counterparties := counterparties + {r.payer};
      if r.latency.Some? && r.latency.value >= 0.0 { samples := samples + [r.latency.value]; }
      match r.result {
        case Delivered => credit := credit + 1.0;
        case Partial => credit := credit + 0.5;
        case Refunded => refunds := refunds + 1;
        case Disputed => disputes := disputes + 1;
      }
    }
  }

  function Fold(acc: Accumulator, rs: seq<Receipt>): Accumulator
    decreases |rs|
  {
    if rs == [] then acc else Ingest(Fold(acc, rs[..|rs| - 1]), rs[|rs| - 1]).state
  }

  // ---- what the fold means, in terms of the set of receipts -------------------------------

  ghost predicate IsFirst(t: Option<int>, rs: set<Receipt>) {
    if rs == {} then t == None
    else t.Some? && (exists r | r in rs :: r.settledAt == t.value) && forall r | r in rs :: t.value <= r.settledAt
  }

  ghost predicate IsLast(t: Option<int>, rs: set<Receipt>) {
    if rs == {} then t == None
    else t.Some? && (exists r | r in rs :: r.settledAt == t.value) && forall r | r in rs :: r.settledAt <= t.value
  }

  function Credit(r: Receipt): real {
    CreditOf(r.result)
  }

  function WithResult(rs: set<Receipt>, result: Result): set<Receipt> {
    set r | r in rs && r.result == result
  }

  function WithLatency(rs: set<Receipt>, x: real): set<Receipt> {
    set r | r in rs && r.latency == Some(x) && x >= 0.0
  }

  function Ids(rs: set<Receipt>): set<string> {
    set r | r in rs :: r.id
  }

  function Payers(rs: set<Receipt>): set<string> {
    set r | r in rs :: r.payer
  }

  ghost predicate SamplesOf(samples: seq<real>, rs: set<Receipt>) {
    forall x :: multiset(samples)[x] == |WithLatency(rs, x)|
  }

  /** `acc` counts each receipt of `rs` once, and nothing else. */
  ghost predicate Digests(acc: Accumulator, rs: set<Receipt>) {
    && acc.ingested == Ids(rs)
    && acc.jobs == |rs|
    && acc.credit == Sum(rs, Credit)
    && acc.disputes == |WithResult(rs, Disputed)| && acc.refunds == |WithResult(rs, Refunded)|
    && SamplesOf(acc.samples, rs)
    && acc.value == Sum(rs, ValueOf)
    && acc.counterparties == Payers(rs)
    && IsFirst(acc.firstSeen, rs) && IsLast(acc.lastSettled, rs)
  }

  function Elements(rs: seq<Receipt>): set<Receipt> {
    set r | r in rs
  }

  /** Receipts as the facilitator and escrow issue them: for one payee, a receipt id naming one receipt. */
  ghost predicate Attributed(rs: set<Receipt>, payee: string) {
    && payee != ""
    && (forall r | r in rs :: r.payee == payee && r.payer != "")
    && (forall q, r | q in rs && r in rs && q.id == r.id :: q == r)
  }

  /** The receipts that move value move it in one currency; a refund may name any. */
  ghost predicate Coherent(rs: set<Receipt>, payee: string, currency: string) {
    Attributed(rs, payee) && forall r | r in rs && r.result != Refunded :: r.currency == currency
  }

  lemma CountsStep(rs: set<Receipt>, r: Receipt)
    requires r !in rs
    ensures forall result :: |WithResult(rs + {r}, result)| == |WithResult(rs, result)| + if r.result == result then 1 else 0
    ensures Ids(rs + {r}) == Ids(rs) + {r.id} && Payers(rs + {r}) == Payers(rs) + {r.payer}
  {
    forall result ensures |WithResult(rs + {r}, result)| == |WithResult(rs, result)| + if r.result == result then 1 else 0 {
      assert WithResult(rs + {r}, result) == WithResult(rs, result) + if r.result == result then {r} else {};
    }
  }

  lemma SamplesStep(samples: seq<real>, rs: set<Receipt>, r: Receipt)
    requires r !in rs && SamplesOf(samples, rs)
    ensures SamplesOf(if Sampled(r) then samples + [r.latency.value] else samples, rs + {r})
  {
    forall x ensures |WithLatency(rs + {r}, x)| == |WithLatency(rs, x)| + if Sampled(r) && r.latency.value == x then 1 else 0 {
      assert WithLatency(rs + {r}, x) == WithLatency(rs, x) + if Sampled(r) && r.latency.value == x then {r} else {};
    }
  }

  lemma IngestDigests(acc: Accumulator, rs: set<Receipt>, r: Receipt, payee: string, currency: string)
    requires Digests(acc, rs) && r !in rs && Coherent(rs + {r}, payee, currency)
    requires acc.currency == None || acc.currency == Some(currency)
    ensures var o := Ingest(acc, r);
            o.Done? && Digests(o.state, rs + {r}) && (o.state.currency == None || o.state.currency == Some(currency))
  {
    NewId(rs, r, payee, currency);
    assert r.payee == payee && r.payer != "" && (r.result == Refunded || r.currency == currency) by {
      assert r in rs + {r};
    }
    assert acc.ingested == Ids(rs);
    hide *;
    IngestIs(acc, r, currency);
    DigestStep(acc, Ingest(acc, r).state, rs, r);
  }

  /** What ingesting a new receipt of the right currency does to the accumulator. */
  ghost predicate Ingested(acc: Accumulator, acc': Accumulator, r: Receipt) {
    && acc'.ingested == acc.ingested + {r.id} && acc'.jobs == acc.jobs + 1
    && acc'.counterparties == acc.counterparties + {r.payer}
    && acc'.samples == (if Sampled(r) then acc.samples + [r.latency.value] else acc.samples)
    && acc'.credit == acc.credit + Credit(r) && acc'.value == acc.value + ValueOf(r)
    && acc'.disputes == acc.disputes + (if r.result == Disputed then 1 else 0)
    && acc'.refunds == acc.refunds + (if r.result == Refunded then 1 else 0)
    && acc'.firstSeen == Some(Earliest(acc.firstSeen, r.settledAt)) && acc'.lastSettled == Some(Latest(acc.lastSettled, r.settledAt))
  }

  lemma DigestStep(acc: Accumulator, acc': Accumulator, rs: set<Receipt>, r: Receipt)
    requires Digests(acc, rs) && r !in rs && Ingested(acc, acc', r)
    ensures Digests(acc', rs + {r})
  {
    SumAdd(rs, Credit, r);
    SumAdd(rs, ValueOf, r);
    CountsStep(rs, r);
    SamplesStep(acc.samples, rs, r);
    TimesStep(acc.firstSeen, acc.lastSettled, rs, r);
    hide Sum, WithResult, SamplesOf, IsFirst, IsLast, Ids, Payers, Earliest, Latest, Sampled, Credit, ValueOf;
  }

  lemma NewId(rs: set<Receipt>, r: Receipt, payee: string, currency: string)
    requires r !in rs && Coherent(rs + {r}, payee, currency)
    ensures r.id !in Ids(rs)
  {
  }

  lemma IngestIs(acc: Accumulator, r: Receipt, currency: string)
    requires r.payee != "" && r.payer != "" && r.id !in acc.ingested
    requires (r.result == Refunded || r.currency == currency) && (acc.currency == None || acc.currency == Some(currency))
    ensures var o := Ingest(acc, r);
            && o.Done? && Ingested(acc, o.state, r)
            && (o.state.currency == None || o.state.currency == Some(currency))
            && o.state.stake == acc.stake && o.state.spamFlags == acc.spamFlags && o.state.postFlags == acc.postFlags
  {
  }

  /** A receipt that names nobody is refused before it is counted, and a repeated one changes nothing. */
  lemma IngestRefuses(acc: Accumulator, r: Receipt)
    ensures r.payee == "" || r.payer == "" ==> Ingest(acc, r) == Thrown(acc, Invalid)
    ensures r.payee != "" && r.payer != "" && r.id in acc.ingested ==> Ingest(acc, r) == Done(acc)
  {
  }

  lemma TimesStep(first: Option<int>, last: Option<int>, rs: set<Receipt>, r: Receipt)
    requires IsFirst(first, rs) && IsLast(last, rs)
    ensures IsFirst(Some(Earliest(first, r.settledAt)), rs + {r}) && IsLast(Some(Latest(last, r.settledAt)), rs + {r})
  {
    if rs != {} {
      var f :| f in rs && f.settledAt == first.value;
      var l :| l in rs && l.settledAt == last.value;
      assert f in rs + {r} && l in rs + {r} && r in rs + {r};
    } else {
      assert r in rs + {r};
    }
  }

  /** Repeats change nothing and the order does not matter: the fold of a coherent list is a digest of
    the set of its receipts. */
  lemma {:induction false} FoldDigests(rs: seq<Receipt>, payee: string, currency: string)
    requires Coherent(Elements(rs), payee, currency)
    ensures Digests(Fold(EMPTY, rs), Elements(rs))
    ensures Fold(EMPTY, rs).currency == None || Fold(EMPTY, rs).currency == Some(currency)
    ensures Fold(EMPTY, rs).stake == 0.0 == Fold(EMPTY, rs).spamFlags == Fold(EMPTY, rs).postFlags
    decreases |rs|
  {
    if rs == [] {
      EmptyDigest();
    } else {
      var n := |rs| - 1;
      var before, seen := Fold(EMPTY, rs[..n]), Elements(rs[..n]);
      ElementsSplit(rs, n);
      CoherentPart(seen, Elements(rs), payee, currency);
      FoldDigests(rs[..n], payee, currency);
      FoldStep(EMPTY, rs, n);
      hide *;
      StakeKept(before, rs[n]);
      if rs[n] in seen {
        assert seen + {rs[n]} == seen;
        RepeatIgnored(before, seen, rs[n], payee, currency);
      } else {
        IngestDigests(before, seen, rs[n], payee, currency);
      }
    }
  }

  lemma FoldStep(acc: Accumulator, rs: seq<Receipt>, n: nat)
    requires n + 1 == |rs|
    ensures Fold(acc, rs) == Ingest(Fold(acc, rs[..n]), rs[n]).state
  {
  }

  lemma EmptyDigest()
    ensures Digests(EMPTY, {}) && Elements([]) == {}
  {
    assert forall x :: WithLatency({}, x) == {};
    assert WithResult({}, Disputed) == {} == WithResult({}, Refunded);
  }

  lemma ElementsSplit(rs: seq<Receipt>, n: nat)
    requires n + 1 == |rs|
    ensures Elements(rs) == Elements(rs[..n]) + {rs[n]}
  {
    assert rs == rs[..n] + [rs[n]];
  }

  lemma CoherentPart(part: set<Receipt>, rs: set<Receipt>, payee: string, currency: string)
    requires part <= rs && Coherent(rs, payee, currency)
    ensures Coherent(part, payee, currency)
  {
  }

  lemma StakeKept(acc: Accumulator, r: Receipt)
    ensures var acc' := Ingest(acc, r).state; acc'.stake == acc.stake && acc'.spamFlags == acc.spamFlags && acc'.postFlags == acc.postFlags
  {
  }

  lemma RepeatIgnored(acc: Accumulator, rs: set<Receipt>, r: Receipt, payee: string, currency: string)
    requires Digests(acc, rs) && r in rs && Coherent(rs, payee, currency)
    ensures Ingest(acc, r) == Done(acc)
  {
    assert r.id in Ids(rs);
  }

  // ---- metrics ----------------------------------------------------------------------------

  function AtMost(x: real, y: real): bool {
    x <= y
  }

  lemma RealsOrdered()
    ensures TotalOrder(AtMost)
  {
  }

  /** The smallest whole number that is at least x. */
  function Ceil(x: real): int {
    -(-x).Floor
  }

  function NearestRank(sorted: seq<real>, q: real): real
    requires sorted != []
  {
    var rank := Ceil(q * |sorted| as real);
    var least := if rank > 1 then rank else 1;
    sorted[(if least < |sorted| then least else |sorted|) - 1]
  }

  datatype Latency = Latency(p50: real, p95: real)

  function Percentiles(samples: seq<real>): Latency {
    var sorted := Sort(samples, AtMost);
    if |sorted| == 0 then Latency(0.0, 0.0) else Latency(NearestRank(sorted, 0.5), NearestRank(sorted, 0.95))
  }

  datatype Metrics = Metrics(
    successRate: real, disputeRate: real, refundRate: real, latency: Latency, uptime: real, jobs: nat, settledValue: real,
    stake: real, firstSeen: Option<int>, lastSettled: Option<int>, diversity: real, spamFlags: real, postFlags: real)

  function Rate(part: real, jobs: nat): real {
    if jobs == 0 then 0.0 else Clamp01(part / jobs as real)
  }

  function MetricsOf(acc: Accumulator): Metrics {
    Metrics(Rate(acc.credit, acc.jobs), Rate(acc.disputes as real, acc.jobs), Rate(acc.refunds as real, acc.jobs),
            Percentiles(acc.samples), 1.0, acc.jobs, acc.value, acc.stake, acc.firstSeen, acc.lastSettled,
            Rate(|acc.counterparties| as real, acc.jobs), acc.spamFlags, acc.postFlags)
  }

  lemma SameSamples(a: seq<real>, b: seq<real>, rs: set<Receipt>)
    requires SamplesOf(a, rs) && SamplesOf(b, rs)
    ensures Percentiles(a) == Percentiles(b)
  {
    assert forall x :: multiset(a)[x] == multiset(b)[x];
    assert multiset(a) == multiset(b);
    RealsOrdered();
    SortDependsOnElements(a, b, AtMost);
  }

  lemma SameTimes(a: Accumulator, b: Accumulator, rs: set<Receipt>)
    requires IsFirst(a.firstSeen, rs) && IsLast(a.lastSettled, rs) && IsFirst(b.firstSeen, rs) && IsLast(b.lastSettled, rs)
    ensures a.firstSeen == b.firstSeen && a.lastSettled == b.lastSettled
  {
  }

  /** Two lists of receipts of one payee with the same receipts in them, in whatever order and however
    often repeated, give the same metrics. */
  lemma MetricsDependOnSet(rs: seq<Receipt>, qs: seq<Receipt>, payee: string, currency: string)
    requires Coherent(Elements(rs), payee, currency) && Elements(rs) == Elements(qs)
    ensures MetricsOf(Fold(EMPTY, rs)) == MetricsOf(Fold(EMPTY, qs))
  {
    var a, b := Fold(EMPTY, rs), Fold(EMPTY, qs);
    FoldDigests(rs, payee, currency);
    FoldDigests(qs, payee, currency);
    SameSamples(a.samples, b.samples, Elements(rs));
    SameTimes(a, b, Elements(rs));
    hide Percentiles, IsFirst, IsLast, SamplesOf, Fold, Elements;
  }

  // ---- which lists are ingested -----------------------------------------------------------

  ghost predicate NeverThrows(rs: seq<Receipt>) {
    forall n | 0 <= n < |rs| :: Ingest(Fold(EMPTY, rs[..n]), rs[n]).Done?
  }

  ghost predicate OneCurrency(rs: set<Receipt>) {
    forall q, r | q in rs && r in rs && q.result != Refunded && r.result != Refunded :: q.currency == r.currency
  }

  lemma {:induction false} CoherentIngested(rs: seq<Receipt>, payee: string, currency: string)
    requires Coherent(Elements(rs), payee, currency)
    ensures NeverThrows(rs)
  {
    forall n | 0 <= n < |rs| ensures Ingest(Fold(EMPTY, rs[..n]), rs[n]).Done? {
      var before, seen := Fold(EMPTY, rs[..n]), Elements(rs[..n]);
      assert rs[..n + 1][..n] == rs[..n];
      ElementsSplit(rs[..n + 1], n);
      CoherentPart(seen + {rs[n]}, Elements(rs), payee, currency);
      CoherentPart(seen, Elements(rs), payee, currency);
      FoldDigests(rs[..n], payee, currency);
      hide *;
      if rs[n] in seen {
        RepeatIgnored(before, seen, rs[n], payee, currency);
      } else {
        IngestDigests(before, seen, rs[n], payee, currency);
      }
    }
  }

  /** Every id seen is remembered, and the currency held is that of every receipt that moved value. */
  ghost predicate Remembers(acc: Accumulator, rs: set<Receipt>) {
    acc.ingested == Ids(rs) && forall r | r in rs && r.result != Refunded :: acc.currency == Some(r.currency)
  }

  lemma IngestRemembers(acc: Accumulator, rs: set<Receipt>, r: Receipt, payee: string)
    requires Remembers(acc, rs) && Attributed(rs + {r}, payee) && Ingest(acc, r).Done?
    ensures Remembers(Ingest(acc, r).state, rs + {r})
  {
    assert r in rs + {r};
    assert Ids(rs + {r}) == Ids(rs) + {r.id};
    if r.id in acc.ingested {
      var q :| q in rs && q.id == r.id;
      assert q in rs + {r};
      assert rs + {r} == rs;
    }
  }

  lemma NeverThrowsBefore(rs: seq<Receipt>, n: nat)
    requires NeverThrows(rs) && n + 1 == |rs|
    ensures NeverThrows(rs[..n]) && Ingest(Fold(EMPTY, rs[..n]), rs[n]).Done?
  {
    hide Ingest, Fold;
    assert forall m | 0 <= m < n :: rs[..n][..m] == rs[..m] && rs[..n][m] == rs[m];
  }

  lemma AttributedPart(part: set<Receipt>, rs: set<Receipt>, payee: string)
    requires part <= rs && Attributed(rs, payee)
    ensures Attributed(part, payee)
  {
  }

  lemma NothingRemembered()
    ensures Remembers(EMPTY, {}) && Elements([]) == {}
  {
  }

  lemma {:induction false} FoldRemembers(rs: seq<Receipt>, payee: string)
    requires Attributed(Elements(rs), payee) && NeverThrows(rs)
    ensures Remembers(Fold(EMPTY, rs), Elements(rs))
    decreases |rs|
  {
    NothingRemembered();
    if rs != [] {
      hide *;
      var n := |rs| - 1;
      ElementsSplit(rs, n);
      NeverThrowsBefore(rs, n);
      AttributedPart(Elements(rs[..n]), Elements(rs), payee);
      FoldRemembers(rs[..n], payee);
      FoldStep(EMPTY, rs, n);
      IngestRemembers(Fold(EMPTY, rs[..n]), Elements(rs[..n]), rs[n], payee);
    }
  }

  /** In whatever order a payee's receipts come and however often they are repeated, all of them are
    ingested without a throw if and only if those that move value share one currency. */
  lemma IngestedIffOneCurrency(rs: seq<Receipt>, qs: seq<Receipt>, payee: string)
    requires Attributed(Elements(rs), payee) && Elements(qs) == Elements(rs)
    ensures NeverThrows(qs) <==> OneCurrency(Elements(rs))
  {
    if NeverThrows(qs) {
      FoldRemembers(qs, payee);
      hide Fold, Elements, NeverThrows;
    } else if OneCurrency(Elements(rs)) {
      if r :| r in Elements(rs) && r.result != Refunded {
        CoherentIngested(qs, payee, r.currency);
      } else {
        CoherentIngested(qs, payee, "");
      }
    }
  }

  /** One currency is needed: of two receipts that move value in different currencies the first decides
    the settled value, and the second throws although it has been counted as a job. */
  lemma FirstCurrencyWins(a: Receipt, b: Receipt)
    requires a.payer != "" && b.payer != "" && a.payee != "" && b.payee == a.payee && a.id != b.id && a.currency != b.currency
    requires a.result != Refunded && b.result != Refunded
    ensures MetricsOf(Fold(EMPTY, [a, b])).settledValue == a.amount && MetricsOf(Fold(EMPTY, [b, a])).settledValue == b.amount
    ensures Ingest(Fold(EMPTY, [a]), b).Thrown? && MetricsOf(Fold(EMPTY, [a, b])).jobs == 2
  {
    assert [a, b][..1] == [a] && [b, a][..1] == [b] && [a][..0] == [] && [b][..0] == [];
    FoldStep(EMPTY, [a], 0);
    FoldStep(EMPTY, [b], 0);
    FoldStep(EMPTY, [a, b], 1);
    FoldStep(EMPTY, [b, a], 1);
    assert Fold(EMPTY, []) == EMPTY;
    hide Fold;
    FirstIngested(a);
    FirstIngested(b);
    SecondIngested(Fold(EMPTY, [a]), b);
    SecondIngested(Fold(EMPTY, [b]), a);
    hide Ingest;
  }

  lemma FirstIngested(r: Receipt)
    requires r.payer != "" && r.payee != "" && r.result != Refunded
    ensures var acc := Ingest(EMPTY, r).state; acc.value == r.amount && acc.currency == Some(r.currency) && acc.jobs == 1 && acc.ingested == {r.id}
  {
  }

  lemma SecondIngested(acc: Accumulator, r: Receipt)
    requires r.payer != "" && r.payee != "" && r.result != Refunded && r.id !in acc.ingested
    requires acc.currency.Some? && acc.currency.value != r.currency
    ensures var o := Ingest(acc, r); o.Thrown? && o.state.value == acc.value && o.state.jobs == acc.jobs + 1
  {
  }

  // ---- what the metrics mean --------------------------------------------------------------

  function Amount(r: Receipt): real {
    r.amount
  }

  /** Receipts that move value. */
  function Moving(rs: set<Receipt>): set<Receipt> {
    set r | r in rs && r.result != Refunded
  }

  lemma CreditStep(rs: set<Receipt>, r: Receipt)
    requires r !in rs
    ensures |WithResult(rs + {r}, Delivered)| as real + |WithResult(rs + {r}, Partial)| as real / 2.0
         == |WithResult(rs, Delivered)| as real + |WithResult(rs, Partial)| as real / 2.0 + Credit(r)
  {
    CountsStep(rs, r);
    hide WithResult, Ids, Payers;
  }

  lemma MovingStep(rs: set<Receipt>, r: Receipt)
    requires r !in rs
    ensures Sum(Moving(rs + {r}), Amount) == Sum(Moving(rs), Amount) + ValueOf(r)
  {
    if r.result == Refunded {
      assert Moving(rs + {r}) == Moving(rs);
    } else {
      assert Moving(rs + {r}) == Moving(rs) + {r};
      SumAdd(Moving(rs), Amount, r);
    }
  }

  /** A delivered job gives one credit, a partial one half of one, any other none; a refunded one moves no
    value. */
  lemma {:induction false} CreditCounts(rs: set<Receipt>)
    ensures Sum(rs, Credit) == |WithResult(rs, Delivered)| as real + |WithResult(rs, Partial)| as real / 2.0
    ensures Sum(rs, ValueOf) == Sum(Moving(rs), Amount)
    decreases rs
  {
    if rs == {} {
      assert WithResult(rs, Delivered) == {} == WithResult(rs, Partial) && Moving(rs) == {};
    } else {
      hide *;
      var r :| r in rs;
      var rest := rs - {r};
      assert rest + {r} == rs;
      CreditCounts(rest);
      SumRemove(rs, Credit, r);
      SumRemove(rs, ValueOf, r);
      CreditStep(rest, r);
      MovingStep(rest, r);
    }
  }

  /** Of `n` jobs the share `x` is `part` of them. */
  predicate ShareOf(x: real, part: real, n: nat) {
    x * n as real == part
  }

  lemma RateIsShare(part: real, jobs: nat)
    requires 0.0 <= part <= jobs as real
    ensures ShareOf(Rate(part, jobs), part, jobs)
  {
    if jobs > 0 {
      UnitRange(part, jobs as real);
      Quotient(part, jobs as real);
    }
  }

  lemma RatesAreShares(acc: Accumulator)
    requires Bounded(acc)
    ensures var m := MetricsOf(acc);
            && ShareOf(m.successRate, acc.credit, acc.jobs) && ShareOf(m.disputeRate, acc.disputes as real, acc.jobs)
            && ShareOf(m.refundRate, acc.refunds as real, acc.jobs) && ShareOf(m.diversity, |acc.counterparties| as real, acc.jobs)
            && m.jobs == acc.jobs && m.settledValue == acc.value && m.uptime == 1.0
            && m.firstSeen == acc.firstSeen && m.lastSettled == acc.lastSettled
  {
    RateIsShare(acc.credit, acc.jobs);
    RateIsShare(acc.disputes as real, acc.jobs);
    RateIsShare(acc.refunds as real, acc.jobs);
    RateIsShare(|acc.counterparties| as real, acc.jobs);
    hide Rate, Percentiles, ShareOf;
  }

  /** The metrics of a payee's receipts, in terms of the distinct receipts: rates are shares of the jobs, a
    partial delivery counting half, the value is the sum of what was not refunded, and the counterparties
    are the distinct payers. */
  lemma MetricsMean(rs: seq<Receipt>, payee: string, currency: string)
    requires Coherent(Elements(rs), payee, currency)
    ensures var all := Elements(rs); var m := MetricsOf(Fold(EMPTY, rs));
            && m.jobs == |all|
            && ShareOf(m.successRate, |WithResult(all, Delivered)| as real + |WithResult(all, Partial)| as real / 2.0, |all|)
            && ShareOf(m.disputeRate, |WithResult(all, Disputed)| as real, |all|)
            && ShareOf(m.refundRate, |WithResult(all, Refunded)| as real, |all|)
            && ShareOf(m.diversity, |Payers(all)| as real, |all|)
            && m.settledValue == Sum(Moving(all), Amount) && m.uptime == 1.0
            && IsFirst(m.firstSeen, all) && IsLast(m.lastSettled, all)
  {
    FoldDigests(rs, payee, currency);
    FoldBounded(rs);
    CreditCounts(Elements(rs));
    RatesAreShares(Fold(EMPTY, rs));
    hide Fold, Elements, Sum, WithResult, Moving, Payers, IsFirst, IsLast, MetricsOf, SamplesOf, ShareOf, Bounded, Ids, Coherent;
  }

  function CountAtMost(s: seq<real>, x: real): nat {
    if s == [] then 0 else CountAtMost(s[1..], x) + if s[0] <= x then 1 else 0
  }

  function CountBelow(s: seq<real>, x: real): nat {
    if s == [] then 0 else CountBelow(s[1..], x) + if s[0] < x then 1 else 0
  }

  lemma {:induction false} CountsAround(a: seq<real>, x: real, b: seq<real>, y: real)
    ensures CountAtMost(a + ([x] + b), y) == CountAtMost(a + b, y) + (if x <= y then 1 else 0)
    ensures CountBelow(a + ([x] + b), y) == CountBelow(a + b, y) + (if x < y then 1 else 0)
    decreases |a|
  {
    if a == [] {
      assert a + ([x] + b) == [x] + b && ([x] + b)[1..] == b && a + b == b;
    } else {
      CountsAround(a[1..], x, b, y);
      assert (a + ([x] + b))[1..] == a[1..] + ([x] + b) && (a + b)[1..] == a[1..] + b;
    }
  }

  lemma {:induction false} CountsDependOnElements(a: seq<real>, b: seq<real>, x: real)
    requires multiset(a) == multiset(b)
    ensures CountAtMost(a, x) == CountAtMost(b, x) && CountBelow(a, x) == CountBelow(b, x)
    decreases |a|
  {
    if a == [] {
      assert |b| == |multiset(b)|;
    } else {
      var i := HeadRemoved(a, b);
      CountsDependOnElements(a[1..], b[..i] + b[i + 1..], x);
      CountsAround(b[..i], a[0], b[i + 1..], x);
    }
  }

  lemma {:induction false} CountsSorted(s: seq<real>, k: nat)
    requires k < |s| && Sorted(s, AtMost)
    ensures CountAtMost(s, s[k]) >= k + 1 && CountBelow(s, s[k]) <= k
    decreases |s|
  {
    var rest := s[1..];
    assert forall i | 0 <= i < |rest| :: rest[i] == s[i + 1];
    if k == 0 {
      NoneBelow(s, s[0]);
    } else {
      assert Sorted(rest, AtMost);
      CountsSorted(rest, k - 1);
      assert AtMost(s[0], s[k]);
    }
  }

  lemma {:induction false} NoneBelow(s: seq<real>, x: real)
    requires forall i | 0 <= i < |s| :: x <= s[i]
    ensures CountBelow(s, x) == 0
    decreases |s|
  {
    if s != [] {
      assert forall i | 0 <= i < |s| - 1 :: s[1..][i] == s[i + 1];
      NoneBelow(s[1..], x);
    }
  }

  /** `p` is the least sample with at least `x` of the samples at or below it. */
  ghost predicate IsNth(p: real, samples: seq<real>, x: real) {
    p in samples && CountAtMost(samples, p) as real >= x && CountBelow(samples, p) as real < x
  }

  lemma RankIs(n: nat, x: real)
    requires 0.0 < x <= n as real
    ensures 1 <= Ceil(x) <= n && Ceil(x) as real >= x && Ceil(x) as real - 1.0 < x
  {
  }

  lemma NthSorted(samples: seq<real>, k: nat, x: real)
    requires 1 <= k <= |Sort(samples, AtMost)| && k as real - 1.0 < x <= k as real
    ensures IsNth(Sort(samples, AtMost)[k - 1], samples, x)
  {
    hide *;
    RealsOrdered();
    SortSorts(samples, AtMost);
    var sorted := Sort(samples, AtMost);
    SortedMember(samples, k - 1);
    CountsSorted(sorted, k - 1);
    CountsDependOnElements(samples, sorted, sorted[k - 1]);
    NthFrom(sorted[k - 1], samples, k, x);
  }

  lemma NthFrom(p: real, samples: seq<real>, k: nat, x: real)
    requires k as real - 1.0 < x <= k as real && k > 0 && p in samples && CountAtMost(samples, p) >= k && CountBelow(samples, p) <= k - 1
    ensures IsNth(p, samples, x)
  {
    hide CountAtMost, CountBelow;
  }

  /** The published latencies are the median and the 95th percentile of the samples. */
  lemma PercentilesMean(samples: seq<real>)
    requires samples != []
    ensures var l, n := Percentiles(samples), |samples| as real; IsNth(l.p50, samples, 0.5 * n) && IsNth(l.p95, samples, 0.95 * n)
  {
    RealsOrdered();
    SortSorts(samples, AtMost);
    var n := |samples|;
    assert |Sort(samples, AtMost)| == |multiset(samples)| == n;
    RankIs(n, 0.5 * n as real);
    RankIs(n, 0.95 * n as real);
    hide IsNth, Ceil, Sort, Sorted, AtMost;
    NthSorted(samples, Ceil(0.5 * n as real), 0.5 * n as real);
    NthSorted(samples, Ceil(0.95 * n as real), 0.95 * n as real);
  }

  // ---- bounds -----------------------------------------------------------------------------

  /** Every outcome counts as a job and gives at most one whole credit, dispute or refund. */
  ghost predicate Bounded(acc: Accumulator) {
    && 0.0 <= acc.credit && acc.credit + acc.disputes as real + acc.refunds as real <= acc.jobs as real
    && |acc.counterparties| <= acc.jobs && |acc.samples| <= acc.jobs
    && (forall i | 0 <= i < |acc.samples| :: acc.samples[i] >= 0.0)
  }

  lemma IngestKeepsBounds(acc: Accumulator, r: Receipt)
    requires Bounded(acc)
    ensures Bounded(Ingest(acc, r).state)
  {
  }

  lemma {:induction false} FoldBounded(rs: seq<Receipt>)
    ensures Bounded(Fold(EMPTY, rs))
    decreases |rs|
  {
    if rs != [] {
      FoldBounded(rs[..|rs| - 1]);
      hide Bounded, Ingest;
      IngestKeepsBounds(Fold(EMPTY, rs[..|rs| - 1]), rs[|rs| - 1]);
    }
  }

  lemma RateBounds(part: real, jobs: nat)
    requires 0.0 <= part <= jobs as real
    ensures 0.0 <= Rate(part, jobs) <= 1.0
    ensures jobs > 0 ==> Rate(part, jobs) == part / jobs as real
  {
    if jobs > 0 { UnitRange(part, jobs as real); }
  }

  lemma RatesAdd(a: real, b: real, c: real, jobs: nat)
    requires 0.0 <= a && 0.0 <= b && 0.0 <= c && a + b + c <= jobs as real
    ensures Rate(a, jobs) + Rate(b, jobs) + Rate(c, jobs) <= 1.0
  {
    RateBounds(a, jobs);
    RateBounds(b, jobs);
    RateBounds(c, jobs);
    if jobs > 0 {
      UnitRange(a + b + c, jobs as real);
      DivAdd(a, b, jobs as real);
      DivAdd(a + b, c, jobs as real);
      hide Rate;
    }
  }

  lemma SortedMember(samples: seq<real>, i: nat)
    requires i < |Sort(samples, AtMost)|
    ensures Sort(samples, AtMost)[i] in samples
  {
    RealsOrdered();
    SortSorts(samples, AtMost);
    assert Sort(samples, AtMost)[i] in multiset(samples);
  }

  lemma RankOrder(n: nat)
    requires n > 0
    ensures Ceil(0.5 * n as real) <= Ceil(0.95 * n as real) <= n
  {
  }

  /** Both percentiles are measured latencies, and the median is not above the 95th. */
  lemma PercentilesMeasured(samples: seq<real>)
    ensures var l := Percentiles(samples);
            if samples == [] then l == Latency(0.0, 0.0) else l.p50 in samples && l.p95 in samples && l.p50 <= l.p95
  {
    RealsOrdered();
    SortSorts(samples, AtMost);
    var sorted := Sort(samples, AtMost);
    assert |sorted| == |multiset(sorted)| && |samples| == |multiset(samples)|;
    if samples != [] {
      RankOrder(|sorted|);
      forall i | 0 <= i < |sorted| ensures sorted[i] in samples { SortedMember(samples, i); }
    }
  }

  /** Whatever receipts were folded, in whatever currencies: the three rates add to at most one, there
    are no more counterparties than jobs, and the percentiles come from the samples, in order. */
  lemma MetricsBounded(rs: seq<Receipt>)
    ensures var acc := Fold(EMPTY, rs); var m := MetricsOf(acc);
            && m.successRate + m.disputeRate + m.refundRate <= 1.0
            && 0.0 <= m.successRate && 0.0 <= m.disputeRate && 0.0 <= m.refundRate && 0.0 <= m.diversity <= 1.0
            && |acc.counterparties| <= m.jobs
            && m.latency.p50 <= m.latency.p95 && (acc.samples != [] ==> m.latency.p50 in acc.samples && m.latency.p95 in acc.samples)
  {
    var acc := Fold(EMPTY, rs);
    FoldBounded(rs);
    RatesAdd(acc.credit, acc.disputes as real, acc.refunds as real, acc.jobs);
    RateBounds(acc.credit, acc.jobs);
    RateBounds(acc.disputes as real, acc.jobs);
    RateBounds(acc.refunds as real, acc.jobs);
    RateBounds(|acc.counterparties| as real, acc.jobs);
    PercentilesMeasured(acc.samples);
    hide Fold, Percentiles, Rate;
  }

  // ---- trust ------------------------------------------------------------------------------

  function LatencyAdherence(p95: real): real {
    Clamp01(4000.0 / (if p95 > 1.0 then p95 else 1.0))
  }

  function Base(m: Metrics): real {
    Clamp01(0.45 * Clamp01(m.successRate) + 0.2 * Clamp01(m.uptime) + 0.2 * LatencyAdherence(m.latency.p95)
            + 0.15 * Clamp01(m.stake / 250.0) - 0.3 * Clamp01(m.disputeRate) - 0.15 * Clamp01(m.refundRate))
  }

  function DiversityFactor(m: Metrics): real {
    0.6 + 0.4 * Clamp01(m.diversity)
  }

  function FlagFactor(m: Metrics): real {
    Clamp01(1.0 - 0.02 * m.spamFlags - 0.02 * m.postFlags)
  }

  function ComputeTrust(m: Metrics): real {
    Clamp01(Mul(Mul(Base(m), DiversityFactor(m)), FlagFactor(m)))
  }

  /** `m` is nowhere worse than `than`. */
  ghost predicate NoWorse(m: Metrics, than: Metrics) {
    && m.successRate >= than.successRate && m.uptime >= than.uptime && m.stake >= than.stake && m.diversity >= than.diversity
    && m.disputeRate <= than.disputeRate && m.refundRate <= than.refundRate && m.latency.p95 <= than.latency.p95
    && m.spamFlags <= than.spamFlags && m.postFlags <= than.postFlags
  }

  lemma AdherenceMonotone(x: real, y: real)
    requires x <= y
    ensures LatencyAdherence(x) >= LatencyAdherence(y)
  {
    var a, b := if x > 1.0 then x else 1.0, if y > 1.0 then y else 1.0;
    DivAntitone(4000.0, a, b);
  }

  lemma FactorsGrow(a: real, b: real, x: real, y: real)
    requires 0.0 <= a <= x && 0.0 <= b <= y
    ensures 0.0 <= Mul(a, b) <= Mul(x, y)
  {
    MulSigns(a, b);
    MulSigns(x, b);
    MulSigns(x, y);
    MulMonotone(a, x, b);
    MulMonotone(b, y, x);
    hide Mul;
  }

  lemma BaseMonotone(m: Metrics, than: Metrics)
    requires NoWorse(m, than)
    ensures 0.0 <= Base(than) <= Base(m)
  {
    AdherenceMonotone(m.latency.p95, than.latency.p95);
    hide LatencyAdherence;
  }

  lemma FactorsMonotone(m: Metrics, than: Metrics)
    requires NoWorse(m, than)
    ensures 0.0 <= DiversityFactor(than) <= DiversityFactor(m)
    ensures 0.0 <= FlagFactor(than) <= FlagFactor(m)
  {
  }

  /** Trust is between 0 and 1, and better metrics never lower it. */
  lemma TrustMonotone(m: Metrics, than: Metrics)
    requires NoWorse(m, than)
    ensures 0.0 <= ComputeTrust(than) <= ComputeTrust(m) <= 1.0
  {
    BaseMonotone(m, than);
    FactorsMonotone(m, than);
    hide NoWorse, Base, DiversityFactor, FlagFactor, Clamp01, Mul;
    var low, high := Mul(Base(than), DiversityFactor(than)), Mul(Base(m), DiversityFactor(m));
    FactorsGrow(Base(than), DiversityFactor(than), Base(m), DiversityFactor(m));
    FactorsGrow(low, FlagFactor(than), high, FlagFactor(m));
    ClampGrows(Mul(low, FlagFactor(than)), Mul(high, FlagFactor(m)));
  }

  /** Rates and shares are shares, flags are not negative. */
  ghost predicate InRange(m: Metrics) {
    && 0.0 <= m.successRate <= 1.0 && 0.0 <= m.disputeRate <= 1.0 && 0.0 <= m.refundRate <= 1.0 && 0.0 <= m.diversity <= 1.0
    && 0.0 <= m.uptime <= 1.0 && m.stake >= 0.0 && m.spamFlags >= 0.0 && m.postFlags >= 0.0
  }

  /** Full marks for a 95th percentile within four seconds, in inverse proportion beyond. */
  predicate SpeedShare(x: real, p95: real) {
    if p95 <= 4000.0 then x == 1.0 else x * p95 == 4000.0
  }

  /** Full marks for a stake of 250, in proportion below. */
  predicate StakeShare(x: real, stake: real) {
    if stake >= 250.0 then x == 1.0 else x * 250.0 == stake
  }

  /** The points of a provider before anything is discounted: 45 for success, 20 for uptime, 20 for speed, 15
    for its stake, minus 30 for disputes and 15 for refunds. */
  function Points(m: Metrics, speed: real, bonded: real): real {
    45.0 * m.successRate + 20.0 * m.uptime + 20.0 * speed + 15.0 * bonded - 30.0 * m.disputeRate - 15.0 * m.refundRate
  }

  lemma SpeedIs(p95: real)
    ensures SpeedShare(LatencyAdherence(p95), p95)
  {
    var p := if p95 > 1.0 then p95 else 1.0;
    Quotient(4000.0, p);
    if p <= 4000.0 {
      DivMonotone(p, 4000.0, p);
      assert p / p == 1.0;
    } else {
      UnitRange(4000.0, p);
    }
  }

  /** The base is the points as a share of a hundred, not below zero. */
  lemma BaseIsPoints(m: Metrics, speed: real, bonded: real)
    requires InRange(m) && SpeedShare(speed, m.latency.p95) && StakeShare(bonded, m.stake)
    ensures var x := Points(m, speed, bonded); Base(m) == (if x < 0.0 then 0.0 else x / 100.0) && x <= 100.0
  {
    SpeedIs(m.latency.p95);
    AdherenceBounded(m.latency.p95);
    if m.latency.p95 > 4000.0 { SameSpeed(speed, LatencyAdherence(m.latency.p95), m.latency.p95); }
    assert speed == LatencyAdherence(m.latency.p95);
    hide LatencyAdherence, SpeedShare;
    assert Clamp01(m.stake / 250.0) == bonded;
  }

  lemma AdherenceBounded(p95: real)
    ensures 0.0 <= LatencyAdherence(p95) <= 1.0
  {
  }

  lemma SameSpeed(x: real, y: real, p: real)
    requires p > 0.0 && x * p == y * p
    ensures x == y
  {
    assert (x - y) * p == 0.0;
  }

  /** Trust is those points, times 60 to 100 percent for the diversity of the counterparties, times what the
    flags leave at two percent each. */
  lemma TrustMeans(m: Metrics, speed: real, bonded: real)
    requires InRange(m) && SpeedShare(speed, m.latency.p95) && StakeShare(bonded, m.stake)
    ensures var x, flags := Points(m, speed, bonded), m.spamFlags + m.postFlags;
            ComputeTrust(m)
            == (if x < 0.0 then 0.0 else x / 100.0) * (0.6 + 0.4 * m.diversity) * (if flags > 50.0 then 0.0 else 1.0 - flags / 50.0)
  {
    BaseIsPoints(m, speed, bonded);
    var x, flags := Points(m, speed, bonded), m.spamFlags + m.postFlags;
    var base := if x < 0.0 then 0.0 else x / 100.0;
    var kept := if flags > 50.0 then 0.0 else 1.0 - flags / 50.0;
    assert FlagFactor(m) == kept && DiversityFactor(m) == 0.6 + 0.4 * m.diversity;
    assert 0.6 <= 0.6 + 0.4 * m.diversity <= 1.0 && 0.0 <= kept <= 1.0 && 0.0 <= base <= 1.0;
    hide Base, FlagFactor, DiversityFactor, Points, InRange;
    ProductInRange(base, 0.6 + 0.4 * m.diversity, kept);
  }

  lemma ProductInRange(a: real, b: real, c: real)
    requires 0.0 <= a <= 1.0 && 0.0 <= b <= 1.0 && 0.0 <= c <= 1.0
    ensures 0.0 <= Mul(Mul(a, b), c) <= 1.0 && Mul(Mul(a, b), c) == a * b * c
  {
    FactorsGrow(a, b, 1.0, 1.0);
    FactorsGrow(Mul(a, b), c, 1.0, 1.0);
  }
}
