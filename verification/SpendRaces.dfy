/** Overlapping payments: a pay reads the payer's usage, awaits signing and the rail, and records its spend
  only then. What that leaves of the caps. */
module SpendRaces {
  import opened Amounts
  import opened Outcomes
  import opened Policy
  import opened SpendCaps
  import opened Spends
  import W = Wallet

  /** A pay between its read and its record: the usage it was judged on, and how much had been spent by
    anybody when it read that. */
  datatype Reading = Reading(pay: Pay, usage: Usage, seen: nat)

  datatype Till = Till(accounts: Accounts, open: map<nat, Reading>)

  /** A pay ends on the day its spend is recorded. Escrow captures record spends of their own. */
  datatype Step =
    | Begin(c: nat, pay: Pay)
    | Finish(c: nat, day: int)
    | Record(key: W.Key, amount: real, day: int)
  {
    function Day(): int {
      if Begin? then pay.day else day
    }
  }

  predicate CanStep(t: Till, step: Step) {
    match step
    case Begin(c, _) => c !in t.open
    case Finish(c, _) => c in t.open
    case Record(_, _, _) => true
  }

  /** The judgement on the usage that was read, and the move of value. */
  predicate Passes(rules: map<string, Rules>, r: Reading) {
    && r.pay.payer in rules && r.pay.settles && r.pay.amount.amount > 0.0
    && var d := Evaluate(rules[r.pay.payer], ActionOf(r.pay), r.usage);
       d == Allow || (d == NeedsApproval && r.pay.cleared)
  }

  function Take(rules: map<string, Rules>, t: Till, step: Step): Till
    requires CanStep(t, step)
  {
    match step
    case Begin(c, p) =>
      t.(open := t.open[c := Reading(p, UsageOf(t.accounts.book, p.payer, p.day), |t.accounts.history|)])
    case Finish(c, day) =>
      var r := t.open[c];
      Till(if Passes(rules, r) then Happen(rules, t.accounts, Recorded(KeyOf(r.pay), r.pay.amount.amount, day)) else t.accounts,
           t.open - {c})
    case Record(k, amount, day) => t.(accounts := Happen(rules, t.accounts, Recorded(k, amount, day)))
  }

  /** The usage that was read is what had been spent by then. */
  ghost predicate ReadingOk(history: seq<Spent>, r: Reading, today: int) {
    && r.seen <= |history| && r.pay.day <= today && DaysForward(history[..r.seen], r.pay.day)
    && var k := W.Key(r.pay.payer, USDC);
       r.usage == Usage(Money(OnDay(history[..r.seen], k, r.pay.day), USDC), Money(Lifetime(history[..r.seen], k), USDC))
  }

  ghost predicate TillOk(t: Till, today: int) {
    AccountsOk(t.accounts, today) && forall c | c in t.open :: ReadingOk(t.accounts.history, t.open[c], today)
  }

  lemma ReadingStays(history: seq<Spent>, more: seq<Spent>, r: Reading, today: int, later: int)
    requires ReadingOk(history, r, today) && today <= later
    ensures ReadingOk(history + more, r, later)
  {
    assert (history + more)[..r.seen] == history[..r.seen];
  }

  lemma ReadNow(s: Accounts, p: Pay, last: int)
    requires AccountsOk(s, last) && last <= p.day
    ensures AccountsOk(s, p.day) && ReadingOk(s.history, Reading(p, UsageOf(s.book, p.payer, p.day), |s.history|), p.day)
  {
    ShowsLater(s.book, s.history, last, p.day);
    assert s.history[..|s.history|] == s.history;
    var k := W.Key(p.payer, USDC);
    assert TotalSpent(s.book, k) == Lifetime(s.history, k) && DailySpent(s.book, k, p.day) == OnDay(s.history, k, p.day);
    hide Shows, Lifetime, OnDay;
  }

  lemma RecordKeeps(rules: map<string, Rules>, s: Accounts, k: W.Key, amount: real, day: int, last: int)
    requires AccountsOk(s, last) && last <= day
    ensures var s' := Happen(rules, s, Recorded(k, amount, day));
            AccountsOk(s', day) && s'.history == s.history + if amount > 0.0 then [Spent(k, amount, day)] else []
  {
    EventKeepsAccounts(rules, s, Recorded(k, amount, day), last);
    assert s.history + [] == s.history;
    hide AccountsOk, RecordSpend;
  }

  lemma StepKeepsTill(rules: map<string, Rules>, t: Till, step: Step, last: int)
    requires TillOk(t, last) && CanStep(t, step) && last <= step.Day()
    ensures TillOk(Take(rules, t, step), step.Day())
  {
    var t' := Take(rules, t, step);
    hide AccountsOk, Happen, Passes, UsageOf, ReadingOk;
    match step
    case Begin(c, p) =>
      ReadNow(t.accounts, p, last);
      ReadingsStay(t, t', [], last, p.day);
    case Finish(c, day) =>
      var r := t.open[c];
      RecordKeeps(rules, t.accounts, KeyOf(r.pay), r.pay.amount.amount, day, last);
      RecordKeeps(rules, t.accounts, KeyOf(r.pay), 0.0, day, last);
      HappensNot(rules, t.accounts, KeyOf(r.pay), day);
      ReadingsStay(t, t', t'.accounts.history[|t.accounts.history|..], last, day);
    case Record(k, amount, day) =>
      RecordKeeps(rules, t.accounts, k, amount, day, last);
      ReadingsStay(t, t', t'.accounts.history[|t.accounts.history|..], last, day);
  }

  lemma HappensNot(rules: map<string, Rules>, s: Accounts, k: W.Key, day: int)
    ensures Happen(rules, s, Recorded(k, 0.0, day)) == s
  {
  }

  lemma ReadingsStay(t: Till, t': Till, more: seq<Spent>, today: int, later: int)
    requires TillOk(t, today) && today <= later && t'.accounts.history == t.accounts.history + more
    ensures forall c | c in t.open && c in t'.open && t'.open[c] == t.open[c] :: ReadingOk(t'.accounts.history, t'.open[c], later)
  {
    hide AccountsOk, ReadingOk;
    forall c | c in t.open && c in t'.open && t'.open[c] == t.open[c] ensures ReadingOk(t'.accounts.history, t'.open[c], later) {
      ReadingStays(t.accounts.history, more, t.open[c], today, later);
    }
  }

  // ---- what fits ------------------------------------------------------------------------

  lemma {:induction false} SumsSplit(a: seq<Spent>, b: seq<Spent>, k: W.Key, day: int)
    ensures Lifetime(a + b, k) == Lifetime(a, k) + Lifetime(b, k) && OnDay(a + b, k, day) == OnDay(a, k, day) + OnDay(b, k, day)
    decreases |b|
  {
    if b == [] {
      assert a + b == a;
    } else {
      SumsSplit(a, b[..|b| - 1], k, day);
      assert (a + b)[..|a + b| - 1] == a + b[..|b| - 1];
    }
  }

  /** What was spent since the read fits into the room that the read left under both caps. */
  predicate StillFits(r: Rules, history: seq<Spent>, g: Reading, day: int)
    requires g.seen <= |history|
  {
    var since, k := history[g.seen..], KeyOf(g.pay);
    && Lifetime(since, k) <= r.totalMax.amount - g.usage.total.amount - g.pay.amount.amount
    && OnDay(since, k, day) <= r.dailyMax.amount - (if day == g.pay.day then g.usage.daily.amount else 0.0) - g.pay.amount.amount
  }

  ghost predicate Within(r: Rules, s: Accounts, k: W.Key, day: int) {
    Lifetime(s.history, k) <= r.totalMax.amount && OnDay(s.history, k, day) <= r.dailyMax.amount
  }

  /** A USDC pay that was judged on an old reading leaves its payer within both caps if and only if what was
    spent since then still fits. */
  lemma FinishWithinIff(rules: map<string, Rules>, t: Till, c: nat, day: int, last: int)
    requires TillOk(t, last) && c in t.open && last <= day
    requires var r := t.open[c]; Passes(rules, r) && r.pay.amount.currency == USDC
    ensures var r := t.open[c]; var s' := Take(rules, t, Finish(c, day)).accounts;
            r.seen <= |t.accounts.history|
            && (Within(rules[r.pay.payer], s', KeyOf(r.pay), day) <==> StillFits(rules[r.pay.payer], t.accounts.history, r, day))
  {
    var r := t.open[c];
    var h, k, m := t.accounts.history, KeyOf(r.pay), r.pay.amount.amount;
    assert ReadingOk(h, r, last) && m > 0.0;
    RecordKeeps(rules, t.accounts, k, m, day, last);
    assert h == h[..r.seen] + h[r.seen..];
    SumsSplit(h[..r.seen], h[r.seen..], k, day);
    SumsSplit(h, [Spent(k, m, day)], k, day);
    assert [Spent(k, m, day)][..0] == [];
    if day > r.pay.day { NothingAhead(h[..r.seen], k, r.pay.day, day); }
    hide Evaluate, AccountsOk, Happen, DaysForward;
  }

  /** With nothing recorded for the payer since the read, the pay always fits. */
  lemma AloneFits(rules: map<string, Rules>, history: seq<Spent>, g: Reading, day: int)
    requires g.seen <= |history| && Passes(rules, g) && g.pay.amount.currency == USDC && g.usage.daily.currency == USDC == g.usage.total.currency
    requires g.usage.daily.amount >= 0.0
    requires forall i | g.seen <= i < |history| :: history[i].key != KeyOf(g.pay)
    ensures StillFits(rules[g.pay.payer], history, g, day)
  {
    var since, k := history[g.seen..], KeyOf(g.pay);
    assert forall i | 0 <= i < |since| :: since[i] == history[g.seen + i];
    NothingFor(since, k, day);
    WithinCaps(rules[g.pay.payer], ActionOf(g.pay), g.usage);
    hide Evaluate, Lifetime, OnDay;
  }

  lemma {:induction false} NothingFor(s: seq<Spent>, k: W.Key, day: int)
    requires forall i | 0 <= i < |s| :: s[i].key != k
    ensures Lifetime(s, k) == 0.0 == OnDay(s, k, day)
    decreases |s|
  {
    if s != [] { NothingFor(s[..|s| - 1], k, day); }
  }

  // ---- runs -------------------------------------------------------------------------------

  const EMPTY := Till(Accounts(map[], []), map[])

  ghost predicate IsRun(rules: map<string, Rules>, trace: seq<Till>, steps: seq<Step>) {
    && |trace| == |steps| + 1 && trace[0] == EMPTY
    && (forall n | 0 <= n < |steps| :: CanStep(trace[n], steps[n]) && trace[n + 1] == Take(rules, trace[n], steps[n]))
    && (forall m, n | 0 <= m <= n < |steps| :: steps[m].Day() <= steps[n].Day())
  }

  /** The end of a successful USDC pay. */
  predicate Pays(rules: map<string, Rules>, t: Till, step: Step) {
    step.Finish? && step.c in t.open && Passes(rules, t.open[step.c]) && t.open[step.c].pay.amount.currency == USDC
  }

  lemma {:induction false} RunKeepsTill(rules: map<string, Rules>, trace: seq<Till>, steps: seq<Step>, n: nat, today: int)
    requires IsRun(rules, trace, steps) && n < |trace| && forall m | 0 <= m < n :: steps[m].Day() <= today
    ensures TillOk(trace[n], today)
    decreases n
  {
    hide Take, CanStep;
    if n > 0 {
      var last := steps[n - 1].Day();
      RunKeepsTill(rules, trace, steps, n - 1, last);
      StepKeepsTill(rules, trace[n - 1], steps[n - 1], last);
      TillLater(trace[n], last, today);
    } else {
      NothingSpent(today);
    }
  }

  lemma TillLater(t: Till, last: int, today: int)
    requires TillOk(t, last) && last <= today
    ensures TillOk(t, today)
  {
    ShowsLater(t.accounts.book, t.accounts.history, last, today);
    hide Shows, Lifetime, OnDay;
  }

  lemma NothingSpent(today: int)
    ensures TillOk(EMPTY, today)
  {
  }

  ghost predicate PayWithin(rules: map<string, Rules>, t: Till, step: Step, t': Till) {
    Pays(rules, t, step) ==>
      var r := t.open[step.c]; Within(rules[r.pay.payer], t'.accounts, KeyOf(r.pay), step.day)
  }

  predicate PayFits(rules: map<string, Rules>, t: Till, step: Step) {
    Pays(rules, t, step) ==>
      var r := t.open[step.c]; r.seen <= |t.accounts.history| && StillFits(rules[r.pay.payer], t.accounts.history, r, step.day)
  }

  /** In every run of overlapping pays and captures, with days that never go back: each successful USDC
    pay leaves its payer within both caps if and only if, for each, what was spent since it read the
    usage still fitted into the room it saw. */
  lemma EveryPayWithinIff(rules: map<string, Rules>, trace: seq<Till>, steps: seq<Step>)
    requires IsRun(rules, trace, steps)
    ensures (forall n | 0 <= n < |steps| :: PayWithin(rules, trace[n], steps[n], trace[n + 1]))
       <==> (forall n | 0 <= n < |steps| :: PayFits(rules, trace[n], steps[n]))
  {
    assert |trace| == |steps| + 1;
    hide *;
    if forall n | 0 <= n < |steps| :: PayWithin(rules, trace[n], steps[n], trace[n + 1]) {
      forall n | 0 <= n < |steps| ensures PayFits(rules, trace[n], steps[n]) {
        assert PayWithin(rules, trace[n], steps[n], trace[n + 1]);
        PayWithinIff(rules, trace, steps, n);
      }
    }
    if forall n | 0 <= n < |steps| :: PayFits(rules, trace[n], steps[n]) {
      forall n | 0 <= n < |steps| ensures PayWithin(rules, trace[n], steps[n], trace[n + 1]) {
        assert PayFits(rules, trace[n], steps[n]);
        PayWithinIff(rules, trace, steps, n);
      }
    }
  }

  lemma PayWithinIff(rules: map<string, Rules>, trace: seq<Till>, steps: seq<Step>, n: nat)
    requires IsRun(rules, trace, steps) && n < |steps|
    ensures PayWithin(rules, trace[n], steps[n], trace[n + 1]) <==> PayFits(rules, trace[n], steps[n])
  {
    var t, step := trace[n], steps[n];
    assert trace[n + 1] == Take(rules, t, step);
    RunKeepsTill(rules, trace, steps, n, step.Day());
    hide Take, CanStep, Within, StillFits, TillOk, Passes;
    if Pays(rules, t, step) { FinishWithinIff(rules, t, step.c, step.day, step.day); }
  }

  /** Two pays of the whole cap that both read the usage before either records: both succeed, and the
    payer has spent twice its lifetime cap. */
  lemma OverlappingPaysExceed(payer: string, cap: real) returns (rules: map<string, Rules>, trace: seq<Till>, steps: seq<Step>)
    requires cap > 0.0
    ensures payer in rules && rules[payer].totalMax.amount == cap && IsRun(rules, trace, steps) && |steps| == 4
    ensures Pays(rules, trace[2], steps[2]) && Pays(rules, trace[3], steps[3])
    ensures Lifetime(trace[4].accounts.history, W.Key(payer, USDC)) == 2.0 * cap
  {
    rules := map[payer := CapOf(USDC, cap)];
    var k := W.Key(payer, USDC);
    StarLists();
    var p := ListedSucceeds(rules, payer, USDC);
    WholeCap(rules, payer, cap, p);
    var g := Reading(p, UsageOf(map[], payer, p.day), 0);
    TwoRecords(rules, k, cap, p.day);
    var e := Recorded(k, cap, p.day);
    var s1 := Happen(rules, Accounts(map[], []), e);
    var s2 := Happen(rules, s1, e);
    steps := [Begin(0, p), Begin(1, p), Finish(0, p.day), Finish(1, p.day)];
    trace := [EMPTY, Till(EMPTY.accounts, map[0 := g]), Till(EMPTY.accounts, map[0 := g, 1 := g]), Till(s1, map[1 := g]), Till(s2, map[])];
    hide Evaluate, UsageOf, CapOf, LetsThrough, Happen, Passes, Lifetime;
    assert map[0 := g, 1 := g] - {0} == map[1 := g] && map[1 := g] - {1} == map[];
    assert trace[1] == Take(rules, trace[0], steps[0]);
    assert trace[2] == Take(rules, trace[1], steps[1]);
    assert trace[3] == Take(rules, trace[2], steps[2]);
    assert trace[4] == Take(rules, trace[3], steps[3]);
  }

  lemma TwoRecords(rules: map<string, Rules>, k: W.Key, m: real, day: int)
    requires m > 0.0
    ensures var e := Recorded(k, m, day);
            Lifetime(Happen(rules, Happen(rules, Accounts(map[], []), e), e).history, k) == 2.0 * m
  {
    hide RecordSpend;
    var s := [Spent(k, m, day), Spent(k, m, day)];
    assert s[..1] == [Spent(k, m, day)] && [Spent(k, m, day)][..0] == [];
    assert Lifetime(s[..1], k) == m;
  }

  lemma WholeCap(rules: map<string, Rules>, payer: string, cap: real, p: Pay)
    requires cap > 0.0 && payer in rules && rules[payer] == CapOf(USDC, cap)
    requires p.payer == payer && p.amount == Money(cap, USDC) && Succeeds(rules, Accounts(map[], []), p)
    ensures Passes(rules, Reading(p, UsageOf(map[], payer, p.day), 0))
  {
  }
}
