/** Caps over whole runs: the rolling spend row against the full spending history, and what the
  evaluator's use of it guarantees about every successful payment. */
module SpendCaps {
  import opened Amounts
  import opened Outcomes
  import opened Policy
  import opened Spends
  import W = Wallet

  datatype Spent = Spent(key: W.Key, amount: real, day: int)

  /** Everything `k` ever spent. */
  function Lifetime(history: seq<Spent>, k: W.Key): real {
    if history == [] then 0.0
    else
      var last := history[|history| - 1];
      Lifetime(history[..|history| - 1], k) + if last.key == k then last.amount else 0.0
  }

  /** What `k` spent on `day`. */
  function OnDay(history: seq<Spent>, k: W.Key, day: int): real {
    if history == [] then 0.0
    else
      var last := history[|history| - 1];
      OnDay(history[..|history| - 1], k, day) + if last.key == k && last.day == day then last.amount else 0.0
  }

  ghost predicate DaysForward(history: seq<Spent>, today: int) {
    forall i | 0 <= i < |history| :: history[i].day <= today
  }

  /** The book shows the sums over the history: the lifetime total, and today's part once asked today. */
  ghost predicate Shows(b: Book, history: seq<Spent>, today: int) {
    && (forall k :: TotalSpent(b, k) == Lifetime(history, k))
    && (forall k, day | day >= today :: DailySpent(b, k, day) == OnDay(history, k, day))
  }

  lemma {:induction false} NothingAhead(history: seq<Spent>, k: W.Key, today: int, day: int)
    requires DaysForward(history, today) && day > today
    ensures OnDay(history, k, day) == 0.0
    decreases |history|
  {
    if history != [] {
      NothingAhead(history[..|history| - 1], k, today, day);
    }
  }

  lemma RecordShows(b: Book, history: seq<Spent>, last: int, k: W.Key, amount: real, today: int)
    requires Shows(b, history, last) && DaysForward(history, last) && last <= today && amount > 0.0
    ensures var s := Spent(k, amount, today);
            DaysForward(history + [s], today) && RecordSpend(b, k, amount, today).Done?
            && Shows(RecordSpend(b, k, amount, today).state, history + [s], today)
  {
    var s := Spent(k, amount, today);
    var b' := RecordSpend(b, k, amount, today).state;
    assert (history + [s])[..|history|] == history;
    forall j ensures TotalSpent(b', j) == Lifetime(history + [s], j) {
    }
    forall j, day | day >= today ensures DailySpent(b', j, day) == OnDay(history + [s], j, day) {
      assert DailySpent(b, j, day) == OnDay(history, j, day);
      if day > today { NothingAhead(history, j, today, day); }
    }
  }

  /** Rows only forget on a change of day: with days that never go back the row's view of today is
    still exact later. */
  lemma ShowsLater(b: Book, history: seq<Spent>, last: int, today: int)
    requires Shows(b, history, last) && last <= today
    ensures Shows(b, history, today)
  {
  }

  // ---- payments ---------------------------------------------------------------------------

  const USDC := "USDC"

  /** usage: only the USDC row is ever read. */
  function UsageOf(b: Book, did: string, today: int): Usage {
    var k := W.Key(did, USDC);
    Usage(Money(DailySpent(b, k, today), USDC), Money(TotalSpent(b, k), USDC))
  }

  /** One settled-or-refused pay call. `cleared` says that a presented approval was redeemed as
    approved, `settles` that the rail moved the value. */
  datatype Pay = Pay(payer: string, payee: string, amount: Money, listing: string, day: int, cleared: bool, settles: bool)

  function ActionOf(p: Pay): Action {
    Action(Spend, p.payer, Some(p.amount), Some(p.listing), Some(p.payee), None)
  }

  datatype Accounts = Accounts(book: Book, history: seq<Spent>)

  predicate Succeeds(rules: map<string, Rules>, s: Accounts, p: Pay) {
    && p.payer in rules && p.settles && p.amount.amount > 0.0
    && var d := Evaluate(rules[p.payer], ActionOf(p), UsageOf(s.book, p.payer, p.day));
       d == Allow || (d == NeedsApproval && p.cleared)
  }

  function KeyOf(p: Pay): W.Key {
    W.Key(p.payer, p.amount.currency)
  }

  /** Either a pay call, or a spend recorded without a cap check, as escrow captures do. */
  datatype Event = Paid(pay: Pay) | Recorded(key: W.Key, amount: real, day: int) {
    function Day(): int {
      if Paid? then pay.day else day
    }
  }

  function Happen(rules: map<string, Rules>, s: Accounts, e: Event): Accounts {
    match e
    case Paid(p) =>
      if !Succeeds(rules, s, p) then s
      else Accounts(RecordSpend(s.book, KeyOf(p), p.amount.amount, p.day).state, s.history + [Spent(KeyOf(p), p.amount.amount, p.day)])
    case Recorded(k, amount, day) =>
      if amount <= 0.0 then s
      else Accounts(RecordSpend(s.book, k, amount, day).state, s.history + [Spent(k, amount, day)])
  }

  ghost predicate AccountsOk(s: Accounts, today: int) {
    DaysForward(s.history, today) && Shows(s.book, s.history, today)
  }

  lemma EventKeepsAccounts(rules: map<string, Rules>, s: Accounts, e: Event, last: int)
    requires AccountsOk(s, last) && last <= e.Day()
    ensures AccountsOk(Happen(rules, s, e), e.Day())
  {
    ShowsLater(s.book, s.history, last, e.Day());
    hide Shows, Succeeds, RecordSpend, DaysForward;
    match e
    case Paid(p) =>
      if Succeeds(rules, s, p) {
        PositiveWhenPaid(rules, s, p);
        RecordShows(s.book, s.history, last, KeyOf(p), p.amount.amount, p.day);
      } else {
        Forward(s.history, last, e.Day());
      }
    case Recorded(k, amount, day) =>
      if amount > 0.0 { RecordShows(s.book, s.history, last, k, amount, day); } else { Forward(s.history, last, day); }
  }

  lemma PositiveWhenPaid(rules: map<string, Rules>, s: Accounts, p: Pay)
    requires Succeeds(rules, s, p)
    ensures p.amount.amount > 0.0
  {
    hide Evaluate;
  }

  lemma Forward(history: seq<Spent>, last: int, today: int)
    requires DaysForward(history, last) && last <= today
    ensures DaysForward(history, today)
  {
  }

  /** A USDC pay succeeds exactly if the rail settles a positive amount, the payer's delegation lists
    counterparty and listing and is in USDC, the amount fits under the cap per payment and with the payer's
    whole history under the other two, and a clearance was redeemed for it if it is over the threshold. */
  lemma PaySucceedsIff(rules: map<string, Rules>, s: Accounts, p: Pay, last: int)
    requires AccountsOk(s, last) && last <= p.day && p.amount.currency == USDC && p.payer in rules
    ensures var r, k, x := rules[p.payer], W.Key(p.payer, USDC), p.amount.amount;
            Succeeds(rules, s, p) <==>
              && p.settles && x > 0.0
              && Listed(p.payee, r.counterpartiesAllow, r.counterpartiesDeny) && Listed(p.listing, r.categoriesAllow, r.categoriesDeny)
              && r.perTxMax.currency == USDC == r.dailyMax.currency == r.totalMax.currency
              && x <= r.perTxMax.amount && OnDay(s.history, k, p.day) + x <= r.dailyMax.amount && Lifetime(s.history, k) + x <= r.totalMax.amount
              && (r.approvalOver.currency == USDC && x > r.approvalOver.amount ==> p.cleared)
  {
    var k := W.Key(p.payer, USDC);
    assert TotalSpent(s.book, k) == Lifetime(s.history, k);
    assert DailySpent(s.book, k, p.day) == OnDay(s.history, k, p.day);
    SpendDecided(rules[p.payer], ActionOf(p), UsageOf(s.book, p.payer, p.day));
    hide Evaluate, Shows, DaysForward, Listed, Lifetime, OnDay, DailySpent, TotalSpent;
  }

  /** A pay by somebody without a delegation never succeeds. */
  lemma UndelegatedFails(rules: map<string, Rules>, s: Accounts, p: Pay)
    requires p.payer !in rules
    ensures !Succeeds(rules, s, p) && Happen(rules, s, Paid(p)) == s
  {
  }

  /** Right after a successful USDC payment the payer's whole history is within the lifetime cap and
    its day within the daily cap, also when an approval cleared the payment. */
  lemma PaidWithinCaps(rules: map<string, Rules>, s: Accounts, p: Pay, last: int)
    requires AccountsOk(s, last) && last <= p.day && Succeeds(rules, s, p) && p.amount.currency == USDC
    ensures var s' := Happen(rules, s, Paid(p)); var r := rules[p.payer];
            && Lifetime(s'.history, KeyOf(p)) <= r.totalMax.amount
            && OnDay(s'.history, KeyOf(p), p.day) <= r.dailyMax.amount
            && p.amount.amount <= r.perTxMax.amount
  {
    var k := KeyOf(p);
    assert TotalSpent(s.book, k) == Lifetime(s.history, k);
    assert DailySpent(s.book, k, p.day) == OnDay(s.history, k, p.day);
    WithinCaps(rules[p.payer], ActionOf(p), UsageOf(s.book, p.payer, p.day));
    hide Evaluate, Shows, DaysForward;
    var s' := Happen(rules, s, Paid(p));
    assert s'.history[..|s.history|] == s.history;
  }

  /** Getting past the evaluator means fitting under all three caps. */
  lemma WithinCaps(r: Rules, a: Action, u: Usage)
    requires a.kind == Spend && a.amount.Some? && Evaluate(r, a, u).Reach() > 0
    ensures var m := a.amount.value;
            && m.amount <= r.perTxMax.amount
            && UsageIn(u.daily, m.currency) + m.amount <= r.dailyMax.amount
            && UsageIn(u.total, m.currency) + m.amount <= r.totalMax.amount
  {
    hide Listed;
  }

  // ---- runs -------------------------------------------------------------------------------

  function Run(rules: map<string, Rules>, events: seq<Event>): Accounts {
    if events == [] then Accounts(map[], [])
    else Happen(rules, Run(rules, events[..|events| - 1]), events[|events| - 1])
  }

  ghost predicate InOrder(events: seq<Event>) {
    forall i, j | 0 <= i <= j < |events| :: events[i].Day() <= events[j].Day()
  }

  lemma {:induction false} RunShows(rules: map<string, Rules>, events: seq<Event>, today: int)
    requires InOrder(events) && forall i | 0 <= i < |events| :: events[i].Day() <= today
    ensures AccountsOk(Run(rules, events), today)
    decreases |events|
  {
    if events != [] {
      var n := |events| - 1;
      assert forall i | 0 <= i < n :: events[..n][i] == events[i];
      RunShows(rules, events[..n], events[n].Day());
      EventKeepsAccounts(rules, Run(rules, events[..n]), events[n], events[n].Day());
      ShowsLater(Run(rules, events).book, Run(rules, events).history, events[n].Day(), today);
    }
  }

  /** Over every run with days that never go back: after each successful USDC pay, the payer is
    within its caps, whatever was paid or captured before. */
  lemma EveryPayWithinCaps(rules: map<string, Rules>, events: seq<Event>, n: nat)
    requires InOrder(events) && n < |events| && events[n].Paid? && events[n].pay.amount.currency == USDC
    requires Succeeds(rules, Run(rules, events[..n]), events[n].pay)
    ensures var p := events[n].pay; var s := Run(rules, events[..n + 1]); var r := rules[p.payer];
            Lifetime(s.history, KeyOf(p)) <= r.totalMax.amount && OnDay(s.history, KeyOf(p), p.day) <= r.dailyMax.amount
  {
    var p := events[n].pay;
    RunShows(rules, events[..n], p.day);
    PaidWithinCaps(rules, Run(rules, events[..n]), p, p.day);
    assert events[..n + 1][..n] == events[..n];
  }

  /** Only USDC spending is capped over time: in another currency the evaluator sees no history. */
  lemma OtherCurrencyForgotten(r: Rules, p: Pay, b: Book)
    requires p.amount.currency != USDC
    ensures Evaluate(r, ActionOf(p), UsageOf(b, p.payer, p.day)) == Evaluate(r, ActionOf(p), UsageOf(map[], p.payer, p.day))
  {
    hide Listed;
  }

  /** Event n of the run is a successful pay of `payer` in currency `c`. */
  ghost predicate Pays(rules: map<string, Rules>, payer: string, c: string, events: seq<Event>, n: nat) {
    && InOrder(events) && n < |events| && events[n].Paid? && events[n].pay.payer == payer && events[n].pay.amount.currency == c
    && Succeeds(rules, Run(rules, events[..n]), events[n].pay)
  }

  ghost predicate WithinBoth(r: Rules, s: Accounts, p: Pay) {
    Lifetime(s.history, KeyOf(p)) <= r.totalMax.amount && OnDay(s.history, KeyOf(p), p.day) <= r.dailyMax.amount
  }

  /** After each successful pay of `payer` in `c`, in every run, both caps of its delegation hold. */
  ghost predicate Capped(rules: map<string, Rules>, payer: string, c: string)
    requires payer in rules
  {
    forall events: seq<Event>, n: nat | Pays(rules, payer, c, events, n) :: WithinBoth(rules[payer], Run(rules, events[..n + 1]), events[n].pay)
  }

  /** Some pay of `payer` in `c` would succeed with nothing spent before. */
  ghost predicate CanPay(rules: map<string, Rules>, payer: string, c: string) {
    exists p: Pay :: p.payer == payer && p.amount.currency == c && Succeeds(rules, Accounts(map[], []), p)
  }

  /** The delegation's three caps are in `c` and positive, and its lists leave some category and some
    counterparty. */
  predicate LetsThrough(r: Rules, c: string) {
    && r.perTxMax.currency == c == r.dailyMax.currency == r.totalMax.currency
    && r.perTxMax.amount > 0.0 && r.dailyMax.amount > 0.0 && r.totalMax.amount > 0.0
    && ListsSomething(r.categoriesAllow, r.categoriesDeny) && ListsSomething(r.counterpartiesAllow, r.counterpartiesDeny)
  }

  lemma SucceedsListed(rules: map<string, Rules>, p: Pay)
    requires Succeeds(rules, Accounts(map[], []), p)
    ensures LetsThrough(rules[p.payer], p.amount.currency)
  {
    var r := rules[p.payer];
    assert UsageOf(map[], p.payer, p.day) == Usage(Money(0.0, USDC), Money(0.0, USDC));
    assert Listed(p.listing, r.categoriesAllow, r.categoriesDeny) && Listed(p.payee, r.counterpartiesAllow, r.counterpartiesDeny) by { hide Listed; }
    ListsSomethingIff(r.categoriesAllow, r.categoriesDeny);
    ListsSomethingIff(r.counterpartiesAllow, r.counterpartiesDeny);
    hide Listed, ListsSomething;
  }

  function Least(r: Rules): real {
    var m := if r.perTxMax.amount <= r.dailyMax.amount then r.perTxMax.amount else r.dailyMax.amount;
    if m <= r.totalMax.amount then m else r.totalMax.amount
  }

  lemma ListedSucceeds(rules: map<string, Rules>, payer: string, c: string) returns (p: Pay)
    requires payer in rules && LetsThrough(rules[payer], c)
    ensures p.payer == payer && p.amount == Money(Least(rules[payer]), c) && Succeeds(rules, Accounts(map[], []), p)
  {
    var r := rules[payer];
    ListsSomethingIff(r.categoriesAllow, r.categoriesDeny);
    ListsSomethingIff(r.counterpartiesAllow, r.counterpartiesDeny);
    var listing: string :| Listed(listing, r.categoriesAllow, r.categoriesDeny);
    var payee: string :| Listed(payee, r.counterpartiesAllow, r.counterpartiesDeny);
    hide Listed, ListsSomething;
    p := Pay(payer, payee, Money(Least(r), c), listing, 0, true, true);
    assert UsageOf(map[], payer, 0) == Usage(Money(0.0, USDC), Money(0.0, USDC));
  }

  /** A first pay in `c` can succeed exactly if the delegation lets something through in `c`. */
  lemma CanPayIff(rules: map<string, Rules>, payer: string, c: string)
    requires payer in rules
    ensures CanPay(rules, payer, c) <==> LetsThrough(rules[payer], c)
  {
    hide Succeeds, LetsThrough;
    if LetsThrough(rules[payer], c) {
      var p := ListedSucceeds(rules, payer, c);
    }
    if p: Pay :| p.payer == payer && p.amount.currency == c && Succeeds(rules, Accounts(map[], []), p) {
      SucceedsListed(rules, p);
    }
  }

  lemma SucceedsForgetful(rules: map<string, Rules>, s: Accounts, p: Pay)
    requires p.amount.currency != USDC
    ensures Succeeds(rules, s, p) == Succeeds(rules, Accounts(map[], []), p)
  {
    if p.payer in rules { OtherCurrencyForgotten(rules[p.payer], p, s.book); }
    hide Evaluate;
  }

  function Times(e: Event, n: nat): seq<Event> {
    seq(n, _ => e)
  }

  /** `n` payments of `m`. */
  function Pile(m: real, n: nat): real {
    if n == 0 then 0.0 else Pile(m, n - 1) + m
  }

  lemma {:induction false} PileIs(m: real, n: nat)
    ensures Pile(m, n) == n as real * m
    decreases n
  {
    if n > 0 {
      PileIs(m, n - 1);
      assert n as real * m == (n - 1) as real * m + m;
    }
  }

  lemma PaidGrows(rules: map<string, Rules>, s: Accounts, p: Pay)
    requires Succeeds(rules, s, p)
    ensures Lifetime(Happen(rules, s, Paid(p)).history, KeyOf(p)) == Lifetime(s.history, KeyOf(p)) + p.amount.amount
  {
    var s' := Happen(rules, s, Paid(p));
    hide Succeeds, RecordSpend;
    assert s'.history == s.history + [Spent(KeyOf(p), p.amount.amount, p.day)];
    assert s'.history[..|s.history|] == s.history;
  }

  /** A pay in another currency succeeds every time, and its amounts pile up. */
  lemma {:induction false} PilesUp(rules: map<string, Rules>, p: Pay, n: nat)
    requires p.amount.currency != USDC && Succeeds(rules, Accounts(map[], []), p)
    ensures Lifetime(Run(rules, Times(Paid(p), n)).history, KeyOf(p)) == Pile(p.amount.amount, n)
    decreases n
  {
    hide *;
    if n == 0 {
      NothingPiled(rules, p);
    } else {
      PilesUp(rules, p, n - 1);
      TimesRun(rules, Paid(p), n - 1);
      OneMore(p.amount.amount, n - 1);
      SucceedsForgetful(rules, Run(rules, Times(Paid(p), n - 1)), p);
      PaidGrows(rules, Run(rules, Times(Paid(p), n - 1)), p);
    }
  }

  lemma OneMore(m: real, n: nat)
    ensures Pile(m, n + 1) == Pile(m, n) + m
  {
  }

  lemma NothingPiled(rules: map<string, Rules>, p: Pay)
    ensures Lifetime(Run(rules, Times(Paid(p), 0)).history, KeyOf(p)) == Pile(p.amount.amount, 0)
  {
    assert Times(Paid(p), 0) == [];
  }

  lemma TimesRun(rules: map<string, Rules>, e: Event, n: nat)
    ensures Run(rules, Times(e, n + 1)) == Happen(rules, Run(rules, Times(e, n)), e)
    ensures Times(e, n + 1)[..n] == Times(e, n) && InOrder(Times(e, n + 1))
  {
    assert Times(e, n + 1)[..n] == Times(e, n);
    hide Happen;
  }

  lemma Exceeds(m: real, cap: real) returns (n: nat)
    requires m > 0.0
    ensures n > 0 && Pile(m, n) > cap
  {
    var x := cap / m;
    n := if x < 0.0 then 1 else x.Floor + 1;
    assert n as real > x;
    assert x * m == cap;
    assert (n as real - x) * m > 0.0;
    PileIs(m, n);
  }

  lemma RepeatedPastCap(rules: map<string, Rules>, p: Pay)
    requires p.amount.currency != USDC && Succeeds(rules, Accounts(map[], []), p) && p.payer in rules
    ensures !Capped(rules, p.payer, p.amount.currency)
  {
    PositiveWhenPaid(rules, Accounts(map[], []), p);
    var n := Exceeds(p.amount.amount, rules[p.payer].totalMax.amount);
    var events := Times(Paid(p), n);
    PilesUp(rules, p, n);
    TimesRun(rules, Paid(p), n - 1);
    SucceedsForgetful(rules, Run(rules, events[..n - 1]), p);
    hide Succeeds, Run, Happen, InOrder, Pile, Lifetime, OnDay, Times;
    assert |events| == n && events[..n - 1 + 1] == events && events[n - 1] == Paid(p);
    assert Pays(rules, p.payer, p.amount.currency, events, n - 1);
    assert !WithinBoth(rules[p.payer], Run(rules, events[..n - 1 + 1]), events[n - 1].pay);
  }

  /** For every set of delegations and every payer: the caps of its delegation hold over all runs if and
    only if the currency is USDC, or the delegation's own caps and lists let nothing through in that
    currency at all. In any other currency a pay that succeeds once can be repeated past every cap. */
  lemma CapsEnforcedIff(rules: map<string, Rules>, payer: string, c: string)
    requires payer in rules
    ensures Capped(rules, payer, c) <==> c == USDC || !LetsThrough(rules[payer], c)
  {
    CanPayIff(rules, payer, c);
    hide LetsThrough;
    if c == USDC {
      forall events: seq<Event>, n: nat | Pays(rules, payer, c, events, n)
        ensures WithinBoth(rules[payer], Run(rules, events[..n + 1]), events[n].pay)
      {
        EveryPayWithinCaps(rules, events, n);
      }
    } else if CanPay(rules, payer, c) {
      var p: Pay :| p.payer == payer && p.amount.currency == c && Succeeds(rules, Accounts(map[], []), p);
      RepeatedPastCap(rules, p);
    } else {
      forall events: seq<Event>, n: nat | Pays(rules, payer, c, events, n) ensures false {
        SucceedsForgetful(rules, Run(rules, events[..n]), events[n].pay);
      }
    }
  }

  /** A delegation in currency `c` that allows any listing and counterparty, up to `cap`. */
  function CapOf(c: string, cap: real): Rules {
    var m := Money(cap, c);
    Rules(m, m, m, ["*"], [], ["*"], [], m, false, false, false, false, m, false)
  }

  lemma StarLists()
    ensures ListsSomething(["*"], [])
  {
    var allow := ["*"];
    assert allow[0] == "*";
  }

  /** An instance: whatever the cap, a payer whose delegation names another currency can exceed it. */
  lemma OtherCurrencyUncapped(payer: string, c: string, cap: real)
    requires c != USDC && cap > 0.0
    ensures !Capped(map[payer := CapOf(c, cap)], payer, c)
  {
    var rules := map[payer := CapOf(c, cap)];
    StarLists();
    hide ListsSomething;
    CapsEnforcedIff(rules, payer, c);
  }
}
