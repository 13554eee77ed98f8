/** Holds that no record names: no escrow call ever touches them. */
module EscrowLeftovers {
  import opened Amounts
  import opened Outcomes
  import opened Escrow
  import opened EscrowRuns
  import W = Wallet

  ghost predicate NamedBy(r: Record, h: nat) {
    r.stakeHold == Some(h) || r.bondHold == Some(h) || exists mid :: mid in r.holdIds && r.holdIds[mid] == h
  }

  ghost predicate Unnamed(s: System, h: nat) {
    h < |s.wallet.holds| && forall id | id in s.escrows :: !NamedBy(s.escrows[id], h)
  }

  /** Hold `h` is as it was, and still no record names it. */
  ghost predicate Spared(s: System, s': System, h: nat) {
    Unnamed(s, h) && Unnamed(s', h) && |s.wallet.holds| <= |s'.wallet.holds| && s'.wallet.holds[h] == s.wallet.holds[h]
  }

  lemma SparedTwice(s: System, s1: System, s2: System, h: nat)
    requires Spared(s, s1, h) && Spared(s1, s2, h)
    ensures Spared(s, s2, h)
  {
    hide Unnamed;
  }

  lemma RecordSpared(s: System, id: EscrowId, r: Record, h: nat)
    requires Unnamed(s, h) && !NamedBy(r, h)
    ensures Spared(s, Put(s, id, r), h)
  {
    hide NamedBy;
  }

  /** Settling another hold. */
  lemma SettlementSpares(s: System, w: W.State, h: nat)
    requires Unnamed(s, h) && |w.holds| >= |s.wallet.holds| && w.holds[h] == s.wallet.holds[h]
    ensures Spared(s, s.(wallet := w), h)
  {
    hide NamedBy;
  }

  lemma StakeSpares(s: System, id: EscrowId, h: nat)
    requires Unnamed(s, h) && id in s.escrows
    ensures Spared(s, MaybeReleaseStake(s, id).state, h) && id in MaybeReleaseStake(s, id).state.escrows
  {
    assert !NamedBy(s.escrows[id], h);
    hide AllSettled, W.AddAvailable, W.AddHeld;
  }

  lemma CaptureSpares(s: System, id: EscrowId, m: Milestone, now: int, h: nat)
    requires Unnamed(s, h) && id in s.escrows
    ensures Spared(s, CaptureMilestone(s, id, m, now).state, h) && id in CaptureMilestone(s, id, m, now).state.escrows
  {
    var r := s.escrows[id];
    assert !NamedBy(r, h);
    hide MaybeReleaseStake, W.AddAvailable, W.AddHeld, RecordCapture;
    if m.id in r.holdIds && m.id in r.milestones && !StateOf(r, m.id).Released? && !StateOf(r, m.id).Accepted? {
      var o := OnWallet(s, W.Capture(s.wallet, r.holdIds[m.id], r.contract.payee));
      if o.Done? {
        var s1 := Put(o.state, id, WithMilestone(r, m.id, MilestoneState.Released));
        var o2 := RecordCapture(s1, r.contract.PayerKey(), m.amount, now);
        SpendsSpare(s1, r.contract.PayerKey(), m.amount, now);
        if o2.Done? {
          var s2 := IssueReceipt(o2.state, r.contract, m, WorkDelivered);
          StakeSpares(s2, id, h);
        }
      }
    }
  }

  lemma SpendsSpare(s: System, k: W.Key, amount: real, now: int)
    ensures var s' := RecordCapture(s, k, amount, now).state; s'.wallet == s.wallet && s'.escrows == s.escrows
  {
  }

  lemma RefundSpares(s: System, id: EscrowId, m: Milestone, outcome: RefundOutcome, h: nat)
    requires Unnamed(s, h) && id in s.escrows
    ensures Spared(s, RefundMilestone(s, id, m, outcome).state, h) && id in RefundMilestone(s, id, m, outcome).state.escrows
  {
    var r := s.escrows[id];
    assert !NamedBy(r, h);
    hide MaybeReleaseStake, W.AddAvailable, W.AddHeld;
    if m.id in r.holdIds && m.id in r.milestones && !StateOf(r, m.id).Refunded? {
      var o := OnWallet(s, W.Release(s.wallet, r.holdIds[m.id]));
      if o.Done? {
        StakeSpares(IssueReceipt(Put(o.state, id, WithMilestone(r, m.id, MilestoneState.Refunded)), r.contract, m, outcome), id, h);
      }
    }
  }

  lemma SlashSpares(s: System, id: EscrowId, m: Milestone, h: nat)
    requires Unnamed(s, h) && id in s.escrows
    ensures Spared(s, SlashProviderStake(s, id, m).state, h) && id in SlashProviderStake(s, id, m).state.escrows
  {
    assert !NamedBy(s.escrows[id], h);
    hide SlashBurnFraction, W.AddAvailable, W.AddHeld;
  }

  lemma BondSpares(s: System, id: EscrowId, returned: bool, winner: Did, h: nat)
    requires Unnamed(s, h) && id in s.escrows
    ensures Spared(s, CloseBond(s, id, returned, winner).state, h) && id in CloseBond(s, id, returned, winner).state.escrows
  {
    assert !NamedBy(s.escrows[id], h);
    hide W.AddAvailable, W.AddHeld;
  }

  lemma OneSpares(s: System, id: EscrowId, m: Milestone, how: Settling, now: int, h: nat)
    requires Unnamed(s, h) && id in s.escrows
    ensures Spared(s, SettleOne(s, id, m, how, now).state, h) && id in SettleOne(s, id, m, how, now).state.escrows
  {
    hide Spared, Unnamed, CaptureMilestone, RefundMilestone;
    CaptureSpares(s, id, m, now, h);
    RefundSpares(s, id, m, WorkRefunded, h);
  }

  lemma NothingSpares(s: System, h: nat)
    requires Unnamed(s, h)
    ensures Spared(s, s, h)
  {
  }

  lemma SparedUnnamed(s: System, s': System, h: nat)
    requires Spared(s, s', h)
    ensures Unnamed(s, h) && Unnamed(s', h)
  {
  }

  lemma {:induction false} AllSpare(s: System, id: EscrowId, ms: seq<Milestone>, how: Settling, now: int, h: nat)
    requires Unnamed(s, h) && id in s.escrows
    ensures Spared(s, SettleAll(s, id, ms, how, now).state, h)
    decreases |ms|
  {
    hide Spared, Unnamed, SettleOne;
    if ms == [] {
      NothingSpares(s, h);
    } else {
      OneSpares(s, id, ms[0], how, now, h);
      var o := SettleOne(s, id, ms[0], how, now);
      if o.Done? {
        SparedUnnamed(s, o.state, h);
        AllSpare(o.state, id, ms[1..], how, now, h);
        SparedTwice(s, o.state, SettleAll(o.state, id, ms[1..], how, now).state, h);
      }
    }
  }

  lemma {:induction false} ListedSpare(s: System, id: EscrowId, mids: seq<MilestoneId>, how: Settling, now: int, h: nat)
    requires Unnamed(s, h) && id in s.escrows
    ensures Spared(s, SettleListed(s, id, mids, how, now).state, h)
    decreases |mids|
  {
    hide Spared, Unnamed, SettleOne, Find, StateOf;
    NothingSpares(s, h);
    if mids != [] {
      if !StateOf(s.escrows[id], mids[0]).Unsettled() {
        ListedSpare(s, id, mids[1..], how, now, h);
      } else if Find(s.escrows[id].contract.milestones, mids[0]).Some? {
        var m := Find(s.escrows[id].contract.milestones, mids[0]).value;
        OneSpares(s, id, m, how, now, h);
        var o := SettleOne(s, id, m, how, now);
        if o.Done? {
          SparedUnnamed(s, o.state, h);
          ListedSpare(o.state, id, mids[1..], how, now, h);
          SparedTwice(s, o.state, SettleListed(o.state, id, mids[1..], how, now).state, h);
        }
      }
    }
  }

  lemma {:induction false} RestSpares(s: System, id: EscrowId, ms: seq<Milestone>, except: Option<MilestoneId>, h: nat)
    requires Unnamed(s, h) && id in s.escrows
    ensures Spared(s, RefundRest(s, id, ms, except).state, h)
    decreases |ms|
  {
    hide Spared, Unnamed, RefundMilestone, StateOf;
    NothingSpares(s, h);
    if ms != [] {
      if except == Some(ms[0].id) || !StateOf(s.escrows[id], ms[0].id).Unsettled() {
        RestSpares(s, id, ms[1..], except, h);
      } else {
        RefundSpares(s, id, ms[0], WorkRefunded, h);
        var o := RefundMilestone(s, id, ms[0], WorkRefunded);
        if o.Done? {
          SparedUnnamed(s, o.state, h);
          RestSpares(o.state, id, ms[1..], except, h);
          SparedTwice(s, o.state, RefundRest(o.state, id, ms[1..], except).state, h);
        }
      }
    }
  }

  /** Rewriting a record without touching the holds it names. */
  lemma RewriteSpares(s: System, id: EscrowId, r': Record, h: nat)
    requires Unnamed(s, h) && id in s.escrows
    requires var r := s.escrows[id]; r'.holdIds == r.holdIds && r'.stakeHold == r.stakeHold && r'.bondHold == r.bondHold
    ensures Spared(s, Put(s, id, r'), h)
  {
    assert !NamedBy(s.escrows[id], h);
    RecordSpared(s, id, r', h);
  }

  lemma RecomputeSpares(s: System, id: EscrowId, h: nat)
    requires Unnamed(s, h) && id in s.escrows
    ensures Spared(s, Recomputed(s, id), h)
  {
    RewriteSpares(s, id, RecomputeState(s.escrows[id]), h);
  }

  // ---- the calls --------------------------------------------------------------------------

  lemma DeliverSpares(s: System, id: EscrowId, provider: Did, mid: MilestoneId, hash: string, now: int, h: nat)
    requires Unnamed(s, h)
    ensures Spared(s, Deliver(s, id, provider, mid, hash, now).state, h)
  {
    NothingSpares(s, h);
    if id in s.escrows && Find(s.escrows[id].contract.milestones, mid).Some? {
      var r := s.escrows[id];
      var m := Find(r.contract.milestones, mid).value;
      var s1 := MarkDelivered(s, id, mid, hash, now);
      RewriteSpares(s, id, s1.escrows[id], h);
      hide Spared, Unnamed, CaptureMilestone, RefundMilestone, ObjectivePass, Recomputed, Find;
      SparedUnnamed(s, s1, h);
      NothingSpares(s1, h);
      CaptureSpares(s1, id, m, now, h);
      RefundSpares(s1, id, m, WorkRefunded, h);
      var o := JudgeDelivery(s1, id, m, hash, now);
      assert Spared(s1, o.state, h) && id in o.state.escrows;
      hide JudgeDelivery;
      SparedUnnamed(s1, o.state, h);
      SparedTwice(s, s1, o.state, h);
      RecomputeSpares(o.state, id, h);
      SparedTwice(s, o.state, Recomputed(o.state, id), h);
    }
  }

  lemma AcceptSpares(s: System, id: EscrowId, payer: Did, mid: MilestoneId, now: int, h: nat)
    requires Unnamed(s, h)
    ensures Spared(s, Accept(s, id, payer, mid, now).state, h)
  {
    NothingSpares(s, h);
    if id in s.escrows && Find(s.escrows[id].contract.milestones, mid).Some? {
      hide Spared, Unnamed, CaptureMilestone, Recomputed, Find;
      var m := Find(s.escrows[id].contract.milestones, mid).value;
      CaptureSpares(s, id, m, now, h);
      var s1 := CaptureMilestone(s, id, m, now).state;
      SparedUnnamed(s, s1, h);
      RecomputeSpares(s1, id, h);
      SparedTwice(s, s1, Recomputed(s1, id), h);
    }
  }

  lemma BeginSpares(s: System, id: EscrowId, disputer: Did, mid: MilestoneId, bond: Option<Money>, h: nat)
    requires Unnamed(s, h) && id in s.escrows && mid in s.escrows[id].milestones
    ensures Spared(s, BeginDispute(s, id, disputer, mid, bond).state, h) && id in BeginDispute(s, id, disputer, mid, bond).state.escrows
  {
    assert !NamedBy(s.escrows[id], h);
    hide W.AddAvailable, W.AddHeld;
  }

  lemma ConcludeSpares(s: System, id: EscrowId, h: nat)
    requires Unnamed(s, h) && id in s.escrows
    ensures Spared(s, Conclude(s, id), h)
  {
    var s1 := Put(s, id, s.escrows[id].(state := EscrowState.Resolved, disputer := None));
    RewriteSpares(s, id, s1.escrows[id], h);
    RecomputeSpares(s1, id, h);
    SparedTwice(s, s1, Recomputed(s1, id), h);
  }

  lemma RejectSpares(s: System, id: EscrowId, m: Milestone, now: int, h: nat)
    requires Unnamed(s, h) && id in s.escrows
    ensures Spared(s, DisputeFails(s, id, m, now).state, h) && id in DisputeFails(s, id, m, now).state.escrows
  {
    hide Spared, Unnamed, CaptureMilestone, CloseBond;
    CaptureSpares(s, id, m, now, h);
    var s1 := CaptureMilestone(s, id, m, now).state;
    SparedUnnamed(s, s1, h);
    BondSpares(s1, id, false, s1.escrows[id].contract.payee, h);
    SparedTwice(s, s1, CloseBond(s1, id, false, s1.escrows[id].contract.payee).state, h);
  }

  lemma UpholdSpares(s: System, id: EscrowId, m: Milestone, h: nat)
    requires Unnamed(s, h) && id in s.escrows
    ensures Spared(s, DisputeHolds(s, id, m).state, h) && id in DisputeHolds(s, id, m).state.escrows
  {
    hide Spared, Unnamed, SlashProviderStake, RefundMilestone, CloseBond;
    SlashSpares(s, id, m, h);
    var s1 := SlashProviderStake(s, id, m).state;
    SparedUnnamed(s, s1, h);
    RefundSpares(s1, id, m, WorkDisputed, h);
    var s2 := RefundMilestone(s1, id, m, WorkDisputed).state;
    SparedUnnamed(s1, s2, h);
    SparedTwice(s, s1, s2, h);
    BondSpares(s2, id, true, s2.escrows[id].contract.payee, h);
    SparedTwice(s, s2, CloseBond(s2, id, true, s2.escrows[id].contract.payee).state, h);
  }

  lemma DecideSpares(s: System, id: EscrowId, disputer: Did, m: Milestone, bond: Option<Money>, now: int, h: nat)
    requires Unnamed(s, h) && id in s.escrows && m.id in s.escrows[id].milestones
    ensures Spared(s, DecideDispute(s, id, disputer, m, bond, now).state, h)
  {
    hide Spared, Unnamed, BeginDispute, DisputeFails, DisputeHolds, Conclude, VerdictOf;
    BeginSpares(s, id, disputer, m.id, bond, h);
    var s1 := BeginDispute(s, id, disputer, m.id, bond).state;
    SparedUnnamed(s, s1, h);
    RewriteSpares(s1, id, s1.escrows[id].(escalation := Some(DisputeRuling(m.id, disputer))), h);
    SparedTwice(s, s1, Put(s1, id, s1.escrows[id].(escalation := Some(DisputeRuling(m.id, disputer)))), h);
    RejectSpares(s1, id, m, now, h);
    UpholdSpares(s1, id, m, h);
    DecidedSpares(s, s1, DisputeFails(s1, id, m, now).state, id, h);
    DecidedSpares(s, s1, DisputeHolds(s1, id, m).state, id, h);
  }

  lemma DecidedSpares(s: System, s1: System, s2: System, id: EscrowId, h: nat)
    requires Spared(s, s1, h) && Spared(s1, s2, h) && id in s2.escrows
    ensures Spared(s, s2, h) && Spared(s, Conclude(s2, id), h)
  {
    SparedUnnamed(s1, s2, h);
    SparedTwice(s, s1, s2, h);
    ConcludeSpares(s2, id, h);
    SparedTwice(s, s2, Conclude(s2, id), h);
  }

  lemma DisputeSpares(s: System, id: EscrowId, disputer: Did, mid: MilestoneId, bond: Option<Money>, now: int, h: nat)
    requires Unnamed(s, h)
    ensures Spared(s, Dispute(s, id, disputer, mid, bond, now).state, h)
  {
    NothingSpares(s, h);
    hide Spared, Unnamed, DecideDispute, Find, WindowClosed;
    if id in s.escrows && Find(s.escrows[id].contract.milestones, mid).Some? && mid in s.escrows[id].milestones {
      DecideSpares(s, id, disputer, Find(s.escrows[id].contract.milestones, mid).value, bond, now, h);
    }
  }

  lemma TimeoutSpares(s: System, id: EscrowId, now: int, h: nat)
    requires Unnamed(s, h)
    ensures Spared(s, OnTimeout(s, id, now).state, h)
  {
    NothingSpares(s, h);
    if id in s.escrows {
      hide Spared, Unnamed, SettleAll, UnsettledOf, Recomputed, Ids;
      var r := s.escrows[id];
      var pending := UnsettledOf(r, r.contract.milestones);
      RewriteSpares(s, id, r.(state := EscrowState.Disputed, escalation := Some(TimeoutRuling(Ids(pending)))), h);
      var how := if r.contract.onTimeout == RefundPayer then Refund else Pay;
      AllSpare(s, id, pending, how, now, h);
      var s1 := SettleAll(s, id, pending, how, now).state;
      SparedUnnamed(s, s1, h);
      var s2 := Put(s1, id, s1.escrows[id].(state := EscrowState.TimedOut));
      RewriteSpares(s1, id, s2.escrows[id], h);
      SparedUnnamed(s1, s2, h);
      RecomputeSpares(s2, id, h);
      SparedTwice(s, s1, s2, h);
      SparedTwice(s, s2, Recomputed(s2, id), h);
    }
  }

  lemma RuleSpares(s: System, id: EscrowId, m: Milestone, forProvider: bool, now: int, h: nat)
    requires Unnamed(s, h) && id in s.escrows
    ensures Spared(s, RuleOnMilestone(s, id, m, forProvider, now).state, h) && id in RuleOnMilestone(s, id, m, forProvider, now).state.escrows
  {
    hide Spared, Unnamed, CaptureMilestone, RefundMilestone, SlashProviderStake;
    CaptureSpares(s, id, m, now, h);
    SlashSpares(s, id, m, h);
    var s1 := SlashProviderStake(s, id, m).state;
    SparedUnnamed(s, s1, h);
    RefundSpares(s1, id, m, WorkDisputed, h);
    SparedTwice(s, s1, RefundMilestone(s1, id, m, WorkDisputed).state, h);
  }

  lemma DisputeRulingSpares(s: System, id: EscrowId, mid: MilestoneId, disputer: Did, upheld: bool, now: int, h: nat)
    requires Unnamed(s, h) && id in s.escrows
    ensures var o := SettleDisputeRuling(s, id, mid, disputer, upheld, now); Spared(s, o.state, h) && (o.Done? ==> id in o.state.escrows)
  {
    NothingSpares(s, h);
    var c := s.escrows[id].contract;
    if Find(c.milestones, mid).Some? {
      var m, p, winner := Find(c.milestones, mid).value, ProviderWins(c, disputer, upheld), c.OtherParty(disputer);
      hide Spared, Unnamed, RuleOnMilestone, CloseBond, RefundRest, ProviderWins, Find;
      RuleSpares(s, id, m, p, now, h);
      var s1 := RuleOnMilestone(s, id, m, p, now).state;
      SparedUnnamed(s, s1, h);
      BondSpares(s1, id, upheld, winner, h);
      var s2 := CloseBond(s1, id, upheld, winner).state;
      SparedUnnamed(s1, s2, h);
      SparedTwice(s, s1, s2, h);
      RestSpares(s2, id, c.milestones, Some(mid), h);
      SparedTwice(s, s2, RefundRest(s2, id, c.milestones, Some(mid)).state, h);
    }
  }

  lemma TimeoutRulingSpares(s: System, id: EscrowId, mids: seq<MilestoneId>, upheld: bool, now: int, h: nat)
    requires Unnamed(s, h) && id in s.escrows
    ensures var o := SettleTimeoutRuling(s, id, mids, upheld, now); Spared(s, o.state, h) && id in o.state.escrows
  {
    hide Spared, Unnamed, SettleListed, RefundRest;
    var how := if upheld then Pay else Refund;
    ListedSpare(s, id, mids, how, now, h);
    var s1 := SettleListed(s, id, mids, how, now).state;
    SparedUnnamed(s, s1, h);
    RestSpares(s1, id, s1.escrows[id].contract.milestones, None, h);
    SparedTwice(s, s1, RefundRest(s1, id, s1.escrows[id].contract.milestones, None).state, h);
  }

  lemma CloseSpares(s: System, s1: System, id: EscrowId, final: EscrowState, h: nat)
    requires Spared(s, s1, h) && id in s1.escrows
    ensures Spared(s, CloseEscalation(s1, id, final), h)
  {
    SparedUnnamed(s, s1, h);
    RewriteSpares(s1, id, s1.escrows[id].(state := final, disputer := None, escalation := None), h);
    SparedTwice(s, s1, CloseEscalation(s1, id, final), h);
  }

  lemma ResolveSpares(s: System, id: EscrowId, caller: Did, ruling: Option<bool>, now: int, h: nat)
    requires Unnamed(s, h)
    ensures Spared(s, ResolveEscalation(s, id, caller, ruling, now).state, h)
  {
    NothingSpares(s, h);
    hide Spared, Unnamed, SettleDisputeRuling, SettleTimeoutRuling, CloseEscalation;
    if id in s.escrows && s.escrows[id].escalation.Some? && ruling.Some? {
      match s.escrows[id].escalation.value
      case DisputeRuling(mid, disputer) =>
        DisputeRulingSpares(s, id, mid, disputer, ruling.value, now, h);
        var o := SettleDisputeRuling(s, id, mid, disputer, ruling.value, now);
        if o.Done? { CloseSpares(s, o.state, id, EscrowState.Resolved, h); }
      case TimeoutRuling(mids) =>
        TimeoutRulingSpares(s, id, mids, ruling.value, now, h);
        CloseSpares(s, SettleTimeoutRuling(s, id, mids, ruling.value, now).state, id, EscrowState.TimedOut, h);
    }
  }

  /** Funding takes new holds only. */
  lemma {:induction false} FundingSpares(f: Funding, c: Contract, ms: seq<Milestone>, h: nat)
    requires h < |f.wallet.holds| && forall mid | mid in f.holdIds :: f.holdIds[mid] != h
    ensures var g := FundAll(f, c, ms).state;
            && |f.wallet.holds| <= |g.wallet.holds| && g.wallet.holds[h] == f.wallet.holds[h]
            && forall mid | mid in g.holdIds :: g.holdIds[mid] != h
    decreases |ms|
  {
    if ms != [] {
      var o := W.TakeHold(f.wallet, c.PayerKey(), ms[0].amount, W.FundRef(c.escrowId, ms[0].id));
      assert |f.wallet.holds| <= |o.state.holds| && o.state.holds[h] == f.wallet.holds[h];
      hide W.TakeHold;
      if o.Done? {
        FundingSpares(Funding(o.state, f.holdIds[ms[0].id := |f.wallet.holds|],
                              f.milestones[ms[0].id := Runtime(Pending, None, None)]), c, ms[1..], h);
      }
    }
  }

  lemma OpenSpares(s: System, c: Contract, now: int, h: nat)
    requires Unnamed(s, h)
    ensures Spared(s, OpenEscrow(s, c, now).state, h)
  {
    FundingSpares(Start(s), c, c.milestones, h);
    hide FundAll, W.AddAvailable, W.AddHeld, AmountSum;
  }

  /** Another user of the wallet who does not settle this hold. */
  lemma WalletSpares(s: System, op: W.Op, h: nat)
    requires Unnamed(s, h) && (op.OpRelease? || op.OpCapture? || op.OpForfeit? ==> op.id != h)
    ensures Spared(s, OnWallet(s, W.Apply(s.wallet, op)).state, h)
  {
    var w := W.Apply(s.wallet, op).state;
    assert |w.holds| >= |s.wallet.holds| && w.holds[h] == s.wallet.holds[h];
    hide W.Apply, Spared, Unnamed;
    SettlementSpares(s, w, h);
  }

  predicate LeavesAlone(call: Call, h: nat) {
    call.WalletCall? && (call.op.OpRelease? || call.op.OpCapture? || call.op.OpForfeit?) ==> call.op.id != h
  }

  lemma CallSpares(s: System, call: Call, h: nat)
    requires Unnamed(s, h) && LeavesAlone(call, h)
    ensures Spared(s, Apply(s, call).state, h)
  {
    hide Spared, Unnamed;
    match call
    case OpenCall(c, now) => OpenSpares(s, c, now, h);
    case DeliverCall(id, provider, mid, hash, now) => DeliverSpares(s, id, provider, mid, hash, now, h);
    case AcceptCall(id, payer, mid, now) => AcceptSpares(s, id, payer, mid, now, h);
    case DisputeCall(id, disputer, mid, bond, now) => DisputeSpares(s, id, disputer, mid, bond, now, h);
    case TimeoutCall(id, now) => TimeoutSpares(s, id, now, h);
    case ResolveCall(id, caller, ruling, now) => ResolveSpares(s, id, caller, ruling, now, h);
    case WalletCall(op) => WalletSpares(s, op, h);
  }

  /** Whatever the parties call, in any run, a hold that no record names stays as it is: no escrow call can
    ever settle it. */
  lemma {:induction false} UnnamedForever(s: System, calls: seq<Call>, h: nat)
    requires Unnamed(s, h) && forall n | 0 <= n < |calls| :: LeavesAlone(calls[n], h)
    ensures Spared(s, Run(s, calls), h)
    decreases |calls|
  {
    hide Spared, Unnamed, Apply, LeavesAlone;
    if calls == [] {
      NothingSpares(s, h);
    } else {
      var s1 := Apply(s, calls[0]).state;
      CallSpares(s, calls[0], h);
      SparedUnnamed(s, s1, h);
      assert forall n | 0 <= n < |calls[1..]| :: calls[1..][n] == calls[n + 1];
      UnnamedForever(s1, calls[1..], h);
      SparedTwice(s, s1, Run(s1, calls[1..]), h);
    }
  }
}
