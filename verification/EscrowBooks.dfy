/** What the calls of the escrow service write into the books beside the money: the kind of each receipt,
  and the day on which a payment counts as spent. */
module EscrowBooks {
  import opened Amounts
  import opened Outcomes
  import opened Escrow
  import opened EscrowRuns
  import opened Spends
  import W = Wallet

  // ---- the day of a payment ---------------------------------------------------------------

  /** Whatever was added to anybody's lifetime spends was spent on `day`. */
  ghost predicate BookedOn(b: Book, b': Book, day: int) {
    forall k :: DailySpent(b', k, day) - DailySpent(b, k, day) == TotalSpent(b', k) - TotalSpent(b, k)
  }

  // ---- the kind of a receipt --------------------------------------------------------------

  /** Receipts are only added, and of those that say the work was not delivered, the ones for `disputed`
    say it was disputed and the others that it was refunded. */
  ghost predicate Receipts(rs: seq<Receipt>, rs': seq<Receipt>, disputed: Option<MilestoneId>) {
    && rs <= rs'
    && forall i | |rs| <= i < |rs'| && rs'[i].outcome != WorkDelivered ::
         rs'[i].outcome == WorkDisputed <==> disputed == Some(rs'[i].milestoneId)
  }

  /** Spends booked on `day` and receipts of the right kind. */
  ghost predicate Writes(s: System, s': System, disputed: Option<MilestoneId>, day: int) {
    BookedOn(s.spends, s'.spends, day) && Receipts(s.receipts, s'.receipts, disputed)
  }

  lemma WritesTwice(s0: System, s1: System, s2: System, disputed: Option<MilestoneId>, day: int)
    requires Writes(s0, s1, disputed, day) && Writes(s1, s2, disputed, day)
    ensures Writes(s0, s2, disputed, day)
  {
    var a, b := s0.receipts, s1.receipts;
    assert forall i | 0 <= i < |b| :: s2.receipts[i] == b[i];
    hide DailySpent, TotalSpent;
  }

  lemma Quiet(s: System, s': System, disputed: Option<MilestoneId>, day: int)
    requires s'.spends == s.spends && s'.receipts == s.receipts
    ensures Writes(s, s', disputed, day)
  {
    hide DailySpent, TotalSpent;
  }

  lemma StakeWrites(s: System, id: EscrowId, disputed: Option<MilestoneId>, day: int)
    requires id in s.escrows
    ensures Writes(s, MaybeReleaseStake(s, id).state, disputed, day)
  {
    hide AllSettled, W.Release;
    Quiet(s, MaybeReleaseStake(s, id).state, disputed, day);
  }

  lemma OneReceipt(s: System, s': System, x: Receipt, disputed: Option<MilestoneId>, day: int)
    requires BookedOn(s.spends, s'.spends, day) && s'.receipts == s.receipts + [x]
    requires x.outcome != WorkDelivered ==> (x.outcome == WorkDisputed <==> disputed == Some(x.milestoneId))
    ensures Writes(s, s', disputed, day)
  {
    hide BookedOn;
  }

  lemma SpendBooked(b: Book, k: W.Key, amount: real, day: int)
    ensures BookedOn(b, RecordSpend(b, k, amount, day).state, day)
  {
  }

  lemma CaptureWrites(s: System, id: EscrowId, m: Milestone, disputed: Option<MilestoneId>, now: int)
    requires id in s.escrows
    ensures Writes(s, CaptureMilestone(s, id, m, now).state, disputed, now / 86_400_000)
  {
    var day := now / 86_400_000;
    var r := s.escrows[id];
    Quiet(s, s, disputed, day);
    if m.id in r.holdIds && m.id in r.milestones && !StateOf(r, m.id).Released? && !StateOf(r, m.id).Accepted? {
      var o := W.Capture(s.wallet, r.holdIds[m.id], r.contract.payee);
      SpendBooked(s.spends, r.contract.PayerKey(), m.amount, day);
      hide StateOf, W.Capture, MaybeReleaseStake, BookedOn, RecordSpend, Receipts;
      var s1 := Put(s.(wallet := o.state), id, WithMilestone(r, m.id, MilestoneState.Released));
      Quiet(s, s1, disputed, day);
      var p := RecordCapture(s1, r.contract.PayerKey(), m.amount, now);
      Quiet(s, s.(wallet := o.state), disputed, day);
      SpendsOnly(s, p.state, disputed, day);
      var s2 := IssueReceipt(p.state, r.contract, m, WorkDelivered);
      OneReceipt(s, s2, s2.receipts[|s.receipts|], disputed, day);
      StakeWrites(s2, id, disputed, day);
      WritesTwice(s, s2, MaybeReleaseStake(s2, id).state, disputed, day);
      hide Writes;
    }
  }

  lemma SpendsOnly(s: System, s': System, disputed: Option<MilestoneId>, day: int)
    requires BookedOn(s.spends, s'.spends, day) && s'.receipts == s.receipts
    ensures Writes(s, s', disputed, day)
  {
    hide BookedOn;
  }

  lemma RefundWrites(s: System, id: EscrowId, m: Milestone, outcome: RefundOutcome, disputed: Option<MilestoneId>, day: int)
    requires id in s.escrows && (outcome == WorkDisputed <==> disputed == Some(m.id))
    ensures Writes(s, RefundMilestone(s, id, m, outcome).state, disputed, day)
  {
    var r := s.escrows[id];
    Quiet(s, s, disputed, day);
    if m.id in r.holdIds && m.id in r.milestones && !StateOf(r, m.id).Refunded? {
      hide StateOf, W.Release, MaybeReleaseStake, BookedOn, Receipts;
      var o := W.Release(s.wallet, r.holdIds[m.id]);
      Quiet(s, s.(wallet := o.state), disputed, day);
      var s1 := Put(s.(wallet := o.state), id, WithMilestone(r, m.id, MilestoneState.Refunded));
      Quiet(s, s1, disputed, day);
      var s2 := IssueReceipt(s1, r.contract, m, outcome);
      OneReceipt(s, s2, s2.receipts[|s.receipts|], disputed, day);
      StakeWrites(s2, id, disputed, day);
      WritesTwice(s, s2, MaybeReleaseStake(s2, id).state, disputed, day);
      hide Writes;
    }
  }

  lemma SettleOneWrites(s: System, id: EscrowId, m: Milestone, how: Settling, now: int)
    requires id in s.escrows
    ensures Writes(s, SettleOne(s, id, m, how, now).state, None, now / 86_400_000) && id in SettleOne(s, id, m, how, now).state.escrows
  {
    SettleOneKeepsId(s, id, m, how, now);
    hide Writes, CaptureMilestone, RefundMilestone;
    if how == Pay { CaptureWrites(s, id, m, None, now); } else { RefundWrites(s, id, m, WorkRefunded, None, now / 86_400_000); }
  }

  lemma SettleOneKeepsId(s: System, id: EscrowId, m: Milestone, how: Settling, now: int)
    requires id in s.escrows
    ensures id in SettleOne(s, id, m, how, now).state.escrows
  {
    hide W.Capture, W.Release, RecordSpend, AllSettled;
  }

  lemma {:induction false} SettleAllWrites(s: System, id: EscrowId, ms: seq<Milestone>, how: Settling, now: int)
    requires id in s.escrows
    ensures Writes(s, SettleAll(s, id, ms, how, now).state, None, now / 86_400_000)
    decreases |ms|
  {
    Quiet(s, s, None, now / 86_400_000);
    hide Writes, SettleOne;
    if ms != [] {
      SettleOneWrites(s, id, ms[0], how, now);
      var o := SettleOne(s, id, ms[0], how, now);
      if o.Done? {
        SettleAllWrites(o.state, id, ms[1..], how, now);
        WritesTwice(s, o.state, SettleAll(o.state, id, ms[1..], how, now).state, None, now / 86_400_000);
      }
    }
  }

  lemma {:induction false} SettleListedWrites(s: System, id: EscrowId, mids: seq<MilestoneId>, how: Settling, now: int)
    requires id in s.escrows
    ensures Writes(s, SettleListed(s, id, mids, how, now).state, None, now / 86_400_000)
    decreases |mids|
  {
    Quiet(s, s, None, now / 86_400_000);
    hide Writes, SettleOne, StateOf, Find;
    if mids != [] {
      if !StateOf(s.escrows[id], mids[0]).Unsettled() {
        SettleListedWrites(s, id, mids[1..], how, now);
      } else if Find(s.escrows[id].contract.milestones, mids[0]).Some? {
        var m := Find(s.escrows[id].contract.milestones, mids[0]).value;
        SettleOneWrites(s, id, m, how, now);
        var o := SettleOne(s, id, m, how, now);
        if o.Done? {
          SettleListedWrites(o.state, id, mids[1..], how, now);
          WritesTwice(s, o.state, SettleListed(o.state, id, mids[1..], how, now).state, None, now / 86_400_000);
        }
      }
    }
  }

  lemma {:induction false} RefundRestWrites(s: System, id: EscrowId, ms: seq<Milestone>, except: Option<MilestoneId>, day: int)
    requires id in s.escrows
    ensures Writes(s, RefundRest(s, id, ms, except).state, except, day)
    decreases |ms|
  {
    Quiet(s, s, except, day);
    hide Writes, RefundMilestone, StateOf;
    if ms != [] {
      if except == Some(ms[0].id) || !StateOf(s.escrows[id], ms[0].id).Unsettled() {
        RefundRestWrites(s, id, ms[1..], except, day);
      } else {
        RefundWrites(s, id, ms[0], WorkRefunded, except, day);
        RefundKeepsId(s, id, ms[0], WorkRefunded);
        var o := RefundMilestone(s, id, ms[0], WorkRefunded);
        if o.Done? {
          RefundRestWrites(o.state, id, ms[1..], except, day);
          WritesTwice(s, o.state, RefundRest(o.state, id, ms[1..], except).state, except, day);
        }
      }
    }
  }

  lemma RefundKeepsId(s: System, id: EscrowId, m: Milestone, outcome: RefundOutcome)
    requires id in s.escrows
    ensures id in RefundMilestone(s, id, m, outcome).state.escrows
  {
    hide W.Release, AllSettled;
  }

  lemma CaptureKeepsId(s: System, id: EscrowId, m: Milestone, now: int)
    requires id in s.escrows
    ensures id in CaptureMilestone(s, id, m, now).state.escrows
  {
    hide W.Capture, W.Release, RecordSpend, AllSettled;
  }

  lemma SlashWrites(s: System, id: EscrowId, m: Milestone, disputed: Option<MilestoneId>, day: int)
    requires id in s.escrows
    ensures var s' := SlashProviderStake(s, id, m).state; Writes(s, s', disputed, day) && id in s'.escrows
  {
    hide W.Forfeit, SlashBurnFraction;
    Quiet(s, SlashProviderStake(s, id, m).state, disputed, day);
  }

  lemma BondWrites(s: System, id: EscrowId, returned: bool, winner: Did, disputed: Option<MilestoneId>, day: int)
    requires id in s.escrows
    ensures var s' := CloseBond(s, id, returned, winner).state; Writes(s, s', disputed, day) && id in s'.escrows
  {
    hide W.Forfeit, W.Release;
    Quiet(s, CloseBond(s, id, returned, winner).state, disputed, day);
  }

  lemma BeginWrites(s: System, id: EscrowId, disputer: Did, mid: MilestoneId, bond: Option<Money>, disputed: Option<MilestoneId>, day: int)
    requires id in s.escrows && mid in s.escrows[id].milestones
    ensures var s' := BeginDispute(s, id, disputer, mid, bond).state; Writes(s, s', disputed, day) && id in s'.escrows
  {
    hide W.TakeHold;
    Quiet(s, BeginDispute(s, id, disputer, mid, bond).state, disputed, day);
  }

  /** Slash and refund of the milestone a dispute or a ruling is about. */
  lemma LosesWrites(s: System, id: EscrowId, m: Milestone, day: int)
    requires id in s.escrows
    ensures var o1 := SlashProviderStake(s, id, m);
            && id in o1.state.escrows && Writes(s, o1.state, Some(m.id), day)
            && var o2 := RefundMilestone(o1.state, id, m, WorkDisputed);
               id in o2.state.escrows && Writes(s, o2.state, Some(m.id), day)
  {
    SlashWrites(s, id, m, Some(m.id), day);
    var s1 := SlashProviderStake(s, id, m).state;
    RefundWrites(s1, id, m, WorkDisputed, Some(m.id), day);
    RefundKeepsId(s1, id, m, WorkDisputed);
    hide SlashProviderStake, RefundMilestone;
    WritesTwice(s, s1, RefundMilestone(s1, id, m, WorkDisputed).state, Some(m.id), day);
    hide Writes;
  }

  lemma FailsWrites(s: System, id: EscrowId, m: Milestone, now: int)
    requires id in s.escrows
    ensures var s' := DisputeFails(s, id, m, now).state; Writes(s, s', Some(m.id), now / 86_400_000) && id in s'.escrows
  {
    var day := now / 86_400_000;
    CaptureWrites(s, id, m, Some(m.id), now);
    CaptureKeepsId(s, id, m, now);
    var o := CaptureMilestone(s, id, m, now);
    hide CaptureMilestone, CloseBond, Writes;
    if o.Done? {
      BondWrites(o.state, id, false, o.state.escrows[id].contract.payee, Some(m.id), day);
      WritesTwice(s, o.state, CloseBond(o.state, id, false, o.state.escrows[id].contract.payee).state, Some(m.id), day);
    }
  }

  lemma HoldsWrites(s: System, id: EscrowId, m: Milestone, day: int)
    requires id in s.escrows
    ensures var s' := DisputeHolds(s, id, m).state; Writes(s, s', Some(m.id), day) && id in s'.escrows
  {
    LosesWrites(s, id, m, day);
    var o1 := SlashProviderStake(s, id, m);
    var o2 := RefundMilestone(o1.state, id, m, WorkDisputed);
    hide SlashProviderStake, RefundMilestone, CloseBond, Writes;
    if o1.Done? && o2.Done? {
      BondWrites(o2.state, id, true, o2.state.escrows[id].contract.payee, Some(m.id), day);
      WritesTwice(s, o2.state, CloseBond(o2.state, id, true, o2.state.escrows[id].contract.payee).state, Some(m.id), day);
    }
  }

  lemma ConcludeWrites(s: System, s1: System, id: EscrowId, disputed: Option<MilestoneId>, day: int)
    requires id in s1.escrows && Writes(s, s1, disputed, day)
    ensures Writes(s, Conclude(s1, id), disputed, day)
  {
    hide AllSettled, AllReleased, BookedOn, Receipts;
  }

  lemma DecideWrites(s: System, id: EscrowId, disputer: Did, m: Milestone, bond: Option<Money>, now: int)
    requires id in s.escrows && m.id in s.escrows[id].milestones
    ensures Writes(s, DecideDispute(s, id, disputer, m, bond, now).state, Some(m.id), now / 86_400_000)
  {
    var day, d := now / 86_400_000, Some(m.id);
    BeginWrites(s, id, disputer, m.id, bond, d, day);
    var o := BeginDispute(s, id, disputer, m.id, bond);
    hide BeginDispute, DisputeFails, DisputeHolds, Conclude, Writes, VerdictOf;
    if o.Done? {
      match VerdictOf(s.escrows[id], m)
      case Subjective =>
        Quiet(o.state, Put(o.state, id, o.state.escrows[id].(escalation := Some(DisputeRuling(m.id, disputer)))), d, day);
        WritesTwice(s, o.state, Put(o.state, id, o.state.escrows[id].(escalation := Some(DisputeRuling(m.id, disputer)))), d, day);
      case Pass =>
        FailsWrites(o.state, id, m, now);
        WritesTwice(s, o.state, DisputeFails(o.state, id, m, now).state, d, day);
        ConcludeWrites(s, DisputeFails(o.state, id, m, now).state, id, d, day);
      case Fail =>
        HoldsWrites(o.state, id, m, day);
        WritesTwice(s, o.state, DisputeHolds(o.state, id, m).state, d, day);
        ConcludeWrites(s, DisputeHolds(o.state, id, m).state, id, d, day);
    }
  }

  lemma RuleWrites(s: System, id: EscrowId, m: Milestone, forProvider: bool, now: int)
    requires id in s.escrows
    ensures var s' := RuleOnMilestone(s, id, m, forProvider, now).state; Writes(s, s', Some(m.id), now / 86_400_000) && id in s'.escrows
  {
    if forProvider {
      CaptureWrites(s, id, m, Some(m.id), now);
      CaptureKeepsId(s, id, m, now);
    } else {
      LosesWrites(s, id, m, now / 86_400_000);
    }
    hide CaptureMilestone, SlashProviderStake, RefundMilestone, Writes;
  }

  lemma DisputeRulingWrites(s: System, id: EscrowId, mid: MilestoneId, disputer: Did, upheld: bool, now: int)
    requires id in s.escrows
    ensures Writes(s, SettleDisputeRuling(s, id, mid, disputer, upheld, now).state, Some(mid), now / 86_400_000)
  {
    var day, d := now / 86_400_000, Some(mid);
    var c := s.escrows[id].contract;
    Quiet(s, s, d, day);
    hide Writes, RuleOnMilestone, CloseBond, RefundRest, ProviderWins, Find;
    if Find(c.milestones, mid).Some? {
      var m := Find(c.milestones, mid).value;
      RuleWrites(s, id, m, ProviderWins(c, disputer, upheld), now);
      var o1 := RuleOnMilestone(s, id, m, ProviderWins(c, disputer, upheld), now);
      if o1.Done? {
        BondWrites(o1.state, id, upheld, c.OtherParty(disputer), d, day);
        var o2 := CloseBond(o1.state, id, upheld, c.OtherParty(disputer));
        WritesTwice(s, o1.state, o2.state, d, day);
        if o2.Done? {
          RefundRestWrites(o2.state, id, c.milestones, d, day);
          WritesTwice(s, o2.state, RefundRest(o2.state, id, c.milestones, d).state, d, day);
        }
      }
    }
  }

  lemma TimeoutRulingWrites(s: System, id: EscrowId, mids: seq<MilestoneId>, upheld: bool, now: int)
    requires id in s.escrows
    ensures Writes(s, SettleTimeoutRuling(s, id, mids, upheld, now).state, None, now / 86_400_000)
  {
    var how := if upheld then Pay else Refund;
    SettleListedWrites(s, id, mids, how, now);
    var o := SettleListed(s, id, mids, how, now);
    hide Writes, SettleListed, RefundRest;
    if o.Done? {
      RefundRestWrites(o.state, id, o.state.escrows[id].contract.milestones, None, now / 86_400_000);
      WritesTwice(s, o.state, RefundRest(o.state, id, o.state.escrows[id].contract.milestones, None).state, None, now / 86_400_000);
    }
  }

  // ---- every call -------------------------------------------------------------------------

  /** The milestone that a call disputes or rules on. */
  function DisputedBy(s: System, call: Call): Option<MilestoneId> {
    match call
    case DisputeCall(_, _, mid, _, _) => Some(mid)
    case ResolveCall(id, _, _, _) =>
      if id in s.escrows && s.escrows[id].escalation.Some? && s.escrows[id].escalation.value.DisputeRuling?
      then Some(s.escrows[id].escalation.value.milestoneId) else None
    case _ => None
  }

  function TimeOf(call: Call): int {
    if call.WalletCall? then 0 else call.now
  }

  lemma DeliverWrites(s: System, id: EscrowId, provider: Did, mid: MilestoneId, hash: string, now: int)
    ensures Writes(s, Deliver(s, id, provider, mid, hash, now).state, None, now / 86_400_000)
  {
    var day := now / 86_400_000;
    Quiet(s, s, None, day);
    if id in s.escrows {
      var r := s.escrows[id];
      var s1 := MarkDelivered(s, id, mid, hash, now);
      Quiet(s, s1, None, day);
      hide Writes, MarkDelivered, CaptureMilestone, RefundMilestone, ObjectivePass, Find, StateOf, AllSettled, AllReleased;
      if Find(r.contract.milestones, mid).Some? && id in s1.escrows {
        var m := Find(r.contract.milestones, mid).value;
        CaptureWrites(s1, id, m, None, now);
        CaptureKeepsId(s1, id, m, now);
        RefundWrites(s1, id, m, WorkRefunded, None, day);
        RefundKeepsId(s1, id, m, WorkRefunded);
        var o := JudgeDelivery(s1, id, m, hash, now);
        Quiet(s1, s1, None, day);
        assert Writes(s1, o.state, None, day) && id in o.state.escrows;
        WritesTwice(s, s1, o.state, None, day);
        RecomputedWrites(s, o.state, id, None, day);
        hide JudgeDelivery, Recomputed;
      }
    }
  }

  lemma RecomputedWrites(s: System, s1: System, id: EscrowId, disputed: Option<MilestoneId>, day: int)
    requires id in s1.escrows && Writes(s, s1, disputed, day)
    ensures Writes(s, Recomputed(s1, id), disputed, day)
  {
    hide AllSettled, AllReleased, BookedOn, Receipts;
  }

  lemma AcceptWrites(s: System, id: EscrowId, payer: Did, mid: MilestoneId, now: int)
    ensures Writes(s, Accept(s, id, payer, mid, now).state, None, now / 86_400_000)
  {
    var day := now / 86_400_000;
    Quiet(s, s, None, day);
    if id in s.escrows {
      var r := s.escrows[id];
      hide Writes, CaptureMilestone, Find, StateOf, AllSettled, AllReleased;
      if Find(r.contract.milestones, mid).Some? {
        var m := Find(r.contract.milestones, mid).value;
        CaptureWrites(s, id, m, None, now);
        CaptureKeepsId(s, id, m, now);
        RecomputedWrites(s, CaptureMilestone(s, id, m, now).state, id, None, day);
        hide Recomputed;
      }
    }
  }

  lemma OpenWrites(s: System, c: Contract, now: int, day: int)
    ensures Writes(s, OpenEscrow(s, c, now).state, None, day)
  {
    hide FundAll, W.TakeHold, AmountSum;
    Quiet(s, OpenEscrow(s, c, now).state, None, day);
  }

  lemma DisputeWrites(s: System, id: EscrowId, disputer: Did, mid: MilestoneId, bond: Option<Money>, now: int)
    ensures Writes(s, Dispute(s, id, disputer, mid, bond, now).state, Some(mid), now / 86_400_000)
  {
    Quiet(s, s, Some(mid), now / 86_400_000);
    if id in s.escrows && mid in s.escrows[id].milestones && Find(s.escrows[id].contract.milestones, mid).Some? {
      DecideWrites(s, id, disputer, Find(s.escrows[id].contract.milestones, mid).value, bond, now);
    }
    hide Writes, DecideDispute, StateOf, WindowClosed;
  }

  lemma TimeoutWrites(s: System, id: EscrowId, now: int)
    ensures Writes(s, OnTimeout(s, id, now).state, None, now / 86_400_000)
  {
    var day := now / 86_400_000;
    Quiet(s, s, None, day);
    if id in s.escrows {
      var r := s.escrows[id];
      var pending := UnsettledOf(r, r.contract.milestones);
      var how := if r.contract.onTimeout == RefundPayer then Refund else Pay;
      SettleAllWrites(s, id, pending, how, now);
      var s1 := SettleAll(s, id, pending, how, now).state;
      hide SettleAll, UnsettledOf, Writes;
      var s2 := Put(s1, id, s1.escrows[id].(state := EscrowState.TimedOut));
      Quiet(s1, s2, None, day);
      WritesTwice(s, s1, s2, None, day);
      RecomputedWrites(s, s2, id, None, day);
      hide Recomputed;
      Quiet(s, Put(s, id, r.(state := EscrowState.Disputed, escalation := Some(TimeoutRuling(Ids(pending))))), None, day);
    }
  }

  lemma ResolveWrites(s: System, id: EscrowId, caller: Did, ruling: Option<bool>, now: int)
    ensures Writes(s, ResolveEscalation(s, id, caller, ruling, now).state, DisputedBy(s, ResolveCall(id, caller, ruling, now)), now / 86_400_000)
  {
    var day, d := now / 86_400_000, DisputedBy(s, ResolveCall(id, caller, ruling, now));
    Quiet(s, s, d, day);
    if id in s.escrows && s.escrows[id].escalation.Some? && ruling.Some? {
      hide Writes, SettleDisputeRuling, SettleTimeoutRuling;
      var o := match s.escrows[id].escalation.value
        case DisputeRuling(mid, disputer) => SettleDisputeRuling(s, id, mid, disputer, ruling.value, now)
        case TimeoutRuling(mids) => SettleTimeoutRuling(s, id, mids, ruling.value, now);
      match s.escrows[id].escalation.value {
        case DisputeRuling(mid, disputer) => DisputeRulingWrites(s, id, mid, disputer, ruling.value, now);
        case TimeoutRuling(mids) => TimeoutRulingWrites(s, id, mids, ruling.value, now);
      }
      if o.Done? && id in o.state.escrows {
        ClosedWrites(s, o.state, id, EscrowState.Resolved, d, day);
        ClosedWrites(s, o.state, id, EscrowState.TimedOut, d, day);
      }
      hide CloseEscalation;
    }
  }

  lemma ClosedWrites(s: System, s1: System, id: EscrowId, final: EscrowState, disputed: Option<MilestoneId>, day: int)
    requires id in s1.escrows && Writes(s, s1, disputed, day)
    ensures Writes(s, CloseEscalation(s1, id, final), disputed, day)
  {
    hide BookedOn, Receipts;
  }

  /** Every call of the escrow service, whether it returns or throws: what it adds to anybody's spends it
    adds to the UTC day of the call, and of the receipts it issues for work that was not delivered, the one
    for the milestone it disputes or rules on says disputed, all others refunded. */
  lemma CallWrites(s: System, call: Call)
    ensures Writes(s, Apply(s, call).state, DisputedBy(s, call), TimeOf(call) / 86_400_000)
  {
    hide Writes;
    match call
    case OpenCall(c, now) => OpenWrites(s, c, now, now / 86_400_000);
    case DeliverCall(id, provider, mid, hash, now) => DeliverWrites(s, id, provider, mid, hash, now);
    case AcceptCall(id, payer, mid, now) => AcceptWrites(s, id, payer, mid, now);
    case DisputeCall(id, disputer, mid, bond, now) => DisputeWrites(s, id, disputer, mid, bond, now);
    case TimeoutCall(id, now) => TimeoutWrites(s, id, now);
    case ResolveCall(id, caller, ruling, now) => ResolveWrites(s, id, caller, ruling, now);
    case WalletCall(op) => Quiet(s, Apply(s, call).state, None, 0);
  }
}
