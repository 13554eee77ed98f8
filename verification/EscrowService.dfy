/** The escrow service as the object that the routes call: its record and receipt tables, updated
  call by call over the shared wallet service. Every method is tied to the function of Escrow that
  the properties are proved about, for the calls that throw as well. */
module EscrowService {
  import opened Amounts
  import opened Outcomes
  import opened Escrow
  import opened Spends
  import I = EscrowInvariant
  import R = EscrowRuns
  import W = Wallet
  import WS = WalletService

  /** What a call does to books in order, without its case distinction. */
  lemma CallKeepsBooks(s: System, call: R.Call, s': System)
    requires R.Apply(s, call).state == s'
    ensures I.Inv(s) ==> (I.Inv(s') <==> R.Guard(s, call))
  {
    hide I.Inv, R.Apply, R.Guard;
    if I.Inv(s) { R.CallKeepsIff(s, call); }
  }

  lemma OpenKeepsBooks(s: System, c: Contract, now: int)
    ensures I.Inv(s) ==> (I.Inv(OpenEscrow(s, c, now).state) <==> R.Guard(s, R.OpenCall(c, now)))
  {
    hide I.Inv, OpenEscrow, R.Guard;
    if I.Inv(s) { R.OpenKeepsIff(s, c, now); }
  }

  class EscrowService {
    const wallet: WS.WalletService
    var escrows: map<EscrowId, Record>
    var receipts: seq<Receipt>

    ghost predicate Valid()
      reads wallet, wallet.live
    {
      wallet.Valid()
    }

    ghost function System(): System
      reads this, wallet
    {
      Escrow.System.System(wallet.Store(), wallet.spends, escrows, receipts)
    }

    constructor (wallet: WS.WalletService)
      requires wallet.Valid()
      ensures Valid() && this.wallet == wallet
      ensures System() == Escrow.System.System(wallet.Store(), wallet.spends, map[], [])
    {
      this.wallet := wallet;
      escrows, receipts := map[], [];
    }

    // ---- wallet calls, seen from here -----------------------------------------------------

    method Hold(k: W.Key, amount: real, ref: W.Ref) returns (error: Option<Error>, holdId: nat)
      requires Valid()
      modifies wallet, wallet.live
      ensures Valid() && fresh(wallet.live - old(wallet.live))
      ensures System() == OnWallet(old(System()), W.TakeHold(old(System()).wallet, k, amount, ref)).state
      ensures error == ErrorOf(W.TakeHold(old(System()).wallet, k, amount, ref))
      ensures holdId == |old(System()).wallet.holds|
    {
      hide W.TakeHold;
      error, holdId := wallet.Hold(k, amount, ref);
    }

    method Release(holdId: nat) returns (error: Option<Error>)
      requires Valid()
      modifies wallet, wallet.live
      ensures Valid() && fresh(wallet.live - old(wallet.live))
      ensures System() == OnWallet(old(System()), W.Release(old(System()).wallet, holdId)).state
      ensures error == ErrorOf(W.Release(old(System()).wallet, holdId))
    {
      hide W.Release;
      error := wallet.Release(holdId);
    }

    method Capture(holdId: nat, to: Did) returns (error: Option<Error>)
      requires Valid()
      modifies wallet, wallet.live
      ensures Valid() && fresh(wallet.live - old(wallet.live))
      ensures System() == OnWallet(old(System()), W.Capture(old(System()).wallet, holdId, to)).state
      ensures error == ErrorOf(W.Capture(old(System()).wallet, holdId, to))
    {
      hide W.Capture;
      error := wallet.Capture(holdId, to);
    }

    method Forfeit(holdId: nat, split: W.Split) returns (error: Option<Error>)
      requires Valid()
      modifies wallet, wallet.live
      ensures Valid() && fresh(wallet.live - old(wallet.live))
      ensures System() == OnWallet(old(System()), W.Forfeit(old(System()).wallet, holdId, split)).state
      ensures error == ErrorOf(W.Forfeit(old(System()).wallet, holdId, split))
    {
      hide W.Forfeit;
      error := wallet.Forfeit(holdId, split);
    }

    method RecordCapture(k: W.Key, amount: real, now: int) returns (error: Option<Error>)
      requires Valid()
      modifies wallet`spends
      ensures Valid()
      ensures System() == Escrow.RecordCapture(old(System()), k, amount, now).state
      ensures error == ErrorOf(Escrow.RecordCapture(old(System()), k, amount, now))
    {
      error := wallet.RecordSpend(k, amount, now / DAY_MS);
    }

    method Write(id: EscrowId, r: Record)
      modifies this`escrows
      ensures System() == Put(old(System()), id, r)
    {
      escrows := escrows[id := r];
    }

    method Issue(c: Contract, m: Milestone, outcome: ReceiptOutcome)
      modifies this`receipts
      ensures System() == IssueReceipt(old(System()), c, m, outcome)
    {
      receipts := receipts + [Receipt(c.escrowId, m.id, c.payer, c.payee, m.amount, outcome)];
    }

    // ---- moving one milestone -------------------------------------------------------------

    method MaybeReleaseStake(id: EscrowId) returns (error: Option<Error>)
      requires Valid() && id in escrows
      modifies this, wallet, wallet.live
      ensures Valid() && fresh(wallet.live - old(wallet.live))
      ensures System() == Escrow.MaybeReleaseStake(old(System()), id).state
      ensures error == ErrorOf(Escrow.MaybeReleaseStake(old(System()), id))
    {
      var r := escrows[id];
      if r.stakeHold.None? || !AllSettled(r) { return None; }
      hide W.Release, AllSettled;
      error := Release(r.stakeHold.value);
      if error.Some? { return; }
      Write(id, r.(stakeHold := None));
    }

    method CaptureMilestone(id: EscrowId, m: Milestone, now: int) returns (error: Option<Error>)
      requires Valid() && id in escrows
      modifies this, wallet, wallet.live
      ensures Valid() && fresh(wallet.live - old(wallet.live))
      ensures System() == Escrow.CaptureMilestone(old(System()), id, m, now).state
      ensures error == ErrorOf(Escrow.CaptureMilestone(old(System()), id, m, now))
      ensures id in escrows
    {
      var r := escrows[id];
      if m.id !in r.holdIds || m.id !in r.milestones { return Some(Conflict); }
      if StateOf(r, m.id).Released? || StateOf(r, m.id).Accepted? { return None; }
      hide W.Capture, StateOf, Escrow.MaybeReleaseStake, Escrow.RecordCapture, IssueReceipt, WithMilestone, System;
      error := Capture(r.holdIds[m.id], r.contract.payee);
      if error.Some? { return; }
      Write(id, WithMilestone(r, m.id, MilestoneState.Released));
      label Released:
      assert id in old@Released(System()).escrows;
      error := RecordCapture(r.contract.PayerKey(), m.amount, now);
      if error.Some? { return; }
      Issue(r.contract, m, WorkDelivered);
      error := MaybeReleaseStake(id);
    }

    method RefundMilestone(id: EscrowId, m: Milestone, outcome: RefundOutcome) returns (error: Option<Error>)
      requires Valid() && id in escrows
      modifies this, wallet, wallet.live
      ensures Valid() && fresh(wallet.live - old(wallet.live))
      ensures System() == Escrow.RefundMilestone(old(System()), id, m, outcome).state
      ensures error == ErrorOf(Escrow.RefundMilestone(old(System()), id, m, outcome))
      ensures id in escrows
    {
      var r := escrows[id];
      if m.id !in r.holdIds || m.id !in r.milestones { return Some(Conflict); }
      if StateOf(r, m.id).Refunded? { return None; }
      hide W.Release, StateOf, Escrow.MaybeReleaseStake, WithMilestone, IssueReceipt, Valid;
      error := Release(r.holdIds[m.id]);
      if error.Some? { return; }
      Write(id, WithMilestone(r, m.id, MilestoneState.Refunded));
      Issue(r.contract, m, outcome);
      error := MaybeReleaseStake(id);
    }

    method SlashProviderStake(id: EscrowId, m: Milestone) returns (error: Option<Error>)
      requires Valid() && id in escrows
      modifies this, wallet, wallet.live
      ensures Valid() && fresh(wallet.live - old(wallet.live))
      ensures System() == Escrow.SlashProviderStake(old(System()), id, m).state
      ensures error == ErrorOf(Escrow.SlashProviderStake(old(System()), id, m))
      ensures id in escrows
    {
      var r := escrows[id];
      if r.stakeHold.None? { return None; }
      hide W.Forfeit, SlashBurnFraction;
      error := Forfeit(r.stakeHold.value, W.ToRecipient(r.contract.payer, SlashBurnFraction(m.amount, r.contract.total)));
      if error.Some? { return; }
      Write(id, r.(stakeHold := None));
    }

    method CloseBond(id: EscrowId, returned: bool, winner: Did) returns (error: Option<Error>)
      requires Valid() && id in escrows
      modifies this, wallet, wallet.live
      ensures Valid() && fresh(wallet.live - old(wallet.live))
      ensures System() == Escrow.CloseBond(old(System()), id, returned, winner).state
      ensures error == ErrorOf(Escrow.CloseBond(old(System()), id, returned, winner))
      ensures id in escrows
    {
      var r := escrows[id];
      if r.bondHold.None? { return None; }
      hide W.Forfeit, W.Release;
      if returned {
        error := Release(r.bondHold.value);
      } else {
        error := Forfeit(r.bondHold.value, W.ToRecipient(winner, 0.0));
      }
      if error.Some? { return; }
      Write(id, r.(bondHold := None));
    }

    // ---- open -----------------------------------------------------------------------------

    method Open(c: Contract, now: int) returns (error: Option<Error>)
      requires Valid()
      modifies this, wallet, wallet.live
      ensures Valid() && fresh(wallet.live - old(wallet.live))
      ensures System() == Escrow.OpenEscrow(old(System()), c, now).state
      ensures error == ErrorOf(Escrow.OpenEscrow(old(System()), c, now))
      ensures old(I.Inv(System())) ==> (I.Inv(System()) <==> R.Guard(old(System()), R.OpenCall(c, now)))
    {
      hide I.Inv, R.Guard;
      OpenKeepsBooks(System(), c, now);
      if AmountSum(c.milestones) != c.total || c.total <= 0.0 { return Some(Invalid); }
      if c.escrowId in escrows { return Some(Conflict); }
      ghost var s0 := System();
      hide W.TakeHold, AmountSum;
      var milestoneHoldIds: map<MilestoneId, nat> := map[];
      var milestones: map<MilestoneId, Runtime> := map[];
      var i := 0;
      while i < |c.milestones|
        invariant 0 <= i <= |c.milestones|
        invariant Valid() && fresh(wallet.live - old(wallet.live))
        invariant System() == s0.(wallet := System().wallet)
        invariant FundAll(Funding(s0.wallet, map[], map[]), c, c.milestones)
               == FundAll(Funding(System().wallet, milestoneHoldIds, milestones), c, c.milestones[i..])
      {
        var m := c.milestones[i];
        assert c.milestones[i..][1..] == c.milestones[i + 1..];
        var holdId: nat;
        error, holdId := Hold(c.PayerKey(), m.amount, W.FundRef(c.escrowId, m.id));
        if error.Some? { return; }
        milestoneHoldIds := milestoneHoldIds[m.id := holdId];
        milestones := milestones[m.id := Runtime(Pending, None, None)];
        i := i + 1;
      }
      hide FundAll;
      var stakeHold := None;
      if NeedsStake(c) {
        var holdId: nat;
        error, holdId := Hold(c.ProviderStakeKey(), c.stake.amount, W.StakeRef(c.escrowId));
        if error.Some? { return; }
        stakeHold := Some(holdId);
      }
      Write(c.escrowId, Record(c, EscrowState.Open, milestones, milestoneHoldIds, stakeHold, None, None, None, now));
      error := None;
    }

    // ---- party actions --------------------------------------------------------------------

    method Recompute(id: EscrowId)
      requires id in escrows
      modifies this`escrows
      ensures System() == Recomputed(old(System()), id)
    {
      Write(id, RecomputeState(escrows[id]));
    }

    method RequireOpenish(id: EscrowId) returns (error: Option<Error>)
      ensures error == Escrow.RequireOpenish(System(), id)
    {
      if id !in escrows { return Some(NotFound); }
      if escrows[id].state == EscrowState.Open || escrows[id].state == EscrowState.Delivered { return None; }
      error := Some(Conflict);
    }

    method Deliver(id: EscrowId, provider: Did, mid: MilestoneId, hash: string, now: int) returns (error: Option<Error>)
      requires Valid()
      modifies this, wallet, wallet.live
      ensures Valid() && fresh(wallet.live - old(wallet.live))
      ensures System() == Escrow.Deliver(old(System()), id, provider, mid, hash, now).state
      ensures error == ErrorOf(Escrow.Deliver(old(System()), id, provider, mid, hash, now))
      ensures old(I.Inv(System())) ==> (I.Inv(System()) <==> R.Guard(old(System()), R.DeliverCall(id, provider, mid, hash, now)))
    {
      CallKeepsBooks(System(), R.DeliverCall(id, provider, mid, hash, now), Escrow.Deliver(System(), id, provider, mid, hash, now).state);
      hide I.Inv, R.Guard;
      error := RequireOpenish(id);
      if error.Some? { return; }
      var r := escrows[id];
      var found := Find(r.contract.milestones, mid);
      if provider != r.contract.payee { return Some(Forbidden); }
      if found.None? || mid !in r.milestones { return Some(NotFound); }
      if StateOf(r, mid).Accepted? || StateOf(r, mid).Released? { return None; }
      hide Find, Escrow.CaptureMilestone, Escrow.RefundMilestone, ObjectivePass, Escrow.RequireOpenish, RecomputeState;
      Write(id, r.(milestones := r.milestones[mid := Runtime(MilestoneState.Delivered, Some(hash), Some(now))]));
      if found.value.acceptance.kind == Checksum {
        match ObjectivePass(found.value.acceptance, hash) {
          case Pass => error := CaptureMilestone(id, found.value, now);
          case Fail => error := RefundMilestone(id, found.value, WorkRefunded);
          case Subjective =>
        }
      }
      if error.Some? { return; }
      Recompute(id);
    }

    method Accept(id: EscrowId, payer: Did, mid: MilestoneId, now: int) returns (error: Option<Error>)
      requires Valid()
      modifies this, wallet, wallet.live
      ensures Valid() && fresh(wallet.live - old(wallet.live))
      ensures System() == Escrow.Accept(old(System()), id, payer, mid, now).state
      ensures error == ErrorOf(Escrow.Accept(old(System()), id, payer, mid, now))
      ensures old(I.Inv(System())) ==> (I.Inv(System()) <==> R.Guard(old(System()), R.AcceptCall(id, payer, mid, now)))
    {
      CallKeepsBooks(System(), R.AcceptCall(id, payer, mid, now), Escrow.Accept(System(), id, payer, mid, now).state);
      hide I.Inv, R.Guard;
      error := RequireOpenish(id);
      if error.Some? { return; }
      var r := escrows[id];
      var found := Find(r.contract.milestones, mid);
      if payer != r.contract.payer { return Some(Forbidden); }
      if found.None? || mid !in r.milestones { return Some(NotFound); }
      if StateOf(r, mid).Accepted? || StateOf(r, mid).Released? { return None; }
      if !StateOf(r, mid).Delivered? { return Some(Conflict); }
      hide Find, Escrow.CaptureMilestone, StateOf, Escrow.RequireOpenish, RecomputeState;
      error := CaptureMilestone(id, found.value, now);
      if error.Some? { return; }
      Recompute(id);
    }

    method Dispute(id: EscrowId, disputer: Did, mid: MilestoneId, bond: Option<Money>, now: int) returns (error: Option<Error>)
      requires Valid()
      modifies this, wallet, wallet.live
      ensures Valid() && fresh(wallet.live - old(wallet.live))
      ensures System() == Escrow.Dispute(old(System()), id, disputer, mid, bond, now).state
      ensures error == ErrorOf(Escrow.Dispute(old(System()), id, disputer, mid, bond, now))
      ensures old(I.Inv(System())) ==> (I.Inv(System()) <==> R.Guard(old(System()), R.DisputeCall(id, disputer, mid, bond, now)))
    {
      CallKeepsBooks(System(), R.DisputeCall(id, disputer, mid, bond, now), Escrow.Dispute(System(), id, disputer, mid, bond, now).state);
      hide I.Inv, R.Guard;
      error := RequireOpenish(id);
      if error.Some? { return; }
      var r := escrows[id];
      var found := Find(r.contract.milestones, mid);
      if disputer != r.contract.payer && disputer != r.contract.payee { return Some(Forbidden); }
      if found.None? || mid !in r.milestones { return Some(NotFound); }
      if StateOf(r, mid).Accepted? || StateOf(r, mid).Settled() { return Some(Conflict); }
      if WindowClosed(r, mid, now) { return Some(Conflict); }
      hide Find, Escrow.DecideDispute, StateOf, Escrow.RequireOpenish, WindowClosed;
      error := DecideDispute(id, disputer, found.value, bond, now);
    }

    method DecideDispute(id: EscrowId, disputer: Did, m: Milestone, bond: Option<Money>, now: int) returns (error: Option<Error>)
      requires Valid() && id in escrows && m.id in escrows[id].milestones
      modifies this, wallet, wallet.live
      ensures Valid() && fresh(wallet.live - old(wallet.live))
      ensures System() == Escrow.DecideDispute(old(System()), id, disputer, m, bond, now).state
      ensures error == ErrorOf(Escrow.DecideDispute(old(System()), id, disputer, m, bond, now))
    {
      var verdict := VerdictOf(escrows[id], m);
      hide VerdictOf, RecomputeState, Escrow.BeginDispute, Escrow.DisputeFails, Escrow.DisputeHolds, Valid;
      error := BeginDispute(id, disputer, m.id, bond);
      if error.Some? { return; }
      match verdict {
        case Subjective =>
          Write(id, escrows[id].(escalation := Some(DisputeRuling(m.id, disputer))));
          return;
        case Pass =>
          error := DisputeFails(id, m, now);
        case Fail =>
          error := DisputeHolds(id, m);
      }
      if error.Some? { return; }
      Write(id, escrows[id].(state := EscrowState.Resolved, disputer := None));
      Recompute(id);
    }

    method DisputeFails(id: EscrowId, m: Milestone, now: int) returns (error: Option<Error>)
      requires Valid() && id in escrows
      modifies this, wallet, wallet.live
      ensures Valid() && fresh(wallet.live - old(wallet.live))
      ensures System() == Escrow.DisputeFails(old(System()), id, m, now).state
      ensures error == ErrorOf(Escrow.DisputeFails(old(System()), id, m, now))
      ensures id in escrows
    {
      hide Escrow.CaptureMilestone, Escrow.CloseBond;
      error := CaptureMilestone(id, m, now);
      if error.Some? { return; }
      error := CloseBond(id, false, escrows[id].contract.payee);
    }

    method DisputeHolds(id: EscrowId, m: Milestone) returns (error: Option<Error>)
      requires Valid() && id in escrows
      modifies this, wallet, wallet.live
      ensures Valid() && fresh(wallet.live - old(wallet.live))
      ensures System() == Escrow.DisputeHolds(old(System()), id, m).state
      ensures error == ErrorOf(Escrow.DisputeHolds(old(System()), id, m))
      ensures id in escrows
    {
      hide Escrow.RefundMilestone, Escrow.SlashProviderStake, Escrow.CloseBond;
      error := SlashProviderStake(id, m);
      if error.Some? { return; }
      error := RefundMilestone(id, m, WorkDisputed);
      if error.Some? { return; }
      error := CloseBond(id, true, escrows[id].contract.payee);
    }

    method BeginDispute(id: EscrowId, disputer: Did, mid: MilestoneId, bond: Option<Money>) returns (error: Option<Error>)
      requires Valid() && id in escrows && mid in escrows[id].milestones
      modifies this, wallet, wallet.live
      ensures Valid() && fresh(wallet.live - old(wallet.live))
      ensures System() == Escrow.BeginDispute(old(System()), id, disputer, mid, bond).state
      ensures error == ErrorOf(Escrow.BeginDispute(old(System()), id, disputer, mid, bond))
      ensures id in escrows
    {
      var r := escrows[id];
      var bondHold := r.bondHold;
      error := None;
      hide W.TakeHold;
      if bond.Some? {
        var holdId: nat;
        error, holdId := Hold(W.Key(disputer, bond.value.currency), bond.value.amount, W.BondRef(id, mid));
        if error.Some? { return; }
        bondHold := Some(holdId);
      }
      Write(id, WithMilestone(r, mid, MilestoneState.Disputed).(bondHold := bondHold, state := EscrowState.Disputed, disputer := Some(disputer)));
    }

    // ---- timeout and rulings --------------------------------------------------------------

    method OnTimeout(id: EscrowId, now: int) returns (error: Option<Error>)
      requires Valid()
      modifies this, wallet, wallet.live
      ensures Valid() && fresh(wallet.live - old(wallet.live))
      ensures System() == Escrow.OnTimeout(old(System()), id, now).state
      ensures error == ErrorOf(Escrow.OnTimeout(old(System()), id, now))
      ensures old(I.Inv(System())) ==> (I.Inv(System()) <==> R.Guard(old(System()), R.TimeoutCall(id, now)))
    {
      CallKeepsBooks(System(), R.TimeoutCall(id, now), Escrow.OnTimeout(System(), id, now).state);
      hide I.Inv, R.Guard;
      error := RequireOpenish(id);
      if error.Some? { return; }
      var r := escrows[id];
      if now < r.contract.deliverBy { return Some(Conflict); }
      var pending := UnsettledOf(r, r.contract.milestones);
      hide Escrow.RequireOpenish, UnsettledOf, SettleAll, RecomputeState;
      if r.contract.onTimeout == Arbitrate {
        Write(id, r.(state := EscrowState.Disputed, escalation := Some(TimeoutRuling(Ids(pending)))));
        return;
      }
      error := SettlePending(id, pending, if r.contract.onTimeout == RefundPayer then Refund else Pay, now);
      if error.Some? { return; }
      Write(id, escrows[id].(state := EscrowState.TimedOut));
      Recompute(id);
    }

    method SettlePending(id: EscrowId, pending: seq<Milestone>, how: Settling, now: int) returns (error: Option<Error>)
      requires Valid() && id in escrows
      modifies this, wallet, wallet.live
      ensures Valid() && fresh(wallet.live - old(wallet.live))
      ensures System() == Escrow.SettleAll(old(System()), id, pending, how, now).state
      ensures error == ErrorOf(Escrow.SettleAll(old(System()), id, pending, how, now))
      ensures id in escrows
    {
      ghost var s0 := System();
      hide Escrow.CaptureMilestone, Escrow.RefundMilestone;
      var i := 0;
      while i < |pending|
        invariant 0 <= i <= |pending| && id in escrows
        invariant Valid() && fresh(wallet.live - old(wallet.live))
        invariant SettleAll(s0, id, pending, how, now) == SettleAll(System(), id, pending[i..], how, now)
      {
        assert pending[i..][1..] == pending[i + 1..];
        if how == Refund {
          error := RefundMilestone(id, pending[i], WorkRefunded);
        } else {
          error := CaptureMilestone(id, pending[i], now);
        }
        if error.Some? { return; }
        i := i + 1;
      }
      error := None;
    }

    method ResolveEscalation(id: EscrowId, caller: Did, ruling: Option<bool>, now: int) returns (error: Option<Error>)
      requires Valid()
      modifies this, wallet, wallet.live
      ensures Valid() && fresh(wallet.live - old(wallet.live))
      ensures System() == Escrow.ResolveEscalation(old(System()), id, caller, ruling, now).state
      ensures error == ErrorOf(Escrow.ResolveEscalation(old(System()), id, caller, ruling, now))
      ensures old(I.Inv(System())) ==> (I.Inv(System()) <==> R.Guard(old(System()), R.ResolveCall(id, caller, ruling, now)))
    {
      CallKeepsBooks(System(), R.ResolveCall(id, caller, ruling, now), Escrow.ResolveEscalation(System(), id, caller, ruling, now).state);
      hide I.Inv, R.Guard;
      if id !in escrows { return Some(NotFound); }
      var r := escrows[id];
      if r.escalation.None? || r.state != EscrowState.Disputed { return Some(Conflict); }
      if caller != r.contract.payer && caller != r.contract.payee { return Some(Forbidden); }
      if ruling.None? { return Some(Conflict); }
      hide Escrow.SettleDisputeRuling, Escrow.SettleTimeoutRuling;
      var final;
      match r.escalation.value {
        case DisputeRuling(mid, disputer) =>
          error := SettleDisputeRuling(id, mid, disputer, ruling.value, now);
          final := EscrowState.Resolved;
        case TimeoutRuling(mids) =>
          error := SettleTimeoutRuling(id, mids, ruling.value, now);
          final := EscrowState.TimedOut;
      }
      if error.Some? { return; }
      Write(id, escrows[id].(state := final, disputer := None, escalation := None));
    }

    method RuleOnMilestone(id: EscrowId, m: Milestone, forProvider: bool, now: int) returns (error: Option<Error>)
      requires Valid() && id in escrows
      modifies this, wallet, wallet.live
      ensures Valid() && fresh(wallet.live - old(wallet.live))
      ensures System() == Escrow.RuleOnMilestone(old(System()), id, m, forProvider, now).state
      ensures error == ErrorOf(Escrow.RuleOnMilestone(old(System()), id, m, forProvider, now))
      ensures id in escrows
    {
      hide Escrow.CaptureMilestone, Escrow.RefundMilestone, Escrow.SlashProviderStake;
      if forProvider {
        error := CaptureMilestone(id, m, now);
      } else {
        error := SlashProviderStake(id, m);
        if error.Some? { return; }
        error := RefundMilestone(id, m, WorkDisputed);
      }
    }

    method SettleDisputeRuling(id: EscrowId, mid: MilestoneId, disputer: Did, upheld: bool, now: int) returns (error: Option<Error>)
      requires Valid() && id in escrows
      modifies this, wallet, wallet.live
      ensures Valid() && fresh(wallet.live - old(wallet.live))
      ensures System() == Escrow.SettleDisputeRuling(old(System()), id, mid, disputer, upheld, now).state
      ensures error == ErrorOf(Escrow.SettleDisputeRuling(old(System()), id, mid, disputer, upheld, now))
      ensures id in escrows
    {
      var c := escrows[id].contract;
      var found := Find(c.milestones, mid);
      if found.None? { return Some(NotFound); }
      hide Find, RefundRest, Escrow.RuleOnMilestone, Escrow.CloseBond;
      var winner := if upheld then disputer else c.OtherParty(disputer);
      error := RuleOnMilestone(id, found.value, winner == c.payee, now);
      if error.Some? { return; }
      error := CloseBond(id, upheld, c.OtherParty(disputer));
      if error.Some? { return; }
      error := RefundRemainingPending(id, c.milestones, Some(mid));
    }

    method SettleTimeoutRuling(id: EscrowId, mids: seq<MilestoneId>, upheld: bool, now: int) returns (error: Option<Error>)
      requires Valid() && id in escrows
      modifies this, wallet, wallet.live
      ensures Valid() && fresh(wallet.live - old(wallet.live))
      ensures System() == Escrow.SettleTimeoutRuling(old(System()), id, mids, upheld, now).state
      ensures error == ErrorOf(Escrow.SettleTimeoutRuling(old(System()), id, mids, upheld, now))
      ensures id in escrows
    {
      var how := if upheld then Pay else Refund;
      ghost var s0 := System();
      hide Escrow.CaptureMilestone, Escrow.RefundMilestone, RefundRest, Find, StateOf;
      var i := 0;
      while i < |mids|
        invariant 0 <= i <= |mids| && id in escrows
        invariant Valid() && fresh(wallet.live - old(wallet.live))
        invariant SettleListed(s0, id, mids, how, now) == SettleListed(System(), id, mids[i..], how, now)
      {
        assert mids[i..][1..] == mids[i + 1..];
        if StateOf(escrows[id], mids[i]).Unsettled() {
          var found := Find(escrows[id].contract.milestones, mids[i]);
          if found.None? { return Some(NotFound); }
          if upheld {
            error := CaptureMilestone(id, found.value, now);
          } else {
            error := RefundMilestone(id, found.value, WorkRefunded);
          }
          if error.Some? { return; }
        }
        i := i + 1;
      }
      hide SettleListed;
      error := RefundRemainingPending(id, escrows[id].contract.milestones, None);
    }

    method RefundRemainingPending(id: EscrowId, ms: seq<Milestone>, except: Option<MilestoneId>) returns (error: Option<Error>)
      requires Valid() && id in escrows
      modifies this, wallet, wallet.live
      ensures Valid() && fresh(wallet.live - old(wallet.live))
      ensures System() == Escrow.RefundRest(old(System()), id, ms, except).state
      ensures error == ErrorOf(Escrow.RefundRest(old(System()), id, ms, except))
      ensures id in escrows
    {
      ghost var s0 := System();
      hide Escrow.RefundMilestone, StateOf;
      var i := 0;
      while i < |ms|
        invariant 0 <= i <= |ms| && id in escrows
        invariant Valid() && fresh(wallet.live - old(wallet.live))
        invariant RefundRest(s0, id, ms, except) == RefundRest(System(), id, ms[i..], except)
      {
        assert ms[i..][1..] == ms[i + 1..];
        if except != Some(ms[i].id) && StateOf(escrows[id], ms[i].id).Unsettled() {
          error := RefundMilestone(id, ms[i], WorkRefunded);
          if error.Some? { return; }
        }
        i := i + 1;
      }
      error := None;
    }
  }
}
