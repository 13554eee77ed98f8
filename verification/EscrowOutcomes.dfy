/** When each call of the escrow service succeeds, and the milestone states it then leaves. */
module EscrowOutcomes {
  import opened Amounts
  import opened Outcomes
  import opened Escrow
  import opened EscrowInvariant
  import opened EscrowMoves
  import opened EscrowCalls
  import opened EscrowSettlement
  import W = Wallet

  /** The milestone named by a call, if the contract has it. */
  lemma NamedMilestone(s: System, id: EscrowId, mid: MilestoneId) returns (i: nat)
    requires Core(s, id) && Find(s.escrows[id].contract.milestones, mid).Some?
    ensures i < |s.escrows[id].contract.milestones| && Find(s.escrows[id].contract.milestones, mid) == Some(s.escrows[id].contract.milestones[i])
    ensures s.escrows[id].contract.milestones[i].id == mid && mid in s.escrows[id].milestones
    ensures !StateOf(s.escrows[id], mid).Accepted? && !StateOf(s.escrows[id], mid).Rejected?
  {
    i := FindGives(s.escrows[id].contract.milestones, mid);
    assert MilestoneOk(s, s.escrows[id], s.escrows[id].contract.milestones[i]);
  }

  /** The record after only `mid` changed, to `rt`; the stake may have been let go with it. */
  ghost predicate OnlyMilestone(r: Record, r': Record, mid: MilestoneId, rt: Runtime) {
    r' == r.(milestones := r.milestones[mid := rt], stakeHold := r'.stakeHold)
  }

  /** The same, with the escrow closed if that was the last milestone to settle. */
  ghost predicate ThenCloses(r: Record, r': Record, mid: MilestoneId, rt: Runtime) {
    && r' == r.(milestones := r.milestones[mid := rt], stakeHold := r'.stakeHold, state := r'.state)
    && r'.state == if AllSettled(r') then EndState(r') else r.state
  }

  lemma RecomputedCloses(r: Record, s: System, id: EscrowId, mid: MilestoneId, rt: Runtime)
    requires id in s.escrows && OnlyMilestone(r, s.escrows[id], mid, rt)
    ensures id in Recomputed(s, id).escrows && ThenCloses(r, Recomputed(s, id).escrows[id], mid, rt)
  {
    var r1 := s.escrows[id];
    SettledUnchanged(r1, RecomputeState(r1));
    AllReleasedSettled(r1);
    assert AllReleased(RecomputeState(r1)) == AllReleased(r1);
    hide AllSettled, AllReleased;
  }

  lemma AllReleasedSettled(r: Record)
    ensures AllReleased(r) ==> AllSettled(r)
  {
  }

  lemma MarkedOnly(r: Record, r': Record, mid: MilestoneId, st: MilestoneState)
    requires mid in r.milestones && r' == Marked(r, mid, st)
    ensures OnlyMilestone(r, r', mid, r.milestones[mid].(state := st))
  {
    hide AllSettled;
  }

  lemma CapturedOnly(s: System, id: EscrowId, i: nat, now: int)
    requires Core(s, id) && W.Inv(s.wallet) && i < |s.escrows[id].contract.milestones|
    requires StateOf(s.escrows[id], s.escrows[id].contract.milestones[i].id).Delivered?
    ensures s.escrows[id].contract.milestones[i].id in s.escrows[id].milestones
    ensures var r := s.escrows[id]; var m := r.contract.milestones[i]; var o := CaptureMilestone(s, id, m, now);
            && o.Done? && id in o.state.escrows
            && id in Recomputed(o.state, id).escrows
            && ThenCloses(r, Recomputed(o.state, id).escrows[id], m.id, r.milestones[m.id].(state := MilestoneState.Released))
  {
    var r := s.escrows[id];
    var m := r.contract.milestones[i];
    CaptureFacts(s, id, i, now);
    assert StateOf(r, m.id).Delivered?;
    hide *;
    var s1 := CaptureMilestone(s, id, m, now).state;
    MarkedOnly(r, s1.escrows[id], m.id, MilestoneState.Released);
    RecomputedCloses(r, s1, id, m.id, r.milestones[m.id].(state := MilestoneState.Released));
  }

  /** Accepting succeeds exactly for the payer of an open escrow, on a milestone that is delivered or
    already paid, and leaves that milestone released and the others alone; the last one closes the escrow. */
  lemma AcceptOutcome(s: System, id: EscrowId, payer: Did, mid: MilestoneId, now: int)
    requires RecordOk(s, id) && W.Inv(s.wallet)
    ensures var r := s.escrows[id]; var o := Accept(s, id, payer, mid, now);
            && (o.Done? <==>
                  && r.state == EscrowState.Open && payer == r.contract.payer
                  && Find(r.contract.milestones, mid).Some? && (StateOf(r, mid).Delivered? || StateOf(r, mid).Released?))
            && (o.Done? && StateOf(r, mid).Released? ==> o.state == s)
            && (o.Done? && StateOf(r, mid).Delivered? ==>
                  && mid in r.milestones && id in o.state.escrows
                  && ThenCloses(r, o.state.escrows[id], mid, r.milestones[mid].(state := MilestoneState.Released)))
  {
    CoreGives(s, id);
    var r := s.escrows[id];
    if RequireOpenish(s, id).None? && payer == r.contract.payer && Find(r.contract.milestones, mid).Some? {
      var i := NamedMilestone(s, id, mid);
      hide RecordOk, Core, W.Inv, CaptureMilestone, ThenCloses, RequireOpenish, Recomputed, Find;
      if StateOf(r, mid).Delivered? {
        CapturedOnly(s, id, i, now);
      }
    }
  }

  lemma JudgedAs(s: System, id: EscrowId, i: nat, hash: string, now: int)
    requires Core(s, id) && W.Inv(s.wallet) && i < |s.escrows[id].contract.milestones|
    requires s.escrows[id].contract.milestones[i].id in s.escrows[id].milestones
    requires StateOf(s.escrows[id], s.escrows[id].contract.milestones[i].id).Delivered?
    ensures var r := s.escrows[id]; var m := r.contract.milestones[i]; var o := JudgeDelivery(s, id, m, hash, now);
            && o.Done? && id in o.state.escrows && OnlyMilestone(r, o.state.escrows[id], m.id, r.milestones[m.id].(state := EndOnHash(m, hash)))
  {
    CoreGives(s, id);
    var r := s.escrows[id];
    var m := r.contract.milestones[i];
    JudgeIs(s, id, m, hash, now);
    EndsOnHash(m, hash);
    hide Core, W.Inv, Progress, CaptureMilestone, RefundMilestone, JudgeDelivery, EndOnHash, Marked, MilestoneOk;
    if EndOnHash(m, hash).Released? {
      CaptureEffect(s, id, i, now);
      MarkedOnly(r, CaptureMilestone(s, id, m, now).state.escrows[id], m.id, MilestoneState.Released);
    } else if EndOnHash(m, hash).Refunded? {
      RefundEffect(s, id, i, WorkRefunded);
      MarkedOnly(r, RefundMilestone(s, id, m, WorkRefunded).state.escrows[id], m.id, MilestoneState.Refunded);
    }
  }

  lemma OnlyMilestoneTwice(r0: Record, r1: Record, r2: Record, mid: MilestoneId, rt1: Runtime, rt2: Runtime)
    requires OnlyMilestone(r0, r1, mid, rt1) && OnlyMilestone(r1, r2, mid, rt2)
    ensures OnlyMilestone(r0, r2, mid, rt2)
  {
    assert r0.milestones[mid := rt1][mid := rt2] == r0.milestones[mid := rt2];
  }

  lemma HandedInMark(s: System, id: EscrowId, mid: MilestoneId, hash: string, now: int)
    requires id in s.escrows
    ensures var s1 := MarkDelivered(s, id, mid, hash, now);
            && id in s1.escrows && mid in s1.escrows[id].milestones
            && s1.escrows[id].milestones[mid] == Runtime(MilestoneState.Delivered, Some(hash), Some(now))
            && OnlyMilestone(s.escrows[id], s1.escrows[id], mid, Runtime(MilestoneState.Delivered, Some(hash), Some(now)))
  {
  }

  /** Handing in work succeeds exactly for the payee of an open escrow, except on a refunded milestone
    whose checksum decides at once: there the settlement throws and only the mark is left. A paid
    milestone stays as it is; otherwise a bare checksum decides at once and anything else waits for
    the payer. */
  lemma DeliverOutcome(s: System, id: EscrowId, provider: Did, mid: MilestoneId, hash: string, now: int)
    requires RecordOk(s, id) && W.Inv(s.wallet)
    ensures var r := s.escrows[id]; var found, o := Find(r.contract.milestones, mid), Deliver(s, id, provider, mid, hash, now);
            var late := found.Some? && StateOf(r, mid).Refunded? && EndOnHash(found.value, hash).Settled();
            && (o.Done? <==> r.state == EscrowState.Open && provider == r.contract.payee && found.Some? && !late)
            && (o.Done? && StateOf(r, mid).Released? ==> o.state == s)
            && (o.Done? && !StateOf(r, mid).Released? ==>
                  && id in o.state.escrows
                  && ThenCloses(r, o.state.escrows[id], mid, Runtime(EndOnHash(found.value, hash), Some(hash), Some(now))))
            && (r.state == EscrowState.Open && provider == r.contract.payee && late ==> o == Thrown(MarkDelivered(s, id, mid, hash, now), Conflict))
  {
    CoreGives(s, id);
    var r := s.escrows[id];
    if RequireOpenish(s, id).None? && provider == r.contract.payee && Find(r.contract.milestones, mid).Some? {
      var i := NamedMilestone(s, id, mid);
      if StateOf(r, mid).Refunded? {
        RedeliveryMarks(s, id, provider, mid, hash, now);
        RedeliveredAs(s, id, mid, hash, now);
        hide RecordOk, Core, W.Inv, MarkDelivered, RequireOpenish, Recomputed, Find, Deliver;
      } else if !StateOf(r, mid).Released? {
        HandedIn(s, id, i, hash, now);
        hide RecordOk, Core, W.Inv, MarkDelivered, JudgeDelivery, RequireOpenish, Recomputed, Find, EndOnHash;
      }
    }
  }

  lemma RedeliveredAs(s: System, id: EscrowId, mid: MilestoneId, hash: string, now: int)
    requires id in s.escrows
    ensures var s1 := Recomputed(MarkDelivered(s, id, mid, hash, now), id);
            id in s1.escrows && ThenCloses(s.escrows[id], s1.escrows[id], mid, Runtime(MilestoneState.Delivered, Some(hash), Some(now)))
  {
    RecomputedCloses(s.escrows[id], MarkDelivered(s, id, mid, hash, now), id, mid, Runtime(MilestoneState.Delivered, Some(hash), Some(now)));
  }

  lemma HandedIn(s: System, id: EscrowId, i: nat, hash: string, now: int)
    requires Core(s, id) && W.Inv(s.wallet) && i < |s.escrows[id].contract.milestones|
    requires !StateOf(s.escrows[id], s.escrows[id].contract.milestones[i].id).Settled()
    ensures var r := s.escrows[id]; var m := r.contract.milestones[i];
            var o := JudgeDelivery(MarkDelivered(s, id, m.id, hash, now), id, m, hash, now);
            && o.Done? && id in o.state.escrows && id in Recomputed(o.state, id).escrows
            && ThenCloses(r, Recomputed(o.state, id).escrows[id], m.id, Runtime(EndOnHash(m, hash), Some(hash), Some(now)))
  {
    var r := s.escrows[id];
    var m := r.contract.milestones[i];
    var mid := m.id;
    MarkDeliveredEffect(s, id, i, hash, now);
    hide RecordOk, Core, W.Inv, MarkDelivered, JudgeDelivery, RequireOpenish, Recomputed, Find, EndOnHash, Touches, Pays;
    var s1 := MarkDelivered(s, id, mid, hash, now);
    CoreGives(s1, id);
    JudgedAs(s1, id, i, hash, now);
    var s2 := JudgeDelivery(s1, id, m, hash, now).state;
    HandedInMark(s, id, mid, hash, now);
    OnlyMilestoneTwice(r, s1.escrows[id], s2.escrows[id], mid, s1.escrows[id].milestones[mid], Runtime(EndOnHash(m, hash), Some(hash), Some(now)));
    hide OnlyMilestone, StateOf, ThenCloses;
    RecomputedCloses(r, s2, id, mid, Runtime(EndOnHash(m, hash), Some(hash), Some(now)));
  }

  predicate BondAffordable(w: W.State, disputer: Did, bond: Option<Money>) {
    bond.Some? ==> 0.0 < bond.value.amount <= W.Available(w, W.Key(disputer, bond.value.currency))
  }

  lemma BeginOutcome(s: System, id: EscrowId, disputer: Did, mid: MilestoneId, bond: Option<Money>)
    requires id in s.escrows && mid in s.escrows[id].milestones
    ensures BeginDispute(s, id, disputer, mid, bond).Done? <==> BondAffordable(s.wallet, disputer, bond)
  {
    hide W.AddAvailable, W.AddHeld, W.WithHolds;
  }

  /** DecideDispute gets as far as its two halves do. */
  lemma DecideIs(s: System, id: EscrowId, disputer: Did, m: Milestone, bond: Option<Money>, now: int)
    requires id in s.escrows && m.id in s.escrows[id].milestones
    ensures var o := BeginDispute(s, id, disputer, m.id, bond);
            && id in o.state.escrows
            && (o.Thrown? ==> DecideDispute(s, id, disputer, m, bond, now).Thrown?)
            && (o.Done? && DisputeFails(o.state, id, m, now).Done? && id in DisputeFails(o.state, id, m, now).state.escrows
                && DisputeHolds(o.state, id, m).Done? && id in DisputeHolds(o.state, id, m).state.escrows
                ==> DecideDispute(s, id, disputer, m, bond, now).Done?)
  {
    hide W.TakeHold, DisputeFails, DisputeHolds, Conclude, VerdictOf;
  }

  lemma DecideOutcome(s: System, id: EscrowId, disputer: Did, i: nat, bond: Option<Money>, now: int)
    requires RecordOk(s, id) && W.Inv(s.wallet) && i < |s.escrows[id].contract.milestones| && s.escrows[id].state == EscrowState.Open
    requires !StateOf(s.escrows[id], s.escrows[id].contract.milestones[i].id).Settled()
    requires s.escrows[id].contract.milestones[i].id in s.escrows[id].milestones
    ensures DecideDispute(s, id, disputer, s.escrows[id].contract.milestones[i], bond, now).Done? <==> BondAffordable(s.wallet, disputer, bond)
  {
    var m := s.escrows[id].contract.milestones[i];
    RecordOkGives(s, id);
    CoreGives(s, id);
    hide *;
    BeginOutcome(s, id, disputer, m.id, bond);
    DecideIs(s, id, disputer, m, bond, now);
    BeginsDispute(s, id, i, disputer, bond);
    var o := BeginDispute(s, id, disputer, m.id, bond);
    if o.Done? {
      DisputeRejected(s, o.state, id, i, disputer, bond, now);
      DisputeUpheld(s, o.state, id, i, disputer, bond);
    }
  }

  /** When the window for disputing a milestone opens: on delivery, or on opening if nothing was delivered. */
  function DisputableFrom(r: Record, mid: MilestoneId): int {
    if mid in r.milestones && r.milestones[mid].deliveredAt.Some? then r.milestones[mid].deliveredAt.value else r.createdAt
  }

  /** Disputing succeeds exactly for a party of an open escrow, on a milestone of it that is not settled,
    within the window, with a bond that is positive and affordable if one is offered. */
  lemma DisputeOutcome(s: System, id: EscrowId, disputer: Did, mid: MilestoneId, bond: Option<Money>, now: int)
    requires RecordOk(s, id) && W.Inv(s.wallet)
    ensures var r := s.escrows[id];
            Dispute(s, id, disputer, mid, bond, now).Done? <==>
              && r.state == EscrowState.Open && (disputer == r.contract.payer || disputer == r.contract.payee)
              && Find(r.contract.milestones, mid).Some? && mid in r.milestones && !StateOf(r, mid).Settled()
              && now <= DisputableFrom(r, mid) + r.contract.disputeWindow && BondAffordable(s.wallet, disputer, bond)
  {
    CoreGives(s, id);
    var r := s.escrows[id];
    if RequireOpenish(s, id).None? && Find(r.contract.milestones, mid).Some? {
      var i := NamedMilestone(s, id, mid);
      OpenWhenOpenish(s, id);
      hide RecordOk, W.Inv, DecideDispute, WindowClosed, BondAffordable, Find;
      if !StateOf(r, mid).Settled() { DecideOutcome(s, id, disputer, i, bond, now); }
    }
  }

  // ---- the bond of a frivolous dispute ----------------------------------------------------

  /** One milestone more was paid, and nothing else about the milestones changed. */
  lemma OwedAfterPass(r: Record, r': Record, i: nat, k: W.Key)
    requires r'.contract == r.contract && DistinctIds(r.contract.milestones) && i < |r.contract.milestones|
    requires DisputeStates(r, r', r.contract.milestones[i], Pass) && !StateOf(r, r.contract.milestones[i].id).Settled()
    ensures Owed(r', k) - Owed(r, k) == if k == r.contract.PayeeKey() then r.contract.milestones[i].amount else 0.0
  {
    var ms := r.contract.milestones;
    SumInMarked(r, r', ms, i, MilestoneState.Released);
    SumInMarked(r, r', ms, i, MilestoneState.Refunded);
  }

  lemma AmountsPositive(s: System, id: EscrowId, i: nat, r': Record, k: W.Key)
    requires Core(s, id) && W.Inv(s.wallet) && i < |s.escrows[id].contract.milestones|
    ensures s.escrows[id].contract.milestones[i].amount > 0.0 && StakeReturned(s.escrows[id], r', k) >= 0.0
    ensures k.did != s.escrows[id].contract.payee ==> StakeReturned(s.escrows[id], r', k) == 0.0
  {
    var r := s.escrows[id];
    var m := r.contract.milestones[i];
    assert MilestoneOk(s, r, m);
    assert s.wallet.holds[r.holdIds[m.id]].amount == m.amount;
  }

  /** What the delivery's own checksum rejects: a dispute on work that passes it. */
  predicate Frivolous(s: System, id: EscrowId, mid: MilestoneId) {
    && id in s.escrows && mid in s.escrows[id].milestones && Find(s.escrows[id].contract.milestones, mid).Some?
    && SaidByHash(s.escrows[id], Find(s.escrows[id].contract.milestones, mid).value) == Pass
  }

  /** What a frivolous dispute adds to a balance: the milestone and a freed stake to the payee, and the
    bond from the disputer to the payee. */
  lemma FrivolousMoves(s: System, id: EscrowId, disputer: Did, mid: MilestoneId, bond: Option<Money>, now: int, k: W.Key)
    requires RecordOk(s, id) && W.Inv(s.wallet) && Frivolous(s, id, mid) && Dispute(s, id, disputer, mid, bond, now).Done?
    ensures var r := s.escrows[id]; var m := Find(r.contract.milestones, mid).value; var s' := Dispute(s, id, disputer, mid, bond, now).state;
            && id in s'.escrows && m.amount > 0.0 && StakeReturned(r, s'.escrows[id], k) >= 0.0
            && (k.did != r.contract.payee ==> StakeReturned(r, s'.escrows[id], k) == 0.0)
            && W.Available(s'.wallet, k)
               == W.Available(s.wallet, k) + (if k == r.contract.PayeeKey() then m.amount else 0.0) + StakeReturned(r, s'.escrows[id], k)
                  - BondLocked(disputer, bond, k) + BondPaid(r.contract.payee, bond, k)
  {
    CoreGives(s, id);
    var r := s.escrows[id];
    var i := NamedMilestone(s, id, mid);
    var m := r.contract.milestones[i];
    DisputeOutcome(s, id, disputer, mid, bond, now);
    DisputeEffect(s, id, disputer, mid, bond, now);
    assert !StateOf(r, mid).Settled() && SaidByHash(r, m) == Pass && Find(r.contract.milestones, mid) == Some(m);
    var s' := Dispute(s, id, disputer, mid, bond, now).state;
    var r' := s'.escrows[id];
    assert r'.contract == r.contract;
    AmountsPositive(s, id, i, r', k);
    assert DistinctIds(r.contract.milestones);
    hide RecordOk, Core, W.Inv, Dispute, Touches, SaidByHash, DisputeStates, Owed, StakeReturned, BondLocked, BondPaid, StateOf, DistinctIds;
    OwedAfterPass(r, r', i, k);
    assert DisputePays(s, s', id, m, Pass, disputer, bond);
  }

  /** A disputer whose dispute the checksum rejects is out of pocket by the bond if and only if it is
    not the payee who disputes: the bond goes to the payee, whoever posted it. */
  lemma FrivolousBondIff(s: System, id: EscrowId, disputer: Did, mid: MilestoneId, bond: Money, now: int)
    requires RecordOk(s, id) && W.Inv(s.wallet) && Frivolous(s, id, mid) && Dispute(s, id, disputer, mid, Some(bond), now).Done?
    ensures var r := s.escrows[id]; var m := Find(r.contract.milestones, mid).value;
            var s' := Dispute(s, id, disputer, mid, Some(bond), now).state;
            var k, p := W.Key(disputer, bond.currency), W.Key(r.contract.payee, bond.currency);
            && (W.Available(s'.wallet, k) == W.Available(s.wallet, k) - bond.amount <==> disputer != r.contract.payee)
            && id in s'.escrows
            && W.Available(s'.wallet, p)
               == W.Available(s.wallet, p) + (if p == r.contract.PayeeKey() then m.amount else 0.0) + StakeReturned(r, s'.escrows[id], p)
                  + (if disputer != r.contract.payee then bond.amount else 0.0)
  {
    var r := s.escrows[id];
    DisputeOutcome(s, id, disputer, mid, Some(bond), now);
    assert bond.amount > 0.0;
    hide RecordOk, W.Inv, Dispute, Frivolous, W.Available, StakeReturned;
    FrivolousMoves(s, id, disputer, mid, Some(bond), now, W.Key(disputer, bond.currency));
    FrivolousMoves(s, id, disputer, mid, Some(bond), now, W.Key(r.contract.payee, bond.currency));
  }

  /** The timeout succeeds exactly on an open escrow from deliver_by on. */
  lemma TimeoutOutcome(s: System, id: EscrowId, now: int)
    requires RecordOk(s, id) && W.Inv(s.wallet)
    ensures OnTimeout(s, id, now).Done? <==> s.escrows[id].state == EscrowState.Open && now >= s.escrows[id].contract.deliverBy
  {
    CoreGives(s, id);
    if RequireOpenish(s, id).None? {
      OpenWhenOpenish(s, id);
      hide RecordOk, W.Inv, SweepTimeout, UnsettledOf, Kept, Pays, FullySettled, Becomes;
      SweepEffect(s, id, if s.escrows[id].contract.onTimeout == RefundPayer then Refund else Pay, now);
    }
  }

  /** Redeeming a ruling succeeds exactly for a party of an escalated escrow once there is a ruling. */
  lemma ResolveOutcome(s: System, id: EscrowId, caller: Did, ruling: Option<bool>, now: int)
    requires RecordOk(s, id) && W.Inv(s.wallet)
    ensures var r := s.escrows[id];
            ResolveEscalation(s, id, caller, ruling, now).Done?
            <==> r.escalation.Some? && (caller == r.contract.payer || caller == r.contract.payee) && ruling.Some?
  {
    CoreGives(s, id);
    var r := s.escrows[id];
    assert r.escalation.Some? <==> r.state == EscrowState.Disputed;
    if r.escalation.Some? && ruling.Some? {
      hide RecordOk, W.Inv, SettleDisputeRuling, SettleTimeoutRuling, Kept, Pays, FullySettled, Becomes, RulingPays, RulingStates, ProviderWins;
      match r.escalation.value
      case TimeoutRuling(_) => TimeoutRulingEffect(s, id, ruling.value, now);
      case DisputeRuling(_, _) => DisputeRulingEffect(s, id, ruling.value, now);
    }
  }

  // ---- refusals ---------------------------------------------------------------------------

  /** Every call on an escrow that does not exist throws not found and changes nothing. */
  lemma UnknownRefused(s: System, id: EscrowId, who: Did, mid: MilestoneId, hash: string, bond: Option<Money>, ruling: Option<bool>, now: int)
    requires id !in s.escrows
    ensures Deliver(s, id, who, mid, hash, now) == Accept(s, id, who, mid, now) == Dispute(s, id, who, mid, bond, now)
         == OnTimeout(s, id, now) == ResolveEscalation(s, id, who, ruling, now) == Thrown(s, NotFound)
  {
  }

  /** A delivery that throws says why - closed, not the provider, no such milestone, or already settled - and
    except in the last case changes nothing. */
  lemma DeliverRefused(s: System, id: EscrowId, provider: Did, mid: MilestoneId, hash: string, now: int)
    requires RecordOk(s, id) && W.Inv(s.wallet) && Deliver(s, id, provider, mid, hash, now).Thrown?
    ensures var r := s.escrows[id]; var o := Deliver(s, id, provider, mid, hash, now);
            && o.error == (if r.state != EscrowState.Open then Conflict
                           else if provider != r.contract.payee then Forbidden
                           else if Find(r.contract.milestones, mid).None? then NotFound else Conflict)
            && (r.state != EscrowState.Open || provider != r.contract.payee || Find(r.contract.milestones, mid).None? ==> o.state == s)
  {
    DeliverOutcome(s, id, provider, mid, hash, now);
    OpenIffOpenish(s, id);
    hide RecordOk, W.Inv, MarkDelivered, JudgeDelivery, Recomputed, ThenCloses, EndOnHash, Find;
  }

  lemma OpenIffOpenish(s: System, id: EscrowId)
    requires RecordOk(s, id)
    ensures id in s.escrows && RequireOpenish(s, id) == if s.escrows[id].state == EscrowState.Open then None else Some(Conflict)
  {
  }

  lemma AcceptRefused(s: System, id: EscrowId, payer: Did, mid: MilestoneId, now: int)
    requires RecordOk(s, id) && W.Inv(s.wallet) && Accept(s, id, payer, mid, now).Thrown?
    ensures var r := s.escrows[id];
            Accept(s, id, payer, mid, now)
            == Thrown(s, if r.state != EscrowState.Open then Conflict
                         else if payer != r.contract.payer then Forbidden
                         else if Find(r.contract.milestones, mid).None? then NotFound else Conflict)
  {
    AcceptOutcome(s, id, payer, mid, now);
    OpenIffOpenish(s, id);
    if Find(s.escrows[id].contract.milestones, mid).Some? { var i := NamedMilestone(s, id, mid); }
    hide RecordOk, W.Inv, CaptureMilestone, Recomputed, ThenCloses, Find;
  }

  /** A dispute that throws moves no money and leaves the records alone. */
  lemma DisputeRefused(s: System, id: EscrowId, disputer: Did, mid: MilestoneId, bond: Option<Money>, now: int)
    requires RecordOk(s, id) && W.Inv(s.wallet) && Dispute(s, id, disputer, mid, bond, now).Thrown?
    ensures var r := s.escrows[id]; var o := Dispute(s, id, disputer, mid, bond, now);
            && o.state == s.(wallet := o.state.wallet) && o.state.wallet.holds == s.wallet.holds
            && (forall k :: W.Available(o.state.wallet, k) == W.Available(s.wallet, k))
            && o.error == (if r.state != EscrowState.Open then Conflict
                           else if disputer != r.contract.payer && disputer != r.contract.payee then Forbidden
                           else if Find(r.contract.milestones, mid).None? then NotFound
                           else if StateOf(r, mid).Settled() || now > DisputableFrom(r, mid) + r.contract.disputeWindow then Conflict
                           else if bond.Some? && bond.value.amount <= 0.0 then Invalid else Insufficient)
  {
    var r := s.escrows[id];
    DisputeOutcome(s, id, disputer, mid, bond, now);
    OpenIffOpenish(s, id);
    if r.state == EscrowState.Open && Find(r.contract.milestones, mid).Some? {
      var i := NamedMilestone(s, id, mid);
      if !StateOf(r, mid).Settled() && (disputer == r.contract.payer || disputer == r.contract.payee) {
        DecideRefused(s, id, disputer, i, bond, now);
      }
      hide RecordOk, W.Inv, DecideDispute, Find;
    } else {
      hide RecordOk, W.Inv, DecideDispute, Find;
    }
  }

  /** Deciding can only fail by the bond. */
  lemma DecideRefused(s: System, id: EscrowId, disputer: Did, i: nat, bond: Option<Money>, now: int)
    requires RecordOk(s, id) && W.Inv(s.wallet) && i < |s.escrows[id].contract.milestones| && s.escrows[id].state == EscrowState.Open
    requires !StateOf(s.escrows[id], s.escrows[id].contract.milestones[i].id).Settled()
    requires s.escrows[id].contract.milestones[i].id in s.escrows[id].milestones
    ensures var o := DecideDispute(s, id, disputer, s.escrows[id].contract.milestones[i], bond, now);
            o.Thrown? ==>
              && o.state == s.(wallet := o.state.wallet) && o.state.wallet.holds == s.wallet.holds
              && (forall k :: W.Available(o.state.wallet, k) == W.Available(s.wallet, k))
              && bond.Some? && o.error == if bond.value.amount <= 0.0 then Invalid else Insufficient
  {
    var m := s.escrows[id].contract.milestones[i];
    CoreGives(s, id);
    DecideOutcome(s, id, disputer, i, bond, now);
    BeginOutcome(s, id, disputer, m.id, bond);
    BondRefused(s, id, disputer, m.id, bond);
    hide RecordOk, W.Inv, BeginDispute, DisputeFails, DisputeHolds, Conclude, VerdictOf;
  }

  lemma BondRefused(s: System, id: EscrowId, disputer: Did, mid: MilestoneId, bond: Option<Money>)
    requires id in s.escrows && mid in s.escrows[id].milestones
    ensures var o := BeginDispute(s, id, disputer, mid, bond);
            o.Thrown? ==>
              && o.state == s.(wallet := o.state.wallet) && o.state.wallet.holds == s.wallet.holds
              && (forall k :: W.Available(o.state.wallet, k) == W.Available(s.wallet, k))
              && bond.Some? && o.error == if bond.value.amount <= 0.0 then Invalid else Insufficient
  {
  }

  /** A timeout or a ruling that throws changes nothing. */
  lemma TimeoutRefused(s: System, id: EscrowId, now: int)
    requires RecordOk(s, id) && W.Inv(s.wallet) && OnTimeout(s, id, now).Thrown?
    ensures OnTimeout(s, id, now) == Thrown(s, Conflict)
  {
    TimeoutOutcome(s, id, now);
    OpenIffOpenish(s, id);
    hide RecordOk, W.Inv, SweepTimeout, UnsettledOf;
  }

  lemma ResolveRefused(s: System, id: EscrowId, caller: Did, ruling: Option<bool>, now: int)
    requires RecordOk(s, id) && W.Inv(s.wallet) && ResolveEscalation(s, id, caller, ruling, now).Thrown?
    ensures var r := s.escrows[id];
            ResolveEscalation(s, id, caller, ruling, now)
            == Thrown(s, if r.escalation.Some? && caller != r.contract.payer && caller != r.contract.payee then Forbidden else Conflict)
  {
    ResolveOutcome(s, id, caller, ruling, now);
    assert s.escrows[id].escalation.Some? <==> s.escrows[id].state == EscrowState.Disputed;
    hide RecordOk, W.Inv, SettleDisputeRuling, SettleTimeoutRuling;
  }
}
