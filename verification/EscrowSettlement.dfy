/** Timeouts and rulings settle an escrow completely. */
module EscrowSettlement {
  import opened Outcomes
  import opened Escrow
  import opened EscrowInvariant
  import opened EscrowMoves
  import opened EscrowCalls
  import opened Spends
  import W = Wallet

  /** The state an escrow with nothing left to settle ends in, unless a ruling on a timeout closed it. */
  function EndState(r: Record): EscrowState {
    if AllReleased(r) then EscrowState.Released else EscrowState.Resolved
  }

  /** No hold of any kind is still locked for the escrow. */
  ghost predicate NothingLocked(s: System, id: EscrowId) {
    forall h :: 0 <= h < |s.wallet.holds| && s.wallet.holds[h].state == W.Active ==> !Owns(s.wallet.holds[h].ref, id)
  }

  /** Every milestone is released or refunded, the amounts add up to the contract total exactly, and
    nothing is locked any more. */
  ghost predicate FullySettled(s: System, id: EscrowId) {
    && id in s.escrows
    && var r := s.escrows[id];
       && AllSettled(r) && Captured(r) + RefundedSum(r) == r.contract.total
       && r.stakeHold.None? && r.bondHold.None? && NothingLocked(s, id)
  }

  lemma SettledLocksNothing(s: System, id: EscrowId)
    requires Core(s, id) && AllSettled(s.escrows[id]) && s.escrows[id].bondHold.None?
    ensures FullySettled(s, id)
  {
    var r := s.escrows[id];
    SettledAddsUp(r, r.contract.milestones);
    forall h | 0 <= h < |s.wallet.holds| && Owns(s.wallet.holds[h].ref, id) ensures s.wallet.holds[h].state != W.Active {
      if s.wallet.holds[h].ref.FundRef? && Named(r, h, s.wallet.holds[h].ref) {
        var i := FindGives(r.contract.milestones, s.wallet.holds[h].ref.milestoneId);
        assert MilestoneOk(s, r, r.contract.milestones[i]);
      }
    }
  }

  /** A milestone of a record in order that is not unsettled or disputed is settled. */
  lemma SettledOtherwise(s: System, id: EscrowId, i: nat)
    requires Core(s, id) && i < |s.escrows[id].contract.milestones|
    ensures var st := StateOf(s.escrows[id], s.escrows[id].contract.milestones[i].id); st.Unsettled() || st.Disputed? || st.Settled()
  {
    assert MilestoneOk(s, s.escrows[id], s.escrows[id].contract.milestones[i]);
  }

  // ---- timeout ----------------------------------------------------------------------------

  lemma SweepSettlesAll(s: System, s1: System, id: EscrowId, st: MilestoneState)
    requires Core(s, id) && id in s1.escrows && st.Settled() && s1.escrows[id].contract == s.escrows[id].contract
    requires var r, r1 := s.escrows[id], s1.escrows[id]; var ms := r.contract.milestones;
             && Becomes(r, r1, st)
             && (forall i :: 0 <= i < |ms| ==> !StateOf(r, ms[i].id).Disputed?)
             && (forall i :: 0 <= i < |ms| && StateOf(r, ms[i].id).Unsettled() ==> StateOf(r1, ms[i].id) == st)
    ensures AllSettled(s1.escrows[id])
  {
    var r, r1 := s.escrows[id], s1.escrows[id];
    forall i | 0 <= i < |r1.contract.milestones| ensures StateOf(r1, r1.contract.milestones[i].id).Settled() {
      SettledOtherwise(s, id, i);
    }
  }

  /** After deliver_by, refund or release settles every open milestone the same way and finishes the
    escrow: money moves exactly as the milestones say and the stake goes back to the provider. */
  lemma SweepEffect(s: System, id: EscrowId, how: Settling, now: int)
    requires RecordOk(s, id) && W.Inv(s.wallet) && s.escrows[id].state == EscrowState.Open
    ensures var r := s.escrows[id]; var o := SweepTimeout(s, id, UnsettledOf(r, r.contract.milestones), how, now);
            && o.Done? && Kept(s, o.state, id) && Pays(s, o.state, id)
            && FullySettled(o.state, id) && Becomes(r, o.state.escrows[id], TargetOf(how))
            && o.state.escrows[id].state == EndState(o.state.escrows[id])
  {
    var r := s.escrows[id];
    var us := UnsettledOf(r, r.contract.milestones);
    OpenRecord(s, id);
    hide *;
    AllSettles(s, id, us, how, now);
    SweepIs(s, id, us, how, now);
    var s1 := SettleAll(s, id, us, how, now).state;
    ProgressGives(s, s1, id);
    ProgressParts(s, s1, id);
    SweepFinishes(s, s1, id);
    SweptState(s1, id);
    SweptStates(r, s1.escrows[id], SweptRecord(s1, id).escrows[id], TargetOf(how));
  }

  lemma OpenRecord(s: System, id: EscrowId)
    requires RecordOk(s, id) && s.escrows[id].state == EscrowState.Open
    ensures Core(s, id) && id in s.escrows
    ensures s.escrows[id].bondHold.None? && s.escrows[id].escalation.None?
    ensures forall i :: 0 <= i < |s.escrows[id].contract.milestones| ==> !StateOf(s.escrows[id], s.escrows[id].contract.milestones[i].id).Disputed?
  {
    assert StateOk(s.escrows[id]);
  }

  lemma SweepIs(s: System, id: EscrowId, us: seq<Milestone>, how: Settling, now: int)
    requires id in s.escrows && SettleAll(s, id, us, how, now).Done?
    ensures SweepTimeout(s, id, us, how, now) == Done(SweptRecord(SettleAll(s, id, us, how, now).state, id))
  {
    hide SettleAll;
  }

  lemma SweptStates(r: Record, r1: Record, r2: Record, st: MilestoneState)
    requires Becomes(r, r1, st) && forall mid :: StateOf(r2, mid) == StateOf(r1, mid)
    ensures Becomes(r, r2, st)
  {
    hide StateOf;
  }

  /** Sweeping over the open milestones settles all of them the same way. */
  lemma AllSettles(s: System, id: EscrowId, us: seq<Milestone>, how: Settling, now: int)
    requires Core(s, id) && W.Inv(s.wallet)
    requires us == UnsettledOf(s.escrows[id], s.escrows[id].contract.milestones)
    requires forall i :: 0 <= i < |s.escrows[id].contract.milestones| ==> !StateOf(s.escrows[id], s.escrows[id].contract.milestones[i].id).Disputed?
    ensures var o := SettleAll(s, id, us, how, now);
            && o.Done? && Progress(s, o.state, id) && AllSettled(o.state.escrows[id])
            && Becomes(s.escrows[id], o.state.escrows[id], TargetOf(how))
  {
    var r := s.escrows[id];
    var ms := r.contract.milestones;
    assert id in s.escrows && TargetOf(how).Settled();
    hide *;
    UnsettledFacts(r, ms);
    SettleAllEffect(s, id, us, how, now);
    var s1 := SettleAll(s, id, us, how, now).state;
    ProgressGives(s, s1, id);
    forall i | 0 <= i < |ms| && StateOf(r, ms[i].id).Unsettled() ensures StateOf(s1.escrows[id], ms[i].id) == TargetOf(how) {
      var j :| 0 <= j < |us| && us[j] == ms[i];
    }
    SweepSettlesAll(s, s1, id, TargetOf(how));
  }

  function SweptRecord(s: System, id: EscrowId): System
    requires id in s.escrows
  {
    Recomputed(Put(s, id, s.escrows[id].(state := EscrowState.TimedOut)), id)
  }

  /** The recomputation after the sweep overwrites timed_out. */
  lemma SweptState(s: System, id: EscrowId)
    requires id in s.escrows && AllSettled(s.escrows[id])
    ensures var r' := SweptRecord(s, id).escrows[id]; r'.state == EndState(r')
  {
    var r := s.escrows[id];
    var r1 := r.(state := EscrowState.TimedOut);
    SettledUnchanged(r, r1);
    SettledUnchanged(r1, SweptRecord(s, id).escrows[id]);
    hide AllSettled, AllReleased;
  }

  lemma SweepFinishes(s: System, s1: System, id: EscrowId)
    requires Core(s1, id) && W.Inv(s1.wallet) && id in s.escrows && Touches(s, s1, id) && Pays(s, s1, id)
    requires var r, r1 := s.escrows[id], s1.escrows[id];
             && r1.contract == r.contract && AllSettled(r1) && r1.bondHold.None? && r1.escalation.None?
             && (r1.stakeHold == r.stakeHold || r1.stakeHold.None?)
    ensures var s' := SweptRecord(s1, id);
            && Kept(s, s', id) && Pays(s, s', id) && FullySettled(s', id)
            && (forall mid :: StateOf(s'.escrows[id], mid) == StateOf(s1.escrows[id], mid))
  {
    var r1 := s1.escrows[id];
    var s2 := Put(s1, id, r1.(state := EscrowState.TimedOut));
    CoreRestated(s1, s2, id);
    SettledUnchanged(r1, s2.escrows[id]);
    NoneDisputed(r1);
    hide Core, Touches, Pays, W.Inv, RecordOk;
    RecomputeOk(s2, id);
    var s3 := SweptRecord(s1, id);
    SettledUnchanged(r1, s3.escrows[id]);
    TouchesTransitive(s, s1, s2, id);
    TouchesTransitive(s, s2, s3, id);
    hide AllSettled, AllReleased;
    PaysTransitive(s, s1, s2, id);
    PaysTransitive(s, s2, s3, id);
    RecordOkGives(s3, id);
    SettledLocksNothing(s3, id);
  }

  lemma RecordOkGives(s: System, id: EscrowId)
    requires RecordOk(s, id)
    ensures Core(s, id) && StateOk(s.escrows[id])
  {
  }

  lemma NoneDisputed(r: Record)
    requires AllSettled(r)
    ensures forall i :: 0 <= i < |r.contract.milestones| ==> !StateOf(r, r.contract.milestones[i].id).Disputed?
  {
  }

  /** The timeout call, in every case. A sweep never leaves the escrow timed out. */
  lemma TimeoutEffect(s: System, id: EscrowId, now: int)
    requires RecordOk(s, id) && W.Inv(s.wallet)
    ensures var r := s.escrows[id]; var o := OnTimeout(s, id, now);
            && Kept(s, o.state, id) && Pays(s, o.state, id)
            && (o.Done? && r.contract.onTimeout == Arbitrate ==> o.state.wallet == s.wallet && o.state.escrows[id].state == EscrowState.Disputed)
            && (o.Done? && r.contract.onTimeout != Arbitrate ==>
                  && FullySettled(o.state, id) && o.state.escrows[id].state == EndState(o.state.escrows[id])
                  && Becomes(r, o.state.escrows[id], if r.contract.onTimeout == RefundPayer then MilestoneState.Refunded else MilestoneState.Released))
  {
    NothingKept(s, id);
    CoreGives(s, id);
    var r := s.escrows[id];
    if RequireOpenish(s, id).None? && now >= r.contract.deliverBy {
      OpenWhenOpenish(s, id);
      if r.contract.onTimeout == Arbitrate {
        ArbitrationKept(s, id);
        hide RecordOk, Kept, Pays, W.Inv, StateOf, UnsettledOf;
      } else {
        hide RecordOk, Kept, Pays, W.Inv, SweepTimeout, FullySettled, Becomes, StateOf, UnsettledOf;
        SweepEffect(s, id, if r.contract.onTimeout == RefundPayer then Refund else Pay, now);
      }
    } else {
      hide RecordOk, Kept, Pays, W.Inv, SweepTimeout;
    }
  }

  lemma ArbitrationKept(s: System, id: EscrowId)
    requires RecordOk(s, id) && W.Inv(s.wallet) && s.escrows[id].state == EscrowState.Open
    ensures var r := s.escrows[id];
            var s' := Put(s, id, r.(state := EscrowState.Disputed, escalation := Some(TimeoutRuling(Ids(UnsettledOf(r, r.contract.milestones))))));
            Kept(s, s', id) && Pays(s, s', id)
  {
    var r := s.escrows[id];
    var ms := r.contract.milestones;
    var r' := r.(state := EscrowState.Disputed, escalation := Some(TimeoutRuling(Ids(UnsettledOf(r, ms)))));
    assert StateOk(r) && Core(s, id);
    CoreRestated(s, Put(s, id, r'), id);
    hide Core, Touches, Pays, W.Inv;
    UnsettledSame(r, r', ms);
    assert forall mid :: StateOf(r', mid) == StateOf(r, mid);
    hide StateOf, UnsettledOf;
  }

  lemma {:induction false} UnsettledSame(r: Record, r': Record, ms: seq<Milestone>)
    requires r.milestones == r'.milestones
    ensures UnsettledOf(r, ms) == UnsettledOf(r', ms)
    decreases |ms|
  {
    if ms != [] { UnsettledSame(r, r', ms[1..]); }
  }

  lemma {:induction false} IdsKnown(r: Record, ms: seq<Milestone>)
    requires forall j :: 0 <= j < |ms| ==> ms[j] in r.contract.milestones
    requires DistinctIds(r.contract.milestones)
    ensures |Ids(ms)| == |ms| && forall j :: 0 <= j < |ms| ==> Ids(ms)[j] == ms[j].id && Find(r.contract.milestones, ms[j].id).Some?
    decreases |ms|
  {
    if ms != [] {
      assert forall j :: 0 <= j < |ms[1..]| ==> ms[1..][j] == ms[j + 1];
      IdsKnown(r, ms[1..]);
      var i :| 0 <= i < |r.contract.milestones| && r.contract.milestones[i] == ms[0];
      FindByIndex(r.contract.milestones, i);
    }
  }

  // ---- rulings ----------------------------------------------------------------------------

  /** The last write of a ruling, over a record that has nothing left to settle. */
  lemma ClosesEscalation(s: System, s1: System, id: EscrowId, final: EscrowState)
    requires Core(s1, id) && W.Inv(s1.wallet) && id in s.escrows && Touches(s, s1, id)
    requires var r, r1 := s.escrows[id], s1.escrows[id]; r1.contract == r.contract && AllSettled(r1) && r1.bondHold.None?
    requires final == EscrowState.Resolved || final == EscrowState.TimedOut
    ensures var s' := CloseEscalation(s1, id, final);
            && Kept(s, s', id) && FullySettled(s', id) && s'.wallet == s1.wallet && s'.spends == s1.spends
            && s'.escrows[id].stakeHold == s1.escrows[id].stakeHold
            && s'.escrows[id].milestones == s1.escrows[id].milestones
            && Captured(s'.escrows[id]) == Captured(s1.escrows[id]) && (forall k :: Owed(s'.escrows[id], k) == Owed(s1.escrows[id], k))
  {
    var r1 := s1.escrows[id];
    var s' := CloseEscalation(s1, id, final);
    CoreRestated(s1, s', id);
    SettledUnchanged(r1, s'.escrows[id]);
    NoneDisputed(s'.escrows[id]);
    OwedSame(r1, s'.escrows[id]);
    hide Core, Touches, Pays, W.Inv, Owed, Captured, AllSettled, FullySettled, StateOf;
    TouchesTransitive(s, s1, s', id);
    SettledLocksNothing(s', id);
  }

  /** A ruling on a timeout pays or refunds every open milestone, as it says, and the stake returns. */
  lemma TimeoutRulingEffect(s: System, id: EscrowId, upheld: bool, now: int)
    requires RecordOk(s, id) && W.Inv(s.wallet) && s.escrows[id].state == EscrowState.Disputed
    requires s.escrows[id].escalation.Some? && s.escrows[id].escalation.value.TimeoutRuling?
    ensures var r := s.escrows[id]; var o := SettleTimeoutRuling(s, id, r.escalation.value.milestoneIds, upheld, now);
            && o.Done? && id in o.state.escrows
            && var s' := CloseEscalation(o.state, id, EscrowState.TimedOut);
               && Kept(s, s', id) && FullySettled(s', id) && Pays(s, s', id)
               && Becomes(r, s'.escrows[id], if upheld then MilestoneState.Released else MilestoneState.Refunded)
  {
    TimeoutEscalated(s, id);
    var r := s.escrows[id];
    var us := UnsettledOf(r, r.contract.milestones);
    hide RecordOk, Core, Touches, Pays, W.Inv, SettleListed, Progress, UnsettledOf, StateOf, Owed, Captured, Kept, FullySettled, Becomes, CloseEscalation;
    ListedSettles(s, id, us, if upheld then Pay else Refund, now);
    var s1 := SettleListed(s, id, r.escalation.value.milestoneIds, if upheld then Pay else Refund, now).state;
    ProgressGives(s, s1, id);
    ProgressParts(s, s1, id);
    NothingLeft(s1, id, r.contract.milestones);
    ClosesEscalation(s, s1, id, EscrowState.TimedOut);
    ClosedPays(s, s1, id);
    ClosedStates(r, s1, id, if upheld then MilestoneState.Released else MilestoneState.Refunded);
  }

  lemma TimeoutEscalated(s: System, id: EscrowId)
    requires RecordOk(s, id) && s.escrows[id].escalation.Some? && s.escrows[id].escalation.value.TimeoutRuling?
    ensures Core(s, id)
    ensures var r := s.escrows[id];
            && r.bondHold.None?
            && r.escalation.value.milestoneIds == Ids(UnsettledOf(r, r.contract.milestones))
            && (forall i :: 0 <= i < |r.contract.milestones| ==> !StateOf(r, r.contract.milestones[i].id).Disputed?)
  {
    assert StateOk(s.escrows[id]);
  }

  lemma ClosedStates(r: Record, s1: System, id: EscrowId, st: MilestoneState)
    requires id in s1.escrows && Becomes(r, s1.escrows[id], st)
    ensures Becomes(r, CloseEscalation(s1, id, EscrowState.TimedOut).escrows[id], st)
  {
    assert forall mid :: StateOf(CloseEscalation(s1, id, EscrowState.TimedOut).escrows[id], mid) == StateOf(s1.escrows[id], mid);
  }

  lemma ProgressParts(s: System, s': System, id: EscrowId)
    requires Progress(s, s', id)
    ensures id in s.escrows && id in s'.escrows && Touches(s, s', id) && Pays(s, s', id)
    ensures s'.escrows[id].stakeHold == s.escrows[id].stakeHold || s'.escrows[id].stakeHold.None?
  {
  }

  lemma ClosedPays(s: System, s1: System, id: EscrowId)
    requires id in s.escrows && id in s1.escrows && Pays(s, s1, id) && s1.escrows[id].contract == s.escrows[id].contract
    requires s1.escrows[id].stakeHold == s.escrows[id].stakeHold || s1.escrows[id].stakeHold.None?
    ensures Pays(s, CloseEscalation(s1, id, EscrowState.TimedOut), id)
  {
    var s2 := CloseEscalation(s1, id, EscrowState.TimedOut);
    PaysQuietly(s1, s2, id);
    PaysTransitive(s, s1, s2, id);
  }

  /** Sweeping over the listed milestones settles all of them as ruled. */
  lemma ListedSettles(s: System, id: EscrowId, us: seq<Milestone>, how: Settling, now: int)
    requires Core(s, id) && W.Inv(s.wallet)
    requires us == UnsettledOf(s.escrows[id], s.escrows[id].contract.milestones)
    requires forall i :: 0 <= i < |s.escrows[id].contract.milestones| ==> !StateOf(s.escrows[id], s.escrows[id].contract.milestones[i].id).Disputed?
    ensures var o := SettleListed(s, id, Ids(us), how, now);
            && o.Done? && Progress(s, o.state, id) && AllSettled(o.state.escrows[id])
            && Becomes(s.escrows[id], o.state.escrows[id], TargetOf(how))
  {
    var r := s.escrows[id];
    var ms := r.contract.milestones;
    UnsettledFacts(r, ms);
    IdsKnown(r, us);
    SettleListedEffect(s, id, Ids(us), how, now);
    var s1 := SettleListed(s, id, Ids(us), how, now).state;
    ProgressGives(s, s1, id);
    hide Core, Progress, W.Inv, SettleListed, UnsettledOf;
    forall i | 0 <= i < |ms| && StateOf(r, ms[i].id).Unsettled() ensures StateOf(s1.escrows[id], ms[i].id) == TargetOf(how) {
      var j :| 0 <= j < |us| && us[j] == ms[i];
      assert Ids(us)[j] == ms[i].id;
    }
    SweepSettlesAll(s, s1, id, TargetOf(how));
  }

  /** With everything settled, the defensive refund of the rest does nothing. */
  lemma {:induction false} NothingLeft(s: System, id: EscrowId, ms: seq<Milestone>)
    requires id in s.escrows && forall j :: 0 <= j < |ms| ==> StateOf(s.escrows[id], ms[j].id).Settled()
    ensures RefundRest(s, id, ms, None) == Done(s)
    decreases |ms|
  {
    if ms != [] {
      assert StateOf(s.escrows[id], ms[0].id).Settled();
      assert forall j :: 0 <= j < |ms[1..]| ==> ms[1..][j] == ms[j + 1];
      NothingLeft(s, id, ms[1..]);
    }
  }

  /** Money moved by a ruling on a disputed milestone: what the records say, the stake back to the
    provider or slashed to the payer, and the bond to its owner or to the other party. */
  ghost predicate RulingPays(s: System, s': System, id: EscrowId, m: Milestone, forProvider: bool, returned: bool, winner: Did)
    requires id in s.escrows && id in s'.escrows
  {
    var r, r' := s.escrows[id], s'.escrows[id];
    && (r.bondHold.Some? ==> r.bondHold.value < |s.wallet.holds|)
    && (forall k :: W.Available(s'.wallet, k) == W.Available(s.wallet, k) + Owed(r', k) - Owed(r, k)
                      + (if forProvider then StakeReturned(r, r', k) else SlashPaid(r, m, k)) + BondOut(s, r, returned, winner, k))
    && (forall k :: TotalSpent(s'.spends, k)
                 == TotalSpent(s.spends, k) + if k == r.contract.PayerKey() then Captured(r') - Captured(r) else 0.0)
  }

  /** The disputed milestone goes to the winner, and the others that were open are refunded. */
  ghost predicate RulingStates(r: Record, r': Record, m: Milestone, forProvider: bool) {
    && StateOf(r', m.id) == (if forProvider then MilestoneState.Released else MilestoneState.Refunded)
    && (forall mid :: mid != m.id ==>
          StateOf(r', mid) == StateOf(r, mid) || (StateOf(r, mid).Unsettled() && StateOf(r', mid).Refunded?))
  }

  /** The state after the disputed milestone and the bond are dealt with. */
  ghost predicate Ruled(s: System, s1: System, id: EscrowId, i: nat, forProvider: bool, returned: bool, winner: Did) {
    && Core(s, id) && i < |s.escrows[id].contract.milestones|
    && Core(s1, id) && W.Inv(s1.wallet) && Touches(s, s1, id)
    && var r, r1 := s.escrows[id], s1.escrows[id]; var m := r.contract.milestones[i];
       && r1.contract == r.contract && r1.bondHold.None?
       && StateOf(r1, m.id) == (if forProvider then MilestoneState.Released else MilestoneState.Refunded)
       && (forall other :: other != m.id ==> StateOf(r1, other) == StateOf(r, other))
       && (if forProvider then r1.stakeHold == r.stakeHold || r1.stakeHold.None? else r1.stakeHold.None?)
       && RulingPays(s, s1, id, m, forProvider, returned, winner)
  }

  lemma RulesOnMilestone(s: System, id: EscrowId, i: nat, forProvider: bool, now: int, returned: bool, winner: Did)
    requires Core(s, id) && W.Inv(s.wallet) && i < |s.escrows[id].contract.milestones|
    requires !StateOf(s.escrows[id], s.escrows[id].contract.milestones[i].id).Settled()
    ensures var m := s.escrows[id].contract.milestones[i]; var o1 := RuleOnMilestone(s, id, m, forProvider, now);
            && o1.Done? && id in o1.state.escrows
            && var o := CloseBond(o1.state, id, returned, winner);
               o.Done? && id in o.state.escrows && Ruled(s, o.state, id, i, forProvider, returned, winner)
  {
    CoreGives(s, id);
    hide Core, W.Inv, Touches, Ruled, CaptureMilestone, SlashProviderStake, RefundMilestone, CloseBond, StateOf;
    if forProvider {
      RulesForProvider(s, id, i, now, returned, winner);
    } else {
      RulesForPayer(s, id, i, returned, winner);
    }
  }

  lemma RulesForProvider(s: System, id: EscrowId, i: nat, now: int, returned: bool, winner: Did)
    requires Core(s, id) && W.Inv(s.wallet) && i < |s.escrows[id].contract.milestones|
    requires !StateOf(s.escrows[id], s.escrows[id].contract.milestones[i].id).Settled()
    ensures var o1 := CaptureMilestone(s, id, s.escrows[id].contract.milestones[i], now);
            && o1.Done? && id in o1.state.escrows
            && var o := CloseBond(o1.state, id, returned, winner);
               o.Done? && id in o.state.escrows && Ruled(s, o.state, id, i, true, returned, winner)
  {
    CoreGives(s, id);
    hide *;
    var r := s.escrows[id];
    var mid := r.contract.milestones[i].id;
    CaptureThenBond(s, id, i, now, returned, winner);
    var s2 := CloseBond(CaptureMilestone(s, id, r.contract.milestones[i], now).state, id, returned, winner).state;
    CoreGives(s2, id);
    MarkedParts(r, mid);
    PaysIsRuling(s, s2, id, r.contract.milestones[i], returned, winner);
    RuledIntro(s, s2, id, i, true, returned, winner);
  }

  lemma MarkedParts(r: Record, mid: MilestoneId)
    requires mid in r.milestones && !StateOf(r, mid).Settled()
    ensures var r' := Marked(r, mid, MilestoneState.Released).(bondHold := None);
            && r'.contract == r.contract && r'.bondHold.None? && (r'.stakeHold == r.stakeHold || r'.stakeHold.None?)
            && StateOf(r', mid) == MilestoneState.Released && (forall other :: other != mid ==> StateOf(r', other) == StateOf(r, other))
  {
  }

  lemma PaysIsRuling(s: System, s': System, id: EscrowId, m: Milestone, returned: bool, winner: Did)
    requires id in s.escrows && id in s'.escrows && PaysWithBond(s, s', id, returned, winner)
    ensures RulingPays(s, s', id, m, true, returned, winner)
  {
    hide Owed, Captured, BondOut, W.Available, TotalSpent;
  }

  lemma SlashIsRuling(s: System, s': System, id: EscrowId, m: Milestone, returned: bool, winner: Did)
    requires id in s.escrows && id in s'.escrows && SlashesWithBond(s, s', id, m, returned, winner)
    ensures RulingPays(s, s', id, m, false, returned, winner)
  {
    hide Owed, Captured, BondOut, W.Available, TotalSpent, SlashPaid;
  }

  lemma RuledIntro(s: System, s1: System, id: EscrowId, i: nat, forProvider: bool, returned: bool, winner: Did)
    requires id in s.escrows && id in s1.escrows
    requires Core(s, id) && i < |s.escrows[id].contract.milestones| && Core(s1, id) && W.Inv(s1.wallet) && Touches(s, s1, id)
    requires var r, r1 := s.escrows[id], s1.escrows[id]; var m := r.contract.milestones[i];
             && r1.contract == r.contract && r1.bondHold.None?
             && StateOf(r1, m.id) == (if forProvider then MilestoneState.Released else MilestoneState.Refunded)
             && (forall other :: other != m.id ==> StateOf(r1, other) == StateOf(r, other))
             && (if forProvider then r1.stakeHold == r.stakeHold || r1.stakeHold.None? else r1.stakeHold.None?)
             && RulingPays(s, s1, id, m, forProvider, returned, winner)
    ensures Ruled(s, s1, id, i, forProvider, returned, winner)
  {
    hide Core, W.Inv, Touches, StateOf, RulingPays;
  }

  lemma RulesForPayer(s: System, id: EscrowId, i: nat, returned: bool, winner: Did)
    requires Core(s, id) && W.Inv(s.wallet) && i < |s.escrows[id].contract.milestones|
    requires !StateOf(s.escrows[id], s.escrows[id].contract.milestones[i].id).Settled()
    ensures var m := s.escrows[id].contract.milestones[i]; var o1 := SlashProviderStake(s, id, m);
            && o1.Done? && id in o1.state.escrows
            && var o2 := RefundMilestone(o1.state, id, m, WorkDisputed);
               && o2.Done? && id in o2.state.escrows
               && var o := CloseBond(o2.state, id, returned, winner);
                  o.Done? && id in o.state.escrows && Ruled(s, o.state, id, i, false, returned, winner)
  {
    CoreGives(s, id);
    hide *;
    var r := s.escrows[id];
    var m := r.contract.milestones[i];
    SlashThenBond(s, id, i, returned, winner);
    var s2 := CloseBond(RefundMilestone(SlashProviderStake(s, id, m).state, id, m, WorkDisputed).state, id, returned, winner).state;
    CoreGives(s2, id);
    RefundedAlone(r, m.id);
    RefundedContract(r, m.id);
    SlashIsRuling(s, s2, id, m, returned, winner);
    RuledIntro(s, s2, id, i, false, returned, winner);
  }

  lemma RefundedContract(r: Record, mid: MilestoneId)
    requires mid in r.milestones
    ensures WithMilestone(r, mid, MilestoneState.Refunded).contract == r.contract
  {
  }

  lemma RulingThenRest(s: System, s1: System, s2: System, id: EscrowId, i: nat, forProvider: bool, returned: bool, winner: Did)
    requires Ruled(s, s1, id, i, forProvider, returned, winner) && Progress(s1, s2, id)
    ensures Touches(s, s2, id) && RulingPays(s, s2, id, s.escrows[id].contract.milestones[i], forProvider, returned, winner)
  {
    RuledParts(s, s1, id, i, forProvider, returned, winner);
    ProgressParts(s1, s2, id);
    ProgressGives(s1, s2, id);
    TouchesTransitive(s, s1, s2, id);
    hide Ruled, Progress, Core, W.Inv, Touches, Owed, Captured, SlashPaid, BondOut, StateOf, W.Available, TotalSpent;
  }

  lemma RuledParts(s: System, s1: System, id: EscrowId, i: nat, forProvider: bool, returned: bool, winner: Did)
    requires Ruled(s, s1, id, i, forProvider, returned, winner)
    ensures id in s.escrows && id in s1.escrows && i < |s.escrows[id].contract.milestones|
    ensures Core(s1, id) && W.Inv(s1.wallet) && Touches(s, s1, id)
    ensures s1.escrows[id].contract == s.escrows[id].contract && s1.escrows[id].bondHold.None?
    ensures !forProvider ==> s1.escrows[id].stakeHold.None?
    ensures s1.escrows[id].stakeHold == s.escrows[id].stakeHold || s1.escrows[id].stakeHold.None?
    ensures RulingPays(s, s1, id, s.escrows[id].contract.milestones[i], forProvider, returned, winner)
  {
  }

  lemma RestSettles(s: System, s1: System, s2: System, id: EscrowId, i: nat, forProvider: bool, returned: bool, winner: Did)
    requires Ruled(s, s1, id, i, forProvider, returned, winner) && Core(s2, id) && s2.escrows[id].contract == s1.escrows[id].contract
    requires var r, r1, r2 := s.escrows[id], s1.escrows[id], s2.escrows[id]; var ms := r.contract.milestones;
             && (forall j :: 0 <= j < |ms| && j != i ==> !StateOf(r, ms[j].id).Disputed?)
             && Becomes(r1, r2, MilestoneState.Refunded)
             && (forall j :: 0 <= j < |ms| && ms[j].id != ms[i].id ==> !StateOf(r2, ms[j].id).Unsettled())
    ensures AllSettled(s2.escrows[id]) && RulingStates(s.escrows[id], s2.escrows[id], s.escrows[id].contract.milestones[i], forProvider)
  {
    var r, r1, r2 := s.escrows[id], s1.escrows[id], s2.escrows[id];
    var ms := r.contract.milestones;
    assert DistinctIds(ms);
    forall j | 0 <= j < |ms| ensures StateOf(r2, ms[j].id).Settled() {
      SettledOtherwise(s2, id, j);
      hide Core, Touches, RulingPays, W.Inv;
      if j != i {
        assert ms[j].id != ms[i].id;
        assert StateOf(r1, ms[j].id) == StateOf(r, ms[j].id);
      }
    }
  }

  lemma DisputeEscalated(s: System, id: EscrowId) returns (i: nat)
    requires RecordOk(s, id) && s.escrows[id].escalation.Some? && s.escrows[id].escalation.value.DisputeRuling?
    ensures Core(s, id) && i < |s.escrows[id].contract.milestones|
    ensures var r := s.escrows[id]; var ms := r.contract.milestones;
            && Find(ms, r.escalation.value.milestoneId) == Some(ms[i])
            && (r.escalation.value.disputer == r.contract.payer || r.escalation.value.disputer == r.contract.payee)
            && ms[i].id == r.escalation.value.milestoneId && StateOf(r, ms[i].id).Disputed?
            && (forall j :: 0 <= j < |ms| && j != i ==> !StateOf(r, ms[j].id).Disputed?)
  {
    var r := s.escrows[id];
    assert StateOk(r) && EscalationOk(r, r.escalation) && DistinctIds(r.contract.milestones);
    hide Core;
    i := FindGives(r.contract.milestones, r.escalation.value.milestoneId);
    forall j | 0 <= j < |r.contract.milestones| && j != i ensures r.contract.milestones[j].id != r.contract.milestones[i].id {
    }
  }

  /** An arbiter's ruling on a dispute settles the whole escrow, for any number of milestones. */
  lemma DisputeRulingEffect(s: System, id: EscrowId, upheld: bool, now: int)
    requires RecordOk(s, id) && W.Inv(s.wallet)
    requires s.escrows[id].escalation.Some? && s.escrows[id].escalation.value.DisputeRuling?
    ensures var r := s.escrows[id]; var c := r.contract; var e := r.escalation.value;
            && Find(c.milestones, e.milestoneId).Some?
            && var m := Find(c.milestones, e.milestoneId).value; var p := ForProvider(c, e.disputer, upheld);
               var o := SettleDisputeRuling(s, id, e.milestoneId, e.disputer, upheld, now);
               && o.Done? && id in o.state.escrows
               && var s' := CloseEscalation(o.state, id, EscrowState.Resolved);
                  && Kept(s, s', id) && FullySettled(s', id)
                  && RulingPays(s, s', id, m, p, upheld, BondTaker(c, e.disputer, upheld)) && RulingStates(r, s'.escrows[id], m, p)
  {
    var i := DisputeEscalated(s, id);
    var r := s.escrows[id];
    var c, e := r.contract, r.escalation.value;
    var m, p, winner := c.milestones[i], ProviderWins(c, e.disputer, upheld), c.OtherParty(e.disputer);
    WinnerIs(c, e.disputer, upheld);
    hide ForProvider, BondTaker, Contract.OtherParty, RecordOk, Core, W.Inv, Touches, RuleOnMilestone, CloseBond, Ruled, RulingPays,
         RulingStates, Progress, Kept, FullySettled, StateOf, ProviderWins,
         CloseEscalation, AllSettled, Owed, Captured;
    RulesOnMilestone(s, id, i, p, now, upheld, winner);
    var s1 := CloseBond(RuleOnMilestone(s, id, m, p, now).state, id, upheld, winner).state;
    RestOfRuling(s, s1, id, i, p, upheld, winner);
    var s' := CloseEscalation(RefundRest(s1, id, c.milestones, Some(m.id)).state, id, EscrowState.Resolved);
    if upheld { BondReturned(s, s', id, m, p, winner, BondTaker(c, e.disputer, upheld)); }
  }

  /** A bond that is returned goes to its owner, whoever else might have had it. */
  lemma BondReturned(s: System, s': System, id: EscrowId, m: Milestone, forProvider: bool, winner: Did, other: Did)
    requires id in s.escrows && id in s'.escrows && RulingPays(s, s', id, m, forProvider, true, winner)
    ensures RulingPays(s, s', id, m, forProvider, true, other)
  {
    hide Owed, Captured, W.Available, TotalSpent, SlashPaid, StakeReturned;
  }

  lemma RestOfRuling(s: System, s1: System, id: EscrowId, i: nat, forProvider: bool, returned: bool, winner: Did)
    requires Ruled(s, s1, id, i, forProvider, returned, winner)
    requires var r := s.escrows[id]; forall j :: 0 <= j < |r.contract.milestones| && j != i ==> !StateOf(r, r.contract.milestones[j].id).Disputed?
    ensures id in s.escrows && i < |s.escrows[id].contract.milestones| && id in s1.escrows
    ensures var r := s.escrows[id]; var m := r.contract.milestones[i];
            var o := RefundRest(s1, id, r.contract.milestones, Some(m.id));
            && o.Done? && id in o.state.escrows
            && var s' := CloseEscalation(o.state, id, EscrowState.Resolved);
               && Kept(s, s', id) && FullySettled(s', id)
               && RulingPays(s, s', id, m, forProvider, returned, winner) && RulingStates(r, s'.escrows[id], m, forProvider)
  {
    hide *;
    RuledParts(s, s1, id, i, forProvider, returned, winner);
    var r := s.escrows[id];
    var m := r.contract.milestones[i];
    RefundRestEffect(s1, id, r.contract.milestones, Some(m.id));
    var s2 := RefundRest(s1, id, r.contract.milestones, Some(m.id)).state;
    ProgressGives(s1, s2, id);
    RulingThenRest(s, s1, s2, id, i, forProvider, returned, winner);
    RestSettles(s, s1, s2, id, i, forProvider, returned, winner);
    ClosesEscalation(s, s2, id, EscrowState.Resolved);
    ClosedRuling(s, s2, id, m, forProvider, returned, winner);
  }

  lemma ClosedRuling(s: System, s2: System, id: EscrowId, m: Milestone, forProvider: bool, returned: bool, winner: Did)
    requires id in s.escrows && id in s2.escrows
    requires RulingPays(s, s2, id, m, forProvider, returned, winner) && RulingStates(s.escrows[id], s2.escrows[id], m, forProvider)
    ensures var s' := CloseEscalation(s2, id, EscrowState.Resolved);
            RulingPays(s, s', id, m, forProvider, returned, winner) && RulingStates(s.escrows[id], s'.escrows[id], m, forProvider)
  {
    var s' := CloseEscalation(s2, id, EscrowState.Resolved);
    OwedSame(s2.escrows[id], s'.escrows[id]);
    assert forall mid :: StateOf(s'.escrows[id], mid) == StateOf(s2.escrows[id], mid);
    hide Owed, Captured, StateOf, BondOut, SlashPaid;
  }
}
