/** What is final, and what a dispute decided on the spot can strand. */
module EscrowFinality {
  import opened Amounts
  import opened Outcomes
  import opened Escrow
  import opened EscrowInvariant
  import opened EscrowMoves
  import opened EscrowCalls
  import opened EscrowSettlement
  import opened EscrowRuns
  import W = Wallet

  /** No call of any party acts on the escrow any more. */
  predicate Final(r: Record) {
    r.state in {EscrowState.Released, EscrowState.Resolved, EscrowState.Refunded, EscrowState.TimedOut}
  }

  ghost predicate Untouched(s: System, s': System, id: EscrowId) {
    && id in s.escrows && id in s'.escrows && s'.escrows[id] == s.escrows[id]
    && |s.wallet.holds| <= |s'.wallet.holds|
    && (forall h :: 0 <= h < |s.wallet.holds| && Owns(s.wallet.holds[h].ref, id) ==> s'.wallet.holds[h] == s.wallet.holds[h])
  }

  lemma TouchingOthers(s: System, s': System, e: EscrowId, id: EscrowId)
    requires Touches(s, s', e) && e != id && id in s.escrows
    ensures Untouched(s, s', id)
  {
  }

  lemma FinalUntouched(s: System, call: Call, id: EscrowId)
    requires Inv(s) && Guard(s, call) && id in s.escrows && Final(s.escrows[id])
    ensures Untouched(s, Apply(s, call).state, id)
  {
    match call
    case WalletCall(op) => GuardedWalletHolds(s, op);
    case OpenCall(c, now) => OpenUntouched(s, c, now, id);
    case DeliverCall(e, provider, mid, hash, now) =>
      if e == id || e !in s.escrows {
        assert Apply(s, call).state == s;
      } else {
        assert RecordOk(s, e) && !Redelivers(s, e, provider, mid);
        hide Inv, RecordOk, Deliver, Guard, Redelivers;
        WalletOk(s);
        DeliverKeeps(s, e, provider, mid, hash, now);
        TouchingOthers(s, Apply(s, call).state, e, id);
      }
    case AcceptCall(e, _, _, _) => PartyUntouched(s, call, e, id);
    case DisputeCall(e, _, _, _, _) => PartyUntouched(s, call, e, id);
    case TimeoutCall(e, _) => PartyUntouched(s, call, e, id);
    case ResolveCall(e, _, _, _) => PartyUntouched(s, call, e, id);
  }

  lemma WalletOk(s: System)
    requires Inv(s)
    ensures W.Inv(s.wallet)
  {
  }

  lemma PartyUntouched(s: System, call: Call, e: EscrowId, id: EscrowId)
    requires Inv(s) && id in s.escrows && Final(s.escrows[id])
    requires (call.AcceptCall? || call.DisputeCall? || call.TimeoutCall? || call.ResolveCall?) && call.id == e
    ensures Untouched(s, Apply(s, call).state, id)
  {
    if e == id || e !in s.escrows {
      assert Apply(s, call).state == s;
    } else {
      hide Inv, Apply, Final;
      PartyCallKept(s, call, e);
      TouchingOthers(s, Apply(s, call).state, e, id);
    }
  }

  lemma OpenUntouched(s: System, c: Contract, now: int, id: EscrowId)
    requires Inv(s) && Guard(s, OpenCall(c, now)) && id in s.escrows
    ensures Untouched(s, OpenEscrow(s, c, now).state, id)
  {
    if AmountSum(c.milestones) == c.total && c.total > 0.0 && c.escrowId !in s.escrows {
      if !FirstHoldTakes(s.wallet, c) {
        OpenFailsAtOnce(s, c, now);
      } else {
        OpenOutcome(s, c, now);
        OpenTouches(s, c, now);
        hide OpenEscrow, Inv, Guard;
        TouchingOthers(s, OpenEscrow(s, c, now).state, c.escrowId, id);
      }
    }
  }

  /** A finished escrow never changes again, and neither do the holds taken for it. */
  lemma {:induction false} FinalForever(s: System, calls: seq<Call>, id: EscrowId)
    requires Inv(s) && Guarded(s, calls) && id in s.escrows && Final(s.escrows[id])
    ensures Untouched(s, Run(s, calls), id)
    decreases |calls|
  {
    if calls != [] {
      var s1 := Apply(s, calls[0]).state;
      FinalUntouched(s, calls[0], id);
      CallKeepsIff(s, calls[0]);
      hide Inv, Apply, Guard;
      FinalForever(s1, calls[1..], id);
    }
  }

  /** The milestone carries a delivered hash that its own checksum decides. */
  predicate Decidable(s: System, id: EscrowId, mid: MilestoneId) {
    && id in s.escrows && mid in s.escrows[id].milestones
    && Find(s.escrows[id].contract.milestones, mid).Some?
    && SaidByHash(s.escrows[id], Find(s.escrows[id].contract.milestones, mid).value) != Subjective
  }

  lemma ConcludeFinal(s: System, id: EscrowId)
    requires id in s.escrows
    ensures Final(Conclude(s, id).escrows[id])
  {
  }

  lemma DecidedFinal(s: System, id: EscrowId, disputer: Did, m: Milestone, bond: Option<Money>, now: int)
    requires id in s.escrows && m.id in s.escrows[id].milestones && SaidByHash(s.escrows[id], m) != Subjective
    requires DecideDispute(s, id, disputer, m, bond, now).Done?
    ensures var s' := DecideDispute(s, id, disputer, m, bond, now).state; id in s'.escrows && Final(s'.escrows[id])
  {
    var verdict := VerdictOf(s.escrows[id], m);
    VerdictSaid(s.escrows[id], m);
    hide VerdictOf, SaidByHash, DisputeFails, DisputeHolds, Conclude, Final;
    var s1 := BeginDispute(s, id, disputer, m.id, bond).state;
    if verdict == Pass {
      ConcludeFinal(DisputeFails(s1, id, m, now).state, id);
    } else {
      ConcludeFinal(DisputeHolds(s1, id, m).state, id);
    }
  }

  /** What a decided dispute leaves, in one place. */
  lemma DecidedDispute(s: System, id: EscrowId, disputer: Did, mid: MilestoneId, bond: Option<Money>, now: int)
    requires Inv(s) && Decidable(s, id, mid) && Dispute(s, id, disputer, mid, bond, now).Done?
    ensures var s' := Dispute(s, id, disputer, mid, bond, now).state;
            && id in s'.escrows && RecordOk(s', id) && Final(s'.escrows[id]) && s'.escrows[id].bondHold.None?
            && s'.escrows[id].contract == s.escrows[id].contract
            && StateOf(s'.escrows[id], mid).Settled()
            && (forall other :: other != mid ==> StateOf(s'.escrows[id], other) == StateOf(s.escrows[id], other))
  {
    assert RecordOk(s, id);
    var m := Find(s.escrows[id].contract.milestones, mid).value;
    assert DecideDispute(s, id, disputer, m, bond, now) == Dispute(s, id, disputer, mid, bond, now);
    WalletOk(s);
    hide Inv, RecordOk, Dispute, DecideDispute, DisputePays, W.Inv, VerdictOf, SaidByHash, Final;
    DisputeEffect(s, id, disputer, mid, bond, now);
    DecidedFinal(s, id, disputer, m, bond, now);
    FinalHasNoBond(Dispute(s, id, disputer, mid, bond, now).state, id);
  }

  lemma FinalHasNoBond(s: System, id: EscrowId)
    requires RecordOk(s, id) && Final(s.escrows[id])
    ensures s.escrows[id].bondHold.None?
  {
  }

  /** A dispute that the milestone's checksum decides ends the whole escrow on the spot. It leaves
    nothing locked exactly when every other milestone had been settled before; otherwise, by
    FinalForever, the rest stays locked for good. */
  lemma DisputeStrandsIff(s: System, id: EscrowId, disputer: Did, mid: MilestoneId, bond: Option<Money>, now: int)
    requires Inv(s) && Decidable(s, id, mid) && Dispute(s, id, disputer, mid, bond, now).Done?
    ensures var s' := Dispute(s, id, disputer, mid, bond, now).state; id in s'.escrows && Final(s'.escrows[id])
    ensures var ms := s.escrows[id].contract.milestones;
            NothingLocked(Dispute(s, id, disputer, mid, bond, now).state, id)
            <==> (forall i :: 0 <= i < |ms| && ms[i].id != mid ==> StateOf(s.escrows[id], ms[i].id).Settled())
  {
    DecidedDispute(s, id, disputer, mid, bond, now);
    var s' := Dispute(s, id, disputer, mid, bond, now).state;
    var r, r' := s.escrows[id], s'.escrows[id];
    var ms := r.contract.milestones;
    hide Dispute, Decidable, Inv, Final;
    if forall i :: 0 <= i < |ms| && ms[i].id != mid ==> StateOf(r, ms[i].id).Settled() {
      assert AllSettled(r');
      SettledLocksNothing(s', id);
    } else {
      var i :| 0 <= i < |ms| && ms[i].id != mid && !StateOf(r, ms[i].id).Settled();
      assert MilestoneOk(s', r', ms[i]);
      assert s'.wallet.holds[r'.holdIds[ms[i].id]].state == W.Active;
    }
  }
}
