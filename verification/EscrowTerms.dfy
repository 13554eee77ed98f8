/** The terms of an escrow as its parties read them: which milestone ends how, on which hash or ruling, and
  who gets the amounts, the stake and the bond. */
module EscrowTerms {
  import opened Amounts
  import opened Outcomes
  import opened Escrow
  import opened EscrowInvariant
  import opened EscrowMoves
  import opened EscrowCalls
  import opened EscrowSettlement
  import opened EscrowOutcomes
  import opened EscrowRuns
  import W = Wallet

  // ---- words ------------------------------------------------------------------------------

  /** Every milestone is paid or refunded. */
  predicate Finished(r: Record) {
    forall j | 0 <= j < |r.contract.milestones| ::
      StateOf(r, r.contract.milestones[j].id) == MilestoneState.Released || StateOf(r, r.contract.milestones[j].id) == MilestoneState.Refunded
  }

  predicate AllPaid(r: Record) {
    forall j | 0 <= j < |r.contract.milestones| :: StateOf(r, r.contract.milestones[j].id) == MilestoneState.Released
  }

  /** What balance `k` gets when `amount` goes to `did`. */
  function To(k: W.Key, did: Did, currency: W.Currency, amount: real): real {
    if k == W.Key(did, currency) then amount else 0.0
  }

  /** What balance `k` gets when milestone `m` ends in state `st`. */
  function Settles(c: Contract, m: Milestone, st: MilestoneState, k: W.Key): real {
    match st
    case Released => To(k, c.payee, c.currency, m.amount)
    case Refunded => To(k, c.payer, c.currency, m.amount)
    case _ => 0.0
  }

  /** What balance `k` gets when the provider has its stake back. */
  function StakeBack(r: Record, k: W.Key): real {
    if r.stakeHold.Some? then To(k, r.contract.payee, r.contract.stake.currency, r.contract.stake.amount) else 0.0
  }

  /** Milestone `mid` ends in state `st`, and no other milestone changes. */
  ghost predicate Only(r: Record, r': Record, mid: MilestoneId, st: MilestoneState) {
    r'.contract == r.contract && StateOf(r', mid) == st && forall other | other != mid :: StateOf(r', other) == StateOf(r, other)
  }

  /** The stake is held until the last milestone is settled. */
  ghost predicate StakeHeld(r: Record, r': Record) {
    r'.stakeHold == if Finished(r') then None else r.stakeHold
  }

  // ---- one milestone ----------------------------------------------------------------------

  lemma OwedFor(r: Record, r': Record, i: nat, st: MilestoneState, k: W.Key)
    requires i < |r.contract.milestones| && DistinctIds(r.contract.milestones) && Only(r, r', r.contract.milestones[i].id, st)
    requires !StateOf(r, r.contract.milestones[i].id).Settled()
    ensures Owed(r', k) - Owed(r, k) == Settles(r.contract, r.contract.milestones[i], st, k)
  {
    SumInMarked(r, r', r.contract.milestones, i, MilestoneState.Released);
    SumInMarked(r, r', r.contract.milestones, i, MilestoneState.Refunded);
    hide DistinctIds, StateOf;
  }

  lemma MarkedTerms(r: Record, mid: MilestoneId, st: MilestoneState)
    requires mid in r.milestones
    ensures Only(r, Marked(r, mid, st), mid, st) && StakeHeld(r, Marked(r, mid, st))
  {
    var r' := WithMilestone(r, mid, st);
    assert AllSettled(r') == Finished(r');
    SettledUnchanged(r', Marked(r, mid, st));
    assert Finished(Marked(r, mid, st)) == Finished(r');
    hide AllSettled, Finished;
  }

  lemma RecomputedTerms(r: Record)
    ensures var r' := RecomputeState(r);
            && r'.contract == r.contract && r'.stakeHold == r.stakeHold && (forall mid :: StateOf(r', mid) == StateOf(r, mid))
            && (Finished(r') <==> Finished(r)) && (AllPaid(r') <==> AllPaid(r))
            && r'.state == if AllPaid(r') then EscrowState.Released else if Finished(r') then EscrowState.Resolved else r.state
  {
    var r' := RecomputeState(r);
    assert forall mid :: StateOf(r', mid) == StateOf(r, mid);
    assert AllSettled(r) <==> Finished(r);
    assert AllReleased(r) <==> AllPaid(r);
    assert AllPaid(r') <==> AllPaid(r);
    assert Finished(r') <==> Finished(r);
    hide StateOf, AllSettled, AllReleased;
  }

  lemma OnlyTwice(r0: Record, r1: Record, r2: Record, mid: MilestoneId, st1: MilestoneState, st2: MilestoneState)
    requires Only(r0, r1, mid, st1) && Only(r1, r2, mid, st2)
    ensures Only(r0, r2, mid, st2)
  {
  }

  // ---- delivery ---------------------------------------------------------------------------

  lemma JudgedRecord(s: System, id: EscrowId, i: nat, hash: string, now: int)
    requires Core(s, id) && W.Inv(s.wallet) && i < |s.escrows[id].contract.milestones|
    requires StateOf(s.escrows[id], s.escrows[id].contract.milestones[i].id).Delivered?
    ensures var r := s.escrows[id]; var m := r.contract.milestones[i]; var o := JudgeDelivery(s, id, m, hash, now);
            && o.Done? && id in o.state.escrows && m.id in r.milestones
            && o.state.escrows[id] == (if EndOnHash(m, hash).Delivered? then r else Marked(r, m.id, EndOnHash(m, hash)))
            && (EndOnHash(m, hash).Delivered? ==> o.state == s)
  {
    CoreGives(s, id);
    var r := s.escrows[id];
    var m := r.contract.milestones[i];
    JudgeIs(s, id, m, hash, now);
    CaptureEffect(s, id, i, now);
    RefundEffect(s, id, i, WorkRefunded);
    MilestoneKnown(s, r, m);
    hide JudgeDelivery, Core, W.Inv, CaptureMilestone, RefundMilestone, Marked, MilestoneOk, EndOnHash, Progress;
    if EndOnHash(m, hash).Released? {
      ProgressGives(s, CaptureMilestone(s, id, m, now).state, id);
    } else if EndOnHash(m, hash).Refunded? {
      ProgressGives(s, RefundMilestone(s, id, m, WorkRefunded).state, id);
    } else {
      EndsOnHash(m, hash);
    }
  }

  lemma DeliverIs(s: System, id: EscrowId, i: nat, hash: string, now: int)
    requires Core(s, id) && i < |s.escrows[id].contract.milestones| && s.escrows[id].state == EscrowState.Open
    requires !StateOf(s.escrows[id], s.escrows[id].contract.milestones[i].id).Settled()
    ensures var r := s.escrows[id]; var m := r.contract.milestones[i]; var s1 := MarkDelivered(s, id, m.id, hash, now);
            && id in s1.escrows && s1.escrows[id].contract == r.contract && s1 == s.(escrows := s1.escrows)
            && var o := JudgeDelivery(s1, id, m, hash, now);
               o.Done? && id in o.state.escrows ==> Deliver(s, id, r.contract.payee, m.id, hash, now) == Done(Recomputed(o.state, id))
  {
    var r := s.escrows[id];
    FindByIndex(r.contract.milestones, i);
    assert MilestoneOk(s, r, r.contract.milestones[i]);
    hide Core, MilestoneOk, JudgeDelivery, RecomputeState, Find;
  }

  /** The record after work was handed in on milestone i. */
  function DeliveredAs(r: Record, m: Milestone, hash: string, now: int): Record {
    var r1 := r.(milestones := r.milestones[m.id := Runtime(MilestoneState.Delivered, Some(hash), Some(now))]);
    RecomputeState(if EndOnHash(m, hash).Delivered? then r1 else Marked(r1, m.id, EndOnHash(m, hash)))
  }

  lemma DeliveredRecord(s: System, id: EscrowId, i: nat, hash: string, now: int)
    requires Core(s, id) && W.Inv(s.wallet) && i < |s.escrows[id].contract.milestones| && s.escrows[id].state == EscrowState.Open
    requires !StateOf(s.escrows[id], s.escrows[id].contract.milestones[i].id).Settled()
    ensures var r := s.escrows[id]; var m := r.contract.milestones[i]; var o := Deliver(s, id, r.contract.payee, m.id, hash, now);
            && o.Done? && id in o.state.escrows && o.state.escrows[id] == DeliveredAs(r, m, hash, now)
            && (EndOnHash(m, hash).Delivered? ==> o.state == s.(escrows := o.state.escrows))
  {
    var r := s.escrows[id];
    var m := r.contract.milestones[i];
    MarkDeliveredEffect(s, id, i, hash, now);
    DeliverIs(s, id, i, hash, now);
    var s1 := MarkDelivered(s, id, m.id, hash, now);
    hide Core, W.Inv, Touches, Pays, JudgeDelivery, RecomputeState, Deliver, Marked, EndOnHash;
    JudgedRecord(s1, id, i, hash, now);
  }

  /** Handing in work on an open milestone: with a bare checksum a matching hash pays the provider and any
    other refunds the payer; with any other acceptance, or no checksum agreed, it is marked delivered and
    no money moves. The stake goes back with the last settlement, and only then does the escrow close. */
  lemma DeliveryTerms(s: System, id: EscrowId, i: nat, hash: string, now: int)
    requires RecordOk(s, id) && W.Inv(s.wallet) && i < |s.escrows[id].contract.milestones| && s.escrows[id].state == EscrowState.Open
    requires !StateOf(s.escrows[id], s.escrows[id].contract.milestones[i].id).Settled()
    ensures var r := s.escrows[id]; var m := r.contract.milestones[i]; var st := EndOnHash(m, hash);
            var o := Deliver(s, id, r.contract.payee, m.id, hash, now);
            && o.Done? && id in o.state.escrows
            && var r' := o.state.escrows[id];
               && Only(r, r', m.id, st) && StakeHeld(r, r')
               && r'.state == (if AllPaid(r') then EscrowState.Released else if Finished(r') then EscrowState.Resolved else EscrowState.Open)
               && (forall k :: W.Available(o.state.wallet, k)
                            == W.Available(s.wallet, k) + Settles(r.contract, m, st, k) + if Finished(r') then StakeBack(r, k) else 0.0)
               && (st.Delivered? ==> o.state.wallet == s.wallet && o.state.receipts == s.receipts && o.state.spends == s.spends)
  {
    var r := s.escrows[id];
    var m := r.contract.milestones[i];
    var st := EndOnHash(m, hash);
    CoreGives(s, id);
    NotRedelivered(s, id, i);
    DeliverKeeps(s, id, r.contract.payee, m.id, hash, now);
    DeliveredRecord(s, id, i, hash, now);
    var s' := Deliver(s, id, r.contract.payee, m.id, hash, now).state;
    assert DistinctIds(r.contract.milestones) && Pays(s, s', id);
    hide *;
    DeliveredTerms(r, i, hash, now);
    MoneyFollows(s, s', id, i, st);
  }

  lemma DeliveredTerms(r: Record, i: nat, hash: string, now: int)
    requires i < |r.contract.milestones|
    ensures var m := r.contract.milestones[i]; var r' := DeliveredAs(r, m, hash, now);
            && Only(r, r', m.id, EndOnHash(m, hash)) && StakeHeld(r, r')
            && r'.state == if AllPaid(r') then EscrowState.Released else if Finished(r') then EscrowState.Resolved else r.state
  {
    var m := r.contract.milestones[i];
    var st := EndOnHash(m, hash);
    var r1 := r.(milestones := r.milestones[m.id := Runtime(MilestoneState.Delivered, Some(hash), Some(now))]);
    assert Only(r, r1, m.id, MilestoneState.Delivered) && !Finished(r1) by { assert StateOf(r1, m.id).Delivered?; }
    var r2 := if st.Delivered? then r1 else Marked(r1, m.id, st);
    RecomputedTerms(r2);
    hide RecomputeState, EndOnHash, Finished, AllPaid;
    if !st.Delivered? {
      MarkedTerms(r1, m.id, st);
      OnlyTwice(r, r1, r2, m.id, MilestoneState.Delivered, st);
      assert r2.state == r.state;
    }
    hide Marked;
  }

  lemma NotRedelivered(s: System, id: EscrowId, i: nat)
    requires Core(s, id) && i < |s.escrows[id].contract.milestones|
    requires !StateOf(s.escrows[id], s.escrows[id].contract.milestones[i].id).Settled()
    ensures forall provider :: !Redelivers(s, id, provider, s.escrows[id].contract.milestones[i].id)
  {
  }

  lemma MoneyFollows(s: System, s': System, id: EscrowId, i: nat, st: MilestoneState)
    requires id in s.escrows && id in s'.escrows && i < |s.escrows[id].contract.milestones| && Pays(s, s', id)
    requires var r := s.escrows[id];
             && DistinctIds(r.contract.milestones) && Only(r, s'.escrows[id], r.contract.milestones[i].id, st) && StakeHeld(r, s'.escrows[id])
             && !StateOf(r, r.contract.milestones[i].id).Settled()
    ensures var r, r' := s.escrows[id], s'.escrows[id];
            forall k :: W.Available(s'.wallet, k)
                     == W.Available(s.wallet, k) + Settles(r.contract, r.contract.milestones[i], st, k) + if Finished(r') then StakeBack(r, k) else 0.0
  {
    var r, r' := s.escrows[id], s'.escrows[id];
    hide Owed, Settles, Finished, DistinctIds, StateOf, W.Available;
    forall k ensures W.Available(s'.wallet, k)
                  == W.Available(s.wallet, k) + Settles(r.contract, r.contract.milestones[i], st, k) + if Finished(r') then StakeBack(r, k) else 0.0
    {
      OwedFor(r, r', i, st, k);
      StakeFollows(r, r', k);
    }
  }

  lemma StakeFollows(r: Record, r': Record, k: W.Key)
    requires StakeHeld(r, r')
    ensures StakeReturned(r, r', k) == if Finished(r') then StakeBack(r, k) else 0.0
  {
    hide Finished;
  }

  // ---- acceptance and opening -------------------------------------------------------------

  lemma AcceptIs(s: System, id: EscrowId, i: nat, now: int)
    requires Core(s, id) && i < |s.escrows[id].contract.milestones| && s.escrows[id].state == EscrowState.Open
    requires StateOf(s.escrows[id], s.escrows[id].contract.milestones[i].id).Delivered?
    ensures var r := s.escrows[id]; var m := r.contract.milestones[i]; var o := CaptureMilestone(s, id, m, now);
            o.Done? && id in o.state.escrows ==> Accept(s, id, r.contract.payer, m.id, now) == Done(Recomputed(o.state, id))
  {
    var r := s.escrows[id];
    FindByIndex(r.contract.milestones, i);
    assert MilestoneOk(s, r, r.contract.milestones[i]);
    hide Core, MilestoneOk, CaptureMilestone, RecomputeState, Find;
  }

  /** Accepting delivered work pays the provider, and the stake goes back with the last settlement. */
  lemma AcceptanceTerms(s: System, id: EscrowId, i: nat, now: int)
    requires RecordOk(s, id) && W.Inv(s.wallet) && i < |s.escrows[id].contract.milestones| && s.escrows[id].state == EscrowState.Open
    requires StateOf(s.escrows[id], s.escrows[id].contract.milestones[i].id).Delivered?
    ensures var r := s.escrows[id]; var m := r.contract.milestones[i]; var o := Accept(s, id, r.contract.payer, m.id, now);
            && o.Done? && id in o.state.escrows
            && var r' := o.state.escrows[id];
               && Only(r, r', m.id, MilestoneState.Released) && StakeHeld(r, r')
               && r'.state == (if AllPaid(r') then EscrowState.Released else if Finished(r') then EscrowState.Resolved else EscrowState.Open)
               && (forall k :: W.Available(o.state.wallet, k)
                            == W.Available(s.wallet, k) + To(k, r.contract.payee, r.contract.currency, m.amount)
                               + if Finished(r') then StakeBack(r, k) else 0.0)
  {
    CoreGives(s, id);
    var r := s.escrows[id];
    var m := r.contract.milestones[i];
    assert Core(s, id) && DistinctIds(r.contract.milestones);
    AcceptKeeps(s, id, r.contract.payer, m.id, now);
    var s' := Accept(s, id, r.contract.payer, m.id, now).state;
    assert Pays(s, s', id);
    assert !StateOf(r, m.id).Settled();
    hide *;
    AcceptIs(s, id, i, now);
    CaptureFacts(s, id, i, now);
    var s1 := CaptureMilestone(s, id, m, now).state;
    RecomputedRecord(s1, id);
    PaidTerms(r, m.id);
    MoneyFollows(s, s', id, i, MilestoneState.Released);
    PaidAmount(r.contract, m);
  }

  lemma RecomputedRecord(s: System, id: EscrowId)
    requires id in s.escrows
    ensures id in Recomputed(s, id).escrows && Recomputed(s, id).escrows[id] == RecomputeState(s.escrows[id])
  {
  }

  lemma PaidAmount(c: Contract, m: Milestone)
    ensures forall k :: Settles(c, m, MilestoneState.Released, k) == To(k, c.payee, c.currency, m.amount)
  {
  }

  lemma PaidTerms(r: Record, mid: MilestoneId)
    requires mid in r.milestones
    ensures var r' := RecomputeState(Marked(r, mid, MilestoneState.Released));
            && Only(r, r', mid, MilestoneState.Released) && StakeHeld(r, r')
            && r'.state == if AllPaid(r') then EscrowState.Released else if Finished(r') then EscrowState.Resolved else r.state
  {
    MarkedTerms(r, mid, MilestoneState.Released);
    RecomputedTerms(Marked(r, mid, MilestoneState.Released));
    assert Marked(r, mid, MilestoneState.Released).state == r.state;
    hide Marked, RecomputeState, Finished, AllPaid, StateOf;
  }

  /** A new contract opens exactly if its milestones add up to a positive total, its id is new, every amount
    is positive, the payer can afford the total, and the provider can afford a slashable stake after that;
    then exactly that much is locked. */
  lemma OpeningTerms(s: System, c: Contract, now: int)
    requires W.Inv(s.wallet)
    ensures var o := OpenEscrow(s, c, now); var payer, provider := W.Key(c.payer, c.currency), W.Key(c.payee, c.stake.currency);
            var staked := if c.stake.slashable && c.stake.amount > 0.0 then c.stake.amount else 0.0;
            && (o.Done? <==>
                  && AmountSum(c.milestones) == c.total && c.total > 0.0 && c.escrowId !in s.escrows
                  && (forall j :: 0 <= j < |c.milestones| ==> c.milestones[j].amount > 0.0) && c.total <= W.Available(s.wallet, payer)
                  && (staked > 0.0 ==> staked <= W.Available(s.wallet, provider) - if provider == payer then c.total else 0.0))
            && (o.Done? ==> forall k :: W.Available(o.state.wallet, k)
                                     == W.Available(s.wallet, k) - To(k, c.payer, c.currency, c.total) - To(k, c.payee, c.stake.currency, staked))
            && (o.Done? && DistinctIds(c.milestones) ==>
                  c.escrowId in o.state.escrows && (o.state.escrows[c.escrowId].stakeHold.Some? <==> staked > 0.0))
            && (o.Thrown? ==> o.state == s.(wallet := o.state.wallet) && forall k :: W.Available(o.state.wallet, k) <= W.Available(s.wallet, k))
            && (o.Thrown? && (AmountSum(c.milestones) != c.total || c.total <= 0.0) ==> o.state == s && o.error == Invalid)
            && (o.Thrown? && AmountSum(c.milestones) == c.total && c.total > 0.0 && c.escrowId in s.escrows ==> o.state == s && o.error == Conflict)
  {
    if AmountSum(c.milestones) == c.total && c.total > 0.0 && c.escrowId !in s.escrows {
      OpenOutcome(s, c, now);
      FundingOutcome(Start(s), c, c.milestones);
      FundingTakes(Start(s), c, c.milestones);
      var f := FundAll(Start(s), c, c.milestones);
      TakeHoldEffect(f.state.wallet, c.ProviderStakeKey(), c.stake.amount, W.StakeRef(c.escrowId));
      if OpenEscrow(s, c, now).Done? && DistinctIds(c.milestones) { OpenRecordShape(s, c, now); }
      hide W.Inv, FundAll, AmountSum, W.AddAvailable, W.AddHeld, W.WithHolds, DistinctIds;
    }
  }

  /** Funding never adds to a balance, whether it gets through or not. */
  lemma {:induction false} FundingTakes(f: Funding, c: Contract, ms: seq<Milestone>)
    ensures forall k :: W.Available(FundAll(f, c, ms).state.wallet, k) <= W.Available(f.wallet, k)
    decreases |ms|
  {
    if ms != [] {
      var o := W.TakeHold(f.wallet, c.PayerKey(), ms[0].amount, W.FundRef(c.escrowId, ms[0].id));
      assert forall k :: W.Available(o.state, k) <= W.Available(f.wallet, k);
      var f1 := Funding(o.state, f.holdIds[ms[0].id := |f.wallet.holds|], f.milestones[ms[0].id := Runtime(Pending, None, None)]);
      hide W.TakeHold;
      if o.Done? { FundingTakes(f1, c, ms[1..]); }
    }
  }

  // ---- dispute ----------------------------------------------------------------------------

  /** How a disputed milestone ends: as the delivered hash says, or waiting for a ruling. */
  function EndOnDispute(r: Record, m: Milestone): MilestoneState {
    match SaidByHash(r, m)
    case Pass => MilestoneState.Released
    case Fail => MilestoneState.Refunded
    case Subjective => MilestoneState.Disputed
  }

  /** What a decided or escalated dispute makes of the record: the milestone's end, the stake, and the
    escrow's state with its escalation. */
  ghost predicate DisputeEnds(r: Record, r': Record, m: Milestone, disputer: Did, st: MilestoneState) {
    && Only(r, r', m.id, st)
    && match st
       case Released =>
         StakeHeld(r, r') && r'.escalation == r.escalation && r'.state == if AllPaid(r') then EscrowState.Released else EscrowState.Resolved
       case Refunded =>
         r'.stakeHold.None? && r'.escalation == r.escalation && r'.state == EscrowState.Resolved
       case _ =>
         r'.stakeHold == r.stakeHold && r'.escalation == Some(DisputeRuling(m.id, disputer)) && r'.state == EscrowState.Disputed
  }

  lemma ConcludedTerms(s: System, id: EscrowId)
    requires id in s.escrows
    ensures id in Conclude(s, id).escrows
    ensures var r, r' := s.escrows[id], Conclude(s, id).escrows[id];
            && r'.contract == r.contract && r'.stakeHold == r.stakeHold && r'.escalation == r.escalation
            && (forall mid :: StateOf(r', mid) == StateOf(r, mid)) && (Finished(r') <==> Finished(r)) && (AllPaid(r') <==> AllPaid(r))
            && r'.state == if AllPaid(r') then EscrowState.Released else EscrowState.Resolved
  {
    var r1 := s.escrows[id].(state := EscrowState.Resolved, disputer := None);
    assert forall mid :: StateOf(r1, mid) == StateOf(s.escrows[id], mid);
    RecomputedTerms(r1);
    assert RecomputeState(r1).escalation == r1.escalation;
    assert AllPaid(r1) <==> AllPaid(s.escrows[id]);
    assert Finished(r1) <==> Finished(s.escrows[id]);
    hide RecomputeState, StateOf, Finished, AllPaid;
  }

  lemma PassEnds(s: System, s1: System, id: EscrowId, i: nat, disputer: Did, bond: Option<Money>, now: int)
    requires Begun(s, s1, id, i, disputer, bond)
    ensures id in s1.escrows && id in DisputeFails(s1, id, s.escrows[id].contract.milestones[i], now).state.escrows
    ensures var r := s.escrows[id]; var m := r.contract.milestones[i];
            DisputeEnds(r, Conclude(DisputeFails(s1, id, m, now).state, id).escrows[id], m, disputer, MilestoneState.Released)
  {
    hide *;
    BegunGives(s, s1, id, i, disputer, bond);
    var r, r1 := s.escrows[id], s1.escrows[id];
    var m := r.contract.milestones[i];
    UnsettledDisputed(r1, m.id);
    DisputeFailsEffect(s1, id, i, now);
    var s2 := DisputeFails(s1, id, m, now).state;
    ConcludedTerms(s2, id);
    PassRecord(r, r1, Conclude(s2, id).escrows[id], m, disputer);
  }

  lemma UnsettledDisputed(r: Record, mid: MilestoneId)
    requires StateOf(r, mid).Disputed?
    ensures !StateOf(r, mid).Settled()
  {
  }

  /** `r1` is the record with the milestone disputed, `r'` the one after it was paid and the dispute closed. */
  lemma PassRecord(r: Record, r1: Record, r': Record, m: Milestone, disputer: Did)
    requires m.id in r1.milestones && r1.contract == r.contract && r1.stakeHold == r.stakeHold && r1.escalation == r.escalation
    requires forall other | other != m.id :: StateOf(r1, other) == StateOf(r, other)
    requires var r2 := Marked(r1, m.id, MilestoneState.Released).(bondHold := None);
             && r'.contract == r2.contract && r'.stakeHold == r2.stakeHold && r'.escalation == r2.escalation
             && (forall mid :: StateOf(r', mid) == StateOf(r2, mid)) && (Finished(r') <==> Finished(r2))
             && r'.state == if AllPaid(r') then EscrowState.Released else EscrowState.Resolved
    ensures DisputeEnds(r, r', m, disputer, MilestoneState.Released)
  {
    var r2 := Marked(r1, m.id, MilestoneState.Released);
    assert r2.escalation == r1.escalation;
    MarkedTerms(r1, m.id, MilestoneState.Released);
    WithoutBond(r2);
    hide Marked, StateOf, Finished, AllPaid;
  }

  lemma WithoutBond(r: Record)
    ensures var r' := r.(bondHold := None);
            (forall mid :: StateOf(r', mid) == StateOf(r, mid)) && (Finished(r') <==> Finished(r)) && (AllPaid(r') <==> AllPaid(r))
  {
    var r' := r.(bondHold := None);
    assert forall mid :: StateOf(r', mid) == StateOf(r, mid);
  }

  lemma FailEnds(s: System, s1: System, id: EscrowId, i: nat, disputer: Did, bond: Option<Money>)
    requires Begun(s, s1, id, i, disputer, bond)
    ensures id in s1.escrows && id in DisputeHolds(s1, id, s.escrows[id].contract.milestones[i]).state.escrows
    ensures var r := s.escrows[id]; var m := r.contract.milestones[i];
            DisputeEnds(r, Conclude(DisputeHolds(s1, id, m).state, id).escrows[id], m, disputer, MilestoneState.Refunded)
  {
    hide *;
    BegunGives(s, s1, id, i, disputer, bond);
    var r, r1 := s.escrows[id], s1.escrows[id];
    var m := r.contract.milestones[i];
    UnsettledDisputed(r1, m.id);
    DisputeHoldsEffect(s1, id, i);
    RefundedAlone(r1, m.id);
    var s2 := DisputeHolds(s1, id, m).state;
    ConcludedTerms(s2, id);
    FailRecord(r, Conclude(s2, id).escrows[id], i, disputer);
  }

  lemma FailRecord(r: Record, r': Record, i: nat, disputer: Did)
    requires i < |r.contract.milestones| && r'.contract == r.contract && r'.stakeHold.None? && r'.escalation == r.escalation
    requires StateOf(r', r.contract.milestones[i].id).Refunded?
    requires forall other | other != r.contract.milestones[i].id :: StateOf(r', other) == StateOf(r, other)
    requires r'.state == if AllPaid(r') then EscrowState.Released else EscrowState.Resolved
    ensures DisputeEnds(r, r', r.contract.milestones[i], disputer, MilestoneState.Refunded)
  {
    assert !AllPaid(r');
    hide StateOf, AllPaid;
  }

  lemma EscalationEnds(s: System, s1: System, id: EscrowId, i: nat, disputer: Did, bond: Option<Money>)
    requires Begun(s, s1, id, i, disputer, bond)
    ensures id in s1.escrows
    ensures var r := s.escrows[id]; var m := r.contract.milestones[i];
            DisputeEnds(r, s1.escrows[id].(escalation := Some(DisputeRuling(m.id, disputer))), m, disputer, MilestoneState.Disputed)
  {
    BegunGives(s, s1, id, i, disputer, bond);
    hide Begun, Core, RecordOk, Touches, W.Inv, Owed, Captured;
  }

  lemma DecidedRecord(s: System, id: EscrowId, i: nat, disputer: Did, bond: Option<Money>, now: int)
    requires RecordOk(s, id) && W.Inv(s.wallet) && i < |s.escrows[id].contract.milestones| && s.escrows[id].state == EscrowState.Open
    requires !StateOf(s.escrows[id], s.escrows[id].contract.milestones[i].id).Settled()
    requires s.escrows[id].contract.milestones[i].id in s.escrows[id].milestones
    requires DecideDispute(s, id, disputer, s.escrows[id].contract.milestones[i], bond, now).Done?
    ensures var r := s.escrows[id]; var m := r.contract.milestones[i]; var s' := DecideDispute(s, id, disputer, m, bond, now).state;
            id in s'.escrows && DisputeEnds(r, s'.escrows[id], m, disputer, EndOnDispute(r, m))
  {
    var r := s.escrows[id];
    var m := r.contract.milestones[i];
    BeginsDispute(s, id, i, disputer, bond);
    VerdictSaid(r, m);
    hide RecordOk, W.Inv, Kept, BeginDispute, Begun, DisputeFails, DisputeHolds, Conclude, StateOf, SaidByHash, VerdictOf, DisputeEnds;
    var o := BeginDispute(s, id, disputer, m.id, bond);
    match VerdictOf(r, m)
    case Pass => PassEnds(s, o.state, id, i, disputer, bond, now);
    case Fail => FailEnds(s, o.state, id, i, disputer, bond);
    case Subjective => EscalationEnds(s, o.state, id, i, disputer, bond);
  }

  /** What balance `k` gets when the bond goes to `did`. */
  function BondTo(bond: Option<Money>, did: Did, k: W.Key): real {
    if bond.Some? then To(k, did, bond.value.currency, bond.value.amount) else 0.0
  }

  /** What balance `k` gets of the stake when it is slashed for milestone `m`: the payer its share. */
  function StakeSlashed(r: Record, m: Milestone, k: W.Key): real {
    if r.stakeHold.Some? then To(k, r.contract.payer, r.contract.stake.currency, SlashedShare(r.contract, m)) else 0.0
  }

  /** What a dispute gives balance `k`: on a match the provider its amount, its stake if that was the last
    milestone, and the bond; on a mismatch the payer the amount and its share of the stake, the bond going
    back; otherwise only the bond is locked. */
  function DisputeGives(r: Record, r': Record, m: Milestone, disputer: Did, bond: Option<Money>, st: MilestoneState, k: W.Key): real {
    Settles(r.contract, m, st, k) +
    match st
    case Released => (if Finished(r') then StakeBack(r, k) else 0.0) - BondTo(bond, disputer, k) + BondTo(bond, r.contract.payee, k)
    case Refunded => StakeSlashed(r, m, k)
    case _ => -BondTo(bond, disputer, k)
  }

  lemma DisputeMoney(r: Record, r': Record, i: nat, verdict: Verdict, disputer: Did, bond: Option<Money>, st: MilestoneState, k: W.Key)
    requires i < |r.contract.milestones| && DistinctIds(r.contract.milestones) && !StateOf(r, r.contract.milestones[i].id).Settled()
    requires DisputeEnds(r, r', r.contract.milestones[i], disputer, st)
    requires st == match verdict case Pass => MilestoneState.Released case Fail => MilestoneState.Refunded case Subjective => MilestoneState.Disputed
    ensures DisputeMoved(r, r', r.contract.milestones[i], verdict, disputer, bond, k)
         == DisputeGives(r, r', r.contract.milestones[i], disputer, bond, st, k)
  {
    OwedFor(r, r', i, st, k);
    if st.Released? { StakeFollows(r, r', k); }
    hide Owed, Settles, Finished, AllPaid, StateOf, DistinctIds, SlashedShare;
  }

  /** Every dispute that goes through, by either party and with any bond: how the milestone and the escrow
    end, and what every balance gets, from the agreed and the delivered hash alone. */
  lemma DisputeTerms(s: System, id: EscrowId, i: nat, disputer: Did, bond: Option<Money>, now: int)
    requires RecordOk(s, id) && W.Inv(s.wallet) && i < |s.escrows[id].contract.milestones|
    requires Dispute(s, id, disputer, s.escrows[id].contract.milestones[i].id, bond, now).Done?
    ensures var r := s.escrows[id]; var m := r.contract.milestones[i]; var st := EndOnDispute(r, m);
            var s' := Dispute(s, id, disputer, m.id, bond, now).state;
            && id in s'.escrows && DisputeEnds(r, s'.escrows[id], m, disputer, st)
            && (forall k :: W.Available(s'.wallet, k) == W.Available(s.wallet, k) + DisputeGives(r, s'.escrows[id], m, disputer, bond, st, k))
  {
    CoreGives(s, id);
    var r := s.escrows[id];
    var m := r.contract.milestones[i];
    assert DistinctIds(r.contract.milestones);
    FindByIndex(r.contract.milestones, i);
    DisputeOutcome(s, id, disputer, m.id, bond, now);
    DisputeEffect(s, id, disputer, m.id, bond, now);
    DisputeDecides(s, id, i, disputer, bond, now);
    OpenRecordNow(s, id);
    var s' := Dispute(s, id, disputer, m.id, bond, now).state;
    assert !StateOf(r, m.id).Settled();
    assert DisputePays(s, s', id, m, SaidByHash(r, m), disputer, bond);
    hide *;
    DecidedRecord(s, id, i, disputer, bond, now);
    var st := EndOnDispute(r, m);
    EndsAsSaid(r, m);
    forall k ensures W.Available(s'.wallet, k) == W.Available(s.wallet, k) + DisputeGives(r, s'.escrows[id], m, disputer, bond, st, k) {
      DisputeMoney(r, s'.escrows[id], i, SaidByHash(r, m), disputer, bond, st, k);
      PaysAt(s, s', id, m, SaidByHash(r, m), disputer, bond, k);
    }
  }

  lemma EndsAsSaid(r: Record, m: Milestone)
    ensures EndOnDispute(r, m) == match SaidByHash(r, m)
                                  case Pass => MilestoneState.Released
                                  case Fail => MilestoneState.Refunded
                                  case Subjective => MilestoneState.Disputed
  {
  }

  lemma PaysAt(s: System, s': System, id: EscrowId, m: Milestone, verdict: Verdict, disputer: Did, bond: Option<Money>, k: W.Key)
    requires id in s.escrows && id in s'.escrows && DisputePays(s, s', id, m, verdict, disputer, bond)
    ensures W.Available(s'.wallet, k) == W.Available(s.wallet, k) + DisputeMoved(s.escrows[id], s'.escrows[id], m, verdict, disputer, bond, k)
  {
    hide W.Available, DisputeMoved;
  }

  lemma OpenRecordNow(s: System, id: EscrowId)
    requires RecordOk(s, id)
    ensures RequireOpenish(s, id).None? <==> s.escrows[id].state == EscrowState.Open
  {
  }

  lemma DisputeDecides(s: System, id: EscrowId, i: nat, disputer: Did, bond: Option<Money>, now: int)
    requires id in s.escrows && i < |s.escrows[id].contract.milestones|
    requires Find(s.escrows[id].contract.milestones, s.escrows[id].contract.milestones[i].id) == Some(s.escrows[id].contract.milestones[i])
    requires Dispute(s, id, disputer, s.escrows[id].contract.milestones[i].id, bond, now).Done?
    ensures var m := s.escrows[id].contract.milestones[i];
            m.id in s.escrows[id].milestones && Dispute(s, id, disputer, m.id, bond, now) == DecideDispute(s, id, disputer, m, bond, now)
  {
    hide DecideDispute, WindowClosed, StateOf;
  }

  // ---- rulings and timeouts ---------------------------------------------------------------

  /** The amounts of the milestones that are not settled. */
  function Outstanding(r: Record, ms: seq<Milestone>): real {
    if ms == [] then 0.0
    else Outstanding(r, ms[1..]) + if StateOf(r, ms[0].id).Released? || StateOf(r, ms[0].id).Refunded? then 0.0 else ms[0].amount
  }

  lemma {:induction false} OutstandingIs(r: Record, ms: seq<Milestone>)
    ensures AmountSum(ms) == SumIn(r, ms, MilestoneState.Released) + SumIn(r, ms, MilestoneState.Refunded) + Outstanding(r, ms)
    decreases |ms|
  {
    if ms != [] { OutstandingIs(r, ms[1..]); }
  }

  /** A settled escrow in which exactly `paid` more was captured has refunded the rest of what was open. */
  lemma OwedAtEnd(s: System, s': System, id: EscrowId, paid: real, k: W.Key)
    requires Core(s, id) && FullySettled(s', id) && s'.escrows[id].contract == s.escrows[id].contract
    requires Captured(s'.escrows[id]) == Captured(s.escrows[id]) + paid
    ensures var r, c := s.escrows[id], s.escrows[id].contract;
            Owed(s'.escrows[id], k) - Owed(r, k)
            == To(k, c.payee, c.currency, paid) + To(k, c.payer, c.currency, Outstanding(r, c.milestones) - paid)
  {
    var r := s.escrows[id];
    assert ContractOk(r.contract, id);
    OutstandingIs(r, r.contract.milestones);
    hide FundsOk, StakeOk, BondOk, NoOrphans, AllSettled, NothingLocked, SumIn, AmountSum, Outstanding;
  }

  lemma StakeAtEnd(r: Record, r': Record, k: W.Key)
    requires r'.stakeHold.None?
    ensures StakeReturned(r, r', k) == StakeBack(r, k)
  {
  }

  /** All open milestones of the contract end in `st`, and the settled ones stay as they are. */
  ghost predicate AllEnd(r: Record, r': Record, st: MilestoneState) {
    r'.contract == r.contract
    && forall j | 0 <= j < |r.contract.milestones| ::
         var mid := r.contract.milestones[j].id;
         StateOf(r', mid) == if StateOf(r, mid).Pending? || StateOf(r, mid).Delivered? then st else StateOf(r, mid)
  }

  lemma BecomesAll(s: System, s': System, id: EscrowId, st: MilestoneState)
    requires Core(s, id) && id in s'.escrows && s'.escrows[id].contract == s.escrows[id].contract && AllSettled(s'.escrows[id])
    requires Becomes(s.escrows[id], s'.escrows[id], st) && st.Settled()
    ensures AllEnd(s.escrows[id], s'.escrows[id], st)
    ensures var r, r' := s.escrows[id], s'.escrows[id];
            Captured(r') == Captured(r) + if st.Released? then Outstanding(r, r.contract.milestones) else 0.0
  {
    var r, r' := s.escrows[id], s'.escrows[id];
    var ms := r.contract.milestones;
    hide Core;
    OutstandingIs(r, ms);
    OutstandingIs(r', ms);
    NothingOutstanding(r', ms);
    if st.Released? {
      SumInSame(r, r', ms, MilestoneState.Refunded);
    } else {
      SumInSame(r, r', ms, MilestoneState.Released);
    }
    forall j | 0 <= j < |ms|
      ensures var mid := ms[j].id; StateOf(r', mid) == if StateOf(r, mid).Pending? || StateOf(r, mid).Delivered? then st else StateOf(r, mid)
    {
      assert StateOf(r', ms[j].id).Settled();
    }
  }

  lemma {:induction false} NothingOutstanding(r: Record, ms: seq<Milestone>)
    requires forall j :: 0 <= j < |ms| ==> StateOf(r, ms[j].id).Settled()
    ensures Outstanding(r, ms) == 0.0
    decreases |ms|
  {
    if ms != [] {
      assert StateOf(r, ms[0].id).Settled();
      assert forall j :: 0 <= j < |ms[1..]| ==> ms[1..][j] == ms[j + 1];
      NothingOutstanding(r, ms[1..]);
    }
  }

  /** After a sweep or a ruling on a timeout: everything that was open goes to one party, and the stake back
    to the provider. */
  ghost predicate AllTo(s: System, s': System, id: EscrowId, st: MilestoneState)
    requires id in s.escrows && id in s'.escrows
  {
    var r, c := s.escrows[id], s.escrows[id].contract;
    && FullySettled(s', id) && AllEnd(r, s'.escrows[id], st)
    && forall k :: W.Available(s'.wallet, k)
                == W.Available(s.wallet, k) + To(k, if st.Released? then c.payee else c.payer, c.currency, Outstanding(r, c.milestones)) + StakeBack(r, k)
  }

  lemma SweptTo(s: System, s': System, id: EscrowId, st: MilestoneState)
    requires Core(s, id) && FullySettled(s', id) && s'.escrows[id].contract == s.escrows[id].contract
    requires Pays(s, s', id) && Becomes(s.escrows[id], s'.escrows[id], st) && (st.Released? || st.Refunded?)
    ensures AllTo(s, s', id, st)
  {
    CoreGives(s, id);
    var r, r' := s.escrows[id], s'.escrows[id];
    assert AllSettled(r') && r'.stakeHold.None?;
    BecomesAll(s, s', id, st);
    var open := Outstanding(r, r.contract.milestones);
    hide Core, AllSettled, FullySettled, Becomes, Owed, Captured, Outstanding, StateOf, AllEnd, StakeReturned, StakeBack;
    forall k ensures W.Available(s'.wallet, k)
                  == W.Available(s.wallet, k) + To(k, if st.Released? then r.contract.payee else r.contract.payer, r.contract.currency, open) + StakeBack(r, k)
    {
      OwedAtEnd(s, s', id, if st.Released? then open else 0.0, k);
      StakeAtEnd(r, r', k);
    }
  }

  /** From deliver_by on the timeout does what the contract says: all open amounts to the payer, or all to the
    provider, or nothing but an escalation of the open milestones. */
  lemma TimeoutTerms(s: System, id: EscrowId, now: int)
    requires RecordOk(s, id) && W.Inv(s.wallet) && s.escrows[id].state == EscrowState.Open && now >= s.escrows[id].contract.deliverBy
    ensures var r := s.escrows[id]; var o := OnTimeout(s, id, now);
            && o.Done? && id in o.state.escrows
            && var r' := o.state.escrows[id];
               match r.contract.onTimeout
               case RefundPayer => AllTo(s, o.state, id, MilestoneState.Refunded) && r'.state == EndOf(r')
               case ReleaseToProvider => AllTo(s, o.state, id, MilestoneState.Released) && r'.state == EndOf(r')
               case Arbitrate =>
                 && o.state == s.(escrows := s.escrows[id := r']) && r'.state == EscrowState.Disputed && r'.milestones == r.milestones
                 && r'.escalation.Some? && r'.escalation.value.TimeoutRuling?
                 && forall j | 0 <= j < |r.contract.milestones| ::
                      var mid := r.contract.milestones[j].id;
                      mid in r'.escalation.value.milestoneIds <==> StateOf(r, mid).Pending? || StateOf(r, mid).Delivered?
  {
    CoreGives(s, id);
    var r := s.escrows[id];
    TimeoutOutcome(s, id, now);
    TimeoutEffect(s, id, now);
    ListsOpen(r, r.contract.milestones);
    OpenRecordNow(s, id);
    var s' := OnTimeout(s, id, now).state;
    if r.contract.onTimeout == Arbitrate {
      hide UnsettledOf, Ids, RecordOk, Kept, Pays, W.Inv, StateOf, FullySettled;
    } else {
      assert id in s'.escrows && s'.escrows[id].contract == r.contract && Pays(s, s', id);
      EndsSame(s'.escrows[id]);
      assert Core(s, id);
      hide OnTimeout, RecordOk, Core, Kept, Pays, W.Inv, FullySettled, Becomes, AllTo, UnsettledOf, Ids;
      SweptTo(s, s', id, if r.contract.onTimeout == RefundPayer then MilestoneState.Refunded else MilestoneState.Released);
    }
  }

  function EndOf(r: Record): EscrowState {
    if AllPaid(r) then EscrowState.Released else EscrowState.Resolved
  }

  lemma EndsSame(r: Record)
    ensures EndState(r) == EndOf(r)
  {
  }

  predicate Names(ms: seq<Milestone>, mid: MilestoneId) {
    exists j | 0 <= j < |ms| :: ms[j].id == mid
  }

  lemma NamesMore(ms: seq<Milestone>, mid: MilestoneId)
    requires ms != []
    ensures Names(ms, mid) <==> ms[0].id == mid || Names(ms[1..], mid)
  {
    if j :| 0 <= j < |ms| && ms[j].id == mid {
      if j > 0 { assert ms[1..][j - 1].id == mid; }
    }
    if j :| 0 <= j < |ms[1..]| && ms[1..][j].id == mid { assert ms[j + 1].id == mid; }
  }

  lemma {:induction false} ListsOpen(r: Record, ms: seq<Milestone>)
    ensures forall mid :: mid in Ids(UnsettledOf(r, ms)) <==> (StateOf(r, mid).Pending? || StateOf(r, mid).Delivered?) && Names(ms, mid)
    decreases |ms|
  {
    if ms != [] {
      ListsOpen(r, ms[1..]);
      forall mid ensures Names(ms, mid) <==> ms[0].id == mid || Names(ms[1..], mid) { NamesMore(ms, mid); }
    }
  }

  /** A ruling on a timeout: approved, all open amounts go to the provider; denied, to the payer. */
  lemma TimeoutRulingTerms(s: System, id: EscrowId, caller: Did, ruling: bool, now: int)
    requires RecordOk(s, id) && W.Inv(s.wallet) && s.escrows[id].escalation.Some? && s.escrows[id].escalation.value.TimeoutRuling?
    requires caller == s.escrows[id].contract.payer || caller == s.escrows[id].contract.payee
    ensures var o := ResolveEscalation(s, id, caller, Some(ruling), now);
            && o.Done? && id in o.state.escrows && AllTo(s, o.state, id, if ruling then MilestoneState.Released else MilestoneState.Refunded)
            && o.state.escrows[id].state == EscrowState.TimedOut && o.state.escrows[id].escalation.None?
  {
    CoreGives(s, id);
    ResolveOutcome(s, id, caller, Some(ruling), now);
    ResolveEffect(s, id, caller, Some(ruling), now);
    var s' := ResolveEscalation(s, id, caller, Some(ruling), now).state;
    assert Core(s, id) && id in s'.escrows && s'.escrows[id].contract == s.escrows[id].contract;
    assert s'.escrows[id].escalation.None? by { assert StateOk(s'.escrows[id]); }
    hide ResolveEscalation, RecordOk, Core, Kept, Pays, W.Inv, FullySettled, Becomes, AllTo;
    SweptTo(s, s', id, if ruling then MilestoneState.Released else MilestoneState.Refunded);
  }

  /** What a ruling on a dispute of milestone `m` gives balance `k`: the amount to the winner, the other open
    amounts to the payer, the stake back to the provider or slashed to the payer, and the bond. */
  function RulingGives(s: System, r: Record, m: Milestone, disputer: Did, ruling: bool, k: W.Key): real
    requires r.bondHold.Some? ==> r.bondHold.value < |s.wallet.holds|
  {
    var c := r.contract;
    var paid := if ForProvider(c, disputer, ruling) then m.amount else 0.0;
    To(k, c.payee, c.currency, paid) + To(k, c.payer, c.currency, Outstanding(r, c.milestones) - paid)
    + (if ForProvider(c, disputer, ruling) then StakeBack(r, k) else StakeSlashed(r, m, k))
    + if r.bondHold.None? then 0.0
      else var h := s.wallet.holds[r.bondHold.value]; To(k, BondTaker(c, disputer, ruling), h.currency, h.amount)
  }

  lemma RuledCaptured(r: Record, r': Record, i: nat, forProvider: bool)
    requires i < |r.contract.milestones| && DistinctIds(r.contract.milestones) && r'.contract == r.contract
    requires !StateOf(r, r.contract.milestones[i].id).Settled() && RulingStates(r, r', r.contract.milestones[i], forProvider)
    ensures Captured(r') == Captured(r) + if forProvider then r.contract.milestones[i].amount else 0.0
  {
    var m := r.contract.milestones[i];
    var r1 := r.(milestones := r.milestones[m.id := Runtime(StateOf(r', m.id), None, None)]);
    assert forall mid :: mid != m.id ==> StateOf(r1, mid) == StateOf(r, mid);
    SumInMarked(r, r1, r.contract.milestones, i, MilestoneState.Released);
    SumInSame(r1, r', r.contract.milestones, MilestoneState.Released);
  }

  lemma DisputedRecord(s: System, id: EscrowId)
    requires RecordOk(s, id) && s.escrows[id].escalation.Some? && s.escrows[id].escalation.value.DisputeRuling?
    ensures var r := s.escrows[id];
            && DistinctIds(r.contract.milestones)
            && (r.escalation.value.disputer == r.contract.payer || r.escalation.value.disputer == r.contract.payee)
            && (r.bondHold.Some? ==> r.bondHold.value < |s.wallet.holds| && s.wallet.holds[r.bondHold.value].owner == r.escalation.value.disputer)
  {
    assert StateOk(s.escrows[id]);
  }

  lemma BondGoes(s: System, r: Record, disputer: Did, ruling: bool, k: W.Key)
    requires r.bondHold.Some? ==> r.bondHold.value < |s.wallet.holds| && s.wallet.holds[r.bondHold.value].owner == disputer
    requires disputer == r.contract.payer || disputer == r.contract.payee
    ensures BondOut(s, r, ruling, BondTaker(r.contract, disputer, ruling), k)
         == if r.bondHold.None? then 0.0
            else var h := s.wallet.holds[r.bondHold.value]; To(k, BondTaker(r.contract, disputer, ruling), h.currency, h.amount)
  {
  }

  /** A redeemed ruling on a dispute: the milestone goes to the provider exactly if the provider's own dispute
    is upheld or the payer's rejected, the stake is slashed exactly if not, the bond goes back to the
    disputer exactly if the ruling is for it, and everything else that was open goes back to the payer. */
  lemma RulingTerms(s: System, id: EscrowId, i: nat, caller: Did, ruling: bool, now: int)
    requires RecordOk(s, id) && W.Inv(s.wallet) && i < |s.escrows[id].contract.milestones|
    requires var r := s.escrows[id];
             && r.escalation.Some? && r.escalation.value.DisputeRuling? && r.escalation.value.milestoneId == r.contract.milestones[i].id
             && (caller == r.contract.payer || caller == r.contract.payee)
    ensures var r := s.escrows[id]; var c, m, disputer := r.contract, r.contract.milestones[i], r.escalation.value.disputer;
            var o := ResolveEscalation(s, id, caller, Some(ruling), now);
            && o.Done? && id in o.state.escrows && FullySettled(o.state, id)
            && (r.bondHold.Some? ==> r.bondHold.value < |s.wallet.holds|)
            && var r' := o.state.escrows[id];
               && r'.contract == c && r'.state == EscrowState.Resolved && r'.escalation.None?
               && StateOf(r', m.id) == (if ForProvider(c, disputer, ruling) then MilestoneState.Released else MilestoneState.Refunded)
               && (forall j | 0 <= j < |c.milestones| && j != i ::
                     var mid := c.milestones[j].id;
                     StateOf(r', mid) == if StateOf(r, mid).Pending? || StateOf(r, mid).Delivered? then MilestoneState.Refunded else StateOf(r, mid))
               && (forall k :: W.Available(o.state.wallet, k) == W.Available(s.wallet, k) + RulingGives(s, r, m, disputer, ruling, k))
  {
    RuledAs(s, id, i, caller, ruling, now);
    DisputedRecord(s, id);
    var r := s.escrows[id];
    var c, m, disputer := r.contract, r.contract.milestones[i], r.escalation.value.disputer;
    var s' := ResolveEscalation(s, id, caller, Some(ruling), now).state;
    assert Core(s, id);
    assert AllSettled(s'.escrows[id]) && s'.escrows[id].stakeHold.None?;
    hide ResolveEscalation, RecordOk, Core, W.Inv, FullySettled;
    OthersRefunded(s, s', id, i, ForProvider(c, disputer, ruling));
    hide RulingStates, AllSettled, StateOf;
    forall k ensures W.Available(s'.wallet, k) == W.Available(s.wallet, k) + RulingGives(s, r, m, disputer, ruling, k) {
      RuledMoney(s, s', id, i, disputer, ruling, k);
    }
  }

  lemma RuledAs(s: System, id: EscrowId, i: nat, caller: Did, ruling: bool, now: int)
    requires RecordOk(s, id) && W.Inv(s.wallet) && i < |s.escrows[id].contract.milestones|
    requires var r := s.escrows[id];
             && r.escalation.Some? && r.escalation.value.DisputeRuling? && r.escalation.value.milestoneId == r.contract.milestones[i].id
             && (caller == r.contract.payer || caller == r.contract.payee)
    ensures var r := s.escrows[id]; var c, m, disputer := r.contract, r.contract.milestones[i], r.escalation.value.disputer;
            var o := ResolveEscalation(s, id, caller, Some(ruling), now);
            && o.Done? && id in o.state.escrows && FullySettled(o.state, id) && Core(s, id)
            && !StateOf(r, m.id).Settled()
            && var r' := o.state.escrows[id];
               && r'.contract == c && r'.state == EscrowState.Resolved && r'.escalation.None?
               && RulingStates(r, r', m, ForProvider(c, disputer, ruling))
               && RulingPays(s, o.state, id, m, ForProvider(c, disputer, ruling), ruling, BondTaker(c, disputer, ruling))
  {
    var r := s.escrows[id];
    DisputedRecord(s, id);
    FindByIndex(r.contract.milestones, i);
    ResolveOutcome(s, id, caller, Some(ruling), now);
    ResolveEffect(s, id, caller, Some(ruling), now);
    var s' := ResolveEscalation(s, id, caller, Some(ruling), now).state;
    assert Core(s, id) && StateOk(r) && id in s'.escrows && s'.escrows[id].contract == r.contract && StateOk(s'.escrows[id]);
    assert StateOf(r, r.contract.milestones[i].id).Disputed?;
    hide ResolveEscalation, RecordOk, Core, Kept, W.Inv, FullySettled, RulingPays, RulingStates, ForProvider, BondTaker, DistinctIds, Find;
  }

  lemma OthersRefunded(s: System, s': System, id: EscrowId, i: nat, forProvider: bool)
    requires id in s.escrows && id in s'.escrows && i < |s.escrows[id].contract.milestones| && s'.escrows[id].contract == s.escrows[id].contract
    requires var r := s.escrows[id];
             DistinctIds(r.contract.milestones) && AllSettled(s'.escrows[id]) && RulingStates(r, s'.escrows[id], r.contract.milestones[i], forProvider)
    ensures var r, r' := s.escrows[id], s'.escrows[id];
            forall j | 0 <= j < |r.contract.milestones| && j != i ::
              var mid := r.contract.milestones[j].id;
              StateOf(r', mid) == if StateOf(r, mid).Pending? || StateOf(r, mid).Delivered? then MilestoneState.Refunded else StateOf(r, mid)
  {
    var r, r' := s.escrows[id], s'.escrows[id];
    forall j | 0 <= j < |r.contract.milestones| && j != i
      ensures var mid := r.contract.milestones[j].id;
              StateOf(r', mid) == if StateOf(r, mid).Pending? || StateOf(r, mid).Delivered? then MilestoneState.Refunded else StateOf(r, mid)
    {
      assert StateOf(r', r.contract.milestones[j].id).Settled();
      assert r.contract.milestones[j].id != r.contract.milestones[i].id;
    }
  }

  lemma RuledMoney(s: System, s': System, id: EscrowId, i: nat, disputer: Did, ruling: bool, k: W.Key)
    requires Core(s, id) && FullySettled(s', id) && s'.escrows[id].contract == s.escrows[id].contract
    requires var r := s.escrows[id]; var p := ForProvider(r.contract, disputer, ruling);
             && i < |r.contract.milestones| && DistinctIds(r.contract.milestones) && !StateOf(r, r.contract.milestones[i].id).Settled()
             && (disputer == r.contract.payer || disputer == r.contract.payee) && s'.escrows[id].stakeHold.None?
             && (r.bondHold.Some? ==> r.bondHold.value < |s.wallet.holds| && s.wallet.holds[r.bondHold.value].owner == disputer)
             && RulingStates(r, s'.escrows[id], r.contract.milestones[i], p)
             && RulingPays(s, s', id, r.contract.milestones[i], p, ruling, BondTaker(r.contract, disputer, ruling))
    ensures W.Available(s'.wallet, k) == W.Available(s.wallet, k) + RulingGives(s, s.escrows[id], s.escrows[id].contract.milestones[i], disputer, ruling, k)
  {
    var r, r' := s.escrows[id], s'.escrows[id];
    var m := r.contract.milestones[i];
    var p := ForProvider(r.contract, disputer, ruling);
    hide Core, FullySettled, DistinctIds;
    RuledCaptured(r, r', i, p);
    hide RulingStates, StateOf, Captured, Owed;
    OwedAtEnd(s, s', id, if p then m.amount else 0.0, k);
    StakeAtEnd(r, r', k);
    BondGoes(s, r, disputer, ruling, k);
    assert SlashPaid(r, m, k) == StakeSlashed(r, m, k);
    hide Outstanding, BondOut, StakeBack, StakeSlashed, StakeReturned, SlashPaid, To, W.Available, BondTaker, ForProvider;
  }
}
