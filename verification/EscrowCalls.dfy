/** What each call of the escrow service does to the money, from a state where the records and the
  wallet agree. */
module EscrowCalls {
  import opened Amounts
  import opened Outcomes
  import opened Escrow
  import opened EscrowInvariant
  import opened EscrowMoves
  import opened Spends
  import W = Wallet

  // ---- what the contract says -------------------------------------------------------------

  /** The milestone has a checksum agreed on. */
  predicate Agreed(m: Milestone) {
    m.acceptance.expected.Some? && m.acceptance.expected.value != ""
  }

  /** What becomes of a milestone on which work with this hash is handed in: only a bare checksum decides at
    once, for the provider exactly on a matching hash. */
  function EndOnHash(m: Milestone, hash: string): MilestoneState {
    if m.acceptance.kind != Checksum || !Agreed(m) then MilestoneState.Delivered
    else if m.acceptance.expected == Some(hash) then MilestoneState.Released
    else MilestoneState.Refunded
  }

  /** What the delivered hash says in a dispute: with a checksum, bare or beside a schema, the work passes
    exactly if the hashes are equal; without one, or without a delivery, nothing. */
  function SaidByHash(r: Record, m: Milestone): Verdict {
    if m.id !in r.milestones || r.milestones[m.id].resultHash.None? || !Agreed(m) then Subjective
    else
      match m.acceptance.kind
      case SchemaOnly => Subjective
      case Oracle => Subjective
      case _ => if r.milestones[m.id].resultHash == m.acceptance.expected then Pass else Fail
  }

  /** A ruling is for the provider if it upholds the provider's own dispute or rejects the payer's. */
  predicate ForProvider(c: Contract, disputer: Did, upheld: bool) {
    if upheld then disputer == c.payee else disputer == c.payer
  }

  /** Whose the bond is after a ruling: the disputer's if it is upheld, else the other party's. */
  function BondTaker(c: Contract, disputer: Did, upheld: bool): Did {
    if upheld then disputer else if disputer == c.payer then c.payee else c.payer
  }

  lemma JudgeIs(s: System, id: EscrowId, m: Milestone, hash: string, now: int)
    requires id in s.escrows
    ensures JudgeDelivery(s, id, m, hash, now)
         == match EndOnHash(m, hash)
            case Released => CaptureMilestone(s, id, m, now)
            case Refunded => RefundMilestone(s, id, m, WorkRefunded)
            case _ => Done(s)
  {
    hide CaptureMilestone, RefundMilestone;
  }

  lemma EndsOnHash(m: Milestone, hash: string)
    ensures EndOnHash(m, hash).Delivered? || EndOnHash(m, hash).Released? || EndOnHash(m, hash).Refunded?
  {
  }

  lemma VerdictSaid(r: Record, m: Milestone)
    requires m.id in r.milestones
    ensures VerdictOf(r, m) == SaidByHash(r, m)
  {
  }

  lemma WinnerIs(c: Contract, disputer: Did, upheld: bool)
    requires disputer == c.payer || disputer == c.payee
    ensures ProviderWins(c, disputer, upheld) <==> ForProvider(c, disputer, upheld)
    ensures !upheld ==> c.OtherParty(disputer) == BondTaker(c, disputer, upheld)
  {
  }

  // ---- steps that move no money -----------------------------------------------------------

  lemma {:induction false} SumInSame(r: Record, r': Record, ms: seq<Milestone>, st: MilestoneState)
    requires forall i :: 0 <= i < |ms| ==> (StateOf(r', ms[i].id) == st <==> StateOf(r, ms[i].id) == st)
    ensures SumIn(r', ms, st) == SumIn(r, ms, st)
    decreases |ms|
  {
    if ms != [] {
      assert StateOf(r', ms[0].id) == st <==> StateOf(r, ms[0].id) == st;
      assert forall i :: 0 <= i < |ms[1..]| ==> ms[1..][i] == ms[i + 1];
      SumInSame(r, r', ms[1..], st);
    }
  }

  ghost predicate SettledAlike(r: Record, r': Record) {
    forall mid :: StateOf(r', mid) == StateOf(r, mid) || (!StateOf(r, mid).Settled() && !StateOf(r', mid).Settled())
  }

  lemma OwedSame(r: Record, r': Record)
    requires r.contract == r'.contract && SettledAlike(r, r')
    ensures Captured(r') == Captured(r) && forall k :: Owed(r', k) == Owed(r, k)
  {
    SumInSame(r, r', r.contract.milestones, MilestoneState.Released);
    SumInSame(r, r', r.contract.milestones, MilestoneState.Refunded);
  }

  lemma PaysQuietly(s: System, s': System, id: EscrowId)
    requires id in s.escrows && id in s'.escrows
    requires s'.escrows[id].contract == s.escrows[id].contract && s'.escrows[id].stakeHold == s.escrows[id].stakeHold
    requires SettledAlike(s.escrows[id], s'.escrows[id]) && s'.wallet == s.wallet && s'.spends == s.spends
    ensures Pays(s, s', id)
  {
    OwedSame(s.escrows[id], s'.escrows[id]);
  }

  lemma PaysTransitive(s0: System, s1: System, s2: System, id: EscrowId)
    requires id in s0.escrows && id in s1.escrows && id in s2.escrows && Pays(s0, s1, id) && Pays(s1, s2, id)
    requires s1.escrows[id].contract == s0.escrows[id].contract && s2.escrows[id].contract == s0.escrows[id].contract
    requires s1.escrows[id].stakeHold == s0.escrows[id].stakeHold || s1.escrows[id].stakeHold.None?
    requires s2.escrows[id].stakeHold == s1.escrows[id].stakeHold || s2.escrows[id].stakeHold.None?
    ensures Pays(s0, s2, id)
  {
    hide Owed, Captured;
  }

  /** Rewriting the state, escalation and disputer fields. */
  lemma CoreRestated(s: System, s': System, id: EscrowId)
    requires Core(s, id) && id in s'.escrows && s' == Put(s, id, s'.escrows[id])
    requires var r, r' := s.escrows[id], s'.escrows[id];
             && r' == r.(state := r'.state, escalation := r'.escalation, disputer := r'.disputer)
             && (r.bondHold.None? || r'.disputer == r.disputer)
    ensures Core(s', id) && Touches(s, s', id) && Pays(s, s', id)
  {
    FundsKept(s, s', id);
    SettledUnchanged(s.escrows[id], s'.escrows[id]);
    PaysQuietly(s, s', id);
    hide FundsOk, FundsUntouched, ContractOk, AllSettled, Pays, W.Inv;
  }

  lemma RecomputeOk(s: System, id: EscrowId)
    requires Core(s, id)
    requires var r := s.escrows[id];
             && r.bondHold.None? && r.escalation.None?
             && (r.state == EscrowState.Open || r.state == EscrowState.Resolved || (r.state == EscrowState.TimedOut && AllSettled(r)))
             && (forall i :: 0 <= i < |r.contract.milestones| ==> !StateOf(r, r.contract.milestones[i].id).Disputed?)
    ensures var s' := Recomputed(s, id);
            && RecordOk(s', id) && Touches(s, s', id) && Pays(s, s', id) && s'.wallet == s.wallet && s'.spends == s.spends
            && s'.escrows[id] == RecomputeState(s.escrows[id])
  {
    CoreRestated(s, Recomputed(s, id), id);
    hide Core, Touches, Pays, W.Inv;
  }

  /** The record is in order and nothing else was disturbed. */
  ghost predicate Kept(s: System, s': System, id: EscrowId) {
    id in s.escrows && RecordOk(s', id) && Touches(s, s', id) && W.Inv(s'.wallet) && s'.escrows[id].contract == s.escrows[id].contract
  }

  lemma NothingKept(s: System, id: EscrowId)
    requires RecordOk(s, id) && W.Inv(s.wallet)
    ensures Kept(s, s, id) && Pays(s, s, id)
  {
  }

  // ---- deliver and accept -----------------------------------------------------------------

  lemma SettleThenRecompute(s: System, s1: System, id: EscrowId)
    requires Progress(s, s1, id)
    requires var r := s.escrows[id];
             && r.bondHold.None? && r.escalation.None? && r.state == EscrowState.Open
             && (forall i :: 0 <= i < |r.contract.milestones| ==> !StateOf(r, r.contract.milestones[i].id).Disputed?)
    ensures var s' := Recomputed(s1, id);
            Kept(s, s', id) && Pays(s, s', id) && s'.escrows[id].stakeHold == s1.escrows[id].stakeHold
            && s'.escrows[id].milestones == s1.escrows[id].milestones
  {
    ProgressGives(s, s1, id);
    assert Touches(s, s1, id) && Pays(s, s1, id) && OnlySettles(s.escrows[id], s1.escrows[id]);
    hide Core, Touches, Pays, W.Inv;
    RecomputeOk(s1, id);
    TouchesTransitive(s, s1, Recomputed(s1, id), id);
    PaysTransitive(s, s1, Recomputed(s1, id), id);
  }

  /** Milestone i marked delivered with a hash; it was not settled before. */
  lemma MarkDeliveredEffect(s: System, id: EscrowId, i: nat, hash: string, now: int)
    requires Core(s, id) && i < |s.escrows[id].contract.milestones|
    requires !StateOf(s.escrows[id], s.escrows[id].contract.milestones[i].id).Settled()
    ensures var r := s.escrows[id]; var mid := r.contract.milestones[i].id;
            var s' := MarkDelivered(s, id, mid, hash, now);
            && Core(s', id) && Touches(s, s', id) && Pays(s, s', id) && s'.wallet == s.wallet
            && s'.escrows[id] == r.(milestones := s'.escrows[id].milestones)
            && StateOf(s'.escrows[id], mid).Delivered?
            && (forall other :: other != mid ==> StateOf(s'.escrows[id], other) == StateOf(r, other))
  {
    var r := s.escrows[id];
    var mid := r.contract.milestones[i].id;
    assert MilestoneOk(s, r, r.contract.milestones[i]);
    var s' := MarkDelivered(s, id, mid, hash, now);
    FundsKept(s, s', id);
    PaysQuietly(s, s', id);
    assert StateOf(s'.escrows[id], mid).Delivered?;
    assert !AllSettled(s'.escrows[id]);
    hide FundsOk, FundsUntouched, ContractOk, AllSettled, Pays, W.Inv;
  }

  lemma CaptureProgress(s: System, id: EscrowId, m: Milestone, now: int)
    requires Core(s, id) && W.Inv(s.wallet) && m in s.escrows[id].contract.milestones && !StateOf(s.escrows[id], m.id).Settled()
    ensures CaptureMilestone(s, id, m, now).Done? && Progress(s, CaptureMilestone(s, id, m, now).state, id)
  {
    var i :| 0 <= i < |s.escrows[id].contract.milestones| && s.escrows[id].contract.milestones[i] == m;
    hide CaptureMilestone, Progress, Core, W.Inv, StateOf;
    CaptureEffect(s, id, i, now);
  }

  lemma RefundProgress(s: System, id: EscrowId, m: Milestone, outcome: RefundOutcome)
    requires Core(s, id) && W.Inv(s.wallet) && m in s.escrows[id].contract.milestones && !StateOf(s.escrows[id], m.id).Settled()
    ensures RefundMilestone(s, id, m, outcome).Done? && Progress(s, RefundMilestone(s, id, m, outcome).state, id)
  {
    var i :| 0 <= i < |s.escrows[id].contract.milestones| && s.escrows[id].contract.milestones[i] == m;
    hide RefundMilestone, Progress, Core, W.Inv, StateOf;
    RefundEffect(s, id, i, outcome);
  }

  lemma JudgeEffect(s: System, id: EscrowId, m: Milestone, hash: string, now: int)
    requires Core(s, id) && W.Inv(s.wallet) && m in s.escrows[id].contract.milestones
    requires !StateOf(s.escrows[id], m.id).Settled()
    ensures JudgeDelivery(s, id, m, hash, now).Done? && Progress(s, JudgeDelivery(s, id, m, hash, now).state, id)
  {
    CoreGives(s, id);
    JudgeIs(s, id, m, hash, now);
    hide Core, Progress, W.Inv, CaptureMilestone, RefundMilestone, JudgeDelivery, StateOf;
    match EndOnHash(m, hash)
    case Released => CaptureProgress(s, id, m, now);
    case Refunded => RefundProgress(s, id, m, WorkRefunded);
    case _ => NoProgress(s, id);
  }

  /** The provider hands in work on a milestone that was refunded before, which the service lets in. */
  predicate Redelivers(s: System, id: EscrowId, provider: Did, mid: MilestoneId) {
    && id in s.escrows && s.escrows[id].state in {EscrowState.Open, EscrowState.Delivered} && provider == s.escrows[id].contract.payee
    && Find(s.escrows[id].contract.milestones, mid).Some? && StateOf(s.escrows[id], mid).Refunded?
  }

  /** Handing work in again on a refunded milestone marks it delivered although its hold is gone. With
    a hash that its checksum decides, the settlement that follows throws and the mark stays. */
  lemma RedeliveryMarks(s: System, id: EscrowId, provider: Did, mid: MilestoneId, hash: string, now: int)
    requires Core(s, id) && Redelivers(s, id, provider, mid)
    ensures mid in s.escrows[id].milestones
    ensures var m := Find(s.escrows[id].contract.milestones, mid).value;
            var s1, o := MarkDelivered(s, id, mid, hash, now), Deliver(s, id, provider, mid, hash, now);
            if m.acceptance.kind == Checksum && Agreed(m) then o == Thrown(s1, Conflict)
            else o == Done(Recomputed(s1, id))
  {
    var r := s.escrows[id];
    var i := FindGives(r.contract.milestones, mid);
    var m := r.contract.milestones[i];
    assert MilestoneOk(s, r, m);
    var s1 := MarkDelivered(s, id, mid, hash, now);
    assert s1.wallet == s.wallet && s1.escrows[id].holdIds == r.holdIds && StateOf(s1.escrows[id], mid).Delivered?;
    assert OnWallet(s1, W.Capture(s1.wallet, r.holdIds[mid], r.contract.payee)) == Thrown(s1, Conflict);
    assert OnWallet(s1, W.Release(s1.wallet, r.holdIds[mid])) == Thrown(s1, Conflict);
  }

  lemma RedeliveryBreaks(s: System, id: EscrowId, provider: Did, mid: MilestoneId, hash: string, now: int)
    requires Core(s, id) && Redelivers(s, id, provider, mid)
    ensures !RecordOk(Deliver(s, id, provider, mid, hash, now).state, id)
  {
    RedeliveryMarks(s, id, provider, mid, hash, now);
    var r := s.escrows[id];
    var i := FindGives(r.contract.milestones, mid);
    assert MilestoneOk(s, r, r.contract.milestones[i]);
    var s' := Deliver(s, id, provider, mid, hash, now).state;
    hide Deliver;
    assert s'.escrows[id].contract == r.contract && s'.escrows[id].holdIds == r.holdIds && s'.wallet == s.wallet;
    assert StateOf(s'.escrows[id], mid).Delivered?;
    assert !MilestoneOk(s', s'.escrows[id], s'.escrows[id].contract.milestones[i]);
  }

  /** Handing in work leaves the record in order, and moves exactly the money the record says, unless
    the milestone was refunded before. */
  lemma DeliverKeeps(s: System, id: EscrowId, provider: Did, mid: MilestoneId, hash: string, now: int)
    requires RecordOk(s, id) && W.Inv(s.wallet)
    ensures var s' := Deliver(s, id, provider, mid, hash, now).state;
            (Kept(s, s', id) && Pays(s, s', id)) <==> !Redelivers(s, id, provider, mid)
  {
    if Redelivers(s, id, provider, mid) {
      RedeliveryBreaks(s, id, provider, mid, hash, now);
    } else {
      FirstDeliveryKeeps(s, id, provider, mid, hash, now);
    }
    hide Deliver, RecordOk, Touches, Pays, W.Inv;
  }

  lemma FirstDeliveryKeeps(s: System, id: EscrowId, provider: Did, mid: MilestoneId, hash: string, now: int)
    requires RecordOk(s, id) && W.Inv(s.wallet) && !Redelivers(s, id, provider, mid)
    ensures var s' := Deliver(s, id, provider, mid, hash, now).state; Kept(s, s', id) && Pays(s, s', id)
  {
    NothingKept(s, id);
    var r := s.escrows[id];
    if RequireOpenish(s, id).None? && provider == r.contract.payee && Find(r.contract.milestones, mid).Some?
       && mid in r.milestones && !StateOf(r, mid).Accepted? && !StateOf(r, mid).Released?
    {
      var i := FindGives(r.contract.milestones, mid);
      HandInKeeps(s, id, i, hash, now);
      hide MarkDelivered, JudgeDelivery, Recomputed, Kept, Pays, W.Inv;
    }
  }

  lemma HandInKeeps(s: System, id: EscrowId, i: nat, hash: string, now: int)
    requires RecordOk(s, id) && W.Inv(s.wallet) && s.escrows[id].state == EscrowState.Open
    requires i < |s.escrows[id].contract.milestones|
    requires !StateOf(s.escrows[id], s.escrows[id].contract.milestones[i].id).Settled()
    ensures var m := s.escrows[id].contract.milestones[i];
            var o := JudgeDelivery(MarkDelivered(s, id, m.id, hash, now), id, m, hash, now);
            && o.Done? && id in o.state.escrows
            && Kept(s, Recomputed(o.state, id), id) && Pays(s, Recomputed(o.state, id), id)
  {
    var r := s.escrows[id];
    var m := r.contract.milestones[i];
    assert StateOk(r);
    MarkDeliveredEffect(s, id, i, hash, now);
    var s1 := MarkDelivered(s, id, m.id, hash, now);
    hide Core, Touches, Pays, W.Inv, Progress, MarkDelivered, JudgeDelivery;
    JudgeEffect(s1, id, m, hash, now);
    var s2 := JudgeDelivery(s1, id, m, hash, now).state;
    SettleThenRecompute(s1, s2, id);
    ProgressStake(s1, s2, id);
    TouchesTransitive(s, s1, Recomputed(s2, id), id);
    PaysTransitive(s, s1, Recomputed(s2, id), id);
  }

  lemma ProgressStake(s: System, s': System, id: EscrowId)
    requires Progress(s, s', id)
    ensures id in s.escrows && id in s'.escrows
    ensures s'.escrows[id].stakeHold == s.escrows[id].stakeHold || s'.escrows[id].stakeHold.None?
  {
  }

  lemma AcceptKeeps(s: System, id: EscrowId, payer: Did, mid: MilestoneId, now: int)
    requires RecordOk(s, id) && W.Inv(s.wallet)
    ensures var s' := Accept(s, id, payer, mid, now).state; Kept(s, s', id) && Pays(s, s', id)
  {
    NothingKept(s, id);
    var r := s.escrows[id];
    if RequireOpenish(s, id).None? && payer == r.contract.payer && Find(r.contract.milestones, mid).Some?
       && mid in r.milestones && StateOf(r, mid).Delivered?
    {
      var i := FindGives(r.contract.milestones, mid);
      OpenWhenOpenish(s, id);
      hide CaptureMilestone, Core, Touches, Pays, W.Inv, AllSettled, Progress, Marked, MilestoneOk, StateOk, Kept, Recomputed;
      CaptureEffect(s, id, i, now);
      SettleThenRecompute(s, CaptureMilestone(s, id, r.contract.milestones[i], now).state, id);
    }
  }

  // ---- dispute ----------------------------------------------------------------------------

  /** What the disputer's bond does to balance `k` while it is locked. */
  function BondLocked(disputer: Did, bond: Option<Money>, k: W.Key): real {
    if bond.Some? && k == W.Key(disputer, bond.value.currency) then bond.value.amount else 0.0
  }

  /** What a bond paid to `winner` does to balance `k`. */
  function BondPaid(winner: Did, bond: Option<Money>, k: W.Key): real {
    if bond.Some? && k == W.Key(winner, bond.value.currency) then bond.value.amount else 0.0
  }

  function SlashPaid(r: Record, m: Milestone, k: W.Key): real {
    if r.stakeHold.Some? && k == r.contract.SlashedStakeKey() then SlashedShare(r.contract, m) else 0.0
  }

  /** Money after a slash followed by the refund of the slashed milestone. */
  ghost predicate SlashesAndRefunds(s: System, s': System, id: EscrowId, m: Milestone)
    requires id in s.escrows && id in s'.escrows
  {
    var r, r' := s.escrows[id], s'.escrows[id];
    && (forall k :: W.Available(s'.wallet, k) == W.Available(s.wallet, k) + Owed(r', k) - Owed(r, k) + SlashPaid(r, m, k))
    && (forall k :: TotalSpent(s'.spends, k) == TotalSpent(s.spends, k))
    && Captured(r') == Captured(r)
  }

  lemma SlashAndRefund(s: System, id: EscrowId, i: nat)
    requires Core(s, id) && W.Inv(s.wallet) && i < |s.escrows[id].contract.milestones|
    requires !StateOf(s.escrows[id], s.escrows[id].contract.milestones[i].id).Settled()
    ensures s.escrows[id].contract.milestones[i].id in s.escrows[id].milestones
    ensures var r := s.escrows[id]; var m := r.contract.milestones[i]; var o1 := SlashProviderStake(s, id, m);
            && o1.Done? && id in o1.state.escrows
            && var o := RefundMilestone(o1.state, id, m, WorkDisputed);
               && o.Done? && Core(o.state, id) && W.Inv(o.state.wallet) && Touches(s, o.state, id)
               && o.state.escrows[id] == WithMilestone(r, m.id, MilestoneState.Refunded).(stakeHold := None)
               && SlashesAndRefunds(s, o.state, id, m)
  {
    var r := s.escrows[id];
    var m := r.contract.milestones[i];
    SlashEffect(s, id, i);
    var s1 := SlashProviderStake(s, id, m).state;
    RefundEffect(s1, id, i, WorkDisputed);
    var s2 := RefundMilestone(s1, id, m, WorkDisputed).state;
    assert StateOf(s1.escrows[id], m.id) == StateOf(r, m.id);
    assert Touches(s1, s2, id) && Pays(s1, s2, id) && Core(s2, id);
    hide SlashProviderStake, RefundMilestone, Core, Touches, W.Inv, Owed, Captured, SlashedShare, MilestoneOk, Pays;
    TouchesTransitive(s, s1, s2, id);
    SlashRefundMoney(s, s1, s2, id, i);
  }

  lemma SlashRefundMoney(s: System, s1: System, s2: System, id: EscrowId, i: nat)
    requires id in s.escrows && id in s1.escrows && id in s2.escrows && i < |s.escrows[id].contract.milestones|
    requires var r := s.escrows[id]; var m := r.contract.milestones[i];
             && DistinctIds(r.contract.milestones) && m.id in r.milestones && !StateOf(r, m.id).Settled()
             && s1.escrows[id] == r.(stakeHold := None)
             && s2.escrows[id] == WithMilestone(r, m.id, MilestoneState.Refunded).(stakeHold := None)
             && s1.spends == s.spends
             && (forall k :: W.Available(s1.wallet, k) == W.Available(s.wallet, k) + SlashPaid(r, m, k))
    requires Pays(s1, s2, id)
    ensures SlashesAndRefunds(s, s2, id, s.escrows[id].contract.milestones[i])
  {
    var r, m := s.escrows[id], s.escrows[id].contract.milestones[i];
    MarkedSums(r, i, MilestoneState.Refunded);
    OwedSame(r, s1.escrows[id]);
    OwedSame(Marked(r, m.id, MilestoneState.Refunded), s2.escrows[id]);
    hide Owed, Captured, SlashedShare;
  }

  /** Balance `k`'s part of the bond of `r` when it is paid out. */
  function BondOut(s: System, r: Record, returned: bool, winner: Did, k: W.Key): real
    requires r.bondHold.Some? ==> r.bondHold.value < |s.wallet.holds|
  {
    if r.bondHold.Some? && k == BondKey(s, r, returned, winner) then s.wallet.holds[r.bondHold.value].amount else 0.0
  }

  /** A bond pays the same whatever happened to other holds in between. */
  lemma BondOutFramed(s: System, s': System, id: EscrowId, r: Record, returned: bool, winner: Did, k: W.Key)
    requires Touches(s, s', id) && (r.bondHold.Some? ==> r.bondHold.value < |s.wallet.holds|)
    ensures r.bondHold.Some? ==> r.bondHold.value < |s'.wallet.holds|
    ensures BondOut(s', r, returned, winner, k) == BondOut(s, r, returned, winner, k)
  {
    if r.bondHold.Some? {
      assert s'.wallet.holds[r.bondHold.value] == s.wallet.holds[r.bondHold.value].(state := s'.wallet.holds[r.bondHold.value].state);
    }
  }

  lemma BondKnown(s: System, id: EscrowId)
    requires Core(s, id)
    ensures var r := s.escrows[id]; r.bondHold.Some? ==> r.bondHold.value < |s.wallet.holds|
  {
  }

  /** The common end of a ruling: after the milestone's own settlement `s -> s1`, the bond is paid. */
  lemma ThenCloseBond(s: System, s1: System, id: EscrowId, returned: bool, winner: Did)
    requires Core(s, id) && Core(s1, id) && W.Inv(s1.wallet) && Touches(s, s1, id)
    requires s1.escrows[id].bondHold == s.escrows[id].bondHold
    ensures var r, r1 := s.escrows[id], s1.escrows[id]; var o := CloseBond(s1, id, returned, winner);
            && o.Done? && Core(o.state, id) && W.Inv(o.state.wallet) && Touches(s, o.state, id)
            && o.state.escrows[id] == r1.(bondHold := None) && o.state.spends == s1.spends
            && (r.bondHold.Some? ==> r.bondHold.value < |s.wallet.holds|)
            && (forall k :: W.Available(o.state.wallet, k) == W.Available(s1.wallet, k) + BondOut(s, r, returned, winner, k))
  {
    BondKnown(s, id);
    BondKnown(s1, id);
    CloseBondEffect(s1, id, returned, winner);
    var r, r1 := s.escrows[id], s1.escrows[id];
    var s2 := CloseBond(s1, id, returned, winner).state;
    hide Core, Touches, W.Inv, CloseBond;
    TouchesTransitive(s, s1, s2, id);
    forall k ensures W.Available(s2.wallet, k) == W.Available(s1.wallet, k) + BondOut(s, r, returned, winner, k) {
      BondOutFramed(s, s1, id, r, returned, winner, k);
      assert BondOut(s1, r, returned, winner, k) == BondOut(s1, r1, returned, winner, k);
    }
  }

  ghost predicate PaysWithBond(s: System, s': System, id: EscrowId, returned: bool, winner: Did)
    requires id in s.escrows && id in s'.escrows
  {
    var r, r' := s.escrows[id], s'.escrows[id];
    && (r.bondHold.Some? ==> r.bondHold.value < |s.wallet.holds|)
    && (forall k :: W.Available(s'.wallet, k) == W.Available(s.wallet, k) + Owed(r', k) - Owed(r, k)
                      + StakeReturned(r, r', k) + BondOut(s, r, returned, winner, k))
    && (forall k :: TotalSpent(s'.spends, k)
                 == TotalSpent(s.spends, k) + if k == r.contract.PayerKey() then Captured(r') - Captured(r) else 0.0)
  }

  ghost predicate SlashesWithBond(s: System, s': System, id: EscrowId, m: Milestone, returned: bool, winner: Did)
    requires id in s.escrows && id in s'.escrows
  {
    var r, r' := s.escrows[id], s'.escrows[id];
    && (r.bondHold.Some? ==> r.bondHold.value < |s.wallet.holds|)
    && (forall k :: W.Available(s'.wallet, k) == W.Available(s.wallet, k) + Owed(r', k) - Owed(r, k)
                      + SlashPaid(r, m, k) + BondOut(s, r, returned, winner, k))
    && (forall k :: TotalSpent(s'.spends, k) == TotalSpent(s.spends, k))
    && Captured(r') == Captured(r)
  }

  lemma CaptureFacts(s: System, id: EscrowId, i: nat, now: int)
    requires Core(s, id) && W.Inv(s.wallet) && i < |s.escrows[id].contract.milestones|
    requires !StateOf(s.escrows[id], s.escrows[id].contract.milestones[i].id).Settled()
    ensures s.escrows[id].contract.milestones[i].id in s.escrows[id].milestones
    ensures var r := s.escrows[id]; var m := r.contract.milestones[i]; var o := CaptureMilestone(s, id, m, now);
            && o.Done? && Core(o.state, id) && W.Inv(o.state.wallet) && Touches(s, o.state, id) && Pays(s, o.state, id)
            && id in o.state.escrows && o.state.escrows[id] == Marked(r, m.id, MilestoneState.Released)
  {
    CaptureEffect(s, id, i, now);
    MilestoneKnown(s, s.escrows[id], s.escrows[id].contract.milestones[i]);
    hide CaptureMilestone, W.Inv, MilestoneOk;
  }

  lemma PaysThenBond(s: System, s1: System, s2: System, id: EscrowId, returned: bool, winner: Did)
    requires id in s.escrows && id in s1.escrows && id in s2.escrows && Pays(s, s1, id)
    requires var r, r1 := s.escrows[id], s1.escrows[id];
             && r1.contract == r.contract && s2.escrows[id] == r1.(bondHold := None) && s2.spends == s1.spends
             && (r.bondHold.Some? ==> r.bondHold.value < |s.wallet.holds|)
             && (forall k :: W.Available(s2.wallet, k) == W.Available(s1.wallet, k) + BondOut(s, r, returned, winner, k))
    ensures PaysWithBond(s, s2, id, returned, winner)
  {
    OwedSame(s1.escrows[id], s2.escrows[id]);
    hide Owed, Captured, BondOut;
  }

  lemma CaptureThenBond(s: System, id: EscrowId, i: nat, now: int, returned: bool, winner: Did)
    requires Core(s, id) && W.Inv(s.wallet) && i < |s.escrows[id].contract.milestones|
    requires !StateOf(s.escrows[id], s.escrows[id].contract.milestones[i].id).Settled()
    ensures s.escrows[id].contract.milestones[i].id in s.escrows[id].milestones
    ensures var r := s.escrows[id]; var m := r.contract.milestones[i]; var o1 := CaptureMilestone(s, id, m, now);
            && o1.Done? && id in o1.state.escrows
            && var o := CloseBond(o1.state, id, returned, winner);
               && o.Done? && Core(o.state, id) && W.Inv(o.state.wallet) && Touches(s, o.state, id)
               && o.state.escrows[id] == Marked(r, m.id, MilestoneState.Released).(bondHold := None)
               && PaysWithBond(s, o.state, id, returned, winner)
  {
    CoreGives(s, id);
    hide CaptureMilestone, CloseBond, Core, Touches, W.Inv, BondOut, Pays, PaysWithBond, StateOf, AllSettled;
    CaptureFacts(s, id, i, now);
    var s1 := CaptureMilestone(s, id, s.escrows[id].contract.milestones[i], now).state;
    ThenCloseBond(s, s1, id, returned, winner);
    PaysThenBond(s, s1, CloseBond(s1, id, returned, winner).state, id, returned, winner);
  }

  lemma SlashThenBond(s: System, id: EscrowId, i: nat, returned: bool, winner: Did)
    requires Core(s, id) && W.Inv(s.wallet) && i < |s.escrows[id].contract.milestones|
    requires !StateOf(s.escrows[id], s.escrows[id].contract.milestones[i].id).Settled()
    ensures s.escrows[id].contract.milestones[i].id in s.escrows[id].milestones
    ensures var r := s.escrows[id]; var m := r.contract.milestones[i]; var o1 := SlashProviderStake(s, id, m);
            && o1.Done? && id in o1.state.escrows
            && var o2 := RefundMilestone(o1.state, id, m, WorkDisputed);
               && o2.Done? && id in o2.state.escrows
               && var o := CloseBond(o2.state, id, returned, winner);
                  && o.Done? && Core(o.state, id) && W.Inv(o.state.wallet) && Touches(s, o.state, id)
                  && o.state.escrows[id] == WithMilestone(r, m.id, MilestoneState.Refunded).(stakeHold := None, bondHold := None)
                  && SlashesWithBond(s, o.state, id, m, returned, winner)
  {
    CoreGives(s, id);
    hide *;
    var r := s.escrows[id];
    var m := r.contract.milestones[i];
    SlashAndRefund(s, id, i);
    var s1 := RefundMilestone(SlashProviderStake(s, id, m).state, id, m, WorkDisputed).state;
    CoreGives(s1, id);
    RefundedParts(r, m.id);
    ThenCloseBond(s, s1, id, returned, winner);
    SlashesThenBond(s, s1, CloseBond(s1, id, returned, winner).state, id, m, returned, winner);
  }

  lemma RefundedParts(r: Record, mid: MilestoneId)
    requires mid in r.milestones
    ensures var r' := WithMilestone(r, mid, MilestoneState.Refunded).(stakeHold := None);
            && r'.bondHold == r.bondHold && r'.contract == r.contract
            && r'.(bondHold := None) == WithMilestone(r, mid, MilestoneState.Refunded).(stakeHold := None, bondHold := None)
  {
  }

  lemma SlashesThenBond(s: System, s1: System, s2: System, id: EscrowId, m: Milestone, returned: bool, winner: Did)
    requires id in s.escrows && id in s1.escrows && id in s2.escrows && SlashesAndRefunds(s, s1, id, m)
    requires var r, r1 := s.escrows[id], s1.escrows[id];
             && r1.contract == r.contract && s2.escrows[id] == r1.(bondHold := None) && s2.spends == s1.spends
             && (r.bondHold.Some? ==> r.bondHold.value < |s.wallet.holds|)
             && (forall k :: W.Available(s2.wallet, k) == W.Available(s1.wallet, k) + BondOut(s, r, returned, winner, k))
    ensures SlashesWithBond(s, s2, id, m, returned, winner)
  {
    OwedSame(s1.escrows[id], s2.escrows[id]);
    hide Owed, Captured, BondOut, SlashPaid, W.Available, TotalSpent;
  }

  /** A throw that only created a wallet row. */
  lemma RowsOnly(s: System, s': System, id: EscrowId)
    requires RecordOk(s, id) && W.Inv(s'.wallet) && s' == s.(wallet := s'.wallet) && s'.wallet.holds == s.wallet.holds
    ensures Kept(s, s', id)
  {
    FundsKept(s, s', id);
    hide FundsOk, FundsUntouched, ContractOk, AllSettled, W.Inv;
  }

  lemma ConcludeOk(s: System, id: EscrowId)
    requires Core(s, id)
    requires var r := s.escrows[id];
             && r.bondHold.None? && r.escalation.None?
             && (forall i :: 0 <= i < |r.contract.milestones| ==> !StateOf(r, r.contract.milestones[i].id).Disputed?)
    ensures var s' := Conclude(s, id);
            && RecordOk(s', id) && Touches(s, s', id) && Pays(s, s', id) && s'.wallet == s.wallet && s'.spends == s.spends
            && s'.escrows[id] == RecomputeState(s.escrows[id].(state := EscrowState.Resolved, disputer := None))
  {
    var s1 := Put(s, id, s.escrows[id].(state := EscrowState.Resolved, disputer := None));
    CoreRestated(s, s1, id);
    assert forall mid :: StateOf(s1.escrows[id], mid) == StateOf(s.escrows[id], mid);
    hide Core, Touches, Pays, W.Inv, AllSettled, AllReleased, StateOf;
    RecomputeOk(s1, id);
    TouchesTransitive(s, s1, Recomputed(s1, id), id);
    PaysTransitive(s, s1, Recomputed(s1, id), id);
  }

  lemma ConcludeMoney(s: System, id: EscrowId)
    requires id in s.escrows
    ensures var s' := Conclude(s, id);
            && id in s'.escrows && s'.wallet == s.wallet && s'.spends == s.spends
            && s'.escrows[id].contract == s.escrows[id].contract && s'.escrows[id].stakeHold == s.escrows[id].stakeHold
            && s'.escrows[id].bondHold == s.escrows[id].bondHold && s'.escrows[id].milestones == s.escrows[id].milestones
            && (forall mid :: StateOf(s'.escrows[id], mid) == StateOf(s.escrows[id], mid))
            && (forall k :: Owed(s'.escrows[id], k) == Owed(s.escrows[id], k))
            && Captured(s'.escrows[id]) == Captured(s.escrows[id])
  {
    OwedSame(s.escrows[id], Conclude(s, id).escrows[id]);
  }

  /** What a dispute that was decided on the spot or escalated adds to balance `k`. */
  function DisputeMoved(r: Record, r': Record, m: Milestone, verdict: Verdict, disputer: Did, bond: Option<Money>, k: W.Key): real {
    Owed(r', k) - Owed(r, k) +
    match verdict
    case Pass => StakeReturned(r, r', k) - BondLocked(disputer, bond, k) + BondPaid(r.contract.payee, bond, k)
    case Fail => SlashPaid(r, m, k)
    case Subjective => -BondLocked(disputer, bond, k)
  }

  /** Money moved by a dispute that was decided on the spot or escalated. */
  ghost predicate DisputePays(s: System, s': System, id: EscrowId, m: Milestone, verdict: Verdict, disputer: Did, bond: Option<Money>)
    requires id in s.escrows && id in s'.escrows
  {
    var r, r' := s.escrows[id], s'.escrows[id];
    && (forall k :: W.Available(s'.wallet, k) == W.Available(s.wallet, k) + DisputeMoved(r, r', m, verdict, disputer, bond, k))
    && (forall k :: TotalSpent(s'.spends, k)
                 == TotalSpent(s.spends, k) + if k == r.contract.PayerKey() then Captured(r') - Captured(r) else 0.0)
  }

  /** Milestone states after a dispute: only the disputed milestone changes. */
  ghost predicate DisputeStates(r: Record, r': Record, m: Milestone, verdict: Verdict) {
    && StateOf(r', m.id) == (match verdict case Pass => MilestoneState.Released case Fail => MilestoneState.Refunded case Subjective => MilestoneState.Disputed)
    && (forall mid :: mid != m.id ==> StateOf(r', mid) == StateOf(r, mid))
    && (verdict == Fail ==> r'.stakeHold.None?)
  }

  /** The state in which a dispute on milestone i has just begun. */
  ghost predicate Begun(s: System, s1: System, id: EscrowId, i: nat, disputer: Did, bond: Option<Money>) {
    && RecordOk(s, id) && i < |s.escrows[id].contract.milestones| && s.escrows[id].state == EscrowState.Open
    && Core(s1, id) && W.Inv(s1.wallet) && Touches(s, s1, id) && s1.spends == s.spends
    && var r := s.escrows[id]; var mid := r.contract.milestones[i].id;
       && mid in r.milestones && !StateOf(r, mid).Settled()
       && s1.escrows[id] == WithMilestone(r, mid, MilestoneState.Disputed).(
            bondHold := if bond.Some? then Some(|s.wallet.holds|) else None, state := EscrowState.Disputed, disputer := Some(disputer))
       && (bond.Some? ==> |s.wallet.holds| < |s1.wallet.holds|
                          && s1.wallet.holds[|s.wallet.holds|].amount == bond.value.amount
                          && s1.wallet.holds[|s.wallet.holds|].Account() == W.Key(disputer, bond.value.currency))
       && (forall k :: W.Available(s1.wallet, k) == W.Available(s.wallet, k) - BondLocked(disputer, bond, k))
  }

  lemma BeginsDispute(s: System, id: EscrowId, i: nat, disputer: Did, bond: Option<Money>)
    requires RecordOk(s, id) && W.Inv(s.wallet) && i < |s.escrows[id].contract.milestones| && s.escrows[id].state == EscrowState.Open
    requires !StateOf(s.escrows[id], s.escrows[id].contract.milestones[i].id).Settled()
    ensures s.escrows[id].contract.milestones[i].id in s.escrows[id].milestones
    ensures var o := BeginDispute(s, id, disputer, s.escrows[id].contract.milestones[i].id, bond);
            && (o.Thrown? ==> Kept(s, o.state, id))
            && (o.Done? ==> Begun(s, o.state, id, i, disputer, bond))
  {
    var r := s.escrows[id];
    assert r.bondHold.None?;
    BeginDisputeEffect(s, id, disputer, i, bond);
    var o := BeginDispute(s, id, disputer, r.contract.milestones[i].id, bond);
    if o.Thrown? { RowsOnly(s, o.state, id); }
    else if bond.Some? { assert o.state.wallet.holds[|s.wallet.holds|].Account() == W.Key(disputer, bond.value.currency); }
    hide Core, Touches, W.Inv;
  }

  /** What a dispute that has begun leaves as it was. */
  lemma BegunGives(s: System, s1: System, id: EscrowId, i: nat, disputer: Did, bond: Option<Money>)
    requires Begun(s, s1, id, i, disputer, bond)
    ensures RecordOk(s, id) && Core(s1, id) && W.Inv(s1.wallet) && Touches(s, s1, id)
    ensures id in s.escrows && id in s1.escrows && i < |s.escrows[id].contract.milestones|
    ensures var r, r1 := s.escrows[id], s1.escrows[id]; var mid := r.contract.milestones[i].id;
            && mid in r1.milestones && r1.contract == r.contract && r1.stakeHold == r.stakeHold
            && DistinctIds(r.contract.milestones)
            && r.escalation.None? && r1.escalation.None? && r1.state == EscrowState.Disputed && r1.disputer == Some(disputer)
            && StateOf(r1, mid).Disputed? && (forall other :: other != mid ==> StateOf(r1, other) == StateOf(r, other))
            && (forall j :: 0 <= j < |r.contract.milestones| ==> !StateOf(r, r.contract.milestones[j].id).Disputed?)
            && Captured(r1) == Captured(r) && (forall k :: Owed(r1, k) == Owed(r, k))
            && s1.spends == s.spends
            && (forall k :: W.Available(s1.wallet, k) == W.Available(s.wallet, k) - BondLocked(disputer, bond, k))
  {
    var r := s.escrows[id];
    var mid := r.contract.milestones[i].id;
    BegunFrom(s, id);
    BegunRecord(r, mid, if bond.Some? then Some(|s.wallet.holds|) else None, disputer);
    hide RecordOk, Core, Touches, W.Inv, W.Available, BondLocked, DistinctIds, Owed, Captured, WithMilestone, SettledAlike, StateOf;
    OwedSame(r, s1.escrows[id]);
  }

  lemma BegunRecord(r: Record, mid: MilestoneId, bondHold: Option<nat>, disputer: Did)
    requires mid in r.milestones && !StateOf(r, mid).Settled()
    ensures var r1 := WithMilestone(r, mid, MilestoneState.Disputed).(bondHold := bondHold, state := EscrowState.Disputed, disputer := Some(disputer));
            && mid in r1.milestones && r1.contract == r.contract && r1.stakeHold == r.stakeHold && r1.escalation == r.escalation
            && StateOf(r1, mid).Disputed? && (forall other :: other != mid ==> StateOf(r1, other) == StateOf(r, other))
            && SettledAlike(r, r1)
  {
  }

  lemma BegunFrom(s: System, id: EscrowId)
    requires RecordOk(s, id) && s.escrows[id].state == EscrowState.Open
    ensures DistinctIds(s.escrows[id].contract.milestones) && s.escrows[id].escalation.None?
    ensures var r := s.escrows[id]; forall j :: 0 <= j < |r.contract.milestones| ==> !StateOf(r, r.contract.milestones[j].id).Disputed?
  {
    assert StateOk(s.escrows[id]);
  }

  /** The bond that was locked is what a later pay-out of the bond moves. */
  lemma BegunBond(s: System, s1: System, id: EscrowId, i: nat, disputer: Did, bond: Option<Money>, returned: bool, winner: Did, k: W.Key)
    requires Begun(s, s1, id, i, disputer, bond)
    ensures id in s1.escrows && (s1.escrows[id].bondHold.Some? ==> s1.escrows[id].bondHold.value < |s1.wallet.holds|)
    ensures BondOut(s1, s1.escrows[id], returned, winner, k)
         == if returned then BondLocked(disputer, bond, k) else BondPaid(winner, bond, k)
  {
  }

  lemma DisputeEscalates(s: System, s1: System, id: EscrowId, i: nat, disputer: Did, bond: Option<Money>)
    requires Begun(s, s1, id, i, disputer, bond)
    requires disputer == s.escrows[id].contract.payer || disputer == s.escrows[id].contract.payee
    ensures id in s1.escrows
    ensures var r := s.escrows[id]; var m := r.contract.milestones[i];
            var s2 := Put(s1, id, s1.escrows[id].(escalation := Some(DisputeRuling(m.id, disputer))));
            && Kept(s, s2, id) && DisputePays(s, s2, id, m, Subjective, disputer, bond)
            && DisputeStates(r, s2.escrows[id], m, Subjective)
  {
    hide *;
    BegunGives(s, s1, id, i, disputer, bond);
    OneDisputed(s, s1, id, i, disputer, bond);
    EscalationKept(s, s1, id, i, disputer);
    EscalationMoney(s, s1, id, i, disputer, bond);
  }

  lemma OneDisputed(s: System, s1: System, id: EscrowId, i: nat, disputer: Did, bond: Option<Money>)
    requires Begun(s, s1, id, i, disputer, bond) && id in s.escrows && id in s1.escrows && i < |s.escrows[id].contract.milestones|
    ensures var r1 := s1.escrows[id];
            r1.contract == s.escrows[id].contract
            && forall j :: 0 <= j < |r1.contract.milestones| ==> (StateOf(r1, r1.contract.milestones[j].id).Disputed? <==> j == i)
  {
    BegunGives(s, s1, id, i, disputer, bond);
    hide Begun, Core, RecordOk, Touches, W.Inv, Owed, Captured, BondLocked, StateOf, W.Available;
  }

  lemma EscalatedAlike(r1: Record, e: Escalation)
    ensures var r2 := r1.(escalation := Some(e));
            && r2.contract == r1.contract && (forall mid :: StateOf(r2, mid) == StateOf(r1, mid))
            && Captured(r2) == Captured(r1) && (forall k :: Owed(r2, k) == Owed(r1, k))
  {
    OwedSame(r1, r1.(escalation := Some(e)));
  }

  lemma DisputePaysFrom(s: System, s': System, id: EscrowId, m: Milestone, verdict: Verdict, disputer: Did, bond: Option<Money>)
    requires id in s.escrows && id in s'.escrows
    requires forall k :: W.Available(s'.wallet, k)
                      == W.Available(s.wallet, k) + DisputeMoved(s.escrows[id], s'.escrows[id], m, verdict, disputer, bond, k)
    requires forall k :: TotalSpent(s'.spends, k) == TotalSpent(s.spends, k)
                           + if k == s.escrows[id].contract.PayerKey() then Captured(s'.escrows[id]) - Captured(s.escrows[id]) else 0.0
    ensures DisputePays(s, s', id, m, verdict, disputer, bond)
  {
    hide DisputeMoved, W.Available, TotalSpent, Captured;
  }

  lemma EscalationMoves(r: Record, r': Record, m: Milestone, disputer: Did, bond: Option<Money>, k: W.Key)
    ensures DisputeMoved(r, r', m, Subjective, disputer, bond, k) == Owed(r', k) - Owed(r, k) - BondLocked(disputer, bond, k)
  {
    hide Owed, BondLocked;
  }

  lemma EscalatedStates(r: Record, r': Record, m: Milestone)
    requires StateOf(r', m.id).Disputed? && (forall mid :: mid != m.id ==> StateOf(r', mid) == StateOf(r, mid))
    ensures DisputeStates(r, r', m, Subjective)
  {
    hide StateOf;
  }

  lemma EscalationMoney(s: System, s1: System, id: EscrowId, i: nat, disputer: Did, bond: Option<Money>)
    requires Begun(s, s1, id, i, disputer, bond) && id in s1.escrows
    ensures id in s.escrows && i < |s.escrows[id].contract.milestones|
    ensures var r := s.escrows[id]; var m := r.contract.milestones[i];
            var s2 := Put(s1, id, s1.escrows[id].(escalation := Some(DisputeRuling(m.id, disputer))));
            id in s2.escrows && DisputePays(s, s2, id, m, Subjective, disputer, bond) && DisputeStates(r, s2.escrows[id], m, Subjective)
  {
    hide *;
    BegunGives(s, s1, id, i, disputer, bond);
    var r, r1 := s.escrows[id], s1.escrows[id];
    var m := r.contract.milestones[i];
    var e := DisputeRuling(m.id, disputer);
    var s2 := PutBack(s1, id, r1.(escalation := Some(e)));
    EscalatedAlike(r1, e);
    forall k ensures W.Available(s2.wallet, k) == W.Available(s.wallet, k) + DisputeMoved(r, s2.escrows[id], m, Subjective, disputer, bond, k) {
      EscalationMoves(r, s2.escrows[id], m, disputer, bond, k);
    }
    DisputePaysFrom(s, s2, id, m, Subjective, disputer, bond);
    EscalatedStates(r, s2.escrows[id], m);
  }

  lemma PutBack(s: System, id: EscrowId, r: Record) returns (s': System)
    ensures s' == Put(s, id, r) && s'.wallet == s.wallet && s'.spends == s.spends && id in s'.escrows && s'.escrows[id] == r
  {
    s' := Put(s, id, r);
  }

  lemma EscalationKept(s: System, s1: System, id: EscrowId, i: nat, disputer: Did)
    requires Core(s1, id) && W.Inv(s1.wallet) && Touches(s, s1, id) && id in s.escrows
    requires s1.escrows[id].contract == s.escrows[id].contract && DistinctIds(s1.escrows[id].contract.milestones)
    requires i < |s1.escrows[id].contract.milestones|
    requires var r1 := s1.escrows[id];
             && r1.state == EscrowState.Disputed && r1.disputer == Some(disputer)
             && (disputer == r1.contract.payer || disputer == r1.contract.payee)
             && (forall j :: 0 <= j < |r1.contract.milestones| ==> (StateOf(r1, r1.contract.milestones[j].id).Disputed? <==> j == i))
    ensures Kept(s, Put(s1, id, s1.escrows[id].(escalation := Some(DisputeRuling(s1.escrows[id].contract.milestones[i].id, disputer)))), id)
  {
    var r1 := s1.escrows[id];
    var s2 := Put(s1, id, r1.(escalation := Some(DisputeRuling(r1.contract.milestones[i].id, disputer))));
    EscalatedOk(r1, i, disputer);
    hide StateOk, StateOf, Core, RecordOk, Touches, Pays, W.Inv;
    CoreRestated(s1, s2, id);
    TouchesTransitive(s, s1, s2, id);
    RecordOkFrom(s2, id);
  }

  lemma RecordOkFrom(s: System, id: EscrowId)
    requires Core(s, id) && id in s.escrows && StateOk(s.escrows[id])
    ensures RecordOk(s, id)
  {
  }

  lemma EscalatedOk(r1: Record, i: nat, disputer: Did)
    requires i < |r1.contract.milestones| && DistinctIds(r1.contract.milestones)
    requires r1.state == EscrowState.Disputed && r1.disputer == Some(disputer)
    requires disputer == r1.contract.payer || disputer == r1.contract.payee
    requires forall j :: 0 <= j < |r1.contract.milestones| ==> (StateOf(r1, r1.contract.milestones[j].id).Disputed? <==> j == i)
    ensures StateOk(r1.(escalation := Some(DisputeRuling(r1.contract.milestones[i].id, disputer))))
  {
    FindByIndex(r1.contract.milestones, i);
    var r2 := r1.(escalation := Some(DisputeRuling(r1.contract.milestones[i].id, disputer)));
    assert forall mid :: StateOf(r2, mid) == StateOf(r1, mid);
  }

  lemma DisputeFailsEffect(s: System, id: EscrowId, i: nat, now: int)
    requires Core(s, id) && W.Inv(s.wallet) && i < |s.escrows[id].contract.milestones|
    requires !StateOf(s.escrows[id], s.escrows[id].contract.milestones[i].id).Settled()
    ensures s.escrows[id].contract.milestones[i].id in s.escrows[id].milestones
    ensures var r := s.escrows[id]; var m := r.contract.milestones[i]; var o := DisputeFails(s, id, m, now);
            && o.Done? && Core(o.state, id) && W.Inv(o.state.wallet) && Touches(s, o.state, id)
            && id in o.state.escrows && o.state.escrows[id] == Marked(r, m.id, MilestoneState.Released).(bondHold := None)
            && PaysWithBond(s, o.state, id, false, r.contract.payee)
  {
    CoreGives(s, id);
    hide Core, W.Inv, Touches, PaysWithBond, Pays, CaptureMilestone, CloseBond, StateOf, AllSettled;
    CaptureThenBond(s, id, i, now, false, s.escrows[id].contract.payee);
    CaptureFacts(s, id, i, now);
  }

  lemma DisputeHoldsEffect(s: System, id: EscrowId, i: nat)
    requires Core(s, id) && W.Inv(s.wallet) && i < |s.escrows[id].contract.milestones|
    requires !StateOf(s.escrows[id], s.escrows[id].contract.milestones[i].id).Settled()
    ensures s.escrows[id].contract.milestones[i].id in s.escrows[id].milestones
    ensures var r := s.escrows[id]; var m := r.contract.milestones[i]; var o := DisputeHolds(s, id, m);
            && o.Done? && Core(o.state, id) && W.Inv(o.state.wallet) && Touches(s, o.state, id)
            && id in o.state.escrows
            && o.state.escrows[id] == WithMilestone(r, m.id, MilestoneState.Refunded).(stakeHold := None, bondHold := None)
            && SlashesWithBond(s, o.state, id, m, true, r.contract.payee)
  {
    CoreGives(s, id);
    hide Core, W.Inv, Touches, SlashesWithBond, SlashesAndRefunds, SlashProviderStake, RefundMilestone, CloseBond, StateOf, AllSettled;
    SlashThenBond(s, id, i, true, s.escrows[id].contract.payee);
    SlashAndRefund(s, id, i);
  }

  /** Closing a decided dispute leaves a record in order. */
  lemma ConcludeKeeps(s: System, s1: System, s2: System, id: EscrowId, i: nat, disputer: Did, bond: Option<Money>)
    requires Begun(s, s1, id, i, disputer, bond)
    requires Core(s2, id) && W.Inv(s2.wallet) && Touches(s1, s2, id)
    requires var r, r2 := s.escrows[id], s2.escrows[id]; var mid := r.contract.milestones[i].id;
             && r2.contract == r.contract && r2.bondHold.None? && r2.escalation.None?
             && StateOf(r2, mid).Settled() && (forall other :: other != mid ==> StateOf(r2, other) == StateOf(s1.escrows[id], other))
    ensures Kept(s, Conclude(s2, id), id)
  {
    BegunGives(s, s1, id, i, disputer, bond);
    CoreGives(s2, id);
    NoneDisputedNow(s, s1, s2, id, i, disputer, bond);
    hide *;
    TouchesTransitive(s, s1, s2, id);
    ConcludeOk(s2, id);
    ConcludeMoney(s2, id);
    TouchesTransitive(s, s2, Conclude(s2, id), id);
    KeptFrom(s, Conclude(s2, id), id);
  }

  lemma NoneDisputedNow(s: System, s1: System, s2: System, id: EscrowId, i: nat, disputer: Did, bond: Option<Money>)
    requires Begun(s, s1, id, i, disputer, bond) && id in s2.escrows
    requires var r, r2 := s.escrows[id], s2.escrows[id]; var mid := r.contract.milestones[i].id;
             && r2.contract == r.contract
             && StateOf(r2, mid).Settled() && (forall other :: other != mid ==> StateOf(r2, other) == StateOf(s1.escrows[id], other))
    ensures var r2 := s2.escrows[id]; forall j :: 0 <= j < |r2.contract.milestones| ==> !StateOf(r2, r2.contract.milestones[j].id).Disputed?
  {
    BegunGives(s, s1, id, i, disputer, bond);
    hide Begun, Core, RecordOk, Touches, W.Inv, Owed, Captured, BondLocked, StateOf, DistinctIds;
  }

  lemma KeptFrom(s: System, s': System, id: EscrowId)
    requires id in s.escrows && id in s'.escrows && RecordOk(s', id) && Touches(s, s', id) && W.Inv(s'.wallet)
    requires s'.escrows[id].contract == s.escrows[id].contract
    ensures Kept(s, s', id)
  {
    hide RecordOk, Touches, W.Inv;
  }

  lemma MarkedWithoutBond(r: Record, mid: MilestoneId, st: MilestoneState)
    requires mid in r.milestones && st.Settled() && !StateOf(r, mid).Settled()
    ensures var r' := Marked(r, mid, st).(bondHold := None);
            && r'.contract == r.contract && r'.escalation == r.escalation
            && StateOf(r', mid) == st && (forall other :: other != mid ==> StateOf(r', other) == StateOf(r, other))
  {
  }

  lemma DisputeRejected(s: System, s1: System, id: EscrowId, i: nat, disputer: Did, bond: Option<Money>, now: int)
    requires Begun(s, s1, id, i, disputer, bond)
    ensures id in s1.escrows
    ensures var r := s.escrows[id]; var m := r.contract.milestones[i]; var o := DisputeFails(s1, id, m, now);
            && o.Done? && id in o.state.escrows
            && var s' := Conclude(o.state, id);
               && Kept(s, s', id) && DisputePays(s, s', id, m, Pass, disputer, bond) && DisputeStates(r, s'.escrows[id], m, Pass)
  {
    BegunGives(s, s1, id, i, disputer, bond);
    var r := s.escrows[id];
    var m := r.contract.milestones[i];
    DisputeFailsEffect(s1, id, i, now);
    MarkedWithoutBond(s1.escrows[id], m.id, MilestoneState.Released);
    hide Begun, Core, RecordOk, Touches, Pays, W.Inv, Owed, Captured, PaysWithBond, DisputePays, BondLocked, DisputeFails, Conclude,
         Marked, StateOf, Kept;
    var s2 := DisputeFails(s1, id, m, now).state;
    ConcludeKeeps(s, s1, s2, id, i, disputer, bond);
    ConcludeMoney(s2, id);
    RejectedMoney(s, s1, s2, id, i, disputer, bond);
  }

  lemma PaysWithBondAt(s: System, s': System, id: EscrowId, returned: bool, winner: Did, k: W.Key)
    requires id in s.escrows && id in s'.escrows && PaysWithBond(s, s', id, returned, winner)
    ensures var r, r' := s.escrows[id], s'.escrows[id];
            && (r.bondHold.Some? ==> r.bondHold.value < |s.wallet.holds|)
            && W.Available(s'.wallet, k) == W.Available(s.wallet, k) + Owed(r', k) - Owed(r, k)
                 + StakeReturned(r, r', k) + BondOut(s, r, returned, winner, k)
            && TotalSpent(s'.spends, k)
                 == TotalSpent(s.spends, k) + if k == r.contract.PayerKey() then Captured(r') - Captured(r) else 0.0
  {
    hide Owed, Captured, StakeReturned, BondOut, W.Available, TotalSpent;
  }

  lemma RejectionMoves(r: Record, r1: Record, r2: Record, r': Record, m: Milestone, disputer: Did, bond: Option<Money>, k: W.Key)
    requires r1.contract == r.contract && r1.stakeHold == r.stakeHold && r'.stakeHold == r2.stakeHold
    ensures DisputeMoved(r, r', m, Pass, disputer, bond, k)
         == Owed(r', k) - Owed(r, k) + StakeReturned(r1, r2, k) - BondLocked(disputer, bond, k) + BondPaid(r.contract.payee, bond, k)
  {
    hide Owed, BondLocked, BondPaid;
  }

  lemma RejectedMoney(s: System, s1: System, s2: System, id: EscrowId, i: nat, disputer: Did, bond: Option<Money>)
    requires Begun(s, s1, id, i, disputer, bond) && id in s1.escrows && id in s2.escrows && id in s.escrows
    requires i < |s.escrows[id].contract.milestones| && s2.escrows[id].contract == s.escrows[id].contract
    requires PaysWithBond(s1, s2, id, false, s.escrows[id].contract.payee)
    ensures id in Conclude(s2, id).escrows
    ensures DisputePays(s, Conclude(s2, id), id, s.escrows[id].contract.milestones[i], Pass, disputer, bond)
  {
    hide *;
    BegunGives(s, s1, id, i, disputer, bond);
    ConcludeMoney(s2, id);
    var s' := Conclude(s2, id);
    var r, r', m := s.escrows[id], s'.escrows[id], s.escrows[id].contract.milestones[i];
    forall k
      ensures W.Available(s'.wallet, k) == W.Available(s.wallet, k) + DisputeMoved(r, r', m, Pass, disputer, bond, k)
      ensures TotalSpent(s'.spends, k) == TotalSpent(s.spends, k) + if k == r.contract.PayerKey() then Captured(r') - Captured(r) else 0.0
    {
      BegunBond(s, s1, id, i, disputer, bond, false, r.contract.payee, k);
      PaysWithBondAt(s1, s2, id, false, r.contract.payee, k);
      RejectionMoves(r, s1.escrows[id], s2.escrows[id], r', m, disputer, bond, k);
    }
    DisputePaysFrom(s, s', id, m, Pass, disputer, bond);
  }

  lemma RefundedAlone(r: Record, mid: MilestoneId)
    requires mid in r.milestones
    ensures var r' := WithMilestone(r, mid, MilestoneState.Refunded).(stakeHold := None, bondHold := None);
            && r'.contract == r.contract && r'.escalation == r.escalation && r'.stakeHold.None? && r'.bondHold.None?
            && StateOf(r', mid).Refunded? && (forall other :: other != mid ==> StateOf(r', other) == StateOf(r, other))
  {
  }

  lemma DisputeUpheld(s: System, s1: System, id: EscrowId, i: nat, disputer: Did, bond: Option<Money>)
    requires Begun(s, s1, id, i, disputer, bond)
    ensures id in s1.escrows
    ensures var r := s.escrows[id]; var m := r.contract.milestones[i]; var o := DisputeHolds(s1, id, m);
            && o.Done? && id in o.state.escrows
            && var s' := Conclude(o.state, id);
               && Kept(s, s', id) && DisputePays(s, s', id, m, Fail, disputer, bond) && DisputeStates(r, s'.escrows[id], m, Fail)
  {
    BegunGives(s, s1, id, i, disputer, bond);
    var r := s.escrows[id];
    var m := r.contract.milestones[i];
    DisputeHoldsEffect(s1, id, i);
    RefundedAlone(s1.escrows[id], m.id);
    hide Begun, Core, RecordOk, Touches, Pays, W.Inv, Owed, Captured, SlashesWithBond, DisputePays, BondLocked, DisputeHolds, Conclude,
         StateOf, WithMilestone, Kept;
    var s2 := DisputeHolds(s1, id, m).state;
    ConcludeKeeps(s, s1, s2, id, i, disputer, bond);
    ConcludeMoney(s2, id);
    UpheldMoney(s, s1, s2, id, i, disputer, bond);
  }

  lemma SlashesWithBondAt(s: System, s': System, id: EscrowId, m: Milestone, returned: bool, winner: Did, k: W.Key)
    requires id in s.escrows && id in s'.escrows && SlashesWithBond(s, s', id, m, returned, winner)
    ensures var r, r' := s.escrows[id], s'.escrows[id];
            && (r.bondHold.Some? ==> r.bondHold.value < |s.wallet.holds|)
            && W.Available(s'.wallet, k) == W.Available(s.wallet, k) + Owed(r', k) - Owed(r, k)
                 + SlashPaid(r, m, k) + BondOut(s, r, returned, winner, k)
            && TotalSpent(s'.spends, k) == TotalSpent(s.spends, k) && Captured(r') == Captured(r)
  {
    hide Owed, Captured, SlashPaid, BondOut, W.Available, TotalSpent;
  }

  lemma UpholdingMoves(r: Record, r1: Record, r': Record, m: Milestone, disputer: Did, bond: Option<Money>, k: W.Key)
    requires r1.contract == r.contract && r1.stakeHold == r.stakeHold
    ensures DisputeMoved(r, r', m, Fail, disputer, bond, k) == Owed(r', k) - Owed(r, k) + SlashPaid(r1, m, k)
  {
    hide Owed;
  }

  lemma UpheldMoney(s: System, s1: System, s2: System, id: EscrowId, i: nat, disputer: Did, bond: Option<Money>)
    requires Begun(s, s1, id, i, disputer, bond) && id in s1.escrows && id in s2.escrows && id in s.escrows
    requires i < |s.escrows[id].contract.milestones| && s2.escrows[id].contract == s.escrows[id].contract
    requires SlashesWithBond(s1, s2, id, s.escrows[id].contract.milestones[i], true, s.escrows[id].contract.payee)
    ensures id in Conclude(s2, id).escrows
    ensures DisputePays(s, Conclude(s2, id), id, s.escrows[id].contract.milestones[i], Fail, disputer, bond)
  {
    hide *;
    BegunGives(s, s1, id, i, disputer, bond);
    ConcludeMoney(s2, id);
    var s' := Conclude(s2, id);
    var r, r', m := s.escrows[id], s'.escrows[id], s.escrows[id].contract.milestones[i];
    forall k
      ensures W.Available(s'.wallet, k) == W.Available(s.wallet, k) + DisputeMoved(r, r', m, Fail, disputer, bond, k)
      ensures TotalSpent(s'.spends, k) == TotalSpent(s.spends, k) + if k == r.contract.PayerKey() then Captured(r') - Captured(r) else 0.0
    {
      BegunBond(s, s1, id, i, disputer, bond, true, r.contract.payee, k);
      SlashesWithBondAt(s1, s2, id, m, true, r.contract.payee, k);
      UpholdingMoves(r, s1.escrows[id], r', m, disputer, bond, k);
    }
    DisputePaysFrom(s, s', id, m, Fail, disputer, bond);
  }

  lemma DecideEffect(s: System, id: EscrowId, i: nat, disputer: Did, bond: Option<Money>, now: int)
    requires RecordOk(s, id) && W.Inv(s.wallet) && i < |s.escrows[id].contract.milestones| && s.escrows[id].state == EscrowState.Open
    requires !StateOf(s.escrows[id], s.escrows[id].contract.milestones[i].id).Settled()
    requires disputer == s.escrows[id].contract.payer || disputer == s.escrows[id].contract.payee
    ensures s.escrows[id].contract.milestones[i].id in s.escrows[id].milestones
    ensures var r := s.escrows[id]; var m := r.contract.milestones[i]; var o := DecideDispute(s, id, disputer, m, bond, now);
            && Kept(s, o.state, id)
            && (o.Done? ==> DisputePays(s, o.state, id, m, VerdictOf(r, m), disputer, bond) && DisputeStates(r, o.state.escrows[id], m, VerdictOf(r, m)))
  {
    var r := s.escrows[id];
    var m := r.contract.milestones[i];
    hide RecordOk, Kept, W.Inv, BeginDispute, Begun, DisputePays, DisputeStates, DisputeFails, DisputeHolds, Conclude, StateOf;
    BeginsDispute(s, id, i, disputer, bond);
    var verdict := VerdictOf(r, m);
    hide VerdictOf;
    var o := BeginDispute(s, id, disputer, m.id, bond);
    if o.Done? {
      match verdict
      case Subjective => DisputeEscalates(s, o.state, id, i, disputer, bond);
      case Pass => DisputeRejected(s, o.state, id, i, disputer, bond, now);
      case Fail => DisputeUpheld(s, o.state, id, i, disputer, bond);
    }
  }

  /** Every dispute, by either party, leaves records and wallet in order and moves exactly the money
    its verdict says: a milestone whose delivery passes its own checksum is paid and the bond goes to
    the payee; one that fails is refunded, the stake is slashed and the bond returns; otherwise only
    the bond is locked. */
  lemma DisputeEffect(s: System, id: EscrowId, disputer: Did, mid: MilestoneId, bond: Option<Money>, now: int)
    requires RecordOk(s, id) && W.Inv(s.wallet)
    ensures var o := Dispute(s, id, disputer, mid, bond, now);
            && Kept(s, o.state, id)
            && (o.Done? ==>
                  && Find(s.escrows[id].contract.milestones, mid).Some? && mid in s.escrows[id].milestones
                  && var m := Find(s.escrows[id].contract.milestones, mid).value; var verdict := SaidByHash(s.escrows[id], m);
                     DisputePays(s, o.state, id, m, verdict, disputer, bond)
                     && DisputeStates(s.escrows[id], o.state.escrows[id], m, verdict))
  {
    NothingKept(s, id);
    CoreGives(s, id);
    var r := s.escrows[id];
    assert StateOk(r);
    hide RecordOk, StateOk, Kept, W.Inv, DecideDispute, DisputePays, DisputeStates, WindowClosed, VerdictOf, SaidByHash, Pays;
    if RequireOpenish(s, id).None? && (disputer == r.contract.payer || disputer == r.contract.payee)
       && Find(r.contract.milestones, mid).Some? && mid in r.milestones
       && !StateOf(r, mid).Accepted? && !StateOf(r, mid).Settled() && !WindowClosed(r, mid, now)
    {
      var i := FindGives(r.contract.milestones, mid);
      OpenWhenOpenish(s, id);
      DecideEffect(s, id, i, disputer, bond, now);
      VerdictSaid(r, r.contract.milestones[i]);
    }
  }

  lemma OpenWhenOpenish(s: System, id: EscrowId)
    requires RecordOk(s, id) && RequireOpenish(s, id).None?
    ensures id in s.escrows && s.escrows[id].state == EscrowState.Open
  {
  }
}
