/** The joint invariant of the escrow records and the wallet, and the moves that keep it. */
module EscrowInvariant {
  import opened Outcomes
  import opened Escrow
  import opened Spends
  import W = Wallet

  // ---- what one record and the wallet agree on --------------------------------------------

  ghost predicate DistinctIds(ms: seq<Milestone>) {
    forall i, j :: 0 <= i < j < |ms| ==> ms[i].id != ms[j].id
  }

  ghost predicate ContractOk(c: Contract, id: EscrowId) {
    c.escrowId == id && DistinctIds(c.milestones) && AmountSum(c.milestones) == c.total && c.total > 0.0
  }

  /** The state a milestone's wallet hold has while the milestone is in state `st`. */
  function HoldStateOf(st: MilestoneState): W.HoldState {
    match st
    case Released => W.Captured
    case Refunded => W.Released
    case _ => W.Active
  }

  /** The receipts issued for one milestone. */
  function Issued(rs: seq<Receipt>, id: EscrowId, mid: MilestoneId): seq<Receipt> {
    if rs == [] then []
    else
      var last := rs[|rs| - 1];
      Issued(rs[..|rs| - 1], id, mid) + if last.escrowId == id && last.milestoneId == mid then [last] else []
  }

  /** A receipt for the milestone's amount that says delivered exactly if the milestone was paid. */
  predicate ReceiptFits(x: Receipt, c: Contract, m: Milestone, st: MilestoneState) {
    && x == Receipt(c.escrowId, m.id, c.payer, c.payee, m.amount, x.outcome)
    && (x.outcome.WorkDelivered? <==> st.Released?)
  }

  predicate Receipted(issued: seq<Receipt>, c: Contract, m: Milestone, st: MilestoneState) {
    if st.Settled() then |issued| == 1 && ReceiptFits(issued[0], c, m, st) else issued == []
  }

  /** The milestone's hold locks exactly its amount and is active, captured or returned as the
    milestone's state says; there is one receipt, with that amount and outcome, if it is settled and
    none before. */
  ghost predicate MilestoneOk(s: System, r: Record, m: Milestone) {
    && m.id in r.milestones && m.id in r.holdIds && r.holdIds[m.id] < |s.wallet.holds|
    && !StateOf(r, m.id).Accepted? && !StateOf(r, m.id).Rejected?
    && s.wallet.holds[r.holdIds[m.id]]
       == W.Hold(r.contract.payer, r.contract.currency, m.amount, W.FundRef(r.contract.escrowId, m.id), HoldStateOf(StateOf(r, m.id)))
    && Receipted(Issued(s.receipts, r.contract.escrowId, m.id), r.contract, m, StateOf(r, m.id))
  }

  ghost predicate FundsOk(s: System, r: Record) {
    forall i :: 0 <= i < |r.contract.milestones| ==> MilestoneOk(s, r, r.contract.milestones[i])
  }

  ghost predicate StakeOk(s: System, r: Record) {
    r.stakeHold.Some? ==>
      && NeedsStake(r.contract) && r.stakeHold.value < |s.wallet.holds|
      && s.wallet.holds[r.stakeHold.value]
         == W.Hold(r.contract.payee, r.contract.stake.currency, r.contract.stake.amount, W.StakeRef(r.contract.escrowId), W.Active)
  }

  ghost predicate BondOk(s: System, r: Record) {
    r.bondHold.Some? ==>
      && r.bondHold.value < |s.wallet.holds|
      && var h := s.wallet.holds[r.bondHold.value];
         h.state == W.Active && h.ref.BondRef? && h.ref.escrowId == r.contract.escrowId && r.disputer == Some(h.owner)
  }

  predicate Owns(ref: W.Ref, id: EscrowId) {
    !ref.OtherRef? && ref.escrowId == id
  }

  predicate Named(r: Record, h: nat, ref: W.Ref) {
    match ref
    case FundRef(_, mid) => Find(r.contract.milestones, mid).Some? && mid in r.holdIds && r.holdIds[mid] == h
    case StakeRef(_) => r.stakeHold == Some(h)
    case BondRef(_, _) => r.bondHold == Some(h)
    case OtherRef(_) => false
  }

  /** Every active hold taken for this escrow is one that the record still names. */
  ghost predicate NoOrphans(s: System, r: Record) {
    forall h :: 0 <= h < |s.wallet.holds| && s.wallet.holds[h].state == W.Active && Owns(s.wallet.holds[h].ref, r.contract.escrowId)
      ==> Named(r, h, s.wallet.holds[h].ref)
  }

  ghost predicate WeakCore(s: System, id: EscrowId) {
    && id in s.escrows
    && var r := s.escrows[id];
       ContractOk(r.contract, id) && FundsOk(s, r) && StakeOk(s, r) && BondOk(s, r) && NoOrphans(s, r)
  }

  /** The stake does not outlive the last milestone. */
  ghost predicate Core(s: System, id: EscrowId) {
    WeakCore(s, id) && (AllSettled(s.escrows[id]) ==> s.escrows[id].stakeHold.None?)
  }

  /** The record's state field tells what is going on with its milestones, bond and escalation. */
  ghost predicate StateOk(r: Record) {
    && (r.escalation.Some? <==> r.state == EscrowState.Disputed)
    && (r.bondHold.Some? ==> r.escalation.Some? && r.escalation.value.DisputeRuling?)
    && (forall i :: 0 <= i < |r.contract.milestones| ==>
          var mid := r.contract.milestones[i].id;
          StateOf(r, mid).Disputed? <==> r.escalation.Some? && r.escalation.value.DisputeRuling? && r.escalation.value.milestoneId == mid)
    && (match r.state
        case Open => !AllSettled(r)
        case Released => AllReleased(r)
        case Disputed => EscalationOk(r, r.escalation)
        case Resolved => true
        case TimedOut => AllSettled(r)
        case Delivered => false
        case Refunded => false)
  }

  ghost predicate EscalationOk(r: Record, e: Option<Escalation>) {
    e.Some? && match e.value
      case DisputeRuling(mid, disputer) =>
        && Find(r.contract.milestones, mid).Some?
        && r.disputer == Some(disputer) && (disputer == r.contract.payer || disputer == r.contract.payee)
      case TimeoutRuling(mids) => mids == Ids(UnsettledOf(r, r.contract.milestones))
  }

  ghost predicate RecordOk(s: System, id: EscrowId) {
    Core(s, id) && StateOk(s.escrows[id])
  }

  /** Nothing is locked or recorded for an escrow that does not exist. */
  ghost predicate Known(s: System) {
    && (forall h :: 0 <= h < |s.wallet.holds| && s.wallet.holds[h].state == W.Active && !s.wallet.holds[h].ref.OtherRef?
          ==> s.wallet.holds[h].ref.escrowId in s.escrows)
    && (forall i :: 0 <= i < |s.receipts| ==> s.receipts[i].escrowId in s.escrows)
  }

  ghost predicate Inv(s: System) {
    && W.Inv(s.wallet)
    && (forall id :: id in s.escrows ==> RecordOk(s, id))
    && Known(s)
  }

  // ---- frames: one escrow's move does not concern the others ------------------------------

  ghost predicate Touches(s: System, s': System, id: EscrowId) {
    && (forall e :: e != id ==> (e in s'.escrows <==> e in s.escrows))
    && (forall e :: e != id && e in s.escrows ==> s'.escrows[e] == s.escrows[e])
    && HoldsTouched(s.wallet.holds, s'.wallet.holds, id)
    && |s.receipts| <= |s'.receipts|
    && s'.receipts[..|s.receipts|] == s.receipts
    && (forall i :: |s.receipts| <= i < |s'.receipts| ==> s'.receipts[i].escrowId == id)
  }

  ghost predicate HoldsTouched(hs: seq<W.Hold>, hs': seq<W.Hold>, id: EscrowId) {
    && |hs| <= |hs'|
    && (forall h :: 0 <= h < |hs| ==> hs'[h] == hs[h].(state := hs'[h].state))
    && (forall h :: 0 <= h < |hs| && !Owns(hs[h].ref, id) ==> hs'[h] == hs[h])
    && (forall h :: |hs| <= h < |hs'| ==> Owns(hs'[h].ref, id))
  }

  lemma TouchesTransitive(s0: System, s1: System, s2: System, id: EscrowId)
    requires Touches(s0, s1, id) && Touches(s1, s2, id)
    ensures Touches(s0, s2, id)
  {
    assert s2.receipts[..|s0.receipts|] == s2.receipts[..|s1.receipts|][..|s0.receipts|];
    forall i | |s0.receipts| <= i < |s2.receipts| ensures s2.receipts[i].escrowId == id {
      if i < |s1.receipts| {
        assert s2.receipts[i] == s2.receipts[..|s1.receipts|][i];
      }
    }
  }

  lemma {:induction false} IssuedTouched(rs: seq<Receipt>, rs': seq<Receipt>, id: EscrowId, e: EscrowId, mid: MilestoneId)
    requires |rs| <= |rs'| && rs'[..|rs|] == rs && e != id
    requires forall i :: |rs| <= i < |rs'| ==> rs'[i].escrowId == id
    ensures Issued(rs', e, mid) == Issued(rs, e, mid)
    decreases |rs'|
  {
    if |rs'| > |rs| {
      var p := rs'[..|rs'| - 1];
      assert p[..|rs|] == rs'[..|rs|];
      IssuedTouched(rs, p, id, e, mid);
    } else {
      assert rs' == rs;
    }
  }

  lemma RecordFramed(s: System, s': System, id: EscrowId, e: EscrowId)
    requires Touches(s, s', id) && e != id && e in s.escrows && RecordOk(s, e)
    ensures RecordOk(s', e)
  {
    var r := s.escrows[e];
    forall i | 0 <= i < |r.contract.milestones| ensures MilestoneOk(s', r, r.contract.milestones[i]) {
      var m := r.contract.milestones[i];
      assert MilestoneOk(s, r, m);
      IssuedTouched(s.receipts, s'.receipts, id, e, m.id);
    }
  }

  /** A move on escrow `id` that keeps that record and the wallet in order keeps everything. */
  lemma InvFramed(s: System, s': System, id: EscrowId)
    requires Inv(s) && Touches(s, s', id) && W.Inv(s'.wallet) && id in s'.escrows && RecordOk(s', id)
    ensures Inv(s')
  {
    forall e | e in s'.escrows ensures RecordOk(s', e) {
      if e != id { RecordFramed(s, s', id, e); }
    }
    forall h | 0 <= h < |s'.wallet.holds| && s'.wallet.holds[h].state == W.Active && !s'.wallet.holds[h].ref.OtherRef?
      ensures s'.wallet.holds[h].ref.escrowId in s'.escrows
    {
      if h < |s.wallet.holds| && !Owns(s.wallet.holds[h].ref, id) {
        assert s'.wallet.holds[h] == s.wallet.holds[h];
      }
    }
    forall i | 0 <= i < |s'.receipts| ensures s'.receipts[i].escrowId in s'.escrows {
      if i < |s.receipts| {
        assert s'.receipts[i] == s'.receipts[..|s.receipts|][i];
      }
    }
  }

  // ---- lookup -----------------------------------------------------------------------------

  lemma {:induction false} FindGives(ms: seq<Milestone>, mid: MilestoneId) returns (i: nat)
    requires Find(ms, mid).Some?
    ensures i < |ms| && ms[i].id == mid && Find(ms, mid) == Some(ms[i])
    decreases |ms|
  {
    if ms[0].id == mid {
      i := 0;
    } else {
      var j := FindGives(ms[1..], mid);
      i := j + 1;
    }
  }

  lemma {:induction false} FindByIndex(ms: seq<Milestone>, i: nat)
    requires DistinctIds(ms) && i < |ms|
    ensures Find(ms, ms[i].id) == Some(ms[i])
    decreases |ms|
  {
    if i > 0 {
      var rest := ms[1..];
      assert forall a, b :: 0 <= a < b < |rest| ==> rest[a] == ms[a + 1] && rest[b] == ms[b + 1];
      FindByIndex(rest, i - 1);
    }
  }

  // ---- money paid out ---------------------------------------------------------------------

  /** The amounts of the milestones that are in state `st`. */
  function SumIn(r: Record, ms: seq<Milestone>, st: MilestoneState): real {
    if ms == [] then 0.0
    else (if StateOf(r, ms[0].id) == st then ms[0].amount else 0.0) + SumIn(r, ms[1..], st)
  }

  function Captured(r: Record): real {
    SumIn(r, r.contract.milestones, MilestoneState.Released)
  }

  function RefundedSum(r: Record): real {
    SumIn(r, r.contract.milestones, MilestoneState.Refunded)
  }

  lemma {:induction false} SumInUnchanged(r: Record, r': Record, ms: seq<Milestone>, st: MilestoneState)
    requires forall i :: 0 <= i < |ms| ==> StateOf(r', ms[i].id) == StateOf(r, ms[i].id)
    ensures SumIn(r', ms, st) == SumIn(r, ms, st)
    decreases |ms|
  {
    if ms != [] {
      assert StateOf(r', ms[0].id) == StateOf(r, ms[0].id);
      assert forall i :: 0 <= i < |ms[1..]| ==> ms[1..][i] == ms[i + 1];
      SumInUnchanged(r, r', ms[1..], st);
    }
  }

  lemma {:induction false} SumInMarked(r: Record, r': Record, ms: seq<Milestone>, i: nat, st: MilestoneState)
    requires DistinctIds(ms) && i < |ms|
    requires forall mid :: mid != ms[i].id ==> StateOf(r', mid) == StateOf(r, mid)
    ensures SumIn(r', ms, st) == SumIn(r, ms, st)
              - (if StateOf(r, ms[i].id) == st then ms[i].amount else 0.0)
              + (if StateOf(r', ms[i].id) == st then ms[i].amount else 0.0)
    decreases |ms|
  {
    var rest := ms[1..];
    assert forall a :: 0 <= a < |rest| ==> rest[a] == ms[a + 1];
    if i == 0 {
      SumInUnchanged(r, r', rest, st);
    } else {
      assert DistinctIds(rest);
      SumInMarked(r, r', rest, i - 1, st);
    }
  }

  /** With every milestone settled, captured plus refunded is the contract total, exactly. */
  lemma {:induction false} SettledAddsUp(r: Record, ms: seq<Milestone>)
    requires forall i :: 0 <= i < |ms| ==> StateOf(r, ms[i].id).Settled()
    ensures SumIn(r, ms, MilestoneState.Released) + SumIn(r, ms, MilestoneState.Refunded) == AmountSum(ms)
    decreases |ms|
  {
    if ms != [] {
      assert forall i :: 0 <= i < |ms[1..]| ==> ms[1..][i] == ms[i + 1];
      SettledAddsUp(r, ms[1..]);
    }
  }

  function Owed(r: Record, k: W.Key): real {
    (if k == r.contract.PayeeKey() then Captured(r) else 0.0) + (if k == r.contract.PayerKey() then RefundedSum(r) else 0.0)
  }

  function StakeReturned(r: Record, r': Record, k: W.Key): real {
    if r.stakeHold.Some? && r'.stakeHold.None? && k == r.contract.ProviderStakeKey() then r.contract.stake.amount else 0.0
  }

  /** Available balances and the spend book move as the records say: what became released went to
    the payee and into the payer's spends, what became refunded went to the payer, and a stake that
    was let go went back to the provider. Nobody else's balance changes. */
  ghost predicate Pays(s: System, s': System, id: EscrowId)
    requires id in s.escrows && id in s'.escrows
  {
    var r, r' := s.escrows[id], s'.escrows[id];
    && (forall k :: W.Available(s'.wallet, k) == W.Available(s.wallet, k) + Owed(r', k) - Owed(r, k) + StakeReturned(r, r', k))
    && (forall k :: TotalSpent(s'.spends, k)
                 == TotalSpent(s.spends, k) + if k == r.contract.PayerKey() then Captured(r') - Captured(r) else 0.0)
  }

  /** Only milestone states and the stake change, and what is settled stays settled. */
  ghost predicate OnlySettles(r: Record, r': Record) {
    && r' == r.(milestones := r'.milestones, stakeHold := r'.stakeHold)
    && (r'.stakeHold == r.stakeHold || r'.stakeHold.None?)
    && (forall mid :: StateOf(r', mid) == StateOf(r, mid) || (!StateOf(r, mid).Settled() && StateOf(r', mid).Settled()))
  }

  ghost predicate Progress(s: System, s': System, id: EscrowId) {
    && id in s.escrows && Core(s', id) && W.Inv(s'.wallet)
    && Touches(s, s', id)
    && OnlySettles(s.escrows[id], s'.escrows[id])
    && Pays(s, s', id)
  }

  lemma NoProgress(s: System, id: EscrowId)
    requires Core(s, id) && W.Inv(s.wallet)
    ensures Progress(s, s, id)
  {
  }

  lemma ProgressTransitive(s0: System, s1: System, s2: System, id: EscrowId)
    requires Progress(s0, s1, id) && Progress(s1, s2, id)
    ensures Progress(s0, s2, id)
  {
    hide Core, Touches, W.Inv, Owed, SumIn;
    TouchesTransitive(s0, s1, s2, id);
  }
}
