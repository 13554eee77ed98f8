/** What the internal moves of the escrow machine do when the record and the wallet agree. */
module EscrowMoves {
  import opened Amounts
  import opened Outcomes
  import opened Escrow
  import opened EscrowInvariant
  import opened Spends
  import W = Wallet

  // ---- settling one milestone -------------------------------------------------------------

  /** The record after milestone `mid` ended in state `st`. */
  function Marked(r: Record, mid: MilestoneId, st: MilestoneState): Record
    requires mid in r.milestones
  {
    var r := WithMilestone(r, mid, st);
    if AllSettled(r) then r.(stakeHold := None) else r
  }

  /** `s'` is `s` after milestone i's hold was settled, its state marked and its receipt issued. */
  ghost predicate MarkStep(s: System, s': System, id: EscrowId, i: nat, st: MilestoneState)
    requires Core(s, id) && i < |s.escrows[id].contract.milestones|
  {
    var r := s.escrows[id];
    var m := r.contract.milestones[i];
    assert MilestoneOk(s, r, m);
    var h := r.holdIds[m.id];
    && s'.wallet.holds == s.wallet.holds[h := s.wallet.holds[h].(state := HoldStateOf(st))]
    && s'.escrows == s.escrows[id := WithMilestone(r, m.id, st)]
    && |s'.receipts| == |s.receipts| + 1 && s'.receipts[..|s.receipts|] == s.receipts
    && ReceiptFits(s'.receipts[|s.receipts|], r.contract, m, st)
  }

  lemma MarkKeepsFunds(s: System, s': System, id: EscrowId, i: nat, st: MilestoneState)
    requires Core(s, id) && i < |s.escrows[id].contract.milestones| && st.Settled()
    requires !StateOf(s.escrows[id], s.escrows[id].contract.milestones[i].id).Settled()
    requires MarkStep(s, s', id, i, st)
    ensures FundsOk(s', s'.escrows[id])
  {
    var r, r' := s.escrows[id], s'.escrows[id];
    var ms := r.contract.milestones;
    forall j | 0 <= j < |ms| ensures MilestoneOk(s', r', ms[j]) {
      assert MilestoneOk(s, r, ms[i]) && MilestoneOk(s, r, ms[j]);
      assert Issued(s'.receipts, id, ms[j].id)
          == Issued(s.receipts, id, ms[j].id) + if ms[j].id == ms[i].id then [s'.receipts[|s.receipts|]] else [];
      if j != i {
        assert ms[j].id != ms[i].id;
        assert r.holdIds[ms[j].id] != r.holdIds[ms[i].id];
      }
    }
  }

  lemma MarkKeepsWeakCore(s: System, s': System, id: EscrowId, i: nat, st: MilestoneState)
    requires Core(s, id) && i < |s.escrows[id].contract.milestones| && st.Settled()
    requires !StateOf(s.escrows[id], s.escrows[id].contract.milestones[i].id).Settled()
    requires MarkStep(s, s', id, i, st)
    ensures WeakCore(s', id) && Touches(s, s', id)
  {
    MarkKeepsFunds(s, s', id, i, st);
    var r := s.escrows[id];
    assert MilestoneOk(s, r, r.contract.milestones[i]);
  }

  /** Who a milestone pays when it ends in state `st`. */
  function PaidKey(c: Contract, st: MilestoneState): W.Key {
    if st.Released? then c.PayeeKey() else c.PayerKey()
  }

  lemma MarkedSums(r: Record, i: nat, st: MilestoneState)
    requires DistinctIds(r.contract.milestones) && i < |r.contract.milestones| && st.Settled()
    requires r.contract.milestones[i].id in r.milestones
    requires !StateOf(r, r.contract.milestones[i].id).Settled()
    ensures var m := r.contract.milestones[i]; var r' := Marked(r, m.id, st);
            && (forall k :: Owed(r', k) == Owed(r, k) + if k == PaidKey(r.contract, st) then m.amount else 0.0)
            && Captured(r') == Captured(r) + (if st.Released? then m.amount else 0.0)
  {
    var ms := r.contract.milestones;
    var r' := Marked(r, ms[i].id, st);
    SumInMarked(r, r', ms, i, MilestoneState.Released);
    SumInMarked(r, r', ms, i, MilestoneState.Refunded);
  }

  /** Holds taken for milestones are as they were, and no milestone was settled. */
  ghost predicate FundsUntouched(s: System, s': System, id: EscrowId)
    requires id in s.escrows && id in s'.escrows
  {
    var r, r' := s.escrows[id], s'.escrows[id];
    && r'.contract == r.contract && r'.holdIds == r.holdIds && r.milestones.Keys <= r'.milestones.Keys
    && s'.receipts == s.receipts
    && |s.wallet.holds| <= |s'.wallet.holds|
    && (forall h :: 0 <= h < |s.wallet.holds| && s.wallet.holds[h].ref.FundRef? ==> s'.wallet.holds[h] == s.wallet.holds[h])
    && (forall mid :: mid in r.milestones ==>
          || StateOf(r', mid) == StateOf(r, mid)
          || (!StateOf(r, mid).Settled() && (StateOf(r', mid).Unsettled() || StateOf(r', mid).Disputed?)))
  }

  lemma FundsKept(s: System, s': System, id: EscrowId)
    requires id in s.escrows && id in s'.escrows && FundsOk(s, s.escrows[id]) && FundsUntouched(s, s', id)
    ensures FundsOk(s', s'.escrows[id])
  {
    var r := s.escrows[id];
    forall j | 0 <= j < |r.contract.milestones| ensures MilestoneOk(s', s'.escrows[id], r.contract.milestones[j]) {
      assert MilestoneOk(s, r, r.contract.milestones[j]);
    }
  }

  lemma StakeGone(s: System, s': System, id: EscrowId, st: W.HoldState)
    requires WeakCore(s, id) && s.escrows[id].stakeHold.Some? && st != W.Active
    requires var h := s.escrows[id].stakeHold.value;
             && h < |s.wallet.holds|
             && s'.wallet.holds == s.wallet.holds[h := s.wallet.holds[h].(state := st)]
    requires s'.escrows == s.escrows[id := s.escrows[id].(stakeHold := None)] && s'.receipts == s.receipts
    ensures Core(s', id) && Touches(s, s', id)
  {
    FundsKept(s, s', id);
    hide FundsOk, FundsUntouched, ContractOk, AllSettled;
  }

  lemma BondGone(s: System, s': System, id: EscrowId, st: W.HoldState)
    requires Core(s, id) && s.escrows[id].bondHold.Some? && st != W.Active
    requires var h := s.escrows[id].bondHold.value;
             && h < |s.wallet.holds|
             && s'.wallet.holds == s.wallet.holds[h := s.wallet.holds[h].(state := st)]
    requires s'.escrows == s.escrows[id := s.escrows[id].(bondHold := None)] && s'.receipts == s.receipts
    ensures Core(s', id) && Touches(s, s', id)
  {
    FundsKept(s, s', id);
    SettledUnchanged(s.escrows[id], s'.escrows[id]);
    hide FundsOk, FundsUntouched, ContractOk, AllSettled;
  }

  lemma SettledUnchanged(r: Record, r': Record)
    requires r.contract == r'.contract && r.milestones == r'.milestones
    ensures AllSettled(r) == AllSettled(r')
  {
  }

  /** The last settlement lets a stake go that was not slashed; an earlier one does not. */
  lemma StakeEffect(s: System, id: EscrowId)
    requires WeakCore(s, id) && W.Inv(s.wallet)
    ensures var o := MaybeReleaseStake(s, id); var r := s.escrows[id];
            && o.Done? && Core(o.state, id) && W.Inv(o.state.wallet) && Touches(s, o.state, id)
            && o.state.escrows == s.escrows[id := if AllSettled(r) then r.(stakeHold := None) else r]
            && o.state.spends == s.spends
            && (forall k :: W.Available(o.state.wallet, k) == W.Available(s.wallet, k) + StakeReturned(r, o.state.escrows[id], k))
  {
    var r := s.escrows[id];
    if r.stakeHold.Some? && AllSettled(r) {
      W.ApplyKeepsInv(s.wallet, W.OpRelease(r.stakeHold.value));
      StakeGone(s, MaybeReleaseStake(s, id).state, id, W.Released);
      hide WeakCore, Core, Touches, W.Inv;
    } else {
      assert s.escrows[id := r] == s.escrows;
    }
  }

  /** Balances and spends moved for one milestone that ended in state `st`, before any stake. */
  ghost predicate Paid(s: System, s1: System, c: Contract, m: Milestone, st: MilestoneState) {
    && (forall k :: W.Available(s1.wallet, k) == W.Available(s.wallet, k) + if k == PaidKey(c, st) then m.amount else 0.0)
    && (forall k :: TotalSpent(s1.spends, k)
                 == TotalSpent(s.spends, k) + if st.Released? && k == c.PayerKey() then m.amount else 0.0)
  }

  lemma PaysAfter(s: System, s1: System, s2: System, id: EscrowId, i: nat, st: MilestoneState)
    requires id in s.escrows && id in s2.escrows && i < |s.escrows[id].contract.milestones| && st.Settled()
    requires var r := s.escrows[id]; var m := r.contract.milestones[i];
             && DistinctIds(r.contract.milestones) && m.id in r.milestones && !StateOf(r, m.id).Settled()
             && Paid(s, s1, r.contract, m, st)
             && s2.escrows[id] == Marked(r, m.id, st)
             && s2.spends == s1.spends
             && (forall k :: W.Available(s2.wallet, k) == W.Available(s1.wallet, k)
                   + StakeReturned(WithMilestone(r, m.id, st), s2.escrows[id], k))
    ensures Pays(s, s2, id)
  {
    var r, r2 := s.escrows[id], s2.escrows[id];
    MarkedSums(r, i, st);
    hide Owed, Captured;
    forall k ensures W.Available(s2.wallet, k) == W.Available(s.wallet, k) + Owed(r2, k) - Owed(r, k) + StakeReturned(r, r2, k) {
    }
  }

  /** Everything about the common end of capture and refund except who was paid. */
  lemma SettleShape(s: System, s1: System, id: EscrowId, i: nat, st: MilestoneState)
    requires Core(s, id) && i < |s.escrows[id].contract.milestones| && st.Settled()
    requires !StateOf(s.escrows[id], s.escrows[id].contract.milestones[i].id).Settled()
    requires MarkStep(s, s1, id, i, st) && W.Inv(s1.wallet)
    ensures var r := s.escrows[id]; var m := r.contract.milestones[i]; var o := MaybeReleaseStake(s1, id);
            && MilestoneOk(s, r, m)
            && o.Done? && Core(o.state, id) && W.Inv(o.state.wallet) && Touches(s, o.state, id)
            && o.state.escrows[id] == Marked(r, m.id, st)
            && o.state.spends == s1.spends
            && (forall k :: W.Available(o.state.wallet, k) == W.Available(s1.wallet, k)
                  + StakeReturned(WithMilestone(r, m.id, st), o.state.escrows[id], k))
  {
    var r := s.escrows[id];
    assert MilestoneOk(s, r, r.contract.milestones[i]);
    MarkKeepsWeakCore(s, s1, id, i, st);
    StakeEffect(s1, id);
    hide WeakCore, FundsOk, Touches, W.Inv, W.Available, MaybeReleaseStake;
    TouchesTransitive(s, s1, MaybeReleaseStake(s1, id).state, id);
  }

  /** The common end of capture and refund. */
  lemma SettleEffect(s: System, s1: System, id: EscrowId, i: nat, st: MilestoneState)
    requires Core(s, id) && i < |s.escrows[id].contract.milestones| && st.Settled()
    requires !StateOf(s.escrows[id], s.escrows[id].contract.milestones[i].id).Settled()
    requires MarkStep(s, s1, id, i, st) && W.Inv(s1.wallet)
    requires Paid(s, s1, s.escrows[id].contract, s.escrows[id].contract.milestones[i], st)
    ensures MaybeReleaseStake(s1, id).Done? && Progress(s, MaybeReleaseStake(s1, id).state, id)
    ensures var r := s.escrows[id]; MilestoneOk(s, r, r.contract.milestones[i])
    ensures var r := s.escrows[id]; MaybeReleaseStake(s1, id).state.escrows[id] == Marked(r, r.contract.milestones[i].id, st)
  {
    assert DistinctIds(s.escrows[id].contract.milestones);
    hide *;
    SettleShape(s, s1, id, i, st);
    assert Core(s, id) && id in s.escrows;
    PaysAfter(s, s1, MaybeReleaseStake(s1, id).state, id, i, st);
    MarkedOnlySettles(s.escrows[id], s.escrows[id].contract.milestones[i].id, st);
    ProgressFrom(s, MaybeReleaseStake(s1, id).state, id);
  }

  lemma MarkedOnlySettles(r: Record, mid: MilestoneId, st: MilestoneState)
    requires mid in r.milestones && st.Settled() && !StateOf(r, mid).Settled()
    ensures OnlySettles(r, Marked(r, mid, st))
  {
  }

  lemma ProgressFrom(s: System, s': System, id: EscrowId)
    requires id in s.escrows && Core(s', id) && W.Inv(s'.wallet) && Touches(s, s', id)
    requires OnlySettles(s.escrows[id], s'.escrows[id]) && Pays(s, s', id)
    ensures Progress(s, s', id)
  {
    hide Core, W.Inv, Touches, OnlySettles, Pays;
  }

  lemma CaptureEffect(s: System, id: EscrowId, i: nat, now: int)
    requires Core(s, id) && W.Inv(s.wallet) && i < |s.escrows[id].contract.milestones|
    requires !StateOf(s.escrows[id], s.escrows[id].contract.milestones[i].id).Settled()
    ensures var r := s.escrows[id]; var m := r.contract.milestones[i]; var o := CaptureMilestone(s, id, m, now);
            && MilestoneOk(s, r, m) && o.Done? && Progress(s, o.state, id)
            && o.state.escrows[id] == Marked(r, m.id, MilestoneState.Released)
  {
    var r := s.escrows[id];
    var m := r.contract.milestones[i];
    assert MilestoneOk(s, r, m);
    var h := r.holdIds[m.id];
    W.ApplyKeepsInv(s.wallet, W.OpCapture(h, r.contract.payee));
    var w := W.CaptureSection(s.wallet, h, r.contract.payee);
    var spends := RecordSpend(s.spends, r.contract.PayerKey(), m.amount, now / DAY_MS).state;
    var s1 := IssueReceipt(Put(s, id, WithMilestone(r, m.id, MilestoneState.Released)).(wallet := w, spends := spends), r.contract, m, WorkDelivered);
    assert CaptureMilestone(s, id, m, now) == MaybeReleaseStake(s1, id);
    SettleEffect(s, s1, id, i, MilestoneState.Released);
  }

  lemma RefundEffect(s: System, id: EscrowId, i: nat, outcome: RefundOutcome)
    requires Core(s, id) && W.Inv(s.wallet) && i < |s.escrows[id].contract.milestones|
    requires !StateOf(s.escrows[id], s.escrows[id].contract.milestones[i].id).Settled()
    ensures var r := s.escrows[id]; var m := r.contract.milestones[i]; var o := RefundMilestone(s, id, m, outcome);
            && MilestoneOk(s, r, m) && o.Done? && Progress(s, o.state, id)
            && o.state.escrows[id] == Marked(r, m.id, MilestoneState.Refunded)
  {
    var r := s.escrows[id];
    var m := r.contract.milestones[i];
    assert MilestoneOk(s, r, m);
    var h := r.holdIds[m.id];
    W.ApplyKeepsInv(s.wallet, W.OpRelease(h));
    var w := W.ReleaseSection(s.wallet, h);
    var s1 := IssueReceipt(Put(s, id, WithMilestone(r, m.id, MilestoneState.Refunded)).(wallet := w), r.contract, m, outcome);
    assert RefundMilestone(s, id, m, outcome) == MaybeReleaseStake(s1, id);
    SettleEffect(s, s1, id, i, MilestoneState.Refunded);
  }

  /** A milestone is settled once: settling it again the same way does nothing, and the other way throws. */
  lemma SettledAgain(s: System, id: EscrowId, i: nat, outcome: RefundOutcome, now: int)
    requires Core(s, id) && i < |s.escrows[id].contract.milestones|
    requires StateOf(s.escrows[id], s.escrows[id].contract.milestones[i].id).Settled()
    ensures var m := s.escrows[id].contract.milestones[i];
            if StateOf(s.escrows[id], m.id).Released?
            then CaptureMilestone(s, id, m, now) == Done(s) && RefundMilestone(s, id, m, outcome) == Thrown(s, Conflict)
            else RefundMilestone(s, id, m, outcome) == Done(s) && CaptureMilestone(s, id, m, now) == Thrown(s, Conflict)
  {
    var r := s.escrows[id];
    assert MilestoneOk(s, r, r.contract.milestones[i]);
    hide MaybeReleaseStake, RecordCapture, IssueReceipt, W.CaptureSection, W.ReleaseSection;
  }

  // ---- slashing ---------------------------------------------------------------------------

  lemma RoundError(x: real, scale: int)
    requires scale > 0
    ensures -0.5 <= (Round(x, scale) - x) * scale as real <= 0.5
  {
    var n := scale as real;
    assert Round(x, scale) * n == Parts(x, scale) as real;
    assert (Round(x, scale) - x) * n == Round(x, scale) * n - x * n;
  }

  lemma ShareBounds(part: real, whole: real)
    requires 0.0 <= part <= whole && whole > 0.0
    ensures 0.0 <= part / whole <= 1.0
    ensures part == whole ==> part / whole == 1.0
  {
    var q := part / whole;
    assert q * whole == part;
    MulSign(q, whole);
    MulSign(1.0 - q, whole);
    assert (1.0 - q) * whole == whole - part;
  }

  lemma MulSign(x: real, y: real)
    requires y > 0.0
    ensures x * y >= 0.0 <==> x >= 0.0
  {
    if x >= 0.0 {
      assert x * y >= 0.0;
    } else {
      assert -x * y > 0.0;
    }
  }

  /** What is not burned is the milestone's share of the total to within one millionth, and all of it
    when the milestone is the whole contract. */
  lemma SlashFraction(amount: real, total: real)
    requires 0.0 < amount <= total
    ensures var burn := SlashBurnFraction(amount, total);
            && 0.0 <= burn <= 1.0
            && -0.000001 <= (1.0 - burn) - amount / total <= 0.000001
            && (amount == total ==> burn == 0.0)
  {
    ShareBounds(amount, total);
    var share := amount / total;
    RoundedShare(share);
  }

  /** Dividing to 20 places and then rounding to 6 stays within a millionth, and is exact at one. */
  lemma RoundedShare(share: real)
    requires 0.0 <= share <= 1.0
    ensures var r := Round(Round(share, DIVISION_SCALE), SHARE_SCALE);
            -0.000001 <= r - share <= 0.000001 && 0.0 <= r <= 1.0 && (share == 1.0 ==> r == 1.0)
  {
    RoundError(share, DIVISION_SCALE);
    RoundBetween(share, DIVISION_SCALE);
    var r20 := Round(share, DIVISION_SCALE);
    RoundError(r20, SHARE_SCALE);
    RoundBetween(r20, SHARE_SCALE);
    hide Round;
  }

  lemma RoundBetween(x: real, scale: int)
    requires scale > 0 && 0.0 <= x <= 1.0
    ensures 0.0 <= Round(x, scale) <= 1.0
    ensures x == 1.0 ==> Round(x, scale) == 1.0
  {
    PartsBetween(x, scale);
    hide Parts;
    ShareBounds(Parts(x, scale) as real, scale as real);
  }

  lemma PartsBetween(x: real, scale: int)
    requires scale > 0 && 0.0 <= x <= 1.0
    ensures 0 <= Parts(x, scale) <= scale
    ensures x == 1.0 ==> Parts(x, scale) == scale
  {
    var y := x * scale as real;
    ScaledUnit(x, scale as real, y);
    FloorBetween(y, scale);
    assert Parts(x, scale) == (y + 0.5).Floor;
  }

  lemma ScaledUnit(x: real, n: real, y: real)
    requires n > 0.0 && 0.0 <= x <= 1.0 && y == x * n
    ensures 0.0 <= y <= n
    ensures x == 1.0 ==> y == n
  {
    MulSign(x, n);
    MulSign(1.0 - x, n);
    assert (1.0 - x) * n == n - y;
  }

  lemma FloorBetween(y: real, scale: int)
    requires 0.0 <= y <= scale as real
    ensures 0 <= (y + 0.5).Floor <= scale
    ensures y == scale as real ==> (y + 0.5).Floor == scale
  {
  }

  lemma {:induction false} AmountAtMostSum(ms: seq<Milestone>, i: nat)
    requires i < |ms| && forall j :: 0 <= j < |ms| ==> ms[j].amount > 0.0
    ensures ms[i].amount <= AmountSum(ms)
    decreases |ms|
  {
    var rest := ms[1..];
    assert forall j :: 0 <= j < |rest| ==> rest[j] == ms[j + 1];
    if i == 0 {
      AmountSumNonnegative(rest);
    } else {
      AmountAtMostSum(rest, i - 1);
    }
  }

  lemma {:induction false} AmountSumNonnegative(ms: seq<Milestone>)
    requires forall j :: 0 <= j < |ms| ==> ms[j].amount > 0.0
    ensures AmountSum(ms) >= 0.0
    decreases |ms|
  {
    if ms != [] {
      assert forall j :: 0 <= j < |ms[1..]| ==> ms[1..][j] == ms[j + 1];
      AmountSumNonnegative(ms[1..]);
    }
  }

  lemma MilestoneAmounts(s: System, id: EscrowId, i: nat)
    requires Core(s, id) && W.Inv(s.wallet) && i < |s.escrows[id].contract.milestones|
    ensures 0.0 < s.escrows[id].contract.milestones[i].amount <= s.escrows[id].contract.total
  {
    var r := s.escrows[id];
    var ms := r.contract.milestones;
    forall j | 0 <= j < |ms| ensures ms[j].amount > 0.0 {
      assert MilestoneOk(s, r, ms[j]);
    }
    AmountAtMostSum(ms, i);
  }

  /** The payer's part of a slashed stake. */
  function SlashedShare(c: Contract, m: Milestone): real {
    c.stake.amount - c.stake.amount * SlashBurnFraction(m.amount, c.total)
  }

  /** The milestone's proportion of the contract. */
  function Proportion(c: Contract, m: Milestone): real
    requires c.total > 0.0
  {
    m.amount / c.total
  }

  /** The payer's part is the milestone's proportion of the stake to within a millionth of the stake. */
  lemma SlashedShareProportional(c: Contract, m: Milestone)
    requires c.stake.amount > 0.0 && 0.0 < m.amount <= c.total
    ensures -0.000001 * c.stake.amount <= SlashedShare(c, m) - c.stake.amount * Proportion(c, m) <= 0.000001 * c.stake.amount
    ensures 0.0 <= SlashedShare(c, m) <= c.stake.amount
    ensures m.amount == c.total ==> SlashedShare(c, m) == c.stake.amount
  {
    hide SlashBurnFraction, Proportion;
    ProportionClose(c, m);
    ScaledShare(c.stake.amount, SlashBurnFraction(m.amount, c.total), Proportion(c, m), SlashedShare(c, m), c.stake.amount * Proportion(c, m));
  }

  lemma ProportionClose(c: Contract, m: Milestone)
    requires 0.0 < m.amount <= c.total
    ensures -0.000001 <= (1.0 - SlashBurnFraction(m.amount, c.total)) - Proportion(c, m) <= 0.000001
    ensures 0.0 <= SlashBurnFraction(m.amount, c.total) <= 1.0
    ensures m.amount == c.total ==> SlashBurnFraction(m.amount, c.total) == 0.0
  {
    SlashFraction(m.amount, c.total);
    hide SlashBurnFraction;
  }

  lemma ScaledShare(stake: real, burn: real, p: real, share: real, due: real)
    requires stake > 0.0 && 0.0 <= burn <= 1.0 && -0.000001 <= (1.0 - burn) - p <= 0.000001
    requires share == stake - stake * burn && due == stake * p
    ensures -0.000001 * stake <= share - due <= 0.000001 * stake
    ensures 0.0 <= share <= stake
  {
    var gap := (1.0 - burn) - p;
    assert stake * gap == stake - stake * burn - stake * p;
    ScaledBelow(stake, gap, share - due);
    ScaledBelow(stake, -gap, due - share);
    ScaledUnit(1.0 - burn, stake, share);
  }

  lemma ScaledBelow(stake: real, gap: real, product: real)
    requires stake > 0.0 && gap <= 0.000001 && product == stake * gap
    ensures product <= 0.000001 * stake
  {
    MulSign(0.000001 - gap, stake);
    assert (0.000001 - gap) * stake == 0.000001 * stake - product;
  }

  lemma SlashEffect(s: System, id: EscrowId, i: nat)
    requires Core(s, id) && W.Inv(s.wallet) && i < |s.escrows[id].contract.milestones|
    ensures var r := s.escrows[id]; var m := r.contract.milestones[i]; var o := SlashProviderStake(s, id, m);
            && o.Done? && Core(o.state, id) && W.Inv(o.state.wallet) && Touches(s, o.state, id)
            && o.state.escrows[id] == r.(stakeHold := None) && o.state.spends == s.spends
            && (r.stakeHold.Some? ==>
                  && r.stakeHold.value < |o.state.wallet.holds|
                  && o.state.wallet.holds[r.stakeHold.value].state == W.Forfeited)
            && (forall k :: W.Available(o.state.wallet, k) == W.Available(s.wallet, k)
                  + if r.stakeHold.Some? && k == r.contract.SlashedStakeKey() then SlashedShare(r.contract, m) else 0.0)
  {
    var r := s.escrows[id];
    var m := r.contract.milestones[i];
    if r.stakeHold.Some? {
      MilestoneAmounts(s, id, i);
      SlashFraction(m.amount, r.contract.total);
      hide SlashBurnFraction, SlashedShare, W.Kept, W.Inv, FundsOk, NoOrphans, BondOk, ContractOk, W.Forfeit, AllSettled, Touches;
      var split := W.ToRecipient(r.contract.payer, SlashBurnFraction(m.amount, r.contract.total));
      var h := r.stakeHold.value;
      assert StakeOk(s, r);
      SlashKept(r.contract, m, s.wallet.holds[h]);
      ForfeitEffect(s.wallet, h, split);
      StakeGone(s, SlashProviderStake(s, id, m).state, id, W.Forfeited);
    }
  }

  /** The rest of a slashed stake is burned: the value in the stake's currency falls by exactly what the
    payer does not get. */
  lemma SlashBurns(s: System, id: EscrowId, i: nat)
    requires Core(s, id) && W.Inv(s.wallet) && i < |s.escrows[id].contract.milestones| && s.escrows[id].stakeHold.Some?
    ensures var r := s.escrows[id]; var m := r.contract.milestones[i]; var c := r.contract.stake.currency;
            W.Total(SlashProviderStake(s, id, m).state.wallet, c) == W.Total(s.wallet, c) - (r.contract.stake.amount - SlashedShare(r.contract, m))
  {
    var r := s.escrows[id];
    var m := r.contract.milestones[i];
    MilestoneAmounts(s, id, i);
    SlashFraction(m.amount, r.contract.total);
    hide SlashBurnFraction, SlashedShare, W.Kept, W.Inv, FundsOk, NoOrphans, BondOk, ContractOk, AllSettled, Touches, W.Total;
    assert StakeOk(s, r);
    var split := W.ToRecipient(r.contract.payer, SlashBurnFraction(m.amount, r.contract.total));
    SlashKept(r.contract, m, s.wallet.holds[r.stakeHold.value]);
    ForfeitEffect(s.wallet, r.stakeHold.value, split);
    W.ApplyConserves(s.wallet, W.OpForfeit(r.stakeHold.value, split), r.contract.stake.currency);
    hide W.Forfeit;
  }

  /** Forfeiting the stake with the slash fraction keeps the payer's part of it. */
  lemma SlashKept(c: Contract, m: Milestone, h: W.Hold)
    requires h.amount == c.stake.amount
    ensures W.Kept(h, W.ToRecipient(c.payer, SlashBurnFraction(m.amount, c.total))) == SlashedShare(c, m)
  {
    hide SlashBurnFraction;
  }

  /** Forfeiting an active hold pays out exactly what is not burned. */
  lemma ForfeitEffect(w: W.State, h: nat, split: W.Split)
    requires W.Inv(w) && h < |w.holds| && w.holds[h].state == W.Active
    requires split.ToRecipient? && 0.0 <= split.burnFraction <= 1.0
    ensures var o := W.Forfeit(w, h, split);
            && o.Done? && W.Inv(o.state)
            && o.state.holds == w.holds[h := w.holds[h].(state := W.Forfeited)]
            && (forall k :: W.Available(o.state, k) == W.Available(w, k)
                  + if k == W.Key(split.recipient, w.holds[h].currency) then W.Kept(w.holds[h], split) else 0.0)
  {
    W.ApplyKeepsInv(w, W.OpForfeit(h, split));
    assert w.holds[h].amount > 0.0;
    W.KeptBounded(w.holds[h], split);
    hide W.Inv, W.Kept;
  }

  // ---- the dispute bond -------------------------------------------------------------------

  /** Where the bond of `r` goes: back to its owner, or to `winner`. */
  function BondKey(s: System, r: Record, returned: bool, winner: Did): W.Key
    requires r.bondHold.Some? && r.bondHold.value < |s.wallet.holds|
  {
    var h := s.wallet.holds[r.bondHold.value];
    if returned then h.Account() else W.Key(winner, h.currency)
  }

  lemma CloseBondEffect(s: System, id: EscrowId, returned: bool, winner: Did)
    requires Core(s, id) && W.Inv(s.wallet)
    ensures var r := s.escrows[id]; var o := CloseBond(s, id, returned, winner);
            && o.Done? && Core(o.state, id) && W.Inv(o.state.wallet) && Touches(s, o.state, id)
            && o.state.escrows[id] == r.(bondHold := None) && o.state.spends == s.spends
            && (r.bondHold.Some? ==> r.bondHold.value < |s.wallet.holds|)
            && (forall k :: W.Available(o.state.wallet, k) == W.Available(s.wallet, k)
                  + if r.bondHold.Some? && k == BondKey(s, r, returned, winner) then s.wallet.holds[r.bondHold.value].amount else 0.0)
  {
    var r := s.escrows[id];
    if r.bondHold.Some? {
      var b := r.bondHold.value;
      assert BondOk(s, r);
      if returned {
        W.ApplyKeepsInv(s.wallet, W.OpRelease(b));
      } else {
        ForfeitEffect(s.wallet, b, W.ToRecipient(winner, 0.0));
        assert W.Kept(s.wallet.holds[b], W.ToRecipient(winner, 0.0)) == s.wallet.holds[b].amount;
      }
      hide W.Kept, W.ForfeitSection, W.Inv, FundsOk, NoOrphans, StakeOk, ContractOk;
      BondGone(s, CloseBond(s, id, returned, winner).state, id, if returned then W.Released else W.Forfeited);
    }
  }

  /** Taking a bond and marking the milestone disputed; if the bond cannot be taken nothing changes
    but a zeroed row in the wallet. */
  lemma BeginDisputeEffect(s: System, id: EscrowId, disputer: Did, i: nat, bond: Option<Money>)
    requires Core(s, id) && W.Inv(s.wallet) && i < |s.escrows[id].contract.milestones|
    requires var r := s.escrows[id]; r.bondHold.None? && !StateOf(r, r.contract.milestones[i].id).Settled()
    ensures s.escrows[id].contract.milestones[i].id in s.escrows[id].milestones
    ensures var r := s.escrows[id]; var mid := r.contract.milestones[i].id;
            var o := BeginDispute(s, id, disputer, mid, bond);
            && W.Inv(o.state.wallet) && Touches(s, o.state, id) && o.state.spends == s.spends
            && (o.Thrown? ==> o.state == s.(wallet := o.state.wallet) && o.state.wallet.holds == s.wallet.holds)
            && (o.Done? ==>
                  && Core(o.state, id)
                  && (bond.Some? ==> |o.state.wallet.holds| == |s.wallet.holds| + 1 && o.state.wallet.holds[|s.wallet.holds|].amount == bond.value.amount)
                  && o.state.escrows[id] == WithMilestone(r, mid, MilestoneState.Disputed).(
                       bondHold := if bond.Some? then Some(|s.wallet.holds|) else None,
                       state := EscrowState.Disputed, disputer := Some(disputer)))
            && (forall k :: W.Available(o.state.wallet, k) == W.Available(s.wallet, k)
                  - if o.Done? && bond.Some? && k == W.Key(disputer, bond.value.currency) then bond.value.amount else 0.0)
  {
    var r := s.escrows[id];
    var mid := r.contract.milestones[i].id;
    assert MilestoneOk(s, r, r.contract.milestones[i]);
    if bond.Some? {
      var k := W.Key(disputer, bond.value.currency);
      TakeHoldEffect(s.wallet, k, bond.value.amount, W.BondRef(id, mid));
      hide W.TakeHold, W.Inv, FundsOk, StakeOk, NoOrphans, ContractOk;
      var o := BeginDispute(s, id, disputer, mid, bond);
      if o.Done? { DisputedKeepsCore(s, o.state, id, i); }
    } else {
      hide W.Inv, FundsOk, StakeOk, NoOrphans, ContractOk;
      DisputedKeepsCore(s, BeginDispute(s, id, disputer, mid, bond).state, id, i);
    }
  }

  lemma TakeHoldEffect(w: W.State, k: W.Key, amount: real, ref: W.Ref)
    requires W.Inv(w)
    ensures var o := W.TakeHold(w, k, amount, ref);
            && W.Inv(o.state)
            && o.state.holds == (if o.Done? then w.holds + [W.Hold(k.did, k.currency, amount, ref, W.Active)] else w.holds)
            && (forall j :: W.Available(o.state, j) == W.Available(w, j) - if o.Done? && j == k then amount else 0.0)
  {
    W.ApplyKeepsInv(w, W.OpHold(k, amount, ref));
    hide W.Inv;
  }

  lemma DisputedKeepsCore(s: System, s': System, id: EscrowId, i: nat)
    requires Core(s, id) && i < |s.escrows[id].contract.milestones|
    requires var r := s.escrows[id]; var m := r.contract.milestones[i];
             && m.id in r.milestones && r.bondHold.None? && !StateOf(r, m.id).Settled()
    requires id in s'.escrows && s'.receipts == s.receipts
    requires s'.escrows == s.escrows[id := s'.escrows[id]]
    requires var r, r' := s.escrows[id], s'.escrows[id]; var m := r.contract.milestones[i];
             && r' == WithMilestone(r, m.id, MilestoneState.Disputed).(bondHold := r'.bondHold, state := r'.state, disputer := r'.disputer)
             && (r'.bondHold.None? ==> s'.wallet.holds == s.wallet.holds)
             && (r'.bondHold.Some? ==>
                   && r'.bondHold.value == |s.wallet.holds| && |s'.wallet.holds| == |s.wallet.holds| + 1
                   && s'.wallet.holds[..|s.wallet.holds|] == s.wallet.holds
                   && var h := s'.wallet.holds[|s.wallet.holds|];
                      h.state == W.Active && h.ref == W.BondRef(id, m.id) && r'.disputer == Some(h.owner))
    ensures Core(s', id) && Touches(s, s', id)
  {
    var r' := s'.escrows[id];
    FundsKept(s, s', id);
    assert StateOf(r', r'.contract.milestones[i].id).Disputed?;
    assert !AllSettled(r');
    hide FundsOk, FundsUntouched, ContractOk, AllSettled, StateOf;
    assert forall h :: 0 <= h < |s.wallet.holds| ==> s'.wallet.holds[h] == s.wallet.holds[h];
    assert NoOrphans(s', r');
  }

  // ---- sweeps -----------------------------------------------------------------------------

  function TargetOf(how: Settling): MilestoneState {
    if how == Pay then MilestoneState.Released else MilestoneState.Refunded
  }

  /** Only unsettled milestones changed, and those that did ended in `st`. */
  ghost predicate Becomes(r: Record, r': Record, st: MilestoneState) {
    forall mid :: StateOf(r', mid) == StateOf(r, mid) || (StateOf(r, mid).Unsettled() && StateOf(r', mid) == st)
  }

  lemma MilestoneKnown(s: System, r: Record, m: Milestone)
    requires MilestoneOk(s, r, m)
    ensures m.id in r.milestones && m.id in r.holdIds && r.holdIds[m.id] < |s.wallet.holds|
  {
  }

  lemma MarkedStates(r: Record, mid: MilestoneId, st: MilestoneState)
    requires mid in r.milestones && StateOf(r, mid).Unsettled()
    ensures Becomes(r, Marked(r, mid, st), st) && StateOf(Marked(r, mid, st), mid) == st
    ensures forall other :: other != mid ==> StateOf(Marked(r, mid, st), other) == StateOf(r, other)
  {
  }

  lemma BecomesReflexive(r: Record, st: MilestoneState)
    ensures Becomes(r, r, st)
  {
  }

  lemma BecomesTransitive(r0: Record, r1: Record, r2: Record, st: MilestoneState)
    requires Becomes(r0, r1, st) && Becomes(r1, r2, st)
    ensures Becomes(r0, r2, st)
  {
  }

  lemma CoreGives(s: System, id: EscrowId)
    requires Core(s, id)
    ensures id in s.escrows
  {
  }

  lemma ProgressGives(s: System, s': System, id: EscrowId)
    requires Progress(s, s', id)
    ensures id in s.escrows && id in s'.escrows && Core(s', id) && W.Inv(s'.wallet)
    ensures s'.escrows[id] == s.escrows[id].(milestones := s'.escrows[id].milestones, stakeHold := s'.escrows[id].stakeHold)
  {
  }

  lemma SettleOneEffect(s: System, id: EscrowId, m: Milestone, how: Settling, now: int)
    requires Core(s, id) && W.Inv(s.wallet) && m in s.escrows[id].contract.milestones
    requires StateOf(s.escrows[id], m.id).Unsettled()
    ensures var o := SettleOne(s, id, m, how, now);
            && o.Done? && Progress(s, o.state, id)
            && Becomes(s.escrows[id], o.state.escrows[id], TargetOf(how))
            && StateOf(o.state.escrows[id], m.id) == TargetOf(how)
            && (forall mid :: mid != m.id ==> StateOf(o.state.escrows[id], mid) == StateOf(s.escrows[id], mid))
  {
    var r := s.escrows[id];
    hide Core, Progress, W.Inv, CaptureMilestone, RefundMilestone, MilestoneOk, Marked, StateOf, Becomes;
    var i :| 0 <= i < |r.contract.milestones| && r.contract.milestones[i] == m;
    if how == Pay {
      CaptureEffect(s, id, i, now);
    } else {
      RefundEffect(s, id, i, WorkRefunded);
    }
    MilestoneKnown(s, r, m);
    MarkedStates(r, m.id, TargetOf(how));
  }

  lemma {:induction false} SettleAllEffect(s: System, id: EscrowId, ms: seq<Milestone>, how: Settling, now: int)
    requires Core(s, id) && W.Inv(s.wallet) && DistinctIds(ms)
    requires forall j :: 0 <= j < |ms| ==> ms[j] in s.escrows[id].contract.milestones && StateOf(s.escrows[id], ms[j].id).Unsettled()
    ensures var o := SettleAll(s, id, ms, how, now);
            && o.Done? && Progress(s, o.state, id)
            && Becomes(s.escrows[id], o.state.escrows[id], TargetOf(how))
            && (forall j :: 0 <= j < |ms| ==> StateOf(o.state.escrows[id], ms[j].id) == TargetOf(how))
    decreases |ms|
  {
    if ms == [] {
      NoProgress(s, id);
    } else {
      hide Core, Progress, W.Inv, SettleOne, StateOf;
      SettleOneEffect(s, id, ms[0], how, now);
      var s1 := SettleOne(s, id, ms[0], how, now).state;
      ProgressGives(s, s1, id);
      var rest := ms[1..];
      assert forall j :: 0 <= j < |rest| ==> rest[j] == ms[j + 1];
      SettleAllEffect(s1, id, rest, how, now);
      var s2 := SettleAll(s1, id, rest, how, now).state;
      ProgressTransitive(s, s1, s2, id);
      BecomesTransitive(s.escrows[id], s1.escrows[id], s2.escrows[id], TargetOf(how));
      forall j | 0 <= j < |ms| ensures StateOf(s2.escrows[id], ms[j].id) == TargetOf(how) {
        if j > 0 { assert ms[j] == rest[j - 1]; }
      }
    }
  }

  /** One round of the loop over listed milestones. */
  lemma ListedTakes(s: System, id: EscrowId, mids: seq<MilestoneId>, how: Settling, now: int) returns (s1: System)
    requires Core(s, id) && W.Inv(s.wallet) && mids != []
    requires Find(s.escrows[id].contract.milestones, mids[0]).Some? && StateOf(s.escrows[id], mids[0]).Unsettled()
    ensures id in s.escrows && Core(s1, id) && W.Inv(s1.wallet) && id in s1.escrows
    ensures Progress(s, s1, id) && Becomes(s.escrows[id], s1.escrows[id], TargetOf(how))
    ensures StateOf(s1.escrows[id], mids[0]) == TargetOf(how) && s1.escrows[id].contract == s.escrows[id].contract
    ensures SettleListed(s, id, mids, how, now) == SettleListed(s1, id, mids[1..], how, now)
  {
    CoreGives(s, id);
    hide Core, Progress, Becomes, W.Inv, SettleOne, StateOf, Find;
    var i := FindGives(s.escrows[id].contract.milestones, mids[0]);
    SettleOneEffect(s, id, s.escrows[id].contract.milestones[i], how, now);
    s1 := SettleOne(s, id, s.escrows[id].contract.milestones[i], how, now).state;
    ProgressGives(s, s1, id);
  }

  lemma {:induction false} SettleListedEffect(s: System, id: EscrowId, mids: seq<MilestoneId>, how: Settling, now: int)
    requires Core(s, id) && W.Inv(s.wallet)
    requires forall j :: 0 <= j < |mids| ==> Find(s.escrows[id].contract.milestones, mids[j]).Some?
    ensures var o := SettleListed(s, id, mids, how, now);
            && o.Done? && Progress(s, o.state, id)
            && Becomes(s.escrows[id], o.state.escrows[id], TargetOf(how))
            && (forall j :: 0 <= j < |mids| ==> !StateOf(o.state.escrows[id], mids[j]).Unsettled())
    decreases |mids|
  {
    CoreGives(s, id);
    hide Core, Progress, Becomes, W.Inv, SettleOne, StateOf, Find;
    if mids == [] {
      NoProgress(s, id);
      BecomesReflexive(s.escrows[id], TargetOf(how));
    } else {
      var rest := mids[1..];
      assert forall j :: 0 <= j < |rest| ==> rest[j] == mids[j + 1];
      if !StateOf(s.escrows[id], mids[0]).Unsettled() {
        SettleListedEffect(s, id, rest, how, now);
        StaysSettled(s.escrows[id], SettleListed(s, id, rest, how, now).state.escrows[id], TargetOf(how), mids[0]);
      } else {
        var s1 := ListedTakes(s, id, mids, how, now);
        SettleListedEffect(s1, id, rest, how, now);
        SweepJoin(s, s1, SettleListed(s1, id, rest, how, now).state, id, TargetOf(how), mids[0]);
      }
      var s2 := SettleListed(s, id, mids, how, now).state;
      forall j | 0 <= j < |mids| ensures !StateOf(s2.escrows[id], mids[j]).Unsettled() {
        if j > 0 { assert mids[j] == rest[j - 1]; }
      }
    }
  }

  lemma StaysSettled(r: Record, r': Record, st: MilestoneState, mid: MilestoneId)
    requires Becomes(r, r', st) && st.Settled() && !StateOf(r, mid).Unsettled()
    ensures !StateOf(r', mid).Unsettled()
  {
  }

  lemma SweepJoin(s: System, s1: System, s2: System, id: EscrowId, st: MilestoneState, mid: MilestoneId)
    requires Progress(s, s1, id) && Progress(s1, s2, id) && st.Settled()
    requires Becomes(s.escrows[id], s1.escrows[id], st) && Becomes(s1.escrows[id], s2.escrows[id], st)
    requires StateOf(s1.escrows[id], mid) == st
    ensures Progress(s, s2, id) && Becomes(s.escrows[id], s2.escrows[id], st)
    ensures StateOf(s2.escrows[id], mid) == st
  {
    ProgressTransitive(s, s1, s2, id);
    BecomesTransitive(s.escrows[id], s1.escrows[id], s2.escrows[id], st);
    hide Progress;
  }

  /** One round of the loop over the rest. */
  lemma RestTakes(s: System, id: EscrowId, ms: seq<Milestone>, except: Option<MilestoneId>) returns (s1: System)
    requires Core(s, id) && W.Inv(s.wallet) && ms != [] && ms[0] in s.escrows[id].contract.milestones
    requires except != Some(ms[0].id) && StateOf(s.escrows[id], ms[0].id).Unsettled()
    ensures id in s.escrows && Core(s1, id) && W.Inv(s1.wallet) && id in s1.escrows
    ensures Progress(s, s1, id) && Becomes(s.escrows[id], s1.escrows[id], MilestoneState.Refunded)
    ensures StateOf(s1.escrows[id], ms[0].id).Refunded? && s1.escrows[id].contract == s.escrows[id].contract
    ensures RefundRest(s, id, ms, except) == RefundRest(s1, id, ms[1..], except)
  {
    CoreGives(s, id);
    hide Core, Progress, Becomes, W.Inv, RefundMilestone, CaptureMilestone, StateOf;
    SettleOneEffect(s, id, ms[0], Refund, 0);
    s1 := RefundMilestone(s, id, ms[0], WorkRefunded).state;
    ProgressGives(s, s1, id);
  }

  lemma {:induction false} RefundRestEffect(s: System, id: EscrowId, ms: seq<Milestone>, except: Option<MilestoneId>)
    requires Core(s, id) && W.Inv(s.wallet)
    requires forall j :: 0 <= j < |ms| ==> ms[j] in s.escrows[id].contract.milestones
    ensures var o := RefundRest(s, id, ms, except);
            && o.Done? && Progress(s, o.state, id)
            && Becomes(s.escrows[id], o.state.escrows[id], MilestoneState.Refunded)
            && (forall j :: 0 <= j < |ms| && except != Some(ms[j].id) ==> !StateOf(o.state.escrows[id], ms[j].id).Unsettled())
    decreases |ms|
  {
    CoreGives(s, id);
    hide Core, Progress, Becomes, W.Inv, RefundMilestone, CaptureMilestone, StateOf, DistinctIds;
    if ms == [] {
      NoProgress(s, id);
      BecomesReflexive(s.escrows[id], MilestoneState.Refunded);
    } else {
      var rest := ms[1..];
      assert forall j :: 0 <= j < |rest| ==> rest[j] == ms[j + 1];
      if except == Some(ms[0].id) || !StateOf(s.escrows[id], ms[0].id).Unsettled() {
        RefundRestEffect(s, id, rest, except);
        if except != Some(ms[0].id) {
          StaysSettled(s.escrows[id], RefundRest(s, id, rest, except).state.escrows[id], MilestoneState.Refunded, ms[0].id);
        }
      } else {
        var s1 := RestTakes(s, id, ms, except);
        RefundRestEffect(s1, id, rest, except);
        SweepJoin(s, s1, RefundRest(s1, id, rest, except).state, id, MilestoneState.Refunded, ms[0].id);
      }
      var s2 := RefundRest(s, id, ms, except).state;
      forall j | 0 <= j < |ms| && except != Some(ms[j].id) ensures !StateOf(s2.escrows[id], ms[j].id).Unsettled() {
        if j > 0 { assert ms[j] == rest[j - 1]; }
      }
    }
  }

  /** The unsettled milestones, in contract order. */
  lemma {:induction false} UnsettledFacts(r: Record, ms: seq<Milestone>)
    requires DistinctIds(ms)
    ensures var us := UnsettledOf(r, ms);
            && DistinctIds(us)
            && (forall j :: 0 <= j < |us| ==> us[j] in ms && StateOf(r, us[j].id).Unsettled())
            && (forall j :: 0 <= j < |ms| && StateOf(r, ms[j].id).Unsettled() ==> ms[j] in us)
    decreases |ms|
  {
    if ms != [] {
      var rest := ms[1..];
      assert forall j :: 0 <= j < |rest| ==> rest[j] == ms[j + 1];
      UnsettledFacts(r, rest);
      forall j | 0 <= j < |ms| && StateOf(r, ms[j].id).Unsettled() ensures ms[j] in UnsettledOf(r, ms) {
        if j > 0 { assert ms[j] == rest[j - 1]; }
      }
    }
  }
}
