/** The invariant over whole runs of the escrow service and the wallet beneath it, and exactly which
  calls keep it. */
module EscrowRuns {
  import opened Amounts
  import opened Outcomes
  import opened Escrow
  import opened EscrowInvariant
  import opened EscrowMoves
  import opened EscrowCalls
  import opened EscrowSettlement
  import opened Spends
  import W = Wallet

  datatype Call =
    | OpenCall(contract: Contract, now: int)
    | DeliverCall(id: EscrowId, provider: Did, mid: MilestoneId, hash: string, now: int)
    | AcceptCall(id: EscrowId, payer: Did, mid: MilestoneId, now: int)
    | DisputeCall(id: EscrowId, disputer: Did, mid: MilestoneId, bond: Option<Money>, now: int)
    | TimeoutCall(id: EscrowId, now: int)
    | ResolveCall(id: EscrowId, caller: Did, ruling: Option<bool>, now: int)
    | WalletCall(op: W.Op) // any other user of the wallet

  function Apply(s: System, call: Call): Outcome<System> {
    match call
    case OpenCall(c, now) => OpenEscrow(s, c, now)
    case DeliverCall(id, provider, mid, hash, now) => Deliver(s, id, provider, mid, hash, now)
    case AcceptCall(id, payer, mid, now) => Accept(s, id, payer, mid, now)
    case DisputeCall(id, disputer, mid, bond, now) => Dispute(s, id, disputer, mid, bond, now)
    case TimeoutCall(id, now) => OnTimeout(s, id, now)
    case ResolveCall(id, caller, ruling, now) => ResolveEscalation(s, id, caller, ruling, now)
    case WalletCall(op) => OnWallet(s, W.Apply(s.wallet, op))
  }

  function Run(s: System, calls: seq<Call>): System
    decreases |calls|
  {
    if calls == [] then s else Run(Apply(s, calls[0]).state, calls[1..])
  }

  // ---- the guards -------------------------------------------------------------------------

  predicate FirstHoldTakes(w: W.State, c: Contract) {
    c.milestones != [] && 0.0 < c.milestones[0].amount <= W.Available(w, c.PayerKey())
  }

  /** The payer can fund every milestone and the provider the stake after that. */
  predicate Funded(w: W.State, c: Contract) {
    && (forall i :: 0 <= i < |c.milestones| ==> c.milestones[i].amount > 0.0)
    && c.total <= W.Available(w, c.PayerKey())
    && (NeedsStake(c) ==>
          c.stake.amount <= W.Available(w, c.ProviderStakeKey()) - if c.ProviderStakeKey() == c.PayerKey() then c.total else 0.0)
  }

  /** What a caller would have to check before a call to be sure it keeps the books in order. Opening
    takes holds one by one, so it must fail before the first or get through, with distinct milestone
    ids; a refunded milestone must not be delivered again; and other users of the wallet must leave
    escrow holds alone. */
  ghost predicate Guard(s: System, call: Call) {
    match call
    case OpenCall(c, _) =>
      || AmountSum(c.milestones) != c.total || c.total <= 0.0 || c.escrowId in s.escrows
      || !FirstHoldTakes(s.wallet, c)
      || (DistinctIds(c.milestones) && Funded(s.wallet, c))
    case DeliverCall(id, provider, mid, _, _) => !Redelivers(s, id, provider, mid)
    case WalletCall(op) =>
      (match op
       case OpHold(k, amount, ref) => ref.OtherRef? || amount <= 0.0 || W.Available(s.wallet, k) < amount
       case OpRelease(h) => !EscrowHold(s.wallet, h)
       case OpCapture(h, _) => !EscrowHold(s.wallet, h)
       case OpForfeit(h, split) => !EscrowHold(s.wallet, h) || !(0.0 <= split.Fraction() <= 1.0)
       case _ => true)
    case _ => true
  }

  predicate EscrowHold(w: W.State, h: nat) {
    h < |w.holds| && w.holds[h].state == W.Active && !w.holds[h].ref.OtherRef?
  }

  ghost predicate Guarded(s: System, calls: seq<Call>)
    decreases |calls|
  {
    calls == [] || (Guard(s, calls[0]) && Guarded(Apply(s, calls[0]).state, calls[1..]))
  }

  // ---- rulings as a call ------------------------------------------------------------------

  /** Redeeming a ruling settles the escrow for good and pays everyone as ruled. */
  lemma ResolveEffect(s: System, id: EscrowId, caller: Did, ruling: Option<bool>, now: int)
    requires RecordOk(s, id) && W.Inv(s.wallet)
    ensures var r := s.escrows[id]; var c := r.contract; var o := ResolveEscalation(s, id, caller, ruling, now);
            && Kept(s, o.state, id)
            && (o.Thrown? ==> o.state == s)
            && (o.Done? ==>
                  && r.escalation.Some? && ruling.Some? && FullySettled(o.state, id)
                  && o.state.escrows[id].state == (if r.escalation.value.TimeoutRuling? then EscrowState.TimedOut else EscrowState.Resolved)
                  && (match r.escalation.value
                      case TimeoutRuling(_) =>
                        Pays(s, o.state, id)
                        && Becomes(r, o.state.escrows[id], if ruling.value then MilestoneState.Released else MilestoneState.Refunded)
                      case DisputeRuling(mid, disputer) =>
                        && Find(c.milestones, mid).Some?
                        && var m := Find(c.milestones, mid).value; var p := ForProvider(c, disputer, ruling.value);
                           RulingPays(s, o.state, id, m, p, ruling.value, BondTaker(c, disputer, ruling.value))
                           && RulingStates(r, o.state.escrows[id], m, p)))
  {
    NothingKept(s, id);
    CoreGives(s, id);
    var r := s.escrows[id];
    hide RecordOk, Kept, W.Inv, Pays, SettleDisputeRuling, SettleTimeoutRuling, FullySettled, Becomes, RulingPays, RulingStates, ProviderWins,
         ForProvider, BondTaker;
    if r.escalation.Some? && r.state == EscrowState.Disputed && ruling.Some? && (caller == r.contract.payer || caller == r.contract.payee) {
      match r.escalation.value
      case TimeoutRuling(_) => TimeoutRulingEffect(s, id, ruling.value, now);
      case DisputeRuling(_, _) => DisputeRulingEffect(s, id, ruling.value, now);
    }
  }

  // ---- open -------------------------------------------------------------------------------

  function FundHold(c: Contract, m: Milestone): W.Hold {
    W.Hold(c.payer, c.currency, m.amount, W.FundRef(c.escrowId, m.id), W.Active)
  }

  /** Funding goes through exactly when every amount is positive and the payer can afford the sum. */
  lemma {:induction false} FundingOutcome(f: Funding, c: Contract, ms: seq<Milestone>)
    requires W.Inv(f.wallet)
    ensures var o := FundAll(f, c, ms);
            && W.Inv(o.state.wallet)
            && (o.Done? <==> (forall i :: 0 <= i < |ms| ==> ms[i].amount > 0.0) && AmountSum(ms) <= W.Available(f.wallet, c.PayerKey()))
            && (o.Done? ==> forall k :: W.Available(o.state.wallet, k)
                                     == W.Available(f.wallet, k) - if k == c.PayerKey() then AmountSum(ms) else 0.0)
    decreases |ms|
  {
    if ms != [] {
      TakeHoldEffect(f.wallet, c.PayerKey(), ms[0].amount, W.FundRef(c.escrowId, ms[0].id));
      var o := W.TakeHold(f.wallet, c.PayerKey(), ms[0].amount, W.FundRef(c.escrowId, ms[0].id));
      var rest := ms[1..];
      assert forall i :: 0 <= i < |rest| ==> rest[i] == ms[i + 1];
      if o.Done? {
        var f1 := Funding(o.state, f.holdIds[ms[0].id := |f.wallet.holds|], f.milestones[ms[0].id := Runtime(Pending, None, None)]);
        FundingOutcome(f1, c, rest);
        hide W.Inv, W.AddAvailable, W.AddHeld, W.WithHolds;
        assert (forall i :: 0 <= i < |ms| ==> ms[i].amount > 0.0) <==> ms[0].amount > 0.0 && (forall i :: 0 <= i < |rest| ==> rest[i].amount > 0.0) by {
          if ms[0].amount > 0.0 && (forall i :: 0 <= i < |rest| ==> rest[i].amount > 0.0) {
            forall i | 0 <= i < |ms| ensures ms[i].amount > 0.0 { if i > 0 { assert ms[i] == rest[i - 1]; } }
          }
        }
      } else {
        AffordNothing(ms, W.Available(f.wallet, c.PayerKey()));
      }
    }
  }

  lemma AffordNothing(ms: seq<Milestone>, available: real)
    requires ms != [] && (ms[0].amount <= 0.0 || available < ms[0].amount)
    ensures !((forall i :: 0 <= i < |ms| ==> ms[i].amount > 0.0) && AmountSum(ms) <= available)
  {
    if forall i :: 0 <= i < |ms| ==> ms[i].amount > 0.0 {
      AmountAtMostSum(ms, 0);
    }
  }

  /** The hold table only grows while funding, by holds for this escrow, and the first hold stays. */
  lemma {:induction false} FundingHolds(f: Funding, c: Contract, ms: seq<Milestone>)
    ensures var hs, o := f.wallet.holds, FundAll(f, c, ms);
            && |hs| <= |o.state.wallet.holds| && o.state.wallet.holds[..|hs|] == hs
            && (o.Done? ==> |o.state.wallet.holds| == |hs| + |ms|
                            && forall j :: 0 <= j < |ms| ==> o.state.wallet.holds[|hs| + j] == FundHold(c, ms[j]))
    decreases |ms|
  {
    if ms != [] {
      var o := W.TakeHold(f.wallet, c.PayerKey(), ms[0].amount, W.FundRef(c.escrowId, ms[0].id));
      if o.Done? {
        var hs, hs1 := f.wallet.holds, o.state.holds;
        assert hs1 == hs + [FundHold(c, ms[0])];
        var f1 := Funding(o.state, f.holdIds[ms[0].id := |f.wallet.holds|], f.milestones[ms[0].id := Runtime(Pending, None, None)]);
        FundingHolds(f1, c, ms[1..]);
        var hs2 := FundAll(f1, c, ms[1..]).state.wallet.holds;
        assert hs2[..|hs|] == hs2[..|hs1|][..|hs|];
        if FundAll(f, c, ms).Done? {
          forall j | 0 <= j < |ms| ensures hs2[|hs| + j] == FundHold(c, ms[j]) {
            if j == 0 {
              assert hs2[|hs|] == hs2[..|hs1|][|hs|];
            } else {
              assert ms[j] == ms[1..][j - 1];
              assert hs2[|hs1| + (j - 1)] == FundHold(c, ms[1..][j - 1]);
            }
          }
        }
      }
    }
  }

  lemma {:induction false} FundingMaps(f: Funding, c: Contract, ms: seq<Milestone>)
    requires DistinctIds(ms) && FundAll(f, c, ms).Done?
    ensures var g := FundAll(f, c, ms).state;
            && (forall j :: 0 <= j < |ms| ==> ms[j].id in g.holdIds && g.holdIds[ms[j].id] == |f.wallet.holds| + j
                                              && ms[j].id in g.milestones && g.milestones[ms[j].id] == Runtime(Pending, None, None))
            && (forall mid :: mid in f.holdIds && (forall j :: 0 <= j < |ms| ==> ms[j].id != mid) ==> mid in g.holdIds && g.holdIds[mid] == f.holdIds[mid])
            && (forall mid :: mid in f.milestones && (forall j :: 0 <= j < |ms| ==> ms[j].id != mid) ==> mid in g.milestones && g.milestones[mid] == f.milestones[mid])
    decreases |ms|
  {
    if ms != [] {
      var o := W.TakeHold(f.wallet, c.PayerKey(), ms[0].amount, W.FundRef(c.escrowId, ms[0].id));
      var f1 := Funding(o.state, f.holdIds[ms[0].id := |f.wallet.holds|], f.milestones[ms[0].id := Runtime(Pending, None, None)]);
      assert |o.state.holds| == |f.wallet.holds| + 1;
      hide W.TakeHold;
      var rest := ms[1..];
      assert forall j :: 0 <= j < |rest| ==> rest[j] == ms[j + 1];
      FundingMaps(f1, c, rest);
      forall j | 0 <= j < |ms|
        ensures var g := FundAll(f1, c, rest).state;
                ms[j].id in g.holdIds && g.holdIds[ms[j].id] == |f.wallet.holds| + j
                && ms[j].id in g.milestones && g.milestones[ms[j].id] == Runtime(Pending, None, None)
      {
        if j > 0 { assert ms[j] == rest[j - 1]; }
      }
    }
  }

  function Start(s: System): Funding {
    Funding(s.wallet, map[], map[])
  }

  /** The stake can be taken after the funds exactly when the provider can afford it then. */
  lemma OpenOutcome(s: System, c: Contract, now: int)
    requires W.Inv(s.wallet) && AmountSum(c.milestones) == c.total && c.total > 0.0 && c.escrowId !in s.escrows
    ensures W.Inv(OpenEscrow(s, c, now).state.wallet)
    ensures OpenEscrow(s, c, now).Done? <==> Funded(s.wallet, c)
  {
    FundingOutcome(Start(s), c, c.milestones);
    var f := FundAll(Start(s), c, c.milestones);
    hide FundAll;
    if f.Done? && NeedsStake(c) {
      TakeHoldEffect(f.state.wallet, c.ProviderStakeKey(), c.stake.amount, W.StakeRef(c.escrowId));
      hide W.Inv, W.AddAvailable, W.AddHeld, W.WithHolds;
    }
  }

  /** What a successful open leaves in the hold table. */
  lemma OpenHolds(s: System, c: Contract, now: int)
    requires OpenEscrow(s, c, now).Done?
    ensures var hs, hs' := s.wallet.holds, OpenEscrow(s, c, now).state.wallet.holds; var n := |c.milestones|;
            && |hs'| == |hs| + n + (if NeedsStake(c) then 1 else 0)
            && hs'[..|hs|] == hs
            && (forall j :: 0 <= j < n ==> hs'[|hs| + j] == FundHold(c, c.milestones[j]))
            && (NeedsStake(c) ==> hs'[|hs| + n] == W.Hold(c.payee, c.stake.currency, c.stake.amount, W.StakeRef(c.escrowId), W.Active))
  {
    FundingHolds(Start(s), c, c.milestones);
    var hs1 := FundAll(Start(s), c, c.milestones).state.wallet.holds;
    hide FundAll;
    var hs' := OpenEscrow(s, c, now).state.wallet.holds;
    assert hs'[..|hs1|] == hs1;
    assert hs'[..|s.wallet.holds|] == hs1[..|s.wallet.holds|];
    forall j | 0 <= j < |c.milestones| ensures hs'[|s.wallet.holds| + j] == FundHold(c, c.milestones[j]) {
      assert hs'[..|hs1|][|s.wallet.holds| + j] == hs1[|s.wallet.holds| + j];
    }
  }

  lemma OpenRecordShape(s: System, c: Contract, now: int)
    requires OpenEscrow(s, c, now).Done? && DistinctIds(c.milestones)
    ensures var s' := OpenEscrow(s, c, now).state;
            && s' == s.(wallet := s'.wallet, escrows := s'.escrows) && c.escrowId in s'.escrows
            && s'.escrows == s.escrows[c.escrowId := s'.escrows[c.escrowId]]
            && var r := s'.escrows[c.escrowId];
               && r == Record(c, EscrowState.Open, r.milestones, r.holdIds,
                              if NeedsStake(c) then Some(|s.wallet.holds| + |c.milestones|) else None, None, None, None, now)
               && (forall j :: 0 <= j < |c.milestones| ==>
                     var mid := c.milestones[j].id;
                     mid in r.holdIds && r.holdIds[mid] == |s.wallet.holds| + j && mid in r.milestones && StateOf(r, mid).Pending?)
  {
    FundingHolds(Start(s), c, c.milestones);
    FundingMaps(Start(s), c, c.milestones);
    hide FundAll;
  }

  lemma {:induction false} NoReceipts(rs: seq<Receipt>, id: EscrowId, mid: MilestoneId)
    requires forall i :: 0 <= i < |rs| ==> rs[i].escrowId != id
    ensures Issued(rs, id, mid) == []
    decreases |rs|
  {
    if rs != [] { NoReceipts(rs[..|rs| - 1], id, mid); }
  }

  /** Nothing in the books refers to an escrow that is not there yet. */
  lemma Unmentioned(s: System, id: EscrowId)
    requires Known(s) && id !in s.escrows
    ensures forall h :: 0 <= h < |s.wallet.holds| && s.wallet.holds[h].state == W.Active ==> !Owns(s.wallet.holds[h].ref, id)
    ensures forall mid :: Issued(s.receipts, id, mid) == []
  {
    forall mid ensures Issued(s.receipts, id, mid) == [] {
      NoReceipts(s.receipts, id, mid);
    }
  }

  lemma OpenTouches(s: System, c: Contract, now: int)
    requires c.escrowId !in s.escrows && OpenEscrow(s, c, now).Done? && DistinctIds(c.milestones)
    ensures Touches(s, OpenEscrow(s, c, now).state, c.escrowId)
  {
    OpenHolds(s, c, now);
    OpenRecordShape(s, c, now);
    var s' := OpenEscrow(s, c, now).state;
    hide OpenEscrow;
    var hs, hs' := s.wallet.holds, s'.wallet.holds;
    assert forall h :: 0 <= h < |hs| ==> hs'[h] == hs'[..|hs|][h];
    forall h | |hs| <= h < |hs'| ensures Owns(hs'[h].ref, c.escrowId) {
      if h < |hs| + |c.milestones| { assert hs'[|hs| + (h - |hs|)] == FundHold(c, c.milestones[h - |hs|]); }
    }
  }

  lemma OpenRecordOk(s: System, c: Contract, now: int)
    requires Known(s) && c.escrowId !in s.escrows && OpenEscrow(s, c, now).Done? && DistinctIds(c.milestones)
    requires AmountSum(c.milestones) == c.total && c.total > 0.0
    ensures RecordOk(OpenEscrow(s, c, now).state, c.escrowId)
  {
    OpenHolds(s, c, now);
    OpenRecordShape(s, c, now);
    Unmentioned(s, c.escrowId);
    var s' := OpenEscrow(s, c, now).state;
    hide OpenEscrow, Known;
    var r, hs, hs' := s'.escrows[c.escrowId], s.wallet.holds, s'.wallet.holds;
    forall j | 0 <= j < |c.milestones| ensures MilestoneOk(s', r, c.milestones[j]) {
    }
    assert forall h :: 0 <= h < |hs| ==> hs'[h] == hs'[..|hs|][h];
    NewHoldsNamed(s', c.escrowId, |hs|);
    assert c.milestones != [];
    assert StateOf(r, c.milestones[0].id).Pending?;
    hide MilestoneOk, NoOrphans, DistinctIds;
  }

  lemma NewHoldsNamed(s: System, id: EscrowId, n: nat)
    requires id in s.escrows && n <= |s.wallet.holds|
    requires forall h :: 0 <= h < n && s.wallet.holds[h].state == W.Active ==> !Owns(s.wallet.holds[h].ref, id)
    requires var r := s.escrows[id]; var c := r.contract; var k := |c.milestones|;
             && c.escrowId == id && DistinctIds(c.milestones)
             && |s.wallet.holds| == n + k + (if r.stakeHold.Some? then 1 else 0)
             && (forall j :: 0 <= j < k ==> s.wallet.holds[n + j] == FundHold(c, c.milestones[j])
                                            && c.milestones[j].id in r.holdIds && r.holdIds[c.milestones[j].id] == n + j)
             && (r.stakeHold.Some? ==> r.stakeHold.value == n + k && s.wallet.holds[n + k].ref == W.StakeRef(id))
    ensures NoOrphans(s, s.escrows[id])
  {
    var r := s.escrows[id];
    var c := r.contract;
    forall h | 0 <= h < |s.wallet.holds| && s.wallet.holds[h].state == W.Active && Owns(s.wallet.holds[h].ref, id)
      ensures Named(r, h, s.wallet.holds[h].ref)
    {
      if h < n + |c.milestones| {
        var j := h - n;
        assert s.wallet.holds[n + j] == FundHold(c, c.milestones[j]);
        FindByIndex(c.milestones, j);
      }
    }
  }

  lemma InvRowsOnly(s: System, s': System)
    requires Inv(s) && W.Inv(s'.wallet) && s' == s.(wallet := s'.wallet) && s'.wallet.holds == s.wallet.holds
    ensures Inv(s')
  {
    forall e | e in s'.escrows ensures RecordOk(s', e) {
      RowsOnly(s, s', e);
    }
  }

  /** Opening keeps the books in order exactly when the guard holds. Otherwise it either throws after
    locking money that no record will ever name, or accepts two milestones with one id. */
  lemma OpenKeepsIff(s: System, c: Contract, now: int)
    requires Inv(s)
    ensures Inv(OpenEscrow(s, c, now).state) <==> Guard(s, OpenCall(c, now))
  {
    if AmountSum(c.milestones) == c.total && c.total > 0.0 && c.escrowId !in s.escrows {
      var s' := OpenEscrow(s, c, now).state;
      OpenOutcome(s, c, now);
      if !FirstHoldTakes(s.wallet, c) {
        OpenFailsAtOnce(s, c, now);
        InvRowsOnly(s, s');
      } else if OpenEscrow(s, c, now).Thrown? {
        OpenLeavesOrphan(s, c, now);
      } else if DistinctIds(c.milestones) {
        OpenRecordOk(s, c, now);
        OpenTouches(s, c, now);
        hide OpenEscrow, Touches, RecordOk, W.Inv;
        InvFramed(s, s', c.escrowId);
      } else {
        assert s'.escrows[c.escrowId].contract == c;
        assert !RecordOk(s', c.escrowId);
      }
    }
  }

  lemma OpenFailsAtOnce(s: System, c: Contract, now: int)
    requires AmountSum(c.milestones) == c.total && c.total > 0.0 && c.escrowId !in s.escrows && !FirstHoldTakes(s.wallet, c)
    ensures var o := OpenEscrow(s, c, now); o.Thrown? && o.state == s.(wallet := o.state.wallet) && o.state.wallet.holds == s.wallet.holds
  {
  }

  /** An open that throws after its first hold leaves that hold active and unnamed. */
  lemma OpenLeavesOrphan(s: System, c: Contract, now: int)
    requires AmountSum(c.milestones) == c.total && c.total > 0.0 && c.escrowId !in s.escrows
    requires FirstHoldTakes(s.wallet, c) && OpenEscrow(s, c, now).Thrown?
    ensures !Known(OpenEscrow(s, c, now).state)
  {
    var ms, n := c.milestones, |s.wallet.holds|;
    var o := W.TakeHold(s.wallet, c.PayerKey(), ms[0].amount, W.FundRef(c.escrowId, ms[0].id));
    var f1 := Funding(o.state, map[ms[0].id := n], map[ms[0].id := Runtime(Pending, None, None)]);
    FundingHolds(f1, c, ms[1..]);
    var hs1 := FundAll(f1, c, ms[1..]).state.wallet.holds;
    assert FundAll(Start(s), c, ms) == FundAll(f1, c, ms[1..]);
    assert hs1[..n + 1][n] == FundHold(c, ms[0]);
    hide FundAll;
    var s' := OpenEscrow(s, c, now).state;
    assert s'.wallet.holds[n] == FundHold(c, ms[0]);
  }

  // ---- deliver ----------------------------------------------------------------------------

  lemma DeliverKeepsIff(s: System, id: EscrowId, provider: Did, mid: MilestoneId, hash: string, now: int)
    requires Inv(s)
    ensures Inv(Deliver(s, id, provider, mid, hash, now).state) <==> Guard(s, DeliverCall(id, provider, mid, hash, now))
  {
    var s' := Deliver(s, id, provider, mid, hash, now).state;
    if id !in s.escrows {
      assert s' == s;
    } else {
      assert RecordOk(s, id) && Core(s, id);
      hide Deliver, RecordOk, W.Inv;
      DeliverKeeps(s, id, provider, mid, hash, now);
      if Redelivers(s, id, provider, mid) {
        RedeliveryBreaks(s, id, provider, mid, hash, now);
        RedeliveryStays(s, id, provider, mid, hash, now);
      } else {
        InvFramed(s, s', id);
      }
    }
  }

  lemma RedeliveryStays(s: System, id: EscrowId, provider: Did, mid: MilestoneId, hash: string, now: int)
    requires Core(s, id) && Redelivers(s, id, provider, mid)
    ensures id in Deliver(s, id, provider, mid, hash, now).state.escrows
  {
    RedeliveryMarks(s, id, provider, mid, hash, now);
    hide Deliver;
  }

  // ---- other users of the wallet ----------------------------------------------------------

  /** Wallet changes that leave every escrow hold as it is leave the books in order. */
  lemma WalletFramed(s: System, s': System)
    requires Inv(s) && W.Inv(s'.wallet) && s' == s.(wallet := s'.wallet)
    requires var hs, hs' := s.wallet.holds, s'.wallet.holds;
             && |hs| <= |hs'|
             && (forall h :: 0 <= h < |hs| ==> hs'[h] == hs[h] || (hs[h].ref.OtherRef? && hs'[h].ref.OtherRef?))
             && (forall h :: |hs| <= h < |hs'| ==> hs'[h].ref.OtherRef?)
    ensures Inv(s')
  {
    forall e | e in s'.escrows ensures RecordOk(s', e) {
      assert RecordOk(s, e);
      hide *;
      WalletFramedAt(s, s', e);
    }
    hide RecordOk, W.Inv;
  }

  lemma WalletFramedAt(s: System, s': System, e: EscrowId)
    requires e in s.escrows && RecordOk(s, e) && s' == s.(wallet := s'.wallet)
    requires var hs, hs' := s.wallet.holds, s'.wallet.holds;
             && |hs| <= |hs'|
             && (forall h :: 0 <= h < |hs| ==> hs'[h] == hs[h] || (hs[h].ref.OtherRef? && hs'[h].ref.OtherRef?))
             && (forall h :: |hs| <= h < |hs'| ==> hs'[h].ref.OtherRef?)
    ensures RecordOk(s', e)
  {
    FundsKept(s, s', e);
    hide FundsOk, FundsUntouched, ContractOk, AllSettled, StateOk;
  }

  /** Another user who settles or imitates an escrow hold breaks the books, and nobody else does. */
  lemma WalletKeepsIff(s: System, op: W.Op)
    requires Inv(s)
    ensures Inv(OnWallet(s, W.Apply(s.wallet, op)).state) <==> Guard(s, WalletCall(op))
  {
    var s' := OnWallet(s, W.Apply(s.wallet, op)).state;
    W.ApplyKeepsInv(s.wallet, op);
    if Guard(s, WalletCall(op)) {
      GuardedWalletHolds(s, op);
      hide W.Apply, W.Inv, Guard;
      WalletFramed(s, s');
    } else if op.OpHold? {
      ImitationBreaks(s, s', op);
    } else {
      SettlementBreaks(s, s', op);
    }
  }

  lemma GuardedWalletHolds(s: System, op: W.Op)
    requires Guard(s, WalletCall(op))
    ensures var hs, hs' := s.wallet.holds, W.Apply(s.wallet, op).state.holds;
            && |hs| <= |hs'|
            && (forall h :: 0 <= h < |hs| ==> hs'[h] == hs[h] || (hs[h].ref.OtherRef? && hs'[h].ref.OtherRef?))
            && (forall h :: |hs| <= h < |hs'| ==> hs'[h].ref.OtherRef?)
  {
  }

  lemma ImitationBreaks(s: System, s': System, op: W.Op)
    requires Inv(s) && op.OpHold? && !Guard(s, WalletCall(op)) && s' == OnWallet(s, W.Apply(s.wallet, op)).state
    ensures !Inv(s')
  {
    var n := |s.wallet.holds|;
    var h := s'.wallet.holds[n];
    assert h == W.Hold(op.key.did, op.key.currency, op.amount, op.ref, W.Active);
    hide W.Apply, W.Inv;
    var e := op.ref.escrowId;
    if e in s.escrows {
      assert RecordOk(s, e);
      var r := s.escrows[e];
      UnnamedAbove(s, e, n, op.ref);
      assert !NoOrphans(s', r);
    }
  }

  /** A record names only holds that exist. */
  lemma UnnamedAbove(s: System, e: EscrowId, n: nat, ref: W.Ref)
    requires Core(s, e) && n >= |s.wallet.holds|
    ensures !Named(s.escrows[e], n, ref)
  {
    var r := s.escrows[e];
    if ref.FundRef? && Find(r.contract.milestones, ref.milestoneId).Some? {
      var i := FindGives(r.contract.milestones, ref.milestoneId);
      assert MilestoneOk(s, r, r.contract.milestones[i]);
    }
  }

  lemma SettlementHolds(s: System, op: W.Op)
    requires !op.OpHold? && !Guard(s, WalletCall(op))
    ensures (op.OpRelease? || op.OpCapture? || op.OpForfeit?) && EscrowHold(s.wallet, op.id)
    ensures var hs' := W.Apply(s.wallet, op).state.holds; |hs'| == |s.wallet.holds| && hs'[op.id].state != W.Active
  {
  }

  lemma SettlementBreaks(s: System, s': System, op: W.Op)
    requires Inv(s) && !op.OpHold? && !Guard(s, WalletCall(op)) && s' == OnWallet(s, W.Apply(s.wallet, op)).state
    ensures !Inv(s')
  {
    var h := op.id;
    SettlementHolds(s, op);
    assert s'.escrows == s.escrows && |s'.wallet.holds| == |s.wallet.holds| && s'.wallet.holds[h].state != W.Active;
    hide W.Apply, W.Inv, Guard;
    var ref := s.wallet.holds[h].ref;
    var e := ref.escrowId;
    assert RecordOk(s, e) && Owns(ref, e);
    var r := s.escrows[e];
    assert Named(r, h, ref);
    if ref.FundRef? {
      var i := FindGives(r.contract.milestones, ref.milestoneId);
      assert MilestoneOk(s, r, r.contract.milestones[i]);
      assert !MilestoneOk(s', r, r.contract.milestones[i]);
    }
    assert !RecordOk(s', e);
  }

  // ---- every call -------------------------------------------------------------------------

  /** From books in order, a call keeps them in order if and only if its guard holds. */
  lemma CallKeepsIff(s: System, call: Call)
    requires Inv(s)
    ensures Inv(Apply(s, call).state) <==> Guard(s, call)
  {
    match call
    case OpenCall(c, now) => OpenKeepsIff(s, c, now);
    case DeliverCall(id, provider, mid, hash, now) => DeliverKeepsIff(s, id, provider, mid, hash, now);
    case WalletCall(op) => WalletKeepsIff(s, op);
    case AcceptCall(id, _, _, _) => if id in s.escrows { PartyCallKept(s, call, id); InvFramed(s, Apply(s, call).state, id); }
    case DisputeCall(id, _, _, _, _) => if id in s.escrows { PartyCallKept(s, call, id); InvFramed(s, Apply(s, call).state, id); }
    case TimeoutCall(id, _) => if id in s.escrows { PartyCallKept(s, call, id); InvFramed(s, Apply(s, call).state, id); }
    case ResolveCall(id, _, _, _) => if id in s.escrows { PartyCallKept(s, call, id); InvFramed(s, Apply(s, call).state, id); }
  }

  /** Apply, case by case. */
  lemma CallIs(s: System, call: Call, id: EscrowId)
    requires (call.AcceptCall? || call.DisputeCall? || call.TimeoutCall? || call.ResolveCall?) && call.id == id
    ensures call.AcceptCall? ==> Apply(s, call) == Accept(s, id, call.payer, call.mid, call.now)
    ensures call.DisputeCall? ==> Apply(s, call) == Dispute(s, id, call.disputer, call.mid, call.bond, call.now)
    ensures call.TimeoutCall? ==> Apply(s, call) == OnTimeout(s, id, call.now)
    ensures call.ResolveCall? ==> Apply(s, call) == ResolveEscalation(s, id, call.caller, call.ruling, call.now)
  {
  }

  lemma PartyCallKept(s: System, call: Call, id: EscrowId)
    requires Inv(s) && id in s.escrows
    requires (call.AcceptCall? || call.DisputeCall? || call.TimeoutCall? || call.ResolveCall?) && call.id == id
    ensures Kept(s, Apply(s, call).state, id)
  {
    assert RecordOk(s, id) && W.Inv(s.wallet);
    hide *;
    CallIs(s, call, id);
    match call
    case AcceptCall(_, payer, mid, now) => AcceptKeeps(s, id, payer, mid, now);
    case DisputeCall(_, disputer, mid, bond, now) => DisputeEffect(s, id, disputer, mid, bond, now);
    case TimeoutCall(_, now) => TimeoutEffect(s, id, now);
    case ResolveCall(_, caller, ruling, now) => ResolveEffect(s, id, caller, ruling, now);
    case _ =>
  }

  /** Over every guarded run the records and the wallet agree: holds are active, captured or returned
    exactly as the milestones say, stakes and bonds name active holds, an escalation exists exactly
    while the state is disputed, and every settled milestone has exactly one receipt, which says what happened to it. */
  lemma {:induction false} RunKeepsInv(s: System, calls: seq<Call>)
    requires Inv(s) && Guarded(s, calls)
    ensures Inv(Run(s, calls))
    decreases |calls|
  {
    if calls != [] {
      CallKeepsIff(s, calls[0]);
      hide Inv, Apply, Guard;
      RunKeepsInv(Apply(s, calls[0]).state, calls[1..]);
    }
  }

  const NOTHING := System(W.EMPTY, map[], map[], [])

  lemma StartsInOrder()
    ensures Inv(NOTHING)
  {
  }
}
