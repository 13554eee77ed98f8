/** Runs from the empty service that reach what the exact conditions of the other modules exclude. */
module EscrowExamples {
  import opened Amounts
  import opened Outcomes
  import opened Escrow
  import opened EscrowInvariant
  import opened EscrowCalls
  import opened EscrowSettlement
  import opened EscrowOutcomes
  import opened EscrowRuns
  import opened EscrowFinality
  import opened EscrowLeftovers
  import W = Wallet

  const ID := "escrow"
  const PAYER := "payer"
  const PAYEE := "payee"
  const HASH := "sha256:good"
  const BAD_HASH := "sha256:bad"

  /** Two milestones of one unit each; the first carries a checksum, checked on delivery or in a dispute. */
  function TwoMilestones(kind: AcceptanceType): Contract {
    Contract(ID, PAYER, PAYEE, 2.0, "USDC",
             [Milestone("m1", 1.0, Acceptance(kind, Some(HASH))), Milestone("m2", 1.0, Acceptance(SchemaOnly, None))],
             100, RefundPayer, 100, Stake(0.0, "USDC", false))
  }

  /** Both parties get some money and open the contract. */
  function Opening(kind: AcceptanceType): seq<Call> {
    [WalletCall(W.OpCredit(W.Key(PAYER, "USDC"), 2.0)), WalletCall(W.OpCredit(W.Key(PAYEE, "USDC"), 1.0)), OpenCall(TwoMilestones(kind), 0)]
  }

  lemma {:induction false} RunThen(s: System, calls: seq<Call>, call: Call)
    ensures Run(s, calls + [call]) == Apply(Run(s, calls), call).state
    ensures Guarded(s, calls + [call]) <==> Guarded(s, calls) && Guard(Run(s, calls), call)
    decreases |calls|
  {
    if calls == [] {
      assert Run(s, [call]) == Run(Apply(s, call).state, []);
    } else {
      assert (calls + [call])[1..] == calls[1..] + [call];
      RunThen(Apply(s, calls[0]).state, calls[1..], call);
    }
  }

  lemma Funds() returns (s: System)
    ensures s == Run(NOTHING, Opening(Checksum)[..2]) && s.escrows == map[]
    ensures forall kind :: Opening(kind)[..2] == Opening(Checksum)[..2] && Guarded(NOTHING, Opening(kind)[..2])
    ensures W.Available(s.wallet, W.Key(PAYER, "USDC")) == 2.0 && W.Available(s.wallet, W.Key(PAYEE, "USDC")) == 1.0
  {
    var a, b := Opening(Checksum)[0], Opening(Checksum)[1];
    assert Opening(Checksum)[..2] == [a, b] && [a] + [b] == [a, b] && [] + [a] == [a];
    RunThen(NOTHING, [], a);
    RunThen(NOTHING, [a], b);
    s := Run(NOTHING, [a, b]);
  }

  lemma Opened(kind: AcceptanceType) returns (s: System)
    ensures s == Run(NOTHING, Opening(kind)) && Guarded(NOTHING, Opening(kind)) && Inv(s) && ID in s.escrows
    ensures var r := s.escrows[ID];
            && r.contract == TwoMilestones(kind) && r.state == EscrowState.Open && r.stakeHold.None? && r.createdAt == 0
            && "m1" in r.milestones && StateOf(r, "m1").Pending? && "m2" in r.milestones && StateOf(r, "m2").Pending?
    ensures W.Available(s.wallet, W.Key(PAYEE, "USDC")) == 1.0
  {
    var c := TwoMilestones(kind);
    var s2 := Funds();
    assert Opening(kind) == Opening(kind)[..2] + [OpenCall(c, 0)];
    RunThen(NOTHING, Opening(kind)[..2], OpenCall(c, 0));
    StartsInOrder();
    EscrowRuns.RunKeepsInv(NOTHING, Opening(kind)[..2]);
    TotalIsTwo(kind);
    assert Funded(s2.wallet, c);
    OpenOutcome(s2, c, 0);
    CallKeepsIff(s2, OpenCall(c, 0));
    s := OpenEscrow(s2, c, 0).state;
    OpenRecordShape(s2, c, 0);
    assert c.milestones[0].id == "m1" && c.milestones[1].id == "m2";
    OpenedBalance(s2, kind);
    hide Inv, OpenEscrow, Guarded, Run, Guard;
  }

  lemma TotalIsTwo(kind: AcceptanceType)
    ensures var c := TwoMilestones(kind); AmountSum(c.milestones) == c.total && DistinctIds(c.milestones) && !NeedsStake(c)
  {
    var c := TwoMilestones(kind);
    assert AmountSum(c.milestones[1..]) == 1.0 + AmountSum(c.milestones[1..][1..]);
  }

  lemma OpenedBalance(s: System, kind: AcceptanceType)
    requires W.Inv(s.wallet) && OpenEscrow(s, TwoMilestones(kind), 0).Done?
    ensures W.Available(OpenEscrow(s, TwoMilestones(kind), 0).state.wallet, W.Key(PAYEE, "USDC")) == W.Available(s.wallet, W.Key(PAYEE, "USDC"))
  {
    FundingOutcome(Start(s), TwoMilestones(kind), TwoMilestones(kind).milestones);
    hide FundAll;
  }

  /** The first milestone is there, and whatever becomes of it, the second keeps the escrow open. */
  lemma Deliverable(s: System, kind: AcceptanceType, hash: string)
    requires Inv(s) && ID in s.escrows
    requires var r := s.escrows[ID];
             && r.contract == TwoMilestones(kind) && r.state == EscrowState.Open && "m1" in r.milestones
             && StateOf(r, "m1").Pending? && StateOf(r, "m2").Pending?
    ensures var m := Milestone("m1", 1.0, Acceptance(kind, Some(HASH))); var o := Deliver(s, ID, PAYEE, "m1", hash, 1);
            && Find(s.escrows[ID].contract.milestones, "m1") == Some(m)
            && o.Done? && ID in o.state.escrows
            && var r, r' := s.escrows[ID], o.state.escrows[ID];
               && r'.contract == r.contract && r'.state == EscrowState.Open && "m1" in r'.milestones
               && r'.milestones["m1"] == Runtime(EndOnHash(m, hash), Some(hash), Some(1)) && StateOf(r', "m2").Pending?
               && StateOf(r', "m1") == EndOnHash(m, hash) && (r.stakeHold.None? ==> r'.stakeHold.None?)
  {
    var r := s.escrows[ID];
    InvParts(s);
    FirstFound(r, kind);
    hide Inv, RecordOk, W.Inv, Deliver, EndOnHash, Find;
    DeliverOutcome(s, ID, PAYEE, "m1", hash, 1);
    FirstDeliveryKeeps(s, ID, PAYEE, "m1", hash, 1);
    hide Kept, Pays, Redelivers, RequireOpenish;
    SecondKeepsOpen(r, Deliver(s, ID, PAYEE, "m1", hash, 1).state.escrows[ID], kind,
                    Runtime(EndOnHash(Milestone("m1", 1.0, Acceptance(kind, Some(HASH))), hash), Some(hash), Some(1)));
  }

  lemma InvParts(s: System)
    requires Inv(s) && ID in s.escrows
    ensures RecordOk(s, ID) && W.Inv(s.wallet)
  {
  }

  lemma SecondKeepsOpen(r: Record, r': Record, kind: AcceptanceType, rt: Runtime)
    requires r.contract == TwoMilestones(kind) && StateOf(r, "m2").Pending? && ThenCloses(r, r', "m1", rt)
    ensures r'.contract == r.contract && r'.state == r.state && StateOf(r', "m2").Pending?
  {
    assert r'.contract.milestones[1].id == "m2";
    assert !AllSettled(r');
  }

  lemma PayeeUnpaid(s: System, hash: string)
    requires ID in s.escrows && s.escrows[ID].contract == TwoMilestones(SchemaChecksum)
    ensures Deliver(s, ID, PAYEE, "m1", hash, 1).state.wallet == s.wallet
  {
    FirstFound(s.escrows[ID], SchemaChecksum);
  }

  function FirstMilestone(kind: AcceptanceType): Milestone {
    Milestone("m1", 1.0, Acceptance(kind, Some(HASH)))
  }

  /** Work handed in on the first milestone. */
  lemma HandedInOnFirst(kind: AcceptanceType, hash: string) returns (s: System)
    ensures var calls := Opening(kind) + [DeliverCall(ID, PAYEE, "m1", hash, 1)]; s == Run(NOTHING, calls) && Guarded(NOTHING, calls)
    ensures Inv(s) && ID in s.escrows
    ensures var r := s.escrows[ID];
            && r.contract == TwoMilestones(kind) && r.state == EscrowState.Open
            && "m1" in r.milestones && r.milestones["m1"] == Runtime(EndOnHash(FirstMilestone(kind), hash), Some(hash), Some(1))
            && StateOf(r, "m1") == EndOnHash(FirstMilestone(kind), hash) && StateOf(r, "m2").Pending? && r.stakeHold.None?
    ensures kind == SchemaChecksum ==> W.Available(s.wallet, W.Key(PAYEE, "USDC")) == 1.0
  {
    var s3 := Opened(kind);
    var call := DeliverCall(ID, PAYEE, "m1", hash, 1);
    RunThen(NOTHING, Opening(kind), call);
    assert Guard(s3, call);
    s := Deliver(s3, ID, PAYEE, "m1", hash, 1).state;
    assert Apply(s3, call).state == s;
    hide Inv, Guard, Guarded, Run, Deliver, StateOf, W.Available, Apply;
    CallKeepsIff(s3, call);
    Deliverable(s3, kind, hash);
    if kind == SchemaChecksum { PayeeUnpaid(s3, hash); }
  }

  lemma FirstFound(r: Record, kind: AcceptanceType)
    requires r.contract == TwoMilestones(kind)
    ensures Find(r.contract.milestones, "m1") == Some(Milestone("m1", 1.0, Acceptance(kind, Some(HASH))))
  {
  }

  lemma StrandedForever(s: System, calls: seq<Call>, id: EscrowId)
    requires Inv(s) && Guarded(s, calls) && id in s.escrows && Final(s.escrows[id]) && !NothingLocked(s, id)
    ensures !NothingLocked(Run(s, calls), id)
  {
    var h :| 0 <= h < |s.wallet.holds| && s.wallet.holds[h].state == W.Active && Owns(s.wallet.holds[h].ref, id);
    FinalForever(s, calls, id);
    assert Run(s, calls).wallet.holds[h] == s.wallet.holds[h];
  }

  lemma FirstDecided(s: System, hash: string)
    requires ID in s.escrows
    requires var r := s.escrows[ID];
             r.contract == TwoMilestones(SchemaChecksum) && "m1" in r.milestones && r.milestones["m1"] == Runtime(MilestoneState.Delivered, Some(hash), Some(1))
    ensures Decidable(s, ID, "m1") && (hash == HASH ==> Frivolous(s, ID, "m1"))
    ensures !WindowClosed(s.escrows[ID], "m1", 2) && !StateOf(s.escrows[ID], "m1").Settled()
  {
    FirstFound(s.escrows[ID], SchemaChecksum);
  }

  /** The payer disputes the first milestone, the checksum decides, and the hold of the second one stays
    locked whatever anybody calls from then on. */
  lemma DisputeCanStrand() returns (s: System)
    ensures var calls := Opening(SchemaChecksum) + [DeliverCall(ID, PAYEE, "m1", BAD_HASH, 1)] + [DisputeCall(ID, PAYER, "m1", None, 2)];
            s == Run(NOTHING, calls) && Guarded(NOTHING, calls)
    ensures Inv(s) && ID in s.escrows && Final(s.escrows[ID]) && StateOf(s.escrows[ID], "m2").Pending?
    ensures forall more | Guarded(s, more) :: !NothingLocked(Run(s, more), ID)
  {
    var s4 := HandedInOnFirst(SchemaChecksum, BAD_HASH);
    var call := DisputeCall(ID, PAYER, "m1", None, 2);
    RunThen(NOTHING, Opening(SchemaChecksum) + [DeliverCall(ID, PAYEE, "m1", BAD_HASH, 1)], call);
    s := Apply(s4, call).state;
    assert Guard(s4, call) && Apply(s4, call) == Dispute(s4, ID, PAYER, "m1", None, 2);
    FirstDecided(s4, BAD_HASH);
    FirstFound(s4.escrows[ID], SchemaChecksum);
    InvParts(s4);
    assert s4.escrows[ID].contract.milestones[1].id == "m2" && !StateOf(s4.escrows[ID], "m2").Settled();
    assert RequireOpenish(s4, ID).None? && BondAffordable(s4.wallet, PAYER, None) && s4.escrows[ID].contract.payer == PAYER;
    hide *;
    CallKeepsIff(s4, call);
    DisputeOutcome(s4, ID, PAYER, "m1", None, 2);
    DisputeStrandsIff(s4, ID, PAYER, "m1", None, 2);
    DecidedDispute(s4, ID, PAYER, "m1", None, 2);
    forall more | Guarded(s, more) ensures !NothingLocked(Run(s, more), ID) { StrandedForever(s, more, ID); }
  }

  /** The payee disputes work of its own that passes the checksum: the dispute is rejected, the payee is
    paid and has its bond back. */
  lemma PayeeKeepsBond() returns (s: System, s': System)
    ensures var calls := Opening(SchemaChecksum) + [DeliverCall(ID, PAYEE, "m1", HASH, 1)];
            s == Run(NOTHING, calls) && Guarded(NOTHING, calls)
    ensures var o := Dispute(s, ID, PAYEE, "m1", Some(Money(1.0, "USDC")), 2); o.Done? && o.state == s' && Frivolous(s, ID, "m1")
    ensures W.Available(s.wallet, W.Key(PAYEE, "USDC")) == 1.0 && W.Available(s'.wallet, W.Key(PAYEE, "USDC")) == 2.0
  {
    s := HandedInOnFirst(SchemaChecksum, HASH);
    s' := Dispute(s, ID, PAYEE, "m1", Some(Money(1.0, "USDC")), 2).state;
    FirstDecided(s, HASH);
    FirstFound(s.escrows[ID], SchemaChecksum);
    InvParts(s);
    hide Inv, RecordOk, Dispute, Guarded, Run, W.Inv, WindowClosed, Frivolous, W.Available, Find, Decidable;
    DisputeOutcome(s, ID, PAYEE, "m1", Some(Money(1.0, "USDC")), 2);
    FrivolousBondIff(s, ID, PAYEE, "m1", Money(1.0, "USDC"), 2);
  }

  /** A wrong delivery refunds the first milestone. A second delivery of it throws, and leaves the record
    saying delivered over a hold that has gone back to the payer. */
  lemma RedeliveryCanBreak() returns (s: System, s': System)
    ensures var calls := Opening(Checksum) + [DeliverCall(ID, PAYEE, "m1", BAD_HASH, 1)]; s == Run(NOTHING, calls) && Guarded(NOTHING, calls)
    ensures Inv(s) && ID in s.escrows && StateOf(s.escrows[ID], "m1").Refunded?
    ensures Deliver(s, ID, PAYEE, "m1", BAD_HASH, 2) == Thrown(s', Conflict) && !Inv(s')
    ensures ID in s'.escrows && StateOf(s'.escrows[ID], "m1").Delivered? && s'.wallet == s.wallet
  {
    s := HandedInOnFirst(Checksum, BAD_HASH);
    s' := Deliver(s, ID, PAYEE, "m1", BAD_HASH, 2).state;
    assert EndOnHash(FirstMilestone(Checksum), BAD_HASH).Refunded?;
    hide *;
    InvParts(s);
    RefundedRedelivered(s);
    DeliverKeepsIff(s, ID, PAYEE, "m1", BAD_HASH, 2);
  }

  lemma RefundedRedelivered(s: System)
    requires RecordOk(s, ID)
    requires var r := s.escrows[ID];
             && r.contract == TwoMilestones(Checksum) && r.state == EscrowState.Open && "m1" in r.milestones && StateOf(r, "m1").Refunded?
    ensures !Guard(s, DeliverCall(ID, PAYEE, "m1", BAD_HASH, 2))
    ensures var s' := MarkDelivered(s, ID, "m1", BAD_HASH, 2);
            && Deliver(s, ID, PAYEE, "m1", BAD_HASH, 2) == Thrown(s', Conflict)
            && ID in s'.escrows && StateOf(s'.escrows[ID], "m1").Delivered? && s'.wallet == s.wallet
  {
    FirstFound(s.escrows[ID], Checksum);
    RedeliveryMarks(s, ID, PAYEE, "m1", BAD_HASH, 2);
    hide Deliver, Core;
  }

  /** An open that can afford only the first of two milestones throws and keeps the money for it locked, in
    a hold that no escrow names and that no escrow call settles from then on. */
  lemma OpenCanStrand(kind: AcceptanceType) returns (s: System, s': System)
    ensures var calls := [WalletCall(W.OpCredit(W.Key(PAYER, "USDC"), 1.0))]; s == Run(NOTHING, calls) && Guarded(NOTHING, calls)
    ensures OpenEscrow(s, TwoMilestones(kind), 0) == Thrown(s', Insufficient) && !Inv(s')
    ensures ID !in s'.escrows && W.Available(s.wallet, W.Key(PAYER, "USDC")) == 1.0 && W.Available(s'.wallet, W.Key(PAYER, "USDC")) == 0.0
    ensures s'.wallet.holds == [FundHold(TwoMilestones(kind), TwoMilestones(kind).milestones[0])]
    ensures forall more | (forall n | 0 <= n < |more| :: LeavesAlone(more[n], 0)) ::
              |Run(s', more).wallet.holds| > 0 && Run(s', more).wallet.holds[0].state == W.Active
  {
    var c := TwoMilestones(kind);
    var credit := WalletCall(W.OpCredit(W.Key(PAYER, "USDC"), 1.0));
    RunThen(NOTHING, [], credit);
    assert [] + [credit] == [credit];
    s := Run(NOTHING, [credit]);
    s' := OpenEscrow(s, c, 0).state;
    assert s.wallet.holds == [] && s.escrows == map[];
    TotalIsTwo(kind);
    SecondUnfunded(s, kind);
    assert FirstHoldTakes(s.wallet, c);
    hide FundAll, Run;
    OpenLeavesOrphan(s, c, 0);
    assert s'.escrows == map[] && Unnamed(s', 0);
    forall more | (forall n | 0 <= n < |more| :: LeavesAlone(more[n], 0))
      ensures |Run(s', more).wallet.holds| > 0 && Run(s', more).wallet.holds[0].state == W.Active
    {
      UnnamedForever(s', more, 0);
      hide LeavesAlone;
    }
  }

  lemma SecondUnfunded(s: System, kind: AcceptanceType)
    requires W.Available(s.wallet, W.Key(PAYER, "USDC")) == 1.0 && s.wallet.holds == []
    ensures var c := TwoMilestones(kind); var o := FundAll(Start(s), c, c.milestones);
            && o.Thrown? && o.error == Insufficient && o.state.wallet.holds == [FundHold(c, c.milestones[0])]
            && W.Available(o.state.wallet, W.Key(PAYER, "USDC")) == 0.0
  {
    var c := TwoMilestones(kind);
    var o := W.TakeHold(s.wallet, c.PayerKey(), 1.0, W.FundRef(ID, "m1"));
    assert o.Done? && W.Available(o.state, c.PayerKey()) == 0.0 && o.state.holds == [FundHold(c, c.milestones[0])];
    var o2 := W.TakeHold(o.state, c.PayerKey(), 1.0, W.FundRef(ID, "m2"));
    assert o2.Thrown? && o2.error == Insufficient && o2.state.holds == o.state.holds && W.Available(o2.state, c.PayerKey()) == 0.0;
    hide W.TakeHold;
    var f1 := Funding(o.state, map["m1" := 0], map["m1" := Runtime(Pending, None, None)]);
    assert FundAll(Start(s), c, c.milestones) == FundAll(f1, c, c.milestones[1..]);
    assert FundAll(f1, c, c.milestones[1..]) == Thrown(f1.(wallet := o2.state), Insufficient);
  }
}
