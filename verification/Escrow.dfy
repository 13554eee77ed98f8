/** The multi-milestone escrow machine over the wallet: what every call does to the contract
  records, the wallet, the spend book and the receipts, including the calls that throw.

  Signatures, nonces and the payer's policy check come first in the program and have no effect here.
  `now` is the clock, in milliseconds. */
module Escrow {
  import opened Amounts
  import opened Outcomes
  import opened Spends
  import W = Wallet

  type Did = W.Did
  type EscrowId = string
  type MilestoneId = string

  datatype AcceptanceType = SchemaOnly | Checksum | SchemaChecksum | Oracle

  datatype Acceptance = Acceptance(kind: AcceptanceType, expected: Option<string>)

  datatype Milestone = Milestone(id: MilestoneId, amount: real, acceptance: Acceptance)

  datatype OnTimeoutRule = RefundPayer | ReleaseToProvider | Arbitrate

  datatype Stake = Stake(amount: real, currency: W.Currency, slashable: bool)

  datatype Contract = Contract(
    escrowId: EscrowId, payer: Did, payee: Did, total: real, currency: W.Currency,
    milestones: seq<Milestone>, deliverBy: int, onTimeout: OnTimeoutRule, disputeWindow: int, stake: Stake)
  {
    function PayerKey(): W.Key { W.Key(payer, currency) }
    function PayeeKey(): W.Key { W.Key(payee, currency) }
    function ProviderStakeKey(): W.Key { W.Key(payee, stake.currency) }
    function SlashedStakeKey(): W.Key { W.Key(payer, stake.currency) }

    function OtherParty(did: Did): Did {
      if did == payer then payee else payer
    }
  }

  datatype EscrowState = Open | Delivered | Released | Disputed | Resolved | Refunded | TimedOut

  datatype MilestoneState = Pending | Delivered | Accepted | Rejected | Disputed | Released | Refunded {
    predicate Settled() {
      Released? || Refunded?
    }

    predicate Unsettled() {
      Pending? || Delivered?
    }
  }

  datatype Runtime = Runtime(state: MilestoneState, resultHash: Option<string>, deliveredAt: Option<int>)

  datatype Escalation =
    | DisputeRuling(milestoneId: MilestoneId, disputer: Did)
    | TimeoutRuling(milestoneIds: seq<MilestoneId>)

  datatype Record = Record(
    contract: Contract, state: EscrowState, milestones: map<MilestoneId, Runtime>,
    holdIds: map<MilestoneId, nat>, stakeHold: Option<nat>, bondHold: Option<nat>,
    disputer: Option<Did>, escalation: Option<Escalation>, createdAt: int)

  datatype ReceiptOutcome = WorkDelivered | WorkRefunded | WorkDisputed

  /** What refundMilestone is called with. */
  type RefundOutcome = o: ReceiptOutcome | o != WorkDelivered witness WorkRefunded

  datatype Receipt = Receipt(
    escrowId: EscrowId, milestoneId: MilestoneId, payer: Did, payee: Did, amount: real, outcome: ReceiptOutcome)

  datatype System = System(wallet: W.State, spends: Book, escrows: map<EscrowId, Record>, receipts: seq<Receipt>)

  // ---- small steps ------------------------------------------------------------------------

  function OnWallet(s: System, o: Outcome<W.State>): Outcome<System> {
    var s := s.(wallet := o.state);
    if o.Thrown? then Thrown(s, o.error) else Done(s)
  }

  function Put(s: System, id: EscrowId, r: Record): System {
    s.(escrows := s.escrows[id := r])
  }

  function WithMilestone(r: Record, mid: MilestoneId, st: MilestoneState): Record
    requires mid in r.milestones
  {
    r.(milestones := r.milestones[mid := r.milestones[mid].(state := st)])
  }

  /** contract.milestones.find */
  function Find(ms: seq<Milestone>, mid: MilestoneId): (m: Option<Milestone>)
    ensures m.Some? ==> m.value.id == mid
  {
    if ms == [] then None
    else if ms[0].id == mid then Some(ms[0])
    else Find(ms[1..], mid)
  }

  function StateOf(r: Record, mid: MilestoneId): MilestoneState {
    if mid in r.milestones then r.milestones[mid].state else Rejected
  }

  predicate AllSettled(r: Record) {
    forall i :: 0 <= i < |r.contract.milestones| ==> StateOf(r, r.contract.milestones[i].id).Settled()
  }

  predicate AllReleased(r: Record) {
    forall i :: 0 <= i < |r.contract.milestones| ==> StateOf(r, r.contract.milestones[i].id) == MilestoneState.Released
  }

  function RecomputeState(r: Record): Record {
    if AllReleased(r) then r.(state := EscrowState.Released)
    else if AllSettled(r) then r.(state := EscrowState.Resolved)
    else r
  }

  datatype Verdict = Pass | Fail | Subjective

  function ObjectivePass(a: Acceptance, hash: string): Verdict {
    if (a.kind == Checksum || a.kind == SchemaChecksum) && a.expected.Some? && a.expected.value != "" then
      if hash == a.expected.value then Pass else Fail
    else Subjective
  }

  function IssueReceipt(s: System, c: Contract, m: Milestone, outcome: ReceiptOutcome): System {
    s.(receipts := s.receipts + [Receipt(c.escrowId, m.id, c.payer, c.payee, m.amount, outcome)])
  }

  const DAY_MS := 24 * 60 * 60 * 1000

  function RecordCapture(s: System, k: W.Key, amount: real, now: int): Outcome<System> {
    var o := RecordSpend(s.spends, k, amount, now / DAY_MS);
    var s := s.(spends := o.state);
    if o.Thrown? then Thrown(s, o.error) else Done(s)
  }

  // ---- moving one milestone ---------------------------------------------------------------

  function MaybeReleaseStake(s: System, id: EscrowId): Outcome<System>
    requires id in s.escrows
  {
    var r := s.escrows[id];
    if r.stakeHold.None? || !AllSettled(r) then Done(s)
    else
      var s :- OnWallet(s, W.Release(s.wallet, r.stakeHold.value));
      Done(Put(s, id, r.(stakeHold := None)))
  }

  function CaptureMilestone(s: System, id: EscrowId, m: Milestone, now: int): Outcome<System>
    requires id in s.escrows
  {
    var r := s.escrows[id];
    if m.id !in r.holdIds || m.id !in r.milestones then Thrown(s, Conflict)
    else if StateOf(r, m.id).Released? || StateOf(r, m.id).Accepted? then Done(s)
    else
      var s :- OnWallet(s, W.Capture(s.wallet, r.holdIds[m.id], r.contract.payee));
      var s := Put(s, id, WithMilestone(r, m.id, MilestoneState.Released));
      var s :- RecordCapture(s, r.contract.PayerKey(), m.amount, now);
      var s := IssueReceipt(s, r.contract, m, WorkDelivered);
      MaybeReleaseStake(s, id)
  }

  function RefundMilestone(s: System, id: EscrowId, m: Milestone, outcome: RefundOutcome): Outcome<System>
    requires id in s.escrows
  {
    var r := s.escrows[id];
    if m.id !in r.holdIds || m.id !in r.milestones then Thrown(s, Conflict)
    else if StateOf(r, m.id).Refunded? then Done(s)
    else
      var s :- OnWallet(s, W.Release(s.wallet, r.holdIds[m.id]));
      var s := Put(s, id, WithMilestone(r, m.id, MilestoneState.Refunded));
      var s := IssueReceipt(s, r.contract, m, outcome);
      MaybeReleaseStake(s, id)
  }

  /** The nearest whole number of parts, halves up, with `scale` parts per unit. */
  function Parts(x: real, scale: int): int {
    (x * scale as real + 0.5).Floor
  }

  function Round(x: real, scale: int): real
    requires scale > 0
  {
    Parts(x, scale) as real / scale as real
  }

  const DIVISION_SCALE := 100_000_000_000_000_000_000 // big.js divides to 20 decimal places
  const SHARE_SCALE := 1_000_000                      // toFixed(6)

  /** The part of the stake to burn when milestone share `amount` of `total` was misdelivered. */
  function SlashBurnFraction(amount: real, total: real): real {
    var share := if total == 0.0 then 0.0 else Round(amount / total, DIVISION_SCALE);
    var burn := 1.0 - Round(share, SHARE_SCALE);
    if burn < 0.0 then 0.0 else if burn > 1.0 then 1.0 else burn
  }

  function SlashProviderStake(s: System, id: EscrowId, m: Milestone): Outcome<System>
    requires id in s.escrows
  {
    var r := s.escrows[id];
    if r.stakeHold.None? then Done(s)
    else
      var split := W.ToRecipient(r.contract.payer, SlashBurnFraction(m.amount, r.contract.total));
      var s :- OnWallet(s, W.Forfeit(s.wallet, r.stakeHold.value, split));
      Done(Put(s, id, r.(stakeHold := None)))
  }

  // ---- sweeps over milestones -------------------------------------------------------------

  datatype Settling = Pay | Refund

  function SettleOne(s: System, id: EscrowId, m: Milestone, how: Settling, now: int): Outcome<System>
    requires id in s.escrows
  {
    if how == Pay then CaptureMilestone(s, id, m, now) else RefundMilestone(s, id, m, WorkRefunded)
  }

  /** The loop of onTimeout. */
  function SettleAll(s: System, id: EscrowId, ms: seq<Milestone>, how: Settling, now: int): Outcome<System>
    requires id in s.escrows
    ensures id in SettleAll(s, id, ms, how, now).state.escrows
    decreases |ms|
  {
    if ms == [] then Done(s)
    else
      var s :- SettleOne(s, id, ms[0], how, now);
      SettleAll(s, id, ms[1..], how, now)
  }

  /** The loop of settleTimeoutEscalation. */
  function SettleListed(s: System, id: EscrowId, mids: seq<MilestoneId>, how: Settling, now: int): Outcome<System>
    requires id in s.escrows
    ensures id in SettleListed(s, id, mids, how, now).state.escrows
    decreases |mids|
  {
    if mids == [] then Done(s)
    else if !StateOf(s.escrows[id], mids[0]).Unsettled() then SettleListed(s, id, mids[1..], how, now)
    else
      match Find(s.escrows[id].contract.milestones, mids[0])
      case None => Thrown(s, NotFound)
      case Some(m) =>
        var s :- SettleOne(s, id, m, how, now);
        SettleListed(s, id, mids[1..], how, now)
  }

  /** The loop of refundRemainingPending. */
  function RefundRest(s: System, id: EscrowId, ms: seq<Milestone>, except: Option<MilestoneId>): Outcome<System>
    requires id in s.escrows
    ensures id in RefundRest(s, id, ms, except).state.escrows
    decreases |ms|
  {
    if ms == [] then Done(s)
    else if except == Some(ms[0].id) || !StateOf(s.escrows[id], ms[0].id).Unsettled() then RefundRest(s, id, ms[1..], except)
    else
      var s :- RefundMilestone(s, id, ms[0], WorkRefunded);
      RefundRest(s, id, ms[1..], except)
  }

  // ---- open -------------------------------------------------------------------------------

  function AmountSum(ms: seq<Milestone>): real {
    if ms == [] then 0.0 else ms[0].amount + AmountSum(ms[1..])
  }

  datatype Funding = Funding(wallet: W.State, holdIds: map<MilestoneId, nat>, milestones: map<MilestoneId, Runtime>)

  /** One hold per milestone, in order; the holds taken before a failing one are not undone. */
  function FundAll(f: Funding, c: Contract, ms: seq<Milestone>): Outcome<Funding>
    decreases |ms|
  {
    if ms == [] then Done(f)
    else
      var o := W.TakeHold(f.wallet, c.PayerKey(), ms[0].amount, W.FundRef(c.escrowId, ms[0].id));
      if o.Thrown? then Thrown(f.(wallet := o.state), o.error)
      else
        FundAll(Funding(o.state, f.holdIds[ms[0].id := |f.wallet.holds|],
                        f.milestones[ms[0].id := Runtime(Pending, None, None)]), c, ms[1..])
  }

  predicate NeedsStake(c: Contract) {
    c.stake.slashable && c.stake.amount > 0.0
  }

  function OpenEscrow(s: System, c: Contract, now: int): Outcome<System> {
    if AmountSum(c.milestones) != c.total || c.total <= 0.0 then Thrown(s, Invalid)
    else if c.escrowId in s.escrows then Thrown(s, Conflict)
    else
      var f := FundAll(Funding(s.wallet, map[], map[]), c, c.milestones);
      var s := s.(wallet := f.state.wallet);
      if f.Thrown? then Thrown(s, f.error)
      else
        var stakeHold := if NeedsStake(c) then Some(|s.wallet.holds|) else None;
        var s :- if NeedsStake(c)
                 then OnWallet(s, W.TakeHold(s.wallet, c.ProviderStakeKey(), c.stake.amount, W.StakeRef(c.escrowId)))
                 else Done(s);
        Done(Put(s, c.escrowId, Record(c, EscrowState.Open, f.state.milestones, f.state.holdIds, stakeHold, None, None, None, now)))
  }

  // ---- party actions ----------------------------------------------------------------------

  /** requireOpenish: terminal and escalated escrows admit no party action. */
  function RequireOpenish(s: System, id: EscrowId): Option<Error> {
    if id !in s.escrows then Some(NotFound)
    else if s.escrows[id].state in {EscrowState.Open, EscrowState.Delivered} then None
    else Some(Conflict)
  }

  function Recomputed(s: System, id: EscrowId): System
    requires id in s.escrows
  {
    Put(s, id, RecomputeState(s.escrows[id]))
  }

  function Deliver(s: System, id: EscrowId, provider: Did, mid: MilestoneId, hash: string, now: int): Outcome<System> {
    var blocked := RequireOpenish(s, id);
    if blocked.Some? then Thrown(s, blocked.value)
    else
      var r := s.escrows[id];
      var found := Find(r.contract.milestones, mid);
      if provider != r.contract.payee then Thrown(s, Forbidden)
      else if found.None? || mid !in r.milestones then Thrown(s, NotFound)
      else if StateOf(r, mid).Accepted? || StateOf(r, mid).Released? then Done(s)
      else
        var s := MarkDelivered(s, id, mid, hash, now);
        var s :- JudgeDelivery(s, id, found.value, hash, now);
        Done(Recomputed(s, id))
  }

  function MarkDelivered(s: System, id: EscrowId, mid: MilestoneId, hash: string, now: int): System
    requires id in s.escrows
  {
    var r := s.escrows[id];
    Put(s, id, r.(milestones := r.milestones[mid := Runtime(MilestoneState.Delivered, Some(hash), Some(now))]))
  }

  /** Only a pure checksum milestone settles on delivery; the others wait for accept or dispute. */
  function JudgeDelivery(s: System, id: EscrowId, m: Milestone, hash: string, now: int): Outcome<System>
    requires id in s.escrows
  {
    var verdict := if m.acceptance.kind == Checksum then ObjectivePass(m.acceptance, hash) else Subjective;
    match verdict
    case Pass => CaptureMilestone(s, id, m, now)
    case Fail => RefundMilestone(s, id, m, WorkRefunded)
    case Subjective => Done(s)
  }

  function Accept(s: System, id: EscrowId, payer: Did, mid: MilestoneId, now: int): Outcome<System> {
    var blocked := RequireOpenish(s, id);
    if blocked.Some? then Thrown(s, blocked.value)
    else
      var r := s.escrows[id];
      var found := Find(r.contract.milestones, mid);
      if payer != r.contract.payer then Thrown(s, Forbidden)
      else if found.None? || mid !in r.milestones then Thrown(s, NotFound)
      else if StateOf(r, mid).Accepted? || StateOf(r, mid).Released? then Done(s)
      else if !StateOf(r, mid).Delivered? then Thrown(s, Conflict)
      else
        var s :- CaptureMilestone(s, id, found.value, now);
        Done(Recomputed(s, id))
  }

  predicate WindowClosed(r: Record, mid: MilestoneId, now: int)
    requires mid in r.milestones
  {
    var anchor := if r.milestones[mid].deliveredAt.Some? then r.milestones[mid].deliveredAt.value else r.createdAt;
    now > anchor + r.contract.disputeWindow
  }

  /** Takes the disputer's bond, if one is offered, and marks the escrow and milestone disputed. */
  function BeginDispute(s: System, id: EscrowId, disputer: Did, mid: MilestoneId, bond: Option<Money>): Outcome<System>
    requires id in s.escrows && mid in s.escrows[id].milestones
  {
    var r := s.escrows[id];
    var bondHold := if bond.Some? then Some(|s.wallet.holds|) else r.bondHold;
    var s :- if bond.None? then Done(s)
             else OnWallet(s, W.TakeHold(s.wallet, W.Key(disputer, bond.value.currency), bond.value.amount, W.BondRef(id, mid)));
    var r := WithMilestone(r, mid, MilestoneState.Disputed);
    Done(Put(s, id, r.(bondHold := bondHold, state := EscrowState.Disputed, disputer := Some(disputer))))
  }

  /** Pays the bond out, to its owner or to `winner`, and clears it. */
  function CloseBond(s: System, id: EscrowId, returned: bool, winner: Did): Outcome<System>
    requires id in s.escrows
  {
    var r := s.escrows[id];
    if r.bondHold.None? then Done(s)
    else
      var s :- OnWallet(s, if returned then W.Release(s.wallet, r.bondHold.value)
                           else W.Forfeit(s.wallet, r.bondHold.value, W.ToRecipient(winner, 0.0)));
      Done(Put(s, id, r.(bondHold := None)))
  }

  function Dispute(s: System, id: EscrowId, disputer: Did, mid: MilestoneId, bond: Option<Money>, now: int): Outcome<System> {
    var blocked := RequireOpenish(s, id);
    if blocked.Some? then Thrown(s, blocked.value)
    else
      var r := s.escrows[id];
      var found := Find(r.contract.milestones, mid);
      if disputer != r.contract.payer && disputer != r.contract.payee then Thrown(s, Forbidden)
      else if found.None? || mid !in r.milestones then Thrown(s, NotFound)
      else if StateOf(r, mid).Accepted? || StateOf(r, mid).Settled() then Thrown(s, Conflict)
      else if WindowClosed(r, mid, now) then Thrown(s, Conflict)
      else
        DecideDispute(s, id, disputer, found.value, bond, now)
  }

  function DecideDispute(s: System, id: EscrowId, disputer: Did, m: Milestone, bond: Option<Money>, now: int): Outcome<System>
    requires id in s.escrows && m.id in s.escrows[id].milestones
  {
    var verdict := VerdictOf(s.escrows[id], m);
    var s :- BeginDispute(s, id, disputer, m.id, bond);
    match verdict
    case Subjective => Done(Put(s, id, s.escrows[id].(escalation := Some(DisputeRuling(m.id, disputer)))))
    case Pass => var s :- DisputeFails(s, id, m, now); Done(Conclude(s, id))
    case Fail => var s :- DisputeHolds(s, id, m); Done(Conclude(s, id))
  }

  /** What the delivered hash, if any, says about the milestone. */
  function VerdictOf(r: Record, m: Milestone): Verdict
    requires m.id in r.milestones
  {
    var hash := r.milestones[m.id].resultHash;
    if hash.Some? then ObjectivePass(m.acceptance, hash.value) else Subjective
  }

  /** The end of a dispute decided on the spot, whatever the other milestones are doing. */
  function Conclude(s: System, id: EscrowId): System
    requires id in s.escrows
  {
    Recomputed(Put(s, id, s.escrows[id].(state := EscrowState.Resolved, disputer := None)), id)
  }

  /** The delivery passes its own checksum: pay the provider and forfeit the bond to the payee. */
  function DisputeFails(s: System, id: EscrowId, m: Milestone, now: int): Outcome<System>
    requires id in s.escrows
  {
    var s :- CaptureMilestone(s, id, m, now);
    CloseBond(s, id, false, s.escrows[id].contract.payee)
  }

  /** The delivery fails its own checksum: slash the stake, refund the payer, return the bond. */
  function DisputeHolds(s: System, id: EscrowId, m: Milestone): Outcome<System>
    requires id in s.escrows
  {
    var s :- SlashProviderStake(s, id, m);
    var s :- RefundMilestone(s, id, m, WorkDisputed);
    CloseBond(s, id, true, s.escrows[id].contract.payee)
  }

  // ---- timeout and rulings ----------------------------------------------------------------

  function UnsettledOf(r: Record, ms: seq<Milestone>): seq<Milestone> {
    if ms == [] then []
    else if StateOf(r, ms[0].id).Unsettled() then [ms[0]] + UnsettledOf(r, ms[1..])
    else UnsettledOf(r, ms[1..])
  }

  function Ids(ms: seq<Milestone>): seq<MilestoneId> {
    if ms == [] then [] else [ms[0].id] + Ids(ms[1..])
  }

  function OnTimeout(s: System, id: EscrowId, now: int): Outcome<System> {
    var blocked := RequireOpenish(s, id);
    if blocked.Some? then Thrown(s, blocked.value)
    else
      var r := s.escrows[id];
      var pending := UnsettledOf(r, r.contract.milestones);
      if now < r.contract.deliverBy then Thrown(s, Conflict)
      else if r.contract.onTimeout == Arbitrate then
        Done(Put(s, id, r.(state := EscrowState.Disputed, escalation := Some(TimeoutRuling(Ids(pending))))))
      else
        SweepTimeout(s, id, pending, if r.contract.onTimeout == RefundPayer then Refund else Pay, now)
  }

  function SweepTimeout(s: System, id: EscrowId, pending: seq<Milestone>, how: Settling, now: int): Outcome<System>
    requires id in s.escrows
  {
    var s :- SettleAll(s, id, pending, how, now);
    Done(Recomputed(Put(s, id, s.escrows[id].(state := EscrowState.TimedOut)), id))
  }

  predicate ProviderWins(c: Contract, disputer: Did, upheld: bool) {
    (if upheld then disputer else c.OtherParty(disputer)) == c.payee
  }

  /** The stake is slashed before the refund, so that the refund does not return it. */
  function RuleOnMilestone(s: System, id: EscrowId, m: Milestone, forProvider: bool, now: int): Outcome<System>
    requires id in s.escrows
  {
    if forProvider then CaptureMilestone(s, id, m, now)
    else
      var s :- SlashProviderStake(s, id, m);
      RefundMilestone(s, id, m, WorkDisputed)
  }

  /** `upheld` is the ruling for the disputer. */
  function SettleDisputeRuling(s: System, id: EscrowId, mid: MilestoneId, disputer: Did, upheld: bool, now: int): Outcome<System>
    requires id in s.escrows
  {
    var c := s.escrows[id].contract;
    match Find(c.milestones, mid)
    case None => Thrown(s, NotFound)
    case Some(m) =>
      var s :- RuleOnMilestone(s, id, m, ProviderWins(c, disputer, upheld), now);
      var s :- CloseBond(s, id, upheld, c.OtherParty(disputer));
      RefundRest(s, id, c.milestones, Some(mid))
  }

  function SettleTimeoutRuling(s: System, id: EscrowId, mids: seq<MilestoneId>, upheld: bool, now: int): Outcome<System>
    requires id in s.escrows
  {
    var s :- SettleListed(s, id, mids, if upheld then Pay else Refund, now);
    RefundRest(s, id, s.escrows[id].contract.milestones, None)
  }

  /** `ruling` is what redeeming the escalation's approval returns: the decision, or nothing when
    redemption throws because governance has not ruled or the approval was already used. */
  function ResolveEscalation(s: System, id: EscrowId, caller: Did, ruling: Option<bool>, now: int): Outcome<System> {
    if id !in s.escrows then Thrown(s, NotFound)
    else
      var r := s.escrows[id];
      if r.escalation.None? || r.state != EscrowState.Disputed then Thrown(s, Conflict)
      else if caller != r.contract.payer && caller != r.contract.payee then Thrown(s, Forbidden)
      else if ruling.None? then Thrown(s, Conflict)
      else
        match r.escalation.value
        case DisputeRuling(mid, disputer) =>
          var s :- SettleDisputeRuling(s, id, mid, disputer, ruling.value, now);
          Done(CloseEscalation(s, id, EscrowState.Resolved))
        case TimeoutRuling(mids) =>
          var s :- SettleTimeoutRuling(s, id, mids, ruling.value, now);
          Done(CloseEscalation(s, id, EscrowState.TimedOut))
  }

  function CloseEscalation(s: System, id: EscrowId, final: EscrowState): System
    requires id in s.escrows
  {
    Put(s, id, s.escrows[id].(state := final, disputer := None, escalation := None))
  }
}
