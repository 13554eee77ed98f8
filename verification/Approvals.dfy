/** The approval queue and the signer that redeems from it. Calls read an approval, await, and write
  on the strength of what they read. */
module Approvals {
  import opened Outcomes
  import opened Policy

  type ApprovalId = string

  datatype Ruling = Approve | Refuse

  datatype Status = Pending | Approved | Denied | Consumed

  datatype Approval = Approval(agent: string, action: Action, status: Status, ruling: Option<Ruling>)

  function StatusOf(ruling: Ruling): Status {
    if ruling == Approve then Approved else Denied
  }

  /** An approval is bound to exactly one action; amounts compare by value. */
  predicate ActionMatches(a: Action, b: Action) {
    && a.kind == b.kind && a.agent == b.agent
    && a.counterparty == b.counterparty && a.category == b.category && a.subKind == b.subKind
    && match (a.amount, b.amount)
       case (Some(x), Some(y)) => x.currency == y.currency && x.amount == y.amount
       case (None, None) => true
       case _ => false
  }

  /** What resolve makes of the approval it read. */
  function Resolved(a: Approval, ruling: Ruling): Outcome<Approval> {
    if a.status != Pending then
      if a.status == StatusOf(ruling) then Done(a) else Thrown(a, Conflict)
    else Done(a.(status := StatusOf(ruling), ruling := Some(ruling)))
  }

  /** What consume makes of the approval it read: the ruling survives the redemption. */
  function Redeemed(a: Approval, agent: string, action: Action): Outcome<Approval> {
    if a.status == Consumed then Thrown(a, Conflict)
    else if a.status == Pending then Thrown(a, Conflict)
    else if a.agent != agent then Thrown(a, Forbidden)
    else if !ActionMatches(a.action, action) then Thrown(a, Forbidden)
    else Done(a.(status := Consumed))
  }

  /** A ruling goes through on a pending approval, or if it repeats the one that was made. */
  lemma ResolvedIff(a: Approval, ruling: Ruling)
    ensures var o := Resolved(a, ruling); var ruled := if ruling == Approve then Approved else Denied;
            && (o.Done? <==> a.status == Pending || a.status == ruled)
            && (a.status == Pending ==> o.state == a.(status := ruled, ruling := Some(ruling)))
            && (a.status != Pending ==> o.state == a)
            && (o.Thrown? ==> o.error == Conflict)
  {
  }

  /** An approval is redeemed by exactly the agent it was issued for and exactly the action it was issued
    for, in every field and the amount too, once it has been ruled on and before it is used. */
  lemma RedeemedIff(a: Approval, agent: string, action: Action)
    ensures var o := Redeemed(a, agent, action);
            && (o.Done? <==> (a.status == Approved || a.status == Denied) && a.agent == agent && a.action == action)
            && o.state == (if o.Done? then a.(status := Consumed) else a)
            && (o.Thrown? ==> o.error == if a.status == Pending || a.status == Consumed then Conflict else Forbidden)
  {
  }

  class ApprovalQueue {
    var byId: map<ApprovalId, Approval>

    constructor ()
      ensures byId == map[]
    {
      byId := map[];
    }

    /** Ids are fresh. */
    method Enqueue(id: ApprovalId, agent: string, action: Action)
      requires id !in byId
      modifies this
      ensures byId == old(byId)[id := Approval(agent, action, Pending, None)]
    {
      byId := byId[id := Approval(agent, action, Pending, None)];
    }

    method Resolve(id: ApprovalId, ruling: Ruling) returns (error: Option<Error>)
      modifies this
      ensures id !in old(byId) ==> error == Some(NotFound) && byId == old(byId)
      ensures id in old(byId) ==>
                error == ErrorOf(Resolved(old(byId)[id], ruling)) && byId == old(byId)[id := Resolved(old(byId)[id], ruling).state]
      ensures error.None? && old(byId)[id].status == Pending ==>
                byId == old(byId)[id := old(byId)[id].(status := if ruling == Approve then Approved else Denied, ruling := Some(ruling))]
    {
      if id !in byId { return Some(NotFound); }
      var existing := byId[id];
      var target := if ruling == Approve then Approved else Denied;
      if existing.status != Pending {
        assert byId == byId[id := existing];
        return if existing.status == target then None else Some(Conflict);
      }
      byId := byId[id := existing.(status := target, ruling := Some(ruling))];
      error := None;
    }

    method Consume(id: ApprovalId, agent: string, action: Action) returns (error: Option<Error>, ruling: Option<Ruling>)
      modifies this
      ensures id !in old(byId) ==> error == Some(NotFound) && byId == old(byId)
      ensures id in old(byId) ==>
                && error == ErrorOf(Redeemed(old(byId)[id], agent, action))
                && byId == old(byId)[id := Redeemed(old(byId)[id], agent, action).state]
                && (error.None? ==> ruling == old(byId)[id].ruling)
      ensures error.None? <==> Redeemable(old(byId), Some(id), agent, action)
    {
      if id in byId { RedeemedIff(byId[id], agent, action); }
      ruling := None;
      if id !in byId { return Some(NotFound), None; }
      var existing := byId[id];
      assert byId == byId[id := existing];
      if existing.status == Consumed { return Some(Conflict), None; }
      if existing.status == Pending { return Some(Conflict), None; }
      if existing.agent != agent { return Some(Forbidden), None; }
      if !ActionMatches(existing.action, action) { return Some(Forbidden), None; }
      byId := byId[id := existing.(status := Consumed)];
      return None, existing.ruling;
    }
  }

  // ---- the signer -------------------------------------------------------------------------

  datatype Verdict = Signed | Refused | Parked | Broken(error: Error)

  /** What the identity layer says about the agent: its delegation, whether that was revoked or has
    expired, and whether a signing key can be found. */
  datatype Identity = Identity(rules: Option<Rules>, revoked: bool, expired: bool, hasKey: bool)

  class WalletSigner {
    const approvals: ApprovalQueue

    constructor (approvals: ApprovalQueue)
      ensures this.approvals == approvals
    {
      this.approvals := approvals;
    }

    /** Signs exactly what policy allows outright or a matching clearance covers. The queue changes only
      when a ruled, matching and unused approval is presented for an action over the threshold, and then
      only by using that approval up. */
    method SignWithinPolicy(did: string, who: Identity, action: Action, usage: Usage, approvalId: Option<ApprovalId>)
      returns (verdict: Verdict)
      modifies approvals
      ensures verdict == Signed <==>
                && who.rules.Some? && !who.revoked && !who.expired && who.hasKey
                && var d := Evaluate(who.rules.value, action, usage);
                   d == Allow || (d == NeedsApproval && Redeemable(old(approvals.byId), approvalId, did, action)
                                  && old(approvals.byId)[approvalId.value].ruling == Some(Approve))
      ensures approvals.byId != old(approvals.byId) ==>
                && who.rules.Some? && !who.revoked && !who.expired && Evaluate(who.rules.value, action, usage) == NeedsApproval
                && Redeemable(old(approvals.byId), approvalId, did, action)
                && approvals.byId == old(approvals.byId)[approvalId.value := old(approvals.byId)[approvalId.value].(status := Consumed)]
      ensures verdict == Parked <==>
                && who.rules.Some? && !who.revoked && !who.expired && approvalId.None?
                && Evaluate(who.rules.value, action, usage) == NeedsApproval
    {
      if who.rules.None? { return Refused; }
      if who.revoked { return Refused; }
      if who.expired { return Refused; }
      var decision := Evaluate(who.rules.value, action, usage);
      hide Evaluate, ActionMatches, Redeemed;
      if decision == Breaks { return Broken(Invalid); }
      if decision == Deny { return Refused; }
      if decision == NeedsApproval {
        if approvalId.None? { return Parked; }
        var error, ruling := approvals.Consume(approvalId.value, did, action);
        if error.Some? {
          assert approvals.byId == old(approvals.byId);
          return Broken(error.value);
        }
        if ruling != Some(Approve) { return Refused; }
      }
      if !who.hasKey { return Refused; }
      verdict := Signed;
    }
  }

  /** The presented approval exists, has been ruled on, is unused, and is for this agent and this action. */
  predicate Redeemable(queue: map<ApprovalId, Approval>, id: Option<ApprovalId>, agent: string, action: Action) {
    id.Some? && id.value in queue
    && var a := queue[id.value]; (a.status == Approved || a.status == Denied) && a.agent == agent && a.action == action
  }

  // ---- overlapping calls ------------------------------------------------------------------

  /** A resolve or consume call between its read and its write; `seen` is what it read. */
  datatype Flight =
    | Resolving(id: ApprovalId, ruling: Ruling, seen: Approval)
    | Consuming(id: ApprovalId, agent: string, action: Action, seen: Approval)

  /** A redemption that went through, with the ruling it found. */
  datatype Use = Use(id: ApprovalId, agent: string, action: Action, ruling: Option<Ruling>)

  /** A signature; `via` is the redemption that cleared it, nothing if policy allowed it outright. */
  datatype Signature = Signature(agent: string, action: Action, via: Option<nat>)

  /** `rulings` records the first ruling made on each approval. */
  datatype Desk = Desk(
    queue: map<ApprovalId, Approval>, flights: map<nat, Flight>, rulings: map<ApprovalId, Ruling>,
    uses: seq<Use>, signatures: seq<Signature>)

  /** `delegated` is what the signer's checks before the evaluator say, `hasKey` those after it. */
  datatype Step =
    | Enqueue(id: ApprovalId, agent: string, action: Action)
    | BeginResolve(c: nat, id: ApprovalId, ruling: Ruling)
    | EndResolve(c: nat)
    | BeginConsume(c: nat, id: ApprovalId, agent: string, action: Action)
    | EndConsume(c: nat, bySigner: bool, hasKey: bool)
    | SignOutright(agent: string, action: Action, rules: Rules, usage: Usage, delegated: bool, hasKey: bool)

  predicate CanStep(d: Desk, step: Step) {
    match step
    case Enqueue(id, _, _) => id !in d.queue
    case BeginResolve(c, id, _) => c !in d.flights && id in d.queue
    case EndResolve(c) => c in d.flights && d.flights[c].Resolving?
    case BeginConsume(c, id, _, _) => c !in d.flights && id in d.queue
    case EndConsume(c, _, _) => c in d.flights && d.flights[c].Consuming?
    case SignOutright(_, _, _, _, _, _) => true
  }

  /** What EndConsume writes, whatever happened to the approval since it was read. */
  function EndConsumeOf(d: Desk, f: Flight, signs: bool): Desk
    requires f.Consuming?
  {
    var o := Redeemed(f.seen, f.agent, f.action);
    if o.Thrown? then d
    else
      var d := d.(queue := d.queue[f.id := o.state], uses := d.uses + [Use(f.id, f.agent, f.action, f.seen.ruling)]);
      if signs && f.seen.ruling == Some(Approve) then
        d.(signatures := d.signatures + [Signature(f.agent, f.action, Some(|d.uses| - 1))])
      else d
  }

  function EndResolveOf(d: Desk, f: Flight): Desk
    requires f.Resolving?
  {
    if f.seen.status != Pending then d
    else
      d.(queue := d.queue[f.id := Resolved(f.seen, f.ruling).state],
         rulings := if f.id in d.rulings then d.rulings else d.rulings[f.id := f.ruling])
  }

  function Take(d: Desk, step: Step): Desk
    requires CanStep(d, step)
  {
    match step
    case Enqueue(id, agent, action) => d.(queue := d.queue[id := Approval(agent, action, Pending, None)])
    case BeginResolve(c, id, ruling) => d.(flights := d.flights[c := Resolving(id, ruling, d.queue[id])])
    case EndResolve(c) => EndResolveOf(d.(flights := d.flights - {c}), d.flights[c])
    case BeginConsume(c, id, agent, action) => d.(flights := d.flights[c := Consuming(id, agent, action, d.queue[id])])
    case EndConsume(c, bySigner, hasKey) => EndConsumeOf(d.(flights := d.flights - {c}), d.flights[c], bySigner && hasKey)
    case SignOutright(agent, action, rules, usage, delegated, hasKey) =>
      if delegated && hasKey && Evaluate(rules, action, usage) == Allow then
        d.(signatures := d.signatures + [Signature(agent, action, None)])
      else d
  }

  // ---- one clearance, one signature -------------------------------------------------------

  predicate UsedUp(d: Desk, id: ApprovalId) {
    exists u :: 0 <= u < |d.uses| && d.uses[u].id == id
  }

  /** An approval's status follows from the first ruling made on it and from its redemption. */
  ghost predicate ApprovalOk(d: Desk, id: ApprovalId)
    requires id in d.queue
  {
    var a := d.queue[id];
    if id !in d.rulings then a.status == Pending && a.ruling == None && !UsedUp(d, id)
    else a.ruling == Some(d.rulings[id]) && a.status == if UsedUp(d, id) then Consumed else StatusOf(d.rulings[id])
  }

  /** No approval is redeemed twice, and each redemption matches the approval's agent, action and ruling. */
  ghost predicate UsesOk(d: Desk) {
    && (forall u, v | 0 <= u < v < |d.uses| :: d.uses[u].id != d.uses[v].id)
    && (forall u | 0 <= u < |d.uses| ::
          var use := d.uses[u];
          && use.id in d.queue && use.id in d.rulings && use.ruling == Some(d.rulings[use.id])
          && d.queue[use.id].agent == use.agent && d.queue[use.id].action == use.action)
  }

  /** Cleared signatures go one-to-one into redemptions that a supervisor had approved. */
  ghost predicate SignaturesOk(d: Desk) {
    && (forall i | 0 <= i < |d.signatures| && d.signatures[i].via.Some? ::
          var s := d.signatures[i];
          && s.via.value < |d.uses|
          && d.uses[s.via.value] == Use(d.uses[s.via.value].id, s.agent, s.action, Some(Approve)))
    && (forall i, j | 0 <= i < j < |d.signatures| && d.signatures[i].via.Some? && d.signatures[j].via.Some? ::
          d.signatures[i].via != d.signatures[j].via)
  }

  ghost predicate FlightOk(d: Desk, f: Flight) {
    && f.id in d.queue
    && f.seen.agent == d.queue[f.id].agent && f.seen.action == d.queue[f.id].action
    && (f.seen.status == Pending || (f.id in d.rulings && f.seen.ruling == Some(d.rulings[f.id])))
    && (f.seen.status == Consumed ==> UsedUp(d, f.id))
    && (f.seen.status == Pending <==> f.seen.ruling == None)
  }

  ghost predicate DeskOk(d: Desk) {
    && (forall id | id in d.queue :: ApprovalOk(d, id))
    && (forall id | id in d.rulings :: id in d.queue)
    && UsesOk(d) && SignaturesOk(d)
    && (forall c | c in d.flights :: FlightOk(d, d.flights[c]))
  }

  ghost predicate FirstRedemption(d: Desk, f: Flight) {
    DeskOk(d) && FlightOk(d, f) && f.Consuming? && Redeemed(f.seen, f.agent, f.action).Done? && !UsedUp(d, f.id)
  }

  lemma RedemptionUsesUp(d: Desk, f: Flight, signs: bool, id: ApprovalId)
    requires f.Consuming? && Redeemed(f.seen, f.agent, f.action).Done?
    ensures UsedUp(EndConsumeOf(d, f, signs), id) <==> UsedUp(d, id) || id == f.id
  {
    var d' := EndConsumeOf(d, f, signs);
    assert d'.uses[|d.uses|].id == f.id;
    assert forall u | 0 <= u < |d.uses| :: d'.uses[u] == d.uses[u];
  }

  lemma RedemptionKeepsApprovals(d: Desk, f: Flight, signs: bool)
    requires FirstRedemption(d, f)
    ensures var d' := EndConsumeOf(d, f, signs);
            && d'.queue.Keys == d.queue.Keys && d'.rulings == d.rulings
            && (forall id | id in d'.queue :: ApprovalOk(d', id) && d'.queue[id].agent == d.queue[id].agent && d'.queue[id].action == d.queue[id].action)
  {
    var d' := EndConsumeOf(d, f, signs);
    forall id | id in d'.queue
      ensures ApprovalOk(d', id) && d'.queue[id].agent == d.queue[id].agent && d'.queue[id].action == d.queue[id].action
    {
      assert ApprovalOk(d, id);
      RedemptionUsesUp(d, f, signs, id);
    }
  }

  lemma RedemptionKeepsUses(d: Desk, f: Flight, signs: bool)
    requires FirstRedemption(d, f)
    ensures UsesOk(EndConsumeOf(d, f, signs))
  {
    RedemptionKeepsApprovals(d, f, signs);
    RedeemedIff(f.seen, f.agent, f.action);
    assert ApprovalOk(d, f.id);
    var d' := EndConsumeOf(d, f, signs);
    assert UsesOk(d) && FlightOk(d, f);
    hide ApprovalOk, ActionMatches, DeskOk, SignaturesOk, FirstRedemption;
    assert forall u | 0 <= u < |d.uses| :: d'.uses[u] == d.uses[u] && d.uses[u].id != f.id;
  }

  lemma RedemptionKeepsSignatures(d: Desk, f: Flight, signs: bool)
    requires FirstRedemption(d, f)
    ensures SignaturesOk(EndConsumeOf(d, f, signs))
  {
    assert SignaturesOk(d);
    hide DeskOk, FlightOk, ActionMatches;
    var d' := EndConsumeOf(d, f, signs);
    assert forall u | 0 <= u < |d.uses| :: d'.uses[u] == d.uses[u];
  }

  lemma EndConsumeKeeps(d: Desk, f: Flight, signs: bool)
    requires FirstRedemption(d, f)
    ensures DeskOk(EndConsumeOf(d, f, signs))
  {
    var d' := EndConsumeOf(d, f, signs);
    RedemptionKeepsApprovals(d, f, signs);
    RedemptionKeepsUses(d, f, signs);
    RedemptionKeepsSignatures(d, f, signs);
    hide ApprovalOk, UsesOk, SignaturesOk, Redeemed;
    forall c | c in d'.flights ensures FlightOk(d', d'.flights[c]) {
      assert FlightOk(d, d.flights[c]);
      RedemptionUsesUp(d, f, signs, d.flights[c].id);
    }
  }

  /** Writing on the strength of a stale read: a redemption keeps the desk in order exactly when nobody
    else has redeemed the approval in the meantime. */
  lemma EndConsumeKeepsIff(d: Desk, step: Step)
    requires DeskOk(d) && CanStep(d, step) && step.EndConsume?
    ensures var f := d.flights[step.c];
            DeskOk(Take(d, step)) <==> (Redeemed(f.seen, f.agent, f.action).Done? ==> !UsedUp(d, f.id))
  {
    var f := d.flights[step.c];
    var d0 := d.(flights := d.flights - {step.c});
    WithoutFlight(d, step.c);
    assert UsedUp(d0, f.id) <==> UsedUp(d, f.id);
    hide Redeemed, FlightOk;
    if Redeemed(f.seen, f.agent, f.action).Done? {
      if UsedUp(d, f.id) {
        UsedTwice(d0, f, step.bySigner && step.hasKey);
      } else {
        hide DeskOk, EndConsumeOf;
        EndConsumeKeeps(d0, f, step.bySigner && step.hasKey);
      }
    }
  }

  lemma WithoutFlight(d: Desk, c: nat)
    requires DeskOk(d) && c in d.flights
    ensures var d0 := d.(flights := d.flights - {c}); DeskOk(d0) && FlightOk(d0, d.flights[c])
  {
    var d0 := d.(flights := d.flights - {c});
    assert forall id :: UsedUp(d0, id) <==> UsedUp(d, id);
    forall id | id in d0.queue ensures ApprovalOk(d0, id) {
      assert ApprovalOk(d, id);
    }
    forall e | e in d.flights ensures FlightOk(d0, d.flights[e]) {
      assert FlightOk(d, d.flights[e]);
    }
  }

  lemma UsedTwice(d: Desk, f: Flight, signs: bool)
    requires f.Consuming? && Redeemed(f.seen, f.agent, f.action).Done? && UsedUp(d, f.id)
    ensures !UsesOk(EndConsumeOf(d, f, signs))
  {
    var u :| 0 <= u < |d.uses| && d.uses[u].id == f.id;
    var d' := EndConsumeOf(d, f, signs);
    assert d'.uses[u].id == d'.uses[|d.uses|].id;
  }

  lemma EndResolveKeepsIff(d: Desk, step: Step)
    requires DeskOk(d) && CanStep(d, step) && step.EndResolve?
    ensures var f := d.flights[step.c];
            DeskOk(Take(d, step)) <==> (f.seen.status == Pending ==> d.queue[f.id].status in {Pending, StatusOf(f.ruling)})
  {
    var f := d.flights[step.c];
    var d' := Take(d, step);
    assert ApprovalOk(d, f.id);
    hide ActionMatches;
    assert forall id :: UsedUp(d', id) <==> UsedUp(d, id);
    if f.seen.status == Pending && d.queue[f.id].status !in {Pending, StatusOf(f.ruling)} {
      assert !ApprovalOk(d', f.id);
    } else {
      forall id | id in d'.queue ensures ApprovalOk(d', id) {
        assert ApprovalOk(d, id);
      }
      forall c | c in d'.flights ensures FlightOk(d', d'.flights[c]) {
        assert FlightOk(d, d.flights[c]);
      }
    }
  }

  lemma EnqueueKeeps(d: Desk, step: Step)
    requires DeskOk(d) && CanStep(d, step) && step.Enqueue?
    ensures DeskOk(Take(d, step))
  {
    var d' := Take(d, step);
    hide ActionMatches;
    assert forall u | 0 <= u < |d.uses| :: d.uses[u].id in d.queue;
    assert forall id :: UsedUp(d', id) <==> UsedUp(d, id);
    forall id | id in d'.queue ensures ApprovalOk(d', id) {
      if id in d.queue { assert ApprovalOk(d, id); }
    }
    forall c | c in d'.flights ensures FlightOk(d', d'.flights[c]) {
      assert FlightOk(d, d.flights[c]);
    }
  }

  lemma BeginKeeps(d: Desk, step: Step)
    requires DeskOk(d) && CanStep(d, step) && (step.BeginResolve? || step.BeginConsume?)
    ensures DeskOk(Take(d, step))
  {
    var d' := Take(d, step);
    hide ActionMatches;
    assert forall id :: UsedUp(d', id) <==> UsedUp(d, id);
    assert ApprovalOk(d, step.id);
    forall id | id in d'.queue ensures ApprovalOk(d', id) {
      assert ApprovalOk(d, id);
    }
    forall c | c in d'.flights ensures FlightOk(d', d'.flights[c]) {
      if c in d.flights { assert FlightOk(d, d.flights[c]); }
    }
  }

  lemma SignKeeps(d: Desk, step: Step)
    requires DeskOk(d) && CanStep(d, step) && step.SignOutright?
    ensures DeskOk(Take(d, step))
  {
    var d' := Take(d, step);
    hide ActionMatches, Evaluate;
    assert forall id :: UsedUp(d', id) <==> UsedUp(d, id);
    forall id | id in d'.queue ensures ApprovalOk(d', id) {
      assert ApprovalOk(d, id);
    }
    forall c | c in d'.flights ensures FlightOk(d', d'.flights[c]) {
      assert FlightOk(d, d.flights[c]);
    }
  }

  /** What a call finds when it comes to write: the approval it is about to use up has not been used up
    by now, and the one it is about to rule on is still pending or ruled the same way. */
  predicate Safe(d: Desk, step: Step) {
    match step
    case EndConsume(c, _, _) =>
      c in d.flights && d.flights[c].Consuming? ==>
        var f := d.flights[c];
        f.id in d.queue && (Redeemed(f.seen, f.agent, f.action).Done? ==> d.queue[f.id].status != Consumed)
    case EndResolve(c) =>
      c in d.flights && d.flights[c].Resolving? ==>
        var f := d.flights[c];
        f.id in d.queue && (f.seen.status == Pending ==> d.queue[f.id].status in {Pending, StatusOf(f.ruling)})
    case _ => true
  }

  lemma ConsumedIsUsedUp(d: Desk, id: ApprovalId)
    requires DeskOk(d) && id in d.queue
    ensures d.queue[id].status == Consumed <==> UsedUp(d, id)
  {
    assert ApprovalOk(d, id);
  }

  /** From a desk in order, a step leaves it in order if and only if it is safe. */
  lemma StepKeepsIff(d: Desk, step: Step)
    requires DeskOk(d) && CanStep(d, step)
    ensures DeskOk(Take(d, step)) <==> Safe(d, step)
  {
    match step
    case EndConsume(c, _, _) =>
      assert FlightOk(d, d.flights[c]);
      ConsumedIsUsedUp(d, d.flights[c].id);
      EndConsumeKeepsIff(d, step);
      hide DeskOk, Take, UsedUp, Redeemed;
    case EndResolve(c) =>
      assert FlightOk(d, d.flights[c]);
      EndResolveKeepsIff(d, step);
      hide DeskOk, Take;
    case Enqueue(_, _, _) => EnqueueKeeps(d, step);
    case SignOutright(_, _, _, _, _, _) => SignKeeps(d, step);
    case BeginResolve(_, _, _) => BeginKeeps(d, step);
    case BeginConsume(_, _, _, _) => BeginKeeps(d, step);
  }

  const NO_DESK := Desk(map[], map[], map[], [], [])

  ghost predicate IsRun(trace: seq<Desk>, steps: seq<Step>) {
    && |trace| == |steps| + 1 && trace[0] == NO_DESK
    && forall n | 0 <= n < |steps| :: CanStep(trace[n], steps[n]) && trace[n + 1] == Take(trace[n], steps[n])
  }

  ghost predicate OrderSoFar(trace: seq<Desk>, n: nat)
    requires n < |trace|
  {
    forall m | 0 <= m <= n :: DeskOk(trace[m])
  }

  ghost predicate SafeSoFar(trace: seq<Desk>, steps: seq<Step>, n: nat)
    requires n <= |steps| < |trace|
  {
    forall m | 0 <= m < n :: Safe(trace[m], steps[m])
  }

  lemma RunStep(trace: seq<Desk>, steps: seq<Step>, n: nat)
    requires IsRun(trace, steps) && n < |steps|
    ensures CanStep(trace[n], steps[n]) && trace[n + 1] == Take(trace[n], steps[n])
  {
    hide Take, CanStep;
  }

  lemma SoFarStep(trace: seq<Desk>, steps: seq<Step>, n: nat)
    requires n < |steps| < |trace|
    ensures OrderSoFar(trace, n + 1) <==> OrderSoFar(trace, n) && DeskOk(trace[n + 1])
    ensures SafeSoFar(trace, steps, n + 1) <==> SafeSoFar(trace, steps, n) && Safe(trace[n], steps[n])
    ensures OrderSoFar(trace, n) ==> DeskOk(trace[n])
  {
    hide DeskOk, Safe;
  }

  lemma StartsInOrder(trace: seq<Desk>, steps: seq<Step>)
    requires IsRun(trace, steps)
    ensures OrderSoFar(trace, 0) && SafeSoFar(trace, steps, 0)
  {
    hide Take, CanStep, Safe;
  }

  /** In every run, however resolutions and redemptions overlap: the desk is in order all along if and
    only if every call that came to write found its approval unused, or unruled or ruled the same. */
  lemma {:induction false} OrderIffSafe(trace: seq<Desk>, steps: seq<Step>, n: nat)
    requires IsRun(trace, steps) && n < |trace|
    ensures n <= |steps| < |trace|
    ensures OrderSoFar(trace, n) <==> SafeSoFar(trace, steps, n)
    decreases n
  {
    RunShape(trace, steps);
    hide *;
    if n == 0 {
      StartsInOrder(trace, steps);
    } else {
      OrderIffSafe(trace, steps, n - 1);
      RunStep(trace, steps, n - 1);
      SoFarStep(trace, steps, n - 1);
      if DeskOk(trace[n - 1]) { StepKeepsIff(trace[n - 1], steps[n - 1]); }
    }
  }

  lemma RunShape(trace: seq<Desk>, steps: seq<Step>)
    requires IsRun(trace, steps)
    ensures |trace| == |steps| + 1
  {
    hide Take, CanStep;
  }

  lemma SafeRunInOrder(trace: seq<Desk>, steps: seq<Step>, m: nat, n: nat)
    requires IsRun(trace, steps) && m <= n < |trace| == |steps| + 1 && SafeSoFar(trace, steps, n)
    ensures DeskOk(trace[m])
  {
    OrderIffSafe(trace, steps, n);
    hide DeskOk, Safe, IsRun;
  }

  /** No two calls in flight concern the same approval. */
  predicate Uncrowded(d: Desk, step: Step) {
    step.BeginResolve? || step.BeginConsume? ==> forall c | c in d.flights :: d.flights[c].id != step.id
  }

  /** Every call in flight has read what is still there. */
  ghost predicate Current(d: Desk) {
    && (forall c | c in d.flights :: d.flights[c].id in d.queue && d.flights[c].seen == d.queue[d.flights[c].id])
    && (forall b, c | b in d.flights && c in d.flights && b != c :: d.flights[b].id != d.flights[c].id)
  }

  lemma UncrowdedStaysCurrent(d: Desk, step: Step)
    requires Current(d) && CanStep(d, step) && Uncrowded(d, step)
    ensures Current(Take(d, step))
  {
    hide Evaluate, ActionMatches;
  }

  lemma CurrentIsSafe(d: Desk, step: Step)
    requires Current(d) && CanStep(d, step)
    ensures Safe(d, step)
  {
    hide ActionMatches;
  }

  lemma {:induction false} UncrowdedStaysSafe(trace: seq<Desk>, steps: seq<Step>, n: nat)
    requires IsRun(trace, steps) && n < |trace| == |steps| + 1 && forall m | 0 <= m < n :: Uncrowded(trace[m], steps[m])
    ensures Current(trace[n]) && SafeSoFar(trace, steps, n)
    decreases n
  {
    if n > 0 {
      hide Current, Take, Safe, CanStep;
      UncrowdedStaysSafe(trace, steps, n - 1);
      RunStep(trace, steps, n - 1);
      CurrentIsSafe(trace[n - 1], steps[n - 1]);
      UncrowdedStaysCurrent(trace[n - 1], steps[n - 1]);
      hide Uncrowded, SafeSoFar, IsRun;
      SoFarStep(trace, steps, n - 1);
    }
  }

  /** In every run that is safe so far: two different signatures that needed clearance used different
    approvals, each ruled for by a supervisor, for that agent and action. */
  lemma OneSignaturePerApproval(trace: seq<Desk>, steps: seq<Step>, n: nat, i: nat, j: nat)
    requires IsRun(trace, steps) && n < |trace| == |steps| + 1 && SafeSoFar(trace, steps, n)
    requires i < |trace[n].signatures| && j < |trace[n].signatures| && trace[n].signatures[i].via.Some? && trace[n].signatures[j].via.Some?
    ensures var d := trace[n]; var s := d.signatures[i];
            && s.via.value < |d.uses|
            && var id := d.uses[s.via.value].id;
               && id in d.queue && id in d.rulings && d.rulings[id] == Approve && d.queue[id].status == Consumed
               && d.queue[id].agent == s.agent && d.queue[id].action == s.action && EnqueuedBy(steps, n, id, s.agent, s.action)
    ensures var d := trace[n];
            d.signatures[j].via.value < |d.uses|
            && (i != j ==> d.uses[d.signatures[i].via.value].id != d.uses[d.signatures[j].via.value].id)
  {
    SafeRunInOrder(trace, steps, n, n);
    OneSignatureOnDesk(trace[n], i, j);
    RunBound(trace, steps, n);
    hide IsRun, SafeSoFar, DeskOk, Bound, EnqueuedBy;
  }

  lemma OneSignatureOnDesk(d: Desk, i: nat, j: nat)
    requires DeskOk(d) && i < |d.signatures| && j < |d.signatures| && d.signatures[i].via.Some? && d.signatures[j].via.Some?
    ensures var s := d.signatures[i];
            && s.via.value < |d.uses|
            && var id := d.uses[s.via.value].id;
               && id in d.queue && id in d.rulings && d.rulings[id] == Approve && d.queue[id].status == Consumed
               && d.queue[id].agent == s.agent && d.queue[id].action == s.action
    ensures d.signatures[j].via.value < |d.uses|
            && (i != j ==> d.uses[d.signatures[i].via.value].id != d.uses[d.signatures[j].via.value].id)
  {
    var u := d.signatures[i].via.value;
    assert ApprovalOk(d, d.uses[u].id);
    assert i < j ==> d.signatures[i].via != d.signatures[j].via;
    assert j < i ==> d.signatures[j].via != d.signatures[i].via;
  }

  /** The approval is there and carries this ruling. */
  ghost predicate RuledOn(d: Desk, id: ApprovalId, ruling: Ruling) {
    id in d.queue && d.queue[id].ruling == Some(ruling)
  }

  lemma RulingsGrow(d: Desk, step: Step)
    requires CanStep(d, step)
    ensures forall id | id in d.rulings :: id in Take(d, step).rulings && Take(d, step).rulings[id] == d.rulings[id]
  {
    hide Redeemed, Resolved, Evaluate;
  }

  /** In every run that is safe so far, a ruling once made never changes. */
  lemma {:induction false} RulingsLast(trace: seq<Desk>, steps: seq<Step>, m: nat, n: nat, id: ApprovalId, ruling: Ruling)
    requires IsRun(trace, steps) && m <= n < |trace| == |steps| + 1 && SafeSoFar(trace, steps, n)
    requires RuledOn(trace[m], id, ruling)
    ensures RuledOn(trace[n], id, ruling)
    decreases n
  {
    hide *;
    if m < n {
      SafeRunInOrder(trace, steps, n - 1, n);
      SafeRunInOrder(trace, steps, n, n);
      SoFarStep(trace, steps, n - 1);
      RulingsLast(trace, steps, m, n - 1, id, ruling);
      RunStep(trace, steps, n - 1);
      RulingsGrow(trace[n - 1], steps[n - 1]);
      RulingKept(trace[n - 1], trace[n], id, ruling);
    }
  }

  lemma RulingKept(d: Desk, d': Desk, id: ApprovalId, ruling: Ruling)
    requires DeskOk(d) && DeskOk(d') && RuledOn(d, id, ruling)
    requires forall j | j in d.rulings :: j in d'.rulings && d'.rulings[j] == d.rulings[j]
    ensures RuledOn(d', id, ruling)
  {
    assert ApprovalOk(d, id);
    assert ApprovalOk(d', id);
  }

  // ---- what was signed --------------------------------------------------------------------

  /** Everything in flight, used up or signed for is for the agent and the action of its approval. */
  ghost predicate Bound(d: Desk) {
    && (forall c | c in d.flights :: SeenAs(d, d.flights[c]))
    && (forall u | 0 <= u < |d.uses| :: UsedAs(d, d.uses[u]))
    && (forall i | 0 <= i < |d.signatures| && d.signatures[i].via.Some? :: SignedAs(d, d.signatures[i]))
  }

  ghost predicate SeenAs(d: Desk, f: Flight) {
    f.id in d.queue && f.seen.agent == d.queue[f.id].agent && f.seen.action == d.queue[f.id].action
  }

  ghost predicate UsedAs(d: Desk, use: Use) {
    use.id in d.queue && use.agent == d.queue[use.id].agent && use.action == d.queue[use.id].action
  }

  /** The signature's redemption found an approval that a supervisor had approved for this agent and action. */
  ghost predicate SignedAs(d: Desk, s: Signature)
    requires s.via.Some?
  {
    && s.via.value < |d.uses|
    && var use := d.uses[s.via.value]; UsedAs(d, use) && use.agent == s.agent && use.action == s.action && use.ruling == Some(Approve)
  }

  /** Approvals are added and change their status, and the records of uses and signatures grow. */
  ghost predicate Grows(d: Desk, d': Desk) {
    && d.uses <= d'.uses
    && forall id | id in d.queue :: id in d'.queue && d'.queue[id].agent == d.queue[id].agent && d'.queue[id].action == d.queue[id].action
  }

  lemma RedemptionBound(d: Desk, f: Flight, signs: bool)
    requires Bound(d) && f.Consuming? && SeenAs(d, f)
    ensures Bound(EndConsumeOf(d, f, signs)) && Grows(d, EndConsumeOf(d, f, signs))
    ensures EndConsumeOf(d, f, signs).queue.Keys == d.queue.Keys
  {
    RedeemedIff(f.seen, f.agent, f.action);
    hide Redeemed;
    var d' := EndConsumeOf(d, f, signs);
    forall c | c in d'.flights ensures SeenAs(d', d'.flights[c]) { assert SeenAs(d, d.flights[c]); }
    forall u | 0 <= u < |d'.uses| ensures UsedAs(d', d'.uses[u]) {
      if u < |d.uses| { assert UsedAs(d, d.uses[u]); }
    }
    forall i | 0 <= i < |d'.signatures| && d'.signatures[i].via.Some? ensures SignedAs(d', d'.signatures[i]) {
      if i < |d.signatures| { assert SignedAs(d, d.signatures[i]); }
    }
  }

  lemma StepBound(d: Desk, step: Step)
    requires Bound(d) && CanStep(d, step)
    ensures Bound(Take(d, step)) && Grows(d, Take(d, step))
    ensures forall id | id in Take(d, step).queue && id !in d.queue ::
              step == Enqueue(id, Take(d, step).queue[id].agent, Take(d, step).queue[id].action)
  {
    if step.EndConsume? {
      var d0 := d.(flights := d.flights - {step.c});
      assert SeenAs(d, d.flights[step.c]);
      assert Bound(d0) by {
        forall c | c in d0.flights ensures SeenAs(d0, d0.flights[c]) { assert SeenAs(d, d.flights[c]); }
        forall u | 0 <= u < |d0.uses| ensures UsedAs(d0, d0.uses[u]) { assert UsedAs(d, d.uses[u]); }
        forall i | 0 <= i < |d0.signatures| && d0.signatures[i].via.Some? ensures SignedAs(d0, d0.signatures[i]) {
          assert SignedAs(d, d.signatures[i]);
        }
      }
      RedemptionBound(d0, d.flights[step.c], step.bySigner && step.hasKey);
      hide EndConsumeOf, Bound;
    } else {
      var d' := Take(d, step);
      if step.EndResolve? {
        assert SeenAs(d, d.flights[step.c]);
        ResolvedIff(d.flights[step.c].seen, d.flights[step.c].ruling);
      }
      hide Evaluate, Resolved;
      forall c | c in d'.flights ensures SeenAs(d', d'.flights[c]) {
        if c in d.flights { assert SeenAs(d, d.flights[c]); }
      }
      forall u | 0 <= u < |d'.uses| ensures UsedAs(d', d'.uses[u]) { assert UsedAs(d, d.uses[u]); }
      forall i | 0 <= i < |d'.signatures| && d'.signatures[i].via.Some? ensures SignedAs(d', d'.signatures[i]) {
        if i < |d.signatures| { assert SignedAs(d, d.signatures[i]); }
      }
    }
  }

  ghost predicate EnqueuedBy(steps: seq<Step>, n: nat, id: ApprovalId, agent: string, action: Action) {
    exists m | 0 <= m < n <= |steps| :: steps[m] == Enqueue(id, agent, action)
  }

  lemma {:induction false} RunBound(trace: seq<Desk>, steps: seq<Step>, n: nat)
    requires IsRun(trace, steps) && n < |trace|
    ensures Bound(trace[n]) && forall id | id in trace[n].queue :: EnqueuedBy(steps, n, id, trace[n].queue[id].agent, trace[n].queue[id].action)
    decreases n
  {
    RunShape(trace, steps);
    if n > 0 {
      RunBound(trace, steps, n - 1);
      RunStep(trace, steps, n - 1);
      var d, d' := trace[n - 1], trace[n];
      hide Bound, Take, CanStep, IsRun;
      StepBound(d, steps[n - 1]);
      forall id | id in d'.queue ensures EnqueuedBy(steps, n, id, d'.queue[id].agent, d'.queue[id].action) {
        if id in d.queue { assert EnqueuedBy(steps, n - 1, id, d.queue[id].agent, d.queue[id].action); }
      }
    }
  }

  /** The redemption that step m of the run ended was the signer's, and it had found its key. */
  ghost predicate RedeemedBySigner(steps: seq<Step>, m: nat) {
    m < |steps| && steps[m].EndConsume? && steps[m].bySigner && steps[m].hasKey
  }

  lemma {:induction false} ClearedBySigner(trace: seq<Desk>, steps: seq<Step>, n: nat, i: nat)
    requires IsRun(trace, steps) && n < |trace| && i < |trace[n].signatures| && trace[n].signatures[i].via.Some?
    ensures exists m | 0 <= m < n :: RedeemedBySigner(steps, m)
    decreases n
  {
    RunShape(trace, steps);
    if n > 0 {
      RunStep(trace, steps, n - 1);
      hide IsRun, Evaluate, Redeemed, Resolved;
      if i < |trace[n - 1].signatures| {
        ClearedBySigner(trace, steps, n - 1, i);
      } else {
        assert RedeemedBySigner(steps, n - 1);
      }
    }
  }

  /** In every run, safe or not: a cleared signature is for the agent and exactly the action that were
    enqueued under the approval it redeemed, a supervisor had approved it, and the signer redeemed it. */
  lemma ClearedAsEnqueued(trace: seq<Desk>, steps: seq<Step>, n: nat, i: nat)
    requires IsRun(trace, steps) && n < |trace| && i < |trace[n].signatures| && trace[n].signatures[i].via.Some?
    ensures var d := trace[n]; var s := d.signatures[i];
            && s.via.value < |d.uses| && d.uses[s.via.value].ruling == Some(Approve)
            && EnqueuedBy(steps, n, d.uses[s.via.value].id, s.agent, s.action)
    ensures exists m | 0 <= m < n :: RedeemedBySigner(steps, m)
  {
    RunBound(trace, steps, n);
    ClearedBySigner(trace, steps, n, i);
    assert SignedAs(trace[n], trace[n].signatures[i]);
    hide IsRun, EnqueuedBy;
  }

  /** The step that made a signature without a clearance: the signer, with a delegation that allowed it. */
  ghost predicate AllowedBy(steps: seq<Step>, m: nat, s: Signature) {
    && m < |steps| && steps[m].SignOutright? && steps[m].agent == s.agent && steps[m].action == s.action
    && steps[m].delegated && steps[m].hasKey && Evaluate(steps[m].rules, s.action, steps[m].usage) == Allow
  }

  lemma {:induction false} OutrightAllowed(trace: seq<Desk>, steps: seq<Step>, n: nat, i: nat)
    requires IsRun(trace, steps) && n < |trace| && i < |trace[n].signatures| && trace[n].signatures[i].via.None?
    ensures exists m | 0 <= m < n :: AllowedBy(steps, m, trace[n].signatures[i])
    decreases n
  {
    RunShape(trace, steps);
    if n > 0 {
      RunStep(trace, steps, n - 1);
      hide IsRun, Evaluate, Redeemed, Resolved;
      if i < |trace[n - 1].signatures| {
        OutrightAllowed(trace, steps, n - 1, i);
        assert trace[n].signatures[i] == trace[n - 1].signatures[i];
      } else {
        assert AllowedBy(steps, n - 1, trace[n].signatures[i]);
      }
    }
  }

  /** In every run: a spend, tip or escrow that was signed without a clearance was within its delegation
    when it was signed, and in the threshold's currency not above the threshold. */
  lemma OutrightWithinThreshold(trace: seq<Desk>, steps: seq<Step>, n: nat, i: nat)
    requires IsRun(trace, steps) && n < |trace| && i < |trace[n].signatures| && trace[n].signatures[i].via.None?
    requires trace[n].signatures[i].action.kind in {Spend, Tip, Escrow}
    ensures exists m | 0 <= m < n <= |steps| ::
              var a := trace[n].signatures[i].action;
              && steps[m].SignOutright? && steps[m].agent == trace[n].signatures[i].agent && steps[m].action == a && a.amount.Some?
              && var r := steps[m].rules;
                 && (a.amount.value.currency == r.approvalOver.currency ==> a.amount.value.amount <= r.approvalOver.amount)
                 && if a.kind == Escrow then Committable(r, a) else Payable(r, a, steps[m].usage)
  {
    RunShape(trace, steps);
    OutrightAllowed(trace, steps, n, i);
    var a := trace[n].signatures[i].action;
    var m :| 0 <= m < n && AllowedBy(steps, m, trace[n].signatures[i]);
    if a.kind == Escrow {
      EscrowDecided(steps[m].rules, a, steps[m].usage);
    } else {
      SpendDecided(steps[m].rules, a, steps[m].usage);
    }
    hide Evaluate, IsRun, Listed;
  }

  // ---- runs that are not safe -------------------------------------------------------------

  /** Two overlapping resolutions that disagree: both read the approval pending, and the second ruling
    overwrites the first. */
  lemma OverlappingRulingsFlip(id: ApprovalId, agent: string, action: Action) returns (trace: seq<Desk>)
    ensures IsRun(trace, [Enqueue(id, agent, action), BeginResolve(0, id, Approve), BeginResolve(1, id, Refuse), EndResolve(0), EndResolve(1)])
    ensures RuledOn(trace[4], id, Approve) && RuledOn(trace[5], id, Refuse)
  {
    hide Evaluate, ActionMatches, Redeemed;
    var d1 := Take(NO_DESK, Enqueue(id, agent, action));
    var d2 := Take(d1, BeginResolve(0, id, Approve));
    var d3 := Take(d2, BeginResolve(1, id, Refuse));
    var d4 := Take(d3, EndResolve(0));
    trace := [NO_DESK, d1, d2, d3, d4, Take(d4, EndResolve(1))];
  }

  lemma SignsWhileRuling(id: ApprovalId, agent: string, action: Action) returns (trace: seq<Desk>)
    ensures IsRun(trace, [Enqueue(id, agent, action), BeginResolve(0, id, Approve), BeginResolve(1, id, Approve), EndResolve(0),
                          BeginConsume(2, id, agent, action), EndConsume(2, true, true)])
    ensures |trace| == 7 && trace[6].signatures == [Signature(agent, action, Some(0))] && trace[6].uses == [Use(id, agent, action, Some(Approve))]
    ensures id in trace[6].queue && trace[6].flights == map[1 := Resolving(id, Approve, Approval(agent, action, Pending, None))]
  {
    hide Evaluate;
    var d1 := Take(NO_DESK, Enqueue(id, agent, action));
    var d2 := Take(d1, BeginResolve(0, id, Approve));
    var d3 := Take(d2, BeginResolve(1, id, Approve));
    var d4 := Take(d3, EndResolve(0));
    var a := Approval(agent, action, Approved, Some(Approve));
    assert ActionMatches(action, action);
    hide ActionMatches;
    assert Redeemed(a, agent, action) == Done(a.(status := Consumed));
    assert d4.queue[id] == a && d4.flights == map[1 := Resolving(id, Approve, Approval(agent, action, Pending, None))];
    var d5 := Take(d4, BeginConsume(2, id, agent, action));
    var d6 := Take(d5, EndConsume(2, true, true));
    assert d6.flights == d4.flights;
    assert CanStep(NO_DESK, Enqueue(id, agent, action)) && CanStep(d1, BeginResolve(0, id, Approve));
    hide Take, CanStep, Redeemed, Resolved;
    trace := [NO_DESK, d1, d2, d3, d4, d5, d6];
  }

  /** Two resolutions that agree are enough: the second one brings the approval back after it was used
    up, and it clears a second signature although the redemptions do not overlap. */
  lemma LateRulingSignsTwice(id: ApprovalId, agent: string, action: Action) returns (trace: seq<Desk>)
    ensures IsRun(trace, [Enqueue(id, agent, action), BeginResolve(0, id, Approve), BeginResolve(1, id, Approve), EndResolve(0),
                          BeginConsume(2, id, agent, action), EndConsume(2, true, true), EndResolve(1),
                          BeginConsume(3, id, agent, action), EndConsume(3, true, true)])
    ensures trace[9].signatures == [Signature(agent, action, Some(0)), Signature(agent, action, Some(1))]
    ensures |trace[9].uses| == 2 && trace[9].uses[0].id == id == trace[9].uses[1].id
  {
    hide Evaluate, IsRun;
    var first := SignsWhileRuling(id, agent, action);
    var steps := [Enqueue(id, agent, action), BeginResolve(0, id, Approve), BeginResolve(1, id, Approve), EndResolve(0),
                  BeginConsume(2, id, agent, action), EndConsume(2, true, true)];
    var a := Approval(agent, action, Approved, Some(Approve));
    assert ActionMatches(action, action);
    hide ActionMatches;
    var d7 := Take(first[6], EndResolve(1));
    assert d7.queue[id] == a && d7.flights == map[];
    var d8 := Take(d7, BeginConsume(3, id, agent, action));
    assert d8.flights == map[3 := Consuming(id, agent, action, a)];
    var d9 := Take(d8, EndConsume(3, true, true));
    assert d9.signatures == [Signature(agent, action, Some(0)), Signature(agent, action, Some(1))];
    assert CanStep(first[6], EndResolve(1)) && CanStep(d7, BeginConsume(3, id, agent, action)) && CanStep(d8, EndConsume(3, true, true));
    hide Take, CanStep, Redeemed, Resolved;
    RunExtended(first, steps, EndResolve(1));
    RunExtended(first + [d7], steps + [EndResolve(1)], BeginConsume(3, id, agent, action));
    RunExtended(first + [d7] + [d8], steps + [EndResolve(1)] + [BeginConsume(3, id, agent, action)], EndConsume(3, true, true));
    trace := first + [d7] + [d8] + [d9];
    assert steps + [EndResolve(1)] + [BeginConsume(3, id, agent, action)] + [EndConsume(3, true, true)]
        == [Enqueue(id, agent, action), BeginResolve(0, id, Approve), BeginResolve(1, id, Approve), EndResolve(0),
            BeginConsume(2, id, agent, action), EndConsume(2, true, true), EndResolve(1),
            BeginConsume(3, id, agent, action), EndConsume(3, true, true)];
  }

  lemma RunExtended(trace: seq<Desk>, steps: seq<Step>, step: Step)
    requires IsRun(trace, steps) && CanStep(trace[|steps|], step)
    ensures IsRun(trace + [Take(trace[|steps|], step)], steps + [step])
  {
    hide CanStep, Take;
    var trace', steps' := trace + [Take(trace[|steps|], step)], steps + [step];
    forall n | 0 <= n < |steps'| ensures CanStep(trace'[n], steps'[n]) && trace'[n + 1] == Take(trace'[n], steps'[n]) {
      if n < |steps| { assert trace'[n] == trace[n] && trace'[n + 1] == trace[n + 1] && steps'[n] == steps[n]; }
    }
  }

  /** Two overlapping redemptions of one clearance, from the empty desk, both sign. */
  lemma RedemptionsRace(id: ApprovalId, agent: string, action: Action) returns (trace: seq<Desk>)
    ensures IsRun(trace, [Enqueue(id, agent, action), BeginResolve(0, id, Approve), EndResolve(0),
                          BeginConsume(1, id, agent, action), BeginConsume(2, id, agent, action), EndConsume(1, true, true), EndConsume(2, true, true)])
    ensures trace[7].signatures == [Signature(agent, action, Some(0)), Signature(agent, action, Some(1))]
    ensures |trace[7].uses| == 2 && trace[7].uses[0].id == id == trace[7].uses[1].id
  {
    hide Evaluate;
    var d1 := Take(NO_DESK, Enqueue(id, agent, action));
    var d2 := Take(d1, BeginResolve(0, id, Approve));
    var d3 := Take(d2, EndResolve(0));
    var a := Approval(agent, action, Approved, Some(Approve));
    assert ActionMatches(action, action);
    hide ActionMatches;
    assert Redeemed(a, agent, action) == Done(a.(status := Consumed));
    assert d3.queue[id] == a && d3.flights == map[];
    var d4 := Take(d3, BeginConsume(1, id, agent, action));
    var d5 := Take(d4, BeginConsume(2, id, agent, action));
    var d6 := Take(d5, EndConsume(1, true, true));
    trace := [NO_DESK, d1, d2, d3, d4, d5, d6, Take(d6, EndConsume(2, true, true))];
  }

  /** Two overlapping redemptions of one clearance, on any desk, both sign. */
  lemma OverlappingRedemptionsSignTwice(d: Desk, id: ApprovalId, b: nat, c: nat) returns (d': Desk)
    requires DeskOk(d) && id in d.queue && d.queue[id].status == Approved && b != c && b !in d.flights && c !in d.flights
    ensures var a := d.queue[id];
            var d1 := Take(d, BeginConsume(b, id, a.agent, a.action));
            CanStep(d1, BeginConsume(c, id, a.agent, a.action))
            && var d2 := Take(d1, BeginConsume(c, id, a.agent, a.action));
               CanStep(d2, EndConsume(b, true, true))
               && var d3 := Take(d2, EndConsume(b, true, true));
                  CanStep(d3, EndConsume(c, true, true)) && d' == Take(d3, EndConsume(c, true, true))
    ensures var a, n := d.queue[id], |d.uses|;
            && d'.signatures == d.signatures + [Signature(a.agent, a.action, Some(n)), Signature(a.agent, a.action, Some(n + 1))]
            && |d'.uses| == n + 2 && d'.uses[n].id == id == d'.uses[n + 1].id
  {
    assert ApprovalOk(d, id);
    hide Evaluate, DeskOk, UsesOk, SignaturesOk, FlightOk;
    var a := d.queue[id];
    assert Redeemed(a, a.agent, a.action) == Done(a.(status := Consumed));
    var d1 := Take(d, BeginConsume(b, id, a.agent, a.action));
    var d2 := Take(d1, BeginConsume(c, id, a.agent, a.action));
    var d3 := Take(d2, EndConsume(b, true, true));
    d' := Take(d3, EndConsume(c, true, true));
  }
}
