/** When each wallet call succeeds, what error it throws otherwise, and what it does to every balance and
  hold, in terms of the balances a caller sees. */
module WalletOutcomes {
  import opened Outcomes
  import opened Wallet

  /** Between the two states `x` came to what `k` has available, and nothing else became available. */
  ghost predicate Receives(w: State, w': State, k: Key, x: real) {
    forall j :: Available(w', j) == Available(w, j) + if j == k then x else 0.0
  }

  /** Likewise for what `k` holds. */
  ghost predicate Locks(w: State, w': State, k: Key, x: real) {
    forall j :: Held(w', j) == Held(w, j) + if j == k then x else 0.0
  }

  ghost predicate SameMoney(w: State, w': State) {
    (forall j :: Available(w', j) == Available(w, j) && Held(w', j) == Held(w, j)) && w'.holds == w.holds
  }

  /** A credit succeeds exactly on a positive amount and adds it to that wallet. */
  lemma CreditOutcome(w: State, k: Key, amount: real)
    ensures var o := Credit(w, k, amount);
            && (o.Done? <==> amount > 0.0)
            && (o.Done? ==> Receives(w, o.state, k, amount) && Locks(w, o.state, k, 0.0) && o.state.holds == w.holds)
            && (o.Thrown? ==> SameMoney(w, o.state) && o.error == Invalid)
  {
  }

  /** A debit succeeds exactly on a positive amount up to the whole balance, and takes it. */
  lemma DebitOutcome(w: State, k: Key, amount: real)
    ensures var o := Debit(w, k, amount);
            && (o.Done? <==> 0.0 < amount <= Available(w, k))
            && (o.Done? ==> Receives(w, o.state, k, -amount) && Locks(w, o.state, k, 0.0) && o.state.holds == w.holds)
            && (o.Thrown? ==> SameMoney(w, o.state) && o.error == if amount <= 0.0 then Invalid else Insufficient)
  {
  }

  /** A hold can be taken exactly on a positive amount up to the whole balance. */
  lemma HoldOutcome(w: State, k: Key, amount: real, ref: Ref)
    ensures var o := TakeHold(w, k, amount, ref);
            && (o.Done? <==> 0.0 < amount <= Available(w, k))
            && (o.Done? ==> Receives(w, o.state, k, -amount) && Locks(w, o.state, k, amount)
                            && o.state.holds == w.holds + [Hold(k.did, k.currency, amount, ref, Active)])
            && (o.Thrown? ==> SameMoney(w, o.state) && o.error == if amount <= 0.0 then Invalid else Insufficient)
  {
  }

  /** What a caller can check before it settles a hold. */
  predicate Settleable(w: State, id: nat) {
    id < |w.holds| && w.holds[id].state == Active
  }

  /** A release succeeds exactly on an active hold and gives its owner the amount back. */
  lemma ReleaseOutcome(w: State, id: nat)
    ensures var o := Release(w, id);
            && (o.Done? <==> Settleable(w, id))
            && (o.Done? ==>
                  var h := w.holds[id]; var k := Key(h.owner, h.currency);
                  Receives(w, o.state, k, h.amount) && Locks(w, o.state, k, -h.amount) && o.state.holds == w.holds[id := h.(state := Released)])
            && (o.Thrown? ==> o.state == w && o.error == if id < |w.holds| then Conflict else NotFound)
  {
    hide SetHold, AddAvailable, AddHeld;
  }

  /** A capture succeeds exactly on an active hold and pays all of it to the recipient. */
  lemma CaptureOutcome(w: State, id: nat, to: Did)
    ensures var o := Capture(w, id, to);
            && (o.Done? <==> Settleable(w, id))
            && (o.Done? ==>
                  var h := w.holds[id];
                  && Receives(w, o.state, Key(to, h.currency), h.amount) && Locks(w, o.state, Key(h.owner, h.currency), -h.amount)
                  && o.state.holds == w.holds[id := h.(state := Captured)])
            && (o.Thrown? ==> o.state == w && o.error == if id < |w.holds| then Conflict else NotFound)
  {
    hide SetHold, AddAvailable, AddHeld;
  }

  /** A forfeit succeeds exactly on an active hold with a fraction in [0, 1]; what is not burned goes to
    the recipient, if there is one. */
  lemma ForfeitOutcome(w: State, id: nat, split: Split)
    requires Inv(w)
    ensures var o := Forfeit(w, id, split);
            && (o.Done? <==> Settleable(w, id) && (split.ToRecipient? ==> 0.0 <= split.burnFraction <= 1.0))
            && (o.Done? ==>
                  var h := w.holds[id];
                  && (match split
                      case BurnAll => forall j :: Available(o.state, j) == Available(w, j)
                      case ToRecipient(to, f) => Receives(w, o.state, Key(to, h.currency), h.amount - h.amount * f))
                  && Locks(w, o.state, Key(h.owner, h.currency), -h.amount) && o.state.holds == w.holds[id := h.(state := Forfeited)])
            && (o.Thrown? ==> o.state == w
                              && o.error == if id >= |w.holds| then NotFound else if w.holds[id].state != Active then Conflict else Invalid)
  {
    if Settleable(w, id) && 0.0 <= split.Fraction() <= 1.0 {
      KeptBounded(w.holds[id], split);
    }
    hide Settle, Burn, Inv;
  }

  // ---- drawing a balance down -------------------------------------------------------------

  function Debits(k: Key, amounts: seq<real>): seq<Op> {
    seq(|amounts|, i requires 0 <= i < |amounts| => OpDebit(k, amounts[i]))
  }

  function SumOf(amounts: seq<real>): real {
    if amounts == [] then 0.0 else amounts[0] + SumOf(amounts[1..])
  }

  /** Every call of the list returns normally. */
  predicate AllDone(w: State, ops: seq<Op>)
    decreases |ops|
  {
    ops == [] || (Apply(w, ops[0]).Done? && AllDone(Apply(w, ops[0]).state, ops[1..]))
  }

  /** A list of debits of one wallet goes through exactly if all are positive and the balance covers
    their sum, down to the last unit. */
  lemma {:induction false} DebitsCoveredIff(w: State, k: Key, amounts: seq<real>)
    requires Available(w, k) >= 0.0
    ensures AllDone(w, Debits(k, amounts)) <==> (forall i | 0 <= i < |amounts| :: amounts[i] > 0.0) && SumOf(amounts) <= Available(w, k)
    ensures AllDone(w, Debits(k, amounts)) ==> Receives(w, Run(w, Debits(k, amounts)), k, -SumOf(amounts))
    decreases |amounts|
  {
    if amounts != [] {
      var rest := amounts[1..];
      assert Debits(k, amounts)[0] == OpDebit(k, amounts[0]) && Debits(k, amounts)[1..] == Debits(k, rest);
      DebitOutcome(w, k, amounts[0]);
      var o := Debit(w, k, amounts[0]);
      assert Apply(w, Debits(k, amounts)[0]) == o;
      hide Debit, Apply, Debits;
      assert forall i | 0 <= i < |rest| :: rest[i] == amounts[i + 1];
      if o.Done? {
        DebitsCoveredIff(o.state, k, rest);
      } else if forall i | 0 <= i < |amounts| :: amounts[i] > 0.0 {
        assert forall i | 0 <= i < |rest| :: rest[i] > 0.0;
        PositiveSum(rest);
      }
    }
  }

  lemma {:induction false} PositiveSum(amounts: seq<real>)
    requires forall i | 0 <= i < |amounts| :: amounts[i] > 0.0
    ensures SumOf(amounts) >= 0.0
    decreases |amounts|
  {
    if amounts != [] { PositiveSum(amounts[1..]); }
  }
}
