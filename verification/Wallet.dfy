/** The internal value store: per-(did, currency) balances split into available and held, and the
  holds that later release, capture or forfeit the held part.

  Amounts are exact decimals, modelled as reals. A wallet key is the pair (did, currency). Holds
  are never deleted, and their ids are fresh, so the hold table is a sequence indexed by hold id. */
module Wallet {
  import opened Outcomes
  import opened Sums

  type Did = string
  type Currency = string

  datatype Key = Key(did: Did, currency: Currency)

  datatype Row = Row(available: real, held: real)

  datatype HoldState = Active | Released | Captured | Forfeited

  /** What a hold was taken for. */
  datatype Ref =
    | FundRef(escrowId: string, milestoneId: string)
    | StakeRef(escrowId: string)
    | BondRef(escrowId: string, milestoneId: string)
    | OtherRef(tag: string)

  datatype Hold = Hold(owner: Did, currency: Currency, amount: real, ref: Ref, state: HoldState) {
    /** The wallet the hold was taken from. */
    function Account(): Key {
      Key(owner, currency)
    }
  }

  datatype State = State(rows: map<Key, Row>, holds: seq<Hold>)

  const EMPTY := State(map[], [])

  function Available(w: State, k: Key): real {
    if k in w.rows then w.rows[k].available else 0.0
  }

  function Held(w: State, k: Key): real {
    if k in w.rows then w.rows[k].held else 0.0
  }

  /** getOrCreate followed by a put of the changed row. */
  function AddAvailable(w: State, k: Key, x: real): (w': State)
    ensures forall j {:trigger Available(w', j)} :: Available(w', j) == Available(w, j) + (if j == k then x else 0.0)
    ensures forall j {:trigger Held(w', j)} :: Held(w', j) == Held(w, j)
  {
    w.(rows := w.rows[k := Row(Available(w, k) + x, Held(w, k))])
  }

  function AddHeld(w: State, k: Key, x: real): (w': State)
    ensures forall j {:trigger Available(w', j)} :: Available(w', j) == Available(w, j)
    ensures forall j {:trigger Held(w', j)} :: Held(w', j) == Held(w, j) + (if j == k then x else 0.0)
  {
    w.(rows := w.rows[k := Row(Available(w, k), Held(w, k) + x)])
  }

  /** Replaces the hold table and leaves every balance alone. */
  function WithHolds(w: State, holds: seq<Hold>): (w': State)
    ensures forall j {:trigger Available(w', j)} :: Available(w', j) == Available(w, j)
    ensures forall j {:trigger Held(w', j)} :: Held(w', j) == Held(w, j)
  {
    w.(holds := holds)
  }

  function SetHold(w: State, id: nat, s: HoldState): State
    requires id < |w.holds|
  {
    WithHolds(w, w.holds[id := w.holds[id].(state := s)])
  }

  // ---- operations -------------------------------------------------------------------------

  function Credit(w: State, k: Key, amount: real): Outcome<State> {
    if amount <= 0.0 then Thrown(w, Invalid)
    else Done(AddAvailable(w, k, amount))
  }

  function Debit(w: State, k: Key, amount: real): Outcome<State> {
    if amount <= 0.0 then Thrown(w, Invalid)
    else if Available(w, k) < amount then Thrown(AddAvailable(w, k, 0.0), Insufficient)
    else Done(AddAvailable(w, k, -amount))
  }

  /** The id of the new hold is the length of the old hold table. */
  function TakeHold(w: State, k: Key, amount: real, ref: Ref): Outcome<State> {
    if amount <= 0.0 then Thrown(w, Invalid)
    else if Available(w, k) < amount then Thrown(AddAvailable(w, k, 0.0), Insufficient)
    else
      var w := AddHeld(AddAvailable(w, k, -amount), k, amount);
      Done(WithHolds(w, w.holds + [Hold(k.did, k.currency, amount, ref, Active)]))
  }

  /** The test that release, capture and forfeit make before they enter the lock. */
  function CheckActive(w: State, id: nat): Outcome<State> {
    if id >= |w.holds| then Thrown(w, NotFound)
    else if w.holds[id].state != Active then Thrown(w, Conflict)
    else Done(w)
  }

  /** Takes the held amount of hold `id` off its owner and pays `paid` to `to`. */
  function Settle(w: State, id: nat, to: Key, paid: real, s: HoldState): (w': State)
    requires id < |w.holds|
    ensures forall k {:trigger Available(w', k)} :: Available(w', k) == Available(w, k) + (if k == to then paid else 0.0)
    ensures forall k {:trigger Held(w', k)} ::
              Held(w', k) == Held(w, k) - (if k == w.holds[id].Account() then w.holds[id].amount else 0.0)
    ensures w'.holds == w.holds[id := w.holds[id].(state := s)]
  {
    SetHold(AddAvailable(AddHeld(w, w.holds[id].Account(), -w.holds[id].amount), to, paid), id, s)
  }

  /** The critical section of release: it does not look at the hold's state again. */
  function ReleaseSection(w: State, id: nat): State
    requires id < |w.holds|
  {
    Settle(w, id, w.holds[id].Account(), w.holds[id].amount, Released)
  }

  function Release(w: State, id: nat): Outcome<State> {
    var w :- CheckActive(w, id);
    Done(ReleaseSection(w, id))
  }

  function CaptureSection(w: State, id: nat, to: Did): State
    requires id < |w.holds|
  {
    Settle(w, id, Key(to, w.holds[id].currency), w.holds[id].amount, Captured)
  }

  function Capture(w: State, id: nat, to: Did): Outcome<State> {
    var w :- CheckActive(w, id);
    Done(CaptureSection(w, id, to))
  }

  /** Who receives the part of a forfeited hold that is not burned. */
  datatype Split = BurnAll | ToRecipient(recipient: Did, burnFraction: real) {
    function Fraction(): real {
      if BurnAll? then 1.0 else burnFraction
    }
  }

  function Burn(w: State, id: nat): (w': State)
    requires id < |w.holds|
    ensures forall k {:trigger Available(w', k)} :: Available(w', k) == Available(w, k)
    ensures forall k {:trigger Held(w', k)} ::
              Held(w', k) == Held(w, k) - (if k == w.holds[id].Account() then w.holds[id].amount else 0.0)
    ensures w'.holds == w.holds[id := w.holds[id].(state := Forfeited)]
  {
    SetHold(AddHeld(w, w.holds[id].Account(), -w.holds[id].amount), id, Forfeited)
  }

  /** The part of a forfeited hold that is not burned. */
  function Kept(h: Hold, split: Split): real {
    h.amount - h.amount * split.Fraction()
  }

  /** With nothing left to pay, no row is created for the recipient. */
  function ForfeitSection(w: State, id: nat, split: Split): State
    requires id < |w.holds|
  {
    var h := w.holds[id];
    var kept := Kept(h, split);
    if split.ToRecipient? && kept > 0.0 then
      Settle(w, id, Key(split.recipient, h.currency), kept, Forfeited)
    else
      Burn(w, id)
  }

  function Forfeit(w: State, id: nat, split: Split): Outcome<State> {
    var w :- CheckActive(w, id);
    if !(0.0 <= split.Fraction() <= 1.0) then Thrown(w, Invalid)
    else Done(ForfeitSection(w, id, split))
  }

  // ---- the invariant ----------------------------------------------------------------------

  function Weight(h: Hold, k: Key): real {
    if h.state == Active && h.Account() == k then h.amount else 0.0
  }

  function ActiveSum(holds: seq<Hold>, k: Key): real {
    if holds == [] then 0.0
    else ActiveSum(holds[..|holds| - 1], k) + Weight(holds[|holds| - 1], k)
  }

  ghost predicate Inv(w: State) {
    && (forall k :: Available(w, k) >= 0.0)
    && (forall i :: 0 <= i < |w.holds| ==> w.holds[i].amount > 0.0)
    && (forall k :: Held(w, k) == ActiveSum(w.holds, k))
  }

  lemma {:induction false} ActiveSumUpdate(holds: seq<Hold>, i: nat, h: Hold, k: Key)
    requires i < |holds|
    ensures ActiveSum(holds[i := h], k) == ActiveSum(holds, k) - Weight(holds[i], k) + Weight(h, k)
  {
    var n := |holds| - 1;
    if i == n {
      assert holds[i := h][..n] == holds[..n];
    } else {
      assert holds[i := h][..n] == holds[..n][i := h];
      ActiveSumUpdate(holds[..n], i, h, k);
    }
  }

  lemma {:induction false} ActiveSumNonnegative(holds: seq<Hold>, k: Key)
    requires forall i :: 0 <= i < |holds| ==> holds[i].amount > 0.0
    ensures ActiveSum(holds, k) >= 0.0
  {
    if holds != [] {
      ActiveSumNonnegative(holds[..|holds| - 1], k);
    }
  }

  lemma ActiveSumAppend(holds: seq<Hold>, h: Hold, k: Key)
    ensures ActiveSum(holds + [h], k) == ActiveSum(holds, k) + Weight(h, k)
  {
    assert (holds + [h])[..|holds|] == holds;
  }

  /** Held balances are never negative: they are sums of active holds. */
  lemma HeldNonnegative(w: State, k: Key)
    requires Inv(w)
    ensures Held(w, k) >= 0.0
  {
    ActiveSumNonnegative(w.holds, k);
  }

  lemma SetHoldActiveSum(w: State, id: nat, s: HoldState, k: Key)
    requires id < |w.holds| && s != Active
    ensures ActiveSum(SetHold(w, id, s).holds, k) == ActiveSum(w.holds, k) - Weight(w.holds[id], k)
  {
    ActiveSumUpdate(w.holds, id, w.holds[id].(state := s), k);
  }

  /** Taking a hold keeps the invariant, whoever holds what. */
  lemma TakeHoldKeepsInv(w: State, k: Key, amount: real, ref: Ref)
    requires Inv(w)
    ensures Inv(TakeHold(w, k, amount, ref).state)
  {
    var h := Hold(k.did, k.currency, amount, ref, Active);
    forall j ensures ActiveSum(w.holds + [h], j) == ActiveSum(w.holds, j) + Weight(h, j) {
      ActiveSumAppend(w.holds, h, j);
    }
  }

  /** Release, capture and forfeit test the hold before they take the lock, so their critical
    section may run against a later state. It keeps the invariant exactly when the hold is still
    active at that point: with two settlements of one hold in flight, the second one breaks it. */
  lemma SettleSafeIff(w: State, id: nat, to: Key, paid: real, s: HoldState)
    requires Inv(w) && id < |w.holds| && paid >= 0.0 && s != Active
    ensures Inv(Settle(w, id, to, paid, s)) <==> w.holds[id].state == Active
  {
    var w' := Settle(w, id, to, paid, s);
    forall k ensures ActiveSum(w'.holds, k) == ActiveSum(w.holds, k) - Weight(w.holds[id], k) {
      SetHoldActiveSum(w, id, s, k);
    }
    var k := w.holds[id].Account();
    assert Held(w', k) == Held(w, k) - w.holds[id].amount;
  }

  lemma SectionsSafeIff(w: State, id: nat, to: Did, split: Split)
    requires Inv(w) && id < |w.holds|
    ensures Inv(ReleaseSection(w, id)) <==> w.holds[id].state == Active
    ensures Inv(CaptureSection(w, id, to)) <==> w.holds[id].state == Active
    ensures Inv(ForfeitSection(w, id, split)) <==> w.holds[id].state == Active
  {
    assert w.holds[id].amount > 0.0;
    hide Inv, Settle, Burn, Kept;
    var h := w.holds[id];
    SettleSafeIff(w, id, h.Account(), h.amount, Released);
    SettleSafeIff(w, id, Key(to, h.currency), h.amount, Captured);
    var kept := Kept(h, split);
    if split.ToRecipient? && kept > 0.0 {
      SettleSafeIff(w, id, Key(split.recipient, h.currency), kept, Forfeited);
    } else {
      BurnSafeIff(w, id);
    }
  }

  lemma BurnSafeIff(w: State, id: nat)
    requires Inv(w) && id < |w.holds|
    ensures Inv(Burn(w, id)) <==> w.holds[id].state == Active
  {
    var w' := Burn(w, id);
    forall k ensures ActiveSum(w'.holds, k) == ActiveSum(w.holds, k) - Weight(w.holds[id], k) {
      SetHoldActiveSum(w, id, Forfeited, k);
    }
    var k := w.holds[id].Account();
    assert Held(w', k) == Held(w, k) - w.holds[id].amount;
  }

  // ---- runs -------------------------------------------------------------------------------

  datatype Op =
    | OpCredit(key: Key, amount: real)
    | OpDebit(key: Key, amount: real)
    | OpHold(key: Key, amount: real, ref: Ref)
    | OpRelease(id: nat)
    | OpCapture(id: nat, to: Did)
    | OpForfeit(id: nat, split: Split)

  function Apply(w: State, op: Op): Outcome<State> {
    match op
    case OpCredit(k, x) => Credit(w, k, x)
    case OpDebit(k, x) => Debit(w, k, x)
    case OpHold(k, x, ref) => TakeHold(w, k, x, ref)
    case OpRelease(id) => Release(w, id)
    case OpCapture(id, to) => Capture(w, id, to)
    case OpForfeit(id, split) => Forfeit(w, id, split)
  }

  function Run(w: State, ops: seq<Op>): State
    decreases |ops|
  {
    if ops == [] then w else Run(Apply(w, ops[0]).state, ops[1..])
  }

  lemma ApplyKeepsInv(w: State, op: Op)
    requires Inv(w)
    ensures Inv(Apply(w, op).state)
  {
    hide ReleaseSection, CaptureSection, ForfeitSection, TakeHold;
    match op
    case OpCredit(k, x) =>
    case OpDebit(k, x) =>
    case OpHold(k, x, ref) => TakeHoldKeepsInv(w, k, x, ref);
    case OpRelease(id) => if id < |w.holds| { SectionsSafeIff(w, id, "", BurnAll); }
    case OpCapture(id, to) => if id < |w.holds| { SectionsSafeIff(w, id, to, BurnAll); }
    case OpForfeit(id, split) => if id < |w.holds| { SectionsSafeIff(w, id, "", split); }
  }

  /** Over every run: no balance is ever negative and each wallet's held amount is the sum of its
    active holds, whichever calls succeed or throw. */
  lemma {:induction false} RunKeepsInv(w: State, ops: seq<Op>)
    requires Inv(w)
    ensures Inv(Run(w, ops))
    decreases |ops|
  {
    if ops != [] {
      ApplyKeepsInv(w, ops[0]);
      RunKeepsInv(Apply(w, ops[0]).state, ops[1..]);
    }
  }

  /** A hold keeps its owner, amount and reference for ever, and once settled it keeps its state:
    it leaves `Active` at most once in any run. */
  ghost predicate HoldsEvolve(w: State, w': State) {
    && |w.holds| <= |w'.holds|
    && forall i :: 0 <= i < |w.holds| ==>
         && w'.holds[i] == w.holds[i].(state := w'.holds[i].state)
         && (w.holds[i].state != Active ==> w'.holds[i] == w.holds[i])
  }

  lemma {:induction false} RunSettlesOnce(w: State, ops: seq<Op>)
    ensures HoldsEvolve(w, Run(w, ops))
    decreases |ops|
  {
    if ops != [] {
      var w1 := Apply(w, ops[0]).state;
      assert HoldsEvolve(w, w1);
      RunSettlesOnce(w1, ops[1..]);
    }
  }

  // ---- conservation -----------------------------------------------------------------------

  /** Everything the wallets of one currency own, available or held. */
  ghost function Total(w: State, c: Currency): real {
    Sum(w.rows.Keys, Worth(w, c))
  }

  function Worth(w: State, c: Currency): Key -> real {
    (k: Key) => if k.currency == c then Available(w, k) + Held(w, k) else 0.0
  }

  lemma TotalAfterPut(w: State, k: Key, row: Row, c: Currency)
    ensures Total(w.(rows := w.rows[k := row]), c)
         == Total(w, c) - Worth(w, c)(k) + (if k.currency == c then row.available + row.held else 0.0)
  {
    var w' := w.(rows := w.rows[k := row]);
    var f, g := Worth(w, c), Worth(w', c);
    if k in w.rows {
      assert w'.rows.Keys == w.rows.Keys;
    } else {
      assert w'.rows.Keys == w.rows.Keys + {k};
      SumAdd(w.rows.Keys, f, k);
    }
    SumChange(w'.rows.Keys, f, g, k);
  }

  lemma TotalAfterAdd(w: State, k: Key, x: real, c: Currency)
    ensures Total(AddAvailable(w, k, x), c) == Total(w, c) + (if k.currency == c then x else 0.0)
    ensures Total(AddHeld(w, k, x), c) == Total(w, c) + (if k.currency == c then x else 0.0)
  {
    TotalAfterPut(w, k, Row(Available(w, k) + x, Held(w, k)), c);
    TotalAfterPut(w, k, Row(Available(w, k), Held(w, k) + x), c);
  }

  lemma TotalIgnoresHolds(w: State, w': State, c: Currency)
    requires w.rows == w'.rows
    ensures Total(w, c) == Total(w', c)
  {
    SumCongruent(w.rows.Keys, Worth(w, c), Worth(w', c));
  }

  /** What the outside world puts in: successful credits, minus successful debits, minus burns. */
  function Inflow(w: State, op: Op, c: Currency): real {
    if Apply(w, op).Thrown? then 0.0
    else match op
      case OpCredit(k, x) => if k.currency == c then x else 0.0
      case OpDebit(k, x) => if k.currency == c then -x else 0.0
      case OpHold(_, _, _) => 0.0
      case OpRelease(_) => 0.0
      case OpCapture(_, _) => 0.0
      case OpForfeit(id, split) =>
        if w.holds[id].currency == c then Kept(w.holds[id], split) - w.holds[id].amount else 0.0
  }

  function NetInflow(w: State, ops: seq<Op>, c: Currency): real
    decreases |ops|
  {
    if ops == [] then 0.0
    else Inflow(w, ops[0], c) + NetInflow(Apply(w, ops[0]).state, ops[1..], c)
  }

  lemma SettleConserves(w: State, id: nat, to: Key, paid: real, s: HoldState, c: Currency)
    requires id < |w.holds| && to.currency == w.holds[id].currency
    ensures Total(Settle(w, id, to, paid, s), c)
         == Total(w, c) - (if to.currency == c then w.holds[id].amount - paid else 0.0)
  {
    var h := w.holds[id];
    var w1 := AddHeld(w, h.Account(), -h.amount);
    assert Settle(w, id, to, paid, s).rows == AddAvailable(w1, to, paid).rows;
    hide *;
    TotalAfterAdd(w, h.Account(), -h.amount, c);
    TotalAfterAdd(w1, to, paid, c);
    TotalIgnoresHolds(AddAvailable(w1, to, paid), Settle(w, id, to, paid, s), c);
    AccountCurrency(h);
  }

  lemma AccountCurrency(h: Hold)
    ensures h.Account().currency == h.currency
  {
  }

  lemma KeptBounded(h: Hold, split: Split)
    requires h.amount > 0.0 && 0.0 <= split.Fraction() <= 1.0
    ensures 0.0 <= Kept(h, split) <= h.amount
    ensures split == BurnAll ==> Kept(h, split) == 0.0
  {
    assert h.amount * (1.0 - split.Fraction()) >= 0.0;
  }

  lemma BurnConserves(w: State, id: nat, c: Currency)
    requires id < |w.holds|
    ensures Total(Burn(w, id), c) == Total(w, c) - (if w.holds[id].currency == c then w.holds[id].amount else 0.0)
  {
    var h := w.holds[id];
    TotalAfterAdd(w, h.Account(), -h.amount, c);
    TotalIgnoresHolds(AddHeld(w, h.Account(), -h.amount), Burn(w, id), c);
  }

  lemma ForfeitConserves(w: State, id: nat, split: Split, c: Currency)
    requires id < |w.holds| && 0.0 <= split.Fraction() <= 1.0 && w.holds[id].amount > 0.0
    ensures Total(ForfeitSection(w, id, split), c)
         == Total(w, c) - (if w.holds[id].currency == c then w.holds[id].amount - Kept(w.holds[id], split) else 0.0)
  {
    hide Total, Settle, Burn, Kept;
    var h := w.holds[id];
    var kept := Kept(h, split);
    KeptBounded(h, split);
    if split.ToRecipient? && kept > 0.0 {
      SettleConserves(w, id, Key(split.recipient, h.currency), kept, Forfeited, c);
    } else {
      BurnConserves(w, id, c);
    }
  }

  lemma TakeHoldConserves(w: State, k: Key, amount: real, ref: Ref, c: Currency)
    ensures Total(TakeHold(w, k, amount, ref).state, c) == Total(w, c)
  {
    hide Total;
    TotalAfterAdd(w, k, 0.0, c);
    var w1 := AddAvailable(w, k, -amount);
    var w2 := AddHeld(w1, k, amount);
    TotalAfterAdd(w, k, -amount, c);
    TotalAfterAdd(w1, k, amount, c);
    TotalIgnoresHolds(w2, WithHolds(w2, w.holds + [Hold(k.did, k.currency, amount, ref, Active)]), c);
  }

  lemma ApplyConserves(w: State, op: Op, c: Currency)
    requires Inv(w)
    ensures Total(Apply(w, op).state, c) == Total(w, c) + Inflow(w, op, c)
  {
    hide Total, Settle, AddAvailable, AddHeld, ForfeitSection;
    match op
    case OpCredit(k, x) => TotalAfterAdd(w, k, x, c);
    case OpDebit(k, x) => TotalAfterAdd(w, k, -x, c); TotalAfterAdd(w, k, 0.0, c);
    case OpHold(k, x, ref) => TakeHoldConserves(w, k, x, ref, c);
    case OpRelease(id) =>
      if Apply(w, op).Done? { SettleConserves(w, id, w.holds[id].Account(), w.holds[id].amount, Released, c); }
    case OpCapture(id, to) =>
      if Apply(w, op).Done? { SettleConserves(w, id, Key(to, w.holds[id].currency), w.holds[id].amount, Captured, c); }
    case OpForfeit(id, split) =>
      if Apply(w, op).Done? { ForfeitConserves(w, id, split, c); }
  }

  /** Conservation over every run and currency: available plus held plus burned equals credits
    minus debits, also when a hold is captured by or forfeited to its own owner. */
  lemma {:induction false} RunConserves(w: State, ops: seq<Op>, c: Currency)
    requires Inv(w)
    ensures Total(Run(w, ops), c) == Total(w, c) + NetInflow(w, ops, c)
    decreases |ops|
  {
    if ops != [] {
      ApplyConserves(w, ops[0], c);
      ApplyKeepsInv(w, ops[0]);
      RunConserves(Apply(w, ops[0]).state, ops[1..], c);
    }
  }

  lemma EmptyWallet()
    ensures Inv(EMPTY) && forall c :: Total(EMPTY, c) == 0.0
  {
  }
}
