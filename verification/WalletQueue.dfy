/** The wallet's own calls in the lock queue, stepped at every await of their critical sections:
  overlapping calls, no two in flight naming the same hold, end in the rows and holds of running the
  same calls one after the other. */
module WalletQueue {
  import Outcomes
  import opened Wallet
  import LQ = LockQueue

  type HoldId = string

  /** `TakenPlace` is the local of a hold call that says whether the balance check went through. */
  datatype Place = RowPlace(key: Key) | HoldPlace(id: HoldId) | TakenPlace(id: HoldId)

  datatype Value = RowValue(row: Row) | HoldValue(hold: Hold) | TakenValue(taken: bool)

  type Store = map<Place, Value>

  type Queue = LQ.Queue<Place, Value>

  function RowIn(s: Store, k: Key): Row {
    if RowPlace(k) in s && s[RowPlace(k)].RowValue? then s[RowPlace(k)].row else Row(0.0, 0.0)
  }

  function HoldIn(s: Store, id: HoldId): Hold {
    if HoldPlace(id) in s && s[HoldPlace(id)].HoldValue? then s[HoldPlace(id)].hold
    else Hold("", "", 0.0, OtherRef(""), Released)
  }

  /** The name a hold call gives its new hold is drawn inside the call; here it is a parameter. */
  datatype Call =
    | CreditCall(key: Key, amount: real)
    | DebitCall(key: Key, amount: real)
    | HoldCall(key: Key, amount: real, ref: Ref, id: HoldId)
    | ReleaseCall(id: HoldId)
    | CaptureCall(id: HoldId, to: Did)
    | ForfeitCall(id: HoldId, split: Split)
  {
    predicate NamesHold() {
      !CreditCall? && !DebitCall?
    }

    predicate Settles() {
      ReleaseCall? || CaptureCall? || ForfeitCall?
    }
  }

  // ---- the stretches between two awaits ---------------------------------------------------

  function Touched(s: Store, k: Key): Store {
    s[RowPlace(k) := RowValue(RowIn(s, k))]
  }

  function Changed(s: Store, k: Key, available: real, held: real): Store {
    s[RowPlace(k) := RowValue(Row(RowIn(s, k).available + available, RowIn(s, k).held + held))]
  }

  function WithHold(s: Store, id: HoldId, h: Hold): Store {
    s[HoldPlace(id) := HoldValue(h)]
  }

  function Noted(s: Store, id: HoldId, taken: bool): Store {
    s[TakenPlace(id) := TakenValue(taken)]
  }

  /** getOrCreate. */
  function Touch(k: Key): Store -> Store {
    (s: Store) => Touched(s, k)
  }

  /** Changes the live row in place and puts it. */
  function Change(k: Key, available: real, held: real): Store -> Store {
    (s: Store) => Changed(s, k, available, held)
  }

  /** The same after the balance check of debit. */
  function Withdraw(k: Key, amount: real): Store -> Store {
    (s: Store) => if RowIn(s, k).available < amount then s else Changed(s, k, -amount, 0.0)
  }

  /** The same after the balance check of hold. */
  function Reserve(k: Key, amount: real, id: HoldId): Store -> Store {
    (s: Store) =>
      if RowIn(s, k).available < amount then Noted(s, id, false)
      else Noted(Changed(s, k, -amount, amount), id, true)
  }

  function PutHold(id: HoldId, h: Hold): Store -> Store {
    (s: Store) => WithHold(s, id, h)
  }

  /** The new hold, unless the check before has thrown. */
  function PutReserved(id: HoldId, h: Hold): Store -> Store {
    (s: Store) => if TakenPlace(id) in s && s[TakenPlace(id)] == TakenValue(true) then WithHold(s, id, h) else s
  }

  /** Takes the held amount off the owner's row and pays `paid` to `to`. */
  function PayOut(id: HoldId, h: Hold, to: Key, paid: real, st: HoldState): LQ.Job<Place, Value> {
    LQ.Job({RowPlace(h.Account()), RowPlace(to)}, {HoldPlace(id)},
           [Touch(h.Account()), Change(h.Account(), 0.0, -h.amount), Touch(to), Change(to, paid, 0.0), PutHold(id, h.(state := st))])
  }

  function OwnRow(id: HoldId, h: Hold, back: real, st: HoldState): LQ.Job<Place, Value> {
    LQ.Job({RowPlace(h.Account())}, {HoldPlace(id)},
           [Touch(h.Account()), Change(h.Account(), back, -h.amount), PutHold(id, h.(state := st))])
  }

  function NewHold(c: Call): Hold
    requires c.HoldCall?
  {
    Hold(c.key.did, c.key.currency, c.amount, c.ref, Active)
  }

  /** `h` is the hold that a settlement has read before it joins. */
  function JobOf(c: Call, h: Hold): LQ.Job<Place, Value> {
    match c
    case CreditCall(k, x) => LQ.Job({RowPlace(k)}, {}, [Touch(k), Change(k, x, 0.0)])
    case DebitCall(k, x) => LQ.Job({RowPlace(k)}, {}, [Touch(k), Withdraw(k, x)])
    case HoldCall(k, x, ref, id) =>
      LQ.Job({RowPlace(k)}, {HoldPlace(id), TakenPlace(id)},
             [Touch(k), Reserve(k, x, id), PutReserved(id, NewHold(c))])
    case ReleaseCall(id) => OwnRow(id, h, h.amount, Released)
    case CaptureCall(id, to) => PayOut(id, h, Key(to, h.currency), h.amount, Captured)
    case ForfeitCall(id, split) =>
      if split.ToRecipient? && Kept(h, split) > 0.0
      then PayOut(id, h, Key(split.recipient, h.currency), Kept(h, split), Forfeited)
      else OwnRow(id, h, 0.0, Forfeited)
  }

  /** The critical section of a call that joins while the store is `s`. */
  function JobFor(s: Store, c: Call): LQ.Job<Place, Value> {
    JobOf(c, if c.Settles() then HoldIn(s, c.id) else Hold("", "", 0.0, OtherRef(""), Released))
  }

  predicate ActiveIn(s: Store, id: HoldId) {
    HoldPlace(id) in s && s[HoldPlace(id)].HoldValue? && s[HoldPlace(id)].hold.state == Active
  }

  /** The checks a call makes in the stretch in which it joins: a positive amount, or an active hold.
    A call that fails them throws and leaves no trace. The name of a new hold is not in use. */
  predicate Admitted(s: Store, c: Call) {
    match c
    case CreditCall(_, x) => x > 0.0
    case DebitCall(_, x) => x > 0.0
    case HoldCall(_, x, _, id) => x > 0.0 && HoldPlace(id) !in s
    case ReleaseCall(id) => ActiveIn(s, id)
    case CaptureCall(id, _) => ActiveIn(s, id)
    case ForfeitCall(id, split) => ActiveIn(s, id) && 0.0 <= split.Fraction() <= 1.0
  }

  // ---- locality ---------------------------------------------------------------------------

  lemma TouchLocal(k: Key, places: set<Place>)
    requires RowPlace(k) in places
    ensures LQ.Local(Touch(k), places)
  {
    forall s, t | LQ.Agree(s, t, places) ensures LQ.Agree(Touch(k)(s), Touch(k)(t), places) {
      assert LQ.Same(s, t, RowPlace(k));
    }
  }

  lemma ChangeLocal(k: Key, available: real, held: real, places: set<Place>)
    requires RowPlace(k) in places
    ensures LQ.Local(Change(k, available, held), places)
  {
    forall s, t | LQ.Agree(s, t, places) ensures LQ.Agree(Change(k, available, held)(s), Change(k, available, held)(t), places) {
      assert LQ.Same(s, t, RowPlace(k));
    }
  }

  lemma WithdrawLocal(k: Key, amount: real, places: set<Place>)
    requires RowPlace(k) in places
    ensures LQ.Local(Withdraw(k, amount), places)
  {
    var f := Change(k, -amount, 0.0);
    ChangeLocal(k, -amount, 0.0, places);
    forall s, l | l !in places ensures LQ.Same(Withdraw(k, amount)(s), s, l) { assert LQ.Same(f(s), s, l); }
    hide Change;
    forall s, t | LQ.Agree(s, t, places) ensures LQ.Agree(Withdraw(k, amount)(s), Withdraw(k, amount)(t), places) {
      assert LQ.Same(s, t, RowPlace(k)) && LQ.Agree(f(s), f(t), places);
    }
  }

  lemma ReserveLocal(k: Key, amount: real, id: HoldId, places: set<Place>)
    requires RowPlace(k) in places && TakenPlace(id) in places
    ensures LQ.Local(Reserve(k, amount, id), places)
  {
    var f := Change(k, -amount, amount);
    ChangeLocal(k, -amount, amount, places);
    forall s, l | l !in places ensures LQ.Same(Reserve(k, amount, id)(s), s, l) { assert LQ.Same(f(s), s, l); }
    hide Change;
    forall s, t | LQ.Agree(s, t, places) ensures LQ.Agree(Reserve(k, amount, id)(s), Reserve(k, amount, id)(t), places) {
      assert LQ.Same(s, t, RowPlace(k)) && LQ.Agree(f(s), f(t), places);
    }
  }

  lemma PutHoldLocal(id: HoldId, h: Hold, places: set<Place>)
    requires HoldPlace(id) in places
    ensures LQ.Local(PutHold(id, h), places)
  {
  }

  lemma PutReservedLocal(id: HoldId, h: Hold, places: set<Place>)
    requires HoldPlace(id) in places && TakenPlace(id) in places
    ensures LQ.Local(PutReserved(id, h), places)
  {
    var f := PutHold(id, h);
    PutHoldLocal(id, h, places);
    forall s, l | l !in places ensures LQ.Same(PutReserved(id, h)(s), s, l) { assert LQ.Same(f(s), s, l); }
    hide PutHold;
    forall s, t | LQ.Agree(s, t, places) ensures LQ.Agree(PutReserved(id, h)(s), PutReserved(id, h)(t), places) {
      assert LQ.Same(s, t, TakenPlace(id)) && LQ.Agree(f(s), f(t), places);
    }
  }

  lemma PayOutLocal(id: HoldId, h: Hold, to: Key, paid: real, st: HoldState)
    ensures var job := PayOut(id, h, to, paid, st); forall n | 0 <= n < |job.body| :: LQ.Local(job.body[n], job.Places())
  {
    var places := PayOut(id, h, to, paid, st).Places();
    hide LQ.Local, Touch, Change, PutHold;
    TouchLocal(h.Account(), places);
    ChangeLocal(h.Account(), 0.0, -h.amount, places);
    TouchLocal(to, places);
    ChangeLocal(to, paid, 0.0, places);
    PutHoldLocal(id, h.(state := st), places);
  }

  lemma OwnRowLocal(id: HoldId, h: Hold, back: real, st: HoldState)
    ensures var job := OwnRow(id, h, back, st); forall n | 0 <= n < |job.body| :: LQ.Local(job.body[n], job.Places())
  {
    var places := OwnRow(id, h, back, st).Places();
    hide LQ.Local, Touch, Change, PutHold;
    TouchLocal(h.Account(), places);
    ChangeLocal(h.Account(), back, -h.amount, places);
    PutHoldLocal(id, h.(state := st), places);
  }

  /** A call's stretches touch only the rows it locks, its local, and the hold it takes or settles. */
  lemma JobsAreLocal(c: Call, h: Hold)
    ensures forall n | 0 <= n < |JobOf(c, h).body| :: LQ.Local(JobOf(c, h).body[n], JobOf(c, h).Places())
    ensures forall l | l in JobOf(c, h).locks :: l.RowPlace?
    ensures forall l | l in JobOf(c, h).own :: !l.RowPlace? && c.NamesHold() && l.id == c.id
  {
    var places := JobOf(c, h).Places();
    hide LQ.Local, Touch, Change, Withdraw, Reserve, PutHold, PutReserved, Kept;
    match c
    case CreditCall(k, x) => TouchLocal(k, places); ChangeLocal(k, x, 0.0, places);
    case DebitCall(k, x) => TouchLocal(k, places); WithdrawLocal(k, x, places);
    case HoldCall(k, x, ref, id) =>
      TouchLocal(k, places);
      ReserveLocal(k, x, id, places);
      PutReservedLocal(id, NewHold(c), places);
    case ReleaseCall(id) => OwnRowLocal(id, h, h.amount, Released);
    case CaptureCall(id, to) => PayOutLocal(id, h, Key(to, h.currency), h.amount, Captured);
    case ForfeitCall(id, split) =>
      if split.ToRecipient? && Kept(h, split) > 0.0 {
        PayOutLocal(id, h, Key(split.recipient, h.currency), Kept(h, split), Forfeited);
      } else {
        OwnRowLocal(id, h, 0.0, Forfeited);
      }
  }

  // ---- one call at a time -----------------------------------------------------------------

  /** The specification's wallet, whose holds are numbered, with the names of the holds. */
  datatype Books = Books(w: State, ids: seq<HoldId>)

  /** The number of the hold called `id`; an unknown name gets a number nobody has. */
  function Number(ids: seq<HoldId>, id: HoldId): (n: nat)
    ensures n <= |ids| && (n < |ids| ==> ids[n] == id) && (n == |ids| ==> id !in ids)
  {
    if ids == [] then 0
    else if ids[0] == id then 0
    else 1 + Number(ids[1..], id)
  }

  function OpOf(ids: seq<HoldId>, c: Call): Op {
    match c
    case CreditCall(k, x) => OpCredit(k, x)
    case DebitCall(k, x) => OpDebit(k, x)
    case HoldCall(k, x, ref, _) => OpHold(k, x, ref)
    case ReleaseCall(id) => OpRelease(Number(ids, id))
    case CaptureCall(id, to) => OpCapture(Number(ids, id), to)
    case ForfeitCall(id, split) => OpForfeit(Number(ids, id), split)
  }

  function After(b: Books, c: Call): Books {
    var w := Apply(b.w, OpOf(b.ids, c)).state;
    Books(w, if c.HoldCall? && |w.holds| > |b.w.holds| then b.ids + [c.id] else b.ids)
  }

  /** The books after the calls one by one. */
  function AfterAll(b: Books, calls: seq<Call>): Books {
    if calls == [] then b else After(AfterAll(b, calls[..|calls| - 1]), calls[|calls| - 1])
  }

  function OpsOf(b: Books, calls: seq<Call>): seq<Op> {
    if calls == [] then []
    else
      var before := calls[..|calls| - 1];
      OpsOf(b, before) + [OpOf(AfterAll(b, before).ids, calls[|calls| - 1])]
  }

  lemma {:induction false} RunAppended(w: State, ops: seq<Op>, op: Op)
    ensures Run(w, ops + [op]) == Apply(Run(w, ops), op).state
    decreases |ops|
  {
    if ops == [] {
      assert Run(w, [op]) == Run(Apply(w, op).state, []);
    } else {
      assert (ops + [op])[1..] == ops[1..] + [op];
      RunAppended(Apply(w, ops[0]).state, ops[1..], op);
    }
  }

  /** Calls one by one are a run of the wallet specification, so all its theorems apply to them. */
  lemma {:induction false} AfterAllIsRun(b: Books, calls: seq<Call>)
    ensures AfterAll(b, calls).w == Run(b.w, OpsOf(b, calls))
    decreases |calls|
  {
    if calls != [] {
      var before := calls[..|calls| - 1];
      AfterAllIsRun(b, before);
      RunAppended(b.w, OpsOf(b, before), OpOf(AfterAll(b, before).ids, calls[|calls| - 1]));
    }
  }

  // ---- what the store shows ---------------------------------------------------------------

  ghost predicate ShowsRows(s: Store, rows: map<Key, Row>) {
    forall k :: (RowPlace(k) in s <==> k in rows) && (k in rows ==> s[RowPlace(k)] == RowValue(rows[k]))
  }

  ghost predicate ShowsHolds(s: Store, ids: seq<HoldId>, holds: seq<Hold>) {
    && |ids| == |holds|
    && (forall i, j :: 0 <= i < j < |ids| ==> ids[i] != ids[j])
    && (forall id :: HoldPlace(id) in s ==> id in ids)
    && (forall i :: 0 <= i < |ids| ==> HoldPlace(ids[i]) in s && s[HoldPlace(ids[i])] == HoldValue(holds[i]))
  }

  /** The rows and the holds in the store are those of the books, no more and no less. */
  ghost predicate Shows(s: Store, b: Books) {
    ShowsRows(s, b.w.rows) && ShowsHolds(s, b.ids, b.w.holds)
  }

  function RowOf(rows: map<Key, Row>, k: Key): Row {
    if k in rows then rows[k] else Row(0.0, 0.0)
  }

  function Bump(rows: map<Key, Row>, k: Key, available: real, held: real): map<Key, Row> {
    rows[k := Row(RowOf(rows, k).available + available, RowOf(rows, k).held + held)]
  }

  lemma ChangeShown(s: Store, rows: map<Key, Row>, k: Key, available: real, held: real)
    requires ShowsRows(s, rows)
    ensures ShowsRows(Changed(s, k, available, held), Bump(rows, k, available, held))
  {
  }

  lemma ChangeKeepsHolds(s: Store, ids: seq<HoldId>, holds: seq<Hold>, k: Key, available: real, held: real)
    requires ShowsHolds(s, ids, holds)
    ensures ShowsHolds(Changed(s, k, available, held), ids, holds)
  {
  }

  lemma ChangeAfterTouch(s: Store, k: Key, available: real, held: real)
    ensures Changed(Touched(s, k), k, available, held) == Changed(s, k, available, held)
  {
    assert RowIn(Touched(s, k), k) == RowIn(s, k);
  }

  lemma PutHoldShown(s: Store, rows: map<Key, Row>, ids: seq<HoldId>, holds: seq<Hold>, i: nat, h: Hold)
    requires ShowsRows(s, rows) && ShowsHolds(s, ids, holds) && i < |ids|
    ensures ShowsRows(WithHold(s, ids[i], h), rows) && ShowsHolds(WithHold(s, ids[i], h), ids, holds[i := h])
  {
  }

  lemma NewHoldShown(s: Store, rows: map<Key, Row>, ids: seq<HoldId>, holds: seq<Hold>, id: HoldId, h: Hold)
    requires ShowsRows(s, rows) && ShowsHolds(s, ids, holds) && id !in ids
    ensures ShowsRows(WithHold(s, id, h), rows) && ShowsHolds(WithHold(s, id, h), ids + [id], holds + [h])
  {
    assert forall i :: 0 <= i < |ids| ==> (ids + [id])[i] == ids[i];
  }

  // ---- a section that runs alone does what the specification says -------------------------

  lemma PlayedTwo(body: seq<Store -> Store>, s: Store)
    requires |body| == 2
    ensures LQ.Played(body, 2, s) == body[1](body[0](s))
  {
    assert LQ.Played(body, 1, s) == body[0](s);
  }

  lemma PlayedThree(body: seq<Store -> Store>, s: Store)
    requires |body| == 3
    ensures LQ.Played(body, 3, s) == body[2](body[1](body[0](s)))
  {
    assert LQ.Played(body, 1, s) == body[0](s);
    assert LQ.Played(body, 2, s) == body[1](body[0](s));
  }

  lemma PlayedFive(body: seq<Store -> Store>, s: Store)
    requires |body| == 5
    ensures LQ.Played(body, 5, s) == body[4](body[3](body[2](body[1](body[0](s)))))
  {
    assert LQ.Played(body, 1, s) == body[0](s);
    assert LQ.Played(body, 2, s) == body[1](body[0](s));
    assert LQ.Played(body, 3, s) == body[2](body[1](body[0](s)));
    assert LQ.Played(body, 4, s) == body[3](body[2](body[1](body[0](s))));
  }

  lemma OwnRowPlayed(s: Store, id: HoldId, h: Hold, back: real, st: HoldState)
    ensures var job := OwnRow(id, h, back, st);
            LQ.Played(job.body, |job.body|, s) == WithHold(Changed(s, h.Account(), back, -h.amount), id, h.(state := st))
  {
    PlayedThree(OwnRow(id, h, back, st).body, s);
    hide Touched, Changed, WithHold, LQ.Played;
    ChangeAfterTouch(s, h.Account(), back, -h.amount);
  }

  lemma PayOutPlayed(s: Store, id: HoldId, h: Hold, to: Key, paid: real, st: HoldState)
    ensures var job := PayOut(id, h, to, paid, st);
            LQ.Played(job.body, |job.body|, s)
            == WithHold(Changed(Changed(s, h.Account(), 0.0, -h.amount), to, paid, 0.0), id, h.(state := st))
  {
    PlayedFive(PayOut(id, h, to, paid, st).body, s);
    hide Touched, Changed, WithHold, LQ.Played;
    ChangeAfterTouch(s, h.Account(), 0.0, -h.amount);
    ChangeAfterTouch(Changed(s, h.Account(), 0.0, -h.amount), to, paid, 0.0);
  }

  lemma BumpedShown(s: Store, w: State, ids: seq<HoldId>, k: Key, available: real, held: real)
    requires Shows(s, Books(w, ids))
    ensures Shows(Changed(s, k, available, held), Books(State(Bump(w.rows, k, available, held), w.holds), ids))
  {
    ChangeShown(s, w.rows, k, available, held);
    ChangeKeepsHolds(s, ids, w.holds, k, available, held);
    hide Changed, Bump;
  }

  lemma SettledShown(s: Store, w: State, ids: seq<HoldId>, i: nat, st: HoldState)
    requires Shows(s, Books(w, ids)) && i < |ids|
    ensures |w.holds| == |ids|
    ensures Shows(WithHold(s, ids[i], w.holds[i].(state := st)), Books(State(w.rows, w.holds[i := w.holds[i].(state := st)]), ids))
  {
    PutHoldShown(s, w.rows, ids, w.holds, i, w.holds[i].(state := st));
    hide WithHold;
  }

  lemma OwnRowShown(s: Store, w: State, ids: seq<HoldId>, i: nat, back: real, st: HoldState)
    requires Shows(s, Books(w, ids)) && i < |w.holds| == |ids|
    ensures var h := w.holds[i]; var k := h.Account();
            Shows(WithHold(Changed(s, k, back, -h.amount), ids[i], h.(state := st)),
                  Books(State(Bump(w.rows, k, back, -h.amount), w.holds[i := h.(state := st)]), ids))
  {
    hide *;
    var h := w.holds[i];
    var k := h.Account();
    BumpedShown(s, w, ids, k, back, -h.amount);
    SettledShown(Changed(s, k, back, -h.amount), State(Bump(w.rows, k, back, -h.amount), w.holds), ids, i, st);
  }

  lemma PayOutShown(s: Store, w: State, ids: seq<HoldId>, i: nat, to: Key, paid: real, st: HoldState)
    requires Shows(s, Books(w, ids)) && i < |w.holds| == |ids|
    ensures var h := w.holds[i]; var k := h.Account();
            Shows(WithHold(Changed(Changed(s, k, 0.0, -h.amount), to, paid, 0.0), ids[i], h.(state := st)),
                  Books(State(Bump(Bump(w.rows, k, 0.0, -h.amount), to, paid, 0.0), w.holds[i := h.(state := st)]), ids))
  {
    hide *;
    var h := w.holds[i];
    var k := h.Account();
    var s1, rows1 := Changed(s, k, 0.0, -h.amount), Bump(w.rows, k, 0.0, -h.amount);
    BumpedShown(s, w, ids, k, 0.0, -h.amount);
    BumpedShown(s1, State(rows1, w.holds), ids, to, paid, 0.0);
    SettledShown(Changed(s1, to, paid, 0.0), State(Bump(rows1, to, paid, 0.0), w.holds), ids, i, st);
  }

  lemma SettleBumps(w: State, i: nat, to: Key, paid: real, st: HoldState)
    requires i < |w.holds|
    ensures var h := w.holds[i];
            Settle(w, i, to, paid, st) == State(Bump(Bump(w.rows, h.Account(), 0.0, -h.amount), to, paid, 0.0), w.holds[i := h.(state := st)])
  {
  }

  lemma ReleaseBumps(w: State, i: nat)
    requires i < |w.holds|
    ensures var h := w.holds[i];
            ReleaseSection(w, i) == State(Bump(w.rows, h.Account(), h.amount, -h.amount), w.holds[i := h.(state := Released)])
  {
    var h := w.holds[i];
    var k := h.Account();
    assert ReleaseSection(w, i).rows == Bump(w.rows, k, h.amount, -h.amount);
  }

  lemma BurnBumps(w: State, i: nat)
    requires i < |w.holds|
    ensures var h := w.holds[i];
            Burn(w, i) == State(Bump(w.rows, h.Account(), 0.0, -h.amount), w.holds[i := h.(state := Forfeited)])
  {
  }

  lemma ActiveNumber(s: Store, b: Books, id: HoldId) returns (i: nat)
    requires Shows(s, b) && ActiveIn(s, id)
    ensures i == Number(b.ids, id) < |b.ids| == |b.w.holds| && b.ids[i] == id && b.w.holds[i] == HoldIn(s, id)
    ensures CheckActive(b.w, i) == Outcomes.Done(b.w)
  {
    i := Number(b.ids, id);
  }

  /** A failed balance check leaves the row that getOrCreate may just have made. */
  lemma TouchedShown(s: Store, b: Books, k: Key)
    requires Shows(s, b)
    ensures Shows(Touched(s, k), Books(AddAvailable(b.w, k, 0.0), b.ids)) && RowIn(Touched(s, k), k) == RowIn(s, k) == RowOf(b.w.rows, k)
  {
    assert RowIn(s, k) == RowOf(b.w.rows, k) by { hide ShowsHolds; }
    assert Touched(s, k) == Changed(s, k, 0.0, 0.0);
    assert AddAvailable(b.w, k, 0.0).rows == Bump(b.w.rows, k, 0.0, 0.0);
    hide ShowsRows, ShowsHolds, Changed, Bump;
    BumpedShown(s, b.w, b.ids, k, 0.0, 0.0);
  }

  lemma CreditPlayed(s: Store, b: Books, c: Call)
    requires Shows(s, b) && Admitted(s, c) && c.CreditCall?
    ensures var job := JobFor(s, c); Shows(LQ.Played(job.body, |job.body|, s), After(b, c))
  {
    PlayedTwo(JobFor(s, c).body, s);
    assert AddAvailable(b.w, c.key, c.amount).rows == Bump(b.w.rows, c.key, c.amount, 0.0);
    hide Shows, Changed, Touched, Bump, LQ.Played;
    ChangeAfterTouch(s, c.key, c.amount, 0.0);
    BumpedShown(s, b.w, b.ids, c.key, c.amount, 0.0);
  }

  lemma DebitPlayed(s: Store, b: Books, c: Call)
    requires Shows(s, b) && Admitted(s, c) && c.DebitCall?
    ensures var job := JobFor(s, c); Shows(LQ.Played(job.body, |job.body|, s), After(b, c))
  {
    PlayedTwo(JobFor(s, c).body, s);
    assert AddAvailable(b.w, c.key, -c.amount).rows == Bump(b.w.rows, c.key, -c.amount, 0.0);
    hide Shows, Changed, Touched, Bump, LQ.Played;
    TouchedShown(s, b, c.key);
    ChangeAfterTouch(s, c.key, -c.amount, 0.0);
    BumpedShown(s, b.w, b.ids, c.key, -c.amount, 0.0);
  }

  lemma TakenInvisible(s: Store, b: Books, id: HoldId, taken: bool)
    requires Shows(s, b)
    ensures Shows(Noted(s, id, taken), b)
  {
  }

  lemma HoldRefused(s: Store, b: Books, c: Call)
    requires Shows(s, b) && Admitted(s, c) && c.HoldCall? && RowIn(s, c.key).available < c.amount
    ensures var job := JobFor(s, c); Shows(LQ.Played(job.body, |job.body|, s), After(b, c))
  {
    PlayedThree(JobFor(s, c).body, s);
    hide Shows, Changed, Touched, LQ.Played;
    TouchedShown(s, b, c.key);
    TakenInvisible(Touched(s, c.key), Books(AddAvailable(b.w, c.key, 0.0), b.ids), c.id, false);
  }

  lemma TakenBooks(b: Books, c: Call)
    requires c.HoldCall? && c.amount > 0.0 && Available(b.w, c.key) >= c.amount
    ensures After(b, c)
         == Books(State(Bump(b.w.rows, c.key, -c.amount, c.amount), b.w.holds + [NewHold(c)]), b.ids + [c.id])
  {
    var w := AddHeld(AddAvailable(b.w, c.key, -c.amount), c.key, c.amount);
    assert w.rows == Bump(b.w.rows, c.key, -c.amount, c.amount);
  }

  lemma FreshName(s: Store, b: Books, id: HoldId)
    requires Shows(s, b) && HoldPlace(id) !in s
    ensures id !in b.ids
  {
  }

  lemma AddedShown(s: Store, b: Books, id: HoldId, h: Hold)
    requires Shows(s, b) && id !in b.ids
    ensures Shows(WithHold(s, id, h), Books(State(b.w.rows, b.w.holds + [h]), b.ids + [id]))
  {
    NewHoldShown(s, b.w.rows, b.ids, b.w.holds, id, h);
    hide WithHold;
  }

  lemma ReserveTakes(s: Store, k: Key, x: real, id: HoldId, h: Hold)
    requires RowIn(s, k).available >= x
    ensures Reserve(k, x, id)(s) == Noted(Changed(s, k, -x, x), id, true)
    ensures PutReserved(id, h)(Noted(Changed(s, k, -x, x), id, true)) == WithHold(Noted(Changed(s, k, -x, x), id, true), id, h)
  {
    hide Changed;
  }

  lemma TouchKeepsRow(s: Store, k: Key)
    ensures Touch(k)(s) == Touched(s, k) && RowIn(Touched(s, k), k) == RowIn(s, k)
  {
  }

  lemma ReservePlayed(s: Store, k: Key, x: real, id: HoldId, h: Hold)
    requires RowIn(s, k).available >= x
    ensures LQ.Played([Touch(k), Reserve(k, x, id), PutReserved(id, h)], 3, s) == WithHold(Noted(Changed(s, k, -x, x), id, true), id, h)
  {
    hide *;
    PlayedThree([Touch(k), Reserve(k, x, id), PutReserved(id, h)], s);
    TouchKeepsRow(s, k);
    ChangeAfterTouch(s, k, -x, x);
    ReserveTakes(Touched(s, k), k, x, id, h);
  }

  lemma HoldShown(s: Store, w: State, ids: seq<HoldId>, k: Key, x: real, id: HoldId, h: Hold)
    requires Shows(s, Books(w, ids)) && id !in ids
    ensures Shows(WithHold(Noted(Changed(s, k, -x, x), id, true), id, h), Books(State(Bump(w.rows, k, -x, x), w.holds + [h]), ids + [id]))
  {
    hide *;
    var s1, w1 := Changed(s, k, -x, x), State(Bump(w.rows, k, -x, x), w.holds);
    BumpedShown(s, w, ids, k, -x, x);
    TakenInvisible(s1, Books(w1, ids), id, true);
    AddedShown(Noted(s1, id, true), Books(w1, ids), id, h);
  }

  lemma HoldBody(s: Store, c: Call)
    requires c.HoldCall?
    ensures JobFor(s, c).body == [Touch(c.key), Reserve(c.key, c.amount, c.id), PutReserved(c.id, NewHold(c))]
  {
  }

  lemma HoldAdmitted(s: Store, b: Books, c: Call)
    requires Admitted(s, c) && c.HoldCall?
    ensures c.amount > 0.0 && HoldPlace(c.id) !in s && Available(b.w, c.key) == RowOf(b.w.rows, c.key).available
  {
  }

  lemma HoldTaken(s: Store, b: Books, c: Call)
    requires Shows(s, b) && Admitted(s, c) && c.HoldCall? && RowIn(s, c.key).available >= c.amount
    ensures var job := JobFor(s, c); Shows(LQ.Played(job.body, |job.body|, s), After(b, c))
  {
    hide *;
    HoldAdmitted(s, b, c);
    FreshName(s, b, c.id);
    TouchedShown(s, b, c.key);
    HoldBody(s, c);
    ReservePlayed(s, c.key, c.amount, c.id, NewHold(c));
    HoldShown(s, b.w, b.ids, c.key, c.amount, c.id, NewHold(c));
    TakenBooks(b, c);
  }

  lemma ReleasePlayed(s: Store, b: Books, id: HoldId)
    requires Shows(s, b) && ActiveIn(s, id)
    ensures var job := JobFor(s, ReleaseCall(id)); Shows(LQ.Played(job.body, |job.body|, s), After(b, ReleaseCall(id)))
  {
    var i := ActiveNumber(s, b, id);
    var h := b.w.holds[i];
    assert JobFor(s, ReleaseCall(id)) == OwnRow(id, h, h.amount, Released);
    assert After(b, ReleaseCall(id)) == Books(ReleaseSection(b.w, i), b.ids);
    hide *;
    ReleaseBumps(b.w, i);
    OwnRowPlayed(s, id, h, h.amount, Released);
    OwnRowShown(s, b.w, b.ids, i, h.amount, Released);
  }

  lemma CapturePlayed(s: Store, b: Books, id: HoldId, to: Did)
    requires Shows(s, b) && ActiveIn(s, id)
    ensures var job := JobFor(s, CaptureCall(id, to)); Shows(LQ.Played(job.body, |job.body|, s), After(b, CaptureCall(id, to)))
  {
    var i := ActiveNumber(s, b, id);
    var h := b.w.holds[i];
    assert JobFor(s, CaptureCall(id, to)) == PayOut(id, h, Key(to, h.currency), h.amount, Captured);
    assert After(b, CaptureCall(id, to)) == Books(Settle(b.w, i, Key(to, h.currency), h.amount, Captured), b.ids);
    hide *;
    PaidOut(s, b, i, Key(to, h.currency), h.amount, Captured);
  }

  lemma ForfeitPlayed(s: Store, b: Books, id: HoldId, split: Split)
    requires Shows(s, b) && ActiveIn(s, id) && 0.0 <= split.Fraction() <= 1.0
    ensures var job := JobFor(s, ForfeitCall(id, split)); Shows(LQ.Played(job.body, |job.body|, s), After(b, ForfeitCall(id, split)))
  {
    var i := ActiveNumber(s, b, id);
    var h := b.w.holds[i];
    var c := ForfeitCall(id, split);
    if split.ToRecipient? && Kept(h, split) > 0.0 {
      var to := Key(split.recipient, h.currency);
      assert JobFor(s, c) == PayOut(id, h, to, Kept(h, split), Forfeited);
      assert After(b, c) == Books(Settle(b.w, i, to, Kept(h, split), Forfeited), b.ids);
      hide *;
      PaidOut(s, b, i, to, Kept(h, split), Forfeited);
    } else {
      assert JobFor(s, c) == OwnRow(id, h, 0.0, Forfeited);
      assert After(b, c) == Books(Burn(b.w, i), b.ids);
      hide *;
      BurnBumps(b.w, i);
      OwnRowPlayed(s, id, h, 0.0, Forfeited);
      OwnRowShown(s, b.w, b.ids, i, 0.0, Forfeited);
    }
  }

  lemma PaidOut(s: Store, b: Books, i: nat, to: Key, paid: real, st: HoldState)
    requires Shows(s, b) && i < |b.w.holds| == |b.ids|
    ensures var job := PayOut(b.ids[i], b.w.holds[i], to, paid, st);
            Shows(LQ.Played(job.body, |job.body|, s), Books(Settle(b.w, i, to, paid, st), b.ids))
  {
    hide *;
    PayOutPlayed(s, b.ids[i], b.w.holds[i], to, paid, st);
    PayOutShown(s, b.w, b.ids, i, to, paid, st);
    SettleBumps(b.w, i, to, paid, st);
  }

  lemma CallPlayed(s: Store, b: Books, c: Call)
    requires Shows(s, b) && Admitted(s, c)
    ensures var job := JobFor(s, c); Shows(LQ.Played(job.body, |job.body|, s), After(b, c))
  {
    assert c.Settles() ==> ActiveIn(s, c.id);
    hide Shows, JobFor, After, LQ.Played;
    match c
    case CreditCall(_, _) => CreditPlayed(s, b, c);
    case DebitCall(_, _) => DebitPlayed(s, b, c);
    case HoldCall(_, _, _, _) =>
      if RowIn(s, c.key).available < c.amount { HoldRefused(s, b, c); } else { HoldTaken(s, b, c); }
    case ReleaseCall(id) => ReleasePlayed(s, b, id);
    case CaptureCall(id, to) => CapturePlayed(s, b, id, to);
    case ForfeitCall(id, split) => ForfeitPlayed(s, b, id, split);
  }

  // ---- overlapping calls ------------------------------------------------------------------

  /** Every job that joins is the section of the next call, and that call passed its checks in the
    stretch in which it joined. */
  ghost predicate CallsJoin(trace: seq<LQ.Queue<Place, Value>>, steps: seq<LQ.Step<Place, Value>>, calls: seq<Call>) {
    && |trace| > |steps|
    && forall n | 0 <= n < |steps| && steps[n].Join? ::
         var m := |trace[n].jobs|;
         m < |calls| && Admitted(trace[n].store, calls[m]) && steps[n].job == JobFor(trace[n].store, calls[m])
  }

  predicate Clash(c: Call, d: Call) {
    c.NamesHold() && d.NamesHold() && c.id == d.id
  }

  /** No call joins while another call that takes or settles the same hold is in flight. */
  ghost predicate NoClash(trace: seq<LQ.Queue<Place, Value>>, steps: seq<LQ.Step<Place, Value>>, calls: seq<Call>) {
    |trace| > |steps| && forall n | 0 <= n < |steps| && steps[n].Join? :: Clear(trace[n], calls)
  }

  ghost predicate Clear(q: LQ.Queue<Place, Value>, calls: seq<Call>) {
    && LQ.Sized(q) && |q.jobs| < |calls|
    && forall i | 0 <= i < |q.jobs| && Clash(calls[i], calls[|q.jobs|]) :: q.phases[i].Done()
  }

  /** Each call would have passed the same checks, and seen the same hold, had its turn come in the
    serial run. */
  ghost predicate Joined(q: LQ.Queue<Place, Value>, calls: seq<Call>, init: Store) {
    && |q.jobs| <= |calls|
    && forall i | 0 <= i < |q.jobs| :: JoinedAt(q, calls[i], i, init)
  }

  ghost predicate JoinedAt(q: LQ.Queue<Place, Value>, c: Call, i: nat, init: Store)
    requires i < |q.jobs|
  {
    var s := LQ.Serial(q.jobs, i, init);
    Admitted(s, c) && q.jobs[i] == JobFor(s, c)
  }

  lemma SameChecks(s: Store, t: Store, c: Call)
    requires c.NamesHold() ==> LQ.Same(s, t, HoldPlace(c.id))
    ensures Admitted(s, c) == Admitted(t, c) && JobFor(s, c) == JobFor(t, c)
  {
  }

  /** A joining call that clashes with none in flight is apart from them. */
  lemma JoinsApart(q: LQ.Queue<Place, Value>, calls: seq<Call>, c: Call, init: Store)
    requires LQ.Sized(q) && Joined(q, calls, init)
    requires forall i | 0 <= i < |q.jobs| && Clash(calls[i], c) :: q.phases[i].Done()
    ensures LQ.Apart(q, JobFor(q.store, c))
  {
    var job := JobFor(q.store, c);
    hide LQ.Local, JobOf;
    JobsAreLocal(c, if c.Settles() then HoldIn(q.store, c.id) else Hold("", "", 0.0, OtherRef(""), Released));
    forall i, l | 0 <= i < |q.jobs| && l in q.jobs[i].Places() && l in job.Places()
      ensures q.phases[i].Done() || (l in q.jobs[i].locks && l in job.locks)
    {
      assert JoinedAt(q, calls[i], i, init);
      var s := LQ.Serial(q.jobs, i, init);
      JobsAreLocal(calls[i], if calls[i].Settles() then HoldIn(s, calls[i].id) else Hold("", "", 0.0, OtherRef(""), Released));
      if !l.RowPlace? { assert Clash(calls[i], c); }
    }
  }

  /** What a call reads in the stretch in which it joins is what the serial run has there. */
  lemma ReadsSerial(q: LQ.Queue<Place, Value>, calls: seq<Call>, c: Call, init: Store)
    requires LQ.QueueInv(q, init) && Joined(q, calls, init) && c.NamesHold()
    requires forall i | 0 <= i < |q.jobs| && Clash(calls[i], c) :: q.phases[i].Done()
    ensures LQ.Same(q.store, LQ.Serial(q.jobs, |q.jobs|, init), HoldPlace(c.id))
  {
    hide LQ.TailsOk, LQ.WaitsOk, LQ.InOrder, LQ.JobsLocal, LQ.SharingOk, LQ.StoreOk, LQ.Local, LQ.Same, LQ.Serial, JobOf, Admitted;
    forall i | 0 <= i < |q.jobs| && HoldPlace(c.id) in q.jobs[i].Places() ensures q.phases[i].Done() {
      assert JoinedAt(q, calls[i], i, init);
      var s := LQ.Serial(q.jobs, i, init);
      JobsAreLocal(calls[i], if calls[i].Settles() then HoldIn(s, calls[i].id) else Hold("", "", 0.0, OtherRef(""), Released));
      assert Clash(calls[i], c);
    }
    LQ.IdlePlaceSerial(q, init, HoldPlace(c.id));
  }

  lemma JoinKeepsJoined(q: LQ.Queue<Place, Value>, calls: seq<Call>, init: Store)
    requires LQ.QueueInv(q, init) && Joined(q, calls, init) && |q.jobs| < |calls| && Admitted(q.store, calls[|q.jobs|])
    requires forall i | 0 <= i < |q.jobs| && Clash(calls[i], calls[|q.jobs|]) :: q.phases[i].Done()
    ensures Joined(LQ.Next(q, LQ.Join(JobFor(q.store, calls[|q.jobs|]))), calls, init)
  {
    var n := |q.jobs|;
    var c := calls[n];
    var job := JobFor(q.store, c);
    var q' := LQ.Next(q, LQ.Join(job));
    if c.NamesHold() { ReadsSerial(q, calls, c, init); }
    SameChecks(q.store, LQ.Serial(q.jobs, n, init), c);
    hide LQ.QueueInv, JobFor, Admitted, LQ.Serial, Clash;
    forall i | 0 <= i < |q'.jobs| ensures JoinedAt(q', calls[i], i, init) {
      LQ.SerialAppended(q.jobs, job, i, init);
      if i < n { assert JoinedAt(q, calls[i], i, init); }
    }
  }

  lemma {:induction false} WalletRunKeeps(trace: seq<LQ.Queue<Place, Value>>, steps: seq<LQ.Step<Place, Value>>,
                                          calls: seq<Call>, init: Store, n: nat)
    requires LQ.IsRun(trace, steps, init) && CallsJoin(trace, steps, calls) && NoClash(trace, steps, calls) && n < |trace|
    ensures LQ.QueueInv(trace[n], init) && Joined(trace[n], calls, init)
    decreases n
  {
    if n > 0 {
      WalletRunKeeps(trace, steps, calls, init, n - 1);
      var q, step := trace[n - 1], steps[n - 1];
      assert LQ.Sized(q) && LQ.Enabled(q, step) && trace[n] == LQ.Next(q, step);
      if step.Join? {
        var c := calls[|q.jobs|];
        assert Clear(q, calls);
        JoinsApart(q, calls, c, init);
        JoinKeepsJoined(q, calls, init);
      } else {
        StepKeepsJoined(q, step, calls, init);
      }
      hide LQ.QueueInv, LQ.Apart, Joined, JobFor, Admitted, Clash;
      LQ.StepKeepsInv(q, step, init);
    }
  }

  lemma StepKeepsJoined(q: LQ.Queue<Place, Value>, step: LQ.Step<Place, Value>, calls: seq<Call>, init: Store)
    requires LQ.Sized(q) && LQ.Enabled(q, step) && Joined(q, calls, init) && !step.Join?
    ensures Joined(LQ.Next(q, step), calls, init)
  {
    var q' := LQ.Next(q, step);
    hide JobFor, Admitted, LQ.Serial;
    forall i | 0 <= i < |q'.jobs| ensures JoinedAt(q', calls[i], i, init) {
      assert JoinedAt(q, calls[i], i, init);
    }
  }

  lemma {:induction false} SerialShown(q: LQ.Queue<Place, Value>, calls: seq<Call>, init: Store, b: Books, m: nat)
    requires Joined(q, calls, init) && m <= |q.jobs| && Shows(init, b)
    ensures Shows(LQ.Serial(q.jobs, m, init), AfterAll(b, calls[..m]))
    decreases m
  {
    if m == 0 {
      assert calls[..0] == [];
    } else {
      SerialShown(q, calls, init, b, m - 1);
      SerialNext(q, calls, init, b, m - 1);
    }
  }

  lemma JoinedGives(q: LQ.Queue<Place, Value>, calls: seq<Call>, init: Store, m: nat)
    requires Joined(q, calls, init) && m < |q.jobs|
    ensures m < |calls|
    ensures var s := LQ.Serial(q.jobs, m, init); Admitted(s, calls[m]) && q.jobs[m] == JobFor(s, calls[m])
  {
    assert JoinedAt(q, calls[m], m, init);
    hide Admitted, JobFor, LQ.Serial;
  }

  lemma NextPlayed(q: LQ.Queue<Place, Value>, init: Store, m: nat)
    requires m < |q.jobs|
    ensures LQ.Serial(q.jobs, m + 1, init) == LQ.Played(q.jobs[m].body, |q.jobs[m].body|, LQ.Serial(q.jobs, m, init))
  {
    hide LQ.Played;
  }

  lemma NextAfter(b: Books, calls: seq<Call>, m: nat)
    requires m < |calls|
    ensures AfterAll(b, calls[..m + 1]) == After(AfterAll(b, calls[..m]), calls[m])
  {
    assert calls[..m + 1][..m] == calls[..m] && calls[..m + 1][m] == calls[m];
    hide After;
  }

  lemma SerialNext(q: LQ.Queue<Place, Value>, calls: seq<Call>, init: Store, b: Books, m: nat)
    requires Joined(q, calls, init) && m < |q.jobs|
    requires Shows(LQ.Serial(q.jobs, m, init), AfterAll(b, calls[..m]))
    ensures Shows(LQ.Serial(q.jobs, m + 1, init), AfterAll(b, calls[..m + 1]))
  {
    hide *;
    JoinedGives(q, calls, init, m);
    NextPlayed(q, init, m);
    NextAfter(b, calls, m);
    CallPlayed(LQ.Serial(q.jobs, m, init), AfterAll(b, calls[..m]), calls[m]);
  }

  /** Any interleaving, await by await, of wallet calls of which no two in flight name the same hold:
    whenever all that joined have finished, the rows and holds in the store are those of the books
    after the same calls one by one, in the order they joined, and those books are a run of the
    specification. A hold may be taken, and later settled, within the run. */
  lemma OverlappingCallsSerialise(trace: seq<LQ.Queue<Place, Value>>, steps: seq<LQ.Step<Place, Value>>,
                                  calls: seq<Call>, init: Store, b: Books, n: nat)
    requires LQ.IsRun(trace, steps, init) && CallsJoin(trace, steps, calls) && NoClash(trace, steps, calls)
    requires Shows(init, b) && n < |trace| && LQ.Sized(trace[n])
    requires forall i | 0 <= i < |trace[n].jobs| :: trace[n].phases[i].Done()
    ensures |trace[n].jobs| <= |calls|
    ensures var done := calls[..|trace[n].jobs|];
            && Shows(trace[n].store, AfterAll(b, done))
            && AfterAll(b, done).w == Run(b.w, OpsOf(b, done))
            && (Inv(b.w) ==> Inv(AfterAll(b, done).w))
  {
    var q := trace[n];
    WalletRunKeeps(trace, steps, calls, init, n);
    LQ.DoneIsSerial(q, init);
    SerialShown(q, calls, init, b, |q.jobs|);
    var done := calls[..|q.jobs|];
    AfterAllIsRun(b, done);
    if Inv(b.w) { Wallet.RunKeepsInv(b.w, OpsOf(b, done)); }
  }

  /** The checks, asked of the books. */
  predicate AdmittedBy(b: Books, c: Call) {
    match c
    case CreditCall(_, x) => x > 0.0
    case DebitCall(_, x) => x > 0.0
    case HoldCall(_, x, _, id) => x > 0.0 && id !in b.ids
    case ReleaseCall(id) => CheckActive(b.w, Number(b.ids, id)).Done?
    case CaptureCall(id, _) => CheckActive(b.w, Number(b.ids, id)).Done?
    case ForfeitCall(id, split) => CheckActive(b.w, Number(b.ids, id)).Done? && 0.0 <= split.Fraction() <= 1.0
  }

  /** A call is not admitted exactly if the specification's call throws for what is checked before the lock:
    an amount that is not positive, a hold that is not active, a fraction outside [0, 1]. Insufficient
    balance is found out inside. */
  lemma AdmittedIff(b: Books, c: Call)
    requires c.HoldCall? ==> c.id !in b.ids
    ensures AdmittedBy(b, c) <==> var o := Apply(b.w, OpOf(b.ids, c)); o.Done? || o.error == Outcomes.Insufficient
  {
    hide ReleaseSection, CaptureSection, ForfeitSection, AddAvailable, AddHeld, WithHolds;
  }

  lemma SameAdmission(s: Store, b: Books, c: Call)
    requires Shows(s, b) && AdmittedBy(b, c)
    ensures Admitted(s, c)
  {
    if c.Settles() {
      var i := Number(b.ids, c.id);
      assert HoldPlace(b.ids[i]) in s && s[HoldPlace(b.ids[i])] == HoldValue(b.w.holds[i]);
    }
  }

  ghost predicate AdmittedInTurn(b: Books, calls: seq<Call>) {
    forall m | 0 <= m < |calls| :: AdmittedBy(AfterAll(b, calls[..m]), calls[m])
  }

  lemma StillJoins(trace: seq<Queue>, steps: seq<LQ.Step<Place, Value>>, trace': seq<Queue>, steps': seq<LQ.Step<Place, Value>>,
                   calls: seq<Call>, c: Call)
    requires |trace| == |steps| + 1 && |trace'| == |steps'| + 1 && trace <= trace' && LQ.Sized(trace[|steps|])
    requires CallsJoin(trace, steps, calls) && NoClash(trace, steps, calls) && |trace[|steps|].jobs| == |calls|
    requires forall i | 0 <= i < |calls| :: trace[|steps|].phases[i].Done()
    requires Admitted(trace[|steps|].store, c) && steps + [LQ.Join(JobFor(trace[|steps|].store, c))] <= steps'
    requires forall n | |steps| < n < |steps'| :: !steps'[n].Join?
    ensures CallsJoin(trace', steps', calls + [c]) && NoClash(trace', steps', calls + [c])
  {
    var calls' := calls + [c];
    hide Admitted, JobFor, Clash;
    forall n | 0 <= n < |steps'| && steps'[n].Join?
      ensures var m := |trace'[n].jobs|;
              m < |calls'| && Admitted(trace'[n].store, calls'[m]) && steps'[n].job == JobFor(trace'[n].store, calls'[m])
      ensures Clear(trace'[n], calls')
    {
      assert trace'[n] == trace[n];
      if n < |steps| { assert steps'[n] == steps[n] && Clear(trace[n], calls); }
    }
  }

  lemma AdmittedBefore(b: Books, calls: seq<Call>)
    requires AdmittedInTurn(b, calls) && calls != []
    ensures var n := |calls| - 1; AdmittedInTurn(b, calls[..n]) && AdmittedBy(AfterAll(b, calls[..n]), calls[n])
  {
    var n := |calls| - 1;
    hide AdmittedBy, AfterAll;
    assert forall m | 0 <= m < n :: calls[..n][..m] == calls[..m];
  }

  lemma NothingRuns(init: Store) returns (trace: seq<Queue>, steps: seq<LQ.Step<Place, Value>>)
    ensures LQ.IsRun(trace, steps, init) && CallsJoin(trace, steps, []) && NoClash(trace, steps, [])
    ensures var q := trace[|steps|]; LQ.Sized(q) && q.jobs == []
  {
    trace, steps := [LQ.Queue([], [], [], map[], init)], [];
  }

  lemma RunShape(trace: seq<Queue>, steps: seq<LQ.Step<Place, Value>>, init: Store)
    requires LQ.IsRun(trace, steps, init)
    ensures |trace| == |steps| + 1
  {
  }

  /** Whatever calls the books admit in turn, there is a run in which they all join and finish. */
  lemma {:induction false} CallsRun(init: Store, b: Books, calls: seq<Call>) returns (trace: seq<Queue>, steps: seq<LQ.Step<Place, Value>>)
    requires Shows(init, b) && AdmittedInTurn(b, calls)
    ensures LQ.IsRun(trace, steps, init) && CallsJoin(trace, steps, calls) && NoClash(trace, steps, calls)
    ensures var q := trace[|steps|]; LQ.Sized(q) && |q.jobs| == |calls| && forall i | 0 <= i < |q.jobs| :: q.phases[i].Done()
    decreases |calls|
  {
    hide *;
    if calls == [] {
      trace, steps := NothingRuns(init);
    } else {
      var n := |calls| - 1;
      var before, c := calls[..n], calls[n];
      AdmittedBefore(b, calls);
      assert before[..n] == before && before + [c] == calls;
      trace, steps := CallsRun(init, b, before);
      RunShape(trace, steps, init);
      OverlappingCallsSerialise(trace, steps, before, init, b, |steps|);
      var q := trace[|steps|];
      SameAdmission(q.store, AfterAll(b, before), c);
      var trace', steps' := LQ.RunsAlone(trace, steps, init, JobFor(q.store, c));
      RunShape(trace', steps', init);
      StillJoins(trace, steps, trace', steps', before, c);
      trace, steps := trace', steps';
    }
  }

  // ---- the clash that the check before the lock lets in -----------------------------------

  function TwoJoined(job: LQ.Job<Place, Value>, first: LQ.Phase, second: LQ.Phase, tails: map<Place, nat>, s: Store): Queue {
    LQ.Queue([job, job], [first, second], [{}, {0}], tails, s)
  }

  lemma TwoJoin(init: Store, job: LQ.Job<Place, Value>)
    requires job.locks != {}
    ensures var q0: Queue := LQ.Queue([], [], [], map[], init);
            LQ.Next(LQ.Next(q0, LQ.Join(job)), LQ.Join(job))
            == TwoJoined(job, LQ.Waiting, LQ.Waiting, map k | k in job.locks :: 1, init)
  {
    var q0: Queue := LQ.Queue([], [], [], map[], init);
    var q1 := LQ.Next(q0, LQ.Join(job));
    var q2 := LQ.Next(q1, LQ.Join(job));
    assert q1.waits[0] == {} && q1.waits == [{}];
    var k :| k in job.locks;
    assert q2.waits[1] == {0} by { assert q1.tails[k] in q2.waits[1]; }
    assert q2.tails == map k | k in job.locks :: 1;
  }

  ghost predicate Fits(q: Queue, step: LQ.Step<Place, Value>, q': Queue) {
    LQ.Sized(q) && LQ.Enabled(q, step) && q' == LQ.Next(q, step)
  }

  lemma FirstFits(job: LQ.Job<Place, Value>, tails: map<Place, nat>, s: Store)
    requires |job.body| == 3
    ensures var a := TwoJoined(job, LQ.Running(0), LQ.Waiting, tails, s);
            && Fits(TwoJoined(job, LQ.Waiting, LQ.Waiting, tails, s), LQ.Start(0), LQ.PlayedBy(a, 0, 0))
            && (forall k | 0 <= k < 3 :: Fits(LQ.PlayedBy(a, 0, k), LQ.Act(0), LQ.PlayedBy(a, 0, k + 1)))
            && Fits(LQ.PlayedBy(a, 0, 3), LQ.Finish(0), TwoJoined(job, LQ.Finished, LQ.Waiting, tails, LQ.Played(job.body, 3, s)))
  {
    var a := TwoJoined(job, LQ.Running(0), LQ.Waiting, tails, s);
    forall k | 0 <= k < 3 ensures Fits(LQ.PlayedBy(a, 0, k), LQ.Act(0), LQ.PlayedBy(a, 0, k + 1)) { LQ.ActPlays(a, 0, k); }
  }

  lemma SecondFits(job: LQ.Job<Place, Value>, tails: map<Place, nat>, s: Store)
    requires |job.body| == 3
    ensures var b := TwoJoined(job, LQ.Finished, LQ.Running(0), tails, s);
            && Fits(TwoJoined(job, LQ.Finished, LQ.Waiting, tails, s), LQ.Start(1), LQ.PlayedBy(b, 1, 0))
            && (forall k | 0 <= k < 3 :: Fits(LQ.PlayedBy(b, 1, k), LQ.Act(1), LQ.PlayedBy(b, 1, k + 1)))
            && Fits(LQ.PlayedBy(b, 1, 3), LQ.Finish(1), TwoJoined(job, LQ.Finished, LQ.Finished, tails, LQ.Played(job.body, 3, s)))
  {
    var b := TwoJoined(job, LQ.Finished, LQ.Running(0), tails, s);
    forall k | 0 <= k < 3 ensures Fits(LQ.PlayedBy(b, 1, k), LQ.Act(1), LQ.PlayedBy(b, 1, k + 1)) { LQ.ActPlays(b, 1, k); }
  }

  ghost function TwoSteps(job: LQ.Job<Place, Value>): seq<LQ.Step<Place, Value>> {
    [LQ.Join(job), LQ.Join(job), LQ.Start(0), LQ.Act(0), LQ.Act(0), LQ.Act(0), LQ.Finish(0),
     LQ.Start(1), LQ.Act(1), LQ.Act(1), LQ.Act(1), LQ.Finish(1)]
  }

  /** Two calls with one section that join before either starts, run to their ends one by one. */
  ghost function TwoStates(init: Store, job: LQ.Job<Place, Value>, n: nat): Queue
    requires |job.body| == 3
  {
    var tails: map<Place, nat> := map k | k in job.locks :: 1;
    var s := LQ.Played(job.body, 3, init);
    var q0: Queue := LQ.Queue([], [], [], map[], init);
    if n == 0 then q0
    else if n == 1 then LQ.Next(q0, LQ.Join(job))
    else if n == 2 then TwoJoined(job, LQ.Waiting, LQ.Waiting, tails, init)
    else if n < 7 then LQ.PlayedBy(TwoJoined(job, LQ.Running(0), LQ.Waiting, tails, init), 0, n - 3)
    else if n == 7 then TwoJoined(job, LQ.Finished, LQ.Waiting, tails, s)
    else if n < 12 then LQ.PlayedBy(TwoJoined(job, LQ.Finished, LQ.Running(0), tails, s), 1, n - 8)
    else TwoJoined(job, LQ.Finished, LQ.Finished, tails, LQ.Played(job.body, 3, s))
  }

  lemma TwoStatesFit(init: Store, job: LQ.Job<Place, Value>, n: nat)
    requires |job.body| == 3 && job.locks != {} && n < 12
    ensures Fits(TwoStates(init, job, n), TwoSteps(job)[n], TwoStates(init, job, n + 1))
  {
    var tails: map<Place, nat> := map k | k in job.locks :: 1;
    var s := LQ.Played(job.body, 3, init);
    TwoJoin(init, job);
    if n < 2 {
      hide TwoJoined, LQ.Played, LQ.PlayedBy;
    } else {
      hide Fits, TwoJoined, LQ.Played, LQ.PlayedBy, LQ.Next;
      FirstFits(job, tails, init);
      SecondFits(job, tails, s);
    }
  }

  lemma TwoInARow(init: Store, job: LQ.Job<Place, Value>) returns (trace: seq<Queue>, steps: seq<LQ.Step<Place, Value>>)
    requires |job.body| == 3 && job.locks != {}
    ensures LQ.IsRun(trace, steps, init) && |steps| == 12
    ensures forall n | 0 <= n < |steps| && steps[n].Join? :: n < 2 && steps[n].job == job && trace[n].store == init && |trace[n].jobs| == n
    ensures trace[12] == TwoJoined(job, LQ.Finished, LQ.Finished, trace[12].tails, LQ.Played(job.body, 3, LQ.Played(job.body, 3, init)))
  {
    trace, steps := seq(13, n requires 0 <= n < 13 => TwoStates(init, job, n)), TwoSteps(job);
    assert |TwoStates(init, job, 1).jobs| == 1 && TwoStates(init, job, 1).store == init;
    forall n | 0 <= n < 12 ensures Fits(trace[n], steps[n], trace[n + 1]) {
      hide TwoStates, Fits, TwoSteps;
      TwoStatesFit(init, job, n);
    }
    hide LQ.Enabled, LQ.Next, LQ.Played, LQ.PlayedBy;
  }

  /** From any books in order, two releases of an active hold that both join before either starts
    pass their checks, pay the hold out twice and break the books. */
  lemma OverlappingReleasesPayTwice(init: Store, b: Books, i: nat) returns (trace: seq<Queue>, steps: seq<LQ.Step<Place, Value>>)
    requires Shows(init, b) && Inv(b.w) && i < |b.w.holds| == |b.ids| && b.w.holds[i].state == Active
    ensures LQ.IsRun(trace, steps, init) && CallsJoin(trace, steps, [ReleaseCall(b.ids[i]), ReleaseCall(b.ids[i])])
    ensures var q := trace[|steps|]; |q.jobs| == 2 && LQ.Sized(q) && forall n | 0 <= n < 2 :: q.phases[n].Done()
    ensures var twice := ReleaseSection(ReleaseSection(b.w, i), i);
            && Shows(trace[|steps|].store, Books(twice, b.ids)) && !Inv(twice)
            && Available(twice, b.w.holds[i].Account()) == Available(b.w, b.w.holds[i].Account()) + 2.0 * b.w.holds[i].amount
  {
    var h, id := b.w.holds[i], b.ids[i];
    var job := OwnRow(id, h, h.amount, Released);
    trace, steps := TwoInARow(init, job);
    assert CallsJoin(trace, steps, [ReleaseCall(id), ReleaseCall(id)]) by { ReleaseJoins(init, b, i); }
    hide LQ.IsRun, CallsJoin, LQ.Played, OwnRow, Shows;
    ReleasedOnce(init, b.w, b.ids, i);
    ReleasedOnce(LQ.Played(job.body, 3, init), ReleaseSection(b.w, i), b.ids, i);
    TwiceBreaks(b.w, i);
  }

  lemma ReleaseJoins(init: Store, b: Books, i: nat)
    requires Shows(init, b) && i < |b.w.holds| == |b.ids| && b.w.holds[i].state == Active
    ensures var c := ReleaseCall(b.ids[i]); Admitted(init, c) && JobFor(init, c) == OwnRow(b.ids[i], b.w.holds[i], b.w.holds[i].amount, Released)
  {
    assert ActiveIn(init, b.ids[i]) && HoldIn(init, b.ids[i]) == b.w.holds[i];
  }

  /** The section of a release, read when the hold was `h`, on books in which it may be settled. */
  lemma ReleasedOnce(s: Store, w: State, ids: seq<HoldId>, i: nat)
    requires Shows(s, Books(w, ids)) && i < |w.holds| == |ids|
    ensures forall st :: var h := w.holds[i].(state := st); var job := OwnRow(ids[i], h, h.amount, Released);
            |job.body| == 3 && Shows(LQ.Played(job.body, 3, s), Books(ReleaseSection(w, i), ids))
  {
    var h := w.holds[i];
    forall st ensures var h' := h.(state := st); var job := OwnRow(ids[i], h', h'.amount, Released);
                      |job.body| == 3 && Shows(LQ.Played(job.body, 3, s), Books(ReleaseSection(w, i), ids))
    {
      var h' := h.(state := st);
      assert h'.Account() == h.Account() && h'.(state := Released) == h.(state := Released);
      assert |OwnRow(ids[i], h', h'.amount, Released).body| == 3;
      hide *;
      OwnRowPlayed(s, ids[i], h', h'.amount, Released);
      OwnRowShown(s, w, ids, i, h.amount, Released);
      ReleaseBumps(w, i);
    }
  }

  lemma TwiceBreaks(w: State, i: nat)
    requires Inv(w) && i < |w.holds| && w.holds[i].state == Active
    ensures var twice := ReleaseSection(ReleaseSection(w, i), i);
            !Inv(twice) && Available(twice, w.holds[i].Account()) == Available(w, w.holds[i].Account()) + 2.0 * w.holds[i].amount
  {
    var w1 := ReleaseSection(w, i);
    SectionsSafeIff(w, i, "", BurnAll);
    SectionsSafeIff(w1, i, "", BurnAll);
  }
}
