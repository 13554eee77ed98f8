/** The value store as the service object the other features call: live rows that every caller of
  getOrCreate shares, a hold table and the spend book. Each method is one call run on its own; what
  overlapping calls do is in LockQueue. */
module WalletService {
  import opened Outcomes
  import opened Wallet
  import opened Spends

  /** A wallet row as the repository hands it out: changing it changes the stored balance. */
  class LiveRow {
    var available: real
    var held: real

    constructor ()
      ensures available == 0.0 && held == 0.0
    {
      available, held := 0.0, 0.0;
    }
  }

  function WithRow(w: State, k: Key, row: Row): State {
    w.(rows := w.rows[k := row])
  }

  lemma AddsAre(w: State, k: Key, x: real)
    ensures AddAvailable(w, k, x) == WithRow(w, k, Row(Available(w, k) + x, Held(w, k)))
    ensures AddHeld(w, k, x) == WithRow(w, k, Row(Available(w, k), Held(w, k) + x))
  {
  }

  /** Creating the row on the way changes nothing about what is written. */
  lemma CreatedThenAdded(w: State, k: Key, x: real)
    ensures AddAvailable(AddAvailable(w, k, 0.0), k, x) == AddAvailable(w, k, x)
    ensures AddHeld(AddAvailable(w, k, 0.0), k, x) == AddHeld(w, k, x)
  {
    var w0 := AddAvailable(w, k, 0.0);
    assert w0.rows[k := Row(Available(w, k) + x, Held(w, k))] == w.rows[k := Row(Available(w, k) + x, Held(w, k))];
    assert w0.rows[k := Row(Available(w, k), Held(w, k) + x)] == w.rows[k := Row(Available(w, k), Held(w, k) + x)];
  }

  /** TakeHold, case by case. */
  lemma TakeHoldIs(w: State, k: Key, amount: real, ref: Ref)
    ensures amount <= 0.0 ==> TakeHold(w, k, amount, ref) == Thrown(w, Invalid)
    ensures amount > Available(w, k) && amount > 0.0 ==> TakeHold(w, k, amount, ref) == Thrown(AddAvailable(w, k, 0.0), Insufficient)
    ensures 0.0 < amount <= Available(w, k) ==>
              var w' := AddHeld(AddAvailable(w, k, -amount), k, amount);
              TakeHold(w, k, amount, ref) == Done(WithHolds(w', w'.holds + [Hold.Hold(k.did, k.currency, amount, ref, Active)]))
  {
  }

  /** The settlements, case by case. */
  lemma SettlementsAre(w: State, id: nat, to: Did, split: Split)
    ensures id >= |w.holds| ==>
              Release(w, id) == Capture(w, id, to) == Forfeit(w, id, split) == Thrown(w, NotFound)
    ensures id < |w.holds| && w.holds[id].state != Active ==>
              Release(w, id) == Capture(w, id, to) == Forfeit(w, id, split) == Thrown(w, Conflict)
    ensures id < |w.holds| && w.holds[id].state == Active ==>
              var h := w.holds[id]; var w1 := AddHeld(w, h.Account(), -h.amount);
              && Release(w, id) == Done(SetHold(AddAvailable(w1, h.Account(), h.amount), id, Released))
              && Capture(w, id, to) == Done(SetHold(AddAvailable(w1, Key(to, h.currency), h.amount), id, Captured))
              && Forfeit(w, id, split)
                 == if !(0.0 <= split.Fraction() <= 1.0) then Thrown(w, Invalid)
                    else if split.ToRecipient? && Kept(h, split) > 0.0 then
                      Done(SetHold(AddAvailable(w1, Key(split.recipient, h.currency), Kept(h, split)), id, Forfeited))
                    else Done(SetHold(w1, id, Forfeited))
  {
    hide Kept;
  }

  class WalletService {
    var rows: map<Key, LiveRow>
    var holds: seq<Hold>
    var spends: Book
    /** What the live rows say. */
    ghost var balances: map<Key, Row>
    /** The live rows themselves. */
    ghost var live: set<LiveRow>

    /** No two wallets share a row, and the balances are the rows' contents. */
    ghost predicate Valid()
      reads this, live
    {
      && (forall k :: k in rows ==> rows[k] in live)
      && (forall j, k :: j in rows && k in rows && j != k ==> rows[j] != rows[k])
      && balances.Keys == rows.Keys
      && (forall k :: k in rows ==> balances[k] == Row(rows[k].available, rows[k].held))
    }

    ghost function Store(): State
      reads this
    {
      State(balances, holds)
    }

    constructor ()
      ensures Valid() && Store() == EMPTY && spends == map[]
      ensures live == {}
    {
      rows, holds, spends, balances, live := map[], [], map[], map[], {};
    }

    /** Hands out the one live row of a wallet, creating it on first use. */
    method GetOrCreate(k: Key) returns (row: LiveRow)
      requires Valid()
      modifies this`rows, this`balances, this`live
      ensures Valid() && fresh(live - old(live)) && k in rows && rows[k] == row
      ensures Store() == AddAvailable(old(Store()), k, 0.0)
      ensures row.available == Available(Store(), k) && row.held == Held(Store(), k)
    {
      if k in rows {
        row := rows[k];
        assert balances == balances[k := Row(row.available, row.held)];
      } else {
        row := new LiveRow();
        rows := rows[k := row];
        balances := balances[k := Row(0.0, 0.0)];
        live := live + {row};
      }
    }

    method BalanceOf(k: Key) returns (amount: real)
      requires Valid()
      ensures amount == Available(Store(), k)
    {
      amount := if k in rows then rows[k].available else 0.0;
    }

    /** Writes changed amounts into a live row. */
    method PutRow(k: Key, row: LiveRow, available: real, held: real)
      requires Valid() && k in rows && rows[k] == row
      modifies row, this`balances
      ensures Valid() && Store() == WithRow(old(Store()), k, Row(available, held))
    {
      row.available, row.held := available, held;
      balances := balances[k := Row(available, held)];
    }

    /** Changes the available part of a wallet in its live row. */
    method ChangeAvailable(k: Key, x: real)
      requires Valid()
      modifies this`rows, this`balances, this`live, live
      ensures Valid() && fresh(live - old(live))
      ensures Store() == AddAvailable(old(Store()), k, x)
    {
      var row := GetOrCreate(k);
      label Got:
      PutRow(k, row, row.available + x, row.held);
      AddsAre(old@Got(Store()), k, x);
      hide *;
      CreatedThenAdded(old(Store()), k, x);
    }

    /** Changes the held part of a wallet in its live row. */
    method ChangeHeld(k: Key, x: real)
      requires Valid()
      modifies this`rows, this`balances, this`live, live
      ensures Valid() && fresh(live - old(live))
      ensures Store() == AddHeld(old(Store()), k, x)
    {
      var row := GetOrCreate(k);
      label Got:
      PutRow(k, row, row.available, row.held + x);
      AddsAre(old@Got(Store()), k, x);
      hide *;
      CreatedThenAdded(old(Store()), k, x);
    }

    method PutHold(id: nat, s: HoldState)
      requires Valid() && id < |holds|
      modifies this`holds
      ensures Valid() && Store() == SetHold(old(Store()), id, s)
    {
      holds := holds[id := holds[id].(state := s)];
    }

    method MoveToHeld(k: Key, amount: real)
      requires Valid()
      modifies this`rows, this`balances, this`live, live
      ensures Valid() && fresh(live - old(live))
      ensures Store() == AddHeld(AddAvailable(old(Store()), k, -amount), k, amount)
    {
      hide Store, Valid, AddAvailable, AddHeld;
      ChangeAvailable(k, -amount);
      ChangeHeld(k, amount);
    }

    /** The held amount leaves the owner's row and `paid` reaches the recipient's, which may be the same. */
    method PayOut(h: Hold, to: Key, paid: real)
      requires Valid()
      modifies this`rows, this`balances, this`live, live
      ensures Valid() && fresh(live - old(live))
      ensures Store() == AddAvailable(AddHeld(old(Store()), h.Account(), -h.amount), to, paid)
    {
      hide Store, Valid, AddAvailable, AddHeld;
      ChangeHeld(h.Account(), -h.amount);
      ChangeAvailable(to, paid);
    }

    /** With nothing left to pay, no row is touched but the owner's. */
    method PayOrBurn(h: Hold, split: Split, kept: real)
      requires Valid()
      modifies this`rows, this`balances, this`live, live
      ensures Valid() && fresh(live - old(live))
      ensures Store() == if split.ToRecipient? && kept > 0.0
                         then AddAvailable(AddHeld(old(Store()), h.Account(), -h.amount), Key(split.recipient, h.currency), kept)
                         else AddHeld(old(Store()), h.Account(), -h.amount)
    {
      hide Store, Valid, AddAvailable, AddHeld;
      if split.ToRecipient? && kept > 0.0 {
        PayOut(h, Key(split.recipient, h.currency), kept);
      } else {
        ChangeHeld(h.Account(), -h.amount);
      }
    }

    method AddHold(h: Hold)
      requires Valid()
      modifies this`holds
      ensures Valid() && Store() == WithHolds(old(Store()), old(Store()).holds + [h])
    {
      holds := holds + [h];
    }

    method Credit(k: Key, amount: real) returns (error: Option<Error>)
      requires Valid()
      modifies this`rows, this`balances, this`live, live
      ensures Valid() && fresh(live - old(live))
      ensures Store() == Wallet.Credit(old(Store()), k, amount).state
      ensures error == ErrorOf(Wallet.Credit(old(Store()), k, amount))
    {
      hide Store, Valid, AddAvailable;
      if amount <= 0.0 { return Some(Invalid); }
      ChangeAvailable(k, amount);
      error := None;
    }

    method Debit(k: Key, amount: real) returns (error: Option<Error>)
      requires Valid()
      modifies this`rows, this`balances, this`live, live
      ensures Valid() && fresh(live - old(live))
      ensures Store() == Wallet.Debit(old(Store()), k, amount).state
      ensures error == ErrorOf(Wallet.Debit(old(Store()), k, amount))
    {
      hide Store, Valid, AddAvailable;
      if amount <= 0.0 { return Some(Invalid); }
      var row := GetOrCreate(k);
      if row.available < amount { return Some(Insufficient); }
      ChangeAvailable(k, -amount);
      CreatedThenAdded(old(Store()), k, -amount);
      error := None;
    }

    /** On success `id` names the new hold. */
    method Hold(k: Key, amount: real, ref: Ref) returns (error: Option<Error>, id: nat)
      requires Valid()
      modifies this`rows, this`balances, this`live, this`holds, live
      ensures Valid() && fresh(live - old(live))
      ensures Store() == TakeHold(old(Store()), k, amount, ref).state
      ensures error == ErrorOf(TakeHold(old(Store()), k, amount, ref))
      ensures id == |old(holds)|
    {
      id := |holds|;
      TakeHoldIs(Store(), k, amount, ref);
      hide Store, Valid, AddAvailable, AddHeld, WithHolds, TakeHold;
      if amount <= 0.0 { return Some(Invalid), id; }
      var row := GetOrCreate(k);
      if row.available < amount { return Some(Insufficient), id; }
      MoveToHeld(k, amount);
      CreatedThenAdded(old(Store()), k, -amount);
      AddHold(Wallet.Hold.Hold(k.did, k.currency, amount, ref, Active));
      error := None;
    }

    method Release(id: nat) returns (error: Option<Error>)
      requires Valid()
      modifies this`rows, this`balances, this`live, this`holds, live
      ensures Valid() && fresh(live - old(live))
      ensures Store() == Wallet.Release(old(Store()), id).state
      ensures error == ErrorOf(Wallet.Release(old(Store()), id))
    {
      SettlementsAre(Store(), id, "", BurnAll);
      assert Store().holds == holds;
      hide Store, Valid, AddAvailable, AddHeld, SetHold, Wallet.Release;
      if id >= |holds| { return Some(NotFound); }
      var h := holds[id];
      if h.state != Active { return Some(Conflict); }
      PayOut(h, h.Account(), h.amount);
      PutHold(id, Released);
      error := None;
    }

    method Capture(id: nat, to: Did) returns (error: Option<Error>)
      requires Valid()
      modifies this`rows, this`balances, this`live, this`holds, live
      ensures Valid() && fresh(live - old(live))
      ensures Store() == Wallet.Capture(old(Store()), id, to).state
      ensures error == ErrorOf(Wallet.Capture(old(Store()), id, to))
    {
      SettlementsAre(Store(), id, to, BurnAll);
      assert Store().holds == holds;
      hide Store, Valid, AddAvailable, AddHeld, SetHold, Wallet.Capture;
      if id >= |holds| { return Some(NotFound); }
      var h := holds[id];
      if h.state != Active { return Some(Conflict); }
      PayOut(h, Key(to, h.currency), h.amount);
      PutHold(id, Captured);
      error := None;
    }

    method Forfeit(id: nat, split: Split) returns (error: Option<Error>)
      requires Valid()
      modifies this`rows, this`balances, this`live, this`holds, live
      ensures Valid() && fresh(live - old(live))
      ensures Store() == Wallet.Forfeit(old(Store()), id, split).state
      ensures error == ErrorOf(Wallet.Forfeit(old(Store()), id, split))
    {
      SettlementsAre(Store(), id, "", split);
      assert Store().holds == holds;
      hide Store, Valid, AddAvailable, AddHeld, SetHold, Wallet.Forfeit;
      if id >= |holds| { return Some(NotFound); }
      var h := holds[id];
      if h.state != Active { return Some(Conflict); }
      if split.Fraction() < 0.0 || split.Fraction() > 1.0 { return Some(Invalid); }
      hide Kept;
      var kept := Kept(h, split);
      PayOrBurn(h, split, kept);
      PutHold(id, Forfeited);
      error := None;
    }

    method RecordSpend(k: Key, amount: real, today: int) returns (error: Option<Error>)
      requires Valid()
      modifies this`spends
      ensures Valid()
      ensures spends == Spends.RecordSpend(old(spends), k, amount, today).state
      ensures error == ErrorOf(Spends.RecordSpend(old(spends), k, amount, today))
    {
      if amount <= 0.0 { return Some(Invalid); }
      var row := RowOf(spends, k);
      var daily := if row.bucket == Some(today) then row.daily + amount else amount;
      spends := spends[k := SpendRow(row.total + amount, Some(today), daily)];
      error := None;
    }
  }
}
