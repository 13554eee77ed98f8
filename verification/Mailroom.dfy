/** The mailroom: inbox cursors, and thread states that overlapping sends read and later write. */
module Mailroom {
  import opened Outcomes

  type Did = string
  type ThreadId = string
  type MsgId = string

  datatype Kind = Inquiry | QuoteRequest | Quote | Offer | Counter | Accept | Reject | Delegate | Status | ReceiptRef

  datatype Message = Message(id: MsgId, thread: ThreadId, to: Did, kind: Kind)

  datatype Stored = Stored(cursor: int, message: Message)

  // ---- the inbox --------------------------------------------------------------------------

  function Addressed(log: seq<Stored>, to: Did): seq<Stored> {
    if log == [] then []
    else Addressed(log[..|log| - 1], to) + if log[|log| - 1].message.to == to then [log[|log| - 1]] else []
  }

  ghost predicate Ascending(s: seq<Stored>) {
    forall i, j | 0 <= i < j < |s| :: s[i].cursor < s[j].cursor
  }

  function After(s: seq<Stored>, since: int): seq<Stored> {
    if s == [] then []
    else After(s[..|s| - 1], since) + if s[|s| - 1].cursor > since then [s[|s| - 1]] else []
  }

  /** One page: the first entries past the cursor, at least one even for a limit below one. */
  function Page(s: seq<Stored>, since: int, limit: int): seq<Stored> {
    var rest := After(s, since);
    var most := if limit > 1 then limit else 1;
    if most < |rest| then rest[..most] else rest
  }

  class MemoryMessageRepo {
    var log: seq<Stored>
    var byId: map<MsgId, Stored>
    var byRecipient: map<Did, seq<Stored>>
    var nextCursor: int

    ghost predicate Valid()
      reads this
    {
      && nextCursor == |log| + 1
      && (forall i | 0 <= i < |log| :: log[i].cursor == i + 1)
      && (forall to :: Addressed(log, to) == if to in byRecipient then byRecipient[to] else [])
    }

    constructor ()
      ensures Valid() && log == []
    {
      log, byId, byRecipient, nextCursor := [], map[], map[], 1;
    }

    method Append(message: Message) returns (cursor: int)
      requires Valid()
      modifies this
      ensures Valid() && log == old(log) + [Stored(cursor, message)] && cursor == |old(log)| + 1
    {
      cursor := nextCursor;
      nextCursor := nextCursor + 1;
      var stored := Stored(cursor, message);
      log := log + [stored];
      byId := byId[message.id := stored];
      if message.to in byRecipient {
        byRecipient := byRecipient[message.to := byRecipient[message.to] + [stored]];
      } else {
        byRecipient := byRecipient[message.to := [stored]];
      }
      assert log[..|log| - 1] == old(log);
    }

    method Inbox(recipient: Did, since: int, limit: int) returns (out: seq<Stored>)
      requires Valid()
      ensures out == Page(Addressed(log, recipient), since, limit)
    {
      var bucket := if recipient in byRecipient then byRecipient[recipient] else [];
      assert bucket == Addressed(log, recipient);
      hide Valid, Addressed;
      out := [];
      var i := 0;
      while i < |bucket|
        invariant 0 <= i <= |bucket| && out == After(bucket[..i], since) && (|out| < limit || out == [])
      {
        AfterStep(bucket, i, since);
        hide After, Page;
        if bucket[i].cursor > since {
          out := out + [bucket[i]];
          if |out| >= limit {
            PageReached(bucket, i + 1, since, limit);
            return;
          }
        }
        i := i + 1;
      }
      assert bucket[..|bucket|] == bucket;
    }
  }

  lemma {:induction false} AfterGrows(s: seq<Stored>, n: nat, since: int)
    requires n <= |s|
    ensures After(s[..n], since) <= After(s, since)
    decreases |s|
  {
    if n < |s| {
      AfterGrows(s[..|s| - 1], n, since);
      assert s[..|s| - 1][..n] == s[..n];
    } else {
      assert s[..n] == s;
    }
  }

  lemma AfterStep(s: seq<Stored>, i: nat, since: int)
    requires i < |s|
    ensures After(s[..i + 1], since) == After(s[..i], since) + if s[i].cursor > since then [s[i]] else []
  {
    assert s[..i + 1][..i] == s[..i];
  }

  lemma PageReached(s: seq<Stored>, n: nat, since: int, limit: int)
    requires n <= |s| && |After(s[..n], since)| == if limit > 1 then limit else 1
    ensures Page(s, since, limit) == After(s[..n], since)
  {
    AfterGrows(s, n, since);
    hide After;
  }

  /** A reader that polls with the cursor it was last given. */
  datatype Reader = Reader(since: int, received: seq<Stored>)

  function Poll(r: Reader, s: seq<Stored>, limit: int): Reader {
    var page := Page(s, r.since, limit);
    Reader(if page == [] then r.since else page[|page| - 1].cursor, r.received + page)
  }

  /** What the reader has is the front of what was addressed to it, up to its cursor. */
  ghost predicate InStep(r: Reader, s: seq<Stored>) {
    && r.received <= s
    && (forall i | 0 <= i < |r.received| :: s[i].cursor <= r.since)
    && (forall i | |r.received| <= i < |s| :: s[i].cursor > r.since)
  }

  lemma {:induction false} AfterCursor(s: seq<Stored>, since: int, n: nat)
    requires n <= |s| && (forall i | 0 <= i < n :: s[i].cursor <= since) && (forall i | n <= i < |s| :: s[i].cursor > since)
    ensures After(s, since) == s[n..]
    decreases |s|
  {
    if s != [] {
      var m := |s| - 1;
      AfterCursor(s[..m], since, if n > m then m else n);
      if n <= m {
        assert s[n..] == s[..m][n..] + [s[m]];
      }
    }
  }

  /** A poll hands over the next messages in order, as many as asked or as there are. */
  lemma PollDelivers(r: Reader, s: seq<Stored>, limit: int)
    requires InStep(r, s) && Ascending(s) && limit > 0
    ensures InStep(Poll(r, s, limit), s)
    ensures |Poll(r, s, limit).received| == if |r.received| + limit < |s| then |r.received| + limit else |s|
  {
    var n := |r.received|;
    AfterCursor(s, r.since, n);
    var page := Page(s, r.since, limit);
    assert page == s[n..n + |page|];
    assert s[..n] + page == s[..n + |page|];
  }

  /** Exactly the messages of the log that name the reader are addressed to it. */
  lemma {:induction false} AddressedIff(log: seq<Stored>, to: Did, x: Stored)
    ensures x in Addressed(log, to) <==> x in log && x.message.to == to
    decreases |log|
  {
    if log != [] {
      var n := |log| - 1;
      AddressedIff(log[..n], to, x);
      assert log == log[..n] + [log[n]];
    }
  }

  lemma AddressedAscending(log: seq<Stored>, to: Did)
    requires forall i | 0 <= i < |log| :: log[i].cursor == i + 1
    ensures Ascending(Addressed(log, to)) && forall i | 0 <= i < |Addressed(log, to)| :: 0 < Addressed(log, to)[i].cursor <= |log|
    decreases |log|
  {
    if log != [] { AddressedAscending(log[..|log| - 1], to); }
  }

  lemma SendKeepsInStep(r: Reader, log: seq<Stored>, message: Message, to: Did)
    requires InStep(r, Addressed(log, to)) && r.since <= |log| && (forall i | 0 <= i < |log| :: log[i].cursor == i + 1)
    ensures InStep(r, Addressed(log + [Stored(|log| + 1, message)], to))
  {
    assert (log + [Stored(|log| + 1, message)])[..|log|] == log;
  }

  datatype Event = Sent(message: Message) | Polled(limit: int)

  datatype Box = Box(log: seq<Stored>, reader: Reader)

  function Happen(b: Box, e: Event, to: Did): Box {
    match e
    case Sent(m) => b.(log := b.log + [Stored(|b.log| + 1, m)])
    case Polled(limit) => b.(reader := Poll(b.reader, Addressed(b.log, to), limit))
  }

  function RunBox(events: seq<Event>, to: Did): Box {
    if events == [] then Box([], Reader(0, []))
    else Happen(RunBox(events[..|events| - 1], to), events[|events| - 1], to)
  }

  ghost predicate BoxOk(b: Box, to: Did) {
    && (forall i | 0 <= i < |b.log| :: b.log[i].cursor == i + 1)
    && b.reader.since <= |b.log| && InStep(b.reader, Addressed(b.log, to))
  }

  lemma EventKeepsBox(b: Box, e: Event, to: Did)
    requires BoxOk(b, to) && (e.Polled? ==> e.limit > 0)
    ensures BoxOk(Happen(b, e, to), to) && b.reader.received <= Happen(b, e, to).reader.received
  {
    match e
    case Sent(m) => SendKeepsInStep(b.reader, b.log, m, to);
    case Polled(limit) =>
      AddressedAscending(b.log, to);
      PollDelivers(b.reader, Addressed(b.log, to), limit);
      PollCursor(b.reader, Addressed(b.log, to), limit, |b.log|);
  }

  lemma PollCursor(r: Reader, s: seq<Stored>, limit: int, n: nat)
    requires InStep(r, s) && Ascending(s) && limit > 0 && r.since <= n && forall i | 0 <= i < |s| :: s[i].cursor <= n
    ensures Poll(r, s, limit).since <= n
  {
    AfterCursor(s, r.since, |r.received|);
  }

  /** Polling with any positive limits, between any sends: what was received is the front of everything
    addressed to the reader, each message once and in order, and once a poll comes back empty it is
    everything. */
  lemma {:induction false} EverythingOnceInOrder(events: seq<Event>, to: Did)
    requires forall i | 0 <= i < |events| && events[i].Polled? :: events[i].limit > 0
    ensures BoxOk(RunBox(events, to), to)
    ensures var b := RunBox(events, to);
            b.reader.received <= Addressed(b.log, to)
            && (Page(Addressed(b.log, to), b.reader.since, 1) == [] ==> b.reader.received == Addressed(b.log, to))
    decreases |events|
  {
    if events != [] {
      EverythingOnceInOrder(events[..|events| - 1], to);
      hide BoxOk, Page;
      EventKeepsBox(RunBox(events[..|events| - 1], to), events[|events| - 1], to);
    }
    NothingPastTheEnd(RunBox(events, to), to);
  }

  lemma NothingPastTheEnd(b: Box, to: Did)
    requires BoxOk(b, to)
    ensures b.reader.received <= Addressed(b.log, to)
    ensures Page(Addressed(b.log, to), b.reader.since, 1) == [] ==> b.reader.received == Addressed(b.log, to)
  {
    AfterCursor(Addressed(b.log, to), b.reader.since, |b.reader.received|);
  }

  // ---- threads ----------------------------------------------------------------------------

  datatype ThreadState = Open | Quoting | Offered | Agreed | Committed | Closed {
    function Rank(): nat {
      match this
      case Open => 0
      case Quoting => 1
      case Offered => 2
      case Agreed => 3
      case Committed => 4
      case Closed => 5
    }
  }

  function NextThreadState(current: ThreadState, kind: Kind): ThreadState {
    if kind == Reject then Closed
    else match current
      case Open =>
        if kind == QuoteRequest || kind == Inquiry then Quoting
        else if kind == Offer || kind == Quote then Offered else current
      case Quoting => if kind == Quote || kind == Offer then Offered else current
      case Offered => if kind == Counter then Offered else if kind == Accept then Agreed else current
      case Agreed => if kind == Status || kind == ReceiptRef then Committed else current
      case Committed => if kind == ReceiptRef then Closed else current
      case Closed => current
  }

  predicate OpensThread(kind: Kind) {
    kind in {Inquiry, QuoteRequest, Quote, Offer, Delegate}
  }

  predicate IsLegalSelfTransition(s: ThreadState, kind: Kind) {
    (s == Offered && kind == Counter) || (s == Committed && kind == Status)
  }

  function FoldKinds(kinds: seq<Kind>): ThreadState {
    if kinds == [] then Open else NextThreadState(FoldKinds(kinds[..|kinds| - 1]), kinds[|kinds| - 1])
  }

  // ---- what a conversation has come to ----------------------------------------------------

  predicate AskedIn(kinds: seq<Kind>) {
    exists i | 0 <= i < |kinds| :: kinds[i] == QuoteRequest || kinds[i] == Inquiry
  }

  predicate OfferedIn(kinds: seq<Kind>) {
    exists i | 0 <= i < |kinds| :: kinds[i] == Quote || kinds[i] == Offer
  }

  /** An acceptance came after an offer. */
  predicate AgreedIn(kinds: seq<Kind>) {
    exists i | 0 <= i < |kinds| :: kinds[i] == Accept && OfferedIn(kinds[..i])
  }

  /** A status or a receipt came after the agreement. */
  predicate CommittedIn(kinds: seq<Kind>) {
    exists i | 0 <= i < |kinds| :: (kinds[i] == Status || kinds[i] == ReceiptRef) && AgreedIn(kinds[..i])
  }

  /** A receipt came after the commitment. */
  predicate ReceiptedIn(kinds: seq<Kind>) {
    exists i | 0 <= i < |kinds| :: kinds[i] == ReceiptRef && CommittedIn(kinds[..i])
  }

  predicate RejectedIn(kinds: seq<Kind>) {
    exists i | 0 <= i < |kinds| :: kinds[i] == Reject
  }

  lemma OneKindMore(kinds: seq<Kind>, k: Kind)
    ensures var more := kinds + [k];
            && (AskedIn(more) <==> AskedIn(kinds) || k == QuoteRequest || k == Inquiry)
            && (OfferedIn(more) <==> OfferedIn(kinds) || k == Quote || k == Offer)
            && (RejectedIn(more) <==> RejectedIn(kinds) || k == Reject)
            && (AgreedIn(more) <==> AgreedIn(kinds) || (k == Accept && OfferedIn(kinds)))
            && (CommittedIn(more) <==> CommittedIn(kinds) || ((k == Status || k == ReceiptRef) && AgreedIn(kinds)))
            && (ReceiptedIn(more) <==> ReceiptedIn(kinds) || (k == ReceiptRef && CommittedIn(kinds)))
  {
    var more := kinds + [k];
    assert forall i | 0 <= i < |kinds| :: more[i] == kinds[i] && more[..i] == kinds[..i];
    assert more[|kinds|] == k && more[..|kinds|] == kinds;
    hide OfferedIn;
    KeptIn(kinds, more);
  }

  /** Everything a conversation has come to it has come to with one message more. */
  lemma KeptIn(kinds: seq<Kind>, more: seq<Kind>)
    requires |kinds| < |more| && forall i | 0 <= i < |kinds| :: more[i] == kinds[i] && more[..i] == kinds[..i]
    ensures AskedIn(kinds) ==> AskedIn(more)
    ensures OfferedIn(kinds) ==> OfferedIn(more)
    ensures RejectedIn(kinds) ==> RejectedIn(more)
    ensures AgreedIn(kinds) ==> AgreedIn(more)
    ensures CommittedIn(kinds) ==> CommittedIn(more)
    ensures ReceiptedIn(kinds) ==> ReceiptedIn(more)
  {
    if i :| 0 <= i < |kinds| && (kinds[i] == QuoteRequest || kinds[i] == Inquiry) { assert more[i] == kinds[i]; }
    if i :| 0 <= i < |kinds| && (kinds[i] == Quote || kinds[i] == Offer) { assert more[i] == kinds[i]; }
    if i :| 0 <= i < |kinds| && kinds[i] == Reject { assert more[i] == kinds[i]; }
    if i :| 0 <= i < |kinds| && kinds[i] == Accept && OfferedIn(kinds[..i]) { assert more[i] == kinds[i]; }
    if i :| 0 <= i < |kinds| && (kinds[i] == Status || kinds[i] == ReceiptRef) && AgreedIn(kinds[..i]) { assert more[i] == kinds[i]; }
    if i :| 0 <= i < |kinds| && kinds[i] == ReceiptRef && CommittedIn(kinds[..i]) { assert more[i] == kinds[i]; }
  }

  /** The state of a thread says exactly what its conversation has come to: closed by a rejection or by the
    receipt, and before that the furthest of committed, agreed, offered and asked for. */
  lemma {:induction false} StateTells(kinds: seq<Kind>)
    ensures FoldKinds(kinds)
         == if RejectedIn(kinds) || ReceiptedIn(kinds) then Closed
            else if CommittedIn(kinds) then Committed
            else if AgreedIn(kinds) then Agreed
            else if OfferedIn(kinds) then Offered
            else if AskedIn(kinds) then Quoting
            else Open
    ensures (ReceiptedIn(kinds) ==> CommittedIn(kinds)) && (CommittedIn(kinds) ==> AgreedIn(kinds)) && (AgreedIn(kinds) ==> OfferedIn(kinds))
    decreases |kinds|
  {
    if kinds != [] {
      var n := |kinds| - 1;
      StateTells(kinds[..n]);
      OneKindMore(kinds[..n], kinds[n]);
      assert kinds[..n] + [kinds[n]] == kinds;
      hide RejectedIn, ReceiptedIn, CommittedIn, AgreedIn, OfferedIn, AskedIn;
    }
  }

  /** A send between resolving its thread and persisting the new state; `seen` is the state it read, or
    OPEN for a root message, which does not look. Its message goes into the log in between. */
  datatype Draft = Draft(thread: ThreadId, kind: Kind, seen: ThreadState, logged: bool)

  datatype Entry = Entry(thread: ThreadId, kind: Kind)

  /** `accepted` lists, per thread, the kinds of the messages in the order in which they were persisted. */
  datatype Threads = Threads(
    states: map<ThreadId, ThreadState>, accepted: map<ThreadId, seq<Kind>>, drafts: map<nat, Draft>, log: seq<Entry>)

  datatype Step =
    | ResolveRoot(w: nat, thread: ThreadId, kind: Kind)
    | ResolveReply(w: nat, thread: ThreadId, kind: Kind)
    | Store(w: nat)
    | Persist(w: nat)

  function StateOf(t: Threads, id: ThreadId): ThreadState {
    if id in t.states then t.states[id] else Open
  }

  /** resolveThread: nothing when the send is refused and its postage returned. */
  function Resolve(t: Threads, step: Step): Option<Draft>
    requires step.ResolveRoot? || step.ResolveReply?
  {
    if step.ResolveRoot? then
      if NextThreadState(Open, step.kind) == Open && !OpensThread(step.kind) then None else Some(Draft(step.thread, step.kind, Open, false))
    else if step.thread !in t.states || t.states[step.thread] == Closed then None
    else
      var current := t.states[step.thread];
      if NextThreadState(current, step.kind) == current && !IsLegalSelfTransition(current, step.kind) then None
      else Some(Draft(step.thread, step.kind, current, false))
  }

  /** A root message is taken exactly if it can open a thread or rejects; it starts from an open thread. */
  lemma RootTakenIff(t: Threads, w: nat, id: ThreadId, kind: Kind)
    ensures Resolve(t, ResolveRoot(w, id, kind))
         == if kind in {Inquiry, QuoteRequest, Quote, Offer, Delegate, Reject} then Some(Draft(id, kind, Open, false)) else None
  {
  }

  /** What a thread in this state still has an answer for. */
  predicate Fits(s: ThreadState, kind: Kind) {
    match s
    case Open => kind in {Inquiry, QuoteRequest, Quote, Offer, Reject}
    case Quoting => kind in {Quote, Offer, Reject}
    case Offered => kind in {Counter, Accept, Reject}
    case Agreed => kind in {Status, ReceiptRef, Reject}
    case Committed => kind in {Status, ReceiptRef, Reject}
    case Closed => false
  }

  /** A reply is taken exactly if its thread exists and has an answer for it. */
  lemma ReplyTakenIff(t: Threads, w: nat, id: ThreadId, kind: Kind)
    ensures Resolve(t, ResolveReply(w, id, kind))
         == if id in t.states && Fits(t.states[id], kind) then Some(Draft(id, kind, t.states[id], false)) else None
  {
  }

  predicate CanStep(t: Threads, step: Step) {
    match step
    case Persist(w) => w in t.drafts && t.drafts[w].logged
    case Store(w) => w in t.drafts && !t.drafts[w].logged
    case _ => step.w !in t.drafts
  }

  function AcceptedOf(t: Threads, id: ThreadId): seq<Kind> {
    if id in t.accepted then t.accepted[id] else []
  }

  function Take(t: Threads, step: Step): Threads
    requires CanStep(t, step)
  {
    match step
    case Persist(w) =>
      var d := t.drafts[w];
      Threads(t.states[d.thread := NextThreadState(d.seen, d.kind)], t.accepted[d.thread := AcceptedOf(t, d.thread) + [d.kind]],
              t.drafts - {w}, t.log)
    case Store(w) =>
      var d := t.drafts[w];
      t.(drafts := t.drafts[w := d.(logged := true)], log := t.log + [Entry(d.thread, d.kind)])
    case _ =>
      var d := Resolve(t, step);
      if d.None? then t else t.(drafts := t.drafts[step.w := d.value])
  }

  /** Each stored state is the fold of the state machine over the thread's accepted messages. */
  ghost predicate Folded(t: Threads) {
    t.states.Keys == t.accepted.Keys && forall id | id in t.states :: t.states[id] == FoldKinds(t.accepted[id])
  }

  /** Persisting keeps every thread the fold of its messages exactly when the state that the send read
    leads to the same place as the state that is there now. */
  lemma PersistKeepsFoldIff(t: Threads, step: Step)
    requires Folded(t) && CanStep(t, step) && step.Persist?
    ensures var d := t.drafts[step.w];
            Folded(Take(t, step)) <==> NextThreadState(d.seen, d.kind) == NextThreadState(StateOf(t, d.thread), d.kind)
  {
    var d := t.drafts[step.w];
    var t' := Take(t, step);
    var before := AcceptedOf(t, d.thread);
    assert t'.accepted[d.thread] == before + [d.kind] && (before + [d.kind])[..|before|] == before;
    assert FoldKinds(before) == StateOf(t, d.thread);
    assert FoldKinds(t'.accepted[d.thread]) == NextThreadState(StateOf(t, d.thread), d.kind);
    hide FoldKinds, NextThreadState;
    if NextThreadState(d.seen, d.kind) == NextThreadState(StateOf(t, d.thread), d.kind) {
      forall id | id in t'.states ensures t'.states[id] == FoldKinds(t'.accepted[id]) {
      }
    } else {
      assert d.thread in t'.states;
    }
  }

  /** The state that a persisting send read leads to the same place as the state that is there. */
  predicate Agrees(t: Threads, step: Step) {
    step.Persist? && step.w in t.drafts ==>
      var d := t.drafts[step.w]; NextThreadState(d.seen, d.kind) == NextThreadState(StateOf(t, d.thread), d.kind)
  }

  lemma StepFoldsIff(t: Threads, step: Step)
    requires Folded(t) && CanStep(t, step)
    ensures Folded(Take(t, step)) <==> Agrees(t, step)
  {
    if step.Persist? { PersistKeepsFoldIff(t, step); }
    hide FoldKinds, NextThreadState, Resolve;
  }

  /** A thread never moves backwards, and a closed one takes no further message. */
  ghost predicate Onward(t: Threads, t': Threads) {
    && Folded(t) && Folded(t')
    && forall id | id in t.states ::
         && id in t'.states && t.states[id].Rank() <= t'.states[id].Rank()
         && t.accepted[id] <= t'.accepted[id]
         && (t.states[id] == Closed ==> t'.accepted[id] == t.accepted[id])
  }

  /** Nothing is persisted on a thread that has been closed since. */
  predicate Lively(t: Threads, step: Step) {
    step.Persist? && step.w in t.drafts ==> StateOf(t, t.drafts[step.w].thread) != Closed
  }

  lemma NextOnward(s: ThreadState, kind: Kind)
    ensures s.Rank() <= NextThreadState(s, kind).Rank()
  {
  }

  /** A step moves no thread backwards and adds to no closed one if and only if the state it read agrees with
    the one that is there, and that one is not closed. */
  lemma StepOnwardIff(t: Threads, step: Step)
    requires Folded(t) && CanStep(t, step)
    ensures Onward(t, Take(t, step)) <==> Agrees(t, step) && Lively(t, step)
  {
    StepFoldsIff(t, step);
    if step.Persist? {
      PersistOnwardIff(t, step.w);
    } else {
      QuietOnward(t, step);
    }
    hide Onward, Folded, Take;
  }

  lemma QuietOnward(t: Threads, step: Step)
    requires Folded(t) && CanStep(t, step) && !step.Persist?
    ensures Onward(t, Take(t, step)) && Agrees(t, step) && Lively(t, step)
  {
    assert Take(t, step).states == t.states && Take(t, step).accepted == t.accepted;
    hide Resolve, FoldKinds, Take;
  }

  lemma PersistOnwardIff(t: Threads, w: nat)
    requires Folded(t) && CanStep(t, Persist(w)) && (Folded(Take(t, Persist(w))) <==> Agrees(t, Persist(w)))
    ensures Onward(t, Take(t, Persist(w))) <==> Agrees(t, Persist(w)) && Lively(t, Persist(w))
  {
    var t', d := Take(t, Persist(w)), t.drafts[w];
    PersistTouches(t, w);
    NextOnward(StateOf(t, d.thread), d.kind);
    assert t.states.Keys == t.accepted.Keys;
    hide NextThreadState, FoldKinds, Take, Folded, AcceptedOf;
    AcceptedGrows(t, t', d.thread, d.kind);
    if Agrees(t, Persist(w)) && Lively(t, Persist(w)) {
      forall id | id in t.states
        ensures && id in t'.states && t.states[id].Rank() <= t'.states[id].Rank()
                && t.accepted[id] <= t'.accepted[id]
                && (t.states[id] == Closed ==> t'.accepted[id] == t.accepted[id])
      {
        assert id in t.accepted;
        if id != d.thread { assert t'.states[id] == t.states[id] && t'.accepted[id] == t.accepted[id]; }
      }
    }
  }

  lemma AcceptedGrows(t: Threads, t': Threads, id: ThreadId, kind: Kind)
    requires id in t'.accepted && t'.accepted[id] == AcceptedOf(t, id) + [kind]
    ensures id in t.accepted ==> t.accepted[id] <= t'.accepted[id] && t.accepted[id] != t'.accepted[id]
  {
    assert |t'.accepted[id]| == |AcceptedOf(t, id)| + 1;
  }

  lemma PersistTouches(t: Threads, w: nat)
    requires CanStep(t, Persist(w))
    ensures var d, t' := t.drafts[w], Take(t, Persist(w));
            && d.thread in t'.states && t'.states[d.thread] == NextThreadState(d.seen, d.kind)
            && d.thread in t'.accepted && t'.accepted[d.thread] == AcceptedOf(t, d.thread) + [d.kind]
            && (forall id | id in t.states && id != d.thread :: id in t'.states && t'.states[id] == t.states[id])
            && (forall id | id in t.accepted && id != d.thread :: id in t'.accepted && t'.accepted[id] == t.accepted[id])
  {
  }

  // ---- the log ----------------------------------------------------------------------------

  /** The kinds of a thread's messages in the order in which they were logged. */
  function LogOf(log: seq<Entry>, id: ThreadId): seq<Kind> {
    if log == [] then []
    else LogOf(log[..|log| - 1], id) + if log[|log| - 1].thread == id then [log[|log| - 1].kind] else []
  }

  lemma LogStep(log: seq<Entry>, e: Entry, id: ThreadId)
    ensures LogOf(log + [e], id) == LogOf(log, id) + if e.thread == id then [e.kind] else []
  {
    assert (log + [e])[..|log|] == log;
  }

  /** Messages were persisted in the order in which they were logged. */
  ghost predicate InLogOrder(t: Threads) {
    forall id :: AcceptedOf(t, id) <= LogOf(t.log, id)
  }

  /** The message being persisted is the next one of its thread in the log. */
  predicate InTurn(t: Threads, step: Step) {
    step.Persist? && step.w in t.drafts ==>
      var d := t.drafts[step.w];
      var n, logged := |AcceptedOf(t, d.thread)|, LogOf(t.log, d.thread);
      n < |logged| && logged[n] == d.kind
  }

  lemma StepInOrderIff(t: Threads, step: Step)
    requires InLogOrder(t) && CanStep(t, step)
    ensures InLogOrder(Take(t, step)) <==> InTurn(t, step)
  {
    var t' := Take(t, step);
    if step.Persist? {
      PersistTouches(t, step.w);
      PersistInOrder(t, t', t.drafts[step.w]);
    } else if step.Store? {
      var d := t.drafts[step.w];
      hide LogOf, Resolve;
      forall id ensures AcceptedOf(t', id) <= LogOf(t'.log, id) {
        LogStep(t.log, Entry(d.thread, d.kind), id);
        assert AcceptedOf(t, id) <= LogOf(t.log, id);
      }
    } else {
      assert forall id :: AcceptedOf(t', id) == AcceptedOf(t, id);
      hide LogOf, Resolve;
    }
  }

  lemma PersistInOrder(t: Threads, t': Threads, d: Draft)
    requires InLogOrder(t) && t'.log == t.log && AcceptedOf(t', d.thread) == AcceptedOf(t, d.thread) + [d.kind]
    requires forall id | id != d.thread :: AcceptedOf(t', id) == AcceptedOf(t, id)
    ensures InLogOrder(t') <==>
              var n, logged := |AcceptedOf(t, d.thread)|, LogOf(t.log, d.thread); n < |logged| && logged[n] == d.kind
  {
    var before, logged := AcceptedOf(t, d.thread), LogOf(t.log, d.thread);
    assert before <= logged;
    hide LogOf, AcceptedOf;
    if |before| < |logged| && logged[|before|] == d.kind {
      assert AcceptedOf(t', d.thread) == logged[..|before| + 1];
    } else {
      assert !(AcceptedOf(t', d.thread) <= logged) by { assert AcceptedOf(t', d.thread)[|before|] == d.kind; }
    }
  }

  /** The sends on a thread whose message is logged and not yet persisted. */
  function Waiting(t: Threads, id: ThreadId): set<nat> {
    set w | w in t.drafts && t.drafts[w].logged && t.drafts[w].thread == id
  }

  ghost predicate Counted(t: Threads) {
    forall id :: |LogOf(t.log, id)| == |AcceptedOf(t, id)| + |Waiting(t, id)|
  }

  /** What a step does to the sends that wait on a thread. */
  lemma WaitingStep(t: Threads, step: Step, id: ThreadId)
    requires CanStep(t, step)
    ensures var waiting := Waiting(Take(t, step), id);
            if step.Store? && t.drafts[step.w].thread == id then step.w !in Waiting(t, id) && waiting == Waiting(t, id) + {step.w}
            else if step.Persist? && t.drafts[step.w].thread == id then step.w in Waiting(t, id) && waiting == Waiting(t, id) - {step.w}
            else waiting == Waiting(t, id)
  {
    hide LogOf, NextThreadState, AcceptedOf;
    var before, after := Waiting(t, id), Waiting(Take(t, step), id);
    if step.Persist? || step.Store? {
      hide Resolve;
    } else {
      assert before == after;
    }
  }

  lemma StepKeepsCount(t: Threads, step: Step)
    requires Counted(t) && CanStep(t, step)
    ensures Counted(Take(t, step))
  {
    var t' := Take(t, step);
    forall id ensures |LogOf(t'.log, id)| == |AcceptedOf(t', id)| + |Waiting(t', id)| {
      assert |LogOf(t.log, id)| == |AcceptedOf(t, id)| + |Waiting(t, id)|;
      CountStep(t, step, id);
    }
  }

  /** What a step does to the counts of a thread's logged and persisted messages. */
  lemma CountsMove(t: Threads, step: Step, id: ThreadId)
    requires CanStep(t, step)
    ensures var t' := Take(t, step);
            && |LogOf(t'.log, id)| == |LogOf(t.log, id)| + (if step.Store? && t.drafts[step.w].thread == id then 1 else 0)
            && |AcceptedOf(t', id)| == |AcceptedOf(t, id)| + (if step.Persist? && t.drafts[step.w].thread == id then 1 else 0)
  {
    hide Resolve, NextThreadState, LogOf;
    if step.Store? {
      var d := t.drafts[step.w];
      LogStep(t.log, Entry(d.thread, d.kind), id);
    }
  }

  lemma CountStep(t: Threads, step: Step, id: ThreadId)
    requires CanStep(t, step) && |LogOf(t.log, id)| == |AcceptedOf(t, id)| + |Waiting(t, id)|
    ensures var t' := Take(t, step); |LogOf(t'.log, id)| == |AcceptedOf(t', id)| + |Waiting(t', id)|
  {
    WaitingStep(t, step, id);
    CountsMove(t, step, id);
    hide Take, Waiting, AcceptedOf, LogOf;
  }

  const NO_THREADS := Threads(map[], map[], map[], [])

  ghost predicate IsRun(trace: seq<Threads>, steps: seq<Step>) {
    && |trace| == |steps| + 1 && trace[0] == NO_THREADS
    && forall n | 0 <= n < |steps| :: CanStep(trace[n], steps[n]) && trace[n + 1] == Take(trace[n], steps[n])
  }

  ghost predicate FoldedSoFar(trace: seq<Threads>, n: nat)
    requires n < |trace|
  {
    forall m | 0 <= m <= n :: Folded(trace[m])
  }

  ghost predicate AgreedSoFar(trace: seq<Threads>, steps: seq<Step>, n: nat)
    requires n <= |steps| < |trace|
  {
    forall m | 0 <= m < n :: Agrees(trace[m], steps[m])
  }

  lemma RunStep(trace: seq<Threads>, steps: seq<Step>, n: nat)
    requires IsRun(trace, steps) && n < |steps|
    ensures CanStep(trace[n], steps[n]) && trace[n + 1] == Take(trace[n], steps[n])
  {
  }

  lemma SoFarStep(trace: seq<Threads>, steps: seq<Step>, n: nat)
    requires n < |steps| < |trace|
    ensures FoldedSoFar(trace, n + 1) <==> FoldedSoFar(trace, n) && Folded(trace[n + 1])
    ensures AgreedSoFar(trace, steps, n + 1) <==> AgreedSoFar(trace, steps, n) && Agrees(trace[n], steps[n])
    ensures FoldedSoFar(trace, n) ==> Folded(trace[n])
  {
    hide Folded, Agrees;
  }

  lemma StartFolded(trace: seq<Threads>, steps: seq<Step>)
    requires IsRun(trace, steps)
    ensures FoldedSoFar(trace, 0) && AgreedSoFar(trace, steps, 0)
  {
  }

  /** In every run, however sends overlap: the stored states are folds of the accepted messages all along
    if and only if no send persisted a state that disagrees with the one that was there. */
  lemma {:induction false} RunFoldsIff(trace: seq<Threads>, steps: seq<Step>, n: nat)
    requires IsRun(trace, steps) && n < |trace|
    ensures |steps| < |trace| && n <= |steps|
    ensures FoldedSoFar(trace, n) <==> AgreedSoFar(trace, steps, n)
    decreases n
  {
    assert |trace| == |steps| + 1;
    hide *;
    if n == 0 {
      StartFolded(trace, steps);
    } else {
      RunFoldsIff(trace, steps, n - 1);
      RunStep(trace, steps, n - 1);
      SoFarStep(trace, steps, n - 1);
      if Folded(trace[n - 1]) { StepFoldsIff(trace[n - 1], steps[n - 1]); }
    }
  }

  /** No thread is at an earlier stage than before, and a closed one is closed. */
  ghost predicate Forward(t: Threads, t': Threads) {
    forall id | id in t.states ::
      id in t'.states && t.states[id].Rank() <= t'.states[id].Rank() && (t.states[id] == Closed ==> t'.states[id] == Closed)
  }

  lemma AgreeingStepForward(t: Threads, step: Step)
    requires CanStep(t, step) && Agrees(t, step)
    ensures Forward(t, Take(t, step))
  {
    if step.Persist? { NextOnward(StateOf(t, t.drafts[step.w].thread), t.drafts[step.w].kind); }
    hide Resolve;
  }

  /** In every such run, threads never move backwards and stay closed. */
  lemma {:induction false} AgreeingRunForward(trace: seq<Threads>, steps: seq<Step>, m: nat, n: nat)
    requires IsRun(trace, steps) && m <= n < |trace| == |steps| + 1 && AgreedSoFar(trace, steps, n)
    ensures Forward(trace[m], trace[n])
    decreases n
  {
    hide *;
    if m < n {
      SoFarStep(trace, steps, n - 1);
      RunStep(trace, steps, n - 1);
      AgreeingRunForward(trace, steps, m, n - 1);
      AgreeingStepForward(trace[n - 1], steps[n - 1]);
      ForwardTransitive(trace[m], trace[n - 1], trace[n]);
    } else {
      StaysForward(trace[m]);
    }
  }

  lemma StaysForward(t: Threads)
    ensures Forward(t, t)
  {
  }

  lemma ForwardTransitive(t: Threads, t1: Threads, t2: Threads)
    requires Forward(t, t1) && Forward(t1, t2)
    ensures Forward(t, t2)
  {
  }

  ghost predicate LivelySoFar(trace: seq<Threads>, steps: seq<Step>, n: nat)
    requires n <= |steps| < |trace|
  {
    forall m | 0 <= m < n :: Lively(trace[m], steps[m])
  }

  ghost predicate OnwardSoFar(trace: seq<Threads>, n: nat)
    requires n < |trace|
  {
    forall m | 0 <= m < n :: Onward(trace[m], trace[m + 1])
  }

  lemma OnwardStep(trace: seq<Threads>, steps: seq<Step>, n: nat)
    requires n < |steps| < |trace|
    ensures OnwardSoFar(trace, n + 1) <==> OnwardSoFar(trace, n) && Onward(trace[n], trace[n + 1])
    ensures LivelySoFar(trace, steps, n + 1) <==> LivelySoFar(trace, steps, n) && Lively(trace[n], steps[n])
  {
    hide Onward, Lively;
  }

  lemma OnwardStart(trace: seq<Threads>, steps: seq<Step>)
    requires IsRun(trace, steps)
    ensures OnwardSoFar(trace, 0) && LivelySoFar(trace, steps, 0) && Folded(trace[0])
  {
  }

  /** In every run, however sends overlap: every step keeps the folds, moves no thread backwards and adds to
    no closed one, if and only if every send agreed with the state that was there and found its thread
    open. */
  lemma {:induction false} RunOnwardIff(trace: seq<Threads>, steps: seq<Step>, n: nat)
    requires IsRun(trace, steps) && n < |trace|
    ensures |steps| < |trace| && n <= |steps|
    ensures OnwardSoFar(trace, n) <==> AgreedSoFar(trace, steps, n) && LivelySoFar(trace, steps, n)
    ensures OnwardSoFar(trace, n) ==> Folded(trace[n])
    decreases n
  {
    assert |trace| == |steps| + 1;
    hide *;
    if n == 0 {
      OnwardStart(trace, steps);
      StartFolded(trace, steps);
    } else {
      RunOnwardIff(trace, steps, n - 1);
      RunStep(trace, steps, n - 1);
      SoFarStep(trace, steps, n - 1);
      OnwardStep(trace, steps, n - 1);
      if Folded(trace[n - 1]) { StepOnwardIff(trace[n - 1], steps[n - 1]); }
      if Onward(trace[n - 1], trace[n]) { OnwardFolded(trace[n - 1], trace[n]); }
    }
  }

  lemma OnwardFolded(t: Threads, t': Threads)
    requires Onward(t, t')
    ensures Folded(t')
  {
  }

  /** What such a run keeps between any two of its moments. */
  lemma {:induction false} RunOnward(trace: seq<Threads>, steps: seq<Step>, m: nat, n: nat)
    requires IsRun(trace, steps) && m <= n < |trace| == |steps| + 1 && AgreedSoFar(trace, steps, n) && LivelySoFar(trace, steps, n)
    ensures Onward(trace[m], trace[n])
    decreases n
  {
    hide *;
    RunOnwardIff(trace, steps, n);
    if m < n {
      SoFarStep(trace, steps, n - 1);
      OnwardStep(trace, steps, n - 1);
      RunOnward(trace, steps, m, n - 1);
      OnwardTransitive(trace[m], trace[n - 1], trace[n]);
    } else {
      OnwardReflexive(trace[m]);
    }
  }

  lemma OnwardReflexive(t: Threads)
    requires Folded(t)
    ensures Onward(t, t)
  {
    hide FoldKinds;
  }

  lemma OnwardTransitive(t0: Threads, t1: Threads, t2: Threads)
    requires Onward(t0, t1) && Onward(t1, t2)
    ensures Onward(t0, t2)
  {
    ClosedStays(t0, t1);
    hide Folded;
  }

  lemma ClosedStays(t: Threads, t': Threads)
    requires Onward(t, t')
    ensures forall id | id in t.states && t.states[id] == Closed :: id in t'.states && t'.states[id] == Closed
  {
    hide Folded;
  }

  // ---- the log over runs ------------------------------------------------------------------

  ghost predicate OrderedSoFar(trace: seq<Threads>, n: nat)
    requires n < |trace|
  {
    forall m | 0 <= m <= n :: InLogOrder(trace[m])
  }

  ghost predicate InTurnSoFar(trace: seq<Threads>, steps: seq<Step>, n: nat)
    requires n <= |steps| < |trace|
  {
    forall m | 0 <= m < n :: InTurn(trace[m], steps[m])
  }

  lemma OrderedStep(trace: seq<Threads>, steps: seq<Step>, n: nat)
    requires n < |steps| < |trace|
    ensures OrderedSoFar(trace, n + 1) <==> OrderedSoFar(trace, n) && InLogOrder(trace[n + 1])
    ensures InTurnSoFar(trace, steps, n + 1) <==> InTurnSoFar(trace, steps, n) && InTurn(trace[n], steps[n])
    ensures OrderedSoFar(trace, n) ==> InLogOrder(trace[n])
  {
    hide InLogOrder, InTurn;
  }

  lemma OrderedStart(trace: seq<Threads>, steps: seq<Step>)
    requires IsRun(trace, steps)
    ensures OrderedSoFar(trace, 0) && InTurnSoFar(trace, steps, 0) && Counted(trace[0])
  {
    assert forall id :: Waiting(trace[0], id) == {};
  }

  /** In every run: messages are persisted in log order all along if and only if each send persisted the
    message that was next in the log of its thread. */
  lemma {:induction false} RunOrderedIff(trace: seq<Threads>, steps: seq<Step>, n: nat)
    requires IsRun(trace, steps) && n < |trace|
    ensures |steps| < |trace| && n <= |steps|
    ensures OrderedSoFar(trace, n) <==> InTurnSoFar(trace, steps, n)
    ensures Counted(trace[n])
    decreases n
  {
    assert |trace| == |steps| + 1;
    hide *;
    if n == 0 {
      OrderedStart(trace, steps);
    } else {
      RunOrderedIff(trace, steps, n - 1);
      RunStep(trace, steps, n - 1);
      OrderedStep(trace, steps, n - 1);
      StepKeepsCount(trace[n - 1], steps[n - 1]);
      if InLogOrder(trace[n - 1]) { StepInOrderIff(trace[n - 1], steps[n - 1]); }
    }
  }

  /** In a run in which every send agreed and persisted in turn: once nothing logged on a thread waits to be
    persisted, the thread's state is the fold over its messages in the log. */
  lemma LogFolds(trace: seq<Threads>, steps: seq<Step>, n: nat, id: ThreadId)
    requires IsRun(trace, steps) && n < |trace| == |steps| + 1 && AgreedSoFar(trace, steps, n) && InTurnSoFar(trace, steps, n)
    requires Waiting(trace[n], id) == {}
    ensures StateOf(trace[n], id) == FoldKinds(LogOf(trace[n].log, id))
  {
    RunFoldsIff(trace, steps, n);
    RunOrderedIff(trace, steps, n);
    var t := trace[n];
    assert Folded(t) && InLogOrder(t) && Counted(t);
    hide IsRun, AgreedSoFar, InTurnSoFar, FoldedSoFar, OrderedSoFar, Take, CanStep, LogOf;
    assert AcceptedOf(t, id) <= LogOf(t.log, id) && |AcceptedOf(t, id)| == |LogOf(t.log, id)|;
    assert AcceptedOf(t, id) == LogOf(t.log, id);
  }

  // ---- sends that do not overlap ----------------------------------------------------------

  /** Root messages carry fresh thread ids, and no two sends on one thread overlap. */
  predicate Uncrowded(t: Threads, step: Step) {
    && (step.ResolveRoot? || step.ResolveReply? ==> forall w | w in t.drafts :: t.drafts[w].thread != step.thread)
    && (step.ResolveRoot? ==> step.thread !in t.states)
  }

  /** Every send in flight is the only one on its thread and has read what is there. */
  ghost predicate Current(t: Threads) {
    && (forall w | w in t.drafts :: t.drafts[w].seen == StateOf(t, t.drafts[w].thread) && t.drafts[w].seen != Closed)
    && (forall v, w | v in t.drafts && w in t.drafts && v != w :: t.drafts[v].thread != t.drafts[w].thread)
  }

  /** The log has the accepted messages of each thread, and the one in flight if it is logged. */
  ghost predicate LogCurrent(t: Threads) {
    && (forall w | w in t.drafts ::
          var d := t.drafts[w]; LogOf(t.log, d.thread) == AcceptedOf(t, d.thread) + if d.logged then [d.kind] else [])
    && (forall id | (forall w | w in t.drafts :: t.drafts[w].thread != id) :: LogOf(t.log, id) == AcceptedOf(t, id))
  }

  lemma UncrowdedStaysCurrent(t: Threads, step: Step)
    requires Current(t) && CanStep(t, step) && Uncrowded(t, step)
    ensures Current(Take(t, step))
  {
    hide NextThreadState;
  }

  lemma UncrowdedKeepsLog(t: Threads, step: Step)
    requires Current(t) && LogCurrent(t) && CanStep(t, step) && Uncrowded(t, step)
    ensures LogCurrent(Take(t, step))
  {
    if step.Store? {
      StoreKeepsLog(t, step.w);
    } else if step.Persist? {
      PersistKeepsLog(t, step.w);
    } else {
      ResolveKeepsLog(t, step);
    }
    hide LogCurrent, Current, Take;
  }

  lemma StoreKeepsLog(t: Threads, w: nat)
    requires Current(t) && LogCurrent(t) && CanStep(t, Store(w))
    ensures LogCurrent(Take(t, Store(w)))
  {
    var t', d := Take(t, Store(w)), t.drafts[w];
    hide NextThreadState, LogOf, Resolve;
    forall v | v in t'.drafts
      ensures var e := t'.drafts[v]; LogOf(t'.log, e.thread) == AcceptedOf(t', e.thread) + if e.logged then [e.kind] else []
    {
      LogStep(t.log, Entry(d.thread, d.kind), t'.drafts[v].thread);
      assert LogOf(t.log, d.thread) == AcceptedOf(t, d.thread) + [];
      assert LogOf(t.log, d.thread) == AcceptedOf(t, d.thread);
      assert v != w ==> t.drafts[v].thread != d.thread;
    }
    forall id | (forall v | v in t'.drafts :: t'.drafts[v].thread != id) ensures LogOf(t'.log, id) == AcceptedOf(t', id) {
      assert t'.drafts[w].thread != id;
      forall v | v in t.drafts ensures t.drafts[v].thread != id { assert t'.drafts[v].thread != id; }
      LogStep(t.log, Entry(d.thread, d.kind), id);
    }
  }

  lemma PersistKeepsLog(t: Threads, w: nat)
    requires Current(t) && LogCurrent(t) && CanStep(t, Persist(w))
    ensures LogCurrent(Take(t, Persist(w)))
  {
    var t', d := Take(t, Persist(w)), t.drafts[w];
    hide NextThreadState, LogOf, Resolve;
    assert LogOf(t.log, d.thread) == AcceptedOf(t, d.thread) + [d.kind] == AcceptedOf(t', d.thread);
    forall v | v in t'.drafts
      ensures var e := t'.drafts[v]; LogOf(t'.log, e.thread) == AcceptedOf(t', e.thread) + if e.logged then [e.kind] else []
    {
      assert t.drafts[v].thread != d.thread;
    }
    forall id | (forall v | v in t'.drafts :: t'.drafts[v].thread != id) ensures LogOf(t'.log, id) == AcceptedOf(t', id) {
      if id != d.thread {
        forall v | v in t.drafts ensures t.drafts[v].thread != id {
          if v != w { assert t'.drafts[v].thread != id; }
        }
      }
    }
  }

  lemma ResolveKeepsLog(t: Threads, step: Step)
    requires LogCurrent(t) && CanStep(t, step) && Uncrowded(t, step) && (step.ResolveRoot? || step.ResolveReply?)
    ensures LogCurrent(Take(t, step))
  {
    var t' := Take(t, step);
    var d := Resolve(t, step);
    assert d.Some? ==> d.value.thread == step.thread && !d.value.logged;
    hide Resolve, LogOf, NextThreadState;
    forall id | (forall w | w in t'.drafts :: t'.drafts[w].thread != id) ensures LogOf(t'.log, id) == AcceptedOf(t', id) {
      forall w | w in t.drafts ensures t.drafts[w].thread != id {
        assert w in t'.drafts && t'.drafts[w] == t.drafts[w];
      }
    }
    if d.Some? {
      assert LogOf(t.log, step.thread) == AcceptedOf(t, step.thread) == AcceptedOf(t, step.thread) + [];
    }
  }

  /** In runs without overlapping sends on a thread every send agrees, finds its thread open, and persists in
    turn. */
  lemma {:induction false} UncrowdedRunAgrees(trace: seq<Threads>, steps: seq<Step>, n: nat)
    requires IsRun(trace, steps) && n < |trace| == |steps| + 1 && forall k | 0 <= k < n :: Uncrowded(trace[k], steps[k])
    ensures Current(trace[n]) && LogCurrent(trace[n])
    ensures AgreedSoFar(trace, steps, n) && LivelySoFar(trace, steps, n) && InTurnSoFar(trace, steps, n)
    decreases n
  {
    if n > 0 {
      assert Uncrowded(trace[n - 1], steps[n - 1]);
      UncrowdedRunAgrees(trace, steps, n - 1);
      hide *;
      RunStep(trace, steps, n - 1);
      CurrentAgrees(trace[n - 1], steps[n - 1]);
      UncrowdedStaysCurrent(trace[n - 1], steps[n - 1]);
      UncrowdedKeepsLog(trace[n - 1], steps[n - 1]);
      SoFarStep(trace, steps, n - 1);
      OnwardStep(trace, steps, n - 1);
      OrderedStep(trace, steps, n - 1);
    }
  }

  lemma CurrentAgrees(t: Threads, step: Step)
    requires Current(t) && LogCurrent(t) && CanStep(t, step)
    ensures Agrees(t, step) && Lively(t, step) && InTurn(t, step)
  {
    hide NextThreadState, LogOf;
  }

  lemma RunExtended(trace: seq<Threads>, steps: seq<Step>, step: Step, t: Threads)
    requires IsRun(trace, steps) && CanStep(trace[|steps|], step) && t == Take(trace[|steps|], step)
    ensures IsRun(trace + [t], steps + [step]) && (trace + [t])[|steps| + 1] == t
  {
    hide CanStep, Take;
    var trace', steps' := trace + [t], steps + [step];
    forall n | 0 <= n < |steps'| ensures CanStep(trace'[n], steps'[n]) && trace'[n + 1] == Take(trace'[n], steps'[n]) {
      if n < |steps| { assert trace'[n] == trace[n] && trace'[n + 1] == trace[n + 1] && steps'[n] == steps[n]; }
    }
  }

  lemma Offers(id: ThreadId) returns (trace: seq<Threads>)
    ensures IsRun(trace, [ResolveRoot(0, id, Offer), Store(0), Persist(0)])
    ensures |trace| == 4 && trace[3] == Threads(map[id := Offered], map[id := [Offer]], map[], [Entry(id, Offer)])
  {
    var t1 := Threads(map[], map[], map[0 := Draft(id, Offer, Open, false)], []);
    var t2 := Threads(map[], map[], map[0 := Draft(id, Offer, Open, true)], [Entry(id, Offer)]);
    assert Take(NO_THREADS, ResolveRoot(0, id, Offer)) == t1;
    assert Take(t1, Store(0)) == t2;
    var t3 := Threads(map[id := Offered], map[id := [Offer]], map[], [Entry(id, Offer)]);
    var t := Take(t2, Persist(0));
    assert AcceptedOf(t2, id) + [Offer] == [Offer];
    assert t.states == t3.states && t.accepted == t3.accepted && t.drafts == t3.drafts;
    trace := [NO_THREADS, t1, t2, t];
  }

  /** Without that discipline a thread can go back: a counter-offer that read the thread before an
    acceptance was persisted takes it from agreed to offered again. */
  lemma OverlappingRepliesGoBack(id: ThreadId) returns (trace: seq<Threads>)
    ensures IsRun(trace, [ResolveRoot(0, id, Offer), Store(0), Persist(0), ResolveReply(1, id, Accept), ResolveReply(2, id, Counter),
                          Store(1), Store(2), Persist(1), Persist(2)])
    ensures |trace| == 10 && id in trace[8].states && trace[8].states[id] == Agreed && id in trace[9].states && trace[9].states[id] == Offered
  {
    trace := Offers(id);
    var steps := [ResolveRoot(0, id, Offer), Store(0), Persist(0)];
    var a, b := Draft(id, Accept, Offered, false), Draft(id, Counter, Offered, false);
    var states, accepted, log := map[id := Offered], map[id := [Offer]], [Entry(id, Offer)];
    var t4, t5 := Threads(states, accepted, map[1 := a], log), Threads(states, accepted, map[1 := a, 2 := b], log);
    var log6 := log + [Entry(id, Accept)];
    var t6 := Threads(states, accepted, map[1 := a.(logged := true), 2 := b], log6);
    var t7 := Threads(states, accepted, map[1 := a.(logged := true), 2 := b.(logged := true)], log6 + [Entry(id, Counter)]);
    RepliesFit(t4, t5, t6, t7, id, a, b, accepted, log);
    var t8, t9 := Take(t7, Persist(1)), Take(Take(t7, Persist(1)), Persist(2));
    hide IsRun, Take, CanStep;
    RunExtended(trace, steps, ResolveReply(1, id, Accept), t4);
    trace, steps := trace + [t4], steps + [ResolveReply(1, id, Accept)];
    RunExtended(trace, steps, ResolveReply(2, id, Counter), t5);
    trace, steps := trace + [t5], steps + [ResolveReply(2, id, Counter)];
    RunExtended(trace, steps, Store(1), t6);
    trace, steps := trace + [t6], steps + [Store(1)];
    RunExtended(trace, steps, Store(2), t7);
    trace, steps := trace + [t7], steps + [Store(2)];
    RunExtended(trace, steps, Persist(1), t8);
    trace, steps := trace + [t8], steps + [Persist(1)];
    RunExtended(trace, steps, Persist(2), t9);
    trace, steps := trace + [t9], steps + [Persist(2)];
  }

  lemma RepliesFit(t4: Threads, t5: Threads, t6: Threads, t7: Threads, id: ThreadId, a: Draft, b: Draft,
                   accepted: map<ThreadId, seq<Kind>>, log: seq<Entry>)
    requires a == Draft(id, Accept, Offered, false) && b == Draft(id, Counter, Offered, false)
    requires var states := map[id := Offered];
             && t4 == Threads(states, accepted, map[1 := a], log) && t5 == Threads(states, accepted, map[1 := a, 2 := b], log)
             && t6 == Threads(states, accepted, map[1 := a.(logged := true), 2 := b], log + [Entry(id, Accept)])
             && t7 == Threads(states, accepted, map[1 := a.(logged := true), 2 := b.(logged := true)], log + [Entry(id, Accept)] + [Entry(id, Counter)])
    ensures var t3 := Threads(map[id := Offered], accepted, map[], log);
            CanStep(t3, ResolveReply(1, id, Accept)) && Take(t3, ResolveReply(1, id, Accept)) == t4
    ensures CanStep(t4, ResolveReply(2, id, Counter)) && Take(t4, ResolveReply(2, id, Counter)) == t5
    ensures CanStep(t5, Store(1)) && Take(t5, Store(1)) == t6 && CanStep(t6, Store(2)) && Take(t6, Store(2)) == t7
    ensures CanStep(t7, Persist(1)) && CanStep(Take(t7, Persist(1)), Persist(2))
    ensures Take(t7, Persist(1)).states == map[id := Agreed] && Take(Take(t7, Persist(1)), Persist(2)).states == map[id := Offered]
  {
    var a', b' := a.(logged := true), b.(logged := true);
    assert t4.drafts[2 := b] == t5.drafts && t5.drafts[1 := a'] == t6.drafts && t6.drafts[2 := b'] == t7.drafts;
    var t8 := Take(t7, Persist(1));
    assert t8.drafts == map[2 := b'] && t8.states == map[id := Agreed];
  }
}
