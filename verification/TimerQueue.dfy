/** The timer queue: two sets of timers, a one-shot alarm, and callbacks that add and cancel timers, when
    they are called and when they are destroyed. */
module TimerQueue {
  import opened Wrappers

  // ---------- state ----------

  datatype Timer = Timer(expiration: int, interval: int, repeats: bool, sequence: nat)

  /** A timer's address under the time it was queued for; ordered by time, then by address. */
  datatype Entry = Entry(when: int, addr: nat)

  predicate Less(a: Entry, b: Entry) { a.when < b.when || (a.when == b.when && a.addr < b.addr) }

  datatype Alarm = Unarmed | Armed(deadline: int, armedAt: int) | Fired

  datatype Event = Inserted(seqNo: nat, when: int) | Ran(seqNo: nat, round: nat) | Deleted(seqNo: nat)

  /** What has happened so far: the address of each timer made, the timers handed to the loop, the round
      in which each timer was first cancelled with success, and the events in order; whether an assert on
      the sizes has been met with different ones, and whether a timer has been deleted twice. A build
      without asserts goes on after the first, and nothing is said of what comes after the second. */
  datatype History = History(
    ids: map<nat, nat>, added: set<nat>, cancelled: map<nat, nat>, events: seq<Event>, round: nat,
    asserted: bool, twice: bool)

  /** heap holds the timers whose memory is not freed; waiting those made but not yet added; batch the
      rest of the expired timers that a handleRead in progress works through, calling them or, when
      resetting, putting them back or deleting them. Deleting a timer destroys its callback, and that may
      run code of the user: dying is the timer that reset deletes, and erasing are those that cancelInLoop
      deletes, one in the destructor of the other, each gone from timers and not yet from active. */
  datatype State = State(heap: map<nat, Timer>, created: nat, waiting: set<nat>,
                         timers: seq<Entry>, active: set<(nat, nat)>, canceling: set<(nat, nat)>,
                         calling: bool, resetting: bool, batch: seq<Entry>, next: nat, batchTime: int,
                         dying: Option<nat>, erasing: seq<(nat, nat)>,
                         alarm: Alarm, clock: int, past: History)

  const PTR_MAX := 0xFFFF_FFFF_FFFF_FFFF

  // ---------- ordered sets as sorted sequences ----------

  ghost predicate Sorted(ts: seq<Entry>) { forall i, k :: 0 <= i < k < |ts| ==> Less(ts[i], ts[k]) }

  function InsertSorted(ts: seq<Entry>, e: Entry): (r: seq<Entry>) {
    if ts == [] || Less(e, ts[0]) then [e] + ts
    else if e == ts[0] then ts
    else [ts[0]] + InsertSorted(ts[1..], e)
  }

  function Erase(ts: seq<Entry>, e: Entry): (r: seq<Entry>) {
    if ts == [] then [] else if ts[0] == e then ts[1..] else [ts[0]] + Erase(ts[1..], e)
  }

  function LowerBound(ts: seq<Entry>, e: Entry): (n: nat)
    ensures n <= |ts|
  {
    if ts == [] || !Less(ts[0], e) then 0 else 1 + LowerBound(ts[1..], e)
  }

  lemma {:induction false} InsertSortedIs(ts: seq<Entry>, e: Entry)
    requires Sorted(ts)
    ensures Sorted(InsertSorted(ts, e))
    ensures forall x :: x in InsertSorted(ts, e) <==> x == e || x in ts
    ensures InsertSorted(ts, e) != [] && InsertSorted(ts, e)[0] == if ts == [] || Less(e, ts[0]) then e else ts[0]
  {
    if ts != [] && !Less(e, ts[0]) && e != ts[0] {
      InsertSortedIs(ts[1..], e);
      var r := InsertSorted(ts[1..], e);
      forall i | 0 <= i < |r| ensures Less(ts[0], r[i]) { assert r[i] in r; }
    }
  }

  lemma {:induction false} EraseIs(ts: seq<Entry>, e: Entry)
    requires Sorted(ts)
    ensures Sorted(Erase(ts, e)) && forall x :: x in Erase(ts, e) <==> x != e && x in ts
  {
    if ts != [] {
      if ts[0] == e {
        assert forall x :: x in ts[1..] ==> x != e;
      } else {
        EraseIs(ts[1..], e);
        var r := Erase(ts[1..], e);
        forall i | 0 <= i < |r| ensures Less(ts[0], r[i]) { assert r[i] in r; }
      }
    }
  }

  /** The entries below the sentry (now, greatest address) are exactly those due. */
  lemma {:induction false} LowerBoundIs(ts: seq<Entry>, now: int)
    requires Sorted(ts) && forall e :: e in ts ==> e.addr < PTR_MAX
    ensures
      var n := LowerBound(ts, Entry(now, PTR_MAX));
      && (forall i :: 0 <= i < n ==> ts[i].when <= now) && (forall i :: n <= i < |ts| ==> ts[i].when > now)
  {
    if ts != [] {
      assert ts[0] in ts;
      if Less(ts[0], Entry(now, PTR_MAX)) { LowerBoundIs(ts[1..], now); }
    }
  }

  // ---------- the steps ----------

  function Log(s: State, e: Event): State { s.(past := s.past.(events := s.past.events + [e])) }

  /** A new timer, made by addTimer in any thread, at any free address. */
  function New(s: State, addr: nat, when: int, interval: int, repeats: bool): State {
    s.(heap := s.heap[addr := Timer(when, interval, repeats, s.created + 1)], created := s.created + 1,
       waiting := s.waiting + {addr}, past := s.past.(ids := s.past.ids[s.created + 1 := addr]))
  }

  /** timerfd_settime: at least 100 microseconds ahead, and any unread expiry is forgotten. */
  function SetAlarm(s: State, expiration: int): State {
    s.(alarm := Armed(s.clock + (if expiration - s.clock < 100 then 100 else expiration - s.clock), s.clock))
  }

  predicate EarliestChanges(s: State, addr: nat)
    requires addr in s.heap
  {
    s.timers == [] || s.heap[addr].expiration < s.timers[0].when
  }

  function Insert(s: State, addr: nat): State
    requires addr in s.heap
  {
    var t := s.heap[addr];
    Log(s.(timers := InsertSorted(s.timers, Entry(t.expiration, addr)), active := s.active + {(addr, t.sequence)}),
        Inserted(t.sequence, t.expiration))
  }

  /** insert and cancelInLoop assert that the two sets have the same size. */
  function Asserts(s: State): State { s.(past := s.past.(asserted := s.past.asserted || s.erasing != [])) }

  function Add(s: State, addr: nat): State
    requires addr in s.heap
  {
    var q := s.heap[addr].sequence;
    var a := Insert(Asserts(s.(waiting := s.waiting - {addr}, past := s.past.(added := s.past.added + {q}))), addr);
    if EarliestChanges(s, addr) then SetAlarm(a, s.heap[addr].expiration) else a
  }

  /** The cancel of a repeating timer that reset will put back: it is in neither set, and the flag that
      callbacks are being called is down. */
  predicate Lost(s: State, addr: nat, q: nat) {
    && s.resetting && addr in s.heap && s.heap[addr].sequence == q && s.heap[addr].repeats
    && Entry(s.heap[addr].expiration, addr) in s.batch && (addr, q) !in s.canceling
  }

  /** The first cancel of a timer that the loop has been handed, unless it is lost. */
  function NoteCancel(s: State, addr: nat, q: nat): State {
    if q in s.past.added && q !in s.past.cancelled && !Lost(s, addr, q) then
      s.(past := s.past.(cancelled := s.past.cancelled[q := s.past.round]))
    else s
  }

  /** The timer leaves the first set, and its callback begins to be destroyed. */
  function Unqueued(s: State, addr: nat): State
    requires addr in s.heap
  {
    var t := s.heap[addr];
    Log(s.(timers := Erase(s.timers, Entry(t.expiration, addr)), erasing := s.erasing + [(addr, t.sequence)]),
        Deleted(t.sequence))
  }

  /** cancelInLoop, up to the destructor of the callback if it finds the timer. A timer that is being
      deleted by another cancelInLoop is still found, and deleted again. */
  function Cancel(s: State, addr: nat, q: nat): State
    requires (addr, q) in s.active ==> addr in s.heap
  {
    var a := Asserts(NoteCancel(s, addr, q));
    if (addr, q) in s.erasing then
      var b := Log(a, Deleted(q));
      b.(past := b.past.(twice := true))
    else if (addr, q) in s.active then Unqueued(a, addr)
    else if s.calling then a.(canceling := s.canceling + {(addr, q)})
    else a
  }

  /** cancelInLoop after the destructor: the timer leaves the second set. */
  function FinishCancel(s: State): State
    requires s.erasing != []
  {
    var n := |s.erasing| - 1;
    s.(heap := s.heap - {s.erasing[n].0}, active := s.active - {s.erasing[n]}, erasing := s.erasing[..n])
  }

  function Ids(heap: map<nat, Timer>, es: seq<Entry>): set<(nat, nat)> {
    set e | e in es && e.addr in heap :: (e.addr, heap[e.addr].sequence)
  }

  /** handleRead up to its loop: the alarm is read and the due timers are taken out. */
  function Begin(s: State): State {
    var n := LowerBound(s.timers, Entry(s.clock, PTR_MAX));
    s.(alarm := if s.alarm == Fired then Unarmed else s.alarm,
       batch := s.timers[..n], timers := s.timers[n..], active := s.active - Ids(s.heap, s.timers[..n]),
       calling := true, canceling := {}, next := 0, batchTime := s.clock,
       past := s.past.(round := s.past.round + 1))
  }

  /** One turn of that loop, up to the call of the callback. */
  function Run(s: State): State
    requires s.next < |s.batch| && s.batch[s.next].addr in s.heap
  {
    Log(s.(next := s.next + 1), Ran(s.heap[s.batch[s.next].addr].sequence, s.past.round))
  }

  /** reset begins to delete a timer. */
  function Condemn(s: State, addr: nat): State
    requires addr in s.heap
  {
    Log(s.(dying := Some(addr)), Deleted(s.heap[addr].sequence))
  }

  /** The destructor is over. */
  function Freed(s: State): State {
    if s.dying.Some? then s.(heap := s.heap - {s.dying.value}, dying := None) else s
  }

  /** reset, for the first timer of the batch: back into the queue, or to be deleted. */
  function ResetTurn(s: State): State
    requires s.batch != [] && s.batch[0].addr in s.heap
  {
    var addr := s.batch[0].addr;
    var t := s.heap[addr];
    var a := s.(batch := s.batch[1..]);
    if t.repeats && (addr, t.sequence) !in s.canceling then
      Insert(a.(heap := s.heap[addr := t.(expiration := s.batchTime + t.interval)]), addr)
    else Condemn(a, addr)
  }

  /** What reset does with a timer of the batch. */
  function Outcome(s: State, e: Entry): Event
    requires e.addr in s.heap
  {
    var t := s.heap[e.addr];
    if t.repeats && (e.addr, t.sequence) !in s.canceling then Inserted(t.sequence, s.batchTime + t.interval)
    else Deleted(t.sequence)
  }

  /** The same with a destructor that does nothing. */
  function ResetOne(s: State): State
    requires s.batch != [] && s.batch[0].addr in s.heap
  {
    Freed(ResetTurn(s))
  }

  function Rearm(s: State): State
    requires s.timers != [] ==> s.timers[0].addr in s.heap
  {
    if s.timers != [] && s.heap[s.timers[0].addr].expiration > 0
    then SetAlarm(s, s.heap[s.timers[0].addr].expiration)
    else s
  }

  function Tick(s: State, d: nat): State { s.(clock := s.clock + d) }

  function Fire(s: State): State { s.(alarm := Fired) }

  function ResetAll(s: State): State
    requires forall i :: 0 <= i < |s.batch| ==> s.batch[i].addr in s.heap
    requires forall i, k :: 0 <= i < k < |s.batch| ==> s.batch[i].addr != s.batch[k].addr
    requires s.dying.None?
    decreases |s.batch|
  {
    if s.batch == [] then s else ResetAll(ResetOne(s))
  }

  /** Callbacks are over, the flag is down, and reset begins. */
  function StartReset(s: State): State { s.(calling := false, resetting := true, next := 0) }

  function EndReset(s: State): State
    requires s.timers != [] ==> s.timers[0].addr in s.heap
  {
    Rearm(s.(resetting := false))
  }

  /** The loop thread runs code of the user, if it is not in a poll: in a callback or in a destructor. */
  predicate InUser(s: State) {
    (s.calling ==> s.next > 0) && (s.resetting ==> s.dying.Some?)
  }

  // ---------- what every step keeps ----------

  /** The timers whose destructor is running. */
  function Dead(s: State): set<nat> {
    (set x | x in s.erasing :: x.0) + (if s.dying.Some? then {s.dying.value} else {})
  }

  /** timers and active hold the same timers, each under its current expiration, but that active has the
      erasing ones too; every timer is in exactly one of waiting, timers, the batch and the dead. */
  ghost predicate Queued(s: State) {
    && Sorted(s.timers) && s.waiting <= s.heap.Keys
    && s.active == Ids(s.heap, s.timers) + (set x | x in s.erasing)
    && (forall e :: e in s.timers ==> Placed(s, e)) && (forall e :: e in s.batch ==> Placed(s, e))
    && (forall e :: e in s.batch ==> e !in s.timers)
    && (forall i, k :: 0 <= i < k < |s.batch| ==> s.batch[i].addr != s.batch[k].addr)
    && (forall a :: a in s.heap && a !in s.waiting && a !in Dead(s) ==>
          Entry(s.heap[a].expiration, a) in s.timers || Entry(s.heap[a].expiration, a) in s.batch)
    && Erased(s)
  }

  ghost predicate Placed(s: State, e: Entry) {
    e.addr in s.heap && s.heap[e.addr].expiration == e.when && e.addr !in s.waiting && e.addr !in Dead(s)
  }

  ghost predicate Erased(s: State) {
    && (forall a :: a in Dead(s) ==> a in s.heap && a !in s.waiting)
    && (forall x :: x in s.erasing ==> x.0 in s.heap && s.heap[x.0].sequence == x.1)
    && (forall i, k :: 0 <= i < k < |s.erasing| ==> s.erasing[i].0 != s.erasing[k].0)
    && (s.dying.Some? ==> forall x :: x in s.erasing ==> x.0 != s.dying.value)
  }

  /** Sequence numbers name timers for good, although addresses are used again. */
  ghost predicate Known(s: State) {
    && (forall a :: a in s.heap ==>
          && s.heap[a].sequence in s.past.ids && s.past.ids[s.heap[a].sequence] == a
          && s.heap[a].expiration > 0 && s.heap[a].interval >= 0 && a < PTR_MAX
          && (s.heap[a].sequence in s.past.added <==> a !in s.waiting))
    && (forall q :: q in s.past.ids ==> 1 <= q <= s.created)
    && (forall q :: q in s.past.added ==> q in s.past.ids)
  }

  /** Nothing happens to a timer after its deletion has begun. */
  ghost predicate NothingAfterDelete(events: seq<Event>) {
    forall i, k :: 0 <= i < k < |events| && events[i].Deleted? ==> events[k].seqNo != events[i].seqNo
  }

  /** A timer that is not dead has not been deleted, and one that is has been. */
  ghost predicate Story(s: State) {
    && (s.past.twice || NothingAfterDelete(s.past.events))
    && (forall i :: 0 <= i < |s.past.events| ==> s.past.events[i].seqNo in s.past.ids)
    && (forall a, i :: a in s.heap && a !in Dead(s) && 0 <= i < |s.past.events| && s.past.events[i].Deleted? ==>
          s.heap[a].sequence != s.past.events[i].seqNo)
    && (forall x :: x in s.erasing ==> Deleted(x.1) in s.past.events)
  }

  /** A timer cancelled with success is not queued; if it is in the batch, it was cancelled in this round
      and is marked, or is not to be put back; and it ran in no round after the one of its cancel. */
  ghost predicate CancelHolds(s: State) {
    && (forall q :: q in s.past.cancelled ==> q in s.past.added && s.past.cancelled[q] <= s.past.round)
    && (forall e :: e in s.timers && e.addr in s.heap ==> s.heap[e.addr].sequence !in s.past.cancelled)
    && (forall e :: e in s.batch && e.addr in s.heap && s.heap[e.addr].sequence in s.past.cancelled ==>
          && s.past.cancelled[s.heap[e.addr].sequence] == s.past.round
          && ((e.addr, s.heap[e.addr].sequence) in s.canceling || (s.resetting && !s.heap[e.addr].repeats)))
    && (forall i :: 0 <= i < |s.past.events| && s.past.events[i].Ran? && s.past.events[i].seqNo in s.past.cancelled ==>
          s.past.events[i].round <= s.past.cancelled[s.past.events[i].seqNo])
    && (forall i :: 0 <= i < |s.past.events| && s.past.events[i].Ran? ==> s.past.events[i].round <= s.past.round)
  }

  /** If a timer is queued, the alarm has fired unread, or is set no later than the earliest
      expiration or 100 microseconds after it was set, whichever is later. */
  ghost predicate AlarmSet(s: State) {
    !s.calling && !s.resetting && s.timers != [] ==>
      || s.alarm == Fired
      || (s.alarm.Armed? && s.alarm.armedAt <= s.clock
          && (s.alarm.deadline <= s.timers[0].when || s.alarm.deadline <= s.alarm.armedAt + 100))
  }

  ghost predicate Core(s: State) { Queued(s) && Known(s) && Story(s) && CancelHolds(s) }

  /** Where the loop thread can be, and what it has in hand there. */
  ghost predicate Stages(s: State) {
    && s.clock > 0 && (s.calling || s.resetting ==> 0 < s.batchTime <= s.clock)
    && (!s.calling && !s.resetting ==> s.batch == []) && s.next <= |s.batch| && !(s.calling && s.resetting)
    && (s.resetting ==> s.next == 0) && (s.dying.Some? ==> s.resetting)
    && (s.resetting ==> s.dying.Some? || s.erasing == [])
  }

  ghost predicate Inv(s: State) { Core(s) && AlarmSet(s) && Stages(s) }

  // ---------- the parts of the steps ----------

  /** Queued, except that the timer at addr is nowhere. */
  ghost predicate Detached(s: State, addr: nat) {
    && Sorted(s.timers) && addr in s.heap && addr !in s.waiting && addr !in Dead(s)
    && s.active == Ids(s.heap, s.timers) + (set x | x in s.erasing) && s.waiting <= s.heap.Keys
    && (forall e :: e in s.timers ==> Placed(s, e) && e.addr != addr)
    && (forall e :: e in s.batch ==> Placed(s, e) && e.addr != addr)
    && (forall e :: e in s.batch ==> e !in s.timers)
    && (forall i, k :: 0 <= i < k < |s.batch| ==> s.batch[i].addr != s.batch[k].addr)
    && (forall a :: a in s.heap && a !in s.waiting && a !in Dead(s) && a != addr ==>
          Entry(s.heap[a].expiration, a) in s.timers || Entry(s.heap[a].expiration, a) in s.batch)
    && Erased(s)
  }

  lemma InsertKeeps(s: State, addr: nat)
    requires Detached(s, addr)
    ensures Queued(Insert(s, addr))
  {
    var t := s.heap[addr];
    var e := Entry(t.expiration, addr);
    InsertSortedIs(s.timers, e);
    var r := Insert(s, addr);
    assert Dead(r) == Dead(s);
    forall x ensures x in Ids(r.heap, r.timers) <==> x == (addr, t.sequence) || x in Ids(s.heap, s.timers) {
      if x in Ids(s.heap, s.timers) {
        var f :| f in s.timers && f.addr in s.heap && x == (f.addr, s.heap[f.addr].sequence);
        assert f in r.timers;
      }
      assert e in r.timers;
    }
    forall f | f in r.timers || f in r.batch ensures Placed(r, f) { assert f == e || Placed(s, f); }
  }

  lemma CondemnKeeps(s: State, addr: nat)
    requires Detached(s, addr) && s.dying.None?
    ensures Queued(Condemn(s, addr))
  {
    assert Ids(Condemn(s, addr).heap, s.timers) == Ids(s.heap, s.timers);
    assert Dead(Condemn(s, addr)) == Dead(s) + {addr};
  }

  lemma InsertStory(s: State, addr: nat)
    requires Known(s) && Story(s) && addr in s.heap && addr !in Dead(s)
    ensures Known(Insert(s, addr)) && Story(Insert(s, addr))
  {
    assert Dead(Insert(s, addr)) == Dead(s);
  }

  lemma InsertCancel(s: State, addr: nat)
    requires CancelHolds(s) && Sorted(s.timers) && addr in s.heap && s.heap[addr].sequence !in s.past.cancelled
    ensures CancelHolds(Insert(s, addr))
  {
    InsertSortedIs(s.timers, Entry(s.heap[addr].expiration, addr));
  }

  lemma CondemnStory(s: State, addr: nat)
    requires Known(s) && Story(s) && addr in s.heap && addr !in Dead(s) && s.dying.None?
    ensures Known(Condemn(s, addr)) && Story(Condemn(s, addr))
  {
    assert Dead(Condemn(s, addr)) == Dead(s) + {addr};
    forall a | a in s.heap && a != addr ensures s.heap[a].sequence != s.heap[addr].sequence {}
  }

  lemma CondemnCancel(s: State, addr: nat)
    requires CancelHolds(s) && addr in s.heap
    ensures CancelHolds(Condemn(s, addr))
  {
  }

  ghost predicate Loose(s: State, addr: nat) { Detached(s, addr) && Known(s) && Story(s) && CancelHolds(s) }

  lemma InsertCore(s: State, addr: nat)
    requires Loose(s, addr) && s.heap[addr].sequence !in s.past.cancelled
    ensures Core(Insert(s, addr)) && Insert(s, addr).timers != []
    ensures Insert(s, addr).timers[0].when ==
      if s.timers == [] || s.heap[addr].expiration < s.timers[0].when then s.heap[addr].expiration else s.timers[0].when
  {
    hide Queued, Known, Story, CancelHolds;
    InsertKeeps(s, addr);
    InsertStory(s, addr);
    InsertCancel(s, addr);
    InsertSortedIs(s.timers, Entry(s.heap[addr].expiration, addr));
  }

  lemma CondemnCore(s: State, addr: nat)
    requires Loose(s, addr) && s.dying.None?
    ensures Core(Condemn(s, addr))
  {
    hide Queued, Known, Story, CancelHolds;
    CondemnKeeps(s, addr);
    CondemnStory(s, addr);
    CondemnCancel(s, addr);
  }

  /** The memory of a dead timer is freed. */
  lemma FreedQueued(s: State, r: State, addr: nat)
    requires Queued(s) && addr in Dead(s) && Dead(r) == Dead(s) - {addr}
    requires r == s.(heap := s.heap - {addr}, active := r.active, dying := r.dying, erasing := r.erasing)
    requires Erased(r) && r.active == Ids(s.heap, s.timers) + (set x | x in r.erasing)
    ensures Queued(r)
  {
    assert Ids(r.heap, r.timers) == Ids(s.heap, s.timers);
    forall e | e in r.timers || e in r.batch ensures Placed(r, e) { assert Placed(s, e); }
  }

  lemma FreedStory(s: State, r: State, addr: nat)
    requires Known(s) && Story(s) && CancelHolds(s) && Dead(r) == Dead(s) - {addr}
    requires r == s.(heap := s.heap - {addr}, active := r.active, dying := r.dying, erasing := r.erasing)
    requires forall x :: x in r.erasing ==> x in s.erasing
    ensures Known(r) && Story(r) && CancelHolds(r)
  {
    hide Dead;
    assert forall a :: a in r.heap ==> a in s.heap && r.heap[a] == s.heap[a] && a != addr;
  }

  lemma FreedCore(s: State)
    requires Core(s)
    ensures Core(Freed(s))
  {
    if s.dying.Some? {
      var r := Freed(s);
      assert Dead(r) == Dead(s) - {s.dying.value};
      FreedQueued(s, r, s.dying.value);
      FreedStory(s, r, s.dying.value);
    }
  }

  lemma FinishCancelCore(s: State)
    requires Core(s) && s.erasing != []
    ensures Core(FinishCancel(s))
  {
    var r, x := FinishCancel(s), s.erasing[|s.erasing| - 1];
    LastErased(s);
    hide Queued, Known, Story, CancelHolds;
    FreedQueued(s, r, x.0);
    FreedStory(s, r, x.0);
  }

  lemma LastErased(s: State)
    requires Queued(s) && s.erasing != []
    ensures
      var r, x := FinishCancel(s), s.erasing[|s.erasing| - 1];
      && x.0 in Dead(s) && Dead(r) == Dead(s) - {x.0} && Erased(r)
      && r.active == Ids(s.heap, s.timers) + (set y | y in r.erasing)
  {
    var r, x := FinishCancel(s), s.erasing[|s.erasing| - 1];
    assert s.erasing == r.erasing + [x];
    forall y | y in s.erasing ensures y == x || (y in r.erasing && y.0 != x.0) {}
    assert Dead(r) == Dead(s) - {x.0};
    forall e | e in s.timers ensures e.addr != x.0 { assert Placed(s, e); }
    assert r.active == Ids(s.heap, s.timers) + (set y | y in r.erasing);
  }

  lemma QueuedSame(s: State, r: State)
    requires Queued(s) && r.heap == s.heap && r.waiting == s.waiting && r.timers == s.timers && r.active == s.active
    requires r.batch == s.batch && r.dying == s.dying && r.erasing == s.erasing
    ensures Queued(r)
  {
    assert Ids(r.heap, r.timers) == Ids(s.heap, s.timers) && Dead(r) == Dead(s);
    forall e | e in s.timers || e in s.batch ensures Placed(r, e) { assert Placed(s, e); }
  }

  lemma StorySame(s: State, r: State)
    requires Known(s) && Story(s) && r.heap == s.heap && r.waiting == s.waiting && r.created == s.created
    requires r.dying == s.dying && r.erasing == s.erasing
    requires r.past == s.past.(cancelled := r.past.cancelled, round := r.past.round, asserted := r.past.asserted)
    ensures Known(r) && Story(r)
  {
    assert Dead(r) == Dead(s);
  }

  /** What else a step changes is no business of the timers. */
  lemma ElsewhereCore(s: State, r: State)
    requires Core(s) && (s.resetting ==> r.resetting || s.batch == [])
    requires r == s.(alarm := r.alarm, clock := r.clock, calling := r.calling, resetting := r.resetting, next := r.next,
                     past := s.past.(asserted := r.past.asserted))
    ensures Core(r)
  {
    assert Ids(r.heap, r.timers) == Ids(s.heap, s.timers) && Dead(r) == Dead(s);
    forall e | e in s.timers || e in s.batch ensures Placed(r, e) { assert Placed(s, e); }
  }

  // ---------- the steps ----------

  lemma NewKeeps(s: State, addr: nat, when: int, interval: int, repeats: bool)
    requires Inv(s) && addr !in s.heap && addr < PTR_MAX && when > 0 && interval >= 0
    ensures Inv(New(s, addr, when, interval, repeats))
  {
    hide Queued, Known, Story, CancelHolds;
    NewQueued(s, addr, when, interval, repeats);
    NewStory(s, addr, when, interval, repeats);
    NewCancel(s, addr, when, interval, repeats);
  }

  lemma NewQueued(s: State, addr: nat, when: int, interval: int, repeats: bool)
    requires Queued(s) && addr !in s.heap
    ensures Queued(New(s, addr, when, interval, repeats))
  {
    var r := New(s, addr, when, interval, repeats);
    assert Dead(r) == Dead(s);
    forall e | e in s.timers || e in s.batch ensures Placed(r, e) && e.addr != addr { assert Placed(s, e); }
    assert Ids(r.heap, r.timers) == Ids(s.heap, s.timers);
  }

  lemma NewStory(s: State, addr: nat, when: int, interval: int, repeats: bool)
    requires Queued(s) && Known(s) && Story(s) && addr !in s.heap && addr < PTR_MAX && when > 0 && interval >= 0
    ensures Known(New(s, addr, when, interval, repeats)) && Story(New(s, addr, when, interval, repeats))
  {
    assert Dead(New(s, addr, when, interval, repeats)) == Dead(s);
    assert s.created + 1 !in s.past.ids && s.created + 1 !in s.past.added;
  }

  lemma NewCancel(s: State, addr: nat, when: int, interval: int, repeats: bool)
    requires Queued(s) && CancelHolds(s) && addr !in s.heap
    ensures CancelHolds(New(s, addr, when, interval, repeats))
  {
    forall e | e in s.timers || e in s.batch ensures e.addr != addr { assert Placed(s, e); }
  }

  lemma AddKeeps(s: State, addr: nat)
    requires Inv(s) && addr in s.waiting
    ensures addr in s.heap && Inv(Add(s, addr))
  {
    hide Core, Loose;
    AddedKnown(s, addr);
    var q := s.heap[addr].sequence;
    var a := Asserts(s.(waiting := s.waiting - {addr}, past := s.past.(added := s.past.added + {q})));
    InsertCore(a, addr);
    var b := Insert(a, addr);
    ElsewhereCore(b, SetAlarm(b, s.heap[addr].expiration));
  }

  lemma AddedKnown(s: State, addr: nat)
    requires Core(s) && addr in s.waiting
    ensures addr in s.heap && Sorted(s.timers)
    ensures
      var q := s.heap[addr].sequence;
      var a := Asserts(s.(waiting := s.waiting - {addr}, past := s.past.(added := s.past.added + {q})));
      Loose(a, addr) && q !in s.past.cancelled
  {
    var q := s.heap[addr].sequence;
    var a := Asserts(s.(waiting := s.waiting - {addr}, past := s.past.(added := s.past.added + {q})));
    assert Ids(a.heap, a.timers) == Ids(s.heap, s.timers) && Dead(a) == Dead(s);
    forall e | e in s.timers || e in s.batch ensures Placed(a, e) && e.addr != addr { assert Placed(s, e); }
    forall b | b in s.heap && b != addr ensures s.heap[b].sequence != q {}
  }

  lemma NoteCancelKeeps(s: State, addr: nat, q: nat)
    requires Core(s) && (q in s.past.ids ==> s.past.ids[q] == addr) && (addr, q) !in s.active && Stages(s)
    ensures
      var a := Asserts(NoteCancel(s, addr, q));
      Core(if s.calling then a.(canceling := s.canceling + {(addr, q)}) else a)
  {
    hide Queued, Known, Story, CancelHolds, Lost;
    var a := Asserts(NoteCancel(s, addr, q));
    var r := if s.calling then a.(canceling := s.canceling + {(addr, q)}) else a;
    QueuedSame(s, r);
    StorySame(s, r);
    NoteCancelHolds(s, addr, q);
  }

  lemma NoteCancelHolds(s: State, addr: nat, q: nat)
    requires Core(s) && (q in s.past.ids ==> s.past.ids[q] == addr) && (addr, q) !in s.active && Stages(s)
    ensures
      var a := Asserts(NoteCancel(s, addr, q));
      CancelHolds(if s.calling then a.(canceling := s.canceling + {(addr, q)}) else a)
  {
    NotQueued(s, addr, q);
    NoteCancelBatch(s, addr, q);
    hide Queued, Known, Story, Lost, CancelHolds;
    var a := Asserts(NoteCancel(s, addr, q));
    NotedHolds(s, q, if s.calling then a.(canceling := s.canceling + {(addr, q)}) else a);
  }

  /** A cancel is noted for a timer that is not queued and will not be. */
  lemma NotedHolds(s: State, q: nat, r: State)
    requires CancelHolds(s)
    requires r == s.(canceling := r.canceling, timers := r.timers, erasing := r.erasing, past := r.past)
    requires s.canceling <= r.canceling && r.past.added == s.past.added && r.past.round == s.past.round
    requires r.past.events == s.past.events || r.past.events == s.past.events + [Deleted(q)]
    requires r.past.cancelled == s.past.cancelled
      || (q in s.past.added && q !in s.past.cancelled && r.past.cancelled == s.past.cancelled[q := s.past.round]
          && forall e :: e in s.batch && e.addr in s.heap && s.heap[e.addr].sequence == q ==>
               (e.addr, q) in r.canceling || (s.resetting && !s.heap[e.addr].repeats))
    requires forall e :: e in r.timers && e.addr in s.heap ==> e in s.timers && s.heap[e.addr].sequence != q
    ensures CancelHolds(r)
  {
    forall i | 0 <= i < |r.past.events| && r.past.events[i].Ran? ensures i < |s.past.events| {}
  }

  lemma NotQueued(s: State, addr: nat, q: nat)
    requires Core(s) && (q in s.past.ids ==> s.past.ids[q] == addr) && (addr, q) !in s.active
    ensures forall e :: e in s.timers && e.addr in s.heap ==> s.heap[e.addr].sequence != q
  {
    forall e | e in s.timers && e.addr in s.heap ensures s.heap[e.addr].sequence != q {
      assert Placed(s, e) && (e.addr, s.heap[e.addr].sequence) in Ids(s.heap, s.timers);
    }
  }

  /** A timer of the batch is cancelled with success while callbacks are called, or if it is not put back. */
  lemma NoteCancelBatch(s: State, addr: nat, q: nat)
    requires Core(s) && (q in s.past.ids ==> s.past.ids[q] == addr) && (s.calling || s.resetting || s.batch == [])
    ensures forall e :: e in s.batch ==> e.addr in s.heap
    ensures forall e :: e in s.batch && s.heap[e.addr].sequence == q && !Lost(s, addr, q) ==>
      e.addr == addr && (s.calling || (s.resetting && ((addr, q) in s.canceling || !s.heap[addr].repeats)))
  {
    forall e | e in s.batch ensures e.addr in s.heap && e == Entry(s.heap[e.addr].expiration, e.addr) {
      assert Placed(s, e);
    }
  }

  /** Cancelling a queued timer: out of the first set, noted, and dead. */
  lemma UnqueueKeeps(s: State, addr: nat, q: nat)
    requires Core(s) && (addr, q) in s.active && (addr, q) !in s.erasing
    ensures addr in s.heap && s.heap[addr].sequence == q && Entry(s.heap[addr].expiration, addr) in s.timers
    ensures Core(Unqueued(Asserts(NoteCancel(s, addr, q)), addr))
  {
    ActiveQueued(s, addr, q);
    hide Queued, Known, Story, CancelHolds, Lost;
    var a, e := Asserts(NoteCancel(s, addr, q)), Entry(s.heap[addr].expiration, addr);
    QueuedSame(s, a);
    StorySame(s, a);
    UnqueueQueued(a, e);
    UnqueueStory(a, e);
    UnqueueCancel(s, e);
  }

  lemma ActiveQueued(s: State, addr: nat, q: nat)
    requires Core(s) && (addr, q) in s.active && (addr, q) !in s.erasing
    ensures addr in s.heap && s.heap[addr].sequence == q
    ensures Entry(s.heap[addr].expiration, addr) in s.timers && Placed(s, Entry(s.heap[addr].expiration, addr))
  {
    var e :| e in s.timers && e.addr in s.heap && (addr, q) == (e.addr, s.heap[e.addr].sequence);
    assert Placed(s, e);
  }

  lemma UnqueueQueued(s: State, e: Entry)
    requires Queued(s) && e in s.timers && Placed(s, e)
    ensures Queued(Unqueued(s, e.addr))
  {
    var q, r := s.heap[e.addr].sequence, Unqueued(s, e.addr);
    EraseIs(s.timers, e);
    assert Dead(r) == Dead(s) + {e.addr};
    forall f | f in s.timers && f != e ensures Placed(s, f) && f.addr != e.addr {}
    forall f | f in s.batch ensures Placed(s, f) && f.addr != e.addr {}
    forall f | f in r.timers || f in r.batch ensures Placed(r, f) {}
    UnqueueIds(s, e);
  }

  lemma UnqueueIds(s: State, e: Entry)
    requires Queued(s) && e in s.timers && Placed(s, e)
    ensures
      var r := Unqueued(s, e.addr);
      r.active == Ids(r.heap, r.timers) + (set y | y in r.erasing)
  {
    var r := Unqueued(s, e.addr);
    EraseIs(s.timers, e);
    hide Queued;
    forall x
      ensures x in Ids(s.heap, s.timers) <==> x in Ids(r.heap, r.timers) || x == (e.addr, s.heap[e.addr].sequence)
    {
      if x in Ids(s.heap, s.timers) {
        var f :| f in s.timers && f.addr in s.heap && x == (f.addr, s.heap[f.addr].sequence);
        assert f == e || f in r.timers;
      }
    }
    ActiveIs(s);
  }

  lemma ActiveIs(s: State)
    requires Queued(s)
    ensures s.active == Ids(s.heap, s.timers) + (set y | y in s.erasing)
  {
  }

  /** Timers at different addresses have different numbers. */
  lemma NumbersApart(s: State, addr: nat)
    requires Queued(s) && Known(s) && addr in s.heap
    ensures forall e :: (e in s.timers || e in s.batch) ==>
      e.addr in s.heap && (e.addr != addr ==> s.heap[e.addr].sequence != s.heap[addr].sequence)
  {
    forall e | e in s.timers || e in s.batch
      ensures e.addr in s.heap && (e.addr != addr ==> s.heap[e.addr].sequence != s.heap[addr].sequence)
    {
      assert Placed(s, e);
    }
  }

  lemma UnqueueStory(s: State, e: Entry)
    requires Known(s) && Story(s) && Placed(s, e)
    ensures Known(Unqueued(s, e.addr)) && Story(Unqueued(s, e.addr))
  {
    hide Erase;
    var q, r := s.heap[e.addr].sequence, Unqueued(s, e.addr);
    assert Dead(r) == Dead(s) + {e.addr};
    forall a | a in s.heap && a != e.addr ensures s.heap[a].sequence != q {}
    assert r.past.events == s.past.events + [Deleted(q)];
    assert r.past.events[|s.past.events|] == Deleted(q);
    forall x | x in s.erasing ensures Deleted(x.1) in r.past.events {}
  }

  lemma UnqueueCancel(s: State, e: Entry)
    requires Core(s) && e in s.timers && Placed(s, e)
    ensures CancelHolds(Unqueued(Asserts(NoteCancel(s, e.addr, s.heap[e.addr].sequence)), e.addr))
  {
    CoreSorted(s);
    EraseIs(s.timers, e);
    NumbersApart(s, e.addr);
    OnlyEntry(s, e);
    hide Queued, Known, Story, Erase, Lost, CancelHolds;
    NotedHolds(s, s.heap[e.addr].sequence, Unqueued(Asserts(NoteCancel(s, e.addr, s.heap[e.addr].sequence)), e.addr));
  }

  lemma OnlyEntry(s: State, e: Entry)
    requires Queued(s) && e in s.timers && Placed(s, e)
    ensures forall f :: f in s.timers && f != e ==> f.addr != e.addr
    ensures forall f :: f in s.batch ==> f.addr != e.addr
  {
    forall f | f in s.timers || f in s.batch ensures Placed(s, f) {}
  }

  /** Deleting a timer again: all that the invariant says stays, but for the order of the events. */
  lemma TwiceKeeps(s: State, addr: nat, q: nat)
    requires Core(s) && (addr, q) in s.erasing && q in s.past.added && addr in s.heap && s.heap[addr].sequence == q
    ensures
      var b := Log(Asserts(NoteCancel(s, addr, q)), Deleted(q));
      Core(b.(past := b.past.(twice := true)))
  {
    hide Queued, Known, Story, CancelHolds, Lost;
    var a := Asserts(NoteCancel(s, addr, q));
    var b := Log(a, Deleted(q));
    QueuedSame(s, b.(past := b.past.(twice := true)));
    StorySame(s, a);
    TwiceStory(a, addr, q);
    TwiceCancel(s, addr, q);
  }

  lemma TwiceStory(s: State, addr: nat, q: nat)
    requires Known(s) && Story(s) && (addr, q) in s.erasing && q in s.past.added && addr in s.heap
    requires s.heap[addr].sequence == q
    ensures
      var b := Log(s, Deleted(q));
      var r := b.(past := b.past.(twice := true));
      Known(r) && Story(r)
  {
    var b := Log(s, Deleted(q));
    assert addr in Dead(s) && Dead(b.(past := b.past.(twice := true))) == Dead(s);
    forall a | a in s.heap && a !in Dead(s) ensures s.heap[a].sequence != q {}
  }

  lemma TwiceCancel(s: State, addr: nat, q: nat)
    requires Core(s) && (addr, q) in s.erasing && q in s.past.added && addr in s.heap && s.heap[addr].sequence == q
    ensures
      var b := Log(Asserts(NoteCancel(s, addr, q)), Deleted(q));
      CancelHolds(b.(past := b.past.(twice := true)))
  {
    NumbersApart(s, addr);
    DeadNotPlaced(s, addr, q);
    hide Queued, Known, Story, Lost, CancelHolds;
    var b := Log(Asserts(NoteCancel(s, addr, q)), Deleted(q));
    NotedHolds(s, q, b.(past := b.past.(twice := true)));
  }

  lemma DeadNotPlaced(s: State, addr: nat, q: nat)
    requires Queued(s) && (addr, q) in s.erasing
    ensures forall e :: e in s.timers || e in s.batch ==> e.addr != addr
  {
    assert addr in Dead(s);
    forall e | e in s.timers || e in s.batch ensures e.addr != addr { assert Placed(s, e); }
  }

  lemma ErasingAdded(s: State, addr: nat, q: nat)
    requires Core(s) && (addr, q) in s.erasing
    ensures q in s.past.added && addr in s.heap && s.heap[addr].sequence == q && (addr, q) in s.active
  {
    assert addr in Dead(s);
  }

  lemma CancelCore(s: State, addr: nat, q: nat)
    requires Core(s) && Stages(s) && (q in s.past.ids ==> s.past.ids[q] == addr)
    ensures (addr, q) in s.active ==> addr in s.heap
    ensures Core(Cancel(s, addr, q))
  {
    hide Core;
    if (addr, q) in s.erasing {
      ErasingAdded(s, addr, q);
      TwiceKeeps(s, addr, q);
    } else if (addr, q) in s.active {
      UnqueueKeeps(s, addr, q);
    } else {
      NoteCancelKeeps(s, addr, q);
    }
  }

  lemma CancelKeeps(s: State, addr: nat, q: nat)
    requires Inv(s) && InUser(s) && (q in s.past.ids ==> s.past.ids[q] == addr)
    ensures (addr, q) in s.active ==> addr in s.heap
    ensures Inv(Cancel(s, addr, q))
  {
    hide Core;
    CancelCore(s, addr, q);
    if (addr, q) in s.active && (addr, q) !in s.erasing {
      UnqueueKeeps(s, addr, q);
      CoreSorted(s);
      EraseFirst(s.timers, Entry(s.heap[addr].expiration, addr));
    }
  }

  lemma FinishCancelKeeps(s: State)
    requires Inv(s) && s.erasing != []
    ensures Inv(FinishCancel(s))
  {
    hide Core;
    FinishCancelCore(s);
  }

  lemma InvCore(s: State)
    requires Inv(s)
    ensures Core(s)
  {
  }

  lemma CoreSorted(s: State)
    requires Core(s)
    ensures Sorted(s.timers)
  {
  }

  lemma EraseFirst(ts: seq<Entry>, e: Entry)
    requires Sorted(ts)
    ensures Erase(ts, e) != [] ==> ts != [] && ts[0].when <= Erase(ts, e)[0].when
  {
    EraseIs(ts, e);
    var r := Erase(ts, e);
    if r != [] {
      assert r[0] in r;
      var i :| 0 <= i < |ts| && ts[i] == r[0];
      assert i > 0 ==> Less(ts[0], ts[i]);
    }
  }

  lemma BeginKeeps(s: State)
    requires Inv(s) && !s.calling && !s.resetting && s.erasing == []
    ensures Inv(Begin(s))
  {
    BeginQueued(s);
    BeginFrame(s);
    BeginCancel(s);
    hide Queued, Known, Story, CancelHolds, Begin;
    StorySame(s, Begin(s));
  }

  lemma BeginQueued(s: State)
    requires Queued(s) && s.erasing == [] && s.batch == []
    ensures Queued(Begin(s))
  {
    var n := LowerBound(s.timers, Entry(s.clock, PTR_MAX));
    BeginIds(s, n);
    hide Ids, LowerBound, Queued;
    SplitQueue(s, Begin(s), s.timers[..n], s.timers[n..]);
  }

  /** The front of the queue becomes the batch. */
  lemma SplitQueue(s: State, r: State, due: seq<Entry>, later: seq<Entry>)
    requires Queued(s) && s.erasing == [] && s.batch == [] && s.timers == due + later
    requires r.batch == due && r.timers == later && r.active == Ids(s.heap, later)
    requires r.heap == s.heap && r.waiting == s.waiting && r.dying == s.dying && r.erasing == []
    ensures Queued(r)
  {
    SplitApart(s, due, later);
    SplitPlaces(s, r, due, later);
    hide Ids, Placed, Sorted;
    assert (set x | x in r.erasing) == {};
    assert r.active == Ids(r.heap, r.timers) + (set x | x in r.erasing);
  }

  lemma SplitApart(s: State, due: seq<Entry>, later: seq<Entry>)
    requires Queued(s) && s.timers == due + later
    ensures Sorted(later) && forall e :: e in due ==> e !in later
    ensures forall i, k :: 0 <= i < k < |due| ==> due[i].addr != due[k].addr
  {
    TimersApart(s);
    hide Queued;
    assert forall i :: 0 <= i < |due| ==> due[i] == s.timers[i];
    forall i, k | 0 <= i < k < |later| ensures Less(later[i], later[k]) {
      assert later[i] == s.timers[|due| + i] && later[k] == s.timers[|due| + k];
    }
    forall e | e in due ensures e !in later {
      var i :| 0 <= i < |due| && due[i] == e;
      assert forall k :: 0 <= k < |later| ==> s.timers[i] != s.timers[|due| + k] == later[k];
    }
  }

  lemma SplitPlaces(s: State, r: State, due: seq<Entry>, later: seq<Entry>)
    requires Queued(s) && s.batch == [] && s.timers == due + later
    requires r.heap == s.heap && r.waiting == s.waiting && r.dying == s.dying && r.erasing == s.erasing
    ensures (forall e :: e in due ==> Placed(r, e)) && (forall e :: e in later ==> Placed(r, e))
    ensures Erased(r) && forall a :: a in r.heap && a !in r.waiting && a !in Dead(r) ==>
      Entry(r.heap[a].expiration, a) in later || Entry(r.heap[a].expiration, a) in due
  {
    hide Sorted, Ids;
    assert Dead(s) == Dead(r);
    forall e | e in due || e in later ensures Placed(s, e) && Placed(r, e) { assert e in s.timers; }
  }

  lemma BeginFrame(s: State)
    ensures
      var r := Begin(s);
      && r.past == s.past.(round := s.past.round + 1) && r.calling && r.next == 0 && r.batchTime == r.clock == s.clock
      && r == s.(alarm := r.alarm, batch := r.batch, timers := r.timers, active := r.active, calling := true,
                 canceling := {}, next := 0, batchTime := s.clock, past := r.past)
  {
  }

  lemma TimersApart(s: State)
    requires Queued(s)
    ensures Sorted(s.timers) && forall i, k :: 0 <= i < k < |s.timers| ==>
      s.timers[i].addr != s.timers[k].addr && s.timers[i] != s.timers[k]
  {
    forall i, k | 0 <= i < k < |s.timers| ensures s.timers[i].addr != s.timers[k].addr && s.timers[i] != s.timers[k] {
      assert Less(s.timers[i], s.timers[k]) && Placed(s, s.timers[i]) && Placed(s, s.timers[k]);
    }
  }

  lemma BeginCancel(s: State)
    requires CancelHolds(s) && s.batch == []
    ensures CancelHolds(Begin(s))
  {
    hide Ids, LowerBound;
  }

  lemma BeginIds(s: State, n: nat)
    requires Queued(s) && s.erasing == [] && n <= |s.timers|
    ensures s.active - Ids(s.heap, s.timers[..n]) == Ids(s.heap, s.timers[n..])
    ensures (set x | x in s.erasing) == {}
  {
    assert s.timers == s.timers[..n] + s.timers[n..];
    forall i, k | 0 <= i < n <= k < |s.timers| ensures s.timers[i].addr != s.timers[k].addr {
      assert Placed(s, s.timers[i]) && Placed(s, s.timers[k]) && Less(s.timers[i], s.timers[k]);
    }
    forall e, f | e in s.timers[..n] && f in s.timers[n..] ensures e.addr != f.addr {
      var i :| 0 <= i < n && s.timers[i] == e;
      var k :| n <= k < |s.timers| && s.timers[k] == f;
    }
  }

  lemma RunKeeps(s: State)
    requires Inv(s) && s.calling && s.next < |s.batch|
    ensures s.batch[s.next].addr in s.heap && Inv(Run(s))
  {
    assert s.batch[s.next] in s.batch && Placed(s, s.batch[s.next]);
    assert Dead(Run(s)) == Dead(s) && s.heap[s.batch[s.next].addr].sequence in s.past.ids;
    forall e | e in s.timers || e in s.batch ensures Placed(Run(s), e) { assert Placed(s, e); }
  }

  /** The first timer of the batch, taken out of it. */
  lemma TurnDetached(s: State)
    requires Core(s) && s.batch != []
    ensures s.batch[0].addr in s.heap && Loose(s.(batch := s.batch[1..]), s.batch[0].addr)
  {
    var e := s.batch[0];
    assert e in s.batch && Placed(s, e);
    var a := s.(batch := s.batch[1..]);
    forall f | f in a.timers || f in a.batch ensures Placed(s, f) && Placed(a, f) && f.addr != e.addr {}
    assert Ids(a.heap, a.timers) == Ids(s.heap, s.timers) && Dead(a) == Dead(s);
  }

  lemma RestartDetached(s: State, addr: nat, when: int)
    requires Loose(s, addr) && when > 0
    ensures Loose(s.(heap := s.heap[addr := s.heap[addr].(expiration := when)]), addr)
  {
    var r := s.(heap := s.heap[addr := s.heap[addr].(expiration := when)]);
    RestartPlaces(s, r, addr);
    hide Detached, Placed, Queued;
    assert Dead(r) == Dead(s);
  }

  lemma RestartPlaces(s: State, r: State, addr: nat)
    requires Detached(s, addr) && r.heap.Keys == s.heap.Keys && r == s.(heap := r.heap)
    requires r.heap == s.heap[addr := r.heap[addr]] && r.heap[addr].sequence == s.heap[addr].sequence
    ensures Detached(r, addr)
  {
    assert Ids(r.heap, r.timers) == Ids(s.heap, s.timers) && Dead(r) == Dead(s);
    forall f | f in s.timers || f in s.batch ensures Placed(s, f) && Placed(r, f) {}
  }

  lemma NotCancelled(s: State)
    requires Core(s) && s.batch != []
    ensures s.batch[0].addr in s.heap && s.heap[s.batch[0].addr].interval >= 0
    ensures s.heap[s.batch[0].addr].repeats && (s.batch[0].addr, s.heap[s.batch[0].addr].sequence) !in s.canceling ==>
      s.heap[s.batch[0].addr].sequence !in s.past.cancelled
  {
    assert s.batch[0] in s.batch && Placed(s, s.batch[0]);
  }

  lemma TurnCore(s: State)
    requires Core(s) && s.batch != [] && s.batchTime > 0 && s.dying.None?
    ensures s.batch[0].addr in s.heap && Core(ResetTurn(s))
  {
    hide Core, Loose;
    var addr := s.batch[0].addr;
    TurnDetached(s);
    NotCancelled(s);
    var t, a := s.heap[addr], s.(batch := s.batch[1..]);
    if t.repeats && (addr, t.sequence) !in s.canceling {
      RestartDetached(a, addr, s.batchTime + t.interval);
      InsertCore(a.(heap := s.heap[addr := t.(expiration := s.batchTime + t.interval)]), addr);
    } else {
      CondemnCore(a, addr);
    }
  }

  lemma ResetOneKeeps(s: State)
    requires Core(s) && s.batch != [] && s.batchTime > 0 && s.dying.None?
    ensures s.batch[0].addr in s.heap && Core(ResetOne(s)) && ResetFrame(s, ResetOne(s), s.batch[1..])
    ensures ResetOne(s).past.events == s.past.events + [Outcome(s, s.batch[0])]
  {
    hide Core;
    TurnCore(s);
    FreedCore(ResetTurn(s));
  }

  /** What reset changes: the timers, the queue and the story. */
  ghost predicate ResetFrame(s: State, r: State, batch: seq<Entry>) {
    && r.dying.None? && s.past.events <= r.past.events
    && r == s.(batch := batch, heap := r.heap, timers := r.timers, active := r.active, dying := None,
               past := s.past.(events := r.past.events))
  }

  lemma BatchInHeap(s: State)
    requires Core(s)
    ensures forall i :: 0 <= i < |s.batch| ==> s.batch[i].addr in s.heap
    ensures forall i, k :: 0 <= i < k < |s.batch| ==> s.batch[i].addr != s.batch[k].addr
  {
    forall i | 0 <= i < |s.batch| ensures s.batch[i].addr in s.heap {
      assert s.batch[i] in s.batch && Placed(s, s.batch[i]);
    }
  }

  lemma {:induction false} ResetAllKeeps(s: State)
    requires Core(s) && s.batchTime > 0 && s.dying.None?
    ensures forall i :: 0 <= i < |s.batch| ==> s.batch[i].addr in s.heap
    ensures forall i, k :: 0 <= i < k < |s.batch| ==> s.batch[i].addr != s.batch[k].addr
    ensures Core(ResetAll(s)) && ResetFrame(s, ResetAll(s), [])
    decreases |s.batch|
  {
    hide Core, ResetOne;
    BatchInHeap(s);
    if s.batch != [] {
      ResetOneKeeps(s);
      ResetAllKeeps(ResetOne(s));
    }
  }

  lemma TurnKeeps(s: State)
    requires Inv(s) && s.resetting && s.dying.None? && s.batch != []
    ensures s.batch[0].addr in s.heap && Inv(ResetTurn(s))
  {
    hide Core;
    TurnCore(s);
  }

  lemma FreedKeeps(s: State)
    requires Inv(s) && s.dying.Some? && s.erasing == []
    ensures Inv(Freed(s))
  {
    hide Core;
    FreedCore(s);
  }

  lemma StartResetKeeps(s: State)
    requires Inv(s) && s.calling && s.erasing == []
    ensures Inv(StartReset(s))
  {
    hide Core;
    ElsewhereCore(s, StartReset(s));
  }

  lemma EndResetKeeps(s: State)
    requires Inv(s) && s.resetting && s.dying.None? && s.batch == []
    ensures s.timers != [] ==> s.timers[0].addr in s.heap
    ensures Inv(EndReset(s)) && (EndReset(s).timers == [] || EndReset(s).alarm.Armed?)
  {
    hide Core;
    FirstExpires(s);
    ElsewhereCore(s, EndReset(s));
  }

  /** handleRead after its last callback, with destructors that do nothing. */
  function End(s: State): State
    requires Core(s) && s.batchTime > 0 && s.dying.None?
  {
    ElsewhereCore(s, StartReset(s));
    ResetAllKeeps(StartReset(s));
    var r := ResetAll(StartReset(s));
    FirstExpires(r);
    EndReset(r)
  }

  lemma FirstExpires(s: State)
    requires Core(s)
    ensures s.timers != [] ==> s.timers[0].addr in s.heap && s.heap[s.timers[0].addr].expiration == s.timers[0].when > 0
  {
    assert s.timers != [] ==> s.timers[0] in s.timers;
  }

  /** With destructors that do nothing: a repeating timer of the batch that is not cancelled is due an
      interval after the round began, any other is deleted. */
  lemma {:induction false} QuietOutcome(s: State, e: Entry)
    requires Core(s) && s.batchTime > 0 && s.dying.None? && e in s.batch
    ensures e.addr in s.heap && forall i :: 0 <= i < |s.batch| ==> s.batch[i].addr in s.heap
    ensures forall i, k :: 0 <= i < k < |s.batch| ==> s.batch[i].addr != s.batch[k].addr
    ensures
      var t, r := s.heap[e.addr], ResetAll(s);
      && Outcome(s, e) in r.past.events
      && if Outcome(s, e).Inserted?
         then e.addr in r.heap && r.heap[e.addr] == t.(expiration := s.batchTime + t.interval)
         else e.addr !in r.heap
    decreases |s.batch|
  {
    hide Core, ResetOne;
    BatchInHeap(s);
    ResetOneKeeps(s);
    ResetAllKeeps(ResetOne(s));
    if e == s.batch[0] {
      FirstReset(s);
      ResetOthers(ResetOne(s), e.addr);
      assert Outcome(s, e) in ResetOne(s).past.events;
    } else {
      OtherReset(s, e.addr);
      QuietOutcome(ResetOne(s), e);
    }
  }

  lemma FirstReset(s: State)
    requires Core(s) && s.batch != [] && s.dying.None?
    ensures s.batch[0].addr in s.heap && forall e :: e in s.batch[1..] ==> e.addr != s.batch[0].addr
    ensures
      var addr, t := s.batch[0].addr, s.heap[s.batch[0].addr];
      if Outcome(s, s.batch[0]).Inserted?
      then addr in ResetOne(s).heap && ResetOne(s).heap[addr] == t.(expiration := s.batchTime + t.interval)
      else addr !in ResetOne(s).heap
  {
    TurnDetached(s);
    HeadGone(s);
    hide Core, InsertSorted;
  }

  lemma OtherReset(s: State, addr: nat)
    requires Core(s) && s.batch != [] && s.dying.None? && s.batch[0].addr != addr
    ensures s.batch[0].addr in s.heap && (addr in ResetOne(s).heap <==> addr in s.heap)
    ensures addr in s.heap ==> ResetOne(s).heap[addr] == s.heap[addr]
  {
    TurnDetached(s);
    hide Core, InsertSorted;
  }

  /** No timer outside the batch is touched. */
  lemma {:induction false} ResetOthers(s: State, addr: nat)
    requires Core(s) && s.batchTime > 0 && s.dying.None? && forall e :: e in s.batch ==> e.addr != addr
    ensures forall i :: 0 <= i < |s.batch| ==> s.batch[i].addr in s.heap
    ensures forall i, k :: 0 <= i < k < |s.batch| ==> s.batch[i].addr != s.batch[k].addr
    ensures addr in ResetAll(s).heap <==> addr in s.heap
    ensures addr in s.heap ==> ResetAll(s).heap[addr] == s.heap[addr]
    decreases |s.batch|
  {
    hide Core, ResetOne;
    BatchInHeap(s);
    if s.batch != [] {
      ResetOneKeeps(s);
      OtherReset(s, addr);
      ResetOthers(ResetOne(s), addr);
    }
  }

  /** getExpired takes out exactly the timers due, in order, and leaves exactly the others. */
  lemma ExpiredExactly(s: State)
    requires Inv(s) && !s.calling
    ensures Begin(s).batch + Begin(s).timers == s.timers && Sorted(Begin(s).batch)
    ensures forall e :: e in Begin(s).batch <==> e in s.timers && e.when <= s.clock
    ensures forall e :: e in Begin(s).timers <==> e in s.timers && e.when > s.clock
  {
    hide Core, AlarmSet, LowerBound;
    TimersKnown(s);
    DueSplit(s.timers, s.clock);
  }

  lemma TimersKnown(s: State)
    requires Core(s)
    ensures Sorted(s.timers) && forall e :: e in s.timers ==> e.addr < PTR_MAX
  {
  }

  lemma DueSplit(ts: seq<Entry>, now: int)
    requires Sorted(ts) && forall e :: e in ts ==> e.addr < PTR_MAX
    ensures
      var n := LowerBound(ts, Entry(now, PTR_MAX));
      && (forall e :: e in ts[..n] <==> e in ts && e.when <= now)
      && (forall e :: e in ts[n..] <==> e in ts && e.when > now)
  {
    LowerBoundIs(ts, now);
    var n := LowerBound(ts, Entry(now, PTR_MAX));
    hide LowerBound, Sorted;
    assert ts == ts[..n] + ts[n..];
    assert forall e :: e in ts[..n] ==> e.when <= now;
    assert forall e :: e in ts[n..] ==> e.when > now;
  }

  // ---------- runs ----------

  datatype Action =
    | NewTimer(addr: nat, when: int, interval: int, repeats: bool)
    | AddTimer(addr: nat)
    | CancelTimer(addr: nat, q: nat)   // up to the destructor, if it finds the timer
    | EndCancel                        // and after it
    | BeginRead | RunNext
    | BeginReset | ResetNext           // one timer of the batch, up to the destructor if it is deleted
    | EndDelete                        // and after it
    | LeaveReset
    | Pass(d: nat)
    | Expire

  /** New and Pass may come from anywhere; adds and cancels from the loop, from a callback or from the
      destructor of one; a TimerId names the address its timer was made at. */
  ghost predicate Enabled(s: State, a: Action)
    requires Inv(s)
  {
    !s.past.twice &&
    match a
    case NewTimer(addr, when, interval, _) => addr !in s.heap && addr < PTR_MAX && when > 0 && interval >= 0
    case AddTimer(addr) => addr in s.waiting && InUser(s)
    case CancelTimer(addr, q) => (q in s.past.ids ==> s.past.ids[q] == addr) && InUser(s)
    case EndCancel => s.erasing != []
    case BeginRead => !s.calling && !s.resetting && s.erasing == []
    case RunNext => s.calling && s.next < |s.batch| && s.erasing == []
    case BeginReset => s.calling && s.next == |s.batch| && s.erasing == []
    case ResetNext => s.resetting && s.dying.None? && s.batch != []
    case EndDelete => s.dying.Some? && s.erasing == []
    case LeaveReset => s.resetting && s.dying.None? && s.batch == []
    case Pass(_) => true
    case Expire => s.alarm.Armed? && s.alarm.deadline <= s.clock
  }

  ghost function Next(s: State, a: Action): (r: State)
    requires Inv(s) && Enabled(s, a)
  {
    match a
    case NewTimer(addr, when, interval, repeats) => New(s, addr, when, interval, repeats)
    case AddTimer(addr) => AddKeeps(s, addr); Add(s, addr)
    case CancelTimer(addr, q) => CancelKeeps(s, addr, q); Cancel(s, addr, q)
    case EndCancel => FinishCancel(s)
    case BeginRead => Begin(s)
    case RunNext => RunKeeps(s); Run(s)
    case BeginReset => StartReset(s)
    case ResetNext => TurnKeeps(s); ResetTurn(s)
    case EndDelete => Freed(s)
    case LeaveReset => EndResetKeeps(s); EndReset(s)
    case Pass(d) => Tick(s, d)
    case Expire => Fire(s)
  }

  lemma TickFireKeep(s: State, d: nat)
    requires Inv(s)
    ensures Inv(Tick(s, d)) && (s.alarm.Armed? ==> Inv(Fire(s)))
  {
    hide Core;
    ElsewhereCore(s, Tick(s, d));
    ElsewhereCore(s, Fire(s));
  }

  /** Every step of every interleaving keeps the invariant. */
  lemma NextKeeps(s: State, a: Action)
    requires Inv(s) && Enabled(s, a)
    ensures Inv(Next(s, a))
  {
    hide Inv, InUser;
    match a
    case NewTimer(addr, when, interval, repeats) => NewKeeps(s, addr, when, interval, repeats);
    case AddTimer(addr) => AddKeeps(s, addr);
    case CancelTimer(addr, q) => CancelKeeps(s, addr, q);
    case EndCancel => FinishCancelKeeps(s);
    case BeginRead => BeginKeeps(s);
    case RunNext => RunKeeps(s);
    case BeginReset => StartResetKeeps(s);
    case ResetNext => TurnKeeps(s);
    case EndDelete => FreedKeeps(s);
    case LeaveReset => EndResetKeeps(s);
    case Pass(d) => TickFireKeep(s, d);
    case Expire => TickFireKeep(s, 0);
  }

  function Init(clock: int): State {
    State(map[], 0, {}, [], {}, {}, false, false, [], 0, 0, None, [], Unarmed, clock,
          History(map[], {}, map[], [], 0, false, false))
  }

  lemma InitInv(clock: int)
    requires clock > 0
    ensures Inv(Init(clock))
  {
    assert Dead(Init(clock)) == {};
  }

  ghost predicate Legal(s: State, acts: seq<Action>)
    requires Inv(s)
    decreases |acts|
  {
    acts == [] || (Enabled(s, acts[0]) && (NextKeeps(s, acts[0]); Legal(Next(s, acts[0]), acts[1..])))
  }

  ghost function Exec(s: State, acts: seq<Action>): State
    requires Inv(s) && Legal(s, acts)
    decreases |acts|
  {
    if acts == [] then s else NextKeeps(s, acts[0]); Exec(Next(s, acts[0]), acts[1..])
  }

  /** What a step may do to the story: events are added at the end, runs belong to the current
      round, and a cancelled timer stays noted in the round of its first cancel. */
  ghost predicate StoryGrows(s: State, r: State) {
    && s.past.events <= r.past.events && s.past.round <= r.past.round
    && (forall q :: q in s.past.cancelled ==> q in r.past.cancelled && r.past.cancelled[q] == s.past.cancelled[q])
    && (forall i :: |s.past.events| <= i < |r.past.events| && r.past.events[i].Ran? ==>
          r.past.events[i].round >= s.past.round && (!s.calling ==> r.past.events[i].round > s.past.round))
    && (!s.calling && r.calling ==> r.past.round > s.past.round)
  }

  lemma AddPast(s: State, addr: nat)
    requires addr in s.heap
    ensures
      var (r, t) := (Add(s, addr), s.heap[addr]);
      && r.calling == s.calling && r.resetting == s.resetting && r.heap == s.heap
      && r.batch == s.batch && r.next == s.next && r.canceling == s.canceling && r.batchTime == s.batchTime
      && r.past == s.past.(added := s.past.added + {t.sequence}, asserted := s.past.asserted || s.erasing != [],
                           events := s.past.events + [Inserted(t.sequence, t.expiration)])
  {
  }

  lemma CancelPast(s: State, addr: nat, q: nat)
    requires (addr, q) in s.active ==> addr in s.heap
    ensures
      var r := Cancel(s, addr, q);
      && r.calling == s.calling && r.resetting == s.resetting && r.heap == s.heap
      && r.batch == s.batch && r.next == s.next && (!s.calling ==> r.canceling == s.canceling)
      && r.batchTime == s.batchTime
      && r.past == s.past.(cancelled := r.past.cancelled, events := r.past.events,
                           asserted := s.past.asserted || s.erasing != [],
                           twice := s.past.twice || (addr, q) in s.erasing)
      && (r.past.cancelled == s.past.cancelled
          || (q !in s.past.cancelled && r.past.cancelled == s.past.cancelled[q := s.past.round]))
      && (r.past.events == s.past.events || exists e: Event :: !e.Ran? && r.past.events == s.past.events + [e])
      && ((addr, q) in s.erasing ==> r.past.events == s.past.events + [Deleted(q)])
  {
    hide Lost, Erase, NoteCancel, Asserts;
    NotePast(s, addr, q);
    var a, r := Asserts(NoteCancel(s, addr, q)), Cancel(s, addr, q).past.events;
    if (addr, q) in s.erasing {
      assert !Deleted(q).Ran? && r == s.past.events + [Deleted(q)];
    } else if (addr, q) in s.active {
      var e := Deleted(a.heap[addr].sequence);
      assert !e.Ran? && r == s.past.events + [e];
    }
  }

  lemma NotePast(s: State, addr: nat, q: nat)
    ensures
      var a := Asserts(NoteCancel(s, addr, q));
      && a == s.(past := s.past.(cancelled := a.past.cancelled, asserted := s.past.asserted || s.erasing != []))
      && (a.past.cancelled == s.past.cancelled
          || (q !in s.past.cancelled && a.past.cancelled == s.past.cancelled[q := s.past.round]))
  {
    hide Lost;
  }

  lemma TurnPast(s: State)
    requires s.batch != [] && s.batch[0].addr in s.heap
    ensures
      var r := ResetTurn(s);
      && r.calling == s.calling && r.resetting == s.resetting && r.batch == s.batch[1..] && r.next == s.next
      && r.canceling == s.canceling && r.batchTime == s.batchTime && r.erasing == s.erasing
      && r.past == s.past.(events := s.past.events + [Outcome(s, s.batch[0])])
      && r.heap.Keys == s.heap.Keys && forall a :: a in s.heap && a != s.batch[0].addr ==> r.heap[a] == s.heap[a]
  {
    hide InsertSorted;
  }

  lemma NextGrows(s: State, a: Action)
    requires Inv(s) && Enabled(s, a)
    ensures StoryGrows(s, Next(s, a))
  {
    hide Core, AlarmSet, Stages, InUser, Add, Cancel, ResetTurn;
    match a
    case AddTimer(addr) => AddKeeps(s, addr); AddPast(s, addr);
    case CancelTimer(addr, q) => CancelKeeps(s, addr, q); CancelPast(s, addr, q);
    case BeginRead =>
    case RunNext => RunKeeps(s);
    case ResetNext => TurnKeeps(s); TurnPast(s);
    case LeaveReset => EndResetKeeps(s);
    case _ =>
  }

  lemma GrowsTransitive(s: State, r: State, t: State)
    requires StoryGrows(s, r) && StoryGrows(r, t)
    ensures StoryGrows(s, t)
  {
    forall i | |s.past.events| <= i < |t.past.events| && t.past.events[i].Ran?
      ensures t.past.events[i].round >= s.past.round && (!s.calling ==> t.past.events[i].round > s.past.round)
    {
      if i < |r.past.events| { assert t.past.events[i] == r.past.events[i]; }
    }
  }

  lemma {:induction false} ExecKeeps(s: State, acts: seq<Action>)
    requires Inv(s) && Legal(s, acts)
    ensures Inv(Exec(s, acts)) && StoryGrows(s, Exec(s, acts))
    decreases |acts|
  {
    hide Inv, Enabled, Next;
    if acts != [] {
      NextKeeps(s, acts[0]);
      NextGrows(s, acts[0]);
      ExecKeeps(Next(s, acts[0]), acts[1..]);
      GrowsTransitive(s, Next(s, acts[0]), Exec(s, acts));
    }
  }

  /** Some step of the run meets the condition. */
  ghost predicate Meets(s: State, acts: seq<Action>, p: (State, Action) -> bool)
    requires Inv(s) && Legal(s, acts)
    decreases |acts|
  {
    acts != [] && (p(s, acts[0]) || (NextKeeps(s, acts[0]); Meets(Next(s, acts[0]), acts[1..], p)))
  }

  // ---------- cancelling ----------

  lemma CancelNotes(s: State, addr: nat, q: nat)
    requires Inv(s) && Enabled(s, CancelTimer(addr, q)) && q in s.past.added && !Lost(s, addr, q)
    ensures
      var t := Next(s, CancelTimer(addr, q));
      q in t.past.cancelled && t.past.cancelled[q] <= s.past.round && t.past.round == s.past.round
      && t.calling == s.calling
  {
    CancelKeeps(s, addr, q);
    CancelledBefore(s, q);
    hide Core, Lost, InUser;
  }

  lemma CancelledBefore(s: State, q: nat)
    requires Inv(s)
    ensures q in s.past.cancelled ==> s.past.cancelled[q] <= s.past.round
  {
  }

  /** Once the loop has cancelled a timer handed to it, unless the cancel is lost, whatever happens next: the
      timer runs in no later handleRead, so at most in the rest of the batch being run, and not at all if
      none is. */
  lemma CancelledRunsNoLater(s: State, addr: nat, q: nat, acts: seq<Action>)
    requires Inv(s) && Enabled(s, CancelTimer(addr, q)) && q in s.past.added && !Lost(s, addr, q)
    requires Inv(Next(s, CancelTimer(addr, q))) && Legal(Next(s, CancelTimer(addr, q)), acts)
    ensures
      var t := Next(s, CancelTimer(addr, q));
      var r := Exec(t, acts);
      forall i :: |t.past.events| <= i < |r.past.events| && r.past.events[i].Ran? && r.past.events[i].seqNo == q ==>
        s.calling && r.past.events[i].round == s.past.round
  {
    CancelNotes(s, addr, q);
    var t := Next(s, CancelTimer(addr, q));
    ExecKeeps(t, acts);
    var r := Exec(t, acts);
    CancelBounds(r);
    hide Inv, Next, Enabled, Lost;
  }

  lemma CancelBounds(s: State)
    requires Inv(s)
    ensures CancelHolds(s)
  {
  }

  /** Some run from here calls the timer in a round after the given one. */
  ghost predicate RunsLater(s: State, q: nat, round: nat)
    requires Inv(s)
  {
    exists acts :: Legal(s, acts) && RunIn(Exec(s, acts).past.events, |s.past.events|, q, round)
  }

  ghost predicate RunIn(events: seq<Event>, from: nat, q: nat, round: nat) {
    exists i :: from <= i < |events| && events[i].Ran? && events[i].seqNo == q && events[i].round > round
  }

  lemma RunsLaterBy(s: State, a: Action, q: nat, round: nat)
    requires Inv(s) && Enabled(s, a) && Inv(Next(s, a)) && RunsLater(Next(s, a), q, round)
    ensures RunsLater(s, q, round)
  {
    hide Inv, Next, Enabled;
    var t := Next(s, a);
    var acts :| Legal(t, acts) && RunIn(Exec(t, acts).past.events, |t.past.events|, q, round);
    NextGrows(s, a);
    assert ([a] + acts)[1..] == acts;
    assert Legal(s, [a] + acts) && Exec(s, [a] + acts) == Exec(t, acts);
  }

  /** A timer of the batch is called, since all before it are. */
  lemma {:induction false} CalledInTurn(s: State, k: nat, q: nat, round: nat)
    requires Inv(s) && !s.past.twice && s.calling && s.erasing == [] && s.next <= k < |s.batch|
    requires s.batch[k].addr in s.heap && s.heap[s.batch[k].addr].sequence == q && s.past.round > round
    ensures RunsLater(s, q, round)
    decreases k - s.next
  {
    hide Inv, Queued, Known, Story, CancelHolds;
    assert Enabled(s, RunNext);
    RunKeeps(s);
    var t := Next(s, RunNext);
    if k == s.next {
      assert Legal(t, []) && Exec(t, []) == t;
      assert Legal(s, [RunNext]) by { assert [RunNext][1..] == []; }
      assert t.past.events[|s.past.events|] == Ran(q, s.past.round);
      assert RunIn(Exec(s, [RunNext]).past.events, |s.past.events|, q, round);
    } else {
      CalledInTurn(t, k, q, round);
      RunsLaterBy(s, RunNext, q, round);
    }
  }

  /** A queued timer is called, once its time has come. */
  lemma QueuedRunsLater(s: State, e: Entry, q: nat, round: nat)
    requires Inv(s) && !s.past.twice && !s.calling && !s.resetting && s.erasing == []
    requires e in s.timers && e.addr in s.heap && s.heap[e.addr].sequence == q && s.past.round >= round
    ensures RunsLater(s, q, round)
  {
    hide Inv, RunsLater;
    var d := if e.when > s.clock then e.when - s.clock else 0;
    TickFireKeep(s, d);
    DueRunsLater(Tick(s, d), e, q, round);
    RunsLaterBy(s, Pass(d), q, round);
  }

  lemma DueRunsLater(s: State, e: Entry, q: nat, round: nat)
    requires Inv(s) && !s.past.twice && !s.calling && !s.resetting && s.erasing == [] && e.when <= s.clock
    requires e in s.timers && e.addr in s.heap && s.heap[e.addr].sequence == q && s.past.round >= round
    ensures RunsLater(s, q, round)
  {
    hide Inv, RunsLater, Begin;
    BeginKeeps(s);
    BeginFrame(s);
    ExpiredExactly(s);
    var t := Begin(s);
    var k :| 0 <= k < |t.batch| && t.batch[k] == e;
    CalledInTurn(t, k, q, round);
    RunsLaterBy(s, BeginRead, q, round);
  }

  /** reset has put the timer back or will. */
  ghost predicate ComesBack(s: State, addr: nat, q: nat) {
    && addr in s.heap && s.heap[addr].sequence == q && addr !in s.waiting && addr !in Dead(s)
    && (Entry(s.heap[addr].expiration, addr) in s.batch ==>
          s.heap[addr].repeats && (addr, q) !in s.canceling)
  }

  lemma ComesBackKept(s: State, a: Action, addr: nat, q: nat)
    requires Inv(s) && Enabled(s, a) && ComesBack(s, addr, q) && (a.EndCancel? || a.ResetNext? || a.EndDelete?)
    ensures ComesBack(Next(s, a), addr, q) && Next(s, a).past.round == s.past.round && !Next(s, a).past.twice
  {
    if a.EndCancel? {
      var x := s.erasing[|s.erasing| - 1];
      assert x in s.erasing && x.0 in Dead(s);
    } else if a.ResetNext? {
      var e := s.batch[0];
      assert e in s.batch && Placed(s, e);
      if e.addr != addr {
        assert forall f :: f in s.batch[1..] ==> f in s.batch;
      } else {
        HeadGone(s);
      }
    }
  }

  lemma HeadGone(s: State)
    requires Queued(s) && s.batch != []
    ensures forall f :: f in s.batch[1..] ==> f.addr != s.batch[0].addr
  {
    forall f | f in s.batch[1..] ensures f.addr != s.batch[0].addr {
      var i :| 0 <= i < |s.batch| - 1 && s.batch[1..][i] == f;
      assert s.batch[i + 1] == f;
    }
  }

  lemma BackInQueue(s: State, addr: nat, q: nat)
    requires Inv(s) && ComesBack(s, addr, q) && s.batch == []
    ensures Entry(s.heap[addr].expiration, addr) in s.timers
  {
  }

  lemma {:induction false} ComesBackRuns(s: State, addr: nat, q: nat, round: nat)
    requires Inv(s) && !s.past.twice && s.resetting && ComesBack(s, addr, q) && s.past.round >= round
    ensures RunsLater(s, q, round)
    decreases |s.batch|, if s.dying.Some? then 1 else 0, |s.erasing|
  {
    hide Core, AlarmSet, ComesBack;
    var a := if s.erasing != [] then EndCancel
             else if s.dying.Some? then EndDelete
             else if s.batch != [] then ResetNext
             else LeaveReset;
    assert Enabled(s, a);
    NextKeeps(s, a);
    if a.LeaveReset? {
      EndResetKeeps(s);
      BackInQueue(s, addr, q);
      BackFacts(s, addr, q);
      QueuedRunsLater(Next(s, a), Entry(s.heap[addr].expiration, addr), q, round);
    } else {
      ComesBackKept(s, a, addr, q);
      ComesBackRuns(Next(s, a), addr, q, round);
    }
    RunsLaterBy(s, a, q, round);
  }

  lemma BackFacts(s: State, addr: nat, q: nat)
    requires ComesBack(s, addr, q)
    ensures addr in s.heap && s.heap[addr].sequence == q
  {
  }

  lemma LostComesBack(s: State, addr: nat, q: nat)
    requires Inv(s) && Enabled(s, CancelTimer(addr, q)) && Lost(s, addr, q)
    ensures
      var t := Next(s, CancelTimer(addr, q));
      ComesBack(t, addr, q) && t == s.(past := s.past.(asserted := t.past.asserted))
  {
    var e := Entry(s.heap[addr].expiration, addr);
    assert Placed(s, e);
    assert forall x :: x in s.erasing ==> x.0 in Dead(s);
    forall f | f in s.timers ensures f.addr != addr { assert Placed(s, f) && f != e; }
  }

  /** A cancel fails, in that some run afterwards calls the timer in a later round, if and only if it is lost:
      it comes from a destructor that reset runs, for a repeating timer that reset has yet to put back. */
  lemma CancelFailsIff(s: State, addr: nat, q: nat)
    requires Inv(s) && Enabled(s, CancelTimer(addr, q)) && q in s.past.added
    ensures Inv(Next(s, CancelTimer(addr, q)))
    ensures RunsLater(Next(s, CancelTimer(addr, q)), q, s.past.round) <==> Lost(s, addr, q)
  {
    NextKeeps(s, CancelTimer(addr, q));
    var t := Next(s, CancelTimer(addr, q));
    hide Inv, Next, Lost, ComesBack;
    if Lost(s, addr, q) {
      LostComesBack(s, addr, q);
      ComesBackRuns(t, addr, q, s.past.round);
    } else {
      forall acts | Legal(t, acts) ensures !RunIn(Exec(t, acts).past.events, |t.past.events|, q, s.past.round) {
        CancelledRunsNoLater(s, addr, q, acts);
      }
    }
  }

  // ---------- deleting ----------

  /** insert or cancelInLoop is called while the two sets differ in size. */
  predicate SizesDiffer(s: State, a: Action) { s.erasing != [] && (a.AddTimer? || a.CancelTimer?) }

  /** A timer is cancelled while cancelInLoop is deleting it. */
  predicate DeletesAgain(s: State, a: Action) { a.CancelTimer? && (a.addr, a.q) in s.erasing }

  lemma NextFlags(s: State, a: Action)
    requires Inv(s) && Enabled(s, a)
    ensures Next(s, a).past.asserted <==> s.past.asserted || SizesDiffer(s, a)
    ensures Next(s, a).past.twice <==> DeletesAgain(s, a)
    ensures DeletesAgain(s, a) ==> !NothingAfterDelete(Next(s, a).past.events)
  {
    if DeletesAgain(s, a) { ErasingDeleted(s, (a.addr, a.q)); }
    hide Core, AlarmSet, Stages, InUser, Add, Cancel, ResetTurn;
    match a
    case AddTimer(addr) => AddKeeps(s, addr); AddPast(s, addr);
    case CancelTimer(addr, q) => CancelKeeps(s, addr, q); CancelPast(s, addr, q);
    case BeginRead =>
    case RunNext => RunKeeps(s);
    case ResetNext => TurnKeeps(s); TurnPast(s);
    case LeaveReset => EndResetKeeps(s);
    case _ =>
  }

  lemma ErasingDeleted(s: State, x: (nat, nat))
    requires Inv(s) && x in s.erasing
    ensures !NothingAfterDelete(s.past.events + [Deleted(x.1)])
  {
    var events := s.past.events + [Deleted(x.1)];
    var i :| 0 <= i < |s.past.events| && s.past.events[i] == Deleted(x.1);
    assert events[i] == Deleted(x.1) && events[|s.past.events|] == Deleted(x.1);
  }

  lemma NothingAfterTwice(s: State, acts: seq<Action>)
    requires Inv(s) && Legal(s, acts) && s.past.twice
    ensures acts == []
  {
  }

  lemma {:induction false} FlagsIff(s: State, acts: seq<Action>)
    requires Inv(s) && Legal(s, acts) && !s.past.twice
    ensures Exec(s, acts).past.asserted <==> s.past.asserted || Meets(s, acts, SizesDiffer)
    ensures Exec(s, acts).past.twice <==> Meets(s, acts, DeletesAgain)
    ensures Exec(s, acts).past.twice ==> !NothingAfterDelete(Exec(s, acts).past.events)
    decreases |acts|
  {
    hide Inv, Next, SizesDiffer, DeletesAgain, NothingAfterDelete;
    if acts != [] {
      NextKeeps(s, acts[0]);
      NextFlags(s, acts[0]);
      var t := Next(s, acts[0]);
      if t.past.twice {
        NothingAfterTwice(t, acts[1..]);
      } else {
        FlagsIff(t, acts[1..]);
      }
    }
  }

  lemma StoryTold(s: State)
    requires Inv(s)
    ensures s.past.twice || NothingAfterDelete(s.past.events)
  {
  }

  /** In a run nothing happens to a timer once its deletion has begun, so that it is not run, not queued again
      and not deleted twice, if and only if no timer is cancelled while cancelInLoop is deleting it. */
  lemma DeletedForGood(s: State, acts: seq<Action>)
    requires Inv(s) && Legal(s, acts) && !s.past.twice
    ensures NothingAfterDelete(Exec(s, acts).past.events) <==> !Meets(s, acts, DeletesAgain)
  {
    ExecKeeps(s, acts);
    FlagsIff(s, acts);
    StoryTold(Exec(s, acts));
  }

  lemma {:induction false} AgainDiffers(s: State, acts: seq<Action>)
    requires Inv(s) && Legal(s, acts) && Meets(s, acts, DeletesAgain)
    ensures Meets(s, acts, SizesDiffer)
    decreases |acts|
  {
    hide Inv, Next, Enabled;
    NextKeeps(s, acts[0]);
    if !DeletesAgain(s, acts[0]) { AgainDiffers(Next(s, acts[0]), acts[1..]); }
  }

  /** In a run the asserts on the sizes hold if and only if nothing is added or cancelled in the destructor of
      a timer that cancelInLoop deletes; and then no timer is deleted twice. */
  lemma AssertsHold(s: State, acts: seq<Action>)
    requires Inv(s) && Legal(s, acts) && !s.past.twice && !s.past.asserted
    ensures !Exec(s, acts).past.asserted <==> !Meets(s, acts, SizesDiffer)
    ensures !Exec(s, acts).past.asserted ==> NothingAfterDelete(Exec(s, acts).past.events)
  {
    FlagsIff(s, acts);
    DeletedForGood(s, acts);
    if Meets(s, acts, DeletesAgain) { AgainDiffers(s, acts); }
  }

  // ---------- runs that show it ----------

  /** One more step in front of a run. */
  lemma InFront(s: State, a: Action, rest: seq<Action>)
    requires Inv(s) && Enabled(s, a) && Inv(Next(s, a)) && Legal(Next(s, a), rest)
    ensures Legal(s, [a] + rest) && Exec(s, [a] + rest) == Exec(Next(s, a), rest)
  {
    hide Inv, Enabled, Next;
    assert ([a] + rest)[1..] == rest;
  }

  const ONCE := NewTimer(1, 5, 0, false)
  const REPEATING := NewTimer(2, 5, 1, true)

  /** One timer, due at 5, in both sets. */
  ghost predicate OneQueued(s: State) {
    && Inv(s) && s.heap == map[1 := Timer(5, 0, false, 1)] && s.created == 1 && s.timers == [Entry(5, 1)]
    && s.active == {(1, 1)} && s.past.ids == map[1 := 1] && s.past.added == {1} && !s.past.twice
    && !s.calling && !s.resetting && s.erasing == [] && s.dying.None? && s.clock == 1
  }

  lemma QueueOne()
    ensures Inv(Init(1)) && Legal(Init(1), [ONCE, AddTimer(1)]) && OneQueued(Exec(Init(1), [ONCE, AddTimer(1)]))
  {
    hide Inv;
    InitInv(1);
    NextKeeps(Init(1), ONCE);
    var s := Next(Init(1), ONCE);
    NextKeeps(s, AddTimer(1));
    InFront(s, AddTimer(1), []);
    InFront(Init(1), ONCE, [AddTimer(1)]);
    assert [ONCE] + [AddTimer(1)] == [ONCE, AddTimer(1)] && [AddTimer(1)] + [] == [AddTimer(1)];
  }

  /** A timer that is cancelled, and cancelled again by the destructor of its own callback, is deleted twice. */
  lemma DeletedTwice()
    ensures
      var acts := [ONCE, AddTimer(1), CancelTimer(1, 1), CancelTimer(1, 1)];
      Inv(Init(1)) && Legal(Init(1), acts) && Exec(Init(1), acts).past.twice
  {
    hide Inv;
    QueueOne();
    var s := Exec(Init(1), [ONCE, AddTimer(1)]);
    NextKeeps(s, CancelTimer(1, 1));
    var t := Next(s, CancelTimer(1, 1));
    assert t.erasing == [(1, 1)] && (1, 1) in t.erasing;
    NextKeeps(t, CancelTimer(1, 1));
    InFront(t, CancelTimer(1, 1), []);
    InFront(s, CancelTimer(1, 1), [CancelTimer(1, 1)]);
    RunsOn(Init(1), [ONCE, AddTimer(1)], [CancelTimer(1, 1), CancelTimer(1, 1)]);
    assert [ONCE, AddTimer(1)] + [CancelTimer(1, 1), CancelTimer(1, 1)] ==
      [ONCE, AddTimer(1), CancelTimer(1, 1), CancelTimer(1, 1)];
    assert [CancelTimer(1, 1)] + [CancelTimer(1, 1)] == [CancelTimer(1, 1), CancelTimer(1, 1)];
    assert [CancelTimer(1, 1)] + [] == [CancelTimer(1, 1)];
  }

  lemma {:induction false} RunsOn(s: State, acts: seq<Action>, more: seq<Action>)
    requires Inv(s) && Legal(s, acts) && Inv(Exec(s, acts)) && Legal(Exec(s, acts), more)
    ensures Legal(s, acts + more) && Exec(s, acts + more) == Exec(Exec(s, acts), more)
    decreases |acts|
  {
    hide Inv, Enabled, Next;
    if acts == [] {
      assert acts + more == more;
    } else {
      NextKeeps(s, acts[0]);
      RunsOn(Next(s, acts[0]), acts[1..], more);
      assert (acts + more)[1..] == acts[1..] + more;
    }
  }

  /** A one-shot timer and a repeating one, both due at 5. */
  ghost predicate TwoQueued(s: State) {
    && Inv(s) && s.heap == map[1 := Timer(5, 0, false, 1), 2 := Timer(5, 1, true, 2)]
    && s.timers == [Entry(5, 1), Entry(5, 2)] && s.past.ids == map[1 := 1, 2 := 2] && s.past.added == {1, 2}
    && !s.past.twice && !s.calling && !s.resetting && s.erasing == [] && s.dying.None?
  }

  lemma QueueTwo()
    ensures
      var acts := [ONCE, AddTimer(1), REPEATING, AddTimer(2)];
      Inv(Init(1)) && Legal(Init(1), acts) && TwoQueued(Exec(Init(1), acts)) && Exec(Init(1), acts).clock == 1
  {
    hide Inv;
    QueueOne();
    var s := Exec(Init(1), [ONCE, AddTimer(1)]);
    NextKeeps(s, REPEATING);
    var t := Next(s, REPEATING);
    NextKeeps(t, AddTimer(2));
    assert InsertSorted([Entry(5, 1)], Entry(5, 2)) == [Entry(5, 1), Entry(5, 2)];
    InFront(t, AddTimer(2), []);
    InFront(s, REPEATING, [AddTimer(2)]);
    RunsOn(Init(1), [ONCE, AddTimer(1)], [REPEATING, AddTimer(2)]);
    assert [ONCE, AddTimer(1)] + [REPEATING, AddTimer(2)] == [ONCE, AddTimer(1), REPEATING, AddTimer(2)];
    assert [REPEATING] + [AddTimer(2)] == [REPEATING, AddTimer(2)] && [AddTimer(2)] + [] == [AddTimer(2)];
  }

  /** Both expire and are called, and reset deletes the one-shot timer: a cancel of the other one by the
      destructor of its callback is lost. */
  lemma CancelLost()
    ensures
      var acts := [ONCE, AddTimer(1), REPEATING, AddTimer(2)]
        + [Pass(9), BeginRead, RunNext, RunNext, BeginReset, ResetNext];
      && Inv(Init(1)) && Legal(Init(1), acts) && Inv(Exec(Init(1), acts))
      && Enabled(Exec(Init(1), acts), CancelTimer(2, 2)) && Lost(Exec(Init(1), acts), 2, 2)
  {
    QueueTwo();
    var first := [ONCE, AddTimer(1), REPEATING, AddTimer(2)];
    BothExpire(Exec(Init(1), first));
    hide Inv;
    RunsOn(Init(1), first, [Pass(9), BeginRead, RunNext, RunNext, BeginReset, ResetNext]);
  }

  lemma BothExpire(s: State)
    requires TwoQueued(s) && s.clock == 1
    ensures
      var acts := [Pass(9), BeginRead, RunNext, RunNext, BeginReset, ResetNext];
      && Legal(s, acts) && Inv(Exec(s, acts)) && Enabled(Exec(s, acts), CancelTimer(2, 2)) && Lost(Exec(s, acts), 2, 2)
  {
    hide Inv;
    NextKeeps(s, Pass(9));
    var s1 := Next(s, Pass(9));
    BothDue(s1);
    InFront(s, Pass(9), [BeginRead, RunNext, RunNext, BeginReset, ResetNext]);
    assert [Pass(9)] + [BeginRead, RunNext, RunNext, BeginReset, ResetNext] ==
      [Pass(9), BeginRead, RunNext, RunNext, BeginReset, ResetNext];
  }

  lemma BothDue(s: State)
    requires TwoQueued(s) && s.clock == 10
    ensures
      var acts := [BeginRead, RunNext, RunNext, BeginReset, ResetNext];
      && Legal(s, acts) && Inv(Exec(s, acts)) && Enabled(Exec(s, acts), CancelTimer(2, 2)) && Lost(Exec(s, acts), 2, 2)
  {
    hide Inv, Lost, LowerBound, Begin;
    NextKeeps(s, BeginRead);
    BothBegun(s);
    BothCalled(Next(s, BeginRead));
    InFront(s, BeginRead, [RunNext, RunNext, BeginReset, ResetNext]);
    assert [BeginRead] + [RunNext, RunNext, BeginReset, ResetNext] ==
      [BeginRead, RunNext, RunNext, BeginReset, ResetNext];
  }

  lemma BothBegun(s: State)
    requires TwoQueued(s) && s.clock == 10 && Inv(Begin(s))
    ensures BothInBatch(Begin(s)) && Begin(s).calling
  {
    hide Inv, LowerBound;
    BoundOfTwo();
  }

  lemma BoundOfTwo()
    ensures LowerBound([Entry(5, 1), Entry(5, 2)], Entry(10, PTR_MAX)) == 2
    ensures [Entry(5, 1), Entry(5, 2)][..2] == [Entry(5, 1), Entry(5, 2)]
  {
    assert [Entry(5, 1), Entry(5, 2)][1..] == [Entry(5, 2)] && [Entry(5, 2)][1..] == [];
    assert LowerBound([Entry(5, 2)], Entry(10, PTR_MAX)) == 1;
  }

  ghost predicate BothInBatch(s: State) {
    && Inv(s) && s.heap == map[1 := Timer(5, 0, false, 1), 2 := Timer(5, 1, true, 2)]
    && s.batch == [Entry(5, 1), Entry(5, 2)] && s.past.ids == map[1 := 1, 2 := 2]
    && !s.past.twice && s.erasing == [] && s.dying.None? && s.canceling == {} && s.next == 0
  }

  lemma BothCalled(s: State)
    requires BothInBatch(s) && s.calling
    ensures
      var acts := [RunNext, RunNext, BeginReset, ResetNext];
      && Legal(s, acts) && Inv(Exec(s, acts)) && Enabled(Exec(s, acts), CancelTimer(2, 2)) && Lost(Exec(s, acts), 2, 2)
  {
    hide Inv;
    NextKeeps(s, RunNext);
    var t := Next(s, RunNext);
    NextKeeps(t, RunNext);
    var u := Next(t, RunNext);
    NextKeeps(u, BeginReset);
    var v := Next(u, BeginReset);
    FirstDeleted(v);
    InFront(u, BeginReset, [ResetNext]);
    InFront(t, RunNext, [BeginReset, ResetNext]);
    InFront(s, RunNext, [RunNext, BeginReset, ResetNext]);
    assert [BeginReset] + [ResetNext] == [BeginReset, ResetNext];
    assert [RunNext] + [BeginReset, ResetNext] == [RunNext, BeginReset, ResetNext];
    assert [RunNext] + [RunNext, BeginReset, ResetNext] == [RunNext, RunNext, BeginReset, ResetNext];
  }

  lemma FirstDeleted(s: State)
    requires BothInBatch(s) && s.resetting && !s.calling
    ensures Legal(s, [ResetNext]) && Inv(Exec(s, [ResetNext]))
    ensures Enabled(Exec(s, [ResetNext]), CancelTimer(2, 2)) && Lost(Exec(s, [ResetNext]), 2, 2)
  {
    hide Inv;
    NextKeeps(s, ResetNext);
    var t := Next(s, ResetNext);
    assert t.batch == [Entry(5, 2)] && Entry(5, 2) in t.batch;
    assert [ResetNext] + [] == [ResetNext];
    InFront(s, ResetNext, []);
  }

  // ---------- reset ----------

  ghost predicate HappensSince(s: State, r: State, e: Event) {
    exists i :: |s.past.events| <= i < |r.past.events| && r.past.events[i] == e
  }

  /** The timer stays in the batch as it is. */
  ghost predicate StaysAsIs(s: State, t: State, e: Entry) {
    && e in t.batch && t.resetting && t.canceling == s.canceling && t.batchTime == s.batchTime
    && e.addr in s.heap && e.addr in t.heap && t.heap[e.addr] == s.heap[e.addr]
  }

  lemma ResetStep(s: State, a: Action, e: Entry)
    requires Inv(s) && s.resetting && e in s.batch && Enabled(s, a)
    ensures e.addr in s.heap
    ensures
      var t := Next(s, a);
      if a == ResetNext && e == s.batch[0] then t.past.events == s.past.events + [Outcome(s, e)]
      else StaysAsIs(s, t, e)
  {
    InBatchPlaced(s, e);
    ResettingOnly(s);
    hide Inv, InUser, Add, Cancel, ResetTurn, Outcome, Dead;
    match a
    case AddTimer(addr) => AddKeeps(s, addr); AddPast(s, addr);
    case CancelTimer(addr, q) => CancelKeeps(s, addr, q); CancelPast(s, addr, q);
    case EndCancel => DeadThere(s);
    case ResetNext => TurnKeeps(s); TurnPast(s); FirstApart(s);
    case EndDelete => DeadThere(s);
    case LeaveReset =>
    case _ =>
  }

  lemma DeadThere(s: State)
    ensures s.erasing != [] ==> s.erasing[|s.erasing| - 1].0 in Dead(s)
    ensures s.dying.Some? ==> s.dying.value in Dead(s)
  {
    if s.erasing != [] { assert s.erasing[|s.erasing| - 1] in s.erasing; }
  }

  lemma ResettingOnly(s: State)
    requires Inv(s) && s.resetting
    ensures !s.calling
  {
  }

  lemma FirstApart(s: State)
    requires Inv(s) && s.batch != []
    ensures forall e :: e in s.batch && e != s.batch[0] ==> e in s.batch[1..] && e.addr != s.batch[0].addr
  {
    HeadGone(s);
    assert s.batch == [s.batch[0]] + s.batch[1..];
  }

  /** In every run, whatever the destructors do: when reset is through with a timer of the batch, it has put it
      back for an interval after the round began if it repeats and was not cancelled in a callback, and has
      deleted it otherwise. */
  lemma {:induction false} ResetOutcome(s: State, acts: seq<Action>, e: Entry)
    requires Inv(s) && s.resetting && e in s.batch && Legal(s, acts)
    ensures e.addr in s.heap
    ensures
      var r := Exec(s, acts);
      (r.resetting && e in r.batch) || HappensSince(s, r, Outcome(s, e))
    decreases |acts|
  {
    hide Inv, Enabled, Next, Outcome;
    if acts == [] {
      InBatchPlaced(s, e);
    } else {
      ResetStep(s, acts[0], e);
      NextKeeps(s, acts[0]);
      NextGrows(s, acts[0]);
      var t := Next(s, acts[0]);
      ExecKeeps(t, acts[1..]);
      if acts[0] == ResetNext && e == s.batch[0] {
        assert Exec(s, acts).past.events[|s.past.events|] == t.past.events[|s.past.events|];
      } else {
        ResetOutcome(t, acts[1..], e);
        SameOutcome(s, t, e);
      }
    }
  }

  lemma SameOutcome(s: State, t: State, e: Entry)
    requires StaysAsIs(s, t, e)
    ensures Outcome(t, e) == Outcome(s, e)
  {
  }

  lemma InBatchPlaced(s: State, e: Entry)
    requires Inv(s) && e in s.batch
    ensures Placed(s, e)
  {
  }

  /** The turns of reset with destructors that do nothing are a run. */
  lemma {:induction false} TurnsAreRun(s: State) returns (acts: seq<Action>)
    requires Inv(s) && s.resetting && s.dying.None? && !s.past.twice
    ensures forall i :: 0 <= i < |s.batch| ==> s.batch[i].addr in s.heap
    ensures forall i, k :: 0 <= i < k < |s.batch| ==> s.batch[i].addr != s.batch[k].addr
    ensures Legal(s, acts) && Exec(s, acts) == ResetAll(s)
    decreases |s.batch|
  {
    hide Core, AlarmSet, ResetTurn;
    BatchInHeap(s);
    if s.batch == [] {
      acts := [];
    } else {
      NextKeeps(s, ResetNext);
      TurnPast(s);
      var t := Next(s, ResetNext);
      if t.dying.Some? {
        NextKeeps(t, EndDelete);
        acts := TurnsAreRun(Freed(t));
        InFront(t, EndDelete, acts);
        acts := [EndDelete] + acts;
      } else {
        acts := TurnsAreRun(t);
      }
      InFront(s, ResetNext, acts);
      acts := [ResetNext] + acts;
    }
  }

  lemma LeaveIsRun(s: State) returns (acts: seq<Action>)
    requires Inv(s) && s.resetting && s.dying.None? && !s.past.twice
    ensures forall i :: 0 <= i < |s.batch| ==> s.batch[i].addr in s.heap
    ensures forall i, k :: 0 <= i < k < |s.batch| ==> s.batch[i].addr != s.batch[k].addr
    ensures ResetAll(s).timers != [] ==> ResetAll(s).timers[0].addr in ResetAll(s).heap
    ensures Legal(s, acts) && Exec(s, acts) == EndReset(ResetAll(s))
  {
    var turns := TurnsAreRun(s);
    ExecKeeps(s, turns);
    InvTime(s);
    hide Inv, ResetAll, Rearm, ResetOne;
    ResetAllKeeps(s);
    var u := ResetAll(s);
    NextKeeps(u, LeaveReset);
    EndResetKeeps(u);
    InFront(u, LeaveReset, []);
    assert [LeaveReset] + [] == [LeaveReset];
    RunsOn(s, turns, [LeaveReset]);
    acts := turns + [LeaveReset];
  }

  /** So is all of handleRead after the last callback. */
  lemma EndIsRun(s: State) returns (acts: seq<Action>)
    requires Inv(s) && s.calling && s.next == |s.batch| && s.erasing == [] && !s.past.twice
    ensures Core(s) && s.dying.None? && s.batchTime > 0 && Legal(s, acts) && Exec(s, acts) == End(s)
  {
    NotResetting(s);
    InvTime(s);
    hide Inv, Core, ResetAll, Rearm;
    NextKeeps(s, BeginReset);
    var t := Next(s, BeginReset);
    var rest := LeaveIsRun(t);
    InFront(s, BeginReset, rest);
    acts := [BeginReset] + rest;
  }

  /** A cancelInLoop whose destructor does nothing. */
  function WholeCancel(s: State, addr: nat, q: nat): State
    requires (addr, q) in s.active ==> addr in s.heap
  {
    var t := Cancel(s, addr, q);
    if (addr, q) in s.active && (addr, q) !in s.erasing && t.erasing != [] then FinishCancel(t) else t
  }

  // ---------- one handleRead ----------

  /** The sequence numbers of the callbacks called, in order. */
  function CallsOf(events: seq<Event>): seq<nat> {
    if events == [] then []
    else CallsOf(events[..|events| - 1]) + (if events[|events| - 1].Ran? then [events[|events| - 1].seqNo] else [])
  }

  ghost predicate BatchAlive(s: State) { forall i :: 0 <= i < |s.batch| ==> s.batch[i].addr in s.heap }

  /** The sequence numbers of the timers of a batch. */
  ghost function Numbers(s: State): seq<nat>
    requires BatchAlive(s)
  {
    seq(|s.batch|, i requires 0 <= i < |s.batch| => s.heap[s.batch[i].addr].sequence)
  }

  lemma BatchThere(s: State)
    requires Inv(s)
    ensures BatchAlive(s)
  {
    forall i | 0 <= i < |s.batch| ensures s.batch[i].addr in s.heap {
      assert s.batch[i] in s.batch && Placed(s, s.batch[i]);
    }
  }

  lemma OneCall(events: seq<Event>, e: Event)
    ensures CallsOf(events + [e]) == CallsOf(events) + (if e.Ran? then [e.seqNo] else [])
  {
    assert (events + [e])[..|events|] == events;
  }

  /** t differs from s neither in the batch and its timers nor in the calls made. */
  ghost predicate SameBatch(s: State, t: State) {
    && t.calling == s.calling && t.batch == s.batch && t.batchTime == s.batchTime
    && forall i :: 0 <= i < |s.batch| ==>
         s.batch[i].addr in s.heap && s.batch[i].addr in t.heap && t.heap[s.batch[i].addr] == s.heap[s.batch[i].addr]
  }

  ghost predicate SameCalls(s: State, t: State) { t.next == s.next && CallsOf(t.past.events) == CallsOf(s.past.events) }

  lemma AddWithin(s: State, addr: nat)
    requires Inv(s) && addr in s.waiting && addr in s.heap
    ensures SameBatch(s, Add(s, addr)) && SameCalls(s, Add(s, addr))
  {
    hide Core, AlarmSet, InsertSorted;
    BatchThere(s);
    OneCall(s.past.events, Inserted(s.heap[addr].sequence, s.heap[addr].expiration));
  }

  lemma CancelWithin(s: State, addr: nat, q: nat)
    requires Inv(s) && ((addr, q) in s.active ==> addr in s.heap)
    ensures SameBatch(s, Cancel(s, addr, q)) && SameCalls(s, Cancel(s, addr, q))
  {
    hide Cancel;
    BatchThere(s);
    CancelPast(s, addr, q);
    var r := Cancel(s, addr, q).past.events;
    if r != s.past.events {
      var e: Event :| !e.Ran? && r == s.past.events + [e];
      OneCall(s.past.events, e);
    }
  }

  lemma FinishWithin(s: State)
    requires Inv(s) && s.erasing != []
    ensures SameBatch(s, FinishCancel(s)) && SameCalls(s, FinishCancel(s))
  {
    var x := s.erasing[|s.erasing| - 1];
    assert x in s.erasing && x.0 in Dead(s);
    forall i | 0 <= i < |s.batch| ensures s.batch[i].addr in s.heap && s.batch[i].addr != x.0 {
      assert s.batch[i] in s.batch && Placed(s, s.batch[i]);
    }
  }

  lemma NewWithin(s: State, a: Action)
    requires Inv(s) && Enabled(s, a) && (a.NewTimer? || a.Pass? || a.Expire?)
    ensures SameBatch(s, Next(s, a)) && SameCalls(s, Next(s, a))
  {
    hide Core, AlarmSet;
    BatchThere(s);
  }

  lemma RunWithin(s: State)
    requires Inv(s) && s.calling && s.next < |s.batch|
    ensures BatchAlive(s) && SameBatch(s, Run(s)) && Run(s).next == s.next + 1
    ensures CallsOf(Run(s).past.events) == CallsOf(s.past.events) + [Numbers(s)[s.next]]
  {
    hide Core, AlarmSet;
    BatchThere(s);
    OneCall(s.past.events, Ran(s.heap[s.batch[s.next].addr].sequence, s.past.round));
  }

  /** A step within handleRead leaves the batch and its timers, and calls at most the next one. */
  lemma WithinRead(s: State, a: Action)
    requires Inv(s) && Enabled(s, a) && s.calling && !a.BeginReset?
    ensures
      var t := Next(s, a);
      && SameBatch(s, t) && BatchAlive(s)
      && (a.RunNext? ==> (t.next == s.next + 1 <= |s.batch|
                          && CallsOf(t.past.events) == CallsOf(s.past.events) + [Numbers(s)[s.next]]))
      && (!a.RunNext? ==> SameCalls(s, t))
  {
    hide Inv, SameBatch, SameCalls, Numbers, CallsOf, Add, Cancel, Run, FinishCancel, InUser;
    BatchThere(s);
    NotResetting(s);
    match a
    case AddTimer(addr) => AddKeeps(s, addr); AddWithin(s, addr);
    case CancelTimer(addr, q) => CancelKeeps(s, addr, q); CancelWithin(s, addr, q);
    case EndCancel => FinishWithin(s);
    case RunNext => RunKeeps(s); RunWithin(s);
    case _ => NewWithin(s, a);
  }

  lemma NotResetting(s: State)
    requires Inv(s)
    ensures s.calling ==> !s.resetting && s.dying.None?
  {
  }

  lemma NumbersKept(s: State, t: State)
    requires SameBatch(s, t)
    ensures BatchAlive(s) && BatchAlive(t) && Numbers(t) == Numbers(s)
  {
  }

  lemma {:induction false} CallsInOrder(s: State, acts: seq<Action>)
    requires Inv(s) && s.calling && Legal(s, acts) && forall a <- acts :: !a.BeginReset?
    ensures
      var r := Exec(s, acts);
      && BatchAlive(s) && r.calling && r.batch == s.batch && r.batchTime == s.batchTime
      && s.next <= r.next <= |s.batch|
      && CallsOf(r.past.events) == CallsOf(s.past.events) + Numbers(s)[s.next..r.next]
    decreases |acts|
  {
    hide Inv, Next, Enabled, CallsOf;
    BatchThere(s);
    NextInBatch(s);
    assert Numbers(s)[s.next..s.next] == [];
    if acts != [] {
      var t := Next(s, acts[0]);
      NextKeeps(s, acts[0]);
      WithinRead(s, acts[0]);
      NumbersKept(s, t);
      CallsInOrder(t, acts[1..]);
      OneMoreCall(s, t, Exec(t, acts[1..]), acts[0].RunNext?);
    }
  }

  lemma OneMoreCall(s: State, t: State, r: State, called: bool)
    requires SameBatch(s, t) && BatchAlive(s) && BatchAlive(t)
    requires Numbers(t) == Numbers(s) && s.next <= t.next <= r.next <= |s.batch|
    requires CallsOf(r.past.events) == CallsOf(t.past.events) + Numbers(s)[t.next..r.next]
    requires if called then t.next == s.next + 1 &&
      CallsOf(t.past.events) == CallsOf(s.past.events) + [Numbers(s)[s.next]]
             else SameCalls(s, t)
    ensures CallsOf(r.past.events) == CallsOf(s.past.events) + Numbers(s)[s.next..r.next]
  {
    hide CallsOf;
    if called {
      assert Numbers(s)[s.next..r.next] == [Numbers(s)[s.next]] + Numbers(s)[t.next..r.next];
    }
  }

  lemma NextInBatch(s: State)
    requires Inv(s)
    ensures s.next <= |s.batch|
  {
  }

  /** Between the beginning of a handleRead and that of its reset, whatever callbacks and destructors add and
      cancel, the expired timers are called, each once, in the order of their expiration, and no other is.
      reset begins when all have been called. */
  lemma EachRunsOnce(s: State, acts: seq<Action>)
    requires Inv(s) && Legal(s, [BeginRead] + acts) && forall a <- acts :: !a.BeginReset?
    ensures
      var (b, r) := (Begin(s), Exec(s, [BeginRead] + acts));
      && BatchAlive(b) && r.batch == b.batch && r.next <= |r.batch| && r.batchTime == s.clock
      && CallsOf(r.past.events) == CallsOf(s.past.events) + Numbers(b)[..r.next]
      && (r.next == |r.batch| ==> CallsOf(r.past.events) == CallsOf(s.past.events) + Numbers(b))
  {
    assert ([BeginRead] + acts)[1..] == acts && ([BeginRead] + acts)[0] == BeginRead;
    assert Enabled(s, BeginRead);
    hide Core, AlarmSet, CallsOf;
    NextKeeps(s, BeginRead);
    CallsInOrder(Begin(s), acts);
    var n := Exec(s, [BeginRead] + acts).next;
    assert Numbers(Begin(s))[0..n] == Numbers(Begin(s))[..n];
    assert n == |Begin(s).batch| ==> Numbers(Begin(s))[..n] == Numbers(Begin(s));
  }

  lemma {:induction false} IdsSize(heap: map<nat, Timer>, ts: seq<Entry>)
    requires forall e :: e in ts ==> e.addr in heap
    requires forall i, k :: 0 <= i < k < |ts| ==> ts[i].addr != ts[k].addr
    ensures |Ids(heap, ts)| == |ts|
  {
    if ts != [] {
      var x := (ts[0].addr, heap[ts[0].addr].sequence);
      IdsSize(heap, ts[1..]);
      HeadApart(ts);
      assert Ids(heap, ts) == {x} + Ids(heap, ts[1..]);
    }
  }

  lemma HeadApart(ts: seq<Entry>)
    requires ts != [] && forall i, k :: 0 <= i < k < |ts| ==> ts[i].addr != ts[k].addr
    ensures forall e :: e in ts <==> e == ts[0] || e in ts[1..]
    ensures forall e :: e in ts[1..] ==> e.addr != ts[0].addr
  {
    forall e | e in ts[1..] ensures e.addr != ts[0].addr {
      var i :| 0 <= i < |ts[1..]| && ts[1..][i] == e;
      assert ts[i + 1] == e;
    }
  }

  /** In every run the second set has all timers of the first and those that cancelInLoop is deleting, so
      that the sizes agree if and only if it is deleting none. And the alarm is set. */
  lemma SizesAgree(s: State, acts: seq<Action>)
    requires Inv(s) && Legal(s, acts)
    ensures
      var r := Exec(s, acts);
      && |r.active| == |r.timers| + |r.erasing| && (|r.timers| == |r.active| <==> r.erasing == [])
      && AlarmSet(r)
  {
    ExecKeeps(s, acts);
    SizesOf(Exec(s, acts));
  }

  lemma SizesOf(s: State)
    requires Inv(s)
    ensures |s.active| == |s.timers| + |s.erasing| && AlarmSet(s)
  {
    forall i, k | 0 <= i < k < |s.timers| ensures s.timers[i].addr != s.timers[k].addr {
      assert s.timers[i] in s.timers && s.timers[k] in s.timers && Less(s.timers[i], s.timers[k]);
      assert Placed(s, s.timers[i]) && Placed(s, s.timers[k]);
    }
    forall e | e in s.timers ensures e.addr in s.heap { assert Placed(s, e); }
    IdsSize(s.heap, s.timers);
    ErasingSize(s.erasing);
    var ids, gone := Ids(s.heap, s.timers), set x | x in s.erasing;
    forall x | x in gone ensures x !in ids {
      assert x.0 in Dead(s);
      forall f | f in s.timers ensures f.addr != x.0 { assert Placed(s, f); }
    }
  }

  lemma {:induction false} ErasingSize(xs: seq<(nat, nat)>)
    requires forall i, k :: 0 <= i < k < |xs| ==> xs[i].0 != xs[k].0
    ensures |set x | x in xs| == |xs|
  {
    if xs != [] {
      ErasingSize(xs[1..]);
      assert forall x :: x in xs[1..] ==> x != xs[0] by {
        forall x | x in xs[1..] ensures x != xs[0] {
          var i :| 0 <= i < |xs| - 1 && xs[1..][i] == x;
          assert xs[i + 1] == x;
        }
      }
      assert (set x | x in xs) == {xs[0]} + (set x | x in xs[1..]);
    }
  }

  // ---------- when the alarm goes off ----------

  /** Every queued timer was put there for the time under which it is queued. */
  ghost predicate Logged(s: State) {
    forall e :: e in s.timers && e.addr in s.heap ==> Inserted(s.heap[e.addr].sequence, e.when) in s.past.events
  }

  /** The alarm was set for the time of one timer that was queued, but at least 100 microseconds ahead. */
  ghost predicate AlarmRight(s: State) {
    s.alarm.Armed? ==>
      s.alarm.deadline >= s.alarm.armedAt + 100
      && exists i :: 0 <= i < |s.past.events| && s.past.events[i].Inserted?
                     && SetFor(s.past.events[i].when, s.alarm.deadline, s.alarm.armedAt)
  }

  predicate SetFor(when: int, deadline: int, armedAt: int) {
    deadline == when || (deadline == armedAt + 100 && when <= armedAt + 100)
  }

  lemma AlarmKept(s: State, r: State)
    requires AlarmRight(s) && s.past.events <= r.past.events && (r.alarm == s.alarm || !r.alarm.Armed?)
    ensures AlarmRight(r)
  {
    if r.alarm.Armed? {
      var i :| 0 <= i < |s.past.events| && s.past.events[i].Inserted?
               && SetFor(s.past.events[i].when, s.alarm.deadline, s.alarm.armedAt);
      assert r.past.events[i] == s.past.events[i];
    }
  }

  lemma AlarmFor(s: State, q: nat, when: int)
    requires Inserted(q, when) in s.past.events
    ensures AlarmRight(SetAlarm(s, when))
  {
    var i :| 0 <= i < |s.past.events| && s.past.events[i] == Inserted(q, when);
    var r := SetAlarm(s, when);
    assert r.past.events[i].Inserted? && SetFor(r.past.events[i].when, r.alarm.deadline, r.alarm.armedAt);
  }

  lemma LoggedKept(s: State, r: State)
    requires Logged(s) && s.past.events <= r.past.events
    requires forall e :: e in r.timers && e.addr in r.heap ==>
      e in s.timers && e.addr in s.heap && r.heap[e.addr].sequence == s.heap[e.addr].sequence
    ensures Logged(r)
  {
    forall e | e in r.timers && e.addr in r.heap ensures Inserted(r.heap[e.addr].sequence, e.when) in r.past.events {
      assert Inserted(s.heap[e.addr].sequence, e.when) in s.past.events;
    }
  }

  lemma InsertLogged(s: State, addr: nat)
    requires Logged(s) && Sorted(s.timers) && addr in s.heap
    ensures Logged(Insert(s, addr)) && s.past.events <= Insert(s, addr).past.events
    ensures Inserted(s.heap[addr].sequence, s.heap[addr].expiration) in Insert(s, addr).past.events
  {
    var (t, r) := (s.heap[addr], Insert(s, addr));
    InsertSortedIs(s.timers, Entry(t.expiration, addr));
    assert r.past.events[|s.past.events|] == Inserted(t.sequence, t.expiration);
    forall e | e in r.timers && e.addr in r.heap ensures Inserted(r.heap[e.addr].sequence, e.when) in r.past.events {
      if e in s.timers { assert Inserted(s.heap[e.addr].sequence, e.when) in s.past.events; }
    }
  }

  lemma AddScheduled(s: State, addr: nat)
    requires Inv(s) && addr in s.waiting && addr in s.heap && Logged(s) && AlarmRight(s)
    ensures Logged(Add(s, addr)) && AlarmRight(Add(s, addr))
  {
    InvTime(s);
    CoreSorted(s);
    hide Inv, Core, Stages, AlarmRight, Logged;
    var q := s.heap[addr].sequence;
    var a := Asserts(s.(waiting := s.waiting - {addr}, past := s.past.(added := s.past.added + {q})));
    LoggedKept(s, a);
    InsertLogged(a, addr);
    var b := Insert(a, addr);
    AlarmKept(s, b);
    AlarmFor(b, q, s.heap[addr].expiration);
    LoggedKept(b, SetAlarm(b, s.heap[addr].expiration));
  }

  lemma CancelScheduled(s: State, addr: nat, q: nat)
    requires Inv(s) && Logged(s) && AlarmRight(s) && ((addr, q) in s.active ==> addr in s.heap)
    ensures Logged(Cancel(s, addr, q)) && AlarmRight(Cancel(s, addr, q))
  {
    InvTime(s);
    CoreSorted(s);
    hide Inv, Core, Stages, AlarmRight, Logged, Lost, NoteCancel, Asserts;
    NotePast(s, addr, q);
    CancelPast(s, addr, q);
    var r := Cancel(s, addr, q);
    if (addr, q) in s.active && (addr, q) !in s.erasing { EraseIs(s.timers, Entry(s.heap[addr].expiration, addr)); }
    LoggedKept(s, r);
    AlarmKept(s, r);
  }

  lemma TurnScheduled(s: State)
    requires Sorted(s.timers) && s.batch != [] && s.batch[0].addr in s.heap && Logged(s) && AlarmRight(s)
    requires forall e :: e in s.timers ==> e.addr != s.batch[0].addr
    ensures Logged(ResetTurn(s)) && AlarmRight(ResetTurn(s))
  {
    hide AlarmRight, Logged, Insert, Condemn, Sorted;
    TurnPast(s);
    var a := s.(batch := s.batch[1..]);
    LoggedKept(s, a);
    AlarmKept(s, a);
    if Outcome(s, s.batch[0]).Inserted? {
      RestartScheduled(a, s.batch[0].addr, s.batchTime + s.heap[s.batch[0].addr].interval);
    } else {
      CondemnScheduled(a, s.batch[0].addr);
    }
  }

  lemma RestartScheduled(s: State, addr: nat, when: int)
    requires Logged(s) && AlarmRight(s) && Sorted(s.timers) && addr in s.heap
    requires forall e :: e in s.timers ==> e.addr != addr
    ensures
      var r := Insert(s.(heap := s.heap[addr := s.heap[addr].(expiration := when)]), addr);
      Logged(r) && AlarmRight(r)
  {
    hide AlarmRight, Logged, Sorted;
    var b := s.(heap := s.heap[addr := s.heap[addr].(expiration := when)]);
    LoggedKept(s, b);
    InsertLogged(b, addr);
    AlarmKept(s, Insert(b, addr));
  }

  lemma CondemnScheduled(s: State, addr: nat)
    requires Logged(s) && AlarmRight(s) && addr in s.heap
    ensures Logged(Condemn(s, addr)) && AlarmRight(Condemn(s, addr))
  {
    hide AlarmRight, Logged;
    LoggedKept(s, Condemn(s, addr));
    AlarmKept(s, Condemn(s, addr));
  }

  lemma BatchNotQueued(s: State)
    requires Inv(s) && s.batch != []
    ensures Sorted(s.timers) && forall e :: e in s.timers ==> e.addr in s.heap && e.addr != s.batch[0].addr
  {
    assert Placed(s, s.batch[0]);
    forall e | e in s.timers ensures e.addr in s.heap && e.addr != s.batch[0].addr { assert Placed(s, e); }
  }

  lemma RearmScheduled(s: State)
    requires Inv(s) && s.resetting && s.dying.None? && s.batch == [] && Logged(s) && AlarmRight(s)
    requires s.timers != [] ==> s.timers[0].addr in s.heap
    ensures Logged(EndReset(s)) && AlarmRight(EndReset(s))
  {
    InvTime(s);
    FirstExpires(s);
    var a := s.(resetting := false);
    LoggedKept(s, a);
    AlarmKept(s, a);
    if s.timers != [] {
      var e := s.timers[0];
      assert e in s.timers && Inserted(s.heap[e.addr].sequence, e.when) in s.past.events;
      AlarmFor(a, s.heap[e.addr].sequence, e.when);
      LoggedKept(a, SetAlarm(a, e.when));
    }
  }

  lemma OtherScheduled(s: State, a: Action)
    requires Inv(s) && Enabled(s, a) && Logged(s) && AlarmRight(s)
    requires !a.AddTimer? && !a.CancelTimer? && !a.ResetNext? && !a.LeaveReset?
    ensures Logged(Next(s, a)) && AlarmRight(Next(s, a))
  {
    InvTime(s);
    TimersInHeap(s);
    var t := Next(s, a);
    NextGrows(s, a);
    hide Core, Logged, AlarmRight, LowerBound;
    LoggedKept(s, t);
    AlarmKept(s, t);
  }

  lemma NextScheduled(s: State, a: Action)
    requires Inv(s) && Enabled(s, a) && Logged(s) && AlarmRight(s)
    ensures Logged(Next(s, a)) && AlarmRight(Next(s, a))
  {
    hide Inv, Logged, AlarmRight, InUser;
    match a
    case AddTimer(addr) => AddKeeps(s, addr); AddScheduled(s, addr);
    case CancelTimer(addr, q) => CancelKeeps(s, addr, q); CancelScheduled(s, addr, q);
    case ResetNext => TurnKeeps(s); BatchNotQueued(s); TurnScheduled(s);
    case LeaveReset => EndResetKeeps(s); RearmScheduled(s);
    case _ => OtherScheduled(s, a);
  }

  lemma {:induction false} ScheduledOnEveryRun(s: State, acts: seq<Action>)
    requires Inv(s) && Legal(s, acts) && Logged(s) && AlarmRight(s)
    ensures Logged(Exec(s, acts)) && AlarmRight(Exec(s, acts))
    decreases |acts|
  {
    hide Inv, Enabled, Next, Logged, AlarmRight;
    if acts != [] {
      NextKeeps(s, acts[0]);
      NextScheduled(s, acts[0]);
      ScheduledOnEveryRun(Next(s, acts[0]), acts[1..]);
    }
  }

  /** On every run an armed alarm was set for exactly the time of some timer that was queued, or 100 microseconds
      ahead if that time was nearer or past. */
  lemma AlarmOnEveryRun(clock: int, acts: seq<Action>)
    requires Inv(Init(clock)) && Legal(Init(clock), acts)
    ensures
      var s := Exec(Init(clock), acts);
      s.alarm.Armed? ==>
        s.alarm.deadline >= s.alarm.armedAt + 100
        && exists i :: 0 <= i < |s.past.events| && s.past.events[i].Inserted?
                       && (s.alarm.deadline == s.past.events[i].when
                           || (s.alarm.deadline == s.alarm.armedAt + 100
                               && s.past.events[i].when <= s.alarm.armedAt + 100))
  {
    ScheduledOnEveryRun(Init(clock), acts);
    hide Inv, Exec, Legal;
  }

  // ---------- timers are queued as they were asked for ----------

  /** The timers asked for along a run, in order. */
  function NewTimers(acts: seq<Action>): seq<Action> {
    if acts == [] then [] else (if acts[0].NewTimer? then [acts[0]] else []) + NewTimers(acts[1..])
  }

  /** Each timer is the one asked for under its number, and waits for the time asked for. */
  ghost predicate AsAsked(s: State, asked: seq<Action>) {
    && s.created == |asked|
    && forall a :: a in s.heap ==>
         && 1 <= s.heap[a].sequence <= |asked|
         && var n := asked[s.heap[a].sequence - 1];
            n.NewTimer? && n.addr == a && n.interval == s.heap[a].interval && n.repeats == s.heap[a].repeats
            && (a in s.waiting ==> n.when == s.heap[a].expiration)
  }

  lemma AskedKept(s: State, r: State, asked: seq<Action>)
    requires AsAsked(s, asked) && r.created == s.created
    requires forall a :: a in r.heap ==>
      a in s.heap && r.heap[a] == s.heap[a].(expiration := r.heap[a].expiration)
      && (a in r.waiting ==> a in s.waiting && r.heap[a] == s.heap[a])
    ensures AsAsked(r, asked)
  {
  }

  lemma NextAsked(s: State, a: Action, asked: seq<Action>)
    requires Inv(s) && Enabled(s, a) && AsAsked(s, asked)
    ensures AsAsked(Next(s, a), if a.NewTimer? then asked + [a] else asked)
  {
    if a.ResetNext? { BatchNotWaiting(s); }
    hide Inv, InUser, Add, Cancel, ResetTurn;
    match a
    case NewTimer(addr, when, interval, repeats) => NewAsked(s, a, asked);
    case AddTimer(addr) => AddKeeps(s, addr); AddPast(s, addr); AddWaits(s, addr); AskedKept(s, Next(s, a), asked);
    case CancelTimer(addr, q) =>
      CancelKeeps(s, addr, q); CancelPast(s, addr, q); CancelWaits(s, addr, q); AskedKept(s, Next(s, a), asked);
    case ResetNext => TurnKeeps(s); TurnWaits(s); AskedKept(s, Next(s, a), asked);
    case LeaveReset => EndResetKeeps(s); AskedKept(s, Next(s, a), asked);
    case RunNext => RunKeeps(s); AskedKept(s, Next(s, a), asked);
    case _ => AskedKept(s, Next(s, a), asked);
  }

  lemma NewAsked(s: State, a: Action, asked: seq<Action>)
    requires Inv(s) && Enabled(s, a) && AsAsked(s, asked) && a.NewTimer?
    ensures AsAsked(Next(s, a), asked + [a])
  {
    hide Inv;
  }

  lemma AddWaits(s: State, addr: nat)
    requires addr in s.heap
    ensures Add(s, addr).waiting == s.waiting - {addr} && Add(s, addr).created == s.created
  {
  }

  lemma CancelWaits(s: State, addr: nat, q: nat)
    requires (addr, q) in s.active ==> addr in s.heap
    ensures Cancel(s, addr, q).waiting == s.waiting && Cancel(s, addr, q).created == s.created
  {
    hide Lost, Erase;
  }

  lemma TurnWaits(s: State)
    requires s.batch != [] && s.batch[0].addr in s.heap
    ensures
      var r := ResetTurn(s);
      && r.waiting == s.waiting && r.created == s.created && r.heap.Keys == s.heap.Keys
      && (forall a :: a in s.heap ==> r.heap[a] == s.heap[a].(expiration := r.heap[a].expiration))
      && (forall a :: a in s.heap && a != s.batch[0].addr ==> r.heap[a] == s.heap[a])
  {
    hide InsertSorted;
  }

  lemma BatchNotWaiting(s: State)
    requires Inv(s) && s.batch != []
    ensures s.batch[0].addr in s.heap && s.batch[0].addr !in s.waiting
  {
    assert Placed(s, s.batch[0]);
  }

  lemma {:induction false} AskedOnEveryRun(s: State, acts: seq<Action>, asked: seq<Action>)
    requires Inv(s) && Legal(s, acts) && AsAsked(s, asked)
    ensures AsAsked(Exec(s, acts), asked + NewTimers(acts))
    decreases |acts|
  {
    hide Inv, Enabled, Next, AsAsked;
    if acts == [] {
      assert asked + [] == asked;
    } else {
      var now := if acts[0].NewTimer? then asked + [acts[0]] else asked;
      NextKeeps(s, acts[0]);
      NextAsked(s, acts[0], asked);
      AskedOnEveryRun(Next(s, acts[0]), acts[1..], now);
      assert now + NewTimers(acts[1..]) == asked + NewTimers(acts);
    }
  }

  lemma AskedFromStart(clock: int, acts: seq<Action>)
    requires Inv(Init(clock)) && Legal(Init(clock), acts)
    ensures AsAsked(Exec(Init(clock), acts), NewTimers(acts))
  {
    AskedOnEveryRun(Init(clock), acts, []);
    assert [] + NewTimers(acts) == NewTimers(acts);
    hide Inv, Exec, Legal;
  }

  /** So on every run a timer enters the queue for the time that was asked for under its number. */
  lemma QueuedAsAsked(clock: int, acts: seq<Action>, addr: nat)
    requires Inv(Init(clock)) && Legal(Init(clock), acts) && addr in Exec(Init(clock), acts).waiting
    ensures Inv(Exec(Init(clock), acts)) && addr in Exec(Init(clock), acts).heap
    ensures
      var s := Exec(Init(clock), acts);
      var (t, asked, r) := (s.heap[addr], NewTimers(acts), Add(s, addr));
      && 1 <= t.sequence <= |asked|
      && asked[t.sequence - 1] == NewTimer(addr, t.expiration, t.interval, t.repeats)
      && Entry(t.expiration, addr) in r.timers
      && r.past.events == s.past.events + [Inserted(t.sequence, t.expiration)]
  {
    hide *;
    ExecKeeps(Init(clock), acts);
    AskedFromStart(clock, acts);
    WaitingAsAsked(Exec(Init(clock), acts), NewTimers(acts), addr);
  }

  lemma WaitingAsAsked(s: State, asked: seq<Action>, addr: nat)
    requires Inv(s) && AsAsked(s, asked) && addr in s.waiting
    ensures addr in s.heap
    ensures
      var (t, r) := (s.heap[addr], Add(s, addr));
      && 1 <= t.sequence <= |asked|
      && asked[t.sequence - 1] == NewTimer(addr, t.expiration, t.interval, t.repeats)
      && Entry(t.expiration, addr) in r.timers
      && r.past.events == s.past.events + [Inserted(t.sequence, t.expiration)]
  {
    WaitingInHeap(s, addr);
    hide Inv, Add;
    AddPast(s, addr);
    AddQueues(s, addr);
  }

  lemma WaitingInHeap(s: State, addr: nat)
    requires Inv(s) && addr in s.waiting
    ensures addr in s.heap
  {
  }

  lemma AddQueues(s: State, addr: nat)
    requires Inv(s) && addr in s.waiting && addr in s.heap
    ensures Entry(s.heap[addr].expiration, addr) in Add(s, addr).timers
  {
    InvTime(s);
    CoreSorted(s);
    InsertSortedIs(s.timers, Entry(s.heap[addr].expiration, addr));
  }

  // ---------- the queue object ----------

  class Queue {
    var heap: map<nat, Timer>
    var created: nat
    var waiting: set<nat>
    var timers: seq<Entry>
    var active: set<(nat, nat)>
    var canceling: set<(nat, nat)>
    var calling: bool
    var resetting: bool
    var batch: seq<Entry>
    var next: nat
    var batchTime: int
    var dying: Option<nat>
    var erasing: seq<(nat, nat)>
    var alarm: Alarm
    var clock: int
    ghost var past: History

    ghost function View(): State
      reads this
    {
      State(heap, created, waiting, timers, active, canceling, calling, resetting, batch, next, batchTime,
            dying, erasing, alarm, clock, past)
    }

    constructor (now: int)
      requires now > 0
      ensures Inv(View()) && View() == Init(now)
    {
      heap, created, waiting, timers, active, canceling := map[], 0, {}, [], {}, {};
      calling, resetting, batch, next, batchTime := false, false, [], 0, 0;
      dying, erasing, alarm, clock := None, [], Unarmed, now;
      past := History(map[], {}, map[], [], 0, false, false);
      new;
      InitInv(now);
    }

    /** The allocation in addTimer; addr is where the allocator put the timer. */
    method AddTimer(addr: nat, when: int, interval: int, repeats: bool)
      requires Inv(View()) && addr !in heap && addr < PTR_MAX && when > 0 && interval >= 0
      modifies this
      ensures View() == New(old(View()), addr, when, interval, repeats) && Inv(View())
    {
      hide Inv;
      NewKeeps(View(), addr, when, interval, repeats);
      created := created + 1;
      heap := heap[addr := Timer(when, interval, repeats, created)];
      waiting := waiting + {addr};
      past := past.(ids := past.ids[created := addr]);
    }

    method InsertTimer(addr: nat) returns (earliestChanged: bool)
      requires addr in heap
      modifies this`timers, this`active, this`past
      ensures View() == Insert(old(View()), addr) && earliestChanged == EarliestChanges(old(View()), addr)
    {
      earliestChanged := false;
      var when := heap[addr].expiration;
      if timers == [] || when < timers[0].when {
        earliestChanged := true;
      }
      timers := InsertSorted(timers, Entry(when, addr));
      active := active + {(addr, heap[addr].sequence)};
      past := past.(events := past.events + [Inserted(heap[addr].sequence, when)]);
    }

    method ResetTimerfd(expiration: int)
      modifies this`alarm
      ensures View() == SetAlarm(old(View()), expiration)
    {
      var microseconds := expiration - clock;
      if microseconds < 100 {
        microseconds := 100;
      }
      alarm := Armed(clock + microseconds, clock);
    }

    method AddTimerInLoop(addr: nat)
      requires Inv(View()) && addr in waiting
      modifies this
      ensures addr in old(heap) && View() == Add(old(View()), addr) && Inv(View())
    {
      hide Core;
      AddedKnown(View(), addr);
      AddKeeps(View(), addr);
      waiting := waiting - {addr};
      past := past.(added := past.added + {heap[addr].sequence}, asserted := past.asserted || erasing != []);
      var earliestChanged := InsertTimer(addr);
      if earliestChanged {
        ResetTimerfd(heap[addr].expiration);
      }
    }

    method Unqueue(addr: nat)
      requires addr in heap
      modifies this`timers, this`erasing, this`past
      ensures View() == Unqueued(old(View()), addr) && erasing == old(erasing) + [(addr, heap[addr].sequence)]
    {
      var q := heap[addr].sequence;
      timers := Erase(timers, Entry(heap[addr].expiration, addr));
      erasing := erasing + [(addr, q)];
      past := past.(events := past.events + [Deleted(q)]);
    }

    /** cancelInLoop up to the destructor, and whether there is one to run. */
    method CancelUpToDelete(addr: nat, q: nat) returns (found: bool)
      requires Inv(View()) && InUser(View()) && (q in past.ids ==> past.ids[q] == addr)
      modifies this
      ensures (addr, q) in old(active) ==> addr in old(heap)
      ensures View() == Cancel(old(View()), addr, q) && Inv(View()) && found == ((addr, q) in old(active))
      ensures found && (addr, q) !in old(erasing) ==> erasing == old(erasing) + [(addr, q)]
    {
      hide Inv, Lost, NoteCancel, Asserts, Unqueued, InUser;
      CancelKeeps(View(), addr, q);
      InvErasing(View(), addr, q);
      NotePast(View(), addr, q);
      past := Asserts(NoteCancel(View(), addr, q)).past;
      found := (addr, q) in active;
      if found {
        if (addr, q) in erasing {
          past := past.(events := past.events + [Deleted(q)], twice := true);
        } else {
          Unqueue(addr);
        }
      } else if calling {
        canceling := canceling + {(addr, q)};
      }
    }

    /** The rest of a cancelInLoop that has found its timer. */
    method CancelAfterDelete()
      requires Inv(View()) && erasing != []
      modifies this
      ensures View() == FinishCancel(old(View())) && Inv(View())
    {
      hide Inv;
      FinishCancelKeeps(View());
      var n := |erasing| - 1;
      heap := heap - {erasing[n].0};
      active := active - {erasing[n]};
      erasing := erasing[..n];
    }

    /** All of it, with a destructor that does nothing. */
    method CancelInLoop(addr: nat, q: nat)
      requires Inv(View()) && InUser(View()) && (q in past.ids ==> past.ids[q] == addr) && (addr, q) !in erasing
      modifies this
      ensures (addr, q) in old(active) ==> addr in old(heap)
      ensures View() == WholeCancel(old(View()), addr, q) && Inv(View())
    {
      hide Inv, Cancel, FinishCancel, InUser;
      var found := CancelUpToDelete(addr, q);
      if found {
        CancelAfterDelete();
      }
    }

    /** Takes the due timers out of both sets. */
    method GetExpired(now: int) returns (expired: seq<Entry>)
      requires Core(View()) && now == clock
      modifies this`timers, this`active
      ensures
        var n := LowerBound(old(timers), Entry(now, PTR_MAX));
        && expired == old(timers)[..n] && timers == old(timers)[n..]
        && active == old(active) - Ids(old(heap), old(timers)[..n])
    {
      var end := LowerBound(timers, Entry(now, PTR_MAX));
      expired := timers[..end];
      TimersInHeap(View());
      hide Core, Ids, LowerBound;
      assert forall e :: e in expired ==> e in timers;
      timers := timers[end..];
      ghost var before := active;
      assert Ids(heap, []) == {} by { NoIds(heap); }
      for i := 0 to |expired|
        invariant timers == old(timers)[end..]
        invariant active == before - Ids(heap, expired[..i])
      {
        assert expired[i] in expired;
        IdsOneMore(heap, expired, i);
        active := active - {(expired[i].addr, heap[expired[i].addr].sequence)};
      }
      assert expired[..|expired|] == expired;
    }

    method ReadTimerfd()
      modifies this`alarm
      ensures alarm == if old(alarm) == Fired then Unarmed else old(alarm)
    {
      if alarm == Fired {
        alarm := Unarmed;
      }
    }

    /** handleRead up to the first callback. */
    method HandleReadBegin()
      requires Inv(View()) && !calling && !resetting && erasing == []
      modifies this
      ensures View() == Begin(old(View())) && Inv(View())
    {
      hide Inv, Core, Ids, LowerBound;
      BeginKeeps(View());
      InvCore(View());
      ReadTimerfd();
      ElsewhereCore(old(View()), View());
      batch := GetExpired(clock);
      StartCalling();
    }

    method StartCalling()
      modifies this`calling, this`canceling, this`next, this`batchTime, this`past
      ensures calling && canceling == {} && next == 0 && batchTime == clock
      ensures past == old(past).(round := old(past).round + 1)
    {
      batchTime := clock;
      next := 0;
      calling := true;
      canceling := {};
      past := past.(round := past.round + 1);
    }

    /** One callback; what it does to the queue are steps of their own. */
    method RunCallback()
      requires Inv(View()) && calling && next < |batch|
      modifies this
      ensures old(batch)[old(next)].addr in old(heap) && View() == Run(old(View())) && Inv(View())
    {
      RunKeeps(View());
      hide Core, AlarmSet;
      past := past.(events := past.events + [Ran(heap[batch[next].addr].sequence, past.round)]);
      next := next + 1;
    }

    /** One turn of the loop of reset, up to the destructor. */
    method ResetFirst()
      requires batch != [] && batch[0].addr in heap
      modifies this
      ensures View() == ResetTurn(old(View()))
    {
      hide Insert;
      var addr := batch[0].addr;
      batch := batch[1..];
      if heap[addr].repeats && (addr, heap[addr].sequence) !in canceling {
        heap := heap[addr := heap[addr].(expiration := batchTime + heap[addr].interval)];
        var _ := InsertTimer(addr);
      } else {
        past := past.(events := past.events + [Deleted(heap[addr].sequence)]);
        dying := Some(addr);
      }
    }

    /** The destructor is over, if there was one. */
    method FreeDying()
      modifies this`heap, this`dying
      ensures View() == Freed(old(View()))
    {
      if dying.Some? {
        heap := heap - {dying.value};
        dying := None;
      }
    }

    /** All of reset, with destructors that do nothing. */
    method Reset()
      requires Core(View()) && batchTime > 0 && dying.None?
      modifies this
      ensures forall i :: 0 <= i < |old(batch)| ==> old(batch)[i].addr in old(heap)
      ensures forall i, k :: 0 <= i < k < |old(batch)| ==> old(batch)[i].addr != old(batch)[k].addr
      ensures View() == Rearmed(ResetAll(old(View())))
    {
      hide Core, ResetTurn, Freed;
      ResetAllKeeps(View());
      ghost var goal := ResetAll(View());
      while batch != []
        invariant Core(View()) && batchTime > 0 && dying.None?
        invariant forall i :: 0 <= i < |batch| ==> batch[i].addr in heap
        invariant forall i, k :: 0 <= i < k < |batch| ==> batch[i].addr != batch[k].addr
        invariant ResetAll(View()) == goal
        decreases |batch|
      {
        ResetOneKeeps(View());
        ResetAllKeeps(ResetOne(View()));
        ResetFirst();
        FreeDying();
        BatchInHeap(View());
      }
      FirstExpires(View());
      if timers != [] && heap[timers[0].addr].expiration > 0 {
        ResetTimerfd(heap[timers[0].addr].expiration);
      }
    }

    /** handleRead after the last callback, with destructors that do nothing. */
    method HandleReadEnd()
      requires Inv(View()) && calling && next == |batch| && erasing == [] && !past.twice
      modifies this
      ensures old(View()).dying.None? && View() == End(old(View())) && Inv(View())
    {
      hide Inv, Core, ResetAll, Rearm, Legal, Exec, Stages;
      ghost var acts := EndIsRun(View());
      ExecKeeps(View(), acts);
      calling, resetting, next := false, true, 0;
      ElsewhereCore(old(View()), View());
      ResetAllKeeps(View());
      FirstExpires(ResetAll(View()));
      Reset();
      resetting := false;
      RearmFlag(ResetAll(StartReset(old(View()))));
    }
  }

  /** Rearm where the first timer may be looked up. */
  ghost function Rearmed(s: State): State {
    if s.timers != [] && s.timers[0].addr in s.heap then Rearm(s) else s
  }

  /** The alarm does not depend on the stage. */
  lemma RearmFlag(s: State)
    requires s.timers != [] ==> s.timers[0].addr in s.heap
    ensures EndReset(s) == Rearmed(s).(resetting := false)
  {
  }

  lemma InvTime(s: State)
    requires Inv(s)
    ensures Core(s) && Stages(s)
  {
  }

  lemma InvErasing(s: State, addr: nat, q: nat)
    requires Inv(s)
    ensures (addr, q) in s.erasing ==> (addr, q) in s.active
    ensures (addr, q) in s.active ==> addr in s.heap && s.heap[addr].sequence == q
  {
    if (addr, q) in s.active && (addr, q) !in s.erasing { ActiveQueued(s, addr, q); }
  }

  lemma NoIds(heap: map<nat, Timer>)
    ensures Ids(heap, []) == {}
  {
  }

  lemma IdsOneMore(heap: map<nat, Timer>, es: seq<Entry>, i: nat)
    requires i < |es| && es[i].addr in heap
    ensures Ids(heap, es[..i + 1]) == Ids(heap, es[..i]) + {(es[i].addr, heap[es[i].addr].sequence)}
  {
    assert es[..i + 1] == es[..i] + [es[i]];
  }

  lemma TimersInHeap(s: State)
    requires Core(s)
    ensures forall e :: e in s.timers ==> e.addr in s.heap
  {
    forall e | e in s.timers ensures e.addr in s.heap { assert Placed(s, e); }
  }
}
