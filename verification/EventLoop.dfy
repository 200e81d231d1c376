/** The hand-off of functors from any thread to the loop thread, as steps that interleave. */
module EventLoop {

  /** Where the loop thread is: not yet in loop(); about to poll, or blocked in it; handling the
      events of a poll; in doPendingFunctors before the swap; running the batch; destroying the functors
      of the batch; or out of loop(). */
  datatype Where = Created | Polling | Handling(wakeActive: bool) | BeforeSwap | Running | Dropping | Left

  /** F is the type of functors. batch holds those of the local vector not yet called, and called counts
      those that have been called and are still in the vector. notYetWoken holds the other threads, and
      ownWakeup the loop thread, when between the push and the wakeup of a queueInLoop. started and pushed
      are what has been
      called and what has been queued so far, in order. */
  datatype State<F> = State(at: Where, pending: seq<F>, batch: seq<F>, called: nat, calling: bool,
                            counter: nat, quit: bool, notYetWoken: set<nat>, ownWakeup: bool, iteration: nat,
                            started: seq<F>, pushed: seq<F>)

  datatype Action<F> =
    | Push(thread: nat, f: F)       // another thread, inside the lock of queueInLoop
    | Wake(thread: nat)             // the same thread's wakeup
    | OwnPush(f: F)                 // the loop thread, in a callback, a functor or the destructor of one
    | OwnWake
    | Quit(thread: nat)             // another thread's quit, before its wakeup
    | OwnQuit                       // the loop thread's quit, which wakes nobody
    | EnterLoop
    | PollReturns(wakeActive: bool) // with any other channels, or by timeout
    | ReadWakeup                    // handleRead of the wakeup channel
    | StartPending                  // callingPendingFunctors_ = true
    | Swap
    | Call                          // functors[i]()
    | EndPending                    // callingPendingFunctors_ = false
    | LoopTest                      // the vector of functors is gone, and the loop's test

  function Init<F>(): State<F> { State(Created, [], [], 0, false, 0, false, {}, false, 0, [], []) }

  /** The loop thread is in code of the user; destructors of functors run only where there are some. */
  predicate InUserCode<F>(s: State<F>) {
    (s.at == Created || s.at.Handling? || s.at == Running || (s.at == Dropping && s.called > 0)) && !s.ownWakeup
  }

  predicate Enabled<F>(s: State<F>, a: Action<F>) {
    match a
    case Push(t, _) => t !in s.notYetWoken
    case Wake(t) => t in s.notYetWoken
    case Quit(t) => t !in s.notYetWoken
    case OwnPush(_) => InUserCode(s)
    case OwnWake => s.ownWakeup
    case OwnQuit => InUserCode(s)
    case EnterLoop => s.at == Created && !s.ownWakeup
    case PollReturns(w) => s.at == Polling && (w ==> s.counter > 0)
    case ReadWakeup => s.at == Handling(true) && !s.ownWakeup
    case StartPending => s.at.Handling? && !s.ownWakeup
    case Swap => s.at == BeforeSwap
    case Call => s.at == Running && !s.ownWakeup && s.batch != []
    case EndPending => s.at == Running && !s.ownWakeup && s.batch == []
    case LoopTest => s.at == Dropping
  }

  function Next<F>(s: State<F>, a: Action<F>): State<F>
    requires Enabled(s, a)
  {
    match a
    case Push(t, f) => s.(pending := s.pending + [f], pushed := s.pushed + [f], notYetWoken := s.notYetWoken + {t})
    case Wake(t) => s.(counter := s.counter + 1, notYetWoken := s.notYetWoken - {t})
    case Quit(t) => s.(quit := true, notYetWoken := s.notYetWoken + {t})
    case OwnPush(f) => s.(pending := s.pending + [f], pushed := s.pushed + [f], ownWakeup := s.calling)
    case OwnWake => s.(counter := s.counter + 1, ownWakeup := false)
    case OwnQuit => s.(quit := true)
    case EnterLoop => s.(at := if s.quit then Left else Polling)
    case PollReturns(w) => s.(at := Handling(w), iteration := s.iteration + 1)
    case ReadWakeup => s.(at := Handling(false), counter := 0)
    case StartPending => s.(at := BeforeSwap, calling := true)
    case Swap => s.(at := Running, batch := s.pending, called := 0, pending := [])
    case Call => s.(started := s.started + [s.batch[0]], batch := s.batch[1..], called := s.called + 1)
    case EndPending => s.(at := Dropping, calling := false)
    case LoopTest => s.(at := if s.quit then Left else Polling, called := 0)
  }

  // ---------- what holds between any two steps ----------

  /** What was started, what is left of the batch and what is pending are, in this order, all that was queued. */
  ghost predicate InOrder<F>(s: State<F>) { s.started + s.batch + s.pending == s.pushed }

  /** A pending functor has been, or is about to be, announced on the eventfd. */
  ghost predicate Announced<F>(s: State<F>) { s.pending != [] ==> s.counter > 0 || s.notYetWoken != {} || s.ownWakeup }

  ghost predicate Inv<F>(s: State<F>) {
    && InOrder(s)
    && (s.calling <==> s.at == BeforeSwap || s.at == Running)
    && (s.batch != [] ==> s.at == Running)
    && (s.ownWakeup ==> s.at == Running)
    && (s.at == Running ==> s.iteration > 0 && Announced(s))
    && (s.called > 0 ==> s.at == Running || s.at == Dropping)
    && (s.at == BeforeSwap || s.at == Dropping || s.at.Handling? ==> s.iteration > 0)
    && (s.at == Created ==> s.iteration == 0)
  }

  lemma InitInv<F>()
    ensures Inv(Init<F>())
  {
  }

  lemma NextKeeps<F>(s: State<F>, a: Action<F>)
    requires Inv(s) && Enabled(s, a)
    ensures Inv(Next(s, a)) && s.pushed <= Next(s, a).pushed && s.started <= Next(s, a).started
  {
    if a.Push? || a.OwnPush? {
      assert s.started + s.batch + (s.pending + [a.f]) == s.started + s.batch + s.pending + [a.f];
    }
    if a.Push? || a.Quit? { assert a.thread in Next(s, a).notYetWoken; }
    if a.Swap? { assert s.started + s.batch + s.pending == s.started + s.pending + []; }
    if a.Call? { assert s.batch == [s.batch[0]] + s.batch[1..]; }
  }

  // ---------- all interleavings ----------

  ghost predicate Legal<F>(s: State<F>, acts: seq<Action<F>>)
    decreases |acts|
  {
    acts == [] || (Enabled(s, acts[0]) && Legal(Next(s, acts[0]), acts[1..]))
  }

  ghost function Exec<F>(s: State<F>, acts: seq<Action<F>>): State<F>
    requires Legal(s, acts)
    decreases |acts|
  {
    if acts == [] then s else Exec(Next(s, acts[0]), acts[1..])
  }

  lemma {:induction false} ExecKeeps<F>(s: State<F>, acts: seq<Action<F>>)
    requires Inv(s) && Legal(s, acts)
    ensures Inv(Exec(s, acts)) && s.pushed <= Exec(s, acts).pushed && s.started <= Exec(s, acts).started
    decreases |acts|
  {
    if acts != [] {
      NextKeeps(s, acts[0]);
      ExecKeeps(Next(s, acts[0]), acts[1..]);
    }
  }

  /** In every interleaving the functors started are a prefix of those queued: each runs at most
      once, in the order of the pushes, and none is lost between the two vectors. */
  lemma RunsInPushOrder<F>(acts: seq<Action<F>>)
    requires Legal(Init<F>(), acts)
    ensures
      var s := Exec(Init<F>(), acts);
      s.started <= s.pushed && s.started + s.batch + s.pending == s.pushed
  {
    InitInv<F>();
    ExecKeeps(Init<F>(), acts);
    var s := Exec(Init<F>(), acts);
    assert s.pushed == s.started + (s.batch + s.pending);
  }

  // ---------- when a poll may block with functors pending ----------

  /** A step p of the run has no step stop after it. */
  ghost predicate Since<F>(acts: seq<Action<F>>, p: Action<F> -> bool, stop: Action<F> -> bool) {
    exists i :: 0 <= i < |acts| && p(acts[i]) && forall k :: i < k < |acts| ==> !stop(acts[k])
  }

  /** The loop thread has queued a functor that no swap has taken since, and the flag has not fallen
      since. At a poll this means that the flag was down, so that queueInLoop did not wake the loop. */
  ghost predicate QueuedQuietly<F>(acts: seq<Action<F>>) {
    Since(acts, (a: Action<F>) => a.OwnPush?, (a: Action<F>) => a.Swap? || a.EndPending?)
  }

  /** A wakeup has not been read since. */
  ghost predicate Unread<F>(acts: seq<Action<F>>) {
    Since(acts, (a: Action<F>) => a.Wake? || a.OwnWake?, (a: Action<F>) => a.ReadWakeup?)
  }

  /** Another thread has queued a functor or quit the loop and not woken it since. */
  ghost predicate Owes<F>(acts: seq<Action<F>>, t: nat) {
    Since(acts, (a: Action<F>) => WithWakeup(a) && a.thread == t, (a: Action<F>) => a == Wake(t))
  }

  lemma SinceOneMore<F>(acts: seq<Action<F>>, a: Action<F>, p: Action<F> -> bool, stop: Action<F> -> bool)
    ensures Since(acts + [a], p, stop) <==> p(a) || (Since(acts, p, stop) && !stop(a))
  {
    var all := acts + [a];
    if Since(acts, p, stop) && !stop(a) {
      var i :| 0 <= i < |acts| && p(acts[i]) && forall k :: i < k < |acts| ==> !stop(acts[k]);
      assert p(all[i]) && forall k :: i < k < |all| ==> !stop(all[k]);
    }
    if p(a) { assert p(all[|acts|]); }
    if Since(all, p, stop) && !p(a) {
      var i :| 0 <= i < |all| && p(all[i]) && forall k :: i < k < |all| ==> !stop(all[k]);
      assert p(acts[i]) && !stop(all[|acts|]);
      assert forall k :: i < k < |acts| ==> all[k] == acts[k];
    }
  }

  lemma HistoryOneMore<F>(acts: seq<Action<F>>, a: Action<F>)
    ensures QueuedQuietly(acts + [a]) <==> a.OwnPush? || (QueuedQuietly(acts) && !a.Swap? && !a.EndPending?)
    ensures Unread(acts + [a]) <==> a.Wake? || a.OwnWake? || (Unread(acts) && !a.ReadWakeup?)
    ensures forall t :: Owes(acts + [a], t) <==> (WithWakeup(a) && a.thread == t) || (Owes(acts, t) && a != Wake(t))
  {
    SinceOneMore(acts, a, (x: Action<F>) => x.OwnPush?, (x: Action<F>) => x.Swap? || x.EndPending?);
    SinceOneMore(acts, a, (x: Action<F>) => x.Wake? || x.OwnWake?, (x: Action<F>) => x.ReadWakeup?);
    forall t ensures Owes(acts + [a], t) <==> (WithWakeup(a) && a.thread == t) || (Owes(acts, t) && a != Wake(t)) {
      SinceOneMore(acts, a, (x: Action<F>) => WithWakeup(x) && x.thread == t, (x: Action<F>) => x == Wake(t));
    }
  }

  /** What the run so far says about the state it has come to. */
  ghost predicate Tells<F>(acts: seq<Action<F>>, s: State<F>) {
    && Inv(s) && (s.counter > 0 <==> Unread(acts)) && (forall t :: t in s.notYetWoken <==> Owes(acts, t))
    && (QueuedQuietly(acts) ==> s.pending != [])
    && (s.at == Created || s.at == Dropping || s.at == Polling ==> Announced(s) || QueuedQuietly(acts))
  }

  lemma TellsOneMore<F>(acts: seq<Action<F>>, s: State<F>, a: Action<F>)
    requires Tells(acts, s) && Enabled(s, a)
    ensures Tells(acts + [a], Next(s, a))
  {
    hide QueuedQuietly, Unread, Owes, InOrder;
    HistoryOneMore(acts, a);
    NextKeeps(s, a);
    if WithWakeup(a) { assert a.thread in Next(s, a).notYetWoken; }
  }

  lemma RunsOneMore<F>(s: State<F>, acts: seq<Action<F>>, a: Action<F>)
    ensures Legal(s, acts + [a]) <==> Legal(s, acts) && Enabled(Exec(s, acts), a)
    ensures Legal(s, acts + [a]) ==> Exec(s, acts + [a]) == Next(Exec(s, acts), a)
    decreases |acts|
  {
    hide Enabled, Next;
    if acts == [] {
      assert acts + [a] == [a] && [a][1..] == [];
    } else {
      assert (acts + [a])[0] == acts[0] && (acts + [a])[1..] == acts[1..] + [a];
      if Enabled(s, acts[0]) { RunsOneMore(Next(s, acts[0]), acts[1..], a); }
    }
  }

  lemma {:induction false} RunTells<F>(acts: seq<Action<F>>)
    requires Legal(Init<F>(), acts)
    ensures Tells(acts, Exec(Init<F>(), acts))
    decreases |acts|
  {
    hide Enabled, Next, Inv, Tells;
    if acts == [] {
      TellsAtFirst<F>();
    } else {
      var before, a := acts[..|acts| - 1], acts[|acts| - 1];
      assert acts == before + [a];
      RunsOneMore(Init<F>(), before, a);
      RunTells(before);
      TellsOneMore(before, Exec(Init<F>(), before), a);
    }
  }

  lemma TellsAtFirst<F>()
    ensures Tells([], Init<F>())
  {
  }

  /** It waits in poll with a functor pending that nobody has announced or will. */
  ghost predicate Stuck<F>(s: State<F>) { s.at == Polling && s.pending != [] && s.counter == 0 && s.notYetWoken == {} }

  /** Exactly when a poll, the first or any later one, can block with functors pending: the loop thread
      has queued one while the flag was down, no wakeup is unread, and no other thread owes one. */
  lemma BlocksIff<F>(acts: seq<Action<F>>)
    requires Legal(Init<F>(), acts) && Exec(Init<F>(), acts).at == Polling
    ensures
      var s := Exec(Init<F>(), acts);
      Stuck(s) <==> QueuedQuietly(acts) && !Unread(acts) && forall t :: !Owes(acts, t)
  {
    RunTells(acts);
  }

  /** Before the first poll: what the loop thread queued before loop() is not announced. */
  lemma FirstPollMayBlock<F>(f: F)
    ensures
      var acts := [OwnPush(f), EnterLoop];
      && Legal(Init<F>(), acts)
      && Exec(Init<F>(), acts) == Init<F>().(at := Polling, pending := [f], pushed := [f])
      && Stuck(Exec(Init<F>(), acts))
  {
    assert [OwnPush(f)] + [EnterLoop] == [OwnPush(f), EnterLoop] && [] + [OwnPush(f)] == [OwnPush(f)];
    RunsOneMore(Init<F>(), [], OwnPush(f));
    RunsOneMore(Init<F>(), [OwnPush(f)], EnterLoop);
  }

  /** Before a later poll: what the destructor of a functor queues, while the vector of functors is
      destroyed, is announced no more than that. */
  lemma LaterPollMayBlock<F>(f: F, g: F)
    ensures
      var acts := [OwnPush(f), EnterLoop, PollReturns(false), StartPending, Swap, Call, EndPending,
                   OwnPush(g), LoopTest];
      Legal(Init<F>(), acts) && Stuck(Exec(Init<F>(), acts)) && Exec(Init<F>(), acts).iteration == 1
  {
    hide Legal, Exec;
    FirstPollMayBlock(f);
    var a := [OwnPush(f), EnterLoop];
    var s := Exec(Init<F>(), a);
    RunsOneMore(Init<F>(), a, PollReturns(false));
    RunsOneMore(Init<F>(), a + [PollReturns(false)], StartPending);
    var b, t := a + [PollReturns(false)] + [StartPending], s.(at := BeforeSwap, iteration := 1, calling := true);
    assert Legal(Init<F>(), b) && Exec(Init<F>(), b) == t;
    RunsOneMore(Init<F>(), b, Swap);
    RunsOneMore(Init<F>(), b + [Swap], Call);
    var c, u := b + [Swap] + [Call], t.(at := Running, pending := [], called := 1, started := [f]);
    assert Legal(Init<F>(), c) && Exec(Init<F>(), c) == u;
    RunsOneMore(Init<F>(), c, EndPending);
    RunsOneMore(Init<F>(), c + [EndPending], OwnPush(g));
    var d := c + [EndPending] + [OwnPush(g)];
    RunsOneMore(Init<F>(), d, LoopTest);
    assert d + [LoopTest] ==
      [OwnPush(f), EnterLoop, PollReturns(false), StartPending, Swap, Call, EndPending, OwnPush(g), LoopTest];
  }

  /** Another thread's step that comes with a wakeup. */
  predicate WithWakeup<F>(a: Action<F>) { a.Push? || a.Quit? }

  ghost predicate Some<F>(acts: seq<Action<F>>, p: Action<F> -> bool) { exists i :: 0 <= i < |acts| && p(acts[i]) }

  /** Exactly when the first poll may block on pending functors: the loop thread has queued one, and no
      other thread has queued any or quit the loop. */
  lemma FirstPollBlocksIff<F>(acts: seq<Action<F>>)
    requires Legal(Init<F>(), acts) && Exec(Init<F>(), acts).at == Polling && Exec(Init<F>(), acts).iteration == 0
    ensures
      var s := Exec(Init<F>(), acts);
      Stuck(s) <==> Some(acts, (a: Action<F>) => a.OwnPush?) && !Some(acts, (a: Action<F>) => WithWakeup(a))
  {
    InitInv<F>();
    BeforeFirstPoll(Init<F>(), acts);
  }

  lemma {:induction false} BeforeFirstPoll<F>(s: State<F>, acts: seq<Action<F>>)
    requires Inv(s) && Legal(s, acts) && Exec(s, acts).iteration == 0 && Exec(s, acts).at == Polling
    ensures
      var (r, own, other) := (Exec(s, acts),
        Some(acts, (a: Action<F>) => a.OwnPush?),
        Some(acts, (a: Action<F>) => WithWakeup(a)));
      && (r.counter > 0 || r.notYetWoken != {} <==> s.counter > 0 || s.notYetWoken != {} || other)
      && (r.pending != [] ==> s.pending != [] || own || other) && (s.pending != [] || own ==> r.pending != [])
    decreases |acts|
  {
    if acts != [] {
      var a, t, rest := acts[0], Next(s, acts[0]), acts[1..];
      NextKeeps(s, a);
      IterationGrows(s, acts);
      IterationGrows(t, rest);
      BeforeFirstPoll(t, rest);
      SomeFirst(acts, (x: Action<F>) => x.OwnPush?);
      SomeFirst(acts, (x: Action<F>) => WithWakeup(x));
      if WithWakeup(a) { assert a.thread in t.notYetWoken; }
    }
  }

  lemma SomeFirst<F>(acts: seq<Action<F>>, p: Action<F> -> bool)
    requires acts != []
    ensures Some(acts, p) <==> p(acts[0]) || Some(acts[1..], p)
  {
    assert forall i :: 0 < i < |acts| ==> acts[i] == acts[1..][i - 1];
    if i :| 0 <= i < |acts[1..]| && p(acts[1..][i]) { assert p(acts[i + 1]); }
  }

  lemma {:induction false} IterationGrows<F>(s: State<F>, acts: seq<Action<F>>)
    requires Legal(s, acts)
    ensures s.iteration <= Exec(s, acts).iteration && (s.at == Left ==> Exec(s, acts).at == Left)
    decreases |acts|
  {
    if acts != [] { IterationGrows(Next(s, acts[0]), acts[1..]); }
  }

  // ---------- quitting ----------

  predicate IsQuit<F>(a: Action<F>) { a.Quit? || a.OwnQuit? }

  /** The flag is set by a quit and by nothing else, the loop is left only then, and a poll that was entered
      before the quit is woken. */
  ghost predicate QuitInv<F>(s: State<F>) {
    (s.at == Left ==> s.quit) && (s.at == Polling && s.quit ==> s.counter > 0 || s.notYetWoken != {})
  }

  lemma NextQuit<F>(s: State<F>, a: Action<F>)
    requires Inv(s) && QuitInv(s) && Enabled(s, a)
    ensures QuitInv(Next(s, a)) && (Next(s, a).quit <==> s.quit || IsQuit(a))
  {
    hide InOrder, Announced;
    if a.Push? || a.Quit? { assert a.thread in Next(s, a).notYetWoken; }
  }

  lemma {:induction false} QuitFrom<F>(s: State<F>, acts: seq<Action<F>>)
    requires Inv(s) && QuitInv(s) && Legal(s, acts)
    ensures QuitInv(Exec(s, acts)) && (Exec(s, acts).quit <==> s.quit || Some(acts, (a: Action<F>) => IsQuit(a)))
    decreases |acts|
  {
    hide Inv, QuitInv, Enabled, Next, IsQuit;
    if acts != [] {
      NextKeeps(s, acts[0]);
      NextQuit(s, acts[0]);
      QuitFrom(Next(s, acts[0]), acts[1..]);
      SomeFirst(acts, (a: Action<F>) => IsQuit(a));
    }
  }

  /** On every run the loop has been told to quit exactly if some step was a quit; it has been left only if so; and
      no poll blocks with the flag set: it finds a count, or a thread about to wake it. */
  lemma QuitOnEveryRun<F>(acts: seq<Action<F>>)
    requires Legal(Init<F>(), acts)
    ensures
      var s := Exec(Init<F>(), acts);
      && (s.quit <==> Some(acts, (a: Action<F>) => IsQuit(a))) && (s.at == Left ==> s.quit)
      && (s.at == Polling && s.quit ==> s.counter > 0 || s.notYetWoken != {})
  {
    InitInv<F>();
    QuitFrom(Init<F>(), acts);
  }

  function Polls<F>(acts: seq<Action<F>>): nat {
    if acts == [] then 0 else (if acts[0].PollReturns? then 1 else 0) + Polls(acts[1..])
  }

  /** After a quit at most the poll that is under way returns: the loop then goes through its round and is left. */
  lemma {:induction false} QuitEnds<F>(s: State<F>, acts: seq<Action<F>>)
    requires s.quit && Legal(s, acts)
    ensures Polls(acts) <= if s.at == Polling then 1 else 0
    ensures forall k :: 0 <= k < |acts| && (acts[k] == LoopTest || acts[k] == EnterLoop) ==>
      Legal(s, acts[..k + 1]) && Exec(s, acts[..k + 1]).at == Left
    decreases |acts|
  {
    if acts != [] {
      var t, rest := Next(s, acts[0]), acts[1..];
      QuitEnds(t, rest);
      forall k | 0 <= k < |acts| && (acts[k] == LoopTest || acts[k] == EnterLoop)
        ensures Legal(s, acts[..k + 1]) && Exec(s, acts[..k + 1]).at == Left
      {
        assert acts[..k + 1][1..] == rest[..k];
        if k > 0 { assert rest[k - 1] == acts[k]; }
      }
    }
  }

  /** All that was pending at the swap is started before the loop polls again. */
  lemma BatchIsDrained<F>(s: State<F>, acts: seq<Action<F>>)
    requires Inv(s) && s.at == BeforeSwap && Legal(s, [Swap] + acts)
    requires Exec(s, [Swap] + acts).at == Polling
    requires forall i :: 0 <= i < |acts| ==> !acts[i].PollReturns?
    ensures s.started + s.pending <= Exec(s, [Swap] + acts).started
  {
    assert ([Swap] + acts)[1..] == acts;
    NextKeeps(s, Swap);
    DrainedBy(Next(s, Swap), acts);
  }

  lemma {:induction false} DrainedBy<F>(s: State<F>, acts: seq<Action<F>>)
    requires Inv(s) && Legal(s, acts) && Exec(s, acts).at == Polling
    requires forall i :: 0 <= i < |acts| ==> !acts[i].PollReturns?
    ensures s.started + s.batch <= Exec(s, acts).started
    decreases |acts|
  {
    if s.batch == [] {
      ExecKeeps(s, acts);
    } else if acts != [] {
      var r := Next(s, acts[0]);
      NextKeeps(s, acts[0]);
      DrainedBy(r, acts[1..]);
      if acts[0].Call? { assert s.started + s.batch == r.started + r.batch; }
    }
  }

  // ---------- the loop object, one method for each step of its code ----------

  class Loop<F> {
    var at: Where
    var pendingFunctors: seq<F>
    var functors: seq<F>
    var called: nat
    var callingPendingFunctors: bool
    var wakeupCounter: nat
    var quit: bool
    ghost var notYetWoken: set<nat>
    ghost var ownWakeup: bool
    ghost var iteration: nat
    ghost var started: seq<F>
    ghost var pushed: seq<F>

    ghost predicate Valid()
      reads this
    {
      called <= |functors| && Inv(View())
    }

    ghost function View(): State<F>
      reads this
    {
      State(at, pendingFunctors, if called <= |functors| then functors[called..] else [], called,
            callingPendingFunctors, wakeupCounter, quit, notYetWoken, ownWakeup, iteration, started, pushed)
    }

    constructor ()
      ensures View() == Init() && Valid()
    {
      at, pendingFunctors, functors, callingPendingFunctors, wakeupCounter, quit := Created, [], [], false, 0, false;
      notYetWoken, ownWakeup, iteration, started, pushed := {}, false, 0, [], [];
      called := 0;
    }

    /** queueInLoop up to the end of its critical section, and whether a wakeup is to follow. */
    method PushBack(f: F, isInLoopThread: bool, ghost thread: nat) returns (wake: bool)
      requires Valid() && Enabled(View(), if isInLoopThread then OwnPush(f) else Push(thread, f))
      modifies this
      ensures View() == Next(old(View()), if isInLoopThread then OwnPush(f) else Push(thread, f)) && Valid()
      ensures wake == (!isInLoopThread || callingPendingFunctors)
    {
      NextKeeps(View(), if isInLoopThread then OwnPush(f) else Push(thread, f));
      pendingFunctors := pendingFunctors + [f];
      pushed := pushed + [f];
      wake := !isInLoopThread || callingPendingFunctors;
      if isInLoopThread {
        ownWakeup := wake;
      } else {
        notYetWoken := notYetWoken + {thread};
      }
    }

    method Wakeup(ghost isInLoopThread: bool, ghost thread: nat)
      requires Valid() && Enabled(View(), if isInLoopThread then OwnWake else Wake(thread))
      modifies this
      ensures View() == Next(old(View()), if isInLoopThread then OwnWake else Wake(thread)) && Valid()
    {
      NextKeeps(View(), if isInLoopThread then OwnWake else Wake(thread));
      wakeupCounter := wakeupCounter + 1;
      if isInLoopThread {
        ownWakeup := false;
      } else {
        notYetWoken := notYetWoken - {thread};
      }
    }

    method QuitFromThread(ghost thread: nat)
      requires Valid() && Enabled(View(), Quit(thread))
      modifies this
      ensures View() == Next(old(View()), Quit(thread)) && Valid()
    {
      NextKeeps(View(), Quit(thread));
      quit := true;
      notYetWoken := notYetWoken + {thread};
    }

    method QuitInLoopThread()
      requires Valid() && Enabled(View(), OwnQuit)
      modifies this
      ensures View() == Next(old(View()), OwnQuit) && Valid()
    {
      NextKeeps(View(), OwnQuit);
      quit := true;
    }

    method HandleRead()
      requires Valid() && Enabled(View(), ReadWakeup)
      modifies this
      ensures View() == Next(old(View()), ReadWakeup) && Valid()
    {
      NextKeeps(View(), ReadWakeup);
      wakeupCounter := 0;
      at := Handling(false);
    }

    /** doPendingFunctors up to its critical section. */
    method StartPendingFunctors()
      requires Valid() && Enabled(View(), StartPending)
      modifies this
      ensures View() == Next(old(View()), StartPending) && Valid()
    {
      NextKeeps(View(), StartPending);
      callingPendingFunctors := true;
      at := BeforeSwap;
    }

    /** The critical section of doPendingFunctors. */
    method SwapPending()
      requires Valid() && Enabled(View(), Swap)
      modifies this
      ensures View() == Next(old(View()), Swap) && Valid()
    {
      NextKeeps(View(), Swap);
      functors, pendingFunctors := pendingFunctors, functors;
      called := 0;
      at := Running;
    }

    method CallNext() returns (f: F)
      requires Valid() && Enabled(View(), Call)
      modifies this
      ensures View() == Next(old(View()), Call) && Valid() && old(View()).batch == [f] + View().batch
    {
      NextKeeps(View(), Call);
      f := functors[called];
      called := called + 1;
      started := started + [f];
    }

    /** The end of the loop of doPendingFunctors. */
    method EndPendingFunctors()
      requires Valid() && Enabled(View(), EndPending)
      modifies this
      ensures View() == Next(old(View()), EndPending) && Valid()
    {
      NextKeeps(View(), EndPending);
      callingPendingFunctors := false;
      at := Dropping;
    }

    /** The functors have been destroyed; the test of the main loop. */
    method TestLoop()
      requires Valid() && Enabled(View(), LoopTest)
      modifies this
      ensures View() == Next(old(View()), LoopTest) && Valid() && functors == []
    {
      NextKeeps(View(), LoopTest);
      functors, called := [], 0;
      at := if quit then Left else Polling;
    }

    method EnterMainLoop()
      requires Valid() && Enabled(View(), EnterLoop)
      modifies this
      ensures View() == Next(old(View()), EnterLoop) && Valid()
    {
      NextKeeps(View(), EnterLoop);
      at := if quit then Left else Polling;
    }

    /** poll comes back, with the wakeup channel among the active ones or not. */
    method PollReturned(wakeActive: bool)
      requires Valid() && Enabled(View(), PollReturns(wakeActive))
      modifies this
      ensures View() == Next(old(View()), PollReturns(wakeActive)) && Valid()
    {
      NextKeeps(View(), PollReturns(wakeActive));
      at := Handling(wakeActive);
      iteration := iteration + 1;
    }
  }
}
