/** One TCP connection in its loop thread: the life cycle and the output path. */
module TcpConnection {
  import opened Wrappers
  import B = Buffer

  datatype Phase = Connecting | Connected | Disconnecting | Disconnected

  /** What poll reports for the channel. */
  datatype Events = Events(hup: bool, readable: bool, urgent: bool, error: bool, writable: bool)

  /** The stages of handling one report: the close callback, then the read one, then the write one. */
  datatype Stage = AtClose | AtRead | AtWrite

  /** What a write to the socket did. Fault stands for EPIPE and ECONNRESET. */
  datatype WriteResult = Wrote(n: nat) | WouldBlock | Fault | OtherError

  // ---------- the channel and its place in the epoll set ----------

  /** Not known to the poller, in the epoll set, or known but taken out of the set. */
  datatype Index = New | Added | Deleted

  /** A channel: what it waits for, and the index that the poller keeps in it. */
  datatype Chan = Chan(reading: bool, writing: bool, index: Index)

  predicate Waits(c: Chan) { c.reading || c.writing }

  /** The poller's update of a channel: one that is in the set and waits for nothing any more is taken
      out; one that is not in the set is added, even if it waits for nothing. */
  function Updated(c: Chan): Chan { c.(index := if c.index == Added && !Waits(c) then Deleted else Added) }

  function Disabled(c: Chan): Chan { Updated(c.(reading := false, writing := false)) }

  // ---------- the state ----------

  /** wanted is the reading_ flag, event the report being handled, and inRound says that the loop handles
      the events of a poll that reported the channel, its own or, before or after, those of others. sent,
      taken and the counters are what has happened: bytes written, bytes accepted from sendInLoop, calls
      of the connection callback up and down, calls of the close callback, and write-side shutdowns.
      released says that the object is gone, and failed that an assert has fired; nothing happens after
      either. */
  datatype State = State(phase: Phase, chan: Chan, wanted: bool, out: string,
                         event: Option<(Events, Stage)>, inRound: bool,
                         shutdowns: nat, closeRequests: nat, delayedCloses: nat,
                         sent: string, taken: string, ups: nat, downs: nat, closes: nat,
                         halfCloses: nat, destroyed: bool, released: bool, failed: bool)

  function Init(): State {
    State(Connecting, Chan(false, false, New), true, "", None, false, 0, 0, 0, "", "", 0, 0, 0, 0,
          false, false, false)
  }

  // ---------- the handlers ----------

  function Established(s: State): State {
    s.(phase := Connected, chan := Updated(s.chan.(reading := true)), ups := s.ups + 1)
  }

  /** The loop handles the events of a poll that reported the channel, but at the moment those of others. */
  predicate OthersTurn(s: State) { s.inRound && (s.event.None? || s.event.value.1 == AtClose) }

  /** Removing the channel asserts that it waits for nothing, that the poller knows it, and that it is not
      among the channels of the round in progress, unless it is its turn. */
  function Removed(s: State): State {
    s.(destroyed := true, chan := s.chan.(index := New),
       failed := s.failed || Waits(s.chan) || s.chan.index == New || OthersTurn(s))
  }

  /** connectDestroyed. */
  function Destroyed(s: State): State {
    Removed(
      if s.phase == Connected then s.(phase := Disconnected, chan := Disabled(s.chan), downs := s.downs + 1) else s)
  }

  /** handleClose asserts that the connection is up. */
  function Closed(s: State): State {
    if s.phase == Connected || s.phase == Disconnecting then
      s.(phase := Disconnected, chan := Disabled(s.chan), downs := s.downs + 1, closes := s.closes + 1)
    else s.(failed := true)
  }

  function Buffered(s: State, rest: string): State {
    if rest == "" then s
    else s.(out := s.out + rest, chan := if s.chan.writing then s.chan else Updated(s.chan.(writing := true)))
  }

  predicate TriesDirectly(s: State) { !s.chan.writing && s.out == "" }

  function Sent(s: State, msg: string, w: WriteResult): State
    requires w.Wrote? ==> w.n <= |msg|
  {
    if s.phase == Disconnected then s
    else if TriesDirectly(s) then
      match w
      case Wrote(n) => Buffered(s.(sent := s.sent + msg[..n], taken := s.taken + msg), msg[n..])
      case Fault => s
      case WouldBlock => Buffered(s.(taken := s.taken + msg), msg)
      case OtherError => Buffered(s.(taken := s.taken + msg), msg)
    else Buffered(s.(taken := s.taken + msg), msg)
  }

  /** shutdownInLoop: the write side is shut down unless the channel is still writing. */
  function HalfClosed(s: State): State {
    if !s.chan.writing then s.(halfCloses := s.halfCloses + 1) else s
  }

  function Written(s: State, w: WriteResult): State
    requires w.Wrote? ==> w.n <= |s.out|
  {
    if s.chan.writing && w.Wrote? && w.n > 0 then
      var a := s.(sent := s.sent + s.out[..w.n], out := s.out[w.n..]);
      if a.out == "" then
        var b := a.(chan := Updated(a.chan.(writing := false)));
        if b.phase == Disconnecting then HalfClosed(b) else b
      else a
    else s
  }

  function StartedReading(s: State): State {
    if !s.wanted || !s.chan.reading then s.(wanted := true, chan := Updated(s.chan.(reading := true))) else s
  }

  function StoppedReading(s: State): State {
    if s.wanted || s.chan.reading then s.(wanted := false, chan := Updated(s.chan.(reading := false))) else s
  }

  predicate IsUp(s: State) { s.phase == Connected || s.phase == Disconnecting }

  /** The destructor asserts that the connection is down, and that of the channel that it was removed. */
  function Released(s: State): State {
    s.(released := true, failed := s.failed || s.phase != Disconnected || s.chan.index != New)
  }

  // ---------- the steps ----------

  datatype Action =
    | Establish
    | Destroy
    | Release              // the last owner lets go of the connection
    | Send(msg: string, w: WriteResult)
    | Shutdown             // the state change of shutdown()
    | RunShutdown          // its shutdownInLoop, at once or from the queue
    | ForceClose           // the state change of forceClose()
    | RunForceClose        // its forceCloseInLoop, from the queue
    | ForceCloseLater      // the state change of forceCloseWithDelay()
    | RunDelayedClose      // its forceCloseInLoop, from a timer
    | StartRead
    | StopRead
    | Report(ev: Events)
    | HandleClosePart
    | HandleReadPart(n: int)
    | HandleWritePart(w: WriteResult)
    | RoundOver            // all events of the poll have been handled

  predicate ClosesFirst(ev: Events) { ev.hup && !ev.readable }
  predicate Reads(ev: Events) { ev.readable || ev.urgent }

  predicate Live(s: State) { !s.failed && !s.released }

  /** The connection's own callbacks have been called in the report being handled. */
  predicate CalledBack(ev: Events, stage: Stage) {
    (stage == AtRead && ClosesFirst(ev)) || (stage == AtWrite && (ClosesFirst(ev) || Reads(ev)))
  }

  /** What the environment and the callers may do. Functors run when no events are being handled, but
      connectDestroyed and the calls of users also run at once, in a callback of this connection, of
      another one or of a timer. epoll reports hang-ups and errors of every channel in its set, the rest
      only of one that waits for it. A write after the write side was shut down gives EPIPE. */
  predicate Enabled(s: State, a: Action) {
    Live(s) &&
    match a
    case Establish => s.phase == Connecting
    case Destroy =>
      s.phase != Connecting && !s.destroyed
      && (s.event.None? || s.event.value.1 == AtClose || CalledBack(s.event.value.0, s.event.value.1))
    case Release => s.destroyed && s.event.None? && s.closeRequests == 0
    case Send(msg, w) =>
      s.phase != Connecting && (w.Wrote? ==> w.n <= |msg|)
      && (s.halfCloses > 0 && TriesDirectly(s) && msg != "" ==> w == Fault)
    case Shutdown => s.phase == Connected
    case RunShutdown => s.shutdowns > 0
    case ForceClose => IsUp(s)
    case RunForceClose => s.closeRequests > 0 && !s.inRound
    case ForceCloseLater => IsUp(s)
    case RunDelayedClose => s.delayedCloses > 0 && (s.event.None? || s.event.value.1 == AtClose)
    case StartRead => s.phase != Connecting
    case StopRead => s.phase != Connecting
    case Report(ev) =>
      !s.inRound && s.chan.index == Added
      && (Reads(ev) ==> s.chan.reading) && (ev.writable ==> s.chan.writing)
    case HandleClosePart => s.event.Some? && s.event.value.1 == AtClose
    case HandleReadPart(_) => s.event.Some? && s.event.value.1 == AtRead
    case HandleWritePart(w) => s.event.Some? && s.event.value.1 == AtWrite && (w.Wrote? ==> w.n <= |s.out|)
    case RoundOver => s.inRound && s.event.None?
  }

  function ClosedIfUp(s: State): State { if IsUp(s) then Closed(s) else s }

  function Next(s: State, a: Action): State
    requires Enabled(s, a)
  {
    match a
    case Establish => Established(s)
    case Destroy => Destroyed(s)
    case Release => Released(s)
    case Send(msg, w) => Sent(s, msg, w)
    case Shutdown => s.(phase := Disconnecting, shutdowns := s.shutdowns + 1)
    case RunShutdown => HalfClosed(s.(shutdowns := s.shutdowns - 1))
    case ForceClose => s.(phase := Disconnecting, closeRequests := s.closeRequests + 1)
    case RunForceClose => ClosedIfUp(s.(closeRequests := s.closeRequests - 1))
    case ForceCloseLater => s.(phase := Disconnecting, delayedCloses := s.delayedCloses + 1)
    case RunDelayedClose => ClosedIfUp(s.(delayedCloses := s.delayedCloses - 1))
    case StartRead => StartedReading(s)
    case StopRead => StoppedReading(s)
    case Report(ev) => Reported(s, ev)
    case HandleClosePart =>
      var ev := s.event.value.0;
      var t := s.(event := Some((ev, AtRead)));
      if ClosesFirst(ev) then Closed(t) else t
    case HandleReadPart(n) =>
      var ev := s.event.value.0;
      var t := s.(event := Some((ev, AtWrite)));
      if Reads(ev) && n == 0 then Closed(t) else t
    case HandleWritePart(w) =>
      var ev := s.event.value.0;
      var t := s.(event := None);
      if ev.writable then Written(t, w) else t
    case RoundOver => s.(inRound := false)
  }

  function Reported(s: State, ev: Events): State { s.(event := Some((ev, AtClose)), inRound := true) }

  // ---------- runs ----------

  ghost predicate Legal(s: State, acts: seq<Action>)
    decreases |acts|
  {
    acts == [] || (Enabled(s, acts[0]) && Legal(Next(s, acts[0]), acts[1..]))
  }

  ghost function Exec(s: State, acts: seq<Action>): State
    requires Legal(s, acts)
    decreases |acts|
  {
    if acts == [] then s else Exec(Next(s, acts[0]), acts[1..])
  }

  /** The run a then rest, one step at a time. */
  lemma Step(s: State, a: Action, rest: seq<Action>)
    requires Enabled(s, a) && Legal(Next(s, a), rest)
    ensures Legal(s, [a] + rest) && Exec(s, [a] + rest) == Exec(Next(s, a), rest)
  {
    assert ([a] + rest)[1..] == rest;
  }

  lemma {:induction false} RunSplits(s: State, acts: seq<Action>, k: nat)
    requires Legal(s, acts) && k <= |acts|
    ensures Legal(s, acts[..k]) && Legal(Exec(s, acts[..k]), acts[k..])
    ensures Exec(Exec(s, acts[..k]), acts[k..]) == Exec(s, acts)
    decreases k
  {
    hide Enabled, Next;
    if k == 0 {
      assert acts[..0] == [] && acts[0..] == acts;
    } else {
      RunSplits(Next(s, acts[0]), acts[1..], k - 1);
      assert acts[..k][0] == acts[0] && acts[..k][1..] == acts[1..][..k - 1];
      assert acts[k..] == acts[1..][k - 1..];
    }
  }

  // ---------- what every run keeps ----------

  function Rank(p: Phase): nat {
    match p case Connecting => 0 case Connected => 1 case Disconnecting => 2 case Disconnected => 3
  }

  /** The counts of the callbacks go with the phase, and the poller knows the channel from
      connectEstablished to connectDestroyed. */
  ghost predicate Counted(s: State) {
    && s.ups == (if s.phase == Connecting then 0 else 1)
    && s.downs == (if s.phase == Disconnected then 1 else 0) && s.closes <= s.downs
    && (s.phase == Connecting ==> !s.inRound && !s.destroyed && s.chan == Chan(false, false, New))
    && (s.event.Some? ==> s.inRound)
    && (s.phase != Connecting && !s.destroyed ==> s.chan.index != New)
  }

  /** An assert fires exactly when a close is handled while the connection is not up, a channel that
      still waits for something, or is among those of the round in progress but not at its turn, is removed,
      or the object goes while up or with its channel known. */
  predicate Fires(s: State, a: Action) {
    match a
    case HandleClosePart => s.event.Some? && ClosesFirst(s.event.value.0) && !IsUp(s)
    case HandleReadPart(n) => s.event.Some? && Reads(s.event.value.0) && n == 0 && !IsUp(s)
    case Destroy => (s.phase != Connected && Waits(s.chan)) || OthersTurn(s)
    case Release => s.phase != Disconnected || s.chan.index != New
    case _ => false
  }

  lemma NextCounted(s: State, a: Action)
    requires Counted(s) && Enabled(s, a)
    ensures Counted(Next(s, a)) && Rank(s.phase) <= Rank(Next(s, a).phase) && (Next(s, a).failed <==> Fires(s, a))
  {
    hide Sent, Written;
    match a
    case Send(msg, w) => SentChannel(s, msg, w);
    case HandleWritePart(w) => WrittenChannel(s.(event := None), w);
    case _ => OtherCounted(s, a);
  }

  /** The steps that may take the connection down. */
  predicate TakesDown(a: Action) {
    a.Destroy? || a.RunForceClose? || a.RunDelayedClose? || a.HandleClosePart? || a.HandleReadPart?
  }

  lemma OtherCounted(s: State, a: Action)
    requires Counted(s) && Enabled(s, a) && !a.Send? && !a.HandleWritePart?
    ensures Counted(Next(s, a)) && Rank(s.phase) <= Rank(Next(s, a).phase) && (Next(s, a).failed <==> Fires(s, a))
  {
    hide Sent, Written, TriesDirectly, CalledBack;
    if TakesDown(a) { DownCounted(s, a); }
  }

  lemma DownCounted(s: State, a: Action)
    requires Counted(s) && Enabled(s, a) && TakesDown(a)
    ensures Counted(Next(s, a)) && Rank(s.phase) <= Rank(Next(s, a).phase) && (Next(s, a).failed <==> Fires(s, a))
  {
    hide Sent, Written, TriesDirectly, CalledBack, ClosesFirst, Reads;
  }

  /** What sending does to everything but the bytes: it may make the channel wait to write. */
  lemma SentChannel(s: State, msg: string, w: WriteResult)
    requires w.Wrote? ==> w.n <= |msg|
    ensures
      var t := Sent(s, msg, w);
      && t == s.(out := t.out, sent := t.sent, taken := t.taken, chan := t.chan)
      && (t.chan == s.chan || (s.phase != Disconnected && t.chan == Updated(s.chan.(writing := true))))
  {
    hide Updated, Buffered, TriesDirectly;
    if w.Wrote? { BufferedIs(s.(sent := s.sent + msg[..w.n], taken := s.taken + msg), msg[w.n..]); }
    BufferedIs(s.(taken := s.taken + msg), msg);
  }

  lemma BufferedIs(s: State, rest: string)
    ensures
      var t := Buffered(s, rest);
      && t == s.(out := s.out + rest, chan := t.chan)
      && (t.chan == s.chan || t.chan == Updated(s.chan.(writing := true)))
  {
    hide Updated;
    assert s.out + "" == s.out;
  }

  /** What writing does to everything but the bytes: it may end the wait to write. */
  lemma WrittenChannel(s: State, w: WriteResult)
    requires w.Wrote? ==> w.n <= |s.out|
    ensures
      var t := Written(s, w);
      && t == s.(out := t.out, sent := t.sent, halfCloses := t.halfCloses, chan := t.chan)
      && (t.chan == s.chan || (s.chan.writing && t.chan == Updated(s.chan.(writing := false))))
  {
    hide Updated;
    if s.chan.writing && w.Wrote? && w.n > 0 {
      var a := s.(sent := s.sent + s.out[..w.n], out := s.out[w.n..]);
      assert a.out != "" ==> Written(s, w) == a;
    }
  }

  lemma {:induction false} ExecCounted(s: State, acts: seq<Action>)
    requires Counted(s) && Legal(s, acts)
    ensures Counted(Exec(s, acts)) && Rank(s.phase) <= Rank(Exec(s, acts).phase)
    decreases |acts|
  {
    hide Enabled, Next, Counted;
    if acts != [] {
      NextCounted(s, acts[0]);
      ExecCounted(Next(s, acts[0]), acts[1..]);
    }
  }

  lemma InitCounted()
    ensures Counted(Init()) && Live(Init())
  {
  }

  /** On every run, whatever mix of reads, hang-ups, closes and shutdowns: the phase has only moved
      forward, the connection callback was called once when up and once when down, and the close
      callback at most once. */
  lemma EveryRunLife(acts: seq<Action>)
    requires Legal(Init(), acts)
    ensures
      var s := Exec(Init(), acts);
      && s.ups <= 1 && s.downs <= 1 && s.closes <= s.downs
      && (s.phase == Connecting <==> s.ups == 0) && (s.phase == Disconnected <==> s.downs == 1)
    ensures forall k :: 0 <= k <= |acts| ==>
      Legal(Init(), acts[..k]) && Rank(Exec(Init(), acts[..k]).phase) <= Rank(Exec(Init(), acts).phase)
  {
    InitCounted();
    ExecCounted(Init(), acts);
    hide Enabled, Next;
    forall k | 0 <= k <= |acts|
      ensures Legal(Init(), acts[..k]) && Rank(Exec(Init(), acts[..k]).phase) <= Rank(Exec(Init(), acts).phase)
    {
      RunSplits(Init(), acts, k);
      ExecCounted(Init(), acts[..k]);
      ExecCounted(Exec(Init(), acts[..k]), acts[k..]);
    }
  }

  /** Step k of a run is one that makes an assert fire. */
  ghost predicate FiresAt(s: State, acts: seq<Action>, k: int) {
    0 <= k < |acts| && Legal(s, acts[..k]) && Fires(Exec(s, acts[..k]), acts[k])
  }

  /** On every run an assert has fired if and only if one of its steps met the guard. */
  lemma AssertFiresExactly(acts: seq<Action>)
    requires Legal(Init(), acts)
    ensures Exec(Init(), acts).failed <==> exists k :: FiresAt(Init(), acts, k)
  {
    InitCounted();
    FailsIffFires(Init(), acts);
  }

  lemma {:induction false} FailsIffFires(s: State, acts: seq<Action>)
    requires Counted(s) && !s.failed && Legal(s, acts)
    ensures Exec(s, acts).failed <==> exists k :: FiresAt(s, acts, k)
    decreases |acts|
  {
    hide Enabled, Next, Counted, Fires;
    if acts != [] {
      var t, rest := Next(s, acts[0]), acts[1..];
      NextCounted(s, acts[0]);
      assert acts[..0] == [];
      if t.failed {
        StopsWhenFailed(t, rest);
        assert FiresAt(s, acts, 0);
      } else {
        FailsIffFires(t, rest);
        forall k | 0 < k < |acts| ensures FiresAt(s, acts, k) <==> FiresAt(t, rest, k - 1) {
          assert acts[..k][0] == acts[0] && acts[..k][1..] == rest[..k - 1];
        }
        assert forall j :: FiresAt(t, rest, j) ==> FiresAt(s, acts, j + 1);
        assert !FiresAt(s, acts, 0);
      }
    }
  }

  lemma StopsWhenFailed(s: State, acts: seq<Action>)
    requires s.failed && Legal(s, acts)
    ensures acts == []
  {
  }

  // ---------- the byte stream ----------

  /** While the connection is not down: what was written and what is buffered is what was accepted,
      and the channel waits to write exactly when something is buffered. */
  ghost predicate Stream(s: State) {
    s.phase != Disconnected ==> s.sent + s.out == s.taken && (s.chan.writing <==> s.out != "")
  }

  lemma NextStream(s: State, a: Action)
    requires Stream(s) && Enabled(s, a)
    ensures Stream(Next(s, a))
  {
    hide Sent, Written;
    match a
    case Send(msg, w) => SentStream(s, msg, w);
    case HandleWritePart(w) => WrittenStream(s.(event := None), w);
    case _ => OthersKeepBytes(s, a);
  }

  lemma SentStream(s: State, msg: string, w: WriteResult)
    requires Stream(s) && (w.Wrote? ==> w.n <= |msg|)
    ensures Stream(Sent(s, msg, w))
  {
    if TriesDirectly(s) {
      if w.Wrote? { assert msg == msg[..w.n] + msg[w.n..]; }
      assert s.sent + "" == s.sent;
    } else {
      assert s.sent + (s.out + msg) == s.sent + s.out + msg;
    }
  }

  lemma WrittenStream(s: State, w: WriteResult)
    requires Stream(s) && (w.Wrote? ==> w.n <= |s.out|)
    ensures Stream(Written(s, w))
  {
    if w.Wrote? { assert s.out == s.out[..w.n] + s.out[w.n..]; }
  }

  /** While the connection is not down, its write side is shut down only when nothing is buffered. */
  lemma HalfCloseAfterDraining(s: State, a: Action)
    requires Stream(s) && s.phase != Disconnected && Enabled(s, a)
    ensures Next(s, a).halfCloses > s.halfCloses ==> Next(s, a).out == "" && Next(s, a).sent == Next(s, a).taken
  {
    hide Sent;
    NextStream(s, a);
    match a
    case Send(msg, w) => SentChannel(s, msg, w);
    case HandleWritePart(w) =>
    case RunShutdown =>
    case _ => OthersKeepBytes(s, a);
  }

  /** sendInLoop accepts a message whole, unless the connection is down or the socket is broken
      at a direct write, in which case it takes none of it and writes none of it. */
  lemma TakesAllOrNothing(s: State, msg: string, w: WriteResult)
    requires w.Wrote? ==> w.n <= |msg|
    ensures
      if s.phase == Disconnected || (TriesDirectly(s) && w == Fault) then Sent(s, msg, w) == s
      else Sent(s, msg, w).taken == s.taken + msg
  {
  }

  /** The byte stream is kept on every run; what was written and what was accepted only grow. */
  lemma {:induction false} StreamOnEveryRun(s: State, acts: seq<Action>)
    requires Stream(s) && Legal(s, acts)
    ensures Stream(Exec(s, acts)) && s.sent <= Exec(s, acts).sent && s.taken <= Exec(s, acts).taken
    decreases |acts|
  {
    hide Enabled, Next, Stream;
    if acts != [] {
      NextStream(s, acts[0]);
      OnlyMore(s, acts[0]);
      StreamOnEveryRun(Next(s, acts[0]), acts[1..]);
    }
  }

  lemma OnlyMore(s: State, a: Action)
    requires Enabled(s, a)
    ensures s.sent <= Next(s, a).sent && s.taken <= Next(s, a).taken
  {
    hide Sent, Written;
    match a
    case Send(msg, w) => SentMore(s, msg, w);
    case HandleWritePart(w) => WrittenMore(s.(event := None), w);
    case _ => OthersKeepBytes(s, a);
  }

  lemma SentMore(s: State, msg: string, w: WriteResult)
    requires w.Wrote? ==> w.n <= |msg|
    ensures s.sent <= Sent(s, msg, w).sent && s.taken <= Sent(s, msg, w).taken
  {
    hide Updated, Buffered, TriesDirectly;
    if w.Wrote? { BufferedIs(s.(sent := s.sent + msg[..w.n], taken := s.taken + msg), msg[w.n..]); }
    BufferedIs(s.(taken := s.taken + msg), msg);
  }

  lemma WrittenMore(s: State, w: WriteResult)
    requires w.Wrote? ==> w.n <= |s.out|
    ensures s.sent <= Written(s, w).sent && s.taken == Written(s, w).taken
  {
  }

  /** The other steps leave the bytes, and while the connection is not down they do not end a wait to write. */
  ghost predicate SameBytes(s: State, t: State) {
    && t.sent == s.sent && t.taken == s.taken && t.out == s.out
    && (s.phase == Disconnected ==> t.phase == Disconnected)
    && (t.phase != Disconnected ==> t.chan.writing == s.chan.writing)
  }

  lemma OthersKeepBytes(s: State, a: Action)
    requires Enabled(s, a) && !a.Send? && !a.HandleWritePart?
    ensures SameBytes(s, Next(s, a)) && (Next(s, a).halfCloses > s.halfCloses ==> a.RunShutdown?)
  {
    hide Sent, Written, TriesDirectly, CalledBack, ClosesFirst, Reads, OthersTurn;
    if TakesDown(a) { DownKeepsBytes(s, a); }
  }

  lemma DownKeepsBytes(s: State, a: Action)
    requires Enabled(s, a) && TakesDown(a)
    ensures SameBytes(s, Next(s, a)) && Next(s, a).halfCloses == s.halfCloses
  {
    hide Sent, Written, TriesDirectly, CalledBack, ClosesFirst, Reads, OthersTurn;
  }

  // ---------- after the write side is shut down ----------

  /** A connection that is down does not wait to write, and one that is up has nothing to write once its
      write side is shut down. */
  ghost predicate Quiet(s: State) {
    && (s.phase == Disconnected || s.halfCloses > 0 ==> !s.chan.writing)
    && (s.phase != Disconnected && s.halfCloses > 0 ==> s.out == "")
  }

  lemma NextQuiet(s: State, a: Action)
    requires Quiet(s) && Stream(s) && Enabled(s, a)
    ensures Quiet(Next(s, a)) && (s.halfCloses > 0 ==> Next(s, a).sent == s.sent)
    ensures s.halfCloses <= Next(s, a).halfCloses
  {
    hide Buffered;
    match a
    case Send(msg, w) => SentQuiet(s, msg, w);
    case HandleWritePart(w) => WrittenQuiet(s.(event := None), w);
    case _ => OthersQuiet(s, a);
  }

  lemma SentQuiet(s: State, msg: string, w: WriteResult)
    requires Quiet(s) && Enabled(s, Send(msg, w))
    ensures Quiet(Sent(s, msg, w)) && (s.halfCloses > 0 ==> Sent(s, msg, w).sent == s.sent)
    ensures s.halfCloses == Sent(s, msg, w).halfCloses
  {
    hide Sent;
    SentChannel(s, msg, w);
    if s.halfCloses > 0 { NotTaken(s, msg, w); }
  }

  lemma NotTaken(s: State, msg: string, w: WriteResult)
    requires Quiet(s) && Enabled(s, Send(msg, w)) && s.halfCloses > 0
    ensures Sent(s, msg, w) == s
  {
    assert msg == "" ==> s.sent + msg == s.sent && s.taken + msg == s.taken;
  }

  lemma WrittenQuiet(s: State, w: WriteResult)
    requires Quiet(s) && Stream(s) && (w.Wrote? ==> w.n <= |s.out|)
    ensures Quiet(Written(s, w)) && (s.halfCloses > 0 ==> Written(s, w).sent == s.sent)
    ensures s.halfCloses <= Written(s, w).halfCloses
  {
  }

  lemma OthersQuiet(s: State, a: Action)
    requires Quiet(s) && Stream(s) && Enabled(s, a) && !a.Send? && !a.HandleWritePart?
    ensures Quiet(Next(s, a)) && Next(s, a).sent == s.sent && s.halfCloses <= Next(s, a).halfCloses
  {
    hide Sent, Written, TriesDirectly, CalledBack, ClosesFirst, Reads, OthersTurn;
    if TakesDown(a) { DownQuiet(s, a); }
  }

  lemma DownQuiet(s: State, a: Action)
    requires Quiet(s) && Enabled(s, a) && TakesDown(a)
    ensures Quiet(Next(s, a)) && Next(s, a).sent == s.sent && s.halfCloses <= Next(s, a).halfCloses
  {
    hide Next, Enabled;
    DownKeepsBytes(s, a);
    DownStopsWriting(s, a);
  }

  lemma DownStopsWriting(s: State, a: Action)
    requires Quiet(s) && Enabled(s, a) && TakesDown(a)
    ensures Next(s, a).phase == Disconnected ==> !Next(s, a).chan.writing
  {
    hide Sent, Written, TriesDirectly, CalledBack, ClosesFirst, Reads, OthersTurn;
  }

  /** On every run: once the write side is shut down nothing more is written. */
  lemma {:induction false} NothingAfterHalfClose(s: State, acts: seq<Action>)
    requires Quiet(s) && Stream(s) && Legal(s, acts)
    ensures Quiet(Exec(s, acts)) && (s.halfCloses > 0 ==> Exec(s, acts).sent == s.sent)
    decreases |acts|
  {
    hide Enabled, Next, Stream, Quiet;
    if acts != [] {
      NextStream(s, acts[0]);
      NextQuiet(s, acts[0]);
      NothingAfterHalfClose(Next(s, acts[0]), acts[1..]);
    }
  }

  /** A message handed over right after shutdown() in the loop thread, which half-closes at once: it is
      taken if and only if output was waiting to be written. */
  lemma TakenAfterShutdown(s: State, msg: string, w: WriteResult)
    requires Stream(s) && Live(s) && s.phase == Connected && msg != ""
    ensures
      var t := Next(Next(s, Shutdown), RunShutdown);
      Enabled(t, Send(msg, w)) ==> (Next(t, Send(msg, w)).taken == s.taken + msg <==> s.chan.writing)
  {
    var t := Next(Next(s, Shutdown), RunShutdown);
    if Enabled(t, Send(msg, w)) { TakesAllOrNothing(t, msg, w); }
  }

  // ---------- a shutdown is followed by a half-close ----------

  /** A connection that is shutting down has shut down its write side, or will: shutdownInLoop is still to
      come, or something is still to be written. */
  ghost predicate Ending(s: State) {
    && (s.phase == Disconnecting || s.phase == Disconnected)
    && (s.phase == Disconnecting ==> s.shutdowns > 0 || s.chan.writing || s.halfCloses > 0)
  }

  lemma NextEnding(s: State, a: Action)
    requires Ending(s) && Enabled(s, a)
    ensures Ending(Next(s, a))
  {
    hide Sent, Written;
    match a
    case Send(msg, w) => SentChannel(s, msg, w);
    case HandleWritePart(w) => WrittenEnds(s.(event := None), w);
    case _ => OthersEnd(s, a);
  }

  lemma WrittenEnds(s: State, w: WriteResult)
    requires Ending(s) && (w.Wrote? ==> w.n <= |s.out|)
    ensures Ending(Written(s, w))
  {
  }

  lemma OthersEnd(s: State, a: Action)
    requires Ending(s) && Enabled(s, a) && !a.Send? && !a.HandleWritePart?
    ensures Ending(Next(s, a))
  {
    hide Sent, Written, TriesDirectly, CalledBack, ClosesFirst, Reads, OthersTurn;
    if TakesDown(a) { DownEnds(s, a); }
  }

  lemma DownEnds(s: State, a: Action)
    requires Ending(s) && Enabled(s, a) && TakesDown(a)
    ensures Ending(Next(s, a))
  {
    hide Sent, Written, TriesDirectly, CalledBack, ClosesFirst, Reads, OthersTurn;
  }

  lemma {:induction false} ExecEnding(s: State, acts: seq<Action>)
    requires Legal(s, acts) && (Ending(s) || Shutdown in acts)
    ensures Ending(Exec(s, acts))
    decreases |acts|
  {
    hide Enabled, Next, Ending;
    if acts != [] {
      if Ending(s) {
        NextEnding(s, acts[0]);
      } else if acts[0] == Shutdown {
        ShutdownEnds(s);
      } else {
        assert Shutdown in acts[1..];
      }
      ExecEnding(Next(s, acts[0]), acts[1..]);
    }
  }

  lemma ShutdownEnds(s: State)
    requires Enabled(s, Shutdown)
    ensures Ending(Next(s, Shutdown))
  {
  }

  /** On every run with a shutdown(): when shutdownInLoop has run and everything is written, the write side has
      been shut down, so that the peer gets its end of file, unless the connection is down. */
  lemma HalfCloseFollows(acts: seq<Action>)
    requires Legal(Init(), acts) && Shutdown in acts
    ensures
      var s := Exec(Init(), acts);
      s.phase == Disconnected || (s.phase == Disconnecting && (s.shutdowns == 0 && s.out == "" ==> s.halfCloses > 0))
  {
    ExecEnding(Init(), acts);
    StreamOnEveryRun(Init(), acts);
  }

  /** And the write side is shut down only after the connection has been asked to stop. */
  ghost predicate Asked(s: State) { s.shutdowns > 0 || s.halfCloses > 0 ==> Rank(s.phase) >= 2 }

  lemma NextAsked(s: State, a: Action)
    requires Asked(s) && Enabled(s, a)
    ensures Asked(Next(s, a))
  {
    hide Sent, Written;
    match a
    case Send(msg, w) => SentChannel(s, msg, w);
    case HandleWritePart(w) => WrittenAsked(s.(event := None), w);
    case _ =>
  }

  lemma WrittenAsked(s: State, w: WriteResult)
    requires Asked(s) && (w.Wrote? ==> w.n <= |s.out|)
    ensures Asked(Written(s, w))
  {
  }

  lemma {:induction false} AskedFrom(s: State, acts: seq<Action>)
    requires Asked(s) && Legal(s, acts)
    ensures Asked(Exec(s, acts))
    decreases |acts|
  {
    hide Enabled, Next, Asked;
    if acts != [] {
      NextAsked(s, acts[0]);
      AskedFrom(Next(s, acts[0]), acts[1..]);
    }
  }

  // ---------- what takes a connection down ----------

  /** Some step of the run meets the condition. */
  ghost predicate Meets(s: State, acts: seq<Action>, p: (State, Action) -> bool)
    requires Legal(s, acts)
    decreases |acts|
  {
    acts != [] && (p(s, acts[0]) || Meets(Next(s, acts[0]), acts[1..], p))
  }

  /** handleClose of a connection that is up: a hang-up without data, an end of file, or a forced close. */
  predicate Closes(s: State, a: Action) {
    IsUp(s) &&
    match a
    case RunForceClose => true
    case RunDelayedClose => true
    case HandleClosePart => s.event.Some? && s.event.value.0.hup && !s.event.value.0.readable
    case HandleReadPart(n) => s.event.Some? && (s.event.value.0.readable || s.event.value.0.urgent) && n == 0
    case _ => false
  }

  predicate Downs(s: State, a: Action) { Closes(s, a) || (a == Destroy && s.phase == Connected) }

  /** A connection stops taking strings to send: it is shut down, closed, or asked to close. */
  predicate Stops(s: State, a: Action) {
    Downs(s, a) || (s.phase == Connected && (a == Shutdown || a == ForceClose || a == ForceCloseLater))
  }

  lemma NextPhase(s: State, a: Action)
    requires Enabled(s, a)
    ensures
      var t := Next(s, a);
      && (t.phase == Disconnected <==> s.phase == Disconnected || Downs(s, a))
      && (t.closes == s.closes + if Closes(s, a) then 1 else 0)
      && (Rank(t.phase) >= 2 <==> Rank(s.phase) >= 2 || Stops(s, a))
  {
    hide Sent, Written;
    match a
    case Send(msg, w) => SentChannel(s, msg, w);
    case HandleWritePart(w) => WrittenChannel(s.(event := None), w);
    case _ => OtherPhase(s, a);
  }

  lemma OtherPhase(s: State, a: Action)
    requires Enabled(s, a) && !a.Send? && !a.HandleWritePart?
    ensures
      var t := Next(s, a);
      && (t.phase == Disconnected <==> s.phase == Disconnected || Downs(s, a))
      && (t.closes == s.closes + if Closes(s, a) then 1 else 0)
      && (Rank(t.phase) >= 2 <==> Rank(s.phase) >= 2 || Stops(s, a))
  {
    hide Sent, Written, TriesDirectly, CalledBack, OthersTurn, Updated;
    if TakesDown(a) { DownPhase(s, a); }
  }

  lemma DownPhase(s: State, a: Action)
    requires Enabled(s, a) && TakesDown(a)
    ensures
      var t := Next(s, a);
      && (t.phase == Disconnected <==> s.phase == Disconnected || Downs(s, a))
      && (t.closes == s.closes + if Closes(s, a) then 1 else 0)
      && (Rank(t.phase) >= 2 <==> Rank(s.phase) >= 2 || Stops(s, a))
  {
    hide Sent, Written, TriesDirectly, CalledBack, OthersTurn, Updated, Disabled, Closed, Destroyed;
    match a
    case Destroy => DestroyedPhase(s);
    case RunForceClose => ClosedPhase(s.(closeRequests := s.closeRequests - 1));
    case RunDelayedClose => ClosedPhase(s.(delayedCloses := s.delayedCloses - 1));
    case HandleClosePart => ClosedPhase(s.(event := Some((s.event.value.0, AtRead))));
    case HandleReadPart(_) => ClosedPhase(s.(event := Some((s.event.value.0, AtWrite))));
  }

  lemma ClosedPhase(s: State)
    ensures
      var t := Closed(s);
      if IsUp(s) then t.phase == Disconnected && t.closes == s.closes + 1
      else t.phase == s.phase && t.closes == s.closes
  {
    hide Disabled;
  }

  lemma DestroyedPhase(s: State)
    ensures Destroyed(s).phase == (if s.phase == Connected then Disconnected else s.phase)
    ensures Destroyed(s).closes == s.closes
  {
    hide Disabled, OthersTurn;
  }

  lemma {:induction false} PhaseIff(s: State, acts: seq<Action>)
    requires Legal(s, acts)
    ensures
      var t := Exec(s, acts);
      && (t.phase == Disconnected <==> s.phase == Disconnected || Meets(s, acts, Downs))
      && (t.closes > 0 <==> s.closes > 0 || Meets(s, acts, Closes))
      && (Rank(t.phase) >= 2 <==> Rank(s.phase) >= 2 || Meets(s, acts, Stops))
    decreases |acts|
  {
    hide Enabled, Next, Downs, Closes, Stops, Rank;
    if acts != [] {
      NextPhase(s, acts[0]);
      PhaseIff(Next(s, acts[0]), acts[1..]);
    }
  }

  /** On every run the connection is down if and only if some step took it down; the close callback was called if
      and only if that was a close; and it is shutting down or down if and only if some step stopped it. */
  lemma DownIff(acts: seq<Action>)
    requires Legal(Init(), acts)
    ensures Exec(Init(), acts).phase == Disconnected <==> Meets(Init(), acts, Downs)
    ensures Exec(Init(), acts).closes == 1 <==> Meets(Init(), acts, Closes)
    ensures Rank(Exec(Init(), acts).phase) >= 2 <==> Meets(Init(), acts, Stops)
  {
    PhaseIff(Init(), acts);
    EveryRunLife(acts);
  }

  /** On every run the write side is shut down, or about to be, only after a step that stopped the connection. */
  lemma HalfCloseOnlyAsked(acts: seq<Action>)
    requires Legal(Init(), acts) && (Exec(Init(), acts).shutdowns > 0 || Exec(Init(), acts).halfCloses > 0)
    ensures Meets(Init(), acts, Stops)
  {
    AskedFrom(Init(), acts);
    DownIff(acts);
    hide Exec, Legal, Meets;
  }

  // ---------- what is asked for is done once ----------

  function Times(acts: seq<Action>, a: Action): nat {
    if acts == [] then 0 else (if acts[0] == a then 1 else 0) + Times(acts[1..], a)
  }

  /** On every run the half-closes, the forced closes and the delayed ones that are still to come are those asked for
      without those that have been run. */
  lemma {:induction false} RequestsPending(s: State, acts: seq<Action>)
    requires Legal(s, acts)
    ensures
      var t := Exec(s, acts);
      && t.shutdowns + Times(acts, RunShutdown) == s.shutdowns + Times(acts, Shutdown)
      && t.closeRequests + Times(acts, RunForceClose) == s.closeRequests + Times(acts, ForceClose)
      && t.delayedCloses + Times(acts, RunDelayedClose) == s.delayedCloses + Times(acts, ForceCloseLater)
    decreases |acts|
  {
    hide Enabled, Next;
    if acts != [] {
      NextPending(s, acts[0]);
      RequestsPending(Next(s, acts[0]), acts[1..]);
    }
  }

  predicate Counts(now: nat, before: nat, asked: bool, run: bool) {
    now + (if run then 1 else 0) == before + (if asked then 1 else 0)
  }

  lemma NextPending(s: State, a: Action)
    requires Enabled(s, a)
    ensures
      var t := Next(s, a);
      && Counts(t.shutdowns, s.shutdowns, a == Shutdown, a == RunShutdown)
      && Counts(t.closeRequests, s.closeRequests, a == ForceClose, a == RunForceClose)
      && Counts(t.delayedCloses, s.delayedCloses, a == ForceCloseLater, a == RunDelayedClose)
  {
    hide Sent, Written, Updated, Disabled;
    match a
    case Send(msg, w) => SentChannel(s, msg, w);
    case HandleWritePart(w) => WrittenChannel(s.(event := None), w);
    case _ =>
  }

  // ---------- reading, and the bytes written ----------

  /** Whether reading was started, or begun with, after the last stop. */
  function LastStarted(acts: seq<Action>, before: bool): bool {
    if acts == [] then before
    else LastStarted(acts[1..], if acts[0] == StartRead then true else if acts[0] == StopRead then false else before)
  }

  lemma NextReading(s: State, a: Action)
    requires Enabled(s, a) && (IsUp(s) ==> s.chan.reading == s.wanted) && (s.phase == Connecting ==> s.wanted)
    ensures Next(s, a).wanted == LastStarted([a], s.wanted)
    ensures IsUp(Next(s, a)) ==> Next(s, a).chan.reading == Next(s, a).wanted
    ensures Next(s, a).phase == Connecting ==> Next(s, a).wanted
  {
    hide Sent, Written;
    match a
    case Send(msg, w) => SentChannel(s, msg, w);
    case HandleWritePart(w) => WrittenChannel(s.(event := None), w);
    case _ =>
  }

  lemma {:induction false} ReadingFrom(s: State, acts: seq<Action>)
    requires Legal(s, acts) && (IsUp(s) ==> s.chan.reading == s.wanted) && (s.phase == Connecting ==> s.wanted)
    ensures Exec(s, acts).wanted == LastStarted(acts, s.wanted)
    ensures IsUp(Exec(s, acts)) ==> Exec(s, acts).chan.reading == LastStarted(acts, s.wanted)
    decreases |acts|
  {
    hide Enabled, Next;
    if acts != [] {
      NextReading(s, acts[0]);
      ReadingFrom(Next(s, acts[0]), acts[1..]);
    }
  }

  /** On every run an up connection reads unless the last of startRead and stopRead was the latter. */
  lemma ReadingOnEveryRun(acts: seq<Action>)
    requires Legal(Init(), acts)
    ensures IsUp(Exec(Init(), acts)) ==> Exec(Init(), acts).chan.reading == LastStarted(acts, true)
  {
    ReadingFrom(Init(), acts);
  }

  /** How many bytes the socket takes in a step. */
  function WroteBy(s: State, a: Action): nat {
    match a
    case Send(_, Wrote(n)) => if s.phase != Disconnected && s.out == "" && !s.chan.writing then n else 0
    case HandleWritePart(Wrote(n)) => if s.event.Some? && s.event.value.0.writable && s.chan.writing then n else 0
    case _ => 0
  }

  ghost function WroteInAll(s: State, acts: seq<Action>): nat
    requires Legal(s, acts)
    decreases |acts|
  {
    if acts == [] then 0 else WroteBy(s, acts[0]) + WroteInAll(Next(s, acts[0]), acts[1..])
  }

  lemma NextWrites(s: State, a: Action)
    requires Stream(s) && Quiet(s) && s.sent <= s.taken && Enabled(s, a)
    ensures |Next(s, a).sent| == |s.sent| + WroteBy(s, a) && Next(s, a).sent <= Next(s, a).taken
  {
    hide Sent, Written;
    match a
    case Send(msg, w) => SentWrites(s, msg, w);
    case HandleWritePart(w) => WrittenWrites(s.(event := None), w);
    case _ => OthersKeepBytes(s, a);
  }

  lemma SentWrites(s: State, msg: string, w: WriteResult)
    requires Stream(s) && s.sent <= s.taken && (w.Wrote? ==> w.n <= |msg|)
    ensures
      var t := Sent(s, msg, w);
      |t.sent| == |s.sent| + WroteBy(s, Send(msg, w)) && t.sent <= t.taken
  {
    hide Buffered;
    if w.Wrote? {
      BufferedIs(s.(sent := s.sent + msg[..w.n], taken := s.taken + msg), msg[w.n..]);
      assert msg == msg[..w.n] + msg[w.n..];
      assert s.taken + msg == (s.taken + msg[..w.n]) + msg[w.n..];
    }
    BufferedIs(s.(taken := s.taken + msg), msg);
    assert s.phase != Disconnected && s.out == "" ==> s.sent == s.taken by { assert s.sent + "" == s.sent; }
  }

  lemma WrittenWrites(s: State, w: WriteResult)
    requires Stream(s) && s.sent <= s.taken && (s.phase == Disconnected ==> !s.chan.writing)
    requires w.Wrote? ==> w.n <= |s.out|
    ensures
      var t := Written(s, w);
      && |t.sent| == |s.sent| + (if s.chan.writing && w.Wrote? then w.n else 0)
      && t.taken == s.taken && t.sent <= t.taken
  {
    if s.chan.writing && w.Wrote? { assert s.taken == s.sent + s.out[..w.n] + s.out[w.n..]; }
  }

  lemma {:induction false} WritesFrom(s: State, acts: seq<Action>)
    requires Stream(s) && Quiet(s) && s.sent <= s.taken && Legal(s, acts)
    ensures |Exec(s, acts).sent| == |s.sent| + WroteInAll(s, acts) && Exec(s, acts).sent <= Exec(s, acts).taken
    decreases |acts|
  {
    hide Enabled, Next, Stream, WroteBy, Quiet;
    if acts != [] {
      NextStream(s, acts[0]);
      NextQuiet(s, acts[0]);
      NextWrites(s, acts[0]);
      WritesFrom(Next(s, acts[0]), acts[1..]);
    }
  }

  /** On every run what was written is in front of what was accepted, and is as long as the socket took in all. */
  lemma WritesOnEveryRun(acts: seq<Action>)
    requires Legal(Init(), acts)
    ensures |Exec(Init(), acts).sent| == WroteInAll(Init(), acts)
    ensures Exec(Init(), acts).sent <= Exec(Init(), acts).taken
  {
    WritesFrom(Init(), acts);
  }

  // ---------- runs on which no assert fires ----------

  /** The report being handled can still close the connection. */
  predicate MayClose(s: State) {
    s.event.Some? &&
    var (ev, stage) := s.event.value;
    (stage == AtClose && ClosesFirst(ev)) || (stage != AtWrite && Reads(ev))
  }

  /** What a run without failing asserts relies on. Reading is neither started nor stopped after the
      close, nor stopped, with nothing buffered, between poll and the handling of the connection's own
      closing report. poll reports no hang-up with urgent data but nothing readable. connectDestroyed
      does not come while the connection is shutting down, nor, in a round of events that reported the
      channel, at the turn of another channel. No forced close finds the channel waiting for
      nothing, and a delayed one does not come between poll and the handling of a closing report. */
  predicate Orderly(s: State, a: Action) {
    match a
    case StartRead => s.phase != Disconnected
    case StopRead => if s.phase == Disconnected then !s.wanted && !s.chan.reading else MayClose(s) ==> s.chan.writing
    case Report(ev) => !(ev.hup && ev.urgent && !ev.readable)
    case Destroy => s.phase != Disconnecting && !OthersTurn(s)
    case RunForceClose => IsUp(s) ==> Waits(s.chan)
    case RunDelayedClose => IsUp(s) ==> Waits(s.chan) && !MayClose(s)
    case _ => true
  }

  /** No assert has fired, and none can: the channel is in the epoll set exactly while it waits for
      something, so that a connection that is down gets no report. */
  ghost predicate Calm(s: State) {
    && !s.failed && Counted(s)
    && (s.phase == Connecting ==> s.wanted)
    && (IsUp(s) ==> !s.destroyed && s.wanted == s.chan.reading && (s.chan.index == Added <==> Waits(s.chan)))
    && (s.phase == Disconnected ==> !Waits(s.chan) && s.chan.index != Added && (s.destroyed ==> s.chan.index == New))
    && (s.event.Some? ==>
          var (ev, stage) := s.event.value;
          !(ev.hup && ev.urgent && !ev.readable) && (stage != AtClose && ClosesFirst(ev) ==> s.phase == Disconnected))
    && (MayClose(s) ==> IsUp(s) && s.chan.index == Added)
  }

  lemma NextCalm(s: State, a: Action)
    requires Calm(s) && Enabled(s, a) && Orderly(s, a)
    ensures Calm(Next(s, a))
  {
    hide Sent, Written;
    match a
    case Send(msg, w) => SentChannel(s, msg, w);
    case HandleWritePart(w) => WrittenChannel(s.(event := None), w);
    case _ => OtherCalm(s, a);
  }

  lemma OtherCalm(s: State, a: Action)
    requires Calm(s) && Enabled(s, a) && Orderly(s, a) && !a.Send? && !a.HandleWritePart?
    ensures Calm(Next(s, a))
  {
    hide Counted;
    NextCounted(s, a);
    CountedFacts(s);
  }

  lemma CountedFacts(s: State)
    requires Counted(s)
    ensures s.phase == Connecting ==> !s.inRound && !s.destroyed && s.chan == Chan(false, false, New)
    ensures s.event.Some? ==> s.inRound
    ensures s.phase != Connecting && !s.destroyed ==> s.chan.index != New
  {
  }

  ghost predicate OrderlyRun(s: State, acts: seq<Action>)
    requires Legal(s, acts)
    decreases |acts|
  {
    acts == [] || (Orderly(s, acts[0]) && OrderlyRun(Next(s, acts[0]), acts[1..]))
  }

  lemma {:induction false} ExecCalm(s: State, acts: seq<Action>)
    requires Calm(s) && Legal(s, acts) && OrderlyRun(s, acts)
    ensures Calm(Exec(s, acts))
    decreases |acts|
  {
    hide Enabled, Next, Calm, Orderly;
    if acts != [] {
      NextCalm(s, acts[0]);
      ExecCalm(Next(s, acts[0]), acts[1..]);
    }
  }

  /** On every orderly run no assert fires, and a connection that is down is not in the epoll set. */
  lemma OrderlyLife(acts: seq<Action>)
    requires Legal(Init(), acts) && OrderlyRun(Init(), acts)
    ensures Calm(Exec(Init(), acts)) && !Exec(Init(), acts).failed
    ensures Exec(Init(), acts).phase == Disconnected ==> Exec(Init(), acts).chan.index != Added
  {
    InitCounted();
    ExecCalm(Init(), acts);
  }

  // ---------- after any disorderly step an assert can fire ----------

  const HUP_REPORT := Events(true, false, false, false, false)
  const EOF_REPORT := Events(false, true, false, false, false)

  /** Steps that nobody has to call any more: reports and their handling, a queued forced close, and
      the end of the object. */
  predicate OnItsOwn(a: Action) {
    a.Report? || a.HandleClosePart? || a.HandleReadPart? || a.HandleWritePart? || a.RoundOver?
    || a.RunForceClose? || a.Release?
  }

  /** Such steps lead to a failing assert. */
  ghost predicate Fails(s: State, acts: seq<Action>) {
    Legal(s, acts) && Exec(s, acts).failed && forall a <- acts :: OnItsOwn(a)
  }

  lemma FailsAfter(s: State, a: Action, rest: seq<Action>)
    requires Enabled(s, a) && OnItsOwn(a) && Fails(Next(s, a), rest)
    ensures Fails(s, [a] + rest)
  {
    hide Enabled, Next, OnItsOwn;
    Step(s, a, rest);
  }

  ghost predicate Exposed(s: State) { exists acts :: Fails(s, acts) }

  lemma ExposedBy(s: State, a: Action)
    requires Enabled(s, a) && OnItsOwn(a) && Exposed(Next(s, a))
    ensures Exposed(s)
  {
    var rest :| Fails(Next(s, a), rest);
    FailsAfter(s, a, rest);
  }

  lemma ExposedNow(s: State)
    requires s.failed
    ensures Exposed(s)
  {
    assert Fails(s, []);
  }

  lemma RoundOverExposes(s: State)
    requires Live(s) && s.event.None? && Exposed(s.(inRound := false))
    ensures Exposed(s)
  {
    if s.inRound {
      assert Enabled(s, RoundOver) && Next(s, RoundOver) == s.(inRound := false);
      ExposedBy(s, RoundOver);
    } else {
      assert s.(inRound := false) == s;
    }
  }

  /** A connection that is down, in the epoll set and not handling a report: its hang-up is handled. */
  lemma HangUpExposes(s: State)
    requires Live(s) && s.phase == Disconnected && s.chan.index == Added && s.event.None?
    ensures Exposed(s)
  {
    var t := s.(inRound := false);
    assert Enabled(t, Report(HUP_REPORT));
    ClosingExposes(Reported(t, HUP_REPORT));
    ExposedBy(t, Report(HUP_REPORT));
    RoundOverExposes(s);
  }

  /** A closing report of a connection that is down. */
  lemma ClosingExposes(s: State)
    requires Live(s) && s.phase == Disconnected && MayClose(s)
    ensures Exposed(s)
  {
    if s.event.value.1 == AtRead {
      assert Enabled(s, HandleReadPart(0));
      ExposedNow(Next(s, HandleReadPart(0)));
      ExposedBy(s, HandleReadPart(0));
    } else {
      var t := Next(s, HandleClosePart);
      if t.failed {
        ExposedNow(t);
      } else {
        assert Enabled(t, HandleReadPart(0));
        ExposedNow(Next(t, HandleReadPart(0)));
        ExposedBy(t, HandleReadPart(0));
      }
      ExposedBy(s, HandleClosePart);
    }
  }

  /** A connection that is down and in the epoll set, at any stage of handling a report. */
  lemma DownInSetExposes(s: State)
    requires Live(s) && s.phase == Disconnected && s.chan.index == Added && !s.chan.writing
    ensures Exposed(s)
  {
    if s.event.None? {
      HangUpExposes(s);
    } else if MayClose(s) {
      ClosingExposes(s);
    } else {
      AtWriteExposes(s.(event := Some((s.event.value.0, AtWrite))));
      if s.event.value.1 == AtRead {
        ReadPartPasses(s);
      } else if s.event.value.1 == AtClose {
        var t := Next(s, HandleClosePart);
        assert t == s.(event := Some((s.event.value.0, AtRead)));
        ReadPartPasses(t);
        ExposedBy(s, HandleClosePart);
      }
    }
  }

  lemma ReadPartPasses(s: State)
    requires Live(s) && s.event.Some? && s.event.value.1 == AtRead
      && Exposed(s.(event := Some((s.event.value.0, AtWrite))))
    ensures Exposed(s)
  {
    assert Enabled(s, HandleReadPart(1)) && Next(s, HandleReadPart(1)) == s.(event := Some((s.event.value.0, AtWrite)));
    ExposedBy(s, HandleReadPart(1));
  }

  lemma AtWriteExposes(s: State)
    requires Live(s) && s.phase == Disconnected && s.chan.index == Added && !s.chan.writing
    requires s.event.Some? && s.event.value.1 == AtWrite
    ensures Exposed(s)
  {
    assert Enabled(s, HandleWritePart(WouldBlock)) && Next(s, HandleWritePart(WouldBlock)) == s.(event := None);
    HangUpExposes(s.(event := None));
    ExposedBy(s, HandleWritePart(WouldBlock));
  }

  /** A connection that is up and waits for nothing is put into the epoll set by its close. */
  lemma CloseOutsideSet(s: State)
    requires Live(s) && IsUp(s) && s.chan.index != Added
    ensures
      var t := Closed(s);
      t.phase == Disconnected && t.chan == Chan(false, false, Added) && t.event == s.event && Live(t)
  {
  }

  /** Every step that is not orderly, taken in a state that an orderly run can reach, is enough: steps that
      nobody has to call then make an assert fire. */
  lemma DisorderExposes(s: State, a: Action)
    requires Calm(s) && Enabled(s, a) && !Orderly(s, a)
    ensures Exposed(Next(s, a))
  {
    match a
    case StartRead => DownInSetExposes(Next(s, a));
    case StopRead => StopExposes(s);
    case Report(_) => UrgentHangUpExposes(s, a);
    case Destroy => DestroyExposes(s);
    case RunForceClose => DownInSetExposes(Next(s, a));
    case RunDelayedClose => DelayedExposes(s);
  }

  lemma StopExposes(s: State)
    requires Calm(s) && Enabled(s, StopRead) && !Orderly(s, StopRead)
    ensures Exposed(Next(s, StopRead))
  {
    var t := Next(s, StopRead);
    if s.phase == Disconnected {
      DownInSetExposes(t);
    } else {
      assert t == s.(wanted := false, chan := Chan(false, false, Deleted));
      ClosingOutsideSet(t);
    }
  }

  /** A closing report of a connection that is up and waits for nothing. */
  lemma ClosingOutsideSet(s: State)
    requires Live(s) && IsUp(s) && s.chan == Chan(false, false, Deleted) && MayClose(s)
    ensures Exposed(s)
    decreases if s.event.value.1 == AtClose then 1 else 0
  {
    var (ev, stage) := s.event.value;
    if stage == AtRead {
      assert Enabled(s, HandleReadPart(0));
      CloseOutsideSet(s.(event := Some((ev, AtWrite))));
      DownInSetExposes(Next(s, HandleReadPart(0)));
      ExposedBy(s, HandleReadPart(0));
    } else if ClosesFirst(ev) {
      CloseOutsideSet(s.(event := Some((ev, AtRead))));
      DownInSetExposes(Next(s, HandleClosePart));
      ExposedBy(s, HandleClosePart);
    } else {
      var t := Next(s, HandleClosePart);
      assert t == s.(event := Some((ev, AtRead)));
      ClosingOutsideSet(t);
      ExposedBy(s, HandleClosePart);
    }
  }

  lemma UrgentHangUpExposes(s: State, a: Action)
    requires Calm(s) && Enabled(s, a) && a.Report? && !Orderly(s, a)
    ensures Exposed(Next(s, a))
  {
    var t := Next(s, a);
    var u := Next(t, HandleClosePart);
    assert u.phase == Disconnected && u.event == Some((a.ev, AtRead)) && Live(u);
    ClosingExposes(u);
    ExposedBy(t, HandleClosePart);
  }

  lemma DestroyExposes(s: State)
    requires Calm(s) && Enabled(s, Destroy) && !Orderly(s, Destroy)
    ensures Exposed(Next(s, Destroy))
  {
    var t := Next(s, Destroy);
    if OthersTurn(s) || Waits(s.chan) {
      ExposedNow(t);
    } else if t.event.Some? {
      RemovedWhileUp(t.(event := None));
      assert Enabled(t, HandleWritePart(WouldBlock)) && Next(t, HandleWritePart(WouldBlock)) == t.(event := None);
      ExposedBy(t, HandleWritePart(WouldBlock));
    } else {
      RemovedWhileUp(t);
    }
  }

  /** A connection that was destroyed while shutting down. */
  lemma RemovedWhileUp(s: State)
    requires Live(s) && s.phase == Disconnecting && s.chan == Chan(false, false, New) && s.destroyed && s.event.None?
    ensures Exposed(s)
  {
    if s.closeRequests == 0 {
      ExposedNow(Next(s, Release));
      ExposedBy(s, Release);
    } else {
      var t := s.(inRound := false);
      CloseOutsideSet(t.(closeRequests := t.closeRequests - 1));
      DownInSetExposes(Next(t, RunForceClose));
      ExposedBy(t, RunForceClose);
      RoundOverExposes(s);
    }
  }

  lemma DelayedExposes(s: State)
    requires Calm(s) && Enabled(s, RunDelayedClose) && IsUp(s) && (!Waits(s.chan) || MayClose(s))
    ensures Exposed(Next(s, RunDelayedClose))
  {
    var t := Next(s, RunDelayedClose);
    if MayClose(s) {
      ClosingExposes(t);
    } else {
      CloseOutsideSet(s.(delayedCloses := s.delayedCloses - 1));
      DownInSetExposes(t);
    }
  }

  /** A run that is not orderly comes to a point from where steps on their own make an assert fire. */
  lemma {:induction false} DisorderlyRunExposed(s: State, acts: seq<Action>) returns (k: nat)
    requires Calm(s) && Legal(s, acts) && !OrderlyRun(s, acts)
    ensures k < |acts| && Legal(s, acts[..k + 1]) && Exposed(Exec(s, acts[..k + 1]))
    decreases |acts|
  {
    hide Enabled, Next, Calm, Orderly, Exposed;
    var a := acts[0];
    if Orderly(s, a) {
      NextCalm(s, a);
      var j := DisorderlyRunExposed(Next(s, a), acts[1..]);
      k := j + 1;
      assert acts[..k + 1] == [a] + acts[1..][..k];
      Step(s, a, acts[1..][..k]);
    } else {
      k := 0;
      DisorderExposes(s, a);
      assert acts[..1] == [a] + [];
      Step(s, a, []);
    }
  }

  // ---------- runs that show it ----------

  lemma {:induction false} OneMore(s: State, acts: seq<Action>, a: Action, t: State)
    requires Legal(s, acts) && Enabled(Exec(s, acts), a) && Next(Exec(s, acts), a) == t
    ensures Legal(s, acts + [a]) && Exec(s, acts + [a]) == t
    decreases |acts|
  {
    hide Enabled, Next;
    if acts == [] {
      assert acts + [a] == [a] + [];
    } else {
      OneMore(Next(s, acts[0]), acts[1..], a, t);
      assert (acts + [a])[1..] == acts[1..] + [a];
    }
  }

  /** Up and reading, up and not reading, closed while reading, and closed while not reading. */
  const UP := Init().(phase := Connected, chan := Chan(true, false, Added), ups := 1)
  const STOPPED := UP.(wanted := false, chan := Chan(false, false, Deleted))
  const CLOSED := UP.(phase := Disconnected, chan := Chan(false, false, Deleted), downs := 1, closes := 1)
  const BACK_IN_SET := STOPPED.(phase := Disconnected, chan := Chan(false, false, Added), downs := 1, closes := 1)

  lemma Upped()
    ensures Legal(Init(), [Establish]) && Exec(Init(), [Establish]) == UP
  {
    OneMore(Init(), [], Establish, UP);
  }

  lemma ForcedClosed()
    ensures Legal(Init(), [Establish, ForceClose, RunForceClose])
    ensures Exec(Init(), [Establish, ForceClose, RunForceClose]) == CLOSED
  {
    hide Legal, Exec;
    Upped();
    var asked := UP.(phase := Disconnecting, closeRequests := 1);
    OneMore(Init(), [Establish], ForceClose, asked);
    assert [Establish] + [ForceClose] == [Establish, ForceClose];
    OneMore(Init(), [Establish, ForceClose], RunForceClose, CLOSED);
    assert [Establish, ForceClose] + [RunForceClose] == [Establish, ForceClose, RunForceClose];
  }

  /** The close of a connection that has stopped reading puts it back into the epoll set, where it
      waits for nothing; a hang-up is reported all the same and closes it again. */
  lemma ClosedWhileNotReading()
    ensures
      var acts := [Establish, StopRead, ForceClose, RunForceClose, Report(HUP_REPORT), HandleClosePart];
      Legal(Init(), acts) && Exec(Init(), acts).failed
  {
    hide Legal, Exec;
    ForcedClosedNotReading();
    HangUpFails([Establish, StopRead, ForceClose, RunForceClose], BACK_IN_SET);
    assert [Establish, StopRead, ForceClose, RunForceClose] + [Report(HUP_REPORT)] + [HandleClosePart] ==
      [Establish, StopRead, ForceClose, RunForceClose, Report(HUP_REPORT), HandleClosePart];
  }

  lemma ForcedClosedNotReading()
    ensures Legal(Init(), [Establish, StopRead, ForceClose, RunForceClose])
    ensures Exec(Init(), [Establish, StopRead, ForceClose, RunForceClose]) == BACK_IN_SET
  {
    hide Legal, Exec;
    StoppedReadingUp();
    var asked := STOPPED.(phase := Disconnecting, closeRequests := 1);
    OneMore(Init(), [Establish, StopRead], ForceClose, asked);
    assert [Establish, StopRead] + [ForceClose] == [Establish, StopRead, ForceClose];
    OneMore(Init(), [Establish, StopRead, ForceClose], RunForceClose, BACK_IN_SET);
    assert [Establish, StopRead, ForceClose] + [RunForceClose] == [Establish, StopRead, ForceClose, RunForceClose];
  }

  lemma StoppedReadingUp()
    ensures Legal(Init(), [Establish, StopRead]) && Exec(Init(), [Establish, StopRead]) == STOPPED
  {
    hide Legal, Exec;
    Upped();
    OneMore(Init(), [Establish], StopRead, STOPPED);
    assert [Establish] + [StopRead] == [Establish, StopRead];
  }

  lemma HangUpFails(acts: seq<Action>, s: State)
    requires Legal(Init(), acts) && Exec(Init(), acts) == s
    requires Live(s) && s.phase == Disconnected && s.chan.index == Added && !s.inRound
    ensures
      var all := acts + [Report(HUP_REPORT)] + [HandleClosePart];
      Legal(Init(), all) && Exec(Init(), all).failed
  {
    hide Legal, Exec;
    var t := Reported(s, HUP_REPORT);
    OneMore(Init(), acts, Report(HUP_REPORT), t);
    OneMore(Init(), acts + [Report(HUP_REPORT)], HandleClosePart, Next(t, HandleClosePart));
  }

  /** So does stopping to read after the close, because the close leaves the reading_ flag as it was. */
  lemma StoppedAfterClose()
    ensures
      var acts := [Establish, ForceClose, RunForceClose, StopRead, Report(HUP_REPORT), HandleClosePart];
      Legal(Init(), acts) && Exec(Init(), acts).failed
  {
    hide Legal, Exec;
    ForcedClosed();
    var stopped := CLOSED.(wanted := false, chan := Chan(false, false, Added));
    OneMore(Init(), [Establish, ForceClose, RunForceClose], StopRead, stopped);
    assert [Establish, ForceClose, RunForceClose] + [StopRead] == [Establish, ForceClose, RunForceClose, StopRead];
    HangUpFails([Establish, ForceClose, RunForceClose, StopRead], stopped);
    assert [Establish, ForceClose, RunForceClose, StopRead] + [Report(HUP_REPORT)] + [HandleClosePart] ==
      [Establish, ForceClose, RunForceClose, StopRead, Report(HUP_REPORT), HandleClosePart];
  }

  /** An end of file handled while the connection is down fires the assert of handleClose. */
  lemma EofFails(acts: seq<Action>, s: State)
    requires Legal(Init(), acts) && Exec(Init(), acts) == s
    requires Live(s) && s.phase == Disconnected && s.event == Some((EOF_REPORT, AtClose))
    ensures
      var all := acts + [HandleClosePart] + [HandleReadPart(0)];
      Legal(Init(), all) && Exec(Init(), all).failed
  {
    hide Legal, Exec;
    var t := s.(event := Some((EOF_REPORT, AtRead)));
    OneMore(Init(), acts, HandleClosePart, t);
    OneMore(Init(), acts + [HandleClosePart], HandleReadPart(0), Next(t, HandleReadPart(0)));
  }

  /** A delayed close that a timer runs between poll and the handling of an end of file in the same
      poll closes the connection, and the end of file then finds it down. */
  lemma DelayedCloseMeetsEof()
    ensures
      var acts := [Establish, ForceCloseLater, Report(EOF_REPORT), RunDelayedClose, HandleClosePart, HandleReadPart(0)];
      Legal(Init(), acts) && Exec(Init(), acts).failed
  {
    hide Legal, Exec;
    ClosedInBetween();
    var acts := [Establish, ForceCloseLater, Report(EOF_REPORT), RunDelayedClose];
    EofFails(acts, Reported(CLOSED, EOF_REPORT));
    assert acts + [HandleClosePart] + [HandleReadPart(0)] ==
      [Establish, ForceCloseLater, Report(EOF_REPORT), RunDelayedClose, HandleClosePart, HandleReadPart(0)];
  }

  lemma ClosedInBetween()
    ensures
      var acts := [Establish, ForceCloseLater, Report(EOF_REPORT), RunDelayedClose];
      Legal(Init(), acts) && Exec(Init(), acts) == Reported(CLOSED, EOF_REPORT)
  {
    hide Legal, Exec, Next, Enabled;
    ClosesLater();
    ClosingLater();
    var told := Reported(CLOSES_LATER, EOF_REPORT);
    OneMore(Init(), [Establish, ForceCloseLater], Report(EOF_REPORT), told);
    var acts := [Establish, ForceCloseLater] + [Report(EOF_REPORT)];
    OneMore(Init(), acts, RunDelayedClose, Reported(CLOSED, EOF_REPORT));
    assert acts + [RunDelayedClose] == [Establish, ForceCloseLater, Report(EOF_REPORT), RunDelayedClose];
  }

  lemma ClosingLater()
    ensures
      var told := Reported(CLOSES_LATER, EOF_REPORT);
      && Enabled(CLOSES_LATER, Report(EOF_REPORT)) && Next(CLOSES_LATER, Report(EOF_REPORT)) == told
      && Enabled(told, RunDelayedClose) && Next(told, RunDelayedClose) == Reported(CLOSED, EOF_REPORT)
  {
  }

  const CLOSES_LATER := UP.(phase := Disconnecting, delayedCloses := 1)

  lemma ClosesLater()
    ensures Legal(Init(), [Establish, ForceCloseLater]) && Exec(Init(), [Establish, ForceCloseLater]) == CLOSES_LATER
  {
    hide Legal, Exec;
    Upped();
    OneMore(Init(), [Establish], ForceCloseLater, CLOSES_LATER);
    assert [Establish] + [ForceCloseLater] == [Establish, ForceCloseLater];
  }

  /** Removing the channel of a connection that is shutting down finds it still reading. */
  lemma DestroyedWhileDisconnecting()
    ensures Legal(Init(), [Establish, Shutdown, Destroy]) && Exec(Init(), [Establish, Shutdown, Destroy]).failed
  {
    hide Legal, Exec;
    Upped();
    var down := UP.(phase := Disconnecting, shutdowns := 1);
    OneMore(Init(), [Establish], Shutdown, down);
    assert [Establish] + [Shutdown] == [Establish, Shutdown];
    OneMore(Init(), [Establish, Shutdown], Destroy, Next(down, Destroy));
    assert [Establish, Shutdown] + [Destroy] == [Establish, Shutdown, Destroy];
  }

  /** connectDestroyed run at once, because the server is destroyed in a callback of another channel, in a
      poll that reported this one too and before its turn. */
  lemma DestroyedBeforeTurn()
    ensures
      var acts := [Establish, Report(EOF_REPORT), Destroy];
      Legal(Init(), acts) && Exec(Init(), acts).failed
  {
    hide Legal, Exec;
    Told();
    OneMore(Init(), [Establish, Report(EOF_REPORT)], Destroy, Next(Reported(UP, EOF_REPORT), Destroy));
    assert [Establish, Report(EOF_REPORT)] + [Destroy] == [Establish, Report(EOF_REPORT), Destroy];
  }

  lemma Told()
    ensures Legal(Init(), [Establish, Report(EOF_REPORT)])
    ensures Exec(Init(), [Establish, Report(EOF_REPORT)]) == Reported(UP, EOF_REPORT)
  {
    hide Legal, Exec;
    Upped();
    OneMore(Init(), [Establish], Report(EOF_REPORT), Reported(UP, EOF_REPORT));
    assert [Establish] + [Report(EOF_REPORT)] == [Establish, Report(EOF_REPORT)];
  }

  /** The same after its turn. */
  lemma DestroyedAfterTurn()
    ensures
      var acts := [Establish, Report(EOF_REPORT), HandleClosePart, HandleReadPart(1), HandleWritePart(WouldBlock),
                   Destroy];
      Legal(Init(), acts) && Exec(Init(), acts).failed
  {
    hide Legal, Exec, Destroyed;
    Told();
    var s := Reported(UP, EOF_REPORT);
    var closed := [Establish, Report(EOF_REPORT)] + [HandleClosePart];
    OneMore(Init(), [Establish, Report(EOF_REPORT)], HandleClosePart, s.(event := Some((EOF_REPORT, AtRead))));
    var read := closed + [HandleReadPart(1)];
    OneMore(Init(), closed, HandleReadPart(1), s.(event := Some((EOF_REPORT, AtWrite))));
    var over := read + [HandleWritePart(WouldBlock)];
    OneMore(Init(), read, HandleWritePart(WouldBlock), s.(event := None));
    RemovedAfterTurn(over, s.(event := None));
    assert over + [Destroy] ==
      [Establish, Report(EOF_REPORT), HandleClosePart, HandleReadPart(1), HandleWritePart(WouldBlock), Destroy];
  }

  lemma RemovedAfterTurn(acts: seq<Action>, s: State)
    requires Legal(Init(), acts) && Exec(Init(), acts) == s && Live(s) && s.phase == Connected
    requires s.event.None? && s.inRound && !s.destroyed
    ensures Legal(Init(), acts + [Destroy]) && Exec(Init(), acts + [Destroy]).failed
  {
    OneMore(Init(), acts, Destroy, Next(s, Destroy));
  }

  /** A hang-up with urgent data and nothing readable closes the connection and reads from it. */
  lemma HangUpWithUrgentData()
    ensures
      var acts := [Establish, Report(Events(true, false, true, false, false)), HandleClosePart, HandleReadPart(0)];
      Legal(Init(), acts) && Exec(Init(), acts).failed
  {
    hide Legal, Exec;
    Upped();
    var ev := Events(true, false, true, false, false);
    OneMore(Init(), [Establish], Report(ev), Reported(UP, ev));
    assert [Establish] + [Report(ev)] == [Establish, Report(ev)];
    UrgentHangUpFails([Establish, Report(ev)], ev);
    assert [Establish, Report(ev)] + [HandleClosePart] + [HandleReadPart(0)] ==
      [Establish, Report(ev), HandleClosePart, HandleReadPart(0)];
  }

  lemma UrgentHangUpFails(acts: seq<Action>, ev: Events)
    requires Legal(Init(), acts) && Exec(Init(), acts) == Reported(UP, ev)
      && ClosesFirst(ev) && Reads(ev)
    ensures
      var all := acts + [HandleClosePart] + [HandleReadPart(0)];
      Legal(Init(), all) && Exec(Init(), all).failed
  {
    hide Legal, Exec;
    var closed := CLOSED.(event := Some((ev, AtRead)), inRound := true);
    OneMore(Init(), acts, HandleClosePart, closed);
    OneMore(Init(), acts + [HandleClosePart], HandleReadPart(0), Next(closed, HandleReadPart(0)));
  }

  /** Reading again after the close lets an end of file find the connection down. */
  lemma ReadingAfterClose()
    ensures
      var acts := [Establish, ForceClose, RunForceClose, StartRead,
        Report(EOF_REPORT), HandleClosePart, HandleReadPart(0)];
      Legal(Init(), acts) && Exec(Init(), acts).failed
  {
    hide Legal, Exec;
    ForcedClosed();
    var started := CLOSED.(chan := Chan(true, false, Added));
    OneMore(Init(), [Establish, ForceClose, RunForceClose], StartRead, started);
    assert [Establish, ForceClose, RunForceClose] + [StartRead] == [Establish, ForceClose, RunForceClose, StartRead];
    var told := Reported(started, EOF_REPORT);
    OneMore(Init(), [Establish, ForceClose, RunForceClose, StartRead], Report(EOF_REPORT), told);
    assert [Establish, ForceClose, RunForceClose, StartRead] + [Report(EOF_REPORT)] ==
      [Establish, ForceClose, RunForceClose, StartRead, Report(EOF_REPORT)];
    EofFails([Establish, ForceClose, RunForceClose, StartRead, Report(EOF_REPORT)], told);
    assert [Establish, ForceClose, RunForceClose, StartRead, Report(EOF_REPORT)] + [HandleClosePart]
      + [HandleReadPart(0)] ==
      [Establish, ForceClose, RunForceClose, StartRead, Report(EOF_REPORT), HandleClosePart, HandleReadPart(0)];
  }

  // ---------- the object ----------

  /** A poll channel: what it waits for, and what the poller does at each update. */
  class Channel {
    var waitsToRead: bool
    var waitsToWrite: bool
    var index: Index

    function View(): Chan
      reads this
    {
      Chan(waitsToRead, waitsToWrite, index)
    }

    constructor ()
      ensures View() == Chan(false, false, New)
    {
      waitsToRead, waitsToWrite, index := false, false, New;
    }

    /** The poller's updateChannel for this channel. */
    method Update()
      modifies this`index
      ensures View() == Updated(old(View()))
    {
      if index == New || index == Deleted {
        index := Added;
      } else if !waitsToRead && !waitsToWrite {
        index := Deleted;
      }
    }

    method EnableReading()
      modifies this
      ensures View() == Updated(old(View()).(reading := true))
    {
      waitsToRead := true;
      Update();
    }

    method DisableReading()
      modifies this
      ensures View() == Updated(old(View()).(reading := false))
    {
      waitsToRead := false;
      Update();
    }

    method EnableWriting()
      modifies this
      ensures View() == Updated(old(View()).(writing := true))
    {
      waitsToWrite := true;
      Update();
    }

    method DisableWriting()
      modifies this
      ensures View() == Updated(old(View()).(writing := false))
    {
      waitsToWrite := false;
      Update();
    }

    method DisableAll()
      modifies this
      ensures View() == Disabled(old(View()))
    {
      waitsToRead, waitsToWrite := false, false;
      Update();
    }

    /** The channel is unknown to the poller again; good says that the asserts on the way hold, of which
        one is that no round of events waits for it or has gone past it. */
    method Remove(othersTurn: bool) returns (good: bool)
      modifies this`index
      ensures View() == old(View()).(index := New)
      ensures good == (!Waits(old(View())) && old(index) != New && !othersTurn)
    {
      good := !waitsToRead && !waitsToWrite && index != New && !othersTurn;
      index := New;
    }
  }

  /** The connection with its own channel and output buffer. The socket's answers are parameters. */
  class Connection {
    var phase: Phase
    var reading: bool
    const channel: Channel
    const outputBuffer: B.Buffer
    var queuedShutdowns: nat
    var queuedCloses: nat
    var delayedCloses: nat
    var event: Option<(Events, Stage)>
    var inRound: bool
    ghost var sent: string
    ghost var taken: string
    ghost var ups: nat
    ghost var downs: nat
    ghost var closes: nat
    ghost var halfCloses: nat
    ghost var destroyed: bool
    ghost var released: bool
    var failed: bool

    ghost predicate Valid()
      reads this, outputBuffer
    {
      outputBuffer.Valid()
    }

    ghost function View(): State
      requires Valid()
      reads this, channel, outputBuffer
    {
      State(phase, channel.View(), reading, outputBuffer.Contents(), event, inRound,
            queuedShutdowns, queuedCloses, delayedCloses, sent, taken, ups, downs, closes, halfCloses,
            destroyed, released, failed)
    }

    constructor ()
      ensures Valid() && fresh(channel) && fresh(outputBuffer) && View() == Init()
    {
      phase, reading := Connecting, true;
      channel := new Channel();
      outputBuffer := new B.Buffer(B.INITIAL_SIZE);
      queuedShutdowns, queuedCloses, delayedCloses := 0, 0, 0;
      event, inRound, sent, taken, destroyed, released, failed := None, false, "", "", false, false, false;
      ups, downs, closes, halfCloses := 0, 0, 0, 0;
    }

    method ConnectEstablished()
      requires Valid() && Enabled(View(), Establish)
      modifies this, channel
      ensures Valid() && View() == Next(old(View()), Establish)
    {
      phase := Connected;
      channel.EnableReading();
      ups := ups + 1;
    }

    method ConnectDestroyed()
      requires Valid()
      modifies this, channel
      ensures Valid() && View() == Destroyed(old(View()))
    {
      if phase == Connected {
        phase := Disconnected;
        channel.DisableAll();
        downs := downs + 1;
      }
      hide Waits, Disabled;
      RemoveChannel();
    }

    method RemoveChannel()
      requires Valid()
      modifies this`failed, this`destroyed, channel
      ensures Valid() && View() == Removed(old(View()))
    {
      var good := channel.Remove(inRound && (event.None? || event.value.1 == AtClose));
      failed := failed || !good;
      destroyed := true;
    }

    /** The destructor, with that of the channel. */
    method Dispose()
      requires Valid()
      modifies this`released, this`failed
      ensures Valid() && View() == Released(old(View()))
    {
      failed := failed || phase != Disconnected || channel.index != New;
      released := true;
    }

    method HandleClose()
      requires Valid()
      modifies this, channel
      ensures Valid() && View() == Closed(old(View()))
    {
      if phase == Connected || phase == Disconnecting {
        phase := Disconnected;
        channel.DisableAll();
        downs := downs + 1;
        closes := closes + 1;
      } else {
        failed := true;
      }
    }

    /** Writes directly if nothing is queued; rest is what remains to be queued. */
    method TryWrite(msg: string, w: WriteResult) returns (rest: string)
      requires Valid() && (w.Wrote? ==> w.n <= |msg|)
      modifies this`sent, this`taken
      ensures Valid()
      ensures
        var s := old(View());
        if TriesDirectly(s) && w == Fault then rest == "" && View() == s
        else if TriesDirectly(s) && w.Wrote? then
          rest == msg[w.n..] &&
          View() == s.(sent := s.sent + msg[..w.n], taken := s.taken + msg)
        else rest == msg && View() == s.(taken := s.taken + msg)
    {
      rest := msg;
      if !channel.waitsToWrite && outputBuffer.ReadableBytes() == 0 {
        match w
        case Wrote(n) =>
          rest := msg[n..];
          sent := sent + msg[..n];
        case Fault =>
          rest := "";
          return;
        case WouldBlock =>
        case OtherError =>
      }
      taken := taken + msg;
    }

    method SendInLoop(msg: string, w: WriteResult)
      requires Valid() && (w.Wrote? ==> w.n <= |msg|)
      modifies this`sent, this`taken, channel, outputBuffer
      ensures Valid() && View() == Sent(old(View()), msg, w)
    {
      hide TriesDirectly;
      if phase == Disconnected {
        return;
      }
      var rest := TryWrite(msg, w);
      AppendRest(rest);
    }

    method AppendRest(rest: string)
      requires Valid()
      modifies channel, outputBuffer
      ensures Valid() && View() == Buffered(old(View()), rest)
    {
      if |rest| > 0 {
        outputBuffer.Append(rest);
        if !channel.waitsToWrite {
          channel.EnableWriting();
        }
      }
    }

    method ShutdownInLoop()
      requires Valid()
      modifies this`halfCloses
      ensures Valid() && View() == HalfClosed(old(View()))
    {
      if !channel.waitsToWrite {
        halfCloses := halfCloses + 1;
      }
    }

    method HandleWrite(w: WriteResult)
      requires Valid() && (w.Wrote? ==> w.n <= outputBuffer.ReadableBytes())
      modifies this`sent, this`halfCloses, channel, outputBuffer
      ensures Valid() && View() == Written(old(View()), w)
    {
      if channel.waitsToWrite && w.Wrote? && w.n > 0 {
        sent := sent + outputBuffer.Contents()[..w.n];
        outputBuffer.Retrieve(w.n);
        if outputBuffer.ReadableBytes() == 0 {
          channel.DisableWriting();
          if phase == Disconnecting {
            ShutdownInLoop();
          }
        }
      }
    }

    /** n is what the read returned; the message callback for n > 0 is a step of its own. */
    method HandleRead(n: int)
      requires Valid()
      modifies this, channel
      ensures Valid() && View() == (if n == 0 then Closed(old(View())) else old(View()))
    {
      if n == 0 {
        HandleClose();
      }
    }

    method ShutdownConnection()
      requires Valid() && Live(View())
      modifies this`phase, this`queuedShutdowns
      ensures Valid()
      ensures View() == if old(phase) == Connected then Next(old(View()), Shutdown) else old(View())
    {
      if phase == Connected {
        phase := Disconnecting;
        queuedShutdowns := queuedShutdowns + 1;
      }
    }

    method ForceCloseConnection()
      requires Valid() && Live(View())
      modifies this`phase, this`queuedCloses
      ensures Valid()
      ensures View() == if IsUp(old(View())) then Next(old(View()), ForceClose) else old(View())
    {
      if phase == Connected || phase == Disconnecting {
        phase := Disconnecting;
        queuedCloses := queuedCloses + 1;
      }
    }

    method ForceCloseWithDelay()
      requires Valid() && Live(View())
      modifies this`phase, this`delayedCloses
      ensures Valid()
      ensures View() == if IsUp(old(View())) then Next(old(View()), ForceCloseLater) else old(View())
    {
      if phase == Connected || phase == Disconnecting {
        phase := Disconnecting;
        delayedCloses := delayedCloses + 1;
      }
    }

    method ForceCloseInLoop()
      requires Valid()
      modifies this, channel
      ensures Valid() && View() == (if IsUp(old(View())) then Closed(old(View())) else old(View()))
    {
      if phase == Connected || phase == Disconnecting {
        HandleClose();
      }
    }

    method StartReadInLoop()
      requires Valid()
      modifies this`reading, channel
      ensures Valid() && View() == StartedReading(old(View()))
    {
      if !reading || !channel.waitsToRead {
        channel.EnableReading();
        reading := true;
      }
    }

    method StopReadInLoop()
      requires Valid()
      modifies this`reading, channel
      ensures Valid() && View() == StoppedReading(old(View()))
    {
      if reading || channel.waitsToRead {
        channel.DisableReading();
        reading := false;
      }
    }

    /** The parts of one report. The next one comes only if no assert has fired. */
    method ClosePart(ev: Events)
      requires Valid() && Live(View()) && event == Some((ev, AtClose))
      modifies this, channel
      ensures Valid() && View() == Next(old(View()), HandleClosePart)
    {
      event := Some((ev, AtRead));
      if ev.hup && !ev.readable {
        HandleClose();
      }
    }

    method ReadPart(ev: Events, n: int)
      requires Valid() && Live(View()) && event == Some((ev, AtRead))
      modifies this, channel
      ensures Valid() && View() == Next(old(View()), HandleReadPart(n))
    {
      event := Some((ev, AtWrite));
      if ev.readable || ev.urgent {
        HandleRead(n);
      }
    }

    method WritePart(ev: Events, w: WriteResult)
      requires Valid() && Live(View()) && event == Some((ev, AtWrite))
        && (w.Wrote? ==> w.n <= outputBuffer.ReadableBytes())
      modifies this, channel, outputBuffer
      ensures Valid() && View() == Next(old(View()), HandleWritePart(w))
    {
      event := None;
      if ev.writable {
        HandleWrite(w);
      }
    }

    /** The callbacks of one report in the channel's order, with user callbacks that do nothing. */
    method HandleEventWithGuard(ev: Events, n: int, w: WriteResult)
      requires Valid() && Live(View()) && event == Some((ev, AtClose))
        && (w.Wrote? ==> w.n <= outputBuffer.ReadableBytes())
      modifies this, channel, outputBuffer
      ensures Valid() && View() == Handled(old(View()), n, w)
    {
      PartsMoveOn(View(), n);
      hide Next, HalfClosed, Waits;
      ClosePart(ev);
      if !failed {
        ReadPart(ev, n);
        if !failed {
          WritePart(ev, w);
        }
      }
    }
  }

  /** A report handled with nothing in between. */
  ghost function Handled(s: State, n: int, w: WriteResult): State
    requires Live(s) && s.event.Some? && s.event.value.1 == AtClose && (w.Wrote? ==> w.n <= |s.out|)
  {
    PartsMoveOn(s, n);
    var t := Next(s, HandleClosePart);
    if t.failed then t
    else
      var u := Next(t, HandleReadPart(n));
      if u.failed then u else Next(u, HandleWritePart(w))
  }

  lemma PartsMoveOn(s: State, n: int)
    requires Live(s) && s.event.Some? && s.event.value.1 == AtClose
    ensures
      var (t, ev) := (Next(s, HandleClosePart), s.event.value.0);
      && t.event == Some((ev, AtRead)) && t.out == s.out && !t.released
      && (!t.failed ==> var u := Next(t, HandleReadPart(n));
            u.event == Some((ev, AtWrite)) && u.out == s.out && !u.released)
  {
  }
}
