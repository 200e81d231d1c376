/** The double-buffered logger: producers append under a lock, one thread swaps, writes and refills. */
module AsyncLogging {
  import opened Wrappers

  /** Size of a buffer; a buffer always keeps a byte free. */
  const SIZE := 4000 * 1000

  /** More buffers than this in one batch and all but two are dropped. */
  const MAX_BATCH := 25

  /** Where the logging thread is: at the top of its loop, waiting on the condition, about to write
      the batch, writing it, or out of the loop. */
  datatype Where = Top | Waiting | HasBatch | Writing | Left

  /** What came to the end of the line, in order: written from a buffer, lost with the buffers of a batch
      that was too long, or a note of such a loss. */
  datatype Part = Text(t: string) | Lost(t: string) | Note(t: string)

  /** batch holds the buffers not yet written, kept those written and kept for reuse; dropped says
      whether a batch was ever too long, and skipped what this one lost; log is the story of the file. */
  datatype State = State(current: string, next: Option<string>, buffers: seq<string>,
                         at: Where, spare1: Option<string>, spare2: Option<string>,
                         batch: seq<string>, kept: seq<string>, running: bool,
                         written: string, appended: string, dropped: bool, skipped: string, log: seq<Part>)

  datatype Action =
    | Append(line: string)
    | Lock                    // finds buffers to take, or starts to wait
    | Wake                    // notified, timed out, or woken for nothing
    | Look(note: string)      // drops buffers if there are too many, with a note to the file
    | WriteOne
    | Refill
    | Stop
    | Exit

  function Init(): (s: State)
    ensures Inv(s)
  {
    State("", Some(""), [], Top, Some(""), Some(""), [], [], true, "", "", false, "", [])
  }

  /** The file that a story makes. */
  function InFile(log: seq<Part>): string {
    if log == [] then "" else InFile(log[..|log| - 1]) + (if log[|log| - 1].Lost? then "" else log[|log| - 1].t)
  }

  /** The appended text that a story accounts for. */
  function Accounted(log: seq<Part>): string {
    if log == [] then "" else Accounted(log[..|log| - 1]) + (if log[|log| - 1].Note? then "" else log[|log| - 1].t)
  }

  lemma OnePart(log: seq<Part>, p: Part)
    ensures InFile(log + [p]) == InFile(log) + (if p.Lost? then "" else p.t)
    ensures Accounted(log + [p]) == Accounted(log) + (if p.Note? then "" else p.t)
  {
    assert (log + [p])[..|log|] == log;
  }

  function Flat(bs: seq<string>): string { if bs == [] then "" else bs[0] + Flat(bs[1..]) }

  // ---------- the steps ----------

  /** FixedBuffer::append: nothing at all unless a byte stays free. */
  function Put(buffer: string, line: string): string {
    if SIZE - |buffer| > |line| then buffer + line else buffer
  }

  function AppendLine(s: State, line: string): State {
    var a := s.(appended := s.appended + line);
    if SIZE - |s.current| > |line| then a.(current := Put(s.current, line))
    else
      a.(buffers := s.buffers + [s.current],
          current := Put(if s.next.Some? then s.next.value else "", line), next := None)
  }

  /** The end of the critical section of threadFunc. */
  function Take(s: State): State
    requires s.spare1.Some?
  {
    s.(at := HasBatch, batch := s.buffers + [s.current], buffers := [], current := s.spare1.value, spare1 := None,
       next := if s.next.None? then s.spare2 else s.next, spare2 := if s.next.None? then None else s.spare2)
  }

  /** Puts back the spare buffers that were handed out, from the back of the kept ones. */
  function RefillFrom(s: State): State
    requires |s.kept| >= (if s.spare1.None? then 1 else 0) + (if s.spare2.None? then 1 else 0)
  {
    s.(at := Top, spare1 := Some(if s.spare1.None? then "" else s.spare1.value),
       spare2 := Some(if s.spare2.None? then "" else s.spare2.value), kept := [],
       skipped := "", log := if s.skipped == "" then s.log else s.log + [Lost(s.skipped)])
  }

  ghost predicate Enabled(s: State, a: Action) {
    match a
    case Append(line) => |line| < SIZE
    case Lock => s.at == Top && s.running
    case Wake => s.at == Waiting
    case Look(_) => s.at == HasBatch
    case WriteOne => s.at == Writing && s.batch != []
    case Refill => s.at == Writing && s.batch == []
    case Stop => true
    case Exit => s.at == Top && !s.running
  }

  /** The first two written buffers are kept for reuse. */
  function Keep(kept: seq<string>, b: string): seq<string> { if |kept| < 2 then kept + [b] else kept }

  function Written(s: State): State
    requires s.batch != []
  {
    s.(written := s.written + s.batch[0], batch := s.batch[1..], kept := Keep(s.kept, s.batch[0]),
       log := s.log + [Text(s.batch[0])])
  }

  function Next(s: State, a: Action): State
    requires Inv(s) && Enabled(s, a)
  {
    match a
    case Append(line) => AppendLine(s, line)
    case Lock => if s.buffers == [] then s.(at := Waiting) else Take(s)
    case Wake => Take(s)
    case Look(note) =>
      if |s.batch| > MAX_BATCH then
        s.(at := Writing, written := s.written + note, batch := s.batch[..2], dropped := true,
           skipped := Flat(s.batch[2..]), log := s.log + [Note(note)])
      else s.(at := Writing)
    case WriteOne => Written(s)
    case Refill => RefillFrom(s)
    case Stop => s.(running := false)
    case Exit => s.(at := Left)
  }

  // ---------- what holds between any two steps ----------

  /** What is still held, in order: the batch with what it lost, the full buffers, the current one. */
  function Held(s: State): string { Flat(s.batch) + (s.skipped + (Flat(s.buffers) + s.current)) }

  /** The file is what its story says; what the story accounts for and what is held is all that was
      appended, in order; and without a batch that was too long the story is all text. */
  ghost predicate Conserved(s: State) {
    && s.written == InFile(s.log) && s.appended == Accounted(s.log) + Held(s)
    && (!s.dropped ==> s.skipped == "" && InFile(s.log) == Accounted(s.log))
  }

  ghost predicate Inv(s: State) {
    && Conserved(s) && |s.current| < SIZE
    && (s.next.Some? ==> s.next.value == "")
    && (s.next.None? ==> s.buffers != [])
    && (s.at == Top || s.at == Waiting || s.at == Left ==>
          s.spare1 == Some("") && s.spare2 == Some("") && s.batch == [] && s.kept == [])
    && (s.at != Writing ==> s.skipped == "")
    && (s.at == HasBatch || s.at == Writing ==>
          && s.spare1.None? && (s.spare2.Some? ==> s.spare2.value == "")
          && |s.batch| + |s.kept| >= 1 && (s.spare2.None? ==> |s.batch| + |s.kept| >= 2))
    && (s.at == HasBatch ==> s.kept == []) && |s.kept| <= 2
  }

  lemma {:induction false} FlatAppend(bs: seq<string>, cs: seq<string>)
    ensures Flat(bs + cs) == Flat(bs) + Flat(cs)
  {
    if bs == [] {
      assert bs + cs == cs;
    } else {
      FlatAppend(bs[1..], cs);
      assert (bs + cs)[1..] == bs[1..] + cs;
      assert bs[0] + (Flat(bs[1..]) + Flat(cs)) == (bs[0] + Flat(bs[1..])) + Flat(cs);
    }
  }

  /** Appending a line to the last of five pieces. */
  lemma Join5(w: string, x: string, k: string, y: string, c: string, line: string)
    ensures w + (x + (k + (y + c))) + line == w + (x + (k + (y + (c + line))))
    ensures w + (x + (k + (y + c))) + line == w + (x + (k + ((y + c) + line)))
  {
  }

  lemma AppendConserves(s: State, line: string)
    requires Inv(s) && |line| < SIZE
    ensures Inv(AppendLine(s, line))
  {
    hide Conserved;
    AppendHolds(s, line);
    assert "" + line == line;
  }

  lemma AppendHolds(s: State, line: string)
    requires Inv(s) && |line| < SIZE
    ensures Conserved(AppendLine(s, line))
  {
    FlatOneMore(s.buffers, s.current);
    Join5(Accounted(s.log), Flat(s.batch), s.skipped, Flat(s.buffers), s.current, line);
    hide Flat, InFile, Accounted;
    assert "" + line == line;
  }

  lemma FlatOneMore(bs: seq<string>, b: string)
    ensures Flat(bs + [b]) == Flat(bs) + b
  {
    FlatAppend(bs, [b]);
    assert Flat([b]) == b;
  }

  lemma TakeConserves(s: State)
    requires Inv(s) && (s.at == Top || s.at == Waiting)
    ensures Inv(Take(s))
  {
    FlatAppend(s.buffers, [s.current]);
    assert Flat([s.current]) == s.current;
    var a, f, c := Accounted(s.log), Flat(s.buffers), s.current;
    assert a + ("" + ("" + (f + c))) == a + ((f + c) + ("" + ("" + "")));
    hide InFile, Accounted;
  }

  lemma WriteConserves(s: State)
    requires Inv(s) && s.at == Writing && s.batch != []
    ensures Inv(Written(s))
  {
    hide InFile, Accounted;
    OnePart(s.log, Text(s.batch[0]));
    var rest := Flat(s.batch[1..]) + (s.skipped + (Flat(s.buffers) + s.current));
    assert Held(s) == s.batch[0] + rest;
    assert Accounted(s.log) + (s.batch[0] + rest) == Accounted(s.log) + s.batch[0] + rest;
  }

  lemma LookConserves(s: State, note: string)
    requires Inv(s) && Enabled(s, Look(note))
    ensures Inv(Next(s, Look(note)))
  {
    hide Conserved, Flat, InFile, Accounted, Held;
    LookHolds(s, note);
  }

  lemma LookHolds(s: State, note: string)
    requires Inv(s) && Enabled(s, Look(note))
    ensures Conserved(Next(s, Look(note)))
  {
    if |s.batch| > MAX_BATCH {
      OnePart(s.log, Note(note));
      assert s.batch == s.batch[..2] + s.batch[2..];
      FlatAppend(s.batch[..2], s.batch[2..]);
      var x, y, z := Flat(s.batch[..2]), Flat(s.batch[2..]), Flat(s.buffers) + s.current;
      assert (x + y) + ("" + z) == x + (y + z);
    }
    hide InFile, Accounted, Flat;
  }

  lemma RefillConserves(s: State)
    requires Inv(s) && Enabled(s, Refill)
    ensures Inv(Next(s, Refill))
  {
    hide InFile, Accounted;
    OnePart(s.log, Lost(s.skipped));
    var a, z := Accounted(s.log), Flat(s.buffers) + s.current;
    assert a + ("" + (s.skipped + z)) == (a + s.skipped) + ("" + ("" + z));
    assert InFile(s.log) + "" == InFile(s.log);
  }

  lemma NextKeeps(s: State, a: Action)
    requires Inv(s) && Enabled(s, a)
    ensures Inv(Next(s, a)) && (s.dropped ==> Next(s, a).dropped) && s.written <= Next(s, a).written
  {
    hide Flat, InFile, Accounted;
    match a
    case Append(line) => AppendConserves(s, line);
    case Lock => if s.buffers != [] { TakeConserves(s); }
    case Wake => TakeConserves(s);
    case Look(note) => LookConserves(s, note);
    case WriteOne => WriteConserves(s);
    case Refill => RefillConserves(s);
    case Stop =>
    case Exit =>
  }

  // ---------- all interleavings ----------

  ghost predicate Legal(s: State, acts: seq<Action>)
    requires Inv(s)
    decreases |acts|
  {
    acts == [] || (Enabled(s, acts[0]) && (NextKeeps(s, acts[0]); Legal(Next(s, acts[0]), acts[1..])))
  }

  ghost function Exec(s: State, acts: seq<Action>): State
    requires Inv(s) && Legal(s, acts)
    decreases |acts|
  {
    if acts == [] then s else NextKeeps(s, acts[0]); Exec(Next(s, acts[0]), acts[1..])
  }

  /** The lines appended along a run, in order. */
  ghost function Lines(acts: seq<Action>): string {
    if acts == [] then "" else (if acts[0].Append? then acts[0].line else "") + Lines(acts[1..])
  }

  lemma {:induction false} ExecKeeps(s: State, acts: seq<Action>)
    requires Inv(s) && Legal(s, acts)
    ensures Inv(Exec(s, acts)) && Exec(s, acts).appended == s.appended + Lines(acts)
    decreases |acts|
  {
    hide Inv, Enabled, Next;
    if acts != [] {
      NextKeeps(s, acts[0]);
      NextAppends(s, acts[0]);
      ExecKeeps(Next(s, acts[0]), acts[1..]);
    }
  }

  lemma NextAppends(s: State, a: Action)
    requires Inv(s) && Enabled(s, a)
    ensures Next(s, a).appended == s.appended + if a.Append? then a.line else ""
  {
    hide Inv, Flat;
  }

  /** Some batch that the run looks at has more than 25 buffers. */
  ghost predicate LooksAtTooMany(s: State, acts: seq<Action>)
    requires Inv(s) && Legal(s, acts)
    decreases |acts|
  {
    acts != [] && ((acts[0].Look? && |s.batch| > 25)
                   || (NextKeeps(s, acts[0]); LooksAtTooMany(Next(s, acts[0]), acts[1..])))
  }

  lemma NextDrops(s: State, a: Action)
    requires Inv(s) && Enabled(s, a)
    ensures Next(s, a).dropped <==> s.dropped || (a.Look? && |s.batch| > 25)
  {
    hide Inv, Flat;
  }

  /** A run has dropped something if and only if it has looked at such a batch. */
  lemma {:induction false} DroppedIff(s: State, acts: seq<Action>)
    requires Inv(s) && Legal(s, acts)
    ensures Exec(s, acts).dropped <==> s.dropped || LooksAtTooMany(s, acts)
    decreases |acts|
  {
    hide Inv, Enabled, Next;
    if acts != [] {
      NextKeeps(s, acts[0]);
      NextDrops(s, acts[0]);
      DroppedIff(Next(s, acts[0]), acts[1..]);
    }
  }

  /** In every interleaving in which no batch that is looked at has more than 25 buffers, the file, the batch, the
      full buffers and the current buffer hold together exactly the lines appended, in order; so the file is
      a prefix. */
  lemma NothingLostOrReordered(acts: seq<Action>)
    requires Legal(Init(), acts) && !LooksAtTooMany(Init(), acts)
    ensures
      var s := Exec(Init(), acts);
      && s.written + (Flat(s.batch) + (Flat(s.buffers) + s.current)) == Lines(acts)
      && s.written <= Lines(acts)
  {
    ExecKeeps(Init(), acts);
    DroppedIff(Init(), acts);
    var s := Exec(Init(), acts);
    assert "" + Lines(acts) == Lines(acts);
    assert "" + (Flat(s.buffers) + s.current) == Flat(s.buffers) + s.current;
  }

  /** The logger runs until it is stopped, and the logging thread ends only then. */
  lemma {:induction false} RunsUntilStopped(s: State, acts: seq<Action>)
    requires Inv(s) && Legal(s, acts) && (s.at == Left ==> !s.running)
    ensures Exec(s, acts).running <==> s.running && Stop !in acts
    ensures Exec(s, acts).at == Left ==> !Exec(s, acts).running
    decreases |acts|
  {
    hide Inv, Flat, InFile, Accounted;
    if acts != [] {
      NextKeeps(s, acts[0]);
      RunsUntilStopped(Next(s, acts[0]), acts[1..]);
    }
  }

  /** A buffer is full, and handed on, exactly when the line does not leave one of its 4,000,000 bytes free. */
  lemma SealedIff(s: State, line: string)
    requires Inv(s) && |line| < 4_000_000
    ensures
      var r := AppendLine(s, line);
      if |s.current| + |line| < 4_000_000 then r.buffers == s.buffers && r.current == s.current + line
      else r.buffers == s.buffers + [s.current] && r.current == line
  {
    hide Flat, InFile, Accounted;
    assert "" + line == line;
  }

  /** When the logging thread has taken the buffers, all lines appended before are in the file's story or in the
      batch. At the top of its loop it takes them if and only if there is a full one, and waits otherwise. */
  lemma TakesAll(acts: seq<Action>, a: Action)
    requires Legal(Init(), acts) && Enabled(Exec(Init(), acts), a) && (a.Lock? || a.Wake?)
    ensures Inv(Exec(Init(), acts))
    ensures
      var s := Exec(Init(), acts);
      var r := Next(s, a);
      if a.Lock? && s.buffers == [] then r == s.(at := Waiting)
      else r.at == HasBatch && Lines(acts) == Accounted(r.log) + Flat(r.batch)
  {
    ExecKeeps(Init(), acts);
    var s := Exec(Init(), acts);
    NextKeeps(s, a);
    if a.Wake? || s.buffers != [] { AllTaken(s, a); }
    assert "" + Lines(acts) == Lines(acts);
  }

  lemma AllTaken(s: State, a: Action)
    requires Inv(s) && Enabled(s, a) && (a.Wake? || (a.Lock? && s.buffers != []))
    ensures Next(s, a).at == HasBatch && s.appended == Accounted(Next(s, a).log) + Flat(Next(s, a).batch)
  {
    FlatOneMore(s.buffers, s.current);
    hide InFile, Accounted, Flat;
    assert Flat([]) == "" by { NothingFlat(); }
    assert "" + ("" + (Flat(s.buffers) + s.current)) == Flat(s.buffers) + s.current;
  }

  lemma NothingFlat()
    ensures Flat([]) == ""
  {
  }

  /** In every interleaving, with however many drops: the file is, in order, all text appended but the
      lost parts, and the notes; what is not in the story yet is held, in order. */
  lemma OnlyDropsAreLost(acts: seq<Action>)
    requires Legal(Init(), acts)
    ensures
      var s := Exec(Init(), acts);
      s.written == InFile(s.log) && Lines(acts) == Accounted(s.log) + Held(s)
  {
    ExecKeeps(Init(), acts);
    assert "" + Lines(acts) == Lines(acts);
  }

  /** A drop loses all buffers of its batch but the first two, which follow the note, and nothing else. */
  lemma DropLosesTail(s: State, note: string)
    requires Inv(s) && s.at == HasBatch && |s.batch| > MAX_BATCH
    ensures
      var r := Next(s, Look(note));
      && r.written == s.written + note && Flat(s.batch) == Flat(r.batch) + r.skipped && r.skipped == Flat(s.batch[2..])
      && Held(r) == Held(s)
  {
    LookConserves(s, note);
    assert s.batch == s.batch[..2] + s.batch[2..];
    FlatAppend(s.batch[..2], s.batch[2..]);
    assert Flat(s.batch[..2]) + (Flat(s.batch[2..]) + (Flat(s.buffers) + s.current)) ==
      Flat(s.batch) + ("" + (Flat(s.buffers) + s.current));
  }

  /** In every interleaving the asserts of threadFunc hold: the spare buffers are there and empty at
      the top of the loop, and there are kept buffers to refill from at its end. */
  lemma SparesSuffice(acts: seq<Action>)
    requires Legal(Init(), acts)
    ensures
      var s := Exec(Init(), acts);
      && (s.at == Top ==> s.spare1 == Some("") && s.spare2 == Some("") && s.batch == [])
      && (s.at == HasBatch ==> s.batch != [])
      && (s.at == Writing && s.batch == [] ==>
            |s.kept| >= (if s.spare1.None? then 1 else 0) + (if s.spare2.None? then 1 else 0))
      && (s.next.None? ==> s.buffers != []) && |s.kept| <= 2
  {
    ExecKeeps(Init(), acts);
  }

  lemma KeptEnough(s: State)
    requires Inv(s) && Enabled(s, Refill)
    ensures |s.kept| >= (if s.spare1.None? then 1 else 0) + (if s.spare2.None? then 1 else 0)
  {
  }

  lemma SpareThere(s: State)
    requires Inv(s) && (s.at == Top || s.at == Waiting)
    ensures s.spare1.Some?
  {
  }

  // ---------- the logger object ----------

  class Logger {
    var currentBuffer: string
    var nextBuffer: Option<string>
    var buffers: seq<string>
    var at: Where
    var newBuffer1: Option<string>
    var newBuffer2: Option<string>
    var buffersToWrite: seq<string>
    var kept: seq<string>
    var running: bool
    var output: string
    ghost var appended: string
    ghost var dropped: bool
    ghost var skipped: string
    ghost var log: seq<Part>

    ghost function View(): State
      reads this
    {
      State(currentBuffer, nextBuffer, buffers, at, newBuffer1, newBuffer2, buffersToWrite, kept, running,
            output, appended, dropped, skipped, log)
    }

    constructor ()
      ensures View() == Init()
    {
      currentBuffer, nextBuffer, buffers, at := "", Some(""), [], Top;
      newBuffer1, newBuffer2, buffersToWrite, kept, running := Some(""), Some(""), [], [], true;
      output, appended, dropped, skipped, log := "", "", false, "", [];
    }

    method AppendToCurrent(line: string)
      modifies this`currentBuffer
      ensures currentBuffer == Put(old(currentBuffer), line)
    {
      if SIZE - |currentBuffer| > |line| {
        currentBuffer := currentBuffer + line;
      }
    }

    method AppendLogLine(line: string)
      requires Inv(View()) && |line| < SIZE
      modifies this
      ensures View() == Next(old(View()), Append(line)) && Inv(View())
    {
      hide Inv;
      NextKeeps(View(), Append(line));
      if SIZE - |currentBuffer| > |line| {
        AppendToCurrent(line);
      } else {
        buffers := buffers + [currentBuffer];
        if nextBuffer.Some? {
          currentBuffer := nextBuffer.value;
          nextBuffer := None;
        } else {
          currentBuffer := "";
        }
        AppendToCurrent(line);
      }
      appended := appended + line;
    }

    /** The critical section of threadFunc up to the wait. */
    method TryTake()
      requires Inv(View()) && Enabled(View(), Lock)
      modifies this
      ensures View() == Next(old(View()), Lock) && Inv(View())
    {
      hide Inv, Conserved, Flat, InFile, Accounted;
      NextKeeps(View(), Lock);
      SpareThere(View());
      if buffers == [] {
        at := Waiting;
      } else {
        TakeBuffers();
      }
    }

    /** The critical section of threadFunc after the wait, if there was one. */
    method TakeBuffers()
      requires newBuffer1.Some?
      modifies this
      ensures View() == Take(old(View()))
    {
      buffers := buffers + [currentBuffer];
      currentBuffer := newBuffer1.value;
      newBuffer1 := None;
      buffersToWrite, buffers := buffers, [];
      if nextBuffer.None? {
        nextBuffer := newBuffer2;
        newBuffer2 := None;
      }
      at := HasBatch;
    }

    method DropIfTooMany(note: string)
      requires Inv(View()) && Enabled(View(), Look(note))
      modifies this
      ensures View() == Next(old(View()), Look(note)) && Inv(View())
    {
      hide Inv, Conserved, Flat, InFile, Accounted;
      NextKeeps(View(), Look(note));
      if |buffersToWrite| > MAX_BATCH {
        output := output + note;
        log := log + [Note(note)];
        skipped := Flat(buffersToWrite[2..]);
        buffersToWrite := buffersToWrite[..2];
        dropped := true;
      }
      at := Writing;
    }

    method WriteNext()
      requires Inv(View()) && Enabled(View(), WriteOne)
      modifies this
      ensures View() == Next(old(View()), WriteOne) && Inv(View())
    {
      hide Inv, Conserved, Flat, InFile, Accounted;
      NextKeeps(View(), WriteOne);
      output := output + buffersToWrite[0];
      kept := Keep(kept, buffersToWrite[0]);
      log := log + [Text(buffersToWrite[0])];
      buffersToWrite := buffersToWrite[1..];
    }

    method RefillSpares()
      requires Inv(View()) && Enabled(View(), Refill)
      modifies this
      ensures View() == Next(old(View()), Refill) && Inv(View())
    {
      hide Inv, Conserved, Flat, InFile, Accounted;
      KeptEnough(View());
      NextKeeps(View(), Refill);
      TakeSpares();
      kept := [];
      log := if skipped == "" then log else log + [Lost(skipped)];
      skipped := "";
      at := Top;
    }

    /** Both spare buffers, taken from the back of the kept ones where they are missing. */
    method TakeSpares()
      requires |kept| >= (if newBuffer1.None? then 1 else 0) + (if newBuffer2.None? then 1 else 0)
      modifies this`kept, this`newBuffer1, this`newBuffer2
      ensures newBuffer1 == Some(if old(newBuffer1).None? then "" else old(newBuffer1).value)
      ensures newBuffer2 == Some(if old(newBuffer2).None? then "" else old(newBuffer2).value)
    {
      if newBuffer1.None? {
        kept := kept[..|kept| - 1];
        newBuffer1 := Some("");
      }
      if newBuffer2.None? {
        kept := kept[..|kept| - 1];
        newBuffer2 := Some("");
      }
    }
  }
}
