/** One client's session with the memcached server, over a stream that arrives in pieces. */
module MemcacheSession {
  import opened Wrappers
  import opened Text
  import opened MemcacheItem
  import B = Buffer
  import L = LogStream
  import S = MemcacheServer

  const MAX_LINE := 1024
  const MAX_VALUE := 1024 * 1024
  const NOREPLY := " noreply"
  const BAD_FORMAT := "CLIENT_ERROR bad command line format\r\n"
  const BAD_DELETE := "CLIENT_ERROR bad command line format. Usage: delete <key> [noreply]\r\n"
  const BAD_DATA := "CLIENT_ERROR bad data chunk\r\n"
  const TOO_LARGE := "SERVER_ERROR object too large for cache\r\n"
  const UNKNOWN := "ERROR\r\n"
  const VERSION := "VERSION 0.01 cnet\r\n"

  // ---------- words and numbers ----------

  /** The words of a line: what stands between spaces. */
  function Tokens(s: string): seq<string>
    decreases |s|
  {
    if s == "" then []
    else if s[0] == ' ' then Tokens(s[1..])
    else [s[..Find(s, ' ')]] + Tokens(s[Find(s, ' ')..])
  }

  const TWO_32 := 0x1_0000_0000
  const TWO_64 := 0x1_0000_0000_0000_0000

  lemma {:induction false} ValueNat(s: string)
    requires L.AllDigits(s, 10)
    ensures L.Value(s, 10) >= 0
  {
    if s != "" {
      ValueNat(s[..|s| - 1]);
    }
  }

  /** What strtoull makes of a word that it reads to the end, None when it does not: white space, a
      sign and digits, saturating, and negated modulo 2^64 after a minus sign. */
  function ReadU64(word: string): (r: Option<nat>)
    ensures r.Some? ==> r.value < TWO_64
  {
    var t := TrimLeft(word);
    var digits := if t != "" && (t[0] == '-' || t[0] == '+') then t[1..] else t;
    if digits == "" || !L.AllDigits(digits, 10) then None
    else
      ValueNat(digits);
      var v := L.Value(digits, 10);
      Some(if v >= TWO_64 then TWO_64 - 1 else if t[0] == '-' then (TWO_64 - v) % TWO_64 else v)
  }

  /** static_cast<int> */
  function Int32(n: nat): int {
    var low := n % TWO_32;
    if low < TWO_32 / 2 then low else low - TWO_32
  }

  // ---------- command lines ----------

  /** A command with all that belongs to it. data is the value with the two bytes after it. */
  datatype Command =
    | Store(policy: S.Policy, key: string, flags: nat, cas: nat, data: string, noreply: bool)
    | TooLarge(key: string, noreply: bool)
    | Get(keys: seq<string>, withCas: bool, noreply: bool)
    | Delete(key: string, noreply: bool)
    | Answer(msg: string, noreply: bool)
    | Quit

  /** What a line asks for: a command that is complete, a value to come, or bytes to be skipped.
      Undefined stands for lines on which an assert fails or an int overflows. */
  datatype Line =
    | Whole(command: Command)
    | Wants(policy: S.Policy, key: string, flags: nat, cas: nat, size: nat, noreply: bool)
    | Skips(policy: S.Policy, key: string, size: nat, noreply: bool)
    | Undefined

  function PolicyOf(word: string): S.Policy {
    if word == "set" then S.Set
    else if word == "add" then S.Add
    else if word == "replace" then S.Replace
    else if word == "append" then S.Append
    else if word == "prepend" then S.Prepend
    else if word == "cas" then S.Cas
    else S.Invalid
  }

  predicate AreNumbers(words: seq<string>, n: nat) {
    |words| >= n && forall i :: 0 <= i < n ==> ReadU64(words[i]).Some?
  }

  function UpdateOf(policy: S.Policy, key: string, flags: nat, bytes: int, cas: nat, noreply: bool): (l: Line)
    ensures !l.Whole? && (l.Wants? || l.Skips? ==> l.size >= 2)
  {
    if bytes < 0 || bytes + 2 >= TWO_32 / 2 then Undefined
    else if bytes > MAX_VALUE then Skips(policy, key, bytes + 2, noreply)
    else Wants(policy, key, flags, cas, bytes + 2, noreply)
  }

  function ParseUpdate(policy: S.Policy, args: seq<string>, noreply: bool): (l: Line)
    ensures IsLine(l)
  {
    if args == [] then Undefined
    else
      var key, numbers := args[0], args[1..];
      if |key| >= LONGEST_KEY || !AreNumbers(numbers, if policy == S.Cas then 4 else 3)
      then Whole(Answer(BAD_FORMAT, noreply))
      else
        var flags, bytes := ReadU64(numbers[0]).value % TWO_32, Int32(ReadU64(numbers[2]).value);
        UpdateOf(policy, key, flags, bytes, if policy == S.Cas then ReadU64(numbers[3]).value else 0, noreply)
  }

  function ParseDelete(args: seq<string>, noreply: bool): (l: Line)
    ensures IsLine(l)
  {
    if args == [] then Undefined
    else if |args[0]| > LONGEST_KEY then Whole(Answer(BAD_FORMAT, noreply))
    else if |args| > 1 && args[1] != "0" then Whole(Answer(BAD_DELETE, noreply))
    else Whole(Delete(args[0], noreply))
  }

  function ParseCommand(word: string, args: seq<string>, noreply: bool): (l: Line)
    ensures IsLine(l)
  {
    if PolicyOf(word) != S.Invalid then ParseUpdate(PolicyOf(word), args, noreply)
    else if word == "get" || word == "gets" then Whole(Get(args, word == "gets", noreply))
    else if word == "delete" then ParseDelete(args, noreply)
    else if word == "version" then Whole(Answer(VERSION, noreply))
    else if word == "quit" || word == "shutdown" then Whole(Quit)
    else Whole(Answer(UNKNOWN, noreply))
  }

  predicate HasNoreply(request: string) { |request| >= |NOREPLY| && request[|request| - |NOREPLY|..] == NOREPLY }

  /** The value of an update has its two bytes more, and a fixed answer is a line. */
  predicate IsCommand(c: Command) { (c.Store? ==> |c.data| >= 2) && (c.Answer? ==> EndsWithCRLF(c.msg)) }

  /** A line alone stores nothing. */
  predicate IsLine(l: Line) {
    (l.Whole? ==> !l.command.Store? && IsCommand(l.command)) && (l.Wants? || l.Skips? ==> l.size >= 2)
  }

  function LineOf(words: seq<string>, noreply: bool): (l: Line)
    ensures IsLine(l)
  {
    if words == [] then Whole(Answer(UNKNOWN, noreply)) else ParseCommand(words[0], words[1..], noreply)
  }

  function ParseLine(request: string): (l: Line)
    ensures IsLine(l)
  {
    var noreply := HasNoreply(request);
    LineOf(Tokens(if noreply then request[..|request| - |NOREPLY|] else request), noreply)
  }

  // ---------- commands on one map ----------

  /** The store, what was handed to the connection's sendInLoop, what get has found but not handed on, and whether the
      connection still takes replies. */
  datatype World = World(store: S.Store, handed: string, held: string, connected: bool)

  function Replied(w: World, msg: string, noreply: bool): World {
    if noreply || !w.connected then w else w.(handed := w.handed + msg)
  }

  function StoreReply(stored: bool, policy: S.Policy, existed: bool): string {
    if stored then "STORED\r\n"
    else if policy == S.Cas then if existed then "EXISTS" else "NOT_FOUND\r\n"
    else "NOT_FOUND"
  }

  function Found(w: World, key: string, withCas: bool): World
    requires S.WellTerminated(w.store)
  {
    if key in w.store.entries then
      var e := w.store.entries[key];
      w.(held := w.held + ItemText(key, e.flags, e.value, e.cas, withCas))
    else w
  }

  /** A key that is too long ends the command, and what was found before it waits for the next get. */
  function GetAll(w: World, keys: seq<string>, withCas: bool, noreply: bool): (r: World)
    requires S.WellTerminated(w.store)
    ensures r.store == w.store
    decreases |keys|
  {
    if keys == [] then w.(handed := w.handed + w.held + "END\r\n", held := "")
    else if |keys[0]| > LONGEST_KEY then Replied(w, BAD_FORMAT, noreply)
    else GetAll(Found(w, keys[0], withCas), keys[1..], withCas, noreply)
  }


  function Exec(w: World, c: Command): (r: World)
    requires S.WellTerminated(w.store) && IsCommand(c)
    ensures S.WellTerminated(r.store)
  {
    match c
    case Store(policy, key, flags, cas, data, noreply) =>
      if !EndsWithCRLF(data) then Replied(w, BAD_DATA, noreply)
      else
        var e := S.Entry(flags, data, cas);
        var stored := policy == S.Invalid || S.Accepts(w.store, key, e, policy);
        Replied(w.(store := S.Updated(w.store, key, e, policy)),
          StoreReply(stored, policy, key in w.store.entries), noreply)
    case TooLarge(key, noreply) => Replied(w.(store := S.Deleted(w.store, key)), TOO_LARGE, noreply)
    case Get(keys, withCas, noreply) => GetAll(w, keys, withCas, noreply)
    case Delete(key, noreply) =>
      Replied(w.(store := S.Deleted(w.store, key)),
        if key in w.store.entries then "DELETED\r\n" else "NOT_FOUND\r\n", noreply)
    case Answer(msg, noreply) => Replied(w, msg, noreply)
    case Quit => w.(connected := false)
  }

  predicate AreCommands(cs: seq<Command>) { forall c <- cs :: IsCommand(c) }

  function Run(w: World, cs: seq<Command>): (r: World)
    requires S.WellTerminated(w.store) && AreCommands(cs)
    ensures S.WellTerminated(r.store)
    decreases |cs|
  {
    if cs == [] then w else Run(Exec(w, cs[0]), cs[1..])
  }

  /** The commands of a whole stream, up to one that is incomplete or undefined. */
  function Commands(stream: string): (cs: seq<Command>)
    ensures AreCommands(cs)
    decreases |stream|
  {
    var end := B.FindCRLF(stream);
    if end < 0 then []
    else
      var rest := stream[end + 2..];
      match ParseLine(stream[..end])
      case Whole(c) => [c] + Commands(rest)
      case Wants(policy, key, flags, cas, size, noreply) =>
        if |rest| < size then []
        else [Store(policy, key, flags, cas, rest[..size], noreply)] + Commands(rest[size..])
      case Skips(policy, key, size, noreply) =>
        [TooLarge(key, noreply)] + (if |rest| < size then [] else Commands(rest[size..]))
      case Undefined => []
  }

  // ---------- the session's own way through the stream ----------

  datatype Phase = NewCommand | ReceiveValue | DiscardValue | Broken

  /** The item being received: size is the length of its value, got what has arrived of it. */
  datatype Pending = Pending(key: string, flags: nat, cas: nat, size: nat, got: string)

  datatype Mode = Mode(phase: Phase, noreply: bool, policy: S.Policy, item: Option<Pending>, discard: nat)

  const IDLE := Mode(NewCommand, false, S.Invalid, None, 0)

  datatype State = State(w: World, s: Mode)

  predicate ModeOk(s: Mode) {
    match s.phase
    case NewCommand => s == IDLE
    case ReceiveValue =>
      s.item.Some? && s.item.value.size >= 2
      && |s.item.value.got| < s.item.value.size && s.discard == 0
    case DiscardValue => s.discard > 0 && s.item.None?
    case Broken => true
  }

  predicate Ok(st: State) { S.WellTerminated(st.w.store) && ModeOk(st.s) }

  function AfterLine(w: World, l: Line): (st: State)
    requires S.WellTerminated(w.store) && IsLine(l)
    ensures Ok(st)
  {
    match l
    case Whole(c) => State(Exec(w, c), IDLE)
    case Wants(policy, key, flags, cas, size, noreply) =>
      State(w, Mode(ReceiveValue, noreply, policy, Some(Pending(key, flags, cas, size, "")), 0))
    case Skips(policy, key, size, noreply) =>
      State(Exec(w, TooLarge(key, noreply)), Mode(DiscardValue, noreply, policy, None, size))
    case Undefined => State(w, IDLE.(phase := Broken))
  }

  /** More bytes of the value; when it is complete it is stored. */
  function Received(st: State, data: string): (r: State)
    requires Ok(st) && st.s.phase == ReceiveValue
    requires |st.s.item.value.got| + |data| <= st.s.item.value.size
    ensures Ok(r)
  {
    var item := st.s.item.value;
    var got := item.got + data;
    if |got| == item.size then
      State(Exec(st.w, Store(st.s.policy, item.key, item.flags, item.cas, got, st.s.noreply)), IDLE)
    else st.(s := st.s.(item := Some(item.(got := got))))
  }

  function Skipped(st: State, n: nat): (r: State)
    requires Ok(st) && st.s.phase == DiscardValue && n <= st.s.discard
    ensures Ok(r)
  {
    if n == st.s.discard then State(st.w, IDLE) else st.(s := st.s.(discard := st.s.discard - n))
  }

  function Min(a: nat, b: nat): nat { if a < b then a else b }

  /** One round of the loop: it goes on with the rest, or waits for more bytes. */
  datatype Progress = Wait(st: State) | Go(st: State, rest: string)

  function Round(st: State, bytes: string): (p: Progress)
    requires Ok(st) && bytes != ""
    ensures Ok(p.st) && (p.Go? ==> |p.rest| < |bytes|)
  {
    match st.s.phase
    case NewCommand =>
      var end := B.FindCRLF(bytes);
      if end >= 0 then Go(AfterLine(st.w, ParseLine(bytes[..end])), bytes[end + 2..])
      else Wait(if |bytes| > MAX_LINE then st.(w := st.w.(connected := false)) else st)
    case ReceiveValue =>
      var n := Min(|bytes|, st.s.item.value.size - |st.s.item.value.got|);
      Go(Received(st, bytes[..n]), bytes[n..])
    case DiscardValue =>
      var n := Min(|bytes|, st.s.discard);
      Go(Skipped(st, n), bytes[n..])
    case Broken => Wait(st)
  }

  /** onMessage: the state it comes to, and the bytes it leaves in the buffer. */
  function Consume(st: State, bytes: string): (r: (State, string))
    requires Ok(st)
    ensures Ok(r.0)
    decreases |bytes|
  {
    if bytes == "" then (st, "")
    else
      match Round(st, bytes)
      case Wait(next) => (next, bytes)
      case Go(next, rest) => Consume(next, rest)
  }

  // ---------- any fragmentation gives the same ----------

  /** The line that starts here ends before the server gives up on it. */
  predicate LineEnds(bytes: string) {
    var end := B.FindCRLF(bytes);
    if end < 0 then |bytes| <= MAX_LINE else end < MAX_LINE
  }

  /** So does every command line of the stream. */
  predicate LinesShort(stream: string)
    decreases |stream|
  {
    LineEnds(stream) &&
    var end := B.FindCRLF(stream);
    end >= 0 ==>
      var rest := stream[end + 2..];
      match ParseLine(stream[..end])
      case Whole(_) => LinesShort(rest)
      case Wants(_, _, _, _, size, _) => |rest| >= size ==> LinesShort(rest[size..])
      case Skips(_, _, size, _) => |rest| >= size ==> LinesShort(rest[size..])
      case Undefined => true
  }

  lemma LineEndsBefore(a: string, b: string)
    requires LineEnds(a + b)
    ensures LineEnds(a)
  {
    if B.FindCRLF(a) >= 0 {
      B.FindCRLFMore(a, b);
    } else if B.FindCRLF(a + b) >= 0 {
      assert B.FindCRLF(a + b) + 2 > |a| || B.CrlfAt(a, B.FindCRLF(a + b));
    }
  }

  // ---------- the commands in the bytes, whatever the world ----------

  /** The mode after some bytes, the bytes left over, and the commands that were completed. */
  datatype Taken = Taken(mode: Mode, rest: string, cs: seq<Command>)

  /** What a round takes from the bytes, None when it waits for more. */
  function TakeOne(s: Mode, bytes: string): (r: Option<Taken>)
    requires ModeOk(s) && bytes != ""
    ensures r.Some? ==> ModeOk(r.value.mode) && |r.value.rest| < |bytes| && AreCommands(r.value.cs)
  {
    match s.phase
    case NewCommand =>
      var end := B.FindCRLF(bytes);
      if end < 0 then None else Some(TakeLine(ParseLine(bytes[..end]), bytes[end + 2..]))
    case ReceiveValue =>
      var item := s.item.value;
      var n := Min(|bytes|, item.size - |item.got|);
      var got := item.got + bytes[..n];
      if |got| == item.size then
        Some(Taken(IDLE, bytes[n..], [Store(s.policy, item.key, item.flags, item.cas, got, s.noreply)]))
      else Some(Taken(s.(item := Some(item.(got := got))), bytes[n..], []))
    case DiscardValue =>
      var n := Min(|bytes|, s.discard);
      Some(Taken(if n == s.discard then IDLE else s.(discard := s.discard - n), bytes[n..], []))
    case Broken => None
  }

  function TakeLine(l: Line, rest: string): (t: Taken)
    requires IsLine(l)
    ensures ModeOk(t.mode) && AreCommands(t.cs) && t.rest == rest
  {
    match l
    case Whole(c) => Taken(IDLE, rest, [c])
    case Wants(policy, key, flags, cas, size, noreply) =>
      Taken(Mode(ReceiveValue, noreply, policy, Some(Pending(key, flags, cas, size, "")), 0), rest, [])
    case Skips(policy, key, size, noreply) =>
      Taken(Mode(DiscardValue, noreply, policy, None, size), rest, [TooLarge(key, noreply)])
    case Undefined => Taken(IDLE.(phase := Broken), rest, [])
  }

  function Take(s: Mode, bytes: string): (t: Taken)
    requires ModeOk(s)
    ensures ModeOk(t.mode) && AreCommands(t.cs)
    decreases |bytes|
  {
    if bytes == "" then Taken(s, "", [])
    else
      match TakeOne(s, bytes)
      case None => Taken(s, bytes, [])
      case Some(t) =>
        var u := Take(t.mode, t.rest);
        u.(cs := t.cs + u.cs)
  }

  /** Every line that starts in the bytes ends in time, from any mode of the session. */
  ghost predicate Quiet(s: Mode, bytes: string)
    requires ModeOk(s)
    decreases |bytes|
  {
    bytes != "" ==>
      (s.phase == NewCommand ==> LineEnds(bytes)) &&
      match TakeOne(s, bytes)
      case None => true
      case Some(t) => Quiet(t.mode, t.rest)
  }

  /** A line that has ended, or a value that is complete, is taken just as when more follows. */
  lemma TakeOneMore(s: Mode, a: string, b: string)
    requires ModeOk(s) && a != ""
    ensures
      match TakeOne(s, a)
      case None => true
      case Some(t) =>
        TakeOne(s, a + b) == Some(t.(rest := t.rest + b))
        || (t.rest == "" && b != "" && t.cs == [] && TakeOne(s, a + b) == TakeOne(t.mode, b) && TakeOne(t.mode, b).Some?
            && s.phase != NewCommand && t.mode.phase == s.phase)
  {
    match s.phase
    case NewCommand => if TakeOne(s, a).Some? { LineMore(s, a, b); }
    case ReceiveValue => ReceiveMore(s, a, b);
    case DiscardValue => SkipMore(s, a, b);
    case Broken =>
  }

  lemma LineMore(s: Mode, a: string, b: string)
    requires ModeOk(s) && a != "" && s.phase == NewCommand && TakeOne(s, a).Some?
    ensures TakeOne(s, a + b) == Some(TakeOne(s, a).value.(rest := TakeOne(s, a).value.rest + b))
  {
    hide ParseLine, B.FindCRLF;
    B.FindCRLFMore(a, b);
    var end := B.FindCRLF(a);
    assert (a + b)[..end] == a[..end] && (a + b)[end + 2..] == a[end + 2..] + b;
  }

  lemma ReceiveMore(s: Mode, a: string, b: string)
    requires ModeOk(s) && a != "" && s.phase == ReceiveValue
    ensures TakeOne(s, a).Some?
    ensures
      var t := TakeOne(s, a).value;
      TakeOne(s, a + b) == Some(t.(rest := t.rest + b))
      || (t.rest == "" && b != "" && t.cs == [] && t.mode.phase == ReceiveValue
          && TakeOne(s, a + b) == TakeOne(t.mode, b)
          && TakeOne(t.mode, b).Some?)
  {
    var got, need := s.item.value.got, s.item.value.size - |s.item.value.got|;
    if need <= |a| {
      assert (a + b)[..need] == a[..need] && (a + b)[need..] == a[need..] + b;
    } else if b == "" {
      assert a + b == a && a[|a|..] + b == "";
    } else {
      var n := Min(|a + b|, need);
      assert (a + b)[..n] == a + b[..n - |a|] && (a + b)[n..] == b[n - |a|..] && a[..|a|] == a;
      assert got + (a + b)[..n] == (got + a) + b[..n - |a|];
    }
  }

  lemma SkipMore(s: Mode, a: string, b: string)
    requires ModeOk(s) && a != "" && s.phase == DiscardValue
    ensures TakeOne(s, a).Some?
    ensures
      var t := TakeOne(s, a).value;
      TakeOne(s, a + b) == Some(t.(rest := t.rest + b))
      || (t.rest == "" && b != "" && t.cs == [] && t.mode.phase == DiscardValue
          && TakeOne(s, a + b) == TakeOne(t.mode, b)
          && TakeOne(t.mode, b).Some?)
  {
    if s.discard <= |a| {
      assert (a + b)[s.discard..] == a[s.discard..] + b;
    } else if b == "" {
      assert a + b == a && a[|a|..] + b == "";
    } else {
      var n := Min(|a + b|, s.discard);
      assert (a + b)[n..] == b[n - |a|..];
    }
  }

  /** More commands behind those taken already. */
  function Behind(t: Taken, u: Taken): Taken { u.(cs := t.cs + u.cs) }

  /** Bytes in two pieces: the same mode, the same bytes left over, the same commands. */
  lemma {:induction false} TakeInTwo(s: Mode, a: string, b: string)
    requires ModeOk(s) && Quiet(s, a + b)
    ensures
      var t := Take(s, a);
      Quiet(t.mode, t.rest + b) && Take(s, a + b) == Behind(t, Take(t.mode, t.rest + b))
    decreases |a|
  {
    hide TakeOne, ModeOk, LineEnds;
    if a == "" {
      assert a + b == b && "" + b == b;
      assert [] + Take(s, b).cs == Take(s, b).cs;
    } else {
      TakeOneMore(s, a, b);
      match TakeOne(s, a)
      case None => assert [] + Take(s, a + b).cs == Take(s, a + b).cs;
      case Some(t) =>
        if TakeOne(s, a + b) == Some(t.(rest := t.rest + b)) {
          TakeInTwo(t.mode, t.rest, b);
          var u := Take(t.mode, t.rest);
          var v := Take(u.mode, u.rest + b);
          assert t.cs + (u.cs + v.cs) == (t.cs + u.cs) + v.cs;
        } else {
          assert "" + b == b && Take(t.mode, "") == Taken(t.mode, "", []);
          assert [] + ([] + Take(t.mode, b).cs) == Take(t.mode, b).cs;
        }
    }
  }

  /** Nothing more is taken before more bytes arrive. */
  lemma {:induction false} TakeStops(s: Mode, bytes: string)
    requires ModeOk(s)
    ensures var t := Take(s, bytes); Take(t.mode, t.rest) == Taken(t.mode, t.rest, [])
    decreases |bytes|
  {
    hide TakeOne, ModeOk;
    if bytes != "" && TakeOne(s, bytes).Some? {
      TakeStops(TakeOne(s, bytes).value.mode, TakeOne(s, bytes).value.rest);
    }
  }

  // ---------- a session does just these commands ----------

  lemma {:induction false} RunAppend(w: World, cs: seq<Command>, ds: seq<Command>)
    requires S.WellTerminated(w.store) && AreCommands(cs) && AreCommands(ds)
    ensures Run(w, cs + ds) == Run(Run(w, cs), ds)
    decreases |cs|
  {
    hide Exec, S.WellTerminated;
    if cs == [] {
      assert cs + ds == ds;
    } else {
      RunAppend(Exec(w, cs[0]), cs[1..], ds);
      assert (cs + ds)[1..] == cs[1..] + ds;
    }
  }

  lemma RunOne(w: World, c: Command)
    requires S.WellTerminated(w.store) && IsCommand(c)
    ensures Run(w, [c]) == Exec(w, c)
  {
    hide Exec, S.WellTerminated;
    assert [c][1..] == [];
  }

  lemma RoundTakes(w: World, s: Mode, bytes: string)
    requires S.WellTerminated(w.store) && ModeOk(s) && bytes != "" && (s.phase == NewCommand ==> LineEnds(bytes))
    ensures Round(State(w, s), bytes) ==
      match TakeOne(s, bytes)
      case None => Wait(State(w, s))
      case Some(t) => Go(State(Run(w, t.cs), t.mode), t.rest)
  {
    hide ParseLine, Exec, S.WellTerminated, B.FindCRLF;
    match s.phase
    case NewCommand =>
      if B.FindCRLF(bytes) >= 0 { LineTakes(w, ParseLine(bytes[..B.FindCRLF(bytes)]), bytes[B.FindCRLF(bytes) + 2..]); }
    case ReceiveValue =>
      var item := s.item.value;
      var n := Min(|bytes|, item.size - |item.got|);
      if n == item.size - |item.got| {
        RunOne(w, Store(s.policy, item.key, item.flags, item.cas, item.got + bytes[..n], s.noreply));
      }
    case DiscardValue =>
    case Broken =>
  }

  lemma LineTakes(w: World, l: Line, rest: string)
    requires S.WellTerminated(w.store) && IsLine(l)
    ensures AfterLine(w, l) == State(Run(w, TakeLine(l, rest).cs), TakeLine(l, rest).mode)
  {
    hide Exec, S.WellTerminated;
    match l
    case Whole(c) => RunOne(w, c);
    case Wants(_, _, _, _, _, _) =>
    case Skips(_, key, _, noreply) => RunOne(w, TooLarge(key, noreply));
    case Undefined =>
  }

  lemma {:induction false} ConsumeTakes(w: World, s: Mode, bytes: string)
    requires S.WellTerminated(w.store) && ModeOk(s) && Quiet(s, bytes)
    ensures var t := Take(s, bytes); Consume(State(w, s), bytes) == (State(Run(w, t.cs), t.mode), t.rest)
    decreases |bytes|
  {
    hide Round, TakeOne, ModeOk, LineEnds, S.WellTerminated;
    if bytes != "" {
      RoundTakes(w, s, bytes);
      match TakeOne(s, bytes)
      case None =>
      case Some(t) =>
        ConsumeTakes(Run(w, t.cs), t.mode, t.rest);
        RunAppend(w, t.cs, Take(t.mode, t.rest).cs);
    }
  }

  /** Bytes in two pieces lead to the state that they lead to at once, from any state. */
  lemma ConsumeInTwo(st: State, a: string, b: string)
    requires Ok(st) && Quiet(st.s, a + b)
    ensures
      var (next, rest) := Consume(st, a);
      Consume(st, a + b) == Consume(next, rest + b) && Quiet(next.s, rest + b)
  {
    hide Consume, Take, ModeOk, S.WellTerminated;
    QuietBefore(st.s, a, b);
    TakeInTwo(st.s, a, b);
    var t := Take(st.s, a);
    ConsumeTakes(st.w, st.s, a);
    ConsumeTakes(st.w, st.s, a + b);
    ConsumeTakes(Run(st.w, t.cs), t.mode, t.rest + b);
    RunAppend(st.w, t.cs, Take(t.mode, t.rest + b).cs);
  }

  lemma {:induction false} QuietBefore(s: Mode, a: string, b: string)
    requires ModeOk(s) && Quiet(s, a + b)
    ensures Quiet(s, a)
    decreases |a|
  {
    hide TakeOne, ModeOk, LineEnds;
    if a != "" {
      if s.phase == NewCommand { LineEndsBefore(a, b); }
      TakeOneMore(s, a, b);
      match TakeOne(s, a)
      case None =>
      case Some(t) =>
        if TakeOne(s, a + b) == Some(t.(rest := t.rest + b)) {
          QuietBefore(t.mode, t.rest, b);
        }
    }
  }

  /** Pieces that arrive one after the other, each added to what was left in the buffer. */
  function FeedAll(st: State, pending: string, pieces: seq<string>): (r: (State, string))
    requires Ok(st)
    ensures Ok(r.0)
    decreases |pieces|
  {
    if pieces == [] then (st, pending)
    else
      var (next, rest) := Consume(st, pending + pieces[0]);
      FeedAll(next, rest, pieces[1..])
  }

  lemma {:induction false} FeedAllIs(st: State, pending: string, pieces: seq<string>)
    requires Ok(st) && Quiet(st.s, pending + Concat(pieces)) && Take(st.s, pending) == Taken(st.s, pending, [])
    ensures FeedAll(st, pending, pieces) == Consume(st, pending + Concat(pieces))
    decreases |pieces|
  {
    hide Consume, Take, Quiet, ModeOk, S.WellTerminated;
    if pieces == [] {
      assert pending + "" == pending;
      ConsumeTakes(st.w, st.s, pending);
    } else {
      var a, b := pending + pieces[0], Concat(pieces[1..]);
      assert pending + Concat(pieces) == a + b;
      ConsumeInTwo(st, a, b);
      QuietBefore(st.s, a, b);
      ConsumeTakes(st.w, st.s, a);
      TakeStops(st.s, a);
      FeedAllIs(Consume(st, a).0, Consume(st, a).1, pieces[1..]);
    }
  }

  // ---------- and they are those of the stream ----------

  /** Behind a command line: the value, or the bytes to be skipped, if all of it is there. */
  lemma TakeValue(l: Line, rest: string)
    requires IsLine(l) && (l.Wants? || l.Skips?)
    ensures
      var s := TakeLine(l, rest).mode;
      if |rest| < l.size then Take(s, rest).cs == [] && Quiet(s, rest)
      else
        Take(s, rest) == Behind(Taken(IDLE, rest[l.size..], Stores(l, rest)), Take(IDLE, rest[l.size..]))
        && Quiet(s, rest) == Quiet(IDLE, rest[l.size..])
  {
    hide TakeOne, TakeLine, Stores, Take, Quiet, ModeOk, AreCommands;
    var s := TakeLine(l, rest).mode;
    if rest == "" {
      TakeNone(s);
    } else {
      ValueRound(l, rest);
      TakeStep(s, rest);
      if |rest| < l.size { TakeNone(TakeOne(s, rest).value.mode); }
    }
  }

  lemma TakeNone(s: Mode)
    requires ModeOk(s)
    ensures Take(s, "") == Taken(s, "", []) && Quiet(s, "")
  {
  }

  lemma TakeStep(s: Mode, bytes: string)
    requires ModeOk(s) && bytes != "" && TakeOne(s, bytes).Some? && s.phase != NewCommand
    ensures
      var t := TakeOne(s, bytes).value;
      Take(s, bytes) == Behind(t, Take(t.mode, t.rest)) && Quiet(s, bytes) == Quiet(t.mode, t.rest)
  {
    hide TakeOne, ModeOk, LineEnds;
  }

  /** The command that a complete value behind a line makes. */
  function Stores(l: Line, rest: string): (cs: seq<Command>)
    requires IsLine(l) && (l.Wants? || l.Skips?) && |rest| >= l.size
    ensures AreCommands(cs)
  {
    if l.Wants? then [Store(l.policy, l.key, l.flags, l.cas, rest[..l.size], l.noreply)] else []
  }

  lemma ValueRound(l: Line, rest: string)
    requires IsLine(l) && (l.Wants? || l.Skips?) && rest != ""
    ensures
      var s := TakeLine(l, rest).mode;
      var r := TakeOne(s, rest);
      && r.Some? && s.phase != NewCommand
      && (|rest| < l.size ==> r.value.rest == "" && r.value.cs == [])
      && (|rest| >= l.size ==> r.value == Taken(IDLE, rest[l.size..], Stores(l, rest)))
  {
    var n := Min(|rest|, l.size);
    assert "" + rest[..n] == rest[..n] && rest[|rest|..] == "";
  }

  lemma {:induction false} TakeCommands(stream: string)
    requires LinesShort(stream)
    ensures Quiet(IDLE, stream) && Take(IDLE, stream).cs == Commands(stream)
    decreases |stream|
  {
    hide ParseLine, LineEnds, B.FindCRLF, TakeOne, TakeLine, Stores, Take, Quiet, AreCommands, Commands, LinesShort;
    if stream == "" {
      TakeNone(IDLE);
      NoCommands(stream);
    } else if B.FindCRLF(stream) < 0 {
      TakeNoLine(stream);
      NoCommands(stream);
    } else {
      var end := B.FindCRLF(stream);
      var l, rest := ParseLine(stream[..end]), stream[end + 2..];
      TakeLineStep(stream);
      LineModes(l, rest);
      CommandsStep(stream);
      LinesStep(stream);
      if l.Whole? {
        TakeCommands(rest);
      } else if l.Undefined? {
        BrokenTakes(rest);
      } else {
        TakeValue(l, rest);
        if |rest| >= l.size {
          TakeCommands(rest[l.size..]);
          Chain(TakeLine(l, rest).cs, Stores(l, rest), Commands(rest[l.size..]));
        }
      }
    }
  }

  lemma Chain(a: seq<Command>, b: seq<Command>, c: seq<Command>)
    ensures a + (b + c) == (a + b) + c
  {
  }

  lemma NoCommands(stream: string)
    requires stream == "" || B.FindCRLF(stream) < 0
    ensures Commands(stream) == []
  {
    hide ParseLine;
    if stream == "" { assert B.FindCRLF(stream) < 0; }
  }

  /** The commands of a stream, by its first line. */
  lemma CommandsStep(stream: string)
    requires stream != "" && B.FindCRLF(stream) >= 0 && LinesShort(stream)
    ensures
      var end := B.FindCRLF(stream);
      var l, rest := ParseLine(stream[..end]), stream[end + 2..];
      && (l.Whole? ==> Commands(stream) == [l.command] + Commands(rest))
      && (l.Undefined? ==> Commands(stream) == [])
      && ((l.Wants? || l.Skips?) && |rest| < l.size ==> Commands(stream) == TakeLine(l, rest).cs)
      && (l.Wants? && |rest| >= l.size ==> Commands(stream) == Stores(l, rest) + Commands(rest[l.size..]))
      && (l.Skips? && |rest| >= l.size ==>
            Commands(stream) == [TooLarge(l.key, l.noreply)] + Commands(rest[l.size..]))
  {
    hide ParseLine, LineEnds, B.FindCRLF, LinesShort, AreCommands, IsCommand;
  }

  lemma LinesStep(stream: string)
    requires stream != "" && B.FindCRLF(stream) >= 0 && LinesShort(stream)
    ensures
      var end := B.FindCRLF(stream);
      var l, rest := ParseLine(stream[..end]), stream[end + 2..];
      && (l.Whole? ==> LinesShort(rest))
      && ((l.Wants? || l.Skips?) && |rest| >= l.size ==> LinesShort(rest[l.size..]))
  {
    hide ParseLine, LineEnds, B.FindCRLF;
  }

  lemma TakeNoLine(stream: string)
    requires stream != "" && B.FindCRLF(stream) < 0 && LinesShort(stream)
    ensures Take(IDLE, stream) == Taken(IDLE, stream, []) && Quiet(IDLE, stream)
  {
    hide ParseLine, LineEnds, B.FindCRLF;
  }

  lemma TakeLineStep(stream: string)
    requires stream != "" && B.FindCRLF(stream) >= 0 && LinesShort(stream)
    ensures
      var end := B.FindCRLF(stream);
      var t := TakeLine(ParseLine(stream[..end]), stream[end + 2..]);
      Take(IDLE, stream) == Behind(t, Take(t.mode, t.rest)) && Quiet(IDLE, stream) == Quiet(t.mode, t.rest)
  {
    hide ParseLine, LineEnds, B.FindCRLF, TakeLine;
  }

  /** The mode behind a line, what it commands by itself, and what a complete value makes of it. */
  lemma LineModes(l: Line, rest: string)
    requires IsLine(l)
    ensures
      var t := TakeLine(l, rest);
      && (l.Whole? ==> t.mode == IDLE && t.cs == [l.command])
      && (l.Wants? ==> t.cs == [])
      && (l.Skips? ==> t.cs == [TooLarge(l.key, l.noreply)])
      && (l.Undefined? ==> t.mode == IDLE.(phase := Broken) && t.cs == [])
      && (l.Wants? && |rest| >= l.size ==>
            Stores(l, rest) == [Store(l.policy, l.key, l.flags, l.cas, rest[..l.size], l.noreply)])
      && (l.Skips? && |rest| >= l.size ==> Stores(l, rest) == [])
  {
  }

  lemma BrokenTakes(bytes: string)
    ensures Take(IDLE.(phase := Broken), bytes).cs == [] && Quiet(IDLE.(phase := Broken), bytes)
  {
  }

  /** A whole stream at once: the session does its commands, one after the other, on the map. */
  lemma ConsumeRuns(w: World, stream: string)
    requires S.WellTerminated(w.store) && LinesShort(stream)
    ensures Consume(State(w, IDLE), stream).0.w == Run(w, Commands(stream))
  {
    TakeCommands(stream);
    ConsumeTakes(w, IDLE, stream);
  }

  /** However a stream of short lines is cut into pieces, the replies and the store are those of its
      commands run on one map. */
  lemma AnyFragmentation(w: World, pieces: seq<string>)
    requires S.WellTerminated(w.store) && LinesShort(Concat(pieces))
    ensures FeedAll(State(w, IDLE), "", pieces).0.w == Run(w, Commands(Concat(pieces)))
  {
    hide S.WellTerminated, LinesShort, Commands, Consume;
    var stream := Concat(pieces);
    TakeCommands(stream);
    ConsumeRuns(w, stream);
    assert "" + stream == stream && Take(IDLE, "") == Taken(IDLE, "", []);
    FeedAllIs(State(w, IDLE), "", pieces);
  }

  lemma WholeLine(w: World, l: Line)
    requires S.WellTerminated(w.store) && IsLine(l)
    ensures l.Whole? ==> AfterLine(w, l) == State(Exec(w, l.command), IDLE)
    ensures l.Undefined? ==> AfterLine(w, l) == State(w, IDLE.(phase := Broken))
  {
  }

  // ---------- what holds of every stream ----------

  lemma ExecKeepsGood(w: World, c: Command)
    requires S.Good(w.store) && IsCommand(c)
    ensures S.WellTerminated(w.store) && S.Good(Exec(w, c).store) && w.store.counter <= Exec(w, c).store.counter
  {
    S.GoodIs(w.store);
    match c
    case Store(policy, key, flags, cas, data, _) =>
      if EndsWithCRLF(data) { S.ChangeKeeps(w.store, S.Update(key, S.Entry(flags, data, cas), policy)); }
    case TooLarge(key, _) => S.ChangeKeeps(w.store, S.Delete(key));
    case Delete(key, _) => S.ChangeKeeps(w.store, S.Delete(key));
    case _ =>
  }

  /** Whatever a client sends, in whatever pieces, the store stays good. */
  lemma {:induction false} RunKeepsGood(w: World, cs: seq<Command>)
    requires S.Good(w.store) && AreCommands(cs)
    ensures S.WellTerminated(w.store) && S.Good(Run(w, cs).store)
    decreases |cs|
  {
    S.GoodIs(w.store);
    if cs != [] {
      ExecKeepsGood(w, cs[0]);
      RunKeepsGood(Exec(w, cs[0]), cs[1..]);
    }
  }

  // ---------- replies ----------

  /** What a command adds to what was handed to the connection. */
  function Reply(w: World, c: Command): (r: string)
    requires S.WellTerminated(w.store) && IsCommand(c)
    ensures Exec(w, c).handed == w.handed + r
  {
    OnlySends(w, c);
    Exec(w, c).handed[|w.handed|..]
  }

  lemma OnlySends(w: World, c: Command)
    requires S.WellTerminated(w.store) && IsCommand(c)
    ensures w.handed <= Exec(w, c).handed && (c != Quit ==> Exec(w, c).connected == w.connected)
  {
    match c
    case Get(keys, withCas, noreply) => GetSends(w, keys, withCas, noreply);
    case _ =>
  }

  lemma {:induction false} GetSends(w: World, keys: seq<string>, withCas: bool, noreply: bool)
    requires S.WellTerminated(w.store)
    ensures
      var r := GetAll(w, keys, withCas, noreply);
      && w.handed <= r.handed && r.connected == w.connected
      && (r.handed == w.handed || EndsWithCRLF(r.handed[|w.handed|..]))
      && (!w.connected ==> (r.handed != w.handed <==> GoodKeys(keys) == |keys|))
    decreases |keys|
  {
    if keys == [] {
      var end := w.held + "END\r\n";
      assert w.handed + w.held + "END\r\n" == w.handed + end;
    } else if |keys[0]| <= LONGEST_KEY {
      GetSends(Found(w, keys[0], withCas), keys[1..], withCas, noreply);
    }
  }

  /** An update with a well-ended value that is refused, other than a cas of a key that is not there. */
  predicate Unterminated(w: World, c: Command) {
    c.Store? && EndsWithCRLF(c.data) && c.policy != S.Invalid
    && !S.Accepts(w.store, c.key, S.Entry(c.flags, c.data, c.cas), c.policy)
    && (c.policy == S.Cas ==> c.key in w.store.entries)
    && w.connected && !c.noreply
  }

  /** A reply ends in CRLF unless it is to such an update. */
  lemma ReplyTerminated(w: World, c: Command)
    requires S.WellTerminated(w.store) && IsCommand(c)
    ensures Reply(w, c) == "" || EndsWithCRLF(Reply(w, c)) <==> !Unterminated(w, c)
  {
    OnlySends(w, c);
    match c
    case Get(keys, withCas, noreply) => GetSends(w, keys, withCas, noreply);
    case _ =>
  }

  /** The replies to a run's commands, one by one. */
  function Replies(w: World, cs: seq<Command>): (r: seq<string>)
    requires S.WellTerminated(w.store) && AreCommands(cs)
    ensures |r| == |cs|
    decreases |cs|
  {
    if cs == [] then [] else [Reply(w, cs[0])] + Replies(Exec(w, cs[0]), cs[1..])
  }

  /** Some reply of a run lacks its CRLF if and only if some command of it is such an update when it comes. */
  lemma {:induction false} RepliesTerminated(w: World, cs: seq<Command>)
    requires S.WellTerminated(w.store) && AreCommands(cs)
    ensures Run(w, cs).handed == w.handed + Concat(Replies(w, cs))
    ensures (forall r <- Replies(w, cs) :: r == "" || EndsWithCRLF(r)) <==>
      forall k :: 0 <= k < |cs| ==> !Unterminated(Run(w, cs[..k]), cs[k])
    decreases |cs|
  {
    hide Exec, Unterminated, Reply, EndsWithCRLF, S.WellTerminated;
    if cs != [] {
      var next, rest := Exec(w, cs[0]), cs[1..];
      ReplyTerminated(w, cs[0]);
      RepliesTerminated(next, rest);
      assert w.handed + Reply(w, cs[0]) + Concat(Replies(next, rest)) ==
        w.handed + (Reply(w, cs[0]) + Concat(Replies(next, rest)));
      assert cs[..0] == [] && Run(w, cs[..0]) == w;
      forall k | 0 < k < |cs| ensures Run(w, cs[..k]) == Run(next, rest[..k - 1]) && cs[k] == rest[k - 1] {
        assert cs[..k][0] == cs[0] && cs[..k][1..] == rest[..k - 1];
      }
      assert forall k :: 0 <= k < |rest| ==> Run(next, rest[..k]) == Run(w, cs[..k + 1]) && rest[k] == cs[k + 1];
    }
  }

  /** While the connection is shutting down, exactly the gets whose keys are all short enough still hand
      it something. Whether that is written is up to the connection. */
  lemma {:induction false} HandedWhileClosing(w: World, cs: seq<Command>)
    requires S.WellTerminated(w.store) && AreCommands(cs) && !w.connected
    ensures w.handed <= Run(w, cs).handed && !Run(w, cs).connected
    ensures Run(w, cs).handed != w.handed <==>
      exists k :: 0 <= k < |cs| && cs[k].Get? && GoodKeys(cs[k].keys) == |cs[k].keys|
    decreases |cs|
  {
    hide S.WellTerminated, GetAll;
    if cs != [] {
      var next, rest := Exec(w, cs[0]), cs[1..];
      OnlySends(w, cs[0]);
      if cs[0].Get? { GetSends(w, cs[0].keys, cs[0].withCas, cs[0].noreply); }
      HandedWhileClosing(next, rest);
      assert forall k :: 0 < k < |cs| ==> cs[k] == rest[k - 1];
      assert forall k :: 0 <= k < |rest| ==> rest[k] == cs[k + 1];
    }
  }

  lemma RunTwo(w: World, a: Command, b: Command)
    requires S.WellTerminated(w.store) && AreCommands([a, b])
    ensures IsCommand(a) && IsCommand(b) && Run(w, [a, b]) == Exec(Exec(w, a), b)
  {
    hide Exec, S.WellTerminated, IsCommand;
    assert a in [a, b] && b in [a, b] && [a, b][1..] == [b];
    assert Run(Exec(w, a), [b]) == Exec(Exec(w, a), b);
  }

  const EMPTY_VALUE := CRLF

  /** Replacing a key that is not there, and a cas with a value that no version has: replies without CRLF. */
  lemma NotFoundWithoutEnd(w: World)
    requires S.WellTerminated(w.store) && w.connected && "k" !in w.store.entries
    ensures Exec(w, Store(S.Replace, "k", 0, 0, EMPTY_VALUE, false)).handed == w.handed + "NOT_FOUND"
  {
  }

  lemma ExistsWithoutEnd(w: World)
    requires S.WellTerminated(w.store) && w.connected && "k" in w.store.entries && w.store.entries["k"].cas > 0
    ensures Exec(w, Store(S.Cas, "k", 0, 0, EMPTY_VALUE, false)).handed == w.handed + "EXISTS"
  {
  }

  lemma GetMissing(w: World, key: string)
    requires S.WellTerminated(w.store) && key !in w.store.entries && w.held == "" && |key| <= LONGEST_KEY
    ensures GetAll(w, [key], false, false).handed == w.handed + "END\r\n"
  {
    assert [key][1..] == [] && w.handed + "" == w.handed;
    assert GetAll(w, [], false, false).handed == w.handed + w.held + "END\r\n";
  }

  /** A get after a quit does. */
  lemma GetHandedAfterQuit(w: World)
    requires S.WellTerminated(w.store) && w.connected && "k" !in w.store.entries && w.held == ""
    ensures Run(w, [Quit, Get(["k"], false, false)]).handed == w.handed + "END\r\n"
  {
    RunTwo(w, Quit, Get(["k"], false, false));
    GetMissing(w.(connected := false), "k");
  }

  /** The number of keys before one that is too long. */
  function GoodKeys(keys: seq<string>): (n: nat)
    ensures n <= |keys|
  {
    if keys == [] || |keys[0]| > LONGEST_KEY then 0 else 1 + GoodKeys(keys[1..])
  }

  /** What get has found and not handed on is left for a later get exactly if a key that is too long comes
      after one that was found, or something was left already. */
  lemma {:induction false} LeftBehind(w: World, keys: seq<string>, withCas: bool, noreply: bool)
    requires S.WellTerminated(w.store)
    ensures GetAll(w, keys, withCas, noreply).held != "" <==>
      GoodKeys(keys) < |keys| && (w.held != "" || exists i :: 0 <= i < GoodKeys(keys) && keys[i] in w.store.entries)
    decreases |keys|
  {
    if keys != [] && |keys[0]| <= LONGEST_KEY {
      var next := Found(w, keys[0], withCas);
      LeftBehind(next, keys[1..], withCas, noreply);
      assert keys[0] in w.store.entries ==> next.held != "";
      assert forall i :: 0 <= i < GoodKeys(keys[1..]) ==> keys[1..][i] == keys[i + 1];
      if i :| 0 <= i < GoodKeys(keys) && keys[i] in w.store.entries {
        assert i > 0 ==> keys[1..][i - 1] in w.store.entries;
      }
    }
  }

  /** A number that the server prints is read back as that number. */
  lemma ReadsBack(v: nat)
    requires v < TWO_64
    ensures ReadU64(L.Decimal(v)) == Some(v)
  {
    hide L.Natural, L.Value, L.IsNatural, ReadU64;
    L.NaturalIs(v, 10);
    DigitsRead(L.Natural(v, 10));
  }

  lemma DigitsTrimmed(s: string)
    requires L.IsNatural(s, 10)
    ensures TrimLeft(s) == s && s[0] != '-' && s[0] != '+' && L.AllDigits(s, 10)
  {
    FirstDigit(s[0]);
  }

  lemma FirstDigit(c: char)
    requires 0 <= L.DigitValue(c) < 10
    ensures !IsSpace(c) && c != '-' && c != '+'
  {
  }

  lemma DigitsRead(s: string)
    requires L.IsNatural(s, 10) && 0 <= L.Value(s, 10) < TWO_64
    ensures ReadU64(s) == Some(L.Value(s, 10))
  {
    hide L.Value, TrimLeft, L.AllDigits;
    DigitsTrimmed(s);
  }

  predicate IsWord(s: string) { s != "" && ' ' !in s }

  lemma FirstWord(word: string, rest: string)
    requires IsWord(word)
    ensures Tokens(word + " " + rest) == [word] + Tokens(rest)
    ensures Tokens(word) == [word]
  {
    var s := word + " " + rest;
    FindIs(s, ' ', |word|);
    assert s[..|word|] == word && s[|word|..] == " " + rest && (" " + rest)[1..] == rest;
    FindIs(word, ' ', |word|);
    assert word[..|word|] == word && word[|word|..] == "";
  }

  lemma DecimalIsWord(v: nat)
    ensures IsWord(L.Decimal(v)) && 'y' !in L.Decimal(v)
  {
    hide L.Natural, L.Value;
    L.NaturalIs(v, 10);
    assert L.DigitValue(' ') == -1 && L.DigitValue('y') == -1;
  }

  /** The words of an update line as a client prints them. */
  lemma UpdateWords(verb: string, key: string, flags: nat, exptime: nat, size: nat)
    requires IsWord(verb) && IsWord(key)
    ensures Tokens(verb + " " + (key + " " + (L.Decimal(flags) + " " +
        (L.Decimal(exptime) + " " + L.Decimal(size))))) ==
      [verb, key, L.Decimal(flags), L.Decimal(exptime), L.Decimal(size)]
  {
    hide Tokens, L.Decimal, IsWord;
    DecimalIsWord(flags);
    DecimalIsWord(exptime);
    DecimalIsWord(size);
    FirstWord(L.Decimal(size), "");
    FirstWord(L.Decimal(exptime), L.Decimal(size));
    FirstWord(L.Decimal(flags), L.Decimal(exptime) + " " + L.Decimal(size));
    FirstWord(key, L.Decimal(flags) + " " + (L.Decimal(exptime) + " " + L.Decimal(size)));
    FirstWord(verb, key + " " + (L.Decimal(flags) + " " + (L.Decimal(exptime) + " " + L.Decimal(size))));
  }

  /** A line that ends in a digit asks for a reply. */
  lemma NotNoreply(front: string, v: nat)
    ensures !HasNoreply(front + L.Decimal(v))
  {
    hide L.Decimal;
    DecimalIsWord(v);
    var s, d := front + L.Decimal(v), L.Decimal(v);
    assert s[|s| - 1] == d[|d| - 1];
    assert |s| >= |NOREPLY| ==> s[|s| - |NOREPLY|..][|NOREPLY| - 1] == s[|s| - 1];
  }

  /** An update printed as clients print it is understood as that update. */
  lemma SetLineUnderstood(key: string, flags: nat, exptime: nat, size: nat)
    requires IsWord(key) && |key| < LONGEST_KEY && flags < TWO_32 && exptime < TWO_64 && size <= MAX_VALUE
    ensures
      ParseLine("set" + " " + (key + " " + (L.Decimal(flags) + " " + (L.Decimal(exptime) + " " + L.Decimal(size))))) ==
      Wants(S.Set, key, flags, 0, size + 2, false)
  {
    hide Tokens, L.Decimal, ReadU64;
    var front := "set" + " " + (key + " " + (L.Decimal(flags) + " " + (L.Decimal(exptime) + " ")));
    var line := "set" + " " + (key + " " + (L.Decimal(flags) + " " + (L.Decimal(exptime) + " " + L.Decimal(size))));
    assert line == front + L.Decimal(size);
    NotNoreply(front, size);
    UpdateWords("set", key, flags, exptime, size);
    ReadsBack(flags);
    ReadsBack(exptime);
    ReadsBack(size);
  }

  // ---------- the session ----------

  /** The connection, as far as a session uses it. */
  class Peer {
    var connected: bool
    var handed: string

    constructor ()
      ensures connected && handed == ""
    {
      connected, handed := true, "";
    }

    method Send(msg: string)
      modifies this`handed
      ensures handed == if connected then old(handed) + msg else old(handed)
    {
      if connected {
        handed := handed + msg;
      }
    }

    /** Sending a whole buffer does not ask whether the connection is still up. */
    method SendBuffer(buf: B.Buffer)
      requires buf.Valid()
      modifies this`handed, buf
      ensures buf.Valid() && buf.Contents() == "" && handed == old(handed) + old(buf.Contents())
    {
      handed := handed + buf.Contents();
      buf.RetrieveAll();
    }

    method Shutdown()
      modifies this`connected
      ensures !connected
    {
      connected := false;
    }
  }

  function PendingOf(item: Item): Pending
    requires item.Valid()
    reads item, item.data
  {
    Pending(item.Key(), item.flags, item.cas, item.valuelen, item.Received())
  }

  class Session {
    const owner: S.MemcacheServer
    const conn: Peer
    var phase: Phase
    var command: string
    var noreply: bool
    var policy: S.Policy
    var currItem: Item?
    var bytesToDiscard: nat
    const needle: Item
    const outputBuf: B.Buffer

    function ItemObjects(): set<object>
      reads this
    {
      if currItem == null then {} else {currItem, currItem.data}
    }

    ghost predicate ItemValid()
      reads this, ItemObjects(), needle, needle.data
    {
      && needle.Valid() && needle.hashOf == owner.hashOf
      && needle.valuelen == 2 && needle.data.Length == LONGEST_KEY + 2
      && (currItem != null ==>
            currItem.Valid() && currItem.hashOf == owner.hashOf && currItem != needle && currItem.data != needle.data)
    }

    ghost predicate Valid()
      reads this, ItemObjects(), needle, needle.data, owner, owner.shards, outputBuf, conn
    {
      && ItemValid() && owner.Valid() && outputBuf.Valid() && (phase == NewCommand ==> command == "")
      && Ok(View())
    }

    ghost predicate HasItem()
      reads this, ItemObjects()
    {
      currItem != null ==> currItem.Valid()
    }

    /** What the session is doing. */
    ghost function Now(): Mode
      requires HasItem()
      reads this, ItemObjects()
    {
      Mode(phase, noreply, policy, if currItem == null then None else Some(PendingOf(currItem)), bytesToDiscard)
    }

    ghost function Outside(): World
      requires outputBuf.Valid()
      reads owner, outputBuf, conn
    {
      World(owner.store, conn.handed, outputBuf.Contents(), conn.connected)
    }

    ghost function View(): State
      requires HasItem() && outputBuf.Valid()
      reads this, ItemObjects(), owner, outputBuf, conn
    {
      State(Outside(), Now())
    }

    constructor (owner: S.MemcacheServer, conn: Peer)
      requires owner.Valid()
      ensures Valid() && this.owner == owner && this.conn == conn
        && fresh(needle) && fresh(needle.data) && fresh(outputBuf)
      ensures View() == State(World(owner.store, conn.handed, "", conn.connected), IDLE)
    {
      this.owner, this.conn := owner, conn;
      phase, command, noreply, policy, currItem, bytesToDiscard := NewCommand, "", false, S.Invalid, null, 0;
      needle := new Item(owner.hashOf, seq(LONGEST_KEY, _ => 'x'), 0, 2, 0);
      outputBuf := new B.Buffer(B.INITIAL_SIZE);
      new;
      GoodTerminated(owner);
    }

    method Reply(msg: string)
      requires ItemValid() && outputBuf.Valid()
      modifies conn
      ensures ItemValid() && Now() == old(Now())
      ensures Outside() == Replied(old(Outside()), msg, noreply)
    {
      if !noreply {
        conn.Send(msg);
      }
    }

    method ResetRequest()
      requires ItemValid()
      modifies this
      ensures ItemValid() && Now() == IDLE.(phase := old(phase)) && command == "" && currItem == null
    {
      command := "";
      noreply := false;
      policy := S.Invalid;
      currItem := null;
      bytesToDiscard := 0;
    }

    // ---------- one command line ----------

    /** The item of a key, if the server has it. */
    method LookUp(key: string) returns (found: bool, it: S.Stored)
      requires ItemValid() && owner.Valid() && |key| <= LONGEST_KEY
      modifies needle, needle.data
      ensures ItemValid() && needle.Key() == key && found == (key in owner.store.entries)
      ensures found ==> it == S.Stored(key, owner.store.entries[key])
    {
      needle.ResetKey(key);
      found, it := owner.GetItem(needle);
    }

    method DoGet(keys: seq<string>, withCas: bool)
      requires ItemValid() && owner.Valid() && outputBuf.Valid()
      modifies conn, outputBuf, needle, needle.data
      ensures ItemValid() && outputBuf.Valid() && S.WellTerminated(old(owner.store))
      ensures Outside() == GetAll(old(Outside()), keys, withCas, noreply)
    {
      hide S.WellTerminated, ItemText;
      GoodTerminated(owner);
      var rest := keys;
      while rest != []
        invariant ItemValid() && outputBuf.Valid()
        invariant GetAll(Outside(), rest, withCas, noreply) == GetAll(old(Outside()), keys, withCas, noreply)
        decreases |rest|
      {
        if |rest[0]| > LONGEST_KEY {
          Reply(BAD_FORMAT);
          return;
        }
        OutputItem(rest[0], withCas);
        rest := rest[1..];
      }
      outputBuf.Append("END\r\n");
      assert old(conn.handed) <= old(conn.handed);
      conn.SendBuffer(outputBuf);
    }

    method OutputItem(key: string, withCas: bool)
      requires ItemValid() && owner.Valid() && outputBuf.Valid() && |key| <= LONGEST_KEY
      modifies outputBuf, needle, needle.data
      ensures ItemValid() && outputBuf.Valid() && S.WellTerminated(owner.store)
      ensures Outside() == Found(old(Outside()), key, withCas)
    {
      hide S.WellTerminated, ItemText;
      GoodTerminated(owner);
      WellTerminatedIs(owner.store);
      var found, it := LookUp(key);
      if found {
        Output(key, it.entry.flags, it.entry.value, it.entry.cas, withCas, outputBuf);
      }
    }

    method Forget(key: string) returns (deleted: bool)
      requires ItemValid() && owner.Valid() && |key| <= LONGEST_KEY
      modifies owner, owner.shards, needle, needle.data
      ensures ItemValid() && owner.Valid() && deleted == (key in old(owner.store.entries))
      ensures owner.store == S.Deleted(old(owner.store), key)
    {
      needle.ResetKey(key);
      deleted := owner.DeleteItem(needle);
    }

    method DoDelete(args: seq<string>)
      requires ItemValid() && owner.Valid() && outputBuf.Valid() && args != []
      modifies conn, owner, owner.shards, needle, needle.data
      ensures ItemValid() && owner.Valid() && S.WellTerminated(old(owner.store))
      ensures Outside() == Exec(old(Outside()), ParseDelete(args, noreply).command)
    {
      hide S.WellTerminated, Replied, Exec, ParseDelete, ItemValid, Now, PendingOf;
      GoodTerminated(owner);
      DeleteIs(args, noreply);
      AnswerIs(Outside(), BAD_FORMAT, noreply);
      AnswerIs(Outside(), BAD_DELETE, noreply);
      var key := args[0];
      if |key| > LONGEST_KEY {
        Reply(BAD_FORMAT);
      } else if |args| > 1 && args[1] != "0" {
        Reply(BAD_DELETE);
      } else {
        DeleteKey(key);
      }
    }

    method DeleteKey(key: string)
      requires ItemValid() && owner.Valid() && outputBuf.Valid() && |key| <= LONGEST_KEY
      modifies conn, owner, owner.shards, needle, needle.data
      ensures ItemValid() && owner.Valid() && S.WellTerminated(old(owner.store))
      ensures Outside() == Exec(old(Outside()), Delete(key, noreply))
    {
      hide S.WellTerminated, Replied, S.Deleted;
      GoodTerminated(owner);
      var deleted := Forget(key);
      if deleted {
        Reply("DELETED\r\n");
      } else {
        Reply("NOT_FOUND\r\n");
      }
    }

    /** The i-th word as a number. */
    method Read(words: seq<string>, i: nat) returns (good: bool, x: nat)
      ensures good == (i < |words| && ReadU64(words[i]).Some?) && (good ==> x == ReadU64(words[i]).value)
    {
      good, x := false, 0;
      if i < |words| {
        match ReadU64(words[i])
        case Some(v) => good, x := true, v;
        case None =>
      }
    }

    /** The numbers of an update: flags, time, bytes and for cas the value to compare with. */
    method ReadNumbers(words: seq<string>) returns (good: bool, flags: nat, bytes: int, cas: nat)
      requires ItemValid()
      ensures ItemValid() && Now() == old(Now())
      ensures good == AreNumbers(words, if policy == S.Cas then 4 else 3)
      ensures good ==> flags == ReadU64(words[0]).value % TWO_32 && bytes == Int32(ReadU64(words[2]).value)
      ensures good ==> cas == if policy == S.Cas then ReadU64(words[3]).value else 0
    {
      hide ReadU64, Int32;
      bytes, cas := -1, 0;
      var x, exptime := 0, 1;
      good, x := Read(words, 0);
      flags := x % TWO_32;
      if good {
        good, exptime := Read(words, 1);
      }
      if good {
        good, x := Read(words, 2);
        bytes := Int32(x);
      }
      if good && policy == S.Cas {
        good, cas := Read(words, 3);
      }
    }

    /** An assert has failed: nothing more is known of this session. */
    method Break()
      requires ItemValid()
      modifies this
      ensures ItemValid() && Now() == IDLE.(phase := Broken) && currItem == null
    {
      ResetRequest();
      phase := Broken;
    }

    method RefuseValue(key: string, size: nat)
      requires ItemValid() && owner.Valid() && outputBuf.Valid() && |key| <= LONGEST_KEY && currItem == null
      modifies this`phase, this`bytesToDiscard, conn, owner, owner.shards, needle, needle.data
      ensures ItemValid() && owner.Valid() && S.WellTerminated(old(owner.store))
      ensures Outside() == Exec(old(Outside()), TooLarge(key, noreply))
      ensures Now() == Mode(DiscardValue, noreply, policy, None, size)
    {
      hide S.WellTerminated, Replied, S.Deleted;
      GoodTerminated(owner);
      Reply(TOO_LARGE);
      var _ := Forget(key);
      bytesToDiscard := size;
      phase := DiscardValue;
      RepliedStore(old(Outside()), S.Deleted(old(owner.store), key), TOO_LARGE, noreply);
    }

    method ExpectValue(key: string, flags: nat, size: nat, cas: nat)
      requires ItemValid() && size >= 2 && bytesToDiscard == 0
      modifies this`phase, this`currItem
      ensures ItemValid() && currItem != null && fresh(currItem) && fresh(currItem.data)
      ensures Now() == Mode(ReceiveValue, noreply, policy, Some(Pending(key, flags, cas, size, "")), 0)
    {
      currItem := new Item(owner.hashOf, key, flags, size, cas);
      phase := ReceiveValue;
    }

    method StartUpdate(key: string, flags: nat, bytes: int, cas: nat)
      requires ItemValid() && owner.Valid() && outputBuf.Valid() && |key| <= LONGEST_KEY
      requires Now() == IDLE.(noreply := noreply, policy := policy)
      modifies this, conn, owner, owner.shards, needle, needle.data
      ensures ItemValid() && owner.Valid() && S.WellTerminated(old(owner.store))
      ensures currItem != null ==> fresh(currItem) && fresh(currItem.data)
      ensures phase != NewCommand
        && View() == AfterLine(old(Outside()), UpdateOf(old(policy), key, flags, bytes, cas, old(noreply)))
    {
      hide S.WellTerminated, Exec;
      GoodTerminated(owner);
      if bytes < 0 || bytes + 2 >= TWO_32 / 2 {
        Break();
      } else if bytes > MAX_VALUE {
        RefuseValue(key, bytes + 2);
      } else {
        ExpectValue(key, flags, bytes + 2, cas);
      }
    }

    method SetPolicy()
      requires ItemValid() && Now() == IDLE.(noreply := noreply)
      modifies this`policy
      ensures ItemValid() && policy == PolicyOf(command) && currItem == null && phase == NewCommand
      ensures Now() == IDLE.(noreply := noreply, policy := policy)
    {
      policy := PolicyOf(command);
    }

    method DoUpdate(args: seq<string>) returns (done: bool)
      requires ItemValid() && owner.Valid() && outputBuf.Valid() && args != []
      requires Now() == IDLE.(noreply := noreply)
      modifies this, conn, owner, owner.shards, needle, needle.data
      ensures ItemValid() && owner.Valid() && S.WellTerminated(old(owner.store))
      ensures currItem != null ==> fresh(currItem) && fresh(currItem.data)
      ensures
        var l := ParseUpdate(PolicyOf(old(command)), args, old(noreply));
        if done then l == Whole(Answer(BAD_FORMAT, noreply)) && phase == NewCommand && noreply == old(noreply)
                     && Outside() == Replied(old(Outside()), BAD_FORMAT, noreply)
        else phase != NewCommand && IsLine(l) && View() == AfterLine(old(Outside()), l)
    {
      hide S.WellTerminated, AreNumbers, ReadU64, Int32, Replied, UpdateOf, AfterLine, PolicyOf,
        Ok, ParseUpdate, IsLine, ItemValid, Now, PendingOf;
      GoodTerminated(owner);
      SetPolicy();
      ParseUpdateIs(policy, args, noreply);
      var key := args[0];
      var good, flags, bytes, cas := |key| < LONGEST_KEY, 0, -1, 0;
      if good {
        good, flags, bytes, cas := ReadNumbers(args[1..]);
      }
      done := !good;
      if !good {
        Reply(BAD_FORMAT);
      } else {
        StartUpdate(key, flags, bytes, cas);
      }
    }

    /** noreply and the command word. */
    method Begin(request: string) returns (words: seq<string>)
      requires ItemValid() && Now() == IDLE
      modifies this`noreply, this`command
      ensures ItemValid() && Now() == IDLE.(noreply := noreply) && noreply == HasNoreply(request)
      ensures words == Tokens(if noreply then request[..|request| - |NOREPLY|] else request)
      ensures command == if words == [] then old(command) else words[0]
    {
      hide Tokens;
      var line := request;
      if HasNoreply(request) {
        noreply := true;
        line := request[..|request| - |NOREPLY|];
      }
      words := Tokens(line);
      if words != [] {
        command := words[0];
      }
    }

    method Hangup()
      requires ItemValid() && owner.Valid() && outputBuf.Valid()
      modifies conn
      ensures ItemValid() && Now() == old(Now()) && S.WellTerminated(owner.store)
      ensures Outside() == Exec(old(Outside()), Quit)
    {
      GoodTerminated(owner);
      conn.Shutdown();
    }

    /** A command other than an update. */
    method Dispatch(args: seq<string>) returns (done: bool)
      requires ItemValid() && owner.Valid() && outputBuf.Valid() && Now() == IDLE.(noreply := noreply)
      requires PolicyOf(command) == S.Invalid
      modifies this, conn, owner, owner.shards, outputBuf, needle, needle.data
      ensures ItemValid() && owner.Valid() && outputBuf.Valid()
        && S.WellTerminated(old(owner.store)) && currItem == null
      ensures
        var l := ParseCommand(old(command), args, old(noreply));
        if done then l.Whole? && phase == NewCommand && Outside() == Exec(old(Outside()), l.command)
        else phase != NewCommand && IsLine(l) && View() == AfterLine(old(Outside()), l)
    {
      hide S.WellTerminated, Replied, PolicyOf, ParseDelete, GetAll, Ok, PendingOf, Exec, AfterLine, ItemValid;
      GoodTerminated(owner);
      DeleteIs(args, noreply);
      UndefinedIs(Outside());
      AnswerIs(Outside(), VERSION, noreply);
      AnswerIs(Outside(), UNKNOWN, noreply);
      GetIs(Outside(), args, command == "gets", noreply);
      done := true;
      if command == "get" || command == "gets" {
        DoGet(args, command == "gets");
      } else if command == "delete" {
        if args == [] {
          Break();
          done := false;
        } else {
          DoDelete(args);
        }
      } else if command == "version" {
        Reply(VERSION);
      } else if command == "quit" || command == "shutdown" {
        Hangup();
      } else {
        Reply(UNKNOWN);
      }
    }

    method ProcessWords(words: seq<string>) returns (done: bool)
      requires ItemValid() && owner.Valid() && outputBuf.Valid() && Now() == IDLE.(noreply := noreply)
      requires words != [] ==> command == words[0]
      modifies this, conn, owner, owner.shards, outputBuf, needle, needle.data
      ensures ItemValid() && owner.Valid() && outputBuf.Valid() && S.WellTerminated(old(owner.store))
      ensures currItem != null ==> fresh(currItem) && fresh(currItem.data)
      ensures
        var l := LineOf(words, old(noreply));
        IsLine(l) && AfterLine(old(Outside()), l) == if done then State(Outside(), IDLE) else View()
      ensures done <==> phase == NewCommand
    {
      hide S.WellTerminated, LineOf, ParseUpdate, ParseCommand, PolicyOf, AfterLine, IsLine, Exec,
        Replied, Ok, ItemValid, PendingOf;
      GoodTerminated(owner);
      LineIs(words, noreply);
      WholeLine(Outside(), LineOf(words, noreply));
      UndefinedIs(Outside());
      AnswerIs(Outside(), UNKNOWN, noreply);
      AnswerIs(Outside(), BAD_FORMAT, noreply);
      done := true;
      if words == [] {
        Reply(UNKNOWN);
      } else if PolicyOf(command) != S.Invalid {
        if |words| == 1 {
          NothingToUpdate(PolicyOf(command), noreply);
          assert words[1..] == [];
          Break();
          done := false;
        } else {
          done := DoUpdate(words[1..]);
        }
      } else {
        done := Dispatch(words[1..]);
      }
    }

    /** One command line, with the reset of a request that it finishes. */
    method ProcessRequest(request: string)
      requires Valid() && phase == NewCommand
      modifies this, conn, owner, owner.shards, outputBuf, needle, needle.data
      ensures Valid() && View() == AfterLine(old(View()).w, ParseLine(request))
      ensures currItem != null ==> fresh(currItem) && fresh(currItem.data)
    {
      hide S.WellTerminated, Tokens, LineOf, AfterLine, PendingOf, HasNoreply;
      GoodTerminated(owner);
      var words := Begin(request);
      ghost var quiet := noreply;
      assert ParseLine(request) == LineOf(words, quiet);
      var done := ProcessWords(words);
      if done {
        ResetRequest();
      }
    }

    // ---------- values ----------

    method StoreValue() returns (stored: bool, exists_: bool)
      requires ItemValid() && owner.Valid() && outputBuf.Valid() && currItem != null && currItem.Complete()
      modifies owner, owner.shards, currItem`cas
      ensures ItemValid() && owner.Valid() && S.WellTerminated(old(owner.store)) && |old(currItem.Received())| >= 2
      ensures
        var (key, e) := (old(currItem.Key()), old(S.Entry(currItem.flags, currItem.Received(), currItem.cas)));
        && stored == (policy == S.Invalid || S.Accepts(old(owner.store), key, e, policy))
        && exists_ == (key in old(owner.store).entries) && owner.store == S.Updated(old(owner.store), key, e, policy)
    {
      stored, exists_ := owner.StoreItem(currItem, policy);
    }

    method ReplyStored(stored: bool, exists_: bool)
      requires ItemValid() && outputBuf.Valid()
      modifies conn
      ensures ItemValid() && Outside() == Replied(old(Outside()), StoreReply(stored, policy, exists_), noreply)
    {
      if stored {
        Reply("STORED\r\n");
      } else if policy == S.Cas {
        if exists_ {
          Reply("EXISTS");
        } else {
          Reply("NOT_FOUND\r\n");
        }
      } else {
        Reply("NOT_FOUND");
      }
    }

    /** What is done with a value that has arrived. */
    method FinishValue()
      requires ItemValid() && owner.Valid() && outputBuf.Valid() && currItem != null && currItem.NeededBytes() == 0
      modifies this, conn, owner, owner.shards, currItem`cas
      ensures ItemValid() && owner.Valid() && outputBuf.Valid() && S.WellTerminated(old(owner.store))
      ensures |old(currItem.Received())| >= 2 && currItem == null && command == "" && Now() == IDLE
      ensures Outside() == Exec(old(Outside()),
        old(Store(policy, currItem.Key(), currItem.flags, currItem.cas, currItem.Received(), noreply)))
    {
      hide S.WellTerminated, S.Updated, S.Accepts, Replied, StoreReply, PendingOf;
      GoodTerminated(owner);
      if EndsWithCRLF(currItem.Received()) {
        var stored, exists_ := StoreValue();
        ReplyStored(stored, exists_);
      } else {
        Reply(BAD_DATA);
      }
      ResetRequest();
      phase := NewCommand;
    }

    method TakeValue(buf: B.Buffer)
      requires Valid() && phase == ReceiveValue && buf.Valid() && buf != outputBuf && buf.Contents() != ""
      modifies this, conn, owner, owner.shards, buf, ItemObjects()
      ensures Valid() && buf.Valid() && (currItem != null ==> currItem == old(currItem))
      ensures Round(old(View()), old(buf.Contents())) == Go(View(), buf.Contents())
    {
      hide S.WellTerminated, Exec, Round, Ok;
      ReceiveRoundIs(View(), buf.Contents());
      var avail := Min(buf.ReadableBytes(), currItem.NeededBytes());
      currItem.Append(buf.Contents()[..avail]);
      buf.Retrieve(avail);
      if currItem.NeededBytes() == 0 {
        FinishValue();
      }
    }

    method SkipValue(buf: B.Buffer)
      requires Valid() && phase == DiscardValue && buf.Valid() && buf != outputBuf && buf.Contents() != ""
      modifies this, buf
      ensures Valid() && buf.Valid() && currItem == null
      ensures Round(old(View()), old(buf.Contents())) == Go(View(), buf.Contents())
    {
      hide S.WellTerminated, Round, Ok;
      SkipRoundIs(View(), buf.Contents());
      if buf.ReadableBytes() < bytesToDiscard {
        bytesToDiscard := bytesToDiscard - buf.ReadableBytes();
        buf.RetrieveAll();
      } else {
        buf.Retrieve(bytesToDiscard);
        bytesToDiscard := 0;
        ResetRequest();
        phase := NewCommand;
      }
    }

    /** A command line, if a whole one is there. */
    method TakeCommand(buf: B.Buffer) returns (more: bool)
      requires Valid() && phase == NewCommand && buf.Valid() && buf != outputBuf && buf.Contents() != ""
      modifies this, conn, owner, owner.shards, outputBuf, needle, needle.data, buf
      ensures Valid() && buf.Valid()
      ensures currItem != null ==> fresh(currItem) && fresh(currItem.data)
      ensures Round(old(View()), old(buf.Contents())) == if more then Go(View(), buf.Contents()) else Wait(View())
      ensures !more ==> buf.Contents() == old(buf.Contents())
    {
      hide S.WellTerminated, AfterLine, ParseLine, B.FindCRLF, PendingOf, Round, Ok;
      LineRoundIs(View(), buf.Contents());
      var end := B.FindCRLF(buf.Contents());
      more := end >= 0;
      if more {
        ProcessRequest(buf.Contents()[..end]);
        buf.Retrieve(end + 2);
      } else if buf.ReadableBytes() > MAX_LINE {
        conn.Shutdown();
      }
    }

    /** The bytes that have arrived are consumed just as the specification says. */
    method OnMessage(buf: B.Buffer)
      requires Valid() && buf.Valid() && buf != outputBuf
      modifies this, conn, owner, owner.shards, outputBuf, needle, needle.data, buf, ItemObjects()
      ensures Valid() && buf.Valid() && fresh(ItemObjects() - old(ItemObjects()))
      ensures (View(), buf.Contents()) == Consume(old(View()), old(buf.Contents()))
    {
      hide Round, Ok;
      var more := true;
      while more && buf.ReadableBytes() > 0
        invariant Valid() && buf.Valid() && fresh(ItemObjects() - old(ItemObjects()))
        invariant Consume(old(View()), old(buf.Contents())) ==
          if more then Consume(View(), buf.Contents()) else (View(), buf.Contents())
        decreases more, |buf.Contents()|
      {
        if phase == NewCommand {
          more := TakeCommand(buf);
        } else if phase == ReceiveValue {
          TakeValue(buf);
        } else if phase == DiscardValue {
          SkipValue(buf);
        } else {
          BrokenWaits(View(), buf.Contents());
          more := false;
        }
      }
    }
  }

  lemma ReceiveRoundIs(st: State, bytes: string)
    requires Ok(st) && st.s.phase == ReceiveValue && bytes != ""
    ensures S.WellTerminated(st.w.store) && st.s.item.Some? && st.s.item.value.size >= 2 && st.s.discard == 0
    ensures |st.s.item.value.got| < st.s.item.value.size
    ensures
      var item := st.s.item.value;
      var n := Min(|bytes|, item.size - |item.got|);
      var got := item.got + bytes[..n];
      Round(st, bytes) ==
      Go(if |got| == item.size then
        State(Exec(st.w, Store(st.s.policy, item.key, item.flags, item.cas, got, st.s.noreply)), IDLE)
         else State(st.w, st.s.(item := Some(item.(got := got)))),
         bytes[n..])
    ensures Ok(Round(st, bytes).st)
  {
  }

  lemma SkipRoundIs(st: State, bytes: string)
    requires Ok(st) && st.s.phase == DiscardValue && bytes != ""
    ensures st.s.discard > 0 && st.s.item.None? && Ok(Round(st, bytes).st)
    ensures
      var n := Min(|bytes|, st.s.discard);
      Round(st, bytes) ==
      Go(if n == st.s.discard then State(st.w, IDLE) else State(st.w, st.s.(discard := st.s.discard - n)), bytes[n..])
  {
  }

  lemma LineRoundIs(st: State, bytes: string)
    requires Ok(st) && st.s.phase == NewCommand && bytes != ""
    ensures S.WellTerminated(st.w.store) && st.s == IDLE && Ok(Round(st, bytes).st)
    ensures
      var end := B.FindCRLF(bytes);
      Round(st, bytes) ==
      if end >= 0 then Go(AfterLine(st.w, ParseLine(bytes[..end])), bytes[end + 2..])
      else Wait(if |bytes| > MAX_LINE then State(st.w.(connected := false), st.s) else st)
  {
    hide AfterLine, ParseLine, B.FindCRLF, S.WellTerminated, Received, Skipped;
  }

  lemma BrokenWaits(st: State, bytes: string)
    requires Ok(st) && st.s.phase == Broken && bytes != ""
    ensures Round(st, bytes) == Wait(st)
  {
  }

  lemma WellTerminatedIs(store: S.Store)
    requires S.WellTerminated(store)
    ensures forall k <- store.entries :: |store.entries[k].value| >= 2
  {
  }

  lemma NothingToUpdate(policy: S.Policy, noreply: bool)
    ensures ParseUpdate(policy, [], noreply) == Undefined
  {
  }

  lemma LineIs(words: seq<string>, noreply: bool)
    ensures IsLine(LineOf(words, noreply))
    ensures LineOf(words, noreply) ==
      if words == [] then Whole(Answer(UNKNOWN, noreply)) else ParseCommand(words[0], words[1..], noreply)
    ensures words != [] && PolicyOf(words[0]) != S.Invalid ==>
      LineOf(words, noreply) == ParseUpdate(PolicyOf(words[0]), words[1..], noreply)
  {
    hide PolicyOf, ParseUpdate;
  }

  lemma GetIs(w: World, keys: seq<string>, withCas: bool, noreply: bool)
    requires S.WellTerminated(w.store)
    ensures Exec(w, Get(keys, withCas, noreply)) == GetAll(w, keys, withCas, noreply)
  {
  }

  lemma UndefinedIs(w: World)
    requires S.WellTerminated(w.store)
    ensures IsLine(Undefined) && AfterLine(w, Undefined) == State(w, IDLE.(phase := Broken))
  {
  }

  lemma AnswerIs(w: World, msg: string, noreply: bool)
    requires S.WellTerminated(w.store) && EndsWithCRLF(msg)
    ensures Exec(w, Answer(msg, noreply)) == Replied(w, msg, noreply)
  {
  }

  lemma DeleteIs(args: seq<string>, noreply: bool)
    ensures ParseDelete(args, noreply) ==
      if args == [] then Undefined
      else if |args[0]| > LONGEST_KEY then Whole(Answer(BAD_FORMAT, noreply))
      else if |args| > 1 && args[1] != "0" then Whole(Answer(BAD_DELETE, noreply))
      else Whole(Delete(args[0], noreply))
    ensures args != [] ==> ParseDelete(args, noreply).Whole? && IsCommand(ParseDelete(args, noreply).command)
  {
  }

  lemma ParseUpdateIs(policy: S.Policy, args: seq<string>, noreply: bool)
    requires args != []
    ensures
      var (l, numbers) := (ParseUpdate(policy, args, noreply), args[1..]);
      if |args[0]| >= LONGEST_KEY || !AreNumbers(numbers, if policy == S.Cas then 4 else 3) then
        l == Whole(Answer(BAD_FORMAT, noreply))
      else
        && 3 <= |numbers| && ReadU64(numbers[0]).Some? && ReadU64(numbers[2]).Some?
        && (policy == S.Cas ==> |numbers| > 3 && ReadU64(numbers[3]).Some?)
        && l == UpdateOf(policy, args[0], ReadU64(numbers[0]).value % TWO_32, Int32(ReadU64(numbers[2]).value),
                         if policy == S.Cas then ReadU64(numbers[3]).value else 0, noreply)
    ensures LONGEST_KEY == 250 && TWO_32 > 0
    ensures IsLine(ParseUpdate(policy, args, noreply))
  {
    hide ReadU64, Int32, UpdateOf;
  }

  lemma RepliedStore(w: World, store: S.Store, msg: string, noreply: bool)
    ensures Replied(w, msg, noreply).(store := store) == Replied(w.(store := store), msg, noreply)
    ensures Replied(w, msg, noreply).store == w.store
  {
  }

  lemma GoodTerminated(owner: S.MemcacheServer)
    requires owner.Valid()
    ensures S.WellTerminated(owner.store)
  {
    S.GoodIs(owner.store);
  }
}
