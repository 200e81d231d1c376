/** Many clients of one memcached server: their bytes arrive, and their sessions take turns, in any order. A
    turn reads a command or does one part of it on the map: a get looks up each of its keys by itself. */
module MemcacheService {
  import opened Wrappers
  import opened Text
  import opened MemcacheItem
  import opened MemcacheSession
  import S = MemcacheServer

  /** What was handed to one client's connection, what get has found for it, and whether it still takes replies. */
  datatype Client = Client(handed: string, held: string, connected: bool)

  /** The one map, and the clients at it. */
  datatype Room = Room(store: S.Store, clients: seq<Client>)

  /** What a session does at once: a command other than a get, or the look-up of a key, the end of a get, or
      its refusal because of a key that is too long. */
  datatype Part = Do(command: Command) | Look(key: string, withCas: bool) | EndGet | Refuse(noreply: bool)

  /** How far one session is, the bytes in its input buffer, and the parts of a command still to be done. */
  datatype Reader = Reader(mode: Mode, rest: string, todo: seq<Part>)

  datatype Service = Service(room: Room, readers: seq<Reader>)

  /** Bytes reach a client's buffer, or its session takes a turn. */
  datatype Event = Deliver(client: nat, bytes: string) | Turn(client: nat)

  /** A part of a command of one of the clients. */
  datatype Order = Order(client: nat, part: Part)

  predicate IsPart(p: Part) { p.Do? ==> IsCommand(p.command) }

  predicate AreParts(ps: seq<Part>) { forall p <- ps :: IsPart(p) }

  function PartsOfGet(keys: seq<string>, withCas: bool, noreply: bool): (ps: seq<Part>)
    ensures AreParts(ps)
    decreases |keys|
  {
    if keys == [] then [EndGet]
    else if |keys[0]| > LONGEST_KEY then [Refuse(noreply)]
    else [Look(keys[0], withCas)] + PartsOfGet(keys[1..], withCas, noreply)
  }

  function Parts(c: Command): (ps: seq<Part>)
    requires IsCommand(c)
    ensures AreParts(ps)
  {
    if c.Get? then PartsOfGet(c.keys, c.withCas, c.noreply) else [Do(c)]
  }

  function AllParts(cs: seq<Command>): (ps: seq<Part>)
    requires AreCommands(cs)
    ensures AreParts(ps)
    decreases |cs|
  {
    if cs == [] then [] else Parts(cs[0]) + AllParts(cs[1..])
  }

  function ExecPart(w: World, p: Part): (r: World)
    requires S.WellTerminated(w.store) && IsPart(p)
    ensures S.WellTerminated(r.store)
  {
    match p
    case Do(c) => Exec(w, c)
    case Look(key, withCas) => Found(w, key, withCas)
    case EndGet => w.(handed := w.handed + w.held + "END\r\n", held := "")
    case Refuse(noreply) => Replied(w, BAD_FORMAT, noreply)
  }

  function RunParts(w: World, ps: seq<Part>): (r: World)
    requires S.WellTerminated(w.store) && AreParts(ps)
    ensures S.WellTerminated(r.store)
    decreases |ps|
  {
    if ps == [] then w else RunParts(ExecPart(w, ps[0]), ps[1..])
  }

  predicate RoomOk(room: Room, n: nat) { S.WellTerminated(room.store) && |room.clients| == n }

  predicate ReadersOk(rs: seq<Reader>, n: nat) { |rs| == n && forall r <- rs :: ModeOk(r.mode) && AreParts(r.todo) }

  predicate ServiceOk(v: Service, n: nat) { RoomOk(v.room, n) && ReadersOk(v.readers, n) }

  predicate AreEvents(es: seq<Event>, n: nat) { forall e <- es :: e.client < n }

  predicate AreOrders(os: seq<Order>, n: nat) { forall o <- os :: o.client < n && IsPart(o.part) }

  function WorldOf(room: Room, i: nat): World
    requires i < |room.clients|
  {
    World(room.store, room.clients[i].handed, room.clients[i].held, room.clients[i].connected)
  }

  function Put(room: Room, i: nat, w: World): Room
    requires i < |room.clients|
  {
    Room(w.store, room.clients[i := Client(w.handed, w.held, w.connected)])
  }

  function Happen(v: Service, e: Event, n: nat): (r: Service)
    requires ServiceOk(v, n) && e.client < n
    ensures ServiceOk(r, n)
  {
    var i := e.client;
    var reader := v.readers[i];
    match e
    case Deliver(_, bytes) => v.(readers := v.readers[i := reader.(rest := reader.rest + bytes)])
    case Turn(_) =>
      if reader.todo != [] then
        Service(
          Put(v.room, i, ExecPart(WorldOf(v.room, i), reader.todo[0])),
          v.readers[i := reader.(todo := reader.todo[1..])])
      else if reader.rest == "" then v
      else
        match TakeOne(reader.mode, reader.rest)
        case None =>
          v.(room := Put(v.room, i, Round(State(WorldOf(v.room, i), reader.mode), reader.rest).st.w))
        case Some(t) => v.(readers := v.readers[i := Reader(t.mode, t.rest, AllParts(t.cs))])
  }

  function HappenAll(v: Service, es: seq<Event>, n: nat): (r: Service)
    requires ServiceOk(v, n) && AreEvents(es, n)
    ensures ServiceOk(r, n)
    decreases |es|
  {
    if es == [] then v else HappenAll(Happen(v, es[0], n), es[1..], n)
  }

  /** One part of a client's command, done at once on the shared map. */
  function ExecFor(room: Room, o: Order, n: nat): (r: Room)
    requires RoomOk(room, n) && o.client < n && IsPart(o.part)
    ensures RoomOk(r, n)
  {
    Put(room, o.client, ExecPart(WorldOf(room, o.client), o.part))
  }

  function RunOrders(room: Room, os: seq<Order>, n: nat): (r: Room)
    requires RoomOk(room, n) && AreOrders(os, n)
    ensures RoomOk(r, n)
    decreases |os|
  {
    if os == [] then room else RunOrders(ExecFor(room, os[0], n), os[1..], n)
  }

  /** The bytes that reach one client. */
  function Stream(es: seq<Event>, i: nat): string {
    if es == [] then "" else (if es[0].Deliver? && es[0].client == i then es[0].bytes else "") + Stream(es[1..], i)
  }

  /** The parts done for one client. */
  function OrdersOf(os: seq<Order>, i: nat): seq<Part> {
    if os == [] then [] else (if os[0].client == i then [os[0].part] else []) + OrdersOf(os[1..], i)
  }

  // ---------- the parts of a command are the command ----------

  lemma {:induction false} RunPartsAppend(w: World, ps: seq<Part>, qs: seq<Part>)
    requires S.WellTerminated(w.store) && AreParts(ps) && AreParts(qs)
    ensures RunParts(w, ps + qs) == RunParts(RunParts(w, ps), qs)
    decreases |ps|
  {
    hide ExecPart, S.WellTerminated;
    if ps == [] {
      assert ps + qs == qs;
    } else {
      RunPartsAppend(ExecPart(w, ps[0]), ps[1..], qs);
      assert (ps + qs)[1..] == ps[1..] + qs;
    }
  }

  lemma {:induction false} GetInParts(w: World, keys: seq<string>, withCas: bool, noreply: bool)
    requires S.WellTerminated(w.store)
    ensures RunParts(w, PartsOfGet(keys, withCas, noreply)) == GetAll(w, keys, withCas, noreply)
    decreases |keys|
  {
    var ps := PartsOfGet(keys, withCas, noreply);
    if keys == [] || |keys[0]| > LONGEST_KEY {
      assert ps[1..] == [];
    } else {
      assert ps[1..] == PartsOfGet(keys[1..], withCas, noreply);
      GetInParts(Found(w, keys[0], withCas), keys[1..], withCas, noreply);
    }
  }

  /** Done one after the other without anything in between, the parts of commands do what the commands do. */
  lemma {:induction false} PartsDoCommands(w: World, cs: seq<Command>)
    requires S.WellTerminated(w.store) && AreCommands(cs)
    ensures RunParts(w, AllParts(cs)) == Run(w, cs)
    decreases |cs|
  {
    hide Exec, S.WellTerminated, IsCommand;
    if cs != [] {
      PartsDo(w, cs[0]);
      RunPartsAppend(w, Parts(cs[0]), AllParts(cs[1..]));
      PartsDoCommands(Exec(w, cs[0]), cs[1..]);
    }
  }

  lemma PartsDo(w: World, c: Command)
    requires S.WellTerminated(w.store) && IsCommand(c)
    ensures RunParts(w, Parts(c)) == Exec(w, c)
  {
    if c.Get? {
      GetInParts(w, c.keys, c.withCas, c.noreply);
    } else {
      assert [Do(c)][1..] == [];
    }
  }

  /** So a session that is left to itself does a round of its loop. */
  lemma AloneIsRound(w: World, s: Mode, bytes: string)
    requires S.WellTerminated(w.store) && ModeOk(s) && bytes != "" && Quiet(s, bytes) && TakeOne(s, bytes).Some?
    ensures
      var t := TakeOne(s, bytes).value;
      Round(State(w, s), bytes) == Go(State(RunParts(w, AllParts(t.cs)), t.mode), t.rest)
  {
    hide Round, TakeOne, S.WellTerminated, LineEnds, ModeOk;
    RoundTakes(w, s, bytes);
    PartsDoCommands(w, TakeOne(s, bytes).value.cs);
  }

  // ---------- the order in which the parts are done ----------

  /** What an event does to the readers, whatever the map and the replies. */
  function Moved(rs: seq<Reader>, e: Event, n: nat): (r: seq<Reader>)
    requires ReadersOk(rs, n) && e.client < n
    ensures ReadersOk(r, n)
  {
    var i := e.client;
    match e
    case Deliver(_, bytes) => rs[i := rs[i].(rest := rs[i].rest + bytes)]
    case Turn(_) =>
      if rs[i].todo != [] then rs[i := rs[i].(todo := rs[i].todo[1..])]
      else if rs[i].rest == "" || TakeOne(rs[i].mode, rs[i].rest).None? then rs
      else
        var t := TakeOne(rs[i].mode, rs[i].rest).value;
        rs[i := Reader(t.mode, t.rest, AllParts(t.cs))]
  }

  /** The part that an event does. */
  function Done(rs: seq<Reader>, e: Event, n: nat): (os: seq<Order>)
    requires ReadersOk(rs, n) && e.client < n
    ensures AreOrders(os, n)
  {
    if e.Turn? && rs[e.client].todo != [] then [Order(e.client, rs[e.client].todo[0])] else []
  }

  function MovedAll(rs: seq<Reader>, es: seq<Event>, n: nat): (r: seq<Reader>)
    requires ReadersOk(rs, n) && AreEvents(es, n)
    ensures ReadersOk(r, n)
    decreases |es|
  {
    if es == [] then rs else MovedAll(Moved(rs, es[0], n), es[1..], n)
  }

  /** The parts of the commands of all the clients, in the order in which they are done. */
  function Orders(rs: seq<Reader>, es: seq<Event>, n: nat): (os: seq<Order>)
    requires ReadersOk(rs, n) && AreEvents(es, n)
    ensures AreOrders(os, n)
    decreases |es|
  {
    if es == [] then [] else Done(rs, es[0], n) + Orders(Moved(rs, es[0], n), es[1..], n)
  }

  /** Every command line that is still to come ends in time, for every client. */
  ghost predicate AllQuiet(rs: seq<Reader>, es: seq<Event>, n: nat)
    requires ReadersOk(rs, n)
  {
    forall i :: 0 <= i < n ==> Quiet(rs[i].mode, rs[i].rest + Stream(es, i))
  }

  // ---------- the service does just these orders ----------

  lemma {:induction false} RunOrdersAppend(room: Room, os: seq<Order>, more: seq<Order>, n: nat)
    requires RoomOk(room, n) && AreOrders(os, n) && AreOrders(more, n)
    ensures RunOrders(room, os + more, n) == RunOrders(RunOrders(room, os, n), more, n)
    decreases |os|
  {
    hide ExecFor, RoomOk;
    if os == [] {
      assert os + more == more;
    } else {
      RunOrdersAppend(ExecFor(room, os[0], n), os[1..], more, n);
      assert (os + more)[1..] == os[1..] + more;
    }
  }

  lemma HappenIs(v: Service, e: Event, n: nat)
    requires ServiceOk(v, n) && e.client < n
    requires Quiet(v.readers[e.client].mode, v.readers[e.client].rest)
    ensures
      var r := Happen(v, e, n);
      r.readers == Moved(v.readers, e, n) && r.room == RunOrders(v.room, Done(v.readers, e, n), n)
  {
    hide ExecPart, Round, TakeOne, S.WellTerminated, LineEnds, ModeOk;
    var i := e.client;
    var reader := v.readers[i];
    assert v.room.clients[i := v.room.clients[i]] == v.room.clients;
    if e.Turn? && reader.todo != [] {
      assert Done(v.readers, e, n)[1..] == [];
    } else if e.Turn? && reader.rest != "" && TakeOne(reader.mode, reader.rest).None? {
      RoundTakes(WorldOf(v.room, i), reader.mode, reader.rest);
    }
  }

  /** A round that completes a line, a value or a part of one leaves the rest of the stream as it is. */
  lemma TakeMoves(s: Mode, a: string, b: string)
    requires ModeOk(s) && a != "" && TakeOne(s, a).Some? && Quiet(s, a + b)
    ensures
      var t := TakeOne(s, a).value;
      Quiet(t.mode, t.rest + b) && Take(s, a + b) == Behind(t, Take(t.mode, t.rest + b))
  {
    hide TakeOne, ModeOk, LineEnds;
    TakeOneMore(s, a, b);
    var t := TakeOne(s, a).value;
    if TakeOne(s, a + b) != Some(t.(rest := t.rest + b)) {
      assert "" + b == b && [] + Take(t.mode, b).cs == Take(t.mode, b).cs;
    }
  }

  lemma MovedQuiet(rs: seq<Reader>, es: seq<Event>, n: nat)
    requires ReadersOk(rs, n) && AreEvents(es, n) && es != [] && AllQuiet(rs, es, n)
    ensures AllQuiet(Moved(rs, es[0], n), es[1..], n) && Quiet(rs[es[0].client].mode, rs[es[0].client].rest)
  {
    hide TakeOne, ModeOk, LineEnds, Quiet;
    var e := es[0];
    QuietBefore(rs[e.client].mode, rs[e.client].rest, Stream(es, e.client));
    forall i | 0 <= i < n
      ensures var r := Moved(rs, e, n)[i]; Quiet(r.mode, r.rest + Stream(es[1..], i))
    {
      ReaderMoves(rs, es, i, n);
    }
  }

  /** All that a reader has still to do: the parts in hand, and those of the commands in some bytes. */
  function ToDo(r: Reader, bytes: string): seq<Part>
    requires ModeOk(r.mode)
  {
    r.todo + AllParts(Take(r.mode, bytes).cs)
  }

  /** One event, for one client: what its reader has still to do is what it had, without what is done. */
  lemma ReaderMoves(rs: seq<Reader>, es: seq<Event>, i: nat, n: nat)
    requires ReadersOk(rs, n) && AreEvents(es, n) && es != [] && i < n
    requires Quiet(rs[i].mode, rs[i].rest + Stream(es, i))
    ensures
      var (r, later) := (Moved(rs, es[0], n)[i], Stream(es[1..], i));
      && Quiet(r.mode, r.rest + later)
      && ToDo(rs[i], rs[i].rest + Stream(es, i)) == OrdersOf(Done(rs, es[0], n), i) + ToDo(r, r.rest + later)
  {
    hide TakeOne, ModeOk, Quiet, ToDo, Moved, AllParts, Done, OrdersOf;
    var e, later, reader := es[0], Stream(es[1..], i), rs[i];
    ReaderAfter(rs, e, i, n);
    NothingBefore(ToDo(Moved(rs, e, n)[i], Moved(rs, e, n)[i].rest + later));
    if e.client == i && e.Deliver? {
      assert reader.rest + (e.bytes + later) == (reader.rest + e.bytes) + later;
      SameToDo(reader, Moved(rs, e, n)[i], reader.rest + (e.bytes + later));
    } else {
      assert Stream(es, i) == later;
      if e.client == i && reader.todo != [] {
        PartDone(reader, reader.rest + later);
      } else if e.client == i && reader.rest != "" && TakeOne(reader.mode, reader.rest).Some? {
        PartsTaken(reader, later);
      }
    }
  }

  lemma NothingBefore(ps: seq<Part>)
    ensures [] + ps == ps
  {
  }

  lemma SameToDo(r: Reader, s: Reader, bytes: string)
    requires ModeOk(r.mode) && r.mode == s.mode && r.todo == s.todo
    ensures ToDo(r, bytes) == ToDo(s, bytes)
  {
  }

  lemma PartDone(r: Reader, bytes: string)
    requires ModeOk(r.mode) && r.todo != []
    ensures ToDo(r, bytes) == [r.todo[0]] + ToDo(r.(todo := r.todo[1..]), bytes)
  {
    hide ModeOk, Take;
    assert r.todo == [r.todo[0]] + r.todo[1..];
  }

  /** A round takes commands, which become the parts in hand. */
  lemma PartsTaken(r: Reader, later: string)
    requires ModeOk(r.mode) && r.todo == [] && r.rest != "" && TakeOne(r.mode, r.rest).Some?
    requires Quiet(r.mode, r.rest + later)
    ensures
      var t := TakeOne(r.mode, r.rest).value;
      && Quiet(t.mode, t.rest + later)
      && ToDo(r, r.rest + later) == ToDo(Reader(t.mode, t.rest, AllParts(t.cs)), t.rest + later)
  {
    hide TakeOne, ModeOk, Quiet, Take, AllParts;
    TakeMoves(r.mode, r.rest, later);
    var t := TakeOne(r.mode, r.rest).value;
    AllPartsAppend(t.cs, Take(t.mode, t.rest + later).cs);
  }

  lemma {:induction false} AllPartsAppend(cs: seq<Command>, ds: seq<Command>)
    requires AreCommands(cs) && AreCommands(ds)
    ensures AllParts(cs + ds) == AllParts(cs) + AllParts(ds)
    decreases |cs|
  {
    hide IsCommand, Parts;
    if cs == [] {
      assert cs + ds == ds;
    } else {
      AllPartsAppend(cs[1..], ds);
      assert (cs + ds)[1..] == cs[1..] + ds;
    }
  }

  /** Where one client's reader is after an event, and what it has done. */
  lemma ReaderAfter(rs: seq<Reader>, e: Event, i: nat, n: nat)
    requires ReadersOk(rs, n) && e.client < n && i < n
    ensures
      var (s, r, ps) := (rs[i], Moved(rs, e, n)[i], OrdersOf(Done(rs, e, n), i));
      if e.client != i then r == s && ps == []
      else if e.Deliver? then r == s.(rest := s.rest + e.bytes) && ps == []
      else if s.todo != [] then r == s.(todo := s.todo[1..]) && ps == [s.todo[0]]
      else if s.rest == "" || TakeOne(s.mode, s.rest).None? then r == s && ps == []
      else
        var t := TakeOne(s.mode, s.rest).value;
        r == Reader(t.mode, t.rest, AllParts(t.cs)) && ps == []
  {
    hide TakeOne, ModeOk, AllParts;
    var os := Done(rs, e, n);
    assert os != [] ==> os[1..] == [];
  }

  /** Whatever the order of the events, the map and what the connections are handed are those of the orders. */
  lemma {:induction false} HappenAllIs(v: Service, es: seq<Event>, n: nat)
    requires ServiceOk(v, n) && AreEvents(es, n) && AllQuiet(v.readers, es, n)
    ensures HappenAll(v, es, n).room == RunOrders(v.room, Orders(v.readers, es, n), n)
    ensures HappenAll(v, es, n).readers == MovedAll(v.readers, es, n)
    decreases |es|
  {
    hide Happen, Moved, Done, Quiet, AllQuiet, RoomOk, ReadersOk, ExecFor;
    if es != [] {
      MovedQuiet(v.readers, es, n);
      HappenIs(v, es[0], n);
      HappenAllIs(Happen(v, es[0], n), es[1..], n);
      RunOrdersAppend(v.room, Done(v.readers, es[0], n), Orders(Moved(v.readers, es[0], n), es[1..], n), n);
    }
  }

  // ---------- and each client's own are those of its stream ----------

  lemma {:induction false} OrdersOfAppend(os: seq<Order>, more: seq<Order>, i: nat)
    ensures OrdersOf(os + more, i) == OrdersOf(os, i) + OrdersOf(more, i)
  {
    if os == [] {
      assert os + more == more;
    } else {
      var own := if os[0].client == i then [os[0].part] else [];
      OrdersOfAppend(os[1..], more, i);
      assert (os + more)[1..] == os[1..] + more;
      assert OrdersOf(os + more, i) == own + OrdersOf(os[1..] + more, i);
      Chained(own, OrdersOf(os[1..], i), OrdersOf(more, i));
    }
  }

  lemma Chained(a: seq<Part>, b: seq<Part>, c: seq<Part>)
    ensures a + (b + c) == (a + b) + c
  {
  }

  /** What is done for one client, and what its reader has still to do, is all of its stream. */
  lemma {:induction false} OrdersOfStream(rs: seq<Reader>, es: seq<Event>, i: nat, n: nat)
    requires ReadersOk(rs, n) && AreEvents(es, n) && i < n && AllQuiet(rs, es, n)
    ensures
      var r := MovedAll(rs, es, n)[i];
      OrdersOf(Orders(rs, es, n), i) + ToDo(r, r.rest) == ToDo(rs[i], rs[i].rest + Stream(es, i))
    decreases |es|
  {
    hide Moved, Done, Quiet, ToDo, ModeOk, TakeOne, AreOrders;
    if es == [] {
      assert rs[i].rest + "" == rs[i].rest;
    } else {
      MovedQuiet(rs, es, n);
      ReaderMoves(rs, es, i, n);
      var first, next := Done(rs, es[0], n), Moved(rs, es[0], n);
      OrdersOfStream(next, es[1..], i, n);
      OrdersOfAppend(first, Orders(next, es[1..], n), i);
      var r := MovedAll(rs, es, n)[i];
      Chained(OrdersOf(first, i), OrdersOf(Orders(next, es[1..], n), i), ToDo(r, r.rest));
    }
  }

  // ---------- the service as a whole ----------

  function NewReaders(n: nat): (rs: seq<Reader>)
    ensures ReadersOk(rs, n) && forall r <- rs :: r == Reader(IDLE, "", [])
  {
    if n == 0 then [] else NewReaders(n - 1) + [Reader(IDLE, "", [])]
  }

  /** The session waits for more bytes. */
  predicate Waits(r: Reader)
    requires ModeOk(r.mode)
  {
    r.todo == [] && (r.rest == "" || TakeOne(r.mode, r.rest).None?)
  }

  lemma WaitsTakes(r: Reader)
    requires ModeOk(r.mode) && Waits(r)
    ensures ToDo(r, r.rest) == []
  {
    hide TakeOne, ModeOk;
  }

  /** However the bytes of several clients are cut and mixed, and however their sessions take turns, one part
      of a command at a time, the map and what each connection is handed are those of all the parts done one
      after the other, in an order that keeps each client's own: those of its stream, all of them once its
      session waits. */
  lemma AnyInterleaving(room: Room, es: seq<Event>, n: nat)
    requires RoomOk(room, n) && AreEvents(es, n)
    requires forall i :: 0 <= i < n ==> LinesShort(Stream(es, i))
    ensures
      var os := Orders(NewReaders(n), es, n);
      var v := HappenAll(Service(room, NewReaders(n)), es, n);
      && v.room == RunOrders(room, os, n)
      && (forall i :: 0 <= i < n ==> OrdersOf(os, i) <= AllParts(Commands(Stream(es, i))))
      && (forall i :: 0 <= i < n && Waits(v.readers[i]) ==> OrdersOf(os, i) == AllParts(Commands(Stream(es, i))))
  {
    hide HappenAll, MovedAll, Quiet, Take, TakeOne, Commands, LinesShort, RoomOk, AllParts;
    var rs := NewReaders(n);
    forall i | 0 <= i < n
      ensures Quiet(rs[i].mode, rs[i].rest + Stream(es, i))
      ensures ToDo(rs[i], rs[i].rest + Stream(es, i)) == AllParts(Commands(Stream(es, i)))
    {
      TakeCommands(Stream(es, i));
      assert rs[i] in rs && "" + Stream(es, i) == Stream(es, i);
    }
    HappenAllIs(Service(room, rs), es, n);
    var os, after := Orders(rs, es, n), MovedAll(rs, es, n);
    forall i | 0 <= i < n
      ensures OrdersOf(os, i) <= AllParts(Commands(Stream(es, i)))
      ensures Waits(after[i]) ==> OrdersOf(os, i) == AllParts(Commands(Stream(es, i)))
    {
      OrdersOfStream(rs, es, i, n);
      if Waits(after[i]) { WaitsTakes(after[i]); }
    }
  }

  lemma PartKeepsGood(w: World, p: Part)
    requires S.Good(w.store) && IsPart(p)
    ensures S.WellTerminated(w.store) && S.Good(ExecPart(w, p).store)
  {
    S.GoodIs(w.store);
    if p.Do? { ExecKeepsGood(w, p.command); }
  }

  /** Many clients together keep the values terminated and the versions apart. */
  lemma {:induction false} OrdersKeepGood(room: Room, os: seq<Order>, n: nat)
    requires RoomOk(room, n) && AreOrders(os, n) && S.Good(room.store)
    ensures S.Good(RunOrders(room, os, n).store)
    decreases |os|
  {
    hide ExecPart, S.Good, IsPart;
    if os != [] {
      PartKeepsGood(WorldOf(room, os[0].client), os[0].part);
      OrdersKeepGood(ExecFor(room, os[0], n), os[1..], n);
    }
  }
}
