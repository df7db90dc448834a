/** All connections of the server at once: accept_pop_connection and the callbacks of server/pop3.c, driven by the
    iteration loop of lib/selector.c. A connection is the step machine of module Engine. */
module Servers {
  import opened Bytes
  import opened Interests
  import opened Selectors
  import opened Engine
  import opened Callbacks

  /** Whose callbacks a registered descriptor has: a passive socket, or the client with this number. */
  datatype Owner = Acceptor | Client(id: nat)

  /** An allocated connection_data and its connection_fd. */
  datatype Live = Live(fd: int, conn: Conn)

  /** What the callbacks of one descriptor find outside: input and output of a client, or the result of accept, whether
      the descriptor could be made non-blocking, and whether there is memory. */
  datatype Io = Io(read: Callback, write: Callback, acceptedFd: int, nonBlocking: bool, memory: bool)

  type Table = seq<Item<Owner>>

  /** The server: the selector's table, the allocated connections by number, the numbers of those closed in order, how
      many were registered, how many could not be, concurrent_connections, whether a callback ever ran for something
      that was not there any more, and whether a connection has gone astray. */
  datatype Hub = Hub(items: Table, live: map<nat, Live>, closed: seq<nat>, registered: nat, refused: nat,
                     concurrent: int, dangling: bool, astray: bool)

  function Put(items: Table, fd: int, item: Item<Owner>): Table {
    if 0 <= fd < |items| then items[fd := item] else items
  }

  function PutInterest(items: Table, fd: int, interest: Interest): Table {
    if 0 <= fd < |items| then items[fd := items[fd].(interest := interest)] else items
  }

  function NewHub(slots: nat): Hub {
    Hub(seq(slots, i => Unused()), map[], [], 0, 0, 0, false, false)
  }

  /** accept_pop_connection: the connection is counted before it is registered. */
  function HubAccept(h: Hub, fd: int, nonBlocking: bool, memory: bool): Hub {
    if fd == -1 || !nonBlocking || !memory then h
    else if InvalidFd(fd) || Used(h.items, fd) then h.(refused := h.refused + 1, concurrent := h.concurrent + 1)
    else h.(items := Put(h.items, fd, Item(fd, OP_WRITE, Some(Client(h.registered)))),
            live := h.live[h.registered := Live(fd, Initial())],
            registered := h.registered + 1, concurrent := h.concurrent + 1)
  }

  /** selector_unregister_fd with the close callback of the owner. */
  function HubUnregister(h: Hub, fd: int): Hub {
    if InvalidFd(fd) || !Used(h.items, fd) then h
    else
      var after := h.(items := Put(h.items, fd, Unused()));
      match h.items[fd].data
      case Some(Acceptor) => after
      case Some(Client(id)) =>
        after.(live := h.live - {id}, closed := h.closed + [id], concurrent := h.concurrent - 1,
               dangling := h.dangling || id !in h.live)
      case None => after.(dangling := true)
  }

  /** A client callback left the connection as c. */
  function HubUpdate(h: Hub, fd: int, id: nat, c: Conn): Hub {
    if c.open then h.(items := PutInterest(h.items, fd, c.interest), live := h.live[id := Live(fd, c)])
    else HubUnregister(h, fd)
  }

  /** A client callback runs: it must find its connection, open. */
  function HubClient(h: Hub, fd: int, id: nat, e: Callback): Hub {
    if id !in h.live || !h.live[id].conn.open then h.(dangling := true)
    else
      var c := Step(h.live[id].conn, e);
      HubUpdate(h.(astray := h.astray || c.astray), fd, id, c)
  }

  function HubRead(h: Hub, fd: int, io: Io): Hub {
    if !Used(h.items, fd) || !h.items[fd].interest.read then h
    else match h.items[fd].data
      case Some(Acceptor) => HubAccept(h, io.acceptedFd, io.nonBlocking, io.memory)
      case Some(Client(id)) => HubClient(h, fd, id, io.read)
      case None => h.(dangling := true)
  }

  /** A passive socket has no write callback. */
  function HubWrite(h: Hub, fd: int, io: Io): Hub {
    if !Used(h.items, fd) || !h.items[fd].interest.write then h
    else match h.items[fd].data
      case Some(Client(id)) => HubClient(h, fd, id, io.write)
      case _ => h.(dangling := true)
  }

  datatype HubEvent = ReadReady(fd: int, io: Io) | WriteReady(fd: int, io: Io) | Unregistered(fd: int) | Listen(fd: int)

  predicate RealIo(io: Io) {
    io.read.Readable? && io.write.Writable?
  }

  predicate RealEvent(e: HubEvent) {
    e.ReadReady? || e.WriteReady? ==> RealIo(e.io)
  }

  function HubStep(h: Hub, e: HubEvent): Hub {
    match e
    case ReadReady(fd, io) => HubRead(h, fd, io)
    case WriteReady(fd, io) => HubWrite(h, fd, io)
    case Unregistered(fd) => HubUnregister(h, fd)
    case Listen(fd) =>
      if InvalidFd(fd) || Used(h.items, fd) then h
      else h.(items := Put(h.items, fd, Item(fd, OP_READ, Some(Acceptor))))
  }

  // ---- What holds in every run ----

  /** The table of the selector and the allocated connections describe each other. */
  ghost predicate Consistent(items: Table, live: map<nat, Live>) {
    && (forall i :: 0 <= i < |items| && Used(items, i) ==>
          && items[i].data.Some? && !InvalidFd(i)
          && (items[i].data.value.Acceptor? ==> items[i].interest == OP_READ)
          && (items[i].data.value.Client? ==> items[i].data.value.id in live && live[items[i].data.value.id].fd == i))
    && (forall id :: id in live ==>
          && Used(items, live[id].fd) && items[live[id].fd].data == Some(Client(id))
          && items[live[id].fd].interest == live[id].conn.interest)
  }

  /** The connection is what some run leads to. */
  ghost predicate Reached(c: Conn) {
    exists r: Run :: r.Valid() && c == r.states[|r.events|]
  }

  lemma ReachedStep(c: Conn, e: Callback)
    requires Reached(c)
    ensures Reached(Step(c, e))
  {
    hide Step;
    var r: Run :| r.Valid() && c == r.states[|r.events|];
    var longer := Run(r.events + [e], r.states + [Step(c, e)]);
    assert longer.Valid() && longer.states[|longer.events|] == Step(c, e);
  }

  /** Every allocated connection is open and the outcome of its own callbacks, whatever the others did: what is true of
      all single connections is true of each of them. */
  ghost predicate AllSound(live: map<nat, Live>) {
    forall id :: id in live ==> live[id].conn.open && Reached(live[id].conn)
  }

  /** Every connection ever registered is allocated or has been closed, once. */
  ghost predicate Accounted(live: map<nat, Live>, closed: seq<nat>, registered: nat) {
    && (forall id: nat :: id < registered <==> id in live || id in closed)
    && (forall id :: id in live ==> id !in closed)
    && (forall i, j :: 0 <= i < j < |closed| ==> closed[i] != closed[j])
  }

  ghost predicate HubOk(h: Hub) {
    && |h.items| == ITEMS_MAX_SIZE + 1
    && Consistent(h.items, h.live) && AllSound(h.live) && Accounted(h.live, h.closed, h.registered)
    && h.concurrent == |h.live| + h.refused
    && !h.dangling
    && (h.astray || AllDefined(h.live))
  }

  /** No allocated connection has gone astray. */
  ghost predicate AllDefined(live: map<nat, Live>) {
    forall id :: id in live ==> !live[id].conn.astray
  }

  lemma InitialSound()
    ensures Initial().open && !Initial().astray && Reached(Initial()) && Initial().interest == OP_WRITE
  {
    assert Run([], [Initial()]).Valid();
  }

  lemma AddClient(items: Table, live: map<nat, Live>, closed: seq<nat>, id: nat, fd: int)
    requires Consistent(items, live) && AllSound(live) && Accounted(live, closed, id)
    requires fd < |items| && !InvalidFd(fd) && !Used(items, fd)
    ensures var items', live' := Put(items, fd, Item(fd, OP_WRITE, Some(Client(id)))), live[id := Live(fd, Initial())];
            Consistent(items', live') && AllSound(live') && Accounted(live', closed, id + 1) && |live'| == |live| + 1
  {
    hide Reached, Consistent, Initial;
    InitialSound();
    AddToTable(items, live, id, fd, Initial());
    assert id !in closed;
  }

  lemma AddToTable(items: Table, live: map<nat, Live>, id: nat, fd: int, c: Conn)
    requires Consistent(items, live) && fd < |items| && !InvalidFd(fd) && !Used(items, fd) && id !in live
    requires c.interest == OP_WRITE
    ensures Consistent(Put(items, fd, Item(fd, OP_WRITE, Some(Client(id)))), live[id := Live(fd, c)])
  {
    var items' := Put(items, fd, Item(fd, OP_WRITE, Some(Client(id))));
    assert forall i :: i != fd ==> (Used(items', i) <==> Used(items, i));
  }

  lemma RemoveClient(items: Table, live: map<nat, Live>, closed: seq<nat>, registered: nat, id: nat)
    requires Consistent(items, live) && AllSound(live) && Accounted(live, closed, registered) && id in live
    ensures var items', live' := Put(items, live[id].fd, Unused()), live - {id};
            && Consistent(items', live') && AllSound(live') && Accounted(live', closed + [id], registered)
            && |live'| == |live| - 1
  {
    hide Reached, Consistent, Accounted;
    RemoveFromTable(items, live, id);
    RemoveFromAccount(live, closed, registered, id);
    var live' := live - {id};
    assert live'.Keys == live.Keys - {id};
    assert |live'.Keys| == |live.Keys| - 1;
  }

  lemma RemoveFromTable(items: Table, live: map<nat, Live>, id: nat)
    requires Consistent(items, live) && id in live
    ensures Consistent(Put(items, live[id].fd, Unused()), live - {id})
  {
    var fd := live[id].fd;
    assert forall i :: Used(Put(items, fd, Unused()), i) <==> i != fd && Used(items, i);
  }

  lemma RemoveFromAccount(live: map<nat, Live>, closed: seq<nat>, registered: nat, id: nat)
    requires Accounted(live, closed, registered) && id in live
    ensures Accounted(live - {id}, closed + [id], registered)
  {
    assert forall k: nat :: k in closed + [id] <==> k in closed || k == id;
  }

  lemma StepConsistent(items: Table, live: map<nat, Live>, id: nat, c: Conn)
    requires Consistent(items, live) && id in live
    ensures var fd := live[id].fd;
            Consistent(PutInterest(items, fd, c.interest), live[id := Live(fd, c)])
  {
    var items' := PutInterest(items, live[id].fd, c.interest);
    assert forall i :: Used(items', i) <==> Used(items, i);
  }

  lemma StepClient(items: Table, live: map<nat, Live>, closed: seq<nat>, registered: nat, id: nat, c: Conn)
    requires Consistent(items, live) && AllSound(live) && Accounted(live, closed, registered) && id in live
    requires c.open && Reached(c)
    ensures var fd := live[id].fd;
            var items', live' := PutInterest(items, fd, c.interest), live[id := Live(fd, c)];
            && Consistent(items', live') && AllSound(live') && Accounted(live', closed, registered)
            && |live'| == |live|
  {
    hide Reached, Consistent;
    var live' := live[id := Live(live[id].fd, c)];
    StepConsistent(items, live, id, c);
    assert live'.Keys == live.Keys;
    assert |live'.Keys| == |live.Keys|;
  }

  lemma AcceptorChanges(items: Table, live: map<nat, Live>, fd: int)
    requires Consistent(items, live) && 0 <= fd < |items| && !InvalidFd(fd)
    ensures Used(items, fd) && items[fd].data == Some(Acceptor) ==> Consistent(Put(items, fd, Unused()), live)
    ensures !Used(items, fd) ==> Consistent(Put(items, fd, Item(fd, OP_READ, Some(Acceptor))), live)
  {
    assert forall i :: Used(Put(items, fd, Unused()), i) <==> i != fd && Used(items, i);
    assert forall i :: Used(Put(items, fd, Item(fd, OP_READ, Some(Acceptor))), i) <==> i == fd || Used(items, i);
  }

  /** What a used slot says about its owner. */
  lemma UsedHasOwner(items: Table, live: map<nat, Live>, fd: int)
    requires Consistent(items, live) && Used(items, fd)
    ensures items[fd].data.Some? && !InvalidFd(fd)
    ensures match items[fd].data.value
            case Acceptor => items[fd].interest == OP_READ
            case Client(id) => id in live && live[id].fd == fd && items[fd].interest == live[id].conn.interest
  {
  }

  lemma UnregisterKeeps(h: Hub, fd: int)
    requires HubOk(h)
    ensures HubOk(HubUnregister(h, fd))
  {
    hide Consistent, AllSound, Accounted;
    if !InvalidFd(fd) && Used(h.items, fd) {
      UsedHasOwner(h.items, h.live, fd);
      AcceptorChanges(h.items, h.live, fd);
      if h.items[fd].data.value.Client? {
        RemoveClient(h.items, h.live, h.closed, h.registered, h.items[fd].data.value.id);
      }
    }
  }

  lemma AcceptKeeps(h: Hub, fd: int, nonBlocking: bool, memory: bool)
    requires HubOk(h)
    ensures HubOk(HubAccept(h, fd, nonBlocking, memory))
  {
    hide Consistent, AllSound, Accounted, Initial, Reached;
    if !InvalidFd(fd) && !Used(h.items, fd) {
      AddClient(h.items, h.live, h.closed, h.registered, fd);
      InitialSound();
    }
  }

  /** The selector only calls back a client whose connection is open and interested, and its step is sound. */
  lemma ClientKeeps(h: Hub, fd: int, id: nat, e: Callback)
    requires HubOk(h) && Used(h.items, fd) && h.items[fd].data == Some(Client(id))
    requires (e.Readable? && h.items[fd].interest.read) || (e.Writable? && h.items[fd].interest.write)
    ensures id in h.live && h.live[id].conn.open && Enabled(h.live[id].conn, e)
    ensures HubOk(HubClient(h, fd, id, e))
  {
    hide Consistent, Accounted, Reached, Step;
    UsedHasOwner(h.items, h.live, fd);
    var c := h.live[id].conn;
    ReachedStep(c, e);
    if Step(c, e).open {
      StepClient(h.items, h.live, h.closed, h.registered, id, Step(c, e));
    } else {
      UnregisterKeeps(h.(astray := h.astray || Step(c, e).astray), fd);
    }
  }

  lemma HubStepKeeps(h: Hub, e: HubEvent)
    requires HubOk(h) && RealEvent(e)
    ensures HubOk(HubStep(h, e))
  {
    hide Consistent, Accounted, AllSound, HubClient, HubAccept;
    match e
    case Unregistered(fd) => UnregisterKeeps(h, fd);
    case Listen(fd) =>
      if !InvalidFd(fd) && !Used(h.items, fd) {
        AcceptorChanges(h.items, h.live, fd);
      }
    case ReadReady(fd, io) =>
      AcceptKeeps(h, io.acceptedFd, io.nonBlocking, io.memory);
      if Used(h.items, fd) && h.items[fd].interest.read {
        UsedHasOwner(h.items, h.live, fd);
        if h.items[fd].data.value.Client? {
          ClientKeeps(h, fd, h.items[fd].data.value.id, io.read);
        }
      }
    case WriteReady(fd, io) =>
      if Used(h.items, fd) && h.items[fd].interest.write {
        UsedHasOwner(h.items, h.live, fd);
        ClientKeeps(h, fd, h.items[fd].data.value.id, io.write);
      }
  }

  // ---- What one callback does, and what it leaves alone ----

  /** Every slot but this one is as it was. */
  predicate OtherSlotsStay(before: Table, after: Table, fd: int) {
    |after| == |before| && forall i :: 0 <= i < |before| && i != fd ==> after[i] == before[i]
  }

  /** Every connection but this one is as it was. */
  ghost predicate OthersStay(before: map<nat, Live>, after: map<nat, Live>, id: nat) {
    forall other :: other != id ==> (other in before <==> other in after)
                                    && (other in before ==> after[other] == before[other])
  }

  /** Input on a passive socket: a connection that accept returns, that can be made non-blocking and for which there is
      memory is counted. If its descriptor is valid and its slot is free, exactly one more connection is allocated, with
      the next number, in its initial state and waiting to write; otherwise it is refused. Nothing else changes. */
  lemma AcceptRegisters(h: Hub, fd: int, io: Io)
    requires HubOk(h) && Used(h.items, fd) && h.items[fd].data == Some(Acceptor)
    ensures var after, accepted := HubStep(h, ReadReady(fd, io)), io.acceptedFd;
            var counted := accepted != -1 && io.nonBlocking && io.memory;
            var registered := counted && 0 <= accepted < |h.items| && !InvalidFd(accepted) && !Used(h.items, accepted);
            && after.concurrent == h.concurrent + (if counted then 1 else 0)
            && after.refused == h.refused + (if counted && !registered then 1 else 0)
            && after.registered == h.registered + (if registered then 1 else 0)
            && after.closed == h.closed && after.dangling == h.dangling && after.astray == h.astray
            && OthersStay(h.live, after.live, h.registered) && h.registered !in h.live
            && (registered <==> h.registered in after.live)
            && (registered ==> after.live[h.registered] == Live(accepted, Initial()))
            && OtherSlotsStay(h.items, after.items, accepted)
            && (registered ==> after.items[accepted] == Item(accepted, OP_WRITE, Some(Client(h.registered))))
            && (!registered ==> after.items == h.items)
    ensures Initial().open && Initial().interest == OP_WRITE
  {
    hide Initial, AllSound, AllDefined, Consistent;
    InitialSound();
    UsedHasOwner(h.items, h.live, fd);
  }

  /** A step has left the connection as c: its slot waits for what c waits for, or is free if c is closed. */
  ghost predicate Stepped(h: Hub, after: Hub, fd: int, id: nat, c: Conn)
    requires 0 <= fd < |h.items|
  {
    && OthersStay(h.live, after.live, id) && OtherSlotsStay(h.items, after.items, fd)
    && after.registered == h.registered && after.refused == h.refused && after.astray == (h.astray || c.astray)
    && (after.dangling <==> h.dangling)
    && if c.open then
         && id in after.live && after.live[id] == Live(fd, c) && after.closed == h.closed
         && after.items[fd] == h.items[fd].(interest := c.interest) && after.concurrent == h.concurrent
       else
         && id !in after.live && after.closed == h.closed + [id] && !Used(after.items, fd)
         && after.concurrent == h.concurrent - 1
  }

  /** A live connection is open, and does nothing for a callback it does not wait for. */
  lemma LiveIsOpen(h: Hub, id: nat, e: Callback)
    requires HubOk(h) && id in h.live
    ensures h.live[id].conn.open && (h.live[id].conn.astray ==> h.astray)
    ensures !Enabled(h.live[id].conn, e) ==> Step(h.live[id].conn, e) == h.live[id].conn
  {
    hide Consistent, Accounted, Reached;
  }

  lemma UpdateSteps(h: Hub, fd: int, id: nat, c: Conn)
    requires 0 <= fd < |h.items| && !InvalidFd(fd) && Used(h.items, fd) && h.items[fd].data == Some(Client(id))
    requires id in h.live && h.live[id].fd == fd
    ensures Stepped(h, HubUpdate(h.(astray := h.astray || c.astray), fd, id, c), fd, id, c)
  {
  }

  lemma StaysStepped(h: Hub, fd: int, id: nat)
    requires HubOk(h) && Used(h.items, fd) && id in h.live && h.live[id].fd == fd
    requires h.items[fd].interest == h.live[id].conn.interest
    ensures Stepped(h, h, fd, id, h.live[id].conn)
  {
    hide Consistent, Accounted;
    LiveIsOpen(h, id, Shutdown);
  }

  /** A callback of a client is one step of that connection. If the step leaves it open, its slot waits for what the
      step has left; if not, the slot is free and the connection is closed. Nothing else changes. */
  lemma ClientSteps(h: Hub, fd: int, id: nat, io: Io)
    requires HubOk(h) && RealIo(io) && Used(h.items, fd) && h.items[fd].data == Some(Client(id))
    ensures id in h.live && h.live[id].fd == fd
    ensures var c := h.live[id].conn;
            && Stepped(h, HubStep(h, ReadReady(fd, io)), fd, id, Step(c, io.read))
            && Stepped(h, HubStep(h, WriteReady(fd, io)), fd, id, Step(c, io.write))
  {
    hide Step, AllSound, Accounted, Consistent, Stepped, HubUpdate;
    UsedHasOwner(h.items, h.live, fd);
    LiveIsOpen(h, id, io.read);
    LiveIsOpen(h, id, io.write);
    StaysStepped(h, fd, id);
    UpdateSteps(h, fd, id, Step(h.live[id].conn, io.read));
    UpdateSteps(h, fd, id, Step(h.live[id].conn, io.write));
  }

  /** A client that has been asked to quit waits to write, and its next write callback frees its slot. */
  lemma QuitFreesTheSlot(h: Hub, fd: int, id: nat, io: Io)
    requires HubOk(h) && RealIo(io) && !h.astray && Used(h.items, fd) && h.items[fd].data == Some(Client(id))
    requires id in h.live && h.live[id].conn.session.requestedQuit
    ensures h.items[fd].interest.write && !h.items[fd].interest.read
    ensures var after := HubStep(h, WriteReady(fd, io));
            && id !in after.live && !Used(after.items, fd) && after.closed == h.closed + [id]
            && after.concurrent == h.concurrent - 1
  {
    hide Step, Accounted, Consistent, HubWrite;
    UsedHasOwner(h.items, h.live, fd);
    ClientSteps(h, fd, id, io);
    var c := h.live[id].conn;
    var r: Run :| r.Valid() && c == r.states[|r.events|];
    QuitIsAnswered(r, |r.events|);
    assert io.write == Writable(io.write.world, io.write.sent, io.write.sentAgain, io.write.recv);
  }

  /** Listening takes a free slot and waits to read; unregistering frees a slot and closes the connection that has it. A
      descriptor that is out of range, taken, or not registered changes nothing. */
  lemma RegistrationActs(h: Hub, fd: int)
    requires HubOk(h)
    ensures var after := HubStep(h, Listen(fd));
            && after == h.(items := after.items) && OtherSlotsStay(h.items, after.items, fd)
            && (0 <= fd < |h.items| && !InvalidFd(fd) && !Used(h.items, fd) ==>
                  after.items[fd] == Item(fd, OP_READ, Some(Acceptor)))
            && (InvalidFd(fd) || Used(h.items, fd) ==> after == h)
    ensures var after := HubStep(h, Unregistered(fd));
            && OtherSlotsStay(h.items, after.items, fd) && !Used(after.items, fd)
            && after.registered == h.registered && after.refused == h.refused && after.dangling == h.dangling
            && if Used(h.items, fd) && h.items[fd].data.Some? && h.items[fd].data.value.Client? then
                 var id := h.items[fd].data.value.id;
                 && OthersStay(h.live, after.live, id) && id in h.live && id !in after.live
                 && after.closed == h.closed + [id] && after.concurrent == h.concurrent - 1
               else
                 after.live == h.live && after.closed == h.closed && after.concurrent == h.concurrent
  {
    hide AllSound, Accounted, Consistent;
    if Used(h.items, fd) {
      UsedHasOwner(h.items, h.live, fd);
    }
  }

  /** A run of the server: what happened in order, and the states before, between and after. */
  datatype ServerRun = ServerRun(events: seq<HubEvent>, hubs: seq<Hub>) {

    ghost predicate Valid() {
      && |hubs| == |events| + 1
      && hubs[0] == NewHub(ITEMS_MAX_SIZE + 1)
      && forall i {:trigger events[i]} :: 0 <= i < |events| ==>
           RealEvent(events[i]) && hubs[i + 1] == HubStep(hubs[i], events[i])
    }
  }

  lemma {:induction false} HubAlwaysOk(r: ServerRun, k: nat)
    requires r.Valid() && k < |r.hubs|
    ensures HubOk(r.hubs[k])
  {
    hide HubOk, HubStep;
    if k == 0 {
      EmptyHub();
    } else {
      HubAlwaysOk(r, k - 1);
      HubStepKeeps(r.hubs[k - 1], r.events[k - 1]);
    }
  }

  /** At every moment of every run of the server in which no connection has gone astray: concurrent_connections is the
      number of registered clients, plus the connections that were counted and could not be registered; every registered
      connection is still allocated or has been closed exactly once; and no callback has ever run for a connection that
      was gone. */
  lemma ConnectionsConserved(r: ServerRun, k: nat)
    requires r.Valid() && k < |r.hubs| && !r.hubs[k].astray
    ensures var h := r.hubs[k];
            && h.concurrent == |h.live| + h.refused && h.registered == |h.live| + |h.closed| && !h.dangling
            && (forall id: nat :: id < h.registered <==> id in h.live || id in h.closed)
            && (forall i, j :: 0 <= i < j < |h.closed| ==> h.closed[i] != h.closed[j])
            && (forall id :: id in h.live ==>
                  h.live[id].conn.open && !h.live[id].conn.astray && Reached(h.live[id].conn))
  {
    hide Consistent, HubStep, Reached;
    HubAlwaysOk(r, k);
    var h := r.hubs[k];
    CountClosed(h.live.Keys, h.closed, h.registered);
  }

  lemma EmptyHub()
    ensures HubOk(NewHub(ITEMS_MAX_SIZE + 1))
  {
  }

  /** The numbers below `registered` are those in use and those closed, each once. */
  lemma {:induction false} CountClosed(ids: set<nat>, closed: seq<nat>, registered: nat)
    requires forall id: nat :: id < registered <==> id in ids || id in closed
    requires forall id :: id in ids ==> id !in closed
    requires forall i, j :: 0 <= i < j < |closed| ==> closed[i] != closed[j]
    ensures registered == |ids| + |closed|
    decreases |closed|
  {
    if closed == [] {
      CountBelow(ids, registered);
    } else {
      var n := |closed| - 1;
      var id := closed[n];
      assert id in closed;
      assert forall k: nat :: k in closed <==> k in closed[..n] || k == id;
      CountClosed(ids + {id}, closed[..n], registered);
      assert |ids + {id}| == |ids| + 1;
    }
  }

  lemma {:induction false} CountBelow(ids: set<nat>, n: nat)
    requires forall id: nat :: id < n <==> id in ids
    ensures |ids| == n
    decreases n
  {
    if n == 0 {
      assert ids == {};
    } else {
      CountBelow(ids - {n - 1}, n - 1);
    }
  }

  // ---- The program: one iteration of the selector over all connections ----

  /** The callbacks of one iteration, in the order of the loop: for each descriptor below n its read callback, then its
      write callback. */
  function Iteration(n: nat, slaveR: set<int>, slaveW: set<int>, io: int -> Io): seq<HubEvent> {
    if n == 0 then []
    else
      var i := n - 1;
      Iteration(i, slaveR, slaveW, io)
        + (if i in slaveR then [ReadReady(i, io(i))] else [])
        + (if i in slaveW then [WriteReady(i, io(i))] else [])
  }

  /** Where a callback comes in the iteration: by descriptor, and reading before writing. */
  function Place(e: HubEvent): int {
    if e.WriteReady? then 2 * e.fd + 1 else 2 * e.fd
  }

  lemma {:induction false} IterationMembers(n: nat, slaveR: set<int>, slaveW: set<int>, io: int -> Io, e: HubEvent)
    ensures e in Iteration(n, slaveR, slaveW, io)
            <==> && (e.ReadReady? || e.WriteReady?) && 0 <= e.fd < n && e.io == io(e.fd)
                 && (e.ReadReady? ==> e.fd in slaveR) && (e.WriteReady? ==> e.fd in slaveW)
  {
    if n > 0 {
      var i := n - 1;
      var before := Iteration(i, slaveR, slaveW, io);
      var first := if i in slaveR then [ReadReady(i, io(i))] else [];
      var second := if i in slaveW then [WriteReady(i, io(i))] else [];
      IterationMembers(i, slaveR, slaveW, io, e);
      assert e in before + first + second <==> e in before || e in first || e in second;
    }
  }

  predicate Ascends(es: seq<HubEvent>, bound: int) {
    && (forall k :: 0 <= k < |es| ==> Place(es[k]) < bound)
    && (forall j, k :: 0 <= j < k < |es| ==> Place(es[j]) < Place(es[k]))
  }

  lemma PushAscends(es: seq<HubEvent>, e: HubEvent)
    requires Ascends(es, Place(e))
    ensures Ascends(es + [e], Place(e) + 1)
  {
    hide Place;
  }

  lemma {:induction false} IterationAscends(n: nat, slaveR: set<int>, slaveW: set<int>, io: int -> Io)
    ensures Ascends(Iteration(n, slaveR, slaveW, io), 2 * n)
  {
    if n > 0 {
      var i := n - 1;
      var before := Iteration(i, slaveR, slaveW, io);
      var between := before + if i in slaveR then [ReadReady(i, io(i))] else [];
      IterationAscends(i, slaveR, slaveW, io);
      PushAscends(before, ReadReady(i, io(i)));
      PushAscends(between, WriteReady(i, io(i)));
    }
  }

  /** One iteration calls back every ready descriptor below n, each at most once for reading and once for writing, in
      ascending order and reading first; and it calls back nothing else. */
  lemma {:induction false} IterationCallsReady(n: nat, slaveR: set<int>, slaveW: set<int>, io: int -> Io)
    ensures var es := Iteration(n, slaveR, slaveW, io);
            && (forall e :: e in es
                  <==> && (e.ReadReady? || e.WriteReady?) && 0 <= e.fd < n && e.io == io(e.fd)
                       && (e.ReadReady? ==> e.fd in slaveR) && (e.WriteReady? ==> e.fd in slaveW))
            && Ascends(es, 2 * n)
  {
    hide Iteration, Ascends;
    forall e: HubEvent
      ensures e in Iteration(n, slaveR, slaveW, io)
              <==> && (e.ReadReady? || e.WriteReady?) && 0 <= e.fd < n && e.io == io(e.fd)
                   && (e.ReadReady? ==> e.fd in slaveR) && (e.WriteReady? ==> e.fd in slaveW)
    {
      IterationMembers(n, slaveR, slaveW, io, e);
    }
    IterationAscends(n, slaveR, slaveW, io);
  }

  function UnregisterAll(n: nat): seq<HubEvent> {
    if n == 0 then [] else UnregisterAll(n - 1) + [Unregistered(n - 1)]
  }

  /** What a sequence of events makes of the server. */
  function After(h: Hub, events: seq<HubEvent>): Hub {
    if events == [] then h else HubStep(After(h, events[..|events| - 1]), events[|events| - 1])
  }

  lemma {:induction false} RunAppends(h: Hub, events: seq<HubEvent>, e: HubEvent)
    ensures After(h, events + [e]) == HubStep(After(h, events), e)
  {
    hide HubStep;
    assert (events + [e])[..|events|] == events;
  }

  lemma RunIteration(h: Hub, n: nat, slaveR: set<int>, slaveW: set<int>, io: int -> Io)
    ensures var before := After(h, Iteration(n, slaveR, slaveW, io));
            var between := if n in slaveR then HubRead(before, n, io(n)) else before;
            After(h, Iteration(n + 1, slaveR, slaveW, io))
              == if n in slaveW then HubWrite(between, n, io(n)) else between
  {
    hide HubRead, HubWrite;
    var before := Iteration(n, slaveR, slaveW, io);
    var between := before + (if n in slaveR then [ReadReady(n, io(n))] else []);
    RunAppends(h, before, ReadReady(n, io(n)));
    RunAppends(h, between, WriteReady(n, io(n)));
    if n !in slaveR {
      assert between == before;
    }
    if n !in slaveW {
      assert Iteration(n + 1, slaveR, slaveW, io) == between;
    }
  }

  /** A read callback leaves its own slot to its owner, or blank: the write callback that follows is for the same
      connection. */
  lemma ReadKeepsOwner(h: Hub, fd: int, io: Io)
    requires HubOk(h) && RealIo(io) && Used(h.items, fd)
    ensures var items := HubRead(h, fd, io).items;
            |items| == |h.items| && (Used(items, fd) ==> items[fd].data == h.items[fd].data)
  {
    hide AllSound, Accounted, Consistent, Reached, Step, Initial, HubUpdate, HubAccept;
    UsedHasOwner(h.items, h.live, fd);
    AcceptKeepsOwners(h, fd, io);
    if h.items[fd].data.Some? && h.items[fd].data.value.Client? {
      var id := h.items[fd].data.value.id;
      var c := Step(h.live[id].conn, io.read);
      UpdateKeepsOwner(h.(astray := h.astray || c.astray), fd, id, c);
    }
  }

  lemma AcceptKeepsOwners(h: Hub, fd: int, io: Io)
    requires Used(h.items, fd)
    ensures var items := HubAccept(h, io.acceptedFd, io.nonBlocking, io.memory).items;
            |items| == |h.items| && Used(items, fd) && items[fd].data == h.items[fd].data
  {
    hide Initial;
  }

  lemma UpdateKeepsOwner(h: Hub, fd: int, id: nat, c: Conn)
    requires HubOk(h) && Used(h.items, fd)
    ensures var items := HubUpdate(h, fd, id, c).items;
            |items| == |h.items| && (Used(items, fd) ==> items[fd].data == h.items[fd].data)
  {
    hide HubOk, HubUnregister;
    UnregisterBlanks(h, fd);
  }

  lemma UnregisterBlanks(h: Hub, fd: int)
    requires HubOk(h) && Used(h.items, fd)
    ensures var items := HubUnregister(h, fd).items;
            |items| == |h.items| && forall i :: Used(items, i) <==> i != fd && Used(h.items, i)
  {
    hide AllSound, Accounted;
    UsedHasOwner(h.items, h.live, fd);
    assert forall i :: Used(Put(h.items, fd, Unused()), i) <==> i != fd && Used(h.items, i);
  }

  lemma SlotWritten(before: Table, after: Table, fd: int, item: Item<Owner>)
    requires |before| == |after| && 0 <= fd < |before| && after[fd] == item
    requires forall i :: 0 <= i < |before| && i != fd ==> after[i] == before[i]
    ensures after == Put(before, fd, item)
  {
  }

  lemma {:induction false} AfterNothing(h: Hub)
    ensures After(h, UnregisterAll(0)) == h
  {
    hide AllSound, Accounted, HubStep;
  }

  lemma OwnerOf(h: Hub, fd: int)
    requires HubOk(h) && Used(h.items, fd)
    ensures h.items[fd].data.Some? && !InvalidFd(fd)
    ensures h.items[fd].data.value.Client? ==> h.items[fd].data.value.id in h.live
  {
    hide AllSound, Accounted;
    UsedHasOwner(h.items, h.live, fd);
  }

  lemma SlotsOf(h: Hub)
    requires HubOk(h)
    ensures |h.items| == ITEMS_MAX_SIZE + 1
  {
    hide AllSound, Accounted;
  }

  lemma {:induction false} AllUnregistered(h: Hub, n: nat)
    requires HubOk(h)
    ensures var after := After(h, UnregisterAll(n));
            HubOk(after) && forall i :: 0 <= i < n ==> !Used(after.items, i)
  {
    hide HubOk, HubUnregister, HubRead, HubWrite;
    if n > 0 {
      var before := After(h, UnregisterAll(n - 1));
      AllUnregistered(h, n - 1);
      RunAppends(h, UnregisterAll(n - 1), Unregistered(n - 1));
      UnregisterKeeps(before, n - 1);
      if Used(before.items, n - 1) {
        UnregisterBlanks(before, n - 1);
      } else {
        NotThere(before, n - 1);
      }
    }
  }

  lemma NotThere(h: Hub, fd: int)
    ensures !Used(h.items, fd) ==> HubUnregister(h, fd) == h
  {
  }

  lemma NobodyLeft(h: Hub)
    requires HubOk(h) && forall i :: 0 <= i < |h.items| ==> !Used(h.items, i)
    ensures h.live == map[] && h.concurrent == h.refused
  {
    hide AllSound, Accounted;
    assert forall id :: id in h.live ==> Used(h.items, h.live[id].fd);
  }

  class Server {
    const selector: Selector<Owner>
    var live: map<nat, Live>
    var concurrentConnections: int
    var historicalConnections: nat
    var registered: nat           // connections registered so far; their numbers 0, 1, ... stand for the pointers
    ghost var refused: nat        // connections counted whose registration failed
    ghost var closed: seq<nat>    // handle_close calls, by connection
    ghost var astray: bool       // a connection has gone astray

    ghost function Model(): Hub
      reads this, selector, selector.fds
    {
      Hub(selector.fds[..], live, closed, registered, refused, concurrentConnections, false, astray)
    }

    ghost predicate Valid()
      reads this, selector, selector.fds
    {
      selector.Valid() && HubOk(Model()) && historicalConnections == registered + refused
    }

    constructor ()
      ensures Valid() && Model() == NewHub(ITEMS_MAX_SIZE + 1) && historicalConnections == 0
      ensures fresh(selector) && fresh(selector.fds)
    {
      hide HubOk, TableOk, Readers, Writers, IsMaxFd, Reached;
      selector := new Selector(ITEMS_MAX_SIZE);
      live := map[];
      concurrentConnections, historicalConnections := 0, 0;
      registered, refused, closed, astray := 0, 0, [], false;
      new;
      EmptyHub();
      assert selector.fds[..] == NewHub(ITEMS_MAX_SIZE + 1).items;
    }

    /** selector_register; the table is never short of room, because it has a slot for every descriptor. */
    method RegisterOwner(fd: int, interest: Interest, owner: Owner, memory: bool) returns (done: bool)
      requires selector.Valid() && selector.fds.Length == ITEMS_MAX_SIZE + 1
      modifies selector, selector.fds
      ensures selector.Valid() && selector.fds == old(selector.fds)
      ensures done <==> !InvalidFd(fd) && !Used(old(selector.fds[..]), fd)
      ensures selector.fds[..] == if done then Put(old(selector.fds[..]), fd, Item(fd, interest, Some(owner)))
                                  else old(selector.fds[..])
    {
      hide TableOk, Readers, Writers, IsMaxFd;
      ghost var table := selector.fds[..];
      var status := selector.Register(fd, interest, owner, memory);
      done := status == Success;
      if done {
        SlotWritten(table, selector.fds[..], fd, Item(fd, interest, Some(owner)));
      } else {
        assert selector.fds[..] == table;
      }
    }

    /** A passive socket is registered. */
    method Listen(fd: int, memory: bool) returns (done: bool)
      requires Valid()
      modifies selector, selector.fds
      ensures Valid() && selector.fds == old(selector.fds)
      ensures Model() == HubStep(old(Model()), HubEvent.Listen(fd))
      ensures done <==> !InvalidFd(fd) && !Used(old(selector.fds[..]), fd)
    {
      hide Consistent, AllSound, Accounted, TableOk, Readers, Writers, IsMaxFd, Put, Reached;
      HubStepKeeps(Model(), HubEvent.Listen(fd));
      done := RegisterOwner(fd, OP_READ, Acceptor, memory);
    }

    /** accept_pop_connection. `fd` is what accept returns. */
    method Accept(fd: int, nonBlocking: bool, memory: bool)
      requires Valid()
      modifies this, selector, selector.fds
      ensures Valid() && selector.fds == old(selector.fds)
      ensures Model() == HubAccept(old(Model()), fd, nonBlocking, memory)
    {
      hide HubOk, Initial, Put, TableOk, Readers, Writers, IsMaxFd, Reached;
      SlotsOf(Model());
      AcceptKeeps(Model(), fd, nonBlocking, memory);
      if fd == -1 || !nonBlocking || !memory {
        return;
      }
      concurrentConnections := concurrentConnections + 1;
      historicalConnections := historicalConnections + 1;
      var done := RegisterOwner(fd, OP_WRITE, Client(registered), memory);
      if done {
        live := live[registered := Live(fd, Initial())];
        registered := registered + 1;
      } else {
        refused := refused + 1;
      }
    }

    /** handle_close of a client, while the descriptor is still registered. */
    method CloseClient(id: nat)
      requires id in live
      modifies `live, `concurrentConnections, `closed
      ensures live == old(live) - {id} && closed == old(closed) + [id]
      ensures concurrentConnections == old(concurrentConnections) - 1
    {
      concurrentConnections := concurrentConnections - 1;
      live := live - {id};
      closed := closed + [id];
    }

    /** selector_unregister_fd: the callback first, with everything in order, then the table. */
    method Unregister(fd: int)
      requires Valid()
      modifies this, selector, selector.fds
      ensures Valid() && selector.fds == old(selector.fds)
      ensures Model() == HubUnregister(old(Model()), fd)
    {
      hide HubOk, TableOk, Readers, Writers, IsMaxFd, Reached;
      SlotsOf(Model());
      UnregisterKeeps(Model(), fd);
      var _, item := selector.Closing(fd);
      if item == None {
        return;
      }
      OwnerOf(Model(), fd);
      match item.value.data.value {
        case Acceptor =>
        case Client(id) => CloseClient(id);
      }
      selector.Forget(fd);
    }

    /** A client callback has left the connection as c: the slot takes its interest, unless it closed the connection. */
    method Update(fd: int, id: nat, c: Conn)
      requires Valid() && Used(selector.fds[..], fd) && selector.fds[fd].data == Some(Client(id)) && !InvalidFd(fd)
      requires HubOk(HubUpdate(Model(), fd, id, c))
      modifies this, selector, selector.fds
      ensures Valid() && selector.fds == old(selector.fds)
      ensures Model() == HubUpdate(old(Model()), fd, id, c)
    {
      hide Reached, AllSound, Accounted, TableOk, Readers, Writers, IsMaxFd, Consistent, HubUnregister;
      if c.open {
        live := live[id := Live(fd, c)];
        var _ := selector.SetInterest(fd, c.interest);
      } else {
        Unregister(fd);
      }
    }

    /** handle_read or handle_write of a client. */
    method ClientCallback(fd: int, id: nat, e: Callback)
      requires Valid() && Used(selector.fds[..], fd) && selector.fds[fd].data == Some(Client(id))
      requires (e.Readable? && selector.fds[fd].interest.read) || (e.Writable? && selector.fds[fd].interest.write)
      modifies this, selector, selector.fds
      ensures Valid() && selector.fds == old(selector.fds)
      ensures Model() == HubClient(old(Model()), fd, id, e)
    {
      hide Reached, AllSound, Accounted, TableOk, Readers, Writers, IsMaxFd, Step, Consistent, HubUpdate;
      ClientKeeps(Model(), fd, id, e);
      UsedHasOwner(selector.fds[..], live, fd);
      var c := Step(live[id].conn, e);
      astray := astray || c.astray;
      Update(fd, id, c);
    }

    /** The read callback of slot fd: a passive socket accepts, a client runs handle_read. */
    method DispatchRead(fd: int, owner: Owner, io: Io)
      requires Valid() && RealIo(io) && Used(selector.fds[..], fd) && selector.fds[fd].interest.read
      requires selector.fds[fd].data == Some(owner)
      modifies this, selector, selector.fds
      ensures Valid() && selector.fds == old(selector.fds)
      ensures Model() == HubRead(old(Model()), fd, io)
    {
      hide HubOk, Step, HubAccept, HubClient;
      match owner {
        case Acceptor => Accept(io.acceptedFd, io.nonBlocking, io.memory);
        case Client(id) => ClientCallback(fd, id, io.read);
      }
    }

    /** The write callback of slot fd; passive sockets have none and are never interested in one. */
    method DispatchWrite(fd: int, owner: Owner, io: Io)
      requires Valid() && RealIo(io) && Used(selector.fds[..], fd) && selector.fds[fd].interest.write
      requires selector.fds[fd].data == Some(owner)
      modifies this, selector, selector.fds
      ensures Valid() && selector.fds == old(selector.fds)
      ensures Model() == HubWrite(old(Model()), fd, io)
    {
      hide Consistent, AllSound, Accounted, Step, HubClient;
      UsedHasOwner(selector.fds[..], live, fd);
      ClientCallback(fd, owner.id, io.write);
    }

    /** What handle_iteration does with one used descriptor. */
    method Dispatch(fd: int, slaveR: set<int>, slaveW: set<int>, io: Io)
      requires Valid() && RealIo(io) && 0 <= fd < selector.fds.Length
      modifies this, selector, selector.fds
      ensures Valid() && selector.fds == old(selector.fds)
      ensures var between := if fd in slaveR then HubRead(old(Model()), fd, io) else old(Model());
              Model() == if fd in slaveW then HubWrite(between, fd, io) else between
    {
      hide HubOk, HubClient, HubAccept, Reached;
      if selector.fds[fd].fd != FD_UNUSED {
        UsedOwner(Model(), fd);
        var owner := selector.fds[fd].data.value;
        ReadKeepsOwner(Model(), fd, io);
        if fd in slaveR && selector.fds[fd].interest.read {
          DispatchRead(fd, owner, io);
        }
        if fd in slaveW && selector.fds[fd].interest.write {
          BlankHasNoInterest(selector.fds[..], fd);
          DispatchWrite(fd, owner, io);
        }
      }
    }

    /** handle_iteration: slaveR and slaveW are what pselect left of the descriptor sets, io what each callback meets.
        */
    method HandleIteration(slaveR: set<int>, slaveW: set<int>, io: int -> Io)
      requires Valid() && forall fd :: RealIo(io(fd))
      modifies this, selector, selector.fds
      ensures Valid() && selector.fds == old(selector.fds)
      ensures Model() == After(old(Model()), Iteration(old(selector.maxFd) + 1, slaveR, slaveW, io))
    {
      hide HubOk, HubRead, HubWrite, TableOk, Readers, Writers;
      var n := selector.maxFd;
      var i := 0;
      while i <= n
        invariant 0 <= i <= n + 1 <= selector.fds.Length && Valid() && selector.fds == old(selector.fds)
        invariant Model() == After(old(Model()), Iteration(i, slaveR, slaveW, io))
      {
        RunIteration(old(Model()), i, slaveR, slaveW, io);
        Dispatch(i, slaveR, slaveW, io(i));
        i := i + 1;
      }
    }

    /** selector_destroy: every descriptor is unregistered, so every client left is closed. */
    method Destroy()
      requires Valid()
      modifies this, selector, selector.fds
      ensures Valid() && Model() == After(old(Model()), UnregisterAll(old(selector.fds.Length)))
      ensures live == map[] && concurrentConnections == refused
    {
      hide HubOk, After, TableOk, Readers, Writers, IsMaxFd, Reached;
      ghost var before := Model();
      AfterNothing(before);
      var i := 0;
      while i < selector.fds.Length
        invariant 0 <= i <= selector.fds.Length && Valid() && selector.fds == old(selector.fds)
        invariant Model() == After(before, UnregisterAll(i))
      {
        RunAppends(before, UnregisterAll(i), Unregistered(i));
        if selector.fds[i].fd != FD_UNUSED {
          Unregister(i);
        }
        i := i + 1;
      }
      SlotsOf(Model());
      AllUnregistered(before, i);
      NobodyLeft(Model());
    }
  }

  lemma UsedOwner(h: Hub, fd: int)
    requires HubOk(h) && 0 <= fd < |h.items| && h.items[fd].fd != FD_UNUSED
    ensures Used(h.items, fd) && h.items[fd].data.Some? && !InvalidFd(fd)
  {
    hide AllSound, Accounted;
  }

  /** A slot that has just been blanked has no interest. */
  lemma BlankHasNoInterest(items: Table, fd: int)
    requires TableOk(items) && 0 <= fd < |items| && items[fd].interest.write
    ensures Used(items, fd)
  {
  }
}
