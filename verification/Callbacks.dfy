/** What one callback does to a connection: what it waits for then, when it ends, and what goes in and out. */
module Callbacks {
  import opened Bytes
  import opened CommandParser
  import opened Sessions
  import opened Commands
  import opened Interests
  import opened Engine
  import opened Running
  import opened Framing
  import opened Chronicle
  import opened Protocol
  import opened Theorems
  import opened Retr

  /** What has happened since is recorded with this world. */
  predicate Since(before: seq<Happening>, after: seq<Happening>, w: World) {
    before <= after && forall k :: |before| <= k < |after| ==> after[k].world == w
  }

  lemma SinceSame(h: seq<Happening>, w: World)
    ensures Since(h, h, w)
  {
  }

  lemma SinceJoin(a: seq<Happening>, b: seq<Happening>, c: seq<Happening>, w: World)
    requires Since(a, b, w) && Since(b, c, w)
    ensures Since(a, c, w)
  {
  }

  // ---- Reading ----

  /** The end of a read that was not the end of file, outside a transfer: with a line, which asks to be answered, or
      without. */
  predicate Goes(c: Conn, t: Turn) {
    && (t.next == Some(Quit) ==> t.conn.session.requestedQuit)
    && t.conn.open == c.open && t.conn.current == c.current
    && if |t.conn.hist.heard| > |c.hist.heard| then t.conn.interest == OP_WRITE || t.next == Some(Error)
       else t.conn.interest == c.interest && t.next == Some(StateOf(c)) && t.conn.session == c.session
  }

  lemma DispatchGoes(c: Conn, h: Handler, w: World)
    requires IndexesOk(c) && Runnable(c, h) && Suits(h, StateOf(c))
    ensures var t := Dispatch(c, h, w);
            && t.conn.interest == OP_WRITE && (t.next == Some(Quit) ==> t.conn.session.requestedQuit)
            && t.conn.open == c.open && t.conn.current == c.current
  {
    hide RunHandler, IndexesOk, Runnable, Suits, Cleaned;
    RunHandlerFrame(c, h, w);
  }

  lemma OnValidGoes(c: Conn, w: World)
    requires Core(c) && c.finished && c.reader.state == InCommand && StateOf(c) != Quit
    ensures Goes(c, OnValid(c, StateOf(c), w)) && |OnValid(c, StateOf(c), w).conn.hist.heard| > |c.hist.heard|
  {
    hide Dispatch, OnValid, CString, Core, SameIgnoringCase, Meant, Suits, Cleaned;
    var state := StateOf(c);
    LineRuns(c, state, w);
    OnValidTakes(c, state, w);
    MeantSuits(state, CString(c.reader.command), c.reader.argumentLength > 0);
    match Meant(state, CString(c.reader.command), c.reader.argumentLength > 0)
    case None =>
    case Some(h) =>
      var c2 := WithCall(WithLine(c), HandlerCall(state, h, CString(c.reader.argument)));
      CoreDepends(c, c2);
      CoreHasIndexes(c2);
      DispatchGoes(c2, h, w);
  }

  lemma CoreHasIndexes(c: Conn)
    requires Core(c)
    ensures IndexesOk(c)
  {
  }

  lemma {:induction false} ReadLinesGoes(c: Conn, w: World)
    requires Ready(c) && c.finished && (StateOf(c) == Authorization || StateOf(c) == Transaction)
    ensures Goes(c, ReadLines(c, StateOf(c), w))
    decreases |c.inq.unread|
  {
    hide ReadLines, OnValid, OnInvalid, Feed, Core, Tracks;
    if c.inq.unread != [] {
      var c1 := FeedOctet(c);
      ReadLinesOnce(c, StateOf(c), w);
      FeedOctetKeeps(c);
      match c1.reader.event
      case ValidCommand => OnValidGoes(c1, w);
      case InvalidCommand =>
        OnInvalidTakes(c1, c.inq.unread[0], SkipLine(c1.inq.unread, c.inq.unread[0] == CR));
        OnInvalidGoes(c1, c.inq.unread[0]);
      case Undefined => ReadLinesGoes(c1, w);
    } else {
      ReadLinesDone(c, StateOf(c), w);
    }
  }

  lemma OnInvalidGoes(c: Conn, b: Byte)
    ensures Goes(c, OnInvalid(c, b))
  {
    hide SkipLine, Cleaned, EndsLine;
  }

  /** recv finds the end of the input. */
  predicate EndOfFile(c: Conn, r: Recv) {
    c.inq.unread == [] && r == Segment([])
  }

  lemma EmptyOffersRoom(c: Conn)
    requires Core(c) && c.inq.unread == []
    ensures c.inq.Room() == BUFFER_SIZE
  {
    hide TransfersOk;
  }

  lemma ReadBufferedGoes(c: Conn, w: World)
    requires Reading(c)
    ensures var t := ReadBuffered(c, StateOf(c), w);
            if c.finished then Goes(c, t)
            else
              && t.conn.interest == OP_WRITE && t.next == c.current == t.conn.current && t.conn.open == c.open
              && t.conn.session == c.session && t.conn.hist.heard == c.hist.heard
  {
    hide ReadBuffered, ReadLines, Core, Tracks, Dispatch, Goes, CString;
    if c.finished {
      BufferedIsLines(c, w);
      ReadLinesGoes(c, w);
    } else {
      ResumedGoes(c, w);
    }
  }

  lemma ResumedGoes(c: Conn, w: World)
    requires Reading(c) && !c.finished
    ensures var t := ReadBuffered(c, StateOf(c), w);
            && t.conn.interest == OP_WRITE && t.next == c.current == t.conn.current && t.conn.open == c.open
            && t.conn.session == c.session && t.conn.hist.heard == c.hist.heard
  {
    hide ReadBuffered, Core, Tracks, Dispatch, CString, MailNumber, SameIgnoringCase;
    TransferResumes(c, w);
    DispatchInput(c, RetrHandler, w);
    DispatchSession(c, RetrHandler, w);
    LooksOnly(RetrHandler, c.reader.argumentLength > 0, CString(c.reader.argument), c.session, Transaction, w);
    DispatchWrites(c, RetrHandler, w);
  }

  lemma DispatchWrites(c: Conn, h: Handler, w: World)
    ensures Dispatch(c, h, w).conn.interest == OP_WRITE
  {
    hide RunHandler, Cleaned;
  }

  lemma LoadMailsGoes(c: Conn, w: World)
    ensures var after := LoadMails(c, w);
            && after.hist.heard == c.hist.heard && after.session.requestedQuit == c.session.requestedQuit
            && after.inq == c.inq && after.finished == c.finished && after.current == c.current
            && after.outq == c.outq && after.hist.wire == c.hist.wire && after.hist.received == c.hist.received
            && after.open == c.open && after.interest == c.interest
            && Since(c.hist.happenings, after.hist.happenings, w)
  {
    hide Loaded, Zeros, TotalSize;
  }

  /** A change of state after a read: QUIT closes unless the client has asked for it, and ERROR asks to write. */
  lemma JumpGoes(c: Conn, s: StmState, w: World)
    requires c.current.Some? && c.current != Some(Quit)
    ensures var after := Jump(c, Some(s), w);
            && after.hist.heard == c.hist.heard && after.session.requestedQuit == c.session.requestedQuit
            && after.inq == c.inq && after.finished == c.finished && after.current == Some(s)
            && after.outq == c.outq && after.hist.wire == c.hist.wire && after.hist.received == c.hist.received
            && after.open == (c.open && !(s == Quit && !c.session.requestedQuit))
            && after.interest == (if s == Error && c.current != Some(Error) then OP_WRITE else c.interest)
            && Since(c.hist.happenings, after.hist.happenings, w)
  {
    hide LoadMails, Reset;
    if c.current != Some(s) && s == Transaction {
      LoadMailsGoes(Depart(c, c.current.value).(current := Some(Transaction)), w);
    }
  }

  lemma ReadingGoes(c: Conn, w: World, r: Recv)
    requires Reading(c) && c.open
    ensures var after := StmRead(c, w, r);
            var heard := |after.hist.heard| > |c.hist.heard|;
            && (!after.open <==> EndOfFile(c, r))
            && (after.open ==> after.interest == if heard || !c.finished then OP_WRITE else c.interest)
            && (after.session.requestedQuit ==> heard)
  {
    hide Core, Tracks, ReadCommand, ReadBuffered, Received, Jump;
    var t, c1 := ReadCommand(c, StateOf(c), w, r), Received(c, r);
    ReadCommandCases(c, StateOf(c), w, r);
    ReceivedKeeps(c, r);
    ReceivedFrame(c, r);
    ReadBufferedGoes(c1, w);
    EmptyTakes(c, r);
    ReadCommandKeeps(c, w, r);
    TurnPhase(c, t);
    JumpGoes(t.conn, t.next.value, w);
  }

  lemma EmptyTakes(c: Conn, r: Recv)
    requires Core(c)
    ensures c.inq.unread == [] && r.Segment? ==> (Take(r.bytes, c.inq.Room()) == [] <==> r.bytes == [])
  {
    hide Core;
    if c.inq.unread == [] {
      EmptyOffersRoom(c);
    }
  }

  lemma StmReadGoes(c: Conn, w: World, r: Recv)
    requires Inv(c) && c.open && c.current.Some?
    ensures var after := StmRead(c, w, r);
            var heard := |after.hist.heard| > |c.hist.heard|;
            && (!after.open
                <==> (c.current == Some(Authorization) || c.current == Some(Transaction)) && EndOfFile(c, r))
            && (after.open ==> after.interest == if heard || !c.finished then OP_WRITE else c.interest)
            && (after.session.requestedQuit ==> c.session.requestedQuit || heard)
  {
    hide Core, Tracks, StmRead;
    if c.current == Some(Authorization) || c.current == Some(Transaction) {
      ReadingGoes(c, w, r);
    } else {
      assert c.current.value == Error || c.current.value == Quit;
      StayingReads(c, w, r);
    }
  }

  lemma StayingReads(c: Conn, w: World, r: Recv)
    requires c.current == Some(Error) || c.current == Some(Quit)
    ensures StmRead(c, w, r) == c
  {
    StayPut(c, w);
  }

  // ---- Writing ----

  /** The answer to a malformed line is queued, and the mail directory that is read after it does not open: opendir
      gives a null pointer. */
  predicate ReloadFails(c: Conn, w: World) {
    && c.current == Some(Error) && |UNKNOWN_COMMAND| <= c.outq.Room() && c.lastState == Some(Transaction)
    && c.session.mails == [] && !w.directoryOpens
  }

  lemma WelcomeFrame(c: Conn)
    ensures Welcome(c) == c.(outq := Welcome(c).outq, lastState := Welcome(c).lastState, hist := Welcome(c).hist)
    ensures Welcome(c).hist.heard == c.hist.heard && Welcome(c).hist.happenings == c.hist.happenings
  {
    hide Take;
  }

  lemma WriteCommandFrame(c: Conn, sent: Option<nat>)
    ensures var after := WriteCommand(c, sent);
            after == c.(outq := after.outq, interest := after.interest, hist := after.hist)
    ensures WriteCommand(c, sent).hist.heard == c.hist.heard
    ensures WriteCommand(c, sent).hist.happenings == c.hist.happenings
  {
  }

  /** What stm_handler_write leaves alone; it never closes. */
  lemma StmWriteGoes(c: Conn, w: World, sent: Option<nat>)
    requires Inv(c) && c.open
    ensures var after := StmWrite(c, w, sent);
            && after.open && after.session.requestedQuit == c.session.requestedQuit && after.inq == c.inq
            && after.finished == c.finished && after.hist.heard == c.hist.heard && after.current.Some?
            && (after.astray <==> c.astray || ReloadFails(c, w))
            && (!c.finished ==> after.current == c.current)
            && Since(c.hist.happenings, after.hist.happenings, w)
  {
    hide Core, Tracks, Welcome, WriteCommand, Jump, Reply, Since;
    SinceSame(c.hist.happenings, w);
    var c0 := EnterFirst(c);
    match StateOf(c0)
    case Authorization =>
      WelcomeFrame(c0);
      WriteCommandFrame(Welcome(c0), sent);
      StayPut(WriteCommand(Welcome(c0), sent), w);
    case Transaction =>
      WriteCommandFrame(c0, sent);
      StayPut(WriteCommand(c0, sent), w);
    case Error =>
      ReplyFrame(c0, UNKNOWN_COMMAND);
      StayPut(c0, w);
      JumpGoes(Reply(c0, UNKNOWN_COMMAND), c0.lastState.value, w);
      JumpGoesAstray(Reply(c0, UNKNOWN_COMMAND), c0.lastState, w);
    case Quit => StayPut(c0, w);
  }

  // ---- One callback ----

  /** The callback ends the connection. */
  predicate Ends(c: Conn, e: Callback) {
    match e
    case Shutdown => true
    case Readable(_, r) => (c.current == Some(Authorization) || c.current == Some(Transaction)) && EndOfFile(c, r)
    case Writable(w, _, sentAgain, r) =>
      && !ReloadFails(c, w)
      && (sentAgain == None || c.session.requestedQuit || (!c.finished && EndOfFile(c, r)))
  }

  /** What the connection waits for after a callback that has not ended it, if the callback has heard a line or not:
      everything heard, and a transfer under way, asks to write. */
  function Awaits(c: Conn, e: Callback, heard: bool): Interest {
    if heard || !c.finished then OP_WRITE
    else if e.Readable? then c.interest
    else if c.inq.unread != [] then OP_NOOP
    else OP_READ
  }

  lemma SendGoes(c: Conn, sentAgain: Option<nat>)
    ensures var after := Send(c, sentAgain); after == c.(outq := after.outq, hist := after.hist)
    ensures Send(c, sentAgain).hist.heard == c.hist.heard
    ensures Send(c, sentAgain).hist.happenings == c.hist.happenings
  {
  }

  lemma AfterSendGoes(c: Conn, w: World, r: Recv)
    requires Inv(c) && c.open && c.current.Some?
    requires !c.finished ==> c.current == Some(Transaction)
    ensures var after := AfterSend(c, w, r);
            var heard := |after.hist.heard| > |c.hist.heard|;
            && (!after.open <==> c.session.requestedQuit || (!c.finished && EndOfFile(c, r)))
            && (after.open ==> after.interest == if heard || !c.finished then OP_WRITE
                                                 else if c.inq.unread != [] then OP_NOOP else OP_READ)
            && (after.session.requestedQuit ==> c.session.requestedQuit || heard)
  {
    hide Core, Tracks, StmRead;
    if !c.session.requestedQuit && (c.inq.unread != [] || !c.finished) {
      CoreDepends(c, c.(interest := OP_NOOP));
      StmReadGoes(c.(interest := OP_NOOP), w, r);
    }
  }

  lemma HandleWriteGoes(c: Conn, w: World, sent: Option<nat>, sentAgain: Option<nat>, r: Recv)
    requires Inv(c) && c.open && !c.astray
    ensures var e, after := Writable(w, sent, sentAgain, r), HandleWrite(c, w, sent, sentAgain, r);
            var heard := |after.hist.heard| > |c.hist.heard|;
            && (!after.open <==> Ends(c, e))
            && (after.open && !ReloadFails(c, w) ==> after.interest == Awaits(c, e, heard))
            && (after.session.requestedQuit ==> c.session.requestedQuit || heard)
            && (ReloadFails(c, w) ==> after.astray)
  {
    hide Core, Tracks, StmWrite, AfterSend, Send;
    StmWriteGoes(c, w, sent);
    StmWriteKeeps(c, w, sent);
    var c1 := StmWrite(c, w, sent);
    SendGoes(c1, sentAgain);
    SendKeeps(c1, sentAgain);
    if sentAgain.Some? && !c1.astray {
      AfterSendGoes(Send(c1, sentAgain), w, r);
    }
  }

  /** A callback ends an open connection if and only if it is the shutdown of the server, a read that finds the end of
      the input, a write whose second send fails, or a write after a QUIT; a write that goes on to read may also find
      the end of the input there. Otherwise the connection waits to write if it has heard a line or has a transfer under
      way, and else to read; it waits for nothing at all when a write has left it with part of a line. */
  lemma StepEnds(c: Conn, e: Callback)
    requires Inv(c) && Enabled(c, e) && !c.astray
    ensures var after := Step(c, e);
            && (!after.open <==> Ends(c, e))
            && (after.open && !after.astray ==> after.interest == Awaits(c, e, |after.hist.heard| > |c.hist.heard|))
            && (after.session.requestedQuit ==> c.session.requestedQuit || |after.hist.heard| > |c.hist.heard|)
  {
    hide Core, Tracks, HandleWrite, StmRead;
    match e
    case Readable(w, r) => StmReadGoes(c, w, r);
    case Writable(w, sent, sentAgain, r) => HandleWriteGoes(c, w, sent, sentAgain, r);
    case Shutdown =>
  }

  /** In every run, each callback that is due ends the connection exactly in these cases. */
  lemma EndsExactly(r: Run, k: nat)
    requires r.Valid() && k < |r.events| && Enabled(r.states[k], r.events[k]) && !r.states[k].astray
    ensures !r.states[k + 1].open <==> Ends(r.states[k], r.events[k])
  {
    hide Inv, Step, Ends;
    Reachable(r, k);
    StepEnds(r.states[k], r.events[k]);
  }

  /** A connection that has been asked to quit waits to write, and the next write ends it. */
  lemma {:induction false} QuitIsAnswered(r: Run, k: nat)
    requires r.Defined(k) && r.states[k].open && r.states[k].session.requestedQuit
    ensures r.states[k].interest.write && !r.states[k].interest.read
    ensures forall w, sent, sentAgain, recv :: !Step(r.states[k], Writable(w, sent, sentAgain, recv)).open
  {
    hide Inv, Step;
    var c := r.states[k];
    WaitsToWrite(r, k);
    Reachable(r, k);
    forall w, sent, sentAgain, recv
      ensures !Step(c, Writable(w, sent, sentAgain, recv)).open
    {
      QuitIsNoError(c);
      StepEnds(c, Writable(w, sent, sentAgain, recv));
    }
  }

  lemma QuitIsNoError(c: Conn)
    requires Inv(c) && c.session.requestedQuit
    ensures c.current == Some(Quit)
  {
    hide Core, Tracks;
  }

  lemma {:induction false} WaitsToWrite(r: Run, k: nat)
    requires r.Defined(k) && r.states[k].open && r.states[k].session.requestedQuit
    ensures r.states[k].interest == OP_WRITE
  {
    hide Inv, Step;
    if k > 0 {
      var c, e := r.states[k - 1], r.events[k - 1];
      DefinedBefore(r, k - 1, k);
      Reachable(r, k - 1);
      if Enabled(c, e) {
        StepEnds(c, e);
        if c.session.requestedQuit {
          WaitsToWrite(r, k - 1);
          QuitIsNoError(c);
        }
      } else {
        DisabledStays(c, e);
        WaitsToWrite(r, k - 1);
      }
    }
  }

  lemma DisabledStays(c: Conn, e: Callback)
    requires !Enabled(c, e)
    ensures Step(c, e) == c
  {
  }

  // ---- What goes in and out ----

  /** What a write callback has to send: what was there, behind it the welcome if it has not been queued yet, or the
      answer to a malformed line. */
  function ToSend(c: Conn): seq<Byte> {
    c.outq.unread +
    (if StateOf(c) == Authorization && c.lastState.None? && |WELCOME| <= c.outq.Room() then WELCOME
     else if StateOf(c) == Error && |UNKNOWN_COMMAND| <= c.outq.Room() then UNKNOWN_COMMAND
     else [])
  }

  function Sent(sent: Option<nat>, waiting: nat): nat {
    if sent.Some? then Min(sent.value, waiting) else 0
  }

  lemma WholeReply(c: Conn, message: seq<Byte>)
    requires |message| <= c.outq.Room()
    ensures Reply(c, message).outq.unread == c.outq.unread + message && Reply(c, message).hist.wire == c.hist.wire
  {
  }

  lemma SendTakes(c: Conn, sent: Option<nat>)
    ensures var n := Sent(sent, |c.outq.unread|);
            && Send(c, sent).hist.wire == c.hist.wire + c.outq.unread[..n]
            && Send(c, sent).outq.unread == c.outq.unread[n..]
  {
  }

  lemma WriteCommandTakes(c: Conn, sent: Option<nat>)
    ensures var n := Sent(sent, |c.outq.unread|);
            && WriteCommand(c, sent).hist.wire == c.hist.wire + c.outq.unread[..n]
            && WriteCommand(c, sent).outq.unread == c.outq.unread[n..]
  {
    hide Send;
    if c.outq.unread == [] {
      assert c.outq.unread[..0] == [] && c.outq.unread[0..] == [];
      assert c.hist.wire + [] == c.hist.wire;
    }
    SendTakes(c, sent);
  }

  /** How much of it the state machine sends; in ERROR and QUIT it sends nothing itself. */
  function FirstSent(c: Conn, sent: Option<nat>): nat {
    if StateOf(c) == Authorization || StateOf(c) == Transaction then Sent(sent, |ToSend(c)|) else 0
  }

  /** Of what waits to be sent the first n octets have been, and nothing has been received. */
  predicate Took(c: Conn, after: Conn, waiting: seq<Byte>, n: nat) {
    && n <= |waiting| && after.hist.wire == c.hist.wire + waiting[..n] && after.outq.unread == waiting[n..]
    && after.hist.received == c.hist.received
  }

  lemma WriteTakes(c: Conn, sent: Option<nat>)
    ensures Took(c, WriteCommand(c, sent), c.outq.unread, Sent(sent, |c.outq.unread|))
    ensures WriteCommand(c, sent).current == c.current
  {
    hide WriteCommand;
    WriteCommandTakes(c, sent);
    WriteCommandReceives(c, sent);
  }

  lemma WelcomeWaits(c: Conn)
    requires StateOf(c) == Authorization
    ensures Welcome(c).outq.unread == ToSend(c) && Welcome(c).hist.wire == c.hist.wire
    ensures Welcome(c).hist.received == c.hist.received && Welcome(c).current == c.current
  {
    hide Reply;
    ReplyFrame(c, WELCOME);
    if |WELCOME| <= c.outq.Room() {
      WholeReply(c, WELCOME);
    }
    assert c.outq.unread + [] == c.outq.unread;
  }

  lemma NothingMoreWaits(c: Conn)
    requires StateOf(c) == Transaction || StateOf(c) == Quit
             || (StateOf(c) == Error && |UNKNOWN_COMMAND| > c.outq.Room())
    ensures ToSend(c) == c.outq.unread && Took(c, c, ToSend(c), 0)
  {
    assert c.outq.unread + [] == c.outq.unread && c.hist.wire + [] == c.hist.wire;
  }

  lemma ErrorTakes(c: Conn, w: World)
    requires c.current == Some(Error) && c.lastState.Some? && |UNKNOWN_COMMAND| <= c.outq.Room()
    ensures Took(c, Jump(Reply(c, UNKNOWN_COMMAND), c.lastState, w), ToSend(c), 0)
  {
    hide Reply, Jump;
    WholeReply(c, UNKNOWN_COMMAND);
    ReplyFrame(c, UNKNOWN_COMMAND);
    JumpGoes(Reply(c, UNKNOWN_COMMAND), c.lastState.value, w);
    assert c.hist.wire + [] == c.hist.wire;
  }

  lemma StmWriteTakes(c: Conn, w: World, sent: Option<nat>)
    requires Inv(c) && c.open
    ensures Took(c, StmWrite(c, w, sent), ToSend(c), FirstSent(c, sent))
  {
    hide Core, Tracks, WriteCommand, Jump, Reply, Welcome, Took, ToSend;
    var c0 := EnterFirst(c);
    EnteredWaits(c, sent);
    match StateOf(c0)
    case Authorization =>
      WelcomeWaits(c0);
      WriteTakes(Welcome(c0), sent);
      TookFrom(c0, Welcome(c0), WriteCommand(Welcome(c0), sent), ToSend(c0), FirstSent(c0, sent));
      StayPut(WriteCommand(Welcome(c0), sent), w);
    case Transaction =>
      NothingMoreWaits(c0);
      WriteTakes(c0, sent);
      StayPut(WriteCommand(c0, sent), w);
    case Error =>
      if |UNKNOWN_COMMAND| <= c0.outq.Room() {
        ErrorTakes(c0, w);
      } else {
        NothingMoreWaits(c0);
        StayPut(c0, w);
      }
    case Quit =>
      NothingMoreWaits(c0);
      StayPut(c0, w);
  }

  lemma TookFrom(c: Conn, c1: Conn, after: Conn, waiting: seq<Byte>, n: nat)
    requires Took(c1, after, waiting, n)
    requires c1.hist.wire == c.hist.wire && c1.hist.received == c.hist.received
    ensures Took(c, after, waiting, n)
  {
  }

  lemma EnteredWaits(c: Conn, sent: Option<nat>)
    ensures var c0 := EnterFirst(c);
            && ToSend(c0) == ToSend(c) && FirstSent(c0, sent) == FirstSent(c, sent)
            && c0.hist.wire == c.hist.wire && c0.hist.received == c.hist.received && c0.lastState == c.lastState
            && forall after, waiting, n :: Took(c0, after, waiting, n) ==> Took(c, after, waiting, n)
  {
  }

  lemma WriteCommandReceives(c: Conn, sent: Option<nat>)
    ensures WriteCommand(c, sent).current == c.current && WriteCommand(c, sent).hist.received == c.hist.received
  {
  }

  /** Nothing goes in or out, and what happens does so in this world. */
  predicate Still(a: Conn, b: Conn, w: World) {
    && a.hist.wire == b.hist.wire && a.hist.received == b.hist.received
    && Since(a.hist.happenings, b.hist.happenings, w)
  }

  lemma RunRetrStill(c: Conn, i: nat, w: World)
    requires i < |c.readIndex| && i < |c.session.mails|
    ensures Still(c, RunRetr(c, i), w)
  {
    hide Queued, After, CallFits, Overruns, Header;
  }

  lemma RunOtherStill(c: Conn, h: Handler, w: World)
    ensures Still(c, RunOther(c, h, w).conn, w)
  {
    hide Handle, CString;
  }

  lemma RunHandlerStill(c: Conn, h: Handler, w: World)
    ensures Still(c, RunHandler(c, h, w).conn, w)
  {
    hide RunOther, RunRetr, CString, MailNumber, GoesAstray;
    var n := MailNumber(CString(c.reader.argument));
    RunOtherStill(c, h, w);
    if h == RetrHandler && Exists(c.session, n) && n <= |c.readIndex| {
      var recorded := c.(hist := Record(c, h, w));
      RunRetrStill(recorded, n - 1, w);
      SinceJoin(c.hist.happenings, recorded.hist.happenings, RunRetr(recorded, n - 1).hist.happenings, w);
    }
  }

  lemma DispatchStill(c: Conn, h: Handler, w: World)
    ensures Still(c, Dispatch(c, h, w).conn, w)
  {
    hide RunHandler, Cleaned;
    RunHandlerStill(c, h, w);
  }

  lemma OnValidStill(c: Conn, state: StmState, w: World)
    ensures Still(c, OnValid(c, state, w).conn, w)
  {
    hide Dispatch, CString, Meant, OnValid, Cleaned;
    LineRuns(c, state, w);
    match Meant(state, CString(c.reader.command), c.reader.argumentLength > 0)
    case None =>
    case Some(h) => DispatchStill(WithCall(WithLine(c), HandlerCall(state, h, CString(c.reader.argument))), h, w);
  }

  lemma OnInvalidStill(c: Conn, b: Byte, w: World)
    ensures Still(c, OnInvalid(c, b).conn, w)
  {
    hide SkipLine, Cleaned, EndsLine;
  }

  lemma {:induction false} ReadLinesStill(c: Conn, state: StmState, w: World)
    ensures Still(c, ReadLines(c, state, w).conn, w)
    decreases |c.inq.unread|
  {
    hide ReadLines, OnValid, OnInvalid, Feed;
    if c.inq.unread != [] {
      var c1 := FeedOctet(c);
      ReadLinesOnce(c, state, w);
      match c1.reader.event
      case ValidCommand => OnValidStill(c1, state, w);
      case InvalidCommand => OnInvalidStill(c1, c.inq.unread[0], w);
      case Undefined => ReadLinesStill(c1, state, w);
    } else {
      ReadLinesDone(c, state, w);
    }
  }

  lemma ReadBufferedStill(c: Conn, state: StmState, w: World)
    ensures Still(c, ReadBuffered(c, state, w).conn, w)
  {
    hide ReadLines, Dispatch, Lookup, CString;
    ReadLinesStill(c, state, w);
    var found := Lookup(CString(c.reader.command), state);
    if found.Some? {
      DispatchStill(c, found.value.handler, w);
    }
  }

  lemma JumpStill(c: Conn, next: Option<StmState>, w: World)
    requires c.current.Some? && c.current != Some(Quit) && next.Some?
    ensures Still(c, Jump(c, next, w), w)
  {
    hide Jump;
    JumpGoes(c, next.value, w);
  }

  /** What a read takes from recv: as much as there is room for, if nothing is left to read, in the states that read. */
  function Taken(c: Conn, r: Recv): seq<Byte> {
    if (c.current == Some(Authorization) || c.current == Some(Transaction)) && c.inq.unread == [] && r.Segment? then
      Take(r.bytes, BUFFER_SIZE)
    else []
  }

  lemma TakenSame(a: Conn, b: Conn, r: Recv)
    requires a.inq == b.inq
    ensures a.current == b.current ==> Taken(a, r) == Taken(b, r)
  {
  }

  lemma ReceivedTaken(c: Conn, r: Recv)
    requires Reading(c)
    ensures Received(c, r).hist.received == c.hist.received + Taken(c, r)
    ensures Received(c, r).hist.wire == c.hist.wire && Received(c, r).hist.happenings == c.hist.happenings
  {
    hide Core;
    if c.inq.unread == [] {
      EmptyOffersRoom(c);
    }
    assert c.hist.received + [] == c.hist.received;
  }

  lemma StmReadTakes(c: Conn, w: World, r: Recv)
    requires Inv(c) && c.open && c.current.Some?
    ensures var after := StmRead(c, w, r);
            && after.hist.wire == c.hist.wire && after.hist.received == c.hist.received + Taken(c, r)
            && Since(c.hist.happenings, after.hist.happenings, w)
  {
    hide Core, Tracks, ReadCommand, ReadBuffered, Received, Jump, Since;
    if c.current == Some(Authorization) || c.current == Some(Transaction) {
      var t, c1 := ReadCommand(c, StateOf(c), w, r), Received(c, r);
      ReadCommandCases(c, StateOf(c), w, r);
      ReceivedTaken(c, r);
      ReadBufferedStill(c1, StateOf(c), w);
      ReadCommandKeeps(c, w, r);
      TurnPhase(c, t);
      JumpStill(t.conn, t.next, w);
      SinceSame(c.hist.happenings, w);
      SinceJoin(c.hist.happenings, t.conn.hist.happenings, Jump(t.conn, t.next, w).hist.happenings, w);
      EmptyTakes(c, r);
      assert c.hist.received + [] == c.hist.received;
    } else {
      assert c.current.value == Error || c.current.value == Quit;
      StayingReads(c, w, r);
      SinceSame(c.hist.happenings, w);
      assert c.hist.received + [] == c.hist.received;
    }
  }

  /** Whether a write callback may call recv as well: a transfer is under way and the connection goes on. */
  predicate MayReceive(c: Conn, w: World, sentAgain: Option<nat>) {
    !ReloadFails(c, w) && sentAgain.Some? && !c.session.requestedQuit && !c.finished
  }

  lemma AfterSendTakes(c: Conn, w: World, r: Recv)
    requires Inv(c) && c.open && c.current.Some?
    ensures var after := AfterSend(c, w, r);
            var taken := if !c.session.requestedQuit && !c.finished then Taken(c, r) else [];
            && after.hist.wire == c.hist.wire && after.hist.received == c.hist.received + taken
            && Since(c.hist.happenings, after.hist.happenings, w)
  {
    hide Core, Tracks, StmRead, Since;
    SinceSame(c.hist.happenings, w);
    assert c.hist.received + [] == c.hist.received;
    if !c.session.requestedQuit && (c.inq.unread != [] || !c.finished) {
      CoreDepends(c, c.(interest := OP_NOOP));
      StmReadTakes(c.(interest := OP_NOOP), w, r);
    }
  }

  lemma TakeTwice(before: seq<Byte>, s: seq<Byte>, m: nat, n: nat)
    requires m + n <= |s|
    ensures (before + s[..m]) + s[m..][..n] == before + s[..m + n]
  {
    assert s[..m] + s[m..][..n] == s[..m + n];
  }

  lemma HandleWriteTakes(c: Conn, w: World, sent: Option<nat>, sentAgain: Option<nat>, r: Recv)
    requires Inv(c) && c.open && !c.astray
    ensures var after := HandleWrite(c, w, sent, sentAgain, r);
            var first := FirstSent(c, sent);
            var second := if ReloadFails(c, w) then 0 else Sent(sentAgain, |ToSend(c)| - first);
            && first + second <= |ToSend(c)| && after.hist.wire == c.hist.wire + ToSend(c)[..first + second]
            && after.hist.received == c.hist.received + (if MayReceive(c, w, sentAgain) then Taken(c, r) else [])
  {
    hide Core, Tracks, StmWrite, AfterSend, Send, ToSend, ReloadFails, Since, FirstSent, Taken;
    StmWriteGoes(c, w, sent);
    StmWriteKeeps(c, w, sent);
    StmWriteTakes(c, w, sent);
    var c1, first := StmWrite(c, w, sent), FirstSent(c, sent);
    SendGoes(c1, sentAgain);
    SendKeeps(c1, sentAgain);
    SendTakes(c1, sentAgain);
    TakenSame(c, Send(c1, sentAgain), r);
    assert c.hist.received + [] == c.hist.received;
    if !c1.astray {
      TakeTwice(c.hist.wire, ToSend(c), first, Sent(sentAgain, |ToSend(c)| - first));
      if sentAgain.Some? {
        AfterSendTakes(Send(c1, sentAgain), w, r);
      }
    }
  }

  lemma HandleWriteHappens(c: Conn, w: World, sent: Option<nat>, sentAgain: Option<nat>, r: Recv)
    requires Inv(c) && c.open && !c.astray
    ensures Since(c.hist.happenings, HandleWrite(c, w, sent, sentAgain, r).hist.happenings, w)
  {
    hide Core, Tracks, StmWrite, AfterSend, Send, Since;
    StmWriteGoes(c, w, sent);
    StmWriteKeeps(c, w, sent);
    var c1 := StmWrite(c, w, sent);
    SendGoes(c1, sentAgain);
    SendKeeps(c1, sentAgain);
    if !c1.astray && sentAgain.Some? {
      var c2 := Send(c1, sentAgain);
      AfterSendTakes(c2, w, r);
      SinceJoin(c.hist.happenings, c1.hist.happenings, AfterSend(c2, w, r).hist.happenings, w);
    }
  }

  /** What goes in and out in one callback. A read takes from recv what there is room for, if nothing is left to read. A
      write offers send all the output, the welcome and the answer to a malformed line included, twice in AUTHORIZATION
      and TRANSACTION and else once, and each send takes what it takes from the front. The history records handlers and
      scans with the world of the callback they ran in. */
  lemma StepMoves(c: Conn, e: Callback)
    requires Inv(c) && Enabled(c, e) && !c.astray
    ensures var after := Step(c, e);
            match e
            case Shutdown =>
              && after.hist.wire == c.hist.wire && after.hist.received == c.hist.received
              && after.hist.happenings == c.hist.happenings
            case Readable(w, r) =>
              && after.hist.wire == c.hist.wire && after.hist.received == c.hist.received + Taken(c, r)
              && Since(c.hist.happenings, after.hist.happenings, w)
            case Writable(w, sent, sentAgain, r) =>
              var first := FirstSent(c, sent);
              var second := if ReloadFails(c, w) then 0 else Sent(sentAgain, |ToSend(c)| - first);
              && first + second <= |ToSend(c)| && after.hist.wire == c.hist.wire + ToSend(c)[..first + second]
              && after.hist.received == c.hist.received + (if MayReceive(c, w, sentAgain) then Taken(c, r) else [])
              && Since(c.hist.happenings, after.hist.happenings, w)
  {
    hide Core, Tracks, HandleWrite, StmRead, ToSend, ReloadFails, Taken, Since;
    match e
    case Readable(w, r) => StmReadTakes(c, w, r);
    case Writable(w, sent, sentAgain, r) =>
      HandleWriteTakes(c, w, sent, sentAgain, r);
      HandleWriteHappens(c, w, sent, sentAgain, r);
    case Shutdown =>
  }
}
