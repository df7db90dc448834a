/** The protocol without any I/O: what a list of command lines means. Every run of the connection, however its input
    was segmented and its output taken, computes exactly this. */
module Protocol {
  import opened Bytes
  import opened CommandParser
  import opened Sessions
  import opened Commands
  import opened Interests
  import opened Engine
  import opened Running
  import opened Stuffing
  import opened Retr
  import opened Framing
  import opened Chronicle

  /** Where the protocol is, the session, the stuffing flag, the handlers called, and all replies after the welcome. */
  datatype Reference = Reference(phase: StmState, session: Session, flag: Flag, calls: seq<HandlerCall>,
           output: seq<Byte>)

  predicate WellFormed(inputs: seq<Input>) {
    forall i :: 0 <= i < |inputs| && inputs[i].Line? ==> ValidLine(inputs[i].octets)
  }

  /** An error is answered, and coming back from it to TRANSACTION looks for mails if there are none. */
  function Refuse(after: World, r: Reference): Reference {
    r.(session := if r.phase == Transaction then Arrive(r.session, after) else r.session,
       output := r.output + UNKNOWN_COMMAND)
  }

  /** A handler runs. */
  function Call(w: World, after: World, r: Reference, h: Handler, has: bool, argument: seq<Byte>): Reference {
    var o := Handle(h, r.phase, has, argument, r.session, w);
    var n := MailNumber(argument);
    var r1 := r.(calls := r.calls + [HandlerCall(r.phase, h, argument)]);
    if h == RetrHandler && Exists(r.session, n) then
      var content := r.session.mails[n - 1].content;
      r1.(flag := FlagAfter(r.flag, content), output := r.output + Transmission(r.flag, content))
    else
      var r2 := r1.(session := o.session, output := r.output + o.reply);
      if o.next == Error then Refuse(after, r2)
      else if o.next == Transaction && r.phase != Transaction then
        r2.(phase := Transaction, session := Arrive(o.session, w))
      else r2.(phase := o.next)
  }

  /** One line in the state that reads it; w is the world when it is read, `after` the world when it has been read. */
  function Obey(w: World, after: World, r: Reference, input: Input): Reference
    requires input.Line? ==> ValidLine(input.octets)
  {
    match input
    case Garbage => Refuse(after, r)
    case Line(line) =>
      var has := LineArgument(line) != [];
      match Meant(r.phase, CString(LineName(line)), has)
      case None => Refuse(after, r)
      case Some(h) => Call(w, after, r, h, has, CString(LineArgument(line)))
  }

  /** The world may change at any time. It matters when a line is read, and when a connection comes back from an error:
      reading(n) is the world in which line n is read, returning(n) the one in which the error of line n - 1 is
      answered. */
  datatype Worlds = Worlds(reading: nat -> World, returning: nat -> World)

  function Interpret(ws: Worlds, inputs: seq<Input>): Reference
    requires WellFormed(inputs)
  {
    if inputs == [] then Reference(Authorization, NewSession(), AnyCharacter, [], [])
    else
      var n := |inputs| - 1;
      Obey(ws.reading(n), ws.returning(n + 1), Interpret(ws, inputs[..n]), inputs[n])
  }

  lemma {:induction false} InterpretPush(ws: Worlds, inputs: seq<Input>, input: Input)
    requires WellFormed(inputs) && (input.Line? ==> ValidLine(input.octets))
    ensures WellFormed(inputs + [input])
    ensures Interpret(ws, inputs + [input])
            == Obey(ws.reading(|inputs|), ws.returning(|inputs| + 1), Interpret(ws, inputs), input)
  {
    hide Obey, ValidLine;
    assert (inputs + [input])[..|inputs|] == inputs;
  }

  /** The session once an error has been answered. */
  function Settled(c: Conn, w: World): Session {
    if c.current == Some(Error) && c.lastState == Some(Transaction) then Arrive(c.session, w) else c.session
  }

  /** The session is what the lines read so far mean; only the end of the connection is not in the lines. */
  predicate Follows(c: Conn, ws: Worlds) {
    WellFormed(c.hist.heard) &&
    var r := Interpret(ws, c.hist.heard);
    && c.hist.calls == r.calls && Settled(c, ws.returning(|c.hist.heard|)) == r.session
    && (Phase(c) == r.phase || Phase(c) == Quit)
  }

  /** The session once the state machine has moved on from this turn. */
  function SettledTurn(c: Conn, t: Turn, w: World, after: World): Session {
    if t.next == Some(Error) && StateOf(c) == Transaction then Arrive(t.conn.session, after)
    else if t.next == Some(Transaction) && StateOf(c) != Transaction then Arrive(t.conn.session, w)
    else t.conn.session
  }

  /** The same at the end of a read callback, before the state machine moves on. */
  predicate TurnFollows(c: Conn, t: Turn, ws: Worlds) {
    WellFormed(t.conn.hist.heard) &&
    var r := Interpret(ws, t.conn.hist.heard);
    var phase := PhaseAfter(t, StateOf(c));
    && t.conn.hist.calls == r.calls
    && (phase == r.phase || phase == Quit)
    && r.session == SettledTurn(c, t, ws.reading(|c.hist.heard|), ws.returning(|t.conn.hist.heard|))
  }

  /** The parser has just delivered this line. */
  predicate JustRead(c: Conn, line: seq<Byte>) {
    && ValidLine(line) && c.hist.partial == line
    && CString(c.reader.command) == CString(LineName(line))
    && CString(c.reader.argument) == CString(LineArgument(line))
    && (c.reader.argumentLength > 0 <==> LineArgument(line) != [])
  }

  lemma FeedDelivers(c: Conn)
    requires ReaderOk(c) && c.finished && c.inq.unread != [] && FeedOctet(c).reader.event == ValidCommand
    ensures JustRead(FeedOctet(c), c.hist.partial + [c.inq.unread[0]])
  {
    hide CString, Tracks, ValidLine, Feed;
    var p, b := c.hist.partial, c.inq.unread[0];
    FeedTracks(c.reader, p, b);
    EndYieldsWords(c.reader, p);
  }

  /** What a dispatch does to the session is what the reference does. */
  lemma DispatchFollows(c: Conn, h: Handler, w: World, after: World, r: Reference)
    requires StateOf(c) == r.phase && (r.phase == Authorization || r.phase == Transaction) && c.session == r.session
    requires Suits(h, r.phase)
    ensures var t := Dispatch(c, h, w);
            var next := Call(w, after, r, h, c.reader.argumentLength > 0, CString(c.reader.argument));
            && next.calls == r.calls + [HandlerCall(r.phase, h, CString(c.reader.argument))]
            && PhaseAfter(t, StateOf(c)) == next.phase && SettledTurn(c, t, w, after) == next.session
  {
    hide CString, Dispatch, Handle, Arrive, MailNumber, Transmission, FlagAfter;
    DispatchSession(c, h, w);
    LooksOnly(RetrHandler, c.reader.argumentLength > 0, CString(c.reader.argument), c.session, StateOf(c), w);
  }

  /** The reference understands the line as the connection does. */
  lemma ObeyLine(c: Conn, line: seq<Byte>, w: World, after: World, r: Reference)
    requires JustRead(c, line)
    ensures var has := c.reader.argumentLength > 0;
            Obey(w, after, r, Line(line))
            == match Meant(r.phase, CString(c.reader.command), has)
               case None => Refuse(after, r)
               case Some(h) => Call(w, after, r, h, has, CString(c.reader.argument))
  {
    hide CString, ValidLine, LineName, LineArgument, Call, Refuse, Meant;
  }

  lemma AcceptedFollows(c: Conn, line: seq<Byte>, h: Handler, w: World, after: World, r: Reference)
    requires StateOf(c) == r.phase && (r.phase == Authorization || r.phase == Transaction)
    requires c.session == r.session && c.hist.calls == r.calls && Suits(h, r.phase)
    ensures var argument := CString(c.reader.argument);
            var t := Dispatch(WithCall(WithLine(c), HandlerCall(r.phase, h, argument)), h, w);
            var next := Call(w, after, r, h, c.reader.argumentLength > 0, argument);
            && t.conn.hist.calls == next.calls && t.conn.hist.heard == c.hist.heard + [Line(c.hist.partial)]
            && PhaseAfter(t, StateOf(c)) == next.phase && SettledTurn(c, t, w, after) == next.session
  {
    hide CString, Call, Dispatch, Arrive;
    var c2 := WithCall(WithLine(c), HandlerCall(r.phase, h, CString(c.reader.argument)));
    DispatchFollows(c2, h, w, after, r);
    DispatchInput(c2, h, w);
  }

  /** A line has been heard, and everything is as the reference has it after that line. */
  lemma {:induction false} HeardFollows(c: Conn, t: Turn, input: Input, ws: Worlds)
    requires WellFormed(c.hist.heard) && (input.Line? ==> ValidLine(input.octets))
    requires t.conn.hist.heard == c.hist.heard + [input]
    requires var n := |c.hist.heard|;
             var next := Obey(ws.reading(n), ws.returning(n + 1), Interpret(ws, c.hist.heard), input);
             && t.conn.hist.calls == next.calls && PhaseAfter(t, StateOf(c)) == next.phase
             && SettledTurn(c, t, ws.reading(n), ws.returning(n + 1)) == next.session
    ensures TurnFollows(c, t, ws)
  {
    hide Interpret, Obey, WellFormed, ValidLine, SettledTurn;
    InterpretPush(ws, c.hist.heard, input);
  }

  lemma RefusedFollows(c: Conn, t: Turn, w: World, after: World, r: Reference)
    requires t.next == Some(Error) && t.conn.session == c.session == r.session
    requires t.conn.hist.calls == c.hist.calls == r.calls
    requires StateOf(c) == r.phase
    ensures var next := Refuse(after, r);
            && t.conn.hist.calls == next.calls && PhaseAfter(t, StateOf(c)) == next.phase
            && SettledTurn(c, t, w, after) == next.session
  {
    hide Arrive;
  }

  lemma RejectedSession(c: Conn)
    ensures CleanCommand(WithLine(c)).session == c.session && CleanCommand(WithLine(c)).hist.calls == c.hist.calls
  {
    hide Cleaned;
  }

  lemma {:induction false} OnValidFollows(c: Conn, line: seq<Byte>, w: World, ws: Worlds)
    requires w == ws.reading(|c.hist.heard|)
    requires JustRead(c, line) && WellFormed(c.hist.heard) && (StateOf(c) == Authorization || StateOf(c) == Transaction)
    requires var r := Interpret(ws, c.hist.heard);
             c.hist.calls == r.calls && c.session == r.session && StateOf(c) == r.phase
    ensures TurnFollows(c, OnValid(c, StateOf(c), w), ws)
  {
    hide CString, ValidLine, Interpret, Call, Obey, Refuse, Meant, Dispatch, Arrive, WellFormed, OnValid, Cleaned,
         LineName, LineArgument, TurnFollows, SettledTurn, PhaseAfter, WithLine, WithCall, CleanCommand, Suits;
    var state, n, r := StateOf(c), |c.hist.heard|, Interpret(ws, c.hist.heard);
    LineRuns(c, state, w);
    OnValidTakes(c, state, w);
    ObeyLine(c, line, w, ws.returning(n + 1), r);
    MeantSuits(state, CString(c.reader.command), c.reader.argumentLength > 0);
    match Meant(state, CString(c.reader.command), c.reader.argumentLength > 0) {
      case Some(h) => AcceptedFollows(c, line, h, w, ws.returning(n + 1), r);
      case None =>
        RejectedSession(c);
        RefusedFollows(c, OnValid(c, state, w), w, ws.returning(n + 1), r);
    }
    HeardFollows(c, OnValid(c, state, w), Line(line), ws);
  }

  lemma {:induction false} OnInvalidFollows(c: Conn, b: Byte, ws: Worlds)
    requires WellFormed(c.hist.heard) && (StateOf(c) == Authorization || StateOf(c) == Transaction)
    requires var r := Interpret(ws, c.hist.heard);
             c.hist.calls == r.calls && c.session == r.session && StateOf(c) == r.phase
    ensures TurnFollows(c, OnInvalid(c, b), ws)
  {
    hide Interpret, Arrive, SkipLine, Cleaned, WellFormed, EndsLine, TurnFollows, SettledTurn, Refuse;
    var n := |c.hist.heard|;
    RefusedFollows(c, OnInvalid(c, b), ws.reading(n), ws.returning(n + 1), Interpret(ws, c.hist.heard));
    HeardFollows(c, OnInvalid(c, b), Garbage, ws);
  }

  /** Reading hears nothing, and then nothing changes but for the end of the connection; or it hears a line. */
  predicate HearsOrStays(c: Conn, t: Turn) {
    |t.conn.hist.heard| > |c.hist.heard|
    || (t.conn.hist.heard == c.hist.heard && (t.next == Some(StateOf(c)) || t.next == Some(Quit)))
  }

  lemma {:induction false} ReadLinesHears(c: Conn, w: World)
    ensures HearsOrStays(c, ReadLines(c, StateOf(c), w))
    decreases |c.inq.unread|
  {
    hide ReadLines, OnValid, OnInvalid, Feed;
    if c.inq.unread != [] {
      var c1 := FeedOctet(c);
      ReadLinesOnce(c, StateOf(c), w);
      match c1.reader.event
      case ValidCommand => OnValidTakes(c1, StateOf(c), w);
      case InvalidCommand => OnInvalidTakes(c1, c.inq.unread[0], SkipLine(c1.inq.unread, c.inq.unread[0] == CR));
      case Undefined => ReadLinesHears(c1, w);
    } else {
      ReadLinesDone(c, StateOf(c), w);
    }
  }

  lemma ReadCommandHears(c: Conn, w: World, recv: Recv)
    requires Reading(c)
    ensures HearsOrStays(c, ReadCommand(c, StateOf(c), w, recv))
  {
    hide ReadCommand, Received, ReadLines, Dispatch, Core, Tracks;
    var c1 := Received(c, recv);
    ReadCommandCases(c, StateOf(c), w, recv);
    ReceivedKeeps(c, recv);
    ReceivedFrame(c, recv);
    if c.finished {
      BufferedIsLines(c1, w);
      ReadLinesHears(c1, w);
    } else {
      TransferResumes(c1, w);
      DispatchInput(c1, RetrHandler, w);
    }
  }

  lemma {:induction false} ReadLinesFollows(c: Conn, w: World, ws: Worlds)
    requires Ready(c) && c.finished && Follows(c, ws) && (StateOf(c) == Authorization || StateOf(c) == Transaction)
    requires Phase(c) == StateOf(c) && c.current.Some?
    requires |ReadLines(c, StateOf(c), w).conn.hist.heard| > |c.hist.heard| ==> w == ws.reading(|c.hist.heard|)
    ensures TurnFollows(c, ReadLines(c, StateOf(c), w), ws)
    decreases |c.inq.unread|
  {
    hide CString, ValidLine, Interpret, OnValid, OnInvalid, Tracks, Feed, TransfersOk, Arrive, BuffersOk, WellFormed,
         ReadLines;
    if c.inq.unread != [] {
      ReadLinesOnce(c, StateOf(c), w);
      FeedOctetKeeps(c);
      var c1 := FeedOctet(c);
      match c1.reader.event
      case ValidCommand =>
        FeedDelivers(c);
        OnValidTakes(c1, StateOf(c), w);
        OnValidFollows(c1, c1.hist.partial, w, ws);
      case InvalidCommand => OnInvalidFollows(c1, c.inq.unread[0], ws);
      case Undefined => ReadLinesFollows(c1, w, ws);
    } else {
      ReadLinesDone(c, StateOf(c), w);
    }
  }

  lemma ResumeFollows(c: Conn, w: World, ws: Worlds)
    requires Reading(c) && !c.finished && Follows(c, ws) && Phase(c) == Transaction
    ensures TurnFollows(c, ReadBuffered(c, Transaction, w), ws)
  {
    hide CString, Interpret, ReadBuffered, Dispatch, Core, Arrive, WellFormed;
    TransferResumes(c, w);
    DispatchSession(c, RetrHandler, w);
    DispatchInput(c, RetrHandler, w);
    LooksOnly(RetrHandler, c.reader.argumentLength > 0, CString(c.reader.argument), c.session, Transaction, w);
  }

  lemma ReceivedFollows(c: Conn, c1: Conn, ws: Worlds)
    requires Follows(c, ws)
    requires c1 == c.(inq := c1.inq, hist := c.hist.(received := c1.hist.received))
    ensures Follows(c1, ws) && Phase(c1) == Phase(c)
  {
    hide Interpret, WellFormed, Arrive;
  }

  lemma SameTurnFollows(a: Conn, b: Conn, t: Turn, ws: Worlds)
    requires StateOf(a) == StateOf(b) && a.hist.heard == b.hist.heard
    ensures TurnFollows(b, t, ws) ==> TurnFollows(a, t, ws)
  {
    hide Interpret, WellFormed, Arrive;
  }

  lemma EndFollows(c: Conn, ws: Worlds)
    requires Follows(c, ws) && Phase(c) == StateOf(c) && c.current != Some(Error)
    ensures TurnFollows(c, Turn(c, Some(Quit)), ws)
  {
    hide Interpret, WellFormed, Arrive;
  }

  lemma ReadCommandFollows(c: Conn, w: World, recv: Recv, ws: Worlds)
    requires Reading(c) && Follows(c, ws) && Phase(c) == StateOf(c)
    requires |ReadCommand(c, StateOf(c), w, recv).conn.hist.heard| > |c.hist.heard| ==> w == ws.reading(|c.hist.heard|)
    ensures TurnFollows(c, ReadCommand(c, StateOf(c), w, recv), ws)
  {
    hide CString, Interpret, ReadBuffered, ReadLines, ReadCommand, Received, Core, Tracks, Arrive, WellFormed,
         TurnFollows, Follows;
    var c1 := Received(c, recv);
    ReadCommandCases(c, StateOf(c), w, recv);
    ReceivedKeeps(c, recv);
    ReceivedFrame(c, recv);
    ReceivedFollows(c, c1, ws);
    if c.inq.unread == [] && recv.Segment? && Take(recv.bytes, c.inq.Room()) == [] {
      EndFollows(c, ws);
      return;
    } else if c.finished {
      BufferedIsLines(c1, w);
      ReadLinesFollows(c1, w, ws);
    } else {
      ResumeFollows(c1, w, ws);
    }
    SameTurnFollows(c, c1, ReadBuffered(c1, StateOf(c), w), ws);
  }

  lemma {:induction false} BufferedIsLines(c: Conn, w: World)
    requires c.finished
    ensures ReadBuffered(c, StateOf(c), w) == ReadLines(c, StateOf(c), w)
  {
  }

  lemma LoadMailsFollows(c: Conn, w: World)
    ensures LoadMails(c, w).session == Arrive(c.session, w)
    ensures SameReading(c, LoadMails(c, w)) && SameControl(c, LoadMails(c, w))
  {
    hide TotalSize, Loaded;
  }

  lemma TurnPhase(c: Conn, t: Turn)
    requires Reading(c) && TurnOk(c, t)
    ensures (c.current == Some(Authorization) || c.current == Some(Transaction)) && t.conn.current == c.current
    ensures t.next.Some?
  {
    hide Core, Tracks;
  }

  lemma JumpAfterReadFollows(c: Conn, t: Turn, w: World, ws: Worlds)
    requires Reading(c) && TurnOk(c, t) && TurnFollows(c, t, ws) && HearsOrStays(c, t)
    requires |t.conn.hist.heard| > |c.hist.heard| ==> w == ws.reading(|c.hist.heard|)
    ensures Follows(Jump(t.conn, t.next, w), ws)
  {
    hide CString, Interpret, Arrive, WellFormed, Reading, TurnOk, TurnFollows, Follows, Jump;
    TurnPhase(c, t);
    JumpIs(t.conn, t.next.value, w);
    if t.next == t.conn.current {
      StaysFollowing(c, t, ws);
    } else {
      LeavesFollowing(c, t, Jump(t.conn, t.next, w), ws);
    }
  }

  /** What a change of state leaves alone, and what entering TRANSACTION does to the session. */
  lemma JumpIs(c: Conn, s: StmState, w: World)
    requires c.current.Some? && c.current != Some(Quit)
    ensures var after := Jump(c, Some(s), w);
            if c.current == Some(s) then after == c
            else
              && after.current == Some(s) && after.lastState == c.current
              && after.hist.calls == c.hist.calls && after.hist.heard == c.hist.heard
              && after.session == if s == Transaction then Arrive(c.session, w) else c.session
  {
    hide ArriveAt, Arrive;
    ArrivalIs(Depart(c, c.current.value).(current := Some(s)), s, w);
  }

  lemma ArrivalIs(c: Conn, s: StmState, w: World)
    ensures var after := ArriveAt(c, s, w);
            && after.current == c.current && after.lastState == c.lastState
            && after.hist.calls == c.hist.calls && after.hist.heard == c.hist.heard
            && after.session == if s == Transaction then Arrive(c.session, w) else c.session
  {
    hide LoadMails, Arrive;
    LoadMailsFollows(c, w);
  }

  lemma StaysFollowing(c: Conn, t: Turn, ws: Worlds)
    requires TurnFollows(c, t, ws) && t.next == t.conn.current == c.current
    requires c.current == Some(Authorization) || c.current == Some(Transaction)
    ensures Follows(t.conn, ws)
  {
    hide Interpret, Arrive, WellFormed;
  }

  lemma LeavesFollowing(c: Conn, t: Turn, after: Conn, ws: Worlds)
    requires TurnFollows(c, t, ws) && t.next.Some? && t.next != c.current == t.conn.current && after.current == t.next
    requires c.current == Some(Authorization) || c.current == Some(Transaction)
    requires after.hist.calls == t.conn.hist.calls && after.hist.heard == t.conn.hist.heard
    requires after.lastState == c.current
    requires var w := ws.reading(|c.hist.heard|);
             after.session == if t.next == Some(Transaction) then Arrive(t.conn.session, w) else t.conn.session
    ensures Follows(after, ws)
  {
    hide Interpret, Arrive, WellFormed;
  }

  lemma StmReadFollows(c: Conn, w: World, recv: Recv, ws: Worlds)
    requires Inv(c) && c.open && c.current.Some? && Follows(c, ws)
    requires |StmRead(c, w, recv).hist.heard| > |c.hist.heard| ==> w == ws.reading(|c.hist.heard|)
    ensures Follows(StmRead(c, w, recv), ws)
  {
    hide Interpret, ReadCommand, Jump, Core, Tracks, Follows, TurnOk, TurnFollows;
    if Reading(c) {
      var t := ReadCommand(c, StateOf(c), w, recv);
      JumpInput(t.conn, t.next, w);
      InPhase(c);
      ReadCommandHears(c, w, recv);
      ReadCommandFollows(c, w, recv, ws);
      ReadCommandKeeps(c, w, recv);
      JumpAfterReadFollows(c, t, w, ws);
    } else {
      StayPut(c, w);
    }
  }

  lemma InPhase(c: Conn)
    requires Reading(c)
    ensures Phase(c) == StateOf(c)
  {
    hide Core, Tracks;
  }

  /** A read callback enters ERROR only after a line. */
  lemma StmReadHears(c: Conn, w: World, recv: Recv)
    requires Inv(c) && c.open && c.current.Some?
    ensures var after := StmRead(c, w, recv);
            |after.hist.heard| > |c.hist.heard|
            || (after.hist.heard == c.hist.heard && (after.current == c.current || after.current == Some(Quit)))
  {
    hide ReadCommand, Jump, Core, Tracks;
    if Reading(c) {
      var t := ReadCommand(c, StateOf(c), w, recv);
      ReadCommandHears(c, w, recv);
      ReadCommandKeeps(c, w, recv);
      JumpInput(t.conn, t.next, w);
      JumpGoesTo(t.conn, t.next, w);
    } else {
      StayPut(c, w);
    }
  }

  lemma JumpGoesTo(c: Conn, next: Option<StmState>, w: World)
    ensures next.Some? ==> Jump(c, next, w).current == next
  {
    hide LoadMails;
    LoadMailsFollows((if c.current.Some? then Depart(c, c.current.value) else c).(current := next), w);
  }

  lemma WritingLines(c: Conn, sent: Option<nat>)
    ensures SameReading(c, Send(c, sent)) && SameReading(c, WriteCommand(c, sent)) && SameReading(c, Welcome(c))
  {
    hide SameReading, Send, WriteCommand, Welcome;
    SendInput(c, sent);
    WriteCommandInput(c, sent);
    WelcomeInput(c);
  }

  lemma EnteredFollows(c: Conn, ws: Worlds)
    requires Inv(c) && Follows(c, ws)
    ensures Follows(EnterFirst(c), ws) && (c.current == Some(Error) ==> c.lastState.Some?)
  {
    hide Interpret, WellFormed, Arrive, Core, Tracks;
  }

  lemma WritingFollows(c: Conn, sent: Option<nat>, ws: Worlds)
    ensures Follows(c, ws) ==> Follows(WriteCommand(c, sent), ws)
    ensures WriteCommand(c, sent).current == c.current
  {
    hide Interpret, WellFormed, Arrive, WriteCommand;
    WritingSession(c, sent);
    WritingLines(c, sent);
  }

  lemma WelcomeFollows(c: Conn, ws: Worlds)
    requires Follows(c, ws) && c.current != Some(Error)
    ensures Follows(Welcome(c), ws) && Welcome(c).current == c.current
  {
    hide Interpret, WellFormed, Arrive, Welcome;
    WritingSession(c, None);
    WritingLines(c, None);
  }

  /** Coming back from an error: the mails are looked for now, if there were none. */
  lemma ErrorWriteFollows(c: Conn, w: World, ws: Worlds)
    requires Inv(c) && Follows(c, ws) && c.current == Some(Error)
    requires |UNKNOWN_COMMAND| <= c.outq.Room() ==> w == ws.returning(|c.hist.heard|)
    ensures var t := OnWriteReady(c, None);
            Follows(Jump(t.conn, t.next, w), ws)
  {
    hide Interpret, Core, Tracks, LoadMails, Arrive, WellFormed, Reply;
    ReplyInput(c, UNKNOWN_COMMAND);
    ReplyFrame(c, UNKNOWN_COMMAND);
    if |UNKNOWN_COMMAND| <= c.outq.Room() {
      LoadMailsFollows(Depart(Reply(c, UNKNOWN_COMMAND), Error).(current := c.lastState), w);
    }
  }

  lemma ErrorLeaves(c: Conn, w: World, sent: Option<nat>)
    requires Inv(c) && c.current == Some(Error)
    ensures StmWrite(c, w, sent).current == if |UNKNOWN_COMMAND| <= c.outq.Room() then c.lastState else Some(Error)
    ensures c.lastState != Some(Error)
  {
    hide Core, Tracks, Jump, Reply;
    ReplyFrame(c, UNKNOWN_COMMAND);
    JumpGoesTo(Reply(c, UNKNOWN_COMMAND), c.lastState, w);
    JumpGoesTo(c, Some(Error), w);
  }

  lemma StmWriteFollows(c: Conn, w: World, sent: Option<nat>, ws: Worlds)
    requires Inv(c) && Follows(c, ws)
    requires c.current == Some(Error) && StmWrite(c, w, sent).current != Some(Error) ==>
               w == ws.returning(|c.hist.heard|)
    ensures Follows(StmWrite(c, w, sent), ws)
  {
    hide Interpret, Core, Welcome, WriteCommand, Send, Tracks, LoadMails, Arrive, WellFormed, Reply, Follows, Jump;
    var c0 := EnterFirst(c);
    EnteredFollows(c, ws);
    match StateOf(c0)
    case Authorization =>
      WritingFollows(Welcome(c0), sent, ws);
      WelcomeFollows(c0, ws);
      StayPut(WriteCommand(Welcome(c0), sent), w);
    case Transaction =>
      WritingFollows(c0, sent, ws);
      StayPut(WriteCommand(c0, sent), w);
    case Error =>
      ErrorLeaves(c, w, sent);
      ErrorWriteFollows(c, w, ws);
    case Quit => StayPut(c0, w);
  }

  /** The step has come back from an error, be it that the next line has been heard since. */
  predicate ComesBack(before: Conn, after: Conn) {
    before.current == Some(Error) && (after.current != Some(Error) || |after.hist.heard| > |before.hist.heard|)
  }

  /** The world at a step that looks at it is the one that belongs there; no other step matters. */
  predicate In(before: Conn, e: Callback, after: Conn, ws: Worlds) {
    e.Shutdown?
    || (&& (|after.hist.heard| > |before.hist.heard| ==> e.world == ws.reading(|before.hist.heard|))
        && (ComesBack(before, after) ==> e.world == ws.returning(|before.hist.heard|)))
  }

  ghost predicate AllIn(r: Run, ws: Worlds)
    requires r.Valid()
  {
    forall i {:trigger r.events[i]} :: 0 <= i < |r.events| ==> In(r.states[i], r.events[i], r.states[i + 1], ws)
  }

  lemma ReadableFollows(c: Conn, w: World, recv: Recv, ws: Worlds)
    requires Inv(c) && c.open && c.interest.read && Follows(c, ws)
    requires |StmRead(c, w, recv).hist.heard| > |c.hist.heard| ==> w == ws.reading(|c.hist.heard|)
    ensures Follows(StmRead(c, w, recv), ws)
  {
    hide Follows, StmRead, Core, Tracks;
    StmReadFollows(c, w, recv, ws);
  }

  lemma ClosedFollows(c: Conn, ws: Worlds)
    requires Follows(c, ws)
    ensures Follows(Close(c), ws)
  {
    hide Interpret, WellFormed, Arrive;
  }

  /** send leaves alone what the reference is about. */
  lemma SentFollows(c: Conn, sent: Option<nat>, ws: Worlds)
    requires Follows(c, ws)
    ensures var c1 := Send(c, sent);
            && Follows(c1, ws) && Follows(c1.(interest := OP_NOOP), ws) && Follows(c1.(interest := OP_READ), ws)
            && c1.hist.heard == c.hist.heard && c1.astray == c.astray
  {
    hide Interpret, WellFormed, Arrive;
  }

  lemma HandleWriteFollows(c: Conn, w: World, sent: Option<nat>, sentAgain: Option<nat>, recv: Recv, ws: Worlds)
    requires Inv(c) && c.open && Follows(c, ws)
    requires In(c, Writable(w, sent, sentAgain, recv), HandleWrite(c, w, sent, sentAgain, recv), ws)
    ensures Follows(HandleWrite(c, w, sent, sentAgain, recv), ws)
  {
    hide Follows, StmRead, StmWrite, Send, Core, Tracks;
    var c1 := StmWrite(c, w, sent);
    StmWriteKeeps(c, w, sent);
    WritingInput(c, w, sent);
    SendKeeps(c1, sentAgain);
    var c2 := Send(c1, sentAgain);
    SendInput(c1, sentAgain);
    var goesOn := !c1.astray && sentAgain.Some? && !c2.session.requestedQuit && (c2.inq.unread != [] || !c2.finished);
    if goesOn {
      CoreDepends(c2, c2.(interest := OP_NOOP));
      StmReadHears(c2.(interest := OP_NOOP), w, recv);
    }
    StmWriteFollows(c, w, sent, ws);
    ClosedFollows(c1, ws);
    SentFollows(c1, sentAgain, ws);
    ClosedFollows(c2, ws);
    if goesOn {
      StmReadFollows(c2.(interest := OP_NOOP), w, recv, ws);
    }
  }

  lemma StepFollows(c: Conn, e: Callback, ws: Worlds)
    requires Inv(c) && Follows(c, ws) && In(c, e, Step(c, e), ws)
    ensures Follows(Step(c, e), ws)
  {
    hide Follows, StmRead, HandleWrite, Inv, ComesBack;
    if Enabled(c, e) && !c.astray {
      match e
      case Readable(w, recv) => ReadableFollows(c, w, recv, ws);
      case Shutdown => ClosedFollows(c, ws);
      case Writable(w, sent, sentAgain, recv) => HandleWriteFollows(c, w, sent, sentAgain, recv, ws);
    }
  }

  /** However the input was cut and the output taken, the session is what the lines mean. */
  lemma {:induction false} AlwaysFollows(r: Run, k: nat, ws: Worlds)
    requires r.Defined(k) && AllIn(r, ws)
    ensures Follows(r.states[k], ws)
  {
    hide Inv, Step, Follows, In;
    if k == 0 {
      InitialFollows(ws);
    } else {
      DefinedBefore(r, k - 1, k);
      AlwaysFollows(r, k - 1, ws);
      Reachable(r, k - 1);
      StepFollows(r.states[k - 1], r.events[k - 1], ws);
    }
  }

  lemma InitialFollows(ws: Worlds)
    ensures Follows(Initial(), ws)
  {
  }

  // ---- Every run has its worlds ----

  /** Lines are only added, and ERROR is entered only after a line. */
  predicate HearsBefore(before: Conn, after: Conn) {
    && |after.hist.heard| >= |before.hist.heard|
    && (before.current != Some(Error) && after.current == Some(Error) ==> |after.hist.heard| > |before.hist.heard|)
  }

  lemma StmWriteHears(c: Conn, w: World, sent: Option<nat>)
    requires Inv(c) && c.open
    ensures var after := StmWrite(c, w, sent);
            after.hist.heard == c.hist.heard && (c.current != Some(Error) ==> after.current != Some(Error))
  {
    hide Core, Tracks, Welcome, WriteCommand, Jump, Reply;
    WritingInput(c, w, sent);
    var c0 := EnterFirst(c);
    WritingSession(c0, sent);
    WritingSession(Welcome(c0), sent);
    var t := OnWriteReady(c0, sent);
    JumpGoesTo(t.conn, t.next, w);
  }

  lemma HandleWriteHears(c: Conn, w: World, sent: Option<nat>, sentAgain: Option<nat>, recv: Recv)
    requires Inv(c) && c.open
    ensures HearsBefore(c, HandleWrite(c, w, sent, sentAgain, recv))
  {
    hide StmRead, StmWrite, Send, Core, Tracks;
    var c1 := StmWrite(c, w, sent);
    StmWriteKeeps(c, w, sent);
    StmWriteHears(c, w, sent);
    SendKeeps(c1, sentAgain);
    var c2 := Send(c1, sentAgain);
    SendInput(c1, sentAgain);
    if !c1.astray && sentAgain.Some? && !c2.session.requestedQuit && (c2.inq.unread != [] || !c2.finished) {
      CoreDepends(c2, c2.(interest := OP_NOOP));
      StmReadHears(c2.(interest := OP_NOOP), w, recv);
    }
  }

  lemma StepHears(c: Conn, e: Callback)
    requires Inv(c)
    ensures HearsBefore(c, Step(c, e))
    ensures e.Shutdown? ==> Step(c, e).hist.heard == c.hist.heard && Step(c, e).current == c.current
  {
    hide StmRead, HandleWrite, Core, Tracks;
    if Enabled(c, e) && !c.astray {
      match e
      case Readable(w, recv) => StmReadHears(c, w, recv);
      case Shutdown =>
      case Writable(w, sent, sentAgain, recv) => HandleWriteHears(c, w, sent, sentAgain, recv);
    }
  }

  /** Out of ERROR, a connection stays out of it until it hears a line. */
  lemma {:induction false} StaysOut(r: Run, j: nat, k: nat)
    requires r.Valid() && j <= k < |r.states|
    ensures |r.states[j].hist.heard| <= |r.states[k].hist.heard|
    ensures r.states[j].current != Some(Error) && |r.states[j].hist.heard| == |r.states[k].hist.heard| ==>
              r.states[k].current != Some(Error)
    decreases k
  {
    hide Inv, Step;
    if j < k {
      StaysOut(r, j, k - 1);
      Reachable(r, k - 1);
      StepHears(r.states[k - 1], r.events[k - 1]);
    }
  }

  ghost predicate InUpTo(r: Run, k: nat, ws: Worlds)
    requires r.Valid() && k <= |r.events|
  {
    forall i {:trigger r.events[i]} :: 0 <= i < k ==> In(r.states[i], r.events[i], r.states[i + 1], ws)
  }

  function Changed(ws: nat -> World, n: nat, w: World): nat -> World {
    (m: nat) => if m == n then w else ws(m)
  }

  /** The worlds with those of one more step. */
  function WithStep(ws: Worlds, before: Conn, e: Callback, after: Conn): Worlds {
    var n := |before.hist.heard|;
    if e.Shutdown? then ws
    else
      Worlds(if |after.hist.heard| > n then Changed(ws.reading, n, e.world) else ws.reading,
             if ComesBack(before, after) then Changed(ws.returning, n, e.world) else ws.returning)
  }

  lemma OneMoreIn(r: Run, i: nat, k: nat, ws: Worlds)
    requires r.Valid() && i < k < |r.events| && In(r.states[i], r.events[i], r.states[i + 1], ws)
    ensures In(r.states[i], r.events[i], r.states[i + 1], WithStep(ws, r.states[k], r.events[k], r.states[k + 1]))
  {
    hide Step;
    StaysOut(r, i, i + 1);
    StaysOut(r, i + 1, k);
  }

  lemma {:induction false} WorldsUpTo(r: Run, k: nat) returns (ws: Worlds)
    requires r.Valid() && k <= |r.events|
    ensures InUpTo(r, k, ws)
  {
    hide Step, In, Inv, WithStep;
    if k == 0 {
      var nowhere := World([], 0, false, [], false);
      ws := Worlds(n => nowhere, n => nowhere);
    } else {
      var before := WorldsUpTo(r, k - 1);
      ws := WithStep(before, r.states[k - 1], r.events[k - 1], r.states[k]);
      forall i {:trigger r.events[i]} | 0 <= i < k
        ensures In(r.states[i], r.events[i], r.states[i + 1], ws)
      {
        if i < k - 1 {
          OneMoreIn(r, i, k - 1, before);
        } else {
          Reachable(r, k - 1);
          StepHears(r.states[k - 1], r.events[k - 1]);
          LastIn(r.states[k - 1], r.events[k - 1], r.states[k], before);
        }
      }
    }
  }

  lemma LastIn(before: Conn, e: Callback, after: Conn, ws: Worlds)
    ensures In(before, e, after, WithStep(ws, before, e, after))
  {
  }

  /** However the world changes during a run, it has worlds to be in: the theorems about runs in given worlds leave out
      no run. */
  lemma EveryRunHasWorlds(r: Run) returns (ws: Worlds)
    requires r.Valid()
    ensures AllIn(r, ws)
  {
    hide In, Step;
    ws := WorldsUpTo(r, |r.events|);
  }

  /** If nothing but a partial line follows the lines read, then all lines have been read. */
  lemma {:induction false} NothingHeldBack(r: BoundedReader, k: nat, partial: seq<Byte>, sent: seq<seq<Byte>>)
    requires AllValid(sent) && k <= |sent| && Flatten(sent[..k]) + partial == Flatten(sent)
    requires Tracks(r, partial) || partial == []
    ensures k == |sent|
  {
    hide ValidLine, Flatten, Tracks;
    if k < |sent| {
      var line, after := sent[k], Flatten(sent[k..][1..]);
      FlattenSplit(sent, k);
      FlattenCons(sent[k..]);
      LineIsLong(line);
      var done := Flatten(sent[..k]);
      assert partial == (done + partial)[|done|..] == (done + (line + after))[|done|..] == line + after;
      assert partial[..|line|] == line;
      TracksHoldsNoLine(r, partial, |line|);
    }
  }

  lemma {:induction false} ReadInOrder(lines: seq<seq<Byte>>, rest: seq<Byte>, stream: seq<Byte>, sent: seq<seq<Byte>>)
    requires AllValid(lines) && AllValid(sent) && stream == Flatten(lines) + rest && stream <= Flatten(sent)
    ensures |lines| <= |sent| && lines == sent[..|lines|]
  {
    UniqueSplit(lines, rest, sent);
  }

  lemma {:induction false} ReadToTheEnd(
    r: BoundedReader, lines: seq<seq<Byte>>, partial: seq<Byte>, sent: seq<seq<Byte>>)
    requires AllValid(lines) && AllValid(sent) && Flatten(lines) + partial == Flatten(sent)
    requires Tracks(r, partial) || partial == []
    ensures lines == sent
  {
    hide AllValid, Flatten, Tracks;
    UniqueSplit(lines, partial, sent);
    NothingHeldBack(r, |lines|, partial, sent);
  }

  lemma Regrouped(a: seq<Byte>, b: seq<Byte>, c: seq<Byte>)
    ensures (a + b) + c == a + (b + c)
    ensures c == [] ==> (a + b) + c == a + b
  {
  }

  lemma {:induction false} LinesOf(c: Conn, sent: seq<seq<Byte>>)
    requires AllValid(sent) && AllValid(c.hist.lines) && c.hist.received <= Flatten(sent)
    requires c.hist.received == (Flatten(c.hist.lines) + c.hist.partial) + c.inq.unread
    requires Tracks(c.reader, c.hist.partial) || c.hist.partial == []
    ensures |c.hist.lines| <= |sent| && c.hist.lines == sent[..|c.hist.lines|]
    ensures c.hist.received == Flatten(sent) && c.inq.unread == [] ==> c.hist.lines == sent
  {
    hide AllValid, Flatten, Tracks;
    Regrouped(Flatten(c.hist.lines), c.hist.partial, c.inq.unread);
    ReadInOrder(c.hist.lines, c.hist.partial + c.inq.unread, c.hist.received, sent);
    if c.hist.received == Flatten(sent) && c.inq.unread == [] {
      ReadToTheEnd(c.reader, c.hist.lines, c.hist.partial, sent);
    }
  }

  /** The connection has received these lines and nothing else, and read all of it. */
  predicate HasRead(c: Conn, sent: seq<seq<Byte>>) {
    c.hist.received == Flatten(sent) && c.inq.unread == []
  }

  /** The lines of a peer that only sends valid lines are read as sent, in order, none skipped. */
  lemma {:induction false} LinesAsSent(r: Run, k: nat, sent: seq<seq<Byte>>)
    requires r.Defined(k) && AllValid(sent) && r.states[k].hist.received <= Flatten(sent)
    ensures var c := r.states[k];
            && c.hist.lines <= sent && c.hist.heard == AsInputs(c.hist.lines)
            && (HasRead(c, sent) ==> c.hist.lines == sent)
  {
    hide AllValid, Flatten, Inv, Tracks, Step;
    AlwaysFramed(r, k, sent);
    Reachable(r, k);
    ReceivedIsConsumed(r.states[k]);
    LinesOf(r.states[k], sent);
  }

  lemma ReceivedIsConsumed(c: Conn)
    requires Inv(c)
    ensures c.hist.received == c.hist.consumed + c.inq.unread
    ensures c.finished ==> Tracks(c.reader, c.hist.partial)
    ensures !c.finished ==> c.hist.partial == []
  {
    hide Tracks, FlagsChain, Retr.AccountOk, CString, SameIgnoringCase;
  }

  /** Segmentation independence: two connections that have read the same valid lines to the end, each line in the same
      world, have called the same handlers with the same arguments and are in the same session, whatever segments recv
      delivered, whatever send took and whenever the selector called. */
  lemma {:induction false} SegmentationIndependence(
    one: Run, i: nat, other: Run, j: nat, ws: Worlds, sent: seq<seq<Byte>>)
    requires one.Defined(i) && other.Defined(j) && AllIn(one, ws) && AllIn(other, ws) && AllValid(sent)
    requires HasRead(one.states[i], sent) && HasRead(other.states[j], sent)
    ensures var c, d := one.states[i], other.states[j];
            && c.hist.heard == d.hist.heard == AsInputs(sent) && WellFormed(AsInputs(sent))
            && var reference := Interpret(ws, AsInputs(sent));
            && c.hist.calls == d.hist.calls == reference.calls
            && Settled(c, ws.returning(|sent|)) == Settled(d, ws.returning(|sent|)) == reference.session
            && (Phase(c) != Quit && Phase(d) != Quit ==> Phase(c) == Phase(d))
  {
    hide Step, Interpret, Flatten, ValidLine, Phase, In, Arrive;
    LinesAsSent(one, i, sent);
    LinesAsSent(other, j, sent);
    AlwaysFollows(one, i, ws);
    AlwaysFollows(other, j, ws);
  }
}
