/** What holds of a connection in every reachable state: the buffers lose nothing, a transfer under way can be
    resumed, the state machine never aborts. */
module Running {
  import opened Bytes
  import opened Stuffing
  import opened Retr
  import opened CommandParser
  import opened Sessions
  import opened Commands
  import opened Interests
  import opened Engine

  // ---- Invariants that also hold in the middle of a callback ----

  predicate BuffersOk(c: Conn) {
    && c.inq.Valid() && c.inq.capacity == BUFFER_SIZE
    && c.outq.Valid() && c.outq.capacity == BUFFER_SIZE
    && c.hist.received == c.hist.consumed + c.inq.unread
    && c.hist.accepted == c.hist.wire + c.outq.unread
  }

  /** The transfer under way belongs to the saved command, which is RETR of an existing mail. */
  predicate ResumesRetr(c: Conn) {
    var n := MailNumber(CString(c.reader.argument));
    && SameIgnoringCase(Ascii("RETR"), CString(c.reader.command))
    && n == c.hist.transfer.number
    && Exists(c.session, n) && |c.readIndex| == |c.session.mails|
    && c.readIndex[n - 1] <= |c.session.mails[n - 1].content|
    && c.reader.state == InCommand && c.hist.partial == []
  }

  predicate IndexesOk(c: Conn) {
    && |c.readIndex| == |c.session.mails|
    && (forall i :: 0 <= i < |c.readIndex| ==> c.finished || i != c.hist.transfer.number - 1 ==> c.readIndex[i] == 0)
    && (!c.finished ==> ResumesRetr(c))
  }

  function SoFar(c: Conn): seq<Byte> {
    if c.finished then [] else c.hist.accepted[Min(c.hist.transfer.before, |c.hist.accepted|)..]
  }

  predicate TransferOk(c: Conn) {
    !c.finished && ResumesRetr(c) ==>
      var t := c.hist.transfer;
      && t.before <= |c.hist.accepted|
      && (!c.hist.cut ==> t.whole)
      && AccountOk(t.whole, SoFar(c), ProgressOf(c, t.number - 1), t.start, c.session.mails[t.number - 1].content)
  }

  predicate DeliveryOk(d: Delivery) {
    Balanced(d.whole, d.queued, d.start, d.content)
  }

  /** The flag is handed from one mail to the next. */
  predicate FlagsChain(ds: seq<Delivery>, flag: Flag) {
    if ds == [] then flag == AnyCharacter
    else
      var last := ds[|ds| - 1];
      flag == FlagAfter(last.start, last.content) && FlagsChain(ds[..|ds| - 1], last.start)
  }

  predicate DeliveriesOk(c: Conn) {
    && (forall i :: 0 <= i < |c.hist.deliveries| ==> DeliveryOk(c.hist.deliveries[i]))
    && FlagsChain(c.hist.deliveries, if c.finished then c.flag else c.hist.transfer.start)
  }

  predicate TransfersOk(c: Conn) {
    IndexesOk(c) && TransferOk(c) && DeliveriesOk(c)
  }

  predicate Core(c: Conn) {
    BuffersOk(c) && TransfersOk(c)
  }

  // ---- What the invariants depend on ----

  predicate SameBuffers(a: Conn, b: Conn) {
    && a.inq == b.inq && a.outq == b.outq
    && a.hist.received == b.hist.received && a.hist.consumed == b.hist.consumed
    && a.hist.accepted == b.hist.accepted && a.hist.wire == b.hist.wire
  }

  predicate SameTransfers(a: Conn, b: Conn) {
    && a.finished == b.finished && a.flag == b.flag
    && a.readIndex == b.readIndex && a.session.mails == b.session.mails
    && a.hist.transfer == b.hist.transfer && a.hist.deliveries == b.hist.deliveries
    && (!a.finished ==> a.reader == b.reader && a.hist.accepted == b.hist.accepted && a.hist.cut == b.hist.cut
                        && a.hist.partial == b.hist.partial)
  }

  lemma TransfersDepend(a: Conn, b: Conn)
    requires TransfersOk(a) && SameTransfers(a, b)
    ensures TransfersOk(b)
  {
    hide FlagsChain, AccountOk, CString, SameIgnoringCase, DeliveryOk, MailNumber;
  }

  lemma CoreDepends(a: Conn, b: Conn)
    requires Core(a) && SameBuffers(a, b) && SameTransfers(a, b)
    ensures Core(b)
  {
    hide TransfersOk;
    TransfersDepend(a, b);
  }

  // ---- Handlers ----

  /** The handler is called for mail i by the saved command. */
  predicate CalledFor(c: Conn, i: nat) {
    && i < |c.readIndex|
    && SameIgnoringCase(Ascii("RETR"), CString(c.reader.command))
    && i + 1 == MailNumber(CString(c.reader.argument))
    && c.reader.state == InCommand && c.hist.partial == []
  }

  lemma {:induction false} SendPieceKeepsBuffers(c: Conn, i: nat)
    requires BuffersOk(c) && i < |c.readIndex| && i < |c.session.mails| && !Overruns(c.outq.Room(), ProgressOf(c, i))
    ensures BuffersOk(SendPiece(c, i))
  {
    hide Queued, After, CallFits, Overruns;
    CallQueues(c.outq.Room(), ProgressOf(c, i), c.session.mails[i].content);
  }

  lemma SendPieceKeepsIndexes(c: Conn, i: nat)
    requires IndexesOk(c) && CalledFor(c, i) && !Overruns(c.outq.Room(), ProgressOf(c, i))
    ensures IndexesOk(SendPiece(c, i))
  {
    hide CString, SameIgnoringCase, Queued, Stuff, FlagAfter, CallFits, MailNumber;
  }

  /** What the account of the transfer says after the call. */
  lemma SendPieceAccount(c: Conn, i: nat)
    requires IndexesOk(c) && TransferOk(c) && CalledFor(c, i) && !Overruns(c.outq.Room(), ProgressOf(c, i))
    ensures var content, c' := c.session.mails[i].content, SendPiece(c, i);
            var t := c'.hist.transfer;
            && t.before <= |c.hist.accepted| && (!c'.hist.cut ==> t.whole)
            && var soFar := c'.hist.accepted[t.before..];
            if c'.finished then c'.flag == FlagAfter(t.start, content) && Balanced(t.whole, soFar, t.start, content)
            else AccountOk(t.whole, soFar, ProgressOf(c', i), t.start, content)
  {
    hide Queued, After, AccountOk, Balanced, CallFits, FlagAfter, CString, SameIgnoringCase;
    var content, p, room := c.session.mails[i].content, ProgressOf(c, i), c.outq.Room();
    var t := SendPiece(c, i).hist.transfer;
    if c.finished {
      AccountOpens(c.flag, content);
    }
    AccountStep(c.finished || c.hist.transfer.whole, SoFar(c), room, p, t.start, content);
    assert SendPiece(c, i).hist.accepted[t.before..] == SoFar(c) + Queued(room, p, content);
  }

  lemma SendPieceKeepsTransfer(c: Conn, i: nat)
    requires IndexesOk(c) && TransferOk(c) && CalledFor(c, i) && !Overruns(c.outq.Room(), ProgressOf(c, i))
    ensures TransferOk(SendPiece(c, i))
  {
    hide Queued, AccountOk, CallFits, FlagAfter, CString, SameIgnoringCase;
    SendPieceAccount(c, i);
  }

  lemma {:induction false} SendPieceKeepsDeliveries(c: Conn, i: nat)
    requires IndexesOk(c) && TransferOk(c) && DeliveriesOk(c) && CalledFor(c, i)
    requires !Overruns(c.outq.Room(), ProgressOf(c, i))
    ensures DeliveriesOk(SendPiece(c, i))
  {
    SendPieceAccount(c, i);
    var c' := SendPiece(c, i);
    if c'.finished {
      var ds := c'.hist.deliveries;
      assert ds[..|ds| - 1] == c.hist.deliveries;
    }
  }

  // ---- The command table ----

  predicate Suits(h: Handler, state: StmState) {
    match h
    case UserHandler => state == Authorization
    case PassHandler => state == Authorization
    case QuitHandler => state == Authorization || state == Transaction
    case CapaHandler => state == Authorization || state == Transaction
    case _ => state == Transaction
  }

  lemma TableSuits(command: Command)
    requires command in COMMANDS
    ensures Suits(command.handler, command.state)
  {
    hide Ascii;
  }

  lemma RetrEntry(command: Command)
    requires command in COMMANDS && command.handler == RetrHandler
    ensures command == COMMANDS[6]
  {
    hide Ascii;
  }

  /** A handler found in the table belongs to the state it was looked up for, and RETR is found by its name. */
  lemma LookupSuits(name: seq<Byte>, state: StmState)
    ensures var found := Lookup(name, state);
            && (found.Some? ==> Suits(found.value.handler, state))
            && (found.Some? && found.value.handler == RetrHandler ==>
                  SameIgnoringCase(Ascii("RETR"), name) && found.value.arguments == Required)
  {
    hide LookupIn, Ascii, SameIgnoringCase, Suits;
    LookupFinds(COMMANDS, name, state);
    if Lookup(name, state).Some? {
      var command := Lookup(name, state).value;
      TableSuits(command);
      if command.handler == RetrHandler {
        RetrEntry(command);
      }
    }
  }

  lemma OnlyRetrIsCalledRetr(i: nat, name: seq<Byte>)
    requires i < |COMMANDS| && IsFor(COMMANDS[i], name, Transaction)
    requires SameIgnoringCase(Ascii("RETR"), name)
    ensures COMMANDS[i].handler == RetrHandler
  {
    var word := Ascii("RETR");
    assert word[0] == 82 && word[1] == 69;
    assert ToLower(name[0]) == 114 && ToLower(name[1]) == 101;
    var other := COMMANDS[i].name;
    assert ToLower(other[0]) == 114 && ToLower(other[1]) == 101;
  }

  lemma {:induction false} AllAgree(table: seq<Command>, name: seq<Byte>, state: StmState, k: nat, h: Handler)
    requires k < |table| && IsFor(table[k], name, state)
    requires forall i: nat :: i < |table| && IsFor(table[i], name, state) ==> table[i].handler == h
    ensures LookupIn(table, name, state).Some? && LookupIn(table, name, state).value.handler == h
  {
    LookupFinds(table, name, state);
  }

  lemma RetrIsFound(name: seq<Byte>)
    requires SameIgnoringCase(Ascii("RETR"), name)
    ensures Lookup(name, Transaction).Some? && Lookup(name, Transaction).value.handler == RetrHandler
  {
    forall i: nat | i < |COMMANDS| && IsFor(COMMANDS[i], name, Transaction)
      ensures COMMANDS[i].handler == RetrHandler
    {
      OnlyRetrIsCalledRetr(i, name);
    }
    AllAgree(COMMANDS, name, Transaction, 6, RetrHandler);
  }

  // ---- read_command ----

  /** Between commands the parser has been fed exactly the beginning of a line. */
  predicate ReaderOk(c: Conn) {
    c.finished ==> Tracks(c.reader, c.hist.partial)
  }

  predicate Ready(c: Conn) {
    Core(c) && ReaderOk(c)
  }

  /** The fields that only the state machine touches. */
  predicate SameControl(a: Conn, b: Conn) {
    a.current == b.current && a.lastState == b.lastState && a.open == b.open && a.aborted == b.aborted
  }

  lemma ReplyKeepsCore(c: Conn, message: seq<Byte>)
    requires Core(c) && c.finished
    ensures Core(Reply(c, message)) && SameControl(c, Reply(c, message))
  {
    hide TransfersOk;
    TransfersDepend(c, Reply(c, message));
  }

  lemma HandleKeepsMailCount(h: Handler, state: StmState, hasArgument: bool, argument: seq<Byte>, s: Session, w: World)
    ensures var o := Handle(h, state, hasArgument, argument, s, w);
            o.session.mails == [] || |o.session.mails| == |s.mails|
  {
    hide Ascii, FirstPassword, Decimal, ListLines, MarkedPaths, TotalSize, MailNumber;
  }

  lemma RunOtherKeepsCore(c: Conn, h: Handler, w: World)
    requires Core(c) && c.finished
    ensures Core(RunOther(c, h, w).conn)
  {
    hide Handle, Reply, CString, FlagsChain, DeliveryOk;
    var o := Handle(h, StateOf(c), c.reader.argumentLength > 0, CString(c.reader.argument), c.session, w);
    HandleKeepsMailCount(h, StateOf(c), c.reader.argumentLength > 0, CString(c.reader.argument), c.session, w);
    var c1 := c.(session := o.session,
                 readIndex := if o.session.mails == [] then [] else c.readIndex,
                 finished := c.finished || h == NoopHandler,
                 interest := if h == CapaHandler then OP_READ else c.interest,
                 hist := Record(c, h, w).(removed := c.hist.removed + o.removed));
    ReplyKeepsCore(c1, o.reply);
  }

  /** The connection at the moment it overruns its memory. */
  lemma OverrunKeepsCore(c: Conn, i: nat)
    requires Core(c) && i < |c.readIndex|
    ensures Core(Reply(c, Header(ProgressOf(c, i))).(astray := true))
  {
    hide Core;
    var c1 := Reply(c, Header(ProgressOf(c, i)));
    if c.finished {
      ReplyKeepsCore(c, Header(ProgressOf(c, i)));
    } else {
      ReplyNothing(c);
    }
    CoreDepends(c1, c1.(astray := true));
  }

  lemma ReplyNothing(c: Conn)
    ensures Reply(c, []) == c
  {
    assert c.outq.unread + [] == c.outq.unread && c.hist.accepted + [] == c.hist.accepted;
  }

  lemma RunRetrKeepsCore(c: Conn, i: nat)
    requires Core(c) && CalledFor(c, i)
    ensures Core(RunRetr(c, i))
  {
    hide BuffersOk, TransferOk, DeliveriesOk, SendPiece, Reply, CString, SameIgnoringCase, MailNumber;
    if Overruns(c.outq.Room(), ProgressOf(c, i)) {
      OverrunKeepsCore(c, i);
    } else {
      SendPieceKeepsBuffers(c, i);
      SendPieceKeepsIndexes(c, i);
      SendPieceKeepsTransfer(c, i);
      SendPieceKeepsDeliveries(c, i);
    }
  }

  /** The saved command may be run: it has just been read, or it is a RETR under way. */
  predicate Runnable(c: Conn, h: Handler) {
    && (c.finished || h == RetrHandler)
    && (h == RetrHandler ==> SameIgnoringCase(Ascii("RETR"), CString(c.reader.command)))
    && c.reader.state == InCommand && c.hist.partial == []
  }

  lemma RunHandlerKeepsCore(c: Conn, h: Handler, w: World)
    requires Core(c) && Runnable(c, h)
    ensures Core(RunHandler(c, h, w).conn)
  {
    hide BuffersOk, TransferOk, DeliveriesOk, RunRetr, RunOther, SameIgnoringCase, CString, GoesAstray, MailNumber;
    var n := MailNumber(CString(c.reader.argument));
    if GoesAstray(c, h, w) {
      CoreDepends(c, c.(astray := true, hist := Record(c, h, w)));
    } else if h == RetrHandler && Exists(c.session, n) && n <= |c.readIndex| {
      var c1 := c.(hist := Record(c, h, w));
      CoreDepends(c, c1);
      assert CalledFor(c1, n - 1);
      RunRetrKeepsCore(c1, n - 1);
    } else {
      RunOtherKeepsCore(c, h, w);
    }
  }

  lemma HandleFrame(h: Handler, state: StmState, hasArgument: bool, argument: seq<Byte>, s: Session, w: World)
    requires Suits(h, state)
    ensures var o := Handle(h, state, hasArgument, argument, s, w);
            && (o.next == Quit <==> h == QuitHandler && state == Authorization)
            && o.session.requestedQuit == (s.requestedQuit || o.next == Quit)
            && (o.session.mails == [] || |o.session.mails| == |s.mails|)
  {
    hide Ascii, FirstPassword, Decimal, ListLines, MarkedPaths, TotalSize, MailNumber;
  }

  lemma RunOtherFrame(c: Conn, h: Handler, w: World)
    requires Suits(h, StateOf(c))
    ensures var t := RunOther(c, h, w);
            && SameControl(c, t.conn) && t.conn.reader == c.reader && t.conn.inq == c.inq
            && t.conn.hist.partial == c.hist.partial && t.conn.finished == (c.finished || h == NoopHandler)
            && t.next.Some?
            && (t.next == Some(Quit) <==> h == QuitHandler && StateOf(c) == Authorization)
            && t.conn.session.requestedQuit == (c.session.requestedQuit || t.next == Some(Quit))
  {
    hide Handle, CString;
    HandleFrame(h, StateOf(c), c.reader.argumentLength > 0, CString(c.reader.argument), c.session, w);
  }

  lemma RunRetrFrame(c: Conn, i: nat)
    requires i < |c.readIndex| && i < |c.session.mails|
    ensures var c' := RunRetr(c, i);
            && SameControl(c, c') && c'.reader == c.reader && c'.inq == c.inq
            && c'.hist.partial == c.hist.partial && c'.session == c.session
  {
    hide Queued, After, CallFits;
  }

  /** What a handler leaves alone, and when it asks for QUIT. */
  lemma RunHandlerFrame(c: Conn, h: Handler, w: World)
    requires IndexesOk(c) && Runnable(c, h) && Suits(h, StateOf(c))
    ensures var t := RunHandler(c, h, w);
            && SameControl(c, t.conn) && t.conn.reader == c.reader && t.conn.inq == c.inq
            && t.conn.hist.partial == c.hist.partial
            && (!t.conn.finished ==> StateOf(c) == Transaction && t.next == Some(Transaction))
            && (t.next == Some(Quit) <==> h == QuitHandler && StateOf(c) == Authorization)
            && t.conn.session.requestedQuit == (c.session.requestedQuit || t.next == Some(Quit))
            && t.next.Some?
  {
    hide RunOther, RunRetr, CString, SameIgnoringCase, MailNumber, LeavesTable;
    var n := MailNumber(CString(c.reader.argument));
    if GoesAstray(c, h, w) {
      assert h == ListHandler || h == RetrHandler;
    } else if h == RetrHandler && Exists(c.session, n) && n <= |c.readIndex| {
      RunRetrFrame(c.(hist := Record(c, h, w)), n - 1);
    } else {
      RunOtherFrame(c, h, w);
    }
  }

  /** How a read callback may end: in a state that reads on, in ERROR with the command forgotten, or in QUIT. */
  ghost predicate TurnOk(c: Conn, t: Turn) {
    && Core(t.conn) && SameControl(c, t.conn) && t.next.Some?
    && (t.next != Some(Error) ==> ReaderOk(t.conn))
    && (t.next == Some(Error) ==> t.conn.finished && t.conn.hist.partial == [] && Tracks(Reset(t.conn.reader), []))
    && (!t.conn.finished ==> StateOf(c) == Transaction)
    && (!t.conn.finished ==> t.next == Some(Transaction) || (t.next == Some(Quit) && !t.conn.session.requestedQuit))
    && (t.conn.session.requestedQuit ==> t.next == Some(Quit))
  }

  lemma DispatchKeeps(c: Conn, h: Handler, w: World)
    requires Core(c) && Runnable(c, h) && Suits(h, StateOf(c)) && !c.session.requestedQuit
    ensures TurnOk(c, Dispatch(c, h, w)) && Dispatch(c, h, w).conn.inq == c.inq
  {
    hide RunHandler, CString, SameIgnoringCase, BuffersOk, TransferOk, DeliveriesOk;
    RunHandlerKeepsCore(c, h, w);
    RunHandlerFrame(c, h, w);
    var c1 := RunHandler(c, h, w).conn;
    CoreDepends(c1, Dispatch(c, h, w).conn);
  }

  /** A line that is acceptable here is dispatched; any other ends in ERROR. */
  lemma OnValidCases(c: Conn, state: StmState, w: World)
    ensures var found := Lookup(CString(c.reader.command), state);
            if found.Some? && Accepts(found.value.arguments, c.reader.argumentLength > 0) then
              var call := HandlerCall(state, found.value.handler, CString(c.reader.argument));
              OnValid(c, state, w) == Dispatch(WithCall(WithLine(c), call), found.value.handler, w)
            else OnValid(c, state, w) == Turn(CleanCommand(WithLine(c)), Some(Error))
  {
    hide CString, Lookup, Dispatch, CleanCommand, WithLine, WithCall;
  }

  /** A complete line runs the handler of the word it spells, in either case, if that word belongs to the state and has
      an argument exactly as it wants; any other line ends in ERROR without a call. */
  lemma LineRuns(c: Conn, state: StmState, w: World)
    ensures match Meant(state, CString(c.reader.command), c.reader.argumentLength > 0)
            case None => OnValid(c, state, w) == Turn(CleanCommand(WithLine(c)), Some(Error))
            case Some(h) =>
              var call := HandlerCall(state, h, CString(c.reader.argument));
              OnValid(c, state, w) == Dispatch(WithCall(WithLine(c), call), h, w)
  {
    hide CString, Lookup, Dispatch, CleanCommand, WithLine, WithCall, Meant, OnValid;
    OnValidCases(c, state, w);
    HandlerByName(state, CString(c.reader.command), c.reader.argumentLength > 0);
  }

  /** What a name means belongs to the state, and only RETR means retr_handler. */
  lemma MeantSuits(state: StmState, name: seq<Byte>, hasArgument: bool)
    ensures var h := Meant(state, name, hasArgument);
            && (h.Some? ==> Suits(h.value, state))
            && (h == Some(RetrHandler) ==> SameIgnoringCase(Ascii("RETR"), name))
  {
    hide Spells, SameIgnoringCase, Ascii;
    IsSpelled("RETR", [82, 69, 84, 82], name);
  }

  lemma HistoryKeepsIndexes(c: Conn, call: HandlerCall)
    requires IndexesOk(c)
    ensures IndexesOk(WithCall(WithLine(c), call))
  {
    hide CString, MailNumber, SameIgnoringCase;
  }

  lemma RejectKeeps(c: Conn)
    requires Core(c) && c.finished && !c.session.requestedQuit
    ensures TurnOk(c, Turn(CleanCommand(WithLine(c)), Some(Error))) && CleanCommand(WithLine(c)).inq == c.inq
  {
    hide Core;
    CoreDepends(c, CleanCommand(WithLine(c)));
  }

  lemma OnValidKeeps(c: Conn, w: World)
    requires Core(c) && c.finished && c.reader.state == InCommand && !c.session.requestedQuit
    ensures TurnOk(c, OnValid(c, StateOf(c), w)) && OnValid(c, StateOf(c), w).conn.inq == c.inq
  {
    hide Dispatch, RunHandler, Lookup, CString, OnValid, Core, SameIgnoringCase, CleanCommand, TurnOk;
    var name, state := CString(c.reader.command), StateOf(c);
    OnValidCases(c, state, w);
    LookupSuits(name, state);
    var found := Lookup(name, state);
    if found.Some? && Accepts(found.value.arguments, c.reader.argumentLength > 0) {
      var c2 := WithCall(WithLine(c), HandlerCall(state, found.value.handler, CString(c.reader.argument)));
      CoreDepends(c, c2);
      DispatchKeeps(c2, found.value.handler, w);
      TurnOkDepends(c, c2, Dispatch(c2, found.value.handler, w));
    } else {
      RejectKeeps(c);
    }
  }

  /** The first n unread octets are consumed. */
  lemma ConsumingKeeps(c: Conn, n: nat)
    requires BuffersOk(c) && n <= |c.inq.unread|
    ensures BuffersOk(c.(inq := c.inq.Advance(n), hist := c.hist.(consumed := c.hist.consumed + c.inq.unread[..n])))
  {
    assert c.inq.unread == c.inq.unread[..n] + c.inq.unread[n..];
  }

  lemma OnInvalidKeeps(c: Conn, b: Byte)
    requires Core(c) && c.finished && !c.session.requestedQuit
    ensures TurnOk(c, OnInvalid(c, b))
  {
    hide TransfersOk, SkipLine, Tracks, Reset, Cleaned, EndsLine;
    var n := SkipLine(c.inq.unread, b == CR);
    ConsumingKeeps(c, n);
    StartsClean(c.reader);
    TransfersDepend(c, OnInvalid(c, b).conn);
  }

  lemma FeedOctetKeeps(c: Conn)
    requires Ready(c) && c.finished && c.inq.unread != []
    ensures Core(FeedOctet(c)) && SameControl(c, FeedOctet(c))
    ensures FeedOctet(c).reader.event == Undefined ==> ReaderOk(FeedOctet(c))
    ensures FeedOctet(c).reader.event == ValidCommand ==> FeedOctet(c).reader.state == InCommand
  {
    hide Tracks, TransfersOk;
    FeedTracks(c.reader, c.hist.partial, c.inq.unread[0]);
    FeedCases(c.reader, c.inq.unread[0]);
    TransfersDepend(c, FeedOctet(c));
    assert c.inq.unread == [c.inq.unread[0]] + c.inq.unread[1..];
  }

  /** One octet in the parser: what becomes of the line so far. */
  lemma OctetFed(c: Conn)
    requires ReaderOk(c) && c.finished && c.inq.unread != []
    ensures var c1, q := FeedOctet(c), c.hist.partial + [c.inq.unread[0]];
            && c1 == c.(reader := c1.reader, inq := c1.inq, hist := c1.hist)
            && c1.inq.unread == c.inq.unread[1..] && c1.hist.partial == q
            && (c1.reader.event == ValidCommand <==> ValidLine(q)) && (c1.reader.event == InvalidCommand ==> !Viable(q))
            && (c1.reader.event == ValidCommand ==> c1.reader.state == InCommand)
  {
    hide ValidLine, Tracks, Feed;
    FeedTracks(c.reader, c.hist.partial, c.inq.unread[0]);
    FeedEnds(c.reader, c.inq.unread[0]);
  }

  lemma FeedEnds(r: BoundedReader, b: Byte)
    ensures Feed(r, b).event == ValidCommand ==> Feed(r, b).state == InCommand
  {
    FeedCases(r, b);
  }

  /** One turn of the parser loop. */
  lemma {:induction false} ReadLinesOnce(c: Conn, state: StmState, w: World)
    requires c.inq.unread != []
    ensures var c1 := FeedOctet(c);
            ReadLines(c, state, w) == match c1.reader.event
                                      case ValidCommand => OnValid(c1, state, w)
                                      case InvalidCommand => OnInvalid(c1, c.inq.unread[0])
                                      case Undefined => ReadLines(c1, state, w)
  {
    hide FeedOctet, OnValid, OnInvalid;
  }

  lemma {:induction false} ReadLinesDone(c: Conn, state: StmState, w: World)
    ensures c.inq.unread == [] ==> ReadLines(c, state, w) == Turn(c, Some(state))
  {
  }

  lemma StillReading(c: Conn)
    requires Ready(c) && c.finished && !c.session.requestedQuit && StateOf(c) != Error
    ensures TurnOk(c, Turn(c, Some(StateOf(c))))
  {
    hide Core, Tracks;
  }

  lemma {:induction false} ReadLinesKeeps(c: Conn, w: World)
    requires Ready(c) && c.finished && !c.session.requestedQuit && StateOf(c) != Error
    ensures TurnOk(c, ReadLines(c, StateOf(c), w))
    decreases |c.inq.unread|
  {
    hide OnValid, OnInvalid, Tracks, TransfersOk, BuffersOk, TurnOk, Feed;
    if c.inq.unread != [] {
      FeedOctetKeeps(c);
      var c1 := FeedOctet(c);
      match c1.reader.event
      case ValidCommand =>
        OnValidKeeps(c1, w);
        TurnOkDepends(c, c1, OnValid(c1, StateOf(c), w));
      case InvalidCommand =>
        OnInvalidKeeps(c1, c.inq.unread[0]);
        TurnOkDepends(c, c1, OnInvalid(c1, c.inq.unread[0]));
      case Undefined =>
        ReadLinesKeeps(c1, w);
        TurnOkDepends(c, c1, ReadLines(c1, StateOf(c), w));
    } else {
      StillReading(c);
    }
  }

  /** A connection on which a read callback may run. */
  predicate Reading(c: Conn) {
    && Ready(c) && !c.session.requestedQuit && c.current.Some?
    && (c.current == Some(Authorization) || c.current == Some(Transaction))
    && (!c.finished ==> c.current == Some(Transaction))
  }

  lemma ReadBufferedKeeps(c: Conn, w: World)
    requires Reading(c)
    ensures TurnOk(c, ReadBuffered(c, StateOf(c), w))
  {
    hide TurnOk, BuffersOk, TransferOk, DeliveriesOk, Tracks, CString, SameIgnoringCase, MailNumber, Dispatch,
         ReadLines, Lookup;
    if c.finished {
      ReadLinesKeeps(c, w);
    } else {
      RetrIsFound(CString(c.reader.command));
      DispatchKeeps(c, RetrHandler, w);
    }
  }

  /** RETR goes on by itself: while a transfer is under way a read runs retr_handler again for the same mail, and
      takes nothing out of in_buff. */
  lemma TransferResumes(c: Conn, w: World)
    requires Reading(c) && !c.finished
    ensures var t := ReadBuffered(c, Transaction, w);
            && t == Dispatch(c, RetrHandler, w)
            && t.conn.inq == c.inq && t.conn.hist.consumed == c.hist.consumed
            && t.conn.hist.transfer.number == c.hist.transfer.number
            && t.next == Some(Transaction)
  {
    hide Core, Tracks, Lookup, CString, SameIgnoringCase, MailNumber, RunRetr;
    RetrUnderWay(c);
    RetrIsFound(CString(c.reader.command));
    var n := MailNumber(CString(c.reader.argument));
    ResumedTransfer(c.(hist := Record(c, RetrHandler, w)), n - 1);
  }

  /** The saved command of a transfer under way is RETR of an existing mail. */
  lemma RetrUnderWay(c: Conn)
    requires Reading(c) && !c.finished
    ensures var n := MailNumber(CString(c.reader.argument));
            Exists(c.session, n) && n <= |c.readIndex| && SameIgnoringCase(Ascii("RETR"), CString(c.reader.command))
  {
    hide Tracks, CString, SameIgnoringCase, MailNumber, BuffersOk, TransferOk, DeliveriesOk;
  }

  lemma ResumedTransfer(c: Conn, i: nat)
    requires i < |c.readIndex| && i < |c.session.mails| && !c.finished
    ensures var c' := RunRetr(c, i);
            && c'.inq == c.inq && c'.hist.consumed == c.hist.consumed
            && c'.hist.transfer.number == c.hist.transfer.number
            && c'.hist.transfer.before == c.hist.transfer.before && c'.hist.transfer.start == c.hist.transfer.start
  {
    hide Queued, After, CallFits;
  }

  lemma ReceiveKeeps(c: Conn, bytes: seq<Byte>)
    requires Reading(c) && |bytes| <= c.inq.Room()
    ensures Reading(Receive(c, bytes))
  {
    hide TransfersOk, Tracks;
    TransfersDepend(c, Receive(c, bytes));
  }

  /** The connection read_command works on once it has received what it can. */
  function Received(c: Conn, r: Recv): Conn {
    if c.inq.unread != [] || r.RecvFailed? then c else Receive(c, Take(r.bytes, c.inq.Room()))
  }

  lemma ReadCommandCases(c: Conn, state: StmState, w: World, r: Recv)
    ensures ReadCommand(c, state, w, r)
            == if c.inq.unread == [] && r.Segment? && Take(r.bytes, c.inq.Room()) == [] then Turn(c, Some(Quit))
               else ReadBuffered(Received(c, r), state, w)
  {
    hide ReadBuffered, Receive;
  }

  lemma ReceivedKeeps(c: Conn, r: Recv)
    requires Reading(c)
    ensures Reading(Received(c, r))
  {
    hide Reading, Receive;
    if r.Segment? {
      ReceiveKeeps(c, Take(r.bytes, c.inq.Room()));
    }
  }

  lemma ReceiveFrame(c: Conn, bytes: seq<Byte>)
    ensures var c1 := Receive(c, bytes);
            && c1 == c.(inq := c1.inq, hist := c.hist.(received := c1.hist.received))
            && c1.hist.received == c.hist.received + bytes
  {
  }

  /** Receiving changes the input only. */
  lemma ReceivedFrame(c: Conn, r: Recv)
    ensures var c1 := Received(c, r);
            && c1 == c.(inq := c1.inq, hist := c.hist.(received := c1.hist.received))
            && c.hist.received <= c1.hist.received
  {
    if !(c.inq.unread != [] || r.RecvFailed?) {
      ReceiveFrame(c, Take(r.bytes, c.inq.Room()));
    }
  }

  lemma TurnOkDepends(a: Conn, b: Conn, t: Turn)
    requires TurnOk(b, t) && SameControl(a, b)
    ensures TurnOk(a, t)
  {
    hide Core, Tracks;
  }

  lemma EndOfFileOk(c: Conn)
    requires Reading(c)
    ensures TurnOk(c, Turn(c, Some(Quit)))
  {
    hide Core, Tracks;
  }

  lemma ReadCommandKeeps(c: Conn, w: World, r: Recv)
    requires Reading(c)
    ensures TurnOk(c, ReadCommand(c, StateOf(c), w, r))
  {
    hide ReadBuffered, Reading, TurnOk, ReadCommand, Received;
    ReadCommandCases(c, StateOf(c), w, r);
    ReceivedFrame(c, r);
    ReceivedKeeps(c, r);
    ReadBufferedKeeps(Received(c, r), w);
    TurnOkDepends(c, Received(c, r), ReadBuffered(Received(c, r), StateOf(c), w));
    EndOfFileOk(c);
  }

  // ---- The state machine ----

  predicate Control(c: Conn) {
    && !c.aborted
    && (c.current.None? <==> c.lastState.None?)
    && (c.current.None? ==> c.interest == OP_WRITE && c.inq.unread == [] && c.outq.unread == [] && c.finished)
    && c.lastState != Some(Quit)
    && (c.current == Some(Error) ==>
          && c.finished && c.hist.partial == []
          && (c.lastState == Some(Authorization) || c.lastState == Some(Transaction)))
    && (c.current == Some(Quit) ==> c.session.requestedQuit || !c.open)
    && (c.session.requestedQuit ==> c.current == Some(Quit))
    && (!c.finished ==> c.current == Some(Transaction) || (c.current == Some(Quit) && !c.open))
  }

  predicate Inv(c: Conn) {
    Ready(c) && Control(c)
  }

  lemma LoadMailsKeeps(c: Conn, w: World)
    requires Ready(c) && c.finished
    ensures Ready(LoadMails(c, w)) && SameControl(c, LoadMails(c, w)) && LoadMails(c, w).finished
    ensures LoadMails(c, w).session.requestedQuit == c.session.requestedQuit
  {
    hide FlagsChain, AccountOk, CString, SameIgnoringCase, DeliveryOk, Tracks, TotalSize, Loaded;
  }

  /** Entering a state from a connection whose other state-machine fields are in order. */
  lemma ArriveKeeps(c: Conn, s: StmState, w: World)
    requires Core(c) && !c.aborted && c.current == Some(s) && c.lastState.Some? && c.lastState != Some(Quit)
    requires c.session.requestedQuit ==> s == Quit
    requires !c.finished ==> s == Quit && !c.session.requestedQuit
    requires s != Error ==> ReaderOk(c)
    requires s == Error ==> (c.lastState == Some(Authorization) || c.lastState == Some(Transaction))
                            && c.finished && c.hist.partial == [] && Tracks(Reset(c.reader), [])
    ensures Inv(ArriveAt(c, s, w))
    ensures ArriveAt(c, s, w).current == c.current
    ensures s != Quit ==> ArriveAt(c, s, w).open == c.open
  {
    hide Tracks, Core, LoadMails;
    if s == Error {
      CoreDepends(c, ArriveAt(c, Error, w));
    }
    CoreDepends(c, Close(c));
    if s == Transaction {
      LoadMailsKeeps(c, w);
    }
  }

  /** jump after a read callback. */
  lemma JumpAfterReadKeeps(c: Conn, t: Turn, w: World)
    requires Control(c) && Reading(c) && TurnOk(c, t)
    ensures Inv(Jump(t.conn, t.next, w))
  {
    hide Tracks, Core, ArriveAt;
    var c0, s := t.conn, t.next.value;
    if c0.current != Some(s) {
      var c1 := Depart(c0, c0.current.value).(current := Some(s));
      CoreDepends(c0, c1);
      ArriveKeeps(c1, s, w);
    }
  }

  lemma StmReadKeeps(c: Conn, w: World, r: Recv)
    requires Inv(c) && c.open && c.current.Some?
    ensures Inv(StmRead(c, w, r))
  {
    hide Core, ReadCommand, Jump;
    if Reading(c) {
      ReadCommandKeeps(c, w, r);
      JumpAfterReadKeeps(c, ReadCommand(c, StateOf(c), w, r), w);
    } else {
      StayPut(c, w);
    }
  }

  lemma StayPut(c: Conn, w: World)
    ensures Jump(c, c.current, w) == if c.current.None? then c.(aborted := true) else c
  {
  }

  lemma SendFrame(c: Conn, sent: Option<nat>)
    ensures Send(c, sent) == c.(outq := Send(c, sent).outq, hist := c.hist.(wire := Send(c, sent).hist.wire))
  {
  }

  lemma SendKeepsBuffers(c: Conn, sent: Option<nat>)
    requires BuffersOk(c)
    ensures BuffersOk(Send(c, sent))
  {
    if sent.Some? {
      var n := Min(sent.value, |c.outq.unread|);
      assert c.outq.unread == c.outq.unread[..n] + c.outq.unread[n..];
    }
  }

  lemma SendKeeps(c: Conn, sent: Option<nat>)
    requires Ready(c)
    ensures Ready(Send(c, sent))
    ensures Send(c, sent) == c.(outq := Send(c, sent).outq, hist := c.hist.(wire := Send(c, sent).hist.wire))
  {
    hide TransfersOk, Tracks, BuffersOk, Send;
    SendFrame(c, sent);
    SendKeepsBuffers(c, sent);
    TransfersDepend(c, Send(c, sent));
  }

  lemma WriteCommandKeeps(c: Conn, sent: Option<nat>)
    requires Ready(c)
    ensures Ready(WriteCommand(c, sent)) && SameControl(c, WriteCommand(c, sent))
    ensures var c' := WriteCommand(c, sent);
            c'.finished == c.finished && c'.session == c.session && c'.hist.partial == c.hist.partial
            && c'.reader == c.reader && c'.inq == c.inq
  {
    SendKeeps(c, sent);
    var s := Send(c, sent);
    hide Tracks;
    CoreDepends(s, s.(interest := OP_READ));
  }

  lemma WelcomeKeeps(c: Conn)
    requires Ready(c) && (c.lastState.None? ==> c.finished && c.outq.unread == [])
    ensures var c' := Welcome(c);
            && Ready(c') && c'.lastState == (if c.lastState.None? then Some(Authorization) else c.lastState)
            && c'.finished == c.finished && c'.session == c.session && c'.hist.partial == c.hist.partial
            && c'.current == c.current && c'.open == c.open && c'.aborted == c.aborted
  {
    hide Tracks;
    if c.lastState.None? {
      ReplyKeepsCore(c, WELCOME);
      CoreDepends(Reply(c, WELCOME), Welcome(c));
    }
  }

  /** The write callback of the state machine never closes the connection, so handle_write may go on using it. */
  lemma StmWriteKeeps(c: Conn, w: World, sent: Option<nat>)
    requires Inv(c) && c.open
    ensures var c' := StmWrite(c, w, sent);
            Inv(c') && c'.open && c'.current.Some?
  {
    hide Core, Tracks, LoadMails, Welcome, Reply, WriteCommand;
    var c0 := EnterFirst(c);
    CoreDepends(c, c0);
    match StateOf(c0)
    case Authorization =>
      WelcomeKeeps(c0);
      WriteCommandKeeps(Welcome(c0), sent);
    case Transaction =>
      WriteCommandKeeps(c0, sent);
    case Error =>
      ErrorWriteKeeps(c0, w);
    case Quit =>
  }

  lemma ErrorWriteKeeps(c: Conn, w: World)
    requires Inv(c) && c.open && c.current == Some(Error)
    ensures var t := OnWriteReady(c, None);
            var c' := Jump(t.conn, t.next, w);
            Inv(c') && c'.open && c'.current.Some?
  {
    hide Core, Tracks, LoadMails, ArriveAt, Reply;
    if |UNKNOWN_COMMAND| <= c.outq.Room() {
      ReplyKeepsCore(c, UNKNOWN_COMMAND);
      var c1 := Reply(c, UNKNOWN_COMMAND);
      ReplyFrame(c, UNKNOWN_COMMAND);
      var c2 := Depart(c1, Error).(current := c.lastState);
      CoreDepends(c1, c2);
      ArriveKeeps(c2, c.lastState.value, w);
    }
  }

  lemma ReplyFrame(c: Conn, message: seq<Byte>)
    ensures Reply(c, message) == c.(outq := Reply(c, message).outq,
                                    hist := c.hist.(accepted := Reply(c, message).hist.accepted,
                                                    cut := Reply(c, message).hist.cut))
  {
  }

  lemma AfterSendKeeps(c: Conn, w: World, r: Recv)
    requires Inv(c) && c.open && c.current.Some?
    ensures Inv(AfterSend(c, w, r))
  {
    hide Core, Tracks, StmRead;
    CoreDepends(c, c.(interest := OP_NOOP));
    CoreDepends(c, c.(interest := OP_READ));
    CoreDepends(c, Close(c));
    if !c.session.requestedQuit && (c.inq.unread != [] || !c.finished) {
      StmReadKeeps(c.(interest := OP_NOOP), w, r);
    }
  }

  lemma InvSurvivesClose(c: Conn)
    requires Inv(c)
    ensures Inv(Close(c))
  {
    hide Core, Tracks;
    CoreDepends(c, Close(c));
  }

  lemma HandleWriteKeeps(c: Conn, w: World, sent: Option<nat>, sentAgain: Option<nat>, r: Recv)
    requires Inv(c) && c.open
    ensures Inv(HandleWrite(c, w, sent, sentAgain, r))
  {
    hide StmWrite, AfterSend, Tracks, Core, Send;
    StmWriteKeeps(c, w, sent);
    var c1 := StmWrite(c, w, sent);
    InvSurvivesClose(c1);
    SendKeeps(c1, sentAgain);
    if sentAgain.Some? {
      AfterSendKeeps(Send(c1, sentAgain), w, r);
    }
  }

  lemma StepKeeps(c: Conn, e: Callback)
    requires Inv(c)
    ensures Inv(Step(c, e))
  {
    hide Core, Tracks, HandleWrite, StmRead;
    if Enabled(c, e) {
      match e
      case Readable(w, r) => StmReadKeeps(c, w, r);
      case Writable(w, sent, sentAgain, r) => HandleWriteKeeps(c, w, sent, sentAgain, r);
      case Shutdown => InvSurvivesClose(c);
    }
  }

  /** Every state a connection can reach. */
  lemma {:induction false} Reachable(r: Run, k: nat)
    requires r.Valid() && k < |r.states|
    ensures Inv(r.states[k])
  {
    hide Inv, Step;
    if k == 0 {
      InitialInv();
    } else {
      Reachable(r, k - 1);
      StepKeeps(r.states[k - 1], r.events[k - 1]);
    }
  }

  lemma InitialInv()
    ensures Inv(Initial())
  {
  }

  lemma {:induction false} DefinedBefore(r: Run, j: nat, k: nat)
    requires r.Defined(k) && j <= k
    ensures r.Defined(j)
    decreases k
  {
    hide Step;
    if j < k {
      StopsThere(r.states[k - 1], r.events[k - 1]);
      DefinedBefore(r, j, k - 1);
    }
  }

  lemma StopsThere(c: Conn, e: Callback)
    ensures c.astray ==> Step(c, e) == c
  {
  }
}
