/** One connection of the server as a step machine: server/pop3.c and server/stm/pop3_stm.c over lib/stm.c. An event
    is one callback of the selector; what recv, send and the file system answer is part of the event. */
module Engine {
  import opened Interests
  import opened Bytes
  import opened Queues
  import opened Stuffing
  import opened Retr
  import opened CommandParser
  import opened Sessions

  const BUFFER_SIZE: nat := 4096

  /** What recv answers: -1, or the octets read (none of them at end of file). */
  datatype Recv = RecvFailed | Segment(bytes: seq<Byte>)

  // ---- What has happened, for stating properties of whole runs ----

  datatype Happening =
    | Ran(state: StmState, handler: Handler, argument: seq<Byte>, world: World)
    | MailsLoaded(world: World)

  /** A handler called for a line that has just been read. */
  datatype HandlerCall = HandlerCall(state: StmState, handler: Handler, argument: seq<Byte>)

  /** What the parser made of a line: a valid command line, or garbage. */
  datatype Input = Line(octets: seq<Byte>) | Garbage

  /** A RETR under way: the mail it asked for, how much had been accepted before it, the flag it started with, and
      whether all pieces fitted. */
  datatype Transfer = Transfer(number: nat, before: nat, start: Flag, whole: bool)

  /** A completed RETR: the number it asked for, how much had happened by then, the mail it sent, the start flag, the
      octets queued for it, whether all pieces fitted. */
  datatype Delivery = Delivery(number: nat, at: nat, content: seq<Byte>, start: Flag, queued: seq<Byte>, whole: bool)

  datatype History = History(
    received: seq<Byte>,          // octets taken from the socket
    consumed: seq<Byte>,          // octets taken out of in_buff
    lines: seq<seq<Byte>>,        // lines for which the parser said VALID
    calls: seq<HandlerCall>,      // handlers called for those lines
    partial: seq<Byte>,           // octets fed to the parser since the last line ended
    malformed: nat,               // lines for which the parser said INVALID
    heard: seq<Input>,            // both, in order
    cuts: seq<seq<Byte>>,         // the octets consumed for each of them
    lost: bool,                   // resynchronisation has run out of input without finding a line end
    accepted: seq<Byte>,          // octets accepted by out_buff
    cut: bool,                    // some reply did not fit into out_buff
    wire: seq<Byte>,              // octets taken by send
    happenings: seq<Happening>,   // handlers run and mail directories loaded
    removed: seq<string>,         // files given to remove()
    transfer: Transfer,
    deliveries: seq<Delivery>)

  // ---- The connection ----

  datatype Conn = Conn(
    inq: Queue, outq: Queue,
    reader: BoundedReader,
    finished: bool, flag: Flag, readIndex: seq<nat>,
    current: Option<StmState>,    // None before the first event
    lastState: Option<StmState>,  // None is -1
    session: Session,
    interest: Interest, open: bool, aborted: bool,
    astray: bool,                 // a handler has used memory, or a file, that it does not have
    hist: History)

  /** A connection and the state its handler asks for; None is -1. */
  datatype Turn = Turn(conn: Conn, next: Option<StmState>)

  /** accept_pop_connection: pop3_init, and registration with OP_WRITE. */
  function Initial(): Conn {
    Conn(Empty(BUFFER_SIZE), Empty(BUFFER_SIZE), Fresh(), true, AnyCharacter, [], None, None, NewSession(),
         OP_WRITE, true, false, false,
         History([], [], [], [], [], 0, [], [], false, [], false, [], [], [], Transfer(0, 0, AnyCharacter, true), []))
  }

  /** try_write, or any number of them in a row. */
  function Reply(c: Conn, message: seq<Byte>): Conn {
    c.(outq := c.outq.Offer(message),
       hist := c.hist.(accepted := c.hist.accepted + Take(message, c.outq.Room()),
                       cut := c.hist.cut || |message| > c.outq.Room()))
  }

  // ---- Handlers ----

  function ProgressOf(c: Conn, i: nat): Progress
    requires i < |c.readIndex|
  {
    Progress(c.finished, c.flag, c.readIndex[i])
  }

  /** retr_handler on mail i, up to the call of fread if that call overruns its memory. */
  function RunRetr(c: Conn, i: nat): Conn
    requires i < |c.readIndex| && i < |c.session.mails|
  {
    if Overruns(c.outq.Room(), ProgressOf(c, i)) then Reply(c, Header(ProgressOf(c, i))).(astray := true)
    else SendPiece(c, i)
  }

  /** retr_handler on mail i. */
  function SendPiece(c: Conn, i: nat): Conn
    requires i < |c.readIndex| && i < |c.session.mails| && !Overruns(c.outq.Room(), ProgressOf(c, i))
  {
    var content, p, room := c.session.mails[i].content, ProgressOf(c, i), c.outq.Room();
    var queued, next := Queued(room, p, content), After(room, p, content);
    var fits := CallFits(room, p, content);
    var before := if c.finished then Transfer(i + 1, |c.hist.accepted|, c.flag, true) else c.hist.transfer;
    var transfer := before.(whole := before.whole && fits);
    var accepted := c.hist.accepted + queued;
    var base := Min(transfer.before, |accepted|);
    c.(outq := c.outq.Append(queued),
       finished := next.finished, flag := next.flag, readIndex := c.readIndex[i := next.readIndex],
       hist := c.hist.(
         accepted := accepted,
         cut := c.hist.cut || !fits,
         transfer := transfer,
         deliveries := if next.finished then
                         c.hist.deliveries + [Delivery(i + 1, |c.hist.happenings|, content, transfer.start,
                                                       accepted[base..], transfer.whole)]
                       else c.hist.deliveries))
  }

  /** stm.current->state; a handler never runs before the first state has been entered. */
  function StateOf(c: Conn): StmState {
    match c.current
    case None => Authorization
    case Some(s) => s
  }

  function Record(c: Conn, h: Handler, w: World): History {
    c.hist.(happenings := c.hist.happenings + [Ran(StateOf(c), h, CString(c.reader.argument), w)])
  }

  /** What a handler has changed before it replies. */
  function BeforeReply(c: Conn, h: Handler, w: World, o: Outcome): Conn {
    c.(session := o.session,
       readIndex := if o.session.mails == [] then [] else c.readIndex,
       finished := c.finished || h == NoopHandler,
       interest := if h == CapaHandler then OP_READ else c.interest,
       hist := Record(c, h, w).(removed := c.hist.removed + o.removed))
  }

  function RunOther(c: Conn, h: Handler, w: World): Turn {
    var o := Handle(h, StateOf(c), c.reader.argumentLength > 0, CString(c.reader.argument), c.session, w);
    Turn(Reply(BeforeReply(c, h, w, o), o.reply), Some(o.next))
  }

  /** The call uses something it does not have: LIST a slot behind the mail table, or RETR the null file that fopen has
      returned, which it closes. */
  predicate GoesAstray(c: Conn, h: Handler, w: World) {
    var argument := CString(c.reader.argument);
    || (h == ListHandler && c.reader.argumentLength > 0 && LeavesTable(argument, c.session))
    || (h == RetrHandler && Exists(c.session, MailNumber(argument)) && !w.mailOpens)
  }

  function RunHandler(c: Conn, h: Handler, w: World): Turn {
    var n := MailNumber(CString(c.reader.argument));
    if GoesAstray(c, h, w) then
      Turn(c.(astray := true, hist := Record(c, h, w)), Some(Transaction))
    else if h == RetrHandler && Exists(c.session, n) && n <= |c.readIndex| then
      Turn(RunRetr(c.(hist := Record(c, h, w)), n - 1), Some(Transaction))
    else
      RunOther(c, h, w)
  }

  /** clean_command */
  function CleanCommand(c: Conn): Conn {
    if c.finished then c.(reader := Cleaned(c.reader)) else c
  }

  /** Run a handler, then ask for write events and forget the command unless it has to go on. */
  function Dispatch(c: Conn, h: Handler, w: World): Turn {
    var t := RunHandler(c, h, w);
    Turn(CleanCommand(t.conn.(interest := OP_WRITE)), t.next)
  }

  // ---- read_command ----

  function FeedOctet(c: Conn): Conn
    requires c.inq.unread != []
  {
    var b := c.inq.unread[0];
    c.(reader := Feed(c.reader, b), inq := c.inq.Advance(1),
       hist := c.hist.(consumed := c.hist.consumed + [b], partial := c.hist.partial + [b]))
  }

  /** The line just read goes into the history. */
  function WithLine(c: Conn): Conn {
    c.(hist := c.hist.(lines := c.hist.lines + [c.hist.partial], heard := c.hist.heard + [Line(c.hist.partial)],
                       cuts := c.hist.cuts + [c.hist.partial], partial := []))
  }

  function WithCall(c: Conn, call: HandlerCall): Conn {
    c.(hist := c.hist.(calls := c.hist.calls + [call]))
  }

  /** The parser has just said VALID. */
  function OnValid(c: Conn, state: StmState, w: World): Turn {
    var c1 := WithLine(c);
    match Lookup(CString(c.reader.command), state)
    case None => Turn(CleanCommand(c1), Some(Error))
    case Some(command) =>
      if Accepts(command.arguments, c.reader.argumentLength > 0) then
        var call := HandlerCall(state, command.handler, CString(c.reader.argument));
        Dispatch(WithCall(c1, call), command.handler, w)
      else Turn(CleanCommand(c1), Some(Error))
  }

  /** How many octets the resynchronisation loop drops: through the first LF that follows a CR, or all of them. */
  function SkipLine(s: seq<Byte>, sawCr: bool): (n: nat)
    ensures n <= |s|
  {
    if s == [] then 0
    else if s[0] == LF && sawCr then 1
    else 1 + SkipLine(s[1..], s[0] == CR || (s[0] == LF && sawCr))
  }

  predicate EndsLine(s: seq<Byte>) {
    |s| >= 2 && s[|s| - 2] == CR && s[|s| - 1] == LF
  }

  /** The parser has just said INVALID on octet b. */
  function OnInvalid(c: Conn, b: Byte): Turn {
    var n := SkipLine(c.inq.unread, b == CR);
    var c1 := c.(inq := c.inq.Advance(n),
                 hist := c.hist.(consumed := c.hist.consumed + c.inq.unread[..n], partial := [],
                                 malformed := c.hist.malformed + 1, heard := c.hist.heard + [Garbage],
                                 cuts := c.hist.cuts + [c.hist.partial + c.inq.unread[..n]],
                                 lost := c.hist.lost || !EndsLine(c.hist.partial + c.inq.unread[..n])));
    Turn(CleanCommand(c1), Some(Error))
  }

  /** The loop of read_command over what in_buff holds. */
  function ReadLines(c: Conn, state: StmState, w: World): Turn
    decreases |c.inq.unread|
  {
    if c.inq.unread == [] then Turn(c, Some(state))
    else
      var c1 := FeedOctet(c);
      match c1.reader.event
      case ValidCommand => OnValid(c1, state, w)
      case InvalidCommand => OnInvalid(c1, c.inq.unread[0])
      case Undefined => ReadLines(c1, state, w)
  }

  /** recv into the free part of in_buff. */
  function Receive(c: Conn, bytes: seq<Byte>): Conn {
    c.(inq := c.inq.Append(bytes), hist := c.hist.(received := c.hist.received + bytes))
  }

  /** read_command once there is nothing more to receive. */
  function ReadBuffered(c: Conn, state: StmState, w: World): Turn {
    var resumed := Lookup(CString(c.reader.command), state);
    if !c.finished && resumed.Some? then Dispatch(c, resumed.value.handler, w)
    else ReadLines(c, state, w)
  }

  function ReadCommand(c: Conn, state: StmState, w: World, r: Recv): Turn {
    if c.inq.unread != [] || r.RecvFailed? then ReadBuffered(c, state, w)
    else
      var bytes := Take(r.bytes, c.inq.Room());
      if bytes == [] then Turn(c, Some(Quit))
      else ReadBuffered(Receive(c, bytes), state, w)
  }

  // ---- Output ----

  /** send of the unread output: None is -1, Some(k) takes the first k octets. */
  function Send(c: Conn, sent: Option<nat>): Conn {
    match sent
    case None => c
    case Some(k) =>
      var n := Min(k, |c.outq.unread|);
      c.(outq := c.outq.Advance(n), hist := c.hist.(wire := c.hist.wire + c.outq.unread[..n]))
  }

  function WriteCommand(c: Conn, sent: Option<nat>): Conn {
    if c.outq.unread != [] then Send(c, sent).(interest := OP_READ) else c
  }

  const WELCOME: seq<Byte> := Ascii("+OK POP3 server ready\r\n")
  const UNKNOWN_COMMAND: seq<Byte> := Ascii("-ERR Unknown command.\r\n")

  /** server_ready */
  function Welcome(c: Conn): Conn {
    if c.lastState.None? && |WELCOME| <= c.outq.Room() then Reply(c, WELCOME).(lastState := Some(Authorization))
    else c
  }

  // ---- lib/stm.c with the state table of server/pop3.c ----

  /** selector_unregister_fd with handle_close. */
  function Close(c: Conn): Conn {
    c.(open := false)
  }

  function Depart(c: Conn, s: StmState): Conn {
    if s == Quit then c.(aborted := true) else c.(lastState := Some(s))
  }

  /** The read indexes calloc leaves. */
  function Zeros(n: nat): seq<nat> {
    seq(n, i => 0)
  }

  /** stm_transaction_arrival. It reads from what opendir has returned, be it null. */
  function LoadMails(c: Conn, w: World): Conn {
    if c.session.mails != [] then c
    else
      c.(session := Arrive(c.session, w),
         readIndex := Zeros(|Loaded(w)|),
         astray := c.astray || !w.directoryOpens,
         hist := c.hist.(happenings := c.hist.happenings + [MailsLoaded(w)]))
  }

  function ArriveAt(c: Conn, s: StmState, w: World): Conn {
    match s
    case Authorization => c
    case Transaction => LoadMails(c, w)
    case Error => c.(reader := Reset(c.reader), interest := OP_WRITE)
    case Quit => if c.session.requestedQuit then c else Close(c)
  }

  function EnterFirst(c: Conn): Conn {
    if c.current == None then c.(current := Some(Authorization)) else c
  }

  /** jump: -1 is a huge unsigned number there, and aborts. */
  function Jump(c: Conn, next: Option<StmState>, w: World): Conn {
    match next
    case None => c.(aborted := true)
    case Some(s) =>
      if c.current == Some(s) then c
      else
        var c1 := if c.current.Some? then Depart(c, c.current.value) else c;
        ArriveAt(c1.(current := Some(s)), s, w)
  }

  function OnReadReady(c: Conn, w: World, r: Recv): Turn {
    match StateOf(c)
    case Authorization => ReadCommand(c, Authorization, w, r)
    case Transaction => ReadCommand(c, Transaction, w, r)
    case Error => Turn(c, Some(Error))
    case Quit => Turn(c, Some(Quit))
  }

  function OnWriteReady(c: Conn, sent: Option<nat>): Turn {
    match StateOf(c)
    case Authorization => Turn(WriteCommand(Welcome(c), sent), Some(Authorization))
    case Transaction => Turn(WriteCommand(c, sent), Some(Transaction))
    case Error =>
      if |UNKNOWN_COMMAND| <= c.outq.Room() then Turn(Reply(c, UNKNOWN_COMMAND), c.lastState)
      else Turn(c, Some(Error))
    case Quit => Turn(c, Some(Quit))
  }

  function StmRead(c: Conn, w: World, r: Recv): Conn {
    var t := OnReadReady(EnterFirst(c), w, r);
    Jump(t.conn, t.next, w)
  }

  function StmWrite(c: Conn, w: World, sent: Option<nat>): Conn {
    var t := OnWriteReady(EnterFirst(c), sent);
    Jump(t.conn, t.next, w)
  }

  // ---- The callbacks of server/pop3.c ----

  function HandleRead(c: Conn, w: World, r: Recv): Conn {
    StmRead(c, w, r)
  }

  /** What handle_write does after the state machine and its own send. */
  function AfterSend(c: Conn, w: World, r: Recv): Conn {
    if c.session.requestedQuit then Close(c)
    else if c.inq.unread != [] || !c.finished then StmRead(c.(interest := OP_NOOP), w, r)
    else c.(interest := OP_READ)
  }

  function HandleWrite(c: Conn, w: World, sent: Option<nat>, sentAgain: Option<nat>, r: Recv): Conn {
    var c1 := StmWrite(c, w, sent);
    if c1.astray then c1
    else if sentAgain == None then Close(c1) else AfterSend(Send(c1, sentAgain), w, r)
  }

  // ---- Runs ----

  datatype Callback =
    | Readable(world: World, recv: Recv)
    | Writable(world: World, sent: Option<nat>, sentAgain: Option<nat>, recv: Recv)
    | Shutdown

  /** The selector calls back an open connection, and only for what it is interested in. */
  predicate Enabled(c: Conn, e: Callback) {
    c.open && match e
              case Readable(_, _) => c.interest.read
              case Writable(_, _, _, _) => c.interest.write
              case Shutdown => true
  }

  /** One callback. What a connection does after it has gone astray is not defined; here it stops. */
  function Step(c: Conn, e: Callback): Conn {
    if !Enabled(c, e) || c.astray then c
    else
      match e
      case Readable(w, r) => HandleRead(c, w, r)
      case Writable(w, sent, sentAgain, r) => HandleWrite(c, w, sent, sentAgain, r)
      case Shutdown => Close(c)
  }

  /** A run of a connection: the callbacks in order, and the states before, between and after them. */
  datatype Run = Run(events: seq<Callback>, states: seq<Conn>) {

    ghost predicate Valid() {
      && |states| == |events| + 1
      && states[0] == Initial()
      && forall i {:trigger events[i]} :: 0 <= i < |events| ==> states[i + 1] == Step(states[i], events[i])
    }

    /** Moment k of this run, with nothing so far that used memory, or a file, that is not there. */
    ghost predicate Defined(k: nat) {
      Valid() && k < |states| && !states[k].astray
    }
  }
}
