/** Runs in which something goes wrong: RETR asks fread for more than it has memory for, LIST reads a mail table that is
    not there, and a line end that comes late is taken for another line. */
module Scenarios {
  import opened Bytes
  import opened Queues
  import opened Stuffing
  import opened Retr
  import opened CommandParser
  import opened Sessions
  import opened Interests
  import opened Engine
  import opened Running
  import opened Protocol
  import opened Listings

  const USER_LINE: seq<Byte> := Ascii("USER a\r\n")
  const PASS_LINE: seq<Byte> := Ascii("PASS b\r\n")
  const RETR_LINE: seq<Byte> := Ascii("RETR 1\r\n")
  const LIST_LINE: seq<Byte> := Ascii("LIST 1\r\n")

  /** A first piece of 4074 octets, and one dot in it. */
  function OneDotMail(): seq<Byte> {
    [CR, LF, DOT] + seq(4072, i => SP)
  }

  /** One user, a with password b, and one mail at most. */
  function MailServer(listing: seq<(string, seq<Byte>)>): World {
    World([Account([97], [98])], 1, true, listing, true)
  }

  lemma LinesAreValid()
    ensures ValidLine(USER_LINE) && LineName(USER_LINE) == Ascii("USER") && LineArgument(USER_LINE) == [97]
    ensures ValidLine(PASS_LINE) && LineName(PASS_LINE) == Ascii("PASS") && LineArgument(PASS_LINE) == [98]
    ensures ValidLine(RETR_LINE) && LineName(RETR_LINE) == Ascii("RETR") && LineArgument(RETR_LINE) == [49]
    ensures ValidLine(LIST_LINE) && LineName(LIST_LINE) == Ascii("LIST") && LineArgument(LIST_LINE) == [49]
  {
    hide ValidLine, LineName, LineArgument, Ascii;
    LoginLinesAreValid();
    MailLinesAreValid();
  }

  lemma LoginLinesAreValid()
    ensures ValidLine(USER_LINE) && LineName(USER_LINE) == Ascii("USER") && LineArgument(USER_LINE) == [97]
    ensures ValidLine(PASS_LINE) && LineName(PASS_LINE) == Ascii("PASS") && LineArgument(PASS_LINE) == [98]
  {
  }

  lemma MailLinesAreValid()
    ensures ValidLine(RETR_LINE) && LineName(RETR_LINE) == Ascii("RETR") && LineArgument(RETR_LINE) == [49]
    ensures ValidLine(LIST_LINE) && LineName(LIST_LINE) == Ascii("LIST") && LineArgument(LIST_LINE) == [49]
  {
  }

  lemma WordsAreWhole()
    ensures CString(Ascii("USER")) == Ascii("USER") && CString(Ascii("PASS")) == Ascii("PASS")
    ensures CString(Ascii("RETR")) == Ascii("RETR") && CString(Ascii("LIST")) == Ascii("LIST")
    ensures forall b: Byte :: b != NUL ==> CString([b]) == [b]
  {
    hide CString;
    forall b: Byte | b != NUL
      ensures CString([b]) == [b]
    {
      WholeWord([b]);
    }
    WholeName("USER");
    WholeName("PASS");
    WholeName("RETR");
    WholeName("LIST");
  }

  lemma WholeName(text: string)
    requires forall i :: 0 <= i < |text| ==> 'A' <= text[i] <= 'Z'
    ensures CString(Ascii(text)) == Ascii(text)
  {
    hide CString;
    WholeWord(Ascii(text));
  }

  lemma {:induction false} WholeWord(s: seq<Byte>)
    requires NUL !in s
    ensures CString(s) == s
  {
    hide CString;
    assert forall i :: 0 <= i < |s| ==> s[i] != NUL;
    assert |CString(s)| == |s|;
  }

  lemma UserIsFound()
    ensures Lookup(Ascii("USER"), Authorization) == Some(COMMANDS[0])
    ensures Lookup(Ascii("PASS"), Authorization) == Some(COMMANDS[1])
  {
    assert IsFor(COMMANDS[0], Ascii("USER"), Authorization);
    assert IsFor(COMMANDS[1], Ascii("PASS"), Authorization);
    assert !IsFor(COMMANDS[0], Ascii("PASS"), Authorization) by {
      assert Ascii("USER")[0] == 85 && Ascii("PASS")[0] == 80;
    }
    assert COMMANDS[1..][0] == COMMANDS[1];
  }

  /** The parser delivers the line it is in, and nothing else changes. */
  lemma {:induction false} LineDelivered(c: Conn, w: World, n: nat) returns (c1: Conn)
    requires Ready(c) && c.finished && 1 <= n <= |c.inq.unread| && ValidLine(c.hist.partial + c.inq.unread[..n])
    ensures Core(c1) && JustRead(c1, c.hist.partial + c.inq.unread[..n])
    ensures ReadLines(c, StateOf(c), w) == OnValid(c1, StateOf(c), w)
    ensures c1 == c.(reader := c1.reader, inq := c1.inq, hist := c1.hist) && c1.inq.unread == c.inq.unread[n..]
    ensures c1.reader.state == InCommand
    decreases n
  {
    hide ValidLine, Tracks, Feed, OnValid, OnInvalid, JustRead, Core, ReadLines, FeedOctet;
    var u, p, b := c.inq.unread, c.hist.partial, c.inq.unread[0];
    OctetFed(c);
    ReadLinesOnce(c, StateOf(c), w);
    FeedOctetKeeps(c);
    var rest := u[1..][..n - 1];
    assert u[..n] == [b] + rest && (p + [b]) + rest == p + u[..n] && u[1..][n - 1..] == u[n..];
    if n == 1 {
      assert rest == [] && p + u[..1] == p + [b];
      c1 := FeedOctet(c);
      FeedDelivers(c);
    } else {
      ValidLineGoesOn(p + [b], rest);
      c1 := LineDelivered(FeedOctet(c), w, n - 1);
    }
  }

  /** Inside a valid line nothing has gone wrong, and it is not yet complete. */
  lemma ValidLineGoesOn(p: seq<Byte>, rest: seq<Byte>)
    requires rest != [] && ValidLine(p + rest)
    ensures Viable(p) && !ValidLine(p)
  {
    hide ValidLine;
    if ValidLine(p) {
      ValidLinesArePrefixFree(p, p + rest);
    }
  }

  /** The connection waits between two lines. */
  predicate Between(c: Conn, state: StmState) {
    && Inv(c) && c.open && c.current == Some(state) && c.lastState.Some? && c.finished && !c.astray
             && c.hist.partial == []
    && (state == Authorization || state == Transaction)
  }

  /** A line that is in the buffer runs its handler. */
  lemma LineDispatched(c: Conn, w: World, recv: Recv, line: seq<Byte>, rest: seq<Byte>, command: Command)
    returns (c2: Conn)
    requires Between(c, StateOf(c)) && c.inq.unread == line + rest && ValidLine(line)
    requires Lookup(CString(LineName(line)), StateOf(c)) == Some(command)
    requires Accepts(command.arguments, LineArgument(line) != [])
    ensures var t := Dispatch(c2, command.handler, w);
            StmRead(c, w, recv) == Jump(t.conn, t.next, w)
    ensures c2 == c.(reader := c2.reader, inq := c2.inq, hist := c2.hist) && c2.inq.unread == rest && Core(c2)
    ensures c2.reader.state == InCommand && c2.hist.partial == []
    ensures CString(c2.reader.command) == CString(LineName(line))
    ensures CString(c2.reader.argument) == CString(LineArgument(line))
    ensures c2.reader.argumentLength > 0 <==> LineArgument(line) != []
  {
    hide ValidLine, CString, Core, Tracks, OnValid, ReadLines, Lookup, Dispatch, Jump, LineName, LineArgument;
    LineIsLong(line);
    var n := |line|;
    assert c.inq.unread[..n] == line && c.inq.unread[n..] == rest && [] + line == line;
    var c1 := LineDelivered(c, w, n);
    OnValidCases(c1, StateOf(c), w);
    c2 := WithCall(WithLine(c1), HandlerCall(StateOf(c), command.handler, CString(c1.reader.argument)));
    CoreDepends(c1, c2);
  }

  // ---- Logging in ----

  /** Any handler but RETR and LIST: what it leaves behind. */
  lemma OtherRuns(c: Conn, h: Handler, w: World)
    requires c.finished && h != RetrHandler && h != ListHandler
    ensures var o := Handle(h, StateOf(c), c.reader.argumentLength > 0, CString(c.reader.argument), c.session, w);
            var t := Dispatch(c, h, w);
            && t.next == Some(o.next) && t.conn.session == o.session && t.conn.outq == c.outq.Offer(o.reply)
            && t.conn.inq == c.inq && t.conn.finished && t.conn.interest == OP_WRITE && t.conn.astray == c.astray
            && t.conn.hist.partial == c.hist.partial && SameControl(c, t.conn)
  {
    hide Handle, CString, Cleaned;
  }

  lemma ShortReplyQueued(q: Queue, reply: seq<Byte>)
    requires q == Empty(BUFFER_SIZE) && 0 < |reply| <= 100
    ensures q.Offer(reply) == Queue(BUFFER_SIZE, 0, reply)
  {
    assert Take(reply, q.Room()) == reply && [] + reply == reply;
  }

  /** Connected, greeted, and waiting for the first command. */
  predicate Greeted(c: Conn) {
    && Between(c, Authorization) && c.inq == Empty(BUFFER_SIZE) && c.outq == Empty(BUFFER_SIZE)
    && c.interest == OP_READ && c.session == NewSession()
  }

  /** The connection after the welcome has gone out. */
  function AfterWelcome(): Conn {
    Initial().(current := Some(Authorization), lastState := Some(Authorization), interest := OP_READ,
               hist := Initial().hist.(accepted := WELCOME, wire := WELCOME))
  }

  lemma FirstEvent(w: World)
    ensures Greeted(Step(Initial(), Writable(w, Some(23), Some(0), RecvFailed)))
  {
    hide Inv, Step;
    InitialInv();
    StepKeeps(Initial(), Writable(w, Some(23), Some(0), RecvFailed));
    WelcomeSent(w);
  }

  lemma WelcomeSent(w: World)
    ensures Step(Initial(), Writable(w, Some(23), Some(0), RecvFailed)) == AfterWelcome()
  {
    var c := Welcome(EnterFirst(Initial()));
    assert c.outq.unread == WELCOME && c.hist.accepted == WELCOME;
    var c1 := Send(c, Some(23));
    assert c1.outq == Empty(BUFFER_SIZE) && c1.hist.wire == WELCOME;
    assert WELCOME + [] == WELCOME;
  }

  /** With short output that goes out at once, the write callback goes on with what is in the input buffer. */
  lemma DrainedThenRead(c: Conn, w: World)
    requires Between(c, StateOf(c)) && c.interest.write && c.outq == Queue(BUFFER_SIZE, 0, c.outq.unread)
    requires 0 < |c.outq.unread| <= 100 && c.inq.unread != []
    ensures var c1 := c.(outq := Empty(BUFFER_SIZE), interest := OP_NOOP,
                         hist := c.hist.(wire := c.hist.wire + c.outq.unread));
            && Step(c, Writable(w, Some(100), Some(0), RecvFailed)) == StmRead(c1, w, RecvFailed)
            && Between(c1, StateOf(c))
  {
    hide StmRead, Core, Tracks, ReadCommand;
    var c1 := c.(outq := Empty(BUFFER_SIZE), interest := OP_READ, hist := c.hist.(wire := c.hist.wire + c.outq.unread));
    assert Send(c, Some(100)) == c.(outq := Empty(BUFFER_SIZE), hist := c.hist.(wire := c.hist.wire + c.outq.unread));
    assert c1.hist.wire + [] == c1.hist.wire;
    assert Send(c1, Some(0)) == c1;
    SendKeeps(c, Some(100));
    CoreDepends(Send(c, Some(100)), c1.(interest := OP_NOOP));
  }

  /** USER has been answered; PASS and the last line wait in the input buffer. */
  predicate Named(c: Conn, last: seq<Byte>) {
    && Between(c, Authorization) && c.inq.unread == PASS_LINE + last
    && c.outq == Queue(BUFFER_SIZE, 0, c.outq.unread) && 0 < |c.outq.unread| <= 100
    && c.interest == OP_WRITE && c.session == NewSession().(user := [97])
  }

  lemma ReadableReads(c: Conn, w: World, recv: Recv)
    requires c.open && c.interest.read && !c.astray
    ensures Step(c, Readable(w, recv)) == StmRead(c, w, recv)
  {
    hide StmRead;
  }

  lemma SameState(c: Conn, state: StmState, w: World)
    requires c.current == Some(state)
    ensures Jump(c, Some(state), w) == c
  {
  }

  lemma HandleIs(s: Session, w: World)
    ensures Handle(UserHandler, Authorization, true, [97], s, w) == HandleUser([97], s, w)
    ensures Handle(PassHandler, Authorization, true, [98], s, w) == HandlePass([98], s, w)
  {
    hide HandleUser, HandlePass;
  }

  lemma SecondEvent(c: Conn, listing: seq<(string, seq<Byte>)>, last: seq<Byte>)
    requires Greeted(c) && |last| <= 100
    ensures Named(Step(c, Readable(MailServer(listing), Segment(USER_LINE + (PASS_LINE + last)))), last)
  {
    hide Core, Tracks, ReadCommand, ValidLine, Lookup, CString, Handle, Dispatch, StmRead, Jump, Step, Take;
    var w, bytes := MailServer(listing), USER_LINE + (PASS_LINE + last);
    var c1 := Receive(c, bytes);
    StepKeeps(c, Readable(w, Segment(bytes)));
    ReadableReads(c, w, Segment(bytes));
    ReceivedFirst(c, w, bytes);
    LinesAreValid();
    WordsAreWhole();
    UserIsFound();
    assert c1.inq.unread == bytes;
    var c2 := LineDispatched(c1, w, RecvFailed, USER_LINE, PASS_LINE + last, COMMANDS[0]);
    OtherRuns(c2, UserHandler, w);
    HandleIs(c.session, w);
    UserAnswer(c.session, listing);
    ShortReplyQueued(c2.outq, Ascii("+OK valid user\r\n"));
    SameState(Dispatch(c2, UserHandler, w).conn, Authorization, w);
  }

  lemma ReceivedFirst(c: Conn, w: World, bytes: seq<Byte>)
    requires Between(c, StateOf(c)) && c.inq == Empty(BUFFER_SIZE) && 0 < |bytes| <= BUFFER_SIZE
    ensures StmRead(c, w, Segment(bytes)) == StmRead(Receive(c, bytes), w, RecvFailed)
    ensures Between(Receive(c, bytes), StateOf(c))
  {
    hide ReadBuffered, Jump, Core, Tracks;
    assert Take(bytes, BUFFER_SIZE) == bytes;
    ReceiveKeeps(c, bytes);
  }

  lemma UserAnswer(s: Session, listing: seq<(string, seq<Byte>)>)
    ensures HandleUser([97], s, MailServer(listing))
            == Outcome(s.(user := [97]), Authorization, Ascii("+OK valid user\r\n"), [])
  {
    assert MailServer(listing).users[0].name == [97];
  }

  /** Logged in; the last line waits in the input buffer. */
  predicate LoggedIn(c: Conn, listing: seq<(string, seq<Byte>)>, last: seq<Byte>) {
    && Between(c, Transaction) && c.inq.unread == last
    && c.outq == Queue(BUFFER_SIZE, 0, c.outq.unread) && 0 < |c.outq.unread| <= 100
    && c.interest == OP_WRITE && c.session.mails == Loaded(MailServer(listing)) && TableFits(c.session)
  }

  lemma EnterTransaction(c: Conn, w: World)
    requires c.current == Some(Authorization)
    ensures Jump(c, Some(Transaction), w) == LoadMails(Depart(c, Authorization).(current := Some(Transaction)), w)
  {
    hide LoadMails;
  }

  lemma ThirdEvent(c: Conn, listing: seq<(string, seq<Byte>)>, last: seq<Byte>)
    requires Named(c, last)
    ensures LoggedIn(Step(c, Writable(MailServer(listing), Some(100), Some(0), RecvFailed)), listing, last)
  {
    hide Core, Tracks, ReadCommand, ValidLine, Lookup, CString, Handle, Dispatch, StmRead, LoadMails,
         Step, MailServer, Loaded, TableFits;
    var w := MailServer(listing);
    StepKeeps(c, Writable(w, Some(100), Some(0), RecvFailed));
    DrainedThenRead(c, w);
    LinesAreValid();
    WordsAreWhole();
    UserIsFound();
    var c1 := c.(outq := Empty(BUFFER_SIZE), interest := OP_NOOP, hist := c.hist.(wire := c.hist.wire + c.outq.unread));
    var c2 := LineDispatched(c1, w, RecvFailed, PASS_LINE, last, COMMANDS[1]);
    OtherRuns(c2, PassHandler, w);
    HandleIs(c.session, w);
    PassAnswer(c.session, listing);
    ShortReplyQueued(c2.outq, Ascii("+OK logged in\r\n"));
    EnterTransaction(Dispatch(c2, PassHandler, w).conn, w);
    MailsFound(Depart(Dispatch(c2, PassHandler, w).conn, Authorization).(current := Some(Transaction)), listing);
  }

  lemma PassAnswer(s: Session, listing: seq<(string, seq<Byte>)>)
    requires s == NewSession().(user := [97])
    ensures HandlePass([98], s, MailServer(listing)) == Outcome(s, Transaction, Ascii("+OK logged in\r\n"), [])
  {
  }

  lemma MailsFound(c: Conn, listing: seq<(string, seq<Byte>)>)
    requires c.session.mails == [] && c.session.slots == 0
    ensures var c1 := LoadMails(c, MailServer(listing));
            && c1.session.mails == Loaded(MailServer(listing)) && TableFits(c1.session)
            && c1 == c.(session := c1.session, readIndex := c1.readIndex, hist := c1.hist)
            && c1.hist.partial == c.hist.partial
  {
    hide TotalSize;
  }

  // ---- RETR with a full buffer ----

  function OneMail(): seq<(string, seq<Byte>)> {
    [("mail", OneDotMail())]
  }

  /** The first piece of the mail fills the output buffer to the last octet. */
  predicate Full(c: Conn) {
    && Inv(c) && c.open && c.current == Some(Transaction) && c.lastState.Some? && !c.finished && !c.astray
    && c.outq.Room() == 0 && |c.outq.unread| > 2 && c.interest == OP_WRITE
  }

  lemma FirstPiece(start: Flag)
    ensures var p, content := Progress(true, start, 0), OneDotMail();
            && !Overruns(BUFFER_SIZE, p) && !IsLast(BUFFER_SIZE, p, content)
            && Chunk(BUFFER_SIZE, p, content) == [CR, LF, DOT] + seq(4071, i => SP)
  {
    var p, content := Progress(true, start, 0), OneDotMail();
    assert |HEADER| == 21 && RoomForBody(BUFFER_SIZE, p) == 4075 && |content| == 4075;
    assert Chunk(BUFFER_SIZE, p, content) == [CR, LF, DOT] + seq(4071, i => SP);
  }

  lemma FirstPieceFills(start: Flag)
    ensures var p, content := Progress(true, start, 0), OneDotMail();
            && !Overruns(BUFFER_SIZE, p)
            && |Queued(BUFFER_SIZE, p, content)| == BUFFER_SIZE && !After(BUFFER_SIZE, p, content).finished
  {
    hide Overruns, IsLast, Chunk, Queued, OneDotMail, Stuff, StuffedDots, FlagAfter;
    var p, content := Progress(true, start, 0), OneDotMail();
    FirstPiece(start);
    var chunk, filler := Chunk(BUFFER_SIZE, p, content), seq(4071, i => SP);
    OneDot(start, filler);
    StuffLength(start, chunk);
    CallCuts(BUFFER_SIZE, p, content);
    assert |Wanted(BUFFER_SIZE, p, content)| == 21 + |Stuff(start, chunk)| == BUFFER_SIZE;
  }

  lemma {:induction false} OneDot(f: Flag, filler: seq<Byte>)
    requires forall i :: 0 <= i < |filler| ==> filler[i] == SP
    ensures StuffedDots(f, [CR, LF, DOT] + filler) == 1
  {
    NoDotsInFiller(SawLf, filler);
    var a: seq<Byte> := [DOT] + filler;
    var b: seq<Byte> := [LF] + a;
    var s: seq<Byte> := [CR, LF, DOT] + filler;
    assert a[1..] == filler && b[1..] == a && s[1..] == b;
    assert StuffedDots(SawLf, a) == 1;
    assert StuffedDots(SawCr, b) == 1;
  }

  lemma OneMailLoaded()
    ensures Loaded(MailServer(OneMail())) == [Mail("mail", OneDotMail(), false)]
  {
    hide OneDotMail;
  }

  lemma FourthEvent(c: Conn)
    requires LoggedIn(c, OneMail(), RETR_LINE)
    ensures Full(Step(c, Writable(MailServer(OneMail()), Some(100), Some(0), RecvFailed)))
  {
    hide Core, Tracks, ReadCommand, ValidLine, Lookup, CString, OneDotMail, StmRead, LoadMails, Dispatch, MailNumber,
         Loaded, OneMail;
    var w := MailServer(OneMail());
    StepKeeps(c, Writable(w, Some(100), Some(0), RecvFailed));
    DrainedThenRead(c, w);
    LinesAreValid();
    WordsAreWhole();
    RetrIsInTable();
    var c1 := c.(outq := Empty(BUFFER_SIZE), interest := OP_NOOP, hist := c.hist.(wire := c.hist.wire + c.outq.unread));
    var command := Lookup(Ascii("RETR"), Transaction).value;
    assert RETR_LINE + [] == RETR_LINE;
    var c2 := LineDispatched(c1, w, RecvFailed, RETR_LINE, [], command);
    OneMailLoaded();
    FirstCall(c2, w);
  }

  lemma RetrIsInTable()
    ensures var found := Lookup(Ascii("RETR"), Transaction);
            found.Some? && found.value.handler == RetrHandler && found.value.arguments == Required
    ensures MailNumber([49]) == 1
  {
    hide Lookup, MailNumber;
    RetrIsFound(Ascii("RETR"));
    LookupSuits(Ascii("RETR"), Transaction);
    MailNumberOfDecimal(1);
    assert Decimal(1) == [49];
  }

  /** The first call of retr_handler, into an empty buffer. */
  lemma FirstCall(c: Conn, w: World)
    requires Core(c) && c.finished && !c.astray && StateOf(c) == Transaction && c.outq == Empty(BUFFER_SIZE)
    requires w.mailOpens
    requires c.session.mails == [Mail("mail", OneDotMail(), false)] && MailNumber(CString(c.reader.argument)) == 1
    ensures var t := Dispatch(c, RetrHandler, w);
            && t.next == Some(Transaction) && !t.conn.finished && !t.conn.astray && t.conn.outq.Room() == 0
            && |t.conn.outq.unread| > 2 && t.conn.interest == OP_WRITE && SameControl(c, t.conn)
  {
    hide CString, MailNumber, OneDotMail, Queued, After, CallFits, Overruns, BuffersOk, TransferOk, DeliveriesOk,
         SameIgnoringCase;
    assert c.readIndex == [0];
    FirstPieceFills(c.flag);
  }

  lemma FullIsDefined(c: Conn)
    requires Full(c)
    ensures !c.astray
  {
    hide Inv;
  }

  lemma BuffersValid(c: Conn)
    requires Core(c)
    ensures c.outq.Valid()
  {
  }

  lemma FifthEvent(c: Conn)
    requires Full(c)
    ensures Step(c, Writable(MailServer(OneMail()), Some(1), Some(1), RecvFailed)).astray
  {
    hide Core, Tracks, ReadCommand, OneMail, StmRead, Send;
    var w := MailServer(OneMail());
    BuffersValid(c);
    OneOctetLess(c);
    SendKeeps(c, Some(1));
    var c1 := Send(c, Some(1)).(interest := OP_READ);
    CoreDepends(Send(c, Some(1)), c1);
    BuffersValid(c1);
    OneOctetLess(c1);
    SendKeeps(c1, Some(1));
    var c2 := Send(c1, Some(1)).(interest := OP_NOOP);
    CoreDepends(Send(c1, Some(1)), c2);
    StayPut(c1, w);
    SecondCall(c2, w);
  }

  /** Sending part of the output makes no room. */
  lemma OneOctetLess(c: Conn)
    requires c.outq.Valid() && c.outq.Room() == 0 && |c.outq.unread| > 1
    ensures var c1 := Send(c, Some(1));
            c1.outq.Room() == 0 && |c1.outq.unread| == |c.outq.unread| - 1
            && c1 == c.(outq := c1.outq, hist := c1.hist) && c1.hist.partial == c.hist.partial
  {
  }

  lemma SecondCall(c: Conn, w: World)
    requires Inv(c) && c.open && c.current == Some(Transaction) && !c.finished && c.outq.Room() == 0
    ensures StmRead(c, w, RecvFailed).astray
  {
    hide CString, MailNumber, SameIgnoringCase, RunRetr, BuffersOk, TransferOk, DeliveriesOk, Tracks, ReadBuffered,
         GoesAstray;
    TransferResumes(c, w);
    RetrUnderWay(c);
    var i := MailNumber(CString(c.reader.argument)) - 1;
    OverrunAt(c.(hist := Record(c, RetrHandler, w)), i);
  }

  lemma OverrunAt(c: Conn, i: nat)
    requires i < |c.readIndex| && i < |c.session.mails| && !c.finished && c.outq.Room() == 0
    ensures RunRetr(c, i).astray
  {
    hide Queued, After, CallFits;
  }

  /** The five callbacks, and where they lead: only the last of them goes astray. */
  lemma OverrunHappens() returns (r: Run)
    ensures r.Valid() && |r.events| == 5 && r.Defined(4) && !r.Defined(5)
  {
    hide Step, Greeted, Named, LoggedIn, Full, Initial, MailServer, OneMail;
    var w := MailServer(OneMail());
    var e0, e1 := Writable(w, Some(23), Some(0), RecvFailed), Readable(w, Segment(USER_LINE + (PASS_LINE + RETR_LINE)));
    var e2, e4 := Writable(w, Some(100), Some(0), RecvFailed), Writable(w, Some(1), Some(1), RecvFailed);
    var c1 := Step(Initial(), e0);
    FirstEvent(w);
    var c2 := Step(c1, e1);
    SecondEvent(c1, OneMail(), RETR_LINE);
    var c3 := Step(c2, e2);
    ThirdEvent(c2, OneMail(), RETR_LINE);
    var c4 := Step(c3, e2);
    FourthEvent(c3);
    var c5 := Step(c4, e4);
    FifthEvent(c4);
    FullIsDefined(c4);
    r := Run([e0, e1, e2, e2, e4], [Initial(), c1, c2, c3, c4, c5]);
  }

  // ---- LIST without mails ----

  lemma ListIsSixth(name: seq<Byte>)
    requires name == Ascii("LIST")
    ensures forall j: nat :: j < 5 ==> !IsFor(COMMANDS[j], name, Transaction)
    ensures IsFor(COMMANDS[5], name, Transaction)
  {
    assert name[0] == 76 && Ascii("STAT")[0] == 83;
    assert COMMANDS[4].name[0] == 83;
  }

  lemma ListIsInTable()
    ensures Lookup(Ascii("LIST"), Transaction) == Some(COMMANDS[5])
  {
    hide IsFor, LookupIn, Ascii;
    var name := Ascii("LIST");
    ListIsSixth(name);
    LookupFrom(0, name, Transaction);
    LookupFrom(1, name, Transaction);
    LookupFrom(2, name, Transaction);
    LookupFrom(3, name, Transaction);
    LookupFrom(4, name, Transaction);
    LookupFrom(5, name, Transaction);
  }

  lemma ListEvent(c: Conn)
    requires LoggedIn(c, [], LIST_LINE)
    ensures Step(c, Writable(MailServer([]), Some(100), Some(0), RecvFailed)).astray
  {
    hide Core, Tracks, ReadCommand, ValidLine, Lookup, CString, StmRead, LoadMails, Dispatch, Step, TableFits,
         LeavesTable;
    var w := MailServer([]);
    DrainedThenRead(c, w);
    LinesAreValid();
    WordsAreWhole();
    ListIsInTable();
    var c1 := c.(outq := Empty(BUFFER_SIZE), interest := OP_NOOP, hist := c.hist.(wire := c.hist.wire + c.outq.unread));
    assert LIST_LINE + [] == LIST_LINE;
    var c2 := LineDispatched(c1, w, RecvFailed, LIST_LINE, [], COMMANDS[5]);
    assert Decimal(1) == [49];
    ListOfNothing(c.session);
    ListGoesAstray(c2, w);
    SameState(Dispatch(c2, ListHandler, w).conn, Transaction, w);
  }

  lemma ListGoesAstray(c: Conn, w: World)
    requires c.reader.argumentLength > 0 && LeavesTable(CString(c.reader.argument), c.session)
    ensures var t := Dispatch(c, ListHandler, w);
            t.conn.astray && t.next == Some(Transaction) && t.conn.current == c.current
  {
    hide CString, LeavesTable, Cleaned;
  }

  lemma LoggedInIsDefined(c: Conn, listing: seq<(string, seq<Byte>)>, last: seq<Byte>)
    requires LoggedIn(c, listing, last)
    ensures !c.astray
  {
    hide Inv, Loaded;
  }

  /** A client logs in to an empty directory and sends LIST 1. */
  lemma ListOfNothingHappens() returns (r: Run)
    ensures r.Valid() && |r.events| == 4 && r.Defined(3) && !r.Defined(4)
    ensures r.states[3].session.mails == []
  {
    hide Step, Greeted, Named, Initial, MailServer;
    var w := MailServer([]);
    var e0, e1 := Writable(w, Some(23), Some(0), RecvFailed), Readable(w, Segment(USER_LINE + (PASS_LINE + LIST_LINE)));
    var e2 := Writable(w, Some(100), Some(0), RecvFailed);
    var c1 := Step(Initial(), e0);
    FirstEvent(w);
    var c2 := Step(c1, e1);
    SecondEvent(c1, [], LIST_LINE);
    var c3 := Step(c2, e2);
    ThirdEvent(c2, [], LIST_LINE);
    var c4 := Step(c3, e2);
    ListEvent(c3);
    LoggedInIsDefined(c3, [], LIST_LINE);
    NothingLoaded();
    r := Run([e0, e1, e2, e2], [Initial(), c1, c2, c3, c4]);
  }

  lemma NothingLoaded()
    ensures Loaded(MailServer([])) == []
  {
  }

  // ---- A line end that comes late ----

  const GARBAGE: seq<Byte> := Ascii("ABCDE")
  const LINE_END: seq<Byte> := [CR, LF]

  /** A name of five octets is found out at the fifth. */
  lemma {:induction false} NameTooLong(c: Conn, w: World, n: nat) returns (c1: Conn)
    requires Ready(c) && c.finished && c.reader.state == InCommand && 1 <= n <= |c.inq.unread|
    requires c.reader.commandLength + n == 5 && NoneOf(c.inq.unread[..n], {SP, CR})
    ensures ReadLines(c, StateOf(c), w) == OnInvalid(c1, c.inq.unread[n - 1])
    ensures c1 == c.(reader := c1.reader, inq := c1.inq, hist := c1.hist) && c1.inq.unread == c.inq.unread[n..]
    ensures c1.hist == c.hist.(consumed := c1.hist.consumed, partial := c1.hist.partial)
    decreases n
  {
    hide Tracks, OnInvalid, OnValid, ReadLines, Core, ValidLine;
    var u, b := c.inq.unread, c.inq.unread[0];
    assert u[..n][0] == b;
    FeedCases(c.reader, b);
    OctetFed(c);
    ReadLinesOnce(c, StateOf(c), w);
    FeedOctetKeeps(c);
    c1 := FeedOctet(c);
    if n > 1 {
      assert u[1..][..n - 1] == u[..n][1..] && u[1..][n - 1..] == u[n..];
      c1 := NameTooLong(c1, w, n - 1);
    }
  }

  lemma CleanAtLineStart(c: Conn)
    requires Tracks(c.reader, [])
    ensures c.reader.state == InCommand && c.reader.commandLength == 0
  {
  }

  /** The connection after ABCDE and what came with it. */
  predicate Refused(c: Conn, received: seq<Byte>) {
    && Inv(c) && c.open && c.current == Some(Error) && c.lastState == Some(Authorization) && !c.astray
    && c.hist.received == received && c.inq == Empty(BUFFER_SIZE) && c.outq == Empty(BUFFER_SIZE)
    && c.interest == OP_WRITE && |c.hist.heard| == 1
  }

  lemma SkipsOfGarbage()
    ensures SkipLine([], false) == 0 && SkipLine([LF], true) == 1 && SkipLine(LINE_END, false) == 2
  {
    assert LINE_END[1..] == [LF];
  }

  lemma GarbageIsPlain(rest: seq<Byte>)
    ensures NoneOf((GARBAGE + rest)[..5], {SP, CR}) && (GARBAGE + rest)[5..] == rest && (GARBAGE + rest)[4] != CR
  {
    assert (GARBAGE + rest)[..5] == GARBAGE;
  }

  lemma EmptyInput(c: Conn)
    requires Inv(c)
    ensures c.inq.unread == [] ==> c.inq == Empty(BUFFER_SIZE)
  {
    hide TransfersOk, Tracks, Control;
  }

  /** The parser finds ABCDE out, and the line end is skipped if it is there. */
  lemma GarbageFound(c: Conn, w: World, rest: seq<Byte>)
    requires Between(c, Authorization) && c.inq.unread == GARBAGE + rest && c.hist.heard == []
    requires rest == [] || rest == LINE_END
    ensures var after := StmRead(c, w, RecvFailed);
            && after.current == Some(Error) && after.lastState == Some(Authorization) && after.open && !after.astray
            && after.hist.received == c.hist.received && after.inq.unread == [] && after.outq == c.outq
            && after.interest == OP_WRITE && |after.hist.heard| == 1
  {
    hide Core, Tracks, StmRead, ReadLines, OnInvalid, ValidLine, NoneOf, SkipLine;
    GarbageIsPlain(rest);
    CleanAtLineStart(c);
    var c2 := NameTooLong(c, w, 5);
    LinesAreRead(c, w);
    SkipsOfGarbage();
    InvalidIs(c2, (GARBAGE + rest)[4], |rest|);
    EntersError(OnInvalid(c2, (GARBAGE + rest)[4]).conn, w);
  }

  /** ABCDE, with the line end in the same segment or without it. */
  lemma GarbageRead(w: World, rest: seq<Byte>)
    requires rest == [] || rest == LINE_END
    ensures Refused(Step(AfterWelcome(), Readable(w, Segment(GARBAGE + rest))), GARBAGE + rest)
  {
    hide Inv, Step, StmRead, Take;
    var c := AfterWelcome();
    AfterWelcomeGreets();
    StepKeeps(c, Readable(w, Segment(GARBAGE + rest)));
    ReadableReads(c, w, Segment(GARBAGE + rest));
    ReceivedFirst(c, w, GARBAGE + rest);
    var c1 := Receive(c, GARBAGE + rest);
    assert c1.inq.unread == GARBAGE + rest && c1.hist.received == GARBAGE + rest;
    GarbageFound(c1, w, rest);
    EmptyInput(StmRead(c1, w, RecvFailed));
  }

  lemma AfterWelcomeGreets()
    ensures Greeted(AfterWelcome()) && AfterWelcome().hist.heard == [] && AfterWelcome().hist.received == []
  {
    hide Inv, Step, Greeted;
    var nowhere := World([], 0, false, [], false);
    FirstEvent(nowhere);
    WelcomeSent(nowhere);
    assert Greeted(AfterWelcome());
  }

  lemma {:induction false} LinesAreRead(c: Conn, w: World)
    requires Between(c, StateOf(c)) && c.inq.unread != []
    ensures var t := ReadLines(c, StateOf(c), w);
            StmRead(c, w, RecvFailed) == Jump(t.conn, t.next, w)
  {
    hide ReadLines, Jump, Core, Tracks;
  }

  lemma InvalidIs(c: Conn, b: Byte, n: nat)
    requires c.finished && SkipLine(c.inq.unread, b == CR) == n == |c.inq.unread|
    ensures var t := OnInvalid(c, b);
            && t.next == Some(Error) && t.conn.inq == c.inq.Advance(n) && SameControl(c, t.conn)
            && t.conn.outq == c.outq && t.conn.astray == c.astray && t.conn.session == c.session
            && t.conn.hist.heard == c.hist.heard + [Garbage] && t.conn.hist.received == c.hist.received
  {
    hide Cleaned, EndsLine;
  }

  lemma EntersError(c: Conn, w: World)
    requires c.current == Some(Authorization)
    ensures var after := Jump(c, Some(Error), w);
            && after.current == Some(Error) && after.lastState == Some(Authorization) && after.interest == OP_WRITE
            && after.open == c.open && after.astray == c.astray && after.inq == c.inq && after.outq == c.outq
            && after.hist == c.hist
  {
  }

  /** The error is answered, and the client takes the answer. */
  lemma ErrorAnswered(c: Conn, w: World, received: seq<Byte>)
    requires Refused(c, received)
    ensures var c1 := Step(c, Writable(w, Some(0), Some(100), RecvFailed));
            && Between(c1, Authorization) && c1.hist.received == received && c1.inq == Empty(BUFFER_SIZE)
            && c1.interest == OP_READ && |c1.hist.heard| == 1
  {
    hide Core, Tracks, Reply;
    var e := Writable(w, Some(0), Some(100), RecvFailed);
    StepKeeps(c, e);
    var c1 := Reply(c, UNKNOWN_COMMAND);
    ReplyFrame(c, UNKNOWN_COMMAND);
    assert StmWrite(c, w, Some(0)) == c1.(current := Some(Authorization), lastState := Some(Error));
  }

  /** The late line end is taken for a second malformed line. */
  lemma LineEndRead(c: Conn, w: World)
    requires Between(c, Authorization) && c.inq == Empty(BUFFER_SIZE) && c.interest == OP_READ
    ensures var after := Step(c, Readable(w, Segment(LINE_END)));
            && after.hist.received == c.hist.received + LINE_END && after.inq.unread == []
            && |after.hist.heard| == |c.hist.heard| + 1 && !after.astray
  {
    hide Core, Tracks, Step, StmRead, ReadLines, OnInvalid, Take, ValidLine, SkipLine;
    ReadableReads(c, w, Segment(LINE_END));
    ReceivedFirst(c, w, LINE_END);
    var c1 := Receive(c, LINE_END);
    assert c1.inq.unread == LINE_END;
    CleanAtLineStart(c1);
    FeedCases(c1.reader, CR);
    ReadLinesOnce(c1, Authorization, w);
    LinesAreRead(c1, w);
    SkipsOfGarbage();
    assert FeedOctet(c1).inq.unread == [LF];
    InvalidIs(FeedOctet(c1), CR, 1);
    EntersError(OnInvalid(FeedOctet(c1), CR).conn, w);
  }

  /** Two connections have received ABCDE CR LF and read all of it. If the line end comes with ABCDE it is one malformed
      line; if it comes later, resynchronisation is lost and it is two. */
  lemma LateLineEnd() returns (one: Run, other: Run)
    ensures one.Valid() && |one.events| == 2 && one.Defined(2)
    ensures other.Valid() && |other.events| == 4 && other.Defined(4)
    ensures one.states[2].hist.received == other.states[4].hist.received == GARBAGE + LINE_END
    ensures one.states[2].inq.unread == other.states[4].inq.unread == []
    ensures |one.states[2].hist.heard| == 1 && |other.states[4].hist.heard| == 2
  {
    hide Step, Initial, Inv;
    var w := World([], 0, false, [], false);
    var e0, e1 := Writable(w, Some(23), Some(0), RecvFailed), Readable(w, Segment(GARBAGE + LINE_END));
    var e2, e3 := Readable(w, Segment(GARBAGE + [])), Writable(w, Some(0), Some(100), RecvFailed);
    var e4 := Readable(w, Segment(LINE_END));
    WelcomeSent(w);
    var c1 := Step(Initial(), e0);
    var d2 := Step(c1, e1);
    GarbageRead(w, LINE_END);
    var c2 := Step(c1, e2);
    GarbageRead(w, []);
    var c3 := Step(c2, e3);
    ErrorAnswered(c2, w, GARBAGE + []);
    var c4 := Step(c3, e4);
    LineEndRead(c3, w);
    assert (GARBAGE + []) + LINE_END == GARBAGE + LINE_END;
    one := Run([e0, e1], [Initial(), c1, d2]);
    other := Run([e0, e2, e3, e4], [Initial(), c1, c2, c3, c4]);
  }
}
