/** struct connection_data with the functions of server/stm/pop3_stm.c, lib/stm.c and server/pop3.c that work on it,
    each proved to do what the step machine of module Engine says. What recv, send and the file system answer is passed
    in. */
module Connections {
  import opened Bytes
  import opened Queues
  import opened Buffers
  import opened Stuffing
  import opened Retr
  import opened CommandParser
  import opened Parsers
  import opened Sessions
  import opened Interests
  import opened Engine
  import opened Running

  /** The argument as strcmp and atoi see it. */
  function ArgumentOf(c: Conn): seq<Byte> {
    CString(c.reader.argument)
  }

  /** The connection after a handler that has produced this outcome, before and after its reply. */
  function Updated(c: Conn, o: Outcome): Conn {
    c.(session := o.session,
       readIndex := if o.session.mails == [] then [] else c.readIndex,
       hist := c.hist.(removed := c.hist.removed + o.removed))
  }

  function Applied(c: Conn, o: Outcome): Conn {
    Reply(Updated(c, o), o.reply)
  }

  /** A handler that removes nothing changes the session only. */
  lemma SessionUpdated(c: Conn, o: Outcome)
    requires o.removed == []
    ensures Updated(c, o) == c.(session := o.session, readIndex := if o.session.mails == [] then [] else c.readIndex)
  {
    assert c.hist.removed + [] == c.hist.removed;
  }

  lemma UnmarkedLength(mails: seq<Mail>)
    ensures |Unmarked(mails)| == |mails|
  {
  }

  /** A handler that leaves the session alone changes nothing before its reply. */
  lemma SessionKept(c: Conn, o: Outcome)
    requires o.removed == [] && o.session == c.session && |c.readIndex| == |c.session.mails|
    ensures Updated(c, o) == c
  {
    SessionUpdated(c, o);
  }

  /** What dele_handler answers. */
  lemma DeleAnswer(argument: seq<Byte>, s: Session)
    ensures var o, n := HandleDele(argument, s), MailNumber(argument);
            && o.next == Transaction && o.removed == []
            && o.reply == (if Exists(s, n) then Ascii("+OK message ") + PrintInt(n) + Ascii(" deleted\r\n.\r\n")
                           else Ascii("-ERR no such message\r\n"))
            && (!Exists(s, n) ==> o.session == s)
  {
    hide MailNumber, Ascii, PrintInt;
  }

  /** A handler call without its entry in the history. */
  function Called(c: Conn, h: Handler, w: World): Turn
    requires |c.readIndex| == |c.session.mails|
  {
    var n := MailNumber(ArgumentOf(c));
    if GoesAstray(c, h, w) then Turn(c.(astray := true), Some(Transaction))
    else if h == RetrHandler && Exists(c.session, n) then Turn(RunRetr(c, n - 1), Some(Transaction))
    else
      var o := Handle(h, StateOf(c), c.reader.argumentLength > 0, ArgumentOf(c), c.session, w);
      var done := Applied(c, o);
      Turn(if h == NoopHandler then done.(finished := true)
           else if h == CapaHandler then done.(interest := OP_READ)
           else done, Some(o.next))
  }

  lemma RunIsCalled(c: Conn, h: Handler, w: World)
    requires |c.readIndex| == |c.session.mails|
    ensures RunHandler(c, h, w) == Called(c.(hist := Record(c, h, w)), h, w)
  {
    hide Handle, CString, MailNumber, RunRetr, RunOther, Applied, Record, LeavesTable;
    OtherIsApplied(c, h, w);
  }

  lemma OtherIsApplied(c: Conn, h: Handler, w: World)
    ensures var o := Handle(h, StateOf(c), c.reader.argumentLength > 0, CString(c.reader.argument), c.session, w);
            var done := Applied(c.(hist := Record(c, h, w)), o);
            RunOther(c, h, w) == Turn(if h == NoopHandler then done.(finished := true)
                                      else if h == CapaHandler then done.(interest := OP_READ)
                                      else done, Some(o.next))
  {
    hide Handle, CString;
  }

  /** One octet of the parser loop. */
  lemma ParseStep(c: Conn)
    requires Reading(c) && c.finished && c.inq.unread != []
    ensures var c1 := FeedOctet(c);
            && |c1.inq.unread| == |c.inq.unread| - 1
            && IndexesOk(c1) && c1.current == c.current && c1.finished
            && (c1.reader.event == Undefined ==> Reading(c1))
  {
    hide Tracks, TransferOk, DeliveriesOk, BuffersOk, Feed;
    FeedOctetKeeps(c);
  }

  lemma ReceiveNothing(c: Conn)
    ensures Receive(c, []) == c
  {
    assert c.inq.unread + [] == c.inq.unread && c.hist.received + [] == c.hist.received;
  }

  /** A transfer under way finds RETR in the table. */
  lemma ResumeReady(c: Conn)
    requires Reading(c) && !c.finished
    ensures var found := Lookup(CString(c.reader.command), StateOf(c));
            && found.Some? && Suits(found.value.handler, StateOf(c)) && IndexesOk(c)
  {
    hide SameIgnoringCase, MailNumber, TransferOk, DeliveriesOk;
    RetrIsFound(CString(c.reader.command));
  }

  lemma {:induction false} SizeAccumulates(base: nat, mails: seq<Mail>, mail: Mail)
    ensures TotalSize([]) == 0
    ensures ((base + TotalSize(mails)) % SIZE_T + |mail.content|) % SIZE_T
             == (base + TotalSize(mails + [mail])) % SIZE_T
  {
    assert (mails + [mail])[..|mails|] == mails;
  }

  /** A read callback of an open connection in AUTHORIZATION or TRANSACTION may read, and stays open until it jumps. */
  lemma ReadReadyIn(c: Conn, w: World, r: Recv)
    requires Inv(c) && c.open && (c.current == Some(Authorization) || c.current == Some(Transaction))
    ensures Reading(c)
    ensures Engine.ReadCommand(c, StateOf(c), w, r).conn.open
  {
    hide Core, Tracks, Engine.ReadCommand;
    ReadCommandKeeps(c, w, r);
  }

  /** A connection that is interested in reading has entered its first state. */
  lemma ReadableIsLive(c: Conn, w: World, r: Recv)
    requires Inv(c) && Enabled(c, Readable(w, r))
    ensures c.current.Some?
  {
    hide Core, Tracks;
  }

  lemma SendKeepsInv(c: Conn, sent: Option<nat>)
    requires Inv(c) && c.open && c.current.Some?
    ensures var c' := Send(c, sent);
            && Inv(c') && Inv(c'.(interest := OP_NOOP)) && c'.open && c'.current.Some?
            && c'.session == c.session && c'.finished == c.finished
            && (sent.None? ==> c' == c)
  {
    hide Core, Tracks, Send;
    SendKeeps(c, sent);
    SendNothing(c);
    CoreDepends(Send(c, sent), Send(c, sent).(interest := OP_NOOP));
  }

  lemma SendNothing(c: Conn)
    ensures Send(c, None) == c
  {
  }

  lemma RecordKeepsIndexes(c: Conn, h: Handler, w: World)
    requires IndexesOk(c)
    ensures IndexesOk(c.(hist := Record(c, h, w)))
  {
    hide CString, MailNumber, SameIgnoringCase;
  }

  /** Queuing a message in two parts is queuing it at once. */
  lemma ReplySplits(c: Conn, a: seq<Byte>, b: seq<Byte>)
    requires c.outq.Valid()
    ensures Reply(Reply(c, a), b) == Reply(c, a + b)
  {
    OfferSplits(c.outq, a, b);
    assert c.hist.accepted + Take(a, c.outq.Room()) + Take(b, c.outq.Offer(a).Room())
        == c.hist.accepted + (Take(a, c.outq.Room()) + Take(b, c.outq.Offer(a).Room()));
  }

  /** %zu of a number that names a slot. */
  lemma ListNumber(value: int)
    ensures ((value - 1) % SIZE_T + 1) % SIZE_T == value % SIZE_T
  {
  }

  lemma NothingListed(mails: seq<Mail>)
    ensures ListLines(mails[..0]) == []
  {
  }

  lemma {:induction false} ListLineNext(c: Conn, mails: seq<Mail>)
    requires c.outq.Valid() && mails != []
    ensures var ok, mail := Ascii("+OK\r\n"), mails[|mails| - 1];
            var before := Reply(c, ok + ListLines(mails[..|mails| - 1]));
            Reply(c, ok + ListLines(mails))
            == if mail.deleted then before
                     else Reply(before, Decimal(|mails|) + [SP] + Decimal(|mail.content|) + [CR, LF])
  {
    hide Decimal, Reply, Ascii;
    var ok, lines, mail := Ascii("+OK\r\n"), ListLines(mails[..|mails| - 1]), mails[|mails| - 1];
    var line := Decimal(|mails|) + [SP] + Decimal(|mail.content|) + [CR, LF];
    if mail.deleted {
      assert ok + (lines + []) == ok + lines;
    } else {
      ReplySplits(c, ok + lines, line);
      assert ok + (lines + line) == (ok + lines) + line;
    }
  }

  // ---- retr_handler in steps ----

  /** After the copying loop over chunk. */
  function Copied(c: Conn, i: nat, chunk: seq<Byte>): Conn
    requires i < |c.readIndex|
  {
    Reply(c, Stuff(c.flag, chunk)).(flag := FlagAfter(c.flag, chunk),
                                    readIndex := c.readIndex[i := c.readIndex[i] + |chunk|])
  }

  /** After the loop and, for the last piece, the end marker. */
  function PieceCopied(c: Conn, i: nat, chunk: seq<Byte>, last: bool): Conn
    requires i < |c.readIndex|
  {
    var c1 := Copied(c, i, chunk);
    if last then Reply(c1, END_MARK).(finished := true, readIndex := c1.readIndex[i := 0])
    else c1.(finished := false)
  }

  lemma CopiedNothing(c: Conn, i: nat)
    requires i < |c.readIndex|
    ensures Copied(c, i, []) == c
  {
    ReplyNothing(c);
    assert c.readIndex[i := c.readIndex[i]] == c.readIndex;
  }

  lemma {:induction false} CopiedSize(c: Conn, i: nat, chunk: seq<Byte>)
    requires i < |c.readIndex|
    ensures |Copied(c, i, chunk).readIndex| == |c.readIndex|
  {
    hide Reply, Stuff, FlagAfter;
  }

  /** Reply has nothing to do with the progress of a transfer. */
  lemma ReplyCommutes(c: Conn, message: seq<Byte>, flag: Flag, readIndex: seq<nat>)
    ensures Reply(c.(flag := flag, readIndex := readIndex), message)
            == Reply(c, message).(flag := flag, readIndex := readIndex)
  {
  }

  /** One octet more of a chunk. */
  lemma {:induction false} CopiedNext(c: Conn, i: nat, chunk: seq<Byte>, k: nat)
    requires c.outq.Valid() && i < |c.readIndex| && k < |chunk|
    ensures Copied(c, i, chunk[..k + 1]) == Copied(Copied(c, i, chunk[..k]), i, [chunk[k]])
  {
    hide Reply, Stuff, FlagAfter;
    var a, b := chunk[..k], [chunk[k]];
    assert chunk[..k + 1] == a + b;
    StuffAppend(c.flag, a, b);
    var flag := FlagAfter(c.flag, a);
    ReplySplits(c, Stuff(c.flag, a), Stuff(flag, b));
    ReplyCommutes(Reply(c, Stuff(c.flag, a)), Stuff(flag, b), flag, c.readIndex[i := c.readIndex[i] + k]);
    assert |chunk[..k]| == k;
  }

  /** What one octet becomes, written in one or two steps. */
  lemma CopiedOctet(c: Conn, i: nat, b: Byte)
    requires c.outq.Valid() && i < |c.readIndex|
    ensures var flag, readIndex := NextFlag(c.flag, b), c.readIndex[i := c.readIndex[i] + 1];
            var m := c.(flag := flag);
            Copied(c, i, [b]) == (if b == DOT && c.flag == SawLf then Reply(Reply(m, [DOT]), [b])
                                  else Reply(m, [b])).(readIndex := readIndex)
  {
    hide Reply, Stuff, FlagAfter;
    StuffOne(c.flag, b);
    var m := c.(flag := NextFlag(c.flag, b));
    ReplyCommutes(c, Emit(c.flag, b), NextFlag(c.flag, b), c.readIndex);
    if b == DOT && c.flag == SawLf {
      assert [DOT] + [b] == Emit(c.flag, b);
      ReplySplits(m, [DOT], [b]);
    }
  }

  /** A piece is one reply. */
  lemma {:induction false} PieceIsReply(c: Conn, i: nat, chunk: seq<Byte>, last: bool)
    requires c.outq.Valid() && i < |c.readIndex|
    ensures PieceCopied(c, i, chunk, last)
            == Reply(c, Stuff(c.flag, chunk) + (if last then END_MARK else []))
               .(flag := FlagAfter(c.flag, chunk), finished := last,
                 readIndex := c.readIndex[i := if last then 0 else c.readIndex[i] + |chunk|])
  {
    hide Reply, Stuff, FlagAfter, Copied;
    if last {
      LastPieceIsReply(c, i, chunk);
    } else {
      CopiedIs(c, i, chunk);
      assert Stuff(c.flag, chunk) + [] == Stuff(c.flag, chunk);
    }
  }

  lemma {:induction false} LastPieceIsReply(c: Conn, i: nat, chunk: seq<Byte>)
    requires c.outq.Valid() && i < |c.readIndex|
    ensures PieceCopied(c, i, chunk, true)
            == Reply(c, Stuff(c.flag, chunk) + END_MARK)
               .(flag := FlagAfter(c.flag, chunk), finished := true, readIndex := c.readIndex[i := 0])
  {
    hide Reply, Stuff, FlagAfter, Copied;
    var body, c1 := Stuff(c.flag, chunk), Copied(c, i, chunk);
    ReplySplits(c, body, END_MARK);
    CopiedIs(c, i, chunk);
    ReplyCommutes(Reply(c, body), END_MARK, c1.flag, c1.readIndex);
    assert c1.readIndex[i := 0] == c.readIndex[i := 0];
  }

  lemma {:induction false} CopiedIs(c: Conn, i: nat, chunk: seq<Byte>)
    requires i < |c.readIndex|
    ensures Copied(c, i, chunk)
            == Reply(c, Stuff(c.flag, chunk)).(flag := FlagAfter(c.flag, chunk),
                                               readIndex := c.readIndex[i := c.readIndex[i] + |chunk|])
  {
    hide Reply, Stuff, FlagAfter;
  }

  /** The three writes of retr_handler, from the connection m reached after the header, queue what SendPiece says. */
  lemma {:induction false} PieceIsSent(c: Conn, i: nat, m: Conn)
    requires c.outq.Valid() && i < |c.readIndex| && i < |c.session.mails| && !Overruns(c.outq.Room(), ProgressOf(c, i))
    requires m == Reply(c, Header(ProgressOf(c, i)))
    ensures var content, p, room := c.session.mails[i].content, ProgressOf(c, i), c.outq.Room();
            var piece := PieceCopied(m, i, Chunk(room, p, content), IsLast(room, p, content));
            && SendPiece(c, i) == piece.(hist := SendPiece(c, i).hist)
            && SendPiece(c, i).hist.accepted == piece.hist.accepted && SendPiece(c, i).hist.cut == piece.hist.cut
  {
    hide Header, Stuff, FlagAfter, Chunk, IsLast, CallFits, Queued, Wanted, PieceCopied;
    var content, p, room := c.session.mails[i].content, ProgressOf(c, i), c.outq.Room();
    var chunk, last := Chunk(room, p, content), IsLast(room, p, content);
    ReplyRoom(c, Header(p));
    PieceIsReply(m, i, chunk, last);
    WantedIsReplied(c, i);
    CallCuts(room, p, content);
    WantedLength(room, p, content);
  }

  lemma WantedIsReplied(c: Conn, i: nat)
    requires c.outq.Valid() && i < |c.readIndex| && i < |c.session.mails| && !Overruns(c.outq.Room(), ProgressOf(c, i))
    ensures var content, p, room := c.session.mails[i].content, ProgressOf(c, i), c.outq.Room();
            Reply(Reply(c, Header(p)),
                  Stuff(p.flag, Chunk(room, p, content)) + (if IsLast(room, p, content) then END_MARK else []))
            == Reply(c, Wanted(room, p, content))
  {
    hide Reply, Header, Stuff, Chunk, IsLast;
    var content, p, room := c.session.mails[i].content, ProgressOf(c, i), c.outq.Room();
    var body, tail := Stuff(p.flag, Chunk(room, p, content)), if IsLast(room, p, content) then END_MARK else [];
    ReplySplits(c, Header(p), body + tail);
    assert Header(p) + (body + tail) == Header(p) + body + tail;
  }

  lemma ReplyRoom(c: Conn, message: seq<Byte>)
    requires c.outq.Valid()
    ensures Reply(c, message).outq.Valid()
    ensures Reply(c, message).outq.Room() == c.outq.Room() - |Take(message, c.outq.Room())|
  {
  }

  lemma {:induction false} StuffOne(f: Flag, b: Byte)
    ensures Stuff(f, [b]) == Emit(f, b) && FlagAfter(f, [b]) == NextFlag(f, b)
  {
    assert [b][1..] == [];
  }

  lemma ChunkIs(c: Conn, i: nat, n: nat)
    requires i < |c.readIndex| && i < |c.session.mails| && c.readIndex[i] <= |c.session.mails[i].content|
    requires n == RoomForBody(c.outq.Room(), ProgressOf(c, i)) >= 1
    ensures var content, p, room := c.session.mails[i].content, ProgressOf(c, i), c.outq.Room();
            var remaining := |content| - c.readIndex[i];
            && c.readIndex[i] + ChunkLength(n, remaining) <= |content|
            && Chunk(room, p, content) == content[c.readIndex[i]..c.readIndex[i] + ChunkLength(n, remaining)]
            && (IsLast(room, p, content) <==> remaining + |END_MARK| + 1 <= n)
  {
  }

  lemma HeaderRoom(c: Conn, i: nat)
    requires c.outq.Valid() && i < |c.readIndex|
    ensures var m := Reply(c, Header(ProgressOf(c, i)));
            m.outq.Room() == RoomForBody(c.outq.Room(), ProgressOf(c, i))
  {
    hide Header;
    ReplyRoom(c, Header(ProgressOf(c, i)));
  }

  /** The connection after the resynchronisation loop. */
  function Skipped(c: Conn, b: Byte): Conn {
    var n := SkipLine(c.inq.unread, b == CR);
    c.(inq := c.inq.Advance(n),
       hist := c.hist.(consumed := c.hist.consumed + c.inq.unread[..n], partial := [],
                       malformed := c.hist.malformed + 1, heard := c.hist.heard + [Garbage],
                       cuts := c.hist.cuts + [c.hist.partial + c.inq.unread[..n]],
                       lost := c.hist.lost || !EndsLine(c.hist.partial + c.inq.unread[..n])))
  }

  lemma InvalidIsSkipped(c: Conn, b: Byte)
    ensures OnInvalid(c, b) == Turn(CleanCommand(Skipped(c, b)), Some(Error))
  {
    hide SkipLine, CleanCommand;
  }

  lemma SkipStarts(q: Queue, saw: bool)
    requires q.Valid()
    ensures q.unread[0..] == q.unread && q.Advance(0) == q
  {
  }

  lemma {:induction false} SkipEnds(q: Queue, saw: bool)
    ensures SkipLine(q.unread[|q.unread|..], saw) == 0
  {
  }

  /** One octet more of the resynchronisation loop. */
  lemma {:induction false} SkipNext(q: Queue, k: nat, saw: bool)
    requires q.Valid() && k <= |q.unread|
    ensures k == |q.unread| ==> q.Advance(k).unread == [] && SkipLine(q.unread[k..], saw) == 0
    ensures k < |q.unread| ==>
              && q.Advance(k).unread != [] && q.Advance(k).unread[0] == q.unread[k]
              && q.Advance(k).Advance(1) == q.Advance(k + 1)
              && SkipLine(q.unread[k..], saw)
                 == 1 + if q.unread[k] == LF && saw then 0
                        else SkipLine(q.unread[k + 1..], q.unread[k] == CR || (q.unread[k] == LF && saw))
  {
    if k < |q.unread| {
      assert q.unread[k..][1..] == q.unread[k + 1..];
    }
  }

  lemma TotalNext(mails: seq<Mail>, i: nat)
    requires i < |mails|
    ensures (TotalSize(mails[..i]) % SIZE_T + |mails[i].content|) % SIZE_T == TotalSize(mails[..i + 1]) % SIZE_T
  {
    assert mails[..i + 1][..i] == mails[..i];
  }

  lemma TotalOfNone(mails: seq<Mail>)
    ensures TotalSize(mails[..0]) == 0
  {
  }

  /** stm_states_table, as the state each entry is for. */
  const STATES: seq<StmState> := [Authorization, Transaction, Error, Quit]

  /** The value of the stm_states constant. */
  function StateNumber(s: StmState): nat {
    match s
    case Authorization => 0
    case Transaction => 1
    case Error => 2
    case Quit => 3
  }

  /** stm_init: abort unless entry i of the table is for state i and the initial state is in the table. */
  method StmInit(states: seq<nat>, maxState: nat, initial: nat) returns (aborts: bool)
    requires maxState <= |states|
    ensures aborts <==> initial >= maxState || exists i :: 0 <= i < maxState && states[i] != i
  {
    for i := 0 to maxState
      invariant forall j :: 0 <= j < i ==> states[j] == j
    {
      if i != states[i] {
        return true;
      }
    }
    return initial >= maxState;
  }

  /** stm_init on the state table of the server, which is in order. */
  method TableInit() returns (aborts: bool)
    ensures !aborts
  {
    var numbers := seq(|STATES|, i requires 0 <= i < |STATES| => StateNumber(STATES[i]));
    aborts := StmInit(numbers, |STATES|, StateNumber(Authorization));
  }

  class Connection {
    const inBuff: Buffer
    const outBuff: Buffer
    const parser: Parser
    var crlfFlag: Flag
    var isFinished: bool
    var current: Option<StmState>
    var lastState: Option<StmState>
    var user: seq<Byte>
    var mails: seq<Mail>
    var slots: nat                // room in the table the mails are in
    var readIndex: seq<nat>
    var maildirSize: nat
    var requestedQuit: bool
    var interest: Interest
    var open: bool
    var aborted: bool
    var astray: bool
    ghost var hist: History

    ghost function Repr(): (r: set<object>)
      ensures this in r && parser in r && parser.command in r && parser.argument in r
    {
      {this, inBuff, inBuff.data, outBuff, outBuff.data, parser, parser.command, parser.argument}
    }

    /** Nothing is shared between the buffers and the parser. */
    ghost predicate Apart() {
      && inBuff != outBuff && inBuff.data != outBuff.data
      && inBuff.data != parser.command && inBuff.data != parser.argument
      && outBuff.data != parser.command && outBuff.data != parser.argument
    }

    ghost predicate Valid()
      reads this, inBuff, outBuff, parser
    {
      && Apart()
      && inBuff.Valid() && outBuff.Valid() && parser.Valid()
      && |readIndex| == |mails| && maildirSize < SIZE_T
    }

    ghost function Model(): Conn
      requires Valid()
      reads this, inBuff, inBuff.data, outBuff, outBuff.data, parser, parser.command, parser.argument
    {
      Conn(inBuff.Model(), outBuff.Model(), parser.Model(), isFinished, crlfFlag, readIndex, current, lastState,
           Session(user, mails, slots, maildirSize, requestedQuit), interest, open, aborted, astray, hist)
    }

    /** pop3_init and the registration with OP_WRITE. */
    constructor ()
      ensures Valid() && fresh(Repr())
      ensures Model() == Initial()
    {
      hide Buffer.Model, Buffer.Valid, Parser.Model, Parser.Valid, CString, Fresh, Empty;
      var storageIn, storageOut := new Byte[BUFFER_SIZE](i => NUL), new Byte[BUFFER_SIZE](i => NUL);
      inBuff := new Buffer(storageIn);
      outBuff := new Buffer(storageOut);
      parser := new Parser();
      crlfFlag := AnyCharacter;
      isFinished := true;
      current, lastState := None, None;
      user, mails, slots, readIndex, maildirSize, requestedQuit := [], [], 0, [], 0, false;
      interest, open, astray := OP_WRITE, true, false;
      var aborts := TableInit();
      aborted := aborts;
      hist := Initial().hist;
    }

    /** Only what is remembered of the run changes. */
    ghost method Remember(h: History)
      requires Valid()
      modifies `hist
      ensures Valid() && hist == h && Model() == old(Model()).(hist := h)
    {
      hide Buffer.Model, Buffer.Valid, Parser.Model, Parser.Valid, CString;
      hist := h;
    }

    /** try_write: as much of the message as fits. */
    method TryWrite(message: seq<Byte>)
      requires Valid()
      modifies `hist, outBuff, outBuff.data
      ensures Valid() && Model() == Reply(old(Model()), message)
    {
      hide Buffer.Model, Buffer.Valid, Parser.Model, Parser.Valid, CString;
      ghost var room := outBuff.Model().Room();
      var count := CopyOut(message);
      hist := hist.(accepted := hist.accepted + message[..count], cut := hist.cut || count < |message|);
      assert message[..count] == Take(message, room);
    }

    /** As much of the message as fits goes behind the write pointer. */
    method CopyOut(message: seq<Byte>) returns (count: nat)
      requires outBuff.Valid()
      modifies outBuff, outBuff.data
      ensures outBuff.Valid() && outBuff.Model() == old(outBuff.Model()).Offer(message)
      ensures count == Min(|message|, old(outBuff.Model()).Room())
    {
      hide Buffer.Model, Buffer.Valid, Parser.Model, Parser.Valid, CString;
      ghost var q := outBuff.Model();
      var max := outBuff.WritePtr();
      count := if max < |message| then max else |message|;
      outBuff.Copy(message[..count]);
      outBuff.WriteAdv(count);
      assert message[..count] == Take(message, q.Room());
    }

    /** buffer_write into the output. */
    method PutOctet(b: Byte)
      requires Valid()
      modifies `hist, outBuff, outBuff.data
      ensures Valid() && Model() == Reply(old(Model()), [b])
    {
      hide Buffer.Model, Buffer.Valid, Parser.Model, Parser.Valid, CString;
      hist := hist.(accepted := hist.accepted + Take([b], outBuff.Model().Room()),
                    cut := hist.cut || outBuff.Model().Room() == 0);
      outBuff.Write(b);
    }

    // ---- Handlers ----

    /** The handler has applied this outcome to c and asks for the state the outcome names. */
    ghost predicate Did(c: Conn, o: Outcome, next: StmState)
      requires Valid()
      reads this, inBuff, inBuff.data, outBuff, outBuff.data, parser, parser.command, parser.argument
    {
      Model() == Applied(c, o) && next == o.next
    }

    method UserCommand(w: World) returns (next: StmState)
      requires Valid()
      modifies this, outBuff, outBuff.data
      ensures Valid()
      ensures var c := old(Model()); Did(c, HandleUser(ArgumentOf(c), c.session, w), next)
    {
      hide Buffer.Model, Buffer.Valid, Parser.Model, Parser.Valid, CString;
      hide Ascii, Reply, Updated, Knows;
      var known := SetUser(w);
      TryWrite(if known then Ascii("+OK valid user\r\n") else Ascii("-ERR invalid user\r\n"));
      return Authorization;
    }

    /** The user name of the connection is the argument if the table has it, and none otherwise. */
    method SetUser(w: World) returns (known: bool)
      requires Valid()
      modifies this
      ensures Valid() && (known <==> Knows(w.users, ArgumentOf(old(Model()))))
      ensures var c := old(Model()); Model() == Updated(c, HandleUser(ArgumentOf(c), c.session, w))
    {
      hide Buffer.Model, Buffer.Valid, Parser.Model, Parser.Valid, CString;
      hide Ascii, Updated, Knows;
      SessionUpdated(Model(), HandleUser(ArgumentOf(Model()), Model().session, w));
      var argument := CString(parser.argument[..]);
      known := IsUser(argument, w);
      user := if known then argument else [];
    }

    /** The loop of user_handler. */
    method IsUser(name: seq<Byte>, w: World) returns (known: bool)
      ensures known <==> Knows(w.users, name)
    {
      hide Buffer.Model, Buffer.Valid, Parser.Model, Parser.Valid, CString;
      for i := 0 to |w.users|
        invariant forall j :: 0 <= j < i ==> w.users[j].name != name
      {
        if w.users[i].name == name {
          return true;
        }
      }
      return false;
    }

    /** The loop of pass_handler: the first entry with the user's name decides. */
    method Authenticate(w: World) returns (authenticated: bool)
      requires Valid()
      ensures authenticated <==> FirstPassword(w.users, user) == Some(CString(parser.argument[..]))
    {
      hide Buffer.Model, Buffer.Valid, Parser.Model, Parser.Valid, CString;
      authenticated := false;
      var argument := CString(parser.argument[..]);
      var i := 0;
      while i < |w.users|
        invariant 0 <= i <= |w.users|
        invariant FirstPassword(w.users, user) == FirstPassword(w.users[i..], user) && !authenticated
      {
        assert w.users[i..][1..] == w.users[i + 1..];
        if w.users[i].name == user {
          authenticated := w.users[i].pass == argument;
          break;
        }
        i := i + 1;
      }
    }

    method PassCommand(w: World) returns (next: StmState)
      requires Valid()
      modifies this, outBuff, outBuff.data
      ensures Valid()
      ensures var c := old(Model()); Did(c, HandlePass(ArgumentOf(c), c.session, w), next)
    {
      hide Buffer.Model, Buffer.Valid, Parser.Model, Parser.Valid, CString;
      hide Ascii, Reply, Updated, FirstPassword;
      ghost var c := Model();
      SessionUpdated(c, HandlePass(ArgumentOf(c), c.session, w));
      if user == [] {
        TryWrite(Ascii("-ERR no username given\r\n"));
        return Authorization;
      }
      next := CheckPassword(w);
    }

    /** pass_handler once there is a user name. */
    method CheckPassword(w: World) returns (next: StmState)
      requires Valid() && user != []
      modifies this, outBuff, outBuff.data
      ensures Valid()
      ensures var c := old(Model()); Did(c, HandlePass(ArgumentOf(c), c.session, w), next)
    {
      hide Buffer.Model, Buffer.Valid, Parser.Model, Parser.Valid, CString;
      hide Ascii, Reply, Updated, FirstPassword;
      ghost var c := Model();
      SessionUpdated(c, HandlePass(ArgumentOf(c), c.session, w));
      var authenticated := Authenticate(w);
      if !authenticated {
        TryWrite(Ascii("-ERR invalid password\r\n"));
        return Authorization;
      }
      next := LogIn(w);
    }

    /** pass_handler once the password is right. */
    method LogIn(w: World) returns (next: StmState)
      requires Valid() && user != [] && FirstPassword(w.users, user) == Some(ArgumentOf(Model()))
      modifies this, outBuff, outBuff.data
      ensures Valid()
      ensures var c := old(Model()); Did(c, HandlePass(ArgumentOf(c), c.session, w), next)
    {
      hide Buffer.Model, Buffer.Valid, Parser.Model, Parser.Valid, CString;
      hide Ascii, Reply, Updated, FirstPassword;
      SetLoggedIn(w);
      TryWrite(if w.directoryOpens then Ascii("+OK logged in\r\n") else Ascii("-ERR invalid user\r\n"));
      return if w.directoryOpens then Transaction else Authorization;
    }

    /** Without a mail directory the user name is forgotten. */
    method SetLoggedIn(w: World)
      requires Valid() && user != [] && FirstPassword(w.users, user) == Some(ArgumentOf(Model()))
      modifies this
      ensures Valid()
      ensures var c := old(Model()); Model() == Updated(c, HandlePass(ArgumentOf(c), c.session, w))
    {
      hide Buffer.Model, Buffer.Valid, Parser.Model, Parser.Valid, CString;
      hide Ascii, Updated, FirstPassword;
      SessionUpdated(Model(), HandlePass(ArgumentOf(Model()), Model().session, w));
      if !w.directoryOpens {
        user := [];
      }
    }

    method StatCommand() returns (next: StmState)
      requires Valid()
      modifies this, outBuff, outBuff.data
      ensures Valid()
      ensures var c := old(Model()); Did(c, HandleStat(c.session), next)
    {
      hide Buffer.Model, Buffer.Valid, Parser.Model, Parser.Valid, CString;
      TryWrite(Ascii("+OK ") + PrintInt(|mails|) + [SP] + PrintInt(maildirSize) + [CR, LF]);
      return Transaction;
    }

    /** Mark a mail and take its size off the drop size. */
    method MarkMail(number: nat)
      requires Valid() && 1 <= number <= |mails| && number == MailNumber(ArgumentOf(Model()))
      modifies this
      ensures Valid()
      ensures var c := old(Model()); Model() == Updated(c, HandleDele(ArgumentOf(c), c.session))
    {
      hide Buffer.Model, Buffer.Valid, Parser.Model, Parser.Valid, CString;
      hide PrintInt, Ascii, MailNumber, Updated;
      ghost var c := Model();
      SessionUpdated(c, HandleDele(ArgumentOf(c), c.session));
      var mail := mails[number - 1];
      mails := mails[number - 1 := mail.(deleted := true)];
      maildirSize := (maildirSize - |mail.content|) % SIZE_T;
    }

    method DeleCommand() returns (next: StmState)
      requires Valid()
      modifies this, outBuff, outBuff.data
      ensures Valid()
      ensures var c := old(Model()); Did(c, HandleDele(ArgumentOf(c), c.session), next)
    {
      hide Buffer.Model, Buffer.Valid, Parser.Model, Parser.Valid, CString;
      hide PrintInt, Ascii, Reply, MailNumber, Updated, HandleDele;
      ghost var c := Model();
      DeleAnswer(ArgumentOf(c), c.session);
      var number := MailNumber(CString(parser.argument[..]));
      if number <= 0 || number > |mails| {
        SessionKept(c, HandleDele(ArgumentOf(c), c.session));
        TryWrite(Ascii("-ERR no such message\r\n"));
        return Transaction;
      }
      MarkMail(number);
      TryWrite(Ascii("+OK message ") + PrintInt(number) + Ascii(" deleted\r\n.\r\n"));
      return Transaction;
    }

    /** The loop of rset_handler. */
    method ClearMarks() returns (size: nat)
      modifies `mails
      ensures mails == Unmarked(old(mails)) && size == TotalSize(old(mails)) % SIZE_T
    {
      hide Buffer.Model, Buffer.Valid, Parser.Model, Parser.Valid, CString;
      hide TotalSize;
      TotalOfNone(mails);
      ghost var loaded := mails;
      size := 0;
      for i := 0 to |mails|
        invariant |mails| == |loaded|
        invariant forall j :: 0 <= j < |loaded| ==>
                    mails[j] == if j < i then loaded[j].(deleted := false) else loaded[j]
        invariant size == TotalSize(loaded[..i]) % SIZE_T
      {
        mails := mails[i := mails[i].(deleted := false)];
        size := (size + |mails[i].content|) % SIZE_T;
        TotalNext(loaded, i);
      }
      assert loaded[..|loaded|] == loaded;
    }

    /** All marks go and the drop size is the sum of all sizes again. */
    method UnmarkAll()
      requires Valid()
      modifies `mails, `maildirSize
      ensures Valid()
      ensures var c := old(Model()); Model() == Updated(c, HandleRset(c.session))
    {
      hide Buffer.Model, Buffer.Valid, Parser.Model, Parser.Valid, CString;
      hide Ascii, TotalSize, Unmarked, Updated;
      SessionUpdated(Model(), HandleRset(Model().session));
      UnmarkedLength(mails);
      maildirSize := ClearMarks();
    }

    method RsetCommand() returns (next: StmState)
      requires Valid()
      modifies this, outBuff, outBuff.data
      ensures Valid()
      ensures var c := old(Model()); Did(c, HandleRset(c.session), next)
    {
      hide Buffer.Model, Buffer.Valid, Parser.Model, Parser.Valid, CString;
      hide Ascii, Reply, TotalSize, Updated, Unmarked;
      UnmarkAll();
      TryWrite(Ascii("+OK\r\n"));
      return Transaction;
    }

    /** remove() for every mail marked as deleted. */
    method RemoveMarked()
      modifies `hist
      ensures hist == old(hist.(removed := hist.removed + MarkedPaths(mails)))
    {
      hide Buffer.Model, Buffer.Valid, Parser.Model, Parser.Valid, CString;
      ghost var before := hist;
      assert before.removed + [] == before.removed;
      for i := 0 to |mails|
        invariant hist == before.(removed := before.removed + MarkedPaths(mails[..i]))
      {
        assert mails[..i + 1][..i] == mails[..i];
        if mails[i].deleted {
          hist := hist.(removed := hist.removed + [mails[i].path]);
        }
      }
      assert mails[..|mails|] == mails;
    }

    /** The mails go away, the marked ones with their files. */
    method LeaveMaildrop()
      requires Valid() && current == Some(Transaction) && mails != []
      modifies this
      ensures Valid()
      ensures var c := old(Model()); Model() == Updated(c, HandleQuit(Transaction, c.session))
    {
      hide Buffer.Model, Buffer.Valid, Parser.Model, Parser.Valid, CString;
      hide Ascii, MarkedPaths;
      RemoveMarked();
      ForgetMails();
    }

    method ForgetMails()
      requires Valid()
      modifies `mails, `slots, `readIndex
      ensures Valid()
      ensures var c := old(Model()); Model() == c.(session := c.session.(mails := [], slots := 0), readIndex := [])
    {
      hide Buffer.Model, Buffer.Valid, Parser.Model, Parser.Valid, CString;
      mails, slots, readIndex := [], 0, [];
    }

    method QuitCommand() returns (next: StmState)
      requires Valid() && current.Some?
      modifies this, outBuff, outBuff.data
      ensures Valid()
      ensures var c := old(Model()); Did(c, HandleQuit(StateOf(c), c.session), next)
    {
      hide Buffer.Model, Buffer.Valid, Parser.Model, Parser.Valid, CString;
      hide Ascii, Reply, MarkedPaths, Updated;
      if current == Some(Authorization) {
        SessionUpdated(Model(), HandleQuit(Authorization, Model().session));
        requestedQuit := true;
        TryWrite(Ascii("+OK pop3 server signing off\r\n"));
        return Quit;
      } else if current == Some(Transaction) && mails != [] {
        LeaveMaildrop();
        TryWrite(Ascii("+OK\r\n"));
        return Authorization;
      }
      SessionUpdated(Model(), HandleQuit(current.value, Model().session));
      ReplyNothing(Model());
      return Error;
    }

    /** The branch of list_handler for one mail. */
    method ListOneMail()
      requires Valid()
      modifies `hist, `astray, outBuff, outBuff.data
      ensures Valid()
      ensures var c := old(Model());
              var argument := ArgumentOf(c);
              Model() == if LeavesTable(argument, c.session) then c.(astray := true)
                         else Reply(c, ListOne(argument, c.session))
    {
      hide Buffer.Model, Buffer.Valid, Parser.Model, Parser.Valid, CString;
      hide Decimal, Strtol, Reply;
      ReplyNothing(Model());
      var number := Strtol(CString(parser.argument[..]));
      var index := (number.value - 1) % SIZE_T;
      if index > |mails| || number.rest != [] {
        return;
      }
      if index >= slots {
        astray := true;
        return;
      }
      ListNumber(number.value);
      var size := if index < |mails| then |mails[index].content| else 0;
      TryWrite(Ascii("+OK ") + Decimal(number.value % SIZE_T) + [SP] + Decimal(size) + Ascii(" \r\n"));
    }

    method ListCommand() returns (next: StmState)
      requires Valid()
      modifies this, outBuff, outBuff.data
      ensures Valid() && next == Transaction
      ensures var c := old(Model());
              var has, argument := c.reader.argumentLength > 0, ArgumentOf(c);
              if has && LeavesTable(argument, c.session) then Model() == c.(astray := true)
              else Did(c, HandleList(has, argument, c.session), next)
    {
      hide Buffer.Model, Buffer.Valid, Parser.Model, Parser.Valid, CString;
      hide ListOne, ListLines, LeavesTable, Ascii, Reply, Updated;
      SessionKept(Model(), HandleList(parser.argumentLength > 0, ArgumentOf(Model()), Model().session));
      if parser.argumentLength > 0 {
        ListOneMail();
      } else {
        ListMails();
      }
      return Transaction;
    }

    /** The branch of list_handler for all mails. */
    method ListMails()
      requires Valid()
      modifies `hist, outBuff, outBuff.data
      ensures Valid()
      ensures Model() == Reply(old(Model()), Ascii("+OK\r\n") + ListLines(mails) + Ascii(".\r\n"))
    {
      hide Buffer.Model, Buffer.Valid, Parser.Model, Parser.Valid, CString;
      hide Decimal, Ascii, Reply, ListLines;
      ghost var before := Model();
      NothingListed(mails);
      TryWrite(Ascii("+OK\r\n"));
      assert Ascii("+OK\r\n") + [] == Ascii("+OK\r\n");
      var index := 0;
      while index < |mails|
        invariant 0 <= index <= |mails| && Valid()
        invariant Model() == Reply(before, Ascii("+OK\r\n") + ListLines(mails[..index]))
      {
        assert mails[..index + 1][..index] == mails[..index];
        ListLineNext(before, mails[..index + 1]);
        if !mails[index].deleted {
          TryWrite(Decimal(index + 1) + [SP] + Decimal(|mails[index].content|) + [CR, LF]);
        }
        index := index + 1;
      }
      assert mails[..|mails|] == mails;
      ReplySplits(before, Ascii("+OK\r\n") + ListLines(mails), Ascii(".\r\n"));
      TryWrite(Ascii(".\r\n"));
    }

    /** The copying loop of retr_handler. */
    method CopyChunk(i: nat, chunk: seq<Byte>)
      requires Valid() && i < |readIndex|
      modifies `hist, `crlfFlag, `readIndex, outBuff, outBuff.data
      ensures Valid() && Model() == Copied(old(Model()), i, chunk)
    {
      hide Buffer.Model, Buffer.Valid, Parser.Model, Parser.Valid, CString;
      hide Copied;
      ghost var c := Model();
      assert chunk[..0] == [];
      CopiedNothing(c, i);
      for k := 0 to |chunk|
        invariant Valid() && |readIndex| == |c.readIndex|
        invariant Model() == Copied(c, i, chunk[..k])
      {
        CopiedNext(c, i, chunk, k);
        CopyOctet(i, chunk[k]);
      }
      assert chunk[..|chunk|] == chunk;
    }

    /** The body of the loop. */
    method CopyOctet(i: nat, b: Byte)
      requires Valid() && i < |readIndex|
      modifies `hist, `crlfFlag, `readIndex, outBuff, outBuff.data
      ensures Valid() && |readIndex| == old(|readIndex|)
      ensures Model() == Copied(old(Model()), i, [b])
    {
      hide Buffer.Model, Buffer.Valid, Parser.Model, Parser.Valid, CString;
      hide Copied, Reply;
      CopiedOctet(Model(), i, b);
      PutStuffed(b);
      readIndex := readIndex[i := readIndex[i] + 1];
    }

    /** The flag, and the octet with the dot before it if it needs one. */
    method PutStuffed(b: Byte)
      requires Valid()
      modifies `hist, `crlfFlag, outBuff, outBuff.data
      ensures Valid()
      ensures var c := old(Model());
              var m := c.(flag := NextFlag(c.flag, b));
              Model() == if b == DOT && c.flag == SawLf then Reply(Reply(m, [DOT]), [b]) else Reply(m, [b])
    {
      hide Buffer.Model, Buffer.Valid, Parser.Model, Parser.Valid, CString;
      hide Reply;
      var stuff := SetFlag(b);
      if stuff {
        PutOctet(DOT);
      }
      PutOctet(b);
    }

    /** The flag after this octet, and whether a dot goes before it. */
    method SetFlag(b: Byte) returns (stuff: bool)
      modifies `crlfFlag
      ensures crlfFlag == NextFlag(old(crlfFlag), b)
      ensures stuff <==> b == DOT && old(crlfFlag) == SawLf
    {
      stuff := false;
      if b == CR {
        crlfFlag := SawCr;
      } else if b == LF && crlfFlag == SawCr {
        crlfFlag := SawLf;
      } else if b == DOT && crlfFlag == SawLf {
        stuff := true;
      } else {
        crlfFlag := AnyCharacter;
      }
    }

    /** retr_handler on an existing mail, first call or resumption. The run ends here when n - 1 wraps. */
    method SendMail(i: nat)
      requires Valid() && i < |mails| && readIndex[i] <= |mails[i].content|
      modifies this, outBuff, outBuff.data
      ensures Valid() && Model() == RunRetr(old(Model()), i)
    {
      hide Buffer.Model, Buffer.Valid, Parser.Model, Parser.Valid, CString;
      ghost var c := Model();
      hide Header, SendPiece, Reply;
      HeaderRoom(c, i);
      PutHeader(i);
      var n := outBuff.WritePtr();
      if n == 0 {
        astray := true;
        return;
      }
      SendBody(i, n, c);
    }

    /** The header goes out when a mail begins. */
    method PutHeader(i: nat)
      requires Valid() && i < |readIndex|
      modifies `hist, outBuff, outBuff.data
      ensures Valid() && Model() == Reply(old(Model()), Header(ProgressOf(old(Model()), i)))
    {
      hide Buffer.Model, Buffer.Valid, Parser.Model, Parser.Valid, CString;
      hide Reply;
      ReplyNothing(Model());
      if isFinished {
        TryWrite(HEADER);
      }
    }

    /** The part of retr_handler after the header; c is the connection before it. */
    method SendBody(i: nat, n: nat, ghost c: Conn)
      requires Valid() && i < |mails| && readIndex[i] <= |mails[i].content|
      requires c.outq.Valid() && c.session.mails == mails && c.readIndex == readIndex
      requires !Overruns(c.outq.Room(), ProgressOf(c, i)) && n == RoomForBody(c.outq.Room(), ProgressOf(c, i)) >= 1
      requires Model() == Reply(c, Header(ProgressOf(c, i)))
      modifies this, outBuff, outBuff.data
      ensures Valid() && Model() == SendPiece(c, i)
    {
      hide Buffer.Model, Buffer.Valid, Parser.Model, Parser.Valid, CString;
      hide SendPiece, PieceCopied, Header, Reply, ProgressOf, Chunk, IsLast, Overruns, RoomForBody;
      var content := mails[i].content;
      PieceIsSent(c, i, Model());
      ChunkIs(c, i, n);
      var remaining := |content| - readIndex[i];
      var chunk := content[readIndex[i]..readIndex[i] + ChunkLength(n, remaining)];
      CopyPiece(i, chunk, remaining + |END_MARK| + 1 <= n);
      Remember(SendPiece(c, i).hist.(accepted := hist.accepted, cut := hist.cut));
    }

    /** The two branches of retr_handler: a piece that ends the mail, or one that does not. */
    method CopyPiece(i: nat, chunk: seq<Byte>, last: bool)
      requires Valid() && i < |readIndex|
      modifies `hist, `crlfFlag, `readIndex, `isFinished, outBuff, outBuff.data
      ensures Valid() && Model() == PieceCopied(old(Model()), i, chunk, last)
    {
      hide Buffer.Model, Buffer.Valid, Parser.Model, Parser.Valid, CString;
      hide Copied, Reply;
      CopiedSize(Model(), i, chunk);
      CopyChunk(i, chunk);
      if last {
        EndMail(i);
      } else {
        isFinished := false;
      }
    }

    /** The end of the last piece. */
    method EndMail(i: nat)
      requires Valid() && i < |readIndex|
      modifies `hist, `readIndex, `isFinished, outBuff, outBuff.data
      ensures Valid()
      ensures var c := old(Model());
              Model() == Reply(c, END_MARK).(finished := true, readIndex := c.readIndex[i := 0])
    {
      hide Buffer.Model, Buffer.Valid, Parser.Model, Parser.Valid, CString;
      hide Reply;
      TryWrite(END_MARK);
      isFinished := true;
      readIndex := readIndex[i := 0];
    }

    method RetrCommand(w: World) returns (next: StmState)
      requires Valid() && IndexesOk(Model())
      modifies this, outBuff, outBuff.data
      ensures Valid() && next == Transaction
      ensures var c := old(Model());
              var n := MailNumber(ArgumentOf(c));
              if !Exists(c.session, n) then Did(c, NoSuchMessage(c.session), next)
              else if !w.mailOpens then Model() == c.(astray := true)
              else Model() == RunRetr(c, n - 1)
    {
      hide Buffer.Model, Buffer.Valid, Parser.Model, Parser.Valid, CString;
      hide Ascii, MailNumber, SameIgnoringCase, RunRetr, Updated;
      SessionKept(Model(), NoSuchMessage(Model().session));
      var number := MailNumber(CString(parser.argument[..]));
      if number <= 0 || number > |mails| {
        TryWrite(Ascii("-ERR no such message\r\n"));
        return Transaction;
      }
      if !w.mailOpens {
        astray := true;
        return Transaction;
      }
      SendMail(number - 1);
      return Transaction;
    }

    method CapaCommand() returns (next: StmState)
      requires Valid() && current.Some?
      modifies this, outBuff, outBuff.data
      ensures Valid() && interest == OP_READ
      ensures var c := old(Model());
              var o := HandleCapa(StateOf(c), c.session);
              Model() == Applied(c, o).(interest := OP_READ) && next == o.next
    {
      hide Buffer.Model, Buffer.Valid, Parser.Model, Parser.Valid, CString;
      hide Ascii, Reply, Updated;
      SessionKept(Model(), HandleCapa(StateOf(Model()), Model().session));
      TryWrite(Ascii("+OK\r\nUSER\r\nPIPELINING\r\n.\r\n"));
      interest := OP_READ;
      return current.value;
    }

    method NoopCommand() returns (next: StmState)
      requires Valid()
      modifies this, outBuff, outBuff.data
      ensures Valid()
      ensures var c := old(Model());
              var o := HandleNoop(c.session);
              Model() == Applied(c, o).(finished := true) && next == o.next
    {
      hide Buffer.Model, Buffer.Valid, Parser.Model, Parser.Valid, CString;
      hide Ascii, Reply, Updated;
      SessionKept(Model(), HandleNoop(Model().session));
      TryWrite(Ascii("+OK\r\n"));
      isFinished := true;
      return Transaction;
    }

    /** The call through the function pointer of a table entry. */
    method CallHandler(h: Handler, w: World) returns (next: StmState)
      requires Valid() && IndexesOk(Model()) && current.Some?
      requires Suits(h, current.value)
      modifies this, outBuff, outBuff.data
      ensures Valid()
      ensures Turn(Model(), Some(next)) == Called(old(Model()), h, w)
    {
      hide Buffer.Model, Buffer.Valid, Parser.Model, Parser.Valid, CString;
      hide RunRetr, Applied, MailNumber, SameIgnoringCase, IndexesOk, HandleUser, HandlePass, HandleQuit, HandleStat,
           HandleDele, HandleRset, HandleList, HandleCapa, HandleNoop, NoSuchMessage, LeavesTable;
      match h
      case UserHandler => next := UserCommand(w);
      case PassHandler => next := PassCommand(w);
      case QuitHandler => next := QuitCommand();
      case CapaHandler => next := CapaCommand();
      case NoopHandler => next := NoopCommand();
      case RetrHandler => next := RetrCommand(w);
      case _ => next := CallMailHandler(h, w);
    }

    /** The handlers of TRANSACTION that look at the whole maildrop or at its marks. */
    method CallMailHandler(h: Handler, w: World) returns (next: StmState)
      requires h != UserHandler && h != PassHandler && h != QuitHandler && h != CapaHandler
      requires h != NoopHandler && h != RetrHandler
      requires Valid() && IndexesOk(Model()) && current.Some?
      requires Suits(h, current.value)
      modifies this, outBuff, outBuff.data
      ensures Valid()
      ensures Turn(Model(), Some(next)) == Called(old(Model()), h, w)
    {
      hide Buffer.Model, Buffer.Valid, Parser.Model, Parser.Valid, CString;
      hide RunRetr, Applied, MailNumber, SameIgnoringCase, IndexesOk, HandleUser, HandlePass, HandleQuit, HandleStat,
           HandleDele, HandleRset, HandleList, HandleCapa, HandleNoop, NoSuchMessage, LeavesTable, Exists;
      match h
      case StatHandler => next := StatCommand();
      case ListHandler => next := ListCommand();
      case DeleHandler => next := DeleCommand();
      case RsetHandler => next := RsetCommand();
    }

    /** clean_command */
    method CleanUp()
      requires Valid()
      modifies parser, parser.command, parser.argument
      ensures Valid() && Model() == CleanCommand(old(Model()))
    {
      hide Buffer.Model, Buffer.Valid, Parser.Model, Parser.Valid, CString;
      if isFinished {
        parser.Clean();
      }
    }

    /** A handler call with its entry in the history. */
    method CallRecorded(h: Handler, w: World) returns (next: StmState)
      requires Valid() && IndexesOk(Model()) && current.Some?
      requires Suits(h, current.value)
      modifies this, outBuff, outBuff.data
      ensures Valid()
      ensures Turn(Model(), Some(next)) == RunHandler(old(Model()), h, w)
    {
      hide Buffer.Model, Buffer.Valid, Parser.Model, Parser.Valid, CString;
      ghost var c := Model();
      ghost var c1 := c.(hist := Record(c, h, w));
      hide Apart, IndexesOk, RunHandler, Called, Record, Suits;
      RunIsCalled(c, h, w);
      RecordKeepsIndexes(c, h, w);
      Remember(c1.hist);
      next := CallHandler(h, w);
    }

    /** Run a handler of the command table, ask for write events, clean up. */
    method RunCommand(h: Handler, w: World) returns (next: StmState)
      requires Valid() && IndexesOk(Model()) && current.Some?
      requires Suits(h, current.value)
      modifies Repr()
      ensures Valid()
      ensures Turn(Model(), Some(next)) == Dispatch(old(Model()), h, w)
    {
      hide Buffer.Model, Buffer.Valid, Parser.Model, Parser.Valid, CString;
      hide Apart, IndexesOk, RunHandler, CleanCommand;
      next := CallRecorded(h, w);
      interest := OP_WRITE;
      CleanUp();
    }

    /** The search through the commands table. */
    method FindCommand(state: StmState) returns (found: Option<Command>)
      requires Valid()
      ensures found == Lookup(CString(parser.command[..]), state)
    {
      hide CString, IsFor, LookupIn;
      var name := CString(parser.command[..]);
      var j := 0;
      LookupFrom(0, name, state);
      while j < |COMMANDS|
        invariant 0 <= j <= |COMMANDS|
        invariant Lookup(name, state) == LookupIn(COMMANDS[j..], name, state)
      {
        LookupFrom(j, name, state);
        if IsFor(COMMANDS[j], name, state) {
          return Some(COMMANDS[j]);
        }
        j := j + 1;
      }
      LookupFrom(j, name, state);
      return None;
    }

    // ---- read_command and write_command ----

    /** parser_feed on the next octet of in_buff, which leaves the buffer. */
    method FeedNext() returns (b: Byte)
      requires Valid() && Model().inq.unread != []
      modifies Repr()
      ensures Valid() && Model() == FeedOctet(old(Model())) && b == old(Model().inq.unread[0])
    {
      hide Parser.Model, Parser.Valid, Feed;
      ghost var c := Model();
      b := inBuff.data[inBuff.read];
      assert b == c.inq.unread[0];
      parser.Feed(b);
      inBuff.ReadAdv(1);
      hist := FeedOctet(c).hist;
    }

    /** The resynchronisation loop; `left` is read_bytes - i, one more than there is to read. */
    method SkipToLineEnd(b: Byte, left: nat)
      requires inBuff.Valid() && left == |inBuff.Model().unread| + 1
      modifies inBuff, inBuff.data
      ensures inBuff.Valid()
      ensures inBuff.Model() == old(inBuff.Model().Advance(SkipLine(inBuff.Model().unread, b == CR)))
    {
      hide Buffer.Model, Buffer.Valid, Parser.Model, Parser.Valid, CString;
      ghost var q := inBuff.Model();
      ghost var skipped := 0;
      var sawCarriageReturn := b == CR;
      var i := 0;
      var done := false;
      SkipStarts(q, b == CR);
      hide SkipLine;
      while i < left && !done
        invariant 0 <= i <= left && inBuff.Valid()
        invariant skipped == Min(i, |q.unread|) && inBuff.Model() == q.Advance(skipped)
        invariant SkipLine(q.unread, b == CR)
                  == skipped + if done then 0 else SkipLine(q.unread[skipped..], sawCarriageReturn)
        decreases left - i, !done
      {
        SkipNext(q, skipped, sawCarriageReturn);
        var octet := inBuff.Read();
        if octet == CR {
          sawCarriageReturn := true;
        } else if octet == LF {
          if sawCarriageReturn {
            done := true;
          }
        } else {
          sawCarriageReturn := false;
        }
        i := i + 1;
        skipped := Min(i, |q.unread|);
      }
      SkipEnds(q, sawCarriageReturn);
    }

    /** The parser has said INVALID on octet b. */
    method Resynchronise(b: Byte, left: nat)
      requires Valid() && left == |Model().inq.unread| + 1
      modifies Repr()
      ensures Valid() && Turn(Model(), Some(Error)) == OnInvalid(old(Model()), b)
    {
      hide Buffer.Model, Buffer.Valid, Parser.Model, Parser.Valid, CString;
      hide Skipped, CleanCommand, OnInvalid;
      InvalidIsSkipped(Model(), b);
      DropLine(b, left);
      CleanUp();
    }

    /** The rest of the line leaves in_buff. */
    method DropLine(b: Byte, left: nat)
      requires Valid() && left == |Model().inq.unread| + 1
      modifies `hist, inBuff, inBuff.data
      ensures Valid() && Model() == Skipped(old(Model()), b)
    {
      hide Buffer.Model, Buffer.Valid, Parser.Model, Parser.Valid, CString;
      hide SkipLine, Queue.Advance, Queue.Valid;
      ghost var c := Model();
      SkipToLineEnd(b, left);
      hist := Skipped(c, b).hist;
    }

    /** A line whose command is not acceptable here. */
    method RejectLine()
      requires Valid()
      modifies `hist, parser, parser.command, parser.argument
      ensures Valid() && Model() == CleanCommand(WithLine(old(Model())))
    {
      hide Buffer.Model, Buffer.Valid, Parser.Model, Parser.Valid, CString;
      hide Cleaned;
      hist := WithLine(Model()).hist;
      CleanUp();
    }

    /** A line whose command is acceptable here. */
    method AcceptLine(h: Handler, w: World, ghost call: HandlerCall) returns (next: StmState)
      requires Valid() && current.Some? && Suits(h, current.value)
      requires IndexesOk(WithCall(WithLine(Model()), call))
      modifies Repr()
      ensures Valid() && Turn(Model(), Some(next)) == Dispatch(WithCall(WithLine(old(Model())), call), h, w)
    {
      hide Buffer.Model, Buffer.Valid, Parser.Model, Parser.Valid, CString;
      hide IndexesOk, Dispatch;
      ghost var c := WithCall(WithLine(Model()), call);
      hist := c.hist;
      assert Model() == c;
      next := RunCommand(h, w);
    }

    /** The parser has said VALID: look the command up, check its arguments, run it. */
    method RunLine(state: StmState, w: World) returns (next: StmState)
      requires Valid() && IndexesOk(Model()) && current == Some(state)
      modifies Repr()
      ensures Valid() && Turn(Model(), Some(next)) == OnValid(old(Model()), state, w)
    {
      hide Buffer.Model, Buffer.Valid, Parser.Model, Parser.Valid, CString;
      hide Repr, Apart, IndexesOk, Lookup, CleanCommand, Dispatch, OnValid, WithCall, WithLine, Accepts, Suits;
      OnValidCases(Model(), state, w);
      LookupSuits(CString(parser.command[..]), state);
      var found := FindCommand(state);
      if found.Some? {
        if Accepts(found.value.arguments, parser.argumentLength > 0) {
          next := AcceptFound(found.value.handler, state, w);
          return;
        }
      }
      RejectLine();
      next := Error;
    }

    /** The line is acceptable: its handler runs. */
    method AcceptFound(h: Handler, state: StmState, w: World) returns (next: StmState)
      requires Valid() && IndexesOk(Model()) && current == Some(state) && Suits(h, state)
      modifies Repr()
      ensures Valid()
      ensures var c := old(Model());
              Turn(Model(), Some(next)) == Dispatch(WithCall(WithLine(c), HandlerCall(state, h, ArgumentOf(c))), h, w)
    {
      hide Buffer.Model, Buffer.Valid, Parser.Model, Parser.Valid, CString;
      hide Repr, Apart, IndexesOk, Dispatch, WithCall, WithLine, Suits;
      ghost var call := HandlerCall(state, h, ArgumentOf(Model()));
      HistoryKeepsIndexes(Model(), call);
      next := AcceptLine(h, w, call);
    }

    /** The loop of read_command over in_buff. */
    method ParseBuffered(state: StmState, w: World) returns (next: StmState)
      requires Valid() && Reading(Model()) && isFinished && current == Some(state)
      modifies Repr()
      ensures Valid() && Turn(Model(), Some(next)) == ReadLines(old(Model()), state, w)
    {
      hide Buffer.Model, Buffer.Valid, Parser.Model, Parser.Valid, CString;
      hide Repr, Apart, Reading, OnValid, OnInvalid, Feed, FeedOctet, ReadLines;
      ghost var c := Model();
      var readBytes := inBuff.ReadPtr();
      var i := 0;
      while i < readBytes
        invariant 0 <= i <= readBytes && Valid() && isFinished && current == Some(state)
        invariant Reading(Model()) && |Model().inq.unread| == readBytes - i
        invariant ReadLines(Model(), state, w) == ReadLines(c, state, w)
      {
        ParseStep(Model());
        ReadLinesOnce(Model(), state, w);
        var octet := FeedNext();
        if parser.event == ValidCommand {
          next := RunLine(state, w);
          return;
        } else if parser.event == InvalidCommand {
          Resynchronise(octet, readBytes - i);
          return Error;
        }
        i := i + 1;
      }
      ReadLinesDone(Model(), state, w);
      return state;
    }

    /** Octets arrive behind the write pointer. */
    method Deliver(got: seq<Byte>)
      requires Valid() && |got| <= inBuff.Model().Room()
      modifies `hist, inBuff, inBuff.data
      ensures Valid() && Model() == Receive(old(Model()), got)
    {
      hide Buffer.Model, Buffer.Valid, Parser.Model, Parser.Valid, CString;
      inBuff.Copy(got);
      inBuff.WriteAdv(|got|);
      hist := hist.(received := hist.received + got);
    }

    /** recv into in_buff; the result is what recv returns. */
    method Recv(r: Engine.Recv) returns (n: int)
      requires Valid() && inBuff.Model().unread == []
      modifies `hist, inBuff, inBuff.data
      ensures Valid()
      ensures var c := old(Model());
              match r
              case RecvFailed => n == -1 && Model() == c
              case Segment(bytes) =>
                var got := Take(bytes, c.inq.Room());
                n == |got| && Model() == Receive(c, got)
    {
      hide Buffer.Model, Buffer.Valid, Parser.Model, Parser.Valid, CString, Receive;
      var room := inBuff.WritePtr();
      match r
      case RecvFailed =>
        inBuff.WriteAdv(-1);
        return -1;
      case Segment(bytes) =>
        var got := Take(bytes, room);
        Deliver(got);
        return |got|;
    }

    method ReadCommand(state: StmState, w: World, r: Engine.Recv) returns (next: StmState)
      requires Valid() && Reading(Model()) && current == Some(state)
      modifies Repr()
      ensures Valid() && Turn(Model(), Some(next)) == Engine.ReadCommand(old(Model()), state, w, r)
    {
      hide Buffer.Model, Buffer.Valid, Parser.Model, Parser.Valid, CString;
      hide Apart, Reading, ReadBuffered, Engine.ReadCommand, Received;
      ReadCommandCases(Model(), state, w, r);
      ReceivedKeeps(Model(), r);
      ReceivedFrame(Model(), r);
      var ended := Fill(r);
      if ended {
        return Quit;
      }
      next := GoOn(state, w);
    }

    /** recv, unless there is something left to read; `ended` says that it has returned 0. */
    method Fill(r: Engine.Recv) returns (ended: bool)
      requires Valid()
      modifies `hist, inBuff, inBuff.data
      ensures Valid() && Model() == Received(old(Model()), r)
      ensures var c := old(Model()); ended <==> c.inq.unread == [] && r.Segment? && Take(r.bytes, c.inq.Room()) == []
      ensures ended ==> Model() == old(Model())
    {
      hide Buffer.Model, Buffer.Valid, Parser.Model, Parser.Valid, CString;
      hide Apart, Receive;
      ReceiveNothing(Model());
      ended := false;
      var canRead := inBuff.CanRead();
      if !canRead {
        var n := Recv(r);
        ended := n == 0;
      }
    }

    /** read_command after recv: go on with the RETR under way, or parse. */
    method GoOn(state: StmState, w: World) returns (next: StmState)
      requires Valid() && Reading(Model()) && current == Some(state)
      modifies Repr()
      ensures Valid() && Turn(Model(), Some(next)) == ReadBuffered(old(Model()), state, w)
    {
      hide Buffer.Model, Buffer.Valid, Parser.Model, Parser.Valid, CString;
      hide Reading, ReadLines, Dispatch, CString, Lookup, IndexesOk;
      if !isFinished {
        ResumeReady(Model());
        var found := FindCommand(state);
        next := RunCommand(found.value.handler, w);
      } else {
        next := ParseBuffered(state, w);
      }
    }

    // ---- Output ----

    /** send of what is unread in out_buff; None is -1. */
    method SendOut(sent: Option<nat>)
      requires Valid()
      modifies `hist, outBuff, outBuff.data
      ensures Valid() && Model() == Send(old(Model()), sent)
    {
      hide Buffer.Model, Buffer.Valid, Parser.Model, Parser.Valid, CString;
      var unread := outBuff.ReadPtr();
      match sent
      case None =>
        outBuff.ReadAdv(-1);
      case Some(k) =>
        var count := if k < unread then k else unread;
        hist := hist.(wire := hist.wire + outBuff.Model().unread[..count]);
        outBuff.ReadAdv(count);
    }

    method WriteCommand(sent: Option<nat>)
      requires Valid()
      modifies `hist, `interest, outBuff, outBuff.data
      ensures Valid() && Model() == Engine.WriteCommand(old(Model()), sent)
    {
      hide Buffer.Model, Buffer.Valid, Parser.Model, Parser.Valid, CString;
      var canRead := outBuff.CanRead();
      if canRead {
        SendOut(sent);
        interest := OP_READ;
      }
    }

    /** server_ready */
    method ServerReady() returns (done: bool)
      requires Valid()
      modifies `hist, outBuff, outBuff.data
      ensures Valid()
      ensures done <==> |WELCOME| <= old(Model()).outq.Room()
      ensures Model() == if done then Reply(old(Model()), WELCOME) else old(Model())
    {
      hide Buffer.Model, Buffer.Valid, Parser.Model, Parser.Valid, CString;
      var n := outBuff.WritePtr();
      done := n >= |WELCOME|;
      if done {
        TryWrite(WELCOME);
      }
    }

    // ---- lib/stm.c and the state table ----

    /** selector_unregister_fd for this connection, with handle_close: nothing may use it afterwards. */
    method HandleClose()
      requires Valid() && open
      modifies `open
      ensures Valid() && Model() == Close(old(Model()))
    {
      hide Buffer.Model, Buffer.Valid, Parser.Model, Parser.Valid, CString;
      open := false;
    }

    method OnDeparture(s: StmState)
      requires Valid()
      modifies `lastState, `aborted
      ensures Valid() && Model() == Depart(old(Model()), s)
    {
      hide Buffer.Model, Buffer.Valid, Parser.Model, Parser.Valid, CString;
      if s == Quit {
        aborted := true;
      } else {
        lastState := Some(s);
      }
    }

    /** The readdir loop of stm_transaction_arrival. */
    method ScanDirectory(w: World)
      requires mails == [] && readIndex == [] && maildirSize < SIZE_T
      modifies `mails, `slots, `readIndex, `maildirSize
      ensures mails == Loaded(w) && readIndex == Zeros(|Loaded(w)|)
      ensures maildirSize == (old(maildirSize) + TotalSize(mails)) % SIZE_T
      ensures slots == if mails == [] || old(slots) > 0 then old(slots) else w.maxMails
    {
      hide Buffer.Model, Buffer.Valid, Parser.Model, Parser.Valid, CString;
      var count := 0;
      hide TotalSize;
      SizeAccumulates(maildirSize, [], Mail("", [], false));
      while count < w.maxMails && count < |w.listing|
        invariant 0 <= count <= Min(w.maxMails, |w.listing|)
        invariant mails == Loaded(w)[..count]
        invariant readIndex == Zeros(count)
        invariant maildirSize == (old(maildirSize) + TotalSize(mails)) % SIZE_T
        invariant slots == if count == 0 || old(slots) > 0 then old(slots) else w.maxMails
      {
        var (path, content) := w.listing[count];
        if slots == 0 {
          slots := w.maxMails;
        }
        SizeAccumulates(old(maildirSize), mails, Mail(path, content, false));
        mails := mails + [Mail(path, content, false)];
        readIndex := readIndex + [0];
        maildirSize := (maildirSize + |content|) % SIZE_T;
        count := count + 1;
      }
    }

    /** stm_transaction_arrival */
    method TransactionArrival(w: World)
      requires Valid()
      modifies `mails, `slots, `readIndex, `maildirSize, `astray, `hist
      ensures Valid() && Model() == LoadMails(old(Model()), w)
    {
      hide Buffer.Model, Buffer.Valid, Parser.Model, Parser.Valid, CString;
      hide TotalSize, Loaded, Arrive, Zeros;
      ghost var c := Model();
      if mails == [] {
        OpenDirectory(w);
        ReadDirectory(w);
        Remember(LoadMails(c, w).hist);
      }
    }

    /** opendir. */
    method OpenDirectory(w: World)
      requires Valid()
      modifies `astray
      ensures Valid()
      ensures var c := old(Model()); Model() == c.(astray := c.astray || !w.directoryOpens)
    {
      hide Buffer.Model, Buffer.Valid, Parser.Model, Parser.Valid, CString;
      if !w.directoryOpens {
        astray := true;
      }
    }

    /** readdir to the end or the limit. */
    method ReadDirectory(w: World)
      requires Valid() && mails == []
      modifies `mails, `slots, `readIndex, `maildirSize
      ensures Valid()
      ensures var c := old(Model());
              Model() == c.(session := Arrive(c.session, w), readIndex := Zeros(|Loaded(w)|))
    {
      hide Buffer.Model, Buffer.Valid, Parser.Model, Parser.Valid, CString;
      hide TotalSize, Loaded;
      ScanDirectory(w);
    }

    method OnArrival(s: StmState, w: World)
      requires Valid() && open
      modifies this, parser
      ensures Valid() && Model() == ArriveAt(old(Model()), s, w)
    {
      hide Buffer.Model, Buffer.Valid, Parser.Model, Parser.Valid, CString;
      hide LoadMails;
      match s
      case Authorization =>
      case Transaction =>
        TransactionArrival(w);
      case Error =>
        parser.Reset();
        interest := OP_WRITE;
      case Quit =>
        if !requestedQuit {
          HandleClose();
        }
    }

    /** jump */
    method Jump(next: Option<StmState>, w: World)
      requires Valid() && open
      modifies this, parser
      ensures Valid() && Model() == Engine.Jump(old(Model()), next, w)
    {
      hide Buffer.Model, Buffer.Valid, Parser.Model, Parser.Valid, CString;
      hide ArriveAt, Depart;
      if next.None? {
        aborted := true;
        return;
      }
      if current != next {
        Leave();
        Enter(next.value);
        OnArrival(next.value, w);
      }
    }

    /** Departure from the current state, if there is one. */
    method Leave()
      requires Valid() && open
      modifies `lastState, `aborted
      ensures Valid() && open
      ensures var c := old(Model()); Model() == if c.current.Some? then Depart(c, c.current.value) else c
    {
      hide Buffer.Model, Buffer.Valid, Parser.Model, Parser.Valid, CString;
      if current.Some? {
        OnDeparture(current.value);
      }
    }

    method Enter(s: StmState)
      requires Valid()
      modifies `current
      ensures Valid() && Model() == old(Model()).(current := Some(s))
    {
      hide Buffer.Model, Buffer.Valid, Parser.Model, Parser.Valid, CString;
      current := Some(s);
    }

    /** handle_first */
    method HandleFirst()
      requires Valid()
      modifies `current
      ensures Valid() && Model() == EnterFirst(old(Model()))
    {
      hide Buffer.Model, Buffer.Valid, Parser.Model, Parser.Valid, CString;
      if current == None {
        current := Some(Authorization);
      }
    }

    method StmHandlerRead(w: World, r: Engine.Recv)
      requires Valid() && Inv(Model()) && open && current.Some?
      modifies Repr()
      ensures Valid() && Model() == StmRead(old(Model()), w, r)
    {
      hide Buffer.Model, Buffer.Valid, Parser.Model, Parser.Valid, CString;
      hide Engine.ReadCommand, Engine.Jump, Core, Tracks;
      HandleFirst();
      match current.value
      case Authorization =>
        ReadReadyIn(Model(), w, r);
        var next := ReadCommand(Authorization, w, r);
        Jump(Some(next), w);
      case Transaction =>
        ReadReadyIn(Model(), w, r);
        var next := ReadCommand(Transaction, w, r);
        Jump(Some(next), w);
      case Error =>
        Jump(Some(Error), w);
      case Quit =>
        Jump(Some(Quit), w);
    }

    /** stm_authorization_write */
    method AuthorizationWrite(sent: Option<nat>)
      requires Valid()
      modifies `hist, `interest, `lastState, outBuff, outBuff.data
      ensures Valid() && Model() == Engine.WriteCommand(Welcome(old(Model())), sent)
    {
      hide Buffer.Model, Buffer.Valid, Parser.Model, Parser.Valid, CString;
      hide Engine.WriteCommand, Reply;
      if lastState == None {
        var done := ServerReady();
        if done {
          lastState := Some(Authorization);
        }
      }
      WriteCommand(sent);
    }

    /** stm_error_write; the state it returns may be -1 for all this function knows. */
    method ErrorWrite() returns (next: Option<StmState>)
      requires Valid() && current == Some(Error)
      modifies `hist, outBuff, outBuff.data
      ensures Valid() && Turn(Model(), next) == OnWriteReady(old(Model()), None)
    {
      hide Buffer.Model, Buffer.Valid, Parser.Model, Parser.Valid, CString;
      hide Reply;
      var room := outBuff.WritePtr();
      if room >= |UNKNOWN_COMMAND| {
        TryWrite(UNKNOWN_COMMAND);
        return lastState;
      }
      return Some(Error);
    }

    method StmHandlerWrite(w: World, sent: Option<nat>)
      requires Valid() && open
      modifies this, parser, outBuff, outBuff.data
      ensures Valid() && Model() == StmWrite(old(Model()), w, sent)
    {
      hide Buffer.Model, Buffer.Valid, Parser.Model, Parser.Valid, CString;
      hide Engine.WriteCommand, Engine.Jump, Welcome, Reply;
      HandleFirst();
      var next := current;
      match current.value {
        case Authorization => AuthorizationWrite(sent);
        case Transaction => WriteCommand(sent);
        case Error => next := ErrorWrite();
        case Quit =>
      }
      Jump(next, w);
    }

    // ---- The callbacks of server/pop3.c ----

    /** handle_read */
    method OnReadable(w: World, r: Engine.Recv)
      requires Valid() && Inv(Model()) && Enabled(Model(), Readable(w, r)) && !astray
      modifies Repr()
      ensures Valid() && Inv(Model()) && Model() == Step(old(Model()), Readable(w, r))
    {
      hide Buffer.Model, Buffer.Valid, Parser.Model, Parser.Valid, CString;
      hide Inv, StmRead;
      ReadableIsLive(Model(), w, r);
      StepKeeps(Model(), Readable(w, r));
      StmHandlerRead(w, r);
    }

    /** The end of handle_write. */
    method FinishWrite(w: World, r: Engine.Recv)
      requires Valid() && Inv(Model()) && Inv(Model().(interest := OP_NOOP)) && open && current.Some?
      modifies Repr()
      ensures Valid() && Model() == AfterSend(old(Model()), w, r)
    {
      hide Buffer.Model, Buffer.Valid, Parser.Model, Parser.Valid, CString;
      hide Inv, StmRead;
      if requestedQuit {
        HandleClose();
      } else {
        var more := inBuff.CanRead();
        if more || !isFinished {
          interest := OP_NOOP;
          StmHandlerRead(w, r);
        } else {
          interest := OP_READ;
        }
      }
    }

    /** handle_write */
    method OnWritable(w: World, sent: Option<nat>, sentAgain: Option<nat>, r: Engine.Recv)
      requires Valid() && Inv(Model()) && Enabled(Model(), Writable(w, sent, sentAgain, r)) && !astray
      modifies Repr()
      ensures Valid() && Inv(Model()) && Model() == Step(old(Model()), Writable(w, sent, sentAgain, r))
    {
      hide Buffer.Model, Buffer.Valid, Parser.Model, Parser.Valid, CString;
      hide Inv, AfterSend, StmWrite, Send;
      StepKeeps(Model(), Writable(w, sent, sentAgain, r));
      StmWriteKeeps(Model(), w, sent);
      StmHandlerWrite(w, sent);
      if astray {
        return;
      }
      SendKeepsInv(Model(), sentAgain);
      SendOut(sentAgain);
      if sentAgain == None {
        HandleClose();
      } else {
        FinishWrite(w, r);
      }
    }
  }
}
