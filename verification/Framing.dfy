/** How read_command cuts the octets it receives into lines: at every CRLF when the parser is at a line start, and the
    same way whatever segments recv delivers. */
module Framing {
  import opened Bytes
  import opened Queues
  import opened CommandParser
  import opened Sessions
  import opened Interests
  import opened Engine
  import opened Running

  // ---- One call of read_command consumes one line ----

  predicate CrlfAt(s: seq<Byte>, k: nat) {
    k + 2 <= |s| && s[k] == CR && s[k + 1] == LF
  }

  /** The first CRLF of s ends at n. */
  ghost predicate FirstLineEnds(s: seq<Byte>, n: nat) {
    2 <= n <= |s| && CrlfAt(s, n - 2) && forall k: nat :: k < n - 2 ==> !CrlfAt(s, k)
  }

  /** The resynchronisation loop stops right after the first CRLF, counting the octet before. */
  lemma {:induction false} SkipLineStops(before: Byte, s: seq<Byte>, n: nat)
    requires FirstLineEnds([before] + s, n + 1) && n >= 1
    ensures SkipLine(s, before == CR) == n
    decreases |s|
  {
    var whole := [before] + s;
    if n == 1 {
      assert whole[0] == CR && whole[1] == LF;
    } else {
      assert !CrlfAt(whole, 0) && s[0] == whole[1];
      var tail := [s[0]] + s[1..];
      assert tail == s;
      assert CrlfAt(s, n - 2) by { assert CrlfAt(whole, n - 1); }
      forall k: nat | k < n - 2 ensures !CrlfAt(s, k) {
        assert !CrlfAt(whole, k + 1);
      }
      SkipLineStops(s[0], s[1..], n - 1);
    }
  }

  /** The line that ends at n has been taken, and nothing else has. */
  predicate TookLine(c: Conn, t: Turn, n: nat) {
    && n <= |c.inq.unread|
    && t.conn.inq.unread == c.inq.unread[n..]
    && t.conn.hist.consumed == c.hist.consumed + c.inq.unread[..n]
    && t.conn.hist.partial == []
    && var line := c.hist.partial + c.inq.unread[..n];
    && t.conn.hist.cuts == c.hist.cuts + [line] && t.conn.hist.lost == (c.hist.lost || !EndsLine(line))
    && if ValidLine(line) then t.conn.hist.lines == c.hist.lines + [line] && t.conn.hist.malformed == c.hist.malformed
       else t.conn.hist.lines == c.hist.lines && t.conn.hist.malformed == c.hist.malformed + 1 && t.next == Some(Error)
  }

  predicate SameReading(a: Conn, b: Conn) {
    && a.hist.received == b.hist.received && a.hist.consumed == b.hist.consumed && a.hist.lines == b.hist.lines
    && a.hist.heard == b.hist.heard && a.hist.cuts == b.hist.cuts && a.hist.lost == b.hist.lost
    && a.hist.calls == b.hist.calls && a.hist.partial == b.hist.partial && a.hist.malformed == b.hist.malformed
  }

  predicate SameInput(a: Conn, b: Conn) {
    SameReading(a, b) && a.inq == b.inq && SameControl(a, b)
  }

  lemma RunOtherInput(c: Conn, h: Handler, w: World)
    ensures SameInput(c, RunOther(c, h, w).conn)
  {
    hide Handle, CString;
  }

  lemma SendPieceInput(c: Conn, i: nat)
    requires i < |c.readIndex| && i < |c.session.mails| && !Retr.Overruns(c.outq.Room(), ProgressOf(c, i))
    ensures SameInput(c, SendPiece(c, i))
  {
    hide Retr.Queued, Retr.After, Retr.CallFits, Retr.Overruns;
  }

  lemma RunRetrInput(c: Conn, i: nat)
    requires i < |c.readIndex| && i < |c.session.mails|
    ensures SameInput(c, RunRetr(c, i))
  {
    hide Retr.Overruns, Retr.Header, SendPiece;
    if !Retr.Overruns(c.outq.Room(), ProgressOf(c, i)) {
      SendPieceInput(c, i);
    }
  }

  lemma RunHandlerInput(c: Conn, h: Handler, w: World)
    ensures SameInput(c, RunHandler(c, h, w).conn)
  {
    hide RunOther, RunRetr, CString, MailNumber;
    var n := MailNumber(CString(c.reader.argument));
    if h == RetrHandler && Exists(c.session, n) && n <= |c.readIndex| {
      RunRetrInput(c.(hist := Record(c, h, w)), n - 1);
    } else {
      RunOtherInput(c, h, w);
    }
  }

  lemma DispatchInput(c: Conn, h: Handler, w: World)
    ensures SameInput(c, Dispatch(c, h, w).conn)
  {
    hide RunHandler, Cleaned;
    RunHandlerInput(c, h, w);
  }

  lemma OnValidTakes(c: Conn, state: StmState, w: World)
    ensures var c' := OnValid(c, state, w).conn;
            && c'.inq == c.inq && c'.hist.consumed == c.hist.consumed && c'.hist.received == c.hist.received
            && c'.hist.lines == c.hist.lines + [c.hist.partial] && c'.hist.partial == []
            && c'.hist.heard == c.hist.heard + [Line(c.hist.partial)]
            && c'.hist.malformed == c.hist.malformed && c'.current == c.current
            && c'.hist.cuts == c.hist.cuts + [c.hist.partial] && c'.hist.lost == c.hist.lost
  {
    hide Dispatch, CString, Lookup;
    var c1 := WithLine(c);
    var found := Lookup(CString(c.reader.command), state);
    if found.Some? {
      var call := HandlerCall(state, found.value.handler, CString(c.reader.argument));
      DispatchInput(WithCall(c1, call), found.value.handler, w);
    }
  }

  lemma FirstLineStep(p: seq<Byte>, s: seq<Byte>, n: nat)
    requires s != [] && FirstLineEnds(p + s, |p| + n)
    ensures FirstLineEnds((p + [s[0]]) + s[1..], |p + [s[0]]| + n - 1)
  {
    assert (p + [s[0]]) + s[1..] == p + s;
  }

  /** After an octet that ended nothing, what is left of the line. */
  lemma FirstLineRest(p: seq<Byte>, b: Byte, s: seq<Byte>, n: nat)
    requires FirstLineEnds((p + [b]) + s, |p| + 1 + n) && n >= 1
    ensures FirstLineEnds([b] + s, n + 1)
  {
    var whole, tail := (p + [b]) + s, [b] + s;
    assert forall i :: 0 <= i < |tail| ==> tail[i] == whole[|p| + i];
    assert CrlfAt(whole, |p| + n - 1);
    forall k: nat | k < n - 1 ensures !CrlfAt(tail, k) {
      assert !CrlfAt(whole, |p| + k);
    }
  }

  lemma TrackedLineIsFirst(r: BoundedReader, p: seq<Byte>, b: Byte, s: seq<Byte>, n: nat)
    requires Tracks(r, p) && FirstLineEnds((p + [b]) + s, |p| + 1 + n)
    ensures n == 0 <==> b == LF && r.state == InEnd
    ensures Feed(r, b).event == ValidCommand <==> ValidLine(p + [b])
    ensures ValidLine(p + [b]) ==> n == 0
    ensures n == 0 ==> Feed(r, b).event == ValidCommand
  {
    var whole := (p + [b]) + s;
    FeedTracks(r, p, b);
    if b == LF && r.state == InEnd {
      assert whole[|p| - 1] == p[|p| - 1] == CR && whole[|p|] == LF;
      assert CrlfAt(whole, |p| - 1);
    }
    if n == 0 {
      assert CrlfAt(whole, |p| - 1) && p[|p| - 1] == CR;
      EndsInCr(r, p);
    }
  }

  lemma EndsInCr(r: BoundedReader, p: seq<Byte>)
    requires Tracks(r, p) && |p| > 0 && p[|p| - 1] == CR
    ensures r.state == InEnd
  {
    match r.state
    case InCommand =>
    case InArgument =>
    case InEnd =>
  }

  /** The parser loop, from anywhere inside a line: it stops exactly after the first CRLF, whether the line turns out
      valid or not. */
  lemma {:induction false} ReadLinesTakesLine(c: Conn, w: World, n: nat)
    requires c.inq.Valid() && ReaderOk(c) && c.finished && StateOf(c) != Error
    requires FirstLineEnds(c.hist.partial + c.inq.unread, |c.hist.partial| + n) && n >= 1
    ensures TookLine(c, ReadLines(c, StateOf(c), w), n)
    decreases |c.inq.unread|
  {
    hide Tracks, ValidLine, TookLine, FirstLineEnds, ReadLines, FeedOctet;
    FirstOctet(c, n);
    match FeedOctet(c).reader.event
    case ValidCommand => TakesValidLine(c, w);
    case InvalidCommand => TakesRestOfLine(c, w, n);
    case Undefined =>
      ReadLinesOnce(c, StateOf(c), w);
      ReadLinesTakesLine(FeedOctet(c), w, n - 1);
      TakesOneMore(c, ReadLines(FeedOctet(c), StateOf(c), w), n);
  }

  /** What the first octet of the rest of a line does. */
  lemma FirstOctet(c: Conn, n: nat)
    requires c.inq.Valid() && ReaderOk(c) && c.finished
    requires FirstLineEnds(c.hist.partial + c.inq.unread, |c.hist.partial| + n) && n >= 1
    ensures c.inq.unread != []
    ensures var c1 := FeedOctet(c);
            && |c1.inq.unread| < |c.inq.unread| && c1.inq.Valid() && c1.finished && StateOf(c1) == StateOf(c)
            && (c1.reader.event == ValidCommand ==> n == 1 && ValidLine(c.hist.partial + [c.inq.unread[0]]))
            && (c1.reader.event != ValidCommand ==> n > 1)
            && (c1.reader.event == Undefined ==>
                  && ReaderOk(c1)
                  && FirstLineEnds(c1.hist.partial + c1.inq.unread, |c1.hist.partial| + (n - 1)))
  {
    hide Tracks, ValidLine, Feed, FirstLineEnds, Queue.Valid;
    var u, p := c.inq.unread, c.hist.partial;
    LineGoesOn(p, u, n);
    FirstLineStep(p, u, n);
    TrackedLineIsFirst(c.reader, p, u[0], u[1..], n - 1);
    FeedTracks(c.reader, p, u[0]);
    AdvanceValid(c.inq);
  }

  lemma AdvanceValid(q: Queue)
    requires q.Valid() && q.unread != []
    ensures q.Advance(1).Valid() && q.Advance(1).unread == q.unread[1..]
  {
  }

  lemma LineGoesOn(p: seq<Byte>, s: seq<Byte>, n: nat)
    requires FirstLineEnds(p + s, |p| + n) && n >= 1
    ensures s != []
  {
  }

  lemma TakesOneMore(c: Conn, t: Turn, n: nat)
    requires c.inq.unread != [] && n > 1 && TookLine(FeedOctet(c), t, n - 1)
    ensures TookLine(c, t, n)
  {
    hide ValidLine, Feed, EndsLine;
    var u, p, b := c.inq.unread, c.hist.partial, c.inq.unread[0];
    assert FeedOctet(c).inq.unread == u[1..];
    var rest := u[1..][..n - 1];
    assert u[..n] == [b] + rest && (p + [b]) + rest == p + u[..n];
    assert u[1..][n - 1..] == u[n..];
  }

  lemma {:induction false} TakesValidLine(c: Conn, w: World)
    requires c.inq.unread != [] && FeedOctet(c).reader.event == ValidCommand
    requires ValidLine(c.hist.partial + [c.inq.unread[0]])
    ensures TookLine(c, ReadLines(c, StateOf(c), w), 1)
  {
    hide ValidLine, Feed, OnValid;
    OnValidTakes(FeedOctet(c), StateOf(c), w);
    LineIsLong(c.hist.partial + [c.inq.unread[0]]);
    assert c.inq.unread[..1] == [c.inq.unread[0]];
  }

  lemma {:induction false} TakesRestOfLine(c: Conn, w: World, n: nat)
    requires c.inq.Valid() && ReaderOk(c) && c.finished && StateOf(c) != Error
    requires FirstLineEnds(c.hist.partial + c.inq.unread, |c.hist.partial| + n) && n > 1
    requires FeedOctet(c).reader.event == InvalidCommand
    ensures TookLine(c, ReadLines(c, StateOf(c), w), n)
  {
    var u, p, b := c.inq.unread, c.hist.partial, c.inq.unread[0];
    hide Tracks, ValidLine, FirstLineEnds, Cleaned, Feed, SkipLine, ReadLines, TookLine;
    FirstLineStep(p, u, n);
    FirstLineRest(p, b, u[1..], n - 1);
    SkipLineStops(b, u[1..], n - 1);
    FeedTracks(c.reader, p, b);
    SkippedIsRest(p, u, n);
    assert !ValidLine((p + [b]) + u[1..][..n - 1]);
    InvalidTakes(c, w, n);
  }

  lemma {:induction false} InvalidTakes(c: Conn, w: World, n: nat)
    requires 1 < n <= |c.inq.unread| && FeedOctet(c).reader.event == InvalidCommand
    requires SkipLine(c.inq.unread[1..], c.inq.unread[0] == CR) == n - 1
    requires !ValidLine(c.hist.partial + c.inq.unread[..n])
    ensures TookLine(c, ReadLines(c, StateOf(c), w), n)
  {
    hide ValidLine, Feed, SkipLine, OnInvalid, EndsLine;
    var u, b := c.inq.unread, c.inq.unread[0];
    SkippedIsRest(c.hist.partial, u, n);
    assert FeedOctet(c).inq.unread == u[1..];
    OnInvalidTakes(FeedOctet(c), b, n - 1);
    assert (c.hist.consumed + [b]) + u[1..][..n - 1] == c.hist.consumed + u[..n];
  }

  lemma OnInvalidTakes(c: Conn, b: Byte, n: nat)
    requires SkipLine(c.inq.unread, b == CR) == n
    ensures n <= |c.inq.unread|
    ensures var t := OnInvalid(c, b);
            && t.conn.inq.unread == c.inq.unread[n..] && t.conn.hist.partial == []
            && t.conn.hist.consumed == c.hist.consumed + c.inq.unread[..n]
            && t.conn.hist.lines == c.hist.lines && t.conn.hist.malformed == c.hist.malformed + 1
            && t.conn.hist.cuts == c.hist.cuts + [c.hist.partial + c.inq.unread[..n]]
            && t.conn.hist.lost == (c.hist.lost || !EndsLine(c.hist.partial + c.inq.unread[..n]))
            && t.conn.hist.heard == c.hist.heard + [Garbage] && t.conn.hist.received == c.hist.received
            && t.next == Some(Error)
  {
    hide Cleaned, SkipLine, EndsLine;
  }

  lemma SkippedIsRest(p: seq<Byte>, u: seq<Byte>, n: nat)
    requires 1 < n <= |u|
    ensures u[..n] == [u[0]] + u[1..][..n - 1] && p + u[..n] == (p + [u[0]]) + u[1..][..n - 1]
    ensures u[1..][n - 1..] == u[n..] && u[1..][..n - 1] != []
  {
    assert u[..n] == [u[0]] + u[1..][..n - 1];
  }

  lemma FirstLineIsThere(s: seq<Byte>, n: nat)
    requires FirstLineEnds(s, n)
    ensures s != [] && 2 <= n <= |s|
  {
  }

  /** Line framing: with the parser at a line start and a CRLF in in_buff, one call of read_command consumes exactly
      the octets through the first CRLF. A line that is not valid is answered with ERROR; a valid one is handed over
      as it is. */
  lemma {:induction false} OneCallOneLine(c: Conn, w: World, n: nat)
    requires Reading(c) && c.finished && c.hist.partial == [] && FirstLineEnds(c.inq.unread, n)
    ensures forall r :: ReadCommand(c, StateOf(c), w, r) == ReadLines(c, StateOf(c), w)
    ensures TookLine(c, ReadLines(c, StateOf(c), w), n)
    ensures c.hist.partial + c.inq.unread[..n] == c.inq.unread[..n]
  {
    hide ReadLines, TookLine, FirstLineEnds, TransfersOk, Tracks;
    assert c.hist.partial + c.inq.unread == c.inq.unread;
    FirstLineIsThere(c.inq.unread, n);
    ReadLinesTakesLine(c, w, n);
  }

  // ---- Whatever the segments ----

  function AsInputs(lines: seq<seq<Byte>>): seq<Input> {
    seq(|lines|, i requires 0 <= i < |lines| => Line(lines[i]))
  }

  /** Everything consumed is the lines read so far and the beginning of the next; and a peer that has only sent valid
      lines has not been misunderstood. */
  predicate Framed(c: Conn, all: seq<seq<Byte>>) {
    && AllValid(c.hist.lines)
    && (c.hist.malformed == 0 ==> c.hist.heard == AsInputs(c.hist.lines))
    && (c.hist.malformed == 0 ==> c.hist.consumed == Flatten(c.hist.lines) + c.hist.partial)
    && (c.hist.received <= Flatten(all) ==> c.hist.malformed == 0)
  }

  lemma FramedDepends(a: Conn, b: Conn, all: seq<seq<Byte>>)
    requires Framed(a, all) && SameReading(a, b)
    ensures Framed(b, all)
  {
  }

  lemma {:induction false} OnValidFramed(c: Conn, w: World, all: seq<seq<Byte>>)
    requires AllValid(c.hist.lines + [c.hist.partial])
    requires c.hist.malformed == 0 ==> c.hist.consumed == Flatten(c.hist.lines) + c.hist.partial
    requires c.hist.malformed == 0 ==> c.hist.heard == AsInputs(c.hist.lines)
    requires c.hist.received <= Flatten(all) ==> c.hist.malformed == 0
    ensures Framed(OnValid(c, StateOf(c), w).conn, all)
  {
    hide OnValid, Flatten, ValidLine;
    OnValidTakes(c, StateOf(c), w);
    FlattenPush(c.hist.lines, c.hist.partial);
    var done := OnValid(c, StateOf(c), w).conn.hist;
    assert Flatten(done.lines) + [] == Flatten(done.lines);
  }

  lemma {:induction false} FeedOctetFramed(c: Conn, all: seq<seq<Byte>>)
    requires BuffersOk(c) && ReaderOk(c) && c.finished && c.inq.unread != []
    requires Framed(c, all) && AllValid(all)
    ensures var c1 := FeedOctet(c);
            && AllValid(c1.hist.lines)
            && (c1.hist.malformed == 0 ==> c1.hist.heard == AsInputs(c1.hist.lines))
            && (c1.hist.malformed == 0 ==> c1.hist.consumed == Flatten(c1.hist.lines) + c1.hist.partial)
            && (c1.hist.received <= Flatten(all) ==> c1.hist.malformed == 0 && c1.reader.event != InvalidCommand)
            && (c1.reader.event == ValidCommand ==> ValidLine(c1.hist.partial))
  {
    hide Flatten, ValidLine, Tracks, Feed, NoneOf;
    var u, p, b, lines := c.inq.unread, c.hist.partial, c.inq.unread[0], c.hist.lines;
    FeedTracks(c.reader, p, b);
    assert u == [b] + u[1..];
    assert (Flatten(lines) + p) + [b] == Flatten(lines) + (p + [b]);
    if c.hist.received <= Flatten(all) {
      assert c.hist.received == (Flatten(lines) + (p + [b])) + u[1..];
      assert Flatten(lines) + (p + [b]) <= c.hist.received;
      NoInvalidInValidStream(c.reader, lines, p, b, all);
    }
  }

  lemma {:induction false} ReadLinesFramed(c: Conn, w: World, all: seq<seq<Byte>>)
    requires Ready(c) && c.finished && StateOf(c) != Error && Framed(c, all) && AllValid(all)
    ensures Framed(ReadLines(c, StateOf(c), w).conn, all)
    decreases |c.inq.unread|
  {
    hide Flatten, ValidLine, Tracks, TransfersOk, OnValid, Feed;
    if c.inq.unread != [] {
      FeedOctetFramed(c, all);
      FeedOctetKeeps(c);
      match FeedOctet(c).reader.event
      case ValidCommand => OnValidFramed(FeedOctet(c), w, all);
      case InvalidCommand =>
      case Undefined => ReadLinesFramed(FeedOctet(c), w, all);
    }
  }

  lemma ReceivedFramed(c: Conn, r: Recv, all: seq<seq<Byte>>)
    requires Framed(c, all)
    ensures Framed(Received(c, r), all) && Received(c, r).finished == c.finished
    ensures StateOf(Received(c, r)) == StateOf(c)
  {
    hide Received, Flatten, ValidLine;
    ReceivedFrame(c, r);
  }

  lemma ReadCommandFramed(c: Conn, w: World, r: Recv, all: seq<seq<Byte>>)
    requires Reading(c) && Framed(c, all) && AllValid(all)
    ensures Framed(ReadCommand(c, StateOf(c), w, r).conn, all)
  {
    hide ReadCommand, Received, ReadLines, Dispatch, Framed, Core, Tracks, AllValid;
    var c1 := Received(c, r);
    ReadCommandCases(c, StateOf(c), w, r);
    ReceivedKeeps(c, r);
    ReceivedFramed(c, r, all);
    if c.finished {
      ReadLinesFramed(c1, w, all);
    } else {
      TransferResumes(c1, w);
      DispatchInput(c1, RetrHandler, w);
      FramedDepends(c1, Dispatch(c1, RetrHandler, w).conn, all);
    }
  }

  lemma LoadMailsInput(c: Conn, w: World)
    ensures SameReading(c, LoadMails(c, w))
  {
    hide Loaded, Arrive;
  }

  lemma SameReadingReflexive(c: Conn)
    ensures SameReading(c, c) && SameReading(c, c.(aborted := true))
  {
  }

  lemma DepartReads(c: Conn, s: StmState)
    ensures SameReading(c, Depart(c, s))
  {
  }

  lemma CurrentReads(c: Conn, next: Option<StmState>)
    ensures SameReading(c, c.(current := next))
  {
  }

  lemma DepartInput(c: Conn, next: Option<StmState>)
    ensures SameReading(c, (if c.current.Some? then Depart(c, c.current.value) else c).(current := next))
  {
    hide SameReading, Depart;
    var c1 := if c.current.Some? then Depart(c, c.current.value) else c;
    SameReadingReflexive(c);
    if c.current.Some? {
      DepartReads(c, c.current.value);
    }
    CurrentReads(c1, next);
    SameReadingTwice(c, c1, c1.(current := next));
  }

  lemma ArriveInput(c: Conn, s: StmState, w: World)
    ensures SameReading(c, ArriveAt(c, s, w))
  {
    hide LoadMails;
    LoadMailsInput(c, w);
  }

  lemma JumpInput(c: Conn, next: Option<StmState>, w: World)
    ensures SameReading(c, Jump(c, next, w))
  {
    hide LoadMails, SameReading;
    SameReadingReflexive(c);
    if next.Some? {
      var c1 := (if c.current.Some? then Depart(c, c.current.value) else c).(current := next);
      DepartInput(c, next);
      ArriveInput(c1, next.value, w);
      SameReadingTwice(c, c1, ArriveAt(c1, next.value, w));
    }
  }

  lemma StmReadFramed(c: Conn, w: World, r: Recv, all: seq<seq<Byte>>)
    requires Inv(c) && c.open && c.current.Some? && Framed(c, all) && AllValid(all)
    ensures Framed(StmRead(c, w, r), all)
  {
    hide Framed, ReadCommand, Jump, Core;
    if Reading(c) {
      ReadCommandFramed(c, w, r, all);
    }
    var t := OnReadReady(c, w, r);
    JumpInput(t.conn, t.next, w);
    FramedDepends(t.conn, StmRead(c, w, r), all);
  }

  lemma SendInput(c: Conn, sent: Option<nat>)
    ensures SameReading(c, Send(c, sent))
  {
  }

  lemma WritingInput(c: Conn, w: World, sent: Option<nat>)
    ensures SameReading(c, StmWrite(c, w, sent))
  {
    hide Jump, OnWriteReady;
    var t := OnWriteReady(EnterFirst(c), sent);
    OnWriteInput(EnterFirst(c), sent);
    JumpInput(t.conn, t.next, w);
  }

  lemma OnWriteInput(c: Conn, sent: Option<nat>)
    ensures SameReading(c, OnWriteReady(c, sent).conn)
  {
    hide Send, Reply, SameReading;
    WriteCommandInput(c, sent);
    WriteCommandInput(Welcome(c), sent);
    ReplyInput(c, WELCOME);
    ReplyInput(c, UNKNOWN_COMMAND);
    WelcomeInput(c);
    SameReadingTwice(c, Welcome(c), WriteCommand(Welcome(c), sent));
  }

  lemma SameReadingTwice(a: Conn, b: Conn, c: Conn)
    requires SameReading(a, b) && SameReading(b, c)
    ensures SameReading(a, c)
  {
  }

  lemma WelcomeInput(c: Conn)
    ensures SameReading(c, Welcome(c))
  {
    hide Reply;
    ReplyInput(c, WELCOME);
  }

  lemma WriteCommandInput(c: Conn, sent: Option<nat>)
    ensures SameReading(c, WriteCommand(c, sent))
  {
    hide Send;
    SendInput(c, sent);
  }

  lemma ReplyInput(c: Conn, message: seq<Byte>)
    ensures SameReading(c, Reply(c, message)) && SameReading(c, c)
  {
  }

  lemma StepFramed(c: Conn, e: Callback, all: seq<seq<Byte>>)
    requires Inv(c) && Framed(c, all) && AllValid(all)
    ensures Framed(Step(c, e), all)
  {
    hide Framed, StmRead, HandleWrite, Inv, AllValid;
    if Enabled(c, e) && !c.astray {
      match e
      case Readable(w, r) => ReadableFramed(c, w, r, all);
      case Shutdown => FramedDepends(c, Close(c), all);
      case Writable(w, sent, sentAgain, r) => HandleWriteFramed(c, w, sent, sentAgain, r, all);
    }
  }

  lemma ReadableFramed(c: Conn, w: World, r: Recv, all: seq<seq<Byte>>)
    requires Inv(c) && c.open && c.interest.read && Framed(c, all) && AllValid(all)
    ensures Framed(StmRead(c, w, r), all)
  {
    hide Framed, StmRead, Core, Tracks, AllValid;
    StmReadFramed(c, w, r, all);
  }

  lemma HandleWriteFramed(c: Conn, w: World, sent: Option<nat>, sentAgain: Option<nat>, r: Recv, all: seq<seq<Byte>>)
    requires Inv(c) && c.open && Framed(c, all) && AllValid(all)
    ensures Framed(HandleWrite(c, w, sent, sentAgain, r), all)
  {
    hide Framed, StmRead, StmWrite, Send, Core, Tracks, AllValid;
    StmWriteKeeps(c, w, sent);
    var c1 := StmWrite(c, w, sent);
    SendKeeps(c1, sentAgain);
    WritingInput(c, w, sent);
    SendInput(c1, sentAgain);
    var c2 := Send(c1, sentAgain);
    FramedDepends(c, c1, all);
    FramedDepends(c, Close(c1), all);
    FramedDepends(c, Close(c2), all);
    FramedDepends(c, c2.(interest := OP_NOOP), all);
    FramedDepends(c, c2.(interest := OP_READ), all);
    if sentAgain.Some? && !c2.session.requestedQuit && (c2.inq.unread != [] || !c2.finished) {
      CoreDepends(c2, c2.(interest := OP_NOOP));
      StmReadFramed(c2.(interest := OP_NOOP), w, r, all);
    }
  }

  lemma {:induction false} AlwaysFramed(r: Run, k: nat, all: seq<seq<Byte>>)
    requires r.Valid() && k < |r.states| && AllValid(all)
    ensures Framed(r.states[k], all)
  {
    hide Inv, Step, Framed, AllValid;
    if k == 0 {
      InitialFramed(all);
    } else {
      AlwaysFramed(r, k - 1, all);
      Reachable(r, k - 1);
      StepFramed(r.states[k - 1], r.events[k - 1], all);
    }
  }

  lemma InitialFramed(all: seq<seq<Byte>>)
    ensures Framed(Initial(), all)
  {
    assert Flatten([]) + [] == [];
  }
}
