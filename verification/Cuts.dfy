/** Where read_command cuts its input, malformed lines included: at every CRLF, unless the end of a malformed line had
    not arrived when it was found out. */
module Cuts {
  import opened Bytes
  import opened CommandParser
  import opened Sessions
  import opened Interests
  import opened Engine
  import opened Running
  import opened Framing

  /** A line with its CRLF, and no other CRLF in it. */
  ghost predicate IsLine(line: seq<Byte>) {
    FirstLineEnds(line, |line|)
  }

  ghost predicate AllLines(lines: seq<seq<Byte>>) {
    forall i :: 0 <= i < |lines| ==> IsLine(lines[i])
  }

  ghost predicate NoCrlf(s: seq<Byte>) {
    forall k: nat :: !CrlfAt(s, k)
  }

  /** What the parser makes of lines. */
  function Classify(lines: seq<seq<Byte>>): seq<Input> {
    seq(|lines|, i requires 0 <= i < |lines| => if ValidLine(lines[i]) then Line(lines[i]) else Garbage)
  }

  ghost predicate Cut(c: Conn) {
    !c.hist.lost ==>
      && c.hist.consumed == Flatten(c.hist.cuts) + c.hist.partial
      && AllLines(c.hist.cuts) && c.hist.heard == Classify(c.hist.cuts)
  }

  lemma CutDepends(a: Conn, b: Conn)
    requires Cut(a) && SameReading(a, b)
    ensures Cut(b)
  {
  }

  lemma ValidIsLine(line: seq<Byte>)
    requires ValidLine(line)
    ensures IsLine(line)
  {
    LineIsLong(line);
    forall k: nat | k < |line| - 2
      ensures !CrlfAt(line, k)
    {
      ValidLineShape(line, k);
    }
  }

  /** The resynchronisation loop passes no CRLF. */
  lemma {:induction false} SkipsOneLine(before: Byte, s: seq<Byte>, k: nat)
    ensures var n := SkipLine(s, before == CR);
            k + 1 < n ==> !CrlfAt([before] + s[..n], k)
    decreases |s|
  {
    var n: int := SkipLine(s, before == CR);
    var whole := [before] + s[..n];
    if k + 1 < n {
      assert whole[0] == before && whole[1] == s[0];
      if k > 0 {
        var j: nat := k - 1;
        SkipsOneLine(s[0], s[1..], j);
        var tail := [s[0]] + s[1..][..n - 1];
        assert SkipLine(s[1..], s[0] == CR) == n - 1;
        assert s[..n] == tail;
        assert whole[1..] == tail;
        assert CrlfAt(whole, k) ==> CrlfAt(tail, j);
      }
    }
  }

  /** What has been fed without an event, and an octet that is INVALID, hold no CRLF. */
  lemma BrokenHasNoCrlf(r: BoundedReader, p: seq<Byte>, b: Byte)
    requires Tracks(r, p) && Feed(r, b).event == InvalidCommand
    ensures NoCrlf(p + [b])
  {
    hide ValidLine, Feed;
    FeedTracks(r, p, b);
    var q := p + [b];
    forall k: nat
      ensures !CrlfAt(q, k)
    {
      if CrlfAt(q, k) && k < |p| - 1 {
        PartialHasNoCr(r, p, k);
      } else if CrlfAt(q, k) {
        assert p[|p| - 1] == CR && b == LF;
        EndsInCr(r, p);
        assert false;
      }
    }
  }

  lemma PartialNoCrlf(r: BoundedReader, p: seq<Byte>)
    requires Tracks(r, p)
    ensures NoCrlf(p)
  {
    forall k: nat
      ensures !CrlfAt(p, k)
    {
      if CrlfAt(p, k) {
        PartialHasNoCr(r, p, k);
      }
    }
  }

  /** What an INVALID octet and the skipped octets after it make is a line, if it ends like one. */
  lemma GarbageIsLine(r: BoundedReader, p: seq<Byte>, b: Byte, u: seq<Byte>)
    requires Tracks(r, p) && Feed(r, b).event == InvalidCommand
    ensures var cut := (p + [b]) + u[..SkipLine(u, b == CR)];
            !ValidLine(cut) && (EndsLine(cut) ==> IsLine(cut))
  {
    hide Tracks, ValidLine, Feed;
    var n := SkipLine(u, b == CR);
    var q, rest := p + [b], u[..n];
    var cut := q + rest;
    FeedTracks(r, p, b);
    assert rest == [] ==> cut == q;
    BrokenHasNoCrlf(r, p, b);
    if EndsLine(cut) {
      forall k: nat | k < |cut| - 2
        ensures !CrlfAt(cut, k)
      {
        if k < |p| {
          assert CrlfAt(cut, k) ==> CrlfAt(q, k);
        } else {
          var j: nat := k - |p|;
          SkipsOneLine(b, u, j);
          assert cut[|p|..] == [b] + rest;
          assert CrlfAt(cut, k) ==> CrlfAt([b] + rest, j);
        }
      }
    }
  }

  lemma ClassifyPush(lines: seq<seq<Byte>>, line: seq<Byte>)
    ensures Classify(lines + [line]) == Classify(lines) + [if ValidLine(line) then Line(line) else Garbage]
  {
    hide ValidLine;
  }

  lemma OneMoreCut(before: Conn, after: Conn, line: seq<Byte>, consumed: seq<Byte>)
    requires !before.hist.lost ==> AllLines(before.hist.cuts) && before.hist.heard == Classify(before.hist.cuts)
                                   && before.hist.consumed + consumed == Flatten(before.hist.cuts) + line
    requires !after.hist.lost ==> !before.hist.lost && IsLine(line)
    requires after.hist.cuts == before.hist.cuts + [line] && after.hist.partial == []
    requires after.hist.consumed == before.hist.consumed + consumed
    requires after.hist.heard == before.hist.heard + [if ValidLine(line) then Line(line) else Garbage]
    ensures Cut(after)
  {
    hide ValidLine, Flatten, IsLine;
    FlattenPush(before.hist.cuts, line);
    ClassifyPush(before.hist.cuts, line);
    assert Flatten(after.hist.cuts) + [] == Flatten(after.hist.cuts);
  }

  lemma FedCut(c: Conn)
    requires Cut(c) && c.inq.unread != []
    ensures Cut(FeedOctet(c))
  {
    hide Feed, Flatten, IsLine, Classify;
    var b := c.inq.unread[0];
    assert (Flatten(c.hist.cuts) + c.hist.partial) + [b] == Flatten(c.hist.cuts) + (c.hist.partial + [b]);
  }

  lemma OnValidCut(c: Conn, w: World)
    requires Cut(c) && ValidLine(c.hist.partial)
    ensures Cut(OnValid(c, StateOf(c), w).conn)
  {
    hide OnValid, ValidLine, Flatten, IsLine;
    OnValidTakes(c, StateOf(c), w);
    ValidIsLine(c.hist.partial);
    assert c.hist.consumed + [] == c.hist.consumed;
    OneMoreCut(c, OnValid(c, StateOf(c), w).conn, c.hist.partial, []);
  }

  /** c is the connection before the octet that is INVALID. */
  lemma OnInvalidCut(c: Conn)
    requires Cut(c) && Tracks(c.reader, c.hist.partial) && c.inq.unread != []
    requires FeedOctet(c).reader.event == InvalidCommand
    ensures Cut(OnInvalid(FeedOctet(c), c.inq.unread[0]).conn)
  {
    hide Tracks, ValidLine, Feed, Flatten, IsLine, EndsLine, OnInvalid, SkipLine, Classify;
    var b, c1 := c.inq.unread[0], FeedOctet(c);
    var n := SkipLine(c1.inq.unread, b == CR);
    GarbageIsLine(c.reader, c.hist.partial, b, c1.inq.unread);
    assert c1.inq.unread == c.inq.unread[1..];
    FedCut(c);
    OnInvalidTakes(c1, b, n);
    var skipped := c1.inq.unread[..n];
    assert (Flatten(c.hist.cuts) + c1.hist.partial) + skipped == Flatten(c.hist.cuts) + (c1.hist.partial + skipped);
    OneMoreCut(c1, OnInvalid(c1, b).conn, c1.hist.partial + skipped, skipped);
  }

  lemma {:induction false} ReadLinesCut(c: Conn, w: World)
    requires Ready(c) && c.finished && StateOf(c) != Error && Cut(c)
    ensures Cut(ReadLines(c, StateOf(c), w).conn)
    decreases |c.inq.unread|
  {
    hide Cut, Core, Tracks, ValidLine, FeedOctet, OnValid, OnInvalid, ReadLines;
    if c.inq.unread != [] {
      OctetFed(c);
      ReadLinesOnce(c, StateOf(c), w);
      FeedOctetKeeps(c);
      FedCut(c);
      match FeedOctet(c).reader.event
      case ValidCommand => OnValidCut(FeedOctet(c), w);
      case InvalidCommand => OnInvalidCut(c);
      case Undefined => ReadLinesCut(FeedOctet(c), w);
    } else {
      ReadLinesDone(c, StateOf(c), w);
    }
  }

  lemma ReadCommandCut(c: Conn, w: World, r: Recv)
    requires Reading(c) && Cut(c)
    ensures Cut(ReadCommand(c, StateOf(c), w, r).conn)
  {
    hide Cut, ReadCommand, Received, ReadLines, Dispatch, Core, Tracks;
    var c1 := Received(c, r);
    ReadCommandCases(c, StateOf(c), w, r);
    ReceivedKeeps(c, r);
    ReceivedFrame(c, r);
    CutIgnoresReceived(c, c1);
    if c.finished {
      ReadLinesCut(c1, w);
    } else {
      TransferResumes(c1, w);
      DispatchInput(c1, RetrHandler, w);
      CutDepends(c1, Dispatch(c1, RetrHandler, w).conn);
    }
  }

  lemma CutIgnoresReceived(a: Conn, b: Conn)
    requires Cut(a) && b.hist == a.hist.(received := b.hist.received)
    ensures Cut(b)
  {
    hide Flatten, Classify, IsLine;
  }

  lemma StmReadCut(c: Conn, w: World, r: Recv)
    requires Inv(c) && c.open && c.current.Some? && Cut(c)
    ensures Cut(StmRead(c, w, r))
  {
    hide Cut, ReadCommand, Jump, Core, Tracks;
    if Reading(c) {
      ReadCommandCut(c, w, r);
    }
    var t := OnReadReady(c, w, r);
    JumpInput(t.conn, t.next, w);
    CutDepends(t.conn, StmRead(c, w, r));
  }

  lemma HandleWriteCut(c: Conn, w: World, sent: Option<nat>, sentAgain: Option<nat>, r: Recv)
    requires Inv(c) && c.open && Cut(c)
    ensures Cut(HandleWrite(c, w, sent, sentAgain, r))
  {
    hide Cut, StmRead, StmWrite, Send, Core, Tracks;
    StmWriteKeeps(c, w, sent);
    var c1 := StmWrite(c, w, sent);
    SendKeeps(c1, sentAgain);
    WritingInput(c, w, sent);
    SendInput(c1, sentAgain);
    var c2 := Send(c1, sentAgain);
    CutDepends(c, c1);
    CutDepends(c, Close(c1));
    CutDepends(c, Close(c2));
    CutDepends(c, c2.(interest := OP_NOOP));
    CutDepends(c, c2.(interest := OP_READ));
    if sentAgain.Some? && !c2.session.requestedQuit && (c2.inq.unread != [] || !c2.finished) {
      CoreDepends(c2, c2.(interest := OP_NOOP));
      StmReadCut(c2.(interest := OP_NOOP), w, r);
    }
  }

  lemma StepCut(c: Conn, e: Callback)
    requires Inv(c) && Cut(c)
    ensures Cut(Step(c, e))
  {
    hide Cut, StmRead, HandleWrite, Inv;
    if Enabled(c, e) && !c.astray {
      match e
      case Readable(w, r) =>
        HasCurrent(c);
        StmReadCut(c, w, r);
      case Shutdown => CutDepends(c, Close(c));
      case Writable(w, sent, sentAgain, r) => HandleWriteCut(c, w, sent, sentAgain, r);
    }
  }

  /** A connection that waits for input has entered its first state. */
  lemma HasCurrent(c: Conn)
    requires Inv(c) && c.interest.read
    ensures c.current.Some?
  {
    hide Core, Tracks;
  }

  lemma {:induction false} AlwaysCut(r: Run, k: nat)
    requires r.Valid() && k < |r.states|
    ensures Cut(r.states[k])
  {
    hide Inv, Step, Cut;
    if k == 0 {
      InitialCut();
    } else {
      AlwaysCut(r, k - 1);
      Reachable(r, k - 1);
      StepCut(r.states[k - 1], r.events[k - 1]);
    }
  }

  lemma InitialCut()
    ensures Cut(Initial())
  {
    assert Flatten([]) + [] == [];
  }

  // ---- Whole runs ----

  /** Pipelined input is cut at its CRLFs, whatever the segments, unless the end of a malformed line came too late: the
      octets consumed are lines that end at their first CRLF, each understood as what it is, and a rest without CRLF. */
  lemma InputIsCut(r: Run, k: nat)
    requires r.Defined(k) && !r.states[k].hist.lost
    ensures var h := r.states[k].hist;
            && h.consumed == Flatten(h.cuts) + h.partial
            && AllLines(h.cuts) && NoCrlf(h.partial) && h.heard == Classify(h.cuts)
  {
    hide Step, Tracks, IsLine, Classify, Flatten, Core;
    AlwaysCut(r, k);
    Reachable(r, k);
    PartialAtRest(r.states[k]);
  }

  lemma PartialAtRest(c: Conn)
    requires Inv(c)
    ensures NoCrlf(c.hist.partial)
  {
    hide Tracks, BuffersOk, TransferOk, DeliveriesOk, CString, SameIgnoringCase, MailNumber, Control;
    if c.finished {
      PartialNoCrlf(c.reader, c.hist.partial);
    }
  }

  /** No line is the beginning of another one. */
  lemma LinesArePrefixFree(a: seq<Byte>, x: seq<Byte>, b: seq<Byte>, y: seq<Byte>)
    requires IsLine(a) && IsLine(b) && a + x == b + y
    ensures a == b && x == y
  {
    var s := a + x;
    assert forall k :: 0 <= k < |a| ==> s[k] == a[k];
    assert forall k :: 0 <= k < |b| ==> s[k] == b[k];
    if |a| < |b| {
      assert CrlfAt(a, |a| - 2) && CrlfAt(b, |a| - 2);
    } else if |b| < |a| {
      assert CrlfAt(b, |b| - 2) && CrlfAt(a, |b| - 2);
    }
    assert a == s[..|a|] && b == s[..|b|] && x == s[|a|..] && y == s[|b|..];
  }

  lemma NoLineHere(p: seq<Byte>, line: seq<Byte>, rest: seq<Byte>)
    requires NoCrlf(p) && IsLine(line)
    ensures p != line + rest
  {
    if p == line + rest {
      assert CrlfAt(line, |line| - 2) && CrlfAt(p, |line| - 2);
    }
  }

  /** A stream is cut in one way only. */
  lemma {:induction false} OneCut(a: seq<seq<Byte>>, p: seq<Byte>, b: seq<seq<Byte>>, q: seq<Byte>)
    requires AllLines(a) && AllLines(b) && NoCrlf(p) && NoCrlf(q) && Flatten(a) + p == Flatten(b) + q
    ensures a == b && p == q
    decreases |a|
  {
    hide Flatten, IsLine;
    FlattenEmpty();
    if a == [] || b == [] {
      assert [] + p == p && [] + q == q;
      if b != [] {
        FlattenCons(b);
        assert b[0] + Flatten(b[1..]) + q == b[0] + (Flatten(b[1..]) + q);
        NoLineHere(p, b[0], Flatten(b[1..]) + q);
      }
      if a != [] {
        FlattenCons(a);
        assert a[0] + Flatten(a[1..]) + p == a[0] + (Flatten(a[1..]) + p);
        NoLineHere(q, a[0], Flatten(a[1..]) + p);
      }
    } else {
      FlattenCons(a);
      FlattenCons(b);
      var x, y := Flatten(a[1..]) + p, Flatten(b[1..]) + q;
      assert a[0] + Flatten(a[1..]) + p == a[0] + x && b[0] + Flatten(b[1..]) + q == b[0] + y;
      LinesArePrefixFree(a[0], x, b[0], y);
      OneCut(a[1..], p, b[1..], q);
      assert a == [a[0]] + a[1..] && b == [b[0]] + b[1..];
    }
  }

  /** Two connections that have received and read the same octets, and have not lost a line end, have heard the same. */
  lemma SameStreamIsHeard(one: Run, i: nat, other: Run, j: nat)
    requires one.Defined(i) && other.Defined(j)
    requires var c, d := one.states[i], other.states[j];
             && c.hist.received == d.hist.received && c.inq.unread == d.inq.unread == []
             && !c.hist.lost && !d.hist.lost
    ensures one.states[i].hist.heard == other.states[j].hist.heard
  {
    hide Step, Inv, Flatten, IsLine, Classify;
    InputIsCut(one, i);
    InputIsCut(other, j);
    Reachable(one, i);
    Reachable(other, j);
    var c, d := one.states[i], other.states[j];
    AllConsumed(c);
    AllConsumed(d);
    OneCut(c.hist.cuts, c.hist.partial, d.hist.cuts, d.hist.partial);
  }

  lemma AllConsumed(c: Conn)
    requires Inv(c)
    ensures c.hist.received == c.hist.consumed + c.inq.unread
    ensures c.inq.unread == [] ==> c.hist.received == c.hist.consumed
  {
    hide TransfersOk, Tracks, Control;
    assert c.hist.consumed + [] == c.hist.consumed;
  }

  // ---- Segments of whole lines ----

  predicate WholeLines(e: Callback) {
    e.Shutdown? || e.recv.RecvFailed?
    || e.recv.bytes == [] || (|e.recv.bytes| <= BUFFER_SIZE && EndsLine(e.recv.bytes))
  }

  /** What has been received and not consumed. */
  function Rest(c: Conn): seq<Byte> {
    if |c.hist.consumed| <= |c.hist.received| then c.hist.received[|c.hist.consumed|..] else []
  }

  /** At a line start, with whole lines to come. */
  predicate OnLine(c: Conn) {
    !c.hist.lost && c.hist.partial == [] && (Rest(c) == [] || EndsLine(Rest(c)))
  }

  lemma RestIsUnread(c: Conn)
    requires BuffersOk(c)
    ensures Rest(c) == c.inq.unread
  {
  }

  lemma OnLineDepends(a: Conn, b: Conn)
    requires OnLine(a) && SameReading(a, b)
    ensures OnLine(b)
  {
  }

  /** The first line of whole lines, and whole lines after it. */
  lemma {:induction false} FirstOfWhole(s: seq<Byte>) returns (n: nat)
    requires EndsLine(s)
    ensures FirstLineEnds(s, n) && EndsLine(s[..n]) && (s[n..] == [] || EndsLine(s[n..]))
  {
    n := 2;
    while !CrlfAt(s, n - 2)
      invariant 2 <= n <= |s| && forall k: nat :: k < n - 2 ==> !CrlfAt(s, k)
      decreases |s| - n
    {
      assert CrlfAt(s, |s| - 2);
      n := n + 1;
    }
    assert s[n - 1] == LF && s[|s| - 2] == CR;
  }

  lemma StillOnLine(c: Conn, after: Conn, n: nat)
    requires OnLine(c) && Rest(c) == c.inq.unread && c.hist.received == c.hist.consumed + c.inq.unread
    requires n <= |c.inq.unread| && EndsLine(c.inq.unread[..n])
    requires c.inq.unread[n..] == [] || EndsLine(c.inq.unread[n..])
    requires after.hist.received == c.hist.received && after.hist.partial == []
    requires after.hist.consumed == c.hist.consumed + c.inq.unread[..n]
    requires after.hist.lost == (c.hist.lost || !EndsLine(c.inq.unread[..n]))
    ensures OnLine(after)
  {
    hide EndsLine;
    var u := c.inq.unread;
    assert c.hist.received == (c.hist.consumed + u[..n]) + u[n..];
    assert Rest(after) == u[n..];
  }

  lemma {:induction false} ReadLinesOnLine(c: Conn, w: World)
    requires Reading(c) && c.finished && OnLine(c)
    ensures OnLine(ReadLines(c, StateOf(c), w).conn)
  {
    hide ReadLines, TransfersOk, Tracks, FirstLineEnds, ValidLine, EndsLine, OnLine, Rest;
    RestIsUnread(c);
    var u := c.inq.unread;
    if u == [] {
      ReadLinesDone(c, StateOf(c), w);
    } else {
      OnLineParts(c);
      var n := FirstOfWhole(u);
      OneCallOneLine(c, w, n);
      ReadingReceives(c, w);
      assert [] + u[..n] == u[..n];
      StillOnLine(c, ReadLines(c, StateOf(c), w).conn, n);
    }
  }

  lemma OnLineParts(c: Conn)
    requires OnLine(c)
    ensures c.hist.partial == [] && (Rest(c) == [] || EndsLine(Rest(c)))
  {
  }

  lemma {:induction false} ReadingReceives(c: Conn, w: World)
    ensures ReadLines(c, StateOf(c), w).conn.hist.received == c.hist.received
    decreases |c.inq.unread|
  {
    hide ReadLines, OnValid, OnInvalid, Feed;
    if c.inq.unread != [] {
      var c1 := FeedOctet(c);
      ReadLinesOnce(c, StateOf(c), w);
      match c1.reader.event
      case ValidCommand => OnValidTakes(c1, StateOf(c), w);
      case InvalidCommand => OnInvalidTakes(c1, c.inq.unread[0], SkipLine(c1.inq.unread, c.inq.unread[0] == CR));
      case Undefined => ReadingReceives(c1, w);
    } else {
      ReadLinesDone(c, StateOf(c), w);
    }
  }

  lemma ReceivedOnLine(c: Conn, r: Recv)
    requires Reading(c) && OnLine(c)
    requires r.RecvFailed? || r.bytes == [] || (|r.bytes| <= BUFFER_SIZE && EndsLine(r.bytes))
    ensures OnLine(Received(c, r))
  {
    hide TransfersOk, Tracks, EndsLine;
    if c.inq.unread == [] && r.Segment? {
      var c1 := Received(c, r);
      assert Take(r.bytes, c.inq.Room()) == r.bytes;
      assert c.hist.consumed + [] == c.hist.consumed;
      assert Rest(c1) == r.bytes;
    }
  }

  lemma ReadCommandOnLine(c: Conn, w: World, r: Recv)
    requires Reading(c) && OnLine(c)
    requires r.RecvFailed? || r.bytes == [] || (|r.bytes| <= BUFFER_SIZE && EndsLine(r.bytes))
    ensures OnLine(ReadCommand(c, StateOf(c), w, r).conn)
  {
    hide OnLine, ReadCommand, Received, ReadLines, Dispatch, Core, Tracks, EndsLine;
    var c1 := Received(c, r);
    ReadCommandCases(c, StateOf(c), w, r);
    ReceivedKeeps(c, r);
    ReceivedFrame(c, r);
    ReceivedOnLine(c, r);
    if c.finished {
      ReadLinesOnLine(c1, w);
    } else {
      TransferResumes(c1, w);
      DispatchInput(c1, RetrHandler, w);
      OnLineDepends(c1, Dispatch(c1, RetrHandler, w).conn);
    }
  }

  lemma StmReadOnLine(c: Conn, w: World, r: Recv)
    requires Inv(c) && c.open && c.current.Some? && OnLine(c) && WholeLines(Readable(w, r))
    ensures OnLine(StmRead(c, w, r))
  {
    hide OnLine, ReadCommand, Jump, Core, Tracks, EndsLine;
    if Reading(c) {
      ReadCommandOnLine(c, w, r);
    }
    var t := OnReadReady(c, w, r);
    JumpInput(t.conn, t.next, w);
    OnLineDepends(t.conn, StmRead(c, w, r));
  }

  lemma HandleWriteOnLine(c: Conn, w: World, sent: Option<nat>, sentAgain: Option<nat>, r: Recv)
    requires Inv(c) && c.open && OnLine(c) && WholeLines(Readable(w, r))
    ensures OnLine(HandleWrite(c, w, sent, sentAgain, r))
  {
    hide OnLine, StmRead, StmWrite, Send, Core, Tracks, EndsLine;
    StmWriteKeeps(c, w, sent);
    var c1 := StmWrite(c, w, sent);
    SendKeeps(c1, sentAgain);
    WritingInput(c, w, sent);
    SendInput(c1, sentAgain);
    var c2 := Send(c1, sentAgain);
    OnLineDepends(c, c1);
    OnLineDepends(c, Close(c1));
    OnLineDepends(c, Close(c2));
    OnLineDepends(c, c2.(interest := OP_NOOP));
    OnLineDepends(c, c2.(interest := OP_READ));
    if sentAgain.Some? && !c2.session.requestedQuit && (c2.inq.unread != [] || !c2.finished) {
      CoreDepends(c2, c2.(interest := OP_NOOP));
      StmReadOnLine(c2.(interest := OP_NOOP), w, r);
    }
  }

  lemma StepOnLine(c: Conn, e: Callback)
    requires Inv(c) && OnLine(c) && WholeLines(e)
    ensures OnLine(Step(c, e))
  {
    hide OnLine, StmRead, HandleWrite, Inv, EndsLine;
    if Enabled(c, e) && !c.astray {
      match e
      case Readable(w, r) =>
        HasCurrent(c);
        StmReadOnLine(c, w, r);
      case Shutdown => OnLineDepends(c, Close(c));
      case Writable(w, sent, sentAgain, r) => HandleWriteOnLine(c, w, sent, sentAgain, r);
    }
  }

  /** If every segment is whole lines, valid or not, no line end is lost: after every callback the parser is at a line
      start, and the input is cut at every CRLF. */
  lemma {:induction false} WholeLinesAreNotLost(r: Run, k: nat)
    requires r.Valid() && k < |r.states| && forall i :: 0 <= i < |r.events| ==> WholeLines(r.events[i])
    ensures !r.states[k].hist.lost && r.states[k].hist.partial == []
    ensures OnLine(r.states[k])
  {
    hide Inv, Step, OnLine, WholeLines;
    if k == 0 {
      InitialOnLine();
      OnLineMeans(r.states[0]);
    } else {
      WholeLinesAreNotLost(r, k - 1);
      Reachable(r, k - 1);
      StepOnLine(r.states[k - 1], r.events[k - 1]);
      OnLineMeans(r.states[k]);
    }
  }

  lemma OnLineMeans(c: Conn)
    requires OnLine(c)
    ensures !c.hist.lost && c.hist.partial == []
  {
  }

  lemma InitialOnLine()
    ensures OnLine(Initial())
  {
  }
}
