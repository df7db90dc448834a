/** RFC 2449 section 6.6: a client may send its commands without waiting, and reads the replies in the order of the
    commands. As long as the output buffer cut nothing, what it reads is the welcome and the replies of the reference.
    */
module Replies {
  import opened Bytes
  import opened Stuffing
  import opened Retr
  import opened CommandParser
  import opened Sessions
  import opened Commands
  import opened Interests
  import opened Engine
  import opened Running
  import opened Framing
  import opened Chronicle
  import opened Protocol
  import opened Cuts

  /** The mail under way. */
  function TransferMail(c: Conn): seq<Byte> {
    var n := c.hist.transfer.number;
    if 1 <= n <= |c.session.mails| then c.session.mails[n - 1].content else []
  }

  /** The stuffing flag, and the output, once what has been begun is completed: a mail, or the answer to an error. */
  function FlagWhenDone(c: Conn): Flag {
    if c.finished then c.flag else FlagAfter(c.hist.transfer.start, TransferMail(c))
  }

  function OutputWhenDone(c: Conn, error: bool): seq<Byte> {
    var accepted := c.hist.accepted;
    if !c.finished then
      accepted[..Min(c.hist.transfer.before, |accepted|)] + Transmission(c.hist.transfer.start, TransferMail(c))
    else if error then accepted + UNKNOWN_COMMAND
    else accepted
  }

  /** This output is the whole answer if nothing was cut, and else it is shorter, or may still become so. */
  predicate Amounts(output: seq<Byte>, whole: seq<Byte>, cut: bool, settled: bool) {
    if !cut then output == whole else if settled then |output| < |whole| else |output| <= |whole|
  }

  /** The connection has queued what the reference answers; less if some reply was cut. */
  predicate Answers(c: Conn, error: bool, r: Reference) {
    !c.astray ==>
      && FlagWhenDone(c) == r.flag
      && Amounts(OutputWhenDone(c, error), WELCOME + r.output, c.hist.cut, c.finished || c.hist.transfer.whole)
  }

  predicate Answered(c: Conn, ws: Worlds) {
    WellFormed(c.hist.heard) &&
    if c.current.None? then
      && c.hist.accepted == [] && c.hist.heard == [] && c.flag == AnyCharacter && c.finished && !c.hist.cut
      && c.outq.Room() == BUFFER_SIZE
    else Answers(c, c.current == Some(Error), Interpret(ws, c.hist.heard))
  }

  predicate TurnAnswered(t: Turn, ws: Worlds) {
    WellFormed(t.conn.hist.heard)
    && Answers(t.conn, t.next == Some(Error), Interpret(ws, t.conn.hist.heard))
  }

  /** What the predicates above look at. */
  predicate SameOutput(a: Conn, b: Conn) {
    && a.hist.accepted == b.hist.accepted && a.hist.cut == b.hist.cut && a.hist.transfer == b.hist.transfer
    && a.hist.heard == b.hist.heard && a.finished == b.finished && a.flag == b.flag && a.astray == b.astray
    && (!a.finished ==> a.session.mails == b.session.mails)
  }

  lemma AnswersDepends(a: Conn, b: Conn, error: bool, r: Reference)
    requires Answers(a, error, r) && SameOutput(a, b)
    ensures Answers(b, error, r)
  {
    hide FlagAfter, Transmission, Amounts;
  }

  /** More is answered, and more is queued. */
  lemma AmountsMore(output: seq<Byte>, before: seq<Byte>, cut: bool, settled: bool, message: seq<Byte>)
    requires Amounts(output, WELCOME + before, cut, settled)
    ensures Amounts(output + message, WELCOME + (before + message), cut, settled)
  {
    hide WELCOME;
    assert WELCOME + (before + message) == (WELCOME + before) + message;
  }

  /** Nothing is claimed of a connection that has gone astray. */
  lemma AstrayAnswers(c: Conn, error: bool, r: Reference)
    requires c.astray
    ensures Answers(c, error, r)
  {
  }

  // ---- Handlers ----

  /** One reply that is not cut. */
  lemma ReplyAnswers(c: Conn, message: seq<Byte>, r: Reference)
    requires c.finished && !c.astray && Answers(c, false, r)
    ensures Answers(Reply(c, message), false, r.(output := r.output + message))
  {
    if |message| <= c.outq.Room() {
      assert WELCOME + (r.output + message) == (WELCOME + r.output) + message;
    }
  }

  /** An error, before it is answered. */
  lemma RefuseAnswers(c: Conn, after: World, r: Reference)
    requires c.finished && Answers(c, false, r)
    ensures Answers(c, true, Refuse(after, r))
  {
    hide Arrive, Amounts;
    if !c.astray {
      AmountsMore(c.hist.accepted, r.output, c.hist.cut, true, UNKNOWN_COMMAND);
    }
  }

  /** The reply of every handler but RETR of a mail. */
  lemma RunOtherReplies(c: Conn, h: Handler, w: World, r: Reference)
    requires c.finished && !c.astray && Answers(c, false, r)
    ensures var o := Handle(h, StateOf(c), c.reader.argumentLength > 0, CString(c.reader.argument), c.session, w);
            Answers(RunOther(c, h, w).conn, false, r.(output := r.output + o.reply))
    ensures RunOther(c, h, w).conn.finished
  {
    hide Handle, CString, Reply, Answers, BeforeReply, StateOf;
    var o := Handle(h, StateOf(c), c.reader.argumentLength > 0, CString(c.reader.argument), c.session, w);
    var before := BeforeReply(c, h, w, o);
    BeforeReplyOutput(c, h, w, o);
    AnswersDepends(c, before, false, r);
    ReplyAnswers(before, o.reply, r);
    ReplyFrame(before, o.reply);
  }

  /** What the reference answers for them. */
  lemma CallOutput(w: World, after: World, r: Reference, h: Handler, has: bool, argument: seq<Byte>)
    requires !(h == RetrHandler && Exists(r.session, MailNumber(argument)))
    ensures var o := Handle(h, r.phase, has, argument, r.session, w);
            var next := Call(w, after, r, h, has, argument);
            && next.flag == r.flag
            && next.output == r.output + o.reply + (if o.next == Error then UNKNOWN_COMMAND else [])
  {
    hide Handle, MailNumber, Arrive, FlagAfter, Transmission;
    var o := Handle(h, r.phase, has, argument, r.session, w);
    assert (r.output + o.reply) + [] == r.output + o.reply;
  }

  lemma ErrorAnswers(c: Conn, r: Reference, next: Reference)
    requires c.finished && Answers(c, false, r)
    ensures next.flag == r.flag && next.output == r.output + UNKNOWN_COMMAND ==> Answers(c, true, next)
    ensures next.flag == r.flag && next.output == r.output + [] ==> Answers(c, false, next)
  {
    hide Amounts;
    if !c.astray {
      AmountsMore(c.hist.accepted, r.output, c.hist.cut, true, UNKNOWN_COMMAND);
    }
    assert r.output + [] == r.output;
  }

  lemma RunOtherAnswers(c: Conn, h: Handler, w: World, after: World, r: Reference)
    requires c.finished && !c.astray && Answers(c, false, r) && c.session == r.session && StateOf(c) == r.phase
    requires !(h == RetrHandler && Exists(c.session, MailNumber(CString(c.reader.argument))))
    ensures var t := RunOther(c, h, w);
            var next := Call(w, after, r, h, c.reader.argumentLength > 0, CString(c.reader.argument));
            Answers(t.conn, t.next == Some(Error), next)
  {
    hide Handle, CString, MailNumber, Answers, Call, RunOther;
    var has, argument := c.reader.argumentLength > 0, CString(c.reader.argument);
    var o := Handle(h, r.phase, has, argument, r.session, w);
    RunOtherReplies(c, h, w, r);
    RunOtherSession(c, h, w);
    CallOutput(w, after, r, h, has, argument);
    ErrorAnswers(RunOther(c, h, w).conn, r.(output := r.output + o.reply), Call(w, after, r, h, has, argument));
  }

  lemma BeforeReplyOutput(c: Conn, h: Handler, w: World, o: Outcome)
    requires c.finished
    ensures SameOutput(c, BeforeReply(c, h, w, o)) && BeforeReply(c, h, w, o).finished
  {
  }

  lemma RecordOutput(c: Conn, h: Handler, w: World)
    ensures SameOutput(c, c.(hist := Record(c, h, w)))
  {
  }

  /** One call of retr_handler, the first for its mail or a later one. */
  lemma SendPieceAnswers(c: Conn, i: nat, r: Reference)
    requires IndexesOk(c) && TransferOk(c) && CalledFor(c, i) && !Overruns(c.outq.Room(), ProgressOf(c, i))
    requires var content := c.session.mails[i].content;
             if c.finished then
               && r.flag == FlagAfter(c.flag, content)
               && Amounts(c.hist.accepted + Transmission(c.flag, content), WELCOME + r.output, c.hist.cut, true)
             else Answers(c, false, r)
    ensures Answers(SendPiece(c, i), false, r)
  {
    hide Queued, After, CallFits, FlagAfter, Transmission, AccountOk, CString, SameIgnoringCase, MailNumber, Overruns;
    SendPieceAccount(c, i);
    var c' := SendPiece(c, i);
    var t, before := c'.hist.transfer, c.hist.accepted[..c'.hist.transfer.before];
    assert t.number == i + 1 && TransferMail(c') == c.session.mails[i].content;
    assert c'.hist.accepted[..t.before] == before;
    assert c'.hist.accepted == before + c'.hist.accepted[t.before..];
    assert c.finished ==> before == c.hist.accepted;
  }

  lemma RunRetrAnswers(c: Conn, i: nat, r: Reference)
    requires IndexesOk(c) && TransferOk(c) && CalledFor(c, i)
    requires var content := c.session.mails[i].content;
             if c.finished then
               && r.flag == FlagAfter(c.flag, content)
               && Amounts(c.hist.accepted + Transmission(c.flag, content), WELCOME + r.output, c.hist.cut, true)
             else Answers(c, false, r)
    ensures Answers(RunRetr(c, i), false, r)
  {
    hide IndexesOk, TransferOk, CalledFor, SendPiece, FlagAfter, Transmission, Overruns, Reply;
    NumberCalledFor(c, i);
    if !Overruns(c.outq.Room(), ProgressOf(c, i)) {
      SendPieceAnswers(c, i, r);
    }
  }

  /** RETR of a mail from its start. */
  lemma RetrAnswers(c: Conn, i: nat, w: World, after: World, r: Reference)
    requires IndexesOk(c) && TransferOk(c) && CalledFor(c, i) && c.finished && !c.astray
    requires Answers(c, false, r) && c.session == r.session && StateOf(c) == r.phase
    ensures Answers(RunRetr(c, i), false, Call(w, after, r, RetrHandler, c.reader.argumentLength > 0,
             CString(c.reader.argument)))
  {
    hide IndexesOk, TransferOk, CalledFor, RunRetr, FlagAfter, Transmission, CString, MailNumber, Handle, Arrive,
         Amounts;
    NumberCalledFor(c, i);
    AmountsMore(c.hist.accepted, r.output, c.hist.cut, true, Transmission(r.flag, c.session.mails[i].content));
    RunRetrAnswers(c, i, Call(w, after, r, RetrHandler, c.reader.argumentLength > 0, CString(c.reader.argument)));
  }

  lemma NumberCalledFor(c: Conn, i: nat)
    requires IndexesOk(c) && CalledFor(c, i)
    ensures i < |c.readIndex| == |c.session.mails| && MailNumber(CString(c.reader.argument)) == i + 1
  {
    hide CString, MailNumber, SameIgnoringCase;
  }

  lemma HandlerAnswers(c: Conn, h: Handler, w: World, after: World, r: Reference)
    requires Core(c) && Runnable(c, h) && c.finished && !c.astray
    requires Answers(c, false, r) && c.session == r.session && StateOf(c) == r.phase
    ensures var t := RunHandler(c, h, w);
            var next := Call(w, after, r, h, c.reader.argumentLength > 0, CString(c.reader.argument));
            Answers(t.conn, t.next == Some(Error), next)
  {
    hide RunRetr, RunOther, CString, MailNumber, Answers, Call, BuffersOk, TransferOk, DeliveriesOk, SameIgnoringCase,
         GoesAstray;
    var t := RunHandler(c, h, w);
    var n := MailNumber(CString(c.reader.argument));
    if GoesAstray(c, h, w) {
      AstrayAnswers(t.conn, false, Call(w, after, r, h, c.reader.argumentLength > 0, CString(c.reader.argument)));
    } else if h == RetrHandler && Exists(c.session, n) && n <= |c.readIndex| {
      var c1 := c.(hist := Record(c, h, w));
      CoreDepends(c, c1);
      RecordOutput(c, h, w);
      AnswersDepends(c, c1, false, r);
      RetrAnswers(c1, n - 1, w, after, r);
    } else {
      RunOtherAnswers(c, h, w, after, r);
    }
  }

  /** What a dispatch queues is the reply of the reference. */
  lemma DispatchAnswers(c: Conn, h: Handler, w: World, after: World, r: Reference)
    requires Core(c) && Runnable(c, h) && c.finished && !c.astray
    requires Answers(c, false, r) && c.session == r.session && StateOf(c) == r.phase
    ensures var t := Dispatch(c, h, w);
            var next := Call(w, after, r, h, c.reader.argumentLength > 0, CString(c.reader.argument));
            Answers(t.conn, t.next == Some(Error), next)
  {
    hide RunHandler, CString, Answers, Call, Core, Cleaned;
    var t := RunHandler(c, h, w);
    var next := Call(w, after, r, h, c.reader.argumentLength > 0, CString(c.reader.argument));
    HandlerAnswers(c, h, w, after, r);
    AnswersDepends(t.conn, Dispatch(c, h, w).conn, t.next == Some(Error), next);
  }

  // ---- read_command ----

  lemma HistoryAnswers(c: Conn, call: HandlerCall, error: bool, r: Reference)
    requires Answers(c, error, r)
    ensures Answers(WithLine(c), error, r) && Answers(CleanCommand(WithLine(c)), error, r)
    ensures Answers(WithCall(WithLine(c), call), error, r)
  {
    hide Answers, Cleaned;
    HeardAnswers(c, WithLine(c), error, r);
    HeardAnswers(c, CleanCommand(WithLine(c)), error, r);
    HeardAnswers(c, WithCall(WithLine(c), call), error, r);
  }

  /** That a line has been heard is no output. */
  lemma HeardAnswers(a: Conn, b: Conn, error: bool, r: Reference)
    requires Answers(a, error, r) && SameOutput(a, b.(hist := b.hist.(heard := a.hist.heard)))
    ensures Answers(b, error, r)
  {
    hide FlagAfter, Transmission, Amounts;
  }

  lemma AcceptedAnswers(c: Conn, h: Handler, w: World, after: World, r: Reference)
    requires Core(c) && c.finished && !c.astray && c.reader.state == InCommand && c.session == r.session
    requires StateOf(c) == r.phase
    requires h == RetrHandler ==> SameIgnoringCase(Ascii("RETR"), CString(c.reader.command))
    requires Answers(c, false, r)
    ensures var t := Dispatch(WithCall(WithLine(c), HandlerCall(r.phase, h, CString(c.reader.argument))), h, w);
            var next := Call(w, after, r, h, c.reader.argumentLength > 0, CString(c.reader.argument));
            Answers(t.conn, t.next == Some(Error), next)
  {
    hide Answers, Call, Dispatch, Core, CString, SameIgnoringCase;
    var call := HandlerCall(r.phase, h, CString(c.reader.argument));
    HistoryAnswers(c, call, false, r);
    CoreDepends(c, WithCall(WithLine(c), call));
    DispatchAnswers(WithCall(WithLine(c), call), h, w, after, r);
  }

  lemma {:induction false} OnValidAnswers(c: Conn, line: seq<Byte>, w: World, ws: Worlds)
    requires w == ws.reading(|c.hist.heard|)
    requires JustRead(c, line) && Core(c) && c.finished && !c.astray && c.reader.state == InCommand
    requires WellFormed(c.hist.heard)
    requires var r := Interpret(ws, c.hist.heard);
             c.session == r.session && StateOf(c) == r.phase && Answers(c, false, r)
    ensures TurnAnswered(OnValid(c, StateOf(c), w), ws)
  {
    hide Core, Answers, Interpret, Obey, Call, Refuse, Meant, Dispatch, OnValid, CString, SameIgnoringCase,
         WellFormed, ValidLine, LineName, LineArgument, CleanCommand;
    var n, r := |c.hist.heard|, Interpret(ws, c.hist.heard);
    InterpretPush(ws, c.hist.heard, Line(line));
    LineRuns(c, r.phase, w);
    OnValidTakes(c, r.phase, w);
    ObeyLine(c, line, w, ws.returning(n + 1), r);
    MeantSuits(r.phase, CString(c.reader.command), c.reader.argumentLength > 0);
    match Meant(r.phase, CString(c.reader.command), c.reader.argumentLength > 0) {
      case Some(h) => AcceptedAnswers(c, h, w, ws.returning(n + 1), r);
      case None =>
        RefuseAnswers(c, ws.returning(n + 1), r);
        HistoryAnswers(c, HandlerCall(r.phase, UserHandler, []), true, Refuse(ws.returning(n + 1), r));
    }
  }

  lemma {:induction false} OnInvalidAnswers(c: Conn, b: Byte, ws: Worlds)
    requires c.finished && !c.astray && WellFormed(c.hist.heard) && Answers(c, false, Interpret(ws, c.hist.heard))
    ensures TurnAnswered(OnInvalid(c, b), ws)
  {
    hide Interpret, Refuse, SkipLine, Cleaned, WellFormed, Answers;
    var n, r := |c.hist.heard|, Interpret(ws, c.hist.heard);
    InterpretPush(ws, c.hist.heard, Garbage);
    RefuseAnswers(c, ws.returning(n + 1), r);
    SkippedAnswers(c, b, Refuse(ws.returning(n + 1), r));
  }

  lemma SkippedAnswers(c: Conn, b: Byte, r: Reference)
    requires Answers(c, true, r)
    ensures Answers(OnInvalid(c, b).conn, true, r)
  {
    hide SkipLine, Cleaned, Answers, EndsLine;
    HeardAnswers(c, OnInvalid(c, b).conn, true, r);
  }

  lemma FedAnswers(c: Conn, r: Reference)
    requires c.inq.unread != [] && Answers(c, false, r)
    ensures Answers(FeedOctet(c), false, r)
  {
    hide Feed, Answers;
    AnswersDepends(c, FeedOctet(c), false, r);
  }

  lemma {:induction false} ReadLinesAnswers(c: Conn, w: World, ws: Worlds)
    requires Ready(c) && c.finished && !c.astray && WellFormed(c.hist.heard) && StateOf(c) != Error
    requires var r := Interpret(ws, c.hist.heard);
             c.session == r.session && StateOf(c) == r.phase && Answers(c, false, r)
    requires |ReadLines(c, StateOf(c), w).conn.hist.heard| > |c.hist.heard| ==> w == ws.reading(|c.hist.heard|)
    ensures TurnAnswered(ReadLines(c, StateOf(c), w), ws)
    decreases |c.inq.unread|
  {
    hide Answers, Interpret, OnValid, OnInvalid, WellFormed, Feed, Tracks, TransfersOk, BuffersOk, CString, ValidLine,
         ReadLines;
    if c.inq.unread != [] {
      var c1 := FeedOctet(c);
      ReadLinesOnce(c, StateOf(c), w);
      FeedOctetKeeps(c);
      FedAnswers(c, Interpret(ws, c.hist.heard));
      match c1.reader.event
      case ValidCommand =>
        FeedDelivers(c);
        OnValidTakes(c1, StateOf(c), w);
        OnValidAnswers(c1, c1.hist.partial, w, ws);
      case InvalidCommand => OnInvalidAnswers(c1, c.inq.unread[0], ws);
      case Undefined => ReadLinesAnswers(c1, w, ws);
    } else {
      ReadLinesDone(c, StateOf(c), w);
    }
  }

  /** A transfer under way goes on with the same reply. */
  lemma ResumeAnswers(c: Conn, w: World, r: Reference)
    requires Reading(c) && !c.finished && !c.astray && Answers(c, false, r)
    ensures Answers(ReadBuffered(c, Transaction, w).conn, false, r)
  {
    hide Answers, RunRetr, CString, MailNumber, SameIgnoringCase, BuffersOk, TransferOk, DeliveriesOk, Tracks,
         ReadBuffered, GoesAstray;
    TransferResumes(c, w);
    var n := MailNumber(CString(c.reader.argument));
    var after := Dispatch(c, RetrHandler, w).conn;
    if GoesAstray(c, RetrHandler, w) {
      AstrayAnswers(after, false, r);
    } else {
      var c1 := c.(hist := Record(c, RetrHandler, w));
      CoreDepends(c, c1);
      RecordOutput(c, RetrHandler, w);
      AnswersDepends(c, c1, false, r);
      RunRetrAnswers(c1, n - 1, r);
      AnswersDepends(RunRetr(c1, n - 1), after, false, r);
    }
  }

  lemma ReadCommandAnswers(c: Conn, w: World, recv: Recv, ws: Worlds)
    requires Reading(c) && !c.astray && Follows(c, ws) && Phase(c) == StateOf(c) && Answered(c, ws)
    requires |ReadCommand(c, StateOf(c), w, recv).conn.hist.heard| > |c.hist.heard| ==> w == ws.reading(|c.hist.heard|)
    ensures TurnAnswered(ReadCommand(c, StateOf(c), w, recv), ws)
  {
    hide Answers, Interpret, WellFormed, ReadBuffered, ReadLines, ReadCommand, Received, Core, Tracks, Arrive;
    var r, c1 := Interpret(ws, c.hist.heard), Received(c, recv);
    ReadCommandCases(c, StateOf(c), w, recv);
    ReceivedKeeps(c, recv);
    ReceivedFrame(c, recv);
    AnswersDepends(c, c1, false, r);
    if c.inq.unread == [] && recv.Segment? && Take(recv.bytes, c.inq.Room()) == [] {
      return;
    } else if c.finished {
      BufferedIsLines(c1, w);
      ReadLinesAnswers(c1, w, ws);
    } else {
      TransferResumes(c1, w);
      ResumeAnswers(c1, w, r);
      DispatchInput(c1, RetrHandler, w);
    }
  }

  // ---- The state machine ----

  lemma StateAnswers(c: Conn, next: Option<StmState>, lastState: Option<StmState>, error: bool, r: Reference)
    ensures Answers(c.(current := next, lastState := lastState), error, r) == Answers(c, error, r)
  {
    hide FlagAfter, Transmission;
  }

  lemma ArriveAnswers(c: Conn, s: StmState, w: World, error: bool, r: Reference)
    requires Answers(c, error, r) && (s == Transaction ==> c.finished)
    ensures Answers(ArriveAt(c, s, w), error, r)
    ensures ArriveAt(c, s, w).hist.heard == c.hist.heard && ArriveAt(c, s, w).current == c.current
  {
    hide Answers, Arrive, Loaded, Reset;
    if ArriveAt(c, s, w).astray && !c.astray {
      AstrayAnswers(ArriveAt(c, s, w), error, r);
    } else {
      AnswersDepends(c, ArriveAt(c, s, w), error, r);
    }
  }

  lemma JumpAnswers(c: Conn, t: Turn, w: World, ws: Worlds)
    requires Reading(c) && TurnOk(c, t) && TurnAnswered(t, ws)
    ensures Answered(Jump(t.conn, t.next, w), ws)
  {
    hide Answers, Interpret, WellFormed, Core, Tracks, ArriveAt;
    var error, r := t.next == Some(Error), Interpret(ws, t.conn.hist.heard);
    if t.conn.current != t.next {
      var c1 := Depart(t.conn, t.conn.current.value).(current := t.next);
      StateAnswers(t.conn, t.next, c1.lastState, error, r);
      ArriveAnswers(c1, t.next.value, w, error, r);
    }
  }

  lemma StmReadAnswers(c: Conn, w: World, recv: Recv, ws: Worlds)
    requires Inv(c) && c.open && c.current.Some? && !c.astray && Follows(c, ws) && Answered(c, ws)
    requires |StmRead(c, w, recv).hist.heard| > |c.hist.heard| ==> w == ws.reading(|c.hist.heard|)
    ensures Answered(StmRead(c, w, recv), ws)
  {
    hide ReadCommand, Jump, Core, Tracks, Answered, Follows, TurnOk, TurnAnswered;
    if Reading(c) {
      var t := ReadCommand(c, StateOf(c), w, recv);
      JumpInput(t.conn, t.next, w);
      InPhase(c);
      ReadCommandAnswers(c, w, recv, ws);
      ReadCommandKeeps(c, w, recv);
      JumpAnswers(c, t, w, ws);
    } else {
      StayPut(c, w);
    }
  }

  lemma SentAnswers(c: Conn, sent: Option<nat>)
    ensures SameOutput(c, Send(c, sent)) && SameOutput(c, WriteCommand(c, sent))
  {
    hide SameOutput, Send;
    SendIsSilent(c, sent);
  }

  lemma SendIsSilent(c: Conn, sent: Option<nat>)
    ensures SameOutput(c, Send(c, sent)) && SameOutput(c, Send(c, sent).(interest := OP_READ)) && SameOutput(c, c)
  {
  }

  /** The welcome is the first thing queued, and never again. */
  lemma {:induction false} WelcomeAnswers(c: Conn, ws: Worlds)
    requires Inv(c) && Answered(c, ws) && (c.current.None? || c.current == Some(Authorization))
    ensures Answers(Welcome(EnterFirst(c)), false, Interpret(ws, c.hist.heard))
    ensures Welcome(EnterFirst(c)).hist.heard == c.hist.heard && Welcome(EnterFirst(c)).current == Some(Authorization)
  {
    hide Core, Tracks, FlagAfter, Transmission;
    if c.current.None? {
      assert c.hist.accepted + Take(WELCOME, BUFFER_SIZE) == WELCOME && WELCOME + [] == WELCOME;
    } else {
      StateAnswers(c, c.current, c.lastState, false, Interpret(ws, c.hist.heard));
    }
  }

  lemma WriteAnswers(c: Conn, sent: Option<nat>, r: Reference)
    requires Answers(c, false, r)
    ensures Answers(WriteCommand(c, sent), false, r)
    ensures WriteCommand(c, sent).hist.heard == c.hist.heard && WriteCommand(c, sent).current == c.current
  {
    hide Answers, WriteCommand;
    SentAnswers(c, sent);
    AnswersDepends(c, WriteCommand(c, sent), false, r);
    WritingSession(c, sent);
  }

  /** Answering an error turns what was promised into what is queued. */
  lemma ErrorWriteAnswers(c: Conn, w: World, ws: Worlds)
    requires Inv(c) && c.current == Some(Error) && Answered(c, ws)
    ensures var t := OnWriteReady(c, None);
            Answered(Jump(t.conn, t.next, w), ws)
  {
    hide Core, Tracks, Interpret, WellFormed, ArriveAt, FlagAfter, Transmission;
    var r := Interpret(ws, c.hist.heard);
    if |UNKNOWN_COMMAND| <= c.outq.Room() {
      var c1 := Reply(c, UNKNOWN_COMMAND);
      var c2 := Depart(c1, Error).(current := c.lastState);
      assert Answers(c1, false, r);
      StateAnswers(c1, c.lastState, c2.lastState, false, r);
      ArriveAnswers(c2, c.lastState.value, w, false, r);
    }
  }

  lemma StmWriteAnswers(c: Conn, w: World, sent: Option<nat>, ws: Worlds)
    requires Inv(c) && c.open && !c.astray && Answered(c, ws)
    ensures Answered(StmWrite(c, w, sent), ws)
  {
    hide Core, Tracks, Interpret, WellFormed, Answers, Welcome, WriteCommand, Jump, ArriveAt, Reply;
    var r := Interpret(ws, c.hist.heard);
    var c0 := EnterFirst(c);
    match StateOf(c0)
    case Authorization =>
      WelcomeAnswers(c, ws);
      WriteAnswers(Welcome(c0), sent, r);
      StayPut(WriteCommand(Welcome(c0), sent), w);
    case Transaction =>
      WriteAnswers(c, sent, r);
      StayPut(WriteCommand(c, sent), w);
    case Error => ErrorWriteAnswers(c, w, ws);
    case Quit => StayPut(c, w);
  }

  lemma AnsweredDepends(a: Conn, b: Conn, ws: Worlds)
    requires Answered(a, ws) && SameOutput(a, b) && a.current == b.current && a.current.Some?
    ensures Answered(b, ws)
  {
    hide Interpret, WellFormed, Answers;
    AnswersDepends(a, b, a.current == Some(Error), Interpret(ws, a.hist.heard));
  }

  lemma StepAnswers(c: Conn, e: Callback, ws: Worlds)
    requires Inv(c) && Follows(c, ws) && Answered(c, ws) && In(c, e, Step(c, e), ws)
    ensures Answered(Step(c, e), ws)
  {
    hide StmRead, Inv, Answered, Follows, HandleWrite, ComesBack;
    if Enabled(c, e) && !c.astray {
      match e
      case Readable(w, recv) => ReadableAnswers(c, w, recv, ws);
      case Shutdown => ClosedAnswers(c, ws);
      case Writable(w, sent, sentAgain, recv) => HandleWriteAnswers(c, w, sent, sentAgain, recv, ws);
    }
  }

  lemma ReadableAnswers(c: Conn, w: World, recv: Recv, ws: Worlds)
    requires Inv(c) && c.open && c.interest.read && !c.astray && Follows(c, ws) && Answered(c, ws)
    requires |StmRead(c, w, recv).hist.heard| > |c.hist.heard| ==> w == ws.reading(|c.hist.heard|)
    ensures Answered(StmRead(c, w, recv), ws)
  {
    hide Answered, Follows, StmRead, Core, Tracks;
    StmReadAnswers(c, w, recv, ws);
  }

  lemma ClosedAnswers(c: Conn, ws: Worlds)
    requires Answered(c, ws)
    ensures Answered(Close(c), ws)
  {
    hide Interpret, WellFormed, Answers;
    if c.current.Some? {
      AnswersDepends(c, Close(c), c.current == Some(Error), Interpret(ws, c.hist.heard));
    }
  }

  lemma HandleWriteAnswers(c: Conn, w: World, sent: Option<nat>, sentAgain: Option<nat>, recv: Recv, ws: Worlds)
    requires Inv(c) && c.open && !c.astray && Follows(c, ws) && Answered(c, ws)
    requires In(c, Writable(w, sent, sentAgain, recv), HandleWrite(c, w, sent, sentAgain, recv), ws)
    ensures Answered(HandleWrite(c, w, sent, sentAgain, recv), ws)
  {
    hide StmRead, StmWrite, Core, Tracks, Send, Answered, Follows;
    var c1 := StmWrite(c, w, sent);
    StmWriteAnswers(c, w, sent, ws);
    StmWriteKeeps(c, w, sent);
    WritingInput(c, w, sent);
    ClosedAnswers(c1, ws);
    var c2 := Send(c1, sentAgain);
    var c3 := c2.(interest := OP_NOOP);
    SendKeeps(c1, sentAgain);
    SendInput(c1, sentAgain);
    SentAnswers(c1, sentAgain);
    AnsweredDepends(c1, c2, ws);
    ClosedAnswers(c2, ws);
    AnsweredDepends(c2, c2.(interest := OP_READ), ws);
    if !c1.astray && sentAgain.Some? && !c2.session.requestedQuit && (c2.inq.unread != [] || !c2.finished) {
      CoreDepends(c2, c3);
      AnsweredDepends(c2, c3, ws);
      StmReadHears(c3, w, recv);
      StmWriteFollows(c, w, sent, ws);
      SentFollows(c1, sentAgain, ws);
      StmReadAnswers(c3, w, recv, ws);
    }
  }

  lemma {:induction false} AlwaysAnswered(r: Run, k: nat, ws: Worlds)
    requires r.Defined(k) && AllIn(r, ws)
    ensures Answered(r.states[k], ws)
  {
    hide Inv, Step, Follows, In, Answered;
    if k == 0 {
      InitialAnswered(ws);
    } else {
      DefinedBefore(r, k - 1, k);
      AlwaysAnswered(r, k - 1, ws);
      AlwaysFollows(r, k - 1, ws);
      Reachable(r, k - 1);
      StepAnswers(r.states[k - 1], r.events[k - 1], ws);
    }
  }

  lemma InitialAnswered(ws: Worlds)
    ensures Answered(Initial(), ws)
  {
  }

  /** In a run in which no reply has been cut, what the client reads is a prefix of the welcome and the replies of the
      reference to the lines read, in order. Between a mail under way, or an error not yet answered, it is all of it. */
  lemma {:induction false} RepliesInOrder(r: Run, k: nat, ws: Worlds)
    requires r.Defined(k) && AllIn(r, ws) && !r.states[k].hist.cut
    ensures var c := r.states[k];
            WellFormed(c.hist.heard) &&
            var all := WELCOME + Interpret(ws, c.hist.heard).output;
            && c.hist.wire <= c.hist.accepted <= all
            && (c.finished && c.current.Some? && c.current != Some(Error) ==> c.hist.accepted == all)
  {
    hide Step, In, Interpret, WellFormed, Tracks, FlagAfter, Transmission, IndexesOk, DeliveriesOk;
    AlwaysAnswered(r, k, ws);
    Reachable(r, k);
    var c := r.states[k];
    if !c.finished {
      UnderWayIsPrefix(c);
    }
  }

  /** With no mail under way and no error to answer, what has been queued is the welcome and all replies if and only if
      no reply was ever cut, and is shorter otherwise. */
  lemma {:induction false} CutIsExact(r: Run, k: nat, ws: Worlds)
    requires r.Defined(k) && AllIn(r, ws)
    requires var c := r.states[k]; c.finished && c.current.Some? && c.current != Some(Error)
    ensures var c := r.states[k];
            WellFormed(c.hist.heard) &&
            var all := WELCOME + Interpret(ws, c.hist.heard).output;
            (c.hist.cut <==> c.hist.accepted != all) && (c.hist.cut <==> |c.hist.accepted| < |all|)
  {
    hide Step, In, Interpret, WellFormed, FlagAfter, Transmission;
    AlwaysAnswered(r, k, ws);
  }

  lemma PrefixOfWhole(a: seq<Byte>, b: seq<Byte>, c: seq<Byte>)
    ensures a + b <= a + (b + c)
  {
    assert a + (b + c) == (a + b) + c;
  }

  /** What has been queued of a mail under way begins its transmission. */
  lemma UnderWayIsPrefix(c: Conn)
    requires Inv(c) && !c.finished && !c.hist.cut
    ensures c.hist.accepted <= OutputWhenDone(c, false)
  {
    hide Tracks, FlagAfter, Stuff, DeliveriesOk, CString, SameIgnoringCase, MailNumber, Outstanding, BuffersOk,
         Control, Transmission;
    var t := c.hist.transfer;
    var content, p := c.session.mails[t.number - 1].content, ProgressOf(c, t.number - 1);
    var before, soFar := c.hist.accepted[..t.before], c.hist.accepted[t.before..];
    assert soFar + Outstanding(p, content) == Transmission(t.start, content);
    PrefixOfWhole(before, soFar, Outstanding(p, content));
    assert c.hist.accepted == before + soFar;
  }

  /** Two connections that have read the same valid lines, and of which nothing was cut, have answered the same. */
  lemma SameRepliesToSameLines(one: Run, i: nat, other: Run, j: nat, ws: Worlds, sent: seq<seq<Byte>>)
    requires one.Defined(i) && other.Defined(j) && AllIn(one, ws) && AllIn(other, ws) && AllValid(sent)
    requires HasRead(one.states[i], sent) && HasRead(other.states[j], sent)
    requires var c, d := one.states[i], other.states[j];
             && !c.hist.cut && c.finished && c.current.Some? && c.current != Some(Error)
             && !d.hist.cut && d.finished && d.current.Some? && d.current != Some(Error)
    ensures one.states[i].hist.accepted == other.states[j].hist.accepted
  {
    hide Step, In, Interpret, WellFormed, Flatten, AllValid, Arrive, Phase;
    SegmentationIndependence(one, i, other, j, ws, sent);
    RepliesInOrder(one, i, ws);
    RepliesInOrder(other, j, ws);
  }

  /** Nothing more is to be said about what has been read: no mail or error is under way, and nothing was cut. */
  predicate SaidAll(c: Conn) {
    !c.hist.cut && c.finished && c.current.Some? && c.current != Some(Error)
  }

  /** Segmentation independence for any stream, malformed lines included: two connections that have received and read
      the same octets, each line in the same world, and have not lost a line end, have called the same handlers and are
      in the same session; and if they have said all there is to say, they have said the same. */
  lemma SameStreamSameSession(one: Run, i: nat, other: Run, j: nat, ws: Worlds)
    requires one.Defined(i) && other.Defined(j) && AllIn(one, ws) && AllIn(other, ws)
    requires var c, d := one.states[i], other.states[j];
             && c.hist.received == d.hist.received && c.inq.unread == d.inq.unread == []
             && !c.hist.lost && !d.hist.lost
    ensures var c, d := one.states[i], other.states[j];
            var w := ws.returning(|c.hist.heard|);
            && c.hist.heard == d.hist.heard && c.hist.calls == d.hist.calls && Settled(c, w) == Settled(d, w)
            && (Phase(c) != Quit && Phase(d) != Quit ==> Phase(c) == Phase(d))
            && (SaidAll(c) && SaidAll(d) ==> c.hist.accepted == d.hist.accepted)
  {
    hide Step, In, Interpret, WellFormed, Arrive, Phase;
    SameStreamIsHeard(one, i, other, j);
    AlwaysFollows(one, i, ws);
    AlwaysFollows(other, j, ws);
    if SaidAll(one.states[i]) && SaidAll(other.states[j]) {
      RepliesInOrder(one, i, ws);
      RepliesInOrder(other, j, ws);
    }
  }
}
