/** What the invariants of the other modules say about every run of a connection. */
module Theorems {
  import opened Bytes
  import opened Interests
  import opened Stuffing
  import opened Retr
  import opened CommandParser
  import opened Sessions
  import opened Engine
  import opened Running
  import opened Chronicle

  // ---- Histories only grow ----

  predicate Extends(a: History, b: History) {
    && a.received <= b.received && a.consumed <= b.consumed && a.lines <= b.lines && a.heard <= b.heard
    && a.cuts <= b.cuts && a.calls <= b.calls
    && a.accepted <= b.accepted && a.wire <= b.wire && a.happenings <= b.happenings
    && a.removed <= b.removed && a.deliveries <= b.deliveries
  }

  lemma ExtendsTransitive(a: History, b: History, c: History)
    requires Extends(a, b) && Extends(b, c)
    ensures Extends(a, c)
  {
  }

  lemma SendPieceExtends(c: Conn, i: nat)
    requires i < |c.readIndex| && i < |c.session.mails| && !Overruns(c.outq.Room(), ProgressOf(c, i))
    ensures Extends(c.hist, SendPiece(c, i).hist)
  {
    hide Queued, After, CallFits, Overruns;
  }

  lemma RunRetrExtends(c: Conn, i: nat)
    requires i < |c.readIndex| && i < |c.session.mails|
    ensures Extends(c.hist, RunRetr(c, i).hist)
  {
    hide SendPiece, Overruns, Header;
    if !Overruns(c.outq.Room(), ProgressOf(c, i)) {
      SendPieceExtends(c, i);
    }
  }

  lemma RunOtherExtends(c: Conn, h: Handler, w: World)
    ensures Extends(c.hist, RunOther(c, h, w).conn.hist)
  {
    hide Handle, CString;
  }

  lemma RunHandlerExtends(c: Conn, h: Handler, w: World)
    ensures Extends(c.hist, RunHandler(c, h, w).conn.hist)
  {
    hide RunRetr, RunOther, CString, MailNumber, Extends, GoesAstray;
    var n := MailNumber(CString(c.reader.argument));
    var c1 := c.(hist := Record(c, h, w));
    RecordExtends(c, h, w);
    if !GoesAstray(c, h, w) && h == RetrHandler && Exists(c.session, n) && n <= |c.readIndex| {
      RunRetrExtends(c1, n - 1);
      ExtendsTransitive(c.hist, c1.hist, RunRetr(c1, n - 1).hist);
    } else {
      RunOtherExtends(c, h, w);
    }
  }

  lemma DispatchExtends(c: Conn, h: Handler, w: World)
    ensures Extends(c.hist, Dispatch(c, h, w).conn.hist)
  {
    hide RunHandler, Extends, Cleaned;
    RunHandlerExtends(c, h, w);
  }

  lemma RecordExtends(c: Conn, h: Handler, w: World)
    ensures Extends(c.hist, Record(c, h, w))
  {
  }

  lemma OnValidExtends(c: Conn, state: StmState, w: World)
    ensures Extends(c.hist, OnValid(c, state, w).conn.hist)
  {
    hide Dispatch, Lookup, CString;
    var c1 := WithLine(c);
    var found := Lookup(CString(c.reader.command), state);
    if found.Some? {
      var call := HandlerCall(state, found.value.handler, CString(c.reader.argument));
      var c2 := WithCall(c1, call);
      DispatchExtends(c2, found.value.handler, w);
      ExtendsTransitive(c.hist, c2.hist, Dispatch(c2, found.value.handler, w).conn.hist);
    }
  }

  lemma {:induction false} ReadLinesExtends(c: Conn, state: StmState, w: World)
    ensures Extends(c.hist, ReadLines(c, state, w).conn.hist)
    decreases |c.inq.unread|
  {
    hide OnValid, SkipLine;
    if c.inq.unread != [] {
      var c1 := FeedOctet(c);
      match c1.reader.event
      case ValidCommand =>
        OnValidExtends(c1, state, w);
        ExtendsTransitive(c.hist, c1.hist, OnValid(c1, state, w).conn.hist);
      case InvalidCommand =>
      case Undefined =>
        ReadLinesExtends(c1, state, w);
        ExtendsTransitive(c.hist, c1.hist, ReadLines(c1, state, w).conn.hist);
    }
  }

  lemma ReceivedExtends(c: Conn, r: Recv)
    ensures Extends(c.hist, Received(c, r).hist)
  {
    hide Received;
    ReceivedFrame(c, r);
  }

  lemma ReadCommandExtends(c: Conn, state: StmState, w: World, r: Recv)
    ensures Extends(c.hist, ReadCommand(c, state, w, r).conn.hist)
  {
    hide ReadLines, Dispatch, Lookup, CString, ReadCommand, Received, Extends;
    ReadCommandCases(c, state, w, r);
    ExtendsReflexive(c.hist);
    ReceivedExtends(c, r);
    var c1 := Received(c, r);
    ReadLinesExtends(c1, state, w);
    ExtendsTransitive(c.hist, c1.hist, ReadLines(c1, state, w).conn.hist);
    var found := Lookup(CString(c1.reader.command), state);
    if found.Some? {
      DispatchExtends(c1, found.value.handler, w);
      ExtendsTransitive(c.hist, c1.hist, Dispatch(c1, found.value.handler, w).conn.hist);
    }
  }

  lemma LoadMailsExtends(c: Conn, w: World)
    ensures Extends(c.hist, LoadMails(c, w).hist)
  {
    hide Loaded, Arrive;
  }

  lemma JumpExtends(c: Conn, next: Option<StmState>, w: World)
    ensures Extends(c.hist, Jump(c, next, w).hist)
  {
    hide LoadMails, Extends;
    ExtendsReflexive(c.hist);
    if next.Some? {
      LoadMailsExtends((if c.current.Some? then Depart(c, c.current.value) else c).(current := next), w);
    }
  }

  lemma SendExtends(c: Conn, sent: Option<nat>)
    ensures Extends(c.hist, Send(c, sent).hist)
  {
  }

  lemma StmReadExtends(c: Conn, w: World, r: Recv)
    ensures Extends(c.hist, StmRead(c, w, r).hist)
  {
    hide ReadCommand, Jump, Extends;
    var c0 := EnterFirst(c);
    var t := OnReadReady(c0, w, r);
    ReadCommandExtends(c0, StateOf(c0), w, r);
    ExtendsReflexive(c.hist);
    JumpExtends(t.conn, t.next, w);
    ExtendsTransitive(c.hist, t.conn.hist, StmRead(c, w, r).hist);
  }

  lemma ExtendsReflexive(h: History)
    ensures Extends(h, h)
  {
  }

  lemma ReplyExtends(c: Conn, message: seq<Byte>)
    ensures Extends(c.hist, Reply(c, message).hist)
  {
  }

  lemma WelcomeExtends(c: Conn)
    ensures Extends(c.hist, Welcome(c).hist)
  {
    hide Reply, Extends;
    ExtendsReflexive(c.hist);
    ReplyExtends(c, WELCOME);
  }

  lemma WriteCommandExtends(c: Conn, sent: Option<nat>)
    ensures Extends(c.hist, WriteCommand(c, sent).hist)
  {
    hide Send, Extends;
    ExtendsReflexive(c.hist);
    SendExtends(c, sent);
  }

  lemma OnWriteExtends(c: Conn, sent: Option<nat>)
    ensures Extends(c.hist, OnWriteReady(c, sent).conn.hist)
  {
    hide Welcome, WriteCommand, Reply, Extends;
    ExtendsReflexive(c.hist);
    ReplyExtends(c, UNKNOWN_COMMAND);
    WriteCommandExtends(c, sent);
    WriteCommandExtends(Welcome(c), sent);
    WelcomeExtends(c);
    ExtendsTransitive(c.hist, Welcome(c).hist, WriteCommand(Welcome(c), sent).hist);
  }

  lemma StmWriteExtends(c: Conn, w: World, sent: Option<nat>)
    ensures Extends(c.hist, StmWrite(c, w, sent).hist)
  {
    hide Jump, OnWriteReady, Extends;
    var c0 := EnterFirst(c);
    var t := OnWriteReady(c0, sent);
    OnWriteExtends(c0, sent);
    JumpExtends(t.conn, t.next, w);
    ExtendsTransitive(c.hist, t.conn.hist, StmWrite(c, w, sent).hist);
  }

  /** Whatever has been received, read, dispatched, queued, sent or removed stays so: every step only adds. */
  lemma StepExtends(c: Conn, e: Callback)
    ensures Extends(c.hist, Step(c, e).hist)
  {
    hide StmRead, StmWrite, Send, Extends;
    ExtendsReflexive(c.hist);
    match e
    case Readable(w, r) => StmReadExtends(c, w, r);
    case Shutdown =>
    case Writable(w, sent, sentAgain, r) =>
      var c1 := StmWrite(c, w, sent);
      var c2 := Send(c1, sentAgain);
      StmWriteExtends(c, w, sent);
      SendExtends(c1, sentAgain);
      ExtendsTransitive(c.hist, c1.hist, c2.hist);
      StmReadExtends(c2.(interest := OP_NOOP), w, r);
      ExtendsTransitive(c.hist, c2.hist, StmRead(c2.(interest := OP_NOOP), w, r).hist);
  }

  lemma {:induction false} HistoryGrows(r: Run, j: nat, k: nat)
    requires r.Valid() && j <= k < |r.states|
    ensures Extends(r.states[j].hist, r.states[k].hist)
    decreases k
  {
    hide Step, Extends;
    if j == k {
      ExtendsReflexive(r.states[j].hist);
    } else {
      HistoryGrows(r, j, k - 1);
      StepExtends(r.states[k - 1], r.events[k - 1]);
      ExtendsTransitive(r.states[j].hist, r.states[k - 1].hist, r.states[k].hist);
    }
  }

  // ---- Using memory that is not there ----

  lemma RetrOverruns(c: Conn, i: nat)
    requires i < |c.readIndex| && i < |c.session.mails|
    ensures RunRetr(c, i).astray <==> c.astray || Overruns(c.outq.Room(), ProgressOf(c, i))
  {
    hide Queued, After, CallFits, Overruns;
  }

  lemma OtherIsDefined(c: Conn, h: Handler, w: World)
    ensures RunOther(c, h, w).conn.astray == c.astray
  {
    hide Handle, CString;
  }

  lemma RunHandlerGoesAstray(c: Conn, h: Handler, w: World)
    requires IndexesOk(c)
    ensures var n := MailNumber(CString(c.reader.argument));
            RunHandler(c, h, w).conn.astray
            <==> || c.astray || GoesAstray(c, h, w)
                 || (h == RetrHandler && Exists(c.session, n) && c.outq.Room() <= if c.finished then 21 else 0)
  {
    hide CString, MailNumber, SameIgnoringCase, RunOther, RunRetr, GoesAstray;
    var n := MailNumber(CString(c.reader.argument));
    if h == RetrHandler && Exists(c.session, n) {
      RetrOverruns(c.(hist := Record(c, h, w)), n - 1);
      OverrunExact(c.outq.Room(), ProgressOf(c, n - 1));
    } else {
      OtherIsDefined(c, h, w);
    }
  }

  /** A handler call goes astray exactly when it is RETR of an existing mail whose file does not open, or with no free
      octet in the output buffer, or none beyond the header's when the mail begins; or LIST of the number behind the
      last mail of a full table, which an empty maildrop is. */
  lemma DispatchGoesAstray(c: Conn, h: Handler, w: World)
    requires IndexesOk(c) && TableFits(c.session)
    ensures var argument, s := CString(c.reader.argument), c.session;
            Dispatch(c, h, w).conn.astray
            <==> || c.astray
                 || (h == RetrHandler && Exists(s, MailNumber(argument))
                     && (!w.mailOpens || c.outq.Room() <= if c.finished then 21 else 0))
                 || (h == ListHandler && c.reader.argumentLength > 0
                     && |s.mails| == s.slots && ListedSlot(argument, s) == Some(|s.mails|))
  {
    hide CString, MailNumber, RunHandler, Cleaned, LeavesTable, ListedSlot, IndexesOk;
    LeavesTableExact(CString(c.reader.argument), c.session);
    RunHandlerGoesAstray(c, h, w);
  }

  lemma LoadGoesAstray(c: Conn, w: World)
    ensures LoadMails(c, w).astray <==> c.astray || (c.session.mails == [] && !w.directoryOpens)
  {
    hide Arrive, Loaded, Zeros;
  }

  /** Changing state goes astray exactly when it enters TRANSACTION without mails and the directory does not open. */
  lemma JumpGoesAstray(c: Conn, next: Option<StmState>, w: World)
    ensures Jump(c, next, w).astray
            <==> || c.astray
                 || (next == Some(Transaction) && c.current != next && c.session.mails == [] && !w.directoryOpens)
  {
    hide LoadMails;
    if next == Some(Transaction) && c.current != next {
      LoadGoesAstray((if c.current.Some? then Depart(c, c.current.value) else c).(current := next), w);
    }
  }

  /** At every moment of every run the table has room for the mails, and there is none for an empty maildrop. */
  lemma TableAlwaysFits(r: Run, k: nat)
    requires r.Valid() && k < |r.states|
    ensures TableFits(r.states[k].session)
  {
    hide Maildrop, FilesRemoved, SizeOk, TransactionsAuthorized, Authorized, WithMarks, Step;
    AlwaysExplained(r, k);
  }

  // ---- Buffers ----

  /** Octets on the wire followed by unread output are the octets accepted, octets taken out of in_buff followed by
      unread input are the octets received, and an empty in_buff offers recv its full size. */
  lemma NothingIsLost(r: Run, k: nat)
    requires r.Defined(k)
    ensures var c := r.states[k];
            && c.hist.wire + c.outq.unread == c.hist.accepted
            && c.hist.consumed + c.inq.unread == c.hist.received
            && (c.inq.unread == [] ==> c.inq.Room() == BUFFER_SIZE)
  {
    hide TransfersOk, Tracks;
    Reachable(r, k);
  }

  // ---- RETR ----

  /** Every completed RETR queued exactly header, stuffed mail and end marker if and only if all its pieces fitted; the
      stuffing flag starts as ANY_CHARACTER and is handed from each mail to the next. */
  lemma DeliveriesAreExact(r: Run, k: nat)
    requires r.Defined(k)
    ensures var ds := r.states[k].hist.deliveries;
            && (forall i :: 0 <= i < |ds| ==> (ds[i].queued == Transmission(ds[i].start, ds[i].content)
                     <==> ds[i].whole))
            && (forall i :: 0 < i < |ds| ==> ds[i].start == FlagAfter(ds[i - 1].start, ds[i - 1].content))
            && (ds != [] ==> ds[0].start == AnyCharacter)
  {
    hide BuffersOk, TransferOk, IndexesOk, Tracks, FlagAfter;
    Reachable(r, k);
    var c := r.states[k];
    FlagsChainIsOrdered(c.hist.deliveries, if c.finished then c.flag else c.hist.transfer.start);
  }

  lemma {:induction false} FlagsChainIsOrdered(ds: seq<Delivery>, flag: Flag)
    requires FlagsChain(ds, flag)
    ensures forall i :: 0 < i < |ds| ==> ds[i].start == FlagAfter(ds[i - 1].start, ds[i - 1].content)
    ensures ds != [] ==> ds[0].start == AnyCharacter
    decreases |ds|
  {
    if ds != [] {
      FlagsChainIsOrdered(ds[..|ds| - 1], ds[|ds| - 1].start);
    }
  }

  /** While a RETR is under way: the connection is in TRANSACTION with the RETR command and its argument saved, and
      what has been queued, if every piece fitted, is the transmission up to the octet where reading goes on. Between
      transfers every mail is read from its start. */
  lemma TransferUnderWay(r: Run, k: nat)
    requires r.Defined(k)
    ensures var c := r.states[k];
            && (c.finished ==> forall i :: 0 <= i < |c.readIndex| ==> c.readIndex[i] == 0)
            && (!c.finished && c.open ==>
                  && c.current == Some(Transaction) && ResumesRetr(c)
                  && var t := c.hist.transfer;
                     var content, done := c.session.mails[t.number - 1].content, c.readIndex[t.number - 1];
                  && t.before <= |c.hist.accepted|
                  && c.flag == FlagAfter(t.start, content[..done])
                  && (t.whole ==> c.hist.accepted[t.before..] == HEADER + Stuff(t.start, content[..done])))
  {
    hide DeliveriesOk, Tracks, FlagAfter, Stuff, CString, SameIgnoringCase, MailNumber, Transmission, Outstanding;
    Reachable(r, k);
    var c := r.states[k];
    if !c.finished {
      var t := c.hist.transfer;
      var content, p := c.session.mails[t.number - 1].content, ProgressOf(c, t.number - 1);
      if t.whole {
        SplitTransmission(t.start, content, p.readIndex);
        CancelTail(SoFar(c), HEADER + Stuff(t.start, content[..p.readIndex]), Outstanding(p, content));
      }
    }
  }

  // ---- The state machine ----

  /** No abort() of jump or of stm_quit_departure is ever reached. */
  lemma NeverAborts(r: Run, k: nat)
    requires r.Defined(k)
    ensures !r.states[k].aborted
  {
    hide Core, Tracks;
    Reachable(r, k);
  }

  lemma TurnControl(c: Conn, t: Turn)
    requires TurnOk(c, t)
    ensures t.conn.current == c.current && t.next.Some?
  {
    hide Core, Tracks;
  }

  lemma JumpRemembers(c: Conn, next: Option<StmState>, w: World)
    requires c.current.Some? && c.current != Some(Error) && c.current != Some(Quit)
    ensures Jump(c, next, w).current == Some(Error) ==> Jump(c, next, w).lastState == c.current
  {
    hide LoadMails;
    LoadMailsControl(Depart(c, c.current.value).(current := next), w);
  }

  lemma ErrorRemembers(c: Conn, w: World, r: Recv)
    requires Reading(c)
    ensures StmRead(c, w, r).current == Some(Error) ==> StmRead(c, w, r).lastState == c.current
  {
    hide Core, Tracks, ReadCommand, Jump, TurnOk;
    ReadCommandKeeps(c, w, r);
    var t := ReadCommand(c, StateOf(c), w, r);
    TurnControl(c, t);
    JumpRemembers(t.conn, t.next, w);
  }

  /** ERROR remembers the state that read the bad line and goes back to it as soon as the message fits. */
  lemma ErrorComesBack(c: Conn, w: World, r: Recv, sent: Option<nat>)
    requires Inv(c) && c.open && c.current.Some?
    ensures c.current != Some(Error) && StmRead(c, w, r).current == Some(Error) ==>
              StmRead(c, w, r).lastState == c.current
    ensures c.current == Some(Error) ==>
              && StmRead(c, w, r) == c
              && StmWrite(c, w, sent).current
                 == (if |UNKNOWN_COMMAND| <= c.outq.Room() then c.lastState else Some(Error))
  {
    hide Core, Tracks, ReadCommand, LoadMails, Reply, TurnOk;
    if Reading(c) {
      ErrorRemembers(c, w, r);
    }
    ReplyFrame(c, UNKNOWN_COMMAND);
    LoadMailsControl(Depart(Reply(c, UNKNOWN_COMMAND), Error).(current := c.lastState), w);
  }

  lemma QuitStays(c: Conn, e: Callback)
    requires Inv(c) && c.current == Some(Quit)
    ensures Step(c, e).current == Some(Quit) && Step(c, e).session == c.session
  {
    hide Core, Tracks;
  }

  /** QUIT is absorbing. */
  lemma {:induction false} QuitIsFinal(r: Run, j: nat, k: nat)
    requires r.Defined(k) && j <= k && r.states[j].current == Some(Quit)
    ensures r.states[k].current == Some(Quit) && r.states[k].session == r.states[j].session
    decreases k
  {
    hide Inv, Step;
    if j < k {
      DefinedBefore(r, k - 1, k);
      QuitIsFinal(r, j, k - 1);
      Reachable(r, k - 1);
      QuitStays(r.states[k - 1], r.events[k - 1]);
    }
  }

  // ---- The session ----

  /** The files given to remove() are those the history calls for, and a mail is marked exactly when its latest event
      among DELE, RSET and loading is a DELE. */
  lemma FilesAndMarks(r: Run, k: nat)
    requires r.Defined(k)
    ensures var c := r.states[k];
            && c.hist.removed == FilesRemoved(c.hist.happenings)
            && (forall i :: 0 <= i < |c.session.mails| ==> (c.session.mails[i].deleted
                     <==> Marked(c.hist.happenings, i)))
  {
    hide Marked, FilesRemoved, Maildrop, SizeOk, TransactionsAuthorized, Authorized;
    AlwaysExplained(r, k);
  }

  /** The latest scan of the mail directory, unless a QUIT in TRANSACTION has run since. */
  predicate LatestScan(h: seq<Happening>, j: nat) {
    j < |h| && h[j].MailsLoaded? && forall i :: j < i < |h| ==> !h[i].MailsLoaded? && !Quits(h[i])
  }

  lemma {:induction false} MaildropIsScanned(h: seq<Happening>, j: nat)
    requires LatestScan(h, j)
    ensures var w := h[j].world;
            Maildrop(h) == w.listing[..Min(w.maxMails, |w.listing|)] && Limit(h) == w.maxMails
    decreases |h|
  {
    if j < |h| - 1 {
      MaildropIsScanned(h[..|h| - 1], j);
    }
  }

  lemma {:induction false} SomeScan(h: seq<Happening>) returns (j: nat)
    requires Maildrop(h) != []
    ensures LatestScan(h, j)
    decreases |h|
  {
    var n := |h| - 1;
    if h[n].MailsLoaded? {
      j := n;
    } else {
      j := SomeScan(h[..n]);
    }
  }

  /** In every run, mail i of a maildrop has path and content of file i of the directory as readdir listed it at the
      latest scan. There are as many mails as files, up to the limit, and the table has room for the limit. */
  lemma MailsAreFiles(r: Run, k: nat) returns (j: nat)
    requires r.Defined(k) && r.states[k].session.mails != []
    ensures var c := r.states[k];
            var mails := c.session.mails;
            && LatestScan(c.hist.happenings, j)
            && var w := c.hist.happenings[j].world;
            && |mails| <= w.maxMails && |mails| <= |w.listing| && (|mails| == w.maxMails || |mails| == |w.listing|)
            && c.session.slots == w.maxMails
            && forall i :: 0 <= i < |mails| ==> mails[i].path == w.listing[i].0 && mails[i].content == w.listing[i].1
  {
    hide Maildrop, Limit, FilesRemoved, SizeOk, TransactionsAuthorized, Authorized, NamedUser, Step, LatestScan, Marked;
    AlwaysExplained(r, k);
    j := SomeScan(r.states[k].hist.happenings);
    ScanIsThere(r.states[k].hist.happenings, j);
    MaildropIsScanned(r.states[k].hist.happenings, j);
  }

  lemma ScanIsThere(h: seq<Happening>, j: nat)
    requires LatestScan(h, j)
    ensures j < |h| && h[j].MailsLoaded?
  {
  }

  /** In every run the mail directory is scanned only while there is no maildrop: coming back from an error keeps the
      mails and their marks. */
  lemma ScansOnlyWhenEmpty(r: Run, k: nat, i: nat)
    requires r.Defined(k) && i < |r.states[k].hist.happenings| && r.states[k].hist.happenings[i].MailsLoaded?
    ensures Maildrop(r.states[k].hist.happenings[..i]) == []
  {
    hide Maildrop, Limit, FilesRemoved, SizeOk, TransactionsAuthorized, Authorized, NamedUser, Step, Marked;
    AlwaysExplained(r, k);
  }

  /** Without a scan or a QUIT the maildrop stays what it is. */
  lemma {:induction false} MaildropStays(h: seq<Happening>, at: nat)
    requires at <= |h| && forall i :: at <= i < |h| ==> !h[i].MailsLoaded? && !Quits(h[i])
    ensures Maildrop(h) == Maildrop(h[..at])
    decreases |h|
  {
    if at < |h| {
      var n := |h| - 1;
      MaildropStays(h[..n], at);
      assert h[..n][..at] == h[..at];
    } else {
      assert h[..at] == h;
    }
  }

  lemma {:induction false} MarkedIsRemoved(files: seq<(string, seq<Byte>)>, h: seq<Happening>, n: nat, number: nat)
    requires 1 <= number <= n <= |files| && Marked(h, number - 1)
    ensures files[number - 1].0 in MarkedFiles(files, h, n)
    decreases n
  {
    if number < n {
      MarkedIsRemoved(files, h, n - 1, number);
    }
  }

  /** The content that a RETR has delivered for a mail, and the path that the QUIT after it removes if the mail is
      marked, are those of one and the same file of the mail directory. */
  lemma DeliveredIsRemoved(r: Run, k: nat, i: nat, q: nat)
    requires r.Defined(k) && i < |r.states[k].hist.deliveries|
    requires var h, d := r.states[k].hist.happenings, r.states[k].hist.deliveries[i];
             && 1 <= d.number && d.at <= q < |h| && Quits(h[q]) && Marked(h[..q], d.number - 1)
             && forall j :: d.at <= j < q ==> !h[j].MailsLoaded? && !Quits(h[j])
    ensures var h, d := r.states[k].hist.happenings, r.states[k].hist.deliveries[i];
            var files := Maildrop(h[..q]);
            && 1 <= d.number <= |files| && d.content == files[d.number - 1].1
            && FilesRemoved(h[..q + 1]) == FilesRemoved(h[..q]) + MarkedFiles(files, h[..q], |files|)
            && files[d.number - 1].0 in MarkedFiles(files, h[..q], |files|)
  {
    hide Explains, Marked, Maildrop, Step, Retrieves, Quits;
    AlwaysExplained(r, k);
    var h, d := r.states[k].hist.happenings, r.states[k].hist.deliveries[i];
    assert SentFile(h, d);
    MaildropStays(h[..q], d.at);
    assert h[..q][..d.at] == h[..d.at];
    MarkedIsRemoved(Maildrop(h[..q]), h[..q], |Maildrop(h[..q])|, d.number);
    assert h[..q + 1][..q] == h[..q];
  }

  /** Every completed RETR delivered the content of the file that had its number in the maildrop. */
  lemma DeliveriesAreFiles(r: Run, k: nat, i: nat)
    requires r.Defined(k) && i < |r.states[k].hist.deliveries|
    ensures SentFile(r.states[k].hist.happenings, r.states[k].hist.deliveries[i])
  {
    hide Explains, Step, SentFile;
    AlwaysExplained(r, k);
  }

  /** The user of a session is the one the latest USER named, if the table had that name then. */
  lemma UserIsNamed(r: Run, k: nat)
    requires r.Defined(k)
    ensures r.states[k].session.user == NamedUser(r.states[k].hist.happenings)
  {
    hide Maildrop, Limit, FilesRemoved, SizeOk, TransactionsAuthorized, Authorized, NamedUser, Step, Marked;
    AlwaysExplained(r, k);
  }

  /** No TRANSACTION handler ever runs unless a PASS has given the password of the first table entry for the user and
      no QUIT has ended that session since. */
  lemma TransactionNeedsLogin(r: Run, k: nat, i: nat)
    requires r.Defined(k) && i < |r.states[k].hist.happenings|
    requires var x := r.states[k].hist.happenings[i]; x.Ran? && x.state == Transaction
    ensures Authorized(r.states[k].hist.happenings[..i])
  {
    hide FilesRemoved, Maildrop, SizeOk, Authorized, Step;
    AlwaysExplained(r, k);
  }

  /** STAT's drop size is always the size of the mails not marked plus the excess, as a size_t. So it is right if and
      only if the excess is 0: for instance right after a RSET, or until the first QUIT as long as no mail is deleted
      twice. */
  lemma DropSize(r: Run, k: nat)
    requires r.Defined(k)
    ensures var c := r.states[k];
            var h, size := c.hist.happenings, UnmarkedSize(c.session.mails);
            && c.session.maildirSize == (size + Excess(h)) % SIZE_T
            && (size < SIZE_T ==> (c.session.maildirSize == size <==> Excess(h) % SIZE_T == 0))
            && (h != [] && Resets(h[|h| - 1]) ==> Excess(h) == 0)
            && (!EverQuit(h) && !DeletedTwice(h) ==> Excess(h) == 0)
  {
    hide Maildrop, DeletedTwice, EverQuit, TotalSize, UnmarkedSize, FilesRemoved, TransactionsAuthorized,
         Authorized, WithMarks,
         Step, MailNumber, Marked;
    AlwaysExplained(r, k);
    var c := r.states[k];
    if UnmarkedSize(c.session.mails) < SIZE_T {
      SumCongruence(UnmarkedSize(c.session.mails), Excess(c.hist.happenings));
    }
  }

  lemma SumCongruence(size: nat, excess: int)
    requires size < SIZE_T
    ensures (size + excess) % SIZE_T == size <==> excess % SIZE_T == 0
  {
  }

  /** More events without a QUIT in TRANSACTION remove nothing. */
  lemma {:induction false} OnlyQuitRemoves(h: seq<Happening>, more: seq<Happening>)
    requires forall i :: 0 <= i < |more| ==> !Quits(more[i])
    ensures FilesRemoved(h + more) == FilesRemoved(h)
    decreases |more|
  {
    if more == [] {
      assert h + more == h;
    } else {
      var n := |more| - 1;
      OnlyQuitRemoves(h, more[..n]);
      assert (h + more)[..|h + more| - 1] == h + more[..n];
    }
  }

  /** Between two moments of a run at which different files are gone, the QUIT of a client that was logged in has run: a
      disconnect, a failed send, a QUIT in AUTHORIZATION, an ERROR or any other command removes nothing. */
  lemma RemovalNeedsQuit(r: Run, j: nat, k: nat)
    requires r.Defined(k) && j <= k && r.states[k].hist.removed != r.states[j].hist.removed
    ensures var before, after := r.states[j].hist.happenings, r.states[k].hist.happenings;
            exists i :: |before| <= i < |after| && Quits(after[i]) && Authorized(after[..i])
  {
    hide FilesRemoved, Maildrop, SizeOk, Authorized, Step;
    var before, after := r.states[j].hist.happenings, r.states[k].hist.happenings;
    AlwaysExplained(r, j);
    AlwaysExplained(r, k);
    HistoryGrows(r, j, k);
    var more := after[|before|..];
    assert after == before + more;
    if forall i :: 0 <= i < |more| ==> !Quits(more[i]) {
      OnlyQuitRemoves(before, more);
    } else {
      var i :| 0 <= i < |more| && Quits(more[i]);
      assert Quits(after[|before| + i]);
    }
  }

  /** While no handler runs and no directory is scanned, mails, marks and files stay as they are. */
  lemma IoKeepsMarks(r: Run, j: nat, k: nat)
    requires r.Defined(k) && j <= k && r.states[k].hist.happenings == r.states[j].hist.happenings
    ensures r.states[k].session.mails == r.states[j].session.mails
    ensures r.states[k].hist.removed == r.states[j].hist.removed
  {
    hide FilesRemoved, Maildrop, SizeOk, Authorized, Step;
    AlwaysExplained(r, j);
    AlwaysExplained(r, k);
  }
}
