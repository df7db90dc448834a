/** What each command line does, word by word: to the session, to the files, and to the state the connection goes to.
    The words are spelled out in module Commands, without the command table. */
module Lines {
  import opened Bytes
  import opened CommandParser
  import opened Sessions
  import opened Commands
  import opened Engine
  import opened Retr
  import opened Running
  import opened Chronicle
  import opened Protocol

  /** Nothing of the session changes and no file goes. */
  predicate Untouched(c: Conn, t: Turn) {
    t.conn.session == c.session && t.conn.hist.removed == c.hist.removed
  }

  lemma RunsAs(c: Conn, line: seq<Byte>, w: World, h: Handler)
    requires JustRead(c, line)
    requires Meant(StateOf(c), CString(LineName(line)), LineArgument(line) != []) == Some(h)
    ensures var argument := CString(LineArgument(line));
            var o := Handle(h, StateOf(c), LineArgument(line) != [], argument, c.session, w);
            var t := OnValid(c, StateOf(c), w);
            t.conn.session == o.session && t.next == Some(o.next) && t.conn.hist.removed == c.hist.removed + o.removed
  {
    hide CString, Meant, OnValid, Handle, Dispatch, ValidLine, LineName, LineArgument, StateOf;
    LineRuns(c, StateOf(c), w);
    var c2 := WithCall(WithLine(c), HandlerCall(StateOf(c), h, CString(c.reader.argument)));
    DispatchSession(c2, h, w);
    SameState(c, h);
  }

  lemma SameState(c: Conn, h: Handler)
    ensures var c2 := WithCall(WithLine(c), HandlerCall(StateOf(c), h, CString(c.reader.argument)));
            StateOf(c2) == StateOf(c)
  {
    hide CString;
  }

  lemma EndsInError(c: Conn, line: seq<Byte>, w: World)
    requires JustRead(c, line)
    requires Meant(StateOf(c), CString(LineName(line)), LineArgument(line) != []) == None
    ensures var t := OnValid(c, StateOf(c), w); t.next == Some(Error) && Untouched(c, t)
  {
    hide CString, Meant, OnValid, ValidLine, LineName, LineArgument, StateOf, Cleaned;
    LineRuns(c, StateOf(c), w);
  }

  /** A line in AUTHORIZATION. */
  lemma LineInAuthorization(c: Conn, line: seq<Byte>, w: World)
    requires JustRead(c, line) && StateOf(c) == Authorization
    ensures var name, argument, has := CString(LineName(line)), CString(LineArgument(line)), LineArgument(line) != [];
            var t := OnValid(c, Authorization, w);
            match Meant(Authorization, name, has)
            case Some(UserHandler) =>
              var known := exists i :: 0 <= i < |w.users| && w.users[i].name == argument;
              && t.next == Some(Authorization) && t.conn.hist.removed == c.hist.removed
              && t.conn.session == c.session.(user := if known then argument else [])
            case Some(PassHandler) =>
              var right := c.session.user != [] && FirstHas(w.users, c.session.user, argument);
              && t.next == Some(if right && w.directoryOpens then Transaction else Authorization)
              && t.conn.session == (if right && !w.directoryOpens then c.session.(user := []) else c.session)
              && t.conn.hist.removed == c.hist.removed
            case Some(QuitHandler) =>
              && t.next == Some(Quit) && t.conn.hist.removed == c.hist.removed
              && t.conn.session == c.session.(requestedQuit := true)
            case Some(CapaHandler) => t.next == Some(Authorization) && Untouched(c, t)
            case _ => t.next == Some(Error) && Untouched(c, t)
  {
    hide CString, OnValid, ValidLine, LineName, LineArgument, Ascii, Meant, StateOf, FirstHas, FirstPassword;
    var name, argument, has := CString(LineName(line)), CString(LineArgument(line)), LineArgument(line) != [];
    MeantSuits(Authorization, name, has);
    match Meant(Authorization, name, has)
    case None => EndsInError(c, line, w);
    case Some(h) =>
      RunsAs(c, line, w, h);
      FirstPasswordExact(w.users, c.session.user, argument);
      assert c.hist.removed + [] == c.hist.removed;
  }

  /** A line in TRANSACTION. */
  lemma LineInTransaction(c: Conn, line: seq<Byte>, w: World)
    requires JustRead(c, line) && StateOf(c) == Transaction
    ensures var name, has := CString(LineName(line)), LineArgument(line) != [];
            var n := MailNumber(CString(LineArgument(line)));
            var t := OnValid(c, Transaction, w);
            var before, after := c.session.mails, t.conn.session.mails;
            match Meant(Transaction, name, has)
            case Some(StatHandler) => t.next == Some(Transaction) && Untouched(c, t)
            case Some(ListHandler) => t.next == Some(Transaction) && Untouched(c, t)
            case Some(RetrHandler) => t.next == Some(Transaction) && Untouched(c, t)
            case Some(NoopHandler) => t.next == Some(Transaction) && Untouched(c, t)
            case Some(CapaHandler) => t.next == Some(Transaction) && Untouched(c, t)
            case Some(DeleHandler) =>
              && t.next == Some(Transaction) && t.conn.hist.removed == c.hist.removed && |after| == |before|
              && forall i :: 0 <= i < |after| ==> after[i] == before[i].(deleted := before[i].deleted || i + 1 == n)
            case Some(RsetHandler) =>
              && t.next == Some(Transaction) && t.conn.hist.removed == c.hist.removed && |after| == |before|
              && forall i :: 0 <= i < |after| ==> after[i] == before[i].(deleted := false)
            case Some(QuitHandler) =>
              if before == [] then t.next == Some(Error) && Untouched(c, t)
              else
                && t.next == Some(Authorization) && after == []
                && t.conn.hist.removed == c.hist.removed + MarkedPaths(before)
            case _ => t.next == Some(Error) && Untouched(c, t)
  {
    hide CString, OnValid, ValidLine, LineName, LineArgument, Ascii, Spells, StateOf, MarkedPaths, MailNumber;
    hide TotalSize, PrintInt, ListLines, ListOne, LeavesTable, Meant;
    var name, has := CString(LineName(line)), LineArgument(line) != [];
    MeantSuits(Transaction, name, has);
    match Meant(Transaction, name, has)
    case None => EndsInError(c, line, w);
    case Some(h) =>
      RunsAs(c, line, w, h);
      assert c.hist.removed + [] == c.hist.removed;
  }

  // ---- What the replies say ----

  /** The reply opens with "+OK". */
  predicate SaysOk(reply: seq<Byte>) {
    |reply| >= 3 && reply[0] == 43 && reply[1] == 79 && reply[2] == 75
  }

  /** The reply opens with "-ERR". */
  predicate SaysErr(reply: seq<Byte>) {
    |reply| >= 4 && reply[0] == 45 && reply[1] == 69 && reply[2] == 82 && reply[3] == 82
  }

  lemma TextSays(text: string)
    ensures |text| >= 3 && text[0] == '+' && text[1] == 'O' && text[2] == 'K' ==> SaysOk(Ascii(text))
    ensures |text| >= 4 && text[0] == '-' && text[1] == 'E' && text[2] == 'R' && text[3] == 'R' ==> SaysErr(Ascii(text))
    ensures |text| >= 2 && text[|text| - 2] == '\r' && text[|text| - 1] == '\n' ==> EndsLine(Ascii(text))
  {
  }

  /** A reply in two parts says what the first says, and ends as the second ends. */
  lemma JoinSays(a: seq<Byte>, b: seq<Byte>)
    ensures (SaysOk(a) ==> SaysOk(a + b)) && (EndsLine(b) ==> EndsLine(a + b))
  {
  }

  lemma UserSays(argument: seq<Byte>, s: Session, w: World)
    ensures var reply := HandleUser(argument, s, w).reply;
            && EndsLine(reply)
            && if exists i :: 0 <= i < |w.users| && w.users[i].name == argument then SaysOk(reply) else SaysErr(reply)
  {
    hide Ascii, SaysOk, SaysErr, EndsLine;
    TextSays("+OK valid user\r\n");
    TextSays("-ERR invalid user\r\n");
  }

  lemma PassSays(argument: seq<Byte>, s: Session, w: World)
    ensures var reply := HandlePass(argument, s, w).reply;
            && EndsLine(reply)
            && if s.user != [] && FirstHas(w.users, s.user, argument) && w.directoryOpens then SaysOk(reply)
               else SaysErr(reply)
  {
    hide Ascii, SaysOk, SaysErr, EndsLine, FirstPassword, FirstHas;
    FirstPasswordExact(w.users, s.user, argument);
    TextSays("-ERR no username given\r\n");
    TextSays("-ERR invalid password\r\n");
    TextSays("-ERR invalid user\r\n");
    TextSays("+OK logged in\r\n");
  }

  lemma NoSuchSays(s: Session)
    ensures SaysErr(NoSuchMessage(s).reply) && EndsLine(NoSuchMessage(s).reply)
  {
    hide Ascii, SaysErr, EndsLine;
    TextSays("-ERR no such message\r\n");
  }

  lemma DeleSays(argument: seq<Byte>, s: Session)
    ensures var reply := HandleDele(argument, s).reply;
            EndsLine(reply) && if 1 <= MailNumber(argument) <= |s.mails| then SaysOk(reply) else SaysErr(reply)
  {
    hide Ascii, SaysOk, SaysErr, EndsLine, MailNumber, PrintInt, NoSuchMessage;
    var ok, number, end := Ascii("+OK message "), PrintInt(MailNumber(argument)), Ascii(" deleted\r\n.\r\n");
    TextSays("+OK message ");
    TextSays(" deleted\r\n.\r\n");
    JoinSays(ok, number);
    JoinSays(ok + number, end);
    NoSuchSays(s);
  }

  lemma QuitSays(state: StmState, s: Session)
    ensures var reply := HandleQuit(state, s).reply;
            if state == Authorization || (state == Transaction && s.mails != []) then SaysOk(reply) && EndsLine(reply)
            else reply == []
  {
    hide Ascii, SaysOk, EndsLine, MarkedPaths;
    TextSays("+OK pop3 server signing off\r\n");
    TextSays("+OK\r\n");
  }

  lemma StatSays(s: Session)
    ensures SaysOk(HandleStat(s).reply) && EndsLine(HandleStat(s).reply)
  {
    hide Ascii, SaysOk, PrintInt;
    var ok, mails, size := Ascii("+OK "), PrintInt(|s.mails|), PrintInt(s.maildirSize);
    TextSays("+OK ");
    JoinSays(ok, mails);
    JoinSays(ok + mails, [SP]);
    JoinSays(ok + mails + [SP], size);
    JoinSays(ok + mails + [SP] + size, [CR, LF]);
  }

  lemma ListSays(has: bool, argument: seq<Byte>, s: Session)
    ensures var reply := HandleList(has, argument, s).reply;
            (SaysOk(reply) && EndsLine(reply)) || (has && reply == [])
  {
    hide Ascii, SaysOk, EndsLine, ListedSlot, Decimal, ListLines;
    if !has {
      TextSays("+OK\r\n");
      TextSays(".\r\n");
      JoinSays(Ascii("+OK\r\n"), ListLines(s.mails));
      JoinSays(Ascii("+OK\r\n") + ListLines(s.mails), Ascii(".\r\n"));
    } else if !LeavesTable(argument, s) && ListedSlot(argument, s).Some? {
      var index := ListedSlot(argument, s).value;
      var ok, number := Ascii("+OK "), Decimal((index + 1) % SIZE_T);
      var size := Decimal(if index < |s.mails| then |s.mails[index].content| else 0);
      TextSays("+OK ");
      TextSays(" \r\n");
      JoinSays(ok, number);
      JoinSays(ok + number, [SP]);
      JoinSays(ok + number + [SP], size);
      JoinSays(ok + number + [SP] + size, Ascii(" \r\n"));
    }
  }

  lemma OkSays(state: StmState, s: Session)
    ensures SaysOk(HandleCapa(state, s).reply) && EndsLine(HandleCapa(state, s).reply)
    ensures SaysOk(HandleNoop(s).reply) && EndsLine(HandleNoop(s).reply)
    ensures SaysOk(HandleRset(s).reply) && EndsLine(HandleRset(s).reply)
  {
    hide Ascii, SaysOk, EndsLine, TotalSize, Unmarked;
    TextSays("+OK\r\n");
    TextSays("+OK\r\nUSER\r\nPIPELINING\r\n.\r\n");
  }

  lemma ServerSays()
    ensures SaysOk(WELCOME) && EndsLine(WELCOME) && SaysOk(HEADER) && EndsLine(HEADER)
    ensures SaysErr(UNKNOWN_COMMAND) && EndsLine(UNKNOWN_COMMAND)
  {
    hide Ascii, SaysOk, SaysErr, EndsLine;
    TextSays("+OK POP3 server ready\r\n");
    TextSays("+OK message follows\r\n");
    TextSays("-ERR Unknown command.\r\n");
  }

  /** A reply opens with "+OK" if what was asked has happened and with "-ERR" if not, and it ends a line. Two requests
      are not answered at all: a LIST that refuses its number, and a QUIT with an empty maildrop, which goes to
      ERROR. */
  lemma RepliesSay(h: Handler, state: StmState, has: bool, argument: seq<Byte>, s: Session, w: World)
    requires Suits(h, state)
    ensures var reply := Handle(h, state, has, argument, s, w).reply;
            && (reply != [] ==> EndsLine(reply))
            && match h
               case UserHandler =>
                 if exists i :: 0 <= i < |w.users| && w.users[i].name == argument then SaysOk(reply) else SaysErr(reply)
               case PassHandler =>
                 if s.user != [] && FirstHas(w.users, s.user, argument) && w.directoryOpens then SaysOk(reply)
                 else SaysErr(reply)
               case QuitHandler => if state == Authorization || s.mails != [] then SaysOk(reply) else reply == []
               case ListHandler => SaysOk(reply) || (has && reply == [])
               case RetrHandler => SaysErr(reply)
               case DeleHandler => if 1 <= MailNumber(argument) <= |s.mails| then SaysOk(reply) else SaysErr(reply)
               case _ => SaysOk(reply)
  {
    hide HandleUser, HandlePass, HandleQuit, HandleList, NoSuchMessage, HandleDele, HandleStat, HandleCapa, HandleNoop,
         HandleRset, SaysOk, SaysErr, EndsLine, MailNumber, FirstHas;
    match h
    case UserHandler => UserSays(argument, s, w);
    case PassHandler => PassSays(argument, s, w);
    case QuitHandler => QuitSays(state, s);
    case ListHandler => ListSays(has, argument, s);
    case RetrHandler => NoSuchSays(s);
    case DeleHandler => DeleSays(argument, s);
    case StatHandler => StatSays(s);
    case _ => OkSays(state, s);
  }

  /** The answer to DELE names the mail, between "+OK message " and a space. */
  lemma DeleNamesMail(argument: seq<Byte>, s: Session)
    requires 1 <= MailNumber(argument) <= |s.mails| && MailNumber(argument) < 0x8000_0000
    ensures var reply, number := HandleDele(argument, s).reply, Decimal(MailNumber(argument));
            |reply| > 12 + |number| && reply[12..12 + |number|] == number && reply[12 + |number|] == SP
  {
    hide MailNumber, Decimal;
    var number := Decimal(MailNumber(argument));
    var ok, end := Ascii("+OK message "), Ascii(" deleted\r\n.\r\n");
    assert (ok + number + end)[12..12 + |number|] == number && (ok + number + end)[12 + |number|] == end[0];
  }

  lemma AsciiJoin(a: string, b: string)
    ensures Ascii(a + b) == Ascii(a) + Ascii(b)
  {
  }

  /** The answer to CAPA is a list of USER and PIPELINING, a line each, which ends with a dot. */
  lemma CapaLists(state: StmState, s: Session)
    ensures HandleCapa(state, s).reply
            == Ascii("+OK\r\n") + (Ascii("USER\r\n") + (Ascii("PIPELINING\r\n") + Ascii(".\r\n")))
  {
    hide Ascii;
    AsciiJoin("PIPELINING\r\n", ".\r\n");
    AsciiJoin("USER\r\n", "PIPELINING\r\n" + ".\r\n");
    AsciiJoin("+OK\r\n", "USER\r\n" + ("PIPELINING\r\n" + ".\r\n"));
    assert "+OK\r\nUSER\r\nPIPELINING\r\n.\r\n" == "+OK\r\n" + ("USER\r\n" + ("PIPELINING\r\n" + ".\r\n"));
  }
}
