/** What the events of a session mean, said without the session's own fields: who is logged in, which mails are marked
    and which files are gone can all be read off the handlers that ran and the directories that were loaded. */
module Chronicle {
  import opened Bytes
  import opened Sessions
  import opened Interests
  import opened Engine
  import opened Running
  import opened Retr
  import opened CommandParser

  /** This is the password of the first entry with this name. */
  predicate FirstHas(users: seq<Account>, name: seq<Byte>, pass: seq<Byte>) {
    exists i :: 0 <= i < |users| && users[i] == Account(name, pass) && forall j :: 0 <= j < i ==> users[j].name != name
  }

  /** A PASS with the password of this user. */
  predicate GivesPassword(name: seq<Byte>, x: Happening) {
    && x.Ran? && x.state == Authorization && x.handler == PassHandler
    && name != [] && FirstHas(x.world.users, name, x.argument)
  }

  /** The user of the session: the argument of the latest USER, if the table had that name then. Nobody is named by any
      other USER, nor after a right PASS for which the mail directory did not open. */
  function NamedUser(h: seq<Happening>): seq<Byte> {
    if h == [] then []
    else
      var last, before := h[|h| - 1], h[..|h| - 1];
      if last.Ran? && last.state == Authorization && last.handler == UserHandler then
        if exists i :: 0 <= i < |last.world.users| && last.world.users[i].name == last.argument then last.argument
        else []
      else if GivesPassword(NamedUser(before), last) && !last.world.directoryOpens then []
      else NamedUser(before)
  }

  /** After these events, a PASS that opens the maildrop of the user named last. */
  predicate LogsIn(h: seq<Happening>, x: Happening) {
    GivesPassword(NamedUser(h), x) && x.world.directoryOpens
  }

  /** A QUIT in TRANSACTION. */
  predicate Quits(x: Happening) {
    x.Ran? && x.state == Transaction && x.handler == QuitHandler
  }

  predicate Resets(x: Happening) {
    x.Ran? && x.state == Transaction && x.handler == RsetHandler
  }

  predicate Retrieves(x: Happening, number: nat) {
    x.Ran? && x.state == Transaction && x.handler == RetrHandler && MailNumber(x.argument) == number
  }

  predicate Deletes(x: Happening, number: nat) {
    x.Ran? && x.state == Transaction && x.handler == DeleHandler && MailNumber(x.argument) == number
  }

  /** The files of the maildrop: those the latest scan of the mail directory came to, in the order of readdir and up to
      the limit; none after a QUIT. */
  function Maildrop(h: seq<Happening>): seq<(string, seq<Byte>)> {
    if h == [] then []
    else
      var last, before := h[|h| - 1], h[..|h| - 1];
      if last.MailsLoaded? then last.world.listing[..Min(last.world.maxMails, |last.world.listing|)]
      else if Quits(last) then []
      else Maildrop(before)
  }

  /** The mail limit at the latest scan. */
  function Limit(h: seq<Happening>): nat {
    if h == [] then 0
    else
      var last := h[|h| - 1];
      if last.MailsLoaded? then last.world.maxMails else Limit(h[..|h| - 1])
  }

  /** The latest event among DELE of mail i, RSET and loading the maildrop is the DELE. */
  predicate Marked(h: seq<Happening>, i: nat) {
    h != [] &&
    var last, before := h[|h| - 1], h[..|h| - 1];
    if last.MailsLoaded? || Resets(last) then false
    else Deletes(last, i + 1) || Marked(before, i)
  }

  /** Paths of the marked ones among the first n mails. */
  function MarkedFiles(files: seq<(string, seq<Byte>)>, h: seq<Happening>, n: nat): seq<string>
    requires n <= |files|
  {
    if n == 0 then []
    else MarkedFiles(files, h, n - 1) + (if Marked(h, n - 1) then [files[n - 1].0] else [])
  }

  /** RFC 1939 section 6: files go away when a client QUITs in TRANSACTION, and then exactly the marked ones. */
  function FilesRemoved(h: seq<Happening>): seq<string> {
    if h == [] then []
    else
      var last, before := h[|h| - 1], h[..|h| - 1];
      FilesRemoved(before) +
      (if Quits(last) then MarkedFiles(Maildrop(before), before, |Maildrop(before)|) else [])
  }

  /** There has been a successful PASS and no QUIT with a maildrop since. */
  predicate Authorized(h: seq<Happening>) {
    h != [] &&
    var last, before := h[|h| - 1], h[..|h| - 1];
    LogsIn(before, last) || (!(Quits(last) && Maildrop(before) != []) && Authorized(before))
  }

  predicate EverQuit(h: seq<Happening>) {
    h != [] &&
    var last, before := h[|h| - 1], h[..|h| - 1];
    (Quits(last) && Maildrop(before) != []) || EverQuit(before)
  }

  /** Some DELE since the last RSET or loading hit a mail that was marked already. */
  predicate DeletedTwice(h: seq<Happening>) {
    h != [] &&
    var last, before := h[|h| - 1], h[..|h| - 1];
    if last.MailsLoaded? || Resets(last) then false
    else (exists i: nat :: i < |Maildrop(before)| && Deletes(last, i + 1) && Marked(before, i)) || DeletedTwice(before)
  }

  /** What the drop size has too much, or too little: sizes that a QUIT left behind, less the sizes of mails deleted
      again while they were marked. A RSET clears both. */
  function Excess(h: seq<Happening>): int {
    if h == [] then 0
    else
      var last, before := h[|h| - 1], h[..|h| - 1];
      var files := Maildrop(before);
      if Resets(last) then 0
      else if Quits(last) then Excess(before) + UnmarkedSize(WithMarks(files, before))
      else if last.Ran? && last.state == Transaction && last.handler == DeleHandler then
        var number := MailNumber(last.argument);
        var again := 1 <= number <= |files| && Marked(before, number - 1);
        Excess(before) - (if again then |files[number - 1].1| else 0)
      else Excess(before)
  }

  /** Every handler of the TRANSACTION state ran for a client that was logged in. */
  predicate TransactionsAuthorized(h: seq<Happening>) {
    forall k :: 0 <= k < |h| && h[k].Ran? && h[k].state == Transaction ==> Authorized(h[..k])
  }

  /** The mail directory is scanned only while there is no maildrop. */
  predicate ScansNeeded(h: seq<Happening>) {
    forall k :: 0 <= k < |h| && h[k].MailsLoaded? ==> Maildrop(h[..k]) == []
  }

  /** Mail i is file i, with its mark. */
  function WithMarks(files: seq<(string, seq<Byte>)>, h: seq<Happening>): seq<Mail> {
    seq(|files|, i requires 0 <= i < |files| => Mail(files[i].0, files[i].1, Marked(h, i)))
  }

  predicate SizeOk(h: seq<Happening>, s: Session) {
    && s.maildirSize == (UnmarkedSize(s.mails) + Excess(h)) % SIZE_T
    && (!EverQuit(h) && (s.mails == [] || !DeletedTwice(h)) ==> Excess(h) == 0)
  }

  /** The session fields and the files removed are what the history says. `phase` is AUTHORIZATION or TRANSACTION,
      the latter also while a TRANSACTION is interrupted by ERROR. */
  predicate Explains(h: seq<Happening>, s: Session, removed: seq<string>, phase: StmState) {
    && s.mails == WithMarks(Maildrop(h), h) && TableFits(s)
    && s.slots == (if Maildrop(h) == [] then 0 else Limit(h)) && s.user == NamedUser(h)
    && removed == FilesRemoved(h)
    && (phase == Transaction ==> Authorized(h))
    && (phase == Authorization ==> !Authorized(h) && s.mails == [])
    && TransactionsAuthorized(h) && ScansNeeded(h)
    && SizeOk(h, s)
  }

  // ---- Sums ----

  lemma {:induction false} MarkingShrinks(mails: seq<Mail>, k: nat)
    requires k < |mails|
    ensures UnmarkedSize(mails[k := mails[k].(deleted := true)])
            == UnmarkedSize(mails) - (if mails[k].deleted then 0 else |mails[k].content|)
  {
    var n := |mails| - 1;
    var after := mails[k := mails[k].(deleted := true)];
    if k < n {
      MarkingShrinks(mails[..n], k);
      assert after[..n] == mails[..n][k := mails[k].(deleted := true)];
    } else {
      assert after[..n] == mails[..n];
    }
  }

  lemma {:induction false} UnmarkingRestores(mails: seq<Mail>)
    ensures UnmarkedSize(Unmarked(mails)) == TotalSize(mails)
  {
    if mails != [] {
      var n := |mails| - 1;
      UnmarkingRestores(mails[..n]);
      assert Unmarked(mails)[..n] == Unmarked(mails[..n]);
    }
  }

  lemma {:induction false} MarkedPathsAreFiles(files: seq<(string, seq<Byte>)>, h: seq<Happening>, n: nat)
    requires n <= |files|
    ensures MarkedPaths(WithMarks(files, h)[..n]) == MarkedFiles(files, h, n)
  {
    if n > 0 {
      MarkedPathsAreFiles(files, h, n - 1);
      assert WithMarks(files, h)[..n][..n - 1] == WithMarks(files, h)[..n - 1];
    }
  }

  /** After a DELE the drop size is right exactly when the mail had not been marked, or is empty. */
  lemma DeleSizeExact(argument: seq<Byte>, s: Session)
    requires Exists(s, MailNumber(argument))
    requires s.maildirSize == UnmarkedSize(s.mails) && TotalSize(s.mails) < SIZE_T
    ensures var mail := s.mails[MailNumber(argument) - 1];
            var after := HandleDele(argument, s).session;
            after.maildirSize == UnmarkedSize(after.mails) <==> !mail.deleted || |mail.content| == 0
  {
    var k := MailNumber(argument) - 1;
    hide MailNumber, Ascii, PrintInt;
    MarkingShrinks(s.mails, k);
    UnmarkedIsPart(s.mails);
    UnmarkedIsPart(s.mails[k := s.mails[k].(deleted := true)]);
    PartOfTotal(s.mails, k);
  }

  /** A QUIT keeps the drop size, so after the next login of the same connection it is right exactly when it was 0. */
  lemma ReloadSizeExact(s: Session, w: World)
    requires s.mails != [] && s.maildirSize < SIZE_T && TotalSize(Loaded(w)) < SIZE_T
    ensures var after := Arrive(HandleQuit(Transaction, s).session, w);
            after.maildirSize == UnmarkedSize(after.mails) <==> s.maildirSize == 0
  {
    hide TotalSize, UnmarkedSize;
    UnmarkingRestores(Loaded(w));
    assert Unmarked(Loaded(w)) == Loaded(w);
  }

  /** Deleting a mail of one octet twice leaves a drop size of 2^64 - 1. */
  lemma SecondDeleUnderflows(path: string)
    ensures var s := Session([], [Mail(path, [65], true)], 1, 0, false);
            HandleDele(Decimal(1), s).session.maildirSize == SIZE_T - 1
            && UnmarkedSize(HandleDele(Decimal(1), s).session.mails) == 0
  {
    hide MailNumber, PrintInt, Ascii;
    MailNumberOfDecimal(1);
    var mails := [Mail(path, [65], true)];
    assert mails[0 := mails[0].(deleted := true)] == mails && mails[..0] == [];
    assert UnmarkedSize(mails) == UnmarkedSize(mails[..0]);
  }

  /** A QUIT from a maildrop of one octet, and a login that finds one octet: STAT says two. */
  lemma ReloadCountsTwice(path: string, w: World)
    requires w.maxMails >= 1 && w.listing == [(path, [65])]
    ensures var s := Session([], [Mail(path, [65], false)], 1, 1, false);
            var after := Arrive(HandleQuit(Transaction, s).session, w);
            after.maildirSize == 2 && UnmarkedSize(after.mails) == 1
  {
    var mail := Mail(path, [65], false);
    assert Loaded(w) == [mail] && [mail][..0] == [];
    assert TotalSize([mail]) == TotalSize([mail][..0]) + 1 && UnmarkedSize([mail]) == UnmarkedSize([mail][..0]) + 1;
  }

  lemma {:induction false} UnmarkedIsPart(mails: seq<Mail>)
    ensures UnmarkedSize(mails) <= TotalSize(mails)
  {
    if mails != [] {
      UnmarkedIsPart(mails[..|mails| - 1]);
    }
  }

  lemma {:induction false} PartOfUnmarked(mails: seq<Mail>, k: nat)
    requires k < |mails| && !mails[k].deleted
    ensures |mails[k].content| <= UnmarkedSize(mails)
  {
    if k < |mails| - 1 {
      PartOfUnmarked(mails[..|mails| - 1], k);
    }
  }

  lemma {:induction false} PartOfTotal(mails: seq<Mail>, k: nat)
    requires k < |mails|
    ensures |mails[k].content| <= TotalSize(mails)
  {
    if k < |mails| - 1 {
      PartOfTotal(mails[..|mails| - 1], k);
    }
  }

  // ---- Handlers and arrivals keep the explanation ----

  /** One more handler in the history. */
  lemma Unfold(h: seq<Happening>, x: Happening)
    ensures (h + [x])[|h + [x]| - 1] == x && (h + [x])[..|h + [x]| - 1] == h
  {
  }

  /** Authorization and removals after one more handler. */
  lemma {:induction false} HandlerKeepsAccess(
    h: seq<Happening>, x: Happening, s: Session, removed: seq<string>, phase: StmState)
    requires Explains(h, s, removed, phase) && x.Ran? && x.state == phase
    requires phase == Authorization || phase == Transaction
    ensures TransactionsAuthorized(h + [x])
    ensures Authorized(h + [x]) <==> LogsIn(h, x) || (phase == Transaction && !(Quits(x) && s.mails != []))
    ensures FilesRemoved(h + [x]) == removed + (if Quits(x) then MarkedPaths(s.mails) else [])
  {
    hide SizeOk, Marked, LogsIn;
    var h' := h + [x];
    Unfold(h, x);
    forall k | 0 <= k < |h'| && h'[k].Ran? && h'[k].state == Transaction
      ensures Authorized(h'[..k])
    {
      assert k < |h| ==> h'[..k] == h[..k];
    }
    MarkedPathsAreFiles(Maildrop(h), h, |Maildrop(h)|);
    assert s.mails[..|s.mails|] == s.mails;
  }

  lemma {:induction false} DeleKeepsMarks(h: seq<Happening>, x: Happening, s: Session)
    requires s.mails == WithMarks(Maildrop(h), h) && x.Ran? && x.state == Transaction && x.handler == DeleHandler
    ensures HandleDele(x.argument, s).session.mails == WithMarks(Maildrop(h + [x]), h + [x])
  {
    hide Ascii, PrintInt, MailNumber;
    Unfold(h, x);
  }

  lemma {:induction false} RsetKeepsMarks(h: seq<Happening>, x: Happening, s: Session)
    requires s.mails == WithMarks(Maildrop(h), h) && Resets(x)
    ensures HandleRset(s).session.mails == WithMarks(Maildrop(h + [x]), h + [x])
  {
    hide Ascii, TotalSize;
    Unfold(h, x);
  }

  lemma {:induction false} QuitKeepsMarks(h: seq<Happening>, x: Happening, s: Session)
    requires s.mails == WithMarks(Maildrop(h), h) && Quits(x)
    ensures HandleQuit(Transaction, s).session.mails == WithMarks(Maildrop(h + [x]), h + [x])
  {
    hide Ascii, MarkedPaths;
    Unfold(h, x);
  }

  lemma {:induction false} OtherKeepsMarks(h: seq<Happening>, x: Happening, s: Session)
    requires s.mails == WithMarks(Maildrop(h), h) && x.Ran?
    requires x.state == Transaction ==> x.handler != DeleHandler && x.handler != RsetHandler && x.handler != QuitHandler
    ensures s.mails == WithMarks(Maildrop(h + [x]), h + [x])
  {
    Unfold(h, x);
  }

  lemma OtherKeepsMails(handler: Handler, state: StmState, hasArgument: bool, argument: seq<Byte>, s: Session, w: World)
    requires Suits(handler, state)
    requires state == Transaction ==> handler != DeleHandler && handler != RsetHandler && handler != QuitHandler
    ensures Handle(handler, state, hasArgument, argument, s, w).session.mails == s.mails
  {
    hide Ascii, FirstPassword, PrintInt, ListOne, Decimal, ListLines, MarkedPaths, TotalSize, MailNumber;
  }

  /** Marks after one more handler. */
  lemma {:induction false} HandlerKeepsMarks(h: seq<Happening>, x: Happening, s: Session, w: World, hasArgument: bool)
    requires s.mails == WithMarks(Maildrop(h), h)
    requires x.Ran? && Suits(x.handler, x.state)
    ensures var o := Handle(x.handler, x.state, hasArgument, x.argument, s, w);
            o.session.mails == WithMarks(Maildrop(h + [x]), h + [x])
  {
    hide HandleDele, HandleRset, HandleQuit, HandleUser, HandlePass, HandleStat, HandleList, HandleCapa, HandleNoop;
    hide Maildrop, WithMarks;
    if x.state == Transaction && x.handler == DeleHandler {
      DeleKeepsMarks(h, x, s);
    } else if x.state == Transaction && x.handler == RsetHandler {
      RsetKeepsMarks(h, x, s);
    } else if x.state == Transaction && x.handler == QuitHandler {
      QuitKeepsMarks(h, x, s);
    } else {
      OtherKeepsMarks(h, x, s);
      OtherKeepsMails(x.handler, x.state, hasArgument, x.argument, s, w);
    }
  }

  lemma {:induction false} DeleKeepsSize(h: seq<Happening>, x: Happening, s: Session)
    requires s.mails == WithMarks(Maildrop(h), h) && SizeOk(h, s)
    requires x.Ran? && x.state == Transaction && x.handler == DeleHandler
    ensures SizeOk(h + [x], HandleDele(x.argument, s).session)
  {
    hide Ascii, PrintInt, MailNumber, UnmarkedSize, Marked;
    Unfold(h, x);
    if Exists(s, MailNumber(x.argument)) {
      var k := MailNumber(x.argument) - 1;
      assert Deletes(x, k + 1);
      assert s.mails[k].deleted == Marked(h, k) && |s.mails[k].content| == |Maildrop(h)[k].1|;
      MarkingShrinks(s.mails, k);
      SizeLess(UnmarkedSize(s.mails) + Excess(h), |s.mails[k].content|);
    }
  }

  lemma SizeLess(total: int, size: nat)
    ensures (total % SIZE_T - size) % SIZE_T == (total - size) % SIZE_T
  {
  }

  lemma {:induction false} RsetKeepsSize(h: seq<Happening>, x: Happening, s: Session)
    requires s.mails == WithMarks(Maildrop(h), h) && SizeOk(h, s) && Resets(x)
    ensures SizeOk(h + [x], HandleRset(s).session)
  {
    hide Ascii, UnmarkedSize, TotalSize;
    Unfold(h, x);
    UnmarkingRestores(s.mails);
  }

  lemma TotalOfNothing()
    ensures TotalSize([]) == 0 && UnmarkedSize([]) == 0
  {
  }

  /** The drop size after one more handler. */
  lemma {:induction false} QuitKeepsSize(h: seq<Happening>, x: Happening, s: Session)
    requires s.mails == WithMarks(Maildrop(h), h) && SizeOk(h, s)
    requires x.Ran? && x.handler == QuitHandler && Suits(QuitHandler, x.state)
    ensures SizeOk(h + [x], HandleQuit(x.state, s).session)
  {
    hide Ascii, MarkedPaths, UnmarkedSize, TotalSize, MailNumber, Marked;
    Unfold(h, x);
    TotalOfNothing();
  }

  /** USER, PASS, CAPA, STAT, LIST, RETR and NOOP leave mails and drop size alone. */
  lemma OtherKeepsSize(h: seq<Happening>, x: Happening, s: Session, w: World, hasArgument: bool)
    requires SizeOk(h, s) && x.Ran? && x.handler != DeleHandler && x.handler != RsetHandler && x.handler != QuitHandler
    ensures SizeOk(h + [x], Handle(x.handler, x.state, hasArgument, x.argument, s, w).session)
  {
    hide Ascii, FirstPassword, PrintInt, ListOne, Decimal, ListLines, MailNumber, UnmarkedSize, LeavesTable, Marked;
    Unfold(h, x);
  }

  lemma {:induction false} HandlerKeepsSize(h: seq<Happening>, x: Happening, s: Session, w: World, hasArgument: bool)
    requires s.mails == WithMarks(Maildrop(h), h) && SizeOk(h, s)
    requires x.Ran? && Suits(x.handler, x.state)
    ensures SizeOk(h + [x], Handle(x.handler, x.state, hasArgument, x.argument, s, w).session)
  {
    hide SizeOk, WithMarks, Maildrop;
    hide HandleDele, HandleRset, HandleQuit, HandleList, HandleStat, HandleUser, HandlePass, HandleCapa, HandleNoop;
    match x.handler
    case DeleHandler => DeleKeepsSize(h, x, s);
    case RsetHandler => RsetKeepsSize(h, x, s);
    case QuitHandler => QuitKeepsSize(h, x, s);
    case _ => OtherKeepsSize(h, x, s, w, hasArgument);
  }

  lemma HandleKeepsTable(handler: Handler, hasArgument: bool, argument: seq<Byte>, s: Session, phase: StmState,
           w: World)
    requires TableFits(s)
    ensures TableFits(Handle(handler, phase, hasArgument, argument, s, w).session)
  {
    hide Ascii, PrintInt, ListOne, LeavesTable, Decimal, ListLines, MailNumber, TotalSize, FirstPassword, MarkedPaths;
  }

  /** The table is there, with its slots, from the scan that found a mail to the QUIT. */
  lemma {:induction false} HandlerKeepsSlots(h: seq<Happening>, x: Happening, s: Session, w: World, hasArgument: bool)
    requires s.mails == WithMarks(Maildrop(h), h) && s.slots == (if Maildrop(h) == [] then 0 else Limit(h))
    requires x.Ran? && Suits(x.handler, x.state)
    ensures Handle(x.handler, x.state, hasArgument, x.argument, s, w).session.slots
            == if Maildrop(h + [x]) == [] then 0 else Limit(h + [x])
  {
    hide Ascii, PrintInt, Strtol, Decimal, ListLines, MarkedPaths, MailNumber, TotalSize, FirstPassword, LeavesTable,
         ListOne, Marked;
    Unfold(h, x);
  }

  lemma {:induction false} ScansStayNeeded(h: seq<Happening>, x: Happening)
    requires ScansNeeded(h) && (x.MailsLoaded? ==> Maildrop(h) == [])
    ensures ScansNeeded(h + [x])
  {
    hide Maildrop;
    var h' := h + [x];
    forall k | 0 <= k < |h'| && h'[k].MailsLoaded?
      ensures Maildrop(h'[..k]) == []
    {
      assert h'[..k] == h[..k];
      assert k == |h| ==> h[..k] == h;
    }
  }

  /** A handler changes the session exactly as the history says. */
  lemma HandlerExplained(h: seq<Happening>, handler: Handler, hasArgument: bool, argument: seq<Byte>,
                         s: Session, removed: seq<string>, phase: StmState, w: World)
    requires Explains(h, s, removed, phase) && Suits(handler, phase)
    ensures var o := Handle(handler, phase, hasArgument, argument, s, w);
            var x := Ran(phase, handler, argument, w);
            Explains(h + [x], o.session, removed + o.removed, if o.next == Error then phase else o.next)
  {
    hide Ascii, PrintInt, Strtol, Decimal, ListLines, MarkedPaths, MailNumber, UnmarkedSize, TotalSize,
         HandleDele, HandleRset, SizeOk, Limit, NamedUser, ScansNeeded,
         Marked, FilesRemoved, TransactionsAuthorized, Authorized, Maildrop, TableFits;
    var x := Ran(phase, handler, argument, w);
    HandlerKeepsAccess(h, x, s, removed, phase);
    HandlerKeepsMarks(h, x, s, w, hasArgument);
    HandlerKeepsSize(h, x, s, w, hasArgument);
    HandlerKeepsSlots(h, x, s, w, hasArgument);
    ScansStayNeeded(h, x);
    NothingMarked();
    HandleNext(h, handler, hasArgument, argument, s, phase, w);
    HandlerKeepsUser(h, handler, hasArgument, argument, s, phase, w);
    HandleKeepsTable(handler, hasArgument, argument, s, phase, w);
    assert removed + [] == removed;
  }

  lemma NothingMarked()
    ensures MarkedPaths([]) == []
  {
  }

  /** When a handler changes the phase, and when it removes files. */
  lemma {:induction false} HandleNext(h: seq<Happening>, handler: Handler, hasArgument: bool, argument: seq<Byte>,
                   s: Session, phase: StmState, w: World)
    requires Suits(handler, phase) && s.user == NamedUser(h)
    ensures var o := Handle(handler, phase, hasArgument, argument, s, w);
            var x := Ran(phase, handler, argument, w);
            && o.removed == (if Quits(x) then MarkedPaths(s.mails) else [])
            && (phase == Authorization ==>
                  && (o.next == Transaction <==> LogsIn(h, x)) && (o.next == Quit <==> handler == QuitHandler)
                  && o.session.mails == s.mails && o.next != Error)
            && (phase == Transaction ==>
                  && (o.next == Authorization <==> Quits(x) && s.mails != [])
                  && (o.next == Error <==> Quits(x) && s.mails == [])
                  && (o.next == Authorization ==> o.session.mails == []) && o.next != Quit)
  {
    hide Ascii, PrintInt, Strtol, Decimal, ListLines, MailNumber, TotalSize, FirstPassword, NamedUser, FirstHas;
    NothingMarked();
    FirstPasswordExact(w.users, s.user, argument);
  }

  lemma {:induction false} FirstPasswordExact(users: seq<Account>, name: seq<Byte>, pass: seq<Byte>)
    ensures FirstPassword(users, name) == Some(pass) <==> FirstHas(users, name, pass)
    ensures FirstPassword(users, name) == None ==> !Knows(users, name)
  {
    if users != [] && users[0].name != name {
      FirstPasswordExact(users[1..], name, pass);
      if FirstHas(users[1..], name, pass) {
        var i :| 0 <= i < |users[1..]| && users[1..][i] == Account(name, pass)
                 && forall j :: 0 <= j < i ==> users[1..][j].name != name;
        assert users[i + 1] == Account(name, pass);
        assert forall j :: 0 < j < i + 1 ==> users[j] == users[1..][j - 1];
      }
      if FirstHas(users, name, pass) {
        var i :| 0 <= i < |users| && users[i] == Account(name, pass)
                 && forall j :: 0 <= j < i ==> users[j].name != name;
        assert users[1..][i - 1] == Account(name, pass);
      }
    }
  }

  /** USER and PASS change the user of the session as the history says, and nothing else does. */
  lemma {:induction false} HandlerKeepsUser(h: seq<Happening>, handler: Handler, hasArgument: bool, argument: seq<Byte>,
                                            s: Session, phase: StmState, w: World)
    requires Suits(handler, phase) && s.user == NamedUser(h)
    ensures var o := Handle(handler, phase, hasArgument, argument, s, w);
            o.session.user == NamedUser(h + [Ran(phase, handler, argument, w)])
  {
    hide Ascii, PrintInt, Strtol, Decimal, ListLines, MailNumber, TotalSize, FirstPassword, FirstHas, MarkedPaths,
         LeavesTable, ListOne;
    Unfold(h, Ran(phase, handler, argument, w));
    FirstPasswordExact(w.users, s.user, argument);
  }

  lemma {:induction false} LoadKeepsAccess(h: seq<Happening>, w: World)
    requires TransactionsAuthorized(h)
    ensures var h' := h + [MailsLoaded(w)];
            TransactionsAuthorized(h') && Authorized(h') == Authorized(h) && FilesRemoved(h') == FilesRemoved(h)
            && EverQuit(h') == EverQuit(h) && !DeletedTwice(h') && Excess(h') == Excess(h)
  {
    hide Loaded, Marked;
    var x := MailsLoaded(w);
    var h' := h + [x];
    Unfold(h, x);
    forall k | 0 <= k < |h'| && h'[k].Ran? && h'[k].state == Transaction
      ensures Authorized(h'[..k])
    {
      assert h'[..k] == h[..k];
    }
    assert FilesRemoved(h) + [] == FilesRemoved(h);
  }

  lemma {:induction false} NothingMarkedAfter(h: seq<Happening>, w: World)
    ensures forall i: nat :: !Marked(h + [MailsLoaded(w)], i)
  {
    Unfold(h, MailsLoaded(w));
  }

  /** The scan uses each file once, in the order of readdir, until there are no more or the limit is reached: path and
      content of a mail are those of one and the same file. */
  lemma LoadedAreFiles(w: World)
    ensures |Loaded(w)| <= w.maxMails && |Loaded(w)| <= |w.listing|
    ensures |Loaded(w)| == w.maxMails || |Loaded(w)| == |w.listing|
    ensures forall i :: 0 <= i < |Loaded(w)| ==> Loaded(w)[i] == Mail(w.listing[i].0, w.listing[i].1, false)
  {
  }

  lemma LoadedUnmarked(w: World)
    ensures Unmarked(Loaded(w)) == Loaded(w)
  {
  }

  lemma SizeMore(total: int, size: nat)
    ensures (total % SIZE_T + size) % SIZE_T == (size + total) % SIZE_T
  {
  }

  /** Loading the mail directory starts afresh: no marks, and for the first maildrop of a connection the drop size is
      the sum of the sizes found. */
  lemma LoadExplained(h: seq<Happening>, s: Session, removed: seq<string>, w: World)
    requires Explains(h, s, removed, Transaction) && s.mails == []
    ensures Explains(h + [MailsLoaded(w)], Arrive(s, w), removed, Transaction)
  {
    hide Marked, FilesRemoved, Authorized, TotalSize, UnmarkedSize, Loaded, ScansNeeded;
    var x := MailsLoaded(w);
    Unfold(h, x);
    ScansStayNeeded(h, x);
    LoadKeepsAccess(h, w);
    NothingMarkedAfter(h, w);
    LoadedUnmarked(w);
    LoadedAreFiles(w);
    assert Arrive(s, w).mails == WithMarks(Maildrop(h + [x]), h + [x]);
    UnmarkingRestores(Loaded(w));
    TotalOfNothing();
    SizeMore(Excess(h), TotalSize(Loaded(w)));
  }

  // ---- Whole runs ----

  /** The protocol state a connection is in; ERROR is an excursion from the state that read the bad line. */
  function Phase(c: Conn): StmState {
    match c.current
    case None => Authorization
    case Some(Error) => if c.lastState.Some? then c.lastState.value else Authorization
    case Some(s) => s
  }

  /** A completed RETR sent the content of the file that had this number in the maildrop when the RETR ran. */
  predicate SentFile(h: seq<Happening>, d: Delivery) {
    && 1 <= d.at <= |h| && Retrieves(h[d.at - 1], d.number)
    && 1 <= d.number <= |Maildrop(h[..d.at])| && d.content == Maildrop(h[..d.at])[d.number - 1].1
  }

  predicate SentFiles(h: seq<Happening>, ds: seq<Delivery>) {
    forall i :: 0 <= i < |ds| ==> SentFile(h, ds[i])
  }

  predicate SessionOk(c: Conn, phase: StmState) {
    Explains(c.hist.happenings, c.session, c.hist.removed, phase) && SentFiles(c.hist.happenings, c.hist.deliveries)
  }

  predicate SameRecord(a: Conn, b: Conn) {
    a.session == b.session && a.hist.happenings == b.hist.happenings && a.hist.removed == b.hist.removed
  }

  predicate SameSession(a: Conn, b: Conn) {
    SameRecord(a, b) && a.hist.deliveries == b.hist.deliveries
  }

  /** The phase a turn leads to. */
  function PhaseAfter(t: Turn, phase: StmState): StmState {
    if t.next.None? || t.next == Some(Error) then phase else t.next.value
  }

  lemma LooksOnly(h: Handler, hasArgument: bool, argument: seq<Byte>, s: Session, phase: StmState, w: World)
    requires h == RetrHandler || h == ListHandler
    ensures var o := Handle(h, phase, hasArgument, argument, s, w);
            o.session == s && o.removed == [] && o.next == Transaction
  {
    hide LeavesTable, ListOne, ListLines, Ascii;
  }

  lemma RunOtherSession(c: Conn, h: Handler, w: World)
    ensures var o := Handle(h, StateOf(c), c.reader.argumentLength > 0, CString(c.reader.argument), c.session, w);
            var t := RunOther(c, h, w);
            && t.conn.session == o.session && t.next == Some(o.next)
            && t.conn.hist.removed == c.hist.removed + o.removed
            && t.conn.hist.happenings
               == c.hist.happenings + [Ran(StateOf(c), h, CString(c.reader.argument), w)]
  {
    hide Handle, CString;
  }

  lemma RunRetrSession(c: Conn, i: nat)
    requires i < |c.readIndex| && i < |c.session.mails|
    ensures SameRecord(c, RunRetr(c, i))
  {
    hide Queued, After, CallFits;
  }

  /** A call of list_handler or retr_handler that leaves the session alone. */
  lemma SameSessionHandled(c: Conn, h: Handler, w: World, after: Conn)
    requires h == RetrHandler || h == ListHandler
    requires SameRecord(c.(hist := Record(c, h, w)), after)
    ensures var o := Handle(h, StateOf(c), c.reader.argumentLength > 0, CString(c.reader.argument), c.session, w);
            && after.session == o.session && o.next == Transaction
            && after.hist.removed == c.hist.removed + o.removed
            && after.hist.happenings
               == c.hist.happenings + [Ran(StateOf(c), h, CString(c.reader.argument), w)]
  {
    hide Handle, CString, StateOf;
    LooksOnly(h, c.reader.argumentLength > 0, CString(c.reader.argument), c.session, StateOf(c), w);
    assert c.hist.removed + [] == c.hist.removed;
  }

  lemma AstrayLooks(c: Conn, h: Handler, w: World)
    requires GoesAstray(c, h, w)
    ensures h == RetrHandler || h == ListHandler
  {
    hide LeavesTable, CString, MailNumber;
  }

  /** What one handler call does to the session: what Handle says, also for RETR. */
  lemma RunHandlerSession(c: Conn, h: Handler, w: World)
    ensures var o := Handle(h, StateOf(c), c.reader.argumentLength > 0, CString(c.reader.argument), c.session, w);
            var t := RunHandler(c, h, w);
            && t.conn.session == o.session && t.next == Some(o.next)
            && t.conn.hist.removed == c.hist.removed + o.removed
            && t.conn.hist.happenings
               == c.hist.happenings + [Ran(StateOf(c), h, CString(c.reader.argument), w)]
  {
    hide Handle, CString, MailNumber, RunOther, RunRetr, GoesAstray, StateOf, Record;
    var n := MailNumber(CString(c.reader.argument));
    var recorded := c.(hist := Record(c, h, w));
    if GoesAstray(c, h, w) {
      AstrayLooks(c, h, w);
      SameSessionHandled(c, h, w, recorded.(astray := true));
    } else if h == RetrHandler && Exists(c.session, n) && n <= |c.readIndex| {
      RunRetrSession(recorded, n - 1);
      SameSessionHandled(c, h, w, RunRetr(recorded, n - 1));
    } else {
      RunOtherSession(c, h, w);
    }
  }

  lemma DispatchSession(c: Conn, h: Handler, w: World)
    ensures var o := Handle(h, StateOf(c), c.reader.argumentLength > 0, CString(c.reader.argument), c.session, w);
            var t := Dispatch(c, h, w);
            && t.conn.session == o.session && t.next == Some(o.next)
            && t.conn.hist.removed == c.hist.removed + o.removed
            && t.conn.hist.happenings
               == c.hist.happenings + [Ran(StateOf(c), h, CString(c.reader.argument), w)]
  {
    hide Handle, CString, RunHandler, Cleaned;
    RunHandlerSession(c, h, w);
  }

  lemma SentFilesStay(h: seq<Happening>, more: seq<Happening>, ds: seq<Delivery>)
    requires SentFiles(h, ds)
    ensures SentFiles(h + more, ds)
  {
    hide Maildrop, Retrieves;
    forall i | 0 <= i < |ds|
      ensures SentFile(h + more, ds[i])
    {
      assert SentFile(h, ds[i]);
      assert (h + more)[..ds[i].at] == h[..ds[i].at];
    }
  }

  /** A call of retr_handler completes at most one transfer, of the mail it was called for. */
  lemma RetrDelivers(c: Conn, i: nat)
    requires i < |c.readIndex| && i < |c.session.mails|
    ensures var before, after := c.hist.deliveries, RunRetr(c, i).hist.deliveries;
            || after == before
            || (|after| == |before| + 1 && after[..|before|] == before
                && var d := after[|before|];
                   d.number == i + 1 && d.at == |c.hist.happenings| && d.content == c.session.mails[i].content)
  {
    hide Queued, After, CallFits, Overruns, Header, Transmission;
  }

  /** A call of retr_handler sends from the maildrop. */
  lemma {:induction false} RetrSends(c: Conn, i: nat, h: seq<Happening>, x: Happening)
    requires i < |c.readIndex| && i < |c.session.mails| && SentFiles(h, c.hist.deliveries)
    requires c.session.mails == WithMarks(Maildrop(h), h) && Retrieves(x, i + 1) && c.hist.happenings == h + [x]
    ensures SentFiles(h + [x], RunRetr(c, i).hist.deliveries)
  {
    hide RunRetr, Retrieves, Marked, Maildrop;
    var before, after := c.hist.deliveries, RunRetr(c, i).hist.deliveries;
    SentFilesStay(h, [x], before);
    RetrDelivers(c, i);
    assert (h + [x])[..|h + [x]|] == h + [x];
    RetrKeepsMaildrop(h, x, i + 1);
    forall k | 0 <= k < |after|
      ensures SentFile(h + [x], after[k])
    {
      if k < |before| {
        assert after[k] == before[k];
      }
    }
  }

  lemma {:induction false} RetrKeepsMaildrop(h: seq<Happening>, x: Happening, number: nat)
    requires Retrieves(x, number)
    ensures Maildrop(h + [x]) == Maildrop(h)
  {
    Unfold(h, x);
  }

  lemma OtherSends(c: Conn, h: Handler, w: World)
    ensures RunOther(c, h, w).conn.hist.deliveries == c.hist.deliveries
  {
    hide Handle, CString;
  }

  lemma RunHandlerSends(c: Conn, h: Handler, w: World)
    requires SessionOk(c, StateOf(c)) && Suits(h, StateOf(c))
    ensures var hist := RunHandler(c, h, w).conn.hist; SentFiles(hist.happenings, hist.deliveries)
  {
    hide CString, MailNumber, RunOther, RunRetr, GoesAstray, SentFiles, Explains, Maildrop, WithMarks;
    RunHandlerSession(c, h, w);
    var n := MailNumber(CString(c.reader.argument));
    var x := Ran(StateOf(c), h, CString(c.reader.argument), w);
    SentFilesStay(c.hist.happenings, [x], c.hist.deliveries);
    if GoesAstray(c, h, w) {
    } else if h == RetrHandler && Exists(c.session, n) && n <= |c.readIndex| {
      ExplainedMails(c.hist.happenings, c.session, c.hist.removed, StateOf(c));
      RetrSends(c.(hist := Record(c, h, w)), n - 1, c.hist.happenings, x);
    } else {
      OtherSends(c, h, w);
    }
  }

  lemma {:induction false} ExplainedMails(h: seq<Happening>, s: Session, removed: seq<string>, phase: StmState)
    requires Explains(h, s, removed, phase)
    ensures s.mails == WithMarks(Maildrop(h), h)
  {
  }

  lemma DispatchSends(c: Conn, h: Handler, w: World)
    requires SessionOk(c, StateOf(c)) && Suits(h, StateOf(c))
    ensures var hist := Dispatch(c, h, w).conn.hist; SentFiles(hist.happenings, hist.deliveries)
  {
    hide RunHandler, SentFiles, Explains, Cleaned;
    RunHandlerSends(c, h, w);
  }

  lemma DispatchExplained(c: Conn, h: Handler, w: World)
    requires SessionOk(c, StateOf(c)) && Suits(h, StateOf(c))
    ensures SessionOk(Dispatch(c, h, w).conn, PhaseAfter(Dispatch(c, h, w), StateOf(c)))
  {
    hide Explains, Handle, CString, Dispatch, SentFiles;
    DispatchSends(c, h, w);
    DispatchSession(c, h, w);
    HandlerExplained(c.hist.happenings, h, c.reader.argumentLength > 0, CString(c.reader.argument),
                     c.session, c.hist.removed, StateOf(c), w);
  }

  lemma SessionDepends(a: Conn, b: Conn, phase: StmState)
    requires SessionOk(a, phase) && SameSession(a, b)
    ensures SessionOk(b, phase)
  {
    hide Explains;
  }

  lemma OnValidExplained(c: Conn, w: World)
    requires SessionOk(c, StateOf(c)) && StateOf(c) != Error
    ensures SessionOk(OnValid(c, StateOf(c), w).conn, PhaseAfter(OnValid(c, StateOf(c), w), StateOf(c)))
  {
    hide SessionOk, Dispatch, CString, Lookup, OnValid, Suits, Cleaned;
    var state := StateOf(c);
    var found := Lookup(CString(c.reader.command), state);
    OnValidCases(c, state, w);
    LookupSuits(CString(c.reader.command), state);
    if found.Some? && Accepts(found.value.arguments, c.reader.argumentLength > 0) {
      var c2 := WithCall(WithLine(c), HandlerCall(state, found.value.handler, CString(c.reader.argument)));
      SessionDepends(c, c2, state);
      DispatchExplained(c2, found.value.handler, w);
    } else {
      SessionDepends(c, CleanCommand(WithLine(c)), state);
    }
  }

  lemma OnInvalidExplained(c: Conn, b: Byte)
    requires SessionOk(c, StateOf(c))
    ensures SessionOk(OnInvalid(c, b).conn, StateOf(c)) && OnInvalid(c, b).next == Some(Error)
  {
    hide SessionOk, SkipLine, Cleaned;
    SessionDepends(c, OnInvalid(c, b).conn, StateOf(c));
  }

  lemma {:induction false} ReadLinesExplained(c: Conn, w: World)
    requires SessionOk(c, StateOf(c)) && StateOf(c) != Error
    ensures SessionOk(ReadLines(c, StateOf(c), w).conn, PhaseAfter(ReadLines(c, StateOf(c), w), StateOf(c)))
    decreases |c.inq.unread|
  {
    hide SessionOk, Dispatch, CString, Feed, OnValid, OnInvalid, Suits;
    if c.inq.unread != [] {
      var c1 := FeedOctet(c);
      SessionDepends(c, c1, StateOf(c));
      match c1.reader.event
      case ValidCommand => OnValidExplained(c1, w);
      case InvalidCommand => OnInvalidExplained(c1, c.inq.unread[0]);
      case Undefined => ReadLinesExplained(c1, w);
    }
  }

  lemma ReadCommandExplained(c: Conn, w: World, r: Recv)
    requires Reading(c) && SessionOk(c, StateOf(c))
    ensures SessionOk(ReadCommand(c, StateOf(c), w, r).conn, PhaseAfter(ReadCommand(c, StateOf(c), w, r), StateOf(c)))
      || ReadCommand(c, StateOf(c), w, r) == Turn(c, Some(Quit))
  {
    hide SessionOk, ReadLines, Dispatch, ReadCommand, Received, Core, Tracks, Lookup, CString, SameIgnoringCase;
    var c1 := Received(c, r);
    ReadCommandCases(c, StateOf(c), w, r);
    ReceivedFrame(c, r);
    ReceivedKeeps(c, r);
    SessionDepends(c, c1, StateOf(c));
    if c.finished {
      ReadLinesExplained(c1, w);
    } else {
      RetrUnderWay(c);
      RetrIsFound(CString(c.reader.command));
      DispatchExplained(c1, RetrHandler, w);
    }
  }

  lemma ExplainsQuit(h: seq<Happening>, s: Session, removed: seq<string>, phase: StmState)
    requires Explains(h, s, removed, phase)
    ensures Explains(h, s, removed, Quit)
  {
  }

  lemma LoadMailsExplained(c: Conn, w: World)
    requires SessionOk(c, Transaction)
    ensures SessionOk(LoadMails(c, w), Transaction)
  {
    hide Explains, Loaded, Arrive, SentFiles;
    if c.session.mails == [] {
      SentFilesStay(c.hist.happenings, [MailsLoaded(w)], c.hist.deliveries);
      LoadExplained(c.hist.happenings, c.session, c.hist.removed, w);
    }
  }

  /** Moving to a state: only TRANSACTION touches the session, and it loads the maildrop. */
  lemma JumpExplained(c: Conn, next: StmState, w: World)
    requires c.current.Some? && c.current != Some(Quit)
    requires SessionOk(c, if next == Error then Phase(c) else next)
    requires next == Error ==> c.current != Some(Error)
    ensures SessionOk(Jump(c, Some(next), w), Phase(Jump(c, Some(next), w)))
  {
    hide Explains, LoadMails;
    if next == Transaction && c.current != Some(Transaction) {
      var c1 := Depart(c, c.current.value).(current := Some(Transaction));
      LoadMailsExplained(c1, w);
      LoadMailsControl(c1, w);
    }
  }

  lemma LoadMailsControl(c: Conn, w: World)
    ensures SameControl(c, LoadMails(c, w))
  {
    hide Loaded, Arrive;
  }

  lemma StmReadExplained(c: Conn, w: World, r: Recv)
    requires Inv(c) && c.open && c.current.Some? && SessionOk(c, Phase(c))
    ensures SessionOk(StmRead(c, w, r), Phase(StmRead(c, w, r)))
  {
    hide Explains, ReadCommand, Jump, Core;
    if Reading(c) {
      ReadCommandExplained(c, w, r);
      ReadCommandKeeps(c, w, r);
      var t := ReadCommand(c, StateOf(c), w, r);
      ExplainsQuit(c.hist.happenings, c.session, c.hist.removed, StateOf(c));
      JumpExplained(t.conn, t.next.value, w);
    } else {
      StayPut(c, w);
    }
  }

  lemma SendSession(c: Conn, sent: Option<nat>)
    ensures SameSession(c, Send(c, sent)) && SameControl(c, Send(c, sent))
  {
  }

  lemma ReplySession(c: Conn, message: seq<Byte>)
    ensures SameSession(c, Reply(c, message)) && SameControl(c, Reply(c, message))
  {
  }

  lemma WritingSession(c: Conn, sent: Option<nat>)
    ensures SameSession(c, Send(c, sent)) && SameControl(c, Send(c, sent))
    ensures SameSession(c, WriteCommand(c, sent)) && SameControl(c, WriteCommand(c, sent))
    ensures SameSession(c, Welcome(c)) && Welcome(c).current == c.current
  {
    hide Reply, Send;
    SendSession(c, sent);
    ReplySession(c, WELCOME);
  }

  lemma StmWriteExplained(c: Conn, w: World, sent: Option<nat>)
    requires Inv(c) && SessionOk(c, Phase(c))
    ensures SessionOk(StmWrite(c, w, sent), Phase(StmWrite(c, w, sent)))
  {
    hide Explains, Jump, Core, Welcome, WriteCommand, Send, Tracks;
    var c0 := EnterFirst(c);
    WritingSession(c0, sent);
    WritingSession(Welcome(c0), sent);
    var t := OnWriteReady(c0, sent);
    if StateOf(c) == Error && |UNKNOWN_COMMAND| <= c.outq.Room() {
      JumpExplained(t.conn, t.next.value, w);
    } else {
      StayPut(t.conn, w);
    }
  }

  lemma StepExplained(c: Conn, e: Callback)
    requires Inv(c) && SessionOk(c, Phase(c))
    ensures SessionOk(Step(c, e), Phase(Step(c, e)))
  {
    hide Explains, StmRead, StmWrite, Core, Send;
    if Enabled(c, e) {
      match e
      case Readable(w, r) => StmReadExplained(c, w, r);
      case Shutdown =>
      case Writable(w, sent, sentAgain, r) =>
        StmWriteExplained(c, w, sent);
        StmWriteKeeps(c, w, sent);
        var c1 := StmWrite(c, w, sent);
        SendKeeps(c1, sentAgain);
        WritingSession(c1, sentAgain);
        var c2 := Send(c1, sentAgain);
        if sentAgain.Some? && !c2.session.requestedQuit && (c2.inq.unread != [] || !c2.finished) {
          CoreDepends(c2, c2.(interest := OP_NOOP));
          StmReadExplained(c2.(interest := OP_NOOP), w, r);
        }
    }
  }

  /** In every reachable state the history explains the session. */
  lemma {:induction false} AlwaysExplained(r: Run, k: nat)
    requires r.Valid() && k < |r.states|
    ensures SessionOk(r.states[k], Phase(r.states[k]))
  {
    hide Inv, Step, SessionOk, Phase;
    if k == 0 {
      InitialExplained();
    } else {
      AlwaysExplained(r, k - 1);
      Reachable(r, k - 1);
      StepExplained(r.states[k - 1], r.events[k - 1]);
    }
  }

  lemma InitialExplained()
    ensures SessionOk(Initial(), Phase(Initial()))
  {
  }
}
