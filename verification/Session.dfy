/** The commands of server/stm/pop3_stm.c as functions on the session: what each handler does to the user name, the
    mails and their deletion marks, which state it asks for, and the reply it queues. */
module Sessions {
  import opened Bytes

  datatype StmState = Authorization | Transaction | Error | Quit

  datatype Handler = UserHandler | PassHandler | QuitHandler | CapaHandler | StatHandler
                   | ListHandler | RetrHandler | DeleHandler | NoopHandler | RsetHandler

  datatype Arguments = Required | Optional | NoArguments

  datatype Command = Command(state: StmState, name: seq<Byte>, arguments: Arguments, handler: Handler)

  const COMMANDS: seq<Command> :=
    [Command(Authorization, Ascii("USER"), Required, UserHandler),
     Command(Authorization, Ascii("PASS"), Required, PassHandler),
     Command(Authorization, Ascii("QUIT"), NoArguments, QuitHandler),
     Command(Authorization, Ascii("CAPA"), NoArguments, CapaHandler),
     Command(Transaction, Ascii("STAT"), NoArguments, StatHandler),
     Command(Transaction, Ascii("LIST"), Optional, ListHandler),
     Command(Transaction, Ascii("RETR"), Required, RetrHandler),
     Command(Transaction, Ascii("DELE"), Required, DeleHandler),
     Command(Transaction, Ascii("NOOP"), NoArguments, NoopHandler),
     Command(Transaction, Ascii("RSET"), NoArguments, RsetHandler),
     Command(Transaction, Ascii("QUIT"), NoArguments, QuitHandler),
     Command(Transaction, Ascii("CAPA"), NoArguments, CapaHandler)]

  predicate IsFor(c: Command, name: seq<Byte>, state: StmState) {
    SameIgnoringCase(c.name, name) && c.state == state
  }

  /** The first entry of the table for this name and state. */
  function LookupIn(table: seq<Command>, name: seq<Byte>, state: StmState): Option<Command> {
    if table == [] then None
    else if IsFor(table[0], name, state) then Some(table[0])
    else LookupIn(table[1..], name, state)
  }

  function Lookup(name: seq<Byte>, state: StmState): Option<Command> {
    LookupIn(COMMANDS, name, state)
  }

  lemma {:induction false} LookupFinds(table: seq<Command>, name: seq<Byte>, state: StmState)
    ensures var found := LookupIn(table, name, state);
            && (found.Some? ==> found.value in table && IsFor(found.value, name, state))
            && (found.None? ==> forall i :: 0 <= i < |table| ==> !IsFor(table[i], name, state))
  {
    if table != [] && !IsFor(table[0], name, state) {
      LookupFinds(table[1..], name, state);
    }
  }

  /** One turn of the search. */
  lemma {:induction false} LookupFrom(j: nat, name: seq<Byte>, state: StmState)
    requires j <= |COMMANDS|
    ensures LookupIn(COMMANDS[j..], name, state)
            == if j == |COMMANDS| then None
               else if IsFor(COMMANDS[j], name, state) then Some(COMMANDS[j])
               else LookupIn(COMMANDS[j + 1..], name, state)
    ensures COMMANDS[0..] == COMMANDS
  {
    hide COMMANDS, IsFor;
    if j < |COMMANDS| {
      assert COMMANDS[j..][0] == COMMANDS[j] && COMMANDS[j..][1..] == COMMANDS[j + 1..];
    }
  }

  predicate Accepts(arguments: Arguments, hasArgument: bool) {
    match arguments
    case Required => hasArgument
    case Optional => true
    case NoArguments => !hasArgument
  }

  // ---- Numbers ----

  const SIZE_T: nat := 0x1_0000_0000_0000_0000

  predicate IsDigit(b: Byte) {
    48 <= b <= 57
  }

  predicate IsSpace(b: Byte) {
    b == SP || 9 <= b <= 13
  }

  function SkipSpaces(s: seq<Byte>): seq<Byte> {
    if s != [] && IsSpace(s[0]) then SkipSpaces(s[1..]) else s
  }

  /** The value of the digits at the front of s, appended to the decimal number acc. */
  function Digits(s: seq<Byte>, acc: nat): nat
    decreases |s|
  {
    if s == [] || !IsDigit(s[0]) then acc else Digits(s[1..], acc * 10 + (s[0] - 48) as int)
  }

  function AfterDigits(s: seq<Byte>): (rest: seq<Byte>)
    ensures |rest| <= |s|
    ensures rest != [] ==> !IsDigit(rest[0])
  {
    if s != [] && IsDigit(s[0]) then AfterDigits(s[1..]) else s
  }

  /** A number and what follows it. */
  datatype Number = Number(value: int, rest: seq<Byte>)

  /** strtol, which saturates at the limits of a 64-bit long. */
  function Strtol(s: seq<Byte>): Number {
    var t := SkipSpaces(s);
    var signed := t != [] && (t[0] == 43 || t[0] == 45);
    var digits := if signed then t[1..] else t;
    var magnitude: int := Digits(digits, 0);
    if digits == [] || !IsDigit(digits[0]) then Number(0, s)
    else
      Number(if signed && t[0] == 45 then
               (if magnitude > 0x8000_0000_0000_0000 then -0x8000_0000_0000_0000 else -magnitude)
             else
               (if magnitude > 0x7fff_ffff_ffff_ffff then 0x7fff_ffff_ffff_ffff else magnitude),
             AfterDigits(digits))
  }

  /** The low 32 bits of n, as an int. */
  function ToInt(n: int): int {
    (n + 0x8000_0000) % 0x1_0000_0000 - 0x8000_0000
  }

  /** atoi */
  function Atoi(s: seq<Byte>): int {
    ToInt(Strtol(s).value)
  }

  /** size_t mail_number = atoi(argument) */
  function MailNumber(argument: seq<Byte>): nat {
    Atoi(argument) % SIZE_T
  }

  /** printf("%zu") */
  function Decimal(n: nat): (s: seq<Byte>)
    ensures s != [] && forall i :: 0 <= i < |s| ==> IsDigit(s[i])
  {
    if n < 10 then [(48 + n) as Byte] else Decimal(n / 10) + [(48 + n % 10) as Byte]
  }

  /** printf("%d", (int) n) */
  function PrintInt(n: int): seq<Byte> {
    if ToInt(n) >= 0 then Decimal(ToInt(n)) else [45] + Decimal(-ToInt(n))
  }

  lemma {:induction false} DigitsAppend(s: seq<Byte>, d: Byte, acc: nat)
    requires IsDigit(d) && forall i :: 0 <= i < |s| ==> IsDigit(s[i])
    ensures Digits(s + [d], acc) == Digits(s, acc) * 10 + (d - 48) as int
    decreases |s|
  {
    if s == [] {
      assert [d][1..] == [];
    } else {
      assert (s + [d])[1..] == s[1..] + [d];
      DigitsAppend(s[1..], d, acc * 10 + (s[0] - 48) as int);
    }
  }

  lemma {:induction false} DigitsOfDecimal(n: nat)
    ensures Digits(Decimal(n), 0) == n
  {
    if n < 10 {
      assert Decimal(n)[1..] == [];
    } else {
      DigitsOfDecimal(n / 10);
      DigitsAppend(Decimal(n / 10), (48 + n % 10) as Byte, 0);
    }
  }

  lemma {:induction false} DigitsStop(s: seq<Byte>, rest: seq<Byte>, acc: nat)
    requires (forall i :: 0 <= i < |s| ==> IsDigit(s[i])) && (rest != [] ==> !IsDigit(rest[0]))
    ensures Digits(s + rest, acc) == Digits(s, acc) && AfterDigits(s + rest) == rest
    decreases |s|
  {
    if s == [] {
      assert s + rest == rest;
    } else {
      assert (s + rest)[1..] == s[1..] + rest;
      DigitsStop(s[1..], rest, acc * 10 + (s[0] - 48) as int);
    }
  }

  /** strtol reads back what printf printed, and nothing is left over. */
  lemma {:induction false} StrtolOfDecimal(n: nat)
    requires n < 0x8000_0000_0000_0000
    ensures Strtol(Decimal(n)) == Number(n, [])
  {
    DigitsOfDecimal(n);
    DigitsStop(Decimal(n), [], 0);
    assert Decimal(n) + [] == Decimal(n);
  }

  /** DELE and RETR understand the numbers that LIST prints. */
  lemma {:induction false} MailNumberOfDecimal(n: nat)
    requires n < 0x8000_0000
    ensures MailNumber(Decimal(n)) == n
  {
    StrtolOfDecimal(n);
  }

  /** White space, or nothing but white space. */
  predicate Spaces(s: seq<Byte>) {
    forall i :: 0 <= i < |s| ==> s[i] == 32 || 9 <= s[i] <= 13
  }

  /** The sign of a number: none, + or -. */
  predicate Sign(s: seq<Byte>) {
    s == [] || s == [43] || s == [45]
  }

  predicate OnlyZeros(s: seq<Byte>) {
    forall i :: 0 <= i < |s| ==> s[i] == 48
  }

  lemma {:induction false} SpacesSkipped(spaces: seq<Byte>, rest: seq<Byte>)
    requires Spaces(spaces) && (rest != [] ==> !IsSpace(rest[0]))
    ensures SkipSpaces(spaces + rest) == rest
    decreases |spaces|
  {
    if spaces == [] {
      assert spaces + rest == rest;
    } else {
      assert (spaces + rest)[1..] == spaces[1..] + rest;
      SpacesSkipped(spaces[1..], rest);
    }
  }

  lemma {:induction false} ZerosCountNothing(zeros: seq<Byte>, s: seq<Byte>)
    requires OnlyZeros(zeros)
    ensures Digits(zeros + s, 0) == Digits(s, 0)
    decreases |zeros|
  {
    if zeros == [] {
      assert zeros + s == s;
    } else {
      assert (zeros + s)[1..] == zeros[1..] + s;
      ZerosCountNothing(zeros[1..], s);
    }
  }

  /** strtol goes past white space, takes a sign, leading zeros and the digits after them, and stops at the first other
      octet; the value saturates at the limits of a 64-bit long. */
  lemma {:induction false} StrtolReads(spaces: seq<Byte>, sign: seq<Byte>, zeros: seq<Byte>, n: nat, rest: seq<Byte>)
    requires Spaces(spaces) && Sign(sign) && OnlyZeros(zeros) && (rest != [] ==> !(48 <= rest[0] <= 57))
    ensures var magnitude: int := n;
            var value := if sign == [45] then
                           (if magnitude > 0x8000_0000_0000_0000 then -0x8000_0000_0000_0000 else -magnitude)
                         else
                           (if magnitude > 0x7fff_ffff_ffff_ffff then 0x7fff_ffff_ffff_ffff else magnitude);
            Strtol(spaces + (sign + (zeros + Decimal(n) + rest))) == Number(value, rest)
  {
    hide SkipSpaces, Digits, AfterDigits, Decimal;
    var digits := zeros + Decimal(n);
    var tail := sign + (digits + rest);
    assert IsDigit(digits[0]) by {
      assert zeros == [] ==> digits == Decimal(n);
    }
    assert (digits + rest)[0] == digits[0];
    SpacesSkipped(spaces, tail);
    ZerosCountNothing(zeros, Decimal(n));
    DigitsOfDecimal(n);
    DigitsStop(digits, rest, 0);
    if sign != [] {
      assert tail[1..] == digits + rest;
    } else {
      assert tail == digits + rest;
    }
  }

  /** What does not open with a number, after white space and a sign, is 0 to strtol, and left over as a whole. */
  lemma {:induction false} StrtolFindsNothing(spaces: seq<Byte>, sign: seq<Byte>, rest: seq<Byte>)
    requires Spaces(spaces) && Sign(sign) && (rest != [] ==> !(48 <= rest[0] <= 57))
    requires sign == [] && rest != [] ==> !Spaces([rest[0]]) && !Sign([rest[0]])
    ensures Strtol(spaces + (sign + rest)) == Number(0, spaces + (sign + rest))
  {
    hide SkipSpaces, Digits, AfterDigits;
    var tail := sign + rest;
    assert sign == [] ==> tail == rest;
    assert sign == [] && rest != [] ==> Spaces([rest[0]]) == IsSpace(rest[0]);
    SpacesSkipped(spaces, tail);
    assert sign != [] ==> tail[1..] == rest;
  }

  /** So DELE and RETR take a number below 2^31 whatever stands behind it, take none that is negative, and nothing that
      does not open with a number: mail 0 does not exist, and a negative number is more than any count of mails. */
  lemma {:induction false} MailNumberReads(
    spaces: seq<Byte>, sign: seq<Byte>, zeros: seq<Byte>, n: nat, rest: seq<Byte>)
    requires Spaces(spaces) && Sign(sign) && (rest != [] ==> !(48 <= rest[0] <= 57))
    ensures OnlyZeros(zeros) && n < 0x8000_0000 ==>
              MailNumber(spaces + (sign + (zeros + Decimal(n) + rest)))
              == if sign == [45] && n > 0 then SIZE_T - n else n
    ensures (sign == [] && rest != [] ==> !Spaces([rest[0]]) && !Sign([rest[0]])) ==>
              MailNumber(spaces + (sign + rest)) == 0
  {
    hide Strtol, Decimal, Spaces, Sign;
    if OnlyZeros(zeros) {
      StrtolReads(spaces, sign, zeros, n, rest);
    }
    if sign == [] && rest != [] ==> !Spaces([rest[0]]) && !Sign([rest[0]]) {
      StrtolFindsNothing(spaces, sign, rest);
    }
  }

  // ---- The session ----

  datatype Mail = Mail(path: string, content: seq<Byte>, deleted: bool)

  datatype Account = Account(name: seq<Byte>, pass: seq<Byte>)

  /** What a handler finds outside the connection: the user table, the mail limit, whether the mail directory opens,
      its files in the order readdir gives them, and whether the file of a mail opens. */
  datatype World = World(users: seq<Account>, maxMails: nat, directoryOpens: bool,
                         listing: seq<(string, seq<Byte>)>, mailOpens: bool)

  /** `slots` is how many mails the table has room for: calloc has zeroed it, and there is none while it is 0. */
  datatype Session = Session(user: seq<Byte>, mails: seq<Mail>, slots: nat, maildirSize: nat, requestedQuit: bool)

  datatype Outcome = Outcome(session: Session, next: StmState, reply: seq<Byte>, removed: seq<string>)

  function NewSession(): Session {
    Session([], [], 0, 0, false)
  }

  /** The password of the first table entry with this name. */
  function FirstPassword(users: seq<Account>, name: seq<Byte>): Option<seq<Byte>> {
    if users == [] then None
    else if users[0].name == name then Some(users[0].pass)
    else FirstPassword(users[1..], name)
  }

  predicate Knows(users: seq<Account>, name: seq<Byte>) {
    exists i :: 0 <= i < |users| && users[i].name == name
  }

  function TotalSize(mails: seq<Mail>): nat {
    if mails == [] then 0 else TotalSize(mails[..|mails| - 1]) + |mails[|mails| - 1].content|
  }

  function UnmarkedSize(mails: seq<Mail>): nat {
    if mails == [] then 0
    else UnmarkedSize(mails[..|mails| - 1]) +
         (if mails[|mails| - 1].deleted then 0 else |mails[|mails| - 1].content|)
  }

  function Unmarked(mails: seq<Mail>): seq<Mail> {
    seq(|mails|, i requires 0 <= i < |mails| => mails[i].(deleted := false))
  }

  function MarkedPaths(mails: seq<Mail>): seq<string> {
    if mails == [] then []
    else MarkedPaths(mails[..|mails| - 1]) +
         (if mails[|mails| - 1].deleted then [mails[|mails| - 1].path] else [])
  }

  predicate Exists(s: Session, number: nat) {
    1 <= number <= |s.mails|
  }

  function ListLines(mails: seq<Mail>): seq<Byte> {
    if mails == [] then []
    else ListLines(mails[..|mails| - 1]) +
         (if mails[|mails| - 1].deleted then []
          else Decimal(|mails|) + [SP] + Decimal(|mails[|mails| - 1].content|) + [CR, LF])
  }

  function HandleUser(argument: seq<Byte>, s: Session, w: World): Outcome {
    if Knows(w.users, argument) then
      Outcome(s.(user := argument), Authorization, Ascii("+OK valid user\r\n"), [])
    else
      Outcome(s.(user := []), Authorization, Ascii("-ERR invalid user\r\n"), [])
  }

  function HandlePass(argument: seq<Byte>, s: Session, w: World): Outcome {
    if s.user == [] then
      Outcome(s, Authorization, Ascii("-ERR no username given\r\n"), [])
    else if FirstPassword(w.users, s.user) != Some(argument) then
      Outcome(s, Authorization, Ascii("-ERR invalid password\r\n"), [])
    else if !w.directoryOpens then
      Outcome(s.(user := []), Authorization, Ascii("-ERR invalid user\r\n"), [])
    else
      Outcome(s, Transaction, Ascii("+OK logged in\r\n"), [])
  }

  function HandleDele(argument: seq<Byte>, s: Session): Outcome {
    var n := MailNumber(argument);
    if !Exists(s, n) then
      NoSuchMessage(s)
    else
      var mail := s.mails[n - 1];
      Outcome(s.(mails := s.mails[n - 1 := mail.(deleted := true)],
                 maildirSize := (s.maildirSize - |mail.content|) % SIZE_T),
              Transaction,
              Ascii("+OK message ") + PrintInt(n) + Ascii(" deleted\r\n.\r\n"), [])
  }

  function HandleRset(s: Session): Outcome {
    Outcome(s.(mails := Unmarked(s.mails), maildirSize := TotalSize(s.mails) % SIZE_T),
            Transaction, Ascii("+OK\r\n"), [])
  }

  /** quit_handler; an empty maildrop has no mail table, and then a QUIT in TRANSACTION is answered as an error. */
  function HandleQuit(state: StmState, s: Session): Outcome {
    if state == Authorization then
      Outcome(s.(requestedQuit := true), Quit, Ascii("+OK pop3 server signing off\r\n"), [])
    else if state == Transaction && s.mails != [] then
      Outcome(s.(mails := [], slots := 0), Authorization, Ascii("+OK\r\n"), MarkedPaths(s.mails))
    else
      Outcome(s, Error, [], [])
  }

  function HandleStat(s: Session): Outcome {
    Outcome(s, Transaction,
            Ascii("+OK ") + PrintInt(|s.mails|) + [SP] + PrintInt(s.maildirSize) + [CR, LF], [])
  }

  /** The slot that LIST of one mail looks at, if it accepts the number. The bound is off by one. */
  function ListedSlot(argument: seq<Byte>, s: Session): Option<nat> {
    var number := Strtol(argument);
    var index := (number.value - 1) % SIZE_T;
    if index > |s.mails| || number.rest != [] then None else Some(index)
  }

  /** It lies behind the table, or there is no table. */
  predicate LeavesTable(argument: seq<Byte>, s: Session) {
    var slot := ListedSlot(argument, s);
    slot.Some? && slot.value >= s.slots
  }

  /** LIST of one mail; a number that is refused is not answered at all. */
  function ListOne(argument: seq<Byte>, s: Session): seq<Byte>
    requires !LeavesTable(argument, s)
  {
    match ListedSlot(argument, s)
    case None => []
    case Some(index) =>
      Ascii("+OK ") + Decimal((index + 1) % SIZE_T) + [SP]
        + Decimal(if index < |s.mails| then |s.mails[index].content| else 0) + Ascii(" \r\n")
  }

  /** For a call that leaves the table there is no answer to speak of. */
  function HandleList(hasArgument: bool, argument: seq<Byte>, s: Session): Outcome {
    Outcome(s, Transaction,
            if !hasArgument then Ascii("+OK\r\n") + ListLines(s.mails) + Ascii(".\r\n")
            else if LeavesTable(argument, s) then []
            else ListOne(argument, s), [])
  }

  function HandleCapa(state: StmState, s: Session): Outcome {
    Outcome(s, state, Ascii("+OK\r\nUSER\r\nPIPELINING\r\n.\r\n"), [])
  }

  function HandleNoop(s: Session): Outcome {
    Outcome(s, Transaction, Ascii("+OK\r\n"), [])
  }

  function NoSuchMessage(s: Session): Outcome {
    Outcome(s, Transaction, Ascii("-ERR no such message\r\n"), [])
  }

  /** Every handler but retr_handler on an existing mail. */
  function Handle(h: Handler, state: StmState, hasArgument: bool, argument: seq<Byte>, s: Session, w: World): Outcome {
    match h
    case UserHandler => HandleUser(argument, s, w)
    case PassHandler => HandlePass(argument, s, w)
    case QuitHandler => HandleQuit(state, s)
    case CapaHandler => HandleCapa(state, s)
    case StatHandler => HandleStat(s)
    case ListHandler => HandleList(hasArgument, argument, s)
    case RetrHandler => NoSuchMessage(s)
    case DeleHandler => HandleDele(argument, s)
    case NoopHandler => HandleNoop(s)
    case RsetHandler => HandleRset(s)
  }

  /** The mails fit into the table, and an empty maildrop has none. */
  predicate TableFits(s: Session) {
    |s.mails| <= s.slots && (s.mails == [] ==> s.slots == 0)
  }

  /** So only LIST of the number behind the last mail leaves the table, and only if the table is full. */
  lemma LeavesTableExact(argument: seq<Byte>, s: Session)
    requires TableFits(s)
    ensures LeavesTable(argument, s) <==> |s.mails| == s.slots && ListedSlot(argument, s) == Some(|s.mails|)
  {
  }

  function Loaded(w: World): seq<Mail> {
    var n := Min(w.maxMails, |w.listing|);
    seq(n, i requires 0 <= i < n => Mail(w.listing[i].0, w.listing[i].1, false))
  }

  /** stm_transaction_arrival: read the mail directory unless there is a maildrop already. The table is allocated for
      the first mail found. */
  function Arrive(s: Session, w: World): Session {
    if s.mails != [] then s
    else s.(mails := Loaded(w), slots := if Loaded(w) == [] || s.slots > 0 then s.slots else w.maxMails,
            maildirSize := (s.maildirSize + TotalSize(Loaded(w))) % SIZE_T)
  }
}
