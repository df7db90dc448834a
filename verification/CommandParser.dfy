/** The command line parser: lib/parser.c driven by the tables of server/pop3.c with the actions of
    server/parser/pop3_parser.c, which write into the arrays of the connection. */
module CommandParser {
  import opened Bytes

  const COMMAND_LENGTH: nat := 4
  const ARGUMENT_LENGTH: nat := 40

  datatype State = InCommand | InArgument | InEnd
  datatype Event = Undefined | ValidCommand | InvalidCommand

  /** `when` of a transition: one octet, or ANY. */
  datatype Condition = Exactly(octet: Byte) | AnyOctet

  /** The action functions a transition can name. */
  datatype Action = CommandAny | CommandReturn | CommandSpace | ArgumentAny | ArgumentReturn | EndLineFeed | EndAny

  datatype Transition = Transition(when: Condition, dest: State, act: Action)

  const COMMAND_STATE: seq<Transition> :=
    [Transition(Exactly(SP), InArgument, CommandSpace),
     Transition(Exactly(CR), InEnd, CommandReturn),
     Transition(AnyOctet, InCommand, CommandAny)]

  const ARGUMENT_STATE: seq<Transition> :=
    [Transition(Exactly(CR), InEnd, ArgumentReturn),
     Transition(AnyOctet, InArgument, ArgumentAny)]

  const END_STATE: seq<Transition> :=
    [Transition(Exactly(LF), InCommand, EndLineFeed),
     Transition(AnyOctet, InCommand, EndAny)]

  function Table(s: State): seq<Transition> {
    match s
    case InCommand => COMMAND_STATE
    case InArgument => ARGUMENT_STATE
    case InEnd => END_STATE
  }

  predicate Matches(when: Condition, c: Byte) {
    when == AnyOctet || when == Exactly(c)
  }

  /** The parser and the four fields of the connection its actions touch. */
  datatype Reader = Reader(state: State, event: Event,
                           command: seq<Byte>, commandLength: nat,
                           argument: seq<Byte>, argumentLength: nat)
  {
    /** Both arrays have their declared size and both lengths leave room for a terminator. */
    predicate InBounds() {
      && |command| == COMMAND_LENGTH + 1 && commandLength <= COMMAND_LENGTH
      && |argument| == ARGUMENT_LENGTH + 1 && argumentLength <= ARGUMENT_LENGTH
    }
  }

  type BoundedReader = r: Reader | r.InBounds()
    witness Reader(InCommand, Undefined, seq(5, i => NUL), 0, seq(41, i => NUL), 0)

  /** One action of pop3_parser.c. */
  function Act(a: Action, r: BoundedReader, c: Byte): BoundedReader {
    match a
    case CommandAny =>
      if r.commandLength < COMMAND_LENGTH then
        r.(event := Undefined, command := r.command[r.commandLength := c], commandLength := r.commandLength + 1)
      else r.(event := InvalidCommand)
    case CommandReturn =>
      if r.commandLength < COMMAND_LENGTH then r.(event := InvalidCommand)
      else r.(event := Undefined, command := r.command[r.commandLength := NUL])
    case CommandSpace =>
      if r.commandLength < COMMAND_LENGTH then r.(event := InvalidCommand)
      else r.(event := Undefined, command := r.command[r.commandLength := NUL])
    case ArgumentAny =>
      if r.argumentLength < ARGUMENT_LENGTH then
        r.(event := Undefined, argument := r.argument[r.argumentLength := c], argumentLength := r.argumentLength + 1)
      else r.(event := InvalidCommand)
    case ArgumentReturn =>
      if 0 < r.argumentLength < ARGUMENT_LENGTH then
        r.(event := Undefined, argument := r.argument[r.argumentLength := NUL], argumentLength := r.argumentLength + 1)
      else r.(event := InvalidCommand)
    case EndLineFeed => r.(event := ValidCommand)
    case EndAny => r.(event := InvalidCommand)
  }

  /** The first transition whose condition holds. */
  function FirstMatch(ts: seq<Transition>, c: Byte): Option<Transition> {
    if ts == [] then None
    else if Matches(ts[0].when, c) then Some(ts[0])
    else FirstMatch(ts[1..], c)
  }

  /** parser_feed: run the action of the first transition that matches and move to its destination. */
  function Feed(r: BoundedReader, c: Byte): BoundedReader {
    match FirstMatch(Table(r.state), c)
    case None => r
    case Some(t) => Act(t.act, r, c).(state := t.dest)
  }

  /** clean_command */
  function Cleaned(r: BoundedReader): BoundedReader {
    r.(command := r.command[0 := NUL], commandLength := 0, argument := r.argument[0 := NUL], argumentLength := 0)
  }

  /** parser_reset */
  function Reset(r: BoundedReader): BoundedReader {
    r.(state := InCommand)
  }

  /** parser_init and the zeroed arrays of pop3_init. */
  function Fresh(): BoundedReader {
    Reader(InCommand, Undefined, seq(5, i => NUL), 0, seq(41, i => NUL), 0)
  }

  // ---- What the parser accepts ----

  predicate NoneOf(s: seq<Byte>, bad: set<Byte>) {
    forall i :: 0 <= i < |s| ==> s[i] !in bad
  }

  /** RFC 1939 section 3 as this server bounds it: four octets other than SP and CR, optionally SP and one to 39
      octets other than CR, and CRLF. */
  predicate ValidLine(line: seq<Byte>) {
    && |line| >= 6 && line[|line| - 2] == CR && line[|line| - 1] == LF
    && NoneOf(line[..4], {SP, CR})
    && (|line| == 6 || (8 <= |line| <= 46 && line[4] == SP && NoneOf(line[5..|line| - 2], {CR})))
  }

  function LineName(line: seq<Byte>): seq<Byte>
    requires ValidLine(line)
  {
    line[..4]
  }

  function LineArgument(line: seq<Byte>): seq<Byte>
    requires ValidLine(line)
  {
    if |line| == 6 then [] else line[5..|line| - 2]
  }

  /** The reader has been fed exactly p since the last line ended, without raising an event. */
  predicate Tracks(r: BoundedReader, p: seq<Byte>) {
    && (r.argumentLength == 0 ==> r.argument[0] == NUL)
    && match r.state
       case InCommand =>
         && r.argumentLength == 0 && |p| == r.commandLength
         && p == r.command[..r.commandLength] && NoneOf(p, {SP, CR})
       case InArgument =>
         && r.commandLength == 4 && r.command[4] == NUL && NoneOf(r.command[..4], {SP, CR})
         && p == r.command[..4] + [SP] + r.argument[..r.argumentLength]
         && NoneOf(r.argument[..r.argumentLength], {CR})
       case InEnd =>
         && r.commandLength == 4 && r.command[4] == NUL && NoneOf(r.command[..4], {SP, CR})
         && if r.argumentLength == 0 then p == r.command[..4] + [CR]
            else
              && r.argumentLength >= 2 && r.argument[r.argumentLength - 1] == NUL
              && p == r.command[..4] + [SP] + r.argument[..r.argumentLength - 1] + [CR]
              && NoneOf(r.argument[..r.argumentLength - 1], {CR})
  }

  /** The three transition tables, spelled out. */
  lemma FeedCases(r: BoundedReader, c: Byte)
    ensures r.state == InCommand ==>
              Feed(r, c) == if c == SP then Act(CommandSpace, r, c).(state := InArgument)
                            else if c == CR then Act(CommandReturn, r, c).(state := InEnd)
                            else Act(CommandAny, r, c).(state := InCommand)
    ensures r.state == InArgument ==>
              Feed(r, c) == if c == CR then Act(ArgumentReturn, r, c).(state := InEnd)
                            else Act(ArgumentAny, r, c).(state := InArgument)
    ensures r.state == InEnd ==>
              Feed(r, c) == if c == LF then Act(EndLineFeed, r, c).(state := InCommand)
                            else Act(EndAny, r, c).(state := InCommand)
  {
    var ts := Table(r.state);
    assert FirstMatch(ts[1..], c) == if Matches(ts[1].when, c) then Some(ts[1]) else FirstMatch(ts[1..][1..], c);
    if r.state == InCommand {
      assert ts[1..][1..][0] == ts[2];
    }
  }

  /** p is a proper prefix of some valid line. */
  ghost predicate Viable(p: seq<Byte>) {
    exists rest: seq<Byte> :: rest != [] && ValidLine(p + rest)
  }

  /** Where a CR or a SP may stand in a valid line. */
  lemma ValidLineShape(line: seq<Byte>, k: nat)
    requires ValidLine(line) && k < |line|
    ensures line[k] == CR <==> k == |line| - 2
    ensures k < 4 ==> line[k] != SP
    ensures k == 4 && |line| > 6 ==> line[k] == SP
  {
    if k < 4 {
      assert line[..4][k] == line[k];
    } else if 5 <= k < |line| - 2 {
      assert line[5..|line| - 2][k - 5] == line[k];
    }
  }

  /** One octet later the reader still tracks the line, or has just seen all of a valid line, or the octets seen
      are not the beginning of any valid line. */
  lemma FeedTracks(r: BoundedReader, p: seq<Byte>, c: Byte)
    requires Tracks(r, p)
    ensures Feed(r, c).event == Undefined ==> Tracks(Feed(r, c), p + [c])
    ensures Feed(r, c).event == ValidCommand <==> ValidLine(p + [c])
    ensures Feed(r, c).event == InvalidCommand ==> !Viable(p + [c])
    ensures |p| >= 45 ==> Feed(r, c).event != Undefined
    ensures c == LF && r.state == InEnd <==> ValidLine(p + [c])
  {
    FeedCases(r, c);
    match r.state
    case InCommand => FeedInCommand(r, p, c);
    case InArgument => FeedInArgument(r, p, c);
    case InEnd => FeedInEnd(r, p, c);
  }

  lemma FeedInCommand(r: BoundedReader, p: seq<Byte>, c: Byte)
    requires Tracks(r, p) && r.state == InCommand
    ensures Feed(r, c).event == Undefined ==> Tracks(Feed(r, c), p + [c])
    ensures Feed(r, c).event != ValidCommand && !ValidLine(p + [c])
    ensures Feed(r, c).event == InvalidCommand ==> !Viable(p + [c])
  {
    FeedCases(r, c);
    var r', q := Feed(r, c), p + [c];
    if r'.event == InvalidCommand {
      forall rest: seq<Byte> | rest != []
        ensures !ValidLine(q + rest)
      {
        assert (q + rest)[|p|] == c;
        if ValidLine(q + rest) {
          ValidLineShape(q + rest, |p|);
        }
      }
    } else if c == SP || c == CR {
      assert r'.command[..4] == p;
    } else {
      assert r'.command[..r'.commandLength] == q;
    }
  }

  lemma FeedInArgument(r: BoundedReader, p: seq<Byte>, c: Byte)
    requires Tracks(r, p) && r.state == InArgument
    ensures Feed(r, c).event == Undefined ==> Tracks(Feed(r, c), p + [c])
    ensures Feed(r, c).event != ValidCommand && !ValidLine(p + [c])
    ensures Feed(r, c).event == InvalidCommand ==> !Viable(p + [c])
  {
    FeedCases(r, c);
    var r', q := Feed(r, c), p + [c];
    assert p[4] == SP && |p| == 5 + r.argumentLength;
    if |p| > 5 {
      assert p[|p| - 1] == r.argument[..r.argumentLength][r.argumentLength - 1];
    }
    assert q[|q| - 2] == p[|p| - 1] != CR;
    if r'.event == InvalidCommand {
      forall rest: seq<Byte> | rest != []
        ensures !ValidLine(q + rest)
      {
        assert (q + rest)[|p|] == c && (q + rest)[4] == SP;
        if ValidLine(q + rest) {
          ValidLineShape(q + rest, |p|);
        }
      }
    } else if c == CR {
      assert r'.argument[..r'.argumentLength - 1] == r.argument[..r.argumentLength];
    } else {
      assert r'.argument[..r'.argumentLength] == r.argument[..r.argumentLength] + [c];
    }
  }

  lemma FeedInEnd(r: BoundedReader, p: seq<Byte>, c: Byte)
    requires Tracks(r, p) && r.state == InEnd
    ensures Feed(r, c).event != Undefined
    ensures Feed(r, c).event == ValidCommand <==> ValidLine(p + [c])
    ensures Feed(r, c).event == InvalidCommand ==> !Viable(p + [c])
    ensures c == LF <==> ValidLine(p + [c])
  {
    FeedCases(r, c);
    var q := p + [c];
    assert q[|q| - 2] == p[|p| - 1] == CR;
    assert q[..4] == r.command[..4];
    if r.argumentLength > 0 {
      assert q[5..|q| - 2] == r.argument[..r.argumentLength - 1];
    }
    if c != LF {
      forall rest: seq<Byte> | rest != []
        ensures !ValidLine(q + rest)
      {
        assert (q + rest)[|p| - 1] == CR && (q + rest)[|p|] == c;
        if ValidLine(q + rest) {
          ValidLineShape(q + rest, |p| - 1);
        }
      }
    }
  }

  /** A name and 40 octets of argument: one too many, but the parser only notices with the next octet. */
  predicate FullArgument(q: seq<Byte>) {
    |q| == 45 && NoneOf(q[..4], {SP, CR}) && q[4] == SP && NoneOf(q[5..], {CR})
  }

  /** The octets are no valid line, begin none, and the parser can know it. */
  ghost predicate Broken(q: seq<Byte>) {
    !ValidLine(q) && !Viable(q) && !FullArgument(q)
  }

  /** What the parser is still following begins a valid line, but for the argument that is one octet too long. */
  lemma TrackedIsViable(r: BoundedReader, q: seq<Byte>)
    requires Tracks(r, q) && !FullArgument(q)
    ensures Viable(q)
  {
    match r.state
    case InCommand =>
      var fill := seq(4 - |q|, i => DOT);
      var rest := fill + [CR, LF];
      assert (q + rest)[..4] == q + fill;
      assert ValidLine(q + rest);
    case InArgument =>
      ArgumentIsViable(r, q);
    case InEnd =>
      EndIsViable(r, q);
  }

  lemma ArgumentIsViable(r: BoundedReader, q: seq<Byte>)
    requires Tracks(r, q) && r.state == InArgument && !FullArgument(q)
    ensures Viable(q)
  {
    var argument := r.argument[..r.argumentLength];
    assert q[..4] == r.command[..4] && q[4] == SP && q[5..] == argument;
    var more := if argument == [] then [DOT] else [];
    var rest := more + [CR, LF];
    var line := q + rest;
    assert line[..4] == q[..4] && line[5..|line| - 2] == argument + more;
    assert ValidLine(line);
  }

  lemma EndIsViable(r: BoundedReader, q: seq<Byte>)
    requires Tracks(r, q) && r.state == InEnd
    ensures Viable(q)
  {
    var line := q + [LF];
    assert line[..4] == r.command[..4];
    if r.argumentLength > 0 {
      assert line[5..|line| - 2] == r.argument[..r.argumentLength - 1];
    }
    assert ValidLine(line);
  }

  /** The 40th octet of an argument raises nothing. */
  lemma FullArgumentPasses(r: BoundedReader, p: seq<Byte>, c: Byte)
    requires Tracks(r, p) && FullArgument(p + [c])
    ensures Feed(r, c).event == Undefined
  {
    FeedCases(r, c);
    var q := p + [c];
    assert q[..4] == p[..4] && q[4] == p[4] && q[5..] == p[5..] + [c] && c == q[5..][39] && p[43] == q[5..][38];
    match r.state
    case InCommand =>
    case InArgument =>
    case InEnd =>
  }

  /** The parser says INVALID exactly on the octet that breaks the line. */
  lemma FeedInvalidExact(r: BoundedReader, p: seq<Byte>, c: Byte)
    requires Tracks(r, p)
    ensures Feed(r, c).event == InvalidCommand <==> Broken(p + [c])
  {
    hide Tracks, ValidLine, Feed, FullArgument, Viable;
    FeedTracks(r, p, c);
    if FullArgument(p + [c]) {
      FullArgumentPasses(r, p, c);
    } else if Feed(r, c).event == Undefined {
      TrackedIsViable(Feed(r, c), p + [c]);
    }
  }

  /** The handler sees exactly the words of the line. */
  lemma EndYieldsWords(r: BoundedReader, p: seq<Byte>)
    requires Tracks(r, p) && r.state == InEnd && ValidLine(p + [LF])
    ensures var done, line := Feed(r, LF), p + [LF];
            && CString(done.command) == CString(LineName(line))
            && CString(done.argument) == CString(LineArgument(line))
            && (done.argumentLength > 0 <==> LineArgument(line) != [])
  {
    hide CString, ValidLine, NoneOf;
    FeedCases(r, LF);
    EndName(r, p);
    EndArgument(r, p);
  }

  lemma EndName(r: BoundedReader, p: seq<Byte>)
    requires Tracks(r, p) && r.state == InEnd && ValidLine(p + [LF])
    ensures CString(r.command) == CString(LineName(p + [LF]))
  {
    hide CString;
    assert (p + [LF])[..4] == r.command[..4];
    CStringOf(r.command, r.command[..4]);
  }

  lemma EndArgument(r: BoundedReader, p: seq<Byte>)
    requires Tracks(r, p) && r.state == InEnd && ValidLine(p + [LF])
    ensures CString(r.argument) == CString(LineArgument(p + [LF]))
    ensures r.argumentLength > 0 <==> LineArgument(p + [LF]) != []
  {
    hide CString;
    var line := p + [LF];
    if r.argumentLength == 0 {
      CStringOf(r.argument, []);
    } else {
      assert line[5..|line| - 2] == r.argument[..r.argumentLength - 1];
      CStringOf(r.argument, r.argument[..r.argumentLength - 1]);
    }
  }

  lemma {:induction false} CStringOf(a: seq<Byte>, words: seq<Byte>)
    requires |words| < |a| && a[..|words|] == words && a[|words|] == NUL
    ensures CString(a) == CString(words)
  {
    assert a == words + [NUL] + a[|words| + 1..];
    CStringStops(words, a[|words| + 1..]);
  }

  // ---- The first event ----

  datatype FirstEvent = FirstEvent(event: Event, consumed: nat)

  /** Feed octets until an event other than Undefined comes back. */
  function UntilEvent(r: BoundedReader, s: seq<Byte>): FirstEvent
    decreases |s|
  {
    if s == [] then FirstEvent(Undefined, 0)
    else
      var r' := Feed(r, s[0]);
      if r'.event != Undefined then FirstEvent(r'.event, 1)
      else
        var later := UntilEvent(r', s[1..]);
        FirstEvent(later.event, later.consumed + 1)
  }

  lemma Shift(p: seq<Byte>, s: seq<Byte>, n: nat)
    requires 0 < n <= |s|
    ensures p + s[..n] == (p + [s[0]]) + s[1..][..n - 1]
  {
    assert s[..n] == [s[0]] + s[1..][..n - 1];
  }

  /** From any point inside a line: VALID comes only when the line so far is valid, INVALID only when it cannot
      become valid, and one of them by the 46th octet. */
  lemma {:induction false} UntilEventSound(r: BoundedReader, p: seq<Byte>, s: seq<Byte>)
    requires Tracks(r, p)
    ensures var e := UntilEvent(r, s);
            && e.consumed <= |s|
            && (e.event == ValidCommand ==> ValidLine(p + s[..e.consumed]))
            && (e.event == InvalidCommand ==> !Viable(p + s[..e.consumed]))
            && (e.event == Undefined ==> e.consumed == |s| && |p| + |s| <= 45)
            && (e.event != Undefined ==> e.consumed > 0 && |p| + e.consumed <= 46)
    decreases |s|
  {
    TracksLength(r, p);
    if s != [] {
      FeedTracks(r, p, s[0]);
      var r', e := Feed(r, s[0]), UntilEvent(r, s);
      assert s[..1] == [s[0]];
      if r'.event == Undefined {
        UntilEventSound(r', p + [s[0]], s[1..]);
        Shift(p, s, e.consumed);
      }
    }
  }

  /** A valid line is noticed at its last octet and not before. */
  lemma {:induction false} UntilEventComplete(r: BoundedReader, p: seq<Byte>, s: seq<Byte>, n: nat)
    requires Tracks(r, p) && 0 < n <= |s| && ValidLine(p + s[..n])
    ensures UntilEvent(r, s) == FirstEvent(ValidCommand, n)
    decreases |s|
  {
    FeedTracks(r, p, s[0]);
    Shift(p, s, n);
    var q, r', line := p + [s[0]], Feed(r, s[0]), p + s[..n];
    if n == 1 {
      assert line == q;
    } else {
      assert s[1..][..n - 1] != [];
      assert r'.event != InvalidCommand;
      if r'.event == ValidCommand {
        ValidLinesArePrefixFree(q, line);
      }
      UntilEventComplete(r', q, s[1..], n - 1);
    }
  }

  lemma TracksLength(r: BoundedReader, p: seq<Byte>)
    requires Tracks(r, p)
    ensures |p| <= 45
  {
  }

  /** From a clean start, of a new connection or after any error, the first event is VALID after n octets exactly when
      they are a valid line. */
  lemma {:induction false} FirstEventExact(r: BoundedReader, s: seq<Byte>, n: nat)
    requires Tracks(r, []) && n <= |s|
    ensures UntilEvent(r, s) == FirstEvent(ValidCommand, n) <==> ValidLine(s[..n])
  {
    hide ValidLine, Tracks, UntilEvent;
    UntilEventSound(r, [], s);
    assert [] + s[..n] == s[..n];
    if ValidLine(s[..n]) {
      LineIsLong(s[..n]);
      UntilEventComplete(r, [], s, n);
    }
  }

  /** A valid line ends at n, or the line breaks there: before, neither has happened. */
  ghost predicate BreaksAt(p: seq<Byte>, s: seq<Byte>, n: nat) {
    0 < n <= |s| && Broken(p + s[..n]) && forall m :: 0 < m < n ==> !Broken(p + s[..m]) && !ValidLine(p + s[..m])
  }

  lemma {:induction false} UntilEventBreaks(r: BoundedReader, p: seq<Byte>, s: seq<Byte>, n: nat)
    requires Tracks(r, p)
    ensures UntilEvent(r, s) == FirstEvent(InvalidCommand, n) <==> BreaksAt(p, s, n)
    decreases |s|
  {
    hide Tracks, ValidLine, Feed, Broken;
    if s != [] {
      var b, q, tail := s[0], p + [s[0]], s[1..];
      FeedTracks(r, p, b);
      FeedInvalidExact(r, p, b);
      assert p + s[..1] == q;
      if Feed(r, b).event == Undefined {
        NotYet(r, p, b);
        forall m | 0 < m <= |s|
          ensures p + s[..m] == q + tail[..m - 1]
        {
          Shift(p, s, m);
        }
        if n > 0 {
          UntilEventBreaks(Feed(r, b), q, tail, n - 1);
          BreaksLater(p, s, n);
        }
      }
    }
  }

  lemma NotYet(r: BoundedReader, p: seq<Byte>, b: Byte)
    requires Tracks(r, p) && Feed(r, b).event == Undefined
    ensures !Broken(p + [b]) && !ValidLine(p + [b])
  {
    hide Tracks, ValidLine, Feed, Broken;
    FeedTracks(r, p, b);
    FeedInvalidExact(r, p, b);
  }

  lemma BreaksLater(p: seq<Byte>, s: seq<Byte>, n: nat)
    requires s != [] && n > 0 && !Broken(p + [s[0]]) && !ValidLine(p + [s[0]])
    ensures BreaksAt(p, s, n) <==> BreaksAt(p + [s[0]], s[1..], n - 1)
  {
    hide ValidLine, Broken;
    var q, tail := p + [s[0]], s[1..];
    forall m | 0 < m <= |s|
      ensures p + s[..m] == q + tail[..m - 1]
    {
      Shift(p, s, m);
    }
    assert tail[..0] == [] && q + [] == q;
    if BreaksAt(p, s, n) && n <= |s| {
      forall m | 0 < m < n - 1
        ensures !Broken(q + tail[..m]) && !ValidLine(q + tail[..m])
      {
        assert p + s[..m + 1] == q + tail[..m];
      }
    }
  }

  /** From a clean start the first event is INVALID after n octets exactly when that is where the line breaks. */
  lemma {:induction false} FirstInvalidExact(r: BoundedReader, s: seq<Byte>, n: nat)
    requires Tracks(r, [])
    ensures UntilEvent(r, s) == FirstEvent(InvalidCommand, n) <==> BreaksAt([], s, n)
  {
    UntilEventBreaks(r, [], s, n);
  }

  /** 46 octets always raise an event. */
  lemma {:induction false} FirstEventComes(r: BoundedReader, s: seq<Byte>)
    requires Tracks(r, [])
    ensures var e := UntilEvent(r, s);
            && e.consumed <= |s| && e.consumed <= 46
            && (|s| >= 46 ==> e.event != Undefined)
            && (e.event == InvalidCommand ==> !Viable(s[..e.consumed]))
  {
    hide ValidLine, Tracks, UntilEvent;
    UntilEventSound(r, [], s);
    var n := UntilEvent(r, s).consumed;
    assert [] + s[..n] == s[..n];
  }

  /** A new parser is clean, and so is any parser after clean_command and parser_reset. */
  lemma StartsClean(r: BoundedReader)
    ensures Tracks(Fresh(), []) && Tracks(Reset(Cleaned(r)), [])
  {
  }

  // ---- Lines in a row ----

  /** No valid line is the beginning of another one. */
  lemma ValidLinesArePrefixFree(a: seq<Byte>, b: seq<Byte>)
    requires ValidLine(a) && ValidLine(b) && a <= b
    ensures a == b
  {
    ValidLineShape(b, |a| - 2);
    assert b[|a| - 2] == a[|a| - 2];
  }

  /** The octets a client sends for these lines. */
  function Flatten(lines: seq<seq<Byte>>): seq<Byte> {
    if lines == [] then [] else Flatten(lines[..|lines| - 1]) + lines[|lines| - 1]
  }

  predicate AllValid(lines: seq<seq<Byte>>) {
    forall i :: 0 <= i < |lines| ==> ValidLine(lines[i])
  }

  lemma {:induction false} FlattenPush(lines: seq<seq<Byte>>, line: seq<Byte>)
    ensures Flatten(lines + [line]) == Flatten(lines) + line
  {
    hide ValidLine;
    assert (lines + [line])[..|lines|] == lines;
  }

  lemma {:induction false} FlattenCons(lines: seq<seq<Byte>>)
    requires lines != []
    ensures Flatten(lines) == lines[0] + Flatten(lines[1..])
  {
    hide Flatten;
    var n := |lines| - 1;
    FlattenEmpty();
    assert lines == lines[..n] + [lines[n]];
    FlattenPush(lines[..n], lines[n]);
    if n == 0 {
      assert lines[..n] == [] && lines[1..] == [];
    } else {
      FlattenCons(lines[..n]);
      assert lines[1..] == lines[..n][1..] + [lines[n]];
      FlattenPush(lines[..n][1..], lines[n]);
    }
  }

  lemma {:induction false} FlattenSplit(lines: seq<seq<Byte>>, k: nat)
    requires k <= |lines|
    ensures Flatten(lines) == Flatten(lines[..k]) + Flatten(lines[k..])
  {
    hide Flatten;
    if k == |lines| {
      FlattenEmpty();
      assert lines[..k] == lines && lines[k..] == [];
    } else {
      var n := |lines| - 1;
      FlattenSplit(lines[..n], k);
      assert lines == lines[..n] + [lines[n]] && lines[..n][..k] == lines[..k];
      FlattenPush(lines[..n], lines[n]);
      assert lines[k..] == lines[..n][k..] + [lines[n]];
      FlattenPush(lines[..n][k..], lines[n]);
    }
  }

  /** A partial line holds no CRLF, so no complete line either. */
  lemma TracksHoldsNoLine(r: BoundedReader, p: seq<Byte>, k: nat)
    requires Tracks(r, p) && k <= |p|
    ensures !ValidLine(p[..k])
  {
    if ValidLine(p[..k]) {
      assert p[k - 2] == CR && k - 2 < |p| - 1;
      PartialHasNoCr(r, p, k - 2);
    }
  }

  lemma PartialHasNoCr(r: BoundedReader, p: seq<Byte>, k: nat)
    requires Tracks(r, p) && k < |p| - 1
    ensures p[k] != CR
  {
    match r.state
    case InCommand =>
    case InArgument =>
      if k < 4 {
        assert p[k] == r.command[..4][k];
      } else if k > 4 {
        assert p[k] == r.argument[..r.argumentLength][k - 5];
      }
    case InEnd =>
      if k < 4 {
        assert p[k] == r.command[..4][k];
      } else if k > 4 {
        assert p[k] == r.argument[..r.argumentLength - 1][k - 5];
      }
  }

  lemma LineIsLong(line: seq<Byte>)
    requires ValidLine(line)
    ensures |line| >= 6 && line[|line| - 2] == CR && line[|line| - 1] == LF
  {
  }

  lemma SplitPrefix(a: seq<Byte>, x: seq<Byte>, b: seq<Byte>, y: seq<Byte>)
    requires a + x <= b + y
    ensures |a| <= |b| ==> a <= b
    ensures |b| <= |a| ==> b <= a
    ensures a == b ==> x <= y
  {
    var s := b + y;
    assert a + x == s[..|a + x|];
    assert a == (a + x)[..|a|] == s[..|a|];
    assert b == s[..|b|];
    if a == b {
      assert x == (a + x)[|a|..] == s[|a|..|a + x|] && y == s[|a|..];
    }
  }

  /** A stream of valid lines splits into lines in one way only. */
  lemma {:induction false} UniqueSplit(lines: seq<seq<Byte>>, rest: seq<Byte>, all: seq<seq<Byte>>)
    requires AllValid(lines) && AllValid(all)
    requires Flatten(lines) + rest <= Flatten(all)
    ensures |lines| <= |all| && lines == all[..|lines|] && rest <= Flatten(all[|lines|..])
    decreases |lines|
  {
    hide ValidLine, Flatten;
    if lines == [] {
      FlattenEmpty();
      assert Flatten(lines) + rest == rest && all[0..] == all;
    } else {
      FlattenCons(lines);
      LineIsLong(lines[0]);
      FlattenEmpty();
      assert all != [];
      FlattenCons(all);
      var tail := Flatten(lines[1..]) + rest;
      assert Flatten(lines) + rest == lines[0] + tail;
      SplitPrefix(lines[0], tail, all[0], Flatten(all[1..]));
      if |lines[0]| <= |all[0]| {
        ValidLinesArePrefixFree(lines[0], all[0]);
      } else {
        ValidLinesArePrefixFree(all[0], lines[0]);
      }
      UniqueSplit(lines[1..], rest, all[1..]);
      assert lines == [lines[0]] + lines[1..];
      assert all[1..][|lines| - 1..] == all[|lines|..];
    }
  }

  lemma FlattenEmpty()
    ensures Flatten([]) == []
  {
  }

  /** Octets that begin a stream of valid lines, cut before the first line ends, begin the first line. */
  lemma {:induction false} BeginsFirstLine(r: BoundedReader, p: seq<Byte>, c: Byte, ahead: seq<seq<Byte>>)
    requires Tracks(r, p) && AllValid(ahead) && p + [c] <= Flatten(ahead)
    ensures ValidLine(p + [c]) || Viable(p + [c])
  {
    hide Tracks, ValidLine, Flatten;
    FlattenEmpty();
    FlattenCons(ahead);
    var q, line := p + [c], ahead[0];
    assert q + [] == q;
    SplitPrefix(q, [], line, Flatten(ahead[1..]));
    if |q| > |line| {
      assert p[..|line|] == q[..|line|] == line;
      TracksHoldsNoLine(r, p, |line|);
    } else {
      assert line == q + line[|q|..];
      assert line[|q|..] != [] ==> Viable(q);
    }
  }

  /** While a stream of valid lines arrives the parser never says INVALID. */
  lemma {:induction false} NoInvalidInValidStream(
    r: BoundedReader, lines: seq<seq<Byte>>, p: seq<Byte>, c: Byte, all: seq<seq<Byte>>)
    requires Tracks(r, p) && AllValid(lines) && AllValid(all)
    requires Flatten(lines) + (p + [c]) <= Flatten(all)
    ensures Feed(r, c).event != InvalidCommand
  {
    hide Tracks, ValidLine, Flatten, Feed;
    UniqueSplit(lines, p + [c], all);
    BeginsFirstLine(r, p, c, all[|lines|..]);
    FeedTracks(r, p, c);
  }
}
