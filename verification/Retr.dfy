/** One RETR, from the first call of retr_handler to the one that queues the end marker. Between two calls the
    client may have taken any part of the output, so every call meets its own amount of free space. */
module Retr {
  import opened Bytes
  import opened Stuffing

  const HEADER: seq<Byte> := Ascii("+OK message follows\r\n")

  /** What the connection carries from one call to the next: is_finished, crlf_flag, read_index. */
  datatype Progress = Progress(finished: bool, flag: Flag, readIndex: nat)

  /** Octets queued by one call, and what it leaves behind. */
  datatype CallResult = CallResult(queued: seq<Byte>, next: Progress)

  /** fread(ptr, 1, n - 1, file) into n octets of memory, with `remaining` octets left in the file. */
  function ChunkLength(n: nat, remaining: nat): nat
    requires n >= 1
  {
    Min(n - 1, remaining)
  }

  function Header(p: Progress): seq<Byte> {
    if p.finished then HEADER else []
  }

  /** Free space once the header, if any, has been queued. */
  function RoomForBody(room: nat, p: Progress): nat {
    room - |Take(Header(p), room)|
  }

  /** n is a size_t: when the header leaves no free space, n - 1 wraps, and the call asks fread for SIZE_MAX octets into
      an allocation of none. What happens then is not defined. */
  predicate Overruns(room: nat, p: Progress) {
    RoomForBody(room, p) == 0
  }

  /** A call overruns exactly when the output buffer has no free octet, or, for the first call of a mail, none beyond
      the header's. */
  lemma OverrunExact(room: nat, p: Progress)
    ensures Overruns(room, p) <==> room <= if p.finished then 21 else 0
  {
  }

  function Remaining(p: Progress, content: seq<Byte>): nat {
    if p.readIndex <= |content| then |content| - p.readIndex else 0
  }

  function Chunk(room: nat, p: Progress, content: seq<Byte>): seq<Byte>
    requires !Overruns(room, p)
  {
    var start := Min(p.readIndex, |content|);
    content[start..start + ChunkLength(RoomForBody(room, p), Remaining(p, content))]
  }

  /** The last call is the one with room for the rest of the file, the end marker and one octet more. */
  predicate IsLast(room: nat, p: Progress, content: seq<Byte>) {
    Remaining(p, content) + |END_MARK| + 1 <= RoomForBody(room, p)
  }

  /** is_finished, crlf_flag and read_index after one call: they follow what was read, not what fitted. */
  function After(room: nat, p: Progress, content: seq<Byte>): Progress
    requires !Overruns(room, p)
  {
    var chunk := Chunk(room, p, content);
    if IsLast(room, p, content) then Progress(true, FlagAfter(p.flag, chunk), 0)
    else Progress(false, FlagAfter(p.flag, chunk), p.readIndex + |chunk|)
  }

  /** Octets one call queues in an output buffer with `room` free octets. buffer_write ignores what does not fit
      and try_write truncates. */
  function Queued(room: nat, p: Progress, content: seq<Byte>): seq<Byte>
    requires !Overruns(room, p)
  {
    var n := RoomForBody(room, p);
    var body := Take(Stuff(p.flag, Chunk(room, p, content)), n);
    Take(Header(p), room) + body + (if IsLast(room, p, content) then Take(END_MARK, n - |body|) else [])
  }

  /** retr_handler on an existing mail. */
  function CallHandler(room: nat, p: Progress, content: seq<Byte>): CallResult
    requires !Overruns(room, p)
  {
    CallResult(Queued(room, p, content), After(room, p, content))
  }

  /** Everything one call wants to queue. */
  function Wanted(room: nat, p: Progress, content: seq<Byte>): seq<Byte>
    requires !Overruns(room, p)
  {
    Header(p) + Stuff(p.flag, Chunk(room, p, content)) + (if IsLast(room, p, content) then END_MARK else [])
  }

  /** The call has room for its piece: header, octets read, dots added and end marker. */
  predicate CallFits(room: nat, p: Progress, content: seq<Byte>)
    requires !Overruns(room, p)
  {
    var chunk := Chunk(room, p, content);
    |Header(p)| + |chunk| + StuffedDots(p.flag, chunk) + (if IsLast(room, p, content) then |END_MARK| else 0) <= room
  }

  /** What a call queues is what it wants to queue, cut where the free space ends. */
  lemma CallCuts(room: nat, p: Progress, content: seq<Byte>)
    requires !Overruns(room, p)
    ensures Queued(room, p, content) == Take(Wanted(room, p, content), room)
  {
    var head, body := Header(p), Stuff(p.flag, Chunk(room, p, content));
    var tail := if IsLast(room, p, content) then END_MARK else [];
    TakeJoin(head, body, room);
    TakeJoin(head + body, tail, room);
  }

  /** A call queues all of its piece exactly when the piece fits, and never more than the free space. */
  lemma CallQueues(room: nat, p: Progress, content: seq<Byte>)
    requires !Overruns(room, p)
    ensures var queued := Queued(room, p, content);
            && |queued| <= room
            && |queued| <= |Wanted(room, p, content)|
            && (queued == Wanted(room, p, content) <==> CallFits(room, p, content))
            && (|queued| == |Wanted(room, p, content)| ==> CallFits(room, p, content))
  {
    CallCuts(room, p, content);
    StuffLength(p.flag, Chunk(room, p, content));
    WantedLength(room, p, content);
  }

  lemma WantedLength(room: nat, p: Progress, content: seq<Byte>)
    requires !Overruns(room, p)
    ensures CallFits(room, p, content) <==> |Wanted(room, p, content)| <= room
  {
    StuffLength(p.flag, Chunk(room, p, content));
  }

  /** The whole reply for a mail. */
  function Transmission(start: Flag, content: seq<Byte>): seq<Byte> {
    HEADER + Stuff(start, content) + END_MARK
  }

  /** Calls with the given amounts of free space, until one finishes, one overruns, or the list ends. */
  function Drive(rooms: seq<nat>, p: Progress, content: seq<Byte>): CallResult
    decreases |rooms|
  {
    if rooms == [] || Overruns(rooms[0], p) then CallResult([], p)
    else
      var first := CallHandler(rooms[0], p, content);
      if first.next.finished then first
      else
        var rest := Drive(rooms[1..], first.next, content);
        CallResult(first.queued + rest.queued, rest.next)
  }

  /** No call that Drive makes overruns. */
  predicate NeverOverruns(rooms: seq<nat>, p: Progress, content: seq<Byte>)
    decreases |rooms|
  {
    rooms == [] ||
    (&& !Overruns(rooms[0], p)
     && var next := CallHandler(rooms[0], p, content).next;
        next.finished || NeverOverruns(rooms[1..], next, content))
  }

  /** Every call that Drive makes has room for its piece. */
  predicate AllFit(rooms: seq<nat>, p: Progress, content: seq<Byte>)
    decreases |rooms|
  {
    rooms == [] ||
    (&& !Overruns(rooms[0], p) && CallFits(rooms[0], p, content)
     && var next := CallHandler(rooms[0], p, content).next;
        next.finished || AllFit(rooms[1..], next, content))
  }

  /** What is still to be queued by a transfer in state p. */
  function Outstanding(p: Progress, content: seq<Byte>): seq<Byte> {
    Header(p) + Stuff(p.flag, content[Min(p.readIndex, |content|)..]) + END_MARK
  }

  /** One call takes its piece off the front of what is outstanding. */
  lemma CallPeels(room: nat, p: Progress, content: seq<Byte>)
    requires !Overruns(room, p) && p.readIndex <= |content|
    ensures var next := After(room, p, content);
            && (next.finished ==> Wanted(room, p, content) == Outstanding(p, content))
            && (!next.finished ==>
                  && p.readIndex <= next.readIndex <= |content|
                  && Outstanding(p, content) == Wanted(room, p, content) + Outstanding(next, content))
  {
    var next, chunk := After(room, p, content), Chunk(room, p, content);
    var after := content[p.readIndex + |chunk|..];
    assert content[p.readIndex..] == chunk + after;
    StuffAppend(p.flag, chunk, after);
    Regroup(Header(p), Stuff(p.flag, chunk), Stuff(FlagAfter(p.flag, chunk), after), END_MARK);
    if !IsLast(room, p, content) {
      assert Header(next) == [];
      assert Outstanding(next, content) == Stuff(next.flag, after) + END_MARK;
    }
  }

  lemma Regroup(a: seq<Byte>, b: seq<Byte>, c: seq<Byte>, d: seq<Byte>)
    ensures a + (b + c) + d == (a + b + []) + (c + d) == (a + b) + (c + d)
    ensures (a + b) + ([] + c + d) == a + (b + c) + d
    ensures c == [] ==> a + (b + c) + d == a + b + d
    ensures [] + c + d == c + d
  {
    assert a + (b + c) + d == (a + b + []) + (c + d);
  }

  /** Two parts that are each no longer than intended make up the whole only if both are as intended. */
  lemma PartsMakeWhole(a: seq<Byte>, b: seq<Byte>, wantA: seq<Byte>, wantB: seq<Byte>)
    requires |a| <= |wantA| && |b| <= |wantB|
    ensures a + b == wantA + wantB <==> a == wantA && b == wantB
    ensures |a + b| == |wantA + wantB| <==> |a| == |wantA| && |b| == |wantB|
  {
    if a + b == wantA + wantB {
      assert a == (a + b)[..|a|] && wantA == (wantA + wantB)[..|a|];
      assert b == (a + b)[|a|..] && wantB == (wantA + wantB)[|a|..];
    }
  }

  /** What a run of calls that ended in state p still owes. */
  function Owed(p: Progress, content: seq<Byte>): seq<Byte> {
    if p.finished then [] else Outstanding(p, content)
  }

  lemma CallOwes(room: nat, p: Progress, content: seq<Byte>)
    requires !Overruns(room, p) && p.readIndex <= |content|
    ensures Outstanding(p, content) == Wanted(room, p, content) + Owed(After(room, p, content), content)
  {
    CallPeels(room, p, content);
    assert Wanted(room, p, content) + [] == Wanted(room, p, content);
  }

  lemma {:induction false} FittingIsDefined(rooms: seq<nat>, p: Progress, content: seq<Byte>)
    requires AllFit(rooms, p, content)
    ensures NeverOverruns(rooms, p, content)
    decreases |rooms|
  {
    hide After, CallFits, Overruns;
    if rooms != [] && !After(rooms[0], p, content).finished {
      FittingIsDefined(rooms[1..], After(rooms[0], p, content), content);
    }
  }

  /** At every moment what has been queued is the transmission up to where the file has been read, if and only if
      every call so far had room for its piece. */
  lemma {:induction false} DriveQueues(rooms: seq<nat>, p: Progress, content: seq<Byte>)
    requires p.readIndex <= |content| && rooms != [] && NeverOverruns(rooms, p, content)
    ensures var run := Drive(rooms, p, content);
            && (!AllFit(rooms, p, content) <==> |run.queued + Owed(run.next, content)| < |Outstanding(p, content)|)
            && (run.queued + Owed(run.next, content) == Outstanding(p, content) <==> AllFit(rooms, p, content))
    decreases |rooms|
  {
    hide Queued, After, Wanted, Outstanding, CallFits, Overruns;
    var queued, next := Queued(rooms[0], p, content), After(rooms[0], p, content);
    var wanted, owed := Wanted(rooms[0], p, content), Owed(next, content);
    CallQueues(rooms[0], p, content);
    CallPeels(rooms[0], p, content);
    CallOwes(rooms[0], p, content);
    if next.finished || |rooms| == 1 {
      PartsMakeWhole(queued, owed, wanted, owed);
      assert !next.finished ==> Drive(rooms[1..], next, content) == CallResult([], next);
      assert queued + [] == queued;
    } else {
      DriveQueues(rooms[1..], next, content);
      var later := Drive(rooms[1..], next, content);
      PartsMakeWhole(queued, later.queued + Owed(later.next, content), wanted, owed);
      assert (queued + later.queued) + Owed(later.next, content) == queued + (later.queued + Owed(later.next, content));
    }
  }

  /** The reply to RETR is the header, the whole file stuffed in one pass, and CRLF.CRLF, however the transfer was
      cut into pieces, if and only if every piece fitted. */
  lemma {:induction false} PiecewiseIsWhole(rooms: seq<nat>, start: Flag, content: seq<Byte>)
    requires rooms != [] && NeverOverruns(rooms, Progress(true, start, 0), content)
    requires Drive(rooms, Progress(true, start, 0), content).next.finished
    ensures Drive(rooms, Progress(true, start, 0), content).queued == Transmission(start, content)
            <==> AllFit(rooms, Progress(true, start, 0), content)
  {
    DriveQueues(rooms, Progress(true, start, 0), content);
    assert content[0..] == content;
  }

  /** While the transfer is under way and every piece fitted, the queue holds a prefix of the transmission: the
      header and the stuffing of exactly the octets read. */
  lemma {:induction false} PiecewiseIsPrefix(rooms: seq<nat>, start: Flag, content: seq<Byte>)
    requires rooms != []
    requires AllFit(rooms, Progress(true, start, 0), content)
    ensures var run := Drive(rooms, Progress(true, start, 0), content);
            && run.queued <= Transmission(start, content)
            && (!run.next.finished ==>
                  && run.next.readIndex <= |content|
                  && run.queued == HEADER + Stuff(start, content[..run.next.readIndex])
                  && run.next.flag == FlagAfter(start, content[..run.next.readIndex]))
  {
    var p := Progress(true, start, 0);
    FittingIsDefined(rooms, p, content);
    DriveQueues(rooms, p, content);
    assert content[0..] == content;
    var queued, next := Drive(rooms, p, content).queued, Drive(rooms, p, content).next;
    assert queued + Owed(next, content) == Transmission(start, content);
    if !next.finished {
      DriveTracksFlag(rooms, p, start, content);
      SplitTransmission(start, content, next.readIndex);
      CancelTail(queued, HEADER + Stuff(start, content[..next.readIndex]), Owed(next, content));
    }
  }

  lemma {:induction false} SplitTransmission(start: Flag, content: seq<Byte>, k: nat)
    requires k <= |content|
    ensures var p := Progress(false, FlagAfter(start, content[..k]), k);
            HEADER + Stuff(start, content[..k]) + Owed(p, content) == Transmission(start, content)
  {
    assert content == content[..k] + content[k..];
    StuffAppend(start, content[..k], content[k..]);
    Regroup(HEADER, Stuff(start, content[..k]), Stuff(FlagAfter(start, content[..k]), content[k..]), END_MARK);
  }

  lemma CancelTail(a: seq<Byte>, b: seq<Byte>, tail: seq<Byte>)
    requires a + tail == b + tail
    ensures a == b
  {
    assert |a + tail| == |b + tail|;
    assert a == (a + tail)[..|a|] && b == (b + tail)[..|b|];
  }

  /** The flag depends only on the octets read, never on what fitted. */
  lemma {:induction false} DriveTracksFlag(rooms: seq<nat>, p: Progress, start: Flag, content: seq<Byte>)
    requires p.readIndex <= |content| && p.flag == FlagAfter(start, content[..p.readIndex])
    requires NeverOverruns(rooms, p, content)
    ensures var next := Drive(rooms, p, content).next;
            !next.finished || rooms == [] ==>
              next.readIndex <= |content| && next.flag == FlagAfter(start, content[..next.readIndex])
    decreases |rooms|
  {
    hide After, Overruns, FlagAfter;
    if rooms != [] {
      var next := After(rooms[0], p, content);
      FlagStep(start, rooms[0], p, content);
      if !next.finished {
        DriveTracksFlag(rooms[1..], next, start, content);
      }
    }
  }

  // ---- Keeping account of a transfer while it runs ----

  /** s is the transmission, or is too short to be it. */
  predicate Balanced(whole: bool, s: seq<Byte>, start: Flag, content: seq<Byte>) {
    if whole then s == Transmission(start, content) else |s| < |Transmission(start, content)|
  }

  /** A transfer in state p that has queued soFar: the flag follows the octets read, and what is queued completes
      to the transmission if every piece fitted and is too short otherwise. */
  predicate AccountOk(whole: bool, soFar: seq<Byte>, p: Progress, start: Flag, content: seq<Byte>) {
    && p.readIndex <= |content|
    && p.flag == FlagAfter(start, content[..p.readIndex])
    && Balanced(whole, soFar + Outstanding(p, content), start, content)
  }

  lemma AccountOpens(start: Flag, content: seq<Byte>)
    ensures AccountOk(true, [], Progress(true, start, 0), start, content)
  {
    assert content[0..] == content && content[..0] == [];
    assert [] + Transmission(start, content) == Transmission(start, content);
  }

  /** A call that fits keeps a balanced account balanced; once a piece is cut the account stays short. */
  lemma {:induction false} AccountStep(
    whole: bool, soFar: seq<Byte>, room: nat, p: Progress, start: Flag, content: seq<Byte>)
    requires AccountOk(whole, soFar, p, start, content) && !Overruns(room, p)
    ensures var whole', soFar' := whole && CallFits(room, p, content), soFar + Queued(room, p, content);
            var next := After(room, p, content);
            if next.finished then next.flag == FlagAfter(start, content) && Balanced(whole', soFar', start, content)
            else AccountOk(whole', soFar', next, start, content)
  {
    hide Queued, Wanted, Outstanding, Stuff, FlagAfter, CallFits;
    var queued, next := Queued(room, p, content), After(room, p, content);
    CallQueues(room, p, content);
    CallOwes(room, p, content);
    FlagStep(start, room, p, content);
    AccountJoin(soFar, queued, Wanted(room, p, content), Owed(next, content));
    assert next.finished ==> (soFar + queued) + Owed(next, content) == soFar + queued;
  }

  lemma AccountJoin(soFar: seq<Byte>, queued: seq<Byte>, wanted: seq<Byte>, owed: seq<Byte>)
    ensures queued == wanted ==> (soFar + queued) + owed == soFar + (wanted + owed)
    ensures |queued| < |wanted| ==> |(soFar + queued) + owed| < |soFar + (wanted + owed)|
    ensures |queued| <= |wanted| ==> |(soFar + queued) + owed| <= |soFar + (wanted + owed)|
  {
    assert queued == wanted ==> (soFar + queued) + owed == soFar + (wanted + owed);
  }

  /** The flag and the read index after a call, in terms of the flag the mail started with. */
  lemma {:induction false} FlagStep(start: Flag, room: nat, p: Progress, content: seq<Byte>)
    requires !Overruns(room, p) && p.readIndex <= |content| && p.flag == FlagAfter(start, content[..p.readIndex])
    ensures var next := After(room, p, content);
            if next.finished then next.flag == FlagAfter(start, content)
            else next.readIndex <= |content| && next.flag == FlagAfter(start, content[..next.readIndex])
  {
    hide FlagAfter, Stuff, StuffedDots;
    var chunk := Chunk(room, p, content);
    StuffAppend(start, content[..p.readIndex], chunk);
    var k := p.readIndex + |chunk|;
    assert content[..k] == content[..p.readIndex] + chunk;
    assert IsLast(room, p, content) ==> content[..k] == content;
  }

  /** A sufficient condition that looks only at the dots: the header fits with one octet to spare and no piece needs
      more than one extra dot. */
  predicate OneDotAPiece(rooms: seq<nat>, p: Progress, content: seq<Byte>)
    decreases |rooms|
  {
    rooms == [] ||
    (&& rooms[0] > |Header(p)| && !Overruns(rooms[0], p)
     && StuffedDots(p.flag, Chunk(rooms[0], p, content)) <= 1
     && var next := CallHandler(rooms[0], p, content).next;
        next.finished || OneDotAPiece(rooms[1..], next, content))
  }

  lemma {:induction false} OneDotAPieceFits(rooms: seq<nat>, p: Progress, content: seq<Byte>)
    requires OneDotAPiece(rooms, p, content)
    ensures AllFit(rooms, p, content)
    decreases |rooms|
  {
    if rooms != [] {
      var next := CallHandler(rooms[0], p, content).next;
      if !next.finished {
        OneDotAPieceFits(rooms[1..], next, content);
      }
    }
  }

  // ---- Losing a dot ----

  /** A mail whose first line opens with two dots and fills a whole chunk. */
  function TwoDotMail(filler: nat): seq<Byte> {
    [CR, LF, DOT, DOT] + seq(filler, i => SP)
  }

  lemma {:induction false} NoDotsInFiller(f: Flag, s: seq<Byte>)
    requires forall i :: 0 <= i < |s| ==> s[i] == SP
    ensures StuffedDots(f, s) == 0
    decreases |s|
  {
    if s != [] {
      NoDotsInFiller(NextFlag(f, s[0]), s[1..]);
    }
  }

  lemma {:induction false} TwoDotMailDots(f: Flag, filler: nat)
    ensures StuffedDots(f, TwoDotMail(filler)) == 2
  {
    var s := TwoDotMail(filler);
    var rest := seq(filler, i => SP);
    NoDotsInFiller(SawLf, rest);
    assert StuffedDots(SawLf, [DOT] + rest) == 1 + StuffedDots(SawLf, rest) by { assert ([DOT] + rest)[1..] == rest; }
    assert StuffedDots(SawLf, [DOT, DOT] + rest) == 2;
    assert s[1..] == [LF, DOT, DOT] + rest;
    assert s[1..][1..] == [DOT, DOT] + rest;
    assert s[1..][1..][1..] == [DOT] + rest;
    assert s[1..][1..][1..][1..] == rest;
  }

  /** With a completely empty 4096-octet output buffer, a mail of 4074 octets or more that opens with CRLF and two dots
      loses an octet in its first piece, and no later call makes up for it: what has been queued and what is still owed
      stays shorter than the transmission. */
  lemma {:induction false} SecondDotIsLost(start: Flag, filler: nat, rooms: seq<nat>)
    requires filler >= 4070 && rooms != [] && rooms[0] == 4096
    requires NeverOverruns(rooms, Progress(true, start, 0), TwoDotMail(filler))
    ensures var content := TwoDotMail(filler);
            var run := Drive(rooms, Progress(true, start, 0), content);
            && |run.queued + Owed(run.next, content)| < |Transmission(start, content)|
            && run.queued + Owed(run.next, content) != Transmission(start, content)
  {
    var p, content := Progress(true, start, 0), TwoDotMail(filler);
    var chunk := Chunk(4096, p, content);
    assert chunk == TwoDotMail(4070);
    TwoDotMailDots(start, 4070);
    assert !CallFits(4096, p, content);
    DriveQueues(rooms, p, content);
    assert content[0..] == content;
  }

  // ---- Termination ----

  /** Octets left to read, and one more for the end marker. */
  function Work(p: Progress, content: seq<Byte>): nat {
    Remaining(p, content) + 1
  }

  /** A call finishes the transfer or makes the rest smaller, unless it has nothing to read and no room for the
      marker, or room for a single octet only: then it changes nothing. */
  lemma CallProgress(room: nat, p: Progress, content: seq<Byte>)
    requires !Overruns(room, p) && p.readIndex <= |content|
    ensures var n, next := RoomForBody(room, p), CallHandler(room, p, content).next;
            (next.finished || Work(next, content) < Work(p, content))
            <==> (if Remaining(p, content) == 0 then n >= |END_MARK| + 1 else n != 1)
  {
  }

  /** When the client drains the output buffer before every call, a mail of S octets takes at most
      ceil(S / 4074) + 1 calls. */
  lemma {:induction false} DrainedCallsFinish(rooms: seq<nat>, p: Progress, content: seq<Byte>)
    requires p.readIndex <= |content|
    requires forall i :: 0 <= i < |rooms| ==> rooms[i] == 4096
    requires |rooms| >= 1 && (|rooms| - 1) * 4074 >= Remaining(p, content)
    ensures Drive(rooms, p, content).next.finished
    decreases |rooms|
  {
    var next := CallHandler(rooms[0], p, content).next;
    if !next.finished {
      assert Remaining(next, content) <= Remaining(p, content) - 4074 || Remaining(next, content) == 0;
      assert |rooms| >= 2;
      DrainedCallsFinish(rooms[1..], next, content);
    }
  }
}
