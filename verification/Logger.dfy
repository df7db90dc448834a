/** The buffer of lib/logger/logger.c: log lines slide through it on their way to a file that takes what it likes. */
module Loggers {
  import opened Bytes
  import opened Interests

  const CHUNK: nat := 0x1000
  const MAX_SIZE: nat := 0x400000
  const MAX_PRINT: nat := 0x200

  /** buffer_capacity, buffer_start and the pending octets, which are buffer_length many. */
  datatype Log = Log(capacity: nat, start: nat, pending: seq<Byte>) {

    predicate Valid() {
      && start + |pending| < capacity
      && capacity % CHUNK == 0 && CHUNK <= capacity <= MAX_SIZE
    }

    /** Octets that fit behind the pending ones: maxlen, of which snprintf keeps one for its terminator. */
    function Room(): int {
      capacity - |pending| - start
    }
  }

  function New(): Log {
    Log(CHUNK, 0, [])
  }

  function RoundUp(n: nat): nat {
    (n + CHUNK - 1) / CHUNK * CHUNK
  }

  /** make_buffer_space; `memory` says whether malloc succeeds. */
  function MakeSpace(l: Log, len: nat, memory: bool): Log {
    if |l.pending| + l.start + len <= l.capacity then l
    else if len < l.capacity - |l.pending| then l.(start := 0)
    else if l.capacity < MAX_SIZE then
      if memory then Log(Min(RoundUp(|l.pending| + len), MAX_SIZE), 0, l.pending) else l.(start := 0)
    else l
  }

  /** try_flush_buffer_to_file; `written` is what write() returns. */
  function Flush(l: Log, written: int): Log
    requires written <= |l.pending|
  {
    if written > 0 then
      var rest := l.pending[written..];
      Log(l.capacity, if rest == [] then 0 else l.start + written, rest)
    else l
  }

  /** What logger_post_print keeps of a line: snprintf has cut it to maxlen - 1 octets. */
  function Kept(l: Log, line: seq<Byte>): seq<Byte> {
    Take(line, if l.Room() > 0 then l.Room() - 1 else 0)
  }

  /** One use of the logger: a line is printed and write() is tried, or the file becomes writable. snprintf may fail,
      and then nothing is kept and nothing is written. */
  datatype Op =
    | Print(line: seq<Byte>, memory: bool, written: int)
    | PrintFails(memory: bool)
    | Writable(written: int)

  /** The logger, all octets it has kept of the lines printed, the contents of the file, and what the selector has been
      told to wait for. */
  datatype Account = Account(log: Log, accepted: seq<Byte>, file: seq<Byte>, interest: Interest) {

    /** Nothing kept is lost, and the selector waits for the file exactly while something is pending. */
    predicate Valid() {
      && log.Valid() && accepted == file + log.pending
      && interest == if log.pending != [] then OP_WRITE else OP_NOOP
    }
  }

  /** write() takes any number of the pending octets, or fails. */
  function Written(l: Log, written: int): int {
    Min(written, |l.pending|)
  }

  function Drain(a: Account, written: int): Account {
    var n := Written(a.log, written);
    var l := Flush(a.log, n);
    Account(l, a.accepted, a.file + (if n > 0 then a.log.pending[..n] else []),
            if l.pending != [] then OP_WRITE else OP_NOOP)
  }

  function Perform(a: Account, op: Op): Account {
    match op
    case Print(line, memory, written) =>
      var l := MakeSpace(a.log, MAX_PRINT, memory);
      var kept := Kept(l, line);
      Drain(Account(l.(pending := l.pending + kept), a.accepted + kept, a.file, a.interest), written)
    case PrintFails(memory) => a.(log := MakeSpace(a.log, MAX_PRINT, memory))
    case Writable(written) => Drain(a, written)
  }

  function Run(ops: seq<Op>): Account {
    if ops == [] then Account(New(), [], [], OP_NOOP)
    else Perform(Run(ops[..|ops| - 1]), ops[|ops| - 1])
  }

  /** Space is made without touching what is pending, the capacity stays a multiple of 4096 within bounds and never
      shrinks, and start + length < capacity survives. */
  lemma MakeSpaceKeeps(l: Log, len: nat, memory: bool)
    requires l.Valid() && 0 < len
    ensures MakeSpace(l, len, memory).Valid()
    ensures MakeSpace(l, len, memory).pending == l.pending
    ensures MakeSpace(l, len, memory).capacity >= l.capacity
    ensures MakeSpace(l, len, memory).Room() >= l.Room()
  {
    RoundUpBounds(|l.pending| + len);
  }

  lemma RoundUpBounds(n: nat)
    ensures n <= RoundUp(n) < n + CHUNK && RoundUp(n) % CHUNK == 0
    ensures forall c: nat :: c % CHUNK == 0 && c < n + CHUNK ==> c <= RoundUp(n)
  {
    var q := (n + CHUNK - 1) / CHUNK;
    assert RoundUp(n) == q * CHUNK && n + CHUNK - 1 == q * CHUNK + (n + CHUNK - 1) % CHUNK;
  }

  /** Exactly when make_buffer_space leaves room for len octets: they fit already, or fit once the pending octets have
      moved to the start, or the buffer may still grow, malloc succeeds and the maximum size is enough. */
  lemma MakeSpaceExact(l: Log, len: nat, memory: bool)
    requires l.Valid() && 0 < len
    ensures MakeSpace(l, len, memory).Room() >= len
            <==> || |l.pending| + l.start + len <= l.capacity
                 || |l.pending| + len < l.capacity
                 || (l.capacity < MAX_SIZE && memory && |l.pending| + len <= MAX_SIZE)
                 || (l.capacity < MAX_SIZE && |l.pending| + len == l.capacity)
  {
    RoundUpBounds(|l.pending| + len);
  }

  /** logger_pre_print leaves its 512 octets whenever malloc succeeds and less than 4 MiB would be pending. */
  lemma PrePrintLeavesRoom(l: Log)
    requires l.Valid() && |l.pending| + MAX_PRINT < MAX_SIZE
    ensures MakeSpace(l, MAX_PRINT, true).Room() >= MAX_PRINT
    ensures forall a: Account :: a.log == l ==> Perform(a, PrintFails(true)).log.Room() >= MAX_PRINT
  {
    MakeSpaceExact(l, MAX_PRINT, true);
  }

  lemma DrainKeeps(a: Account, written: int)
    requires a.log.Valid() && a.accepted == a.file + a.log.pending
    ensures Drain(a, written).Valid()
  {
    var n := Written(a.log, written);
    if n > 0 {
      assert a.log.pending == a.log.pending[..n] + a.log.pending[n..];
    }
  }

  lemma PerformKeeps(a: Account, op: Op)
    requires a.Valid()
    ensures Perform(a, op).Valid()
  {
    match op
    case Print(line, memory, written) =>
      MakeSpaceKeeps(a.log, MAX_PRINT, memory);
      var l := MakeSpace(a.log, MAX_PRINT, memory);
      var kept := Kept(l, line);
      assert a.accepted + kept == a.file + (l.pending + kept);
      DrainKeeps(Account(l.(pending := l.pending + kept), a.accepted + kept, a.file, a.interest), written);
    case PrintFails(memory) =>
      MakeSpaceKeeps(a.log, MAX_PRINT, memory);
    case Writable(written) =>
      DrainKeeps(a, written);
  }

  /** A buffer that has nothing pending is back at its start. */
  lemma EmptyStartsOver(a: Account, op: Op)
    requires a.Valid() && (a.log.pending == [] ==> a.log.start == 0)
    ensures var after := Perform(a, op).log; after.pending == [] ==> after.start == 0
  {
  }

  /** Nothing that was kept is ever lost, repeated or reordered on its way to the file; the selector waits for the file
      exactly while something is pending; snprintf always has at least one octet to write to, so that maxlen - 1 never
      wraps; and a buffer that has been emptied starts over. */
  lemma {:induction false} LoggerConserves(ops: seq<Op>)
    ensures var a := Run(ops);
            && a.accepted == a.file + a.log.pending
            && (a.interest == OP_WRITE <==> a.log.pending != []) && (a.interest == OP_NOOP <==> a.log.pending == [])
            && a.Valid() && a.log.Room() >= 1 && (a.log.pending == [] ==> a.log.start == 0)
  {
    if ops == [] {
    } else {
      LoggerConserves(ops[..|ops| - 1]);
      PerformKeeps(Run(ops[..|ops| - 1]), ops[|ops| - 1]);
      EmptyStartsOver(Run(ops[..|ops| - 1]), ops[|ops| - 1]);
    }
  }

  /** All lines handed to the logger, one behind the other. */
  function Printed(ops: seq<Op>): seq<Byte> {
    if ops == [] then []
    else
      var last := ops[|ops| - 1];
      Printed(ops[..|ops| - 1]) + (if last.Print? then last.line else [])
  }

  /** Each line found room, with one octet to spare, when it was printed. */
  predicate AllRoomy(ops: seq<Op>) {
    ops == [] ||
    var last, before := ops[|ops| - 1], ops[..|ops| - 1];
    && AllRoomy(before)
    && (last.Print? ==> |last.line| < MakeSpace(Run(before).log, MAX_PRINT, last.memory).Room())
  }

  /** The file and what is pending are all lines as they were printed, in order, if and only if each found room. What is
      written is as much as write() takes. */
  lemma {:induction false} LinesReachTheFile(ops: seq<Op>)
    ensures var a := Run(ops);
            && (a.file + a.log.pending == Printed(ops) <==> AllRoomy(ops))
            && |a.file + a.log.pending| <= |Printed(ops)|
            && (|a.file + a.log.pending| == |Printed(ops)| ==> AllRoomy(ops))
  {
    LoggerConserves(ops);
    if ops != [] {
      var last, before := ops[|ops| - 1], ops[..|ops| - 1];
      LinesReachTheFile(before);
      LoggerConserves(before);
      if last.Print? {
        MakeSpaceKeeps(Run(before).log, MAX_PRINT, last.memory);
        var kept := Kept(MakeSpace(Run(before).log, MAX_PRINT, last.memory), last.line);
        assert Run(ops).accepted == Run(before).accepted + kept;
        assert |kept| == |last.line| ==> kept == last.line;
      } else {
        assert Printed(ops) == Printed(before);
      }
    }
  }

  /** How many octets an operation brings to the file: what write() says it took. */
  lemma WritesReachTheFile(a: Account, op: Op)
    requires a.Valid()
    ensures var after := Perform(a, op);
            && a.file <= after.file
            && |after.file| - |a.file|
               == match op
                  case PrintFails(_) => 0
                  case Writable(written) => if written > 0 then Min(written, |a.log.pending|) else 0
                  case Print(line, memory, written) =>
                    var room := MakeSpace(a.log, MAX_PRINT, memory).Room();
                    if written > 0 then Min(written, |a.log.pending| + Min(|line|, room - 1)) else 0
  {
    if op.Print? {
      MakeSpaceKeeps(a.log, MAX_PRINT, op.memory);
    }
  }

  // ---- The module's variables and functions ----

  class Logger {
    var buffer: array<Byte>
    var bufferStart: nat
    var bufferLength: nat
    var bufferCapacity: nat
    var interest: Interest        // of the log file, in the selector
    ghost var accepted: seq<Byte>
    ghost var file: seq<Byte>

    ghost predicate Valid()
      reads this
    {
      && bufferCapacity == buffer.Length && bufferStart + bufferLength < bufferCapacity
      && bufferCapacity % CHUNK == 0 && CHUNK <= bufferCapacity <= MAX_SIZE
    }

    ghost function Model(): Account
      requires Valid()
      reads this, buffer
    {
      var pending := buffer[bufferStart..bufferStart + bufferLength];
      Account(Log(bufferCapacity, bufferStart, pending), accepted, file, interest)
    }

    /** The part of logger_init that allocates the buffer. */
    constructor ()
      ensures Valid() && fresh(buffer) && Model() == Run([])
    {
      buffer := new Byte[CHUNK](i => NUL);
      bufferCapacity := CHUNK;
      bufferLength, bufferStart := 0, 0;
      interest, accepted, file := OP_NOOP, [], [];
    }

    /** memmove(buffer, buffer + buffer_start, buffer_length) */
    method MoveToStart()
      requires Valid()
      modifies this, buffer
      ensures Valid() && Model() == old(Model()).(log := old(Model()).log.(start := 0)) && buffer == old(buffer)
    {
      for i := 0 to bufferLength
        invariant forall j :: 0 <= j < i ==> buffer[j] == old(buffer[bufferStart + j])
        invariant forall j :: bufferStart + i <= j < bufferStart + bufferLength ==> buffer[j] == old(buffer[j])
        modifies buffer
      {
        buffer[i] := buffer[bufferStart + i];
      }
      bufferStart := 0;
    }

    /** The pending octets move to the start of a larger buffer. */
    method Grow(capacity: nat)
      requires Valid() && bufferLength < capacity && capacity % CHUNK == 0 && CHUNK <= capacity <= MAX_SIZE
      modifies this
      ensures Valid() && fresh(buffer)
      ensures Model() == old(Model()).(log := Log(capacity, 0, old(Model()).log.pending))
    {
      var larger := new Byte[capacity](i => NUL);
      for i := 0 to bufferLength
        invariant forall j :: 0 <= j < i ==> larger[j] == buffer[bufferStart + j]
        modifies larger
      {
        larger[i] := buffer[bufferStart + i];
      }
      assert larger[..bufferLength] == buffer[bufferStart..bufferStart + bufferLength];
      buffer := larger;
      bufferCapacity := capacity;
      bufferStart := 0;
    }

    method MakeBufferSpace(len: nat, memory: bool)
      requires Valid() && 0 < len
      modifies this, buffer
      ensures Valid() && (buffer == old(buffer) || fresh(buffer))
      ensures Model() == old(Model()).(log := MakeSpace(old(Model()).log, len, memory))
    {
      MakeSpaceKeeps(Model().log, len, memory);
      if bufferLength + bufferStart + len > bufferCapacity {
        if len < bufferCapacity - bufferLength {
          MoveToStart();
        } else if bufferCapacity < MAX_SIZE {
          var capacity := bufferLength + len;
          capacity := (capacity + CHUNK - 1) / CHUNK * CHUNK;
          if capacity > MAX_SIZE {
            capacity := MAX_SIZE;
          }
          if !memory {
            MoveToStart();
          } else {
            Grow(capacity);
          }
        }
      }
    }

    /** logger_get_bufstart_and_maxlength */
    method MaxLength() returns (maxlen: nat)
      requires Valid()
      ensures maxlen == Model().log.Room() && maxlen >= 1
    {
      maxlen := bufferCapacity - bufferLength - bufferStart;
    }

    /** write() and the bookkeeping of try_flush_buffer_to_file; write() takes at most what there is. */
    method TryFlush(taken: int)
      requires Valid()
      modifies this
      ensures Valid() && Model() == Drain(old(Model()), taken) && buffer == old(buffer)
    {
      hide Log.Valid;
      var written := if taken < bufferLength then taken else bufferLength;
      if written > 0 {
        DropPending(written);
      }
      interest := if bufferLength > 0 then OP_WRITE else OP_NOOP;
    }

    /** write() has taken this many octets. */
    method DropPending(written: nat)
      requires Valid() && 0 < written <= bufferLength
      modifies this
      ensures Valid() && buffer == old(buffer)
      ensures var a := old(Model());
              Model() == a.(log := Flush(a.log, written), file := a.file + a.log.pending[..written])
      ensures bufferLength == |Model().log.pending|
    {
      ghost var pending := buffer[bufferStart..bufferStart + bufferLength];
      assert pending[..written] == buffer[bufferStart..bufferStart + written];
      assert pending[written..] == buffer[bufferStart + written..bufferStart + bufferLength];
      file := file + buffer[bufferStart..bufferStart + written];
      bufferLength := bufferLength - written;
      bufferStart := if bufferLength == 0 then 0 else bufferStart + written;
    }

    /** What snprintf writes behind the pending octets: the text and its terminator. */
    method Format(text: seq<Byte>)
      requires Valid() && bufferStart + bufferLength + |text| < bufferCapacity
      modifies buffer
      ensures Valid() && Model() == old(Model())
      ensures buffer[bufferStart + bufferLength..bufferStart + bufferLength + |text|] == text
    {
      var end := bufferStart + bufferLength;
      for i := 0 to |text|
        invariant forall j :: 0 <= j < end ==> buffer[j] == old(buffer[j])
        invariant forall j :: 0 <= j < i ==> buffer[end + j] == text[j]
      {
        buffer[end + i] := text[i];
      }
      buffer[end + |text|] := NUL;
    }

    /** The octets of a line become pending, with one octet to spare. */
    method Keep(text: seq<Byte>)
      requires Valid() && |text| < Model().log.Room()
      modifies `bufferLength, `accepted, buffer
      ensures Valid()
      ensures var a := old(Model());
              Model() == a.(log := a.log.(pending := a.log.pending + text), accepted := a.accepted + text)
    {
      ghost var a := Model();
      Format(text);
      accepted := accepted + text;
      bufferLength := bufferLength + |text|;
      assert Model().log.pending == a.log.pending + text;
    }

    /** snprintf of the line, and logger_post_print with its result: the length the whole line would have, or -1. */
    method PostPrint(line: Option<seq<Byte>>, maxlen: nat, written: int)
      requires Valid() && maxlen == Model().log.Room()
      modifies this, buffer
      ensures Valid() && buffer == old(buffer)
      ensures var a := old(Model());
              Model() == if line.None? then a
                         else
                           var kept := Kept(a.log, line.value);
                           var log := a.log.(pending := a.log.pending + kept);
                           Drain(Account(log, a.accepted + kept, a.file, a.interest), written)
    {
      if line.None? {
        return;
      }
      ghost var a := Model();
      var count := |line.value|;
      if count >= maxlen {
        count := maxlen - 1;
      }
      assert line.value[..count] == Kept(a.log, line.value);
      Keep(line.value[..count]);
      TryFlush(written);
    }

    /** The logf macro. */
    method LogLine(line: Option<seq<Byte>>, memory: bool, written: int)
      requires Valid()
      modifies this, buffer
      ensures Valid()
      ensures var operation := if line.Some? then Print(line.value, memory, written) else PrintFails(memory);
              Model() == Perform(old(Model()), operation)
    {
      MakeBufferSpace(MAX_PRINT, memory);
      var maxlen := MaxLength();
      PostPrint(line, maxlen, written);
    }
  }
}
