# A model of the POP3 server

The repository is a single-threaded POP3 server: a selector calls back connections, each connection is a small state
machine with two 4096-octet buffers, a table-driven command parser and a RETR that sends a mail piece by piece while it
stuffs dots. This project models that machinery in Dafny and proves what it promises over all inputs and all runs.

What `recv`, `send`, `write`, `accept`, `malloc` and the file system answer is an input (what is assumed of them stands
under "Left out"): `recv` may deliver any segment or fail, `send` may take any prefix or fail, the client may go away at
any time. What a handler finds outside the connection (user table, mail limit, mail directory, whether a mail file
opens) is a parameter of each event (`World`) and may differ at every event. A statement that compares two runs says
which world each line was read in (`Worlds`); events that read no line and load no maildrop do not count there, so every
single run has such worlds (`Protocol.EveryRunHasWorlds`).

Where a handler uses memory or a file that it does not have, C defines nothing any more. The model stops the connection there
and sets a flag, `astray`; the statements about runs are about moments with that flag clear (`Run.Defined`), and
`Theorems.DispatchGoesAstray` and `Theorems.JumpGoesAstray` say exactly which handler calls and changes of state set it.

## Layout

| file | part of the program |
|---|---|
| `Bytes.dfy` | octets, C strings, `strcasecmp` |
| `Queue.dfy`, `Buffer.dfy` | `lib/buffer.c`: the bounded queue, and the class with two pointers that refines it |
| `Stuffing.dfy` | the dot-stuffing fold of `retr_handler`, self-framing, decoders |
| `Retr.dfy` | one RETR from first to last call, each with its own free space |
| `CommandParser.dfy`, `Parser.dfy` | the transition tables with their actions, and the class that runs them on arrays |
| `Session.dfy` | the command table and what each handler means for the session |
| `Commands.dfy` | which handler a name runs, spelled octet by octet without the command table |
| `Listing.dfy` | what a client reads in the replies to LIST and STAT |
| `Engine.dfy` | one connection as a step machine on values, with a history of what has happened |
| `Running.dfy` | the invariant of every reachable connection |
| `Framing.dfy` | cutting input into lines, one call and one valid line at a time |
| `Cuts.dfy` | cutting any input into lines, malformed ones included |
| `Chronicle.dfy` | what a history means: who is logged in, what is marked, what is removed |
| `Protocol.dfy` | the protocol without I/O, and segmentation independence |
| `Lines.dfy` | what each command line does to the session and the files, and what its reply says |
| `Replies.dfy` | the output of a run is the replies of the protocol, in order |
| `Theorems.dfy` | the statements about whole runs of a connection |
| `Callbacks.dfy` | what one callback moves in and out, what the connection waits for then, and when it ends |
| `Scenarios.dfy` | concrete runs: two that go astray, and two cuts of one stream that are heard differently |
| `Connection.dfy` | `connection_data` as a class; each C function proved equal to a function of `Engine` |
| `Interests.dfy`, `Selector.dfy` | `lib/selector.c` |
| `Server.dfy` | all connections of a server and the iteration loop of the selector |
| `Logger.dfy` | the sliding buffer of `lib/logger/logger.c` |

The imperative parts (classes `Buffer`, `Parser`, `Connection`, `Selector`, `Server`, `Logger`) keep the fields and loops of
the C code. Each of their methods is proved to take the abstract value of the object to what a function on values says;
the theorems are then proved about those functions over all runs, so they hold of the classes as well.

## Where the code does not do what one would expect

- After a stuffed dot `crlf_flag` stays at LF, so a line that opens with k dots is sent with 2k dots instead of k + 1.
  `StandardDecodeExact` says exactly which mails a client that follows section 3 of RFC 1939 still reads back.
- `crlf_flag` is never reset. A mail is stuffed as if it followed the previous one, and the first mail of a connection as
  if it followed an ordinary character, so a leading dot is not stuffed. The start flag is a parameter of every statement;
  `DeliveriesAreExact` says how it is handed on.
- RETR reads a piece with `fread(ptr, 1, n - 1, file)`, where n is the free space of the output buffer after the header. For
  n = 0 the size wraps to the largest `size_t` while `ptr` has no memory at all. `Retr.OverrunExact` says exactly when: the
  buffer is full, or at the start of a mail has no more than the header's 21 octets. `Scenarios.OverrunHappens` is a run from
  the accepted connection to such a call: the output buffer is filled to the last octet by a first piece with one dot to
  stuff, and the client takes one octet, which makes no room because the buffer compacts only when it is empty.
- LIST with a number takes one number more than there are mails, and does not answer at all a number it refuses. Behind the
  last mail it reads a zeroed slot of the table, or leaves the table when that is full, or follows a null pointer when there
  is no mail and so no table (`Listings.ListOneExact`, `Listings.ListOfNothing`). `Scenarios.ListOfNothingHappens` is a run of
  four events: log in to an empty directory and send `LIST 1`.
- RETR of a mail whose file does not open closes the null file after its answer, and a maildrop loaded again after an error
  is read from a directory that may no longer open. Both are calls on a null pointer and set the flag too.
- A piece of a mail is read with one spare octet. A second stuffed dot in a full piece is dropped. `PiecewiseIsWhole` has
  the exact condition and `SecondDotIsLost` a family of mails that lose an octet even with an empty output buffer.
- DELE of a marked mail subtracts its size again (`DeleSizeExact`, and `SecondDeleUnderflows` for an input), and QUIT does not
  clear the drop size (`ReloadSizeExact`, `ReloadCountsTwice`). `Theorems.DropSize` has the value in every run.
- STAT cuts both its numbers to an `int` (`Listings.StatReads`).
- A malformed line is dropped up to its CRLF only as far as that has arrived; what arrives later is read as a line of its
  own. `Scenarios.LateLineEnd` has one stream that is heard as one line or as two, by how it was cut. While no line end was
  lost in this way, any input is cut at CRLF and nowhere else, in every run (`Cuts.InputIsCut`, `Cuts.OneCut`), and the same
  stream makes the same session (`Replies.SameStreamSameSession`).
- QUIT with an empty maildrop is answered as an unknown command (`HandleNext`).
- A write callback that leaves part of a line behind leaves the connection waiting for nothing at all (`Callbacks.StepEnds`).
- `selector_register` asks for a larger table only when `fd > fd_size`, so `fd == fd_size` would be written one slot past the
  end, and `selector_unregister_fd` and `selector_set_interest` do not ask at all whether there is a slot. `Register`,
  `Closing` and `SetInterest` of `Selector` say exactly when (`PastTheEnd`). The table of 1025 slots that
  `selector_new(1024)` builds has a slot for every valid descriptor, so there it never happens, and module `Servers` uses
  that table.
- A connection that cannot be registered has been counted already; `ConnectionsConserved` carries these as `refused`.

## Model

| member | source | states |
|---|---|---|
| Queues.ServeIsFifo | lib/buffer.c:24-122 | Through any sequence of produce, consume and compact calls, octets returned followed by unread octets are the octets accepted, in order. |
| Queues.OfferSplits | lib/buffer.c:94-102 | Offering a message in two parts accepts exactly what offering it at once accepts, also when it is cut. |
| Buffers.Buffer.constructor | lib/buffer.c:17-22 | A new buffer is the empty queue over its storage. |
| Buffers.Buffer.Reset | lib/buffer.c:10-15 | Both pointers return to the start; the queue is empty with full room. |
| Buffers.Buffer.CanWrite | lib/buffer.c:24-28 | True exactly when there is room after the write pointer. |
| Buffers.Buffer.CanRead | lib/buffer.c:38-42 | True exactly when something is unread. |
| Buffers.Buffer.WritePtr | lib/buffer.c:30-36 | Offers exactly the room after the write pointer. |
| Buffers.Buffer.ReadPtr | lib/buffer.c:44-50 | Offers exactly the unread octets. |
| Buffers.Buffer.WriteAdv | lib/buffer.c:52-60 | Octets copied behind the write pointer join the queue at its end; a negative count changes nothing. |
| Buffers.Buffer.ReadAdv | lib/buffer.c:62-76 | Octets leave the queue at its front, and an emptied queue is back at the start of its storage; a negative count changes nothing. |
| Buffers.Buffer.Read | lib/buffer.c:78-92 | The oldest octet, or 0 and no change when there is none. |
| Buffers.Buffer.Write | lib/buffer.c:94-102 | One octet is appended, or ignored when the buffer is full. |
| Buffers.Buffer.Compact | lib/buffer.c:104-122 | The unread octets, in order, move to the start of the storage, also when the pointers have just met. |
| Stuffing.StuffAppend | server/stm/pop3_stm.c:245-260 | Stuffing a mail in two pieces with the flag carried over is stuffing it at once. |
| Stuffing.StuffDoubles | server/stm/pop3_stm.c:245-260 | Every dot that follows CRLF in a stuffed body is followed by a second dot. |
| Stuffing.SelfFraming | server/stm/pop3_stm.c:235-290 | For every mail and start flag the first CRLF.CRLF of body and end marker is the end marker, also across the join. |
| Stuffing.UnstuffStuff | server/stm/pop3_stm.c:245-290 | A decoder with the same flag that halves opening dot runs recovers every mail. |
| Stuffing.DecodeInStep | server/stm/pop3_stm.c:245-290 | A one-dot decoder in step with the stuffer recovers the mail if and only if no line opens with two dots. |
| Stuffing.StandardDecodeExact | server/stm/pop3_stm.c:245-290 | The decoder of section 3 of RFC 1939 recovers the mail if and only if no CRLF is followed by two dots and the mail opens suitably for the start flag. |
| Stuffing.TwoDotsAreNotRecovered | server/stm/pop3_stm.c:249-257 | Concrete failure: the line ".." arrives as three dots at a standard client. |
| Retr.OverrunExact | server/stm/pop3_stm.c:225-272 | A call asks fread for more than it has memory for if and only if the free space is at most that of the header on the first call of a mail, and none on a later one. |
| Retr.CallCuts | server/stm/pop3_stm.c:225-294 | What one call queues is what it wants to queue, cut where the free space ends. |
| Retr.CallQueues | server/stm/pop3_stm.c:225-294 | A call never queues more than the free space, and queues all it wants exactly when header, octets read, dots added and end marker fit. |
| Retr.CallPeels | server/stm/pop3_stm.c:225-294 | What a call wants to queue is the front of what is outstanding, and the progress it leaves describes exactly the rest. |
| Retr.DriveQueues | server/stm/pop3_stm.c:198-295 | After any number of calls of which none overruns, what is queued plus what is still owed is the whole reply if and only if every piece fitted, and is shorter otherwise. |
| Retr.PiecewiseIsWhole | server/stm/pop3_stm.c:198-295 | A finished RETR of which no call overran queued header, one-pass stuffing of the file and CRLF.CRLF if and only if every piece fitted, however it was cut. |
| Retr.PiecewiseIsPrefix | server/stm/pop3_stm.c:198-295 | While every piece fits, what is queued is a prefix of the reply: header and stuffing of exactly the octets read, with the flag they leave. |
| Retr.OneDotAPieceFits | server/stm/pop3_stm.c:238-290 | Room for the header and one octet, and at most one extra dot in each piece, are enough for every piece to fit. |
| Retr.SecondDotIsLost | server/stm/pop3_stm.c:272-290 | Concrete failure: a mail that opens with CRLF and two dots and fills the first piece of an empty buffer loses an octet for good: queued and owed stay shorter than the reply, whatever calls follow. |
| Retr.CallProgress | server/stm/pop3_stm.c:225-294 | Exactly when a call that does not overrun finishes or shortens the rest: at least two free octets while something is left to read, room for the marker and one more otherwise. |
| Retr.DrainedCallsFinish | server/stm/pop3_stm.c:225-294 | With the output drained before each call, S octets take at most ceil(S / 4074) + 1 calls. |
| Retr.AccountStep | server/stm/pop3_stm.c:225-294 | One call keeps the account of a transfer: balanced while pieces fit, too short forever once one was cut, the flag always that of the octets read. |
| CommandParser.FeedCases | server/pop3.c:50-78 | The action and the destination state for every state and octet, spelled out from the table search. |
| CommandParser.FeedTracks | server/parser/pop3_parser.c:5-76 | One octet later the arrays still hold exactly the line so far; VALID is raised if and only if the octets are a valid line, INVALID only if they begin no valid line. |
| CommandParser.FeedInvalidExact | server/parser/pop3_parser.c:5-76 | INVALID is raised if and only if the octets so far are no valid line, begin none, and are not a name with an argument of 40 octets, which is noticed one octet later. |
| CommandParser.EndYieldsWords | server/parser/pop3_parser.c:5-76 | On VALID the command and argument arrays, read as C strings, hold the words of the line, and the argument length is positive exactly when there is an argument. |
| CommandParser.UntilEventSound | server/parser/pop3_parser.c:5-76 | From anywhere inside a line the first event is VALID only on a valid line, INVALID only on a hopeless one, and comes by octet 46. |
| CommandParser.UntilEventComplete | server/parser/pop3_parser.c:5-76 | A valid line is noticed at its last octet and not before. |
| CommandParser.FirstEventExact | server/pop3.c:50-78 | From any clean start the first event is VALID after n octets if and only if those are four octets other than SP and CR, optionally SP and 1 to 39 octets other than CR, and CRLF. |
| CommandParser.FirstInvalidExact | server/parser/pop3_parser.c:5-76 | From any clean start the first event is INVALID after n octets if and only if the line breaks at octet n and neither broke nor ended before. |
| CommandParser.FirstEventComes | server/parser/pop3_parser.c:5-76 | From any clean start one of the two events comes within 46 octets. |
| CommandParser.StartsClean | server/stm/pop3_stm.c:509-763 | A new parser is at a clean start, and so is any parser after clean_command and parser_reset, whatever made it fail. |
| CommandParser.ValidLinesArePrefixFree | server/pop3.c:50-60 | No valid line is a proper prefix of another. |
| CommandParser.UniqueSplit | server/stm/pop3_stm.c:559-600 | A stream of valid lines, or any prefix of it, splits into lines in one way only. |
| CommandParser.NoInvalidInValidStream | server/stm/pop3_stm.c:601-628 | While a stream of valid lines arrives, cut anywhere, the parser never says INVALID. |
| Parsers.Parser.constructor | lib/parser.c:32-43 | A new parser is in its start state with empty words. |
| Parsers.Parser.Feed | lib/parser.c:50-85 | Walking the transitions does what the first matching transition says, and every array write stays in bounds. |
| Parsers.Parser.Run | server/parser/pop3_parser.c:5-76 | Each action writes the arrays, lengths and event of the model's action. |
| Parsers.Parser.Reset | lib/parser.c:45-48 | Only the state goes back to the start; words and event stay. |
| Parsers.Parser.Clean | server/stm/pop3_stm.c:509-518 | Both words become empty C strings with length 0. |
| Sessions.LookupFinds | server/stm/pop3_stm.c:427-476 | The table search finds an entry for that name and state, or there is none. |
| Sessions.StrtolOfDecimal | server/stm/pop3_stm.c:159-169 | strtol reads back a printed number and leaves nothing over. |
| Sessions.StrtolReads | server/stm/pop3_stm.c:159-163 | strtol goes past white space, takes a sign, leading zeros and the digits, stops at the first other octet and leaves that over; the value saturates at the limits of a 64-bit long. |
| Sessions.StrtolFindsNothing | server/stm/pop3_stm.c:159-163 | What does not open with a number, after white space and a sign, is 0 to strtol and left over as a whole. |
| Sessions.MailNumberOfDecimal | server/stm/pop3_stm.c:297-302 | The numbers the server prints are understood by DELE and RETR (atoi of the decimal form is the number). |
| Sessions.MailNumberReads | server/stm/pop3_stm.c:297-302 | DELE and RETR take a number below 2^31 whatever follows it; a negative number is more than any count of mails, and what is no number asks for mail 0, which does not exist. |
| Sessions.LeavesTableExact | server/stm/pop3_stm.c:159-171 | Whatever the argument, LIST leaves the table if and only if strtol makes it the number behind the last mail, with nothing left over, and every slot is taken. |
| Commands.HandlerByName | server/stm/pop3_stm.c:427-476 | Whatever the state, the name and the argument, the search of the table finds exactly the handler of the word the name spells, in either case of each letter, if that word belongs to the state and has an argument exactly as it wants; and none otherwise. |
| Listings.LineReads | server/stm/pop3_stm.c:156-196 | A printed line is read back as the number and size it was printed from. |
| Listings.ListingExact | server/stm/pop3_stm.c:156-196 | A client that reads the reply to LIST finds exactly the unmarked mails, once each and in ascending order, with the numbers RETR and DELE take and their sizes. |
| Listings.ListOneExact | server/stm/pop3_stm.c:159-171 | LIST n leaves the mail table if and only if n is one beyond the last mail and the table is full or absent. Otherwise it is answered if and only if n is at most one beyond the last mail, with that number and the size of the mail, marked or not, or 0 behind the last one. |
| Listings.ListOfNothing | server/stm/pop3_stm.c:159-171 | With an empty maildrop LIST 1 leaves the table, which is not there. |
| Listings.SlotReads | server/stm/pop3_stm.c:159-168 | LIST takes a number with white space, + or zeros before it, up to one more than there are mails; it refuses 0, a negative number, a number with anything behind it, and what is no number. |
| Listings.StatReads | server/stm/pop3_stm.c:138-149 | A client that reads the reply to STAT finds the number of mails and the drop size if and only if both are below 2^31; otherwise it reads what is left of them as ints, or nothing. |
| Running.Reachable | server/pop3.c:134-242 | In every state any sequence of callbacks can lead to, the whole invariant of the connection holds. |
| Running.StepKeeps | server/pop3.c:187-242 | Each callback keeps the invariant: buffers, parser, transfer accounts and state machine. |
| Running.DefinedBefore | server/stm/pop3_stm.c:156-295 | The flag is never cleared: a moment of a run with it clear has only such moments before it. |
| Running.SendPieceAccount | server/stm/pop3_stm.c:225-294 | After a call of retr_handler in a connection, what has been accepted since the transfer began completes to the reply exactly if every piece fitted, and every piece fitted if no reply was ever cut. |
| Running.RunHandlerKeepsCore | server/stm/pop3_stm.c:544-590 | Every handler, started or resumed, keeps buffers, read indexes, transfer and deliveries in order. |
| Running.RunHandlerFrame | server/stm/pop3_stm.c:37-410 | Handlers leave parser, input and state machine alone, ask for QUIT only from a QUIT in AUTHORIZATION, and only a RETR in TRANSACTION leaves unfinished. |
| Running.LookupSuits | server/stm/pop3_stm.c:427-476 | A handler is found only in the states it is for, and retr_handler only under the name RETR in any case. |
| Running.LineRuns | server/stm/pop3_stm.c:570-600 | A complete line runs the handler of the word it spells, or ends in ERROR without a call; said of the parser loop without the command table. |
| Running.RetrIsFound | server/stm/pop3_stm.c:544-557 | In TRANSACTION a saved command that spells RETR in any case resumes retr_handler. |
| Running.TransferResumes | server/stm/pop3_stm.c:544-557 | While a transfer is under way a read re-enters RETR for the same mail and consumes no input. |
| Running.ReadLinesKeeps | server/stm/pop3_stm.c:559-630 | Whatever handler it runs, the parser loop ends with the parser in step with the input, or in ERROR with the command forgotten and the parser ready for a fresh line after its reset; only a RETR in TRANSACTION stays unfinished. |
| Running.StmWriteKeeps | lib/stm.c:66-76 | The write callback never closes the connection, so handle_write may go on using it. |
| Running.JumpAfterReadKeeps | lib/stm.c:37-52 | Changing state after a read keeps the invariant, for every next state read_command can return. |
| Framing.SkipLineStops | server/stm/pop3_stm.c:604-625 | Resynchronisation stops right after the first CRLF, counting the octet that was invalid. |
| Framing.ReadLinesTakesLine | server/stm/pop3_stm.c:559-629 | From anywhere inside a line with its CRLF in in_buff, the loop consumes exactly the octets through that CRLF, whether the line is valid or not. |
| Framing.OneCallOneLine | server/stm/pop3_stm.c:520-631 | With the parser at a line start and a CRLF in in_buff, one read_command consumes exactly one line; an invalid one is answered with ERROR, a valid one is recorded as it is. |
| Framing.AlwaysFramed | server/stm/pop3_stm.c:520-631 | In every run what has been consumed is the lines read plus a partial one, and a peer that sends only valid lines never meets INVALID. |
| Cuts.InputIsCut | server/stm/pop3_stm.c:520-631 | At every moment of a run that has not gone astray, while no line end was lost, what was consumed is complete lines, each ending at its first CRLF, and a rest without CRLF; what was heard is those lines, each one valid or garbage by itself. |
| Cuts.OneCut | server/stm/pop3_stm.c:601-628 | A stream can be cut into such lines and such a rest in one way only. |
| Cuts.SameStreamIsHeard | server/stm/pop3_stm.c:520-631 | Two connections that received and consumed the same octets, malformed lines included, have heard the same lines if neither lost a line end. |
| Cuts.WholeLinesAreNotLost | server/stm/pop3_stm.c:601-628 | A peer whose segments are whole lines, valid or not, never loses a line end, and the parser is at a line start after every event. |
| Chronicle.DeleSizeExact | server/stm/pop3_stm.c:297-318 | After DELE the drop size is still the size of the unmarked mails if and only if the mail was not marked before or is empty. |
| Chronicle.SecondDeleUnderflows | server/stm/pop3_stm.c:311-312 | Concrete failure: after a second DELE of a mail of one octet the drop size is 2^64 - 1. |
| Chronicle.ReloadSizeExact | server/stm/pop3_stm.c:357-395 | After a QUIT and a new login the drop size is right if and only if it was 0 at the QUIT. |
| Chronicle.ReloadCountsTwice | server/stm/pop3_stm.c:357-392 | Concrete failure: QUIT from a maildrop of one octet and a login that finds one octet make a drop size of two. |
| Chronicle.HandleNext | server/stm/pop3_stm.c:37-395 | TRANSACTION is entered exactly on a PASS with the password of the user named last, left for AUTHORIZATION exactly on QUIT with a maildrop, and for ERROR exactly on QUIT without one; QUIT is entered exactly on QUIT in AUTHORIZATION; files are removed exactly on QUIT in TRANSACTION. |
| Chronicle.HandlerExplained | server/stm/pop3_stm.c:37-410 | Every handler changes user, marks, sizes, mail table, login and removed files exactly as the history of handlers says. |
| Chronicle.LoadedAreFiles | server/stm/pop3_stm.c:701-736 | The scan uses each file once, in the order of readdir, until there are no more or the limit is reached; path and content of a mail are those of one and the same file. |
| Chronicle.LoadExplained | server/stm/pop3_stm.c:691-737 | Loading a maildrop starts without marks, and the first one with the sum of the sizes found. |
| Chronicle.AlwaysExplained | server/stm/pop3_stm.c:297-395 | In every reachable state the session fields, the removed files and the mails delivered are those read off the history. |
| Protocol.AlwaysFollows | server/stm/pop3_stm.c:520-631 | However the input was cut and the output taken, handlers called and session are those of an interpreter that only sees the lines, valid or not, the world each was read in, and the world each error returned to; between lines the world may change at will. |
| Protocol.EveryRunHasWorlds | server/stm/pop3_stm.c:520-737 | Every run whatever has such worlds, so the statements that ask for them leave no run out. |
| Protocol.LinesAsSent | server/stm/pop3_stm.c:559-600 | The valid lines of a peer are read as sent, in order, none skipped, and all of them once nothing is unread. |
| Protocol.SegmentationIndependence | server/stm/pop3_stm.c:520-631 | Two connections that have read the same valid lines, each line in the same world, have dispatched the same handlers with the same arguments and are in the same session once an error is answered, for all segmentations, partial sends and callback orders. |
| Lines.LineInAuthorization | server/stm/pop3_stm.c:37-136 | Line by line in AUTHORIZATION: USER sets or clears the user; PASS enters TRANSACTION, forgets the user, or changes nothing; QUIT asks to quit; CAPA changes nothing; any other line ends in ERROR and changes nothing. |
| Lines.LineInTransaction | server/stm/pop3_stm.c:138-410 | Line by line in TRANSACTION: DELE n marks mail n and no other; RSET leaves no mail marked; STAT, LIST, RETR, NOOP and CAPA leave the session as it is; QUIT removes the files of the marked mails and forgets the maildrop, or ends in ERROR without one; any other line ends in ERROR and changes nothing. |
| Lines.RepliesSay | server/stm/pop3_stm.c:37-410 | A reply opens with +OK if what was asked has happened, with -ERR if not, and ends a line; a LIST that refuses its number and a QUIT without a maildrop are not answered. |
| Lines.ServerSays | server/stm/pop3_stm.c:225-229 | The welcome and the header of RETR open with +OK, the answer to a malformed line with -ERR, and each ends a line. |
| Lines.DeleNamesMail | server/stm/pop3_stm.c:314-316 | The answer to DELE names the mail. |
| Lines.CapaLists | server/stm/pop3_stm.c:397-410 | The answer to CAPA lists USER and PIPELINING, a line each, and ends with a dot. |
| Replies.RunRetrAnswers | server/stm/pop3_stm.c:198-295 | A call of retr_handler, first or later, keeps the promise of the whole transmission of its mail and of the flag after it. |
| Replies.DispatchAnswers | server/stm/pop3_stm.c:544-600 | What one dispatch queues is the reply of the reference interpreter, or its beginning. |
| Replies.RepliesInOrder | server/stm/pop3_stm.c:520-651 | In a run in which no reply was cut, the wire and the accepted output are a prefix of the welcome followed by one reply for each line in order, and all of it when no mail or error is under way. |
| Replies.CutIsExact | server/stm/pop3_stm.c:18-35 | With no mail under way and no error to answer, what has been queued is the welcome and all replies if and only if no reply was ever cut, and is shorter otherwise. |
| Replies.SameRepliesToSameLines | server/stm/pop3_stm.c:520-651 | Two connections that have read the same valid lines, with nothing cut and nothing under way, have queued the same octets. |
| Replies.SameStreamSameSession | server/stm/pop3_stm.c:520-651 | Two connections that received and consumed the same octets, malformed lines included and cut anyhow, without a lost line end, called the same handlers and are in the same session, and have queued the same octets when nothing was cut and nothing is under way. |
| Theorems.DispatchGoesAstray | server/stm/pop3_stm.c:156-272 | A handler call goes astray if and only if it is RETR of an existing mail with a file that does not open, with a full output buffer, or with no more room than the header needs when the mail begins, or it is LIST of the number behind the last mail with a full or absent table. |
| Theorems.JumpGoesAstray | server/stm/pop3_stm.c:691-737 | A change of state goes astray if and only if it enters TRANSACTION without mails while the directory does not open. |
| Theorems.TableAlwaysFits | server/stm/pop3_stm.c:691-737 | In every run the mails fit into the table, which is absent exactly while there is none. |
| Scenarios.OverrunHappens | server/stm/pop3_stm.c:225-272 | Concrete failure: five callbacks from a new connection, none of the first four going astray, after which retr_handler has asked fread for more than it has memory for. |
| Scenarios.ListOfNothingHappens | server/stm/pop3_stm.c:159-171 | Concrete failure: four callbacks from a new connection that log in to an empty maildrop, none of the first three going astray, after which LIST 1 has followed a null pointer. |
| Scenarios.LateLineEnd | server/stm/pop3_stm.c:601-628 | Concrete failure: two runs receive the same octets, a malformed line and its CRLF; the one that gets them at once hears one line, the one that gets the CRLF later hears two. |
| Theorems.StepExtends | server/pop3.c:187-242 | No step ever takes back anything received, read, dispatched, queued, sent, delivered or removed. |
| Theorems.HistoryGrows | server/pop3.c:187-242 | Between any two moments of a run everything recorded only grows at its end. |
| Theorems.NothingIsLost | server/stm/pop3_stm.c:526-651 | In every run wire plus unread output is what was accepted, consumed plus unread input is what was received, and an empty in_buff offers all 4096 octets. |
| Theorems.DeliveriesAreExact | server/stm/pop3_stm.c:198-295 | In every run that has not gone astray each completed RETR queued exactly its reply if and only if its pieces fitted; the flag starts as ANY_CHARACTER and passes from mail to mail. |
| Theorems.TransferUnderWay | server/stm/pop3_stm.c:225-294 | In every run an unfinished transfer is in TRANSACTION with RETR and its argument saved, the queue holding header and stuffing of what was read; otherwise every read index is 0. |
| Theorems.NeverAborts | lib/stm.c:37-76 | No run reaches an abort of jump or of stm_quit_departure. |
| Theorems.ErrorComesBack | server/stm/pop3_stm.c:755-793 | ERROR remembers the state that read the bad line and returns to exactly that one, once its message fits. |
| Callbacks.StepEnds | server/pop3.c:187-227 | A callback ends an open connection if and only if it is the shutdown, a read at end of file in AUTHORIZATION or TRANSACTION (also the read a write goes on to), a write whose second send fails, or a write after a requested QUIT. Otherwise the connection waits to write if it has heard a line or has a transfer under way, and else as before, to read, or for nothing while part of a line is left. |
| Callbacks.EndsExactly | server/pop3.c:187-242 | In every run each callback ends the connection exactly in these cases. |
| Callbacks.QuitIsAnswered | server/pop3.c:214-217 | In every run an open connection that was asked to quit waits to write and for nothing else, and any write callback ends it. |
| Callbacks.StepMoves | server/pop3.c:187-227 | Exactly which octets one callback receives and sends: recv gets what there is room for when nothing is left to read, and each of the two sends takes what it takes from the front of the output, the welcome and the error message included. Handlers and scans are recorded with the world they ran in. |
| Theorems.QuitIsFinal | server/stm/pop3_stm.c:795-821 | Once a run is in QUIT it stays there, with the session frozen, for all later callbacks. |
| Theorems.FilesAndMarks | server/stm/pop3_stm.c:297-395 | In every run the files removed are those marked at a QUIT in TRANSACTION, and a mail is marked exactly when its latest event among DELE, RSET and loading is a DELE. |
| Theorems.MailsAreFiles | server/stm/pop3_stm.c:701-736 | In every run mail i of a maildrop has path and content of file i of the directory as readdir listed it at the latest scan; there are as many mails as files, up to the limit, and slots for the limit. |
| Theorems.ScansOnlyWhenEmpty | server/stm/pop3_stm.c:691-737 | In every run the mail directory is scanned only while there is no maildrop, so coming back from an error keeps mails and marks. |
| Theorems.DeliveriesAreFiles | server/stm/pop3_stm.c:198-295 | In every run each completed RETR delivered the content of the file that had its number in the maildrop. |
| Theorems.DeliveredIsRemoved | server/stm/pop3_stm.c:198-380 | The content a RETR has delivered for a mail and the path that the QUIT after it removes, if the mail is marked, are those of one and the same file. |
| Theorems.UserIsNamed | server/stm/pop3_stm.c:37-136 | In every run the user of the session is the argument of the latest USER if the table had that name then, and none otherwise or after a right PASS whose directory did not open. |
| Theorems.TransactionNeedsLogin | server/stm/pop3_stm.c:67-136 | No TRANSACTION handler runs without an earlier PASS with the password of the first entry for the user that the latest USER named, and no QUIT of that session since. |
| Theorems.DropSize | server/stm/pop3_stm.c:138-344 | In every run the drop size is, modulo 2^64, the size of the unmarked mails plus the excess: sizes left by earlier QUITs less sizes deleted again since the last RSET. It is right if and only if the excess is 0, which RSET restores and which holds until the first QUIT without a double DELE. |
| Theorems.OnlyQuitRemoves | server/stm/pop3_stm.c:357-395 | A history without a QUIT in TRANSACTION removes nothing further. |
| Theorems.RemovalNeedsQuit | server/stm/pop3_stm.c:357-395 | If different files are gone at two moments of a run, the QUIT of a client logged in at that point ran between them; nothing else removes a file. |
| Theorems.IoKeepsMarks | server/pop3.c:187-242 | Between two moments of a run without a handler or a directory scan all mails, marks and files stay. |
| Connections.StmInit | lib/stm.c:10-25 | It aborts exactly when some entry of the table is for another state or the initial state is outside the table. |
| Connections.TableInit | lib/stm.c:10-25 | The state table of the server does not make stm_init abort. |
| Connections.Connection.constructor | server/pop3.c:87-132 | A new connection is the initial state of the step machine, and its state table passes stm_init. |
| Connections.Connection.TryWrite | server/stm/pop3_stm.c:18-35 | As much of the message as fits is appended to the output. |
| Connections.Connection.UserCommand | server/stm/pop3_stm.c:37-65 | The user is set exactly when some table entry has that name, and cleared otherwise. |
| Connections.Connection.IsUser | server/stm/pop3_stm.c:46-58 | The loop finds exactly whether some entry has that name. |
| Connections.Connection.PassCommand | server/stm/pop3_stm.c:67-136 | No user name, a wrong password, a missing directory or TRANSACTION, decided by the first entry with the user name. |
| Connections.Connection.Authenticate | server/stm/pop3_stm.c:80-91 | The loop compares the argument with the password of the first entry with the user name. |
| Connections.Connection.StatCommand | server/stm/pop3_stm.c:138-149 | The reply holds the number of mails and the drop size, each printed as an int. |
| Connections.Connection.ListCommand | server/stm/pop3_stm.c:156-196 | With an argument one mail is looked up, without one all are listed; the session stays. |
| Connections.Connection.ListOneMail | server/stm/pop3_stm.c:159-173 | The answer for one number, with its bounds as coded, or no answer, or the flag when the slot it looks at is behind the table. |
| Connections.Connection.ListMails | server/stm/pop3_stm.c:175-195 | The lines queued one by one, cut where the buffer ends, are the listing of all unmarked mails as one message. |
| Connections.Connection.CopyChunk | server/stm/pop3_stm.c:245-260 | The copying loop queues the stuffing of the piece, moves the read index past it and leaves the flag it ends with. |
| Connections.Connection.PutStuffed | server/stm/pop3_stm.c:247-258 | One octet goes out with the dot before it that its flag asks for, and the flag moves on. |
| Connections.Connection.CopyPiece | server/stm/pop3_stm.c:235-294 | The last piece is followed by the end marker and resets the read index; any other leaves the transfer open. |
| Connections.Connection.SendMail | server/stm/pop3_stm.c:225-294 | The header if a mail begins, then a piece; the run ends with the flag set exactly when no room is left for the piece. |
| Connections.Connection.RetrCommand | server/stm/pop3_stm.c:198-295 | On an existing mail the handler is one step of the piecewise transfer, or overruns, or goes astray on a file that does not open; on any other number it answers an error. |
| Connections.Connection.DeleCommand | server/stm/pop3_stm.c:297-318 | The mail is marked and its size leaves the drop size modulo 2^64. |
| Connections.Connection.RsetCommand | server/stm/pop3_stm.c:330-344 | All marks are cleared and the drop size is the sum of all sizes. |
| Connections.Connection.ClearMarks | server/stm/pop3_stm.c:333-338 | The loop clears all marks and sums all sizes. |
| Connections.Connection.RemoveMarked | server/stm/pop3_stm.c:357-380 | The loop removes exactly the marked mails' files, in order. |
| Connections.Connection.QuitCommand | server/stm/pop3_stm.c:346-395 | AUTHORIZATION: requested_quit is set; TRANSACTION: marked files go and the maildrop is forgotten; otherwise ERROR with no change. |
| Connections.Connection.CapaCommand | server/stm/pop3_stm.c:397-410 | The capability list is queued and the state stays. |
| Connections.Connection.NoopCommand | server/stm/pop3_stm.c:320-328 | Only the reply and is_finished change. |
| Connections.Connection.CallHandler | server/stm/pop3_stm.c:551-582 | The call through the table entry does what the handler of that entry means, or goes astray exactly where that is said. |
| Connections.Connection.FindCommand | server/stm/pop3_stm.c:572-575 | The loop finds the first entry for the saved name and state. |
| Connections.Connection.FeedNext | server/stm/pop3_stm.c:564-565 | The oldest octet leaves the buffer and goes through the parser. |
| Connections.Connection.SkipToLineEnd | server/stm/pop3_stm.c:604-625 | The resynchronisation loop drops octets through the first LF after a CR, or all of them. |
| Connections.Connection.ParseBuffered | server/stm/pop3_stm.c:559-630 | The loop over in_buff does what the recursive reading of lines says. |
| Connections.Connection.RunLine | server/stm/pop3_stm.c:570-600 | A complete line runs the handler of its entry, or ends in ERROR for an unknown command or an unsuitable argument. |
| Connections.Connection.Recv | server/stm/pop3_stm.c:526-541 | What recv delivers, up to the room, joins the input; a failure changes nothing. |
| Connections.Connection.Fill | server/stm/pop3_stm.c:526-541 | recv is called only on an empty buffer, and a result of 0 is told apart. |
| Connections.Connection.ReadCommand | server/stm/pop3_stm.c:520-631 | Receive if in_buff is empty, QUIT at end of file, resume an unfinished command, or parse. |
| Connections.Connection.WriteCommand | server/stm/pop3_stm.c:633-651 | What send takes leaves the output at its front and the interest becomes read, only if there was output. |
| Connections.Connection.ServerReady | server/stm/pop3_stm.c:478-496 | The welcome message is queued whole or not at all. |
| Connections.Connection.AuthorizationWrite | server/stm/pop3_stm.c:671-689 | The welcome is queued once, then output is sent. |
| Connections.Connection.ErrorWrite | server/stm/pop3_stm.c:777-793 | The error message is queued whole and last_state asked for, or ERROR stays. |
| Connections.Connection.ScanDirectory | server/stm/pop3_stm.c:701-736 | The loop loads the first max_mails files, unmarked with read index 0, adds their sizes to the drop size, and allocates max_mails slots when it meets the first. |
| Connections.Connection.TransactionArrival | server/stm/pop3_stm.c:691-737 | The directory is read only when there is no maildrop yet, and the flag is set when it does not open. |
| Connections.Connection.OnArrival | server/stm/pop3_stm.c:655-804 | What entering each state does; entering QUIT closes the connection unless the client asked for it. |
| Connections.Connection.OnDeparture | server/stm/pop3_stm.c:659-809 | Leaving a state records it; leaving QUIT would abort. |
| Connections.Connection.HandleFirst | lib/stm.c:27-35 | The first event enters AUTHORIZATION. |
| Connections.Connection.Jump | lib/stm.c:37-52 | A change of state runs departure and arrival in this order, no change runs neither. |
| Connections.Connection.StmHandlerRead | lib/stm.c:54-64 | Read callback of the current state, then the jump it asks for. |
| Connections.Connection.StmHandlerWrite | lib/stm.c:66-76 | Write callback of the current state, then the jump it asks for. |
| Connections.Connection.OnReadable | server/pop3.c:187-194 | handle_read is one step of the machine and keeps the invariant. |
| Connections.Connection.FinishWrite | server/pop3.c:213-226 | Close after a requested quit, read on while input or a transfer is pending, or wait for input. |
| Connections.Connection.OnWritable | server/pop3.c:196-227 | handle_write, with its two sends and the read it may add, is one step of the machine and keeps the invariant. |
| Selectors.PowerAboveIsPower | lib/selector.c:167-187 | The least size above n is a power of two. |
| Selectors.NextCapacity | lib/selector.c:167-187 | The bit loop yields the least power of two above n, capped at 1024, plus one; it holds index n up to 1024. |
| Selectors.GrowthKeepsSets | lib/selector.c:189-204 | Unused slots at the end change neither the derived sets nor the maximum. |
| Selectors.SlotChangesSets | lib/selector.c:223-237 | Changing one slot changes the derived sets at that descriptor only, to what its interest says. |
| Selectors.Selector.constructor | lib/selector.c:288-305 | A new selector is valid and all its slots are unused. |
| Selectors.Selector.ItemsMaxFd | lib/selector.c:206-221 | Looking only at slots up to the old maximum yields the maximum of 0 and all used descriptors. |
| Selectors.Selector.UpdateSets | lib/selector.c:223-237 | The descriptor is in each set exactly if the item is used and interested. |
| Selectors.Selector.EnsureCapacity | lib/selector.c:239-286 | Success exactly if the index is in the table or the platform and memory allow it; old items kept, new ones unused, otherwise nothing changes. |
| Selectors.Selector.Register | lib/selector.c:332-375 | The four results with their exact conditions, and exactly when the slot behind the table is accessed instead; table, sets and maximum agree afterwards; every other slot is unchanged. |
| Selectors.Selector.Closing | lib/selector.c:377-402 | Which item the close callback is about to run for: the used slot of a valid descriptor, and none otherwise; exactly when the slot behind the table is accessed instead; nothing changes. |
| Selectors.Selector.Forget | lib/selector.c:404-411 | The slot becomes unused, the others stay, and sets and maximum agree again. |
| Selectors.Selector.SetInterest | lib/selector.c:413-430 | Only that slot's interest changes, and the sets follow; an unused slot is an error and changes nothing; exactly when the slot behind the table is accessed instead. |
| Servers.ClientKeeps | server/pop3.c:187-227 | The selector calls back a client only when it is allocated, open and interested, and everything is consistent afterwards. |
| Servers.UnregisterKeeps | lib/selector.c:377-411 | Unregistering closes the owner once and leaves table and connections describing each other. |
| Servers.AcceptKeeps | server/pop3.c:134-185 | Accepting, also when it fails half way, leaves table, connections and counters in agreement. |
| Servers.AcceptRegisters | server/pop3.c:134-185 | A connection that accept returns and that can be set up is counted; if its descriptor is in range and its slot free, exactly one more connection is allocated, with the next number, in its initial state and waiting to write, and else it is refused; every other slot and connection stays. |
| Servers.ClientSteps | server/pop3.c:187-242 | A callback of a client is one step of that connection; the slot takes the interest it has left, or is freed and the connection closed; every other slot and connection stays. |
| Servers.QuitFreesTheSlot | server/pop3.c:214-217 | A client that was asked to quit waits to write, and its next write callback frees the slot and counts it out. |
| Servers.RegistrationActs | lib/selector.c:332-411 | Listening takes a free slot and waits to read; unregistering frees a slot and closes exactly the connection that has it; every other slot and connection stays. |
| Servers.HubStepKeeps | lib/selector.c:445-481 | Each callback of any descriptor keeps table, connections and counters in agreement. |
| Servers.HubAlwaysOk | lib/selector.c:445-481 | At every moment of every run table and connections describe each other and each live connection is open and the outcome of its own callbacks. |
| Servers.ConnectionsConserved | server/pop3.c:134-242 | At every moment of every run in which no connection has gone astray, concurrent_connections is the number of registered clients plus those refused, every registered one is live or was closed exactly once, each live one is open and reachable by its own callbacks alone, and no callback ever ran for a connection that was gone. |
| Servers.CountClosed | server/pop3.c:229-242 | Registered connections are the live ones and the closed ones, each counted once. |
| Servers.ReadKeepsOwner | lib/selector.c:455-478 | After a read callback its slot is blank or still belongs to the same connection, so the key kept for the write callback is right. |
| Servers.IterationCallsReady | lib/selector.c:449-481 | One iteration calls back every ready descriptor, at most once each way, in ascending order and reading first, and nothing else. |
| Servers.Server.constructor | lib/selector.c:288-305 | The server starts with an empty table of 1025 slots. |
| Servers.Server.Accept | server/pop3.c:134-185 | A connection is counted before it is registered, and allocated exactly if the registration succeeds. |
| Servers.Server.CloseClient | server/pop3.c:229-242 | The connection goes away and the counter drops by one. |
| Servers.Server.Unregister | lib/selector.c:377-411 | Close callback first, with the table still whole, then the slot is blanked; table, counters and allocated connections end as one step of the server model. |
| Servers.Server.Update | lib/selector.c:413-443 | The slot takes the interest a callback left, or is unregistered when the callback closed the connection. |
| Servers.Server.DispatchRead | lib/selector.c:455-468 | A passive socket accepts, a client runs handle_read. |
| Servers.Server.DispatchWrite | lib/selector.c:469-478 | Only clients are ever called for writing. |
| Servers.Server.HandleIteration | lib/selector.c:449-481 | One iteration is the sequence of read and write callbacks of the ready descriptors in ascending order, also when callbacks open and close connections. |
| Servers.Server.Destroy | lib/selector.c:307-330 | Every client left is closed and the counter falls to the refused connections. |
| Loggers.MakeSpaceKeeps | lib/logger/logger.c:61-89 | Pending octets are unchanged, start + length < capacity survives, the capacity stays a multiple of 4096 between 4096 and 4 MiB and never shrinks. |
| Loggers.MakeSpaceExact | lib/logger/logger.c:61-89 | Exactly when room for len octets results. |
| Loggers.PrePrintLeavesRoom | lib/logger/logger.c:225-227 | With memory and less than 4 MiB pending, 512 octets are free, also after a print that fails. |
| Loggers.LoggerConserves | lib/logger/logger.c:95-255 | Over any prints and partial or failed writes, octets kept are the file followed by what is pending, the selector waits for the file exactly while something is pending, maxlen is at least 1, and an emptied buffer starts over. |
| Loggers.LinesReachTheFile | lib/logger/logger.c:235-255 | The file and what is pending are all lines as they were printed, in order, if and only if each found room when it was printed, and shorter otherwise. |
| Loggers.WritesReachTheFile | lib/logger/logger.c:95-105 | How many octets each operation brings to the end of the file: what write() took of what was pending. |
| Loggers.Logger.constructor | lib/logger/logger.c:183-195 | The buffer starts empty with the minimum capacity. |
| Loggers.Logger.MoveToStart | lib/logger/logger.c:67-68 | The move over overlapping storage keeps the pending octets. |
| Loggers.Logger.Grow | lib/logger/logger.c:76-86 | Copying to a larger buffer keeps the pending octets, now at its start. |
| Loggers.Logger.MakeBufferSpace | lib/logger/logger.c:61-89 | Move, growth with copy, or failed growth, on the array. |
| Loggers.Logger.MaxLength | lib/logger/logger.c:229-232 | maxlen is the room behind the pending octets and at least 1. |
| Loggers.Logger.TryFlush | lib/logger/logger.c:95-105 | What write takes moves from the front of the pending octets to the end of the file, and the interest says whether anything is left. |
| Loggers.Logger.PostPrint | lib/logger/logger.c:235-255 | The line, cut to maxlen - 1, is kept behind the pending octets and a write is tried; a failed print changes nothing. |
| Loggers.Logger.LogLine | lib/logger/logger.h:83-96 | The macro is one operation of the logger model, whatever snprintf and write return. |

## Left out

- Socket setup, signals, `main`, argument parsing, the admin client and `sockaddr_to_human`: calls into the system.
- Management commands and the user table of `server/managment/managment.c`: the table, the mail limit and the directory are inputs of each event.
- `transferred_bytes`, log lines and the building of maildir path strings.
- Liveness of the interest protocol: a connection can be left with no interest and a partial line, or waiting to read with unsent output. Safety and order are proved, progress of the selector is not.
- Protocol.SegmentationIndependence: speaks of valid lines only; for other input `Replies.SameStreamSameSession` asks that no line end was lost, without which it is false (`Scenarios.LateLineEnd`).
- Connections.Connection.PassCommand: the `logged_in` flag, the user name of the session and its maildir path are not modelled; no handler reads the flag.
- Connections.Connection.QuitCommand: clearing those is not modelled either.
- Connections.Connection.RetrCommand: a mail file that opens has its recorded size, the `(int)` cast of the count that `fread` returns is exact, and what the call on a null file does is not modelled, only when it happens.
- Retr.DriveQueues: nothing is said about a transfer after a call that has overrun, whose behaviour C does not define.
- Connections.Connection.ScanDirectory: `stat` never fails, and the listing is without "." and "..", which the loop skips.
- Connections.Connection: the interest and the close are fields of the connection; module `Servers` ties them to the selector, on connections as values of the step machine.
- Selectors.Selector.constructor: there is enough memory for the table.
- Selectors.Selector.Register: what the access behind the table does when `fd == fd_size` is not modelled, only when it happens.
- Selectors.Selector.Closing: the same holds of a valid descriptor behind the table.
- Selectors.Selector.SetInterest: the same.
- Failing allocations of a connection (user name, mail table): there is enough memory for them.
- Servers.Server: the descriptors of the log file and of the management protocol are not in the table.
- Worker-thread notifications of the selector, which this server does not use.
- Loggers.Logger.constructor: there is enough memory for the first buffer.
- Loggers.Logger.PostPrint: the log file is open and there is no stream, so the branches for a stream or without a file are not modelled.
- The log levels and the close handler of the logger, which writes from the base of the buffer.
- The character classes of `lib/parser.c`: no transition of the server tests them.
