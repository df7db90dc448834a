/** Which handler a line runs, said octet by octet and without the command table of server/stm/pop3_stm.c. */
module Commands {
  import opened Bytes
  import opened Sessions

  /** name is this word of upper-case letters, each in either case. */
  predicate Spells(name: seq<Byte>, word: seq<Byte>) {
    |name| == |word| && forall i :: 0 <= i < |word| ==> name[i] == word[i] || name[i] as int == word[i] as int + 32
  }

  predicate SpellsUser(name: seq<Byte>) { Spells(name, [85, 83, 69, 82]) }
  predicate SpellsPass(name: seq<Byte>) { Spells(name, [80, 65, 83, 83]) }
  predicate SpellsQuit(name: seq<Byte>) { Spells(name, [81, 85, 73, 84]) }
  predicate SpellsCapa(name: seq<Byte>) { Spells(name, [67, 65, 80, 65]) }
  predicate SpellsStat(name: seq<Byte>) { Spells(name, [83, 84, 65, 84]) }
  predicate SpellsList(name: seq<Byte>) { Spells(name, [76, 73, 83, 84]) }
  predicate SpellsRetr(name: seq<Byte>) { Spells(name, [82, 69, 84, 82]) }
  predicate SpellsDele(name: seq<Byte>) { Spells(name, [68, 69, 76, 69]) }
  predicate SpellsNoop(name: seq<Byte>) { Spells(name, [78, 79, 79, 80]) }
  predicate SpellsRset(name: seq<Byte>) { Spells(name, [82, 83, 69, 84]) }

  function When(fits: bool, handler: Handler): Option<Handler> {
    if fits then Some(handler) else None
  }

  /** What a name means in a state, with an argument or without: the handler, or an error. */
  function Meant(state: StmState, name: seq<Byte>, hasArgument: bool): Option<Handler> {
    match state
    case Authorization =>
      if SpellsUser(name) then When(hasArgument, UserHandler)
      else if SpellsPass(name) then When(hasArgument, PassHandler)
      else if SpellsQuit(name) then When(!hasArgument, QuitHandler)
      else if SpellsCapa(name) then When(!hasArgument, CapaHandler)
      else None
    case Transaction =>
      if SpellsStat(name) then When(!hasArgument, StatHandler)
      else if SpellsList(name) then Some(ListHandler)
      else if SpellsRetr(name) then When(hasArgument, RetrHandler)
      else if SpellsDele(name) then When(hasArgument, DeleHandler)
      else if SpellsNoop(name) then When(!hasArgument, NoopHandler)
      else if SpellsRset(name) then When(!hasArgument, RsetHandler)
      else if SpellsQuit(name) then When(!hasArgument, QuitHandler)
      else if SpellsCapa(name) then When(!hasArgument, CapaHandler)
      else None
    case _ => None
  }

  // ---- The table says the same ----

  /** strcasecmp with a word of upper-case letters. */
  lemma IsSpelled(text: string, word: seq<Byte>, name: seq<Byte>)
    requires |text| == |word| && forall i :: 0 <= i < |word| ==> 65 <= word[i] <= 90 && text[i] as int == word[i] as int
    ensures SameIgnoringCase(Ascii(text), name) <==> Spells(name, word)
  {
    assert Ascii(text) == word;
    if SameIgnoringCase(word, name) {
      forall i | 0 <= i < |word|
        ensures name[i] == word[i] || name[i] as int == word[i] as int + 32
      {
        assert ToLower(word[i]) == ToLower(name[i]);
      }
    }
  }

  /** An entry of the table with the word it is for. */
  predicate Entry(j: nat, state: StmState, word: string, arguments: Arguments, handler: Handler) {
    j < |COMMANDS| && COMMANDS[j] == Command(state, Ascii(word), arguments, handler)
  }

  lemma EntriesAuthorization()
    ensures |COMMANDS| == 12
    ensures Entry(0, Authorization, "USER", Required, UserHandler)
    ensures Entry(1, Authorization, "PASS", Required, PassHandler)
    ensures Entry(2, Authorization, "QUIT", NoArguments, QuitHandler)
    ensures Entry(3, Authorization, "CAPA", NoArguments, CapaHandler)
  {
    hide Ascii;
  }

  lemma EntriesTransaction()
    ensures |COMMANDS| == 12
    ensures Entry(4, Transaction, "STAT", NoArguments, StatHandler)
    ensures Entry(5, Transaction, "LIST", Optional, ListHandler)
    ensures Entry(6, Transaction, "RETR", Required, RetrHandler)
    ensures Entry(7, Transaction, "DELE", Required, DeleHandler)
    ensures Entry(8, Transaction, "NOOP", NoArguments, NoopHandler)
    ensures Entry(9, Transaction, "RSET", NoArguments, RsetHandler)
    ensures Entry(10, Transaction, "QUIT", NoArguments, QuitHandler)
    ensures Entry(11, Transaction, "CAPA", NoArguments, CapaHandler)
  {
    hide Ascii;
  }

  /** The handler of the entry found, if its argument is as the entry wants it. */
  function Chosen(found: Option<Command>, hasArgument: bool): Option<Handler> {
    if found.Some? && Accepts(found.value.arguments, hasArgument) then Some(found.value.handler) else None
  }

  /** What the search finds from entry j on. */
  function ChosenFrom(j: nat, name: seq<Byte>, state: StmState, hasArgument: bool): Option<Handler>
    requires j <= |COMMANDS|
  {
    Chosen(LookupIn(COMMANDS[j..], name, state), hasArgument)
  }

  lemma SearchStep(j: nat, name: seq<Byte>, state: StmState, hasArgument: bool,
                   entryState: StmState, word: string, arguments: Arguments, handler: Handler)
    requires Entry(j, entryState, word, arguments, handler)
    ensures ChosenFrom(j, name, state, hasArgument)
            == if SameIgnoringCase(Ascii(word), name) && state == entryState then
                 When(Accepts(arguments, hasArgument), handler)
               else ChosenFrom(j + 1, name, state, hasArgument)
  {
    hide COMMANDS, LookupIn, SameIgnoringCase, Ascii;
    LookupFrom(j, name, state);
  }

  lemma SearchEnds(name: seq<Byte>, state: StmState, hasArgument: bool)
    ensures |COMMANDS| == 12 && ChosenFrom(12, name, state, hasArgument) == None
    ensures ChosenFrom(0, name, state, hasArgument) == Chosen(Lookup(name, state), hasArgument)
  {
    hide Ascii, SameIgnoringCase;
    EntriesAuthorization();
    LookupFrom(12, name, state);
    LookupFrom(0, name, state);
  }

  /** The search over the entries of AUTHORIZATION. */
  lemma SearchAuthorization(name: seq<Byte>, state: StmState, hasArgument: bool)
    ensures |COMMANDS| == 12
    ensures ChosenFrom(0, name, state, hasArgument)
            == if state == Authorization && SpellsUser(name) then When(hasArgument, UserHandler)
               else if state == Authorization && SpellsPass(name) then When(hasArgument, PassHandler)
               else if state == Authorization && SpellsQuit(name) then When(!hasArgument, QuitHandler)
               else if state == Authorization && SpellsCapa(name) then When(!hasArgument, CapaHandler)
               else ChosenFrom(4, name, state, hasArgument)
  {
    hide COMMANDS, SameIgnoringCase, Ascii, Spells, ChosenFrom, Entry;
    EntriesAuthorization();
    IsSpelled("USER", [85, 83, 69, 82], name);
    SearchStep(0, name, state, hasArgument, Authorization, "USER", Required, UserHandler);
    IsSpelled("PASS", [80, 65, 83, 83], name);
    SearchStep(1, name, state, hasArgument, Authorization, "PASS", Required, PassHandler);
    IsSpelled("QUIT", [81, 85, 73, 84], name);
    SearchStep(2, name, state, hasArgument, Authorization, "QUIT", NoArguments, QuitHandler);
    IsSpelled("CAPA", [67, 65, 80, 65], name);
    SearchStep(3, name, state, hasArgument, Authorization, "CAPA", NoArguments, CapaHandler);
  }

  lemma SearchTransactionFirstHalf(name: seq<Byte>, state: StmState, hasArgument: bool)
    ensures |COMMANDS| == 12
    ensures ChosenFrom(4, name, state, hasArgument)
            == if state == Transaction && SpellsStat(name) then When(!hasArgument, StatHandler)
               else if state == Transaction && SpellsList(name) then Some(ListHandler)
               else if state == Transaction && SpellsRetr(name) then When(hasArgument, RetrHandler)
               else if state == Transaction && SpellsDele(name) then When(hasArgument, DeleHandler)
               else ChosenFrom(8, name, state, hasArgument)
  {
    hide COMMANDS, SameIgnoringCase, Ascii, Spells, ChosenFrom, Entry;
    EntriesTransaction();
    IsSpelled("STAT", [83, 84, 65, 84], name);
    SearchStep(4, name, state, hasArgument, Transaction, "STAT", NoArguments, StatHandler);
    IsSpelled("LIST", [76, 73, 83, 84], name);
    SearchStep(5, name, state, hasArgument, Transaction, "LIST", Optional, ListHandler);
    IsSpelled("RETR", [82, 69, 84, 82], name);
    SearchStep(6, name, state, hasArgument, Transaction, "RETR", Required, RetrHandler);
    IsSpelled("DELE", [68, 69, 76, 69], name);
    SearchStep(7, name, state, hasArgument, Transaction, "DELE", Required, DeleHandler);
  }

  lemma SearchTransactionSecondHalf(name: seq<Byte>, state: StmState, hasArgument: bool)
    ensures |COMMANDS| == 12
    ensures ChosenFrom(8, name, state, hasArgument)
            == if state == Transaction && SpellsNoop(name) then When(!hasArgument, NoopHandler)
               else if state == Transaction && SpellsRset(name) then When(!hasArgument, RsetHandler)
               else if state == Transaction && SpellsQuit(name) then When(!hasArgument, QuitHandler)
               else if state == Transaction && SpellsCapa(name) then When(!hasArgument, CapaHandler)
               else ChosenFrom(12, name, state, hasArgument)
  {
    hide COMMANDS, SameIgnoringCase, Ascii, Spells, ChosenFrom, Entry;
    EntriesTransaction();
    IsSpelled("NOOP", [78, 79, 79, 80], name);
    SearchStep(8, name, state, hasArgument, Transaction, "NOOP", NoArguments, NoopHandler);
    IsSpelled("RSET", [82, 83, 69, 84], name);
    SearchStep(9, name, state, hasArgument, Transaction, "RSET", NoArguments, RsetHandler);
    IsSpelled("QUIT", [81, 85, 73, 84], name);
    SearchStep(10, name, state, hasArgument, Transaction, "QUIT", NoArguments, QuitHandler);
    IsSpelled("CAPA", [67, 65, 80, 65], name);
    SearchStep(11, name, state, hasArgument, Transaction, "CAPA", NoArguments, CapaHandler);
  }

  /** A name in a state runs exactly the handler of the word it spells, if it has an argument exactly when that
      word wants one. */
  lemma HandlerByName(state: StmState, name: seq<Byte>, hasArgument: bool)
    ensures Chosen(Lookup(name, state), hasArgument) == Meant(state, name, hasArgument)
  {
    hide COMMANDS, ChosenFrom, Chosen, Lookup, Spells;
    SearchEnds(name, state, hasArgument);
    SearchAuthorization(name, state, hasArgument);
    SearchTransactionFirstHalf(name, state, hasArgument);
    SearchTransactionSecondHalf(name, state, hasArgument);
  }
}
