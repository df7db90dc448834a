/** What a client reads in the replies to STAT and LIST (sections 3 and 5 of RFC 1939): a message number and a size, as
    decimal numbers. */
module Listings {
  import opened Bytes
  import opened Sessions

  datatype Entry = Entry(number: nat, size: nat)

  /** The client: lines of number, SP, size, CRLF, up to whatever is none. */
  function ReadEntries(s: seq<Byte>): seq<Entry>
    decreases |s|
  {
    var afterNumber := AfterDigits(s);
    if afterNumber == [] || afterNumber[0] != SP then []
    else
      var size := afterNumber[1..];
      var end := AfterDigits(size);
      if |end| < 2 || end[0] != CR || end[1] != LF then []
      else [Entry(Digits(s, 0), Digits(size, 0))] + ReadEntries(end[2..])
  }

  function Line(number: nat, size: nat): seq<Byte> {
    Decimal(number) + [SP] + Decimal(size) + [CR, LF]
  }

  /** A line is read back as the two numbers it was printed from. */
  lemma {:induction false} LineReads(number: nat, size: nat, rest: seq<Byte>)
    ensures ReadEntries(Line(number, size) + rest) == [Entry(number, size)] + ReadEntries(rest)
  {
    hide Digits, Decimal;
    var end := [CR, LF] + rest;
    var tail := Decimal(size) + end;
    assert Line(number, size) + rest == Decimal(number) + ([SP] + tail);
    DigitsStop(Decimal(number), [SP] + tail, 0);
    DigitsOfDecimal(number);
    assert ([SP] + tail)[1..] == tail;
    DigitsStop(Decimal(size), end, 0);
    DigitsOfDecimal(size);
    assert end[2..] == rest;
  }

  /** The mails a listing is about. */
  function Listed(mails: seq<Mail>): seq<Entry> {
    if mails == [] then []
    else
      var last := mails[|mails| - 1];
      Listed(mails[..|mails| - 1]) + (if last.deleted then [] else [Entry(|mails|, |last.content|)])
  }

  lemma {:induction false} LinesRead(mails: seq<Mail>, rest: seq<Byte>)
    ensures ReadEntries(ListLines(mails) + rest) == Listed(mails) + ReadEntries(rest)
    decreases |mails|
  {
    hide Decimal, ReadEntries;
    if mails == [] {
      assert ListLines(mails) + rest == rest;
    } else {
      var n, last := |mails|, mails[|mails| - 1];
      var line := if last.deleted then [] else Line(n, |last.content|);
      assert ListLines(mails) == ListLines(mails[..n - 1]) + line;
      assert ListLines(mails) + rest == ListLines(mails[..n - 1]) + (line + rest);
      LinesRead(mails[..n - 1], line + rest);
      LineReads(n, |last.content|, rest);
      assert last.deleted ==> line + rest == rest;
    }
  }

  lemma {:induction false} ListedExact(mails: seq<Mail>, e: Entry)
    ensures e in Listed(mails)
            <==> 1 <= e.number <= |mails| && !mails[e.number - 1].deleted && e.size == |mails[e.number - 1].content|
  {
    if mails != [] {
      ListedExact(mails[..|mails| - 1], e);
    }
  }

  predicate Ascending(l: seq<Entry>) {
    forall i, j :: 0 <= i < j < |l| ==> l[i].number < l[j].number
  }

  lemma {:induction false} ListedAscends(mails: seq<Mail>)
    ensures Ascending(Listed(mails))
  {
    if mails != [] {
      var before, l := Listed(mails[..|mails| - 1]), Listed(mails);
      ListedAscends(mails[..|mails| - 1]);
      forall i, j | 0 <= i < j < |l|
        ensures l[i].number < l[j].number
      {
        assert l[i] == before[i];
        ListedExact(mails[..|mails| - 1], before[i]);
      }
    }
  }

  /** A client that reads the reply to LIST finds exactly the mails that are not marked, once each and in order, under
      the numbers RETR and DELE take, with their sizes. */
  lemma ListingExact(argument: seq<Byte>, s: Session)
    ensures var reply := HandleList(false, argument, s).reply;
            |reply| >= 5 &&
            var entries := ReadEntries(reply[5..]);
            && (forall e :: e in entries
                  <==> 1 <= e.number <= |s.mails| && !s.mails[e.number - 1].deleted
                       && e.size == |s.mails[e.number - 1].content|)
            && Ascending(entries)
  {
    hide ListLines, ReadEntries, Listed;
    var ok, end := Ascii("+OK\r\n"), Ascii(".\r\n");
    var reply := HandleList(false, argument, s).reply;
    assert reply == ok + (ListLines(s.mails) + end);
    assert reply[5..] == ListLines(s.mails) + end;
    LinesRead(s.mails, end);
    EndIsNoEntry();
    assert Listed(s.mails) + [] == Listed(s.mails);
    ListedAscends(s.mails);
    forall e
      ensures e in Listed(s.mails)
              <==> 1 <= e.number <= |s.mails| && !s.mails[e.number - 1].deleted
                   && e.size == |s.mails[e.number - 1].content|
    {
      ListedExact(s.mails, e);
    }
  }

  lemma EndIsNoEntry()
    ensures ReadEntries(Ascii(".\r\n")) == [] && ReadEntries([]) == []
  {
    assert Ascii(".\r\n")[0] == DOT;
  }

  lemma ListEndIs()
    ensures Ascii(" \r\n") == [SP, CR, LF]
  {
  }

  lemma {:induction false} SlotOfDecimal(n: nat, s: Session)
    requires n < 0x8000_0000_0000_0000 && |s.mails| < SIZE_T - 1
    ensures ListedSlot(Decimal(n), s) == if 1 <= n <= |s.mails| + 1 then Some(n - 1) else None
  {
    hide Strtol, Decimal;
    StrtolOfDecimal(n);
  }

  /** LIST takes a number with white space, + or zeros before it. It refuses a negative one, one with anything behind
      it, and what is no number. */
  lemma {:induction false} SlotReads(
    spaces: seq<Byte>, sign: seq<Byte>, zeros: seq<Byte>, n: nat, rest: seq<Byte>, s: Session)
    requires Spaces(spaces) && Sign(sign) && OnlyZeros(zeros) && (rest != [] ==> !(48 <= rest[0] <= 57))
    requires n < 0x8000_0000_0000_0000 && |s.mails| < 0x7fff_ffff_ffff_fffe
    ensures ListedSlot(spaces + (sign + (zeros + Decimal(n) + rest)), s)
            == if rest == [] && sign != [45] && 1 <= n <= |s.mails| + 1 then Some(n - 1) else None
    ensures (sign == [] && rest != [] ==> !Spaces([rest[0]]) && !Sign([rest[0]])) ==>
              ListedSlot(spaces + (sign + rest), s) == None
  {
    hide Strtol, Decimal, Spaces, Sign, OnlyZeros;
    StrtolReads(spaces, sign, zeros, n, rest);
    if sign == [] && rest != [] ==> !Spaces([rest[0]]) && !Sign([rest[0]]) {
      StrtolFindsNothing(spaces, sign, rest);
    }
  }

  /** LIST of one mail. The numbers accepted are those of the mails and one more. That one leaves the table if and only
      if the table is full; otherwise the client reads 0 for it, and for a mail its size, also when it is marked. A
      number that is not accepted is not answered. */
  lemma ListOneExact(n: nat, s: Session)
    requires n < 0x8000_0000_0000_0000 && |s.mails| < SIZE_T - 1 && TableFits(s)
    ensures LeavesTable(Decimal(n), s) <==> n == |s.mails| + 1 && |s.mails| == s.slots
    ensures !LeavesTable(Decimal(n), s) ==>
              var reply := HandleList(true, Decimal(n), s).reply;
              && (reply != [] <==> 1 <= n <= |s.mails| + 1)
              && (reply != [] ==>
                    var size := if n <= |s.mails| then |s.mails[n - 1].content| else 0;
                    |reply| >= 4 && reply[4..] == Decimal(n) + [SP] + Decimal(size) + [SP, CR, LF])
  {
    hide ListedSlot, Decimal, Ascii;
    SlotOfDecimal(n, s);
    ListEndIs();
    if 1 <= n <= |s.mails| + 1 {
      var size := if n <= |s.mails| then |s.mails[n - 1].content| else 0;
      var ok, rest := Ascii("+OK "), Decimal(n) + [SP] + Decimal(size) + Ascii(" \r\n");
      assert ok + Decimal(n) + [SP] + Decimal(size) + Ascii(" \r\n") == ok + rest;
      assert (ok + rest)[4..] == rest;
    }
  }

  /** LIST 1 with no mail leaves the table, because there is none. */
  lemma ListOfNothing(s: Session)
    requires s.mails == [] && TableFits(s)
    ensures LeavesTable(Decimal(1), s)
  {
    hide LeavesTable, Decimal;
    ListOneExact(1, s);
  }

  lemma PrintIntReads(n: nat, rest: seq<Byte>)
    requires rest != [] && !IsDigit(rest[0])
    ensures var printed := PrintInt(n) + rest;
            if ToInt(n) >= 0 then Digits(printed, 0) == ToInt(n) && AfterDigits(printed) == rest
            else AfterDigits(printed) == printed && printed[0] != SP && printed[0] != CR
  {
    hide Decimal, Digits;
    if ToInt(n) >= 0 {
      DigitsStop(Decimal(ToInt(n)), rest, 0);
      DigitsOfDecimal(ToInt(n));
    }
  }

  lemma ToIntExact(n: nat)
    ensures ToInt(n) == n <==> n < 0x8000_0000
  {
  }

  /** A client that reads the reply to STAT finds the number of mails and the drop size if and only if both, cut to 32
      bits, are still the same; beyond that it reads other numbers, or none. */
  lemma StatReads(s: Session)
    ensures var reply := HandleStat(s).reply;
            |reply| >= 4 &&
            var number, size := ToInt(|s.mails|), ToInt(s.maildirSize);
            && ReadEntries(reply[4..]) == (if number >= 0 && size >= 0 then [Entry(number, size)] else [])
            && (ReadEntries(reply[4..]) == [Entry(|s.mails|, s.maildirSize)]
                <==> |s.mails| < 0x8000_0000 && s.maildirSize < 0x8000_0000)
  {
    hide Decimal, Digits, PrintInt, ToInt, AfterDigits;
    var number, size := |s.mails|, s.maildirSize;
    var ok, reply, end := Ascii("+OK "), HandleStat(s).reply, [CR, LF];
    var tail := PrintInt(size) + end;
    assert reply == ok + (PrintInt(number) + ([SP] + tail));
    assert reply[4..] == PrintInt(number) + ([SP] + tail);
    assert ([SP] + tail)[1..] == tail && end[2..] == [];
    PrintIntReads(number, [SP] + tail);
    PrintIntReads(size, end);
    ToIntExact(number);
    ToIntExact(size);
    EndIsNoEntry();
  }
}
