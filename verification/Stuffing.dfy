/** Dot-stuffing as retr_handler performs it: one pass over the octets with a flag that remembers how the
    octets before ended. */
module Stuffing {
  import opened Bytes

  datatype Flag = AnyCharacter | SawCr | SawLf

  function NextFlag(f: Flag, b: Byte): Flag {
    if b == CR then SawCr
    else if b == LF && f == SawCr then SawLf
    else if b == DOT && f == SawLf then SawLf
    else AnyCharacter
  }

  /** What one octet of the mail becomes. */
  function Emit(f: Flag, b: Byte): seq<Byte> {
    if b == DOT && f == SawLf then [DOT, DOT] else [b]
  }

  function FlagAfter(f: Flag, s: seq<Byte>): Flag
    decreases |s|
  {
    if s == [] then f else FlagAfter(NextFlag(f, s[0]), s[1..])
  }

  function Stuff(f: Flag, s: seq<Byte>): seq<Byte>
    decreases |s|
  {
    if s == [] then [] else Emit(f, s[0]) + Stuff(NextFlag(f, s[0]), s[1..])
  }

  /** How many dots stuffing adds. */
  function StuffedDots(f: Flag, s: seq<Byte>): nat
    decreases |s|
  {
    if s == [] then 0
    else (if s[0] == DOT && f == SawLf then 1 else 0) + StuffedDots(NextFlag(f, s[0]), s[1..])
  }

  const END_MARK: seq<Byte> := [CR, LF, DOT, CR, LF]

  lemma {:induction false} StuffLength(f: Flag, s: seq<Byte>)
    ensures |Stuff(f, s)| == |s| + StuffedDots(f, s)
    decreases |s|
  {
    if s != [] {
      StuffLength(NextFlag(f, s[0]), s[1..]);
    }
  }

  /** A mail may be stuffed in two pieces as long as the flag is carried over. */
  lemma {:induction false} StuffAppend(f: Flag, a: seq<Byte>, b: seq<Byte>)
    ensures Stuff(f, a + b) == Stuff(f, a) + Stuff(FlagAfter(f, a), b)
    ensures FlagAfter(f, a + b) == FlagAfter(FlagAfter(f, a), b)
    ensures StuffedDots(f, a + b) == StuffedDots(f, a) + StuffedDots(FlagAfter(f, a), b)
    decreases |a|
  {
    if a == [] {
      assert a + b == b;
    } else {
      assert (a + b)[1..] == a[1..] + b;
      StuffAppend(NextFlag(f, a[0]), a[1..], b);
    }
  }

  // ---- Self-framing: the end marker cannot appear inside a stuffed body ----

  /** CR LF DOT at position k of t */
  predicate DotAfterCrlf(t: seq<Byte>, k: nat) {
    k + 3 <= |t| && t[k] == CR && t[k + 1] == LF && t[k + 2] == DOT
  }

  /** Every dot that opens a line of t is followed by a second dot; f says what came right before t. */
  ghost predicate OpeningDotsDoubled(f: Flag, t: seq<Byte>) {
    && (forall k: nat :: DotAfterCrlf(t, k) ==> k + 3 < |t| && t[k + 3] == DOT)
    && (f == SawLf && |t| > 0 && t[0] == DOT ==> |t| > 1 && t[1] == DOT)
    && (f == SawCr && |t| > 1 && t[0] == LF && t[1] == DOT ==> |t| > 2 && t[2] == DOT)
  }

  lemma {:induction false} StuffDoubles(f: Flag, s: seq<Byte>)
    ensures OpeningDotsDoubled(f, Stuff(f, s))
    decreases |s|
  {
    if s != [] {
      var f', rest := NextFlag(f, s[0]), Stuff(NextFlag(f, s[0]), s[1..]);
      StuffDoubles(f', s[1..]);
      var t := Emit(f, s[0]) + rest;
      forall k: nat | DotAfterCrlf(t, k)
        ensures k + 3 < |t| && t[k + 3] == DOT
      {
        var e := |Emit(f, s[0])|;
        if k >= e {
          assert DotAfterCrlf(rest, k - e);
        }
      }
    }
  }

  predicate EndMarkAt(t: seq<Byte>, k: nat) {
    k + 5 <= |t| && t[k..k + 5] == END_MARK
  }

  /** RFC 1939 section 3: a client that stops at the first CRLF.CRLF stops exactly after the stuffed body. */
  lemma {:induction false} SelfFraming(f: Flag, s: seq<Byte>)
    ensures var t := Stuff(f, s) + END_MARK;
            EndMarkAt(t, |Stuff(f, s)|) && forall k: nat :: k < |Stuff(f, s)| ==> !EndMarkAt(t, k)
  {
    var body := Stuff(f, s);
    var t := body + END_MARK;
    StuffDoubles(f, s);
    assert t[|body|..|body| + 5] == END_MARK;
    forall k: nat | k < |body|
      ensures !EndMarkAt(t, k)
    {
      if EndMarkAt(t, k) {
        assert END_MARK[0] == t[k] && END_MARK[1] == t[k + 1] && END_MARK[2] == t[k + 2] && END_MARK[3] == t[k + 3];
        assert k + 2 < |body|;
        assert DotAfterCrlf(body, k);
        assert false;
      }
    }
  }

  // ---- Decoding ----

  /** The decoder that undoes Stuff: it keeps the same flag and drops every second dot of an opening run. */
  function Unstuff(f: Flag, t: seq<Byte>): seq<Byte>
    decreases |t|
  {
    if t == [] then []
    else if t[0] == DOT && f == SawLf && |t| > 1 then [DOT] + Unstuff(SawLf, t[2..])
    else [t[0]] + Unstuff(NextFlag(f, t[0]), t[1..])
  }

  lemma {:induction false} UnstuffStuff(f: Flag, s: seq<Byte>)
    ensures Unstuff(f, Stuff(f, s)) == s
    decreases |s|
  {
    if s != [] {
      var rest := Stuff(NextFlag(f, s[0]), s[1..]);
      UnstuffStuff(NextFlag(f, s[0]), s[1..]);
      var t := Emit(f, s[0]) + rest;
      assert t[|Emit(f, s[0])|..] == rest;
    }
  }

  /** RFC 1939 section 3: a line that begins with the termination octet loses that one octet. `f` is SawLf at the
      start of a line; the body starts one. */
  function StandardDecode(f: Flag, t: seq<Byte>): seq<Byte>
    decreases |t|
  {
    if t == [] then []
    else if t[0] == DOT && f == SawLf then StandardDecode(AnyCharacter, t[1..])
    else [t[0]] + StandardDecode(NextFlag(f, t[0]), t[1..])
  }

  predicate TwoDotsAfterCrlf(s: seq<Byte>, k: nat) {
    k + 4 <= |s| && s[k] == CR && s[k + 1] == LF && s[k + 2] == DOT && s[k + 3] == DOT
  }

  /** No line of s opens with two dots, s itself being preceded by what f says. */
  ghost predicate SingleDots(f: Flag, s: seq<Byte>) {
    && (forall k: nat :: !TwoDotsAfterCrlf(s, k))
    && (f == SawLf ==> !(|s| > 1 && s[0] == DOT && s[1] == DOT))
    && (f == SawCr ==> !(|s| > 2 && s[0] == LF && s[1] == DOT && s[2] == DOT))
  }

  lemma SingleDotsStep(f: Flag, s: seq<Byte>)
    requires s != [] && !(s[0] == DOT && f == SawLf)
    ensures SingleDots(f, s) <==> SingleDots(NextFlag(f, s[0]), s[1..])
  {
    var f', s' := NextFlag(f, s[0]), s[1..];
    if SingleDots(f, s) {
      forall k: nat ensures !TwoDotsAfterCrlf(s', k) {
        assert !TwoDotsAfterCrlf(s, k + 1);
      }
      assert !TwoDotsAfterCrlf(s, 0);
    }
    if SingleDots(f', s') {
      forall k: nat ensures !TwoDotsAfterCrlf(s, k) {
        if k > 0 {
          assert !TwoDotsAfterCrlf(s', k - 1);
        }
      }
    }
  }

  /** A decoder in step with the stuffer recovers the mail exactly when no line opens with two dots. */
  lemma {:induction false} DecodeInStep(f: Flag, s: seq<Byte>)
    ensures StandardDecode(f, Stuff(f, s)) == s <==> SingleDots(f, s)
    ensures |StandardDecode(f, Stuff(f, s))| >= |s|
    decreases |s|
  {
    if s != [] {
      var f', rest := NextFlag(f, s[0]), Stuff(NextFlag(f, s[0]), s[1..]);
      assert (Emit(f, s[0]) + rest)[|Emit(f, s[0])|..] == rest;
      if s[0] == DOT && f == SawLf {
        DecodeAfterDot(s[1..]);
        var t := [DOT] + rest;
        assert t[1..] == rest && (Emit(f, s[0]) + rest)[1..] == t;
        assert StandardDecode(f, Stuff(f, s)) == [DOT] + StandardDecode(AnyCharacter, rest);
        assert s == [DOT] + s[1..];
        assert forall k: nat :: k > 0 && TwoDotsAfterCrlf(s, k) ==> TwoDotsAfterCrlf(s[1..], k - 1);
        assert forall k: nat :: TwoDotsAfterCrlf(s[1..], k) ==> TwoDotsAfterCrlf(s, k + 1);
      } else {
        DecodeInStep(f', s[1..]);
        SingleDotsStep(f, s);
        assert s == [s[0]] + s[1..];
      }
    }
  }

  /** Right after an opening dot the stuffer still doubles dots, but the decoder no longer drops them. */
  lemma {:induction false} DecodeAfterDot(s: seq<Byte>)
    ensures StandardDecode(AnyCharacter, Stuff(SawLf, s)) == s
            <==> !(|s| > 0 && s[0] == DOT) && SingleDots(AnyCharacter, s)
    ensures |StandardDecode(AnyCharacter, Stuff(SawLf, s))| >= |s|
    decreases |s|
  {
    if s != [] {
      var rest := Stuff(NextFlag(SawLf, s[0]), s[1..]);
      assert (Emit(SawLf, s[0]) + rest)[|Emit(SawLf, s[0])|..] == rest;
      if s[0] == DOT {
        DecodeAfterDot(s[1..]);
        var t := [DOT] + rest;
        assert t[1..] == rest && (Emit(SawLf, s[0]) + rest)[1..] == t;
        assert StandardDecode(AnyCharacter, Stuff(SawLf, s)) == [DOT] + ([DOT] + StandardDecode(AnyCharacter, rest));
      } else {
        DecodeInStep(NextFlag(AnyCharacter, s[0]), s[1..]);
        SingleDotsStep(AnyCharacter, s);
        assert s == [s[0]] + s[1..];
      }
    }
  }

  /** A body that lost its first dot is never repaired further on. */
  lemma {:induction false} LostDotStaysLost(s: seq<Byte>)
    ensures StandardDecode(AnyCharacter, Stuff(AnyCharacter, s)) != [DOT] + s
    decreases |s|
  {
    if s != [] {
      var rest := Stuff(NextFlag(AnyCharacter, s[0]), s[1..]);
      assert ([s[0]] + rest)[1..] == rest;
      if s[0] == DOT {
        LostDotStaysLost(s[1..]);
        var tail := StandardDecode(AnyCharacter, rest);
        assert s == [DOT] + s[1..];
        assert ([DOT] + tail)[1..] == tail && ([DOT] + s)[1..] == s;
      } else {
        assert StandardDecode(AnyCharacter, Stuff(AnyCharacter, s))[0] == s[0];
      }
    }
  }

  /** What a mail must look like for a client that follows RFC 1939 to read it back. */
  ghost predicate PlainFor(start: Flag, s: seq<Byte>) {
    && (forall k: nat :: !TwoDotsAfterCrlf(s, k))
    && (start == SawLf ==> !(|s| > 1 && s[0] == DOT && s[1] == DOT))
    && (start != SawLf ==> !(|s| > 0 && s[0] == DOT))
    && (start == SawCr ==> !(|s| > 1 && s[0] == LF && s[1] == DOT))
  }

  /** The standard decoder, which starts at a line start whatever flag the stuffer was left with, recovers the
      mail if and only if the mail is plain for that flag. */
  lemma {:induction false} StandardDecodeExact(start: Flag, s: seq<Byte>)
    ensures StandardDecode(SawLf, Stuff(start, s)) == s <==> PlainFor(start, s)
  {
    if s == [] || start == SawLf {
      DecodeInStep(start, s);
    } else {
      var rest := Stuff(NextFlag(start, s[0]), s[1..]);
      assert (Emit(start, s[0]) + rest)[1..] == rest;
      assert s == [s[0]] + s[1..];
      if s[0] == DOT {
        LostDotStaysLost(s[1..]);
      } else {
        SingleDotsStep(AnyCharacter, s);
        if start == SawCr && s[0] == LF {
          DecodeAfterDot(s[1..]);
        } else {
          DecodeInStep(NextFlag(start, s[0]), s[1..]);
        }
      }
    }
  }

  /** Stuffing the line "..": the server sends four dots and a standard client keeps three. */
  lemma TwoDotsAreNotRecovered()
    ensures StandardDecode(SawLf, Stuff(SawLf, [DOT, DOT])) == [DOT, DOT, DOT]
  {
    assert Stuff(SawLf, [DOT, DOT]) == [DOT, DOT] + Stuff(SawLf, [DOT]);
    assert Stuff(SawLf, [DOT]) == [DOT, DOT] + Stuff(SawLf, []);
    var t: seq<Byte> := [DOT, DOT, DOT, DOT];
    assert Stuff(SawLf, [DOT, DOT]) == t;
    var kept: seq<Byte> := [DOT, DOT, DOT];
    assert t[1..] == kept;
    assert StandardDecode(SawLf, t) == StandardDecode(AnyCharacter, kept);
    assert kept[1..] == [DOT, DOT] && kept[1..][1..] == [DOT] && kept[1..][1..][1..] == [];
    assert StandardDecode(AnyCharacter, [DOT]) == [DOT] + StandardDecode(AnyCharacter, [DOT][1..]);
    assert StandardDecode(AnyCharacter, [DOT, DOT]) == [DOT] + StandardDecode(AnyCharacter, [DOT]);
    assert StandardDecode(AnyCharacter, kept) == [DOT] + StandardDecode(AnyCharacter, [DOT, DOT]);
  }
}
