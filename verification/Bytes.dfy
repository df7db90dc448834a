/** Octets, the few characters the server looks at, and C strings. */
module Bytes {
  newtype Byte = b: int | 0 <= b < 256

  const NUL: Byte := 0
  const LF: Byte := 10
  const CR: Byte := 13
  const SP: Byte := 32
  const DOT: Byte := 46

  datatype Option<+T> = None | Some(value: T)

  function Min(a: int, b: int): int {
    if a <= b then a else b
  }

  /** The first n octets of s, or all of them when there are fewer. */
  function Take(s: seq<Byte>, n: nat): seq<Byte> {
    s[..Min(n, |s|)]
  }

  /** Taking from a concatenation takes from its first part first. */
  lemma TakeJoin(a: seq<Byte>, b: seq<Byte>, n: nat)
    ensures |Take(a, n)| <= n
    ensures Take(a + b, n) == Take(a, n) + Take(b, n - |Take(a, n)|)
  {
    assert Take(a + b, n) == Take(a, n) + Take(b, n - |Take(a, n)|);
  }

  /** The octets of an ASCII literal. */
  function Ascii(text: string): (bs: seq<Byte>)
    ensures |bs| == |text|
  {
    seq(|text|, i requires 0 <= i < |text| => (text[i] as int % 256) as Byte)
  }

  /** What strcmp and atoi see of a char array: everything before the first NUL. */
  function CString(a: seq<Byte>): (s: seq<Byte>)
    ensures NUL !in s
    ensures |s| <= |a| && s == a[..|s|]
    ensures |s| < |a| ==> a[|s|] == NUL
  {
    if a == [] || a[0] == NUL then [] else [a[0]] + CString(a[1..])
  }

  /** A NUL inside an array hides whatever is stored after it. */
  lemma {:induction false} CStringStops(a: seq<Byte>, rest: seq<Byte>)
    ensures CString(a + [NUL] + rest) == CString(a)
  {
    var whole := a + [NUL] + rest;
    if a == [] {
    } else {
      assert whole[1..] == a[1..] + [NUL] + rest;
      CStringStops(a[1..], rest);
    }
  }

  function ToLower(b: Byte): Byte {
    if 65 <= b <= 90 then b + 32 else b
  }

  /** strcasecmp(a, b) == 0 */
  predicate SameIgnoringCase(a: seq<Byte>, b: seq<Byte>) {
    |a| == |b| && forall i :: 0 <= i < |a| ==> ToLower(a[i]) == ToLower(b[i])
  }
}
