/** Fixed-width numbers, flags and byte strings in a buffer. A writer puts its bytes
    in front of what follows; a reader returns the value and what is left. */
module Bytes {
  newtype byte = x: int | 0 <= x < 256

  type bytes = seq<byte>

  /** The outcome of reading: `Bad` where the source reads past the end or trips an assertion. */
  datatype Parse<+T> = Ok(value: T, rest: bytes) | Bad {
    predicate IsFailure() {
      Bad?
    }

    function PropagateFailure<U>(): Parse<U>
      requires IsFailure()
    {
      Bad
    }

    function Extract(): (T, bytes)
      requires !IsFailure()
    {
      (value, rest)
    }
  }

  function Pow256(w: nat): nat {
    if w == 0 then 1 else 256 * Pow256(w - 1)
  }

  /** Is `v` a value of an unsigned type of `w` bytes? */
  predicate Fits(v: nat, w: nat) {
    v < Pow256(w)
  }

  // ----- Numbers ---------------------------------------------------------------

  /** The memory of a number, least significant byte first. */
  function Le(v: nat, w: nat): (b: bytes)
    ensures |b| == w
  {
    if w == 0 then [] else [(v % 256) as byte] + Le(v / 256, w - 1)
  }

  function FromLe(b: bytes): nat {
    if b == [] then 0 else b[0] as nat + 256 * FromLe(b[1..])
  }

  lemma {:induction false} LeRoundTrip(v: nat, w: nat)
    requires Fits(v, w)
    ensures FromLe(Le(v, w)) == v
  {
    if w > 0 {
      assert v / 256 < Pow256(w - 1);
      LeRoundTrip(v / 256, w - 1);
      assert Le(v, w)[1..] == Le(v / 256, w - 1);
    }
  }

  function PutNum(v: nat, w: nat, rest: bytes): bytes {
    Le(v, w) + rest
  }

  function TakeNum(b: bytes, w: nat): Parse<nat> {
    if |b| < w then Bad else Ok(FromLe(b[..w]), b[w..])
  }

  lemma NumRoundTrip(v: nat, w: nat, rest: bytes)
    requires Fits(v, w)
    ensures TakeNum(PutNum(v, w, rest), w) == Ok(v, rest)
  {
    LeRoundTrip(v, w);
    assert PutNum(v, w, rest)[..w] == Le(v, w);
    assert PutNum(v, w, rest)[w..] == rest;
  }

  // ----- Flags -----------------------------------------------------------------

  function PutFlag(f: bool, rest: bytes): bytes {
    [if f then 1 else 0] + rest
  }

  function TakeFlag(b: bytes): Parse<bool> {
    if |b| < 1 then Bad else Ok(b[0] != 0, b[1..])
  }

  lemma FlagRoundTrip(f: bool, rest: bytes)
    ensures TakeFlag(PutFlag(f, rest)) == Ok(f, rest)
  {
    assert PutFlag(f, rest)[1..] == rest;
  }

  // ----- Byte strings ----------------------------------------------------------

  function TakeRaw(b: bytes, n: nat): Parse<bytes> {
    if |b| < n then Bad else Ok(b[..n], b[n..])
  }

  lemma RawRoundTrip(s: bytes, rest: bytes)
    ensures TakeRaw(s + rest, |s|) == Ok(s, rest)
  {
    assert (s + rest)[..|s|] == s && (s + rest)[|s|..] == rest;
  }

  /** A string, preceded by its length in eight bytes. */
  function PutText(s: bytes, rest: bytes): bytes {
    PutNum(|s|, 8, s + rest)
  }

  function TakeText(b: bytes): Parse<bytes> {
    var (n, b) :- TakeNum(b, 8);
    TakeRaw(b, n)
  }

  lemma TextRoundTrip(s: bytes, rest: bytes)
    requires Fits(|s|, 8)
    ensures TakeText(PutText(s, rest)) == Ok(s, rest)
  {
    NumRoundTrip(|s|, 8, s + rest);
    RawRoundTrip(s, rest);
  }

  // ----- A writer leaves what follows alone ------------------------------------

  lemma Local(s: bytes, rest: bytes, more: bytes)
    ensures s + rest + more == s + (rest + more)
  {
  }

  lemma TextLocal(s: bytes, rest: bytes, more: bytes)
    ensures PutText(s, rest) + more == PutText(s, rest + more)
  {
    Local(s, rest, more);
    Local(Le(|s|, 8), s + rest, more);
  }
}
