/** A run of encoded items in one buffer, whatever the items are: `put` writes one in
    front of what follows, `take` reads one, `size` is the size an item reports. */
module Framing {
  import opened Bytes
  import opened Sequences

  function PutAll<M>(put: (M, bytes) -> bytes, items: seq<M>): bytes {
    if items == [] then [] else put(items[0], PutAll(put, items[1..]))
  }

  /** Destination, sender and number of messages, then the messages. */
  function Packet<M>(put: (M, bytes) -> bytes, dest: nat, from: nat, items: seq<M>): bytes {
    PutNum(dest, 4, PutNum(from, 4, PutNum(|items|, 4, PutAll(put, items))))
  }

  function TotalSize<M>(size: M -> nat, items: seq<M>): nat {
    if items == [] then 0 else size(items[0]) + TotalSize(size, items[1..])
  }

  function MapAll<M>(f: M -> M, items: seq<M>): (r: seq<M>)
    ensures |r| == |items| && forall i :: 0 <= i < |r| ==> r[i] == f(items[i])
  {
    if items == [] then [] else [f(items[0])] + MapAll(f, items[1..])
  }

  function Prepend<M>(items: seq<M>, r: Option<seq<M>>): Option<seq<M>> {
    match r case None => None case Some(more) => Some(items + more)
  }

  /** Decode one item where the pointer stands, and move on by the size it reports. */
  function Unpack<M>(take: bytes -> Parse<M>, size: M -> nat, b: bytes, n: nat): Option<seq<M>>
    decreases n
  {
    if n == 0 then Some([])
    else
      var m := take(b);
      if m.Bad? || |b| < size(m.value) then None
      else Prepend([m.value], Unpack(take, size, b[size(m.value)..], n - 1))
  }

  /** The decoding loop. */
  method DecodeAll<M>(take: bytes -> Parse<M>, size: M -> nat, data: bytes, count: nat) returns (r: Option<seq<M>>)
    ensures r == Unpack(take, size, data, count)
  {
    var ptr, n, items := 0, count, [];
    assert data[0..] == data;
    PrependNothing(Unpack(take, size, data, count));
    while n > 0
      invariant 0 <= n <= count && 0 <= ptr <= |data|
      invariant Unpack(take, size, data, count) == Prepend(items, Unpack(take, size, data[ptr..], n))
    {
      var m := take(data[ptr..]);
      if m.Bad? || |data| - ptr < size(m.value) {
        return None;
      }
      PrependOne(items, m.value, Unpack(take, size, data[ptr..][size(m.value)..], n - 1));
      assert data[ptr..][size(m.value)..] == data[ptr + size(m.value)..];
      items := items + [m.value];
      ptr := ptr + size(m.value);
      n := n - 1;
    }
    r := Some(items);
    assert items + [] == items;
  }

  lemma PrependNothing<M>(r: Option<seq<M>>)
    ensures Prepend([], r) == r
  {
    if r.Some? {
      assert [] + r.value == r.value;
    }
  }

  lemma PrependOne<M>(items: seq<M>, m: M, r: Option<seq<M>>)
    ensures Prepend(items, Prepend([m], r)) == Prepend(items + [m], r)
  {
    if r.Some? {
      assert items + ([m] + r.value) == items + [m] + r.value;
    }
  }

  /** `m`, written in front of `rest`, is read back up to `wire` from exactly the bytes
      it reports. */
  predicate Framed<M(==)>(put: (M, bytes) -> bytes, take: bytes -> Parse<M>, size: M -> nat, wire: M -> M, m: M, rest: bytes) {
    && take(put(m, rest)) == Ok(wire(m), rest)
    && size(wire(m)) == size(m)
    && |put(m, rest)| == size(m) + |rest| && put(m, rest)[size(m)..] == rest
  }

  lemma {:induction false} RoundTrip<M>(put: (M, bytes) -> bytes, take: bytes -> Parse<M>, size: M -> nat,
                                        wire: M -> M, items: seq<M>)
    requires forall m, rest :: m in items ==> Framed(put, take, size, wire, m, rest)
    ensures Unpack(take, size, PutAll(put, items), |items|) == Some(MapAll(wire, items))
    ensures |PutAll(put, items)| == TotalSize(size, items)
  {
    if items != [] {
      var m, tail := items[0], items[1..];
      RoundTrip(put, take, size, wire, tail);
      assert Framed(put, take, size, wire, m, PutAll(put, tail));
    }
  }

  /** Appending an item at the end appends its bytes at the end. */
  lemma {:induction false} PutLast<M(!new)>(put: (M, bytes) -> bytes, items: seq<M>, m: M)
    requires forall x: M, a, b :: put(x, a) + b == put(x, a + b)
    ensures PutAll(put, items + [m]) == PutAll(put, items) + put(m, [])
  {
    if items == [] {
      assert items + [m] == [m] && [m][1..] == [];
      assert PutAll(put, [m]) == put(m, []);
    } else {
      PutLast(put, items[1..], m);
      assert (items + [m])[1..] == items[1..] + [m];
    }
  }

  lemma {:induction false} AtLeastOneEach<M>(size: M -> nat, items: seq<M>)
    requires forall m :: m in items ==> size(m) >= 1
    ensures TotalSize(size, items) >= |items|
  {
    if items != [] {
      AtLeastOneEach(size, items[1..]);
    }
  }
}
