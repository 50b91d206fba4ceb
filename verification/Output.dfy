/** The output path: routing an entry to the send threads, and packing each
    destination's messages into its buffer. Messages are of any type `M` that can be
    written to a buffer. */
module Output {
  import opened Bytes
  import opened Framing
  import opened Sequences

  /** A message to send, its destinations and, if it is signed for each of them, the
      signatures. */
  datatype Entry<M> = Entry(msg: M, dest: seq<nat>, signs: seq<bytes>)

  // ----- MessageQueue::enqueue -------------------------------------------------

  /** Does thread `j` get the entry? An entry with one destination goes only to
      the thread in charge of it. */
  predicate Routed(dest: seq<nat>, threads: nat, j: nat)
    requires threads > 0
  {
    !(|dest| == 1 && dest[0] % threads != j)
  }

  /** All threads but the last send a deep copy. */
  function Route<M>(copy: M -> M, queues: seq<seq<Entry<M>>>, e: Entry<M>, j: nat): seq<Entry<M>>
    requires j < |queues|
  {
    if !Routed(e.dest, |queues|, j) then queues[j]
    else queues[j] + [if j + 1 < |queues| then e.(msg := copy(e.msg)) else e]
  }

  /** The loop over the send threads; `copy` is the deep copy. */
  method Enqueue<M>(copy: M -> M, queues: seq<seq<Entry<M>>>, e: Entry<M>) returns (r: seq<seq<Entry<M>>>)
    requires |queues| > 0
    ensures |r| == |queues| && forall j :: 0 <= j < |r| ==> r[j] == Route(copy, queues, e, j)
    ensures forall j :: 0 <= j < |r| && r[j] != queues[j] ==>
      r[j] == queues[j] + [Entry(if j == |r| - 1 then e.msg else copy(e.msg), e.dest, e.signs)]
    ensures forall d :: d in e.dest ==> r[d % |r|] != queues[d % |r|]
  {
    var threads := |queues|;
    r := queues;
    for j := 0 to threads - 1
      invariant |r| == threads
      invariant forall k :: 0 <= k < j ==> r[k] == Route(copy, queues, e, k)
      invariant forall k :: j <= k < threads ==> r[k] == queues[k]
    {
      if |e.dest| == 1 && e.dest[0] % threads != j {
        continue;
      }
      r := r[j := r[j] + [e.(msg := copy(e.msg))]];
    }
    var last := threads - 1;
    if |e.dest| == 1 && e.dest[0] % threads != last {
      return;
    }
    r := r[last := r[last] + [e]];
  }

  // ----- Which copies a thread makes -------------------------------------------

  /** What thread `td` of `threads` adds to the buffer of `d` for the first `n`
      destinations of an entry; `stamp` signs the message for a destination. */
  function Copies<M>(stamp: (Entry<M>, nat) -> M, e: Entry<M>, threads: nat, td: nat, d: nat, n: nat): seq<M>
    requires threads > 0 && n <= |e.dest|
  {
    if n == 0 then []
    else Copies(stamp, e, threads, td, d, n - 1) +
         if e.dest[n - 1] == d && d % threads == td then [stamp(e, n - 1)] else []
  }

  function Occurrences(dest: seq<nat>, d: nat): nat {
    if dest == [] then 0
    else Occurrences(dest[..|dest| - 1], d) + if dest[|dest| - 1] == d then 1 else 0
  }

  lemma {:induction false} CopiesCount<M>(stamp: (Entry<M>, nat) -> M, e: Entry<M>, threads: nat, td: nat, d: nat, n: nat)
    requires threads > 0 && n <= |e.dest|
    ensures |Copies(stamp, e, threads, td, d, n)| == if d % threads == td then Occurrences(e.dest[..n], d) else 0
  {
    if n > 0 {
      CopiesCount(stamp, e, threads, td, d, n - 1);
      assert e.dest[..n][..n - 1] == e.dest[..n - 1];
    }
  }

  /** Every destination is served by exactly one thread, which got the entry and makes
      one copy for each time the destination is listed; no other thread makes any. */
  lemma EachDestinationOnce<M>(stamp: (Entry<M>, nat) -> M, e: Entry<M>, threads: nat, d: nat, td: nat)
    requires threads > 0
    ensures td != d % threads ==> Copies(stamp, e, threads, td, d, |e.dest|) == []
    ensures td == d % threads ==> |Copies(stamp, e, threads, td, d, |e.dest|)| == Occurrences(e.dest, d)
    ensures d in e.dest ==> Routed(e.dest, threads, d % threads)
  {
    CopiesCount(stamp, e, threads, td, d, |e.dest|);
    assert e.dest[..|e.dest|] == e.dest;
  }

  // ----- Buffers and packets ---------------------------------------------------

  /** A destination's buffer after its header of twelve bytes. */
  datatype Buf = Buf(data: bytes, cnt: nat, force: bool)

  datatype Sent = Sent(dest: nat, data: bytes)

  const HEADER := 12

  /** The bytes of a message do not depend on what follows them. */
  ghost predicate Regular<M(!new)>(put: (M, bytes) -> bytes) {
    forall m: M, a, b :: put(m, a) + b == put(m, a + b)
  }

  /** They are as many as the message reports. */
  predicate Exact<M>(put: (M, bytes) -> bytes, size: M -> nat, m: M) {
    |put(m, [])| == size(m)
  }

  /** The messages of all packets to `d`, in order. */
  function Shipped<M>(packets: seq<(nat, seq<M>)>, d: nat): seq<M> {
    if packets == [] then []
    else
      var last := |packets| - 1;
      Shipped(packets[..last], d) + if packets[last].0 == d then packets[last].1 else []
  }

  lemma ShippedOne<M>(packets: seq<(nat, seq<M>)>, d: nat, msgs: seq<M>, x: nat)
    ensures Shipped(packets + [(d, msgs)], x) == Shipped(packets, x) + if x == d then msgs else []
  {
    assert (packets + [(d, msgs)])[..|packets|] == packets;
  }

  /** A buffer holds these messages, within the size of a network buffer. */
  predicate Holds<M>(put: (M, bytes) -> bytes, capacity: nat, b: Buf, msgs: seq<M>) {
    b.data == PutAll(put, msgs) && b.cnt == |msgs| && HEADER + |b.data| <= capacity
  }

  predicate IsUrgent<M>(urgent: M -> bool, m: M) {
    urgent(m)
  }

  /** Urgent messages among these make the buffer ask to be flushed. */
  predicate Asks<M(==)>(urgent: M -> bool, b: Buf, msgs: seq<M>) {
    forall m :: m in msgs && IsUrgent(urgent, m) ==> b.force
  }

  lemma AsksAppend<M>(urgent: M -> bool, b: Buf, msgs: seq<M>, m: M, b': Buf)
    requires Asks(urgent, b, msgs) && b'.force == (b.force || IsUrgent(urgent, m))
    ensures Asks(urgent, b', msgs + [m])
  {
  }

  /** Full in number, or asked for. */
  predicate Due(b: Buf, perBuffer: nat) {
    b.cnt == perBuffer || (b.force && b.cnt > 0)
  }

  /** Everything given to a destination: what was shipped and what waits. */
  function Given<M>(packets: seq<(nat, seq<M>)>, waiting: seq<seq<M>>, x: nat): seq<M>
    requires x < |waiting|
  {
    Shipped(packets, x) + waiting[x]
  }

  lemma ShippingKeepsGiven<M>(packets: seq<(nat, seq<M>)>, waiting: seq<seq<M>>, d: nat)
    requires d < |waiting|
    ensures forall x :: 0 <= x < |waiting| ==>
      Given(packets + [(d, waiting[d])], waiting[d := []], x) == Given(packets, waiting, x)
  {
    forall x | 0 <= x < |waiting|
      ensures Given(packets + [(d, waiting[d])], waiting[d := []], x) == Given(packets, waiting, x)
    {
      ShippedOne(packets, d, waiting[d], x);
    }
  }

  lemma AppendingExtendsGiven<M>(packets: seq<(nat, seq<M>)>, waiting: seq<seq<M>>, d: nat, m: M)
    requires d < |waiting|
    ensures forall x :: 0 <= x < |waiting| ==>
      Given(packets, waiting[d := waiting[d] + [m]], x) == Given(packets, waiting, x) + if x == d then [m] else []
  {
  }

  lemma OneMoreCopy<M>(stamp: (Entry<M>, nat) -> M, e: Entry<M>, threads: nat, td: nat, d: nat, i: nat, before: seq<M>)
    requires threads > 0 && i < |e.dest|
    ensures before + Copies(stamp, e, threads, td, d, i + 1) ==
      before + Copies(stamp, e, threads, td, d, i) +
      if e.dest[i] == d && d % threads == td then [stamp(e, i)] else []
  {
  }

  // ----- The receiver ----------------------------------------------------------

  /** All messages a receiver `d` decodes from the packets sent to it, in order. */
  function Receive<M>(read: bytes -> Option<seq<M>>, sent: seq<Sent>, d: nat): Option<seq<M>> {
    if sent == [] then Some([])
    else
      var last := |sent| - 1;
      var before := Receive(read, sent[..last], d);
      if sent[last].dest != d then before else Join(before, read(sent[last].data))
  }

  function Join<M>(a: Option<seq<M>>, b: Option<seq<M>>): Option<seq<M>> {
    if a.None? || b.None? then None else Some(a.value + b.value)
  }

  lemma {:induction false} MapAppend<M>(wire: M -> M, a: seq<M>, b: seq<M>)
    ensures MapAll(wire, a + b) == MapAll(wire, a) + MapAll(wire, b)
  {
  }

  lemma {:induction false} ReceivesShipped<M>(read: bytes -> Option<seq<M>>, wire: M -> M, sent: seq<Sent>,
                                              packets: seq<(nat, seq<M>)>, d: nat)
    requires |sent| == |packets|
    requires forall i :: 0 <= i < |sent| ==> sent[i].dest == packets[i].0
    requires forall i :: 0 <= i < |sent| && packets[i].0 == d ==>
      read(sent[i].data) == Some(MapAll(wire, packets[i].1))
    ensures Receive(read, sent, d) == Some(MapAll(wire, Shipped(packets, d)))
  {
    if sent != [] {
      var k := |sent| - 1;
      ReceivesShipped(read, wire, sent[..k], packets[..k], d);
      MapAppend(wire, Shipped(packets[..k], d), packets[k].1);
      assert Shipped(packets[..k], d) + [] == Shipped(packets[..k], d);
    }
  }

  // ----- The send thread -------------------------------------------------------

  class MessageThread<M(!new)> {
    const put: (M, bytes) -> bytes
    const size: M -> nat
    const urgent: M -> bool
    const stamp: (Entry<M>, nat) -> M
    const self: nat
    const threads: nat
    const td: nat
    const capacity: nat
    /** MESSAGE_PER_BUFFER. */
    const perBuffer: nat
    var bufs: seq<Buf>
    var sent: seq<Sent>
    ghost var waiting: seq<seq<M>>
    ghost var packets: seq<(nat, seq<M>)>

    ghost predicate Valid()
      reads this
    {
      && Regular(put) && threads > 0 && perBuffer > 0 && HEADER <= capacity
      && |bufs| == |waiting| && (forall d :: 0 <= d < |bufs| ==> Holds(put, capacity, bufs[d], waiting[d]))
      && |sent| == |packets| && (forall i :: 0 <= i < |sent| ==> PacketOk(sent[i], packets[i]) && packets[i].0 < |bufs|)
    }

    /** A packet on its way is well formed and within the size of a network buffer. */
    predicate PacketOk(s: Sent, p: (nat, seq<M>)) {
      s == Sent(p.0, Packet(put, p.0, self, p.1)) && |s.data| <= capacity
    }

    /** Everything given to the buffer of `d` so far. */
    ghost function Log(d: nat): seq<M>
      requires d < |waiting|
      reads this
    {
      Given(packets, waiting, d)
    }

    /** `init`: every buffer is empty. */
    constructor (put: (M, bytes) -> bytes, size: M -> nat, urgent: M -> bool, stamp: (Entry<M>, nat) -> M,
                 self: nat, threads: nat, td: nat, capacity: nat, perBuffer: nat, nodes: nat)
      requires Regular(put) && threads > 0 && perBuffer > 0 && HEADER <= capacity
      ensures Valid() && |bufs| == nodes && sent == [] && packets == []
      ensures this.put == put && this.size == size && this.stamp == stamp
      ensures this.self == self && this.threads == threads && this.td == td && this.capacity == capacity
      ensures this.urgent == urgent && this.perBuffer == perBuffer
      ensures Flagged() && Settled(nodes) && forall d :: 0 <= d < nodes ==> Log(d) == []
    {
      this.put, this.size, this.urgent, this.stamp := put, size, urgent, stamp;
      this.self, this.threads, this.td, this.capacity, this.perBuffer := self, threads, td, capacity, perBuffer;
      bufs := seq(nodes, _ => Buf([], 0, false));
      waiting := seq(nodes, _ => []);
      sent, packets := [], [];
    }

    /** Every buffer in which an urgent message waits asks to be flushed. */
    ghost predicate Flagged()
      requires |bufs| == |waiting|
      reads this
    {
      forall x :: 0 <= x < |bufs| ==> Asks(urgent, bufs[x], waiting[x])
    }

    /** The first `n` buffers need not be shipped now. */
    ghost predicate Settled(n: nat)
      requires n <= |bufs|
      reads this
    {
      forall x :: 0 <= x < n ==> !Due(bufs[x], perBuffer)
    }

    /** `fits`. */
    predicate Fits(d: nat, n: nat)
      requires d < |bufs|
      reads this
    {
      HEADER + |bufs[d].data| + n <= capacity
    }

    /** `send_batch`: ship the buffer as one packet and reset it. */
    method SendBatch(d: nat)
      requires Valid() && d < |bufs| && bufs[d].cnt > 0
      modifies this
      ensures Valid() && |bufs| == old(|bufs|) && bufs[d] == Buf([], 0, old(bufs[d].force)) && waiting[d] == []
      ensures forall x :: 0 <= x < |bufs| ==> Log(x) == old(Log(x))
      ensures forall x :: 0 <= x < |bufs| && x != d ==> bufs[x] == old(bufs[x]) && waiting[x] == old(waiting[x])
    {
      var b := bufs[d];
      ShippingKeepsGiven(packets, waiting, d);
      sent := sent + [Sent(d, PutNum(d, 4, PutNum(self, 4, PutNum(b.cnt, 4, b.data))))];
      packets := packets + [(d, waiting[d])];
      bufs := bufs[d := Buf([], 0, b.force)];
      waiting := waiting[d := []];
    }

    /** `ready`, which also takes the flush request back. */
    method Ready(d: nat, warm: bool) returns (ready: bool)
      requires Valid() && d < |bufs|
      modifies this`bufs
      ensures Valid() && |bufs| == old(|bufs|)
      ensures ready == if warm then Due(old(bufs[d]), perBuffer) else bufs[d].cnt > 0
      ensures bufs[d] == old(bufs[d]).(force := old(bufs[d].force) && !(warm && ready))
      ensures forall x :: 0 <= x < |bufs| && x != d ==> bufs[x] == old(bufs[x])
    {
      if warm {
        if bufs[d].cnt == perBuffer || (bufs[d].force && bufs[d].cnt > 0) {
          bufs := bufs[d := bufs[d].(force := false)];
          return true;
        }
        return false;
      }
      return bufs[d].cnt > 0;
    }

    /** `check_and_send_batches`: afterwards no buffer is due. */
    method CheckAndSendBatches(warm: bool)
      requires Valid() && Flagged()
      modifies this
      ensures Valid() && |bufs| == old(|bufs|) && Flagged() && Settled(|bufs|)
      ensures forall x :: 0 <= x < |bufs| ==> Log(x) == old(Log(x))
    {
      for d := 0 to |bufs|
        invariant Valid() && |bufs| == old(|bufs|) && Flagged() && Settled(d)
        invariant forall x :: 0 <= x < |bufs| ==> Log(x) == old(Log(x))
      {
        var ready := Ready(d, warm);
        if ready {
          SendBatch(d);
        }
      }
    }

    /** Copy the message behind the others. */
    method CopyIn(d: nat, m: M)
      requires Valid() && d < |bufs| && Exact(put, size, m) && Fits(d, size(m))
      requires Flagged()
      modifies this`bufs, this`waiting
      ensures Valid() && |bufs| == old(|bufs|) && Flagged()
      ensures forall x :: 0 <= x < |bufs| ==> Log(x) == old(Log(x)) + if x == d then [m] else []
      ensures bufs[d].force == (old(bufs[d].force) || IsUrgent(urgent, m))
    {
      var force := bufs[d].force || IsUrgent(urgent, m);
      PutLast(put, waiting[d], m);
      AppendingExtendsGiven(packets, waiting, d, m);
      AsksAppend(urgent, bufs[d], waiting[d], m, Buf(bufs[d].data + put(m, []), bufs[d].cnt + 1, force));
      bufs := bufs[d := Buf(bufs[d].data + put(m, []), bufs[d].cnt + 1, force)];
      waiting := waiting[d := waiting[d] + [m]];
    }

    /** Make room if need be, then copy; a message that fits an empty buffer is never
        refused, and a buffer that has no room is never empty. */
    method Append(d: nat, m: M)
      requires Valid() && d < |bufs| && Exact(put, size, m) && HEADER + size(m) <= capacity
      requires Flagged()
      modifies this
      ensures Valid() && |bufs| == old(|bufs|) && Flagged()
      ensures forall x :: 0 <= x < |bufs| ==> Log(x) == old(Log(x)) + if x == d then [m] else []
    {
      if !Fits(d, size(m)) {
        assert bufs[d].cnt > 0;
        SendBatch(d);
      }
      CopyIn(d, m);
    }

    /** `run` on one entry: every destination in this thread's charge gets its copy, in
        the order of the list, and the order in each buffer is kept; no buffer is due
        afterwards if none was before. */
    method Run(e: Entry<M>, warm: bool)
      requires Valid() && Flagged() && Settled(|bufs|)
      requires forall i :: 0 <= i < |e.dest| ==> e.dest[i] < |bufs|
      requires forall i: nat :: i < |e.dest| ==> Exact(put, size, stamp(e, i)) && HEADER + size(stamp(e, i)) <= capacity
      modifies this
      ensures Valid() && |bufs| == old(|bufs|) && Flagged() && Settled(|bufs|)
      ensures forall d :: 0 <= d < |bufs| ==> Log(d) == old(Log(d)) + Copies(stamp, e, threads, td, d, |e.dest|)
    {
      for i := 0 to |e.dest|
        invariant Valid() && |bufs| == old(|bufs|) && Flagged() && Settled(|bufs|)
        invariant forall d :: 0 <= d < |bufs| ==> Log(d) == old(Log(d)) + Copies(stamp, e, threads, td, d, i)
      {
        forall d | 0 <= d < |bufs| ensures old(Log(d)) + Copies(stamp, e, threads, td, d, i + 1) ==
          old(Log(d)) + Copies(stamp, e, threads, td, d, i) +
          if e.dest[i] == d && d % threads == td then [stamp(e, i)] else []
        {
          OneMoreCopy(stamp, e, threads, td, d, i, old(Log(d)));
        }
        if e.dest[i] % threads != td {
          continue;
        }
        Append(e.dest[i], stamp(e, i));
        CheckAndSendBatches(warm);
      }
    }
  }
}
