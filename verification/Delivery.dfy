/** From the output queue to the receiver: what each destination decodes from the
    packets of a send thread. */
module Delivery {
  import opened Bytes
  import opened Messages
  import opened Output
  import Framing
  import opened Sequences

  ghost predicate AllSendable(batch: nat, msgs: seq<Message>) {
    forall m :: m in msgs ==> Sendable(batch, m)
  }

  /** A packet within the size of a network buffer is read back whole. */
  lemma PacketIsRead(batch: nat, capacity: nat, dest: nat, from: nat, msgs: seq<Message>)
    requires Fits(dest, 4) && Fits(from, 4) && dest != from && capacity < Pow256(4)
    requires AllSendable(batch, msgs) && |Framing.Packet(Put, dest, from, msgs)| <= capacity
    ensures ReadPacket(batch, dest, Framing.Packet(Put, dest, from, msgs)) == Some(Framing.MapAll(OnWire, msgs))
  {
    FewEnough(batch, msgs);
    PacketRoundTrip(batch, dest, from, msgs);
  }

  function Reader(batch: nat, d: nat): bytes -> Option<seq<Message>> {
    b => ReadPacket(batch, d, b)
  }

  /** A receiver decodes from the packets exactly the messages packed for it. */
  lemma StreamRoundTrip(batch: nat, capacity: nat, self: nat, sent: seq<Sent>,
                        packets: seq<(nat, seq<Message>)>, d: nat)
    requires Fits(d, 4) && Fits(self, 4) && d != self && capacity < Pow256(4)
    requires |sent| == |packets|
    requires forall i :: 0 <= i < |sent| ==>
      && sent[i] == Sent(packets[i].0, Framing.Packet(Put, packets[i].0, self, packets[i].1))
      && |sent[i].data| <= capacity && (packets[i].0 == d ==> AllSendable(batch, packets[i].1))
    ensures Receive(Reader(batch, d), sent, d) == Some(Framing.MapAll(OnWire, Shipped(packets, d)))
  {
    forall i | 0 <= i < |sent| && packets[i].0 == d
      ensures Reader(batch, d)(sent[i].data) == Some(Framing.MapAll(OnWire, packets[i].1))
    {
      PacketIsRead(batch, capacity, d, self, packets[i].1);
    }
    ReceivesShipped(Reader(batch, d), OnWire, sent, packets, d);
  }

  lemma {:induction false} PacketPartOfShipped(packets: seq<(nat, seq<Message>)>, i: nat, m: Message)
    requires i < |packets| && m in packets[i].1
    ensures m in Shipped(packets, packets[i].0)
    decreases |packets|
  {
    var last := |packets| - 1;
    if i < last {
      PacketPartOfShipped(packets[..last], i, m);
    }
  }

  /** Every copy this thread is to make for `d`, entry by entry. */
  function AllCopies(stamp: (Entry<Message>, nat) -> Message, entries: seq<Entry<Message>>, threads: nat, td: nat, d: nat): seq<Message>
    requires threads > 0
  {
    if entries == [] then []
    else
      var last := |entries| - 1;
      AllCopies(stamp, entries[..last], threads, td, d) +
      Copies(stamp, entries[last], threads, td, d, |entries[last].dest|)
  }

  ghost predicate Transmissible(stamp: (Entry<Message>, nat) -> Message, batch: nat, capacity: nat, nodes: nat, e: Entry<Message>) {
    forall i: nat :: i < |e.dest| ==>
      && e.dest[i] < nodes && Sendable(batch, stamp(e, i))
      && HEADER + Size(stamp(e, i)) <= capacity
  }

  lemma {:induction false} CopiesSendable(stamp: (Entry<Message>, nat) -> Message, batch: nat, capacity: nat, nodes: nat,
                         e: Entry<Message>, threads: nat, td: nat, d: nat, n: nat)
    requires threads > 0 && n <= |e.dest| && Transmissible(stamp, batch, capacity, nodes, e)
    ensures AllSendable(batch, Copies(stamp, e, threads, td, d, n))
  {
    if n > 0 {
      CopiesSendable(stamp, batch, capacity, nodes, e, threads, td, d, n - 1);
    }
  }

  lemma {:induction false} AllCopiesSendable(stamp: (Entry<Message>, nat) -> Message, batch: nat, capacity: nat, nodes: nat,
                            entries: seq<Entry<Message>>, threads: nat, td: nat, d: nat)
    requires threads > 0 && forall e :: e in entries ==> Transmissible(stamp, batch, capacity, nodes, e)
    ensures AllSendable(batch, AllCopies(stamp, entries, threads, td, d))
  {
    if entries != [] {
      var last := |entries| - 1;
      AllCopiesSendable(stamp, batch, capacity, nodes, entries[..last], threads, td, d);
      CopiesSendable(stamp, batch, capacity, nodes, entries[last], threads, td, d, |entries[last].dest|);
    }
  }

  /** Of the copies meant for a destination, the receiver decodes the first ones, each as it
      looks on the wire, and the others are what waits in the buffer. */
  ghost predicate Delivered(got: Option<seq<Message>>, left: Buf, meant: seq<Message>, k: nat) {
    && k <= |meant| && got == Some(Framing.MapAll(OnWire, meant[..k]))
    && left.data == Framing.PutAll(Put, meant[k..]) && left.cnt == |meant| - k
  }

  /** The copies that wait fit one packet, are fewer than a full buffer holds, and none of
      them is urgent. */
  ghost predicate MayWait(urgent: Message -> bool, capacity: nat, perBuffer: nat, left: Buf, late: seq<Message>) {
    && HEADER + |left.data| <= capacity && left.cnt != perBuffer
    && (forall m :: m in late ==> !IsUrgent(urgent, m))
  }

  lemma FromLog(batch: nat, capacity: nat, self: nat, sent: seq<Sent>, packets: seq<(nat, seq<Message>)>,
                waiting: seq<seq<Message>>, left: Buf, d: nat)
    requires Fits(d, 4) && Fits(self, 4) && d != self && capacity < Pow256(4) && d < |waiting|
    requires |sent| == |packets| && AllSendable(batch, Given(packets, waiting, d))
    requires Holds(Put, capacity, left, waiting[d])
    requires forall i :: 0 <= i < |sent| ==>
      && sent[i] == Sent(packets[i].0, Framing.Packet(Put, packets[i].0, self, packets[i].1))
      && |sent[i].data| <= capacity
    ensures Delivered(Receive(Reader(batch, d), sent, d), left, Given(packets, waiting, d), |Shipped(packets, d)|)
    ensures Given(packets, waiting, d)[|Shipped(packets, d)|..] == waiting[d]
  {
    forall i, m | 0 <= i < |sent| && packets[i].0 == d && m in packets[i].1 ensures Sendable(batch, m) {
      PacketPartOfShipped(packets, i, m);
      assert m in Given(packets, waiting, d);
    }
    StreamRoundTrip(batch, capacity, self, sent, packets, d);
    var given := Given(packets, waiting, d);
    assert given[..|Shipped(packets, d)|] == Shipped(packets, d) && given[|Shipped(packets, d)|..] == waiting[d];
  }

  /** What destination `d` can make of the packets, and what waits for it. */
  ghost predicate Arrives(batch: nat, urgent: Message -> bool, capacity: nat, perBuffer: nat, sent: seq<Sent>,
                          left: Buf, meant: seq<Message>, d: nat) {
    exists k: nat :: Delivered(Receive(Reader(batch, d), sent, d), left, meant, k) &&
                     MayWait(urgent, capacity, perBuffer, left, meant[k..])
  }

  lemma ArrivesFromLog(batch: nat, urgent: Message -> bool, capacity: nat, perBuffer: nat, self: nat, sent: seq<Sent>,
                       packets: seq<(nat, seq<Message>)>, waiting: seq<seq<Message>>, left: Buf, d: nat)
    requires Fits(d, 4) && Fits(self, 4) && d != self && capacity < Pow256(4) && d < |waiting|
    requires |sent| == |packets| && AllSendable(batch, Given(packets, waiting, d))
    requires Holds(Put, capacity, left, waiting[d]) && Asks(urgent, left, waiting[d]) && !Due(left, perBuffer)
    requires forall i :: 0 <= i < |sent| ==>
      && sent[i] == Sent(packets[i].0, Framing.Packet(Put, packets[i].0, self, packets[i].1))
      && |sent[i].data| <= capacity
    ensures Arrives(batch, urgent, capacity, perBuffer, sent, left, Given(packets, waiting, d), d)
  {
    FromLog(batch, capacity, self, sent, packets, waiting, left, d);
    var k := |Shipped(packets, d)|;
    assert MayWait(urgent, capacity, perBuffer, left, Given(packets, waiting, d)[k..]);
  }

  lemma ExactStamps(stamp: (Entry<Message>, nat) -> Message, batch: nat, capacity: nat, nodes: nat, e: Entry<Message>)
    requires Transmissible(stamp, batch, capacity, nodes, e)
    ensures forall i: nat :: i < |e.dest| ==> Exact(Put, Size, stamp(e, i))
  {
    forall i: nat | i < |e.dest| ensures Exact(Put, Size, stamp(e, i)) {
      SizeIsExact(batch, stamp(e, i), []);
    }
  }

  lemma AllRegular()
    ensures Regular(Put)
  {
    forall m: Message, a, b ensures Put(m, a) + b == Put(m, a + b) {
      PutIsLocal(m, a, b);
    }
  }

  /** End to end: whatever entries a send thread is given, each receiver decodes from its
      packets, in order, the copies meant for it, and the rest of the copies is what waits in
      its buffer: few, and nothing urgent; no packet exceeds the network buffer. */
  method Transmit(batch: nat, stamp: (Entry<Message>, nat) -> Message, urgent: Message -> bool, self: nat, threads: nat,
                  td: nat, capacity: nat, perBuffer: nat, nodes: nat, entries: seq<Entry<Message>>, warm: seq<bool>)
    returns (sent: seq<Sent>, left: seq<Buf>)
    requires threads > 0 && perBuffer > 0 && HEADER <= capacity < Pow256(4) && Fits(nodes, 4) && Fits(self, 4)
    requires |warm| == |entries|
    requires forall e :: e in entries ==> Transmissible(stamp, batch, capacity, nodes, e)
    ensures |left| == nodes && forall i :: 0 <= i < |sent| ==> |sent[i].data| <= capacity
    ensures forall d :: 0 <= d < nodes && d != self ==>
      Arrives(batch, urgent, capacity, perBuffer, sent, left[d], AllCopies(stamp, entries, threads, td, d), d)
  {
    AllRegular();
    var thread := new MessageThread(Put, Size, urgent, stamp, self, threads, td, capacity, perBuffer, nodes);
    for k := 0 to |entries|
      invariant thread.Valid() && |thread.bufs| == nodes
      invariant thread.Flagged() && thread.Settled(nodes)
      invariant forall d :: 0 <= d < nodes ==> thread.Log(d) == AllCopies(stamp, entries[..k], threads, td, d)
    {
      ExactStamps(stamp, batch, capacity, nodes, entries[k]);
      thread.Run(entries[k], warm[k]);
      assert entries[..k + 1][..k] == entries[..k];
    }
    assert entries[..|entries|] == entries;
    sent, left := thread.sent, thread.bufs;
    forall d | 0 <= d < nodes && d != self
      ensures Arrives(batch, urgent, capacity, perBuffer, sent, left[d], AllCopies(stamp, entries, threads, td, d), d)
    {
      AllCopiesSendable(stamp, batch, capacity, nodes, entries, threads, td, d);
      assert Holds(Put, capacity, left[d], thread.waiting[d]);
      ArrivesFromLog(batch, urgent, capacity, perBuffer, self, sent, thread.packets, thread.waiting, left[d], d);
    }
  }

  // ----- The request to flush --------------------------------------------------

  /** The send thread ships a buffer at once if such a message is in it. */
  predicate Urgent(m: Message) {
    m.Generic? || m.header.force
  }

  /** The message send thread `j` of `threads` gets when an entry is enqueued. */
  function Dispatched(e: Entry<Message>, threads: nat, j: nat): Message
    requires threads > 0
  {
    if j + 1 < threads then OnWire(e.msg) else e.msg
  }

  /** A flush request survives exactly on the last send thread: every other one sends a copy
      that was encoded and decoded, and the request does not travel. */
  lemma FlushSurvivesIff(e: Entry<Message>, threads: nat, j: nat)
    requires j < threads && e.msg.header.force
    ensures Dispatched(e, threads, j).header.force <==> j == threads - 1
    ensures Urgent(Dispatched(e, threads, j)) <==> e.msg.Generic? || j == threads - 1
  {
  }

  /** With two send threads a forced vote for replicas 0 and 1 is urgent only for replica 1. */
  lemma ForcedVoteLosesFlush(h: Header, claim: Claim)
    ensures var e := Entry(Sync(h.(force := true), claim, None, false), [0, 1], []);
      && Urgent(e.msg)
      && !Urgent(Dispatched(e, 2, 0 % 2)) && Urgent(Dispatched(e, 2, 1 % 2))
  {
    var e := Entry(Sync(h.(force := true), claim, None, false), [0, 1], []);
    FlushSurvivesIff(e, 2, 0);
    FlushSurvivesIff(e, 2, 1);
  }

  /** So of the destinations of a forced message that is no leader message, those are shipped
      to at once whose number leaves the remainder `threads - 1`, and no others. */
  method EnqueueForced(queues: seq<seq<Entry<Message>>>, e: Entry<Message>) returns (r: seq<seq<Entry<Message>>>)
    requires |queues| > 0 && e.msg.header.force
    ensures |r| == |queues|
    ensures forall d :: d in e.dest ==>
      var j := d % |queues|;
      && |r[j]| == |queues[j]| + 1 && r[j][..|queues[j]|] == queues[j]
      && r[j][|queues[j]|].dest == e.dest
      && (Urgent(r[j][|queues[j]|].msg) <==> e.msg.Generic? || j == |queues| - 1)
  {
    r := Enqueue(OnWire, queues, e);
    forall d | d in e.dest
      ensures var j := d % |queues|;
        && r[j] == queues[j] + [e.(msg := Dispatched(e, |queues|, j))]
        && (Urgent(Dispatched(e, |queues|, j)) <==> e.msg.Generic? || j == |queues| - 1)
    {
      var j := d % |queues|;
      FlushSurvivesIff(e, |queues|, j);
      assert Routed(e.dest, |queues|, j);
    }
  }

  // ----- Signatures ------------------------------------------------------------

  function Signed(m: Message, signature: bytes, key: bytes): Message {
    m.(header := m.header.(signature := signature, key := key))
  }

  /** What a send thread writes for the `i`-th destination: its own signature, if there are any. */
  function Sign(key: nat -> bytes, e: Entry<Message>, i: nat): Message {
    if i < |e.signs| && i < |e.dest| then Signed(e.msg, e.signs[i], key(e.dest[i])) else e.msg
  }

  /** Every destination of an entry that is signed for each is sent the message with its own
      signature, and of an unsigned one the message as it is, whichever thread serves it. */
  method EnqueueSigned(key: nat -> bytes, queues: seq<seq<Entry<Message>>>, e: Entry<Message>)
    returns (r: seq<seq<Entry<Message>>>)
    requires |queues| > 0 && (e.signs == [] || |e.signs| == |e.dest|)
    ensures |r| == |queues|
    ensures forall i: nat :: i < |e.dest| ==>
      var j := e.dest[i] % |queues|;
      && |r[j]| == |queues[j]| + 1 && r[j][..|queues[j]|] == queues[j]
      && var x := r[j][|queues[j]|];
         && x.dest == e.dest && x.signs == e.signs
         && OnWire(Sign(key, x, i)) ==
              OnWire(if e.signs == [] then e.msg else Signed(e.msg, e.signs[i], key(e.dest[i])))
  {
    r := Enqueue(OnWire, queues, e);
    forall i: nat | i < |e.dest|
      ensures var j := e.dest[i] % |queues|;
        && r[j] == queues[j] + [e.(msg := Dispatched(e, |queues|, j))]
        && OnWire(Sign(key, e.(msg := Dispatched(e, |queues|, j)), i)) ==
             OnWire(if e.signs == [] then e.msg else Signed(e.msg, e.signs[i], key(e.dest[i])))
    {
      assert Routed(e.dest, |queues|, e.dest[i] % |queues|);
    }
  }
}
