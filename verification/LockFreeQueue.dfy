/** The compare-and-swap queue, interleaved at single reads, writes and swaps of
    the shared pointers, for any number of threads. Nodes are never reused. */
module LockFreeQueue {
  import opened Sequences

  datatype Ptr = Null | At(id: nat)

  /** Values are opaque words. */
  datatype Node = Node(value: int, next: Ptr)

  /** Where a thread stands: what it does next, with its local variables. */
  datatype Pc =
    | Idle
    // enqueue
    | LoadHead(mine: nat)
    | SwapHead(mine: nat, found: Ptr)
    | Publish(mine: nat, found: Ptr)
    // dequeue
    | LoadTail
    | PeekHead(tail: Ptr)
    | Examine(tail: Ptr, head: Ptr)
    | LoadNext(at: nat)
    | MoveTail(at: nat, next: Ptr)
    | ClearHead(at: nat)
    | ClearTail(at: nat)
    | Return(at: nat)

  /** The shared memory and the threads, with three histories: `order`, the nodes
      in the order of the successful head swaps; `taken`, those won by a dequeue,
      in the order of the swaps that won them; `returned`, those handed back. */
  datatype Queue = Queue(head: Ptr, tail: Ptr, nodes: seq<Node>, threads: seq<Pc>,
                         order: seq<nat>, taken: seq<nat>, returned: seq<nat>)

  datatype Event = Enqueue(t: nat, value: int) | Dequeue(t: nat) | Go(t: nat)

  function Empty(threads: nat): Queue {
    Queue(Null, Null, [], seq(threads, _ => Idle), [], [], [])
  }

  function Goto(s: Queue, t: nat, pc: Pc): Queue
    requires t < |s.threads|
  {
    s.(threads := s.threads[t := pc])
  }

  /** One step of thread `t` inside a call. */
  function Act(s: Queue, t: nat): Queue
    requires t < |s.threads|
  {
    match s.threads[t]
    case Idle => s
    case LoadHead(n) => Goto(s, t, SwapHead(n, s.head))
    case SwapHead(n, found) =>
      if s.head == found then Goto(s, t, Publish(n, found)).(head := At(n), order := s.order + [n])
      else Goto(s, t, LoadHead(n))
    case Publish(n, found) =>
      if found.Null? then Goto(s, t, Idle).(tail := At(n))
      else if found.id < |s.nodes| then
        Goto(s, t, Idle).(nodes := s.nodes[found.id := s.nodes[found.id].(next := At(n))])
      else s
    case LoadTail => Goto(s, t, PeekHead(s.tail))
    case PeekHead(tail) => Goto(s, t, Examine(tail, s.head))
    case Examine(tail, head) =>
      if tail.Null? then Goto(s, t, Idle)
      else if NextOf(s, tail.id) != Null then Goto(s, t, LoadNext(tail.id))
      else if tail == head then Goto(s, t, ClearHead(tail.id))
      else Goto(s, t, LoadTail)
    case LoadNext(x) => Goto(s, t, MoveTail(x, NextOf(s, x)))
    case MoveTail(x, next) =>
      if s.tail == At(x) then Goto(s, t, Return(x)).(tail := next, taken := s.taken + [x])
      else Goto(s, t, LoadTail)
    case ClearHead(x) =>
      if s.head == At(x) then Goto(s, t, ClearTail(x)).(head := Null, taken := s.taken + [x])
      else Goto(s, t, LoadTail)
    case ClearTail(x) =>
      Goto(s, t, Return(x)).(tail := if s.tail == At(x) then Null else s.tail)
    case Return(x) => Goto(s, t, Idle).(returned := s.returned + [x])
  }

  function NextOf(s: Queue, x: nat): Ptr {
    if x < |s.nodes| then s.nodes[x].next else Null
  }

  /** An idle thread may start a call, a busy one takes its next step. */
  function Next(s: Queue, e: Event): Queue {
    if e.t >= |s.threads| then s
    else
      match e
      case Enqueue(t, v) =>
        if s.threads[t] != Idle then s
        else Goto(s, t, LoadHead(|s.nodes|)).(nodes := s.nodes + [Node(v, Null)])
      case Dequeue(t) => if s.threads[t] != Idle then s else Goto(s, t, LoadTail)
      case Go(t) => Act(s, t)
  }

  function Run(s: Queue, events: seq<Event>): Queue
    decreases |events|
  {
    if events == [] then s else Run(Next(s, events[0]), events[1..])
  }

  // ----- The invariant ---------------------------------------------------------

  /** The first node not taken is what the tail points to. */
  predicate Live(s: Queue) {
    |s.taken| < |s.order| && s.tail == At(s.order[|s.taken|])
  }

  /** The histories agree with each other and with the head. */
  predicate Shape(s: Queue) {
    && s.taken <= s.order
    && NoDup(s.order)
    && (forall i :: 0 <= i < |s.order| ==> s.order[i] < |s.nodes|)
    && s.head == (if |s.taken| == |s.order| then Null else At(s.order[|s.order| - 1]))
  }

  /** Some thread stands at `pc`. */
  predicate Someone(threads: seq<Pc>, pc: Pc) {
    exists t :: 0 <= t < |threads| && threads[t] == pc
  }

  /** A tail that is not live is empty or the last node taken, which its taker is
      about to clear; if nodes wait behind it, the first one is about to be published. */
  predicate TailOk(s: Queue)
    requires Shape(s)
  {
    var k := |s.taken|;
    Live(s) ||
    (&& (s.tail == Null || (k > 0 && s.tail == At(s.order[k - 1]) && s.nodes[s.order[k - 1]].next == Null
                            && Someone(s.threads, ClearTail(s.order[k - 1]))))
     && (k < |s.order| ==> Someone(s.threads, Publish(s.order[k], Null))))
  }

  /** Links lead to the next node in order, or are about to be written. */
  predicate LinkOk(s: Queue, i: nat)
    requires Shape(s) && i < |s.order|
  {
    var next := s.nodes[s.order[i]].next;
    && (next == Null || (i + 1 < |s.order| && next == At(s.order[i + 1])))
    && (|s.taken| <= i && i + 1 < |s.order| && next == Null ==>
          Someone(s.threads, Publish(s.order[i + 1], At(s.order[i]))))
  }

  predicate LinksOk(s: Queue)
    requires Shape(s)
  {
    && (forall i :: 0 <= i < |s.order| ==> LinkOk(s, i))
    && (forall x :: 0 <= x < |s.nodes| && x !in s.order ==> s.nodes[x].next == Null)
  }

  /** A tail a dequeue has read: taken since, or the live one. */
  predicate Seen(s: Queue, x: nat) {
    x in s.taken || (Live(s) && s.tail == At(x))
  }

  predicate Pending(s: Queue, n: nat, x: nat, i: nat) {
    && |s.taken| <= i && i + 1 < |s.order| && s.order[i] == x && s.order[i + 1] == n
    && x < |s.nodes| && s.nodes[x].next == Null
  }

  ghost predicate ThreadOk(s: Queue, pc: Pc) {
    match pc
    case Idle => true
    case LoadHead(n) => n < |s.nodes| && n !in s.order
    case SwapHead(n, _) => n < |s.nodes| && n !in s.order
    case Publish(n, found) =>
      && n < |s.nodes| && n in s.order
      && (if found.Null? then |s.taken| < |s.order| && n == s.order[|s.taken|] && !Live(s)
          else exists i: nat :: Pending(s, n, found.id, i))
    case LoadTail => true
    case PeekHead(tail) => tail.At? ==> Seen(s, tail.id)
    case Examine(tail, _) => tail.At? ==> Seen(s, tail.id)
    case LoadNext(x) => Seen(s, x) && NextOf(s, x) != Null
    case MoveTail(x, next) => Seen(s, x) && NextOf(s, x) == next != Null
    case ClearHead(x) => Seen(s, x)
    case ClearTail(x) => x in s.taken && x !in s.returned
    case Return(x) => x in s.taken && x !in s.returned
  }

  ghost predicate ThreadsOk(s: Queue) {
    forall t :: 0 <= t < |s.threads| ==> ThreadOk(s, s.threads[t])
  }

  predicate Enqueuing(pc: Pc) {
    pc.LoadHead? || pc.SwapHead? || pc.Publish?
  }

  predicate Holding(pc: Pc, x: nat) {
    pc == ClearTail(x) || pc == Return(x)
  }

  predicate Clash(p: Pc, q: Pc) {
    || (Enqueuing(p) && Enqueuing(q) && p.mine == q.mine)
    || ((p.ClearTail? || p.Return?) && Holding(q, p.at))
  }

  /** No two threads work on the same node. */
  predicate Apart(threads: seq<Pc>) {
    forall t, u :: 0 <= t < u < |threads| ==> !Clash(threads[t], threads[u])
  }

  /** Every node taken was returned or is about to be. */
  predicate Accounted(s: Queue) {
    && NoDup(s.returned)
    && (forall x :: x in s.returned ==> x in s.taken)
    && (forall x :: x in s.taken && x !in s.returned ==> Held(s.threads, x))
  }

  predicate Held(threads: seq<Pc>, x: nat) {
    exists t :: 0 <= t < |threads| && Holding(threads[t], x)
  }

  ghost predicate Inv(s: Queue) {
    Shape(s) && TailOk(s) && LinksOk(s) && ThreadsOk(s) && Apart(s.threads) && Accounted(s)
  }

  // ----- Every step keeps the invariant ----------------------------------------

  lemma SomeoneStays(threads: seq<Pc>, t: nat, pc: Pc, who: Pc)
    requires t < |threads| && threads[t] != who && Someone(threads, who)
    ensures Someone(threads[t := pc], who)
  {
    var u :| 0 <= u < |threads| && threads[u] == who;
    assert threads[t := pc][u] == who;
  }

  lemma HeldStays(threads: seq<Pc>, t: nat, pc: Pc, x: nat)
    requires t < |threads| && Held(threads, x) && (Holding(threads[t], x) ==> Holding(pc, x))
    ensures Held(threads[t := pc], x)
  {
    var u :| 0 <= u < |threads| && Holding(threads[u], x);
    assert Holding(threads[t := pc][u], x);
  }

  /** The thread becomes `pc` without touching a node it did not work on. */
  lemma ApartStays(threads: seq<Pc>, t: nat, pc: Pc)
    requires t < |threads| && Apart(threads)
    requires forall u :: 0 <= u < |threads| && u != t ==> !Clash(threads[u], pc)
    ensures Apart(threads[t := pc])
  {
  }

  predicate Quiet(pc: Pc) {
    !pc.Publish? && !pc.ClearTail? && !pc.Return?
  }

  /** Steps that only move the thread on, before it has won anything. */
  lemma LocalStep(s: Queue, t: nat, pc: Pc)
    requires Inv(s) && t < |s.threads|
    requires Quiet(s.threads[t]) && Quiet(pc) && ThreadOk(s, pc)
    requires Enqueuing(pc) ==> Enqueuing(s.threads[t]) && s.threads[t].mine == pc.mine
    ensures Inv(Goto(s, t, pc))
  {
    var s' := Goto(s, t, pc);
    ApartStays(s.threads, t, pc);
    MemoryUntouched(s, t, pc);
    forall u | 0 <= u < |s'.threads| ensures ThreadOk(s', s'.threads[u]) {
      SameThreadOk(s, s', s'.threads[u]);
    }
    forall x | x in s.taken && x !in s.returned ensures Held(s'.threads, x) {
      HeldStays(s.threads, t, pc, x);
    }
  }

  lemma SameThreadOk(s: Queue, s': Queue, pc: Pc)
    requires s' == s.(threads := s'.threads) && ThreadOk(s, pc)
    ensures ThreadOk(s', pc)
  {
    if pc.Publish? && pc.found.At? {
      var i: nat :| Pending(s, pc.mine, pc.found.id, i);
      assert Pending(s', pc.mine, pc.found.id, i);
    }
  }

  lemma MemoryUntouched(s: Queue, t: nat, pc: Pc)
    requires Shape(s) && TailOk(s) && LinksOk(s) && t < |s.threads|
    requires !s.threads[t].Publish? && !s.threads[t].ClearTail?
    ensures var s' := Goto(s, t, pc); Shape(s') && TailOk(s') && LinksOk(s')
  {
    var s', k := Goto(s, t, pc), |s.taken|;
    if !Live(s) {
      if s.tail != Null {
        SomeoneStays(s.threads, t, pc, ClearTail(s.order[k - 1]));
      }
      if k < |s.order| {
        SomeoneStays(s.threads, t, pc, Publish(s.order[k], Null));
      }
    }
    forall i | 0 <= i < |s'.order| ensures LinkOk(s', i) {
      assert LinkOk(s, i);
      if k <= i && i + 1 < |s.order| && s.nodes[s.order[i]].next == Null {
        SomeoneStays(s.threads, t, pc, Publish(s.order[i + 1], At(s.order[i])));
      }
    }
  }

  lemma Allocates(s: Queue, t: nat, value: int)
    requires Inv(s) && t < |s.threads| && s.threads[t] == Idle
    ensures Inv(Goto(s, t, LoadHead(|s.nodes|)).(nodes := s.nodes + [Node(value, Null)]))
  {
    var pc := LoadHead(|s.nodes|);
    var s1 := s.(nodes := s.nodes + [Node(value, Null)]);
    var s' := Goto(s1, t, pc);
    forall i | 0 <= i < |s1.order| ensures LinkOk(s1, i) {
      assert LinkOk(s, i);
    }
    MemoryUntouched(s1, t, pc);
    assert forall u :: 0 <= u < |s.threads| ==> ThreadOk(s, s.threads[u]);
    ApartStays(s.threads, t, pc);
    forall u | 0 <= u < |s'.threads| ensures ThreadOk(s', s'.threads[u]) {
      if u != t {
        var q := s.threads[u];
        assert ThreadOk(s, q);
        if q.Publish? && q.found.At? {
          var i: nat :| Pending(s, q.mine, q.found.id, i);
          assert Pending(s', q.mine, q.found.id, i);
        }
      }
    }
    forall x | x in s.taken && x !in s.returned ensures Held(s'.threads, x) {
      HeldStays(s.threads, t, pc, x);
    }
  }

  /** The head swap succeeds. */
  lemma SwapsHead(s: Queue, t: nat)
    requires Inv(s) && t < |s.threads| && s.threads[t].SwapHead? && s.head == s.threads[t].found
    ensures Inv(Act(s, t))
  {
    var n, found, k := s.threads[t].mine, s.head, |s.taken|;
    var pc := Publish(n, found);
    var s' := Act(s, t);
    assert s' == Goto(s, t, pc).(head := At(n), order := s.order + [n]);
    assert ThreadOk(s, s.threads[t]);
    assert s'.threads[t] == pc;
    assert Shape(s');
    SwapKeepsMemory(s, t);
    ApartStays(s.threads, t, pc);
    forall u | 0 <= u < |s'.threads| ensures ThreadOk(s', s'.threads[u]) {
      var q := s'.threads[u];
      if u == t {
        assert found.At? ==> LinkOk(s, |s.order| - 1) && Pending(s', n, found.id, |s.order| - 1);
      } else {
        assert ThreadOk(s, q);
        assert !Clash(s.threads[t], q) && !Clash(q, s.threads[t]);
        if q.Publish? && q.found.At? {
          var i: nat :| Pending(s, q.mine, q.found.id, i);
          assert Pending(s', q.mine, q.found.id, i);
        }
      }
    }
    forall x | x in s.taken && x !in s.returned ensures Held(s'.threads, x) {
      HeldStays(s.threads, t, pc, x);
    }
  }

  lemma SwapKeepsMemory(s: Queue, t: nat)
    requires Inv(s) && t < |s.threads| && s.threads[t].SwapHead? && s.head == s.threads[t].found
    requires Shape(Act(s, t))
    ensures TailOk(Act(s, t)) && LinksOk(Act(s, t)) && Live(Act(s, t)) == Live(s)
  {
    var n, k := s.threads[t].mine, |s.taken|;
    var s', pc := Act(s, t), Publish(n, s.head);
    assert ThreadOk(s, s.threads[t]);
    assert s'.threads[t] == pc;
    assert Someone(s'.threads, pc);
    MemoryUntouched(s, t, pc);
    forall i | 0 <= i < |s'.order| ensures LinkOk(s', i) {
      if i < |s.order| {
        assert LinkOk(Goto(s, t, pc), i);
      }
    }
  }

  /** The first node of an empty queue becomes the tail. */
  lemma PublishesTail(s: Queue, t: nat)
    requires Inv(s) && t < |s.threads| && s.threads[t].Publish? && s.threads[t].found == Null
    ensures Inv(Act(s, t))
  {
    var n, k := s.threads[t].mine, |s.taken|;
    var s' := Act(s, t);
    assert s' == Goto(s, t, Idle).(tail := At(n));
    assert ThreadOk(s, s.threads[t]);
    ApartStays(s.threads, t, Idle);
    assert Shape(s') && Live(s');
    forall i | 0 <= i < |s'.order| ensures LinkOk(s', i) {
      assert LinkOk(s, i);
      if k <= i && i + 1 < |s.order| && s.nodes[s.order[i]].next == Null {
        SomeoneStays(s.threads, t, Idle, Publish(s.order[i + 1], At(s.order[i])));
      }
    }
    forall u | 0 <= u < |s'.threads| ensures ThreadOk(s', s'.threads[u]) {
      var q := s'.threads[u];
      if u != t {
        assert ThreadOk(s, q);
        assert !Clash(s.threads[t], q) && !Clash(q, s.threads[t]);
        if q.Publish? && q.found.At? {
          var i: nat :| Pending(s, q.mine, q.found.id, i);
          assert Pending(s', q.mine, q.found.id, i);
        }
      }
    }
    forall x | x in s.taken && x !in s.returned ensures Held(s'.threads, x) {
      HeldStays(s.threads, t, Idle, x);
    }
  }

  /** A node is linked behind its predecessor. */
  lemma PublishesLink(s: Queue, t: nat)
    requires Inv(s) && t < |s.threads| && s.threads[t].Publish? && s.threads[t].found.At?
    ensures Inv(Act(s, t))
  {
    var n, x, k := s.threads[t].mine, s.threads[t].found.id, |s.taken|;
    assert ThreadOk(s, s.threads[t]);
    var at: nat :| Pending(s, n, x, at);
    var s' := Act(s, t);
    assert s' == Goto(s, t, Idle).(nodes := s.nodes[x := s.nodes[x].(next := At(n))]);
    LinkKeepsMemory(s, t, at);
    ApartStays(s.threads, t, Idle);
    forall u | 0 <= u < |s'.threads| && u != t ensures ThreadOk(s', s'.threads[u]) {
      LinkSeenBy(s, t, at, u);
    }
    forall y | y in s.taken && y !in s.returned ensures Held(s'.threads, y) {
      HeldStays(s.threads, t, Idle, y);
    }
  }

  lemma LinkSeenBy(s: Queue, t: nat, at: nat, u: nat)
    requires Inv(s) && t < |s.threads| && s.threads[t].Publish? && s.threads[t].found.At?
    requires Pending(s, s.threads[t].mine, s.threads[t].found.id, at)
    requires u < |s.threads| && u != t
    ensures ThreadOk(Act(s, t), s.threads[u])
  {
    var q, s' := s.threads[u], Act(s, t);
    assert ThreadOk(s, q);
    assert !Clash(s.threads[t], q) && !Clash(q, s.threads[t]);
    if q.Publish? && q.found.At? {
      var i: nat :| Pending(s, q.mine, q.found.id, i);
      assert i != at;
      assert Pending(s', q.mine, q.found.id, i);
    }
  }

  lemma LinkKeepsMemory(s: Queue, t: nat, at: nat)
    requires Inv(s) && t < |s.threads| && s.threads[t].Publish? && s.threads[t].found.At?
    requires Pending(s, s.threads[t].mine, s.threads[t].found.id, at)
    ensures Shape(Act(s, t)) && TailOk(Act(s, t)) && LinksOk(Act(s, t)) && Live(Act(s, t)) == Live(s)
  {
    var n, x, k := s.threads[t].mine, s.threads[t].found.id, |s.taken|;
    var s' := Act(s, t);
    if !Live(s) {
      if s.tail != Null {
        SomeoneStays(s.threads, t, Idle, ClearTail(s.order[k - 1]));
      }
      if k < |s.order| {
        SomeoneStays(s.threads, t, Idle, Publish(s.order[k], Null));
      }
    }
    forall i | 0 <= i < |s'.order| ensures LinkOk(s', i) {
      assert LinkOk(s, i);
      if i != at && k <= i && i + 1 < |s.order| && s.nodes[s.order[i]].next == Null {
        SomeoneStays(s.threads, t, Idle, Publish(s.order[i + 1], At(s.order[i])));
      }
    }
  }

  /** Only the first node not yet taken can be won. */
  lemma WonIsFirst(s: Queue, t: nat)
    requires Inv(s) && t < |s.threads|
    requires var pc := s.threads[t];
      || (pc.MoveTail? && s.tail == At(pc.at))
      || (pc.ClearHead? && s.head == At(pc.at))
    ensures Live(s) && s.threads[t].at == s.order[|s.taken|] && s.threads[t].at !in s.taken
    ensures s.threads[t].MoveTail? ==>
      |s.taken| + 1 < |s.order| && s.threads[t].next == At(s.order[|s.taken| + 1])
    ensures s.threads[t].ClearHead? ==>
      |s.taken| + 1 == |s.order| && s.nodes[s.threads[t].at].next == Null
  {
    var pc, k := s.threads[t], |s.taken|;
    assert ThreadOk(s, pc);
    assert forall i :: 0 <= i < k ==> s.taken[i] == s.order[i];
    if k < |s.order| {
      assert LinkOk(s, k);
    }
  }

  /** A dequeue wins a node that has a successor. */
  lemma MovesTail(s: Queue, t: nat)
    requires Inv(s) && t < |s.threads| && s.threads[t].MoveTail? && s.tail == At(s.threads[t].at)
    ensures Inv(Act(s, t))
  {
    var x, k := s.threads[t].at, |s.taken|;
    WonIsFirst(s, t);
    var s' := Act(s, t);
    assert s' == Goto(s, t, Return(x)).(tail := s.threads[t].next, taken := s.taken + [x]);
    MemoryUntouched(s, t, Return(x));
    assert s'.taken == s.order[..k + 1];
    forall i | 0 <= i < |s'.order| ensures LinkOk(s', i) {
      assert LinkOk(Goto(s, t, Return(x)), i);
    }
    WinnerApart(s, t, Return(x));
    forall u | 0 <= u < |s'.threads| ensures ThreadOk(s', s'.threads[u]) {
      OthersSeeWin(s, s', s'.threads[u], u == t);
    }
    WinnerHolds(s, t, Return(x));
  }

  /** A dequeue wins the last node. */
  lemma ClearsHead(s: Queue, t: nat)
    requires Inv(s) && t < |s.threads| && s.threads[t].ClearHead? && s.head == At(s.threads[t].at)
    ensures Inv(Act(s, t))
  {
    var x, k := s.threads[t].at, |s.taken|;
    WonIsFirst(s, t);
    var s' := Act(s, t);
    assert s' == Goto(s, t, ClearTail(x)).(head := Null, taken := s.taken + [x]);
    MemoryUntouched(s, t, ClearTail(x));
    assert s'.taken == s.order[..k + 1];
    assert s'.threads[t] == ClearTail(x);
    assert Someone(s'.threads, ClearTail(x));
    forall i | 0 <= i < |s'.order| ensures LinkOk(s', i) {
      assert LinkOk(Goto(s, t, ClearTail(x)), i);
    }
    WinnerApart(s, t, ClearTail(x));
    forall u | 0 <= u < |s'.threads| ensures ThreadOk(s', s'.threads[u]) {
      OthersSeeWin(s, s', s'.threads[u], u == t);
    }
    WinnerHolds(s, t, ClearTail(x));
  }

  lemma WinnerApart(s: Queue, t: nat, pc: Pc)
    requires Inv(s) && t < |s.threads| && (pc.ClearTail? || pc.Return?) && pc.at !in s.taken
    ensures Apart(s.threads[t := pc])
  {
    forall u | 0 <= u < |s.threads| && u != t ensures !Clash(s.threads[u], pc) {
      assert ThreadOk(s, s.threads[u]);
    }
    ApartStays(s.threads, t, pc);
  }

  lemma WinnerHolds(s: Queue, t: nat, pc: Pc)
    requires Inv(s) && t < |s.threads| && Quiet(s.threads[t]) && (pc.ClearTail? || pc.Return?)
    ensures Held(s.threads[t := pc], pc.at)
    ensures forall x :: x in s.taken && x !in s.returned ==> Held(s.threads[t := pc], x)
  {
    assert Holding(s.threads[t := pc][t], pc.at);
    forall x | x in s.taken && x !in s.returned ensures Held(s.threads[t := pc], x) {
      if x != pc.at {
        HeldStays(s.threads, t, pc, x);
      }
    }
  }

  /** What a win of the first node means to the thread that won and to the others. */
  lemma OthersSeeWin(s: Queue, s': Queue, pc: Pc, won: bool)
    requires Inv(s) && Live(s) && s'.nodes == s.nodes && s'.order == s.order && s'.returned == s.returned
    requires s'.taken == s.taken + [s.order[|s.taken|]]
    requires !won ==> ThreadOk(s, pc)
    requires won ==> (pc.ClearTail? || pc.Return?) && pc.at == s.order[|s.taken|] && pc.at !in s.taken
    requires s.nodes[s.order[|s.taken|]].next == Null ==> |s.taken| + 1 == |s.order|
    ensures ThreadOk(s', pc)
  {
    if pc.Publish? && pc.found.At? {
      var i: nat :| Pending(s, pc.mine, pc.found.id, i);
      assert Pending(s', pc.mine, pc.found.id, i);
    }
  }

  /** The winner of the last node clears the tail unless a newer node is there. */
  lemma ClearsTail(s: Queue, t: nat)
    requires Inv(s) && t < |s.threads| && s.threads[t].ClearTail?
    ensures Inv(Act(s, t))
  {
    var x := s.threads[t].at;
    var s' := Act(s, t);
    assert s' == Goto(s, t, Return(x)).(tail := if s.tail == At(x) then Null else s.tail);
    assert ThreadOk(s, s.threads[t]);
    ClearKeepsMemory(s, t);
    ApartStays(s.threads, t, Return(x));
    forall u | 0 <= u < |s'.threads| ensures ThreadOk(s', s'.threads[u]) {
      var q := s'.threads[u];
      assert u != t ==> ThreadOk(s, q);
      if q.Publish? && q.found.At? {
        var i: nat :| Pending(s, q.mine, q.found.id, i);
        assert Pending(s', q.mine, q.found.id, i);
      }
    }
    forall y | y in s.taken && y !in s.returned ensures Held(s'.threads, y) {
      HeldStays(s.threads, t, Return(x), y);
    }
  }

  lemma ClearKeepsMemory(s: Queue, t: nat)
    requires Inv(s) && t < |s.threads| && s.threads[t].ClearTail?
    ensures Shape(Act(s, t)) && TailOk(Act(s, t)) && LinksOk(Act(s, t)) && Live(Act(s, t)) == Live(s)
    ensures Live(s) ==> Act(s, t).tail == s.tail
  {
    var x, k := s.threads[t].at, |s.taken|;
    var s' := Act(s, t);
    assert ThreadOk(s, s.threads[t]);
    assert forall i :: 0 <= i < k ==> s.taken[i] == s.order[i];
    if !Live(s) {
      if s'.tail != Null {
        SomeoneStays(s.threads, t, Return(x), ClearTail(s.order[k - 1]));
      }
      if k < |s.order| {
        SomeoneStays(s.threads, t, Return(x), Publish(s.order[k], Null));
      }
    }
    forall i | 0 <= i < |s'.order| ensures LinkOk(s', i) {
      assert LinkOk(s, i);
      if k <= i && i + 1 < |s.order| && s.nodes[s.order[i]].next == Null {
        SomeoneStays(s.threads, t, Return(x), Publish(s.order[i + 1], At(s.order[i])));
      }
    }
  }

  /** A dequeue returns the value of the node it won. */
  lemma Returns(s: Queue, t: nat)
    requires Inv(s) && t < |s.threads| && s.threads[t].Return?
    ensures Inv(Act(s, t))
  {
    var x := s.threads[t].at;
    var s' := Act(s, t);
    assert s' == Goto(s, t, Idle).(returned := s.returned + [x]);
    assert ThreadOk(s, s.threads[t]);
    MemoryUntouched(s, t, Idle);
    forall i | 0 <= i < |s'.order| ensures LinkOk(s', i) {
      assert LinkOk(Goto(s, t, Idle), i);
    }
    ApartStays(s.threads, t, Idle);
    forall u | 0 <= u < |s'.threads| && u != t ensures ThreadOk(s', s'.threads[u]) {
      ReturnSeenBy(s, t, u);
    }
    forall y | y in s.taken && y !in s'.returned ensures Held(s'.threads, y) {
      HeldStays(s.threads, t, Idle, y);
    }
  }

  lemma ReturnSeenBy(s: Queue, t: nat, u: nat)
    requires Inv(s) && t < |s.threads| && s.threads[t].Return? && u < |s.threads| && u != t
    ensures ThreadOk(Act(s, t), s.threads[u])
  {
    var q, s' := s.threads[u], Act(s, t);
    assert ThreadOk(s, q);
    assert !Clash(s.threads[t], q) && !Clash(q, s.threads[t]);
    if q.Publish? && q.found.At? {
      var i: nat :| Pending(s, q.mine, q.found.id, i);
      assert Pending(s', q.mine, q.found.id, i);
    }
  }

  lemma ActKeepsInv(s: Queue, t: nat)
    requires Inv(s) && t < |s.threads|
    ensures Inv(Act(s, t))
  {
    var pc := s.threads[t];
    assert ThreadOk(s, pc);
    match pc {
      case Idle =>
      case LoadHead(n) => LocalStep(s, t, SwapHead(n, s.head));
      case SwapHead(n, found) =>
        if s.head == found { SwapsHead(s, t); } else { LocalStep(s, t, LoadHead(n)); }
      case Publish(_, found) =>
        if found == Null { PublishesTail(s, t); } else { PublishesLink(s, t); }
      case LoadTail =>
        assert s.tail.At? ==> Seen(s, s.tail.id) by { TailIsSeen(s); }
        LocalStep(s, t, PeekHead(s.tail));
      case PeekHead(tail) => LocalStep(s, t, Examine(tail, s.head));
      case Examine(tail, head) => Examines(s, t);
      case LoadNext(x) => LocalStep(s, t, MoveTail(x, NextOf(s, x)));
      case MoveTail(x, _) =>
        if s.tail == At(x) { MovesTail(s, t); } else { LocalStep(s, t, LoadTail); }
      case ClearHead(x) =>
        if s.head == At(x) { ClearsHead(s, t); } else { LocalStep(s, t, LoadTail); }
      case ClearTail(_) => ClearsTail(s, t);
      case Return(_) => Returns(s, t);
    }
  }

  lemma TailIsSeen(s: Queue)
    requires Shape(s) && TailOk(s)
    ensures s.tail.At? ==> Seen(s, s.tail.id)
  {
    if s.tail.At? && !Live(s) {
      assert s.taken[|s.taken| - 1] == s.order[|s.taken| - 1];
    }
  }

  lemma Examines(s: Queue, t: nat)
    requires Inv(s) && t < |s.threads| && s.threads[t].Examine?
    ensures Inv(Act(s, t))
  {
    var pc := s.threads[t];
    assert ThreadOk(s, pc);
    if pc.tail.Null? {
      LocalStep(s, t, Idle);
    } else if NextOf(s, pc.tail.id) != Null {
      LocalStep(s, t, LoadNext(pc.tail.id));
    } else if pc.tail == pc.head {
      LocalStep(s, t, ClearHead(pc.tail.id));
    } else {
      LocalStep(s, t, LoadTail);
    }
  }

  lemma NextKeepsInv(s: Queue, e: Event)
    requires Inv(s)
    ensures Inv(Next(s, e))
  {
    if e.t < |s.threads| {
      if e.Go? {
        ActKeepsInv(s, e.t);
      } else if s.threads[e.t] == Idle {
        CallKeepsInv(s, e);
      }
    }
  }

  lemma NextKeepsThreads(s: Queue, e: Event)
    ensures |Next(s, e).threads| == |s.threads|
  {
  }

  lemma CallKeepsInv(s: Queue, e: Event)
    requires Inv(s) && e.t < |s.threads| && s.threads[e.t] == Idle && !e.Go?
    ensures Inv(Next(s, e))
  {
    if e.Enqueue? {
      Allocates(s, e.t, e.value);
    } else {
      LocalStep(s, e.t, LoadTail);
    }
  }

  lemma {:induction false} RunKeepsInv(s: Queue, events: seq<Event>)
    requires Inv(s)
    ensures Inv(Run(s, events)) && |Run(s, events).threads| == |s.threads|
    decreases |events|
  {
    if events != [] {
      NextKeepsInv(s, events[0]);
      NextKeepsThreads(s, events[0]);
      RunKeepsInv(Next(s, events[0]), events[1..]);
    }
  }

  // ----- What the queue promises -----------------------------------------------

  /** Every run: the dequeues win exactly the longest-waiting nodes, in the order of
      the head swaps; no node is returned twice, and each one won was returned
      or is held by exactly one thread. */
  lemma FifoExactlyOnce(threads: nat, events: seq<Event>)
    ensures var s := Run(Empty(threads), events);
      && NoDup(s.order) && s.taken <= s.order && NoDup(s.returned)
      && (forall x :: x in s.returned ==> x in s.taken)
      && (forall x :: x in s.taken ==> (x in s.returned <==> !Held(s.threads, x)))
      && (forall t, u, x :: 0 <= t < u < |s.threads| && Holding(s.threads[t], x) ==> !Holding(s.threads[u], x))
  {
    RunKeepsInv(Empty(threads), events);
    var s := Run(Empty(threads), events);
    forall x | x in s.returned ensures !Held(s.threads, x) {
      forall t | 0 <= t < |s.threads| ensures !Holding(s.threads[t], x) {
        assert ThreadOk(s, s.threads[t]);
      }
    }
    forall t, u, x | 0 <= t < u < |s.threads| && Holding(s.threads[t], x) ensures !Holding(s.threads[u], x) {
      assert !Clash(s.threads[t], s.threads[u]);
    }
  }

  predicate Quiescent(s: Queue) {
    forall t :: 0 <= t < |s.threads| ==> s.threads[t] == Idle
  }

  /** Following the links from `p` meets exactly `rest`. */
  predicate Chain(nodes: seq<Node>, p: Ptr, rest: seq<nat>)
    decreases |rest|
  {
    if rest == [] then p == Null
    else p == At(rest[0]) && rest[0] < |nodes| && Chain(nodes, nodes[rest[0]].next, rest[1..])
  }

  lemma {:induction false} ChainFrom(s: Queue, i: nat)
    requires Inv(s) && Quiescent(s) && |s.taken| <= i <= |s.order|
    ensures Chain(s.nodes, if i < |s.order| then At(s.order[i]) else Null, s.order[i..])
    decreases |s.order| - i
  {
    if i < |s.order| {
      ChainFrom(s, i + 1);
      assert LinkOk(s, i);
      assert s.order[i..][1..] == s.order[i + 1..];
    }
  }

  /** No value is dropped: when no call is under way, every node ever enqueued was
      swapped in, those taken have all been returned, and the links lead from the tail
      through all the others to the head. */
  lemma NothingDropped(threads: nat, events: seq<Event>)
    requires Quiescent(Run(Empty(threads), events))
    ensures var s := Run(Empty(threads), events);
      && |s.taken| <= |s.order| && Chain(s.nodes, s.tail, s.order[|s.taken|..])
      && s.head == (if |s.taken| == |s.order| then Null else At(s.order[|s.order| - 1]))
      && (forall x :: x in s.returned <==> x in s.taken)
      && (forall x :: x in s.order <==> 0 <= x < |s.nodes|)
  {
    RunKeepsInv(Empty(threads), events);
    RunKeepsEntering(Empty(threads), events);
    var s := Run(Empty(threads), events);
    ChainFrom(s, |s.taken|);
  }

  predicate Entering(pc: Pc, x: nat) {
    (pc.LoadHead? || pc.SwapHead?) && pc.mine == x
  }

  /** A node not in the queue's history is on its way in. */
  predicate Entered(s: Queue) {
    forall x :: 0 <= x < |s.nodes| && x !in s.order ==>
      exists t :: 0 <= t < |s.threads| && Entering(s.threads[t], x)
  }

  lemma {:induction false} RunKeepsEntering(s: Queue, events: seq<Event>)
    requires Entered(s)
    ensures Entered(Run(s, events))
    decreases |events|
  {
    if events != [] {
      var s' := Next(s, events[0]);
      forall x | 0 <= x < |s'.nodes| && x !in s'.order
        ensures exists t :: 0 <= t < |s'.threads| && Entering(s'.threads[t], x)
      {
        StillEntering(s, events[0], x);
      }
      RunKeepsEntering(s', events[1..]);
    }
  }

  lemma StillEntering(s: Queue, e: Event, x: nat)
    requires Entered(s) && x < |Next(s, e).nodes| && x !in Next(s, e).order
    ensures exists t :: 0 <= t < |Next(s, e).threads| && Entering(Next(s, e).threads[t], x)
  {
    var s' := Next(s, e);
    if x < |s.nodes| {
      assert x !in s.order;
      var t :| 0 <= t < |s.threads| && Entering(s.threads[t], x);
      assert Entering(s'.threads[t], x);
    } else {
      assert Entering(s'.threads[e.t], x);
    }
  }

  predicate Grows(s: Queue, s': Queue) {
    && s.order <= s'.order && s.taken <= s'.taken && s.returned <= s'.returned
    && |s.nodes| <= |s'.nodes|
    && (forall x :: 0 <= x < |s.nodes| ==> s'.nodes[x].value == s.nodes[x].value)
  }

  lemma ActGrows(s: Queue, t: nat)
    requires t < |s.threads|
    ensures Grows(s, Act(s, t))
  {
  }

  /** The histories only grow, and a node keeps the value it was enqueued with. */
  lemma {:induction false} HistoriesGrow(s: Queue, events: seq<Event>)
    ensures Grows(s, Run(s, events))
    decreases |events|
  {
    if events != [] {
      var e := events[0];
      if e.Go? && e.t < |s.threads| {
        ActGrows(s, e.t);
      }
      assert Grows(s, Next(s, e));
      HistoriesGrow(Next(s, e), events[1..]);
    }
  }

  /** A dequeue finds the tail exactly when no enqueue stands between its swap of
      an empty head and its store of the tail. */
  lemma TailReachableIff(threads: nat, events: seq<Event>)
    requires |Run(Empty(threads), events).taken| < |Run(Empty(threads), events).order|
    ensures var s := Run(Empty(threads), events);
      s.tail == At(s.order[|s.taken|]) <==>
      !(exists t :: 0 <= t < |s.threads| && s.threads[t].Publish? && s.threads[t].found == Null)
  {
    RunKeepsInv(Empty(threads), events);
    var s := Run(Empty(threads), events);
    if Live(s) {
      forall t | 0 <= t < |s.threads| && s.threads[t].Publish? ensures s.threads[t].found != Null {
        assert ThreadOk(s, s.threads[t]);
      }
    }
  }

  /** A thread about to clear the tail of the last node taken still finds it there, unless
      a newer node was published since. */
  predicate ClearOk(s: Queue, t: nat)
    requires t < |s.threads| && |s.taken| <= |s.order|
  {
    s.threads[t].ClearTail? && !Live(s) && |s.taken| > 0 && s.threads[t].at == s.order[|s.taken| - 1] ==>
      s.tail == At(s.threads[t].at)
  }

  ghost predicate ClearsOk(s: Queue) {
    |s.taken| <= |s.order| && forall t :: 0 <= t < |s.threads| ==> ClearOk(s, t)
  }

  lemma SameClear(s: Queue, s': Queue, t: nat)
    requires |s.taken| <= |s.order| && t < |s.threads| && ClearOk(s, t)
    requires s'.taken == s.taken && s'.tail == s.tail && s.order <= s'.order && (Live(s) ==> Live(s'))
    requires t < |s'.threads| && (s'.threads[t].ClearTail? ==> s'.threads[t] == s.threads[t])
    ensures ClearOk(s', t)
  {
  }

  lemma WinKeepsClear(s: Queue, u: nat, t: nat)
    requires Inv(s) && u < |s.threads| && t < |s.threads|
    requires var pc := s.threads[u];
      || (pc.MoveTail? && s.tail == At(pc.at))
      || (pc.ClearHead? && s.head == At(pc.at))
    ensures |Act(s, u).taken| <= |Act(s, u).order| && ClearOk(Act(s, u), t)
  {
    WonIsFirst(s, u);
    if t != u {
      assert ThreadOk(s, s.threads[t]);
    }
  }

  lemma ClearKeepsClear(s: Queue, u: nat, t: nat)
    requires Inv(s) && ClearsOk(s) && u < |s.threads| && t < |s.threads| && s.threads[u].ClearTail?
    ensures |Act(s, u).taken| <= |Act(s, u).order| && ClearOk(Act(s, u), t)
  {
    ClearKeepsMemory(s, u);
    assert ClearOk(s, t);
    if t != u {
      assert !Clash(s.threads[t], s.threads[u]) && !Clash(s.threads[u], s.threads[t]);
    }
  }

  lemma ActKeepsClear(s: Queue, u: nat, t: nat)
    requires Inv(s) && ClearsOk(s) && u < |s.threads| && t < |s.threads|
    ensures |Act(s, u).taken| <= |Act(s, u).order| && ClearOk(Act(s, u), t)
  {
    var pc, s' := s.threads[u], Act(s, u);
    if (pc.MoveTail? && s.tail == At(pc.at)) || (pc.ClearHead? && s.head == At(pc.at)) {
      WinKeepsClear(s, u, t);
    } else if pc.ClearTail? {
      ClearKeepsClear(s, u, t);
    } else if pc.Publish? && pc.found == Null {
      assert ThreadOk(s, pc);
      assert Live(s');
    } else {
      assert ClearOk(s, t);
      QuietAct(s, u);
      SameClear(s, s', t);
    }
  }

  /** A step that neither wins a node nor writes the tail. */
  lemma QuietAct(s: Queue, u: nat)
    requires Inv(s) && u < |s.threads|
    requires var pc := s.threads[u];
      && !(pc.MoveTail? && s.tail == At(pc.at)) && !(pc.ClearHead? && s.head == At(pc.at))
      && !pc.ClearTail? && !(pc.Publish? && pc.found == Null)
    ensures var s' := Act(s, u);
      && s'.taken == s.taken && s'.tail == s.tail && s.order <= s'.order && |s'.threads| == |s.threads|
      && !s'.threads[u].ClearTail? && (forall t :: 0 <= t < |s.threads| && t != u ==> s'.threads[t] == s.threads[t])
  {
  }

  lemma NextKeepsClear(s: Queue, e: Event)
    requires Inv(s) && ClearsOk(s)
    ensures ClearsOk(Next(s, e))
  {
    NextKeepsInv(s, e);
    NextKeepsThreads(s, e);
    forall t | 0 <= t < |s.threads| ensures ClearOk(Next(s, e), t) {
      OneKeepsClear(s, e, t);
    }
  }

  lemma OneKeepsClear(s: Queue, e: Event, t: nat)
    requires Inv(s) && ClearsOk(s) && t < |s.threads|
    requires Inv(Next(s, e)) && |Next(s, e).threads| == |s.threads|
    ensures ClearOk(Next(s, e), t)
  {
    assert ClearOk(s, t);
    if e.Go? && e.t < |s.threads| {
      ActKeepsClear(s, e.t, t);
    }
  }

  lemma {:induction false} RunKeepsClear(s: Queue, events: seq<Event>)
    requires Inv(s) && ClearsOk(s)
    ensures ClearsOk(Run(s, events))
    decreases |events|
  {
    if events != [] {
      NextKeepsInv(s, events[0]);
      NextKeepsClear(s, events[0]);
      RunKeepsClear(Next(s, events[0]), events[1..]);
    }
  }

  /** Some enqueue has swapped an empty head and not yet stored the tail. */
  predicate Publishing(s: Queue) {
    exists t :: 0 <= t < |s.threads| && s.threads[t].Publish? && s.threads[t].found == Null
  }

  /** Some dequeue has won the last node taken and not yet cleared the tail. */
  predicate Clearing(s: Queue) {
    |s.taken| > 0 && |s.taken| <= |s.order| && Someone(s.threads, ClearTail(s.order[|s.taken| - 1]))
  }

  /** Exactly when a dequeue misses the value of a completed enqueue: node `x` waits and
      its enqueue has returned. A dequeue that loads its tail now reports an empty queue
      if and only if an enqueue stands between its swap of an empty head and its store of
      the tail, and no dequeue is about to clear the tail of the node before. */
  lemma DequeueMissesIff(threads: nat, events: seq<Event>, t: nat, x: nat)
    requires var s := Run(Empty(threads), events);
      && t < |s.threads| && s.threads[t] == LoadTail
      && x in s.order && x !in s.taken
      && (forall u :: 0 <= u < |s.threads| && s.threads[u].Publish? ==> s.threads[u].mine != x)
    ensures var s := Run(Empty(threads), events);
      Act(s, t).threads[t] == PeekHead(Null) <==> Publishing(s) && !Clearing(s)
  {
    RunKeepsInv(Empty(threads), events);
    assert ClearsOk(Empty(threads));
    RunKeepsClear(Empty(threads), events);
    var s := Run(Empty(threads), events);
    var k := |s.taken|;
    assert k < |s.order| by {
      var i :| 0 <= i < |s.order| && s.order[i] == x;
      assert forall j :: 0 <= j < k ==> s.taken[j] in s.taken;
    }
    TailReachableIff(threads, events);
    MissesIff(s, t);
  }

  lemma MissesIff(s: Queue, t: nat)
    requires Inv(s) && ClearsOk(s) && |s.taken| < |s.order| && t < |s.threads| && s.threads[t] == LoadTail
    requires s.tail == At(s.order[|s.taken|]) <==> !Publishing(s)
    ensures Act(s, t).threads[t] == PeekHead(Null) <==> Publishing(s) && !Clearing(s)
  {
    if Clearing(s) {
      var u :| 0 <= u < |s.threads| && s.threads[u] == ClearTail(s.order[|s.taken| - 1]);
      assert ClearOk(s, u);
    }
  }

  /** Such a dequeue is lost: whatever the others do, it will return empty-handed. */
  lemma EmptyIsDecided(s: Queue, t: nat, e: Event)
    requires t < |s.threads| && (s.threads[t] == PeekHead(Null) || (s.threads[t].Examine? && s.threads[t].tail == Null))
    ensures var s' := Next(s, e);
      && t < |s'.threads|
      && (if e != Go(t) then s'.threads[t] == s.threads[t]
          else if s.threads[t].Examine? then s'.threads[t] == Idle
          else s'.threads[t] == Examine(Null, s.head))
      && (e == Go(t) ==> s'.taken == s.taken && s'.returned == s.returned)
  {
  }

  lemma {:induction false} RunAppend(s: Queue, events: seq<Event>, more: seq<Event>)
    ensures Run(s, events + more) == Run(Run(s, events), more)
    decreases |events|
  {
    if events == [] {
      assert events + more == more;
    } else {
      RunAppend(Next(s, events[0]), events[1..], more);
      assert (events + more)[1..] == events[1..] + more;
    }
  }

  /** So a dequeue may report an empty queue although an enqueue that returned
      earlier left its value there: thread 0 pauses after its swap, thread 1
      enqueues completely, and thread 2 finds nothing. */
  lemma DequeueMayMissCompletedEnqueue()
    ensures var s := Run(Empty(3), [Enqueue(0, 7), Go(0), Go(0)] + [Enqueue(1, 8), Go(1), Go(1), Go(1)]
                            + [Dequeue(2), Go(2), Go(2), Go(2)]);
      && |s.threads| == 3 && s.threads[1] == Idle && s.threads[2] == Idle
      && s.taken == [] && s.order == [0, 1] && |s.nodes| == 2 && s.nodes[1].value == 8
  {
    var e0 := [Enqueue(0, 7), Go(0), Go(0)];
    var e1 := [Enqueue(1, 8), Go(1), Go(1), Go(1)];
    RunAppend(Empty(3), e0, e1);
    RunAppend(Empty(3), e0 + e1, [Dequeue(2), Go(2), Go(2), Go(2)]);
    var s := Queue(At(0), Null, [Node(7, Null)], [Publish(0, Null), Idle, Idle], [0], [], []);
    assert Run(Empty(3), e0) == s by { FirstSwap(); }
    SecondEnqueue(s);
    EmptyHanded(Run(s, e1));
  }

  lemma FirstSwap()
    ensures Run(Empty(3), [Enqueue(0, 7), Go(0), Go(0)])
         == Queue(At(0), Null, [Node(7, Null)], [Publish(0, Null), Idle, Idle], [0], [], [])
  {
    var a := [Node(7, Null)];
    var s1 := Queue(Null, Null, a, [LoadHead(0), Idle, Idle], [], [], []);
    assert Next(Empty(3), Enqueue(0, 7)) == s1;
    var s2 := Queue(Null, Null, a, [SwapHead(0, Null), Idle, Idle], [], [], []);
    assert Next(s1, Go(0)) == s2;
    var s3 := Queue(At(0), Null, a, [Publish(0, Null), Idle, Idle], [0], [], []);
    assert Next(s2, Go(0)) == s3;
    Unroll(Empty(3), Enqueue(0, 7), [Go(0), Go(0)]);
    Unroll(s1, Go(0), [Go(0)]);
    Unroll(s2, Go(0), []);
    assert [Enqueue(0, 7)] + ([Go(0)] + ([Go(0)] + [])) == [Enqueue(0, 7), Go(0), Go(0)];
    assert [Go(0)] + ([Go(0)] + []) == [Go(0), Go(0)];
    assert [Go(0)] + [] == [Go(0)];
  }

  lemma Unroll(s: Queue, e: Event, rest: seq<Event>)
    ensures Run(s, [e] + rest) == Run(Next(s, e), rest)
  {
    assert ([e] + rest)[1..] == rest;
  }

  lemma SecondEnqueue(s: Queue)
    requires s == Queue(At(0), Null, [Node(7, Null)], [Publish(0, Null), Idle, Idle], [0], [], [])
    ensures Run(s, [Enqueue(1, 8), Go(1), Go(1), Go(1)])
         == Queue(At(1), Null, [Node(7, At(1)), Node(8, Null)], [Publish(0, Null), Idle, Idle], [0, 1], [], [])
  {
    var ab := [Node(7, Null), Node(8, Null)];
    var s1 := Queue(At(0), Null, ab, [Publish(0, Null), LoadHead(1), Idle], [0], [], []);
    assert Next(s, Enqueue(1, 8)) == s1;
    var s2 := Queue(At(0), Null, ab, [Publish(0, Null), SwapHead(1, At(0)), Idle], [0], [], []);
    assert Next(s1, Go(1)) == s2;
    var s3 := Queue(At(1), Null, ab, [Publish(0, Null), Publish(1, At(0)), Idle], [0, 1], [], []);
    assert Next(s2, Go(1)) == s3;
    Unroll(s, Enqueue(1, 8), [Go(1), Go(1), Go(1)]);
    Unroll(s1, Go(1), [Go(1), Go(1)]);
    Unroll(s2, Go(1), [Go(1)]);
    Unroll(s3, Go(1), []);
    assert [Enqueue(1, 8)] + [Go(1), Go(1), Go(1)] == [Enqueue(1, 8), Go(1), Go(1), Go(1)];
    assert [Go(1)] + [Go(1), Go(1)] == [Go(1), Go(1), Go(1)];
    assert [Go(1)] + [Go(1)] == [Go(1), Go(1)];
    assert [Go(1)] + [] == [Go(1)];
  }

  /** A dequeue that finds no tail gives up, leaving all but its own place as it was. */
  lemma EmptyHanded(s: Queue)
    requires |s.threads| == 3 && s.threads[2] == Idle && s.tail == Null
    ensures Run(s, [Dequeue(2), Go(2), Go(2), Go(2)]) == s
  {
    var s1 := Next(s, Dequeue(2));
    var s2 := Next(s1, Go(2));
    var s3 := Next(s2, Go(2));
    Unroll(s, Dequeue(2), [Go(2), Go(2), Go(2)]);
    Unroll(s1, Go(2), [Go(2), Go(2)]);
    Unroll(s2, Go(2), [Go(2)]);
    Unroll(s3, Go(2), []);
    assert [Dequeue(2)] + [Go(2), Go(2), Go(2)] == [Dequeue(2), Go(2), Go(2), Go(2)];
    assert [Go(2)] + [Go(2), Go(2)] == [Go(2), Go(2), Go(2)];
    assert [Go(2)] + [Go(2)] == [Go(2), Go(2)];
    assert [Go(2)] + [] == [Go(2)];
    assert Next(s3, Go(2)) == s;
  }

  // ----- Calls that are not interrupted ----------------------------------------

  /** The values waiting in the queue, oldest first. */
  function Content(s: Queue): seq<int>
    requires Shape(s)
  {
    seq(|s.order| - |s.taken|, i requires 0 <= i < |s.order| - |s.taken| => s.nodes[s.order[|s.taken| + i]].value)
  }

  function Alone(s: Queue, t: nat, steps: nat): Queue
    requires t < |s.threads|
    decreases steps
  {
    if steps == 0 then s else Alone(Act(s, t), t, steps - 1)
  }

  lemma {:induction false} AloneKeepsInv(s: Queue, t: nat, steps: nat)
    requires Inv(s) && t < |s.threads|
    ensures Inv(Alone(s, t, steps))
    decreases steps
  {
    if steps != 0 {
      ActKeepsInv(s, t);
      AloneKeepsInv(Act(s, t), t, steps - 1);
    }
  }

  /** Without interference an enqueue appends its value in three steps... */
  lemma SoloEnqueue(s: Queue, t: nat, value: int)
    requires Inv(s) && Quiescent(s) && t < |s.threads|
    ensures var s' := Alone(Next(s, Enqueue(t, value)), t, 3);
      Inv(s') && Quiescent(s') && Content(s') == Content(s) + [value]
  {
    var n := |s.nodes|;
    var s0 := Next(s, Enqueue(t, value));
    NextKeepsInv(s, Enqueue(t, value));
    AloneKeepsInv(s0, t, 3);
    var s1 := Act(s0, t);
    assert s1.threads[t] == SwapHead(n, s0.head);
    var s2 := Act(s1, t);
    assert s2.threads[t] == Publish(n, s0.head) && s2.order == s.order + [n];
    var s3 := Act(s2, t);
    assert Alone(s0, t, 3) == Alone(s1, t, 2) == Alone(s2, t, 1) == Alone(s3, t, 0);
    assert s3.threads[t] == Idle;
  }

  /** Where an undisturbed dequeue stands after its three reads. */
  function Looked(s: Queue): Pc
    requires Shape(s)
  {
    var k := |s.taken|;
    if k == |s.order| then Idle
    else if k + 1 < |s.order| then LoadNext(s.order[k])
    else ClearHead(s.order[k])
  }

  lemma SoloLooks(s: Queue, t: nat)
    requires Inv(s) && Quiescent(s) && t < |s.threads|
    ensures Alone(Next(s, Dequeue(t)), t, 6) == Alone(Goto(s, t, Looked(s)), t, 3)
  {
    if |s.taken| < |s.order| {
      assert LinkOk(s, |s.taken|);
    }
    var s0 := Goto(s, t, LoadTail);
    assert Next(s, Dequeue(t)) == s0;
    var s1 := Goto(s, t, PeekHead(s.tail));
    assert Act(s0, t) == s1;
    var s2 := Goto(s, t, Examine(s.tail, s.head));
    assert Act(s1, t) == s2;
    var s3 := Goto(s, t, Looked(s));
    assert Act(s2, t) == s3;
    assert Alone(s0, t, 6) == Alone(s1, t, 5) == Alone(s2, t, 4) == Alone(s3, t, 3);
  }

  lemma SoloWins(s: Queue, t: nat)
    requires Inv(s) && Quiescent(s) && t < |s.threads|
    ensures var s', k := Alone(Goto(s, t, Looked(s)), t, 3), |s.taken|;
      && s'.nodes == s.nodes && s'.order == s.order && s'.threads == s.threads
      && (k == |s.order| ==> s' == s)
      && (k < |s.order| ==> s'.taken == s.taken + [s.order[k]] && s'.returned == s.returned + [s.order[k]])
  {
    if |s.taken| < |s.order| {
      assert LinkOk(s, |s.taken|);
    }
    var s3 := Goto(s, t, Looked(s));
    var s4 := Act(s3, t);
    var s5 := Act(s4, t);
    var s6 := Act(s5, t);
    assert Alone(s3, t, 3) == Alone(s4, t, 2) == Alone(s5, t, 1) == Alone(s6, t, 0);
    assert s6.threads[t] == Idle;
  }

  /** ... and a dequeue takes at most six to return the oldest value, or to find
      the queue empty. */
  lemma SoloDequeue(s: Queue, t: nat)
    requires Inv(s) && Quiescent(s) && t < |s.threads|
    ensures var s' := Alone(Next(s, Dequeue(t)), t, 6);
      && Inv(s') && Quiescent(s') && s'.nodes == s.nodes
      && if Content(s) == [] then s' == s
         else Content(s') == Content(s)[1..] && s'.returned == s.returned + [s.order[|s.taken|]]
  {
    SoloKeepsInv(s, Dequeue(t), 6);
    SoloLooks(s, t);
    SoloWins(s, t);
    TakingShortens(s, Alone(Next(s, Dequeue(t)), t, 6));
  }

  lemma SoloKeepsInv(s: Queue, e: Event, steps: nat)
    requires Inv(s) && e.t < |s.threads|
    ensures |Next(s, e).threads| == |s.threads| && Inv(Alone(Next(s, e), e.t, steps))
  {
    NextKeepsInv(s, e);
    AloneKeepsInv(Next(s, e), e.t, steps);
  }

  lemma TakingShortens(s: Queue, s': Queue)
    requires Shape(s) && Shape(s') && s'.nodes == s.nodes && s'.order == s.order
    ensures Content(s) == [] <==> |s.taken| == |s.order|
    ensures |s.taken| < |s.order| && |s'.taken| == |s.taken| + 1 ==> Content(s') == Content(s)[1..]
  {
  }
}
