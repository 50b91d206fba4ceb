/** Whole calls of `dequeue` on the compare-and-swap queue: what a call returns is decided by
    its last load of the tail, however often it loses a race before. */
module DequeueCall {
  import opened LockFreeQueue
  import opened Sequences

  /** The tail a dequeue works with, once it has loaded one. */
  function Loaded(pc: Pc): Option<Ptr> {
    match pc
    case PeekHead(tail) => Some(tail)
    case Examine(tail, _) => Some(tail)
    case LoadNext(x) => Some(At(x))
    case MoveTail(x, _) => Some(At(x))
    case ClearHead(x) => Some(At(x))
    case ClearTail(x) => Some(At(x))
    case Return(x) => Some(At(x))
    case _ => None
  }

  predicate Dequeuing(pc: Pc) {
    pc.LoadTail? || Loaded(pc).Some?
  }

  ghost function After(threads: nat, events: seq<Event>, n: nat): Queue
    requires n <= |events|
  {
    Run(Empty(threads), events[..n])
  }

  lemma AfterOne(threads: nat, events: seq<Event>, n: nat)
    requires n < |events|
    ensures After(threads, events, n + 1) == Next(After(threads, events, n), events[n])
    ensures |After(threads, events, n).threads| == threads
  {
    assert events[..n + 1] == events[..n] + [events[n]];
    RunAppend(Empty(threads), events[..n], [events[n]]);
    Unroll(After(threads, events, n), events[n], []);
    assert [events[n]] + [] == [events[n]];
    RunKeepsInv(Empty(threads), events[..n]);
  }

  /** Where thread `t` stands after `n` events. */
  ghost function PcAt(threads: nat, events: seq<Event>, n: nat, t: nat): Pc
    requires n <= |events|
  {
    var s := After(threads, events, n);
    if t < |s.threads| then s.threads[t] else Idle
  }

  /** Event `k` is a load of the tail by thread `t`. */
  ghost predicate Loads(threads: nat, events: seq<Event>, t: nat, k: nat) {
    k < |events| && events[k] == Go(t) && PcAt(threads, events, k, t) == LoadTail
  }

  /** Thread `t` calls dequeue in event `a` and returns in event `b`. */
  ghost predicate Call(threads: nat, events: seq<Event>, t: nat, a: nat, b: nat) {
    && t < threads && a < b < |events| && events[a] == Dequeue(t)
    && PcAt(threads, events, a, t) == Idle && PcAt(threads, events, b + 1, t) == Idle
    && forall n :: a < n <= b ==> PcAt(threads, events, n, t) != Idle
  }

  /** One event, as thread `t` in a dequeue sees it. */
  lemma DequeueStep(s: Queue, e: Event, t: nat)
    requires t < |s.threads| && Dequeuing(s.threads[t])
    ensures var s', pc := Next(s, e), s.threads[t];
      && |s'.threads| == |s.threads|
      && var pc' := s'.threads[t];
         if e != Go(t) then pc' == pc
         else if pc.LoadTail? then pc' == PeekHead(s.tail) && s'.returned == s.returned
         else if pc' == Idle then
           s'.returned == if Loaded(pc).value.Null? then s.returned else s.returned + [Loaded(pc).value.id]
         else s'.returned == s.returned && (Loaded(pc') == Loaded(pc) || (pc' == LoadTail && Loaded(pc).value.At?))
  {
  }

  /** The last load of the tail before event `n` of a call that began with event `a`; every load
      before it found a tail, and so did this one if the thread is about to load again. */
  ghost predicate Last(threads: nat, events: seq<Event>, t: nat, a: nat, n: nat, k: nat) {
    && a < k < n <= |events| && Loads(threads, events, t, k)
    && (forall m :: k < m < n ==> !Loads(threads, events, t, m))
    && (forall m :: a < m < k && Loads(threads, events, t, m) ==> After(threads, events, m).tail != Null)
    && (PcAt(threads, events, n, t) == LoadTail ==> After(threads, events, k).tail != Null)
    && (PcAt(threads, events, n, t) != LoadTail ==> Loaded(PcAt(threads, events, n, t)) == Some(After(threads, events, k).tail))
  }

  /** A dequeue under way has loaded the tail, or is about to for the first time. */
  ghost predicate UnderWay(threads: nat, events: seq<Event>, t: nat, a: nat, n: nat) {
    && n <= |events| && Dequeuing(PcAt(threads, events, n, t))
    && ((PcAt(threads, events, n, t) == LoadTail && forall m :: a < m < n ==> !Loads(threads, events, t, m))
        || exists k :: Last(threads, events, t, a, n, k))
  }

  lemma {:induction false} CallUnderWay(threads: nat, events: seq<Event>, t: nat, a: nat, b: nat, n: nat)
    requires Call(threads, events, t, a, b) && a < n <= b
    ensures UnderWay(threads, events, t, a, n)
    decreases n
  {
    AfterOne(threads, events, n - 1);
    if n > a + 1 {
      CallUnderWay(threads, events, t, a, b, n - 1);
      OneMoreUnderWay(threads, events, t, a, n - 1);
    }
  }

  lemma OneMoreUnderWay(threads: nat, events: seq<Event>, t: nat, a: nat, n: nat)
    requires t < threads && a < n < |events| && UnderWay(threads, events, t, a, n)
    requires PcAt(threads, events, n + 1, t) != Idle
    ensures UnderWay(threads, events, t, a, n + 1)
  {
    AfterOne(threads, events, n);
    DequeueStep(After(threads, events, n), events[n], t);
    if Loads(threads, events, t, n) {
      assert Last(threads, events, t, a, n + 1, n);
    } else if k :| Last(threads, events, t, a, n, k) {
      assert Last(threads, events, t, a, n + 1, k);
    }
  }

  // ----- What a call returns ---------------------------------------------------

  /** In every run: a call of dequeue loads the tail at least once, and returns the node of its
      last load; it returns empty-handed exactly if that load found no tail. So a lost race
      never ends a call: another load follows. */
  lemma CallReturns(threads: nat, events: seq<Event>, t: nat, a: nat, b: nat) returns (k: nat)
    requires Call(threads, events, t, a, b)
    ensures a < k < b && Loads(threads, events, t, k)
    ensures forall m :: k < m <= b ==> !Loads(threads, events, t, m)
    ensures forall m :: a < m < k && Loads(threads, events, t, m) ==> After(threads, events, m).tail != Null
    ensures var tail, s, s' := After(threads, events, k).tail, After(threads, events, b), After(threads, events, b + 1);
      s'.returned == if tail == Null then s.returned else s.returned + [tail.id]
  {
    CallUnderWay(threads, events, t, a, b, b);
    AfterOne(threads, events, b);
    DequeueStep(After(threads, events, b), events[b], t);
    assert !Loads(threads, events, t, b);
    k :| Last(threads, events, t, a, b, k);
  }

  /** When a load finds no tail, in every run: no dequeue is about to clear it, and either
      nothing waits or an enqueue stands before its store of it. */
  lemma NoTailIff(threads: nat, events: seq<Event>)
    ensures var s := Run(Empty(threads), events);
      s.tail == Null <==> !Clearing(s) && (|s.taken| < |s.order| ==> Publishing(s))
  {
    RunKeepsInv(Empty(threads), events);
    assert ClearsOk(Empty(threads));
    RunKeepsClear(Empty(threads), events);
    var s := Run(Empty(threads), events);
    if Clearing(s) {
      ClearingMeansTail(s);
    }
    if |s.taken| < |s.order| {
      TailReachableIff(threads, events);
    }
  }

  lemma ClearingMeansTail(s: Queue)
    requires Inv(s) && ClearsOk(s) && Clearing(s)
    ensures s.tail != Null
  {
    var u :| 0 <= u < |s.threads| && s.threads[u] == ClearTail(s.order[|s.taken| - 1]);
    assert ClearOk(s, u);
  }

  /** Exactly when a whole call of dequeue returns empty-handed, said of the queue at its last
      load of the tail. */
  lemma CallReturnsEmptyIff(threads: nat, events: seq<Event>, t: nat, a: nat, b: nat) returns (k: nat)
    requires Call(threads, events, t, a, b)
    ensures a < k < b && Loads(threads, events, t, k) && forall m :: k < m <= b ==> !Loads(threads, events, t, m)
    ensures var s := After(threads, events, k);
      After(threads, events, b + 1).returned == After(threads, events, b).returned <==>
        !Clearing(s) && (|s.taken| < |s.order| ==> Publishing(s))
  {
    k := CallReturns(threads, events, t, a, b);
    NoTailIff(threads, events[..k]);
  }

  /** So if an enqueue has completed, its node waits, and nobody else is in the middle of a
      call at the last load, the dequeue returns a value. */
  lemma CallFindsCompletedEnqueue(threads: nat, events: seq<Event>, t: nat, a: nat, b: nat, k: nat, x: nat)
    requires Call(threads, events, t, a, b) && a < k < b && Loads(threads, events, t, k)
    requires forall m :: k < m <= b ==> !Loads(threads, events, t, m)
    requires var s := After(threads, events, k);
      && x in s.order && x !in s.taken
      && forall u :: 0 <= u < |s.threads| && u != t ==> s.threads[u] == Idle
    ensures |After(threads, events, b + 1).returned| == |After(threads, events, b).returned| + 1
  {
    var j := CallReturnsEmptyIff(threads, events, t, a, b);
    var s := After(threads, events, k);
    assert j == k;
    RunKeepsInv(Empty(threads), events[..k]);
    AfterOne(threads, events, k);
    assert |s.taken| < |s.order| by {
      var i :| 0 <= i < |s.order| && s.order[i] == x;
      assert forall n :: 0 <= n < |s.taken| ==> s.taken[n] in s.taken;
    }
    var l := CallReturns(threads, events, t, a, b);
  }

  /** A step of a dequeue that wins nothing: a swap that fails, or a tail that has no successor
      and is not the head. */
  predicate LosesRace(s: Queue, t: nat)
    requires t < |s.threads|
  {
    match s.threads[t]
    case MoveTail(x, _) => s.tail != At(x)
    case ClearHead(x) => s.head != At(x)
    case Examine(tail, head) => tail.At? && NextOf(s, tail.id) == Null && tail != head
    case _ => false
  }

  /** It changes nothing, and in a call another load of the tail follows it. */
  lemma LostRaceLoadsAgain(threads: nat, events: seq<Event>, t: nat, a: nat, b: nat, n: nat) returns (k: nat)
    requires Call(threads, events, t, a, b) && a < n <= b && events[n] == Go(t)
    requires var s := After(threads, events, n); t < |s.threads| && LosesRace(s, t)
    ensures n < k < b && Loads(threads, events, t, k)
    ensures var s, s' := After(threads, events, n), After(threads, events, n + 1);
      s' == s.(threads := s'.threads) && PcAt(threads, events, n + 1, t) == LoadTail
  {
    AfterOne(threads, events, n);
    k := CallReturns(threads, events, t, a, b);
    if k <= n {
      StaysUntilLoad(threads, events, t, a, b, n + 1, b);
      AfterOne(threads, events, b);
      assert false;
    }
  }

  /** A thread about to load stays there until it does. */
  lemma {:induction false} StaysUntilLoad(threads: nat, events: seq<Event>, t: nat, a: nat, b: nat, n: nat, m: nat)
    requires Call(threads, events, t, a, b) && a < n <= m <= b && PcAt(threads, events, n, t) == LoadTail
    requires forall k :: n <= k < m ==> !Loads(threads, events, t, k)
    ensures PcAt(threads, events, m, t) == LoadTail
    decreases m
  {
    if n < m {
      StaysUntilLoad(threads, events, t, a, b, n, m - 1);
      assert !Loads(threads, events, t, m - 1);
      AfterOne(threads, events, m - 1);
      DequeueStep(After(threads, events, m - 1), events[m - 1], t);
    }
  }
}
