/** Client batches on a replica: balanced over the instances' queues, and bound one
    by one to the slots this replica leads. */
module BatchQueue {
  import opened Cluster
  import opened Sequences

  /** A batch, the queue it came from, and the slot it was bound to. */
  datatype Binding = Binding(batch: nat, queue: nat, instance: nat, view: nat)

  /** The search for a queue gives up comparing above this count. */
  const LIMIT := 0xFFFFF

  // ----- Batches in queues -----------------------------------------------------

  ghost function Queued(queues: seq<seq<nat>>): multiset<nat> {
    if queues == [] then multiset{} else multiset(queues[0]) + Queued(queues[1..])
  }

  lemma {:induction false} QueuedUpdate(queues: seq<seq<nat>>, i: nat, q: seq<nat>)
    requires i < |queues|
    ensures Queued(queues[i := q]) + multiset(queues[i]) == Queued(queues) + multiset(q)
  {
    var changed := queues[i := q];
    if i > 0 {
      QueuedUpdate(queues[1..], i - 1, q);
      assert changed[1..] == queues[1..][i - 1 := q];
      assert changed[0] == queues[0] && queues[1..][i - 1] == queues[i];
      var m, was, now := multiset(queues[0]), Queued(queues[1..]), Queued(changed[1..]);
      assert m + now + multiset(queues[i]) == m + (now + multiset(queues[i]));
      assert m + was + multiset(q) == m + (was + multiset(q));
    } else {
      assert changed[1..] == queues[1..];
    }
  }

  ghost function Batches(bound: seq<Binding>): multiset<nat> {
    if bound == [] then multiset{} else Batches(bound[..|bound| - 1]) + multiset{bound[|bound| - 1].batch}
  }

  lemma BatchesLast(bound: seq<Binding>, b: Binding)
    ensures Batches(bound + [b]) == Batches(bound) + multiset{b.batch}
  {
    assert (bound + [b])[..|bound|] == bound;
  }

  lemma BindConserves(arrived: multiset<nat>, bound: seq<Binding>, was: seq<seq<nat>>, now: seq<seq<nat>>, b: Binding)
    requires arrived == Batches(bound) + Queued(was) && Queued(now) + multiset{b.batch} == Queued(was)
    ensures arrived == Batches(bound + [b]) + Queued(now)
  {
    BatchesLast(bound, b);
  }

  lemma PushQueued(queues: seq<seq<nat>>, c: nat, batch: nat)
    requires c < |queues|
    ensures Queued(queues[c := queues[c] + [batch]]) == Queued(queues) + multiset{batch}
  {
    QueuedUpdate(queues, c, queues[c] + [batch]);
    Cancel(Queued(queues[c := queues[c] + [batch]]), Queued(queues) + multiset{batch}, multiset(queues[c]));
  }

  lemma PopQueued(queues: seq<seq<nat>>, c: nat)
    requires c < |queues| && queues[c] != []
    ensures Queued(queues[c := queues[c][1..]]) + multiset{queues[c][0]} == Queued(queues)
  {
    QueuedUpdate(queues, c, queues[c][1..]);
    assert queues[c] == [queues[c][0]] + queues[c][1..];
    Cancel(Queued(queues[c := queues[c][1..]]) + multiset{queues[c][0]}, Queued(queues), multiset(queues[c][1..]));
  }

  lemma Cancel(a: multiset<nat>, b: multiset<nat>, c: multiset<nat>)
    requires a + c == b + c
    ensures a == b
  {
    forall x: nat ensures a[x] == b[x] {
      assert (a + c)[x] == (b + c)[x];
    }
  }

  /** The counters are the lengths of the queues. */
  ghost predicate Counts(queues: seq<seq<nat>>, cnt: seq<nat>) {
    |queues| == |cnt| && forall i :: 0 <= i < |cnt| ==> cnt[i] == |queues[i]|
  }

  lemma CountsUpdate(queues: seq<seq<nat>>, cnt: seq<nat>, i: nat, q: seq<nat>)
    requires Counts(queues, cnt) && i < |cnt|
    ensures Counts(queues[i := q], cnt[i := |q|])
  {
  }

  /** The batches bound from queue `i`, in order. */
  function From(bound: seq<Binding>, i: nat): seq<nat> {
    if bound == [] then []
    else
      var last := |bound| - 1;
      From(bound[..last], i) + if bound[last].queue == i then [bound[last].batch] else []
  }

  lemma FromLast(bound: seq<Binding>, b: Binding, i: nat)
    ensures From(bound + [b], i) == From(bound, i) + if b.queue == i then [b.batch] else []
  {
    assert (bound + [b])[..|bound|] == bound;
  }

  // ----- Slots -----------------------------------------------------------------

  /** The oldest batch of the queue named was taken. */
  predicate Taken(queues: seq<seq<nat>>, now: seq<seq<nat>>, b: Binding) {
    && b.queue < |queues| && queues[b.queue] != []
    && b.batch == queues[b.queue][0] && now == queues[b.queue := queues[b.queue][1..]]
  }

  lemma BindBalances(arrived: multiset<nat>, bound: seq<Binding>, was: seq<seq<nat>>, now: seq<seq<nat>>, b: Binding)
    requires arrived == Batches(bound) + Queued(was) && Taken(was, now, b)
    ensures arrived == Batches(bound + [b]) + Queued(now)
  {
    PopQueued(was, b.queue);
    BindConserves(arrived, bound, was, now, b);
  }

  /** Is `view` of an instance led by replica `self`? */
  predicate Leads(nodes: nat, self: nat, view: nat, instance: nat)
    requires nodes > 0
  {
    (view + instance) % nodes == self
  }

  /** The next slot of each instance is led by this replica and not bound yet, and no
      slot was bound twice. */
  ghost predicate SlotsOk(nodes: nat, self: nat, nextSend: seq<nat>, bound: seq<Binding>)
    requires nodes > 0
  {
    && (forall i :: 0 <= i < |nextSend| ==> Leads(nodes, self, nextSend[i], i))
    && (forall k :: 0 <= k < |bound| ==>
          && bound[k].instance < |nextSend| && bound[k].view < nextSend[bound[k].instance]
          && Leads(nodes, self, bound[k].view, bound[k].instance))
    && (forall j, k :: 0 <= j < k < |bound| ==>
          bound[j].instance != bound[k].instance || bound[j].view != bound[k].view)
  }

  lemma BindNext(nodes: nat, self: nat, nextSend: seq<nat>, bound: seq<Binding>, batch: nat, queue: nat, p: nat)
    requires nodes > 0 && p < |nextSend| && SlotsOk(nodes, self, nextSend, bound)
    ensures SlotsOk(nodes, self, nextSend[p := nextSend[p] + nodes], bound + [Binding(batch, queue, p, nextSend[p])])
  {
    var x := nextSend[p] + p;
    assert x + nodes == (x / nodes + 1) * nodes + x % nodes;
    ModUnique(x + nodes, nodes, x / nodes + 1, x % nodes);
    assert nextSend[p] + nodes + p == x + nodes;
  }

  /** The slot number the batch gets as its identifier. */
  function SlotOf(b: Binding, instances: nat): nat {
    b.view * instances + b.instance
  }

  /** So no two batches get the same slot, whichever queues they came from. */
  lemma OneBatchPerSlot(nodes: nat, self: nat, nextSend: seq<nat>, bound: seq<Binding>)
    requires nodes > 0 && SlotsOk(nodes, self, nextSend, bound)
    ensures forall j, k :: 0 <= j < k < |bound| ==> SlotOf(bound[j], |nextSend|) != SlotOf(bound[k], |nextSend|)
  {
    forall j, k | 0 <= j < k < |bound| ensures SlotOf(bound[j], |nextSend|) != SlotOf(bound[k], |nextSend|) {
      var a, b, n := bound[j], bound[k], |nextSend|;
      ModUnique(SlotOf(a, n), n, a.view, a.instance);
      ModUnique(SlotOf(b, n), n, b.view, b.instance);
    }
  }

  /** The batch was bound to the next slot of instance `p`, which this replica leads. */
  ghost predicate Made(nodes: nat, self: nat, was: seq<nat>, now: seq<nat>, lastSent: seq<nat>, p: nat, b: Binding)
    requires nodes > 0 && p < |was| && p < |lastSent|
  {
    && b.instance == p && b.view == was[p] == lastSent[p] && now == was[p := b.view + nodes]
    && Leads(nodes, self, b.view, p)
  }

  // ----- Walking the instances in a circle -------------------------------------

  /** How far instance `i` is from `start`. */
  function Offset(start: nat, i: nat, n: nat): nat
    requires start < n && i < n
  {
    if i >= start then i - start else i + n - start
  }

  lemma OffsetNext(start: nat, i: nat, n: nat)
    requires start < n && i < n
    ensures var j := (i + 1) % n;
      if Offset(start, i, n) + 1 == n then j == start
      else j != start && Offset(start, j, n) == Offset(start, i, n) + 1
  {
    if i + 1 < n {
      ModUnique(i + 1, n, 0, i + 1);
    } else {
      ModUnique(i + 1, n, 1, 0);
    }
  }

  /** The proposal thread may take from queue `i` for the instance whose turn it is:
      its own, or one whose instance is not behind. */
  predicate Eligible(cnt: seq<nat>, views: seq<nat>, turn: nat, i: nat)
    requires |cnt| == |views| && turn < |views| && i < |views|
  {
    cnt[i] > 0 && (i == turn || views[i] >= views[turn])
  }

  /** It takes from the first such queue, going around from its own. */
  ghost predicate FirstEligible(cnt: seq<nat>, views: seq<nat>, turn: nat, i: nat)
    requires |cnt| == |views| && turn < |views| && i < |views|
  {
    && Eligible(cnt, views, turn, i)
    && forall j :: 0 <= j < |views| && Offset(turn, j, |views|) < Offset(turn, i, |views|) ==> !Eligible(cnt, views, turn, j)
  }

  ghost predicate NoneEligible(cnt: seq<nat>, views: seq<nat>, turn: nat)
    requires |cnt| == |views| && turn < |views|
  {
    forall i :: 0 <= i < |views| ==> !Eligible(cnt, views, turn, i)
  }

  /** All queues before `c`, going around from `start`, hold more than `min` batches. */
  ghost predicate Before(cnt: seq<nat>, start: nat, c: nat, min: nat)
    requires start < |cnt| && c < |cnt|
  {
    forall i :: 0 <= i < |cnt| && Offset(start, i, |cnt|) < Offset(start, c, |cnt|) ==> cnt[i] > min
  }

  /** They hold at least `least` batches. */
  ghost predicate Seen(cnt: seq<nat>, start: nat, c: nat, least: nat)
    requires start < |cnt| && c < |cnt|
  {
    forall i :: 0 <= i < |cnt| && Offset(start, i, |cnt|) < Offset(start, c, |cnt|) ==> least <= cnt[i]
  }

  /** An arriving batch goes to the first of the shortest queues, going around from `start`. */
  ghost predicate FirstShortest(cnt: seq<nat>, start: nat, c: nat)
    requires start < |cnt| && c < |cnt|
  {
    (forall i :: 0 <= i < |cnt| ==> cnt[c] <= cnt[i]) && Before(cnt, start, c, cnt[c])
  }

  class BatchQueues {
    const nodes: nat
    const self: nat
    const n: nat
    var queues: seq<seq<nat>>
    var cnt: seq<nat>
    var idx: nat
    var nextSend: seq<nat>
    var lastSent: seq<nat>
    var turn: nat
    /** All batches that arrived, and all bindings made, in order. */
    ghost var arrived: multiset<nat>
    ghost var bound: seq<Binding>

    ghost predicate Shape()
      reads this
    {
      && 0 < n <= nodes && self < nodes && (if self < n then idx < n else idx == self) && turn < n
      && |queues| == n && |cnt| == n && |nextSend| == n && |lastSent| == n
      && Counts(queues, cnt)
    }

    /** Every batch that arrived is bound once or still queued. */
    ghost predicate Conserved()
      reads this
    {
      arrived == Batches(bound) + Queued(queues)
    }

    /** The search for a queue starts inside the counters and comes to an end. */
    predicate Searchable()
      requires |cnt| == n
      reads this
    {
      idx < n && exists i :: 0 <= i < n && cnt[i] <= LIMIT
    }

    ghost predicate Valid()
      reads this
    {
      Shape() && SlotsOk(nodes, self, nextSend, bound) && Conserved() && (self >= n ==> arrived == multiset{})
    }

    /** The search for a queue begins at the number of the replica, even if there are
        fewer instances. */
    constructor (nodes: nat, self: nat, instances: nat)
      requires 0 < instances <= nodes && self < nodes
      ensures Valid() && this.nodes == nodes && this.self == self && n == instances && idx == self
      ensures arrived == multiset{} && bound == [] && queues == seq(instances, _ => [])
    {
      this.nodes, this.self, this.n := nodes, self, instances;
      idx, turn := self, 0;
      queues := seq(instances, _ => []);
      cnt := seq(instances, _ => 0);
      lastSent := seq(instances, _ => 0);
      nextSend := seq(instances, i requires 0 <= i < instances => (nodes + self - i) % nodes);
      arrived, bound := multiset{}, [];
      new;
      forall i | 0 <= i < n ensures Leads(nodes, self, nextSend[i], i) {
        FirstLed(Config(nodes, nodes, i, 5), self);
      }
      NothingQueued(queues);
    }

    /** `enqueue`, the client branch: the batch goes to the first of the queues with the fewest. */
    method Enqueue(batch: nat) returns (c: nat)
      requires Valid() && Searchable()
      modifies this`queues, this`cnt, this`idx, this`arrived
      ensures Valid() && c < n && FirstShortest(old(cnt), old(idx), c)
      ensures queues == old(queues)[c := old(queues)[c] + [batch]] && idx == (c + 1) % n
      ensures arrived == old(arrived) + multiset{batch}
    {
      c := FindShortest();
      PushQueued(queues, c, batch);
      CountsUpdate(queues, cnt, c, queues[c] + [batch]);
      queues := queues[c := queues[c] + [batch]];
      cnt := cnt[c := cnt[c] + 1];
      idx := (c + 1) % n;
      arrived := arrived + multiset{batch};
    }

    /** The search loop: once around for an empty queue, remembering the least count, and
        once more for that count. */
    method FindShortest() returns (c: nat)
      requires Shape() && Searchable()
      ensures c < n && FirstShortest(cnt, idx, c)
    {
      var start, min, least := idx, 0, LIMIT;
      c := idx;
      ghost var again := false;
      while cnt[c] > min
        invariant c < n && least <= LIMIT
        invariant least == LIMIT || exists i :: 0 <= i < n && cnt[i] == least
        invariant !again ==> min == 0 && Seen(cnt, start, c, least)
        invariant again ==> min == least && forall i :: 0 <= i < n ==> least <= cnt[i]
        invariant Before(cnt, start, c, min)
        decreases if again then 0 else 1, n - Offset(start, c, n)
      {
        OffsetNext(start, c, n);
        if cnt[c] < least {
          least := cnt[c];
        }
        c := (c + 1) % n;
        if c == start {
          min := least;
          again := true;
        }
      }
    }

    /** One round of the proposal loop at the current views: bind the oldest batch of the first
        eligible queue to the next slot of the instance whose turn it is, if that view is
        reached and there is such a queue. */
    method Propose(views: seq<nat>) returns (r: Option<Binding>)
      requires Valid() && |views| == n
      modifies this`queues, this`cnt, this`nextSend, this`lastSent, this`turn, this`bound
      ensures Valid() && turn == (old(turn) + n - 1) % n
      ensures r.Some? <==> old(nextSend[turn]) <= views[old(turn)] && !NoneEligible(old(cnt), views, old(turn))
      ensures r.None? ==> bound == old(bound) && queues == old(queues) && nextSend == old(nextSend)
      ensures r.Some? ==>
        && r.value.instance == old(turn) && r.value.view == old(nextSend[turn]) == lastSent[old(turn)]
        && bound == old(bound) + [r.value] && nextSend == old(nextSend)[old(turn) := r.value.view + nodes]
        && Leads(nodes, self, r.value.view, r.value.instance)
        && Taken(old(queues), queues, r.value) && FirstEligible(old(cnt), views, old(turn), r.value.queue)
    {
      r := TryBind(views);
      turn := (turn + n - 1) % n;
    }

    method TryBind(views: seq<nat>) returns (r: Option<Binding>)
      requires Valid() && |views| == n
      modifies this`queues, this`cnt, this`nextSend, this`lastSent, this`bound
      ensures Valid()
      ensures r.Some? <==> old(nextSend[turn]) <= views[turn] && !NoneEligible(old(cnt), views, turn)
      ensures r.None? ==> bound == old(bound) && queues == old(queues) && nextSend == old(nextSend)
      ensures r.Some? ==>
        && bound == old(bound) + [r.value] && Made(nodes, self, old(nextSend), nextSend, lastSent, turn, r.value)
        && Taken(old(queues), queues, r.value) && FirstEligible(old(cnt), views, turn, r.value.queue)
    {
      var i := Choose(views);
      r := None;
      if i < n {
        var b := Bind(i, turn);
        r := Some(b);
      }
    }

    /** The queue to take a batch from, if the view of the next slot is reached. */
    method Choose(views: seq<nat>) returns (i: nat)
      requires Shape() && |views| == n
      ensures i < n ==> nextSend[turn] <= views[turn] && cnt[i] > 0 && FirstEligible(cnt, views, turn, i)
      ensures i >= n ==> nextSend[turn] > views[turn] || NoneEligible(cnt, views, turn)
    {
      if nextSend[turn] > views[turn] {
        return n;
      }
      i := FindBatch(views);
    }

    /** Bind the oldest batch of queue `i` to the next slot of instance `p`. */
    method Bind(i: nat, p: nat) returns (b: Binding)
      requires Valid() && i < n && queues[i] != [] && p < n
      modifies this`queues, this`cnt, this`nextSend, this`lastSent, this`bound
      ensures Valid() && bound == old(bound) + [b] && Made(nodes, self, old(nextSend), nextSend, lastSent, p, b)
      ensures b.queue == i && Taken(old(queues), queues, b)
    {
      var batch := Pop(i);
      b := Binding(batch, i, p, nextSend[p]);
      BindBalances(arrived, bound, old(queues), queues, b);
      Record(b);
    }

    method Pop(i: nat) returns (batch: nat)
      requires Shape() && i < n && queues[i] != []
      modifies this`queues, this`cnt
      ensures Shape()
      ensures batch == old(queues[i][0]) && queues == old(queues)[i := old(queues[i][1..])]
    {
      batch := queues[i][0];
      CountsUpdate(queues, cnt, i, queues[i][1..]);
      queues, cnt := queues[i := queues[i][1..]], cnt[i := cnt[i] - 1];
    }

    /** `set_last_sent_view` and `inc_next_send_view`. */
    method Record(b: Binding)
      requires Shape() && SlotsOk(nodes, self, nextSend, bound) && b.instance < n && b.view == nextSend[b.instance]
      modifies this`nextSend, this`lastSent, this`bound
      ensures Shape() && SlotsOk(nodes, self, nextSend, bound) && Leads(nodes, self, b.view, b.instance)
      ensures nextSend == old(nextSend)[b.instance := b.view + nodes] && lastSent == old(lastSent)[b.instance := b.view]
      ensures bound == old(bound) + [b]
    {
      BindNext(nodes, self, nextSend, bound, b.batch, b.queue, b.instance);
      lastSent := lastSent[b.instance := b.view];
      nextSend := nextSend[b.instance := b.view + nodes];
      bound := bound + [b];
    }

    /** The search loop, starting at the instance whose turn it is. */
    method FindBatch(views: seq<nat>) returns (i: nat)
      requires Shape() && |views| == n
      ensures i < n ==> FirstEligible(cnt, views, turn, i)
      ensures i >= n ==> NoneEligible(cnt, views, turn)
    {
      i := turn;
      while !(cnt[i] > 0 && (i == turn || views[i] >= views[turn]))
        invariant i < n
        invariant forall j :: 0 <= j < n && Offset(turn, j, n) < Offset(turn, i, n) ==> !Eligible(cnt, views, turn, j)
        decreases n - Offset(turn, i, n)
      {
        OffsetNext(turn, i, n);
        if (i + 1) % n == turn {
          return n;
        }
        i := (i + 1) % n;
      }
    }
  }

  lemma {:induction false} NothingQueued(queues: seq<seq<nat>>)
    requires forall i :: 0 <= i < |queues| ==> queues[i] == []
    ensures Queued(queues) == multiset{}
  {
    if queues != [] {
      NothingQueued(queues[1..]);
    }
  }

  // ----- Whole histories -------------------------------------------------------

  datatype Op = Arrive(batch: nat) | Attempt(views: seq<nat>)

  /** The batches put in queue `i`, in order; `chosen` names the queue of each arrival. */
  function PutIn(ops: seq<Op>, chosen: seq<nat>, i: nat): seq<nat>
    requires |chosen| == |ops|
  {
    if ops == [] then []
    else
      var last := |ops| - 1;
      PutIn(ops[..last], chosen[..last], i) + if ops[last].Arrive? && chosen[last] == i then [ops[last].batch] else []
  }

  lemma PutInNext(ops: seq<Op>, chosen: seq<nat>, c: nat, i: nat)
    requires |chosen| < |ops|
    ensures PutIn(ops[..|chosen| + 1], chosen + [c], i) == PutIn(ops[..|chosen|], chosen, i)
      + if ops[|chosen|].Arrive? && c == i then [ops[|chosen|].batch] else []
  {
    assert ops[..|chosen| + 1][..|chosen|] == ops[..|chosen|];
    assert (chosen + [c])[..|chosen|] == chosen;
  }

  /** The batches put in each queue are those bound from it and then those still in it. */
  ghost predicate InOrder(ops: seq<Op>, chosen: seq<nat>, bound: seq<Binding>, queues: seq<seq<nat>>) {
    |chosen| == |ops| && forall i :: 0 <= i < |queues| ==> PutIn(ops, chosen, i) == From(bound, i) + queues[i]
  }

  lemma StartInOrder(queues: seq<seq<nat>>)
    requires forall i :: 0 <= i < |queues| ==> queues[i] == []
    ensures InOrder([], [], [], queues)
  {
  }

  /** A round of the loop binds nothing or one batch, the oldest of its queue. */
  predicate Works(was: seq<seq<nat>>, now: seq<seq<nat>>, made: seq<Binding>) {
    if made == [] then now == was else |made| == 1 && Taken(was, now, made[0])
  }

  lemma NextInOrder(ops: seq<Op>, chosen: seq<nat>, c: nat, bound: seq<Binding>, made: seq<Binding>,
                    was: seq<seq<nat>>, now: seq<seq<nat>>)
    requires |chosen| < |ops| && InOrder(ops[..|chosen|], chosen, bound, was)
    requires var op := ops[|chosen|];
      if op.Arrive? then made == [] && c < |was| && now == was[c := was[c] + [op.batch]] else Works(was, now, made)
    ensures InOrder(ops[..|chosen| + 1], chosen + [c], bound + made, now)
  {
    forall i | 0 <= i < |now| ensures PutIn(ops[..|chosen| + 1], chosen + [c], i) == From(bound + made, i) + now[i] {
      PutInNext(ops, chosen, c, i);
      WorkedOff(bound, made, was, now, i);
    }
  }

  lemma WorkedOff(bound: seq<Binding>, made: seq<Binding>, was: seq<seq<nat>>, now: seq<seq<nat>>, i: nat)
    requires i < |was| == |now|
    ensures made == [] ==> From(bound + made, i) == From(bound, i)
    ensures Works(was, now, made) ==> From(bound + made, i) + now[i] == From(bound, i) + was[i]
  {
    if made == [] {
      assert bound + made == bound;
    } else if |made| == 1 {
      assert made == [made[0]];
      FromLast(bound, made[0], i);
    }
  }

  ghost function Arrivals(ops: seq<Op>): multiset<nat> {
    if ops == [] then multiset{}
    else
      var last := |ops| - 1;
      Arrivals(ops[..last]) + if ops[last].Arrive? then multiset{ops[last].batch} else multiset{}
  }

  lemma ArrivalsNext(ops: seq<Op>, k: nat)
    requires k < |ops|
    ensures Arrivals(ops[..k + 1]) == Arrivals(ops[..k]) + if ops[k].Arrive? then multiset{ops[k].batch} else multiset{}
  {
    assert ops[..k + 1][..k] == ops[..k];
  }

  /** What the invariant says of the bindings and of the batches still queued. */
  lemma Outcome(q: BatchQueues)
    requires q.Valid()
    ensures q.arrived == Batches(q.bound) + Queued(q.queues) && |q.queues| == |q.cnt| == q.n
    ensures forall i :: 0 <= i < q.n ==> q.cnt[i] == |q.queues[i]|
    ensures forall k :: 0 <= k < |q.bound| ==>
      q.bound[k].instance < q.n && Leads(q.nodes, q.self, q.bound[k].view, q.bound[k].instance)
    ensures forall j, k :: 0 <= j < k < |q.bound| ==> SlotOf(q.bound[j], q.n) != SlotOf(q.bound[k], q.n)
  {
    OneBatchPerSlot(q.nodes, q.self, q.nextSend, q.bound);
  }

  lemma WhyStopped(q: BatchQueues)
    requires q.Valid() && |q.cnt| == |q.queues| == q.n
    ensures !q.Searchable() ==> q.self >= q.n || forall i :: 0 <= i < q.n ==> |q.queues[i]| > LIMIT
  {
  }

  /** One arrival or one round of the proposal loop; `c` is the queue of an arrival. */
  method Perform(q: BatchQueues, op: Op) returns (made: seq<Binding>, c: nat)
    requires q.Valid() && (op.Attempt? ==> |op.views| == q.n)
    requires op.Arrive? ==> q.Searchable()
    modifies q
    ensures q.Valid() && q.bound == old(q.bound) + made
    ensures q.arrived == old(q.arrived) + if op.Arrive? then multiset{op.batch} else multiset{}
    ensures if op.Arrive? then made == [] && c < |old(q.queues)| && q.queues == old(q.queues)[c := old(q.queues[c]) + [op.batch]]
            else Works(old(q.queues), q.queues, made)
  {
    made, c := [], 0;
    if op.Attempt? {
      var r := q.Propose(op.views);
      if r.Some? {
        made := [r.value];
      }
    } else {
      c := q.Enqueue(op.batch);
    }
  }

  /** Any history of arriving batches and rounds of the proposal loop, up to the point
      where the search for a queue would not end or would start outside the counters:
      every batch that arrived is bound or queued, those of one queue are bound in the order
      they were put in it, no slot got two, and each is one this replica leads. The search starts outside at the very first batch exactly if the
      replica's number is not that of an instance. */
  method Serve(nodes: nat, self: nat, instances: nat, ops: seq<Op>)
    returns (done: nat, bound: seq<Binding>, left: seq<seq<nat>>, chosen: seq<nat>)
    requires 0 < instances <= nodes && self < nodes
    requires forall k :: 0 <= k < |ops| && ops[k].Attempt? ==> |ops[k].views| == instances
    ensures done <= |ops| && |left| == instances
    ensures done < |ops| ==> ops[done].Arrive? && (self >= instances || forall i :: 0 <= i < instances ==> |left[i]| > LIMIT)
    ensures self >= instances ==> Arrivals(ops[..done]) == multiset{}
    ensures Arrivals(ops[..done]) == Batches(bound) + Queued(left)
    ensures |chosen| == done && forall i :: 0 <= i < instances ==> PutIn(ops[..done], chosen, i) == From(bound, i) + left[i]
    ensures forall k :: 0 <= k < |bound| ==> bound[k].instance < instances && Leads(nodes, self, bound[k].view, bound[k].instance)
    ensures forall j, k :: 0 <= j < k < |bound| ==> SlotOf(bound[j], instances) != SlotOf(bound[k], instances)
  {
    var q := new BatchQueues(nodes, self, instances);
    done, bound, chosen := 0, [], [];
    StartInOrder(q.queues);
    while done < |ops| && (ops[done].Attempt? || q.Searchable())
      invariant fresh(q) && q.Valid() && q.bound == bound && done <= |ops|
      invariant q.arrived == Arrivals(ops[..done]) && |chosen| == done && InOrder(ops[..done], chosen, bound, q.queues)
    {
      ArrivalsNext(ops, done);
      ghost var was := q.queues;
      var made, c := Perform(q, ops[done]);
      NextInOrder(ops, chosen, c, bound, made, was, q.queues);
      bound, chosen := bound + made, chosen + [c];
      done := done + 1;
    }
    left := q.queues;
    Outcome(q);
    WhyStopped(q);
  }
}
