/** The execution scheduler: execute messages of all instances arrive in any order
    and run in slot order, by a ring of queues, a heap and two semaphores. Every
    line of the enqueue code interleaves with every line of the executor. */
module Executor {
  import opened Cluster

  /** How far the enqueue of a slot's message has come. */
  datatype Stage = Pushed | Posted | Heaped | Posting | Done

  /** What the executor does next. */
  datatype Exec =
    | AwaitWork
    | AwaitTurn
    | Popping
    | Running(slot: nat)
    | Finishing(slot: nat)
    | PoppingHeap(slot: nat)
    | Comparing(slot: nat)
    | Waking(slot: nat)

  /** `work` and `turn` are the semaphores; `executed` records the slots run. */
  datatype Sched = Sched(ring: seq<seq<nat>>, heap: set<nat>, work: nat, turn: nat, expected: nat,
                         stage: map<nat, Stage>, exec: Exec, executed: seq<nat>)

  datatype Event = Arrive(slot: nat) | Proceed(slot: nat) | Step

  function Start(size: nat): Sched {
    Sched(seq(size, _ => []), {}, 0, 0, 0, map[], AwaitWork, [])
  }

  predicate IsTop(h: set<nat>, x: nat) {
    x in h && forall y :: y in h ==> x <= y
  }

  ghost function Top(h: set<nat>): (x: nat)
    requires h != {}
    ensures IsTop(h, x)
  {
    var x :| x in h;
    if h == {x} then x
    else
      var y := Top(h - {x});
      assert h == (h - {x}) + {x};
      if x < y then x else y
  }

  /** Popping or reading an empty heap has no effect and matches nothing. */
  ghost function HeapPop(h: set<nat>): set<nat> {
    if h == {} then h else h - {Top(h)}
  }

  ghost predicate TopIs(h: set<nat>, x: nat) {
    h != {} && Top(h) == x
  }

  /** Push a message on the queue of its slot. */
  function Push(ring: seq<seq<nat>>, slot: nat): seq<seq<nat>>
    requires |ring| > 0
  {
    var q := slot % |ring|;
    ring[q := ring[q] + [slot]]
  }

  /** The next line of the enqueue of `slot`. */
  function Enqueue(s: Sched, slot: nat): Sched
    requires slot in s.stage
  {
    match s.stage[slot]
    case Pushed => s.(work := s.work + 1, stage := s.stage[slot := Posted])
    case Posted => s.(heap := s.heap + {slot}, stage := s.stage[slot := Heaped])
    case Heaped => s.(stage := s.stage[slot := if slot == s.expected then Posting else Done])
    case Posting => s.(turn := s.turn + 1, stage := s.stage[slot := Done])
    case Done => s
  }

  /** The next line of the executor; it blocks on a semaphore that is zero. */
  ghost function Execute(s: Sched): Sched
    requires |s.ring| > 0
  {
    match s.exec
    case AwaitWork => if s.work == 0 then s else s.(work := s.work - 1, exec := AwaitTurn)
    case AwaitTurn => if s.turn == 0 then s else s.(turn := s.turn - 1, exec := Popping)
    case Popping => PopRing(s)
    case Running(k) => s.(executed := s.executed + [k], exec := Finishing(k))
    case Finishing(k) => s.(expected := k + 1, exec := PoppingHeap(k))
    case PoppingHeap(k) => s.(heap := HeapPop(s.heap), exec := Comparing(k))
    case Comparing(k) => s.(exec := if TopIs(s.heap, s.expected) then Waking(k) else AwaitWork)
    case Waking(k) => s.(turn := s.turn + 1, exec := AwaitWork)
  }

  /** Take a message from the expected queue: none, and the work token is given
      back; the wrong one, and it is enqueued again. */
  function PopRing(s: Sched): Sched
    requires |s.ring| > 0
  {
    var q := s.expected % |s.ring|;
    if s.ring[q] == [] then s.(work := s.work + 1, exec := AwaitWork)
    else
      var slot, rest := s.ring[q][0], s.ring[q := s.ring[q][1..]];
      if slot == s.expected then s.(ring := rest, exec := Running(slot))
      else s.(ring := Push(rest, slot), stage := s.stage[slot := Pushed], exec := AwaitWork)
  }

  /** A slot's message arrives once, within the window the ring can tell apart. */
  predicate CanArrive(s: Sched, slot: nat) {
    slot !in s.stage && slot < s.expected + |s.ring|
  }

  ghost function Next(s: Sched, e: Event): Sched
    requires |s.ring| > 0
  {
    match e
    case Arrive(slot) =>
      if CanArrive(s, slot) then s.(ring := Push(s.ring, slot), stage := s.stage[slot := Pushed]) else s
    case Proceed(slot) => if slot in s.stage then Enqueue(s, slot) else s
    case Step => Execute(s)
  }

  lemma RingSize(s: Sched, e: Event)
    requires |s.ring| > 0
    ensures |Next(s, e).ring| == |s.ring|
  {
  }

  ghost function Run(s: Sched, events: seq<Event>): Sched
    requires |s.ring| > 0
    decreases |events|
  {
    if events == [] then s
    else
      RingSize(s, events[0]);
      Run(Next(s, events[0]), events[1..])
  }

  // ----- Slots and transaction identifiers -------------------------------------

  /** The execute message of a slot carries the last but one transaction of its batch. */
  function ExecuteId(batch: nat, slot: nat): int {
    slot * batch + batch - 2
  }

  /** The enqueue side computes the slot back from the identifier; the executor, who
      adds a batch for each slot, expects the identifier of the next slot. */
  lemma SlotOfExecuteId(batch: nat, slot: nat)
    requires batch >= 2
    ensures (ExecuteId(batch, slot) + 2 - batch) / batch == slot
    ensures ExecuteId(batch, slot + 1) == ExecuteId(batch, slot) + batch
    ensures ExecuteId(batch, 0) == batch - 2
  {
    ModUnique(slot * batch, batch, slot, 0);
    assert (slot + 1) * batch == slot * batch + batch;
  }

  // ----- Gapless, in order, exactly once ---------------------------------------

  /** Slots whose message was taken off the ring. */
  function Popped(s: Sched): nat {
    if s.exec.Running? then |s.executed| + 1 else |s.executed|
  }

  predicate Waiting(s: Sched, slot: nat) {
    slot in s.stage && slot >= Popped(s)
  }

  predicate ExecOk(s: Sched) {
    match s.exec
    case Running(k) => k == s.expected == |s.executed|
    case Finishing(k) => k == s.expected && |s.executed| == k + 1
    case PoppingHeap(k) => s.expected == |s.executed| == k + 1
    case Comparing(k) => s.expected == |s.executed| == k + 1
    case Waking(k) => s.expected == |s.executed| == k + 1
    case _ => s.expected == |s.executed|
  }

  predicate RingOk(s: Sched) {
    forall q :: 0 <= q < |s.ring| ==> QueueOk(s, q)
  }

  /** A queue holds at most one message, of a slot that arrived and waits. */
  predicate QueueOk(s: Sched, q: nat)
    requires q < |s.ring|
  {
    && |s.ring[q]| <= 1
    && (|s.ring[q]| == 1 ==> Waiting(s, s.ring[q][0]) && s.ring[q][0] % |s.ring| == q)
  }

  ghost predicate Order(s: Sched) {
    && |s.ring| > 0
    && (forall i :: 0 <= i < |s.executed| ==> s.executed[i] == i)
    && ExecOk(s)
    && (forall j :: j in s.stage ==> j < s.expected + |s.ring|)
    && (forall j :: 0 <= j < Popped(s) ==> j in s.stage)
    && RingOk(s)
    && (forall j: nat :: Waiting(s, j) ==> s.ring[j % |s.ring|] == [j])
  }

  /** Slots of one window fall on different queues. */
  lemma WindowApart(i: nat, j: nat, low: nat, size: nat)
    requires size > 0 && low <= i < low + size && low <= j < low + size && i % size == j % size
    ensures i == j
  {
    MulGap(i / size, j / size, size);
    MulGap(j / size, i / size, size);
  }

  lemma ArriveKeepsOrder(s: Sched, slot: nat)
    requires Order(s) && CanArrive(s, slot)
    ensures Order(Next(s, Arrive(slot)))
  {
    var s', q := Next(s, Arrive(slot)), slot % |s.ring|;
    assert QueueOk(s, q) && slot >= s.expected;
    if s.ring[q] != [] {
      WindowApart(s.ring[q][0], slot, s.expected, |s.ring|);
      assert false;
    }
    forall p | 0 <= p < |s'.ring| ensures QueueOk(s', p) {
      assert QueueOk(s, p);
    }
    forall j: nat | Waiting(s', j) ensures s'.ring[j % |s'.ring|] == [j] {
      if j != slot {
        assert Waiting(s, j);
      }
    }
  }

  lemma PopKeepsOrder(s: Sched)
    requires Order(s) && s.exec == Popping
    ensures Order(PopRing(s))
    ensures PopRing(s) == if s.expected in s.stage
                          then s.(ring := s.ring[s.expected % |s.ring| := []], exec := Running(s.expected))
                          else s.(work := s.work + 1, exec := AwaitWork)
  {
    var s', q := PopRing(s), s.expected % |s.ring|;
    assert QueueOk(s, q);
    if s.ring[q] != [] {
      WindowApart(s.ring[q][0], s.expected, s.expected, |s.ring|);
    }
    if s.expected in s.stage {
      assert Waiting(s, s.expected);
      assert s.ring[q][1..] == [];
    }
    forall p | 0 <= p < |s'.ring| ensures QueueOk(s', p) {
      assert QueueOk(s, p);
    }
    forall j: nat | Waiting(s', j) ensures s'.ring[j % |s'.ring|] == [j] {
      assert Waiting(s, j);
      assert s.ring[j % |s.ring|] == [j];
    }
  }

  lemma NextKeepsOrder(s: Sched, e: Event)
    requires Order(s)
    ensures Order(Next(s, e))
  {
    match e {
      case Arrive(slot) => if CanArrive(s, slot) { ArriveKeepsOrder(s, slot); }
      case Proceed(slot) => ProceedKeepsOrder(s, slot);
      case Step => if s.exec == Popping { PopKeepsOrder(s); } else { ExecuteKeepsOrder(s); }
    }
  }

  lemma ProceedKeepsOrder(s: Sched, slot: nat)
    requires Order(s)
    ensures Order(Next(s, Proceed(slot)))
  {
    var s' := Next(s, Proceed(slot));
    assert s'.stage.Keys == s.stage.Keys;
    SameWaiting(s, s');
  }

  lemma ExecuteKeepsOrder(s: Sched)
    requires Order(s) && s.exec != Popping
    ensures Order(Execute(s))
  {
    SameWaiting(s, Execute(s));
  }

  lemma SameWaiting(s: Sched, s': Sched)
    requires Order(s) && s'.ring == s.ring && s'.stage.Keys == s.stage.Keys && Popped(s') == Popped(s)
    ensures RingOk(s') && (forall j: nat :: Waiting(s', j) ==> s'.ring[j % |s'.ring|] == [j])
  {
    assert forall j: nat :: Waiting(s', j) <==> Waiting(s, j);
    forall q | 0 <= q < |s'.ring| ensures QueueOk(s', q) {
      assert QueueOk(s, q);
    }
  }

  lemma {:induction false} RunKeepsOrder(s: Sched, events: seq<Event>)
    requires Order(s)
    ensures Order(Run(s, events))
    decreases |events|
  {
    if events != [] {
      NextKeepsOrder(s, events[0]);
      RunKeepsOrder(Next(s, events[0]), events[1..]);
    }
  }

  /** Whatever the arrival order and the interleaving, slots execute gaplessly, in
      order and each once, and only after their message arrived. */
  lemma ExecutesInOrder(size: nat, events: seq<Event>)
    requires size > 0
    ensures var s := Run(Start(size), events);
      && (forall i :: 0 <= i < |s.executed| ==> s.executed[i] == i && i in s.stage)
      && s.expected <= |s.executed| <= s.expected + 1
  {
    assert Order(Start(size));
    RunKeepsOrder(Start(size), events);
  }

  // ----- The work semaphore ----------------------------------------------------

  function PostedSlots(stage: map<nat, Stage>): set<nat> {
    set j | j in stage && stage[j] != Pushed
  }

  function InHand(e: Exec): nat {
    if e == AwaitTurn || e == Popping then 1 else 0
  }

  /** Posts are conserved: every one is a token, held by the executor, or spent on
      a slot taken off the ring. */
  predicate WorkOk(s: Sched) {
    s.work + InHand(s.exec) + Popped(s) == |PostedSlots(s.stage)|
  }

  lemma NextKeepsWork(s: Sched, e: Event)
    requires Order(s) && WorkOk(s)
    ensures WorkOk(Next(s, e))
  {
    match e {
      case Arrive(slot) => assert PostedSlots(s.stage[slot := Pushed]) == PostedSlots(s.stage) - {slot};
      case Proceed(slot) => if slot in s.stage { EnqueuePosts(s, slot); }
      case Step => ExecuteKeepsWork(s);
    }
  }

  lemma EnqueuePosts(s: Sched, slot: nat)
    requires slot in s.stage
    ensures |PostedSlots(Enqueue(s, slot).stage)| - |PostedSlots(s.stage)| == Enqueue(s, slot).work - s.work
  {
    var posted := PostedSlots(Enqueue(s, slot).stage);
    if s.stage[slot] == Pushed {
      assert posted == PostedSlots(s.stage) + {slot};
    } else {
      assert posted == PostedSlots(s.stage);
    }
  }

  lemma ExecuteKeepsWork(s: Sched)
    requires Order(s) && WorkOk(s)
    ensures WorkOk(Execute(s))
  {
    if s.exec == Popping {
      PopKeepsOrder(s);
    }
  }

  // ----- No wakeup is lost if the heap is filled in time -----------------------

  /** The heap is popped only once it holds the slot just executed. */
  predicate InTime(s: Sched, e: Event) {
    e == Step && s.exec.PoppingHeap? ==> s.exec.slot in s.heap
  }

  ghost predicate InTimeRun(s: Sched, events: seq<Event>)
    requires |s.ring| > 0
    decreases |events|
  {
    events == [] ||
    (&& InTime(s, events[0])
     && (RingSize(s, events[0]); InTimeRun(Next(s, events[0]), events[1..])))
  }

  predicate InHeap(stage: Stage) {
    stage == Heaped || stage == Posting || stage == Done
  }

  predicate Entered(s: Sched, slot: nat) {
    slot in s.stage && InHeap(s.stage[slot])
  }

  /** The slots below have left the heap for good. */
  function Low(s: Sched): nat {
    if s.exec.PoppingHeap? then s.exec.slot else s.expected
  }

  ghost predicate HeapOk(s: Sched) {
    && (forall j: nat :: j in s.heap <==> Entered(s, j) && j >= Low(s))
    && (forall j: nat :: j < Low(s) ==> Entered(s, j))
  }

  /** A slot whose turn it is and that is in the heap has a token, or one on its way. */
  predicate WakeOk(s: Sched) {
    Entered(s, s.expected) && Popped(s) <= s.expected ==>
      || s.turn > 0 || s.exec == Popping
      || s.stage[s.expected] != Done
      || s.exec.PoppingHeap? || s.exec.Comparing? || s.exec.Waking?
  }

  ghost predicate Prompt(s: Sched) {
    Order(s) && WorkOk(s) && HeapOk(s) && WakeOk(s)
  }

  lemma PopsExecuted(s: Sched)
    requires HeapOk(s) && s.exec.PoppingHeap? && s.exec.slot in s.heap
    ensures HeapPop(s.heap) == s.heap - {s.exec.slot}
  {
    assert IsTop(s.heap, Top(s.heap));
  }

  lemma ComparesRight(s: Sched)
    requires HeapOk(s) && s.exec.Comparing?
    ensures TopIs(s.heap, s.expected) <==> Entered(s, s.expected)
  {
    if s.expected in s.heap {
      assert IsTop(s.heap, Top(s.heap));
    }
  }

  lemma StepKeepsHeap(s: Sched)
    requires Order(s) && HeapOk(s) && InTime(s, Step)
    ensures HeapOk(Execute(s))
  {
    if s.exec == Popping {
      PopKeepsOrder(s);
      SameHeap(s, PopRing(s));
    } else if s.exec.PoppingHeap? {
      PopsExecuted(s);
      var s' := Execute(s);
      assert forall j: nat :: Entered(s', j) <==> Entered(s, j);
    } else {
      SameHeap(s, Execute(s));
    }
  }

  lemma StepKeepsPrompt(s: Sched)
    requires Prompt(s) && InTime(s, Step)
    ensures HeapOk(Execute(s)) && WakeOk(Execute(s))
  {
    StepKeepsHeap(s);
    if s.exec == Popping {
      PopKeepsOrder(s);
    } else if s.exec.Comparing? {
      ComparesRight(s);
    }
  }

  lemma SameHeap(s: Sched, s': Sched)
    requires HeapOk(s) && s'.heap == s.heap && s'.stage == s.stage && Low(s') == Low(s)
    ensures HeapOk(s')
  {
    assert forall j: nat :: Entered(s', j) <==> Entered(s, j);
  }

  lemma ProceedKeepsHeap(s: Sched, slot: nat)
    requires Order(s) && HeapOk(s) && slot in s.stage
    ensures HeapOk(Enqueue(s, slot))
  {
    var s' := Enqueue(s, slot);
    assert forall j: nat :: j != slot ==> (Entered(s', j) <==> Entered(s, j));
    assert Entered(s, slot) ==> Entered(s', slot);
    assert s.stage[slot] == Posted ==> slot >= Low(s);
  }

  lemma NextKeepsHeap(s: Sched, e: Event)
    requires Order(s) && HeapOk(s) && InTime(s, e)
    ensures HeapOk(Next(s, e))
  {
    match e {
      case Arrive(slot) =>
        var s' := Next(s, e);
        assert forall j: nat :: Entered(s', j) <==> Entered(s, j);
      case Proceed(slot) => if slot in s.stage { ProceedKeepsHeap(s, slot); }
      case Step => StepKeepsHeap(s);
    }
  }

  lemma NextKeepsPrompt(s: Sched, e: Event)
    requires Prompt(s) && InTime(s, e)
    ensures Prompt(Next(s, e))
  {
    NextKeepsOrder(s, e);
    NextKeepsWork(s, e);
    NextKeepsHeap(s, e);
    if e == Step {
      StepKeepsPrompt(s);
    }
  }

  lemma {:induction false} RunKeepsPrompt(s: Sched, events: seq<Event>)
    requires Prompt(s) && InTimeRun(s, events)
    ensures Prompt(Run(s, events))
    decreases |events|
  {
    if events != [] {
      NextKeepsPrompt(s, events[0]);
      RunKeepsPrompt(Next(s, events[0]), events[1..]);
    }
  }

  predicate Idle(s: Sched) {
    s.exec == AwaitWork || s.exec == AwaitTurn
  }

  /** The expected message is fully enqueued and the executor waits without a token. */
  predicate Lost(s: Sched) {
    Idle(s) && s.expected in s.stage && s.stage[s.expected] == Done && s.turn == 0
  }

  /** Lost, and no enqueue is about to post a token either. */
  predicate Stuck(s: Sched) {
    Lost(s) && forall j :: j in s.stage ==> s.stage[j] != Posting
  }

  lemma NextKeepsStuck(s: Sched, e: Event)
    requires |s.ring| > 0 && Stuck(s)
    ensures Stuck(Next(s, e)) && Next(s, e).executed == s.executed
  {
  }

  /** A stuck executor runs nothing any more, whatever arrives. */
  lemma {:induction false} StuckForever(s: Sched, events: seq<Event>)
    requires |s.ring| > 0 && Stuck(s)
    ensures Stuck(Run(s, events)) && Run(s, events).executed == s.executed
    decreases |events|
  {
    if events != [] {
      NextKeepsStuck(s, events[0]);
      RingSize(s, events[0]);
      StuckForever(Next(s, events[0]), events[1..]);
    }
  }

  /** As long as every heap pop is in time, no wakeup is lost: an idle executor whose
      next message is fully enqueued finds its turn, and its work token too
      unless some enqueue has yet to post its own. */
  lemma NoLostWakeup(size: nat, events: seq<Event>)
    requires size > 0 && InTimeRun(Start(size), events)
    ensures var s := Run(Start(size), events);
      && !Lost(s)
      && (Idle(s) && s.expected in s.stage && s.stage[s.expected] == Done ==>
            s.turn > 0 && (s.exec == AwaitWork && (forall j :: j in s.stage ==> s.stage[j] != Pushed) ==> s.work > 0))
  {
    assert Prompt(Start(size)) by {
      assert PostedSlots(map[]) == {};
    }
    RunKeepsPrompt(Start(size), events);
    var s := Run(Start(size), events);
    if s.exec == AwaitWork && s.expected in s.stage && (forall j :: j in s.stage ==> s.stage[j] != Pushed) {
      RangeSize(s.expected + 1);
      SubsetSize(Ids(s.expected + 1), PostedSlots(s.stage));
    }
  }

  // ----- A late heap push loses a wakeup ---------------------------------------

  /** Suppose all was in time so far, the next message is fully enqueued and no token is
      spare. Then the wakeup is lost exactly if the executed slot is not in the heap. */
  lemma LostIffLate(s: Sched)
    requires Prompt(s) && s.exec.PoppingHeap? && s.turn == 0
    requires s.expected in s.stage && s.stage[s.expected] == Done
    ensures Lost(Execute(Execute(s))) <==> s.exec.slot !in s.heap
  {
    var s' := Execute(s);
    if s.exec.slot in s.heap {
      PopsExecuted(s);
      assert s'.heap == s.heap - {s.exec.slot};
      assert IsTop(s'.heap, s.expected) && IsTop(s'.heap, Top(s'.heap));
    } else {
      assert IsTop(s.heap, s.expected) && IsTop(s.heap, Top(s.heap));
      assert s'.heap == s.heap - {s.expected};
    }
  }

  lemma {:induction false} RunAppend(s: Sched, events: seq<Event>, more: seq<Event>)
    requires |s.ring| > 0
    ensures |Run(s, events).ring| == |s.ring|
    ensures Run(s, events + more) == Run(Run(s, events), more)
    decreases |events|
  {
    if events == [] {
      assert events + more == more;
    } else {
      RingSize(s, events[0]);
      RunAppend(Next(s, events[0]), events[1..], more);
      assert (events + more)[1..] == events[1..] + more;
    }
  }

  lemma RunOne(s: Sched, e: Event, rest: seq<Event>)
    requires |s.ring| > 0
    ensures |Next(s, e).ring| == |s.ring| && Run(s, [e] + rest) == Run(Next(s, e), rest)
  {
    RingSize(s, e);
    assert ([e] + rest)[1..] == rest;
  }

  function Rank(stage: Stage): nat {
    match stage
    case Pushed => 4
    case Posted => 3
    case Heaped => 2
    case Posting => 1
    case Done => 0
  }

  /** What finishing the enqueue of `slot` changes. */
  ghost predicate Finished(s: Sched, s': Sched, slot: nat) {
    && s'.stage == s.stage[slot := Done]
    && (forall i :: i in s'.heap <==> i in s.heap || (i == slot && !Entered(s, slot)))
    && s'.exec == s.exec && s'.expected == s.expected && s'.executed == s.executed
    && |s'.ring| == |s.ring|
    && (slot != s.expected && slot !in s.stage ==> s'.turn == s.turn)
  }

  lemma {:induction false} ProceedToDone(s: Sched, slot: nat) returns (events: seq<Event>)
    requires Order(s) && WorkOk(s) && slot in s.stage
    ensures |s.ring| == |Run(s, events).ring|
    ensures var s' := Run(s, events); Order(s') && WorkOk(s') && Finished(s, s', slot)
    ensures slot != s.expected && s.stage[slot] != Posting ==> Run(s, events).turn == s.turn
    decreases Rank(s.stage[slot])
  {
    events := [];
    if s.stage[slot] == Done {
      assert s.stage[slot := Done] == s.stage;
    } else {
      var s1 := Enqueue(s, slot);
      NextKeepsOrder(s, Proceed(slot));
      NextKeepsWork(s, Proceed(slot));
      var rest := ProceedToDone(s1, slot);
      assert s1.stage[slot := Done] == s.stage[slot := Done];
      RunOne(s, Proceed(slot), rest);
      events := [Proceed(slot)] + rest;
    }
  }

  lemma Finish(s: Sched, slot: nat) returns (events: seq<Event>)
    requires Order(s) && WorkOk(s) && slot < s.expected + |s.ring|
    ensures |s.ring| == |Run(s, events).ring|
    ensures var s' := Run(s, events); Order(s') && WorkOk(s') && Finished(s, s', slot)
  {
    if slot in s.stage {
      events := ProceedToDone(s, slot);
    } else {
      var s1 := Next(s, Arrive(slot));
      NextKeepsOrder(s, Arrive(slot));
      NextKeepsWork(s, Arrive(slot));
      var rest := ProceedToDone(s1, slot);
      assert s1.stage[slot := Done] == s.stage[slot := Done];
      RunOne(s, Arrive(slot), rest);
      events := [Arrive(slot)] + rest;
    }
  }

  /** Every slot entered from `low` on is in the heap, and nothing else. */
  ghost predicate HeapFrom(s: Sched, low: nat) {
    forall j: nat :: j in s.heap <==> Entered(s, j) && j >= low
  }

  /** Every enqueue is finished but that of `low`, which is left as it is. */
  lemma {:induction false} FinishAll(s: Sched, low: nat, n: nat) returns (events: seq<Event>)
    requires Order(s) && WorkOk(s) && HeapFrom(s, low) && low < s.expected && n <= s.expected + |s.ring|
    requires forall j: nat :: j < low ==> Entered(s, j)
    ensures |s.ring| == |Run(s, events).ring|
    ensures var s' := Run(s, events);
      && Order(s') && WorkOk(s') && HeapFrom(s', low)
      && s'.exec == s.exec && s'.expected == s.expected
      && (forall j :: 0 <= j < n && j != low ==> j in s'.stage && s'.stage[j] == Done)
      && (forall j: nat :: j < low ==> Entered(s', j))
      && low in s.stage && low in s'.stage && s'.stage[low] == s.stage[low]
  {
    events := [];
    if n > 0 {
      events := FinishAll(s, low, n - 1);
      var s1, slot := Run(s, events), n - 1;
      if slot != low {
        var last := Finish(s1, slot);
        var s2 := Run(s1, last);
        RunAppend(s, events, last);
        assert forall j: nat :: j != slot ==> (Entered(s2, j) <==> Entered(s1, j));
        events := events + last;
      }
    }
  }

  /** The heap runs one slot ahead of the executor: it misses the expected slot, and
      all enqueues but that of `bad`, which never reached the heap, are finished. */
  ghost predicate Ahead(s: Sched, bad: nat) {
    && Order(s) && WorkOk(s) && |s.ring| >= 2 && s.exec == AwaitWork && bad < s.expected
    && (forall j :: j in s.heap <==> s.expected < j < s.expected + |s.ring|)
    && (forall j :: 0 <= j < s.expected + |s.ring| && j != bad ==> j in s.stage && s.stage[j] == Done)
    && bad in s.stage && !InHeap(s.stage[bad])
  }

  lemma AheadHasWork(s: Sched, bad: nat)
    requires Ahead(s, bad)
    ensures s.work > 0
  {
    var n := s.expected + |s.ring|;
    RangeSize(n);
    assert Ids(n) - {bad} <= PostedSlots(s.stage);
    SubsetSize(Ids(n) - {bad}, PostedSlots(s.stage));
    assert |Ids(n) - {bad}| == n - 1;
  }

  /** The steps of one execution, from waiting to waiting. */
  function Round(): seq<Event> {
    [Step, Step, Step] + [Step, Step, Step, Step]
  }

  lemma TakesTurn(s: Sched, bad: nat)
    requires Ahead(s, bad) && s.turn > 0
    ensures s.work > 0
    ensures var e := s.expected;
      Run(s, [Step, Step, Step]) ==
        s.(work := s.work - 1, turn := s.turn - 1, ring := s.ring[e % |s.ring| := []], exec := Running(e))
    ensures Order(Run(s, [Step, Step, Step])) && WorkOk(Run(s, [Step, Step, Step]))
  {
    AheadHasWork(s, bad);
    var s1 := Execute(s);
    var s2 := Execute(s1);
    RunKeepsOrder(s, [Step, Step]);
    NextKeepsOrder(s, Step);
    NextKeepsWork(s, Step);
    NextKeepsOrder(s1, Step);
    NextKeepsWork(s1, Step);
    PopKeepsOrder(s2);
    NextKeepsWork(s2, Step);
    RunOne(s, Step, [Step, Step]);
    RunOne(s1, Step, [Step]);
    RunOne(s2, Step, []);
    assert [Step] + [Step, Step] == [Step, Step, Step];
    assert [Step] + [Step] == [Step, Step];
    assert [Step] + [] == [Step];
  }

  lemma FinishesUnwoken(s: Sched)
    requires Order(s) && WorkOk(s) && |s.ring| >= 2 && s.exec == Running(s.expected)
    requires forall j :: j in s.heap <==> s.expected < j < s.expected + |s.ring|
    ensures Run(s, [Step, Step, Step, Step]).ring == s.ring
    ensures var s' := Run(s, [Step, Step, Step, Step]);
      && Order(s') && WorkOk(s') && s'.exec == AwaitWork && s'.expected == s.expected + 1
      && s'.stage == s.stage && s'.turn == s.turn
      && (forall j :: j in s'.heap <==> s.expected + 1 < j < s.expected + |s.ring|)
  {
    var s1 := Execute(s);
    var s2 := Execute(s1);
    var s3 := Execute(s2);
    NextKeepsOrder(s, Step);
    NextKeepsWork(s, Step);
    NextKeepsOrder(s1, Step);
    NextKeepsWork(s1, Step);
    HeadOfHeap(s2);
    NextKeepsOrder(s2, Step);
    NextKeepsWork(s2, Step);
    NextKeepsOrder(s3, Step);
    NextKeepsWork(s3, Step);
    RunOne(s, Step, [Step, Step, Step]);
    RunOne(s1, Step, [Step, Step]);
    RunOne(s2, Step, [Step]);
    RunOne(s3, Step, []);
    assert [Step] + [Step, Step, Step] == [Step, Step, Step, Step];
    assert [Step] + [Step, Step] == [Step, Step, Step];
    assert [Step] + [Step] == [Step, Step];
    assert [Step] + [] == [Step];
  }

  /** Popping a heap that starts with the expected slot leaves nothing to wake. */
  lemma HeadOfHeap(s: Sched)
    requires s.exec.PoppingHeap? && IsTop(s.heap, s.expected)
    ensures HeapPop(s.heap) == s.heap - {s.expected} && !TopIs(HeapPop(s.heap), s.expected)
  {
    assert IsTop(s.heap, Top(s.heap));
  }

  /** One execution without a wakeup: only the slot at the end of the window is missing. */
  lemma RoundUnwoken(s: Sched, bad: nat)
    requires Ahead(s, bad) && s.turn > 0
    ensures |Run(s, Round()).ring| == |s.ring|
    ensures var s' := Run(s, Round());
      && Order(s') && WorkOk(s') && s'.exec == AwaitWork && s'.expected == s.expected + 1
      && s'.stage == s.stage && s'.turn == s.turn - 1
      && (forall j :: j in s'.heap <==> s.expected + 1 < j < s.expected + |s.ring|)
  {
    TakesTurn(s, bad);
    var s1 := Run(s, [Step, Step, Step]);
    FinishesUnwoken(s1);
    RunAppend(s, [Step, Step, Step], [Step, Step, Step, Step]);
  }

  lemma AheadAgain(s: Sched, bad: nat) returns (events: seq<Event>)
    requires Ahead(s, bad) && s.turn > 0
    ensures |Run(s, events).ring| == |s.ring|
    ensures var s' := Run(s, events); Ahead(s', bad) && s'.turn == s.turn - 1
  {
    var last := s.expected + |s.ring|;
    RoundUnwoken(s, bad);
    var s2 := Run(s, Round());
    assert last !in s2.stage;
    var more := Finish(s2, last);
    WindowMoves(s, s2, Run(s2, more), bad);
    RunAppend(s, Round(), more);
    events := Round() + more;
  }

  lemma WindowMoves(s: Sched, s2: Sched, s3: Sched, bad: nat)
    requires Ahead(s, bad) && |s2.ring| == |s.ring| && s2.exec == AwaitWork && s2.expected == s.expected + 1
    requires s2.stage == s.stage && s.expected + |s.ring| !in s.stage
    requires forall j :: j in s2.heap <==> s.expected + 1 < j < s.expected + |s.ring|
    requires Order(s3) && WorkOk(s3) && Finished(s2, s3, s.expected + |s.ring|)
    ensures Ahead(s3, bad)
  {
  }

  lemma {:induction false} AheadLoses(s: Sched, bad: nat) returns (events: seq<Event>)
    requires Ahead(s, bad)
    ensures Stuck(Run(s, events))
    decreases s.turn
  {
    events := [];
    if s.turn > 0 {
      var first := AheadAgain(s, bad);
      var rest := AheadLoses(Run(s, first), bad);
      RunAppend(s, first, rest);
      events := first + rest;
    }
  }

  /** The property fails beyond that: once the heap is popped before the executed slot
      was pushed on it, some continuation leaves the executor stuck for ever, however
      many tokens are left. */
  lemma LatePushLosesWakeup(s: Sched) returns (events: seq<Event>)
    requires Prompt(s) && |s.ring| >= 2 && s.exec.PoppingHeap? && s.exec.slot !in s.heap
    ensures Stuck(Run(s, events))
  {
    var k, size := s.exec.slot, |s.ring|;
    var fill := FinishAll(s, k, s.expected + size);
    var s1 := Run(s, fill);
    assert forall j: nat :: j in s1.heap <==> s1.expected <= j < s1.expected + size;
    var s2 := PopAndCompare(s1, k);
    var rest := AheadLoses(s2, k);
    RunAppend(s, fill, [Step, Step]);
    RunAppend(s, fill + [Step, Step], rest);
    events := fill + [Step, Step] + rest;
  }

  lemma PopAndCompare(s: Sched, k: nat) returns (s': Sched)
    requires Order(s) && WorkOk(s) && |s.ring| >= 2 && s.exec == PoppingHeap(k)
    requires forall j: nat :: j in s.heap <==> s.expected <= j < s.expected + |s.ring|
    requires forall j :: 0 <= j < s.expected + |s.ring| && j != k ==> j in s.stage && s.stage[j] == Done
    requires k in s.stage && !InHeap(s.stage[k])
    ensures s' == Run(s, [Step, Step]) && Ahead(s', k)
  {
    var s1 := Execute(s);
    HeadOfHeap(s);
    s' := Execute(s1);
    NextKeepsOrder(s, Step);
    NextKeepsWork(s, Step);
    NextKeepsOrder(s1, Step);
    NextKeepsWork(s1, Step);
    RunOne(s, Step, [Step]);
    RunOne(s1, Step, []);
    assert [Step] + [Step] == [Step, Step];
    assert [Step] + [] == [Step];
  }

  // ----- A late push does happen -----------------------------------------------

  /** A run over two queues, in time throughout, that ends in `s`. */
  ghost predicate Leads(events: seq<Event>, s: Sched) {
    InTimeRun(Start(2), events) && Run(Start(2), events) == s
  }

  lemma {:induction false} InTimeAppend(s: Sched, events: seq<Event>, e: Event)
    requires |s.ring| > 0 && InTimeRun(s, events)
    requires |Run(s, events).ring| == |s.ring| && InTime(Run(s, events), e)
    ensures InTimeRun(s, events + [e])
    decreases |events|
  {
    if events == [] {
      assert events + [e] == [e];
    } else {
      RingSize(s, events[0]);
      InTimeAppend(Next(s, events[0]), events[1..], e);
      assert (events + [e])[1..] == events[1..] + [e];
    }
  }

  lemma Then(events: seq<Event>, s: Sched, e: Event, s': Sched) returns (more: seq<Event>)
    requires Leads(events, s) && |s.ring| == 2 && InTime(s, e) && Next(s, e) == s'
    ensures Leads(more, s')
  {
    more := events + [e];
    RunAppend(Start(2), events, [e]);
    RunOne(s, e, []);
    assert [e] + [] == [e];
    InTimeAppend(Start(2), events, e);
  }

  lemma ThenProceed(events: seq<Event>, s: Sched, slot: nat) returns (more: seq<Event>, s': Sched)
    requires Leads(events, s) && |s.ring| == 2 && slot in s.stage
    ensures s' == Enqueue(s, slot) && |s'.ring| == 2 && Leads(more, s')
  {
    s' := Enqueue(s, slot);
    more := Then(events, s, Proceed(slot), s');
  }

  lemma ThenArrive(events: seq<Event>, s: Sched, slot: nat) returns (more: seq<Event>, s': Sched)
    requires Leads(events, s) && |s.ring| == 2 && CanArrive(s, slot)
    ensures s' == s.(ring := s'.ring, stage := s.stage[slot := Pushed]) && |s'.ring| == 2 && Leads(more, s')
  {
    s' := Next(s, Arrive(slot));
    more := Then(events, s, Arrive(slot), s');
  }

  /** Slot 0 is enqueued completely and earns a token; slot 1 stops short of its
      comparison, in the heap. */
  lemma TwoArrive() returns (events: seq<Event>, s: Sched)
    ensures Leads(events, s) && s.exec == AwaitWork && s.work == 2 && s.turn == 1 && s.expected == 0
    ensures s.stage == map[0 := Done, 1 := Heaped]
  {
    events, s := [], Start(2);
    events, s := ThenArrive(events, s, 0);
    events, s := ThenProceed(events, s, 0);
    events, s := ThenProceed(events, s, 0);
    events, s := ThenProceed(events, s, 0);
    events, s := ThenProceed(events, s, 0);
    assert s.stage == map[0 := Done];
    events, s := ThenArrive(events, s, 1);
    events, s := ThenProceed(events, s, 1);
    events, s := ThenProceed(events, s, 1);
    assert s.stage == map[0 := Done, 1 := Heaped];
  }

  /** The executor runs the expected slot up to popping the heap. */
  lemma RunsExpected(events: seq<Event>, s: Sched) returns (more: seq<Event>)
    requires Leads(events, s) && Order(s) && |s.ring| == 2
    requires s.exec == AwaitWork && s.work > 0 && s.turn > 0 && s.expected in s.stage
    ensures Leads(more, s.(ring := s.ring[s.expected % 2 := []], work := s.work - 1, turn := s.turn - 1,
                           expected := s.expected + 1, exec := PoppingHeap(s.expected),
                           executed := s.executed + [s.expected]))
  {
    var e := s.expected;
    var s1 := s.(work := s.work - 1, exec := AwaitTurn);
    more := Then(events, s, Step, s1);
    NextKeepsOrder(s, Step);
    var s2 := s1.(turn := s.turn - 1, exec := Popping);
    more := Then(more, s1, Step, s2);
    NextKeepsOrder(s1, Step);
    PopKeepsOrder(s2);
    var s3 := s2.(ring := s.ring[e % 2 := []], exec := Running(e));
    more := Then(more, s2, Step, s3);
    var s4 := s3.(executed := s.executed + [e], exec := Finishing(e));
    more := Then(more, s3, Step, s4);
    var s5 := s4.(expected := e + 1, exec := PoppingHeap(e));
    more := Then(more, s4, Step, s5);
  }

  lemma StartIsPrompt(size: nat)
    requires size > 0
    ensures Prompt(Start(size))
  {
    assert PostedSlots(map[]) == {};
  }

  lemma LeadsKeepsOrder(events: seq<Event>, s: Sched)
    requires Leads(events, s)
    ensures Prompt(s) && |s.ring| == 2
  {
    StartIsPrompt(2);
    RunKeepsPrompt(Start(2), events);
    RunAppend(Start(2), events, []);
  }

  /** The executor pops the heap and, if the next slot is in it, wakes itself. */
  lemma EndsInTime(events: seq<Event>, s: Sched) returns (more: seq<Event>)
    requires Leads(events, s) && s.exec.PoppingHeap? && s.exec.slot in s.heap
    ensures var woken := if Entered(s, s.expected) then 1 else 0;
      Leads(more, s.(heap := s.heap - {s.exec.slot}, turn := s.turn + woken, exec := AwaitWork))
  {
    LeadsKeepsOrder(events, s);
    PopsExecuted(s);
    var k := s.exec.slot;
    var s1 := s.(heap := s.heap - {k}, exec := Comparing(k));
    more := Then(events, s, Step, s1);
    LeadsKeepsOrder(more, s1);
    ComparesRight(s1);
    if Entered(s, s.expected) {
      var s2 := s1.(exec := Waking(k));
      more := Then(more, s1, Step, s2);
      more := Then(more, s2, Step, s2.(turn := s.turn + 1, exec := AwaitWork));
    } else {
      more := Then(more, s1, Step, s1.(exec := AwaitWork));
    }
  }

  lemma ExecutesOne(events: seq<Event>, s: Sched) returns (more: seq<Event>, s': Sched)
    requires Leads(events, s) && s.exec == AwaitWork && s.work > 0 && s.turn > 0 && Entered(s, s.expected)
    ensures Leads(more, s') && s'.exec == AwaitWork && s'.expected == s.expected + 1 && s'.stage == s.stage
    ensures s'.work == s.work - 1
    ensures s'.turn == if Entered(s, s.expected + 1) then s.turn else s.turn - 1
  {
    LeadsKeepsOrder(events, s);
    more := RunsExpected(events, s);
    var s1 := s.(ring := s.ring[s.expected % 2 := []], work := s.work - 1, turn := s.turn - 1,
                 expected := s.expected + 1, exec := PoppingHeap(s.expected),
                 executed := s.executed + [s.expected]);
    assert Entered(s1, s.expected + 1) <==> Entered(s, s.expected + 1);
    assert s.expected in s.heap;
    more := EndsInTime(more, s1);
    s' := Run(Start(2), more);
  }

  /** After slot 0 the executor wakes itself for slot 1, and so does the enqueuer of
      slot 1: two tokens for one slot. */
  lemma TwoTokens() returns (events: seq<Event>, s: Sched)
    ensures Leads(events, s) && s.exec == AwaitWork && s.work == 1 && s.turn == 2 && s.expected == 1
    ensures s.stage == map[0 := Done, 1 := Done]
  {
    events, s := TwoArrive();
    events, s := ExecutesOne(events, s);
    LeadsKeepsOrder(events, s);
    events, s := ThenProceed(events, s, 1);
    events, s := ThenProceed(events, s, 1);
  }

  /** With the spare token the executor takes slot 2 before it is in the heap. */
  lemma LatePushHappens() returns (events: seq<Event>)
    ensures InTimeRun(Start(2), events)
    ensures var s := Run(Start(2), events); s.exec == PoppingHeap(2) && 2 !in s.heap
  {
    var s;
    events, s := TwoTokens();
    events, s := ExecutesOne(events, s);
    LeadsKeepsOrder(events, s);
    events, s := ThenArrive(events, s, 2);
    events, s := ThenProceed(events, s, 2);
    LeadsKeepsOrder(events, s);
    assert !Entered(s, 2);
    events := RunsExpected(events, s);
  }

  /** So a run from the start ends with an executor that is stuck for ever. */
  lemma WakeupCanBeLost() returns (events: seq<Event>)
    ensures Stuck(Run(Start(2), events))
  {
    var first := LatePushHappens();
    var s := Run(Start(2), first);
    LeadsKeepsOrder(first, s);
    var rest := LatePushLosesWakeup(s);
    RunAppend(Start(2), first, rest);
    events := first + rest;
  }
}
