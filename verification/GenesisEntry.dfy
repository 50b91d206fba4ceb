/** The execute message of the genesis entry among those of the slots. The first commit of an
    instance hands the genesis entry over; its message belongs to no slot, but is enqueued. */
module GenesisEntry {
  import opened Cluster
  import opened Executor
  import Replica

  // ----- Which queue it selects ------------------------------------------------

  function Wrap(x: int): nat {
    x % Replica.U64
  }

  /** The slot the enqueue side computes from the identifier of an execute message. */
  function SlotOf(batch: nat, id: nat): nat
    requires batch > 0
  {
    Wrap(Wrap(id + 2) - batch) / batch
  }

  /** One less than transaction 0, under which the genesis entry is handed over. */
  const GENESIS_ID: nat := Wrap(0 - 1)

  function GenesisQueue(batch: nat, size: nat): nat
    requires batch > 0 && size > 0
  {
    SlotOf(batch, GENESIS_ID) % size
  }

  /** Before identifiers wrap around, every slot's message is enqueued for its slot, and is
      another one than that of the genesis entry. */
  lemma GenesisIsNoSlot(batch: nat, slot: nat)
    requires 2 <= batch && ExecuteId(batch, slot) + 2 < Replica.U64
    ensures SlotOf(batch, ExecuteId(batch, slot)) == slot && ExecuteId(batch, slot) != GENESIS_ID
  {
    SlotOfExecuteId(batch, slot);
    var id := ExecuteId(batch, slot);
    assert slot * batch >= 0;
    assert Wrap(id + 2) == id + 2 && Wrap(id + 2 - batch) == id + 2 - batch;
  }

  // ----- The scheduler with such messages --------------------------------------

  /** `s` holds the messages of slots; of the genesis messages `ahead` stand in front of the
      slot's message in queue `q` and `behind` after it, and `owed` have yet to post. */
  datatype Full = Full(s: Sched, ahead: nat, behind: nat, owed: nat)

  /** Each instance enqueues one genesis message, in two lines that matter here; its entry in
      the heap, the largest identifier, is never the next one. */
  datatype Happening = On(e: Event) | Genesis | Post

  function Begin(size: nat): Full {
    Full(Start(size), 0, 0, 0)
  }

  /** The executor takes a message and gets one of the genesis entry. */
  predicate Diverts(f: Full, q: nat)
    requires |f.s.ring| > 0
  {
    f.s.exec == Popping && f.s.expected % |f.s.ring| == q && f.ahead > 0
  }

  /** It is enqueued again, at the back and with its post, and the executor waits anew. */
  function Divert(f: Full, q: nat): Full
    requires q < |f.s.ring| && f.ahead > 0
  {
    var s := f.s.(work := f.s.work + 1, exec := AwaitWork);
    if f.s.ring[q] == [] then f.(s := s) else f.(s := s, ahead := f.ahead - 1, behind := f.behind + 1)
  }

  /** The slot's message of queue `q` is taken off. */
  predicate Takes(f: Full, q: nat, e: Event)
    requires q < |f.s.ring|
  {
    e == Step && f.s.exec == Popping && f.s.expected % |f.s.ring| == q && f.s.ring[q] != []
  }

  ghost function Next(f: Full, q: nat, h: Happening): Full
    requires q < |f.s.ring|
  {
    match h
    case Genesis =>
      if f.s.ring[q] == [] then f.(ahead := f.ahead + 1, owed := f.owed + 1) else f.(behind := f.behind + 1, owed := f.owed + 1)
    case Post => if f.owed == 0 then f else f.(s := f.s.(work := f.s.work + 1), owed := f.owed - 1)
    case On(e) =>
      if e == Step && Diverts(f, q) then Divert(f, q)
      else if Takes(f, q, e) then Full(Executor.Next(f.s, e), f.behind, 0, f.owed)
      else f.(s := Executor.Next(f.s, e))
  }

  lemma Shape(f: Full, q: nat, h: Happening)
    requires q < |f.s.ring|
    ensures |Next(f, q, h).s.ring| == |f.s.ring|
  {
    if h.On? {
      RingSize(f.s, h.e);
    }
  }

  ghost function Run(size: nat, q: nat, hs: seq<Happening>): (f: Full)
    requires q < size
    ensures |f.s.ring| == size
  {
    if hs == [] then Begin(size)
    else
      var f := Run(size, q, hs[..|hs| - 1]);
      Shape(f, q, hs[|hs| - 1]);
      Next(f, q, hs[|hs| - 1])
  }

  /** Every heap pop finds the executed slot. */
  ghost predicate InTimeRun(size: nat, q: nat, hs: seq<Happening>)
    requires q < size
  {
    forall k :: 0 <= k < |hs| && hs[k].On? ==> InTime(Run(size, q, hs[..k]).s, hs[k].e)
  }

  // ----- Exactly when the executor gets stuck ----------------------------------

  predicate SomePosting(s: Sched) {
    exists j :: j in s.stage && s.stage[j] == Posting
  }

  /** A slot whose turn it is and that is in the heap has a token, or one on its way. */
  predicate Awake(s: Sched) {
    Entered(s, s.expected) && Popped(s) <= s.expected ==>
      || s.turn > 0 || s.exec == Popping || s.stage[s.expected] != Done
      || s.exec.PoppingHeap? || s.exec.Comparing? || s.exec.Waking?
      || SomePosting(s)
  }

  ghost predicate Sound(f: Full, q: nat) {
    q < |f.s.ring| && Order(f.s) && HeapOk(f.s)
  }

  /** The executor takes a genesis message although the expected slot's is enqueued completely,
      and there is no other token, nor one on its way. */
  predicate Dry(f: Full, q: nat)
    requires |f.s.ring| > 0
  {
    && Diverts(f, q) && f.s.turn == 0 && !SomePosting(f.s)
    && f.s.expected in f.s.stage && f.s.stage[f.s.expected] == Done
  }

  lemma DivertKeeps(f: Full, q: nat)
    requires Sound(f, q) && Diverts(f, q)
    ensures Sound(Divert(f, q), q)
    ensures Dry(f, q) ==> Stuck(Divert(f, q).s)
    ensures !Dry(f, q) ==> Awake(Divert(f, q).s)
  {
    var s' := Divert(f, q).s;
    SameWaiting(f.s, s');
    SameHeap(f.s, s');
  }

  lemma PostKeeps(f: Full, q: nat, h: Happening)
    requires Sound(f, q) && !h.On?
    ensures Sound(Next(f, q, h), q) && (Awake(f.s) ==> Awake(Next(f, q, h).s))
  {
    var s' := Next(f, q, h).s;
    SameWaiting(f.s, s');
    SameHeap(f.s, s');
  }

  lemma StepKeepsAwake(s: Sched)
    requires Order(s) && HeapOk(s) && InTime(s, Step) && Awake(s)
    ensures Awake(Execute(s))
  {
    var s' := Execute(s);
    assert s.exec != Popping ==> s'.stage == s.stage;
    if s.exec == Popping {
      PopKeepsOrder(s);
    } else if s.exec.Comparing? {
      ComparesRight(s);
    } else if s.exec.PoppingHeap? {
      PopsExecuted(s);
    }
  }

  lemma ProceedKeepsAwake(s: Sched, slot: nat)
    requires Awake(s) && slot in s.stage
    ensures Awake(Enqueue(s, slot))
  {
    var s' := Enqueue(s, slot);
    if s.stage[slot] != Posting && SomePosting(s) {
      var j :| j in s.stage && s.stage[j] == Posting;
      assert j in s'.stage && s'.stage[j] == Posting;
    }
  }

  lemma ArriveKeepsAwake(s: Sched, slot: nat)
    requires |s.ring| > 0 && Awake(s)
    ensures Awake(Executor.Next(s, Arrive(slot)))
  {
    var s' := Executor.Next(s, Arrive(slot));
    if SomePosting(s) {
      var j :| j in s.stage && s.stage[j] == Posting;
      assert j in s'.stage && s'.stage[j] == Posting;
    }
  }

  lemma NextKeeps(f: Full, q: nat, h: Happening)
    requires Sound(f, q) && (h.On? ==> InTime(f.s, h.e))
    ensures Sound(Next(f, q, h), q)
    ensures Awake(f.s) && !(h == On(Step) && Dry(f, q)) ==> Awake(Next(f, q, h).s)
    ensures h == On(Step) && Dry(f, q) ==> Stuck(Next(f, q, h).s)
    ensures Stuck(f.s) ==> Stuck(Next(f, q, h).s) && Next(f, q, h).s.executed == f.s.executed
  {
    if h.On? {
      if h.e == Step && Diverts(f, q) {
        DivertKeeps(f, q);
      } else {
        RingSize(f.s, h.e);
        NextKeepsOrder(f.s, h.e);
        NextKeepsHeap(f.s, h.e);
        EventKeepsAwake(f.s, h.e);
      }
    } else {
      PostKeeps(f, q, h);
    }
  }

  lemma EventKeepsAwake(s: Sched, e: Event)
    requires Order(s) && HeapOk(s) && InTime(s, e)
    ensures Awake(s) ==> Awake(Executor.Next(s, e))
    ensures Stuck(s) ==> Stuck(Executor.Next(s, e)) && Executor.Next(s, e).executed == s.executed
  {
    if Stuck(s) {
      NextKeepsStuck(s, e);
    }
    if Awake(s) {
      match e {
        case Arrive(slot) => ArriveKeepsAwake(s, slot);
        case Proceed(slot) => if slot in s.stage { ProceedKeepsAwake(s, slot); }
        case Step => StepKeepsAwake(s);
      }
    }
  }

  /** At some point of the run the executor was diverted and there was no other token. */
  ghost predicate WentDry(size: nat, q: nat, hs: seq<Happening>)
    requires q < size
  {
    exists k :: 0 <= k < |hs| && hs[k] == On(Step) && Dry(Run(size, q, hs[..k]), q)
  }

  lemma WentDryStep(size: nat, q: nat, hs: seq<Happening>)
    requires q < size && hs != []
    ensures var n := |hs| - 1;
      WentDry(size, q, hs) <==> WentDry(size, q, hs[..n]) || (hs[n] == On(Step) && Dry(Run(size, q, hs[..n]), q))
  {
    var n := |hs| - 1;
    assert forall k :: 0 <= k < n ==> hs[..n][..k] == hs[..k] && hs[..n][k] == hs[k];
  }

  /** With any number of genesis messages among the arrivals, in every run in which heap pops
      are in time: the executor is stuck exactly if at some point it took a genesis message
      instead of that of the expected slot, which was enqueued completely, and no other token
      was there or on its way. */
  lemma {:induction false} StuckIffWentDry(size: nat, q: nat, hs: seq<Happening>)
    requires q < size && InTimeRun(size, q, hs)
    ensures Sound(Run(size, q, hs), q) && (Stuck(Run(size, q, hs).s) <==> WentDry(size, q, hs))
    ensures !WentDry(size, q, hs) ==> Awake(Run(size, q, hs).s)
  {
    if hs == [] {
      StartIsPrompt(size);
    } else {
      var n := |hs| - 1;
      assert forall k :: 0 <= k < n ==> hs[..n][..k] == hs[..k];
      StuckIffWentDry(size, q, hs[..n]);
      WentDryStep(size, q, hs);
      NextKeeps(Run(size, q, hs[..n]), q, hs[n]);
    }
    AwakeIsNotStuck(Run(size, q, hs).s);
  }

  lemma AwakeIsNotStuck(s: Sched)
    requires Order(s)
    ensures !(Awake(s) && Stuck(s))
  {
  }

  /** The run ends stuck, after the slots `done`. */
  ghost predicate EndsStuck(size: nat, q: nat, hs: seq<Happening>, done: seq<nat>)
    requires q < size
  {
    var s := Run(size, q, hs).s; Stuck(s) && s.executed == done
  }

  /** Once stuck, nothing runs any more, whatever arrives. */
  lemma {:induction false} NothingRunsAfter(size: nat, q: nat, hs: seq<Happening>, more: seq<Happening>, done: seq<nat>)
    requires q < size && EndsStuck(size, q, hs, done)
    ensures EndsStuck(size, q, hs + more, done)
    decreases |more|
  {
    if more == [] {
      assert hs + more == hs;
    } else {
      var n := |more| - 1;
      NothingRunsAfter(size, q, hs, more[..n], done);
      OneMoreStuck(size, q, hs + more[..n], more[n], done);
      assert hs + more == (hs + more[..n]) + [more[n]];
    }
  }

  lemma OneMoreStuck(size: nat, q: nat, hs: seq<Happening>, h: Happening, done: seq<nat>)
    requires q < size && EndsStuck(size, q, hs, done)
    ensures EndsStuck(size, q, hs + [h], done)
  {
    assert (hs + [h])[..|hs|] == hs;
    StaysStuck(Run(size, q, hs), q, h);
  }

  lemma StaysStuck(f: Full, q: nat, h: Happening)
    requires q < |f.s.ring| && Stuck(f.s)
    ensures Stuck(Next(f, q, h).s) && Next(f, q, h).s.executed == f.s.executed
  {
    if h.On? {
      NextKeepsStuck(f.s, h.e);
    }
  }

  // ----- The work semaphore ----------------------------------------------------

  /** Posts are conserved: genesis messages stay in the queue, and of their posts all but those
      owed were made. */
  predicate PostsAddUp(f: Full) {
    && f.owed <= f.ahead + f.behind
    && f.s.work + InHand(f.s.exec) + Popped(f.s) + f.owed == |PostedSlots(f.s.stage)| + f.ahead + f.behind
  }

  lemma NextKeepsPosts(f: Full, q: nat, h: Happening)
    requires Sound(f, q) && PostsAddUp(f)
    ensures PostsAddUp(Next(f, q, h))
  {
    if h.On? && !(h.e == Step && Diverts(f, q)) {
      if h.e == Step && f.s.exec == Popping {
        PopKeepsOrder(f.s);
      } else if h.e.Arrive? {
        assert PostedSlots(f.s.stage[h.e.slot := Pushed]) == PostedSlots(f.s.stage) - {h.e.slot};
      } else if h.e.Proceed? && h.e.slot in f.s.stage {
        EnqueuePosts(f.s, h.e.slot);
      }
    }
  }

  lemma {:induction false} PostsAlwaysAddUp(size: nat, q: nat, hs: seq<Happening>)
    requires q < size && InTimeRun(size, q, hs)
    ensures PostsAddUp(Run(size, q, hs))
  {
    if hs == [] {
      assert PostedSlots(map[]) == {};
    } else {
      var n := |hs| - 1;
      assert forall k :: 0 <= k < n ==> hs[..n][..k] == hs[..k];
      PostsAlwaysAddUp(size, q, hs[..n]);
      StuckIffWentDry(size, q, hs[..n]);
      NextKeepsPosts(Run(size, q, hs[..n]), q, hs[n]);
    }
  }

  /** So if that never happened, an idle executor whose next message is enqueued completely
      finds its turn or will, and its work token too unless a post is still to come. */
  lemma NoLostWakeupIfNotDry(size: nat, q: nat, hs: seq<Happening>)
    requires q < size && InTimeRun(size, q, hs) && !WentDry(size, q, hs)
    requires var s := Run(size, q, hs).s; Idle(s) && s.expected in s.stage && s.stage[s.expected] == Done
    ensures var s := Run(size, q, hs).s; s.turn > 0 || SomePosting(s)
    ensures var s := Run(size, q, hs).s;
      s.exec == AwaitWork && (forall j :: j in s.stage ==> s.stage[j] != Pushed) ==> s.work > 0
  {
    StuckIffWentDry(size, q, hs);
    PostsAlwaysAddUp(size, q, hs);
    TurnLeft(Run(size, q, hs).s);
    var s := Run(size, q, hs).s;
    if s.exec == AwaitWork && (forall j :: j in s.stage ==> s.stage[j] != Pushed) {
      WorkLeft(Run(size, q, hs), q);
    }
  }

  lemma TurnLeft(s: Sched)
    requires Order(s) && Awake(s) && Idle(s) && s.expected in s.stage && s.stage[s.expected] == Done
    ensures s.turn > 0 || SomePosting(s)
  {
  }

  lemma WorkLeft(f: Full, q: nat)
    requires Sound(f, q) && PostsAddUp(f) && f.s.exec == AwaitWork && f.s.expected in f.s.stage
    requires forall j :: j in f.s.stage ==> f.s.stage[j] != Pushed
    ensures f.s.work > 0
  {
    RangeSize(f.s.expected + 1);
    SubsetSize(Ids(f.s.expected + 1), PostedSlots(f.s.stage));
  }

  // ----- It does happen --------------------------------------------------------

  /** A run in time that ends in `f`. */
  ghost predicate Leads(size: nat, q: nat, hs: seq<Happening>, f: Full) {
    q < size && InTimeRun(size, q, hs) && Run(size, q, hs) == f
  }

  lemma Then(size: nat, q: nat, hs: seq<Happening>, f: Full, h: Happening) returns (more: seq<Happening>, f': Full)
    requires Leads(size, q, hs, f) && (h.On? ==> InTime(f.s, h.e))
    ensures |f.s.ring| == size && f' == Next(f, q, h) && Leads(size, q, more, f')
  {
    more := hs + [h];
    f' := Next(f, q, h);
    assert more[..|hs|] == hs;
    assert forall k :: 0 <= k < |hs| ==> more[..k] == hs[..k] && more[k] == hs[k];
  }

  /** The slots below `x` are executed, nothing of others has arrived, and one genesis message
      waits in queue `q`. */
  ghost predicate Quiet(size: nat, f: Full, x: nat) {
    && f.s.ring == seq(size, _ => []) && f.s.heap == {} && f.s.work == 1 && f.s.turn == 0 && f.s.expected == x
    && f.s.exec == AwaitWork && |f.s.executed| == x
    && (forall j :: j in f.s.stage <==> 0 <= j < x) && (forall j :: j in f.s.stage ==> f.s.stage[j] == Done)
    && f.ahead == 1 && f.behind == 0 && f.owed == 0
  }

  /** The message of the expected slot has been enqueued completely. */
  ghost predicate Enqueued(size: nat, f: Full, x: nat) {
    && x < size && f.s.ring == seq(size, _ => [])[x := [x]] && f.s.heap == {x} && f.s.work == 2 && f.s.turn == 1
    && f.s.expected == x && f.s.exec == AwaitWork && |f.s.executed| == x
    && (forall j :: j in f.s.stage <==> 0 <= j <= x) && (forall j :: j in f.s.stage ==> f.s.stage[j] == Done)
    && f.ahead == 1 && f.behind == 0 && f.owed == 0
  }

  lemma OneArrives(size: nat, q: nat, hs: seq<Happening>, f: Full, x: nat) returns (more: seq<Happening>, f': Full)
    requires Leads(size, q, hs, f) && Quiet(size, f, x) && x < size
    ensures Leads(size, q, more, f') && Enqueued(size, f', x)
  {
    ModUnique(x, size, 0, x);
    var f1, f2, f3, f4;
    more, f1 := Then(size, q, hs, f, On(Arrive(x)));
    assert f1.s.ring == seq(size, _ => [])[x := [x]] by {
      assert [] + [x] == [x];
    }
    more, f2 := Then(size, q, more, f1, On(Proceed(x)));
    more, f3 := Then(size, q, more, f2, On(Proceed(x)));
    more, f4 := Then(size, q, more, f3, On(Proceed(x)));
    more, f' := Then(size, q, more, f4, On(Proceed(x)));
    assert f'.s.heap == {x};
  }

  /** Both tokens are taken. */
  lemma TokensTaken(size: nat, q: nat, hs: seq<Happening>, f: Full, x: nat) returns (more: seq<Happening>, f': Full)
    requires Leads(size, q, hs, f) && Enqueued(size, f, x)
    ensures Leads(size, q, more, f') && f' == f.(s := f.s.(work := 1, turn := 0, exec := Popping))
  {
    var f1;
    more, f1 := Then(size, q, hs, f, On(Step));
    more, f' := Then(size, q, more, f1, On(Step));
  }

  lemma OnlyOne(x: nat)
    ensures HeapPop({x}) == {}
  {
    assert IsTop({x}, Top({x}));
    assert {x} - {x} == {};
  }

  lemma OneRuns(size: nat, q: nat, hs: seq<Happening>, f: Full, x: nat) returns (more: seq<Happening>, f': Full)
    requires Leads(size, q, hs, f) && Enqueued(size, f, x) && x != q
    ensures Leads(size, q, more, f') && Quiet(size, f', x + 1)
  {
    ModUnique(x, size, 0, x);
    var f1, f2, f3, f4, f5;
    more, f1 := TokensTaken(size, q, hs, f, x);
    more, f2 := Then(size, q, more, f1, On(Step));
    assert f2.s.exec == Running(x) && f2.s.ring == seq(size, _ => []) by {
      assert f1.s.ring[x] == [x] && [x][1..] == [];
    }
    more, f3 := Then(size, q, more, f2, On(Step));
    more, f4 := Then(size, q, more, f3, On(Step));
    assert f4.s.exec == PoppingHeap(x) && f4.s.heap == {x};
    OnlyOne(x);
    more, f5 := Then(size, q, more, f4, On(Step));
    assert f5.s.heap == {};
    more, f' := Then(size, q, more, f5, On(Step));
  }

  lemma {:induction false} RunsBefore(size: nat, q: nat, x: nat) returns (hs: seq<Happening>, f: Full)
    requires x <= q < size
    ensures Leads(size, q, hs, f) && Quiet(size, f, x)
  {
    if x == 0 {
      var f1;
      hs, f1 := Then(size, q, [], Begin(size), Genesis);
      hs, f := Then(size, q, hs, f1, Post);
    } else {
      var f1, f2;
      hs, f1 := RunsBefore(size, q, x - 1);
      hs, f2 := OneArrives(size, q, hs, f1, x - 1);
      hs, f := OneRuns(size, q, hs, f2, x - 1);
    }
  }

  /** For every number of queues and whichever of them the genesis message selects: in a run in
      which it arrives first and everything is in time, the slots before run, and at the first
      slot of that queue the executor is stuck for ever. */
  lemma GenesisEntryStalls(batch: nat, size: nat) returns (hs: seq<Happening>)
    requires batch > 0 && size > 0
    ensures var q := GenesisQueue(batch, size);
      InTimeRun(size, q, hs) && var s := Run(size, q, hs).s; Stuck(s) && |s.executed| == q && s.expected == q
  {
    var q := GenesisQueue(batch, size);
    var f0, f1, f2, f;
    hs, f0 := RunsBefore(size, q, q);
    hs, f1 := OneArrives(size, q, hs, f0, q);
    hs, f2 := TokensTaken(size, q, hs, f1, q);
    ModUnique(q, size, 0, q);
    hs, f := Then(size, q, hs, f2, On(Step));
  }
}
