/** Under which identifier a batch is filed, and when the identifier is forgotten: what a commit
    hands over depends on it. */
module Filing {
  import opened Cluster
  import opened Certificate
  import opened VoteManager
  import opened CertStore
  import opened Replica
  import opened System
  import opened Outcome
  import opened Resurrection
  import opened Sequences

  function Id(s: Store, h: Hash): Option<nat> {
    if h in s.txnOf then Some(s.txnOf[h]) else None
  }

  // ----- Forgetting ------------------------------------------------------------

  /** The update commits, and `h` was voted for in the slot of the block the walk starts from,
      or is an ancestor of that block. */
  ghost predicate Forgets(m: CertMap, b1: Cert, view: nat, b: Block, h: Hash) {
    && Commits(m, b1, view)
    && (h in b.rivals || Reached(WalkedMap(m, b1, b), WalkedMap(m, b1, b)[b.hash].parent, h))
  }

  lemma UpdateForgets(s: Store, b1: Cert, view: nat, b: Block, h: Hash)
    requires h != NoHash
    ensures Id(UpdateLock(s, b1, view, b), h) == if Forgets(s.qcs, b1, view, b, h) then None else Id(s, h)
  {
    var m := WalkedMap(s.qcs, b1, b);
    VisitedIff(m, m[b.hash].parent, h);
    UpdateIds(s, b1, view, b);
  }

  lemma UpdateIds(s: Store, b1: Cert, view: nat, b: Block)
    ensures var t, m := UpdateLock(s, b1, view, b), WalkedMap(s.qcs, b1, b);
      t.txnOf == if Commits(s.qcs, b1, view) then s.txnOf - Elems(Chain(m, m[b.hash].parent)) - b.rivals else s.txnOf
  {
    if Commits(s.qcs, b1, view) {
      var ready := s.(qcs := MarkCommit(Family(s.qcs, b1), Grandparent(s.qcs, b1).hash), prepared := Newer(s.prepared, b1),
                      locked := Newer(s.locked, Parent(s.qcs, b1)));
      assert UpdateLock(s, b1, view, b) == Walk(ready, b);
    }
  }

  ghost predicate ForgetsOnExtension(c: Config, r: Replica, step: Step, h: Hash)
    requires c.Valid()
  {
    && step.Deliver? && step.msg.Generic? && TakenUp(c, r, step.msg)
    && var g := step.msg;
       && g.high.view > r.store.prepared.view
       && Forgets(r.store.qcs[g.high.hash := g.high], g.high, g.view, ThreeBack(c, r, g), h)
  }

  ghost predicate ForgetsAtEnd(c: Config, r: Replica, step: Step, h: Hash)
    requires c.Valid()
  {
    var r' := Act(c, r, step).r;
    && Advances(r, r')
    && var qc := FormedBy(r, r'); Forgets(Before(c, r, step)[qc.hash := qc], qc, r.view + 1, TwoBack(c, r'), h)
  }

  // ----- Filing ----------------------------------------------------------------

  /** The slot a step files `h` under: that of the first vote for it, even if it is filed
      already; that of its proposal, unless it is; or that of the own proposal. */
  function Names(c: Config, r: Replica, step: Step, h: Hash): Option<nat>
    requires c.Valid()
  {
    match step
    case Deliver(_, msg) =>
      var m := Mgr(r, msg.txn);
      if msg.Generic? || msg.hash != h then None
      else if msg.Sync? then
        if Counted(r, msg) && !m.newViewed && !Duplicate(m, r.self, msg.from) && VotersOf(m, h) == [] then Some(msg.txn) else None
      else if msg.txn - 2 > r.nextIndex && !m.proposal && (m.generic ==> m.hash == h) && h !in r.store.txnOf then Some(msg.txn)
      else None
    case DoPropose(_, hash) => if hash == h then Some(c.Txn(r.nextSend)) else None
    case _ => None
  }

  /** What a step leaves filed, said of its result. */
  ghost predicate Files(c: Config, r: Replica, r': Replica, step: Step, h: Hash)
    requires c.Valid()
  {
    Id(r'.store, h) ==
      if ForgetsOnExtension(c, r, step, h) || ForgetsAtEnd(c, r, step, h) then None
      else if Names(c, r, step, h).Some? then Names(c, r, step, h) else Id(r.store, h)
  }

  /** The end of a view, from the state just before it. */
  lemma EndForgets(c: Config, r: Replica, r1: Replica, txn: nat, h: Hash)
    requires c.Valid() && r1.advanced == r.advanced && r1.view == r.view && h != NoHash && Mgr(r1, txn).hash != NoHash
    ensures var r' := Advance(c, r1, txn);
      && Advances(r, r')
      && var qc := FormedBy(r, r');
         Id(r'.store, h) == if Forgets(r1.store.qcs[qc.hash := qc], qc, r.view + 1, TwoBack(c, r'), h) then None else Id(r1.store, h)
  {
    var r' := Advance(c, r1, txn);
    AdvanceIsSeen(c, r, r1, txn, true);
    AdvanceFrame(c, r1, txn, true);
    var qc, b := Formed(Mgr(r1, txn), r.view), BlockAt(r1, WrapSub(txn, 2 * c.Stride()));
    assert TwoBack(c, r') == b;
    UpdateForgets(File(r1.store, qc), qc, r.view + 1, b, h);
  }

  lemma EndFiles(c: Config, r: Replica, r1: Replica, txn: nat, ready: bool, step: Step, h: Hash)
    requires c.Valid() && h != NoHash && Act(c, r, step).r == AdvanceIf(c, r1, txn, ready)
    requires r1.advanced == r.advanced && r1.view == r.view && r1.store.qcs == Before(c, r, step)
    ensures Id(Act(c, r, step).r.store, h) == if ForgetsAtEnd(c, r, step, h) then None else Id(r1.store, h)
  {
    AdvanceIsSeen(c, r, r1, txn, ready);
    if ready && Mgr(r1, txn).hash != NoHash {
      EndForgets(c, r, r1, txn, h);
    }
  }

  lemma SyncFiles(c: Config, r: Replica, i: nat, msg: Msg, h: Hash)
    requires c.Valid() && msg.Sync? && h != NoHash
    ensures Files(c, r, OnSync(c, r, msg), Deliver(i, msg), h)
  {
    if Counted(r, msg) {
      var m, v := Mgr(r, msg.txn), VoteIn(msg);
      var m' := CountVote(m, r.self, c.Nf(), v);
      CountFlags(m, r.self, c.Nf(), v);
      var filed := if |VotersOf(m, v.hash)| == 0 && |VotersOf(m', v.hash)| == 1
                   then r.store.(txnOf := r.store.txnOf[v.hash := msg.txn]) else r.store;
      FirstVote(m, r.self, c.Nf(), v);
      EndFiles(c, r, PutMgr(r.(store := filed), msg.txn, m'), msg.txn,
               Completes(m, r.self, c.Nf(), v) && m'.proposal && m'.generic, Deliver(i, msg), h);
    }
  }

  lemma FirstVote(m: Manager, self: nat, nf: nat, v: Vote)
    ensures |VotersOf(m, v.hash)| == 0 && |VotersOf(CountVote(m, self, nf, v), v.hash)| == 1 <==>
      VotersOf(m, v.hash) == [] && !m.newViewed && !Duplicate(m, self, v.from)
  {
  }

  lemma ProposalFiles(c: Config, r: Replica, i: nat, msg: Msg, h: Hash)
    requires c.Valid() && msg.Proposal? && h != NoHash
    ensures Files(c, r, OnProposal(c, r, msg), Deliver(i, msg), h)
  {
    var m := Mgr(r, msg.txn);
    if !(msg.txn - 2 <= r.nextIndex || m.proposal) && !(m.generic && m.hash != msg.hash) {
      var m' := m.(hash := msg.hash, proposal := true);
      var txnOf := if msg.hash in r.store.txnOf then r.store.txnOf else r.store.txnOf[msg.hash := msg.txn];
      EndFiles(c, r, PutMgr(r.(store := r.store.(txnOf := txnOf)), msg.txn, m'), msg.txn,
               m'.newViewed && m'.generic, Deliver(i, msg), h);
    }
  }

  lemma ExtendFiles(c: Config, r: Replica, i: nat, g: Msg, h: Hash)
    requires c.Valid() && g.Generic? && h != NoHash && TakenUp(c, r, g)
    ensures Id(Extend(c, r, g), h) == if ForgetsOnExtension(c, r, Deliver(i, g), h) then None else Id(r.store, h)
  {
    UpdateForgets(File(r.store, g.high), g.high, g.view, ThreeBack(c, r, g), h);
  }

  lemma GenericFiles(c: Config, r: Replica, i: nat, g: Msg, h: Hash)
    requires c.Valid() && g.Generic? && h != NoHash
    ensures Files(c, r, OnGeneric(c, r, g).r, Deliver(i, g), h)
  {
    if TakenUp(c, r, g) {
      var m1 := Mgr(r, g.txn).(hash := g.hash, high := g.high, generic := true);
      var m2 := VoteFor(c, r.self, r.view, m1);
      var r1 := PutMgr(r.(store := Extend(c, r, g)), g.txn, m2);
      assert OnGeneric(c, r, g).r == AdvanceIf(c, r1, g.txn, m2.newViewed && m2.proposal);
      ExtendFiles(c, r, i, g, h);
      EndFiles(c, r, r1, g.txn, m2.newViewed && m2.proposal, Deliver(i, g), h);
    }
  }

  lemma OtherFiles(c: Config, r: Replica, step: Step, h: Hash)
    requires c.Valid() && h != NoHash && !step.Deliver?
    ensures Files(c, r, Act(c, r, step).r, step, h)
  {
    OthersAdvanceNothing(c, r, step);
    assert !ForgetsAtEnd(c, r, step, h) && !ForgetsOnExtension(c, r, step, h);
    if step.DoPropose? {
      assert Act(c, r, step).r.store.txnOf == r.store.txnOf[step.hash := c.Txn(r.nextSend)];
    } else {
      assert Act(c, r, step).r.store.txnOf == r.store.txnOf;
    }
  }

  /** Exactly what is filed after a step, and under which slot. */
  lemma FiledIs(c: Config, r: Replica, step: Step, h: Hash)
    requires c.Valid() && h != NoHash
    ensures Files(c, r, Act(c, r, step).r, step, h)
  {
    if !step.Deliver? {
      OtherFiles(c, r, step, h);
    } else if step.msg.Generic? {
      GenericFiles(c, r, step.i, step.msg, h);
    } else if step.msg.Sync? {
      SyncFiles(c, r, step.i, step.msg, h);
    } else {
      ProposalFiles(c, r, step.i, step.msg, h);
    }
  }

  // ----- Over whole runs -------------------------------------------------------

  /** What batch `h` is filed under at replica `i` after `n` steps. */
  ghost function IdAt(c: Config, faulty: set<nat>, steps: seq<Step>, n: nat, i: nat, h: Hash): Option<nat>
    requires c.Valid() && n <= |steps|
  {
    var s := Run(c, faulty, steps[..n]);
    if i < |s.reps| then Id(s.reps[i].store, h) else None
  }

  ghost function NameAt(c: Config, faulty: set<nat>, steps: seq<Step>, k: nat, i: nat, h: Hash): Option<nat>
    requires c.Valid()
  {
    if Moves(c, faulty, steps, k, i) then Names(c, Run(c, faulty, steps[..k]).reps[i], steps[k], h) else None
  }

  ghost predicate ForgetsAt(c: Config, faulty: set<nat>, steps: seq<Step>, k: nat, i: nat, h: Hash)
    requires c.Valid()
  {
    && Moves(c, faulty, steps, k, i)
    && var r := Run(c, faulty, steps[..k]).reps[i];
       ForgetsOnExtension(c, r, steps[k], h) || ForgetsAtEnd(c, r, steps[k], h)
  }

  lemma IdStep(c: Config, faulty: set<nat>, steps: seq<Step>, k: nat, i: nat, h: Hash)
    requires c.Valid() && i < c.nodes && h != NoHash && k < |steps|
    ensures IdAt(c, faulty, steps, k + 1, i, h) ==
      if ForgetsAt(c, faulty, steps, k, i, h) then None
      else if NameAt(c, faulty, steps, k, i, h).Some? then NameAt(c, faulty, steps, k, i, h)
      else IdAt(c, faulty, steps, k, i, h)
  {
    StepOf(c, faulty, steps, k, i);
    if Moves(c, faulty, steps, k, i) {
      FiledIs(c, Run(c, faulty, steps[..k]).reps[i], steps[k], h);
    }
  }

  ghost function AllNames(c: Config, faulty: set<nat>, steps: seq<Step>, i: nat, h: Hash): seq<Option<nat>>
    requires c.Valid()
  {
    seq(|steps|, k requires 0 <= k < |steps| => NameAt(c, faulty, steps, k, i, h))
  }

  ghost function AllForgotten(c: Config, faulty: set<nat>, steps: seq<Step>, i: nat, h: Hash): seq<bool>
    requires c.Valid()
  {
    seq(|steps|, k requires 0 <= k < |steps| => ForgetsAt(c, faulty, steps, k, i, h))
  }

  /** In every run, a batch is filed under a slot exactly if some vote or proposal filed it there,
      and since then it was neither filed again nor forgotten by a commit. */
  lemma FiledIff(c: Config, faulty: set<nat>, steps: seq<Step>, n: nat, i: nat, h: Hash, txn: nat)
    requires c.Valid() && i < c.nodes && h != NoHash && n <= |steps|
    ensures IdAt(c, faulty, steps, n, i, h) == Some(txn) <==>
      exists k: nat :: Decides(AllNames(c, faulty, steps, i, h), AllForgotten(c, faulty, steps, i, h), k, n) &&
                  NameAt(c, faulty, steps, k, i, h) == Some(txn)
  {
    var ids := seq(|steps| + 1, k requires 0 <= k <= |steps| => IdAt(c, faulty, steps, k, i, h));
    var names, forgotten := AllNames(c, faulty, steps, i, h), AllForgotten(c, faulty, steps, i, h);
    assert ids[0] == None by {
      RunShape(c, faulty, steps[..0]);
      assert steps[..0] == [];
    }
    forall k | 0 <= k < |names|
      ensures ids[k + 1] == if forgotten[k] then None else if names[k].Some? then names[k] else ids[k]
    {
      IdStep(c, faulty, steps, k, i, h);
    }
    LastCounts(ids, names, forgotten, n, txn);
    assert forall k :: 0 <= k < |names| ==> names[k] == NameAt(c, faulty, steps, k, i, h);
  }

  /** Right after a commit at the end of a view no hash voted for in the slot the walk starts
      from is filed, whatever its votes were for. */
  lemma CommitForgetsVotes(c: Config, faulty: set<nat>, steps: seq<Step>, k: nat, i: nat, h: Hash)
    requires c.Valid() && i < c.nodes && h != NoHash && Moves(c, faulty, steps, k, i)
    requires var r := Run(c, faulty, steps[..k]).reps[i];
      var r' := Act(c, r, steps[k]).r;
      && Advances(r, r')
      && var qc := FormedBy(r, r');
         && Commits(Before(c, r, steps[k])[qc.hash := qc], qc, r.view + 1)
         && h in Mgr(r', TwoBack(c, r').txn).voters
    ensures IdAt(c, faulty, steps, k + 1, i, h) == None
  {
    IdStep(c, faulty, steps, k, i, h);
  }

  /** The same after a commit by the certificate of a leader message. */
  lemma ExtensionForgetsVotes(c: Config, faulty: set<nat>, steps: seq<Step>, k: nat, i: nat, g: Msg, h: Hash)
    requires c.Valid() && i < c.nodes && h != NoHash && g.Generic? && TakesUpAt(c, faulty, steps, k, i, g)
    requires var r := Run(c, faulty, steps[..k]).reps[i];
      && g.high.view > r.store.prepared.view && Commits(r.store.qcs[g.high.hash := g.high], g.high, g.view)
      && h in Mgr(r, ThreeBack(c, r, g).txn).voters
    ensures IdAt(c, faulty, steps, k + 1, i, h) == None
  {
    IdStep(c, faulty, steps, k, i, h);
  }
}
