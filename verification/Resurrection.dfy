/** When a block whose certificate is gone comes back: what the end of its own view, reached
    late, and what a leader message can do, over every run. */
module Resurrection {
  import opened Cluster
  import opened Certificate
  import opened VoteManager
  import opened CertStore
  import opened Replica
  import opened System
  import opened AdvanceOnce
  import opened Agreement
  import opened Outcome
  import opened Sequences
  import Leader
  import Monotone

  // ----- The ways a block is certified -----------------------------------------

  /** The proposal comes last. */
  predicate LateProposal(r: Replica, msg: Msg, h: Hash)
    requires msg.Proposal?
  {
    var m := Mgr(r, msg.txn);
    msg.txn - 2 > r.nextIndex && !m.proposal && m.generic && m.newViewed && msg.hash == h && m.hash == h
  }

  /** A vote comes last, and completes the quorum. */
  predicate LateVote(c: Config, r: Replica, msg: Msg, h: Hash)
    requires c.Valid() && msg.Sync?
  {
    var m := Mgr(r, msg.txn);
    m.proposal && m.generic && m.hash == h && Counted(r, msg) && Completes(m, r.self, c.Nf(), VoteIn(msg))
  }

  /** The leader's message comes last; the quorum is there, or the own vote completes it. */
  predicate LateLeader(c: Config, r: Replica, g: Msg, h: Hash)
    requires c.Valid() && g.Generic?
  {
    var m := Mgr(r, g.txn);
    && TakenUp(c, r, g) && g.hash == h && m.proposal
    && VoteFor(c, r.self, r.view, m.(hash := h, high := g.high, generic := true)).newViewed
  }

  /** The step ends the current view with the block `h`. */
  predicate EndsWith(c: Config, r: Replica, step: Step, h: Hash)
    requires c.Valid()
  {
    match step
    case Deliver(_, msg) =>
      if msg.Proposal? then LateProposal(r, msg, h)
      else if msg.Sync? then LateVote(c, r, msg, h)
      else LateLeader(c, r, msg, h)
    case _ => false
  }

  /** The step takes up a leader message that extends the block `h`. */
  predicate Extends(c: Config, r: Replica, step: Step, h: Hash)
    requires c.Valid()
  {
    step.Deliver? && step.msg.Generic? && TakenUp(c, r, step.msg) && step.msg.high.hash == h
  }

  /** The blocks the two commits of a step may start from. */
  function TwoBack(c: Config, r': Replica): Block
    requires r'.advanced != []
  {
    BlockAt(r', WrapSub(r'.advanced[|r'.advanced| - 1], 2 * c.Stride()))
  }

  function ThreeBack(c: Config, r: Replica, g: Msg): Block
    requires g.Generic?
  {
    BlockAt(r, WrapSub(WrapSub(g.txn, c.Stride()), 2 * c.Stride()))
  }

  /** The certificates when the view ends. */
  function Before(c: Config, r: Replica, step: Step): CertMap
    requires c.Valid()
  {
    if step.Deliver? && step.msg.Generic? && TakenUp(c, r, step.msg) then Extend(c, r, step.msg).qcs else r.store.qcs
  }

  /** The commit that the certificate of a leader message makes takes out `h`. */
  ghost predicate SweptByExtension(c: Config, r: Replica, step: Step, h: Hash)
    requires c.Valid()
  {
    && step.Deliver? && step.msg.Generic?
    && var g := step.msg;
       g.high.view > r.store.prepared.view && Sweeps(r.store.qcs[g.high.hash := g.high], g.high, g.view, ThreeBack(c, r, g), h)
  }

  /** The commit that the end of the view makes takes out `h`. */
  ghost predicate SweptAtEnd(c: Config, r: Replica, step: Step, h: Hash)
    requires c.Valid()
  {
    var r' := Act(c, r, step).r;
    && Advances(r, r')
    && var qc := FormedBy(r, r'); Sweeps(Before(c, r, step)[qc.hash := qc], qc, r.view + 1, TwoBack(c, r'), h)
  }

  // ----- One step --------------------------------------------------------------

  lemma UpdateLeaves(s: Store, qc: Cert, view: nat, b: Block, h: Hash)
    requires h != NoHash
    ensures Certified(UpdateLock(s, qc, view, b).qcs, h) <==> Certified(s.qcs, h) && !Sweeps(s.qcs, qc, view, b, h)
  {
    if Certified(s.qcs, h) {
      UpdateErasesIff(s, qc, view, b, h);
    } else if Certified(UpdateLock(s, qc, view, b).qcs, h) {
      UpdateFilesNothing(s, qc, view, b, h);
    }
  }

  lemma ExtendLeaves(c: Config, r: Replica, i: nat, g: Msg, h: Hash)
    requires c.Valid() && g.Generic? && h != NoHash
    ensures Certified(Extend(c, r, g).qcs, h) <==>
      (Certified(r.store.qcs, h) || g.high.hash == h) && !SweptByExtension(c, r, Deliver(i, g), h)
  {
    UpdateLeaves(File(r.store, g.high), g.high, g.view, ThreeBack(c, r, g), h);
  }

  /** The end of a view, from the state just before it. */
  lemma EndLeaves(c: Config, r: Replica, r1: Replica, txn: nat, h: Hash)
    requires c.Valid() && r1.advanced == r.advanced && r1.view == r.view && h != NoHash && Mgr(r1, txn).hash != NoHash
    ensures var r', m := Advance(c, r1, txn), Mgr(r1, txn);
      && Advances(r, r') && AdvancedOn(r') == m
      && var qc := FormedBy(r, r');
         (Certified(r'.store.qcs, h) <==>
            (Certified(r1.store.qcs, h) || m.hash == h) && !Sweeps(r1.store.qcs[qc.hash := qc], qc, r.view + 1, TwoBack(c, r'), h))
  {
    var r', m := Advance(c, r1, txn), Mgr(r1, txn);
    AdvanceIsSeen(c, r, r1, txn, true);
    AdvanceFrame(c, r1, txn, true);
    var qc, b := Formed(m, r.view), BlockAt(r1, WrapSub(txn, 2 * c.Stride()));
    assert TwoBack(c, r') == b;
    UpdateLeaves(File(r1.store, qc), qc, r.view + 1, b, h);
  }

  /** What a step leaves certified, said of its result. */
  ghost predicate Settles(c: Config, r: Replica, r': Replica, step: Step, h: Hash)
    requires c.Valid()
  {
    && (Advances(r, r') && AdvancedOn(r').hash == h <==> EndsWith(c, r, step, h))
    && (Certified(r'.store.qcs, h) <==>
          (Certified(Before(c, r, step), h) || EndsWith(c, r, step, h)) && !SweptAtEnd(c, r, step, h))
  }

  lemma HandlerSettles(c: Config, r: Replica, r1: Replica, txn: nat, ready: bool, step: Step, h: Hash)
    requires c.Valid() && h != NoHash && Act(c, r, step).r == AdvanceIf(c, r1, txn, ready)
    requires r1.advanced == r.advanced && r1.view == r.view && r1.store.qcs == Before(c, r, step)
    requires EndsWith(c, r, step, h) <==> ready && Mgr(r1, txn).hash == h
    ensures Settles(c, r, Act(c, r, step).r, step, h)
  {
    AdvanceIsSeen(c, r, r1, txn, ready);
    if ready && Mgr(r1, txn).hash != NoHash {
      EndLeaves(c, r, r1, txn, h);
    }
  }

  lemma SyncSettles(c: Config, r: Replica, i: nat, msg: Msg, h: Hash)
    requires c.Valid() && msg.Sync? && h != NoHash
    ensures Settles(c, r, OnSync(c, r, msg), Deliver(i, msg), h)
  {
    if Counted(r, msg) {
      var m, v := Mgr(r, msg.txn), VoteIn(msg);
      var m' := CountVote(m, r.self, c.Nf(), v);
      CountFlags(m, r.self, c.Nf(), v);
      var filed := if |VotersOf(m, v.hash)| == 0 && |VotersOf(m', v.hash)| == 1
                   then r.store.(txnOf := r.store.txnOf[v.hash := msg.txn]) else r.store;
      HandlerSettles(c, r, PutMgr(r.(store := filed), msg.txn, m'), msg.txn,
                     Completes(m, r.self, c.Nf(), v) && m'.proposal && m'.generic, Deliver(i, msg), h);
    }
  }

  lemma ProposalSettles(c: Config, r: Replica, i: nat, msg: Msg, h: Hash)
    requires c.Valid() && msg.Proposal? && h != NoHash
    ensures Settles(c, r, OnProposal(c, r, msg), Deliver(i, msg), h)
  {
    var m := Mgr(r, msg.txn);
    if !(msg.txn - 2 <= r.nextIndex || m.proposal) && !(m.generic && m.hash != msg.hash) {
      var m' := m.(hash := msg.hash, proposal := true);
      var txnOf := if msg.hash in r.store.txnOf then r.store.txnOf else r.store.txnOf[msg.hash := msg.txn];
      HandlerSettles(c, r, PutMgr(r.(store := r.store.(txnOf := txnOf)), msg.txn, m'), msg.txn,
                     m'.newViewed && m'.generic, Deliver(i, msg), h);
    }
  }

  lemma GenericSettles(c: Config, r: Replica, i: nat, g: Msg, h: Hash)
    requires c.Valid() && g.Generic? && h != NoHash
    ensures Settles(c, r, OnGeneric(c, r, g).r, Deliver(i, g), h)
  {
    if TakenUp(c, r, g) {
      var m1 := Mgr(r, g.txn).(hash := g.hash, high := g.high, generic := true);
      var m2 := VoteFor(c, r.self, r.view, m1);
      CastFlags(m1, r.self, c.Nf(), r.self == c.Primary(r.view + 1));
      var r1 := PutMgr(r.(store := Extend(c, r, g)), g.txn, m2);
      assert OnGeneric(c, r, g).r == AdvanceIf(c, r1, g.txn, m2.newViewed && m2.proposal);
      HandlerSettles(c, r, r1, g.txn, m2.newViewed && m2.proposal, Deliver(i, g), h);
    }
  }

  lemma OthersAdvanceNothing(c: Config, r: Replica, step: Step)
    requires c.Valid() && !step.Deliver?
    ensures Act(c, r, step).r.advanced == r.advanced
  {
  }

  lemma OthersSettle(c: Config, r: Replica, step: Step, h: Hash)
    requires c.Valid() && h != NoHash && !step.Deliver?
    ensures Settles(c, r, Act(c, r, step).r, step, h)
  {
    OthersAdvanceNothing(c, r, step);
    assert Act(c, r, step).r.store.qcs == r.store.qcs;
    assert !SweptAtEnd(c, r, step, h);
  }

  lemma StepSettles(c: Config, r: Replica, step: Step, h: Hash)
    requires c.Valid() && h != NoHash
    ensures Settles(c, r, Act(c, r, step).r, step, h)
  {
    if !step.Deliver? {
      OthersSettle(c, r, step, h);
    } else if step.msg.Generic? {
      GenericSettles(c, r, step.i, step.msg, h);
    } else if step.msg.Sync? {
      SyncSettles(c, r, step.i, step.msg, h);
    } else {
      ProposalSettles(c, r, step.i, step.msg, h);
    }
  }

  /** The step brings the block `h` back: it ends a view with it or takes up a leader message
      that extends it, and no commit of the same step takes it out again. */
  ghost predicate Brings(c: Config, r: Replica, step: Step, h: Hash)
    requires c.Valid()
  {
    && (EndsWith(c, r, step, h) || (Extends(c, r, step, h) && !SweptByExtension(c, r, step, h)))
    && !SweptAtEnd(c, r, step, h)
  }

  /** Exactly when a block that is not certified becomes so. */
  lemma CertifiedIff(c: Config, r: Replica, step: Step, h: Hash)
    requires c.Valid() && h != NoHash && !Certified(r.store.qcs, h)
    ensures Certified(Act(c, r, step).r.store.qcs, h) <==> Brings(c, r, step, h)
  {
    StepSettles(c, r, step, h);
    if step.Deliver? && step.msg.Generic? {
      ExtendLeaves(c, r, step.i, step.msg, h);
    }
  }

  /** A commit of the same step is no matter if the walk starts from the block it commits and
      parent links do not run in circles. */
  ghost predicate Ranked(m: CertMap, D: Hash -> nat) {
    && (NoHash in m ==> m[NoHash].parent == NoHash)
    && (forall k :: k != NoHash && Certified(m, k) && m[k].parent != NoHash ==> D(m[k].parent) < D(k))
  }

  lemma {:induction false} RankFalls(m: CertMap, D: Hash -> nat, key: Hash, p: seq<Hash>, x: Hash)
    requires Ranked(m, D) && CertPath(m, key, p, x) && x != NoHash
    ensures key != NoHash && D(x) <= D(key)
    decreases |p|
  {
    if |p| > 1 {
      var q := p[1..];
      assert forall i :: 0 <= i < |q| ==> q[i] == p[i + 1] && Certified(m, p[i + 1]);
      assert Certified(m, p[0]) && p[0 + 1] == m[p[0]].parent;
      forall i | 0 <= i < |q| - 1 ensures q[i + 1] == m[q[i]].parent {
        assert p[i + 1 + 1] == m[p[i + 1]].parent;
      }
      RankFalls(m, D, q[0], q, x);
    }
  }

  lemma NotSwept(m: CertMap, b1: Cert, view: nat, b: Block, D: Hash -> nat)
    requires Ranked(m, D) && b1.hash != NoHash && b1.hash in m && m[b1.hash] == b1
    requires b.hash == Grandparent(m, b1).hash
    ensures !Sweeps(m, b1, view, b, b1.hash)
  {
    var w, h := WalkedMap(m, b1, b), b1.hash;
    WalkedSame(m, b1, b);
    FamilySame(m, b1);
    assert Ranked(w, D);
    GrandparentRanks(m, b1, D);
    if p :| CertPath(w, w[b.hash].parent, p, h) {
      RankFalls(w, D, w[b.hash].parent, p, h);
    }
  }

  lemma GrandparentRanks(m: CertMap, b1: Cert, D: Hash -> nat)
    requires Ranked(m, D) && b1.hash != NoHash && b1.hash in m && m[b1.hash] == b1
    ensures var g := Grandparent(m, b1).hash; g == NoHash || D(g) < D(b1.hash)
  {
  }

  // ----- Over whole runs -------------------------------------------------------

  /** After `n` steps replica `i` holds no certificate of `h`. */
  ghost predicate Gone(c: Config, faulty: set<nat>, steps: seq<Step>, n: nat, i: nat, h: Hash)
    requires c.Valid()
  {
    n <= |steps| && var s := Run(c, faulty, steps[..n]); i < |s.reps| && !Certified(s.reps[i].store.qcs, h)
  }

  /** Step `l` brings block `h` back at replica `i`. */
  ghost predicate BringsAt(c: Config, faulty: set<nat>, steps: seq<Step>, l: nat, i: nat, h: Hash)
    requires c.Valid()
  {
    Moves(c, faulty, steps, l, i) && Brings(c, Run(c, faulty, steps[..l]).reps[i], steps[l], h)
  }

  /** In every run, whatever faulty replicas send and whatever views are given up: a block that
      is gone comes back in a step exactly if the step brings it back, said of the state
      before. Nothing is asked of the views in the certificates. */
  lemma BackIff(c: Config, faulty: set<nat>, steps: seq<Step>, l: nat, i: nat, h: Hash)
    requires c.Valid() && l < |steps| && i < c.nodes && h != NoHash && Gone(c, faulty, steps, l, i, h)
    ensures !Gone(c, faulty, steps, l + 1, i, h) <==> BringsAt(c, faulty, steps, l, i, h)
  {
    StepOf(c, faulty, steps, l, i);
    CertifiedIff(c, Run(c, faulty, steps[..l]).reps[i], steps[l], h);
  }

  /** In a run the leader's message ends the view exactly if the quorum is there already or
      lacks only the own vote. */
  lemma LateLeaderIff(c: Config, faulty: set<nat>, steps: seq<Step>, i: nat, g: Msg, h: Hash)
    requires c.Valid() && i < c.nodes && i !in faulty && g.Generic? && h != NoHash
    ensures var s := Run(c, faulty, steps);
      && i < |s.reps|
      && var r := s.reps[i];
         var m := Mgr(r, g.txn);
         (LateLeader(c, r, g, h) <==>
            TakenUp(c, r, g) && g.hash == h && m.proposal && (m.newViewed || |VotersOf(m, h)| + 1 == c.Nf()))
  {
    Leader.RunKeepsNet(c, faulty, steps);
    RunKeepsInv(c, faulty, steps);
    FreshIsSound(i, c.Nf());
    var s := Run(c, faulty, steps);
    assert ReplicaInv(c, faulty, s.votes, s.reps[i]) && Leader.LeadInv(c, s.reps[i]);
    var m := Mgr(s.reps[i], g.txn);
    assert Sound(m, i, c.Nf());
    assert !m.newViewed ==> |VotersOf(m, h)| <= m.voteCnt < c.Nf();
  }

  // ----- Leader messages and the lock ------------------------------------------

  ghost function LockAt(c: Config, faulty: set<nat>, steps: seq<Step>, n: nat, i: nat): nat
    requires c.Valid() && n <= |steps|
  {
    var s := Run(c, faulty, steps[..n]);
    if i < |s.reps| then s.reps[i].store.locked.view else 0
  }

  /** What the lock admits is decided by the view stamped in the certificate at hand, not by
      the block: a certificate of a later view, a certificate of the locked block, or anything
      of view 0 while the lock is genesis. */
  lemma LockAdmitsIff(c: Config, faulty: set<nat>, steps: seq<Step>, i: nat, high: Cert)
    requires c.Valid() && Monotone.MarkedRun(faulty, steps) && i < c.nodes
    ensures var s := Run(c, faulty, steps);
      && i < |s.reps|
      && var locked := s.reps[i].store.locked;
         (SafeNode(high, locked) <==>
            high.view > locked.view || (high.view == locked.view && (high.hash == locked.hash || locked.genesis)))
  {
    Monotone.RunKeeps(c, faulty, steps);
  }

  lemma LockGrows(c: Config, faulty: set<nat>, steps: seq<Step>, k: nat, l: nat, i: nat)
    requires c.Valid() && Monotone.MarkedRun(faulty, steps) && k <= l <= |steps| && i < c.nodes
    ensures LockAt(c, faulty, steps, k, i) <= LockAt(c, faulty, steps, l, i)
  {
    assert steps[..k] + steps[k..l] == steps[..l];
    Monotone.MonotoneViewsAndLocks(c, faulty, steps[..k], steps[k..l], i);
  }

  /** So a certificate stamped below the lock is refused for ever. */
  lemma RefusedBelowLock(c: Config, faulty: set<nat>, steps: seq<Step>, k: nat, l: nat, i: nat, g: Msg)
    requires c.Valid() && Monotone.MarkedRun(faulty, steps) && k <= l <= |steps| && i < c.nodes
    requires g.Generic? && g.high.view < LockAt(c, faulty, steps, k, i)
    ensures var s := Run(c, faulty, steps[..l]); i < |s.reps| && !Acceptable(c, s.reps[i], g)
  {
    LockGrows(c, faulty, steps, k, l, i);
    assert Monotone.MarkedRun(faulty, steps[..l]);
    LockAdmitsIff(c, faulty, steps[..l], i, g.high);
  }

  // ----- Slots that are closed -------------------------------------------------

  /** The view cannot be advanced on this manager any more: it is complete, or its slot is
      executed and proposal and leader's message are not both there. */
  predicate Closed(r: Replica, txn: nat) {
    Ready(Mgr(r, txn)) || (txn < r.nextIndex && !(Mgr(r, txn).generic && Mgr(r, txn).proposal))
  }

  /** A manager the view was advanced on is closed. */
  lemma AdvancedIsClosed(c: Config, faulty: set<nat>, steps: seq<Step>, i: nat, txn: nat)
    requires c.Valid() && i < c.nodes
    ensures var s := Run(c, faulty, steps); i < |s.reps| && (txn in s.reps[i].advanced ==> Closed(s.reps[i], txn))
  {
    RunKeepsLog(c, faulty, steps);
  }

  lemma FlagsOfChange(c: Config, r: Replica, step: Step)
    requires c.Valid() && LogInv(c, r) && (step.DoLead? ==> r.incomplete != 0)
    ensures var ch := ChangeOf(c, r, step);
      ch.Some? && Backup(c, r.self, ch.value.txn) ==>
        var m, m' := Mgr(r, ch.value.txn), Changed(c, r.self, ch.value);
        && (m.newViewed ==> m'.newViewed)
        && (m.proposal ==> m'.proposal) && (m.generic ==> m'.generic)
        && (ch.value.txn < r.nextIndex ==> m'.proposal == m.proposal && m'.generic == m.generic)
  {
    var ch := ChangeOf(c, r, step);
    if ch.Some? {
      ChangedKeepsBatch(c, r.self, ch.value);
      Leader.NewViewedStays(c, r, step);
      if step.DoPropose? {
        assert !Backup(c, r.self, c.Txn(r.nextSend));
      } else if step.DoLead? {
        assert !Backup(c, r.self, c.Txn(r.lastSent));
      }
    }
  }

  lemma ClosedStays(c: Config, r: Replica, step: Step, txn: nat)
    requires c.Valid() && LogInv(c, r) && Backup(c, r.self, txn) && Closed(r, txn)
    requires (step.DoLead? ==> r.incomplete != 0) && (step.DoRelease? ==> CanRelease(r, step.txn))
    ensures Closed(Act(c, r, step).r, txn)
  {
    if !step.DoRelease? {
      ChangeIsAll(c, r, step);
      FlagsOfChange(c, r, step);
    }
  }

  /** No step ends a view with a block whose manager is closed. */
  lemma ClosedIsNotEnded(c: Config, r: Replica, step: Step, txn: nat, h: Hash)
    requires c.Valid() && Closed(r, txn) && step.Deliver? && step.msg.txn == txn
    ensures !EndsWith(c, r, step, h)
  {
  }

  // ----- One slot for a block --------------------------------------------------

  /** Whoever names the batch `h` in this step names it for the manager `txn`. */
  predicate NamesOne(c: Config, r: Replica, step: Step, h: Hash, txn: nat)
    requires c.Valid()
  {
    && (step.Deliver? && !step.msg.Sync? && step.msg.hash == h ==> step.msg.txn == txn)
    && (step.DoPropose? && step.hash == h ==> c.Txn(r.nextSend) == txn)
  }

  predicate Home(r: Replica, h: Hash, txn: nat) {
    forall t :: t in r.mgrs && r.mgrs[t].hash == h ==> t == txn
  }

  lemma HomeStays(c: Config, r: Replica, step: Step, h: Hash, txn: nat)
    requires c.Valid() && h != NoHash && Home(r, h, txn) && NamesOne(c, r, step, h, txn)
    ensures Home(Act(c, r, step).r, h, txn)
  {
    if !step.DoRelease? {
      ChangeIsAll(c, r, step);
      var ch := ChangeOf(c, r, step);
      if ch.Some? {
        ChangedKeepsBatch(c, r.self, ch.value);
      }
    }
  }

  /** In the whole run the batch `h` is named for one manager only. */
  ghost predicate OneSlot(c: Config, faulty: set<nat>, steps: seq<Step>, h: Hash, txn: nat)
    requires c.Valid()
  {
    forall k :: 0 <= k < |steps| && Moves(c, faulty, steps, k, steps[k].i) ==>
      NamesOne(c, Run(c, faulty, steps[..k]).reps[steps[k].i], steps[k], h, txn)
  }

  lemma {:induction false} HomeAt(c: Config, faulty: set<nat>, steps: seq<Step>, n: nat, i: nat, h: Hash, txn: nat)
    requires c.Valid() && i < c.nodes && h != NoHash && n <= |steps| && OneSlot(c, faulty, steps, h, txn)
    ensures var s := Run(c, faulty, steps[..n]); i < |s.reps| && Home(s.reps[i], h, txn)
  {
    RunShape(c, faulty, steps[..n]);
    if n > 0 {
      HomeAt(c, faulty, steps, n - 1, i, h, txn);
      StepOf(c, faulty, steps, n - 1, i);
      if Moves(c, faulty, steps, n - 1, i) {
        HomeStays(c, Run(c, faulty, steps[..n - 1]).reps[i], steps[n - 1], h, txn);
      }
    }
  }

  /** After `k` steps the slot of `txn` is closed at replica `i`. */
  ghost predicate ClosedAfter(c: Config, faulty: set<nat>, steps: seq<Step>, k: nat, i: nat, txn: nat)
    requires c.Valid()
  {
    k <= |steps| && var s := Run(c, faulty, steps[..k]); i < |s.reps| && Closed(s.reps[i], txn)
  }

  lemma ClosedOneMore(c: Config, faulty: set<nat>, steps: seq<Step>, k: nat, i: nat, txn: nat)
    requires c.Valid() && i < c.nodes && k < |steps| && Backup(c, i, txn) && ClosedAfter(c, faulty, steps, k, i, txn)
    ensures ClosedAfter(c, faulty, steps, k + 1, i, txn)
  {
    StepOf(c, faulty, steps, k, i);
    RunKeepsLog(c, faulty, steps[..k]);
    if Moves(c, faulty, steps, k, i) {
      ClosedStays(c, Run(c, faulty, steps[..k]).reps[i], steps[k], txn);
    }
  }

  lemma {:induction false} StaysClosed(c: Config, faulty: set<nat>, steps: seq<Step>, k: nat, l: nat, i: nat, txn: nat)
    requires c.Valid() && i < c.nodes && k <= l <= |steps| && Backup(c, i, txn) && ClosedAfter(c, faulty, steps, k, i, txn)
    ensures ClosedAfter(c, faulty, steps, l, i, txn)
    decreases l
  {
    if k < l {
      StaysClosed(c, faulty, steps, k, l - 1, i, txn);
      ClosedOneMore(c, faulty, steps, l - 1, i, txn);
    }
  }

  /** Once the slot of a block is closed at a backup, only a leader message can bring the block
      back, and exactly such a message does, if no commit of the same step takes it out. */
  lemma ClosedBackIff(c: Config, faulty: set<nat>, steps: seq<Step>, k: nat, l: nat, i: nat, h: Hash, txn: nat)
    requires c.Valid() && i < c.nodes && k <= l < |steps| && h != NoHash && Backup(c, i, txn)
    requires OneSlot(c, faulty, steps, h, txn) && Gone(c, faulty, steps, l, i, h)
    requires ClosedAfter(c, faulty, steps, k, i, txn)
    ensures !Gone(c, faulty, steps, l + 1, i, h) <==>
      && Moves(c, faulty, steps, l, i)
      && var r := Run(c, faulty, steps[..l]).reps[i];
         && Extends(c, r, steps[l], h) && !SweptByExtension(c, r, steps[l], h) && !SweptAtEnd(c, r, steps[l], h)
  {
    BackIff(c, faulty, steps, l, i, h);
    StaysClosed(c, faulty, steps, k, l, i, txn);
    HomeAt(c, faulty, steps, l, i, h, txn);
    if Moves(c, faulty, steps, l, i) {
      EndedIsHome(c, Run(c, faulty, steps[..l]).reps[i], steps[l], h, txn);
    }
  }

  lemma EndedIsHome(c: Config, r: Replica, step: Step, h: Hash, txn: nat)
    requires c.Valid() && h != NoHash && Home(r, h, txn) && NamesOne(c, r, step, h, txn) && Closed(r, txn)
    ensures !EndsWith(c, r, step, h)
  {
    if step.Deliver? && step.msg.txn == txn {
      ClosedIsNotEnded(c, r, step, txn, h);
    }
  }

  /** Execution alone does not close a slot, since a vote is counted whatever was executed: as
      long as its slot is executed, a block comes back exactly by such a vote or by a leader
      message that extends it. */
  lemma ExecutedBackIff(c: Config, faulty: set<nat>, steps: seq<Step>, l: nat, i: nat, h: Hash, txn: nat)
    requires c.Valid() && i < c.nodes && l < |steps| && h != NoHash
    requires OneSlot(c, faulty, steps, h, txn) && Gone(c, faulty, steps, l, i, h)
    requires var s := Run(c, faulty, steps[..l]); i < |s.reps| && txn < s.reps[i].nextIndex
    ensures !Gone(c, faulty, steps, l + 1, i, h) <==>
      && Moves(c, faulty, steps, l, i)
      && var r, step := Run(c, faulty, steps[..l]).reps[i], steps[l];
         && step.Deliver?
         && (if step.msg.Sync? then step.msg.txn == txn && LateVote(c, r, step.msg, h)
             else Extends(c, r, step, h) && !SweptByExtension(c, r, step, h))
         && !SweptAtEnd(c, r, step, h)
  {
    BackIff(c, faulty, steps, l, i, h);
    HomeAt(c, faulty, steps, l, i, h, txn);
    if Moves(c, faulty, steps, l, i) {
      ExecutedEndsIff(c, Run(c, faulty, steps[..l]).reps[i], steps[l], h, txn);
    }
  }

  lemma ExecutedEndsIff(c: Config, r: Replica, step: Step, h: Hash, txn: nat)
    requires c.Valid() && h != NoHash && Home(r, h, txn) && NamesOne(c, r, step, h, txn) && txn < r.nextIndex
    ensures EndsWith(c, r, step, h) <==> step.Deliver? && step.msg.Sync? && step.msg.txn == txn && LateVote(c, r, step.msg, h)
  {
  }

  // ----- Where certificates come from ------------------------------------------

  /** A faulty replica sends a certificate of `h` with view `v` in a leader message. */
  predicate ForgedAt(faulty: set<nat>, steps: seq<Step>, k: nat, h: Hash, v: nat) {
    && k < |steps| && steps[k].Deliver? && steps[k].msg.Generic? && steps[k].msg.from in faulty
    && steps[k].msg.high.hash == h && steps[k].msg.high.view == v
  }

  /** Step `k` puts such a certificate into the world: a correct replica forms it, or a faulty
      one sends it. */
  ghost predicate StampsAt(c: Config, faulty: set<nat>, steps: seq<Step>, k: nat, h: Hash, v: nat)
    requires c.Valid()
  {
    || (exists j: nat, txn: nat, qc :: FormsAt(c, faulty, steps, k, j, txn, qc) && j < c.nodes && qc.hash == h && qc.view == v)
    || ForgedAt(faulty, steps, k, h, v)
  }

  /** All views stamped in certificates of `h`. */
  ghost function Stamps(c: Config, faulty: set<nat>, steps: seq<Step>, h: Hash): iset<nat>
    requires c.Valid()
  {
    iset v: nat, k: nat | StampsAt(c, faulty, steps, k, h, v) :: v
  }

  ghost predicate CertStamped(qc: Cert, h: Hash, T: iset<nat>) {
    qc.hash == h ==> qc.view in T
  }

  ghost predicate StoreStamped(s: Store, h: Hash, T: iset<nat>) {
    && (Certified(s.qcs, h) ==> s.qcs[h].view in T)
    && CertStamped(s.prepared, h, T) && CertStamped(s.locked, h, T)
  }

  lemma UpdateKeepsStamps(s: Store, qc: Cert, view: nat, b: Block, h: Hash, T: iset<nat>)
    requires h != NoHash && StoreStamped(s, h, T) && CertStamped(qc, h, T)
    ensures StoreStamped(UpdateLock(s, qc, view, b), h, T)
  {
    UpdateFields(s, qc, view, b);
    FamilySame(s.qcs, qc);
    if Certified(UpdateLock(s, qc, view, b).qcs, h) {
      UpdateFilesNothing(s, qc, view, b, h);
    }
    assert CertStamped(Parent(s.qcs, qc), h, T);
  }

  lemma FileKeepsStamps(s: Store, qc: Cert, h: Hash, T: iset<nat>)
    requires h != NoHash && StoreStamped(s, h, T) && CertStamped(qc, h, T)
    ensures StoreStamped(File(s, qc), h, T)
  {
  }

  lemma ExtendKeepsStamps(c: Config, r: Replica, g: Msg, h: Hash, T: iset<nat>)
    requires c.Valid() && g.Generic? && h != NoHash && StoreStamped(r.store, h, T) && CertStamped(g.high, h, T)
    ensures StoreStamped(Extend(c, r, g), h, T)
  {
    FileKeepsStamps(r.store, g.high, h, T);
    UpdateKeepsStamps(File(r.store, g.high), g.high, g.view, ThreeBack(c, r, g), h, T);
  }

  lemma EndKeepsStamps(c: Config, r: Replica, r1: Replica, txn: nat, ready: bool, h: Hash, T: iset<nat>)
    requires c.Valid() && h != NoHash && StoreStamped(r1.store, h, T) && r1.advanced == r.advanced && r1.view == r.view
    requires var r' := AdvanceIf(c, r1, txn, ready); Advances(r, r') ==> CertStamped(FormedBy(r, r'), h, T)
    ensures StoreStamped(AdvanceIf(c, r1, txn, ready).store, h, T)
  {
    AdvanceIsSeen(c, r, r1, txn, ready);
    var m := Mgr(r1, txn);
    if ready && m.hash != NoHash {
      var qc := Formed(m, r.view);
      FileKeepsStamps(r1.store, qc, h, T);
      UpdateKeepsStamps(File(r1.store, qc), qc, r.view + 1, BlockAt(r1, WrapSub(txn, 2 * c.Stride())), h, T);
    }
  }

  /** What a step may add. */
  ghost predicate StepStamped(c: Config, r: Replica, step: Step, h: Hash, T: iset<nat>)
    requires c.Valid()
  {
    var r' := Act(c, r, step).r;
    && (Advances(r, r') ==> CertStamped(FormedBy(r, r'), h, T))
    && (step.Deliver? && step.msg.Generic? ==> CertStamped(step.msg.high, h, T))
  }

  lemma SyncKeepsStamps(c: Config, r: Replica, i: nat, msg: Msg, h: Hash, T: iset<nat>)
    requires c.Valid() && msg.Sync? && h != NoHash && StoreStamped(r.store, h, T) && StepStamped(c, r, Deliver(i, msg), h, T)
    ensures StoreStamped(OnSync(c, r, msg).store, h, T)
  {
    if Counted(r, msg) {
      var m, v := Mgr(r, msg.txn), VoteIn(msg);
      var m' := CountVote(m, r.self, c.Nf(), v);
      var filed := if |VotersOf(m, v.hash)| == 0 && |VotersOf(m', v.hash)| == 1
                   then r.store.(txnOf := r.store.txnOf[v.hash := msg.txn]) else r.store;
      EndKeepsStamps(c, r, PutMgr(r.(store := filed), msg.txn, m'), msg.txn,
                     Completes(m, r.self, c.Nf(), v) && m'.proposal && m'.generic, h, T);
    }
  }

  lemma ProposalKeepsStamps(c: Config, r: Replica, i: nat, msg: Msg, h: Hash, T: iset<nat>)
    requires c.Valid() && msg.Proposal? && h != NoHash && StoreStamped(r.store, h, T) && StepStamped(c, r, Deliver(i, msg), h, T)
    ensures StoreStamped(OnProposal(c, r, msg).store, h, T)
  {
    var m' := Mgr(r, msg.txn).(hash := msg.hash, proposal := true);
    var txnOf := if msg.hash in r.store.txnOf then r.store.txnOf else r.store.txnOf[msg.hash := msg.txn];
    var m := Mgr(r, msg.txn);
    if !(msg.txn - 2 <= r.nextIndex || m.proposal) && !(m.generic && m.hash != msg.hash) {
      EndKeepsStamps(c, r, PutMgr(r.(store := r.store.(txnOf := txnOf)), msg.txn, m'), msg.txn, m'.newViewed && m'.generic, h, T);
    }
  }

  lemma GenericKeepsStamps(c: Config, r: Replica, i: nat, g: Msg, h: Hash, T: iset<nat>)
    requires c.Valid() && g.Generic? && h != NoHash && StoreStamped(r.store, h, T) && StepStamped(c, r, Deliver(i, g), h, T)
    ensures StoreStamped(OnGeneric(c, r, g).r.store, h, T)
  {
    if TakenUp(c, r, g) {
      ExtendKeepsStamps(c, r, g, h, T);
      var m2 := VoteFor(c, r.self, r.view, Mgr(r, g.txn).(hash := g.hash, high := g.high, generic := true));
      var r1 := PutMgr(r.(store := Extend(c, r, g)), g.txn, m2);
      assert OnGeneric(c, r, g).r == AdvanceIf(c, r1, g.txn, m2.newViewed && m2.proposal);
      EndKeepsStamps(c, r, r1, g.txn, m2.newViewed && m2.proposal, h, T);
    }
  }

  lemma ActKeepsStamps(c: Config, r: Replica, step: Step, h: Hash, T: iset<nat>)
    requires c.Valid() && h != NoHash && StoreStamped(r.store, h, T) && StepStamped(c, r, step, h, T)
    ensures StoreStamped(Act(c, r, step).r.store, h, T)
    ensures forall m :: m in Act(c, r, step).out && m.Generic? ==> CertStamped(m.high, h, T)
  {
    if step.Deliver? {
      if step.msg.Generic? {
        GenericKeepsStamps(c, r, step.i, step.msg, h, T);
      } else if step.msg.Sync? {
        SyncKeepsStamps(c, r, step.i, step.msg, h, T);
      } else {
        ProposalKeepsStamps(c, r, step.i, step.msg, h, T);
      }
    }
  }

  ghost predicate SysStamped(c: Config, s: Sys, h: Hash, T: iset<nat>) {
    && |s.reps| == c.nodes
    && (forall i :: 0 <= i < c.nodes ==> StoreStamped(s.reps[i].store, h, T))
    && (forall m :: m in s.sent && m.Generic? ==> CertStamped(m.high, h, T))
  }

  lemma OriginOneMore(c: Config, faulty: set<nat>, steps: seq<Step>, k: nat, h: Hash)
    requires c.Valid() && h != NoHash && k < |steps|
    requires SysStamped(c, Run(c, faulty, steps[..k]), h, Stamps(c, faulty, steps, h))
    ensures SysStamped(c, Run(c, faulty, steps[..k + 1]), h, Stamps(c, faulty, steps, h))
  {
    var s := Run(c, faulty, steps[..k]);
    assert steps[..k + 1][..k] == steps[..k];
    if Enabled(c, faulty, s, steps[k]) {
      StampsOfStep(c, faulty, steps, k, h);
      ActKeepsStamps(c, s.reps[steps[k].i], steps[k], h, Stamps(c, faulty, steps, h));
    }
  }

  /** Every certificate of `h` anywhere was formed by a correct replica or sent by a faulty one. */
  lemma {:induction false} Origin(c: Config, faulty: set<nat>, steps: seq<Step>, n: nat, h: Hash)
    requires c.Valid() && h != NoHash && n <= |steps|
    ensures SysStamped(c, Run(c, faulty, steps[..n]), h, Stamps(c, faulty, steps, h))
  {
    if n > 0 {
      Origin(c, faulty, steps, n - 1, h);
      OriginOneMore(c, faulty, steps, n - 1, h);
    } else {
      assert steps[..0] == [];
    }
  }

  lemma StampsOfStep(c: Config, faulty: set<nat>, steps: seq<Step>, k: nat, h: Hash)
    requires c.Valid() && h != NoHash && k < |steps|
    requires var s := Run(c, faulty, steps[..k]); Enabled(c, faulty, s, steps[k]) && SysStamped(c, s, h, Stamps(c, faulty, steps, h))
    ensures var r := Run(c, faulty, steps[..k]).reps[steps[k].i]; StepStamped(c, r, steps[k], h, Stamps(c, faulty, steps, h))
  {
    var i, r, step := steps[k].i, Run(c, faulty, steps[..k]).reps[steps[k].i], steps[k];
    var r' := Act(c, r, step).r;
    if Advances(r, r') && FormedBy(r, r').hash == h {
      assert FormsAt(c, faulty, steps, k, i, r'.advanced[|r'.advanced| - 1], FormedBy(r, r'));
      assert StampsAt(c, faulty, steps, k, h, FormedBy(r, r').view);
    }
    if step.Deliver? && step.msg.Generic? && step.msg.from in faulty && step.msg.high.hash == h {
      assert ForgedAt(faulty, steps, k, h, step.msg.high.view);
      assert StampsAt(c, faulty, steps, k, h, step.msg.high.view);
    }
  }

  // ----- What never comes back -------------------------------------------------

  /** No certificate of `h`, wherever it is formed or forged in the run, reaches the lock that
      replica `i` holds after `k` steps. */
  ghost predicate StampedBelow(c: Config, faulty: set<nat>, steps: seq<Step>, h: Hash, k: nat, i: nat)
    requires c.Valid() && k <= |steps|
  {
    forall v: nat :: v in Stamps(c, faulty, steps, h) ==> v < LockAt(c, faulty, steps, k, i)
  }

  lemma NotExtended(c: Config, faulty: set<nat>, steps: seq<Step>, k: nat, l: nat, i: nat, h: Hash)
    requires c.Valid() && Monotone.MarkedRun(faulty, steps) && k <= l < |steps| && i < c.nodes && h != NoHash
    requires StampedBelow(c, faulty, steps, h, k, i) && Moves(c, faulty, steps, l, i)
    ensures !Extends(c, Run(c, faulty, steps[..l]).reps[i], steps[l], h)
  {
    var r := Run(c, faulty, steps[..l]).reps[i];
    if steps[l].Deliver? && steps[l].msg.Generic? && steps[l].msg.high.hash == h {
      Origin(c, faulty, steps, l, h);
      StampsOfStep(c, faulty, steps, l, h);
      assert steps[l].msg.high.view in Stamps(c, faulty, steps, h);
      RefusedBelowLock(c, faulty, steps, k, l, i, steps[l].msg);
    }
  }

  /** No resurrection: in every run, a block that is gone at a backup where its slot is closed
      never comes back, if no certificate of it is stamped at or above the lock. */
  lemma NoResurrection(c: Config, faulty: set<nat>, steps: seq<Step>, k: nat, l: nat, i: nat, h: Hash, txn: nat)
    requires c.Valid() && Monotone.MarkedRun(faulty, steps) && k <= l <= |steps| && i < c.nodes && h != NoHash
    requires Backup(c, i, txn) && OneSlot(c, faulty, steps, h, txn) && StampedBelow(c, faulty, steps, h, k, i)
    requires Gone(c, faulty, steps, k, i, h)
    requires ClosedAfter(c, faulty, steps, k, i, txn)
    ensures Gone(c, faulty, steps, l, i, h)
  {
    NeverBack(c, faulty, steps, k, l, i, h, txn);
  }

  /** The conditions of `NoResurrection` on the run. */
  ghost predicate Buried(c: Config, faulty: set<nat>, steps: seq<Step>, k: nat, i: nat, h: Hash, txn: nat)
    requires c.Valid()
  {
    && Monotone.MarkedRun(faulty, steps) && k <= |steps| && Backup(c, i, txn) && OneSlot(c, faulty, steps, h, txn)
    && StampedBelow(c, faulty, steps, h, k, i) && ClosedAfter(c, faulty, steps, k, i, txn)
  }

  lemma {:induction false} NeverBack(c: Config, faulty: set<nat>, steps: seq<Step>, k: nat, l: nat, i: nat, h: Hash, txn: nat)
    requires c.Valid() && k <= l <= |steps| && i < c.nodes && h != NoHash
    requires Buried(c, faulty, steps, k, i, h, txn) && Gone(c, faulty, steps, k, i, h)
    ensures Gone(c, faulty, steps, l, i, h)
    decreases l
  {
    if k < l {
      NeverBack(c, faulty, steps, k, l - 1, i, h, txn);
      StaysGone(c, faulty, steps, k, l - 1, i, h, txn);
    }
  }

  lemma StaysGone(c: Config, faulty: set<nat>, steps: seq<Step>, k: nat, l: nat, i: nat, h: Hash, txn: nat)
    requires c.Valid() && k <= l < |steps| && i < c.nodes && h != NoHash
    requires Buried(c, faulty, steps, k, i, h, txn) && Gone(c, faulty, steps, l, i, h)
    ensures Gone(c, faulty, steps, l + 1, i, h)
  {
    ClosedBackIff(c, faulty, steps, k, l, i, h, txn);
    if Moves(c, faulty, steps, l, i) {
      NotExtended(c, faulty, steps, k, l, i, h);
    }
  }

  /** Whoever ends a view with `h` ends view `w`, which it had not left since some point at
      which it was in it; and faulty replicas claim no later one. */
  ghost predicate OnTime(c: Config, faulty: set<nat>, steps: seq<Step>, h: Hash, w: nat)
    requires c.Valid()
  {
    && (forall k: nat, j: nat, txn: nat, qc :: j < c.nodes && FormsAt(c, faulty, steps, k, j, txn, qc) && qc.hash == h ==>
          exists a: nat :: SinceThen(c, faulty, steps, a, k, j, w))
    && (forall k: nat, v: nat :: ForgedAt(faulty, steps, k, h, v) ==> v <= w)
  }

  ghost predicate SinceThen(c: Config, faulty: set<nat>, steps: seq<Step>, a: nat, k: nat, j: nat, w: nat)
    requires c.Valid()
  {
    a <= k <= |steps| && ViewAt(c, faulty, steps, a, j) == w && NotLeft(c, faulty, steps, a, k, j)
  }

  lemma FormedOnTime(c: Config, faulty: set<nat>, steps: seq<Step>, h: Hash, w: nat, k: nat, j: nat, txn: nat, qc: Cert)
    requires c.Valid() && OnTime(c, faulty, steps, h, w) && j < c.nodes
    requires FormsAt(c, faulty, steps, k, j, txn, qc) && qc.hash == h
    ensures ViewAt(c, faulty, steps, k, j) == w
  {
    var a: nat :| SinceThen(c, faulty, steps, a, k, j, w);
    SameViewIff(c, faulty, steps, a, k, j);
  }

  lemma StampsOnTime(c: Config, faulty: set<nat>, steps: seq<Step>, h: Hash, w: nat, v: nat)
    requires c.Valid() && OnTime(c, faulty, steps, h, w) && v in Stamps(c, faulty, steps, h)
    ensures v <= w
  {
    var k: nat :| StampsAt(c, faulty, steps, k, h, v);
    if !ForgedAt(faulty, steps, k, h, v) {
      var j: nat, txn: nat, qc :| FormsAt(c, faulty, steps, k, j, txn, qc) && j < c.nodes && qc.hash == h && qc.view == v;
      FormedOnTime(c, faulty, steps, h, w, k, j, txn, qc);
      FormedViewIs(c, faulty, steps, k, j, txn, qc);
    }
  }

  /** A certificate formed carries the view it ends, or 0. */
  lemma FormedViewIs(c: Config, faulty: set<nat>, steps: seq<Step>, k: nat, j: nat, txn: nat, qc: Cert)
    requires c.Valid() && FormsAt(c, faulty, steps, k, j, txn, qc)
    ensures qc.view <= ViewAt(c, faulty, steps, k, j)
  {
  }

  /** The lock is never ahead of the view. */
  lemma EndKeepsLock(c: Config, r: Replica, txn: nat, ready: bool)
    requires c.Valid() && r.store.locked.view <= r.view
    ensures var a := AdvanceIf(c, r, txn, ready); a.store.locked.view <= a.view
  {
    var m := Mgr(r, txn);
    if ready && m.hash != NoHash {
      var qc := Formed(m, r.view);
      UpdateFields(File(r.store, qc), qc, r.view + 1, BlockAt(r, WrapSub(txn, 2 * c.Stride())));
    }
  }

  lemma ExtendKeepsLock(c: Config, r: Replica, g: Msg)
    requires c.Valid() && g.Generic? && g.view <= r.view && r.store.locked.view <= r.view
    ensures Extend(c, r, g).locked.view <= r.view
  {
    UpdateFields(File(r.store, g.high), g.high, g.view, ThreeBack(c, r, g));
  }

  lemma DeliveryKeepsLock(c: Config, r: Replica, i: nat, msg: Msg)
    requires c.Valid() && r.store.locked.view <= r.view
    ensures var r' := Act(c, r, Deliver(i, msg)).r; r'.store.locked.view <= r'.view
  {
    if msg.Generic? {
      if TakenUp(c, r, msg) {
        ExtendKeepsLock(c, r, msg);
        var m2 := VoteFor(c, r.self, r.view, Mgr(r, msg.txn).(hash := msg.hash, high := msg.high, generic := true));
        EndKeepsLock(c, PutMgr(r.(store := Extend(c, r, msg)), msg.txn, m2), msg.txn, m2.newViewed && m2.proposal);
      }
    } else if msg.Sync? {
      SyncKeepsLock(c, r, msg);
    } else {
      ProposalKeepsLock(c, r, msg);
    }
  }

  lemma SyncKeepsLock(c: Config, r: Replica, msg: Msg)
    requires c.Valid() && msg.Sync? && r.store.locked.view <= r.view
    ensures OnSync(c, r, msg).store.locked.view <= OnSync(c, r, msg).view
  {
    if Counted(r, msg) {
      var m, v := Mgr(r, msg.txn), VoteIn(msg);
      var m' := CountVote(m, r.self, c.Nf(), v);
      var filed := if |VotersOf(m, v.hash)| == 0 && |VotersOf(m', v.hash)| == 1
                   then r.store.(txnOf := r.store.txnOf[v.hash := msg.txn]) else r.store;
      EndKeepsLock(c, PutMgr(r.(store := filed), msg.txn, m'), msg.txn,
                   Completes(m, r.self, c.Nf(), v) && m'.proposal && m'.generic);
    }
  }

  lemma ProposalKeepsLock(c: Config, r: Replica, msg: Msg)
    requires c.Valid() && msg.Proposal? && r.store.locked.view <= r.view
    ensures OnProposal(c, r, msg).store.locked.view <= OnProposal(c, r, msg).view
  {
    var m' := Mgr(r, msg.txn).(hash := msg.hash, proposal := true);
    var txnOf := if msg.hash in r.store.txnOf then r.store.txnOf else r.store.txnOf[msg.hash := msg.txn];
    EndKeepsLock(c, PutMgr(r.(store := r.store.(txnOf := txnOf)), msg.txn, m'), msg.txn, m'.newViewed && m'.generic);
  }

  lemma LockBehindOneMore(c: Config, faulty: set<nat>, steps: seq<Step>, k: nat, i: nat)
    requires c.Valid() && k < |steps| && i < c.nodes && LockAt(c, faulty, steps, k, i) <= ViewAt(c, faulty, steps, k, i)
    ensures LockAt(c, faulty, steps, k + 1, i) <= ViewAt(c, faulty, steps, k + 1, i)
  {
    StepOf(c, faulty, steps, k, i);
    if Moves(c, faulty, steps, k, i) && steps[k].Deliver? {
      DeliveryKeepsLock(c, Run(c, faulty, steps[..k]).reps[i], i, steps[k].msg);
    }
  }

  lemma {:induction false} LockBehindView(c: Config, faulty: set<nat>, steps: seq<Step>, n: nat, i: nat)
    requires c.Valid() && n <= |steps| && i < c.nodes
    ensures LockAt(c, faulty, steps, n, i) <= ViewAt(c, faulty, steps, n, i)
  {
    if n > 0 {
      LockBehindView(c, faulty, steps, n - 1, i);
      LockBehindOneMore(c, faulty, steps, n - 1, i);
    } else {
      RunShape(c, faulty, steps[..0]);
      assert steps[..0] == [];
    }
  }

  lemma EndForms(c: Config, faulty: set<nat>, steps: seq<Step>, l: nat, i: nat, h: Hash) returns (txn: nat, qc: Cert)
    requires c.Valid() && h != NoHash && Moves(c, faulty, steps, l, i)
    requires EndsWith(c, Run(c, faulty, steps[..l]).reps[i], steps[l], h)
    ensures FormsAt(c, faulty, steps, l, i, txn, qc) && qc.hash == h
  {
    var r := Run(c, faulty, steps[..l]).reps[i];
    var r' := Act(c, r, steps[l]).r;
    StepSettles(c, r, steps[l], h);
    txn, qc := r'.advanced[|r'.advanced| - 1], FormedBy(r, r');
  }

  lemma NotEndedLate(c: Config, faulty: set<nat>, steps: seq<Step>, k: nat, l: nat, i: nat, h: Hash, w: nat)
    requires c.Valid() && Monotone.MarkedRun(faulty, steps) && k <= l < |steps| && i < c.nodes && h != NoHash
    requires OnTime(c, faulty, steps, h, w) && w < LockAt(c, faulty, steps, k, i) && Moves(c, faulty, steps, l, i)
    ensures !EndsWith(c, Run(c, faulty, steps[..l]).reps[i], steps[l], h)
  {
    LockGrows(c, faulty, steps, k, l, i);
    LockBehindView(c, faulty, steps, l, i);
    if EndsWith(c, Run(c, faulty, steps[..l]).reps[i], steps[l], h) {
      var txn, qc := EndForms(c, faulty, steps, l, i, h);
      FormedOnTime(c, faulty, steps, h, w, l, i, txn, qc);
    }
  }

  /** The same for every replica and whatever its slot holds, if everyone who ended a view with
      the block had not left that view, and the lock has passed it. */
  lemma {:induction false} OnTimeNeverBack(c: Config, faulty: set<nat>, steps: seq<Step>, k: nat, l: nat, i: nat, h: Hash, w: nat)
    requires c.Valid() && Monotone.MarkedRun(faulty, steps) && k <= l <= |steps| && i < c.nodes && h != NoHash
    requires OnTime(c, faulty, steps, h, w) && w < LockAt(c, faulty, steps, k, i) && Gone(c, faulty, steps, k, i, h)
    ensures Gone(c, faulty, steps, l, i, h)
    decreases l
  {
    if k < l {
      OnTimeNeverBack(c, faulty, steps, k, l - 1, i, h, w);
      BackIff(c, faulty, steps, l - 1, i, h);
      if Moves(c, faulty, steps, l - 1, i) {
        NotEndedLate(c, faulty, steps, k, l - 1, i, h, w);
        forall v: nat | v in Stamps(c, faulty, steps, h) ensures v < LockAt(c, faulty, steps, k, i) {
          StampsOnTime(c, faulty, steps, h, w, v);
        }
        NotExtended(c, faulty, steps, k, l - 1, i, h);
      }
    }
  }

  // ----- Committed blocks ------------------------------------------------------

  /** Step `k` ends a view of replica `i` and thereby commits block `h`, with a certificate of
      view `w`; the walk starts from that block. */
  ghost predicate CommitsAt(c: Config, faulty: set<nat>, steps: seq<Step>, k: nat, i: nat, h: Hash, w: nat)
    requires c.Valid()
  {
    && Moves(c, faulty, steps, k, i)
    && var r := Run(c, faulty, steps[..k]).reps[i];
       var r' := Act(c, r, steps[k]).r;
       && Advances(r, r')
       && var qc := FormedBy(r, r');
          var m := Before(c, r, steps[k])[qc.hash := qc];
          && Commits(m, qc, r.view + 1) && Grandparent(m, qc).hash == h && Grandparent(m, qc).view == w
          && TwoBack(c, r').hash == h
  }

  /** Such a block is gone afterwards, with its certificate's view below the lock. */
  lemma CommittedIsGone(c: Config, faulty: set<nat>, steps: seq<Step>, k: nat, i: nat, h: Hash, w: nat)
    requires c.Valid() && Monotone.MarkedRun(faulty, steps) && i < c.nodes && h != NoHash
    requires CommitsAt(c, faulty, steps, k, i, h, w)
    ensures k < |steps| && Gone(c, faulty, steps, k + 1, i, h) && w < LockAt(c, faulty, steps, k + 1, i)
  {
    StepOf(c, faulty, steps, k, i);
    assert Monotone.MarkedRun(faulty, steps[..k]);
    Monotone.RunKeeps(c, faulty, steps[..k]);
    DeliveryCommits(c, Run(c, faulty, steps[..k]).reps[i], steps[k].i, steps[k].msg, h, w);
  }

  /** The end of a view that commits, from the state just before it. */
  lemma EndCommits(c: Config, r: Replica, r1: Replica, txn: nat, ready: bool, h: Hash, w: nat)
    requires c.Valid() && r1.advanced == r.advanced && r1.view == r.view && h != NoHash && Monotone.StoreInv(r1.store)
    requires var r' := AdvanceIf(c, r1, txn, ready);
      && Advances(r, r')
      && var qc := FormedBy(r, r');
         var m := r1.store.qcs[qc.hash := qc];
         && Commits(m, qc, r.view + 1) && Grandparent(m, qc).hash == h && Grandparent(m, qc).view == w
         && TwoBack(c, r').hash == h
    ensures var r' := AdvanceIf(c, r1, txn, ready); !Certified(r'.store.qcs, h) && w < r'.store.locked.view
  {
    AdvanceIsSeen(c, r, r1, txn, ready);
    AdvanceFrame(c, r1, txn, ready);
    var qc, b := Formed(Mgr(r1, txn), r.view), BlockAt(r1, WrapSub(txn, 2 * c.Stride()));
    CommittedIsBelowLock(File(r1.store, qc), qc, r.view + 1, b);
  }

  lemma DeliveryCommits(c: Config, r: Replica, i: nat, msg: Msg, h: Hash, w: nat)
    requires c.Valid() && h != NoHash && Monotone.StoreInv(r.store) && (msg.Generic? ==> Monotone.Marked(msg.high))
    requires var r' := Act(c, r, Deliver(i, msg)).r;
      && Advances(r, r')
      && var qc := FormedBy(r, r');
         var m := Before(c, r, Deliver(i, msg))[qc.hash := qc];
         && Commits(m, qc, r.view + 1) && Grandparent(m, qc).hash == h && Grandparent(m, qc).view == w
         && TwoBack(c, r').hash == h
    ensures var r' := Act(c, r, Deliver(i, msg)).r; !Certified(r'.store.qcs, h) && w < r'.store.locked.view
  {
    if msg.Generic? {
      assert TakenUp(c, r, msg);
      Monotone.ExtendMovesUp(c, r, msg);
      var m2 := VoteFor(c, r.self, r.view, Mgr(r, msg.txn).(hash := msg.hash, high := msg.high, generic := true));
      EndCommits(c, r, PutMgr(r.(store := Extend(c, r, msg)), msg.txn, m2), msg.txn, m2.newViewed && m2.proposal, h, w);
    } else if msg.Sync? {
      var m, v := Mgr(r, msg.txn), VoteIn(msg);
      var m' := CountVote(m, r.self, c.Nf(), v);
      var filed := if |VotersOf(m, v.hash)| == 0 && |VotersOf(m', v.hash)| == 1
                   then r.store.(txnOf := r.store.txnOf[v.hash := msg.txn]) else r.store;
      EndCommits(c, r, PutMgr(r.(store := filed), msg.txn, m'), msg.txn,
                 Completes(m, r.self, c.Nf(), v) && m'.proposal && m'.generic, h, w);
    } else {
      var m' := Mgr(r, msg.txn).(hash := msg.hash, proposal := true);
      var txnOf := if msg.hash in r.store.txnOf then r.store.txnOf else r.store.txnOf[msg.hash := msg.txn];
      EndCommits(c, r, PutMgr(r.(store := r.store.(txnOf := txnOf)), msg.txn, m'), msg.txn, m'.newViewed && m'.generic, h, w);
    }
  }

  /** So a committed block never comes back, at any later point and by whatever message, if
      everyone who ended a view with it ended that of its certificate. */
  lemma CommittedStaysGone(c: Config, faulty: set<nat>, steps: seq<Step>, k: nat, l: nat, i: nat, h: Hash, w: nat)
    requires c.Valid() && Monotone.MarkedRun(faulty, steps) && k < l <= |steps| && i < c.nodes && h != NoHash
    requires CommitsAt(c, faulty, steps, k, i, h, w) && OnTime(c, faulty, steps, h, w)
    ensures Gone(c, faulty, steps, l, i, h)
  {
    CommittedIsGone(c, faulty, steps, k, i, h, w);
    OnTimeNeverBack(c, faulty, steps, k + 1, l, i, h, w);
  }
}
