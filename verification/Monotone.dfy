/** Views and locks only move forward, failed views included. */
module Monotone {
  import opened Cluster
  import opened Certificate
  import opened VoteManager
  import opened CertStore
  import opened FaultVoters
  import opened Replica
  import opened System

  /** Only a certificate of view 0 carries the genesis mark. */
  predicate Marked(qc: Cert) {
    qc.genesis ==> qc.view == 0
  }

  ghost predicate StoreInv(s: Store) {
    && AllMarked(s.qcs)
    && Marked(s.prepared) && Marked(s.locked)
    && (!s.locked.genesis ==> s.locked.view < s.prepared.view)
  }

  predicate NotBehind(s: Store, t: Store) {
    s.prepared.view <= t.prepared.view && s.locked.view <= t.locked.view
  }

  ghost predicate AllMarked(m: CertMap) {
    forall k :: k in m ==> Marked(m[k])
  }

  lemma WalkKeepsMarks(s: Store, b: Block)
    requires AllMarked(s.qcs)
    ensures AllMarked(Walk(s, b).qcs)
  {
    var m := Touch(s.qcs, b.hash);
    assert forall k :: k in Walk(s, b).qcs ==> k in m && Walk(s, b).qcs[k] == m[k];
  }

  lemma FamilyKeepsMarks(m: CertMap, qc: Cert, key: Hash)
    requires AllMarked(m)
    ensures AllMarked(Family(m, qc)) && AllMarked(MarkCommit(Family(m, qc), key)) && Marked(Parent(m, qc))
  {
    var f := Family(m, qc);
    assert forall k :: k in f ==> (k in m && f[k] == m[k]) || f[k] == Blank();
  }

  lemma UpdateKeepsMarks(s: Store, b1: Cert, view: nat, b: Block)
    requires AllMarked(s.qcs)
    ensures AllMarked(UpdateLock(s, b1, view, b).qcs)
  {
    var b2, b3 := Parent(s.qcs, b1), Grandparent(s.qcs, b1);
    FamilyKeepsMarks(s.qcs, b1, b3.hash);
    if Commits(s.qcs, b1, view) {
      var ready := s.(qcs := MarkCommit(Family(s.qcs, b1), b3.hash),
                      prepared := Newer(s.prepared, b1), locked := Newer(s.locked, b2));
      WalkKeepsMarks(ready, b);
      assert UpdateLock(s, b1, view, b) == Walk(ready, b);
    }
  }

  lemma UpdateMovesUp(s: Store, b1: Cert, view: nat, b: Block)
    requires StoreInv(s) && Marked(b1)
    ensures var t := UpdateLock(s, b1, view, b); StoreInv(t) && NotBehind(s, t)
  {
    UpdateKeepsMarks(s, b1, view, b);
    UpdateFields(s, b1, view, b);
    FamilyKeepsMarks(s.qcs, b1, NoHash);
  }

  lemma FileKeepsStore(s: Store, qc: Cert)
    requires StoreInv(s) && Marked(qc)
    ensures StoreInv(File(s, qc))
  {
  }

  /** `r'` is at or ahead of `r`, and no one who gave up is forgotten. */
  ghost predicate Ahead(c: Config, r: Replica, r': Replica)
    requires c.Valid()
  {
    && r.view <= r'.view && NotBehind(r.store, r'.store)
    && (forall v: nat :: |VotersFor(r.failVoters, v)| >= c.Nf() ==> |VotersFor(r'.failVoters, v)| >= c.Nf())
  }

  lemma AdvanceMovesUp(c: Config, r: Replica, txn: nat, ready: bool)
    requires c.Valid() && StoreInv(r.store)
    ensures var a := AdvanceIf(c, r, txn, ready); StoreInv(a.store) && Ahead(c, r, a)
  {
    if ready && Mgr(r, txn).hash != NoHash {
      var qc := Formed(Mgr(r, txn), r.view);
      FileKeepsStore(r.store, qc);
      UpdateMovesUp(File(r.store, qc), qc, r.view + 1, BlockAt(r, WrapSub(txn, 2 * c.Stride())));
    }
  }

  lemma SyncMovesUp(c: Config, r: Replica, msg: Msg)
    requires c.Valid() && StoreInv(r.store) && msg.Sync?
    ensures var a := OnSync(c, r, msg); StoreInv(a.store) && Ahead(c, r, a)
  {
    if Counted(r, msg) {
      var m, v := Mgr(r, msg.txn), VoteIn(msg);
      var m' := CountVote(m, r.self, c.Nf(), v);
      var filed := if |VotersOf(m, v.hash)| == 0 && |VotersOf(m', v.hash)| == 1
                   then r.store.(txnOf := r.store.txnOf[v.hash := msg.txn]) else r.store;
      AdvanceMovesUp(c, PutMgr(r.(store := filed), msg.txn, m'), msg.txn,
                     Completes(m, r.self, c.Nf(), v) && m'.proposal && m'.generic);
    }
  }

  lemma ProposalMovesUp(c: Config, r: Replica, msg: Msg)
    requires c.Valid() && StoreInv(r.store) && msg.Proposal?
    ensures var a := OnProposal(c, r, msg); StoreInv(a.store) && Ahead(c, r, a)
  {
    var m' := Mgr(r, msg.txn).(hash := msg.hash, proposal := true);
    var txnOf := if msg.hash in r.store.txnOf then r.store.txnOf else r.store.txnOf[msg.hash := msg.txn];
    AdvanceMovesUp(c, PutMgr(r.(store := r.store.(txnOf := txnOf)), msg.txn, m'), msg.txn, m'.newViewed && m'.generic);
  }

  lemma ExtendMovesUp(c: Config, r: Replica, g: Msg)
    requires c.Valid() && StoreInv(r.store) && g.Generic? && Marked(g.high)
    ensures StoreInv(Extend(c, r, g)) && NotBehind(r.store, Extend(c, r, g))
  {
    FileKeepsStore(r.store, g.high);
    UpdateMovesUp(File(r.store, g.high), g.high, g.view,
                  BlockAt(r, WrapSub(WrapSub(g.txn, c.Stride()), 2 * c.Stride())));
  }

  lemma GenericMovesUp(c: Config, r: Replica, g: Msg)
    requires c.Valid() && StoreInv(r.store) && g.Generic? && Marked(g.high)
    ensures var a := OnGeneric(c, r, g).r; StoreInv(a.store) && Ahead(c, r, a)
  {
    var m := Mgr(r, g.txn);
    if Acceptable(c, r, g) && (m.hash == NoHash || m.hash == g.hash) {
      ExtendMovesUp(c, r, g);
      var m2 := VoteFor(c, r.self, r.view, m.(hash := g.hash, high := g.high, generic := true));
      var r1 := PutMgr(r.(store := Extend(c, r, g)), g.txn, m2);
      AdvanceMovesUp(c, r1, g.txn, m2.newViewed && m2.proposal);
      assert OnGeneric(c, r, g).r == AdvanceIf(c, r1, g.txn, m2.newViewed && m2.proposal);
    }
  }

  lemma ActMovesUp(c: Config, r: Replica, step: Step)
    requires c.Valid() && StoreInv(r.store)
    requires step.Deliver? && step.msg.Generic? ==> Marked(step.msg.high)
    ensures StoreInv(Act(c, r, step).r.store) && Ahead(c, r, Act(c, r, step).r)
  {
    if step.Deliver? {
      if step.msg.Generic? {
        GenericMovesUp(c, r, step.msg);
      } else if step.msg.Sync? {
        SyncMovesUp(c, r, step.msg);
      } else {
        ProposalMovesUp(c, r, step.msg);
      }
    }
  }

  lemma SendsMarked(c: Config, r: Replica, step: Step)
    requires c.Valid() && Marked(r.store.prepared)
    ensures forall m :: m in Act(c, r, step).out && m.Generic? ==> Marked(m.high)
  {
  }

  /** Certificates in messages of faulty replicas carry no false genesis mark. */
  ghost predicate MarkedRun(faulty: set<nat>, steps: seq<Step>) {
    forall k :: 0 <= k < |steps| && steps[k].Deliver? && steps[k].msg.Generic? && steps[k].msg.from in faulty
      ==> Marked(steps[k].msg.high)
  }

  ghost predicate SysInv(c: Config, s: Sys) {
    && |s.reps| == c.nodes
    && (forall i :: 0 <= i < c.nodes ==> StoreInv(s.reps[i].store))
    && (forall m :: m in s.sent && m.Generic? ==> Marked(m.high))
  }

  lemma {:induction false} RunKeeps(c: Config, faulty: set<nat>, steps: seq<Step>)
    requires c.Valid() && MarkedRun(faulty, steps)
    ensures SysInv(c, Run(c, faulty, steps))
  {
    if steps != [] {
      var k := |steps| - 1;
      RunKeeps(c, faulty, steps[..k]);
      var s := Run(c, faulty, steps[..k]);
      if Enabled(c, faulty, s, steps[k]) {
        ActMovesUp(c, s.reps[steps[k].i], steps[k]);
        SendsMarked(c, s.reps[steps[k].i], steps[k]);
      }
    }
  }

  /** Monotone views and locks: over every run, whatever messages arrive and
      however many views fail, no replica's view, prepared view or locked view
      ever goes down, and a lock that is not genesis is below prepared. */
  lemma {:induction false} MonotoneViewsAndLocks(c: Config, faulty: set<nat>, steps: seq<Step>, more: seq<Step>, i: nat)
    requires c.Valid() && MarkedRun(faulty, steps + more) && i < c.nodes
    ensures var s, t := Run(c, faulty, steps), Run(c, faulty, steps + more);
      && i < |s.reps| && i < |t.reps| && Ahead(c, s.reps[i], t.reps[i])
      && (!t.reps[i].store.locked.genesis ==> t.reps[i].store.locked.view < t.reps[i].store.prepared.view)
  {
    RunKeeps(c, faulty, steps + more);
    if more == [] {
      assert steps + more == steps;
    } else {
      var k := |more| - 1;
      var all := steps + more;
      assert all[..|all| - 1] == steps + more[..k];
      MonotoneViewsAndLocks(c, faulty, steps, more[..k], i);
      RunKeeps(c, faulty, steps + more[..k]);
      var s := Run(c, faulty, steps + more[..k]);
      if Enabled(c, faulty, s, more[k]) {
        ActMovesUp(c, s.reps[more[k].i], more[k]);
      }
    }
  }

  /** Step `k` of a run makes replica `i` give up on `view`. */
  ghost predicate GivesUpAt(c: Config, faulty: set<nat>, steps: seq<Step>, k: nat, i: nat, view: nat)
    requires c.Valid()
  {
    && k < |steps| && steps[k].DoFail? && steps[k].i == i && steps[k].view == view
    && var s := Run(c, faulty, steps[..k]);
       Enabled(c, faulty, s, steps[k]) && GivesUp(c, s.reps[i], view, steps[k].voter)
  }

  /** A failed view is given up at most once. */
  lemma GivenUpOnce(c: Config, faulty: set<nat>, steps: seq<Step>, k: nat, l: nat, i: nat, view: nat)
    requires c.Valid() && MarkedRun(faulty, steps) && i < c.nodes
    requires GivesUpAt(c, faulty, steps, k, i, view) && k < l
    ensures !GivesUpAt(c, faulty, steps, l, i, view)
  {
    if l < |steps| {
      var s := Run(c, faulty, steps[..k]);
      assert steps[..k + 1][..k] == steps[..k];
      assert Run(c, faulty, steps[..k + 1]) == Next(c, faulty, s, steps[k]);
      var t := Run(c, faulty, steps[..k + 1]);
      assert |VotersFor(t.reps[i].failVoters, view)| >= c.Nf();
      assert steps[..l] == steps[..k + 1] + steps[k + 1..l];
      MonotoneViewsAndLocks(c, faulty, steps[..k + 1], steps[k + 1..l], i);
    }
  }

  // ----- Who makes a replica give up -------------------------------------------

  /** Step `j` tells replica `i` that a voter gave up on `view`. */
  ghost predicate DoubtAt(c: Config, faulty: set<nat>, steps: seq<Step>, j: nat, i: nat, view: nat)
    requires c.Valid()
  {
    && j < |steps| && steps[j].DoFail? && steps[j].i == i && steps[j].view == view
    && Enabled(c, faulty, Run(c, faulty, steps[..j]), steps[j])
  }

  /** Everyone who was named to replica `i` as having given up on `view`. */
  ghost function Doubters(c: Config, faulty: set<nat>, steps: seq<Step>, i: nat, view: nat): set<nat>
    requires c.Valid()
  {
    set j | 0 <= j < |steps| && DoubtAt(c, faulty, steps, j, i, view) :: steps[j].voter
  }

  lemma DoubtersStep(c: Config, faulty: set<nat>, steps: seq<Step>, k: nat, i: nat, view: nat)
    requires c.Valid() && k < |steps|
    ensures Doubters(c, faulty, steps[..k + 1], i, view) == Doubters(c, faulty, steps[..k], i, view) +
      if DoubtAt(c, faulty, steps, k, i, view) then {steps[k].voter} else {}
  {
    var now, was := steps[..k + 1], steps[..k];
    forall j | 0 <= j <= k
      ensures DoubtAt(c, faulty, now, j, i, view) == DoubtAt(c, faulty, steps, j, i, view) && now[j] == steps[j]
      ensures j < k ==> DoubtAt(c, faulty, was, j, i, view) == DoubtAt(c, faulty, steps, j, i, view) && was[j] == steps[j]
    {
      assert now[..j] == steps[..j];
      assert j < k ==> was[..j] == steps[..j];
    }
  }

  /** `r'` is no earlier view, and knows of the same doubts. */
  predicate SameDoubts(r: Replica, r': Replica) {
    r.view <= r'.view && r'.failVoters == r.failVoters
  }

  lemma SyncKeepsTable(c: Config, r: Replica, msg: Msg)
    requires c.Valid() && msg.Sync?
    ensures SameDoubts(r, OnSync(c, r, msg))
  {
  }

  lemma ProposalKeepsTable(c: Config, r: Replica, msg: Msg)
    requires c.Valid() && msg.Proposal?
    ensures SameDoubts(r, OnProposal(c, r, msg))
  {
  }

  lemma GenericKeepsTable(c: Config, r: Replica, g: Msg)
    requires c.Valid() && g.Generic?
    ensures SameDoubts(r, OnGeneric(c, r, g).r)
  {
    var m2 := VoteFor(c, r.self, r.view, Mgr(r, g.txn).(hash := g.hash, high := g.high, generic := true));
    AdvanceFrame(c, PutMgr(r.(store := Extend(c, r, g)), g.txn, m2), g.txn, m2.newViewed && m2.proposal);
  }

  lemma OthersKeepTable(c: Config, r: Replica, step: Step)
    requires c.Valid()
    ensures var r' := Act(c, r, step).r;
      r.view <= r'.view && (!step.DoFail? ==> r'.failVoters == r.failVoters)
  {
    if step.Deliver? {
      if step.msg.Generic? {
        GenericKeepsTable(c, r, step.msg);
      } else if step.msg.Sync? {
        SyncKeepsTable(c, r, step.msg);
      } else {
        ProposalKeepsTable(c, r, step.msg);
      }
    }
  }

  /** What a step adds to the count, as long as it does not leave the view. */
  lemma StepCounts(c: Config, r: Replica, step: Step, view: nat)
    requires c.Valid() && Act(c, r, step).r.view <= view
    ensures r.view <= view
    ensures VotersFor(Act(c, r, step).r.failVoters, view) ==
      var kept := VotersFor(r.failVoters, view);
      if step.DoFail? && step.view == view && |kept| < c.Nf() then kept + {step.voter} else kept
  {
    OthersKeepTable(c, r, step);
  }

  /** As long as the view is not left, the table counts everyone who was named. */
  lemma {:induction false} TableCountsRun(c: Config, faulty: set<nat>, steps: seq<Step>, n: nat, i: nat, view: nat)
    requires c.Valid() && n <= |steps| && i < c.nodes
    requires |Run(c, faulty, steps[..n]).reps| == c.nodes && Run(c, faulty, steps[..n]).reps[i].view <= view
    ensures Tally(c.Nf(), VotersFor(Run(c, faulty, steps[..n]).reps[i].failVoters, view), Doubters(c, faulty, steps[..n], i, view))
  {
    if n == 0 {
      assert Doubters(c, faulty, steps[..0], i, view) == {};
    } else {
      var k := n - 1;
      assert steps[..n][..k] == steps[..k];
      RunShape(c, faulty, steps[..k]);
      var s := Run(c, faulty, steps[..k]);
      var kept, named := VotersFor(s.reps[i].failVoters, view), Doubters(c, faulty, steps[..k], i, view);
      DoubtersStep(c, faulty, steps, k, i, view);
      if Enabled(c, faulty, s, steps[k]) && steps[k].i == i {
        StepCounts(c, s.reps[i], steps[k], view);
      }
      TableCountsRun(c, faulty, steps, k, i, view);
      TallyStep(c.Nf(), kept, named, if steps[k].DoFail? then steps[k].voter else 0);
    }
  }

  /** A view is given up exactly in the step that names its quorum-th distinct voter, while the
      view was not left in another way. */
  lemma GivesUpIff(c: Config, faulty: set<nat>, steps: seq<Step>, k: nat, i: nat, view: nat)
    requires c.Valid() && k < |steps| && i < c.nodes
    ensures |Run(c, faulty, steps[..k]).reps| == c.nodes
    ensures GivesUpAt(c, faulty, steps, k, i, view) <==>
      && Run(c, faulty, steps[..k]).reps[i].view <= view && DoubtAt(c, faulty, steps, k, i, view)
      && |Doubters(c, faulty, steps[..k], i, view)| < c.Nf() == |Doubters(c, faulty, steps[..k + 1], i, view)|
  {
    RunShape(c, faulty, steps[..k]);
    var r := Run(c, faulty, steps[..k]).reps[i];
    if r.view <= view && DoubtAt(c, faulty, steps, k, i, view) {
      TableCountsRun(c, faulty, steps, k, i, view);
      DoubtersStep(c, faulty, steps, k, i, view);
      var named, kept := Doubters(c, faulty, steps[..k], i, view), VotersFor(r.failVoters, view);
      assert |named| < c.Nf() <==> |kept| < c.Nf();
    }
  }
}
