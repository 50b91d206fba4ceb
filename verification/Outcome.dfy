/** What an advance yields: the certificate and the view do not depend on the order in which
    proposal, leader message and votes arrive, unless the view was left in between. */
module Outcome {
  import opened Cluster
  import opened Certificate
  import opened VoteManager
  import opened CertStore
  import opened Replica
  import opened System
  import opened AdvanceOnce
  import opened Agreement
  import opened Sequences

  // ----- Advances --------------------------------------------------------------

  predicate Advances(r: Replica, r': Replica) {
    |r'.advanced| > |r.advanced|
  }

  /** The manager the view was advanced on, and the certificate that was formed. */
  function AdvancedOn(r': Replica): Manager
    requires r'.advanced != []
  {
    Mgr(r', r'.advanced[|r'.advanced| - 1])
  }

  function FormedBy(r: Replica, r': Replica): Cert
    requires Advances(r, r')
  {
    Formed(AdvancedOn(r'), r.view)
  }

  lemma AdvanceIsSeen(c: Config, r: Replica, r1: Replica, txn: nat, ready: bool)
    requires c.Valid() && r1.advanced == r.advanced && r1.view == r.view
    ensures var r', m := AdvanceIf(c, r1, txn, ready), Mgr(r1, txn);
      && (Advances(r, r') <==> ready && m.hash != NoHash)
      && (Advances(r, r') ==> AdvancedOn(r') == m && FormedBy(r, r') == Formed(m, r.view))
  {
    AdvanceFrame(c, r1, txn, ready);
  }

  // ----- What was promised -----------------------------------------------------

  /** The certificate a leader message leads to in a view. */
  function Promised(g: Msg, view: nat): Cert
    requires g.Generic?
  {
    QC(Prepare, false, if g.high.genesis then 0 else view, g.high.view, g.hash, g.high.hash,
       false, g.high.parentView, g.high.parent, map[])
  }

  /** The replica holds the leader message, or its slot was executed and the manager released. */
  predicate Held(r: Replica, g: Msg)
    requires g.Generic?
  {
    var m := Mgr(r, g.txn);
    if m.generic then m.hash == g.hash && m.high == g.high else g.txn < r.nextIndex
  }

  predicate SameBatch(m: Manager, m': Manager) {
    m'.generic == m.generic && (m.generic ==> m'.hash == m.hash && m'.high == m.high)
  }

  lemma ChangedKeepsBatch(c: Config, self: nat, ch: Change)
    requires c.Valid()
    ensures var m' := Changed(c, self, ch);
      m'.generic == ch.base.generic && m'.hash == ch.base.hash && m'.high == ch.base.high && m'.proposal == ch.base.proposal
  {
  }

  lemma BackupKeepsBatch(c: Config, r: Replica, step: Step)
    requires c.Valid() && LogInv(c, r)
    requires step.DoLead? ==> r.incomplete != 0
    ensures var ch := ChangeOf(c, r, step);
      ch.Some? && Backup(c, r.self, ch.value.txn) && Mgr(r, ch.value.txn).generic ==>
        SameBatch(Mgr(r, ch.value.txn), Changed(c, r.self, ch.value))
  {
    var ch := ChangeOf(c, r, step);
    if ch.Some? {
      ChangedKeepsBatch(c, r.self, ch.value);
      if step.DoPropose? {
        assert !Backup(c, r.self, c.Txn(r.nextSend));
      } else if step.DoLead? {
        assert !Backup(c, r.self, c.Txn(r.lastSent));
      }
    }
  }

  lemma BatchStays(c: Config, r: Replica, step: Step, g: Msg)
    requires c.Valid() && LogInv(c, r) && g.Generic? && Backup(c, r.self, g.txn) && Mgr(r, g.txn).generic
    requires !step.DoRelease? && (step.DoLead? ==> r.incomplete != 0)
    ensures SameBatch(Mgr(r, g.txn), Mgr(Act(c, r, step).r, g.txn))
  {
    BackupKeepsBatch(c, r, step);
    ChangeIsAll(c, r, step);
    var ch, r' := ChangeOf(c, r, step), Act(c, r, step).r;
    if ch.Some? && ch.value.txn == g.txn {
      assert Mgr(r', g.txn) == Changed(c, r.self, ch.value);
    } else {
      assert Mgr(r', g.txn) == Mgr(r, g.txn);
    }
  }

  lemma HeldStays(c: Config, r: Replica, step: Step, g: Msg)
    requires c.Valid() && LogInv(c, r) && g.Generic? && Backup(c, r.self, g.txn) && Held(r, g)
    requires step.DoRelease? ==> CanRelease(r, step.txn)
    requires step.DoLead? ==> r.incomplete != 0
    ensures Held(Act(c, r, step).r, g)
  {
    if !step.DoRelease? {
      if Mgr(r, g.txn).generic {
        BatchStays(c, r, step, g);
      } else {
        StillMissing(c, r, step, g);
        IndexStays(c, r, step);
      }
    }
  }

  lemma IndexStays(c: Config, r: Replica, step: Step)
    requires c.Valid() && !step.DoRelease?
    ensures Act(c, r, step).r.nextIndex >= r.nextIndex
  {
    ChangeIsAll(c, r, step);
  }

  /** The leader message of an executed slot is not taken up any more. */
  lemma StillMissing(c: Config, r: Replica, step: Step, g: Msg)
    requires c.Valid() && !step.DoRelease? && g.Generic? && g.txn < r.nextIndex && !Mgr(r, g.txn).generic
    ensures !Mgr(Act(c, r, step).r, g.txn).generic
  {
    ChangeIsAll(c, r, step);
    var ch := ChangeOf(c, r, step);
    if ch.Some? {
      ChangedKeepsBatch(c, r.self, ch.value);
    }
  }

  // ----- One step --------------------------------------------------------------

  predicate GoesOnOnly(r: Replica, r': Replica) {
    Advances(r, r') ==>
      && r'.advanced[..|r'.advanced| - 1] == r.advanced && Ready(AdvancedOn(r')) && r'.view == r.view + 1
  }

  lemma HandlerGoesOn(c: Config, r: Replica, r1: Replica, txn: nat, ready: bool)
    requires c.Valid() && r1.advanced == r.advanced && r1.view == r.view && (ready ==> Ready(Mgr(r1, txn)))
    ensures var r' := AdvanceIf(c, r1, txn, ready);
      && GoesOnOnly(r, r') && (!Advances(r, r') ==> r'.view == r.view)
  {
    AdvanceFrame(c, r1, txn, ready);
    AdvanceIsSeen(c, r, r1, txn, ready);
  }

  lemma SyncGoesOn(c: Config, r: Replica, msg: Msg)
    requires c.Valid() && msg.Sync?
    ensures var r' := OnSync(c, r, msg); GoesOnOnly(r, r') && (!Advances(r, r') ==> r'.view == r.view)
  {
    if Counted(r, msg) {
      var m, v := Mgr(r, msg.txn), VoteIn(msg);
      var m' := CountVote(m, r.self, c.Nf(), v);
      CountFlags(m, r.self, c.Nf(), v);
      var filed := if |VotersOf(m, v.hash)| == 0 && |VotersOf(m', v.hash)| == 1
                   then r.store.(txnOf := r.store.txnOf[v.hash := msg.txn]) else r.store;
      HandlerGoesOn(c, r, PutMgr(r.(store := filed), msg.txn, m'), msg.txn,
                    Completes(m, r.self, c.Nf(), v) && m'.proposal && m'.generic);
    }
  }

  lemma ProposalGoesOn(c: Config, r: Replica, msg: Msg)
    requires c.Valid() && msg.Proposal?
    ensures var r' := OnProposal(c, r, msg); GoesOnOnly(r, r') && (!Advances(r, r') ==> r'.view == r.view)
  {
    var m' := Mgr(r, msg.txn).(hash := msg.hash, proposal := true);
    var txnOf := if msg.hash in r.store.txnOf then r.store.txnOf else r.store.txnOf[msg.hash := msg.txn];
    HandlerGoesOn(c, r, PutMgr(r.(store := r.store.(txnOf := txnOf)), msg.txn, m'), msg.txn, m'.newViewed && m'.generic);
  }

  lemma GenericGoesOn(c: Config, r: Replica, g: Msg)
    requires c.Valid() && g.Generic?
    ensures var r' := OnGeneric(c, r, g).r; GoesOnOnly(r, r') && (!Advances(r, r') ==> r'.view == r.view)
    ensures TakenUp(c, r, g) ==> Held(OnGeneric(c, r, g).r, g)
  {
    var m1 := Mgr(r, g.txn).(hash := g.hash, high := g.high, generic := true);
    var m2 := VoteFor(c, r.self, r.view, m1);
    CastFlags(m1, r.self, c.Nf(), r.self == c.Primary(r.view + 1));
    var r1, ready := PutMgr(r.(store := Extend(c, r, g)), g.txn, m2), m2.newViewed && m2.proposal;
    HandlerGoesOn(c, r, r1, g.txn, ready);
    AdvanceFrame(c, r1, g.txn, ready);
    if TakenUp(c, r, g) {
      assert OnGeneric(c, r, g).r == AdvanceIf(c, r1, g.txn, ready);
    }
  }

  /** The leader message is accepted and fits the batch known so far. */
  predicate TakenUp(c: Config, r: Replica, g: Msg)
    requires c.Valid() && g.Generic?
  {
    Acceptable(c, r, g) && (Mgr(r, g.txn).hash == NoHash || Mgr(r, g.txn).hash == g.hash)
  }

  /** The step ends the view, with a certificate or without. */
  predicate Leaves(c: Config, r: Replica, step: Step)
    requires c.Valid()
  {
    Advances(r, Act(c, r, step).r) || (step.DoFail? && GivesUp(c, r, step.view, step.voter))
  }

  /** Nothing else changes the view. */
  lemma ViewMovesIff(c: Config, r: Replica, step: Step)
    requires c.Valid()
    ensures var r' := Act(c, r, step).r;
      r.view <= r'.view && (r.view < r'.view <==> Leaves(c, r, step)) && GoesOnOnly(r, r')
  {
    if step.Deliver? {
      if step.msg.Generic? {
        GenericGoesOn(c, r, step.msg);
      } else if step.msg.Sync? {
        SyncGoesOn(c, r, step.msg);
      } else {
        ProposalGoesOn(c, r, step.msg);
      }
    }
  }

  // ----- Whole runs ------------------------------------------------------------

  /** Replica `i` takes step `k`. */
  ghost predicate Moves(c: Config, faulty: set<nat>, steps: seq<Step>, k: nat, i: nat)
    requires c.Valid()
  {
    k < |steps| && steps[k].i == i && Enabled(c, faulty, Run(c, faulty, steps[..k]), steps[k])
  }

  ghost predicate TakesUpAt(c: Config, faulty: set<nat>, steps: seq<Step>, k: nat, i: nat, g: Msg)
    requires c.Valid() && g.Generic?
  {
    Moves(c, faulty, steps, k, i) && steps[k] == Deliver(i, g) && TakenUp(c, Run(c, faulty, steps[..k]).reps[i], g)
  }

  ghost predicate LeavesAt(c: Config, faulty: set<nat>, steps: seq<Step>, k: nat, i: nat)
    requires c.Valid()
  {
    Moves(c, faulty, steps, k, i) && Leaves(c, Run(c, faulty, steps[..k]).reps[i], steps[k])
  }

  /** In step `k` replica `i` advances the view on the slot of `txn`, and forms `qc`. */
  ghost predicate FormsAt(c: Config, faulty: set<nat>, steps: seq<Step>, k: nat, i: nat, txn: nat, qc: Cert)
    requires c.Valid()
  {
    && Moves(c, faulty, steps, k, i)
    && var r := Run(c, faulty, steps[..k]).reps[i];
       var r' := Act(c, r, steps[k]).r;
       Advances(r, r') && r'.advanced[|r'.advanced| - 1] == txn && qc == FormedBy(r, r')
  }

  /** The view of replica `i` after `k` steps. */
  ghost function ViewAt(c: Config, faulty: set<nat>, steps: seq<Step>, k: nat, i: nat): nat
    requires c.Valid() && k <= |steps|
  {
    var s := Run(c, faulty, steps[..k]);
    if i < |s.reps| then s.reps[i].view else 0
  }

  lemma StepOf(c: Config, faulty: set<nat>, steps: seq<Step>, k: nat, i: nat)
    requires c.Valid() && k < |steps| && i < c.nodes
    ensures var s, t := Run(c, faulty, steps[..k]), Run(c, faulty, steps[..k + 1]);
      && |s.reps| == |t.reps| == c.nodes && s.reps[i].self == i
      && t.reps[i] == (if Moves(c, faulty, steps, k, i) then Act(c, s.reps[i], steps[k]).r else s.reps[i])
  {
    assert steps[..k + 1][..k] == steps[..k];
    RunShape(c, faulty, steps[..k]);
    RunShape(c, faulty, steps[..k + 1]);
  }

  /** After `n` steps replica `i` holds the message, or executed its slot. */
  ghost predicate HeldAt(c: Config, faulty: set<nat>, steps: seq<Step>, n: nat, i: nat, g: Msg)
    requires c.Valid() && g.Generic?
  {
    n <= |steps| && var s := Run(c, faulty, steps[..n]); i < |s.reps| == c.nodes && Held(s.reps[i], g)
  }

  lemma {:induction false} HeldSince(c: Config, faulty: set<nat>, steps: seq<Step>, a: nat, n: nat, i: nat, g: Msg)
    requires c.Valid() && i < c.nodes && g.Generic? && Backup(c, i, g.txn)
    requires a < n <= |steps| && TakesUpAt(c, faulty, steps, a, i, g)
    ensures HeldAt(c, faulty, steps, n, i, g)
  {
    var k := n - 1;
    StepOf(c, faulty, steps, k, i);
    if a == k {
      GenericGoesOn(c, Run(c, faulty, steps[..k]).reps[i], g);
    } else {
      HeldSince(c, faulty, steps, a, k, i, g);
      RunKeepsLog(c, faulty, steps[..k]);
      if Moves(c, faulty, steps, k, i) {
        HeldStays(c, Run(c, faulty, steps[..k]).reps[i], steps[k], g);
      }
    }
  }

  lemma ViewStep(c: Config, faulty: set<nat>, steps: seq<Step>, k: nat, i: nat)
    requires c.Valid() && i < c.nodes && k < |steps|
    ensures var u, v := ViewAt(c, faulty, steps, k, i), ViewAt(c, faulty, steps, k + 1, i);
      u <= v && (u == v <==> !LeavesAt(c, faulty, steps, k, i))
  {
    StepOf(c, faulty, steps, k, i);
    if Moves(c, faulty, steps, k, i) {
      ViewMovesIff(c, Run(c, faulty, steps[..k]).reps[i], steps[k]);
    }
  }

  ghost predicate NotLeft(c: Config, faulty: set<nat>, steps: seq<Step>, a: nat, n: nat, i: nat)
    requires c.Valid()
  {
    forall k :: a <= k < n ==> !LeavesAt(c, faulty, steps, k, i)
  }

  /** Of numbers that never go down: the last is the first exactly if no step goes up. */
  lemma {:induction false} Flat(views: seq<nat>, up: seq<bool>, a: nat, n: nat)
    requires a <= n <= |up| && |views| == |up| + 1
    requires forall k :: 0 <= k < |up| ==> views[k] <= views[k + 1] && (views[k] == views[k + 1] <==> !up[k])
    ensures views[a] <= views[n] && (views[a] == views[n] <==> forall k :: a <= k < n ==> !up[k])
    decreases n
  {
    if a < n {
      Flat(views, up, a, n - 1);
    }
  }

  /** The view at a later point is the same exactly if it was not left in between. */
  lemma SameViewIff(c: Config, faulty: set<nat>, steps: seq<Step>, a: nat, n: nat, i: nat)
    requires c.Valid() && i < c.nodes && a <= n <= |steps|
    ensures ViewAt(c, faulty, steps, a, i) <= ViewAt(c, faulty, steps, n, i)
    ensures ViewAt(c, faulty, steps, a, i) == ViewAt(c, faulty, steps, n, i) <==> NotLeft(c, faulty, steps, a, n, i)
  {
    var views := seq(|steps| + 1, k requires 0 <= k <= |steps| => ViewAt(c, faulty, steps, k, i));
    var up := seq(|steps|, k requires 0 <= k < |steps| => LeavesAt(c, faulty, steps, k, i));
    forall k | 0 <= k < |up| ensures views[k] <= views[k + 1] && (views[k] == views[k + 1] <==> !up[k]) {
      ViewStep(c, faulty, steps, k, i);
    }
    Flat(views, up, a, n);
    assert forall k :: a <= k < n ==> up[k] == LeavesAt(c, faulty, steps, k, i);
  }

  lemma CoreOfFormed(m: Manager, view: nat, g: Msg)
    requires g.Generic? && m.hash == g.hash && m.high == g.high
    ensures Core(Formed(m, view)) == Promised(g, view)
  {
  }

  lemma FormedAsPromised(c: Config, faulty: set<nat>, steps: seq<Step>, b: nat, i: nat, g: Msg, qc: Cert)
    requires c.Valid() && i < c.nodes && g.Generic? && FormsAt(c, faulty, steps, b, i, g.txn, qc)
    requires HeldAt(c, faulty, steps, b + 1, i, g)
    ensures Core(qc) == Promised(g, ViewAt(c, faulty, steps, b, i))
    ensures ViewAt(c, faulty, steps, b + 1, i) == ViewAt(c, faulty, steps, b, i) + 1
  {
    StepOf(c, faulty, steps, b, i);
    var r := Run(c, faulty, steps[..b]).reps[i];
    ViewMovesIff(c, r, steps[b]);
    CoreOfFormed(AdvancedOn(Act(c, r, steps[b]).r), r.view, g);
  }

  /** An advance yields the certificate its leader message promises for the view it ends, and
      the next view, in whatever order proposal and votes arrived. */
  lemma AdvanceYields(c: Config, faulty: set<nat>, steps: seq<Step>, a: nat, b: nat, i: nat, g: Msg, qc: Cert)
    requires c.Valid() && i < c.nodes && g.Generic? && Backup(c, i, g.txn) && a <= b
    requires TakesUpAt(c, faulty, steps, a, i, g) && FormsAt(c, faulty, steps, b, i, g.txn, qc)
    ensures Core(qc) == Promised(g, ViewAt(c, faulty, steps, b, i))
    ensures ViewAt(c, faulty, steps, b + 1, i) == ViewAt(c, faulty, steps, b, i) + 1
  {
    assert HeldAt(c, faulty, steps, b + 1, i, g) by {
      HeldSince(c, faulty, steps, a, b + 1, i, g);
    }
    FormedAsPromised(c, faulty, steps, b, i, g, qc);
  }

  /** So for a message that extends no genesis it is the certificate promised when the message
      was taken up exactly if the view was not left in between. */
  lemma AsPromisedIff(c: Config, faulty: set<nat>, steps: seq<Step>, a: nat, b: nat, i: nat, g: Msg, qc: Cert)
    requires c.Valid() && i < c.nodes && g.Generic? && Backup(c, i, g.txn) && a <= b
    requires TakesUpAt(c, faulty, steps, a, i, g) && FormsAt(c, faulty, steps, b, i, g.txn, qc)
    ensures ViewAt(c, faulty, steps, b + 1, i) == ViewAt(c, faulty, steps, a, i) + 1 <==> NotLeft(c, faulty, steps, a, b, i)
    ensures !g.high.genesis ==>
      (Core(qc) == Promised(g, ViewAt(c, faulty, steps, a, i)) <==> NotLeft(c, faulty, steps, a, b, i))
  {
    AdvanceYields(c, faulty, steps, a, b, i, g, qc);
    SameViewIff(c, faulty, steps, a, b, i);
  }

  /** If the view was not left. */
  lemma OrderlyYields(c: Config, faulty: set<nat>, steps: seq<Step>, a: nat, b: nat, i: nat, g: Msg, qc: Cert)
    requires c.Valid() && i < c.nodes && g.Generic? && Backup(c, i, g.txn) && a <= b
    requires TakesUpAt(c, faulty, steps, a, i, g) && FormsAt(c, faulty, steps, b, i, g.txn, qc)
    requires NotLeft(c, faulty, steps, a, b, i)
    ensures Core(qc) == Promised(g, ViewAt(c, faulty, steps, a, i))
    ensures ViewAt(c, faulty, steps, b + 1, i) == ViewAt(c, faulty, steps, a, i) + 1
  {
    AdvanceYields(c, faulty, steps, a, b, i, g, qc);
    SameViewIff(c, faulty, steps, a, b, i);
  }

  /** Two replicas, or one in two runs, that take up the same leader message in the same view
      and do not leave it before they advance form the same certificate and are in the same
      view afterwards. */
  lemma OrderDoesNotMatter(c: Config, faulty: set<nat>, steps: seq<Step>, a: nat, b: nat, i: nat, qc: Cert,
                           other: set<nat>, steps': seq<Step>, a': nat, b': nat, i': nat, qc': Cert, g: Msg)
    requires c.Valid() && i < c.nodes && i' < c.nodes && g.Generic? && Backup(c, i, g.txn) && Backup(c, i', g.txn)
    requires a <= b && TakesUpAt(c, faulty, steps, a, i, g) && FormsAt(c, faulty, steps, b, i, g.txn, qc)
    requires a' <= b' && TakesUpAt(c, other, steps', a', i', g) && FormsAt(c, other, steps', b', i', g.txn, qc')
    requires ViewAt(c, faulty, steps, a, i) == ViewAt(c, other, steps', a', i')
    requires NotLeft(c, faulty, steps, a, b, i) && NotLeft(c, other, steps', a', b', i')
    ensures Core(qc) == Core(qc') && ViewAt(c, faulty, steps, b + 1, i) == ViewAt(c, other, steps', b' + 1, i')
  {
    ghost var u := ViewAt(c, faulty, steps, a, i);
    assert Core(qc) == Promised(g, u) && ViewAt(c, faulty, steps, b + 1, i) == u + 1 by {
      OrderlyYields(c, faulty, steps, a, b, i, g, qc);
    }
    assert Core(qc') == Promised(g, u) && ViewAt(c, other, steps', b' + 1, i') == u + 1 by {
      OrderlyYields(c, other, steps', a', b', i', g, qc');
    }
  }

  // ----- Votes that come too late ----------------------------------------------

  /** Once a replica is past the view a vote was cast in, the vote changes nothing any more. */
  lemma VoteOfLeftViewIgnored(c: Config, faulty: set<nat>, steps: seq<Step>, k: nat, l: nat, i: nat, msg: Msg)
    requires c.Valid() && i < c.nodes && msg.Sync? && k <= l < |steps| && steps[l] == Deliver(i, msg)
    requires msg.view < ViewAt(c, faulty, steps, k, i)
    ensures var s, t := Run(c, faulty, steps[..l]), Run(c, faulty, steps[..l + 1]);
      |s.reps| == |t.reps| == c.nodes && t.reps[i] == s.reps[i]
  {
    assert ViewAt(c, faulty, steps, l, i) > msg.view by {
      SameViewIff(c, faulty, steps, k, l, i);
    }
    StaleChangesNothing(c, faulty, steps, l, i, msg);
  }

  /** The slot that ended the view before, as a replica remembers it. */
  ghost function EndedBy(c: Config, faulty: set<nat>, steps: seq<Step>, n: nat, i: nat): nat
    requires c.Valid() && n <= |steps|
  {
    var s := Run(c, faulty, steps[..n]);
    if i < |s.reps| then s.reps[i].newViewed else 0
  }

  lemma EndKeepsSlot(c: Config, r: Replica, r1: Replica, txn: nat, ready: bool)
    requires c.Valid() && r1.advanced == r.advanced && r1.view == r.view && r1.newViewed == r.newViewed
    ensures var r' := AdvanceIf(c, r1, txn, ready);
      r'.newViewed == if Advances(r, r') then r'.advanced[|r'.advanced| - 1] % U32 else r.newViewed
  {
    AdvanceIsSeen(c, r, r1, txn, ready);
  }

  lemma DeliveryKeepsSlot(c: Config, r: Replica, i: nat, msg: Msg)
    requires c.Valid()
    ensures var r' := Act(c, r, Deliver(i, msg)).r;
      r'.newViewed == if Advances(r, r') then r'.advanced[|r'.advanced| - 1] % U32 else r.newViewed
  {
    if msg.Generic? {
      if TakenUp(c, r, msg) {
        var m2 := VoteFor(c, r.self, r.view, Mgr(r, msg.txn).(hash := msg.hash, high := msg.high, generic := true));
        EndKeepsSlot(c, r, PutMgr(r.(store := Extend(c, r, msg)), msg.txn, m2), msg.txn, m2.newViewed && m2.proposal);
      }
    } else if msg.Sync? {
      if Counted(r, msg) {
        var m, v := Mgr(r, msg.txn), VoteIn(msg);
        var m' := CountVote(m, r.self, c.Nf(), v);
        var filed := if |VotersOf(m, v.hash)| == 0 && |VotersOf(m', v.hash)| == 1
                     then r.store.(txnOf := r.store.txnOf[v.hash := msg.txn]) else r.store;
        EndKeepsSlot(c, r, PutMgr(r.(store := filed), msg.txn, m'), msg.txn,
                     Completes(m, r.self, c.Nf(), v) && m'.proposal && m'.generic);
      }
    } else {
      var m' := Mgr(r, msg.txn).(hash := msg.hash, proposal := true);
      var txnOf := if msg.hash in r.store.txnOf then r.store.txnOf else r.store.txnOf[msg.hash := msg.txn];
      EndKeepsSlot(c, r, PutMgr(r.(store := r.store.(txnOf := txnOf)), msg.txn, m'), msg.txn, m'.newViewed && m'.generic);
    }
  }

  lemma SlotStep(c: Config, faulty: set<nat>, steps: seq<Step>, k: nat, i: nat)
    requires c.Valid() && i < c.nodes && k < |steps| && !LeavesAt(c, faulty, steps, k, i)
    ensures EndedBy(c, faulty, steps, k + 1, i) == EndedBy(c, faulty, steps, k, i)
  {
    StepOf(c, faulty, steps, k, i);
    if Moves(c, faulty, steps, k, i) && steps[k].Deliver? {
      DeliveryKeepsSlot(c, Run(c, faulty, steps[..k]).reps[i], i, steps[k].msg);
    }
  }

  lemma {:induction false} SlotKept(c: Config, faulty: set<nat>, steps: seq<Step>, a: nat, n: nat, i: nat)
    requires c.Valid() && i < c.nodes && a <= n <= |steps| && NotLeft(c, faulty, steps, a, n, i)
    ensures EndedBy(c, faulty, steps, n, i) == EndedBy(c, faulty, steps, a, i)
    decreases n
  {
    if a < n {
      SlotKept(c, faulty, steps, a, n - 1, i);
      SlotStep(c, faulty, steps, n - 1, i);
    }
  }

  /** While a view lasts, votes of that view for the slot that ended the view before, or for an
      earlier one, change nothing. */
  lemma VoteForEndedSlotIgnored(c: Config, faulty: set<nat>, steps: seq<Step>, a: nat, l: nat, i: nat, msg: Msg)
    requires c.Valid() && i < c.nodes && msg.Sync? && a <= l < |steps| && steps[l] == Deliver(i, msg)
    requires NotLeft(c, faulty, steps, a, l, i)
    requires msg.view == ViewAt(c, faulty, steps, a, i) && msg.txn <= EndedBy(c, faulty, steps, a, i)
    ensures var s, t := Run(c, faulty, steps[..l]), Run(c, faulty, steps[..l + 1]);
      |s.reps| == |t.reps| == c.nodes && t.reps[i] == s.reps[i]
  {
    SlotKept(c, faulty, steps, a, l, i);
    SameViewIff(c, faulty, steps, a, l, i);
    StaleChangesNothing(c, faulty, steps, l, i, msg);
  }

  lemma StaleChangesNothing(c: Config, faulty: set<nat>, steps: seq<Step>, l: nat, i: nat, msg: Msg)
    requires c.Valid() && i < c.nodes && msg.Sync? && l < |steps| && steps[l] == Deliver(i, msg)
    requires var view := ViewAt(c, faulty, steps, l, i);
      msg.view < view || (msg.view == view && msg.txn <= EndedBy(c, faulty, steps, l, i))
    ensures var s, t := Run(c, faulty, steps[..l]), Run(c, faulty, steps[..l + 1]);
      |s.reps| == |t.reps| == c.nodes && t.reps[i] == s.reps[i]
  {
    StepOf(c, faulty, steps, l, i);
  }

  lemma OnlyDeliveriesAdvance(c: Config, r: Replica, step: Step)
    requires c.Valid() && Advances(r, Act(c, r, step).r)
    ensures step.Deliver?
  {
  }

  predicate Remembers(r: Replica, r': Replica) {
    Advances(r, r') ==> r'.newViewed == r'.advanced[|r'.advanced| - 1] % U32
  }

  lemma AdvanceIsRemembered(c: Config, r: Replica, step: Step)
    requires c.Valid()
    ensures Remembers(r, Act(c, r, step).r)
  {
    if Advances(r, Act(c, r, step).r) {
      OnlyDeliveriesAdvance(c, r, step);
      DeliveryKeepsSlot(c, r, step.i, step.msg);
    }
  }

  /** Which slot that is, in 32 bits. */
  lemma EndedByFormed(c: Config, faulty: set<nat>, steps: seq<Step>, k: nat, i: nat, txn: nat, qc: Cert)
    requires c.Valid() && i < c.nodes && FormsAt(c, faulty, steps, k, i, txn, qc)
    ensures EndedBy(c, faulty, steps, k + 1, i) == txn % U32
  {
    AdvanceIsRemembered(c, Run(c, faulty, steps[..k]).reps[i], steps[k]);
    StepOf(c, faulty, steps, k, i);
  }
}
