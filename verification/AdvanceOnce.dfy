/** A view is advanced exactly once per slot, in the step that brings together
    the quorum, the proposal and the leader's message. */
module AdvanceOnce {
  import opened Cluster
  import opened Certificate
  import opened VoteManager
  import opened Replica
  import opened System
  import opened Sequences

  /** The slot of `txn` is not led by `self`. */
  ghost predicate Backup(c: Config, self: nat, txn: nat)
    requires c.Valid()
  {
    forall v: nat :: txn == c.Txn(v) ==> c.Primary(v) != self
  }

  /** A manager that advanced is still complete, or was released after its slot
      was executed and can never be completed again. */
  ghost predicate Spent(r: Replica, txn: nat) {
    Ready(Mgr(r, txn)) || (txn < r.nextIndex && !Mgr(r, txn).generic)
  }

  ghost predicate LogInv(c: Config, r: Replica)
    requires c.Valid()
  {
    && NoDup(r.advanced)
    && (forall txn :: txn in r.advanced ==> Spent(r, txn))
    && (!r.crashed ==> forall txn :: txn in r.mgrs && Backup(c, r.self, txn) && Ready(r.mgrs[txn]) ==> txn in r.advanced)
    && c.Primary(r.nextSend) == r.self
    && (r.incomplete > 0 ==> c.Primary(r.lastSent) == r.self)
  }

  /** `r'` is `r` with the manager `txn` replaced and the view advanced if `ready`. */
  predicate Moved(r: Replica, r': Replica, txn: nat, m': Manager, ready: bool) {
    && r'.mgrs == r.mgrs[txn := m'] && r'.self == r.self && r'.nextIndex == r.nextIndex
    && r'.advanced == (if ready && m'.hash != NoHash then r.advanced + [txn] else r.advanced)
    && r'.crashed == (r.crashed || (ready && m'.hash == NoHash))
  }

  predicate SameLead(r: Replica, r': Replica) {
    r'.nextSend == r.nextSend && r'.lastSent == r.lastSent && r'.incomplete == r.incomplete
  }

  /** The one argument behind all handlers. */
  lemma MoveKeepsLog(c: Config, r: Replica, r': Replica, txn: nat, m': Manager, ready: bool)
    requires c.Valid() && LogInv(c, r) && Moved(r, r', txn, m', ready)
    requires c.Primary(r'.nextSend) == r'.self && (r'.incomplete > 0 ==> c.Primary(r'.lastSent) == r'.self)
    requires Ready(Mgr(r, txn)) ==> Ready(m') && !ready
    requires ready ==> Ready(m') && (Mgr(r, txn).generic || txn >= r.nextIndex)
    requires Ready(m') && !Ready(Mgr(r, txn)) && Backup(c, r.self, txn) ==> ready
    requires txn < r.nextIndex && !Mgr(r, txn).generic ==> !m'.generic
    ensures LogInv(c, r')
  {
    if ready {
      assert txn !in r.advanced;
    }
    forall t | t in r'.advanced ensures Spent(r', t) {
      if t != txn {
        assert Mgr(r', t) == Mgr(r, t);
      }
    }
  }

  lemma SyncKeepsLog(c: Config, r: Replica, msg: Msg)
    requires c.Valid() && LogInv(c, r) && msg.Sync?
    ensures LogInv(c, OnSync(c, r, msg))
  {
    if Counted(r, msg) {
      var m, v := Mgr(r, msg.txn), VoteIn(msg);
      var m' := CountVote(m, r.self, c.Nf(), v);
      CountFlags(m, r.self, c.Nf(), v);
      var ready := Completes(m, r.self, c.Nf(), v) && m'.proposal && m'.generic;
      var filed := if |VotersOf(m, v.hash)| == 0 && |VotersOf(m', v.hash)| == 1
                   then r.store.(txnOf := r.store.txnOf[v.hash := msg.txn]) else r.store;
      AdvanceFrame(c, PutMgr(r.(store := filed), msg.txn, m'), msg.txn, ready);
      MoveKeepsLog(c, r, OnSync(c, r, msg), msg.txn, m', ready);
    }
  }

  lemma CrashKeepsLog(c: Config, r: Replica)
    requires c.Valid() && LogInv(c, r)
    ensures LogInv(c, r.(crashed := true))
  {
    assert forall txn :: txn in r.advanced ==> Mgr(r.(crashed := true), txn) == Mgr(r, txn);
  }

  lemma ProposalKeepsLog(c: Config, r: Replica, msg: Msg)
    requires c.Valid() && LogInv(c, r) && msg.Proposal?
    ensures LogInv(c, OnProposal(c, r, msg))
  {
    var m := Mgr(r, msg.txn);
    if msg.txn - 2 <= r.nextIndex || m.proposal {
    } else if m.generic && m.hash != msg.hash {
      CrashKeepsLog(c, r);
    } else {
      var m' := m.(hash := msg.hash, proposal := true);
      var txnOf := if msg.hash in r.store.txnOf then r.store.txnOf else r.store.txnOf[msg.hash := msg.txn];
      var ready := m'.newViewed && m'.generic;
      AdvanceFrame(c, PutMgr(r.(store := r.store.(txnOf := txnOf)), msg.txn, m'), msg.txn, ready);
      MoveKeepsLog(c, r, OnProposal(c, r, msg), msg.txn, m', ready);
    }
  }

  lemma GenericKeepsLog(c: Config, r: Replica, g: Msg)
    requires c.Valid() && LogInv(c, r) && g.Generic?
    ensures LogInv(c, OnGeneric(c, r, g).r)
  {
    var m := Mgr(r, g.txn);
    if !Acceptable(c, r, g) {
    } else if m.hash != NoHash && m.hash != g.hash {
      CrashKeepsLog(c, r);
    } else {
      var m1 := m.(hash := g.hash, high := g.high, generic := true);
      var m2 := VoteFor(c, r.self, r.view, m1);
      CastFlags(m1, r.self, c.Nf(), r.self == c.Primary(r.view + 1));
      GenericMoves(c, r, g, m2);
      MoveKeepsLog(c, r, OnGeneric(c, r, g).r, g.txn, m2, m2.newViewed && m2.proposal);
    }
  }

  lemma GenericMoves(c: Config, r: Replica, g: Msg, m2: Manager)
    requires c.Valid() && g.Generic? && Acceptable(c, r, g)
    requires var m := Mgr(r, g.txn);
      && (m.hash == NoHash || m.hash == g.hash)
      && m2 == VoteFor(c, r.self, r.view, m.(hash := g.hash, high := g.high, generic := true))
    ensures var r' := OnGeneric(c, r, g).r;
      Moved(r, r', g.txn, m2, m2.newViewed && m2.proposal) && SameLead(r, r')
  {
    AdvanceFrame(c, PutMgr(r.(store := Extend(c, r, g)), g.txn, m2), g.txn, m2.newViewed && m2.proposal);
  }

  lemma ProposeKeepsLog(c: Config, r: Replica, hash: Hash)
    requires c.Valid() && LogInv(c, r) && hash != NoHash
    ensures LogInv(c, Propose(c, r, hash).r)
  {
    var txn := c.Txn(r.nextSend);
    PrimaryPeriod(c, r.nextSend);
    assert !Backup(c, r.self, txn);
    var m' := Mgr(r, txn).(hash := hash, proposal := true);
    MoveKeepsLog(c, r, Propose(c, r, hash).r, txn, m', false);
  }

  lemma LeadKeepsLog(c: Config, r: Replica)
    requires c.Valid() && LogInv(c, r) && r.incomplete != 0
    ensures LogInv(c, Lead(c, r).r)
  {
    var txn := c.Txn(r.lastSent);
    var m, r1 := Mgr(r, txn), r.(incomplete := r.incomplete - 1);
    assert !Backup(c, r.self, txn);
    assert LogInv(c, r1) by {
      assert forall t :: t in r.advanced ==> Mgr(r1, t) == Mgr(r, t);
    }
    if txn <= r.nextIndex {
    } else if m.hash == NoHash {
      CrashKeepsLog(c, r1);
    } else {
      var m1 := m.(high := r.store.prepared, generic := true);
      CastFlags(m1, r.self, c.Nf(), r.self == c.Primary(r.view + 1));
      MoveKeepsLog(c, r, Lead(c, r).r, txn, VoteFor(c, r.self, r.view, m1), false);
    }
  }

  lemma ReleaseKeepsLog(c: Config, r: Replica, txn: nat)
    requires c.Valid() && LogInv(c, r) && CanRelease(r, txn)
    ensures LogInv(c, Release(r, txn))
  {
    var r' := Release(r, txn);
    forall t | t in r'.advanced ensures Spent(r', t) {
      if t != txn {
        assert Mgr(r', t) == Mgr(r, t);
      }
    }
  }

  lemma OtherKeepsLog(c: Config, r: Replica, r': Replica)
    requires c.Valid() && LogInv(c, r) && SameLead(r, r')
    requires r'.mgrs == r.mgrs && r'.self == r.self && r'.nextIndex >= r.nextIndex
    requires r'.advanced == r.advanced && r'.crashed == r.crashed
    ensures LogInv(c, r')
  {
    assert forall t :: t in r.advanced ==> Mgr(r', t) == Mgr(r, t);
  }

  lemma ActKeepsLog(c: Config, r: Replica, step: Step)
    requires c.Valid() && LogInv(c, r)
    requires step.DoRelease? ==> CanRelease(r, step.txn)
    requires step.DoPropose? ==> step.hash != NoHash
    ensures LogInv(c, Act(c, r, step).r)
  {
    match step
    case Deliver(_, msg) =>
      if msg.Generic? {
        GenericKeepsLog(c, r, msg);
      } else if msg.Sync? {
        SyncKeepsLog(c, r, msg);
      } else {
        ProposalKeepsLog(c, r, msg);
      }
    case DoPropose(_, hash) => ProposeKeepsLog(c, r, hash);
    case DoLead(_) =>
      if r.incomplete != 0 {
        LeadKeepsLog(c, r);
      }
    case DoExecute(_) => OtherKeepsLog(c, r, Execute(c, r));
    case DoRelease(_, txn) => ReleaseKeepsLog(c, r, txn);
    case DoFail(_, view, voter) => OtherKeepsLog(c, r, OnFailed(c, r, view, voter));
  }

  lemma BootLog(c: Config, i: nat)
    requires c.Valid() && i < c.nodes
    ensures LogInv(c, Boot(c, i))
  {
    FirstLed(c, i);
  }

  lemma {:induction false} RunKeepsLog(c: Config, faulty: set<nat>, steps: seq<Step>)
    requires c.Valid()
    ensures var s := Run(c, faulty, steps);
      |s.reps| == c.nodes && forall i :: 0 <= i < c.nodes ==> s.reps[i].self == i && LogInv(c, s.reps[i])
  {
    RunShape(c, faulty, steps);
    if steps == [] {
      forall i | 0 <= i < c.nodes ensures LogInv(c, Init(c).reps[i]) {
        BootLog(c, i);
      }
    } else {
      var k := |steps| - 1;
      RunKeepsLog(c, faulty, steps[..k]);
      var s := Run(c, faulty, steps[..k]);
      if Enabled(c, faulty, s, steps[k]) {
        ActKeepsLog(c, s.reps[steps[k].i], steps[k]);
      }
    }
  }

  /** Exactly-once view advance: in every run, whatever faulty replicas send and
      in whatever order proposal, leader message and votes arrive, no manager
      advances the view twice; and after every step a running backup has
      advanced on an unexecuted slot exactly if quorum, proposal and leader
      message are all there. */
  lemma AdvanceExactlyOnce(c: Config, faulty: set<nat>, steps: seq<Step>, i: nat, txn: nat)
    requires c.Valid() && i < c.nodes
    ensures var s := Run(c, faulty, steps);
      && i < |s.reps| && NoDup(s.reps[i].advanced)
      && (!s.reps[i].crashed && Backup(c, i, txn) && txn >= s.reps[i].nextIndex ==>
          (txn in s.reps[i].advanced <==> Ready(Mgr(s.reps[i], txn))))
  {
    RunKeepsLog(c, faulty, steps);
  }

  /** The leader itself is different: when its own vote completes the quorum, as
      in a group of two, nothing advances its view. */
  lemma LeaderMissesOwnQuorum()
    ensures var c := Config(2, 1, 0, 5);
      var s := Run(c, {}, [DoPropose(0, Hash(0)), DoLead(0)]);
      |s.reps| == 2 && var r := s.reps[0]; Ready(Mgr(r, c.Txn(0))) && r.advanced == [] && r.view == 0
  {
    var c := Config(2, 1, 0, 5);
    var steps := [DoPropose(0, Hash(0)), DoLead(0)];
    assert steps[..1] == [DoPropose(0, Hash(0))];
    assert [DoPropose(0, Hash(0))][..0] == [];
    var s0 := Init(c);
    assert s0.reps[0] == Boot(c, 0);
    var s1 := Next(c, {}, s0, steps[0]);
    assert Run(c, {}, steps[..1]) == s1;
    var r1 := s1.reps[0];
    assert r1 == Propose(c, Boot(c, 0), Hash(0)).r;
    assert c.Nf() == 1;
    assert VotersOf(Fresh(), Hash(0)) + [0] == [0];
    assert Run(c, {}, steps) == Next(c, {}, s1, DoLead(0));
  }
}
