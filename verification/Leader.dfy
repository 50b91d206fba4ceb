/** The leader's own vote: `process_hotstuff_generic_p` casts it without looking whether the
    quorum is complete, and nothing else ends the leader's view on that slot. */
module Leader {
  import opened Cluster
  import opened Certificate
  import opened VoteManager
  import opened Replica
  import opened System
  import opened Agreement
  import opened AdvanceOnce
  import opened Sequences

  function Leading(c: Config, r: Replica): nat
    requires c.Valid()
  {
    c.Txn(r.lastSent)
  }

  /** The leader's step ends with everything there and the view not advanced. */
  predicate Misses(c: Config, r: Replica)
    requires c.Valid() && r.incomplete != 0
  {
    var r' := Lead(c, r).r;
    Ready(Mgr(r', Leading(c, r))) && Leading(c, r) !in r'.advanced
  }

  // ----- What the leader's step relies on ---------------------------------------

  /** A leader message is taken up or sent together with the own vote; the slot proposed
      last is known, or was executed. */
  ghost predicate LeadInv(c: Config, r: Replica)
    requires c.Valid()
  {
    && (forall txn :: txn in r.mgrs ==> r.mgrs[txn].syncSent == r.mgrs[txn].generic)
    && (r.incomplete > 0 ==> Known(r, Leading(c, r)))
  }

  predicate Known(r: Replica, txn: nat) {
    (Mgr(r, txn).proposal && Mgr(r, txn).hash != NoHash) || txn < r.nextIndex
  }

  /** The one change of a step, as far as the flags of a manager go. */
  ghost predicate Steady(m: Manager, m': Manager, cast: bool) {
    && m'.generic == (m.generic || cast) && m'.syncSent == (m.syncSent || cast)
    && (m.proposal && m.hash != NoHash ==> m'.proposal && m'.hash != NoHash)
  }

  lemma ChangeIsSteady(c: Config, r: Replica, step: Step)
    requires c.Valid() && (step.DoPropose? ==> step.hash != NoHash)
    ensures var ch := ChangeOf(c, r, step);
      ch.Some? ==> Steady(Mgr(r, ch.value.txn), Changed(c, r.self, ch.value), ch.value.cast)
  {
    var ch := ChangeOf(c, r, step);
    if ch.Some? {
      SyncSentStays(c, r.self, ch.value);
    }
  }

  lemma KnownStays(c: Config, r: Replica, step: Step, txn: nat)
    requires c.Valid() && !step.DoRelease? && (step.DoPropose? ==> step.hash != NoHash)
    ensures var r' := Act(c, r, step).r;
      && (Known(r, txn) ==> Known(r', txn))
      && (Mgr(r, txn).generic ==> Mgr(r', txn).generic)
  {
    ChangeIsSteady(c, r, step);
    ChangeIsAll(c, r, step);
  }

  lemma ActKeepsLead(c: Config, r: Replica, step: Step)
    requires c.Valid() && LeadInv(c, r) && (step.DoPropose? ==> step.hash != NoHash)
    requires step.DoRelease? ==> CanRelease(r, step.txn)
    ensures LeadInv(c, Act(c, r, step).r)
  {
    if !step.DoRelease? {
      ChangeIsSteady(c, r, step);
      ChangeIsAll(c, r, step);
      KnownStays(c, r, step, Leading(c, r));
      SameLeadUnless(c, r, step);
    }
  }

  /** Only the leader's own steps change what it leads. */
  lemma SameLeadUnless(c: Config, r: Replica, step: Step)
    requires c.Valid()
    ensures var r' := Act(c, r, step).r;
      && (!step.DoPropose? ==> r'.lastSent == r.lastSent && r'.incomplete <= r.incomplete)
      && (step.DoPropose? ==> Mgr(r', Leading(c, r')).proposal && Mgr(r', Leading(c, r')).hash == step.hash)
  {
    if step.Deliver? {
      DeliverKeepsLead(c, r, step.i, step.msg);
    }
  }

  lemma DeliverKeepsLead(c: Config, r: Replica, i: nat, msg: Msg)
    requires c.Valid()
    ensures SameLead(r, Act(c, r, Deliver(i, msg)).r)
  {
  }

  // ----- Leader messages in the network -----------------------------------------

  /** `i` leads the slot of `txn`. */
  ghost predicate Leads(c: Config, i: nat, txn: nat)
    requires c.Valid()
  {
    exists v: nat :: txn == c.Txn(v) && c.Primary(v) == i
  }

  /** A slot has one leader. */
  lemma OneLeader(c: Config, i: nat, j: nat, txn: nat)
    requires c.Valid() && Leads(c, i, txn) && Leads(c, j, txn)
    ensures i == j
  {
    var v: nat :| txn == c.Txn(v) && c.Primary(v) == i;
    var w: nat :| txn == c.Txn(w) && c.Primary(w) == j;
    if v < w {
      TxnMonotone(c, v, w);
    } else if w < v {
      TxnMonotone(c, w, v);
    }
  }

  /** The sender of a leader message leads the slot and has cast its own vote. */
  ghost predicate WellSent(c: Config, reps: seq<Replica>, g: Msg)
    requires c.Valid() && g.Generic?
  {
    && g.from < |reps| && Leads(c, g.from, g.txn)
    && (Mgr(reps[g.from], g.txn).generic || g.txn < reps[g.from].nextIndex)
  }

  ghost predicate NetInv(c: Config, s: Sys)
    requires c.Valid()
  {
    && |s.reps| == c.nodes
    && (forall i :: 0 <= i < c.nodes ==> s.reps[i].self == i && LeadInv(c, s.reps[i]))
    && (forall g :: g in s.sent && g.Generic? ==> WellSent(c, s.reps, g))
  }

  lemma SentByLead(c: Config, r: Replica, step: Step, g: Msg)
    requires c.Valid() && LogInv(c, r) && g in Act(c, r, step).out && g.Generic?
    ensures g.from == r.self && Leads(c, r.self, g.txn) && Mgr(Act(c, r, step).r, g.txn).generic
  {
    assert step.DoLead?;
    assert g.txn == Leading(c, r);
  }

  lemma WellSentStays(c: Config, s: Sys, step: Step, g: Msg)
    requires c.Valid() && step.i < |s.reps| && g.Generic? && WellSent(c, s.reps, g)
    requires step.DoPropose? ==> step.hash != NoHash
    requires step.DoRelease? ==> CanRelease(s.reps[step.i], step.txn)
    ensures WellSent(c, s.reps[step.i := Act(c, s.reps[step.i], step).r], g)
  {
    var r := s.reps[step.i];
    if g.from == step.i && !step.DoRelease? {
      KnownStays(c, r, step, g.txn);
      ChangeIsAll(c, r, step);
    }
  }

  lemma {:induction false} RunKeepsNet(c: Config, faulty: set<nat>, steps: seq<Step>)
    requires c.Valid()
    ensures NetInv(c, Run(c, faulty, steps))
  {
    RunShape(c, faulty, steps);
    if steps != [] {
      var k := |steps| - 1;
      RunKeepsNet(c, faulty, steps[..k]);
      RunKeepsLog(c, faulty, steps[..k]);
      var s := Run(c, faulty, steps[..k]);
      if Enabled(c, faulty, s, steps[k]) {
        NextKeepsNet(c, faulty, s, steps[k]);
      }
    }
  }

  lemma NextKeepsNet(c: Config, faulty: set<nat>, s: Sys, step: Step)
    requires c.Valid() && NetInv(c, s) && Enabled(c, faulty, s, step) && LogInv(c, s.reps[step.i])
    ensures NetInv(c, Next(c, faulty, s, step))
  {
    var r, s' := s.reps[step.i], Next(c, faulty, s, step);
    SelfKept(c, r, step);
    ActKeepsLead(c, r, step);
    forall g | g in s'.sent && g.Generic? ensures WellSent(c, s'.reps, g) {
      if g in s.sent {
        WellSentStays(c, s, step, g);
      } else {
        SentByLead(c, r, step, g);
      }
    }
  }

  // ----- When a leader misses its quorum ----------------------------------------

  /** In one step: a leader whose slot is not executed is left complete and unadvanced exactly
      if the quorum was there before its own vote or is completed by it. A repeated step
      changes nothing. Neither moves the view. */
  lemma LeadMissesIff(c: Config, faulty: set<nat>, steps: seq<Step>, i: nat)
    requires c.Valid() && i < c.nodes && i !in faulty
    requires var s := Run(c, faulty, steps);
      i < |s.reps| && s.reps[i].incomplete != 0 && Leading(c, s.reps[i]) > s.reps[i].nextIndex
    ensures var r := Run(c, faulty, steps).reps[i];
      var m := Mgr(r, Leading(c, r));
      && (Misses(c, r) <==>
            if m.generic then m.newViewed && Leading(c, r) !in r.advanced
            else m.newViewed || |VotersOf(m, m.hash)| + 1 == c.Nf())
      && Lead(c, r).r.view == r.view && Lead(c, r).r.advanced == r.advanced
  {
    RunKeepsNet(c, faulty, steps);
    RunKeepsLog(c, faulty, steps);
    RunKeepsInv(c, faulty, steps);
    var r := Run(c, faulty, steps).reps[i];
    var m := Mgr(r, Leading(c, r));
    assert LeadInv(c, r) && LogInv(c, r) && ReplicaInv(c, faulty, Run(c, faulty, steps).votes, r);
    FreshIsSound(i, c.Nf());
    LeadCounts(c, r);
  }

  lemma LeadCounts(c: Config, r: Replica)
    requires c.Valid() && r.incomplete != 0 && Leading(c, r) > r.nextIndex
    requires var m := Mgr(r, Leading(c, r));
      && m.syncSent == m.generic && m.proposal && m.hash != NoHash && Sound(m, r.self, c.Nf())
      && (!m.generic ==> Leading(c, r) !in r.advanced)
    ensures var m := Mgr(r, Leading(c, r));
      && (Misses(c, r) <==>
            if m.generic then m.newViewed && Leading(c, r) !in r.advanced
            else m.newViewed || |VotersOf(m, m.hash)| + 1 == c.Nf())
      && Lead(c, r).r.view == r.view && Lead(c, r).r.advanced == r.advanced
  {
    var m := Mgr(r, Leading(c, r));
    if !m.generic && !m.newViewed {
      assert |VotersOf(m, m.hash)| <= m.voteCnt < c.Nf();
    }
  }

  /** The step of the run in which a vote was cast. */
  lemma {:induction false} WhenCast(c: Config, faulty: set<nat>, steps: seq<Step>, b: Ballot) returns (k: nat)
    requires c.Valid() && b in Run(c, faulty, steps).votes
    ensures VotesAt(c, faulty, steps, k, b.voter, b.txn)
  {
    var n := |steps| - 1;
    RunShape(c, faulty, steps);
    assert steps != [];
    if b in Run(c, faulty, steps[..n]).votes {
      k := WhenCast(c, faulty, steps[..n], b);
      assert steps[..n][..k] == steps[..k];
    } else {
      k := n;
      RunShape(c, faulty, steps[..n]);
      VotesOfChange(c, Run(c, faulty, steps[..n]).reps[steps[n].i], steps[n]);
    }
  }

  /** Step `k` delivers a leader message for the slot from a faulty sender to a correct
      replica, which votes for it. */
  ghost predicate MisledAt(c: Config, faulty: set<nat>, steps: seq<Step>, k: nat, txn: nat)
    requires c.Valid()
  {
    && k < |steps| && steps[k].Deliver? && steps[k].i !in faulty
    && steps[k].msg.Generic? && steps[k].msg.txn == txn && steps[k].msg.from in faulty
    && VotesAt(c, faulty, steps, k, steps[k].i, txn)
  }

  /** A replica is about to send its first leader message for a slot not executed. */
  ghost predicate FirstLead(c: Config, s: Sys, i: nat)
    requires c.Valid()
  {
    && i < |s.reps| && s.reps[i].incomplete != 0 && Leading(c, s.reps[i]) > s.reps[i].nextIndex
    && !Mgr(s.reps[i], Leading(c, s.reps[i])).generic
  }

  /** Before the leader has sent its message, only a message of a faulty replica can make a
      correct one vote. */
  lemma EarlyVoteIsMisled(c: Config, faulty: set<nat>, steps: seq<Step>, i: nat, h: Hash, j: nat) returns (k: nat)
    requires c.Valid() && i < c.nodes && FirstLead(c, Run(c, faulty, steps), i) && j !in faulty
    requires Ballot(j, Leading(c, Run(c, faulty, steps).reps[i]), h) in Run(c, faulty, steps).votes
    ensures MisledAt(c, faulty, steps, k, Leading(c, Run(c, faulty, steps).reps[i]))
  {
    var s := Run(c, faulty, steps);
    var txn := Leading(c, s.reps[i]);
    k := WhenCast(c, faulty, steps, Ballot(j, txn, h));
    var was := Run(c, faulty, steps[..k]);
    RunKeepsNet(c, faulty, steps);
    RunKeepsLog(c, faulty, steps);
    RunKeepsLog(c, faulty, steps[..k]);
    assert Leads(c, i, txn);
    VoterAndLeader(c, faulty, steps, i, j, k, txn);
  }

  lemma {:induction false} SentGrows(c: Config, faulty: set<nat>, steps: seq<Step>, more: seq<Step>)
    requires c.Valid()
    ensures Run(c, faulty, steps).sent <= Run(c, faulty, steps + more).sent
  {
    if more == [] {
      assert steps + more == steps;
    } else {
      var k := |more| - 1;
      SentGrows(c, faulty, steps, more[..k]);
      assert (steps + more)[..|steps + more| - 1] == steps + more[..k];
    }
  }

  /** A leader that votes sends its message. */
  lemma LeadSends(c: Config, r: Replica, txn: nat) returns (g: Msg)
    requires c.Valid() && r.incomplete != 0 && txn == Leading(c, r) && txn > r.nextIndex && Mgr(r, txn).hash != NoHash
    ensures g in Lead(c, r).out && g.Generic? && g.from == r.self && g.txn == txn
  {
    g := Generic(r.self, txn, r.view, Mgr(r, txn).hash, r.store.prepared);
  }

  lemma SentStays(c: Config, faulty: set<nat>, steps: seq<Step>, k: nat)
    requires c.Valid() && k <= |steps|
    ensures Run(c, faulty, steps[..k]).sent <= Run(c, faulty, steps).sent
  {
    assert steps[..k] + steps[k..] == steps;
    SentGrows(c, faulty, steps[..k], steps[k..]);
  }

  lemma VoterAndLeader(c: Config, faulty: set<nat>, steps: seq<Step>, i: nat, j: nat, k: nat, txn: nat)
    requires c.Valid() && j !in faulty && VotesAt(c, faulty, steps, k, j, txn)
    requires var s := Run(c, faulty, steps); FirstLead(c, s, i) && txn == Leading(c, s.reps[i]) && Leads(c, i, txn)
    ensures MisledAt(c, faulty, steps, k, txn)
  {
    var s, was := Run(c, faulty, steps), Run(c, faulty, steps[..k]);
    RunKeepsNet(c, faulty, steps);
    RunKeepsLog(c, faulty, steps[..k]);
    SentStays(c, faulty, steps, k);
    SentStays(c, faulty, steps, k + 1);
    assert steps[..k + 1][..k] == steps[..k];
    var r := was.reps[j];
    VotesOfChange(c, r, steps[k]);
    if steps[k].DoLead? {
      var g := LeadSends(c, r, txn);
      assert g in Act(c, r, steps[k]).out;
      assert g in s.sent;
      OneLeader(c, i, g.from, txn);
      assert false;
    } else {
      var g := steps[k].msg;
      if g.from !in faulty {
        assert g in s.sent;
        OneLeader(c, i, g.from, txn);
        assert false;
      }
    }
  }

  /** Without faulty replicas a leader misses its quorum exactly in groups whose quorum is
      the leader alone. */
  lemma AllCorrectMissesIff(c: Config, steps: seq<Step>, i: nat)
    requires c.Valid() && i < c.nodes && FirstLead(c, Run(c, {}, steps), i)
    ensures Misses(c, Run(c, {}, steps).reps[i]) <==> c.Nf() == 1
  {
    LeadMissesIff(c, {}, steps, i);
    var r := Run(c, {}, steps).reps[i];
    var m := Mgr(r, Leading(c, r));
    forall h | h in m.voters ensures m.voters[h] == [] {
      if m.voters[h] != [] {
        var k := EarlyVoterIsMisled(c, {}, steps, i, h, m.voters[h][0]);
        assert false;
      }
    }
    RunKeepsInv(c, {}, steps);
    FreshIsSound(i, c.Nf());
    assert Sound(m, i, c.Nf());
  }

  /** The same of anyone in the voter lists of the leader. */
  lemma EarlyVoterIsMisled(c: Config, faulty: set<nat>, steps: seq<Step>, i: nat, h: Hash, j: nat) returns (k: nat)
    requires c.Valid() && i < c.nodes && i !in faulty && j !in faulty && FirstLead(c, Run(c, faulty, steps), i)
    requires var r := Run(c, faulty, steps).reps[i];
      var m := Mgr(r, Leading(c, r)); h in m.voters && j in m.voters[h]
    ensures MisledAt(c, faulty, steps, k, Leading(c, Run(c, faulty, steps).reps[i]))
  {
    RunKeepsInv(c, faulty, steps);
    var s := Run(c, faulty, steps);
    var txn := Leading(c, s.reps[i]);
    assert txn in s.reps[i].mgrs && Backed(c, faulty, s.votes, txn, s.reps[i].mgrs[txn]);
    k := EarlyVoteIsMisled(c, faulty, steps, i, h, j);
  }

  /** With fewer than 2*nf - n faulty replicas and quorums above one, a leader misses its
      quorum only after a faulty replica, as the leader of another view, made a correct one
      vote for the slot. */
  lemma MissNeedsFaultyLeader(c: Config, faulty: set<nat>, steps: seq<Step>, i: nat) returns (k: nat)
    requires c.Valid() && i < c.nodes && i !in faulty && |faulty| < 2 * c.Nf() - c.nodes && c.Nf() > 1
    requires FirstLead(c, Run(c, faulty, steps), i) && Misses(c, Run(c, faulty, steps).reps[i])
    ensures MisledAt(c, faulty, steps, k, Leading(c, Run(c, faulty, steps).reps[i]))
  {
    LeadMissesIff(c, faulty, steps, i);
    RunKeepsInv(c, faulty, steps);
    FreshIsSound(i, c.Nf());
    var s := Run(c, faulty, steps);
    var m := Mgr(s.reps[i], Leading(c, s.reps[i]));
    assert Sound(m, i, c.Nf());
    var h := m.hash;
    if m.newViewed {
      h :| h in m.voters && |m.voters[h]| == m.voteCnt;
    }
    assert h in m.voters && |m.voters[h]| + 1 >= c.Nf();
    var j := SomeCorrect(m.voters[h], faulty);
    k := EarlyVoterIsMisled(c, faulty, steps, i, h, j);
  }

  /** A duplicate-free list longer than the faulty set has someone outside it. */
  lemma SomeCorrect(list: seq<nat>, faulty: set<nat>) returns (j: nat)
    requires NoDup(list) && |list| > |faulty|
    ensures j in list && j !in faulty
  {
    if forall x :: 0 <= x < |list| ==> list[x] in faulty {
      ListSize(list, faulty);
      assert false;
    }
    var x :| 0 <= x < |list| && list[x] !in faulty;
    j := list[x];
  }

  // ----- What follows from a missed quorum --------------------------------------

  lemma SpentStays(c: Config, r: Replica, step: Step, txn: nat)
    requires c.Valid() && Spent(r, txn) && txn !in r.advanced
    requires step.DoPropose? ==> step.hash != NoHash
    requires step.DoRelease? ==> CanRelease(r, step.txn)
    ensures var r' := Act(c, r, step).r; Spent(r', txn) && txn !in r'.advanced
  {
    if !step.DoRelease? {
      ChangeIsAll(c, r, step);
      ChangeIsSteady(c, r, step);
      NewViewedStays(c, r, step);
      if step.Deliver? {
        NoAdvanceOnSpent(c, r, step.i, step.msg, txn);
      }
    }
  }

  lemma NewViewedStays(c: Config, r: Replica, step: Step)
    requires c.Valid()
    ensures var ch := ChangeOf(c, r, step);
      ch.Some? ==>
        && (Mgr(r, ch.value.txn).newViewed ==> Changed(c, r.self, ch.value).newViewed)
        && (Mgr(r, ch.value.txn).proposal ==> Changed(c, r.self, ch.value).proposal)
  {
  }

  lemma NoAdvanceOnSpent(c: Config, r: Replica, i: nat, msg: Msg, txn: nat)
    requires c.Valid() && Spent(r, txn)
    ensures txn in Act(c, r, Deliver(i, msg)).r.advanced ==> txn in r.advanced
  {
    if msg.Sync? {
      CountFlags(Mgr(r, msg.txn), r.self, c.Nf(), VoteIn(msg));
    }
  }

  /** A missed slot is never made up for: whatever arrives later, votes included, the view
      is not advanced on it. */
  lemma {:induction false} MissedForever(c: Config, faulty: set<nat>, steps: seq<Step>, more: seq<Step>, i: nat, txn: nat)
    requires c.Valid() && i < c.nodes
    requires var s := Run(c, faulty, steps);
      i < |s.reps| && Ready(Mgr(s.reps[i], txn)) && txn !in s.reps[i].advanced
    ensures var t := Run(c, faulty, steps + more);
      i < |t.reps| && Spent(t.reps[i], txn) && txn !in t.reps[i].advanced
  {
    if more == [] {
      assert steps + more == steps;
    } else {
      var k := |more| - 1;
      MissedForever(c, faulty, steps, more[..k], i, txn);
      assert (steps + more)[..|steps + more| - 1] == steps + more[..k];
      var t := Run(c, faulty, steps + more[..k]);
      if Enabled(c, faulty, t, more[k]) && more[k].i == i {
        SpentStays(c, t.reps[i], more[k], txn);
      }
    }
  }

  // ----- One leader's step for every proposal ------------------------------------

  /** How often replica `i` took a step of this kind. */
  ghost function Count(c: Config, faulty: set<nat>, steps: seq<Step>, i: nat, kind: Step -> bool): nat
    requires c.Valid()
  {
    if steps == [] then 0
    else
      var k := |steps| - 1;
      Count(c, faulty, steps[..k], i, kind) +
        if steps[k].i == i && kind(steps[k]) && Enabled(c, faulty, Run(c, faulty, steps[..k]), steps[k]) then 1 else 0
  }

  function IsPropose(): Step -> bool {
    (step: Step) => step.DoPropose?
  }

  function IsLead(): Step -> bool {
    (step: Step) => step.DoLead?
  }

  lemma CountStep(c: Config, r: Replica, step: Step)
    requires c.Valid() && (step.DoLead? ==> r.incomplete != 0)
    ensures Act(c, r, step).r.incomplete ==
      if step.DoPropose? then r.incomplete + 1 else if step.DoLead? then r.incomplete - 1 else r.incomplete
  {
    if step.Deliver? {
      DeliverKeepsLead(c, r, step.i, step.msg);
    }
  }

  /** Over every run a replica takes one leader's step for every batch it proposed, up to those
      it still has to take. */
  lemma {:induction false} LeadsEveryProposal(c: Config, faulty: set<nat>, steps: seq<Step>, i: nat)
    requires c.Valid() && i < c.nodes
    ensures var s := Run(c, faulty, steps);
      i < |s.reps| && Count(c, faulty, steps, i, IsLead()) + s.reps[i].incomplete == Count(c, faulty, steps, i, IsPropose())
  {
    RunShape(c, faulty, steps);
    if steps != [] {
      var k := |steps| - 1;
      LeadsEveryProposal(c, faulty, steps[..k], i);
      var s := Run(c, faulty, steps[..k]);
      if Enabled(c, faulty, s, steps[k]) {
        CountStep(c, s.reps[steps[k].i], steps[k]);
      }
    }
  }
}
