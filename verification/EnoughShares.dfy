/** The leader of the next view collects a quorum of signature shares: votes travel with their
    share to it, and its clean-up takes out none of the quorum. */
module EnoughShares {
  import opened Cluster
  import opened Certificate
  import opened VoteManager
  import opened Replica
  import opened System
  import opened AdvanceOnce
  import opened Agreement
  import opened Outcome
  import opened Signatures
  import opened Sequences
  import Leader

  // ----- One manager -----------------------------------------------------------

  /** Every correct voter of batch `h` has its share here. */
  ghost predicate Covered(faulty: set<nat>, m: Manager, h: Hash) {
    h in m.voters && forall s :: s in m.voters[h] && s !in faulty ==> s in m.shares
  }

  ghost predicate AllCovered(faulty: set<nat>, m: Manager) {
    forall h :: h in m.voters ==> Covered(faulty, m, h)
  }

  ghost predicate QuorumCovered(faulty: set<nat>, m: Manager, nf: nat) {
    exists h :: Covered(faulty, m, h) && |m.voters[h]| >= nf
  }

  /** Until the quorum is complete all batches are covered, and then one with a quorum is. */
  ghost predicate Full(faulty: set<nat>, nf: nat, m: Manager) {
    if m.newViewed then QuorumCovered(faulty, m, nf) else AllCovered(faulty, m)
  }

  lemma RecordCovers(faulty: set<nat>, m: Manager, self: nat, v: Vote)
    requires AllCovered(faulty, m) && (m.hash == NoHash || m.hash == v.hash) && (v.from !in faulty ==> v.sig.Some?)
    ensures AllCovered(faulty, Record(m, self, v))
  {
    var r := Record(m, self, v);
    forall h | h in r.voters ensures Covered(faulty, r, h) {
      if h in m.voters {
        assert Covered(faulty, m, h);
      }
    }
  }

  lemma CountCovers(faulty: set<nat>, m: Manager, self: nat, nf: nat, v: Vote)
    requires Sound(m, self, nf) && nf >= 1 && Validated(v) && Full(faulty, nf, m)
    requires (m.hash == NoHash || m.hash == v.hash) && (v.from !in faulty ==> v.sig.Some?)
    ensures Full(faulty, nf, CountVote(m, self, nf, v))
  {
    var m' := CountVote(m, self, nf, v);
    if m.newViewed {
      assert m' == m;
    } else if Duplicate(m, self, v.from) {
      assert forall h :: h in m'.voters ==> Covered(faulty, m, h);
    } else {
      RecordCovers(faulty, m, self, v);
      if Completes(m, self, nf, v) {
        var r := Record(m, self, v);
        CompletedQuorumIsClean(m, self, nf, v);
        assert Covered(faulty, r, v.hash);
        assert Covered(faulty, m', v.hash);
      }
    }
  }

  lemma CastCovers(faulty: set<nat>, m: Manager, self: nat, nf: nat)
    requires Sound(m, self, nf) && nf >= 1 && Full(faulty, nf, m)
    ensures Full(faulty, nf, CastVote(m, self, nf, true))
  {
    if !m.syncSent {
      var m' := CastVote(m, self, nf, true);
      CastVoteKeepsSound(m, self, nf, true);
      forall h | h in m'.voters && (h in m.voters ==> Covered(faulty, m, h)) ensures Covered(faulty, m', h) {
      }
      if m.newViewed {
        var h :| Covered(faulty, m, h) && |m.voters[h]| >= nf;
        assert Covered(faulty, m', h) && |m'.voters[h]| >= nf;
      } else if m'.newViewed {
        var h :| h in m'.voters && |m'.voters[h]| == m'.voteCnt;
        assert Covered(faulty, m', h);
      }
    }
  }

  lemma FreshIsFull(faulty: set<nat>, nf: nat)
    ensures Full(faulty, nf, Fresh())
  {
  }

  /** The quorum's voters are faulty, or have their share here. */
  lemma FullIsEnough(faulty: set<nat>, m: Manager, self: nat, nf: nat)
    requires Sound(m, self, nf) && Full(faulty, nf, m) && m.newViewed
    ensures |m.shares| + |faulty| >= nf
  {
    var h :| Covered(faulty, m, h) && |m.voters[h]| >= nf;
    var list, all := m.voters[h], m.shares.Keys + faulty;
    assert forall i :: 0 <= i < |list| ==> list[i] in all;
    ListSize(list, all);
    assert |all| <= |m.shares.Keys| + |faulty|;
  }

  // ----- The leader of the next view -------------------------------------------

  /** Replica `i` leads the view after that of the slot. */
  ghost predicate Follower(c: Config, i: nat, txn: nat)
    requires c.Valid()
  {
    exists u: nat :: txn == c.Txn(u) && IsNext(c, u, i)
  }

  predicate IsNext(c: Config, view: nat, i: nat)
    requires c.Valid()
  {
    c.Primary(view + 1) == i
  }

  lemma NextPrimary(c: Config, v: nat, w: nat)
    requires c.Valid() && c.Primary(v) == c.Primary(w)
    ensures c.Primary(v + 1) == c.Primary(w + 1)
  {
    NextMod(v + c.instance, c.nodes);
    NextMod(w + c.instance, c.nodes);
  }

  lemma NextMod(x: nat, n: nat)
    requires n >= 1
    ensures (x + 1) % n == if x % n + 1 == n then 0 else x % n + 1
  {
    var q, r := x / n, x % n;
    assert x == q * n + r;
    if r + 1 == n {
      assert x + 1 == (q + 1) * n + 0;
      ModUnique(x + 1, n, q + 1, 0);
    } else {
      ModUnique(x + 1, n, q, r + 1);
    }
  }

  /** In a view led by the leader of the slot the votes go, signed, to the follower. */
  lemma FollowerIff(c: Config, view: nat, i: nat, txn: nat)
    requires c.Valid() && Leader.Leads(c, c.Primary(view), txn)
    ensures Follower(c, i, txn) <==> i == c.Primary(view + 1)
  {
    var v: nat :| txn == c.Txn(v) && c.Primary(v) == c.Primary(view);
    NextPrimary(c, v, view);
    if Follower(c, i, txn) {
      var u: nat :| txn == c.Txn(u) && IsNext(c, u, i);
      if u < v {
        TxnMonotone(c, u, v);
      } else if v < u {
        TxnMonotone(c, v, u);
      }
    } else {
      assert IsNext(c, v, c.Primary(v + 1));
    }
  }

  // ----- Steps -----------------------------------------------------------------

  /** Correct votes for the slot that reach replica `a` are signed. */
  ghost predicate SignedFor(sent: set<Msg>, txn: nat, a: nat) {
    forall m :: m in sent && m.Sync? && m.txn == txn && m.to == a ==> m.sig.Some?
  }

  ghost predicate FullAt(c: Config, faulty: set<nat>, s: Sys, txn: nat, a: nat)
    requires c.Valid()
  {
    a < |s.reps| && Full(faulty, c.Nf(), Mgr(s.reps[a], txn)) && SignedFor(s.sent, txn, a)
  }

  /** Leader messages of faulty replicas for the slot come from its leader. */
  ghost predicate LedStep(c: Config, faulty: set<nat>, step: Step, txn: nat)
    requires c.Valid()
  {
    step.Deliver? && step.msg.Generic? && step.msg.txn == txn && step.msg.from in faulty ==> Leader.Leads(c, step.msg.from, txn)
  }

  /** A vote for the slot is cast in a view its leader leads. */
  lemma CastInLedView(c: Config, faulty: set<nat>, s: Sys, step: Step, txn: nat)
    requires c.Valid() && Leader.NetInv(c, s) && Enabled(c, faulty, s, step) && LogInv(c, s.reps[step.i])
    requires LedStep(c, faulty, step, txn)
    ensures var ch := ChangeOf(c, s.reps[step.i], step);
      ch.Some? && ch.value.cast && ch.value.txn == txn ==> Leader.Leads(c, c.Primary(s.reps[step.i].view), txn)
  {
    var r := s.reps[step.i];
    if step.DoLead? {
      assert txn == c.Txn(r.lastSent) ==> Leader.Leads(c, r.self, txn);
    } else if step.Deliver? && step.msg.Generic? && step.msg.from !in faulty {
      assert Leader.WellSent(c, s.reps, step.msg);
    }
  }

  /** So if it is the follower's own it is kept, and if it is sent to the follower it is signed. */
  lemma CastIsSigned(c: Config, faulty: set<nat>, s: Sys, step: Step, txn: nat, a: nat)
    requires c.Valid() && Leader.NetInv(c, s) && Enabled(c, faulty, s, step) && LogInv(c, s.reps[step.i])
    requires LedStep(c, faulty, step, txn) && Follower(c, a, txn)
    ensures var ch := ChangeOf(c, s.reps[step.i], step);
      ch.Some? && ch.value.cast && ch.value.txn == txn && step.i == a ==> ch.value.leadsNext
    ensures SignedFor(Act(c, s.reps[step.i], step).out, txn, a)
  {
    var r := s.reps[step.i];
    var ch := ChangeOf(c, r, step);
    CastInLedView(c, faulty, s, step, txn);
    if ch.Some? && ch.value.cast && ch.value.txn == txn {
      FollowerIff(c, r.view, a, txn);
    }
    forall m | m in Act(c, r, step).out && m.Sync? && m.txn == txn && m.to == a ensures m.sig.Some? {
      OutIsBallot(c, r, step, m);
      BallotIsSigned(c, r.self, r.view, ch.value.txn, ch.value.base, m);
    }
  }

  lemma OutIsBallot(c: Config, r: Replica, step: Step, m: Msg)
    requires c.Valid() && m in Act(c, r, step).out && m.Sync?
    ensures var ch := ChangeOf(c, r, step);
      ch.Some? && ch.value.cast && m in Ballots(c, r.self, r.view, ch.value.txn, ch.value.base)
  {
  }

  lemma BallotIsSigned(c: Config, self: nat, view: nat, txn: nat, m: Manager, out: Msg)
    requires c.Valid() && out in Ballots(c, self, view, txn, m)
    ensures out.Sync? && out.txn == txn && (out.sig.Some? <==> out.to == c.Primary(view + 1))
  {
  }

  lemma ChangedIsFull(c: Config, faulty: set<nat>, self: nat, ch: Change)
    requires c.Valid() && Sound(ch.base, self, c.Nf()) && Full(faulty, c.Nf(), ch.base)
    requires ch.cast ==> ch.leadsNext
    requires ch.vote.Some? ==>
      && Validated(ch.vote.value) && (ch.base.hash == NoHash || ch.base.hash == ch.vote.value.hash)
      && (ch.vote.value.from !in faulty ==> ch.vote.value.sig.Some?)
    ensures Full(faulty, c.Nf(), Changed(c, self, ch))
  {
    if ch.cast {
      CastCovers(faulty, ch.base, self, c.Nf());
    } else if ch.vote.Some? {
      CountCovers(faulty, ch.base, self, c.Nf(), ch.vote.value);
    }
  }

  lemma SameIsFull(faulty: set<nat>, nf: nat, m: Manager, n: Manager)
    requires SameVotes(m, n) && Full(faulty, nf, m)
    ensures Full(faulty, nf, n)
  {
    assert forall h :: Covered(faulty, m, h) ==> Covered(faulty, n, h);
  }

  lemma FollowerKeepsFull(c: Config, faulty: set<nat>, s: Sys, step: Step, txn: nat, a: nat)
    requires c.Valid() && Agreement.Inv(c, faulty, s) && Leader.NetInv(c, s) && Enabled(c, faulty, s, step) && step.i == a
    requires LogInv(c, s.reps[a]) && LedStep(c, faulty, step, txn) && Follower(c, a, txn) && FullAt(c, faulty, s, txn, a)
    ensures Full(faulty, c.Nf(), Mgr(Act(c, s.reps[a], step).r, txn))
  {
    var r := s.reps[a];
    FreshIsFull(faulty, c.Nf());
    FreshIsSound(a, c.Nf());
    if !step.DoRelease? {
      ChangeIsAll(c, r, step);
      var ch := ChangeOf(c, r, step);
      if ch.Some? && ch.value.txn == txn {
        CastIsSigned(c, faulty, s, step, txn, a);
        assert ReplicaInv(c, faulty, s.votes, r);
        SameIsFull(faulty, c.Nf(), Mgr(r, txn), ch.value.base);
        SoundTransfers(Mgr(r, txn), ch.value.base, a, c.Nf());
        ChangedIsFull(c, faulty, a, ch.value);
      }
    }
  }

  lemma NextKeepsFull(c: Config, faulty: set<nat>, s: Sys, step: Step, txn: nat, a: nat)
    requires c.Valid() && Agreement.Inv(c, faulty, s) && Leader.NetInv(c, s) && FullAt(c, faulty, s, txn, a)
    requires Follower(c, a, txn) && a < c.nodes
    requires Enabled(c, faulty, s, step) ==> LedStep(c, faulty, step, txn) && LogInv(c, s.reps[step.i])
    ensures FullAt(c, faulty, Next(c, faulty, s, step), txn, a)
  {
    if Enabled(c, faulty, s, step) {
      CastIsSigned(c, faulty, s, step, txn, a);
      if step.i == a {
        FollowerKeepsFull(c, faulty, s, step, txn, a);
      }
    }
  }

  // ----- Whole runs ------------------------------------------------------------

  /** In the run, leader messages of faulty replicas for the slot come from its leader. */
  ghost predicate LedRun(c: Config, faulty: set<nat>, steps: seq<Step>, txn: nat)
    requires c.Valid()
  {
    forall k :: 0 <= k < |steps| && Moves(c, faulty, steps, k, steps[k].i) ==> LedStep(c, faulty, steps[k], txn)
  }

  lemma {:induction false} RunKeepsFull(c: Config, faulty: set<nat>, steps: seq<Step>, n: nat, txn: nat, a: nat)
    requires c.Valid() && n <= |steps| && a < c.nodes && Follower(c, a, txn) && LedRun(c, faulty, steps, txn)
    ensures FullAt(c, faulty, Run(c, faulty, steps[..n]), txn, a)
  {
    if n > 0 {
      RunKeepsFull(c, faulty, steps, n - 1, txn, a);
      FullOneMore(c, faulty, steps, n - 1, txn, a);
    } else {
      RunShape(c, faulty, steps[..0]);
      assert steps[..0] == [];
      FreshIsFull(faulty, c.Nf());
    }
  }

  lemma FullOneMore(c: Config, faulty: set<nat>, steps: seq<Step>, k: nat, txn: nat, a: nat)
    requires c.Valid() && k < |steps| && a < c.nodes && Follower(c, a, txn) && LedRun(c, faulty, steps, txn)
    requires FullAt(c, faulty, Run(c, faulty, steps[..k]), txn, a)
    ensures FullAt(c, faulty, Run(c, faulty, steps[..k + 1]), txn, a)
  {
    assert steps[..k + 1][..k] == steps[..k];
    RunKeepsInv(c, faulty, steps[..k]);
    RunKeepsLog(c, faulty, steps[..k]);
    Leader.RunKeepsNet(c, faulty, steps[..k]);
    assert Enabled(c, faulty, Run(c, faulty, steps[..k]), steps[k]) ==> Moves(c, faulty, steps, k, steps[k].i);
    NextKeepsFull(c, faulty, Run(c, faulty, steps[..k]), steps[k], txn, a);
  }

  /** In every run in which faulty replicas send no leader messages for slots of others: the
      certificate that the leader of the next view forms carries a share of every correct replica
      of a quorum. */
  lemma FollowerHasShares(c: Config, faulty: set<nat>, steps: seq<Step>, l: nat, a: nat, txn: nat, qc: Cert)
    requires c.Valid() && a < c.nodes && FormsAt(c, faulty, steps, l, a, txn, qc)
    requires Follower(c, a, txn) && LedRun(c, faulty, steps, txn)
    ensures |qc.shares| + |faulty| >= c.Nf()
  {
    RunKeepsFull(c, faulty, steps, l + 1, txn, a);
    RunKeepsInv(c, faulty, steps[..l + 1]);
    var m := FormedFrom(c, faulty, steps, l, a, txn, qc);
    assert ReplicaInv(c, faulty, Run(c, faulty, steps[..l + 1]).votes, Run(c, faulty, steps[..l + 1]).reps[a]);
    FullIsEnough(faulty, m, a, c.Nf());
  }

  /** Without faulty replicas: at least a quorum of shares. */
  lemma FollowerHasQuorum(c: Config, steps: seq<Step>, l: nat, a: nat, txn: nat, qc: Cert)
    requires c.Valid() && a < c.nodes && FormsAt(c, {}, steps, l, a, txn, qc) && Follower(c, a, txn)
    ensures |qc.shares| >= c.Nf()
  {
    FollowerHasShares(c, {}, steps, l, a, txn, qc);
  }
}
