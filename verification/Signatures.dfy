/** The signature shares in the certificates of a run: whose votes they are, what they sign, and
    that the next leader collects enough of them. */
module Signatures {
  import opened Cluster
  import opened Certificate
  import opened VoteManager
  import opened Replica
  import opened System
  import opened AdvanceOnce
  import opened Agreement
  import opened Outcome
  import opened Sequences
  import Leader

  // ----- Votes and their signatures --------------------------------------------

  /** In step `k` replica `i` casts its vote for the slot of `txn`, and `x` is its signature: under
      the batch and the certificate it extends as the leader's message names them, or as the
      leader itself does. */
  ghost predicate SignsAt(c: Config, faulty: set<nat>, steps: seq<Step>, k: nat, i: nat, txn: nat, x: Share)
    requires c.Valid()
  {
    && Moves(c, faulty, steps, k, i)
    && Signs(c, Run(c, faulty, steps[..k]).reps[i], steps[k], txn, x)
  }

  ghost predicate Signs(c: Config, r: Replica, step: Step, txn: nat, x: Share)
    requires c.Valid()
  {
    && CastsVote(r, Act(c, r, step).r, txn)
    && match step
       case Deliver(_, g) => g.Generic? && g.txn == txn && x == Share(r.self, g.hash, g.high.hash, g.high.view)
       case DoLead(_) =>
         txn == c.Txn(r.lastSent) && x == Share(r.self, Mgr(r, txn).hash, r.store.prepared.hash, r.store.prepared.view)
       case _ => false
  }

  /** All signatures of the run, with their slots. */
  ghost function Signed(c: Config, faulty: set<nat>, steps: seq<Step>): iset<(nat, Share)>
    requires c.Valid()
  {
    iset k: nat, i: nat, txn: nat, x | SignsAt(c, faulty, steps, k, i, txn, x) :: (txn, x)
  }

  // ----- Where shares come from ------------------------------------------------

  /** Shares of correct replicas are signatures of the run, under their own names. */
  ghost predicate ManagerSigned(faulty: set<nat>, T: iset<(nat, Share)>, txn: nat, m: Manager) {
    forall s :: s in m.shares && s !in faulty ==> (txn, m.shares[s]) in T && m.shares[s].signer == s
  }

  ghost predicate ReplicaSigned(faulty: set<nat>, T: iset<(nat, Share)>, r: Replica) {
    forall txn :: txn in r.mgrs ==> ManagerSigned(faulty, T, txn, r.mgrs[txn])
  }

  ghost predicate SentSigned(T: iset<(nat, Share)>, sent: set<Msg>) {
    forall m :: m in sent && m.Sync? && m.sig.Some? ==> (m.txn, m.sig.value) in T && m.sig.value.signer == m.from
  }

  /** The own vote of a change is a signature of the run, and so is a share it counts. */
  ghost predicate ChangeSigned(faulty: set<nat>, T: iset<(nat, Share)>, self: nat, ch: Change) {
    && (ch.cast && !ch.base.syncSent ==> (ch.txn, Share(self, ch.base.hash, ch.base.high.hash, ch.base.high.view)) in T)
    && (!ch.cast && ch.vote.Some? && ch.vote.value.sig.Some? && ch.vote.value.from !in faulty ==>
          (ch.txn, ch.vote.value.sig.value) in T && ch.vote.value.sig.value.signer == ch.vote.value.from)
  }

  lemma ChangedIsSigned(c: Config, faulty: set<nat>, T: iset<(nat, Share)>, self: nat, ch: Change)
    requires c.Valid() && ManagerSigned(faulty, T, ch.txn, ch.base) && ChangeSigned(faulty, T, self, ch)
    ensures ManagerSigned(faulty, T, ch.txn, Changed(c, self, ch))
  {
  }

  lemma FollowsSigned(c: Config, faulty: set<nat>, T: iset<(nat, Share)>, r: Replica, r': Replica, ch: Option<Change>)
    requires c.Valid() && ReplicaSigned(faulty, T, r) && Follows(c, r, r', ch)
    requires ch.Some? ==> ChangeSigned(faulty, T, r.self, ch.value)
    ensures ReplicaSigned(faulty, T, r')
  {
    if ch.Some? {
      assert ManagerSigned(faulty, T, ch.value.txn, Mgr(r, ch.value.txn));
      ChangedIsSigned(c, faulty, T, r.self, ch.value);
    }
  }

  /** A vote of a step is signed as its message says. */
  lemma CastSigns(c: Config, r: Replica, step: Step)
    requires c.Valid()
    ensures var ch := ChangeOf(c, r, step);
      ch.Some? && ch.value.cast && !ch.value.base.syncSent ==>
        Signs(c, r, step, ch.value.txn, Share(r.self, ch.value.base.hash, ch.value.base.high.hash, ch.value.base.high.view))
  {
    var ch := ChangeOf(c, r, step);
    if ch.Some? && ch.value.cast && !ch.value.base.syncSent {
      ChangeIsAll(c, r, step);
      SyncSentStays(c, r.self, ch.value);
      var r', txn := Act(c, r, step).r, ch.value.txn;
      assert Mgr(r', txn) == Changed(c, r.self, ch.value);
    }
  }

  lemma BallotsSign(c: Config, self: nat, view: nat, txn: nat, m: Manager, out: Msg)
    requires c.Valid() && out in Ballots(c, self, view, txn, m)
    ensures !m.syncSent && out.Sync? && out.txn == txn && out.from == self
    ensures out.sig.Some? ==> out.sig.value == Share(self, m.hash, m.high.hash, m.high.view)
  {
  }

  lemma SentSigns(c: Config, r: Replica, step: Step, m: Msg)
    requires c.Valid() && m in Act(c, r, step).out && m.Sync? && m.sig.Some?
    ensures Signs(c, r, step, m.txn, m.sig.value) && m.sig.value.signer == m.from == r.self
  {
    var ch := ChangeOf(c, r, step);
    assert ch.Some? && ch.value.cast;
    BallotsSign(c, r.self, r.view, ch.value.txn, ch.value.base, m);
    CastSigns(c, r, step);
  }

  ghost predicate SysSigned(c: Config, faulty: set<nat>, T: iset<(nat, Share)>, s: Sys)
    requires c.Valid()
  {
    && |s.reps| == c.nodes && (forall i :: 0 <= i < c.nodes ==> s.reps[i].self == i && ReplicaSigned(faulty, T, s.reps[i]))
    && SentSigned(T, s.sent)
  }

  /** What a replica signs in this step counts among the signatures. */
  ghost predicate StepSigned(c: Config, T: iset<(nat, Share)>, r: Replica, step: Step)
    requires c.Valid()
  {
    forall txn: nat, x :: Signs(c, r, step, txn, x) ==> (txn, x) in T
  }

  lemma ActKeepsSigned(c: Config, faulty: set<nat>, T: iset<(nat, Share)>, s: Sys, step: Step)
    requires c.Valid() && SysSigned(c, faulty, T, s) && Enabled(c, faulty, s, step)
    requires StepSigned(c, T, s.reps[step.i], step)
    ensures ReplicaSigned(faulty, T, Act(c, s.reps[step.i], step).r)
  {
    var r := s.reps[step.i];
    if !step.DoRelease? {
      ChangeIsAll(c, r, step);
      CastSigns(c, r, step);
      FollowsSigned(c, faulty, T, r, Act(c, r, step).r, ChangeOf(c, r, step));
    }
  }

  lemma NextKeepsSigned(c: Config, faulty: set<nat>, T: iset<(nat, Share)>, s: Sys, step: Step)
    requires c.Valid() && SysSigned(c, faulty, T, s)
    requires Enabled(c, faulty, s, step) ==> StepSigned(c, T, s.reps[step.i], step)
    ensures SysSigned(c, faulty, T, Next(c, faulty, s, step))
  {
    if Enabled(c, faulty, s, step) {
      ActKeepsSigned(c, faulty, T, s, step);
      SelfKept(c, s.reps[step.i], step);
      var out := Act(c, s.reps[step.i], step).out;
      forall m | m in out && m.Sync? && m.sig.Some? ensures (m.txn, m.sig.value) in T && m.sig.value.signer == m.from {
        SentSigns(c, s.reps[step.i], step, m);
      }
    }
  }

  lemma {:induction false} RunKeepsSigned(c: Config, faulty: set<nat>, steps: seq<Step>, n: nat)
    requires c.Valid() && n <= |steps|
    ensures SysSigned(c, faulty, Signed(c, faulty, steps), Run(c, faulty, steps[..n]))
  {
    RunShape(c, faulty, steps[..n]);
    if n > 0 {
      RunKeepsSigned(c, faulty, steps, n - 1);
      assert steps[..n][..n - 1] == steps[..n - 1];
      var s, k := Run(c, faulty, steps[..n - 1]), n - 1;
      if Enabled(c, faulty, s, steps[k]) {
        RunShape(c, faulty, steps[..k]);
        forall txn: nat, x | Signs(c, s.reps[steps[k].i], steps[k], txn, x)
          ensures (txn, x) in Signed(c, faulty, steps)
        {
          assert SignsAt(c, faulty, steps, k, steps[k].i, txn, x);
        }
      }
      NextKeepsSigned(c, faulty, Signed(c, faulty, steps), s, steps[k]);
    } else {
      assert steps[..0] == [];
    }
  }

  // ----- The shares of a certificate -------------------------------------------

  /** A signature of the slot by this replica. */
  ghost predicate SignedBy(c: Config, faulty: set<nat>, steps: seq<Step>, i: nat, txn: nat, x: Share)
    requires c.Valid()
  {
    exists k: nat :: SignsAt(c, faulty, steps, k, i, txn, x)
  }

  /** A correct replica signs a slot at most once in a run. */
  lemma SignsOnce(c: Config, faulty: set<nat>, steps: seq<Step>, i: nat, txn: nat, x: Share, y: Share)
    requires c.Valid() && SignedBy(c, faulty, steps, i, txn, x) && SignedBy(c, faulty, steps, i, txn, y)
    ensures x == y
  {
    var k: nat :| SignsAt(c, faulty, steps, k, i, txn, x);
    var l: nat :| SignsAt(c, faulty, steps, l, i, txn, y);
    SignsIsVote(c, faulty, steps, k, i, txn, x);
    SignsIsVote(c, faulty, steps, l, i, txn, y);
    if k < l {
      VotedOnce(c, faulty, steps, k, l, i, txn);
    } else if l < k {
      VotedOnce(c, faulty, steps, l, k, i, txn);
    }
  }

  lemma SignsIsVote(c: Config, faulty: set<nat>, steps: seq<Step>, k: nat, i: nat, txn: nat, x: Share)
    requires c.Valid() && SignsAt(c, faulty, steps, k, i, txn, x)
    ensures VotesAt(c, faulty, steps, k, i, txn) && i !in faulty && x.signer == i
  {
    RunShape(c, faulty, steps[..k]);
    assert Ballot(i, txn, x.hash) in Voted(c, Run(c, faulty, steps[..k]).reps[i], steps[k]);
  }

  /** In every run: the share of a correct replica in a certificate is its own signature of that
      slot. */
  lemma FormedSharesAreSigned(c: Config, faulty: set<nat>, steps: seq<Step>, l: nat, j: nat, txn: nat, qc: Cert, s: nat)
    requires c.Valid() && j < c.nodes && FormsAt(c, faulty, steps, l, j, txn, qc) && s in qc.shares && s !in faulty
    ensures SignedBy(c, faulty, steps, s, txn, qc.shares[s])
  {
    RunKeepsSigned(c, faulty, steps, l + 1);
    StepOf(c, faulty, steps, l, j);
    var r' := Run(c, faulty, steps[..l + 1]).reps[j];
    assert ManagerSigned(faulty, Signed(c, faulty, steps), txn, Mgr(r', txn));
    var k: nat, i: nat :| SignsAt(c, faulty, steps, k, i, txn, qc.shares[s]);
    SignsIsVote(c, faulty, steps, k, i, txn, qc.shares[s]);
  }

  // ----- What they sign --------------------------------------------------------

  /** A backup that holds the leader's message has signed it. */
  ghost predicate OwnSigned(c: Config, T: iset<(nat, Share)>, r: Replica)
    requires c.Valid()
  {
    forall txn :: txn in r.mgrs && Backup(c, r.self, txn) && r.mgrs[txn].generic ==> Own(T, r.self, txn, r.mgrs[txn])
  }

  ghost predicate Own(T: iset<(nat, Share)>, self: nat, txn: nat, m: Manager) {
    (txn, Share(self, m.hash, m.high.hash, m.high.view)) in T
  }

  lemma ChangeIsOwn(c: Config, T: iset<(nat, Share)>, r: Replica, step: Step)
    requires c.Valid() && LogInv(c, r) && Leader.LeadInv(c, r) && OwnSigned(c, T, r) && StepSigned(c, T, r, step)
    requires step.DoLead? ==> r.incomplete != 0
    ensures var ch := ChangeOf(c, r, step);
      ch.Some? && Backup(c, r.self, ch.value.txn) && Changed(c, r.self, ch.value).generic ==>
        Own(T, r.self, ch.value.txn, Changed(c, r.self, ch.value))
  {
    var ch := ChangeOf(c, r, step);
    if ch.Some? && Backup(c, r.self, ch.value.txn) {
      ChangedKeepsBatch(c, r.self, ch.value);
      if Mgr(r, ch.value.txn).generic {
        BackupKeepsBatch(c, r, step);
      } else {
        CastSigns(c, r, step);
      }
    }
  }

  lemma ActKeepsOwn(c: Config, T: iset<(nat, Share)>, r: Replica, step: Step)
    requires c.Valid() && LogInv(c, r) && Leader.LeadInv(c, r) && OwnSigned(c, T, r) && StepSigned(c, T, r, step)
    requires step.DoLead? ==> r.incomplete != 0
    ensures OwnSigned(c, T, Act(c, r, step).r)
  {
    SelfKept(c, r, step);
    if !step.DoRelease? {
      ChangeIsOwn(c, T, r, step);
      ChangeIsAll(c, r, step);
    }
  }

  lemma {:induction false} RunKeepsOwn(c: Config, faulty: set<nat>, steps: seq<Step>, n: nat, j: nat)
    requires c.Valid() && n <= |steps| && j < c.nodes
    ensures var s := Run(c, faulty, steps[..n]); j < |s.reps| && OwnSigned(c, Signed(c, faulty, steps), s.reps[j])
  {
    RunShape(c, faulty, steps[..n]);
    if n > 0 {
      var k := n - 1;
      RunKeepsOwn(c, faulty, steps, k, j);
      StepOf(c, faulty, steps, k, j);
      if Moves(c, faulty, steps, k, j) {
        RunKeepsLog(c, faulty, steps[..k]);
        Leader.RunKeepsNet(c, faulty, steps[..k]);
        MoveIsSigned(c, faulty, steps, k, j);
        ActKeepsOwn(c, Signed(c, faulty, steps), Run(c, faulty, steps[..k]).reps[j], steps[k]);
      }
    } else {
      assert steps[..0] == [];
    }
  }

  lemma MoveIsSigned(c: Config, faulty: set<nat>, steps: seq<Step>, k: nat, j: nat)
    requires c.Valid() && Moves(c, faulty, steps, k, j)
    ensures StepSigned(c, Signed(c, faulty, steps), Run(c, faulty, steps[..k]).reps[j], steps[k])
  {
    var r := Run(c, faulty, steps[..k]).reps[j];
    forall txn: nat, x | Signs(c, r, steps[k], txn, x) ensures (txn, x) in Signed(c, faulty, steps) {
      assert SignsAt(c, faulty, steps, k, j, txn, x);
    }
  }

  /** A backup signed the very batch and parent of the certificate it forms. */
  lemma FormsWhatItSigned(c: Config, faulty: set<nat>, steps: seq<Step>, l: nat, j: nat, txn: nat, qc: Cert)
    requires c.Valid() && j < c.nodes && FormsAt(c, faulty, steps, l, j, txn, qc) && Backup(c, j, txn)
    ensures SignedBy(c, faulty, steps, j, txn, Share(j, qc.hash, qc.parent, qc.parentView))
  {
    var m := FormedFrom(c, faulty, steps, l, j, txn, qc);
    RunKeepsOwn(c, faulty, steps, l + 1, j);
    var x := Share(j, qc.hash, qc.parent, qc.parentView);
    assert (txn, x) in Signed(c, faulty, steps) by {
      assert Own(Signed(c, faulty, steps), j, txn, m);
    }
    var k: nat, i: nat :| SignsAt(c, faulty, steps, k, i, txn, x);
    SignsIsVote(c, faulty, steps, k, i, txn, x);
  }

  lemma FormedFrom(c: Config, faulty: set<nat>, steps: seq<Step>, l: nat, j: nat, txn: nat, qc: Cert) returns (m: Manager)
    requires c.Valid() && j < c.nodes && FormsAt(c, faulty, steps, l, j, txn, qc)
    ensures var s := Run(c, faulty, steps[..l + 1]);
      |s.reps| == c.nodes && s.reps[j].self == j && txn in s.reps[j].mgrs && m == s.reps[j].mgrs[txn]
    ensures m.generic && m.newViewed && qc.hash == m.hash && qc.parent == m.high.hash && qc.parentView == m.high.view
    ensures qc.shares == m.shares
  {
    StepOf(c, faulty, steps, l, j);
    RunShape(c, faulty, steps[..l + 1]);
    ViewMovesIff(c, Run(c, faulty, steps[..l]).reps[j], steps[l]);
    m := Mgr(Run(c, faulty, steps[..l + 1]).reps[j], txn);
  }

  /** In every run: the share of a correct replica signs the certificate it is in exactly if the
      leader message the replica voted on names the batch and the certificate extended that this
      one is made of. */
  lemma SharesSignIff(c: Config, faulty: set<nat>, steps: seq<Step>, l: nat, j: nat, txn: nat, qc: Cert, s: nat, x: Share)
    requires c.Valid() && j < c.nodes && FormsAt(c, faulty, steps, l, j, txn, qc) && s in qc.shares && s !in faulty
    requires SignedBy(c, faulty, steps, s, txn, x)
    ensures qc.shares[s] == Share(s, qc.hash, qc.parent, qc.parentView) <==>
      x.hash == qc.hash && x.highHash == qc.parent && x.highView == qc.parentView
  {
    FormedSharesAreSigned(c, faulty, steps, l, j, txn, qc, s);
    SignsOnce(c, faulty, steps, s, txn, x, qc.shares[s]);
    var k: nat :| SignsAt(c, faulty, steps, k, s, txn, x);
    SignsIsVote(c, faulty, steps, k, s, txn, x);
  }

  /** All leader messages for the slot, sent or delivered in the run, name the same batch and
      extend the same certificate. */
  ghost predicate OneMessage(c: Config, faulty: set<nat>, steps: seq<Step>, txn: nat, hash: Hash, high: Hash, view: nat)
    requires c.Valid()
  {
    forall k: nat, i: nat, g: Msg :: UttersAt(c, faulty, steps, k, i, g) && g.txn == txn ==>
      g.hash == hash && g.high.hash == high && g.high.view == view
  }

  ghost predicate UttersAt(c: Config, faulty: set<nat>, steps: seq<Step>, k: nat, i: nat, g: Msg)
    requires c.Valid()
  {
    && g.Generic? && Moves(c, faulty, steps, k, i)
    && (steps[k] == Deliver(i, g) || g in Act(c, Run(c, faulty, steps[..k]).reps[i], steps[k]).out)
  }

  lemma SignsTheMessage(c: Config, faulty: set<nat>, steps: seq<Step>, i: nat, txn: nat, x: Share, hash: Hash, high: Hash, view: nat)
    requires c.Valid() && SignedBy(c, faulty, steps, i, txn, x) && OneMessage(c, faulty, steps, txn, hash, high, view)
    ensures x == Share(i, hash, high, view)
  {
    var k: nat :| SignsAt(c, faulty, steps, k, i, txn, x);
    SignsIsVote(c, faulty, steps, k, i, txn, x);
    var r := Run(c, faulty, steps[..k]).reps[i];
    if steps[k].DoLead? {
      var g := Generic(r.self, txn, r.view, Mgr(r, txn).hash, r.store.prepared);
      assert g in Act(c, r, steps[k]).out;
      assert UttersAt(c, faulty, steps, k, i, g);
    } else {
      assert UttersAt(c, faulty, steps, k, i, steps[k].msg);
    }
  }

  /** So if the leader did not send different messages for the slot, every share of a correct
      replica signs the certificate a backup forms. */
  lemma SharesSign(c: Config, faulty: set<nat>, steps: seq<Step>, l: nat, j: nat, txn: nat, qc: Cert, s: nat,
                   hash: Hash, high: Hash, view: nat)
    requires c.Valid() && j < c.nodes && FormsAt(c, faulty, steps, l, j, txn, qc) && Backup(c, j, txn)
    requires s in qc.shares && s !in faulty && OneMessage(c, faulty, steps, txn, hash, high, view)
    ensures qc.shares[s] == Share(s, qc.hash, qc.parent, qc.parentView)
  {
    FormedSharesAreSigned(c, faulty, steps, l, j, txn, qc, s);
    SignsTheMessage(c, faulty, steps, s, txn, qc.shares[s], hash, high, view);
    FormsWhatItSigned(c, faulty, steps, l, j, txn, qc);
    SignsTheMessage(c, faulty, steps, j, txn, Share(j, qc.hash, qc.parent, qc.parentView), hash, high, view);
  }
}
