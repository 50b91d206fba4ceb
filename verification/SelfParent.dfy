/** A run of four replicas in which the faulty leader sends a certificate whose parent is its
    own batch, and a correct replica hands one slot to execution twice in a single commit. */
module SelfParent {
  import opened Cluster
  import opened Certificate
  import opened VoteManager
  import opened CertStore
  import opened FaultVoters
  import opened Replica
  import opened System

  function C(): Config {
    Config(4, 1, 0, 5)
  }

  /** Three certificates of consecutive views; the first one is its own parent. */
  const X := Hash(0)
  const XQC: Cert := QC(Prepare, false, 0, 0, X, X, false, 0, NoHash, map[])
  const YQC: Cert := QC(Prepare, false, 1, 0, Hash(1), X, false, 0, X, map[])
  const ZQC: Cert := QC(Prepare, false, 2, 1, Hash(2), Hash(1), false, 0, X, map[])

  /** Replica 3 leads view 3. */
  const P := Proposal(3, 19, 3, X)
  const G1 := Generic(3, 19, 0, X, XQC)
  const G2 := Generic(3, 9, 0, Hash(3), YQC)
  const G3 := Generic(3, 34, 3, Hash(4), ZQC)

  lemma Numbers()
    ensures C().Valid() && C().Nf() == 3 && C().Stride() == 5 && C().Txn(2) == 14 && C().Primary(3) == 3
    ensures |{3}| < 2 * C().Nf() - C().nodes
  {
  }

  ghost predicate Reaches(steps: seq<Step>, s: Sys) {
    C().Valid() && Run(C(), {3}, steps) == s && |s.reps| == 4
  }

  lemma Go(steps: seq<Step>, s: Sys, step: Step) returns (more: seq<Step>, s': Sys)
    requires Reaches(steps, s) && Enabled(C(), {3}, s, step)
    ensures more == steps + [step] && Reaches(more, s')
    ensures s'.reps == s.reps[step.i := Act(C(), s.reps[step.i], step).r]
  {
    more := steps + [step];
    s' := Next(C(), {3}, s, step);
    assert more[..|more| - 1] == steps;
  }

  // ----- Replica 1, step by step -----------------------------------------------

  ghost predicate Basics(r: Replica, view: nat, handed: seq<nat>) {
    && r.self == 1 && r.view == view && r.nextIndex == 0 && !r.crashed && r.store.handed == handed
    && r.store.prepared == Genesis(Prepare) && r.store.locked == Genesis(PreCommit)
  }

  ghost predicate Doubting(r: Replica, n: nat) {
    Basics(r, 0, []) && r.mgrs == map[] && r.store == Start() && VotersFor(r.failVoters, 2) == Ids(n)
  }

  ghost predicate InView3(r: Replica) {
    Basics(r, 3, [14]) && r.mgrs == map[] && r.store == Start().(handed := [14])
  }

  lemma AtBoot(r: Replica)
    requires C().Valid() && r == Boot(C(), 1)
    ensures Doubting(r, 0)
  {
  }

  lemma Doubts(r: Replica, voter: nat)
    requires C().Valid() && C().Nf() == 3 && Doubting(r, voter) && voter < 2
    ensures Doubting(OnFailed(C(), r, 2, voter), voter + 1)
  {
    RangeSize(voter);
    RangeSize(voter + 1);
  }

  lemma GivesUpOn2(r: Replica)
    requires C().Valid() && C().Nf() == 3 && C().Txn(2) == 14 && Doubting(r, 2)
    ensures InView3(OnFailed(C(), r, 2, 2))
  {
    RangeSize(2);
    RangeSize(3);
    assert Ids(2) + {2} == Ids(3);
    assert [] + [14] == [14];
  }

  /** The proposal is known, and the certificates filed are these. */
  ghost predicate Filed(r: Replica, certs: map<Hash, Cert>, txns: set<nat>) {
    && Basics(r, 3, [14]) && r.store.txnOf == map[X := 19]
    && r.store.qcs == map[NoHash := Genesis(PreCommit)] + certs
    && r.mgrs.Keys == txns && 19 in txns && r.mgrs[19].hash == X
  }

  lemma Learns(r: Replica)
    requires C().Valid() && InView3(r)
    ensures Filed(OnProposal(C(), r, P), map[], {19}) && !OnProposal(C(), r, P).mgrs[19].generic
  {
    assert map[NoHash := Genesis<Share>(PreCommit)] + map[] == map[NoHash := Genesis(PreCommit)];
  }

  /** A leader message whose certificate prepares nothing is taken up. */
  lemma Takes(r: Replica, g: Msg)
    requires C().Valid() && C().Nf() == 3 && C().Primary(3) == 3 && r.view == 3 && !r.crashed && r.nextIndex == 0
    requires g.Generic? && g.from == 3 && g.view <= 3 && g.txn > 0 && !Mgr(r, g.txn).generic && g.hash != NoHash
    requires SafeNode(g.high, r.store.locked)
    requires var m := Mgr(r, g.txn); (m.hash == NoHash || m.hash == g.hash) && !m.newViewed && m.voters == map[] && m.voteCnt == 0
    ensures var r' := OnGeneric(C(), r, g).r;
      && r' == r.(store := Extend(C(), r, g), mgrs := r.mgrs[g.txn := Mgr(r', g.txn)])
      && Mgr(r', g.txn).hash == g.hash
  {
    var m1 := Mgr(r, g.txn).(hash := g.hash, high := g.high, generic := true);
    assert |VotersOf(m1, g.hash) + [r.self]| == 1;
  }

  const ONE: map<Hash, Cert> := map[X := XQC]
  const TWO: map<Hash, Cert> := map[X := XQC, Hash(1) := YQC]

  ghost predicate Waiting(m: Manager) {
    m == Fresh().(hash := X, proposal := true)
  }

  ghost predicate Learned(r: Replica) {
    Filed(r, map[], {19}) && Waiting(r.mgrs[19])
  }

  lemma LearnsAll(r: Replica)
    requires C().Valid() && InView3(r)
    ensures Learned(OnProposal(C(), r, P))
  {
    Learns(r);
    assert Mgr(r, 19) == Fresh();
  }

  lemma FilesX(r: Replica)
    requires C().Valid() && Learned(r)
    ensures Extend(C(), r, G1) == r.store.(qcs := map[NoHash := Genesis(PreCommit)] + ONE)
  {
    assert File(r.store, XQC).qcs == map[NoHash := Genesis(PreCommit)] + ONE;
  }

  lemma TakesX(r: Replica)
    requires C().Valid() && C().Nf() == 3 && C().Primary(3) == 3 && Learned(r)
    ensures Filed(OnGeneric(C(), r, G1).r, ONE, {19})
  {
    assert Mgr(r, 19) == r.mgrs[19];
    Takes(r, G1);
    FilesX(r);
  }

  lemma FilesY(r: Replica)
    requires C().Valid() && Filed(r, ONE, {19})
    ensures Extend(C(), r, G2) == r.store.(qcs := map[NoHash := Genesis(PreCommit)] + TWO)
  {
    var f := File(r.store, YQC);
    assert f.qcs == map[NoHash := Genesis(PreCommit)] + TWO;
    assert Parent(f.qcs, YQC) == XQC;
    assert Family(f.qcs, YQC) == f.qcs;
  }

  lemma TakesY(r: Replica)
    requires C().Valid() && C().Nf() == 3 && C().Primary(3) == 3 && Filed(r, ONE, {19})
    ensures Filed(OnGeneric(C(), r, G2).r, TWO, {9, 19})
  {
    assert Mgr(r, 9) == Fresh();
    Takes(r, G2);
    FilesY(r);
  }

  /** The store the commit walks on. */
  function Ready(r: Replica): Store
    requires C().Valid()
  {
    var f := File(r.store, ZQC);
    f.(qcs := MarkCommit(f.qcs, X), prepared := ZQC, locked := YQC)
  }

  /** In it, parent links lead from the block back to itself. */
  lemma CommitsX(r: Replica)
    requires C().Valid() && C().Stride() == 5 && Filed(r, TWO, {9, 19})
    ensures Extend(C(), r, G3) == Walk(Ready(r), BlockAt(r, 19)) && BlockAt(r, 19).hash == X
  {
    var f := File(r.store, ZQC);
    assert Parent(f.qcs, ZQC) == YQC && Grandparent(f.qcs, ZQC) == XQC;
    assert Family(f.qcs, ZQC) == f.qcs;
    assert WrapSub(WrapSub(34, 5), 10) == 19;
  }

  lemma LinksBack(s: Store, b: Block)
    requires X in s.qcs && s.qcs[X].hash == X && s.qcs[X].parent == X && b == Block(19, X, b.rivals)
    requires s.txnOf == map[X := 19]
    ensures Ancestor(s.qcs, X, X) && Walk(s, b).handed == s.handed + [19] + [19]
  {
    assert Path(s.qcs, X, [X]);
    assert Chain(s.qcs - {X}, X) == [];
    assert Chain(s.qcs, X) == [X] + Chain(s.qcs - {X}, X);
    assert [X] + [] == [X] && [X][1..] == [];
    assert IdsOf(s.txnOf, [X]) == [19] + IdsOf(s.txnOf - {X}, []);
  }

  lemma ReadyHoldsX(r: Replica)
    requires C().Valid() && Filed(r, TWO, {9, 19})
    ensures var m := Ready(r).qcs; X in m && m[X].hash == X && m[X].parent == X
    ensures Ready(r).handed == [14] && Ready(r).txnOf == map[X := 19]
  {
  }

  lemma LinksBackToX(r: Replica)
    requires C().Valid() && Filed(r, TWO, {9, 19})
    ensures Ancestor(Ready(r).qcs, X, X) && Walk(Ready(r), BlockAt(r, 19)).handed == [14, 19, 19]
  {
    var s, b := Ready(r), BlockAt(r, 19);
    ReadyHoldsX(r);
    assert b == Block(19, X, b.rivals);
    LinksBack(s, b);
    assert [14] + [19] + [19] == [14, 19, 19];
  }

  lemma TakesZ(r: Replica)
    requires C().Valid() && C().Nf() == 3 && C().Primary(3) == 3 && Filed(r, TWO, {9, 19})
    ensures OnGeneric(C(), r, G3).r.store == Extend(C(), r, G3)
  {
    assert Mgr(r, 34) == Fresh();
    Takes(r, G3);
  }

  /** The commit starts from the block and comes back to it. */
  ghost predicate CommitsRoundabout(r: Replica, t: Store)
    requires C().Valid()
  {
    && Extend(C(), r, G3) == t == Walk(Ready(r), BlockAt(r, 19)) && BlockAt(r, 19).hash == X
    && Ancestor(Ready(r).qcs, X, X)
  }

  lemma HandsTwice(r: Replica)
    requires C().Valid() && C().Nf() == 3 && C().Primary(3) == 3 && C().Stride() == 5 && Filed(r, TWO, {9, 19})
    ensures var t := OnGeneric(C(), r, G3).r.store; CommitsRoundabout(r, t) && t.handed == [14, 19, 19]
  {
    TakesZ(r);
    CommitsX(r);
    LinksBackToX(r);
  }

  // ----- The run ---------------------------------------------------------------

  lemma Starts() returns (s: Sys)
    ensures Reaches([], s) && s.reps[1] == Boot(C(), 1)
  {
    Numbers();
    s := Init(C());
  }

  lemma DoubtsOne(steps: seq<Step>, s: Sys, voter: nat) returns (more: seq<Step>, s': Sys)
    requires Reaches(steps, s) && Doubting(s.reps[1], voter) && voter < 2
    ensures Reaches(more, s') && Doubting(s'.reps[1], voter + 1)
  {
    Numbers();
    Doubts(s.reps[1], voter);
    more, s' := Go(steps, s, DoFail(1, 2, voter));
  }

  lemma ReachesView3() returns (steps: seq<Step>, s: Sys)
    ensures Reaches(steps, s) && InView3(s.reps[1])
  {
    Numbers();
    var s0, s1, s2;
    s0 := Starts();
    AtBoot(s0.reps[1]);
    steps, s1 := DoubtsOne([], s0, 0);
    steps, s2 := DoubtsOne(steps, s1, 1);
    GivesUpOn2(s2.reps[1]);
    steps, s := Go(steps, s2, DoFail(1, 2, 2));
  }

  lemma FilesTwo() returns (steps: seq<Step>, s: Sys)
    ensures Reaches(steps, s) && Filed(s.reps[1], TWO, {9, 19})
  {
    Numbers();
    var s0, s1, s2;
    steps, s0 := ReachesView3();
    LearnsAll(s0.reps[1]);
    steps, s1 := Go(steps, s0, Deliver(1, P));
    TakesX(s1.reps[1]);
    steps, s2 := Go(steps, s1, Deliver(1, G1));
    TakesY(s2.reps[1]);
    steps, s := Go(steps, s2, Deliver(1, G2));
  }

  /** With one faulty replica out of four, within what the quorums tolerate, one commit at a
      correct replica hands slot 19 over twice: its certificate is its own parent. */
  lemma SelfParentIsHandedTwice() returns (steps: seq<Step>)
    ensures C().Valid() && |{3}| < 2 * C().Nf() - C().nodes
    ensures var s, t := Run(C(), {3}, steps), Run(C(), {3}, steps + [Deliver(1, G3)]);
      && |s.reps| == 4 && |t.reps| == 4
      && CommitsRoundabout(s.reps[1], t.reps[1].store)
      && s.reps[1].store.handed == [14] && t.reps[1].store.handed == [14, 19, 19]
  {
    Numbers();
    var s, more, t;
    steps, s := FilesTwo();
    HandsTwice(s.reps[1]);
    more, t := Go(steps, s, Deliver(1, G3));
  }
}
