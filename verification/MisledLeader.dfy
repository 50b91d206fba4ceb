/** A run of four replicas in which the faulty leader of view 0 makes two correct ones vote for
    the slot of view 1, so that the leader of view 1 misses its quorum. */
module MisledLeader {
  import opened Cluster
  import opened Certificate
  import opened VoteManager
  import opened FaultVoters
  import opened Replica
  import opened System
  import opened Leader

  function C(): Config {
    Config(4, 1, 0, 5)
  }

  const H1 := Hash(1)

  /** Replica 0 leads view 0, but sends a leader message for the slot of view 1. */
  const G := Generic(0, 9, 0, H1, Genesis(Prepare))

  lemma Numbers()
    ensures C().Valid() && C().Nf() == 3 && C().Txn(1) == 9
    ensures C().Primary(0) == 0 && C().Primary(1) == 1
  {
  }

  ghost predicate Reaches(steps: seq<Step>, s: Sys) {
    C().Valid() && Run(C(), {0}, steps) == s && |s.reps| == 4
  }

  lemma Go(steps: seq<Step>, s: Sys, step: Step) returns (more: seq<Step>, s': Sys)
    requires Reaches(steps, s) && Enabled(C(), {0}, s, step)
    ensures more == steps + [step] && Reaches(more, s')
    ensures var e := Act(C(), s.reps[step.i], step); s'.reps == s.reps[step.i := e.r] && s'.sent == s.sent + e.out
  {
    more := steps + [step];
    s' := Next(C(), {0}, s, step);
    assert more[..|more| - 1] == steps;
  }

  // ----- The replicas, step by step --------------------------------------------

  ghost predicate Idle(r: Replica, i: nat) {
    r.self == i && r.view == 0 && r.nextIndex == 0 && !r.crashed && r.mgrs == map[] && r.store.locked == Genesis(PreCommit)
  }

  lemma IdleAtBoot(r: Replica, i: nat)
    requires C().Valid() && i < 4 && r == Boot(C(), i)
    ensures Idle(r, i)
  {
  }

  lemma IsMisled(r: Replica, i: nat)
    requires C().Valid() && (i == 2 || i == 3) && Idle(r, i)
    ensures Sends(OnGeneric(C(), r, G).out, i, 1, 9, 0, H1)
  {
    Numbers();
    assert Mgr(r, 9) == Fresh();
    assert Acceptable(C(), r, G);
    BallotsGoOut(C(), i, 0, 9, Fresh().(hash := H1, high := G.high, generic := true), 1);
  }

  /** Replica 1 before it knows the batch of its own slot, with these votes counted. */
  ghost predicate Counting(r: Replica, view: nat, votes: seq<nat>) {
    && r.self == 1 && r.view == view && r.nextIndex == 0 && !r.crashed && r.newViewed == 0 && r.nextSend == 1
    && r.incomplete == 0 && r.advanced == []
    && var m := Mgr(r, 9);
       && m.hash == NoHash && !m.syncSent && !m.generic && !m.newViewed
       && m.voters == (if votes == [] then map[] else map[H1 := votes]) && m.voteCnt == |votes|
       && m.voted == (if votes == [] then [] else [1] + votes)
  }

  lemma CountingAtBoot(r: Replica)
    requires C().Valid() && r == Boot(C(), 1)
    ensures Counting(r, 0, []) && r.failVoters == map[]
  {
    ModUnique(5, 4, 1, 1);
  }

  lemma Counts1(r: Replica, votes: seq<nat>, msg: Msg)
    requires C().Valid() && C().Nf() == 3 && Counting(r, 0, votes) && |votes| < 2
    requires msg.Sync? && msg.txn == 9 && msg.view == 0 && msg.hash == H1 && msg.from != 1 && msg.from !in votes
    ensures Counting(OnSync(C(), r, msg), 0, votes + [msg.from])
    ensures OnSync(C(), r, msg).failVoters == r.failVoters
  {
    var m := Mgr(r, 9);
    assert VotersOf(m, H1) == votes;
    assert [1] + (votes + [msg.from]) == [1] + votes + [msg.from];
    var m' := CountVote(m, 1, 3, VoteIn(msg));
    assert !Completes(m, 1, 3, VoteIn(msg));
    assert OnSync(C(), r, msg).mgrs == r.mgrs[9 := m'];
  }

  lemma Doubts(r: Replica, voter: nat)
    requires C().Valid() && C().Nf() == 3 && Counting(r, 0, [2, 3]) && voter < 2 && VotersFor(r.failVoters, 0) == Ids(voter)
    ensures var r' := OnFailed(C(), r, 0, voter);
      Counting(r', 0, [2, 3]) && VotersFor(r'.failVoters, 0) == Ids(voter + 1)
  {
    RangeSize(voter);
    RangeSize(voter + 1);
    assert Mgr(OnFailed(C(), r, 0, voter), 9) == Mgr(r, 9);
  }

  lemma GivesUpOn0(r: Replica)
    requires C().Valid() && C().Nf() == 3 && Counting(r, 0, [2, 3]) && VotersFor(r.failVoters, 0) == Ids(2)
    ensures Counting(OnFailed(C(), r, 0, 2), 1, [2, 3])
  {
    RangeSize(2);
    RangeSize(3);
    assert Ids(2) + {2} == Ids(3);
    assert GivesUp(C(), r, 0, 2);
    assert Mgr(OnFailed(C(), r, 0, 2), 9) == Mgr(r, 9);
  }

  lemma AboutToMiss(r: Replica)
    requires C().Valid() && C().Nf() == 3 && Counting(r, 1, [2, 3])
    ensures var r' := Propose(C(), r, H1).r;
      && CanPropose(r) && r'.incomplete != 0 && r'.lastSent == 1 && r'.view == 1 && !r'.crashed && r'.self == 1
      && Leading(C(), r') > r'.nextIndex && !Mgr(r', Leading(C(), r')).generic && Misses(C(), r')
  {
    Numbers();
    var r1 := Propose(C(), r, H1).r;
    var m := Mgr(r1, 9);
    assert m == Mgr(r, 9).(hash := H1, proposal := true);
    assert VotersOf(m, H1) == [2, 3];
  }

  // ----- The run ---------------------------------------------------------------

  lemma Boots()
    ensures Reaches([], Init(C()))
    ensures forall i :: 0 <= i < 4 ==> Init(C()).reps[i] == Boot(C(), i)
  {
    Numbers();
  }

  lemma AtStart() returns (s: Sys)
    ensures Reaches([], s) && Counting(s.reps[1], 0, []) && s.reps[1].failVoters == map[]
    ensures Idle(s.reps[2], 2) && Idle(s.reps[3], 3)
  {
    Boots();
    s := Init(C());
    var r1, r2, r3 := s.reps[1], s.reps[2], s.reps[3];
    CountingAtBoot(r1);
    IdleAtBoot(r2, 2);
    IdleAtBoot(r3, 3);
  }

  lemma Misleads(steps: seq<Step>, s: Sys, i: nat) returns (more: seq<Step>, s': Sys)
    requires Reaches(steps, s) && (i == 2 || i == 3) && Idle(s.reps[i], i)
    ensures Reaches(more, s') && s.sent <= s'.sent && Sends(s'.sent, i, 1, 9, 0, H1)
    ensures forall j :: 0 <= j < 4 && j != i ==> s'.reps[j] == s.reps[j]
  {
    var r := s.reps[i];
    IsMisled(r, i);
    more, s' := Go(steps, s, Deliver(i, G));
    StillSends(OnGeneric(C(), r, G).out, s'.sent, i, 1, 9, 0, H1);
  }

  lemma CountsOne(steps: seq<Step>, s: Sys, votes: seq<nat>, from: nat) returns (more: seq<Step>, s': Sys)
    requires Reaches(steps, s) && Counting(s.reps[1], 0, votes) && |votes| < 2 && s.reps[1].failVoters == map[]
    requires from < 4 && from != 1 && from !in votes && Sends(s.sent, from, 1, 9, 0, H1)
    ensures Reaches(more, s') && s'.sent == s.sent
    ensures Counting(s'.reps[1], 0, votes + [from]) && s'.reps[1].failVoters == map[]
  {
    Numbers();
    var r := s.reps[1];
    var msg := SomeVote(s.sent, from, 1, 9, 0, H1);
    Counts1(r, votes, msg);
    more, s' := Go(steps, s, Deliver(1, msg));
  }

  lemma BothCounted() returns (steps: seq<Step>, s: Sys)
    ensures Reaches(steps, s) && Counting(s.reps[1], 0, [2, 3]) && s.reps[1].failVoters == map[]
  {
    var s0, s1, s2, s3;
    s0 := AtStart();
    steps, s1 := Misleads([], s0, 2);
    steps, s2 := Misleads(steps, s1, 3);
    StillSends(s1.sent, s2.sent, 2, 1, 9, 0, H1);
    steps, s3 := CountsOne(steps, s2, [], 2);
    assert [] + [2] == [2] && [2] + [3] == [2, 3];
    steps, s := CountsOne(steps, s3, [2], 3);
  }

  lemma DoubtsOne(steps: seq<Step>, s: Sys, voter: nat) returns (more: seq<Step>, s': Sys)
    requires Reaches(steps, s) && Counting(s.reps[1], 0, [2, 3]) && voter < 2
    requires VotersFor(s.reps[1].failVoters, 0) == Ids(voter)
    ensures Reaches(more, s') && Counting(s'.reps[1], 0, [2, 3]) && VotersFor(s'.reps[1].failVoters, 0) == Ids(voter + 1)
  {
    Numbers();
    Doubts(s.reps[1], voter);
    more, s' := Go(steps, s, DoFail(1, 0, voter));
  }

  lemma InView1() returns (steps: seq<Step>, s: Sys)
    ensures Reaches(steps, s) && Counting(s.reps[1], 1, [2, 3])
  {
    Numbers();
    var s0, s1, s2;
    steps, s0 := BothCounted();
    steps, s1 := DoubtsOne(steps, s0, 0);
    steps, s2 := DoubtsOne(steps, s1, 1);
    GivesUpOn0(s2.reps[1]);
    steps, s := Go(steps, s2, DoFail(1, 0, 2));
  }

  /** One faulty replica out of four, with a quorum of three, is enough: replica 1 is about
      to send its first leader message, and that step misses the quorum. */
  lemma FaultyLeaderMakesMiss() returns (steps: seq<Step>)
    ensures C().Valid() && C().Nf() == 3 && |{0}| < 2 * C().Nf() - C().nodes
    ensures var s := Run(C(), {0}, steps);
      FirstLead(C(), s, 1) && CanLead(C(), s.reps[1]) && Misses(C(), s.reps[1])
  {
    Numbers();
    var s0, s;
    steps, s0 := InView1();
    AboutToMiss(s0.reps[1]);
    steps, s := Go(steps, s0, DoPropose(1, H1));
  }
}
