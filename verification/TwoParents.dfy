/** A run of three replicas with a faulty leader in which a certificate of a correct replica
    carries the share of another correct one that signs another parent. */
module TwoParents {
  import opened Cluster
  import opened Certificate
  import opened VoteManager
  import opened Replica
  import opened System
  import opened Outcome
  import opened Sequences
  import LateProposal

  const BATCH := Hash(0)
  const OTHER := Hash(1)

  /** Two leader messages for the first slot, which differ in the certificate extended. */
  function First(c: Config): Msg
    requires c.Valid()
  {
    Generic(c.Primary(0), c.Txn(0), 0, BATCH, Genesis(Prepare))
  }

  function Second(c: Config): Msg
    requires c.Valid()
  {
    Generic(c.Primary(0), c.Txn(0), 0, BATCH, Blank().(hash := OTHER))
  }

  function Offer(c: Config): Msg
    requires c.Valid()
  {
    Proposal(c.Primary(0), c.Txn(0), 0, BATCH)
  }

  /** The vote of replica `b` for the leader of view 1, on the second message. */
  function Vote(c: Config, b: nat): Msg
    requires c.Valid()
  {
    Sync(b, c.Primary(1), c.Txn(0), 0, BATCH, Some(Share(b, BATCH, OTHER, 0)))
  }

  lemma FirstTxn(c: Config)
    requires c.Valid()
    ensures c.Txn(0) >= 4
  {
    assert c.instance * c.batch >= 0;
  }

  /** The leader of view 1 takes the offer and the first message. */
  lemma Pledges(c: Config, a: nat) returns (r: Replica)
    requires c.Valid() && c.nodes == 3 && c.Nf() == 2 && a == c.Primary(1)
    ensures OnProposal(c, Boot(c, a), Offer(c)).view == 0 && !OnProposal(c, Boot(c, a), Offer(c)).crashed
    ensures r == OnGeneric(c, OnProposal(c, Boot(c, a), Offer(c)), First(c)).r
    ensures r.self == a && r.view == 0 && r.newViewed == 0 && r.advanced == [] && !r.crashed
    ensures var m := Mgr(r, c.Txn(0));
      LateProposal.Pledged(m, a, BATCH, Genesis(Prepare), true) && m.shares == map[a := Share(a, BATCH, NoHash, 0)]
  {
    FirstTxn(c);
    var r1 := OnProposal(c, Boot(c, a), Offer(c));
    assert r1 == LateProposal.Noted(Boot(c, a), Offer(c));
    assert Acceptable(c, r1, First(c));
    LateProposal.TakesUp(c, r1, First(c));
    r := OnGeneric(c, r1, First(c)).r;
    var m1 := Mgr(r1, c.Txn(0)).(hash := BATCH, high := Genesis(Prepare), generic := true);
    assert Mgr(r, c.Txn(0)) == VoteFor(c, a, 0, m1);
  }

  /** Another replica takes the second message and sends its vote. */
  lemma SendsVote(c: Config, b: nat)
    requires c.Valid() && c.nodes == 3 && b < 3 && b != c.Primary(1)
    ensures Vote(c, b) in OnGeneric(c, Boot(c, b), Second(c)).out
  {
    FirstTxn(c);
    var m1 := Fresh().(hash := BATCH, high := Second(c).high, generic := true);
    assert Acceptable(c, Boot(c, b), Second(c));
    assert c.Primary(1) in Ids(c.nodes);
    assert Vote(c, b) in Ballots(c, b, 0, c.Txn(0), m1);
  }

  /** The vote completes the quorum, and its share is in the certificate. */
  lemma Forms(c: Config, a: nat, b: nat, r: Replica)
    requires c.Valid() && c.nodes == 3 && c.Nf() == 2 && a == c.Primary(1) && b < 3 && b != a
    requires r.self == a && r.view == 0 && r.newViewed == 0 && r.advanced == []
    requires var m := Mgr(r, c.Txn(0));
      LateProposal.Pledged(m, a, BATCH, Genesis(Prepare), true) && m.shares == map[a := Share(a, BATCH, NoHash, 0)]
    ensures var r' := OnSync(c, r, Vote(c, b));
      && r'.advanced == [c.Txn(0)]
      && var qc := FormedBy(r, r');
         qc.hash == BATCH && qc.parent == NoHash && qc.parentView == 0
         && qc.shares == map[a := Share(a, BATCH, NoHash, 0), b := Share(b, BATCH, OTHER, 0)]
  {
    FirstTxn(c);
    var msg := Vote(c, b);
    LateProposal.Completes2(c, r, msg);
    var m, v := Mgr(r, msg.txn), VoteIn(msg);
    var m' := CountVote(m, a, 2, v);
    assert VotersOf(m, BATCH) + [b] == [a, b];
    assert OtherVoters(m'.voters, BATCH) == {};
    AdvanceFrame(c, PutMgr(r, msg.txn, Mgr(OnSync(c, r, msg), msg.txn)), msg.txn, true);
    var r' := OnSync(c, r, msg);
    assert Mgr(r', msg.txn) == m';
  }

  lemma OneStep(c: Config, faulty: set<nat>, steps: seq<Step>, step: Step)
    requires c.Valid() && Enabled(c, faulty, Run(c, faulty, steps), step)
    ensures var s, s' := Run(c, faulty, steps), Run(c, faulty, steps + [step]);
      var e := Act(c, s.reps[step.i], step);
      s'.reps == s.reps[step.i := e.r] && s'.sent == s.sent + e.out
  {
    assert (steps + [step])[..|steps|] == steps;
  }

  /** Where the leader of view 1 stands once it has voted. */
  ghost predicate Ready(c: Config, r: Replica)
    requires c.Valid()
  {
    && r.self == c.Primary(1) && r.view == 0 && r.newViewed == 0 && r.advanced == [] && !r.crashed
    && var m := Mgr(r, c.Txn(0));
       && LateProposal.Pledged(m, r.self, BATCH, Genesis(Prepare), true)
       && m.shares == map[r.self := Share(r.self, BATCH, NoHash, 0)]
  }

  lemma FirstVoted(c: Config) returns (steps: seq<Step>, r: Replica)
    requires c.Valid() && c.nodes == 3 && c.Nf() == 2
    ensures var a, s := c.Primary(1), Run(c, {c.Primary(0)}, steps);
      && |steps| == 2 && |s.reps| == 3 && s.reps[a] == r && s.reps[c.Primary(2)] == Boot(c, c.Primary(2)) && Ready(c, r)
  {
    LateProposal.Leaders(c, 0);
    var p, a := c.Primary(0), c.Primary(1);
    var s1 := [Deliver(a, Offer(c))];
    steps := s1 + [Deliver(a, First(c))];
    assert [] + [Deliver(a, Offer(c))] == s1;
    OneStep(c, {p}, [], Deliver(a, Offer(c)));
    r := Pledges(c, a);
    OneStep(c, {p}, s1, Deliver(a, First(c)));
  }

  /** Offer and first message reach the leader of view 1, the second message the other backup. */
  lemma BothVoted(c: Config) returns (steps: seq<Step>, r: Replica)
    requires c.Valid() && c.nodes == 3 && c.Nf() == 2
    ensures var s := Run(c, {c.Primary(0)}, steps);
      && |steps| == 3 && |s.reps| == 3 && s.reps[c.Primary(1)] == r && Vote(c, c.Primary(2)) in s.sent && Ready(c, r)
  {
    LateProposal.Leaders(c, 0);
    var b := c.Primary(2);
    var s2;
    s2, r := FirstVoted(c);
    steps := s2 + [Deliver(b, Second(c))];
    OneStep(c, {c.Primary(0)}, s2, Deliver(b, Second(c)));
    SendsVote(c, b);
  }

  /** The shares of correct replicas need not sign the certificate they are in, if the leader of
      the slot sends two messages. */
  lemma ShareSignsOtherParent(c: Config) returns (steps: seq<Step>, qc: Cert)
    requires c.Valid() && c.nodes == 3 && c.Nf() == 2
    ensures var a, b := c.Primary(1), c.Primary(2);
      && b != c.Primary(0) && |steps| == 4 && FormsAt(c, {c.Primary(0)}, steps, 3, a, c.Txn(0), qc)
      && b in qc.shares && qc.shares[b] != Share(b, qc.hash, qc.parent, qc.parentView)
  {
    LateProposal.Leaders(c, 0);
    var before, r := BothVoted(c);
    steps := before + [Deliver(c.Primary(1), Vote(c, c.Primary(2)))];
    Forms(c, c.Primary(1), c.Primary(2), r);
    qc := FormedBy(r, OnSync(c, r, Vote(c, c.Primary(2))));
    FormsInStep(c, {c.Primary(0)}, before, c.Primary(1), Vote(c, c.Primary(2)), r, c.Txn(0), qc);
  }

  lemma FormsInStep(c: Config, faulty: set<nat>, before: seq<Step>, a: nat, msg: Msg, r: Replica, txn: nat, qc: Cert)
    requires c.Valid() && msg.Sync? && Enabled(c, faulty, Run(c, faulty, before), Deliver(a, msg))
    requires Run(c, faulty, before).reps[a] == r && r.advanced == []
    requires OnSync(c, r, msg).advanced == [txn] && qc == FormedBy(r, OnSync(c, r, msg))
    ensures FormsAt(c, faulty, before + [Deliver(a, msg)], |before|, a, txn, qc)
  {
    assert (before + [Deliver(a, msg)])[..|before|] == before;
  }
}
