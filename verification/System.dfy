/** All replicas of one instance over a network that reorders, repeats and loses
    messages, with some replicas under the control of an adversary. */
module System {
  import opened Cluster
  import opened Certificate
  import opened VoteManager
  import opened Replica
  import opened Sequences

  /** A vote a correct replica has cast, kept for ever. */
  datatype Ballot = Ballot(voter: nat, txn: nat, hash: Hash)

  /** `sent` holds the messages of correct replicas. */
  datatype Sys = Sys(reps: seq<Replica>, sent: set<Msg>, votes: set<Ballot>)

  datatype Step =
    | Deliver(i: nat, msg: Msg)
    | DoPropose(i: nat, hash: Hash)
    | DoLead(i: nat)
    | DoExecute(i: nat)
    | DoRelease(i: nat, txn: nat)
    | DoFail(i: nat, view: nat, voter: nat)

  function Init(c: Config): Sys
    requires c.Valid()
  {
    Sys(seq(c.nodes, i requires 0 <= i < c.nodes => Boot(c, i)), {}, {})
  }

  /** Senders are authenticated: what claims to come from a correct replica was
      sent by it; a faulty one may say anything, to anyone, at any time. */
  predicate Deliverable(c: Config, faulty: set<nat>, s: Sys, i: nat, msg: Msg) {
    && msg.from < c.nodes && msg.from != i
    && (msg.from in faulty || msg in s.sent)
    && (msg.Sync? ==> msg.to == i && Validated(VoteIn(msg)))
  }

  predicate Enabled(c: Config, faulty: set<nat>, s: Sys, step: Step)
    requires c.Valid()
  {
    && step.i < |s.reps| && step.i !in faulty && !s.reps[step.i].crashed
    && var r := s.reps[step.i];
       match step
       case Deliver(i, msg) => Deliverable(c, faulty, s, i, msg)
       case DoPropose(_, hash) => CanPropose(r) && hash != NoHash
       case DoLead(_) => CanLead(c, r)
       case DoExecute(_) => CanExecute(c, r)
       case DoRelease(_, txn) => CanRelease(r, txn)
       case DoFail(_, _, voter) => voter < c.nodes
  }

  /** What a replica does in a step. */
  function Act(c: Config, r: Replica, step: Step): Effect
    requires c.Valid()
  {
    match step
    case Deliver(_, msg) =>
      if msg.Generic? then OnGeneric(c, r, msg)
      else if msg.Sync? then Effect(OnSync(c, r, msg), {})
      else Effect(OnProposal(c, r, msg), {})
    case DoPropose(_, hash) => Propose(c, r, hash)
    case DoLead(_) => if r.incomplete != 0 then Lead(c, r) else Effect(r, {})
    case DoExecute(_) => Effect(Execute(c, r), {})
    case DoRelease(_, txn) => Effect(Release(r, txn), {})
    case DoFail(_, view, voter) => Effect(OnFailed(c, r, view, voter), {})
  }

  /** The manager whose vote a step casts, with the hash voted for. */
  function Voted(c: Config, r: Replica, step: Step): set<Ballot>
    requires c.Valid()
  {
    match step
    case Deliver(_, msg) =>
      if msg.Generic? && CastsVote(r, Act(c, r, step).r, msg.txn)
      then {Ballot(r.self, msg.txn, msg.hash)} else {}
    case DoLead(_) =>
      if r.incomplete != 0 && CastsVote(r, Act(c, r, step).r, c.Txn(r.lastSent))
      then {Ballot(r.self, c.Txn(r.lastSent), Mgr(r, c.Txn(r.lastSent)).hash)} else {}
    case _ => {}
  }

  predicate CastsVote(r: Replica, r': Replica, txn: nat) {
    !Mgr(r, txn).syncSent && Mgr(r', txn).syncSent
  }

  function Next(c: Config, faulty: set<nat>, s: Sys, step: Step): Sys
    requires c.Valid()
  {
    if !Enabled(c, faulty, s, step) then s
    else
      var r, e := s.reps[step.i], Act(c, s.reps[step.i], step);
      Sys(s.reps[step.i := e.r], s.sent + e.out, s.votes + Voted(c, r, step))
  }

  /** The state after a sequence of steps; steps that are not possible are skipped. */
  function Run(c: Config, faulty: set<nat>, steps: seq<Step>): Sys
    requires c.Valid()
  {
    if steps == [] then Init(c)
    else Next(c, faulty, Run(c, faulty, steps[..|steps| - 1]), steps[|steps| - 1])
  }

  lemma {:induction false} RunShape(c: Config, faulty: set<nat>, steps: seq<Step>)
    requires c.Valid()
    ensures |Run(c, faulty, steps).reps| == c.nodes
    ensures forall i :: 0 <= i < c.nodes ==> Run(c, faulty, steps).reps[i].self == i
  {
    if steps != [] {
      RunShape(c, faulty, steps[..|steps| - 1]);
      var s, step := Run(c, faulty, steps[..|steps| - 1]), steps[|steps| - 1];
      if Enabled(c, faulty, s, step) {
        SelfKept(c, s.reps[step.i], step);
      }
    }
  }

  lemma SelfKept(c: Config, r: Replica, step: Step)
    requires c.Valid()
    ensures Act(c, r, step).r.self == r.self
  {
    if step.Deliver? {
      DeliveryKeepsSelf(c, r, step.msg);
    }
  }

  lemma DeliveryKeepsSelf(c: Config, r: Replica, msg: Msg)
    requires c.Valid()
    ensures msg.Generic? ==> OnGeneric(c, r, msg).r.self == r.self
    ensures msg.Sync? ==> OnSync(c, r, msg).self == r.self
    ensures msg.Proposal? ==> OnProposal(c, r, msg).self == r.self
  {
    if msg.Generic? {
      var m2 := VoteFor(c, r.self, r.view, Mgr(r, msg.txn).(hash := msg.hash, high := msg.high, generic := true));
      AdvanceFrame(c, PutMgr(r.(store := Extend(c, r, msg)), msg.txn, m2), msg.txn, m2.newViewed && m2.proposal);
    }
  }

  /** Votes are never taken back. */
  lemma {:induction false} VotesGrow(c: Config, faulty: set<nat>, steps: seq<Step>, more: seq<Step>)
    requires c.Valid()
    ensures Run(c, faulty, steps).votes <= Run(c, faulty, steps + more).votes
  {
    if more == [] {
      assert steps + more == steps;
    } else {
      var k := |more| - 1;
      VotesGrow(c, faulty, steps, more[..k]);
      assert (steps + more)[..|steps + more| - 1] == steps + more[..k];
    }
  }

  // ----- Votes on their way ----------------------------------------------------

  /** A valid vote of this kind is among the messages. */
  ghost predicate Sends(out: set<Msg>, from: nat, to: nat, txn: nat, view: nat, hash: Hash) {
    exists sig :: Sync(from, to, txn, view, hash, sig) in out && Validated(Vote(from, hash, sig))
  }

  lemma BallotsGoOut(c: Config, self: nat, view: nat, txn: nat, m: Manager, d: nat)
    requires c.Valid() && !m.syncSent && d < c.nodes && d != self
    ensures Sends(Ballots(c, self, view, txn, m), self, d, txn, view, m.hash)
  {
    var sig := if d == c.Primary(view + 1) then Some(OwnShare(m, self)) else None;
    assert d in Ids(c.nodes);
    assert Sync(self, d, txn, view, m.hash, sig) in Ballots(c, self, view, txn, m);
  }

  /** A vote that was sent. */
  lemma SomeVote(sent: set<Msg>, from: nat, to: nat, txn: nat, view: nat, hash: Hash) returns (msg: Msg)
    requires Sends(sent, from, to, txn, view, hash)
    ensures msg.Sync? && msg.from == from && msg.to == to && msg.txn == txn && msg.view == view && msg.hash == hash
    ensures msg in sent && Validated(VoteIn(msg))
  {
    var sig :| Sync(from, to, txn, view, hash, sig) in sent && Validated(Vote(from, hash, sig));
    msg := Sync(from, to, txn, view, hash, sig);
  }

  lemma StillSends(a: set<Msg>, b: set<Msg>, from: nat, to: nat, txn: nat, view: nat, hash: Hash)
    requires Sends(a, from, to, txn, view, hash) && a <= b
    ensures Sends(b, from, to, txn, view, hash)
  {
  }
}
