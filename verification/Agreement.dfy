/** No two correct replicas count a quorum for different batches of a slot, and
    garbage collection never lets a replica vote twice. */
module Agreement {
  import opened Cluster
  import opened Certificate
  import opened VoteManager
  import opened Replica
  import opened System
  import opened Sequences

  /** Everyone in a voter list is a replica; if correct, it cast that vote. */
  ghost predicate Backed(c: Config, faulty: set<nat>, votes: set<Ballot>, txn: nat, m: Manager) {
    forall h, k {:trigger k in m.voters[h]} :: h in m.voters && k in m.voters[h] ==>
      k < c.nodes && (k in faulty || Ballot(k, txn, h) in votes)
  }

  ghost predicate ReplicaInv(c: Config, faulty: set<nat>, votes: set<Ballot>, r: Replica)
    requires c.Valid()
  {
    && (forall txn :: txn in r.mgrs ==> Sound(r.mgrs[txn], r.self, c.Nf()))
    && (forall txn :: txn in r.mgrs ==> Backed(c, faulty, votes, txn, r.mgrs[txn]))
    && (forall b :: b in votes && b.voter == r.self ==> Mgr(r, b.txn).syncSent || b.txn < r.nextIndex)
  }

  ghost predicate OneVote(votes: set<Ballot>) {
    forall a, b :: a in votes && b in votes && a.voter == b.voter && a.txn == b.txn ==> a.hash == b.hash
  }

  ghost predicate Inv(c: Config, faulty: set<nat>, s: Sys)
    requires c.Valid()
  {
    && |s.reps| == c.nodes
    && (forall i :: 0 <= i < c.nodes ==> s.reps[i].self == i)
    && (forall i :: 0 <= i < c.nodes && i !in faulty ==> ReplicaInv(c, faulty, s.votes, s.reps[i]))
    && (forall m :: m in s.sent && m.Sync? ==> Ballot(m.from, m.txn, m.hash) in s.votes)
    && OneVote(s.votes)
  }

  /** What a step does to the managers of the replica that takes it: at most one
      changes, and it changes by counting a vote, casting one, or neither. */
  datatype Change = Change(txn: nat, base: Manager, cast: bool, leadsNext: bool, vote: Option<Vote>)

  function Changed(c: Config, self: nat, ch: Change): Manager
    requires c.Valid()
  {
    if ch.cast then CastVote(ch.base, self, c.Nf(), ch.leadsNext)
    else if ch.vote.Some? then CountVote(ch.base, self, c.Nf(), ch.vote.value)
    else ch.base
  }

  /** The manager before the vote is counted: other fields may have been set. */
  predicate SameVotes(m: Manager, n: Manager) {
    m.voted == n.voted && m.voters == n.voters && m.voteCnt == n.voteCnt && m.newViewed == n.newViewed
    && m.shares == n.shares && m.syncSent == n.syncSent
  }

  lemma SoundTransfers(m: Manager, n: Manager, self: nat, nf: nat)
    requires SameVotes(m, n) && Sound(m, self, nf)
    ensures Sound(n, self, nf)
  {
  }

  lemma FreshIsSound(self: nat, nf: nat)
    requires nf >= 1
    ensures Sound(Fresh(), self, nf)
  {
  }

  /** The one vote-relevant change of a step. */
  function ChangeOf(c: Config, r: Replica, step: Step): Option<Change>
    requires c.Valid()
  {
    match step
    case Deliver(_, msg) =>
      var m := Mgr(r, msg.txn);
      if msg.Sync? then
        if Counted(r, msg) then Some(Change(msg.txn, m, false, false, Some(VoteIn(msg)))) else None
      else if msg.Proposal? then
        if msg.txn - 2 <= r.nextIndex || m.proposal || (m.generic && m.hash != msg.hash) then None
        else Some(Change(msg.txn, m.(hash := msg.hash, proposal := true), false, false, None))
      else if !Acceptable(c, r, msg) || (m.hash != NoHash && m.hash != msg.hash) then None
      else Some(Change(msg.txn, m.(hash := msg.hash, high := msg.high, generic := true), true,
                       r.self == c.Primary(r.view + 1), None))
    case DoPropose(_, hash) =>
      var txn := c.Txn(r.nextSend);
      Some(Change(txn, Mgr(r, txn).(hash := hash, proposal := true), false, false, None))
    case DoLead(_) =>
      var txn := c.Txn(r.lastSent);
      var m := Mgr(r, txn);
      if r.incomplete == 0 || txn <= r.nextIndex || m.hash == NoHash then None
      else Some(Change(txn, m.(high := r.store.prepared, generic := true), true,
                       r.self == c.Primary(r.view + 1), None))
    case _ => None
  }

  ghost predicate Follows(c: Config, r: Replica, r': Replica, ch: Option<Change>)
    requires c.Valid()
  {
    && r'.nextIndex >= r.nextIndex
    && (ch.None? ==> r'.mgrs == r.mgrs)
    && (ch.Some? ==>
        && r'.mgrs == r.mgrs[ch.value.txn := Changed(c, r.self, ch.value)]
        && SameVotes(Mgr(r, ch.value.txn), ch.value.base)
        && (ch.value.cast ==> ch.value.txn > r.nextIndex && r'.nextIndex == r.nextIndex))
  }

  lemma SyncFollows(c: Config, r: Replica, i: nat, msg: Msg)
    requires c.Valid() && msg.Sync?
    ensures Follows(c, r, OnSync(c, r, msg), ChangeOf(c, r, Deliver(i, msg)))
  {
    if Counted(r, msg) {
      var m, v := Mgr(r, msg.txn), VoteIn(msg);
      var m' := CountVote(m, r.self, c.Nf(), v);
      var ready := Completes(m, r.self, c.Nf(), v) && m'.proposal && m'.generic;
      var filed := if |VotersOf(m, v.hash)| == 0 && |VotersOf(m', v.hash)| == 1
                   then r.store.(txnOf := r.store.txnOf[v.hash := msg.txn]) else r.store;
      AdvanceFrame(c, PutMgr(r.(store := filed), msg.txn, m'), msg.txn, ready);
    }
  }

  lemma ProposalFollows(c: Config, r: Replica, i: nat, msg: Msg)
    requires c.Valid() && msg.Proposal?
    ensures Follows(c, r, OnProposal(c, r, msg), ChangeOf(c, r, Deliver(i, msg)))
  {
    var m' := Mgr(r, msg.txn).(hash := msg.hash, proposal := true);
    var txnOf := if msg.hash in r.store.txnOf then r.store.txnOf else r.store.txnOf[msg.hash := msg.txn];
    AdvanceFrame(c, PutMgr(r.(store := r.store.(txnOf := txnOf)), msg.txn, m'), msg.txn, m'.newViewed && m'.generic);
  }

  lemma GenericFollows(c: Config, r: Replica, i: nat, g: Msg)
    requires c.Valid() && g.Generic?
    ensures Follows(c, r, OnGeneric(c, r, g).r, ChangeOf(c, r, Deliver(i, g)))
  {
    var m2 := VoteFor(c, r.self, r.view, Mgr(r, g.txn).(hash := g.hash, high := g.high, generic := true));
    AdvanceFrame(c, PutMgr(r.(store := Extend(c, r, g)), g.txn, m2), g.txn, m2.newViewed && m2.proposal);
  }

  /** The managers of a replica change only as `ChangeOf` says. */
  lemma ChangeIsAll(c: Config, r: Replica, step: Step)
    requires c.Valid() && !step.DoRelease?
    ensures Follows(c, r, Act(c, r, step).r, ChangeOf(c, r, step))
  {
    match step
    case Deliver(i, msg) =>
      if msg.Generic? {
        GenericFollows(c, r, i, msg);
      } else if msg.Sync? {
        SyncFollows(c, r, i, msg);
      } else {
        ProposalFollows(c, r, i, msg);
      }
    case _ =>
  }

  lemma VotesOfChange(c: Config, r: Replica, step: Step)
    requires c.Valid()
    ensures var e, ch := Act(c, r, step), ChangeOf(c, r, step);
      && Voted(c, r, step) ==
           (if ch.Some? && ch.value.cast && !ch.value.base.syncSent
            then {Ballot(r.self, ch.value.txn, ch.value.base.hash)} else {})
      && (forall m :: m in e.out && m.Sync? ==> Ballot(m.from, m.txn, m.hash) in Voted(c, r, step))
  {
    if !step.DoRelease? {
      ChangeIsAll(c, r, step);
    }
  }

  lemma BackedGrows(c: Config, faulty: set<nat>, votes: set<Ballot>, more: set<Ballot>, txn: nat, m: Manager)
    requires Backed(c, faulty, votes, txn, m) && votes <= more
    ensures Backed(c, faulty, more, txn, m)
  {
  }

  lemma BackedAppend(c: Config, faulty: set<nat>, votes: set<Ballot>, txn: nat, m: Manager, m': Manager, h: Hash, k: nat)
    requires Backed(c, faulty, votes, txn, m)
    requires k < c.nodes && (k in faulty || Ballot(k, txn, h) in votes)
    requires Appended(m, m', h, k)
    ensures Backed(c, faulty, votes, txn, m')
  {
    forall g, j | g in m'.voters && j in m'.voters[g]
      ensures j < c.nodes && (j in faulty || Ballot(j, txn, g) in votes)
    {
      if g == h && m'.voters != m.voters {
        assert j == k || j in VotersOf(m, h);
      }
    }
  }

  /** Who was counted, and where. */
  predicate Appended(m: Manager, m': Manager, h: Hash, k: nat) {
    m'.voters == m.voters || m'.voters == m.voters[h := VotersOf(m, h) + [k]]
  }

  lemma CountAppends(m: Manager, self: nat, nf: nat, v: Vote)
    ensures Appended(m, CountVote(m, self, nf, v), v.hash, v.from)
  {
  }

  lemma CastAppends(m: Manager, self: nat, nf: nat, leadsNext: bool)
    ensures Appended(m, CastVote(m, self, nf, leadsNext), m.hash, self)
    ensures m.syncSent ==> CastVote(m, self, nf, leadsNext) == m
  {
  }

  lemma ChangedIsSound(c: Config, self: nat, ch: Change)
    requires c.Valid() && Sound(ch.base, self, c.Nf())
    requires ch.vote.Some? ==> Validated(ch.vote.value)
    ensures Sound(Changed(c, self, ch), self, c.Nf())
  {
    if ch.cast {
      CastVoteKeepsSound(ch.base, self, c.Nf(), ch.leadsNext);
    } else if ch.vote.Some? {
      CountVoteKeepsSound(ch.base, self, c.Nf(), ch.vote.value);
    }
  }

  /** The vote a change counts is backed: it came from a faulty replica, or was
      cast by a correct one, or is the replica's own recorded ballot. */
  ghost predicate VoteIsBacked(c: Config, faulty: set<nat>, votes: set<Ballot>, self: nat, ch: Change) {
    && (ch.cast && !ch.base.syncSent ==> Ballot(self, ch.txn, ch.base.hash) in votes)
    && (!ch.cast && ch.vote.Some? ==>
        && ch.vote.value.from < c.nodes
        && (ch.vote.value.from in faulty || Ballot(ch.vote.value.from, ch.txn, ch.vote.value.hash) in votes))
  }

  lemma ChangedIsBacked(c: Config, faulty: set<nat>, votes: set<Ballot>, self: nat, ch: Change)
    requires c.Valid() && self < c.nodes
    requires Backed(c, faulty, votes, ch.txn, ch.base)
    requires VoteIsBacked(c, faulty, votes, self, ch)
    ensures Backed(c, faulty, votes, ch.txn, Changed(c, self, ch))
  {
    var m' := Changed(c, self, ch);
    if ch.cast {
      CastAppends(ch.base, self, c.Nf(), ch.leadsNext);
      if !ch.base.syncSent {
        BackedAppend(c, faulty, votes, ch.txn, ch.base, m', ch.base.hash, self);
      }
    } else if ch.vote.Some? {
      var v := ch.vote.value;
      CountAppends(ch.base, self, c.Nf(), v);
      BackedAppend(c, faulty, votes, ch.txn, ch.base, m', v.hash, v.from);
    }
  }

  /** Under a larger set of ballots, none of its own, a replica is as it was. */
  lemma ReplicaInvGrows(c: Config, faulty: set<nat>, votes: set<Ballot>, more: set<Ballot>, r: Replica)
    requires c.Valid() && ReplicaInv(c, faulty, votes, r) && votes <= more
    requires forall b :: b in more && b.voter == r.self ==> b in votes
    ensures ReplicaInv(c, faulty, more, r)
  {
    forall txn | txn in r.mgrs ensures Backed(c, faulty, more, txn, r.mgrs[txn]) {
      BackedGrows(c, faulty, votes, more, txn, r.mgrs[txn]);
    }
  }

  /** The ballots after a change. */
  function VotesAfter(votes: set<Ballot>, self: nat, ch: Change): set<Ballot> {
    if ch.cast && !ch.base.syncSent then votes + {Ballot(self, ch.txn, ch.base.hash)} else votes
  }

  lemma ChangeKeepsManagers(c: Config, faulty: set<nat>, votes: set<Ballot>, r: Replica, r': Replica, ch: Change)
    requires c.Valid() && r.self < c.nodes
    requires ReplicaInv(c, faulty, votes, r)
    requires Follows(c, r, r', Some(ch)) && r'.self == r.self
    requires ch.vote.Some? ==> !ch.cast && Validated(ch.vote.value)
    requires VoteIsBacked(c, faulty, VotesAfter(votes, r.self, ch), r.self, ch)
    ensures Sound(Changed(c, r.self, ch), r.self, c.Nf())
    ensures forall txn :: txn in r'.mgrs ==> Backed(c, faulty, VotesAfter(votes, r.self, ch), txn, r'.mgrs[txn])
  {
    var votes' := VotesAfter(votes, r.self, ch);
    FreshIsSound(r.self, c.Nf());
    SoundTransfers(Mgr(r, ch.txn), ch.base, r.self, c.Nf());
    ChangedIsSound(c, r.self, ch);
    assert Backed(c, faulty, votes, ch.txn, Mgr(r, ch.txn));
    BackedGrows(c, faulty, votes, votes', ch.txn, ch.base);
    ChangedIsBacked(c, faulty, votes', r.self, ch);
    forall txn | txn in r'.mgrs ensures Backed(c, faulty, votes', txn, r'.mgrs[txn]) {
      if txn != ch.txn {
        BackedGrows(c, faulty, votes, votes', txn, r.mgrs[txn]);
      }
    }
  }

  lemma SyncSentStays(c: Config, self: nat, ch: Change)
    requires c.Valid()
    ensures Changed(c, self, ch).syncSent == (ch.base.syncSent || ch.cast)
  {
  }

  /** A change keeps the invariant of the replica; a ballot it casts is new. */
  lemma ChangeKeepsInv(c: Config, faulty: set<nat>, votes: set<Ballot>, r: Replica, r': Replica, ch: Change)
    requires c.Valid() && r.self < c.nodes
    requires ReplicaInv(c, faulty, votes, r)
    requires Follows(c, r, r', Some(ch)) && r'.self == r.self
    requires ch.vote.Some? ==> !ch.cast && Validated(ch.vote.value)
    requires VoteIsBacked(c, faulty, VotesAfter(votes, r.self, ch), r.self, ch)
    ensures ReplicaInv(c, faulty, VotesAfter(votes, r.self, ch), r')
    ensures OneVote(votes) ==> OneVote(VotesAfter(votes, r.self, ch))
  {
    ChangeKeepsManagers(c, faulty, votes, r, r', ch);
    SyncSentStays(c, r.self, ch);
  }

  /** The vote a step counts was validated and is backed. */
  lemma CountedIsBacked(c: Config, faulty: set<nat>, s: Sys, step: Step)
    requires c.Valid() && Inv(c, faulty, s) && Enabled(c, faulty, s, step)
    ensures var r := s.reps[step.i];
      var ch := ChangeOf(c, r, step);
      ch.Some? ==>
        && (ch.value.vote.Some? ==> !ch.value.cast && Validated(ch.value.vote.value))
        && VoteIsBacked(c, faulty, VotesAfter(s.votes, r.self, ch.value), r.self, ch.value)
  {
  }

  /** The replica that takes a step keeps its invariant under the new ballots. */
  lemma ActorKeepsInv(c: Config, faulty: set<nat>, s: Sys, step: Step)
    requires c.Valid() && Inv(c, faulty, s) && Enabled(c, faulty, s, step)
    ensures var s' := Next(c, faulty, s, step);
      ReplicaInv(c, faulty, s'.votes, s'.reps[step.i]) && OneVote(s'.votes)
  {
    var r, e := s.reps[step.i], Act(c, s.reps[step.i], step);
    VotesOfChange(c, r, step);
    SelfKept(c, r, step);
    if step.DoRelease? {
      ReleaseKeepsInv(c, faulty, s.votes, r, step.txn);
    } else {
      ChangeIsAll(c, r, step);
      var ch := ChangeOf(c, r, step);
      if ch.Some? {
        CountedIsBacked(c, faulty, s, step);
        assert s.votes + Voted(c, r, step) == VotesAfter(s.votes, r.self, ch.value);
        ChangeKeepsInv(c, faulty, s.votes, r, e.r, ch.value);
      } else {
        IdleKeepsInv(c, faulty, s.votes, r, e.r);
      }
    }
  }

  lemma ReleaseKeepsInv(c: Config, faulty: set<nat>, votes: set<Ballot>, r: Replica, txn: nat)
    requires c.Valid() && ReplicaInv(c, faulty, votes, r) && CanRelease(r, txn)
    ensures ReplicaInv(c, faulty, votes, Release(r, txn))
  {
  }

  lemma IdleKeepsInv(c: Config, faulty: set<nat>, votes: set<Ballot>, r: Replica, r': Replica)
    requires c.Valid() && ReplicaInv(c, faulty, votes, r)
    requires r'.mgrs == r.mgrs && r'.self == r.self && r'.nextIndex >= r.nextIndex
    ensures ReplicaInv(c, faulty, votes, r')
  {
  }

  lemma NextKeepsInv(c: Config, faulty: set<nat>, s: Sys, step: Step)
    requires c.Valid() && Inv(c, faulty, s)
    ensures Inv(c, faulty, Next(c, faulty, s, step))
  {
    if Enabled(c, faulty, s, step) {
      ActorKeepsInv(c, faulty, s, step);
      SelfKept(c, s.reps[step.i], step);
      VotesOfChange(c, s.reps[step.i], step);
      var cast := Voted(c, s.reps[step.i], step);
      assert forall b :: b in cast ==> b.voter == step.i;
      OthersKeepInv(c, faulty, s, step.i, Act(c, s.reps[step.i], step), cast);
    }
  }

  lemma OthersKeepInv(c: Config, faulty: set<nat>, s: Sys, actor: nat, e: Effect, cast: set<Ballot>)
    requires c.Valid() && Inv(c, faulty, s) && actor < c.nodes && e.r.self == actor
    requires actor !in faulty ==> ReplicaInv(c, faulty, s.votes + cast, e.r)
    requires OneVote(s.votes + cast)
    requires forall b :: b in cast ==> b.voter == actor
    requires forall m :: m in e.out && m.Sync? ==> Ballot(m.from, m.txn, m.hash) in cast
    ensures Inv(c, faulty, Sys(s.reps[actor := e.r], s.sent + e.out, s.votes + cast))
  {
    forall i | 0 <= i < c.nodes && i !in faulty && i != actor
      ensures ReplicaInv(c, faulty, s.votes + cast, s.reps[i])
    {
      ReplicaInvGrows(c, faulty, s.votes, s.votes + cast, s.reps[i]);
    }
  }

  lemma {:induction false} RunKeepsInv(c: Config, faulty: set<nat>, steps: seq<Step>)
    requires c.Valid()
    ensures Inv(c, faulty, Run(c, faulty, steps))
  {
    if steps != [] {
      RunKeepsInv(c, faulty, steps[..|steps| - 1]);
      NextKeepsInv(c, faulty, Run(c, faulty, steps[..|steps| - 1]), steps[|steps| - 1]);
    }
  }

  /** Replica `i` has counted a quorum of votes for batch `h` of slot `txn`. */
  ghost predicate Counts(c: Config, s: Sys, i: nat, txn: nat, h: Hash)
    requires c.Valid()
  {
    i < |s.reps| && h in Mgr(s.reps[i], txn).voters && |Mgr(s.reps[i], txn).voters[h]| >= c.Nf()
  }

  /** Vote agreement: whatever fewer than 2*nf - n faulty replicas do, if one
      correct replica counts a quorum for `h` and the same or another correct
      replica, at that time or later, counts one for `g`, then `h` is `g`. */
  lemma VoteAgreement(c: Config, faulty: set<nat>, steps: seq<Step>, more: seq<Step>,
                      i: nat, j: nat, txn: nat, h: Hash, g: Hash)
    requires c.Valid() && |faulty| < 2 * c.Nf() - c.nodes
    requires i !in faulty && j !in faulty
    requires Counts(c, Run(c, faulty, steps), i, txn, h)
    requires Counts(c, Run(c, faulty, steps + more), j, txn, g)
    ensures h == g
  {
    RunKeepsInv(c, faulty, steps);
    RunKeepsInv(c, faulty, steps + more);
    VotesGrow(c, faulty, steps, more);
    var early, late := Run(c, faulty, steps), Run(c, faulty, steps + more);
    QuorumIsBacked(c, faulty, early, i, txn, h);
    QuorumIsBacked(c, faulty, late, j, txn, g);
    var k := SharedCorrect(c.nodes, c.Nf(), VotersOf(Mgr(early.reps[i], txn), h), VotersOf(Mgr(late.reps[j], txn), g), faulty);
    assert Ballot(k, txn, h) in late.votes && Ballot(k, txn, g) in late.votes;
  }

  lemma QuorumIsBacked(c: Config, faulty: set<nat>, s: Sys, i: nat, txn: nat, h: Hash)
    requires c.Valid() && Inv(c, faulty, s) && i !in faulty && Counts(c, s, i, txn, h)
    ensures var list := VotersOf(Mgr(s.reps[i], txn), h);
      && NoDup(list) && |list| >= c.Nf()
      && (forall x :: 0 <= x < |list| ==> list[x] < c.nodes)
      && (forall k :: k in list && k !in faulty ==> Ballot(k, txn, h) in s.votes)
  {
    assert ReplicaInv(c, faulty, s.votes, s.reps[i]);
    assert txn in s.reps[i].mgrs;
    var list := s.reps[i].mgrs[txn].voters[h];
    assert Backed(c, faulty, s.votes, txn, s.reps[i].mgrs[txn]);
    assert forall x :: 0 <= x < |list| ==> list[x] in s.reps[i].mgrs[txn].voters[h];
  }

  /** Garbage collection cannot enable a second vote: over a whole run, releases
      of managers included, a correct replica sends votes for at most one batch
      of a slot. */
  lemma OneVotePerSlot(c: Config, faulty: set<nat>, steps: seq<Step>, more: seq<Step>, x: Msg, y: Msg)
    requires c.Valid()
    requires x in Run(c, faulty, steps).sent && y in Run(c, faulty, steps + more).sent
    requires x.Sync? && y.Sync? && x.from == y.from && x.txn == y.txn
    ensures x.hash == y.hash
  {
    RunKeepsInv(c, faulty, steps);
    RunKeepsInv(c, faulty, steps + more);
    VotesGrow(c, faulty, steps, more);
  }

  /** Step `k` of a run makes replica `i` cast its vote for slot `txn`. */
  ghost predicate VotesAt(c: Config, faulty: set<nat>, steps: seq<Step>, k: nat, i: nat, txn: nat)
    requires c.Valid()
  {
    && k < |steps| && steps[k].i == i
    && var s := Run(c, faulty, steps[..k]);
       Enabled(c, faulty, s, steps[k]) && exists h :: Ballot(i, txn, h) in Voted(c, s.reps[i], steps[k])
  }

  /** A correct replica casts at most one vote for a slot in a whole run, whatever is
      released in between: not even a second one for the same batch. */
  lemma VotedOnce(c: Config, faulty: set<nat>, steps: seq<Step>, k: nat, l: nat, i: nat, txn: nat)
    requires c.Valid() && k < l && VotesAt(c, faulty, steps, k, i, txn)
    ensures !VotesAt(c, faulty, steps, l, i, txn)
  {
    if l < |steps| && steps[l].i == i {
      var before, after, late := Run(c, faulty, steps[..k]), Run(c, faulty, steps[..k + 1]), Run(c, faulty, steps[..l]);
      var h :| Ballot(i, txn, h) in Voted(c, before.reps[i], steps[k]);
      assert steps[..k + 1][..k] == steps[..k];
      assert Ballot(i, txn, h) in after.votes;
      VotesGrow(c, faulty, steps[..k + 1], steps[k + 1..l]);
      assert steps[..k + 1] + steps[k + 1..l] == steps[..l];
      RunKeepsInv(c, faulty, steps[..l]);
      if Enabled(c, faulty, late, steps[l]) {
        NoSecondVote(c, late.reps[i], steps[l], txn);
      }
    }
  }

  lemma NoSecondVote(c: Config, r: Replica, step: Step, txn: nat)
    requires c.Valid() && (Mgr(r, txn).syncSent || txn < r.nextIndex)
    ensures forall h :: Ballot(r.self, txn, h) !in Voted(c, r, step)
  {
    VotesOfChange(c, r, step);
    if !step.DoRelease? {
      ChangeIsAll(c, r, step);
    }
  }
}
