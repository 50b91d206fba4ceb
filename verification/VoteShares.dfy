/** The signature shares a manager holds: which votes they come from, and that each is the one
    that was sent. */
module VoteShares {
  import opened Certificate
  import opened VoteManager
  import opened Sequences

  function ShareOf(m: Manager, s: nat): Option<Share> {
    if s in m.shares then Some(m.shares[s]) else None
  }

  /** Has a vote of `s` been counted? */
  predicate HasVote(m: Manager, s: nat) {
    exists h :: h in m.voters && s in m.voters[h]
  }

  /** The share of `s` that an event hands in: the one sent with its first vote, if that counts;
      or for the replica itself, when it leads the next view, its signature under the batch
      and the certificate that the batch extends. */
  ghost function Gift(m: Manager, self: nat, e: Event, s: nat): Option<Share> {
    match e
    case Received(v) =>
      if v.from == s && s != self && !HasVote(m, s) && !m.newViewed && (m.hash == NoHash || m.hash == v.hash) then v.sig else None
    case Own(leadsNext) =>
      if s == self && leadsNext && !m.syncSent then Some(Share(self, m.hash, m.high.hash, m.high.view)) else None
    case Learn(_, _) => None
  }

  /** A received vote completes the quorum of its batch, and `s` voted for another. */
  ghost predicate Drops(m: Manager, m': Manager, e: Event, s: nat) {
    && e.Received? && !m.newViewed && m'.newViewed
    && exists h :: h in m'.voters && h != e.v.hash && s in m'.voters[h]
  }

  /** Peers are remembered only if counted. */
  ghost predicate RemembersVoters(m: Manager, self: nat) {
    forall s :: s in m.voted && s != self ==> HasVote(m, s)
  }

  lemma DuplicateIff(m: Manager, self: nat, s: nat)
    requires Remembered(m, self) && RemembersVoters(m, self)
    ensures Duplicate(m, self, s) <==> s == self || HasVote(m, s)
  {
  }

  lemma HasVoteStays(m: Manager, m': Manager, hash: Hash, s: nat)
    requires m'.voters == m.voters[hash := VotersOf(m, hash) + [s]]
    ensures HasVote(m', s) && forall x :: HasVote(m, x) ==> HasVote(m', x)
  {
    assert hash in m'.voters && s in m'.voters[hash];
    forall x | HasVote(m, x) ensures HasVote(m', x) {
      var h :| h in m.voters && x in m.voters[h];
      assert h in m'.voters && x in m'.voters[h];
    }
  }

  lemma HappenRemembers(m: Manager, self: nat, nf: nat, e: Event)
    requires RemembersVoters(m, self)
    ensures RemembersVoters(Happen(m, self, nf, e), self)
  {
    if e.Received? {
      ReceivedRemembers(m, self, nf, e.v);
    } else if e.Own? && !m.syncSent {
      HasVoteStays(m, CastVote(m, self, nf, e.leadsNext), m.hash, self);
    }
  }

  lemma ReceivedRemembers(m: Manager, self: nat, nf: nat, v: Vote)
    requires RemembersVoters(m, self)
    ensures RemembersVoters(CountVote(m, self, nf, v), self)
  {
    if !m.newViewed && !Duplicate(m, self, v.from) {
      var r := Record(m, self, v);
      HasVoteStays(m, r, v.hash, v.from);
      assert RemembersVoters(r, self);
      assert CountVote(m, self, nf, v).voters == r.voters && CountVote(m, self, nf, v).voted == r.voted;
    }
  }

  /** A share handed in is new, and the clean-up takes out exactly the shares of the voters of
      other batches. */
  ghost predicate Shared(m: Manager, self: nat, m': Manager, e: Event, s: nat) {
    && ShareOf(m', s) == (if Drops(m, m', e, s) then None else if Gift(m, self, e, s).Some? then Gift(m, self, e, s) else ShareOf(m, s))
    && (Gift(m, self, e, s).Some? ==> ShareOf(m, s).None? && HasVote(m', s) && !Drops(m, m', e, s))
  }

  lemma HappenShares(m: Manager, self: nat, nf: nat, e: Event, s: nat)
    requires Sound(m, self, nf) && RemembersVoters(m, self) && nf >= 1 && (e.Received? ==> Validated(e.v))
    ensures Shared(m, self, Happen(m, self, nf, e), e, s)
  {
    var m' := Happen(m, self, nf, e);
    match e {
      case Received(v) => ReceivedShares(m, self, nf, v, s);
      case Own(leadsNext) =>
        if !m.syncSent {
          HasVoteStays(m, m', m.hash, self);
        }
      case Learn(_, _) =>
    }
  }

  /** A vote that counts, before the quorum is looked at. */
  lemma RecordShares(m: Manager, self: nat, v: Vote, s: nat)
    requires Disjoint(m.voters) && Remembered(m, self) && CountIsMax(m) && SharesMatch(m) && Validated(v)
    requires !Duplicate(m, self, v.from) && !HasVote(m, v.from) && (m.hash == NoHash || m.hash == v.hash)
    ensures var r := Record(m, self, v);
      && ShareOf(r, s) == (if s == v.from && v.sig.Some? then v.sig else ShareOf(m, s))
      && (s == v.from ==> ShareOf(m, s).None? && HasVote(r, s) && !VotesElse(r, v.hash, s))
  {
    RecordKeepsLists(m, self, v);
    assert v.from in Record(m, self, v).voters[v.hash];
  }

  /** `s` voted for a batch other than `hash`. */
  ghost predicate VotesElse(m: Manager, hash: Hash, s: nat) {
    exists h :: h in m.voters && h != hash && s in m.voters[h]
  }

  lemma CompleteShares(r: Manager, hash: Hash, s: nat)
    ensures ShareOf(Complete(r, hash), s) == if VotesElse(r, hash, s) then None else ShareOf(r, s)
  {
    assert s in OtherVoters(r.voters, hash) <==> VotesElse(r, hash, s);
  }

  lemma AdmittedShares(m: Manager, self: nat, nf: nat, v: Vote, s: nat)
    requires Sound(m, self, nf) && !m.newViewed && nf >= 1 && Validated(v)
    requires !Duplicate(m, self, v.from) && v.from != self && !HasVote(m, v.from) && (m.hash == NoHash || m.hash == v.hash)
    ensures Shared(m, self, CountVote(m, self, nf, v), Received(v), s)
  {
    var r, e := Record(m, self, v), Received(v);
    RecordShares(m, self, v, s);
    assert Gift(m, self, e, s) == if s == v.from then v.sig else None;
    if r.voteCnt == nf {
      CompleteShares(r, v.hash, s);
      var m' := Complete(r, v.hash);
      assert Drops(m, m', e, s) <==> VotesElse(r, v.hash, s);
      assert HasVote(r, s) <==> HasVote(m', s);
    } else {
      assert !Drops(m, r, e, s);
    }
  }

  lemma RefusedShares(m: Manager, self: nat, nf: nat, v: Vote, s: nat)
    requires v.from == self || HasVote(m, v.from) || m.newViewed || (m.hash != NoHash && m.hash != v.hash)
    requires Duplicate(m, self, v.from) <==> v.from == self || HasVote(m, v.from)
    ensures Shared(m, self, Happen(m, self, nf, Received(v)), Received(v), s)
  {
    var m' := Happen(m, self, nf, Received(v));
    assert m'.shares == m.shares && m'.newViewed == m.newViewed;
    assert !Drops(m, m', Received(v), s);
  }

  lemma ReceivedShares(m: Manager, self: nat, nf: nat, v: Vote, s: nat)
    requires Sound(m, self, nf) && RemembersVoters(m, self) && nf >= 1 && Validated(v)
    ensures Shared(m, self, Happen(m, self, nf, Received(v)), Received(v), s)
  {
    DuplicateIff(m, self, v.from);
    if v.from == self || HasVote(m, v.from) || m.newViewed || (m.hash != NoHash && m.hash != v.hash) {
      RefusedShares(m, self, nf, v, s);
    } else {
      AdmittedShares(m, self, nf, v, s);
    }
  }

  // ----- Whole histories -------------------------------------------------------

  ghost predicate AllValidated(events: seq<Event>) {
    forall i :: 0 <= i < |events| && events[i].Received? ==> Validated(events[i].v)
  }

  /** The manager after `k` events. */
  ghost function At(self: nat, nf: nat, events: seq<Event>, k: nat): Manager
    requires k <= |events|
  {
    History(self, nf, events[..k])
  }

  lemma AtNext(self: nat, nf: nat, events: seq<Event>, k: nat)
    requires k < |events|
    ensures At(self, nf, events, k + 1) == Happen(At(self, nf, events, k), self, nf, events[k])
  {
    assert events[..k + 1][..k] == events[..k];
  }

  lemma {:induction false} AtIsSound(self: nat, nf: nat, events: seq<Event>, k: nat)
    requires nf >= 1 && AllValidated(events) && k <= |events|
    ensures Sound(At(self, nf, events, k), self, nf) && RemembersVoters(At(self, nf, events, k), self)
  {
    BookkeepingIsSound(self, nf, events[..k]);
    if k > 0 {
      AtIsSound(self, nf, events, k - 1);
      AtNext(self, nf, events, k - 1);
      HappenRemembers(At(self, nf, events, k - 1), self, nf, events[k - 1]);
    }
  }

  /** What the events hand in for `s`, and which of them drop its share. */
  ghost function Gifts(self: nat, nf: nat, events: seq<Event>, s: nat): seq<Option<Share>> {
    seq(|events|, k requires 0 <= k < |events| => Gift(At(self, nf, events, k), self, events[k], s))
  }

  ghost function Dropped(self: nat, nf: nat, events: seq<Event>, s: nat): seq<bool> {
    seq(|events|, k requires 0 <= k < |events| =>
      Drops(At(self, nf, events, k), At(self, nf, events, k + 1), events[k], s))
  }

  /** After any sequence of validated votes, own votes and announcements: the manager holds this
      share of `s` exactly if some event handed it in and no completed quorum dropped it since. */
  lemma SharesAreGifts(self: nat, nf: nat, events: seq<Event>, s: nat, share: Share)
    requires nf >= 1 && AllValidated(events)
    ensures var m := History(self, nf, events);
      s in m.shares && m.shares[s] == share <==>
        exists k: nat :: Decides(Gifts(self, nf, events, s), Dropped(self, nf, events, s), k, |events|) &&
                         Gifts(self, nf, events, s)[k] == Some(share)
  {
    var gifts, dropped := Gifts(self, nf, events, s), Dropped(self, nf, events, s);
    var held := seq(|events| + 1, k requires 0 <= k <= |events| => ShareOf(At(self, nf, events, k), s));
    assert events[..0] == [] && events[..|events|] == events;
    forall k | 0 <= k < |gifts|
      ensures held[k + 1] == if dropped[k] then None else if gifts[k].Some? then gifts[k] else held[k]
    {
      AtNext(self, nf, events, k);
      AtIsSound(self, nf, events, k);
      HappenShares(At(self, nf, events, k), self, nf, events[k], s);
    }
    LastCounts(held, gifts, dropped, |events|, share);
  }

  /** Some of the first `k` events handed in a share of `s`. */
  ghost predicate Given(self: nat, nf: nat, events: seq<Event>, k: nat, s: nat)
    requires k <= |events|
  {
    exists j: nat :: j < k && GiftAt(self, nf, events, j, s).Some?
  }

  ghost function GiftAt(self: nat, nf: nat, events: seq<Event>, k: nat, s: nat): Option<Share>
    requires k < |events|
  {
    Gift(At(self, nf, events, k), self, events[k], s)
  }

  lemma GivenNext(self: nat, nf: nat, events: seq<Event>, k: nat, s: nat)
    requires k < |events|
    ensures Given(self, nf, events, k + 1, s) <==> Given(self, nf, events, k, s) || GiftAt(self, nf, events, k, s).Some?
  {
    if Given(self, nf, events, k, s) {
      var j: nat :| j < k && GiftAt(self, nf, events, j, s).Some?;
      assert j < k + 1;
    }
  }

  /** All shares of `s` handed in by the first `k` events are the one it has. */
  ghost predicate AllSame(self: nat, nf: nat, events: seq<Event>, k: nat, s: nat, share: Option<Share>)
    requires k <= |events|
  {
    forall j: nat :: j < k && GiftAt(self, nf, events, j, s).Some? ==> GiftAt(self, nf, events, j, s) == share
  }

  /** As long as the quorum is not complete every share handed in is held. */
  lemma {:induction false} NoneDropped(self: nat, nf: nat, events: seq<Event>, k: nat, s: nat)
    requires nf >= 1 && AllValidated(events) && k <= |events| && !At(self, nf, events, k).newViewed
    ensures ShareOf(At(self, nf, events, k), s).Some? <==> Given(self, nf, events, k, s)
    ensures AllSame(self, nf, events, k, s, ShareOf(At(self, nf, events, k), s))
  {
    if k > 0 {
      AtNext(self, nf, events, k - 1);
      AtIsSound(self, nf, events, k - 1);
      assert !At(self, nf, events, k - 1).newViewed;
      NoneDropped(self, nf, events, k - 1, s);
      HappenShares(At(self, nf, events, k - 1), self, nf, events[k - 1], s);
      GivenNext(self, nf, events, k - 1, s);
      MoreSame(self, nf, events, k - 1, s, ShareOf(At(self, nf, events, k), s));
    }
  }

  lemma MoreSame(self: nat, nf: nat, events: seq<Event>, k: nat, s: nat, share: Option<Share>)
    requires k < |events|
    requires GiftAt(self, nf, events, k, s).Some? ==> !Given(self, nf, events, k, s) && share == GiftAt(self, nf, events, k, s)
    requires GiftAt(self, nf, events, k, s).None? ==> AllSame(self, nf, events, k, s, share)
    ensures AllSame(self, nf, events, k + 1, s, share)
  {
  }

  /** When a received vote completes the quorum, the shares held are exactly those of the voters
      of its batch who signed, each as it was sent; the replica itself is among them if it voted
      as the next leader. */
  lemma CompletedShares(self: nat, nf: nat, events: seq<Event>, n: nat, s: nat)
    requires nf >= 1 && AllValidated(events) && n < |events| && events[n].Received?
    requires !At(self, nf, events, n).newViewed && At(self, nf, events, n + 1).newViewed
    ensures var m', v := At(self, nf, events, n + 1), events[n].v;
      && (s in m'.shares <==> s in VotersOf(m', v.hash) && Given(self, nf, events, n + 1, s))
      && (s in m'.shares ==> AllSame(self, nf, events, n + 1, s, Some(m'.shares[s])))
  {
    var m, m', v := At(self, nf, events, n), At(self, nf, events, n + 1), events[n].v;
    AtNext(self, nf, events, n);
    AtIsSound(self, nf, events, n);
    AtIsSound(self, nf, events, n + 1);
    NoneDropped(self, nf, events, n, s);
    HappenShares(m, self, nf, events[n], s);
    OnlyWinners(m, m', events[n], self, nf, s);
    GivenNext(self, nf, events, n, s);
    if s in m'.shares {
      MoreSame(self, nf, events, n, s, ShareOf(m', s));
    }
  }

  lemma OnlyWinners(m: Manager, m': Manager, e: Event, self: nat, nf: nat, s: nat)
    requires Sound(m', self, nf) && e.Received? && !m.newViewed && m'.newViewed && Shared(m, self, m', e, s)
    ensures s in VotersOf(m', e.v.hash) ==> !Drops(m, m', e, s)
    ensures s in m'.shares ==> s in VotersOf(m', e.v.hash)
  {
  }
}
