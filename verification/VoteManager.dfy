/** Counting the synchronisation votes of one slot. */
module VoteManager {
  import opened Certificate
  import opened Sequences

  /** A signature share of a vote: who signed, for which batch, extending which
      certificate. */
  datatype Share = Share(signer: nat, hash: Hash, highHash: Hash, highView: nat)

  type Cert = QC<Hash, Share>

  /** A vote as it reaches a replica, its sender authenticated. */
  datatype Vote = Vote(from: nat, hash: Hash, sig: Option<Share>)

  /** The part of a transaction manager that decides on votes and views. */
  datatype Manager = Manager(
    hash: Hash, syncSent: bool, proposal: bool, generic: bool, high: Cert,
    shares: map<nat, Share>, voted: seq<nat>, voters: map<Hash, seq<nat>>,
    voteCnt: nat, newViewed: bool)

  function Fresh(): Manager {
    Manager(NoHash, false, false, false, Blank(), map[], [], map[], 0, false)
  }

  function VotersOf(m: Manager, hash: Hash): seq<nat> {
    if hash in m.voters then m.voters[hash] else []
  }

  /** Everyone whose vote went to a batch other than `hash`. */
  function OtherVoters(voters: map<Hash, seq<nat>>, hash: Hash): set<nat> {
    set h, s | h in voters && h != hash && s in voters[h] :: s
  }

  /** Has the sender been counted, or is it the replica itself? */
  predicate Duplicate(m: Manager, self: nat, from: nat) {
    from in (if m.voted == [] then [self] else m.voted)
  }

  /** Add a vote to the list of its batch, and its share if the batch may still
      be the right one. */
  function Record(m: Manager, self: nat, v: Vote): Manager {
    var list := VotersOf(m, v.hash) + [v.from];
    m.(shares := if v.sig.Some? && (m.hash == NoHash || m.hash == v.hash)
                 then m.shares[v.from := v.sig.value] else m.shares,
       voted := (if m.voted == [] then [self] else m.voted) + [v.from],
       voters := m.voters[v.hash := list],
       voteCnt := if |list| > m.voteCnt then |list| else m.voteCnt)
  }

  /** The quorum is complete: forget the shares of the other batches. */
  function Complete(m: Manager, hash: Hash): Manager {
    m.(shares := m.shares - OtherVoters(m.voters, hash), newViewed := true)
  }

  /** Count a received vote. */
  function CountVote(m: Manager, self: nat, nf: nat, v: Vote): Manager {
    if m.newViewed then m
    else if Duplicate(m, self, v.from) then m.(voted := if m.voted == [] then [self] else m.voted)
    else
      var r := Record(m, self, v);
      if r.voteCnt == nf then Complete(r, v.hash) else r
  }

  /** Does this received vote complete the quorum? */
  predicate Completes(m: Manager, self: nat, nf: nat, v: Vote) {
    !m.newViewed && !Duplicate(m, self, v.from) && Record(m, self, v).voteCnt == nf
  }

  /** Cast the replica's own vote for the manager's batch, at most once. The
      share is kept when this replica leads the next view. */
  function CastVote(m: Manager, self: nat, nf: nat, leadsNext: bool): Manager {
    if m.syncSent then m else
    var shares := if leadsNext then m.shares[self := OwnShare(m, self)] else m.shares;
    var list := VotersOf(m, m.hash) + [self];
    var cnt := if |list| > m.voteCnt then |list| else m.voteCnt;
    m.(syncSent := true, shares := shares, voters := m.voters[m.hash := list],
       voteCnt := cnt, newViewed := m.newViewed || cnt == nf)
  }

  function OwnShare(m: Manager, self: nat): Share {
    Share(self, m.hash, m.high.hash, m.high.view)
  }

  /** Quorum, proposal and the leader's message are all there. */
  predicate Ready(m: Manager) {
    m.newViewed && m.proposal && m.generic
  }

  lemma CountFlags(m: Manager, self: nat, nf: nat, v: Vote)
    ensures var m' := CountVote(m, self, nf, v);
      && m'.proposal == m.proposal && m'.generic == m.generic && m'.hash == m.hash && m'.high == m.high
      && m'.newViewed == (m.newViewed || Completes(m, self, nf, v))
      && (m.newViewed ==> !Completes(m, self, nf, v))
  {
  }

  lemma CastFlags(m: Manager, self: nat, nf: nat, leadsNext: bool)
    ensures var m' := CastVote(m, self, nf, leadsNext);
      && m'.proposal == m.proposal && m'.generic == m.generic && m'.hash == m.hash && m'.high == m.high
      && (m.newViewed ==> m'.newViewed)
  {
  }

  // ----- What holds of every manager ------------------------------------------

  /** Voter lists are duplicate-free and pairwise disjoint. */
  ghost predicate Disjoint(voters: map<Hash, seq<nat>>) {
    && (forall h :: h in voters ==> NoDup(voters[h]))
    && (forall h, g, s :: h in voters && g in voters && s in voters[h] && s in voters[g] ==> h == g)
  }

  /** Everyone counted is remembered: peers in `voted`, the replica itself by
      `syncSent`; `voted` starts with the replica itself. */
  ghost predicate Remembered(m: Manager, self: nat) {
    && (m.voted != [] ==> m.voted[0] == self)
    && (forall h :: h in m.voters && self in m.voters[h] ==> m.syncSent)
    && (forall h, s :: h in m.voters && s in m.voters[h] && s != self ==> s in m.voted)
  }

  ghost predicate CountIsMax(m: Manager) {
    && (forall h :: h in m.voters ==> |m.voters[h]| <= m.voteCnt)
    && (m.voteCnt > 0 ==> exists h :: h in m.voters && |m.voters[h]| == m.voteCnt)
  }

  /** A share belongs to a counted voter and signs the batch voted for. */
  ghost predicate SharesMatch(m: Manager) {
    forall s :: s in m.shares ==>
      exists h :: h in m.voters && s in m.voters[h] && m.shares[s].hash == h
  }

  ghost predicate Sound(m: Manager, self: nat, nf: nat) {
    && Disjoint(m.voters)
    && Remembered(m, self)
    && CountIsMax(m)
    && (m.newViewed <==> m.voteCnt >= nf)
    && SharesMatch(m)
  }

  /** Signature validation: a share is by the sender, for the batch voted for. */
  predicate Validated(v: Vote) {
    v.sig.Some? ==> v.sig.value.signer == v.from && v.sig.value.hash == v.hash
  }

  lemma AppendKeepsDisjoint(voters: map<Hash, seq<nat>>, hash: Hash, s: nat)
    requires Disjoint(voters)
    requires forall h :: h in voters ==> s !in voters[h]
    ensures Disjoint(voters[hash := (if hash in voters then voters[hash] else []) + [s]])
  {
  }

  lemma RecordKeepsLists(m: Manager, self: nat, v: Vote)
    requires Disjoint(m.voters) && Remembered(m, self) && CountIsMax(m) && SharesMatch(m)
    requires Validated(v) && !Duplicate(m, self, v.from)
    ensures var r := Record(m, self, v);
      Disjoint(r.voters) && Remembered(r, self) && CountIsMax(r) && SharesMatch(r)
  {
    var r := Record(m, self, v);
    assert forall h :: h in m.voters ==> v.from !in m.voters[h];
    AppendKeepsDisjoint(m.voters, v.hash, v.from);
    CountGrows(m, r, v.hash, v.from);
    SharesGrow(m, r, v.hash, v.from);
  }

  lemma CountVoteKeepsSound(m: Manager, self: nat, nf: nat, v: Vote)
    requires Sound(m, self, nf) && nf >= 1 && Validated(v)
    ensures Sound(CountVote(m, self, nf, v), self, nf)
  {
    if !m.newViewed && !Duplicate(m, self, v.from) {
      RecordKeepsLists(m, self, v);
      var r := Record(m, self, v);
      var c := Complete(r, v.hash);
      assert SharesMatch(c) by {
        assert forall s :: s in c.shares ==> s in r.shares && c.shares[s] == r.shares[s];
      }
    }
  }

  lemma SharesGrow(m: Manager, m': Manager, hash: Hash, s: nat)
    requires SharesMatch(m)
    requires m'.voters == m.voters[hash := VotersOf(m, hash) + [s]]
    requires forall k :: k in m'.shares ==>
      (k == s && m'.shares[k].hash == hash) || (k in m.shares && m'.shares[k] == m.shares[k])
    ensures SharesMatch(m')
  {
    forall k | k in m'.shares
      ensures exists h :: h in m'.voters && k in m'.voters[h] && m'.shares[k].hash == h
    {
      assert s in m'.voters[hash];
      if !(k == s && m'.shares[k].hash == hash) {
        var h :| h in m.voters && k in m.voters[h] && m.shares[k].hash == h;
        assert k in m'.voters[h];
      }
    }
  }

  lemma CountGrows(m: Manager, m': Manager, hash: Hash, s: nat)
    requires CountIsMax(m)
    requires m'.voters == m.voters[hash := VotersOf(m, hash) + [s]]
    requires m'.voteCnt == if |VotersOf(m, hash)| + 1 > m.voteCnt then |VotersOf(m, hash)| + 1 else m.voteCnt
    ensures CountIsMax(m')
  {
    if |VotersOf(m, hash)| + 1 <= m.voteCnt {
      var h :| h in m.voters && |m.voters[h]| == m.voteCnt;
      assert h in m'.voters && |m'.voters[h]| == m'.voteCnt;
    } else {
      assert hash in m'.voters && |m'.voters[hash]| == m'.voteCnt;
    }
  }

  lemma CastVoteKeepsSound(m: Manager, self: nat, nf: nat, leadsNext: bool)
    requires Sound(m, self, nf) && nf >= 1
    ensures Sound(CastVote(m, self, nf, leadsNext), self, nf)
  {
    if !m.syncSent {
      assert forall h :: h in m.voters ==> self !in m.voters[h];
      AppendKeepsDisjoint(m.voters, m.hash, self);
      var m' := CastVote(m, self, nf, leadsNext);
      CountGrows(m, m', m.hash, self);
      SharesGrow(m, m', m.hash, self);
    }
  }

  /** What can happen to a manager between its creation and its release. */
  datatype Event = Received(v: Vote) | Own(leadsNext: bool) | Learn(hash: Hash, high: Cert)

  function Happen(m: Manager, self: nat, nf: nat, e: Event): Manager {
    match e
    case Received(v) =>
      if m.hash != NoHash && v.hash != m.hash then m else CountVote(m, self, nf, v)
    case Own(leadsNext) => CastVote(m, self, nf, leadsNext)
    case Learn(hash, high) => m.(hash := hash, high := high)
  }

  function History(self: nat, nf: nat, events: seq<Event>): Manager {
    if events == [] then Fresh()
    else Happen(History(self, nf, events[..|events| - 1]), self, nf, events[|events| - 1])
  }

  /** Vote bookkeeping: the counters agree with the voter lists after any
      sequence of validated votes, own votes and hash announcements. */
  lemma {:induction false} BookkeepingIsSound(self: nat, nf: nat, events: seq<Event>)
    requires nf >= 1
    requires forall i :: 0 <= i < |events| && events[i].Received? ==> Validated(events[i].v)
    ensures Sound(History(self, nf, events), self, nf)
  {
    if events != [] {
      var k := |events| - 1;
      BookkeepingIsSound(self, nf, events[..k]);
      var m := History(self, nf, events[..k]);
      match events[k] {
        case Received(v) => CountVoteKeepsSound(m, self, nf, v);
        case Own(leadsNext) => CastVoteKeepsSound(m, self, nf, leadsNext);
        case Learn(_, _) =>
      }
    }
  }

  /** The vote is signed by `s`, and its batch may be the right one. */
  predicate BringsShare(m: Manager, v: Vote, s: nat) {
    s == v.from && v.sig.Some? && (m.hash == NoHash || m.hash == v.hash)
  }

  lemma KeepsShares(m: Manager, self: nat, nf: nat, v: Vote)
    requires Sound(m, self, nf) && nf >= 1 && Validated(v) && Completes(m, self, nf, v)
    ensures var m' := CountVote(m, self, nf, v);
      && v.hash in m'.voters
      && (forall s :: s in m'.voters[v.hash] && (s in m.shares || BringsShare(m, v, s)) ==> s in m'.shares)
      && (forall s :: s in m'.shares ==> s in m.shares || BringsShare(m, v, s))
      && (forall s :: s in m'.shares ==> m'.shares[s] == if BringsShare(m, v, s) then v.sig.value else m.shares[s])
  {
    CountVoteKeepsSound(m, self, nf, v);
    var m' := CountVote(m, self, nf, v);
    forall s | s in m'.voters[v.hash] ensures s !in OtherVoters(m'.voters, v.hash) {
      assert forall h :: h in m'.voters && s in m'.voters[h] ==> h == v.hash;
    }
  }

  /** A quorum completed by a received vote holds exactly `nf` voters of that
      batch, and the shares left are those collected from them, that of the last
      vote included if the batch may be the right one; each signs that batch. */
  lemma CompletedQuorumIsClean(m: Manager, self: nat, nf: nat, v: Vote)
    requires Sound(m, self, nf) && nf >= 1 && Validated(v)
    requires Completes(m, self, nf, v)
    ensures var m' := CountVote(m, self, nf, v);
      && v.hash in m'.voters && |m'.voters[v.hash]| == nf
      && (forall h :: h in m'.voters && |m'.voters[h]| >= nf ==> h == v.hash)
      && (forall s :: s in m'.shares ==> s in m'.voters[v.hash] && m'.shares[s].hash == v.hash)
      && (forall s :: s in m'.shares <==> s in m'.voters[v.hash] && (s in m.shares || BringsShare(m, v, s)))
      && (forall s :: s in m'.shares ==> m'.shares[s] == if BringsShare(m, v, s) then v.sig.value else m.shares[s])
  {
    CountVoteKeepsSound(m, self, nf, v);
    var m' := CountVote(m, self, nf, v);
    assert forall h :: h in m.voters ==> |m.voters[h]| < nf;
    KeepsShares(m, self, nf, v);
    forall s | s in m'.shares ensures s in m'.voters[v.hash] && m'.shares[s].hash == v.hash {
      var h :| h in m'.voters && s in m'.voters[h] && m'.shares[s].hash == h;
      assert h != v.hash ==> s in OtherVoters(m'.voters, v.hash);
    }
  }

  /** A quorum completed by the replica's own vote is not cleaned: it is clean
      exactly if no share was collected for another batch before. */
  lemma OwnVoteQuorumIsCleanIff(m: Manager, self: nat, nf: nat, leadsNext: bool)
    requires Sound(m, self, nf) && nf >= 1 && !m.syncSent
    ensures var m' := CastVote(m, self, nf, leadsNext);
      (forall s :: s in m'.shares ==> s in m'.voters[m.hash])
      <==> m.shares.Keys !! OtherVoters(m.voters, m.hash)
  {
    var m' := CastVote(m, self, nf, leadsNext);
    CastVoteKeepsSound(m, self, nf, leadsNext);
    if m.shares.Keys !! OtherVoters(m.voters, m.hash) {
      forall s | s in m'.shares ensures s in m'.voters[m.hash] {
        var h :| h in m'.voters && s in m'.voters[h] && m'.shares[s].hash == h;
        assert h != m.hash ==> s in OtherVoters(m.voters, m.hash);
      }
    } else {
      var s :| s in m.shares.Keys && s in OtherVoters(m.voters, m.hash);
      var h :| h in m.voters && h != m.hash && s in m.voters[h];
      assert h in m'.voters && s in m'.voters[h];
      assert s in m'.shares;
      assert s !in m'.voters[m.hash];
    }
  }

  /** Such a leftover share is reachable: replica 2 signs batch 1 before batch 0 is known
      here, replica 0 then votes batch 0, and the own vote completes the quorum. */
  lemma OwnVoteQuorumCanKeepForeignShare()
    ensures var events := [Received(Vote(2, Hash(1), Some(Share(2, Hash(1), NoHash, 0)))),
                           Received(Vote(0, Hash(0), None)), Learn(Hash(0), Blank()), Own(true)];
      var m := History(1, 2, events);
      m.newViewed && 2 in m.shares && Hash(0) in m.voters && 2 !in m.voters[Hash(0)]
  {
    var e0 := Received(Vote(2, Hash(1), Some(Share(2, Hash(1), NoHash, 0))));
    var e1 := Received(Vote(0, Hash(0), None));
    var events := [e0, e1, Learn(Hash(0), Blank()), Own(true)];
    assert events[..3] == [e0, e1, Learn(Hash(0), Blank())];
    assert events[..3][..2] == [e0, e1];
    assert [e0, e1][..1] == [e0];
    assert [e0][..0] == [];
    assert History(1, 2, []) == Fresh();
    var m1 := Happen(Fresh(), 1, 2, e0);
    assert History(1, 2, [e0]) == m1;
    assert VotersOf(Fresh(), Hash(1)) + [2] == [2];
    assert m1.voters == map[Hash(1) := [2]] && m1.voteCnt == 1 && m1.voted == [1, 2];
    var m2 := Happen(m1, 1, 2, e1);
    assert History(1, 2, [e0, e1]) == m2;
    assert VotersOf(m1, Hash(0)) + [0] == [0];
    assert m2.voters == map[Hash(1) := [2], Hash(0) := [0]] && m2.voteCnt == 1;
    var m3 := m2.(hash := Hash(0), high := Blank());
    assert History(1, 2, events[..3]) == m3;
    assert History(1, 2, events) == CastVote(m3, 1, 2, true);
  }

  // ----- The manager object ----------------------------------------------------

  class TxnManager {
    var hash: Hash
    var syncSent: bool
    var proposal: bool
    var generic: bool
    var high: Cert
    var shares: map<nat, Share>
    var voted: seq<nat>
    var voters: map<Hash, seq<nat>>
    var voteCnt: nat
    var newViewed: bool

    ghost function Value(): Manager
      reads this
    {
      Manager(hash, syncSent, proposal, generic, high, shares, voted, voters, voteCnt, newViewed)
    }

    constructor ()
      ensures Value() == Fresh()
    {
      hash, syncSent, proposal, generic, high := NoHash, false, false, false, Blank();
      shares, voted, voters, voteCnt, newViewed := map[], [], map[], 0, false;
    }

    /** A manager as the transaction table returns it. */
    constructor Load(m: Manager)
      ensures Value() == m
    {
      hash, syncSent, proposal, generic, high := m.hash, m.syncSent, m.proposal, m.generic, m.high;
      shares, voted, voters, voteCnt, newViewed := m.shares, m.voted, m.voters, m.voteCnt, m.newViewed;
    }

    method Save() returns (m: Manager)
      ensures m == Value()
    {
      m := Manager(hash, syncSent, proposal, generic, high, shares, voted, voters, voteCnt, newViewed);
    }

    method HasVoted(from: nat) returns (found: bool)
      ensures found == (from in voted)
    {
      for i := 0 to |voted|
        invariant forall k :: 0 <= k < i ==> voted[k] != from
      {
        if voted[i] == from {
          return true;
        }
      }
      return false;
    }

    method RecordVote(ghost self: nat, v: Vote)
      requires voted != []
      modifies this
      ensures Value() == Record(old(Value()), self, v)
    {
      if v.sig.Some? {
        if hash == NoHash || hash == v.hash {
          shares := shares[v.from := v.sig.value];
        }
      }
      voted := voted + [v.from];
      voters := voters[v.hash := (if v.hash in voters then voters[v.hash] else []) + [v.from]];
      var val := |voters[v.hash]|;
      if val > voteCnt {
        voteCnt := val;
      }
    }

    /** `hotstuff_new_viewed`. */
    method NewViewed(self: nat, nf: nat, v: Vote) returns (completed: bool)
      modifies this
      ensures Value() == CountVote(old(Value()), self, nf, v)
      ensures completed == Completes(old(Value()), self, nf, v)
    {
      if newViewed {
        return false;
      }
      if voted == [] {
        voted := [self];
      }
      var duplicate := HasVoted(v.from);
      if duplicate {
        return false;
      }
      RecordVote(self, v);
      assert Value() == Record(old(Value()), self, v);
      if voteCnt == nf {
        EraseForeignShares(v.hash);
        newViewed := true;
        return true;
      }
      return false;
    }

    /** The clean-up loop over all voter lists but that of `winner`. */
    method EraseForeignShares(winner: Hash)
      modifies this`shares
      ensures shares == old(shares) - OtherVoters(voters, winner)
    {
      var todo := voters.Keys;
      ghost var done: set<Hash> := {};
      while todo != {}
        invariant todo !! done && todo + done == voters.Keys
        invariant shares == old(shares) - (set h, s | h in done && h in voters && h != winner && s in voters[h] :: s)
      {
        var h :| h in todo;
        ghost var before := shares;
        ghost var gone := set g, s | g in done && g in voters && g != winner && s in voters[g] :: s;
        if h != winner {
          shares := shares - (set s | s in voters[h]);
          assert shares == before - (set s | s in voters[h]);
        }
        todo, done := todo - {h}, done + {h};
        ghost var gone' := set g, s | g in done && g in voters && g != winner && s in voters[g] :: s;
        assert gone' == if h != winner then gone + (set s | s in voters[h]) else gone;
      }
      assert done == voters.Keys;
      assert (set h, s | h in done && h in voters && h != winner && s in voters[h] :: s) == OtherVoters(voters, winner);
    }

    /** The bookkeeping half of `send_hotstuff_newview`. */
    method SendNewView(self: nat, nf: nat, leadsNext: bool) returns (sent: bool)
      modifies this
      ensures Value() == CastVote(old(Value()), self, nf, leadsNext)
      ensures sent == !old(syncSent)
      ensures shares == if sent && leadsNext then old(shares)[self := Share(self, hash, high.hash, high.view)] else old(shares)
    {
      if syncSent {
        return false;
      }
      syncSent := true;
      if leadsNext {
        shares := shares[self := Share(self, hash, high.hash, high.view)];
      }
      voters := voters[hash := (if hash in voters then voters[hash] else []) + [self]];
      var val := |voters[hash]|;
      if val > voteCnt {
        voteCnt := val;
      }
      if voteCnt == nf {
        newViewed := true;
      }
      return true;
    }
  }
}
