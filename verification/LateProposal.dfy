/** Runs of three correct replicas in which a proposal comes after its view was given up. For
    every view there is one in which that view's block is committed, erased and filed again. */
module LateProposal {
  import opened Cluster
  import opened Certificate
  import opened VoteManager
  import opened CertStore
  import opened FaultVoters
  import opened Replica
  import opened System
  import opened Pipeline
  import opened Sequences

  ghost predicate Three(c: Config, H: nat -> Hash) {
    c.Valid() && c.nodes == 3 && c.Nf() == 2 && Naming(H)
  }

  lemma Mod3(x: nat)
    ensures (x + 3) % 3 == x % 3
    ensures x % 3 != (x + 1) % 3 && (x + 1) % 3 != (x + 2) % 3 && x % 3 != (x + 2) % 3
  {
  }

  /** Three consecutive views have three leaders, and then it starts again. */
  lemma Leaders(c: Config, v: nat)
    requires c.Valid() && c.nodes == 3
    ensures c.Primary(v + 3) == c.Primary(v)
    ensures c.Primary(v) != c.Primary(v + 1) && c.Primary(v + 1) != c.Primary(v + 2) && c.Primary(v) != c.Primary(v + 2)
  {
    Mod3(v + c.instance);
  }

  // ----- Managers --------------------------------------------------------------

  /** A manager that has taken up the leader's message and cast the replica's own vote. */
  predicate Pledged(m: Manager, self: nat, hash: Hash, high: Cert, proposal: bool) {
    && m.hash == hash && m.high == high && m.generic && m.syncSent && m.proposal == proposal && !m.newViewed
    && m.voted == [] && m.voters == map[hash := [self]] && m.voteCnt == 1
  }

  /** Quorum and leader's message are there, the proposal is missing. */
  predicate Parked(m: Manager, hash: Hash) {
    m.hash == hash && m.generic && m.newViewed && !m.proposal
  }

  /** A manager before that: nothing but, perhaps, the proposal. */
  predicate Untouched(m: Manager, hash: Hash) {
    m == Fresh() || m == Fresh().(hash := hash, proposal := true)
  }

  lemma TakesUp(c: Config, r: Replica, g: Msg)
    requires g.Generic? && c.Valid() && c.nodes == 3 && c.Nf() == 2 && g.hash != NoHash
    requires Acceptable(c, r, g) && Untouched(Mgr(r, g.txn), g.hash)
    ensures var e := OnGeneric(c, r, g);
      && e.r == r.(store := Extend(c, r, g), mgrs := r.mgrs[g.txn := Mgr(e.r, g.txn)])
      && Pledged(Mgr(e.r, g.txn), r.self, g.hash, g.high, Mgr(r, g.txn).proposal)
      && (forall d: nat :: d < 3 && d != r.self ==> Sends(e.out, r.self, d, g.txn, r.view, g.hash))
  {
    var m1 := Mgr(r, g.txn).(hash := g.hash, high := g.high, generic := true);
    assert VotersOf(m1, g.hash) + [r.self] == [r.self];
    assert VoteFor(c, r.self, r.view, m1).voters == map[g.hash := [r.self]];
    forall d: nat | d < 3 && d != r.self ensures Sends(OnGeneric(c, r, g).out, r.self, d, g.txn, r.view, g.hash) {
      BallotsGoOut(c, r.self, r.view, g.txn, m1, d);
    }
  }

  /** A leader's step on the batch it has just proposed. */
  lemma LeadsOff(c: Config, r: Replica, txn: nat, hash: Hash)
    requires c.Valid() && c.nodes == 3 && c.Nf() == 2 && r.incomplete != 0 && txn == c.Txn(r.lastSent) && txn > r.nextIndex
    requires hash != NoHash && Mgr(r, txn) == Fresh().(hash := hash, proposal := true)
    ensures var e := Lead(c, r);
      && e.r == r.(incomplete := r.incomplete - 1, mgrs := r.mgrs[txn := Mgr(e.r, txn)])
      && Pledged(Mgr(e.r, txn), r.self, hash, r.store.prepared, true)
      && Generic(r.self, txn, r.view, hash, r.store.prepared) in e.out
      && (forall d: nat :: d < 3 && d != r.self ==> Sends(e.out, r.self, d, txn, r.view, hash))
  {
    var m1 := Mgr(r, txn).(high := r.store.prepared, generic := true);
    assert VotersOf(m1, hash) + [r.self] == [r.self];
    assert VoteFor(c, r.self, r.view, m1).voters == map[hash := [r.self]];
    forall d: nat | d < 3 && d != r.self ensures Sends(Lead(c, r).out, r.self, d, txn, r.view, hash) {
      BallotsGoOut(c, r.self, r.view, txn, m1, d);
      StillSends(Ballots(c, r.self, r.view, txn, m1), Lead(c, r).out, r.self, d, txn, r.view, hash);
    }
  }

  /** The second vote completes the quorum of two. */
  lemma Completes2(c: Config, r: Replica, msg: Msg)
    requires msg.Sync? && c.Valid() && c.Nf() == 2 && !StaleSync(r, msg) && msg.from != r.self
    requires var m := Mgr(r, msg.txn); Pledged(m, r.self, msg.hash, m.high, m.proposal)
    ensures var m, r' := Mgr(r, msg.txn), OnSync(c, r, msg);
      && Mgr(r', msg.txn).hash == m.hash && Mgr(r', msg.txn).high == m.high
      && Mgr(r', msg.txn).proposal == m.proposal && Mgr(r', msg.txn).generic && Mgr(r', msg.txn).newViewed
      && r' == AdvanceIf(c, PutMgr(r, msg.txn, Mgr(r', msg.txn)), msg.txn, m.proposal)
  {
    var m, v := Mgr(r, msg.txn), VoteIn(msg);
    var m' := CountVote(m, r.self, 2, v);
    assert VotersOf(m, v.hash) == [r.self];
    assert VotersOf(m, v.hash) + [v.from] == [r.self, v.from];
    assert m'.newViewed && Completes(m, r.self, 2, v);
    var r1 := PutMgr(r, msg.txn, m');
    assert OnSync(c, r, msg) == AdvanceIf(c, r1, msg.txn, m'.proposal && m'.generic);
    AdvanceFrame(c, r1, msg.txn, m.proposal);
  }

  /** The replica once the proposal is noted, before anything is advanced. */
  function Noted(r: Replica, msg: Msg): Replica
    requires msg.Proposal?
  {
    var txnOf := if msg.hash in r.store.txnOf then r.store.txnOf else r.store.txnOf[msg.hash := msg.txn];
    PutMgr(r.(store := r.store.(txnOf := txnOf)), msg.txn, Mgr(r, msg.txn).(hash := msg.hash, proposal := true))
  }

  lemma Learns(c: Config, r: Replica, msg: Msg)
    requires c.Valid() && msg.Proposal? && msg.txn - 2 > r.nextIndex && Mgr(r, msg.txn) == Fresh()
    ensures OnProposal(c, r, msg) == Noted(r, msg)
  {
  }

  lemma LateProposalEnds(c: Config, r: Replica, msg: Msg)
    requires c.Valid() && msg.Proposal? && msg.txn - 2 > r.nextIndex && Parked(Mgr(r, msg.txn), msg.hash)
    ensures OnProposal(c, r, msg) == Advance(c, Noted(r, msg), msg.txn)
  {
  }

  // ----- Replicas in step with the others ---------------------------------------

  ghost predicate FreshFrom(c: Config, r: Replica, v: nat)
    requires c.Valid()
  {
    forall w: nat :: w >= v ==> Mgr(r, c.Txn(w)) == Fresh()
  }

  /** Replica `j` in view `v`, nothing known of later slots, nothing executed. */
  ghost predicate At(c: Config, H: nat -> Hash, r: Replica, j: nat, v: nat)
    requires Three(c, H)
  {
    && r.self == j < 3 && r.view == v && r.nextIndex == 0 && !r.crashed && r.incomplete == 0
    && r.newViewed < c.Txn(v) && r.failVoters == map[] && FreshFrom(c, r, v + 1) && RepInv(c, H, r)
    && v <= r.nextSend <= v + 3
  }

  ghost predicate Poised(c: Config, H: nat -> Hash, r: Replica, j: nat, v: nat)
    requires Three(c, H)
  {
    At(c, H, r, j, v) && Mgr(r, c.Txn(v)) == Fresh() && (c.Primary(v) == j ==> r.nextSend == v)
  }

  /** It has voted in view `v` and knows the proposal. */
  ghost predicate Voted(c: Config, H: nat -> Hash, r: Replica, j: nat, v: nat)
    requires Three(c, H)
  {
    At(c, H, r, j, v) && var m := Mgr(r, c.Txn(v)); Pledged(m, j, H(v), m.high, true)
  }

  function P(c: Config, H: nat -> Hash, v: nat): Msg
    requires c.Valid()
  {
    Proposal(c.Primary(v), c.Txn(v), v, H(v))
  }

  function G(c: Config, H: nat -> Hash, v: nat, high: Cert): Msg
    requires c.Valid()
  {
    Generic(c.Primary(v), c.Txn(v), v, H(v), high)
  }

  lemma OthersKept(c: Config, r: Replica, r': Replica, v: nat)
    requires c.Valid() && FreshFrom(c, r, v + 1) && r'.mgrs == r.mgrs[c.Txn(v) := Mgr(r', c.Txn(v))]
    ensures FreshFrom(c, r', v + 1)
  {
    forall w: nat | w >= v + 1 ensures Mgr(r', c.Txn(w)) == Fresh() {
      TxnMonotone(c, v, w);
    }
  }

  lemma NextIsHigher(c: Config, v: nat)
    requires c.Valid()
    ensures c.Txn(v) % U32 < c.Txn(v + 1)
  {
    TxnMonotone(c, v, v + 1);
  }

  /** The second vote ends the view. */
  lemma VoteEnds(c: Config, H: nat -> Hash, r: Replica, j: nat, v: nat, msg: Msg)
    requires Three(c, H) && Voted(c, H, r, j, v)
    requires msg.Sync? && msg.txn == c.Txn(v) && msg.view == v && msg.hash == H(v) && msg.from != j
    ensures Poised(c, H, OnSync(c, r, msg), j, v + 1)
  {
    Completes2(c, r, msg);
    SyncKeeps(c, H, r, msg);
    var r' := OnSync(c, r, msg);
    var r1 := PutMgr(r, msg.txn, Mgr(r', msg.txn));
    AdvanceFrame(c, r1, msg.txn, true);
    OthersKept(c, r, r', v);
    NextIsHigher(c, v);
    NextToSend(c, H, r', j, v);
  }

  lemma NextToSend(c: Config, H: nat -> Hash, r: Replica, j: nat, v: nat)
    requires Three(c, H) && r.self == j && v <= r.nextSend <= v + 3 && r.view == v + 1 && Pipeline.LeadInv(c, H, r)
    ensures v + 1 <= r.nextSend <= v + 4 && (c.Primary(v + 1) == j ==> r.nextSend == v + 1)
  {
    Leaders(c, v);
    Leaders(c, v + 1);
  }

  lemma LearnsInStep(c: Config, H: nat -> Hash, r: Replica, j: nat, v: nat)
    requires Three(c, H) && Poised(c, H, r, j, v) && c.Primary(v) != j
    ensures var r' := OnProposal(c, r, P(c, H, v));
      At(c, H, r', j, v) && Mgr(r', c.Txn(v)) == Fresh().(hash := H(v), proposal := true)
  {
    TxnPositive(c, v);
    Learns(c, r, P(c, H, v));
    ProposalKeeps(c, H, r, P(c, H, v));
    OthersKept(c, r, OnProposal(c, r, P(c, H, v)), v);
  }

  lemma MayTake(c: Config, H: nat -> Hash, r: Replica, j: nat, v: nat, high: Cert)
    requires Three(c, H) && At(c, H, r, j, v) && !Mgr(r, c.Txn(v)).generic && Core(high) == Link(H, v - 1)
    ensures Acceptable(c, r, G(c, H, v, high))
  {
    TxnPositive(c, v);
    assert high.view == Link(H, v - 1).view && high.hash == Link(H, v - 1).hash;
    var locked := r.store.locked;
    assert locked.view == Link(H, v - 2).view && locked.hash == Link(H, v - 2).hash && locked.genesis == Link(H, v - 2).genesis;
  }

  lemma TakesInStep(c: Config, H: nat -> Hash, r: Replica, j: nat, v: nat, high: Cert)
    requires Three(c, H) && At(c, H, r, j, v) && c.Primary(v) != j
    requires Untouched(Mgr(r, c.Txn(v)), H(v)) && Core(high) == Link(H, v - 1)
    ensures var e := OnGeneric(c, r, G(c, H, v, high));
      && At(c, H, e.r, j, v) && e.r.nextSend == r.nextSend
      && Pledged(Mgr(e.r, c.Txn(v)), j, H(v), high, Mgr(r, c.Txn(v)).proposal)
      && (forall d: nat :: d < 3 && d != j ==> Sends(e.out, j, d, c.Txn(v), v, H(v)))
  {
    var g := G(c, H, v, high);
    MayTake(c, H, r, j, v, high);
    TakesUp(c, r, g);
    GenericKeeps(c, H, r, g);
    OthersKept(c, r, OnGeneric(c, r, g).r, v);
  }

  lemma ProposesInStep(c: Config, H: nat -> Hash, r: Replica, v: nat)
    requires Three(c, H) && Poised(c, H, r, c.Primary(v), v)
    ensures CanPropose(r)
    ensures var r' := Propose(c, r, H(v)).r;
      && r' == r.(store := r.store.(txnOf := r.store.txnOf[H(v) := c.Txn(v)]), lastSent := v, nextSend := v + 3, incomplete := 1,
                  mgrs := r.mgrs[c.Txn(v) := Fresh().(hash := H(v), proposal := true)])
      && RepInv(c, H, r') && CanLead(c, r')
    ensures P(c, H, v) in Propose(c, r, H(v)).out
  {
    ProposeKeeps(c, H, r, H(v));
  }

  lemma LeadsInStep(c: Config, H: nat -> Hash, r: Replica, v: nat)
    requires Three(c, H) && Poised(c, H, r, c.Primary(v), v)
    ensures var e := Lead(c, Propose(c, r, H(v)).r);
      && Voted(c, H, e.r, c.Primary(v), v)
      && G(c, H, v, r.store.prepared) in e.out
      && (forall d: nat :: d < 3 && d != c.Primary(v) ==> Sends(e.out, c.Primary(v), d, c.Txn(v), v, H(v)))
  {
    ProposesInStep(c, H, r, v);
    TxnPositive(c, v);
    var r1 := Propose(c, r, H(v)).r;
    LeadsOff(c, r1, c.Txn(v), H(v));
    LeadKeeps(c, H, r1);
    OthersKept(c, r, Lead(c, r1).r, v);
  }

  // ----- The run, one step at a time --------------------------------------------

  /** The steps lead to `s`; nobody is faulty. */
  ghost predicate Reaches(c: Config, steps: seq<Step>, s: Sys)
    requires c.Valid()
  {
    Run(c, {}, steps) == s && |s.reps| == 3
  }

  lemma Go(c: Config, steps: seq<Step>, s: Sys, step: Step) returns (more: seq<Step>, s': Sys)
    requires c.Valid() && Reaches(c, steps, s) && Enabled(c, {}, s, step)
    ensures more == steps + [step] && Reaches(c, more, s')
    ensures var e := Act(c, s.reps[step.i], step); s'.reps == s.reps[step.i := e.r] && s'.sent == s.sent + e.out
  {
    more := steps + [step];
    s' := Next(c, {}, s, step);
    assert more[..|more| - 1] == steps;
  }

  /** Only replica `j` moved, and what was sent stays sent. */
  predicate Only(s: Sys, s': Sys, j: nat) {
    && |s.reps| == |s'.reps| == 3 && s.sent <= s'.sent
    && (forall i :: 0 <= i < 3 && i != j ==> s'.reps[i] == s.reps[i])
  }

  /** The delivery of a message that another replica sent. */
  lemma GoProposal(c: Config, steps: seq<Step>, s: Sys, i: nat, msg: Msg) returns (more: seq<Step>, s': Sys)
    requires c.Valid() && c.nodes == 3 && Reaches(c, steps, s) && i < 3 && !s.reps[i].crashed
    requires msg in s.sent && msg.Proposal? && msg.from < 3 && msg.from != i
    ensures more == steps + [Deliver(i, msg)] && Reaches(c, more, s') && Only(s, s', i)
    ensures s'.reps[i] == OnProposal(c, s.reps[i], msg)
  {
    more, s' := Go(c, steps, s, Deliver(i, msg));
  }

  lemma GoGeneric(c: Config, steps: seq<Step>, s: Sys, i: nat, msg: Msg) returns (more: seq<Step>, s': Sys)
    requires c.Valid() && c.nodes == 3 && Reaches(c, steps, s) && i < 3 && !s.reps[i].crashed
    requires msg in s.sent && msg.Generic? && msg.from < 3 && msg.from != i
    ensures more == steps + [Deliver(i, msg)] && Reaches(c, more, s') && Only(s, s', i)
    ensures s'.reps[i] == OnGeneric(c, s.reps[i], msg).r && OnGeneric(c, s.reps[i], msg).out <= s'.sent
  {
    more, s' := Go(c, steps, s, Deliver(i, msg));
  }

  lemma GoVote(c: Config, steps: seq<Step>, s: Sys, i: nat, msg: Msg) returns (more: seq<Step>, s': Sys)
    requires c.Valid() && c.nodes == 3 && Reaches(c, steps, s) && i < 3 && !s.reps[i].crashed
    requires msg in s.sent && msg.Sync? && msg.from < 3 && msg.from != i && msg.to == i && Validated(VoteIn(msg))
    ensures more == steps + [Deliver(i, msg)] && Reaches(c, more, s') && Only(s, s', i)
    ensures s'.reps[i] == OnSync(c, s.reps[i], msg)
  {
    more, s' := Go(c, steps, s, Deliver(i, msg));
  }

  lemma GoPropose(c: Config, steps: seq<Step>, s: Sys, i: nat, hash: Hash) returns (more: seq<Step>, s': Sys)
    requires c.Valid() && Reaches(c, steps, s) && i < 3 && !s.reps[i].crashed && CanPropose(s.reps[i]) && hash != NoHash
    ensures Reaches(c, more, s') && Only(s, s', i)
    ensures var e := Propose(c, s.reps[i], hash); s'.reps[i] == e.r && e.out <= s'.sent
  {
    more, s' := Go(c, steps, s, DoPropose(i, hash));
  }

  lemma GoLead(c: Config, steps: seq<Step>, s: Sys, i: nat) returns (more: seq<Step>, s': Sys)
    requires c.Valid() && Reaches(c, steps, s) && i < 3 && !s.reps[i].crashed && CanLead(c, s.reps[i])
    ensures Reaches(c, more, s') && Only(s, s', i)
    ensures var e := Lead(c, s.reps[i]); s'.reps[i] == e.r && e.out <= s'.sent
  {
    more, s' := Go(c, steps, s, DoLead(i));
  }

  lemma GoFail(c: Config, steps: seq<Step>, s: Sys, i: nat, view: nat, voter: nat) returns (more: seq<Step>, s': Sys)
    requires c.Valid() && c.nodes == 3 && Reaches(c, steps, s) && i < 3 && !s.reps[i].crashed && voter < 3
    ensures Reaches(c, more, s') && Only(s, s', i)
    ensures s'.reps[i] == OnFailed(c, s.reps[i], view, voter)
  {
    more, s' := Go(c, steps, s, DoFail(i, view, voter));
  }

  // ----- One view of everyone --------------------------------------------------

  /** The votes of replica `j` for view `v` are on their way. */
  ghost predicate Polled(c: Config, H: nat -> Hash, sent: set<Msg>, j: nat, v: nat)
    requires c.Valid()
  {
    forall d: nat :: d < 3 && d != j ==> Sends(sent, j, d, c.Txn(v), v, H(v))
  }

  lemma PolledStays(c: Config, H: nat -> Hash, a: set<Msg>, b: set<Msg>, j: nat, v: nat)
    requires c.Valid() && Polled(c, H, a, j, v) && a <= b
    ensures Polled(c, H, b, j, v)
  {
    forall d: nat | d < 3 && d != j ensures Sends(b, j, d, c.Txn(v), v, H(v)) {
      StillSends(a, b, j, d, c.Txn(v), v, H(v));
    }
  }

  /** What the leader of view `v` sends. */
  ghost predicate Announced(c: Config, H: nat -> Hash, sent: set<Msg>, v: nat, high: Cert)
    requires c.Valid()
  {
    && P(c, H, v) in sent && G(c, H, v, high) in sent && Core(high) == Link(H, v - 1)
    && Polled(c, H, sent, c.Primary(v), v)
  }

  lemma AnnouncedStays(c: Config, H: nat -> Hash, a: set<Msg>, b: set<Msg>, v: nat, high: Cert)
    requires c.Valid() && Announced(c, H, a, v, high) && a <= b
    ensures Announced(c, H, b, v, high)
  {
    PolledStays(c, H, a, b, c.Primary(v), v);
  }

  lemma LeadsView(c: Config, H: nat -> Hash, steps: seq<Step>, s: Sys, v: nat)
    returns (more: seq<Step>, s': Sys, high: Cert)
    requires Three(c, H) && Reaches(c, steps, s) && Poised(c, H, s.reps[c.Primary(v)], c.Primary(v), v)
    ensures Reaches(c, more, s') && Only(s, s', c.Primary(v))
    ensures Voted(c, H, s'.reps[c.Primary(v)], c.Primary(v), v) && Announced(c, H, s'.sent, v, high)
  {
    var a := c.Primary(v);
    var r, s1 := s.reps[a], s;
    high := r.store.prepared;
    ProposesInStep(c, H, r, v);
    LeadsInStep(c, H, r, v);
    more, s1 := GoPropose(c, steps, s, a, H(v));
    more, s' := GoLead(c, more, s1, a);
    forall d: nat | d < 3 && d != a ensures Sends(s'.sent, a, d, c.Txn(v), v, H(v)) {
      StillSends(Lead(c, s1.reps[a]).out, s'.sent, a, d, c.Txn(v), v, H(v));
    }
  }

  lemma VoteCounts(c: Config, H: nat -> Hash, steps: seq<Step>, s: Sys, j: nat, from: nat, v: nat)
    returns (more: seq<Step>, s': Sys)
    requires Three(c, H) && Reaches(c, steps, s) && j < 3 && from < 3 && from != j
    requires Voted(c, H, s.reps[j], j, v) && Sends(s.sent, from, j, c.Txn(v), v, H(v))
    ensures Reaches(c, more, s') && Only(s, s', j) && Poised(c, H, s'.reps[j], j, v + 1)
  {
    var msg := SomeVote(s.sent, from, j, c.Txn(v), v, H(v));
    VoteEnds(c, H, s.reps[j], j, v, msg);
    more, s' := GoVote(c, steps, s, j, msg);
  }

  /** A vote without the proposal or anything else of the leader's. */
  lemma TakesMessageOnly(c: Config, H: nat -> Hash, steps: seq<Step>, s: Sys, j: nat, v: nat, high: Cert)
    returns (more: seq<Step>, s': Sys)
    requires Three(c, H) && Reaches(c, steps, s) && j < 3 && c.Primary(v) != j && Poised(c, H, s.reps[j], j, v)
    requires G(c, H, v, high) in s.sent && Core(high) == Link(H, v - 1)
    ensures Reaches(c, more, s') && Only(s, s', j) && Polled(c, H, s'.sent, j, v)
  {
    var r, g := s.reps[j], G(c, H, v, high);
    TakesInStep(c, H, r, j, v, high);
    more, s' := GoGeneric(c, steps, s, j, g);
    PolledStays(c, H, OnGeneric(c, r, g).out, s'.sent, j, v);
  }

  lemma TakesMessage(c: Config, H: nat -> Hash, steps: seq<Step>, s: Sys, j: nat, v: nat, high: Cert)
    returns (more: seq<Step>, s': Sys)
    requires Three(c, H) && Reaches(c, steps, s) && j < 3 && c.Primary(v) != j && At(c, H, s.reps[j], j, v)
    requires Untouched(Mgr(s.reps[j], c.Txn(v)), H(v)) && Announced(c, H, s.sent, v, high)
    ensures Reaches(c, more, s') && Only(s, s', j) && At(c, H, s'.reps[j], j, v) && Polled(c, H, s'.sent, j, v)
    ensures s'.reps[j].nextSend == s.reps[j].nextSend
    ensures Pledged(Mgr(s'.reps[j], c.Txn(v)), j, H(v), high, Mgr(s.reps[j], c.Txn(v)).proposal)
  {
    var r, g := s.reps[j], G(c, H, v, high);
    TakesInStep(c, H, r, j, v, high);
    more, s' := GoGeneric(c, steps, s, j, g);
    forall d: nat | d < 3 && d != j ensures Sends(s'.sent, j, d, c.Txn(v), v, H(v)) {
      StillSends(OnGeneric(c, r, g).out, s'.sent, j, d, c.Txn(v), v, H(v));
    }
  }

  /** A backup learns the proposal and votes. */
  lemma VotesInView(c: Config, H: nat -> Hash, steps: seq<Step>, s: Sys, j: nat, v: nat, high: Cert)
    returns (more: seq<Step>, s': Sys)
    requires Three(c, H) && Reaches(c, steps, s) && j < 3 && c.Primary(v) != j && Poised(c, H, s.reps[j], j, v)
    requires Announced(c, H, s.sent, v, high)
    ensures Reaches(c, more, s') && Only(s, s', j) && Voted(c, H, s'.reps[j], j, v) && Polled(c, H, s'.sent, j, v)
  {
    var s1;
    LearnsInStep(c, H, s.reps[j], j, v);
    more, s1 := GoProposal(c, steps, s, j, P(c, H, v));
    AnnouncedStays(c, H, s.sent, s1.sent, v, high);
    more, s' := TakesMessage(c, H, more, s1, j, v, high);
  }

  /** A backup goes through the whole view. */
  lemma FollowsView(c: Config, H: nat -> Hash, steps: seq<Step>, s: Sys, j: nat, v: nat, high: Cert)
    returns (more: seq<Step>, s': Sys)
    requires Three(c, H) && Reaches(c, steps, s) && j < 3 && c.Primary(v) != j && Poised(c, H, s.reps[j], j, v)
    requires Announced(c, H, s.sent, v, high)
    ensures Reaches(c, more, s') && Only(s, s', j) && Poised(c, H, s'.reps[j], j, v + 1) && Polled(c, H, s'.sent, j, v)
  {
    var s1;
    more, s1 := VotesInView(c, H, steps, s, j, v, high);
    AnnouncedStays(c, H, s.sent, s1.sent, v, high);
    more, s' := VoteCounts(c, H, more, s1, j, c.Primary(v), v);
    PolledStays(c, H, s1.sent, s'.sent, j, v);
  }

  ghost predicate AllPoised(c: Config, H: nat -> Hash, s: Sys, v: nat)
    requires Three(c, H)
  {
    |s.reps| == 3 && forall j :: 0 <= j < 3 ==> Poised(c, H, s.reps[j], j, v)
  }

  /** Both backups go through view `v`. */
  lemma BothFollow(c: Config, H: nat -> Hash, steps: seq<Step>, s: Sys, v: nat, b: nat, d: nat, high: Cert)
    returns (more: seq<Step>, s': Sys)
    requires Three(c, H) && Reaches(c, steps, s) && b < 3 && d < 3 && b != d && c.Primary(v) != b && c.Primary(v) != d
    requires Poised(c, H, s.reps[b], b, v) && Poised(c, H, s.reps[d], d, v) && Announced(c, H, s.sent, v, high)
    ensures Reaches(c, more, s') && s'.reps[c.Primary(v)] == s.reps[c.Primary(v)]
    ensures Poised(c, H, s'.reps[b], b, v + 1) && Poised(c, H, s'.reps[d], d, v + 1) && Polled(c, H, s'.sent, b, v)
  {
    var s1;
    more, s1 := FollowsView(c, H, steps, s, b, v, high);
    AnnouncedStays(c, H, s.sent, s1.sent, v, high);
    more, s' := FollowsView(c, H, more, s1, d, v, high);
    PolledStays(c, H, s1.sent, s'.sent, b, v);
  }

  lemma Everyone(c: Config, H: nat -> Hash, s: Sys, v: nat, a: nat, b: nat, d: nat)
    requires Three(c, H) && |s.reps| == 3 && a < 3 && b < 3 && d < 3 && a != b && b != d && a != d
    requires Poised(c, H, s.reps[a], a, v) && Poised(c, H, s.reps[b], b, v) && Poised(c, H, s.reps[d], d, v)
    ensures AllPoised(c, H, s, v)
  {
    forall j | 0 <= j < 3 ensures Poised(c, H, s.reps[j], j, v) {
      assert j == a || j == b || j == d;
    }
  }

  /** Everyone goes through view `v`. */
  lemma AllPass(c: Config, H: nat -> Hash, steps: seq<Step>, s: Sys, v: nat) returns (more: seq<Step>, s': Sys)
    requires Three(c, H) && Reaches(c, steps, s) && AllPoised(c, H, s, v)
    ensures Reaches(c, more, s') && AllPoised(c, H, s', v + 1)
  {
    Leaders(c, v);
    var a, b, d := c.Primary(v), c.Primary(v + 1), c.Primary(v + 2);
    var s1, s2, high;
    more, s1, high := LeadsView(c, H, steps, s, v);
    more, s2 := BothFollow(c, H, more, s1, v, b, d, high);
    more, s' := VoteCounts(c, H, more, s2, a, b, v);
    Everyone(c, H, s', v + 1, a, b, d);
  }

  lemma Boots(c: Config, H: nat -> Hash, j: nat)
    requires Three(c, H) && j < 3
    ensures Poised(c, H, Boot(c, j), j, 0)
  {
    BootKeeps(c, H, j);
    TxnPositive(c, 0);
    Leaders(c, 0);
    Leaders(c, Boot(c, j).nextSend);
    FirstLed(c, j);
  }

  /** Orderly runs bring all three replicas into any view. */
  lemma {:induction false} AllReach(c: Config, H: nat -> Hash, v: nat) returns (steps: seq<Step>, s: Sys)
    requires Three(c, H)
    ensures Reaches(c, steps, s) && AllPoised(c, H, s, v)
  {
    if v == 0 {
      steps, s := [], Init(c);
      forall j | 0 <= j < 3 ensures Poised(c, H, s.reps[j], j, 0) {
        Boots(c, H, j);
      }
    } else {
      var s0;
      steps, s0 := AllReach(c, H, v - 1);
      steps, s := AllPass(c, H, steps, s0, v - 1);
    }
  }

  // ----- The store of a replica that gave up on a view --------------------------

  /** `u` is `t` with another history of what was handed over before `s`. */
  predicate OtherHistory(s: Store, x: seq<nat>, t: Store, u: Store) {
    s.handed <= t.handed && u == t.(handed := x + t.handed[|s.handed|..])
  }

  lemma WalkIgnores(s: Store, x: seq<nat>, b: Block)
    ensures OtherHistory(s, x, Walk(s, b), Walk(s.(handed := x), b))
  {
    var m := Touch(s.qcs, b.hash);
    var now := IdsOf(s.txnOf, Chain(m, m[b.hash].parent)) + [b.txn];
    assert Walk(s, b).handed == s.handed + now;
    assert Walk(s.(handed := x), b).handed == x + now;
    DropsPrefix(s.handed, now);
  }

  /** What was handed over before does not matter to an update. */
  lemma HandedIgnored(s: Store, x: seq<nat>, qc: Cert, view: nat, b: Block)
    ensures OtherHistory(s, x, UpdateLock(s, qc, view, b), UpdateLock(s.(handed := x), qc, view, b))
  {
    if Commits(s.qcs, qc, view) {
      var ready := s.(qcs := MarkCommit(Family(s.qcs, qc), Grandparent(s.qcs, qc).hash), prepared := Newer(s.prepared, qc),
                      locked := Newer(s.locked, Parent(s.qcs, qc)));
      assert UpdateLock(s, qc, view, b) == Walk(ready, b);
      assert UpdateLock(s.(handed := x), qc, view, b) == Walk(ready.(handed := x), b);
      WalkIgnores(ready, x, b);
    } else {
      NothingHanded(s, x, qc, view, b);
    }
  }

  lemma NothingHanded(s: Store, x: seq<nat>, qc: Cert, view: nat, b: Block)
    requires !Commits(s.qcs, qc, view)
    ensures OtherHistory(s, x, UpdateLock(s, qc, view, b), UpdateLock(s.(handed := x), qc, view, b))
  {
    var t := UpdateLock(s, qc, view, b);
    assert t.handed == s.handed;
    assert x + t.handed[|s.handed|..] == x;
  }

  /** The shape of the store in view `v`, whatever was handed over. */
  ghost predicate InShape(c: Config, H: nat -> Hash, s: Store, v: nat)
    requires c.Valid()
  {
    Shape(c, H, s.(handed := Handed(c, v)), v)
  }

  /** The block two views back. */
  predicate BackBlock(c: Config, H: nat -> Hash, b: Block, v: nat)
    requires c.Valid()
  {
    v >= 2 ==> b.hash == H(v - 2) && b.txn == c.Txn(v - 2)
  }

  lemma ShapeAdvances(c: Config, H: nat -> Hash, s: Store, v: nat, qc: Cert, b: Block)
    requires Three(c, H) && InShape(c, H, s, v) && Core(qc) == Link(H, v) && BackBlock(c, H, b, v)
    ensures var t := UpdateLock(File(s, qc), qc, v + 1, b);
      && InShape(c, H, t, v + 1) && s.handed <= t.handed
      && (v >= 2 ==> |s.handed| < |t.handed| && t.handed[|t.handed| - 1] == c.Txn(v - 2))
  {
    var s1 := s.(handed := Handed(c, v));
    if v < 2 {
      EarlyAdvance(c, H, s1, v, qc, b);
    } else {
      LateAdvance(c, H, s1, v, qc, b);
    }
    var f := File(s, qc);
    HandedIgnored(f, Handed(c, v), qc, v + 1, b);
    assert File(s1, qc) == f.(handed := Handed(c, v));
    var t := UpdateLock(f, qc, v + 1, b);
    var tail := t.handed[|s.handed|..];
    assert Handed(c, v) + tail == Handed(c, v + 1);
    HandedTail(c, v, tail);
  }

  lemma HandedTail(c: Config, v: nat, tail: seq<nat>)
    requires c.Valid() && Handed(c, v) + tail == Handed(c, v + 1)
    ensures v >= 2 ==> tail != [] && tail[|tail| - 1] == c.Txn(v - 2)
  {
    if v >= 2 {
      var all := Handed(c, v + 1);
      assert all[|all| - 1] == c.Txn(v - 2);
      assert v == 2 ==> |all| == 2;
      assert tail != [] by {
        assert |all| > |Handed(c, v)|;
      }
      assert (Handed(c, v) + tail)[|all| - 1] == tail[|tail| - 1];
    }
  }

  /** The same, or for view 1 the shape but for the prepared certificate, which is genesis: a
      certificate of view 0 is not newer. */
  ghost predicate Following(c: Config, H: nat -> Hash, s: Store, v: nat)
    requires c.Valid()
  {
    || InShape(c, H, s, v)
    || (v == 1 && s.prepared.view == 0 && H(0) in s.qcs && InShape(c, H, s.(prepared := s.qcs[H(0)]), 1))
  }

  /** What a newer certificate replaces does not matter. */
  lemma PreparedIgnored(s: Store, p: Cert, qc: Cert, view: nat, b: Block)
    requires qc.view + 1 == view && qc.view > s.prepared.view && qc.view > p.view
    ensures UpdateLock(s.(prepared := p), qc, view, b) == UpdateLock(s, qc, view, b)
  {
  }

  lemma FollowingAdvances(c: Config, H: nat -> Hash, s: Store, v: nat, qc: Cert, b: Block)
    requires Three(c, H) && v >= 1 && Following(c, H, s, v) && Core(qc) == Link(H, v) && BackBlock(c, H, b, v)
    ensures var t := UpdateLock(File(s, qc), qc, v + 1, b); InShape(c, H, t, v + 1) && s.handed <= t.handed
  {
    if InShape(c, H, s, v) {
      ShapeAdvances(c, H, s, v, qc, b);
    } else {
      var p := s.qcs[H(0)];
      var s1 := s.(prepared := p);
      ShapeAdvances(c, H, s1, 1, qc, b);
      assert qc.view == 1 && p.view == 0;
      PreparedIgnored(File(s, qc), p, qc, 2, b);
      assert File(s1, qc) == File(s, qc).(prepared := p);
    }
  }

  /** A leader message of the next view brings the store into the shape of that view. */
  lemma ExtensionFollows(c: Config, H: nat -> Hash, r: Replica, v: nat, high: Cert)
    requires Three(c, H) && InShape(c, H, r.store, v) && Core(high) == Link(H, v)
    requires v >= 2 ==> Mgr(r, c.Txn(v - 2)).hash == H(v - 2)
    ensures var t := Extend(c, r, G(c, H, v + 1, high)); Following(c, H, t, v + 1) && r.store.handed <= t.handed
  {
    var g := G(c, H, v + 1, high);
    var b := BlockAt(r, WrapSub(WrapSub(g.txn, c.Stride()), 2 * c.Stride()));
    ThreeBackIs(c, v);
    assert BackBlock(c, H, b, v);
    ShapeAdvances(c, H, r.store, v, high, b);
    assert r.store.prepared.view == Link(H, v - 1).view && high.view == v;
    if v == 0 {
      FirstExtension(c, H, r.store, high, b);
    }
  }

  lemma FirstExtension(c: Config, H: nat -> Hash, s: Store, high: Cert, b: Block)
    requires Three(c, H) && InShape(c, H, s, 0) && Core(high) == Link(H, 0)
    requires InShape(c, H, UpdateLock(File(s, high), high, 1, b), 1)
    ensures Following(c, H, File(s, high), 1)
  {
    var f := File(s, high);
    FileShape(c, H, s.(handed := Handed(c, 0)), 0, high);
    assert UpdateLock(f, high, 1, b) == f.(prepared := high);
    assert f.qcs[H(0)] == high;
  }

  lemma ThreeBackIs(c: Config, v: nat)
    requires c.Valid()
    ensures WrapSub(c.Txn(v + 1), c.Stride()) == c.Txn(v)
    ensures v >= 2 ==> WrapSub(c.Txn(v), 2 * c.Stride()) == c.Txn(v - 2)
  {
    TxnStep(c, v);
    if v >= 2 {
      TxnStep(c, v - 1);
      TxnStep(c, v - 2);
    }
  }

  // ----- Giving up on a view ---------------------------------------------------

  /** What replica `d` keeps of the view `v` it gave up: quorum and leader's message, and an
      entry for its slot in the history; the blocks before are known. */
  ghost predicate Past(c: Config, H: nat -> Hash, r: Replica, v: nat)
    requires c.Valid()
  {
    && Parked(Mgr(r, c.Txn(v)), H(v)) && Core(Mgr(r, c.Txn(v)).high) == Link(H, v - 1)
    && c.Txn(v) in r.store.handed
    && (forall w: nat :: w < v ==> Mgr(r, c.Txn(w)).hash == H(w))
  }

  predicate Alive(c: Config, r: Replica, d: nat, u: nat)
    requires c.Valid()
  {
    r.self == d < 3 && r.view == u && r.nextIndex == 0 && !r.crashed && r.incomplete == 0 && r.newViewed < c.Txn(u)
  }

  lemma PastKept(c: Config, H: nat -> Hash, r: Replica, r': Replica, v: nat, u: nat)
    requires c.Valid() && Past(c, H, r, v) && v < u && r'.mgrs == r.mgrs[c.Txn(u) := Mgr(r', c.Txn(u))]
    requires r.store.handed <= r'.store.handed
    ensures Past(c, H, r', v)
  {
    TxnMonotone(c, v, u);
    forall w: nat | w < v ensures Mgr(r', c.Txn(w)).hash == H(w) {
      TxnMonotone(c, w, u);
    }
  }

  /** In view `v`, with the quorum counted and the proposal missing. */
  ghost predicate Waits(c: Config, H: nat -> Hash, r: Replica, d: nat, v: nat)
    requires Three(c, H)
  {
    && At(c, H, r, d, v) && r.nextSend == v + 2
    && Parked(Mgr(r, c.Txn(v)), H(v)) && Core(Mgr(r, c.Txn(v)).high) == Link(H, v - 1)
  }

  lemma CountsInVain(c: Config, H: nat -> Hash, r: Replica, d: nat, v: nat, msg: Msg)
    requires Three(c, H) && At(c, H, r, d, v) && r.nextSend == v + 2
    requires var m := Mgr(r, c.Txn(v)); Pledged(m, d, H(v), m.high, false) && Core(m.high) == Link(H, v - 1)
    requires msg.Sync? && msg.txn == c.Txn(v) && msg.view == v && msg.hash == H(v) && msg.from != d
    ensures Waits(c, H, OnSync(c, r, msg), d, v)
  {
    Completes2(c, r, msg);
    SyncKeeps(c, H, r, msg);
    OthersKept(c, r, OnSync(c, r, msg), v);
  }

  lemma VictimIsBackup(c: Config, H: nat -> Hash, r: Replica, d: nat, v: nat)
    requires Three(c, H) && d == c.Primary(v + 2) && Poised(c, H, r, d, v)
    ensures c.Primary(v) != d && r.nextSend == v + 2 && Mgr(r, c.Txn(v)) == Fresh()
  {
    Leaders(c, v);
  }

  /** The victim takes up the leader's message and counts the leader's vote, but has no
      proposal. */
  lemma MissesProposal(c: Config, H: nat -> Hash, steps: seq<Step>, s: Sys, d: nat, v: nat, high: Cert)
    returns (more: seq<Step>, s': Sys)
    requires Three(c, H) && Reaches(c, steps, s) && d == c.Primary(v + 2) && Poised(c, H, s.reps[d], d, v)
    requires Announced(c, H, s.sent, v, high)
    ensures Reaches(c, more, s') && Only(s, s', d) && Waits(c, H, s'.reps[d], d, v)
  {
    VictimIsBackup(c, H, s.reps[d], d, v);
    var s1;
    more, s1 := TakesMessage(c, H, steps, s, d, v, high);
    AnnouncedStays(c, H, s.sent, s1.sent, v, high);
    more, s' := CountsVote(c, H, more, s1, d, v, high);
  }

  lemma CountsVote(c: Config, H: nat -> Hash, steps: seq<Step>, s: Sys, d: nat, v: nat, high: Cert)
    returns (more: seq<Step>, s': Sys)
    requires Three(c, H) && Reaches(c, steps, s) && d < 3 && c.Primary(v) != d && At(c, H, s.reps[d], d, v)
    requires s.reps[d].nextSend == v + 2 && Core(high) == Link(H, v - 1) && Polled(c, H, s.sent, c.Primary(v), v)
    requires Pledged(Mgr(s.reps[d], c.Txn(v)), d, H(v), high, false)
    ensures Reaches(c, more, s') && Only(s, s', d) && Waits(c, H, s'.reps[d], d, v)
  {
    var msg := SomeVote(s.sent, c.Primary(v), d, c.Txn(v), v, H(v));
    CountsInVain(c, H, s.reps[d], d, v, msg);
    more, s' := GoVote(c, steps, s, d, msg);
  }

  /** View `v` is given up, and nothing is known of later slots. */
  ghost predicate GaveUp(c: Config, H: nat -> Hash, r: Replica, d: nat, v: nat)
    requires Three(c, H)
  {
    && Alive(c, r, d, v + 1) && FreshFrom(c, r, v + 1) && r.nextSend == v + 2
    && Past(c, H, r, v) && InShape(c, H, r.store, v)
  }

  lemma FirstDoubt(c: Config, r: Replica, v: nat)
    requires c.Valid() && c.Nf() == 2 && r.view == v && r.failVoters == map[]
    ensures OnFailed(c, r, v, 0) == r.(failVoters := map[v := {0}])
  {
    assert VotersFor(r.failVoters, v) + {0} == {0};
  }

  lemma SecondDoubt(c: Config, r: Replica, v: nat)
    requires c.Valid() && c.Nf() == 2 && r.view == v && r.failVoters == map[v := {0}]
    ensures var r' := OnFailed(c, r, v, 1);
      r' == r.(view := v + 1, failVoters := r'.failVoters, store := r.store.(handed := r.store.handed + [c.Txn(v)]))
  {
    assert {0} + {1} == {0, 1} && |{0, 1}| == 2;
    assert GivesUp(c, r, v, 1);
  }

  lemma PastAtOnce(c: Config, H: nat -> Hash, r: Replica, d: nat, v: nat, r': Replica)
    requires Three(c, H) && Waits(c, H, r, d, v)
    requires r' == r.(view := v + 1, failVoters := r'.failVoters, store := r.store.(handed := r.store.handed + [c.Txn(v)]))
    ensures GaveUp(c, H, r', d, v)
  {
    assert r'.store.(handed := Handed(c, v)) == r.store;
    forall w: nat ensures Mgr(r', c.Txn(w)) == Mgr(r, c.Txn(w)) {
    }
    forall w: nat | w < v ensures Mgr(r', c.Txn(w)).hash == H(w) {
      assert SlotInv(c, H, r, w);
    }
    NextIsHigher(c, v);
    TxnMonotone(c, v, v + 1);
  }

  lemma GivesUpView(c: Config, H: nat -> Hash, steps: seq<Step>, s: Sys, d: nat, v: nat)
    returns (more: seq<Step>, s': Sys)
    requires Three(c, H) && Reaches(c, steps, s) && d < 3 && Waits(c, H, s.reps[d], d, v)
    ensures Reaches(c, more, s') && Only(s, s', d) && GaveUp(c, H, s'.reps[d], d, v)
  {
    var r, s1 := s.reps[d], s;
    FirstDoubt(c, r, v);
    more, s1 := GoFail(c, steps, s, d, v, 0);
    SecondDoubt(c, s1.reps[d], v);
    more, s' := GoFail(c, more, s1, d, v, 1);
    PastAtOnce(c, H, r, d, v, s'.reps[d]);
  }

  // ----- Catching up -----------------------------------------------------------

  lemma NotesNext(c: Config, H: nat -> Hash, r: Replica, d: nat, v: nat)
    requires Three(c, H) && GaveUp(c, H, r, d, v)
    ensures OnProposal(c, r, P(c, H, v + 1)) == Noted(r, P(c, H, v + 1))
  {
    TxnPositive(c, v + 1);
    assert Mgr(r, c.Txn(v + 1)) == Fresh();
    Learns(c, r, P(c, H, v + 1));
  }

  /** With the proposal of the next view noted. */
  ghost predicate Knows(c: Config, H: nat -> Hash, r: Replica, d: nat, v: nat)
    requires Three(c, H)
  {
    && Alive(c, r, d, v + 1) && FreshFrom(c, r, v + 2) && r.nextSend == v + 2
    && Past(c, H, r, v) && InShape(c, H, r.store, v)
    && Mgr(r, c.Txn(v + 1)) == Fresh().(hash := H(v + 1), proposal := true)
  }

  lemma KnowsNext(c: Config, H: nat -> Hash, r: Replica, d: nat, v: nat)
    requires Three(c, H) && GaveUp(c, H, r, d, v)
    ensures Knows(c, H, Noted(r, P(c, H, v + 1)), d, v)
  {
    var r' := Noted(r, P(c, H, v + 1));
    assert Mgr(r, c.Txn(v + 1)) == Fresh();
    PastKept(c, H, r, r', v, v + 1);
    OthersKept(c, r, r', v + 1);
  }

  lemma MayTakeNext(c: Config, H: nat -> Hash, r: Replica, d: nat, v: nat, high: Cert)
    requires Three(c, H) && Knows(c, H, r, d, v) && Core(high) == Link(H, v)
    ensures Acceptable(c, r, G(c, H, v + 1, high))
  {
    TxnPositive(c, v + 1);
    var locked := r.store.locked;
    assert high.view == v && locked.view == Link(H, v - 2).view && locked.genesis == Link(H, v - 2).genesis;
  }

  /** Voted in the next view. */
  ghost predicate VotedNext(c: Config, H: nat -> Hash, r: Replica, d: nat, v: nat)
    requires Three(c, H)
  {
    && Alive(c, r, d, v + 1) && FreshFrom(c, r, v + 2) && r.nextSend == v + 2
    && Past(c, H, r, v) && Following(c, H, r.store, v + 1)
    && var m := Mgr(r, c.Txn(v + 1)); Pledged(m, d, H(v + 1), m.high, true) && Core(m.high) == Link(H, v)
  }

  lemma TakesNext(c: Config, H: nat -> Hash, r: Replica, d: nat, v: nat, high: Cert)
    requires Three(c, H) && Knows(c, H, r, d, v) && Core(high) == Link(H, v)
    ensures var e := OnGeneric(c, r, G(c, H, v + 1, high));
      VotedNext(c, H, e.r, d, v) && Polled(c, H, e.out, d, v + 1)
  {
    var g := G(c, H, v + 1, high);
    MayTakeNext(c, H, r, d, v, high);
    TakesUp(c, r, g);
    ExtensionFollows(c, H, r, v, high);
    var r' := OnGeneric(c, r, g).r;
    PastKept(c, H, r, r', v, v + 1);
    OthersKept(c, r, r', v + 1);
  }

  lemma CatchesUp(c: Config, H: nat -> Hash, steps: seq<Step>, s: Sys, d: nat, v: nat, high: Cert)
    returns (more: seq<Step>, s': Sys)
    requires Three(c, H) && Reaches(c, steps, s) && d < 3 && c.Primary(v + 1) != d && GaveUp(c, H, s.reps[d], d, v)
    requires Announced(c, H, s.sent, v + 1, high)
    ensures Reaches(c, more, s') && Only(s, s', d) && VotedNext(c, H, s'.reps[d], d, v) && Polled(c, H, s'.sent, d, v + 1)
  {
    var s1;
    NotesNext(c, H, s.reps[d], d, v);
    KnowsNext(c, H, s.reps[d], d, v);
    more, s1 := GoProposal(c, steps, s, d, P(c, H, v + 1));
    more, s' := TakesNextMessage(c, H, more, s1, d, v, high);
  }

  lemma TakesNextMessage(c: Config, H: nat -> Hash, steps: seq<Step>, s: Sys, d: nat, v: nat, high: Cert)
    returns (more: seq<Step>, s': Sys)
    requires Three(c, H) && Reaches(c, steps, s) && d < 3 && c.Primary(v + 1) != d && Knows(c, H, s.reps[d], d, v)
    requires G(c, H, v + 1, high) in s.sent && Core(high) == Link(H, v)
    ensures Reaches(c, more, s') && Only(s, s', d) && VotedNext(c, H, s'.reps[d], d, v) && Polled(c, H, s'.sent, d, v + 1)
  {
    var r, g := s.reps[d], G(c, H, v + 1, high);
    TakesNext(c, H, r, d, v, high);
    more, s' := GoGeneric(c, steps, s, d, g);
    PolledStays(c, H, OnGeneric(c, r, g).out, s'.sent, d, v + 1);
  }

  /** In view `v + 2`, in step with the others but for what was handed over. */
  ghost predicate Caught(c: Config, H: nat -> Hash, r: Replica, d: nat, v: nat)
    requires Three(c, H)
  {
    && Alive(c, r, d, v + 2) && FreshFrom(c, r, v + 2) && r.nextSend == v + 2
    && Past(c, H, r, v) && InShape(c, H, r.store, v + 2)
  }

  /** A vote that completes the quorum of view `u` at a replica that knows the proposal. */
  lemma VoteAdvances(c: Config, H: nat -> Hash, r: Replica, u: nat, msg: Msg) returns (m: Manager)
    requires Three(c, H) && r.view == u && r.newViewed < c.Txn(u)
    requires var m := Mgr(r, c.Txn(u)); Pledged(m, r.self, H(u), m.high, true) && Core(m.high) == Link(H, u - 1)
    requires msg.Sync? && msg.txn == c.Txn(u) && msg.view == u && msg.hash == H(u) && msg.from != r.self
    ensures OnSync(c, r, msg) == Advance(c, PutMgr(r, c.Txn(u), m), c.Txn(u)) && m == Mgr(OnSync(c, r, msg), c.Txn(u))
    ensures m.hash == H(u) && Core(Formed(m, u)) == Link(H, u)
  {
    Completes2(c, r, msg);
    m := Mgr(OnSync(c, r, msg), c.Txn(u));
    FormedIsLink(H, m, u);
  }

  lemma EndsNext(c: Config, H: nat -> Hash, r: Replica, d: nat, v: nat, m: Manager)
    requires Three(c, H) && VotedNext(c, H, r, d, v) && m.hash == H(v + 1) && Core(Formed(m, v + 1)) == Link(H, v + 1)
    ensures Caught(c, H, Advance(c, PutMgr(r, c.Txn(v + 1), m), c.Txn(v + 1)), d, v)
  {
    var r1 := PutMgr(r, c.Txn(v + 1), m);
    var r' := Advance(c, r1, c.Txn(v + 1));
    AdvanceFrame(c, r1, c.Txn(v + 1), true);
    var b := BlockAt(r1, WrapSub(c.Txn(v + 1), 2 * c.Stride()));
    PastKept(c, H, r, r1, v, v + 1);
    ThreeBackIs(c, v + 1);
    assert BackBlock(c, H, b, v + 1);
    FollowingAdvances(c, H, r1.store, v + 1, Formed(m, v + 1), b);
    PastKept(c, H, r, r', v, v + 1);
    OthersKept(c, r, r', v + 1);
    NextIsHigher(c, v + 1);
  }

  lemma CatchesView(c: Config, H: nat -> Hash, steps: seq<Step>, s: Sys, d: nat, v: nat)
    returns (more: seq<Step>, s': Sys)
    requires Three(c, H) && Reaches(c, steps, s) && d < 3 && c.Primary(v + 1) != d && VotedNext(c, H, s.reps[d], d, v)
    requires Polled(c, H, s.sent, c.Primary(v + 1), v + 1)
    ensures Reaches(c, more, s') && Only(s, s', d) && Caught(c, H, s'.reps[d], d, v)
  {
    var msg := SomeVote(s.sent, c.Primary(v + 1), d, c.Txn(v + 1), v + 1, H(v + 1));
    var m := VoteAdvances(c, H, s.reps[d], v + 1, msg);
    EndsNext(c, H, s.reps[d], d, v, m);
    more, s' := GoVote(c, steps, s, d, msg);
  }

  // ----- Committing, and the late proposal --------------------------------------

  /** Leading view `v + 2`. */
  ghost predicate LeadsTwo(c: Config, H: nat -> Hash, r: Replica, d: nat, v: nat)
    requires Three(c, H)
  {
    && Alive(c, r, d, v + 2) && FreshFrom(c, r, v + 3) && Past(c, H, r, v) && InShape(c, H, r.store, v + 2)
    && var m := Mgr(r, c.Txn(v + 2)); Pledged(m, d, H(v + 2), m.high, true) && Core(m.high) == Link(H, v + 1)
  }

  lemma ProposesTwo(c: Config, H: nat -> Hash, r: Replica, d: nat, v: nat)
    requires Three(c, H) && Caught(c, H, r, d, v) && d == c.Primary(v + 2)
    ensures CanPropose(r)
    ensures var r' := Propose(c, r, H(v + 2)).r;
      && r' == r.(store := r.store.(txnOf := r.store.txnOf[H(v + 2) := c.Txn(v + 2)]), lastSent := v + 2, nextSend := v + 5,
                  incomplete := 1, mgrs := r.mgrs[c.Txn(v + 2) := Fresh().(hash := H(v + 2), proposal := true)])
      && CanLead(c, r')
  {
    assert Mgr(r, c.Txn(v + 2)) == Fresh();
  }

  lemma LeadsTwoInStep(c: Config, H: nat -> Hash, r: Replica, d: nat, v: nat)
    requires Three(c, H) && Caught(c, H, r, d, v) && d == c.Primary(v + 2)
    ensures var e := Lead(c, Propose(c, r, H(v + 2)).r);
      && LeadsTwo(c, H, e.r, d, v) && G(c, H, v + 2, r.store.prepared) in e.out
      && Core(r.store.prepared) == Link(H, v + 1)
  {
    ProposesTwo(c, H, r, d, v);
    TxnPositive(c, v + 2);
    var r1 := Propose(c, r, H(v + 2)).r;
    LeadsOff(c, r1, c.Txn(v + 2), H(v + 2));
    var r' := Lead(c, r1).r;
    assert r'.mgrs == r.mgrs[c.Txn(v + 2) := Mgr(r', c.Txn(v + 2))];
    PastKept(c, H, r, r', v, v + 2);
    OthersKept(c, r, r', v + 2);
  }

  lemma VictimLeads(c: Config, H: nat -> Hash, steps: seq<Step>, s: Sys, d: nat, v: nat)
    returns (more: seq<Step>, s': Sys, high: Cert)
    requires Three(c, H) && Reaches(c, steps, s) && d == c.Primary(v + 2) && Caught(c, H, s.reps[d], d, v)
    ensures Reaches(c, more, s') && Only(s, s', d) && LeadsTwo(c, H, s'.reps[d], d, v)
    ensures G(c, H, v + 2, high) in s'.sent && Core(high) == Link(H, v + 1)
  {
    var r, s1 := s.reps[d], s;
    high := r.store.prepared;
    ProposesTwo(c, H, r, d, v);
    LeadsTwoInStep(c, H, r, d, v);
    more, s1 := GoPropose(c, steps, s, d, H(v + 2));
    more, s' := GoLead(c, more, s1, d);
  }

  /** The block of view `v` is committed and erased; its slot is in the history twice, as the
      void slot of the view given up and on the commit, which comes last. */
  ghost predicate Committed(c: Config, H: nat -> Hash, r: Replica, v: nat)
    requires c.Valid()
  {
    && r.view == v + 3 && r.nextIndex == 0 && !r.crashed && !Certified(r.store.qcs, H(v))
    && r.store.locked.view == v + 1 && !r.store.locked.genesis && r.store.prepared.view == v + 2 && !r.store.prepared.genesis
    && Parked(Mgr(r, c.Txn(v)), H(v)) && Core(Mgr(r, c.Txn(v)).high) == Link(H, v - 1)
    && r.store.qcs.Keys == {H(v + 1), H(v + 2)}
    && var n := |r.store.handed| - 1; n >= 0 && r.store.handed[n] == c.Txn(v) && c.Txn(v) in r.store.handed[..n]
  }

  lemma EndsTwo(c: Config, H: nat -> Hash, r: Replica, d: nat, v: nat, m: Manager)
    requires Three(c, H) && LeadsTwo(c, H, r, d, v) && m.hash == H(v + 2) && Core(Formed(m, v + 2)) == Link(H, v + 2)
    ensures Certified(r.store.qcs, H(v)) && Committed(c, H, Advance(c, PutMgr(r, c.Txn(v + 2), m), c.Txn(v + 2)), v)
  {
    var r1 := PutMgr(r, c.Txn(v + 2), m);
    var r' := Advance(c, r1, c.Txn(v + 2));
    AdvanceFrame(c, r1, c.Txn(v + 2), true);
    var b := BlockAt(r1, WrapSub(c.Txn(v + 2), 2 * c.Stride()));
    PastKept(c, H, r, r1, v, v + 2);
    ThreeBackIs(c, v + 2);
    assert BackBlock(c, H, b, v + 2);
    ShapeAdvances(c, H, r1.store, v + 2, Formed(m, v + 2), b);
    TwiceHanded(r.store.handed, r'.store.handed, c.Txn(v));
    assert InChain(H, r.store.qcs, v);
    ShapeTells(c, H, r'.store, v);
  }

  lemma TwiceHanded(a: seq<nat>, b: seq<nat>, x: nat)
    requires x in a && a <= b && |a| < |b| && b[|b| - 1] == x
    ensures x in b[..|b| - 1]
  {
    var i :| 0 <= i < |a| && a[i] == x;
    assert b[i] == x && i < |b| - 1;
    assert b[..|b| - 1][i] == x;
  }

  lemma ShapeTells(c: Config, H: nat -> Hash, s: Store, v: nat)
    requires Three(c, H) && InShape(c, H, s, v + 3)
    ensures !Certified(s.qcs, H(v)) && s.qcs.Keys == {H(v + 1), H(v + 2)}
    ensures s.locked.view == v + 1 && !s.locked.genesis && s.prepared.view == v + 2 && !s.prepared.genesis
  {
    assert Core(s.locked) == Link(H, v + 1) && Core(s.prepared) == Link(H, v + 2);
  }

  lemma VictimCommits(c: Config, H: nat -> Hash, steps: seq<Step>, s: Sys, d: nat, v: nat, from: nat)
    returns (vote: Step, s': Sys)
    requires Three(c, H) && Reaches(c, steps, s) && d < 3 && from < 3 && from != d && LeadsTwo(c, H, s.reps[d], d, v)
    requires Polled(c, H, s.sent, from, v + 2)
    ensures Reaches(c, steps + [vote], s') && Only(s, s', d)
    ensures Certified(s.reps[d].store.qcs, H(v)) && Committed(c, H, s'.reps[d], v)
  {
    var more;
    var msg := SomeVote(s.sent, from, d, c.Txn(v + 2), v + 2, H(v + 2));
    var m := VoteAdvances(c, H, s.reps[d], v + 2, msg);
    EndsTwo(c, H, s.reps[d], d, v, m);
    vote := Deliver(d, msg);
    more, s' := GoVote(c, steps, s, d, msg);
  }

  /** The block is certified again, stamped with the view that ended now, and that certificate
      is the prepared one; or with view 0 if it is the first block. The lock did not move. */
  ghost predicate Revived(c: Config, H: nat -> Hash, r: Replica, was: Replica, v: nat)
    requires c.Valid()
  {
    && Certified(r.store.qcs, H(v)) && r.store.qcs[H(v)].view == (if v == 0 then 0 else v + 3)
    && (v > 0 ==> r.store.prepared == r.store.qcs[H(v)])
    && r.store.locked == was.store.locked
    && r.view == v + 4 && r.advanced == was.advanced + [c.Txn(v)]
  }

  lemma Refiles(c: Config, H: nat -> Hash, r: Replica, v: nat)
    requires Three(c, H) && Committed(c, H, r, v)
    ensures Revived(c, H, Advance(c, Noted(r, P(c, H, v)), c.Txn(v)), r, v)
  {
    var r1 := Noted(r, P(c, H, v));
    var m := Mgr(r1, c.Txn(v));
    var qc, b := Formed(m, r.view), BlockAt(r1, WrapSub(c.Txn(v), 2 * c.Stride()));
    assert m.high.genesis == Link(H, v - 1).genesis && m.high.hash == Link(H, v - 1).hash;
    assert qc.hash == H(v) && qc.parent == HashAt(H, v - 1) && qc.view == (if v == 0 then 0 else v + 3);
    var f := File(r1.store, qc);
    assert Parent(f.qcs, qc) == Blank() by {
      assert qc.parent != H(v) && qc.parent != H(v + 1) && qc.parent != H(v + 2);
      assert qc.parent !in f.qcs;
    }
    assert UpdateLock(f, qc, r.view + 1, b).qcs == Family(f.qcs, qc);
    assert Family(f.qcs, qc)[H(v)] == qc;
  }

  lemma ProposalRevives(c: Config, H: nat -> Hash, steps: seq<Step>, s: Sys, d: nat, v: nat) returns (s': Sys)
    requires Three(c, H) && Reaches(c, steps, s) && d < 3 && c.Primary(v) != d && Committed(c, H, s.reps[d], v)
    requires P(c, H, v) in s.sent
    ensures Reaches(c, steps + [Deliver(d, P(c, H, v))], s') && Revived(c, H, s'.reps[d], s.reps[d], v)
  {
    TxnPositive(c, v);
    var more;
    LateProposalEnds(c, s.reps[d], P(c, H, v));
    Refiles(c, H, s.reps[d], v);
    more, s' := GoProposal(c, steps, s, d, P(c, H, v));
  }

  // ----- The whole run ---------------------------------------------------------

  /** The leader of the next view goes on, the victim gives up. */
  lemma ViewIsGivenUp(c: Config, H: nat -> Hash, v: nat) returns (steps: seq<Step>, s: Sys, high: Cert)
    requires Three(c, H)
    ensures Reaches(c, steps, s) && P(c, H, v) in s.sent && Announced(c, H, s.sent, v + 1, high)
    ensures Voted(c, H, s.reps[c.Primary(v + 1)], c.Primary(v + 1), v + 1)
    ensures GaveUp(c, H, s.reps[c.Primary(v + 2)], c.Primary(v + 2), v)
  {
    Leaders(c, v);
    var b, d := c.Primary(v + 1), c.Primary(v + 2);
    var s0, s1, s2, s3, s4, first;
    steps, s0 := AllReach(c, H, v);
    steps, s1, first := LeadsView(c, H, steps, s0, v);
    steps, s2 := FollowsView(c, H, steps, s1, b, v, first);
    AnnouncedStays(c, H, s1.sent, s2.sent, v, first);
    steps, s3 := MissesProposal(c, H, steps, s2, d, v, first);
    steps, s4 := GivesUpView(c, H, steps, s3, d, v);
    steps, s, high := LeadsView(c, H, steps, s4, v + 1);
  }

  lemma VictimIsBack(c: Config, H: nat -> Hash, v: nat) returns (steps: seq<Step>, s: Sys)
    requires Three(c, H)
    ensures Reaches(c, steps, s) && P(c, H, v) in s.sent && Polled(c, H, s.sent, c.Primary(v + 2), v + 1)
    ensures Voted(c, H, s.reps[c.Primary(v + 1)], c.Primary(v + 1), v + 1)
    ensures Caught(c, H, s.reps[c.Primary(v + 2)], c.Primary(v + 2), v)
  {
    Leaders(c, v);
    var d := c.Primary(v + 2);
    var s0, s1, high;
    steps, s0, high := ViewIsGivenUp(c, H, v);
    steps, s1 := CatchesUp(c, H, steps, s0, d, v, high);
    AnnouncedStays(c, H, s0.sent, s1.sent, v + 1, high);
    steps, s := CatchesView(c, H, steps, s1, d, v);
    PolledStays(c, H, s1.sent, s.sent, d, v + 1);
  }

  lemma AboutToCommit(c: Config, H: nat -> Hash, v: nat) returns (steps: seq<Step>, s: Sys)
    requires Three(c, H)
    ensures Reaches(c, steps, s) && P(c, H, v) in s.sent && Polled(c, H, s.sent, c.Primary(v + 1), v + 2)
    ensures LeadsTwo(c, H, s.reps[c.Primary(v + 2)], c.Primary(v + 2), v)
  {
    Leaders(c, v);
    var b, d := c.Primary(v + 1), c.Primary(v + 2);
    var s0, s1, s2, high;
    steps, s0 := VictimIsBack(c, H, v);
    steps, s1, high := VictimLeads(c, H, steps, s0, d, v);
    assert Polled(c, H, s1.sent, d, v + 1) by {
      PolledStays(c, H, s0.sent, s1.sent, d, v + 1);
    }
    assert Voted(c, H, s1.reps[b], b, v + 1);
    steps, s2 := VoteCounts(c, H, steps, s1, b, d, v + 1);
    steps, s := TakesMessageOnly(c, H, steps, s2, b, v + 2, high);
  }

  /** A committed block comes back, whatever its view: for every group of three and every view
      there is a run of correct replicas, one batch a slot, in which a step commits and erases
      the block of that view at a replica, whose slot is thereby handed over for the second
      time, and the late proposal of that slot then ends a later view and files the block
      again; above view 0 with a certificate above the lock. */
  lemma CommittedBlockComesBack(c: Config, H: nat -> Hash, v: nat) returns (steps: seq<Step>, vote: Step)
    requires Three(c, H)
    ensures var i, late := c.Primary(v + 2), Deliver(c.Primary(v + 2), P(c, H, v));
      var s, t, u := Run(c, {}, steps), Run(c, {}, steps + [vote]), Run(c, {}, steps + [vote] + [late]);
      && |s.reps| == 3 && |t.reps| == 3 && |u.reps| == 3
      && Certified(s.reps[i].store.qcs, H(v)) && Committed(c, H, t.reps[i], v) && Enabled(c, {}, t, late)
      && Revived(c, H, u.reps[i], t.reps[i], v)
  {
    Leaders(c, v);
    var d := c.Primary(v + 2);
    var s, t, u;
    steps, s := AboutToCommit(c, H, v);
    vote, t := VictimCommits(c, H, steps, s, d, v, c.Primary(v + 1));
    u := ProposalRevives(c, H, steps + [vote], t, d, v);
  }
}
