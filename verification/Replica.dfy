/** One consensus instance on one replica: the message handlers and the steps
    of the leader, as transitions on values. */
module Replica {
  import opened Cluster
  import opened Certificate
  import opened VoteManager
  import opened CertStore
  import opened FaultVoters
  import opened Sequences

  /** Network messages. `txn` is the identifier of the last transaction of the
      slot, i.e. of the manager concerned; a proposal travels with `txn - 2`. */
  datatype Msg =
    | Sync(from: nat, to: nat, txn: nat, view: nat, hash: Hash, sig: Option<Share>)
    | Proposal(from: nat, txn: nat, view: nat, hash: Hash)
    | Generic(from: nat, txn: nat, view: nat, hash: Hash, high: Cert)

  /** `nextIndex`: the first transaction not executed yet; `newViewed`: the slot
      that ended the previous view, in 32 bits; `nextSend`, `lastSent` and
      `incomplete`: the leader's proposals; `advanced`: the managers on which
      the view was advanced; `failVoters`: who gave up on a view. */
  datatype Replica = Replica(
    self: nat, view: nat, store: Store, mgrs: map<nat, Manager>, newViewed: nat, nextIndex: nat,
    nextSend: nat, lastSent: nat, incomplete: nat, advanced: seq<nat>, failVoters: Table,
    crashed: bool)

  /** A new state and the messages sent on the way. */
  datatype Effect = Effect(r: Replica, out: set<Msg>)

  const U32 := 0x1_0000_0000
  const U64 := 0x1_0000_0000_0000_0000

  function Boot(c: Config, self: nat): Replica
    requires c.Valid() && self < c.nodes
  {
    Replica(self, 0, Start(), map[], 0, 0, (c.nodes + self - c.instance) % c.nodes, 0, 0, [], map[], false)
  }

  /** The transaction table creates a manager on first use. */
  function Mgr(r: Replica, txn: nat): Manager {
    if txn in r.mgrs then r.mgrs[txn] else Fresh()
  }

  function PutMgr(r: Replica, txn: nat, m: Manager): Replica {
    r.(mgrs := r.mgrs[txn := m])
  }

  /** Subtraction of 64-bit transaction identifiers. */
  function WrapSub(a: nat, b: nat): nat {
    if b <= a then a - b else (a - b) % U64
  }

  function BlockAt(r: Replica, txn: nat): Block {
    Block(txn, Mgr(r, txn).hash, Mgr(r, txn).voters.Keys)
  }

  /** The certificate that ends `view` with the votes collected by `m`. */
  function Formed(m: Manager, view: nat): Cert {
    QC(Prepare, false, if m.high.genesis then 0 else view, m.high.view, m.hash, m.high.hash,
       false, m.high.parentView, m.high.parent, m.shares)
  }

  /** A certificate up to its phase mark and signature shares. */
  function Core(qc: Cert): Cert {
    qc.(kind := Prepare, shares := map[])
  }

  /** `advance_view` on the manager `txn`. */
  function Advance(c: Config, r: Replica, txn: nat): Replica
    requires c.Valid()
  {
    var m := Mgr(r, txn);
    if m.hash == NoHash then r.(crashed := true)
    else
      var qc := Formed(m, r.view);
      r.(store := UpdateLock(File(r.store, qc), qc, r.view + 1, BlockAt(r, WrapSub(txn, 2 * c.Stride()))),
         view := r.view + 1,
         newViewed := txn % U32,
         advanced := r.advanced + [txn])
  }

  function AdvanceIf(c: Config, r: Replica, txn: nat, ready: bool): Replica
    requires c.Valid()
  {
    if ready then Advance(c, r, txn) else r
  }

  // ----- Backups ---------------------------------------------------------------

  /** Votes that come too late to matter. */
  predicate StaleSync(r: Replica, msg: Msg)
    requires msg.Sync?
  {
    msg.view < r.view || (msg.view == r.view && msg.txn <= r.newViewed)
  }

  function VoteIn(msg: Msg): Vote
    requires msg.Sync?
  {
    Vote(msg.from, msg.hash, msg.sig)
  }

  /** Is this vote counted by the manager it is meant for? */
  predicate Counted(r: Replica, msg: Msg)
    requires msg.Sync?
  {
    var m := Mgr(r, msg.txn);
    !StaleSync(r, msg) && (m.hash == NoHash || m.hash == msg.hash)
  }

  /** `process_hotstuff_new_view`. */
  function OnSync(c: Config, r: Replica, msg: Msg): Replica
    requires c.Valid() && msg.Sync?
  {
    var m, v := Mgr(r, msg.txn), VoteIn(msg);
    if !Counted(r, msg) then r
    else
      var m' := CountVote(m, r.self, c.Nf(), v);
      var filed := if |VotersOf(m, v.hash)| == 0 && |VotersOf(m', v.hash)| == 1
                   then r.store.(txnOf := r.store.txnOf[v.hash := msg.txn]) else r.store;
      AdvanceIf(c, PutMgr(r.(store := filed), msg.txn, m'), msg.txn,
                Completes(m, r.self, c.Nf(), v) && m'.proposal && m'.generic)
  }

  /** `process_hotstuff_proposal`; a slot that was executed takes no proposal. */
  function OnProposal(c: Config, r: Replica, msg: Msg): Replica
    requires c.Valid() && msg.Proposal?
  {
    var m := Mgr(r, msg.txn);
    if msg.txn - 2 <= r.nextIndex || m.proposal then r
    else if m.generic && m.hash != msg.hash then r.(crashed := true)
    else
      var m' := m.(hash := msg.hash, proposal := true);
      var txnOf := if msg.hash in r.store.txnOf then r.store.txnOf else r.store.txnOf[msg.hash := msg.txn];
      AdvanceIf(c, PutMgr(r.(store := r.store.(txnOf := txnOf)), msg.txn, m'), msg.txn,
                m'.newViewed && m'.generic)
  }

  /** Is the leader's message for `txn` taken up now? An early one stays parked
      until the view is reached and is then delivered again. */
  predicate Acceptable(c: Config, r: Replica, g: Msg)
    requires c.Valid() && g.Generic?
  {
    && g.view <= r.view
    && g.txn > r.nextIndex
    && !Mgr(r, g.txn).generic
    && c.Primary(r.view) == g.from
    && SafeNode(g.high, r.store.locked)
  }

  /** File the certificate a proposal extends, and move prepared and lock. */
  function Extend(c: Config, r: Replica, g: Msg): Store
    requires c.Valid() && g.Generic?
  {
    var filed := File(r.store, g.high);
    if g.high.view > r.store.prepared.view
    then UpdateLock(filed, g.high, g.view, BlockAt(r, WrapSub(WrapSub(g.txn, c.Stride()), 2 * c.Stride())))
    else filed
  }

  /** The votes `send_hotstuff_newview` sends: one to every other replica, with
      the signature share only to the leader of the next view. */
  function Ballots(c: Config, self: nat, view: nat, txn: nat, m: Manager): set<Msg>
    requires c.Valid()
  {
    if m.syncSent then {}
    else set d | d in Ids(c.nodes) && d != self ::
           Sync(self, d, txn, view, m.hash,
                if d == c.Primary(view + 1) then Some(OwnShare(m, self)) else None)
  }

  function VoteFor(c: Config, self: nat, view: nat, m: Manager): Manager
    requires c.Valid()
  {
    CastVote(m, self, c.Nf(), self == c.Primary(view + 1))
  }

  /** The second half of `process_hotstuff_generic`, on the updated manager:
      extend the certificates, vote, and advance if all else is there. */
  function TakeUp(c: Config, r: Replica, g: Msg, m: Manager): Effect
    requires c.Valid() && g.Generic?
  {
    var m' := VoteFor(c, r.self, r.view, m);
    Effect(AdvanceIf(c, PutMgr(r.(store := Extend(c, r, g)), g.txn, m'), g.txn, m'.newViewed && m'.proposal),
           Ballots(c, r.self, r.view, g.txn, m))
  }

  /** `process_hotstuff_generic`. */
  function OnGeneric(c: Config, r: Replica, g: Msg): Effect
    requires c.Valid() && g.Generic?
  {
    var m := Mgr(r, g.txn);
    if !Acceptable(c, r, g) then Effect(r, {})
    else if m.hash != NoHash && m.hash != g.hash then Effect(r.(crashed := true), {})
    else TakeUp(c, r, g, m.(hash := g.hash, high := g.high, generic := true))
  }

  // ----- Leaders ---------------------------------------------------------------

  /** The proposal thread binds a client batch to the next slot this replica leads. */
  predicate CanPropose(r: Replica) {
    r.nextSend <= r.view
  }

  /** `create_and_send_hotstuff_prepare`. */
  function Propose(c: Config, r: Replica, hash: Hash): Effect
    requires c.Valid()
  {
    var view := r.nextSend;
    var txn := c.Txn(view);
    var m := Mgr(r, txn).(hash := hash, proposal := true);
    Effect(PutMgr(r.(store := r.store.(txnOf := r.store.txnOf[hash := txn]), lastSent := view,
                     nextSend := view + c.nodes, incomplete := r.incomplete + 1), txn, m),
           {Proposal(r.self, txn, view, hash)})
  }

  predicate CanLead(c: Config, r: Replica)
    requires c.Valid()
  {
    r.incomplete != 0 && r.self == c.Primary(r.view)
  }

  /** `process_hotstuff_generic_p` on the last slot proposed. */
  function Lead(c: Config, r: Replica): Effect
    requires c.Valid() && r.incomplete != 0
  {
    var txn := c.Txn(r.lastSent);
    var m := Mgr(r, txn);
    var r1 := r.(incomplete := r.incomplete - 1);
    if txn <= r.nextIndex then Effect(r1, {})
    else if m.hash == NoHash then Effect(r1.(crashed := true), {})
    else
      var m1 := m.(high := r.store.prepared, generic := true);
      Effect(PutMgr(r1, txn, VoteFor(c, r.self, r.view, m1)),
             {Generic(r.self, txn, r.view, m.hash, r.store.prepared)} + Ballots(c, r.self, r.view, txn, m1))
  }

  // ----- Execution, garbage collection, failed views ----------------------------

  /** The next slot may execute; a slot of this instance only once handed over. */
  predicate CanExecute(c: Config, r: Replica)
    requires c.Valid()
  {
    var k := r.nextIndex / c.batch;
    k % c.instances == c.instance ==> c.LastId(k) in r.store.handed
  }

  function Execute(c: Config, r: Replica): Replica {
    r.(nextIndex := r.nextIndex + c.batch)
  }

  /** The checkpoint of an executed slot releases managers below this bound. */
  function ReleaseBound(c: Config, slot: nat): int
    requires c.Valid()
  {
    c.LastId(slot) - 5 - 16 * c.batch * c.nodes
  }

  lemma BoundIsExecuted(c: Config, r: Replica, slot: nat)
    requires c.Valid() && (slot + 1) * c.batch <= r.nextIndex
    ensures ReleaseBound(c, slot) < r.nextIndex
  {
    assert (slot + 1) * c.batch == slot * c.batch + c.batch;
    assert 16 * c.batch * c.nodes >= 0;
  }

  /** A checkpoint sent after executing `slot` only releases executed managers. */
  lemma CheckpointReleasesExecuted(c: Config, r: Replica, slot: nat, txn: nat)
    requires c.Valid()
    requires (slot + 1) * c.batch <= r.nextIndex
    requires txn < ReleaseBound(c, slot)
    ensures CanRelease(r, txn)
  {
    BoundIsExecuted(c, r, slot);
  }

  /** What the checkpoint thread releases: everything from `start` to the bound but the
      identifier the other thread holds, the rest below the bound after that one, and at
      last `start` itself. */
  predicate Collected(start: nat, holding: nat, bound: int, txn: nat) {
    (start <= txn < bound && txn < holding) || holding < txn < bound || (txn == start && holding < bound)
  }

  /** The two loops and the last release of a checkpoint: exactly these managers go, all of
      them of executed transactions, and the others stay as they are. Nothing less than 16
      batches for every replica behind the transaction of the checkpoint goes, and all that
      is further behind does, but for the manager the other thread holds. */
  method Collect(c: Config, r: Replica, slot: nat, start: nat, holding: nat) returns (r': Replica)
    requires c.Valid() && (slot + 1) * c.batch <= r.nextIndex && start <= ReleaseBound(c, slot)
    ensures r' == r.(mgrs := r'.mgrs)
    ensures forall t :: t in r'.mgrs <==> t in r.mgrs && !Collected(start, holding, ReleaseBound(c, slot), t)
    ensures forall t :: t in r'.mgrs ==> r'.mgrs[t] == r.mgrs[t]
    ensures forall t :: Collected(start, holding, ReleaseBound(c, slot), t) ==> CanRelease(r, t)
    ensures forall t :: t in r.mgrs && t + 16 * c.batch * c.nodes > c.LastId(slot) - 5 ==> t in r'.mgrs
    ensures forall t :: start <= t && t != holding && t + 16 * c.batch * c.nodes < c.LastId(slot) - 5 ==> t !in r'.mgrs
  {
    var bound := ReleaseBound(c, slot);
    forall t: nat | t < bound ensures CanRelease(r, t) {
      CheckpointReleasesExecuted(c, r, slot, t);
    }
    BoundIsExecuted(c, r, slot);
    r' := r;
    var i := start;
    while i < holding && i < bound
      invariant start <= i && (i == start || (i <= holding && i <= bound))
      invariant r' == r.(mgrs := r'.mgrs) && (forall t :: t in r'.mgrs ==> t in r.mgrs && r'.mgrs[t] == r.mgrs[t])
      invariant forall t :: t in r.mgrs ==> (t in r'.mgrs <==> !(start <= t < i))
    {
      r' := Release(r', i);
      i := i + 1;
    }
    var j := holding + 1;
    while j < bound
      invariant holding < j && (j == holding + 1 || j <= bound)
      invariant r' == r.(mgrs := r'.mgrs) && (forall t :: t in r'.mgrs ==> t in r.mgrs && r'.mgrs[t] == r.mgrs[t])
      invariant forall t :: t in r.mgrs ==> (t in r'.mgrs <==> !(start <= t < i) && !(holding < t < j))
      decreases bound - j
    {
      r' := Release(r', j);
      j := j + 1;
    }
    if holding < bound {
      r' := Release(r', start);
    }
  }

  predicate CanRelease(r: Replica, txn: nat) {
    txn < r.nextIndex
  }

  function Release(r: Replica, txn: nat): Replica {
    r.(mgrs := r.mgrs - {txn})
  }

  /** Does this voter complete the quorum that gives up on `view`? */
  predicate GivesUp(c: Config, r: Replica, view: nat, voter: nat)
    requires c.Valid()
  {
    view >= r.view && Reaches(r.failVoters, c.Nf(), view, voter)
  }

  /** `process_failed_new_view` and the local timeout: the slot of a failed view
      is handed to execution as void, and the view after it begins. */
  function OnFailed(c: Config, r: Replica, view: nat, voter: nat): Replica
    requires c.Valid()
  {
    if view < r.view then r
    else
      var r1 := r.(failVoters := Add(r.failVoters, c.Nf(), view, voter));
      if !GivesUp(c, r, view, voter) then r1
      else r1.(view := view + 1, store := r.store.(handed := r.store.handed + [c.Txn(view)]))
  }

  /** Giving up on a view leaves every slot handed over at most once exactly if the slot of that
      view has not been handed over. */
  lemma GivingUpHandsOnceIff(c: Config, r: Replica, view: nat, voter: nat)
    requires c.Valid() && GivesUp(c, r, view, voter)
    ensures NoDup(OnFailed(c, r, view, voter).store.handed) <==>
      NoDup(r.store.handed) && c.Txn(view) !in r.store.handed
  {
    NoDupAppend(r.store.handed, [c.Txn(view)]);
  }

  // ----- What the handlers leave alone ------------------------------------------

  lemma AdvanceFrame(c: Config, r: Replica, txn: nat, ready: bool)
    requires c.Valid()
    ensures var a := AdvanceIf(c, r, txn, ready);
      && a.mgrs == r.mgrs && a.nextIndex == r.nextIndex && a.self == r.self
      && a.nextSend == r.nextSend && a.lastSent == r.lastSent && a.incomplete == r.incomplete
      && a.failVoters == r.failVoters
      && a.view == (if ready && Mgr(r, txn).hash != NoHash then r.view + 1 else r.view)
      && a.advanced == (if ready && Mgr(r, txn).hash != NoHash then r.advanced + [txn] else r.advanced)
      && a.crashed == (r.crashed || (ready && Mgr(r, txn).hash == NoHash))
  {
  }
}
