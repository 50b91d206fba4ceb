/** Runs without faults and without failed views: the certificates of an
    instance form one chain, two views deep, behind the current view. */
module Pipeline {
  import opened Cluster
  import opened Certificate
  import opened VoteManager
  import opened CertStore
  import opened Replica
  import opened System

  /** One batch hash per view, all different. */
  ghost predicate Naming(H: nat -> Hash) {
    && (forall v :: H(v) != NoHash)
    && (forall v, w :: H(v) == H(w) ==> v == w)
  }

  function HashAt(H: nat -> Hash, v: int): Hash {
    if v < 0 then NoHash else H(v)
  }

  /** The certificate of view `v` in the chain; before view 0 comes genesis. */
  function Link(H: nat -> Hash, v: int): Cert {
    if v < 0 then Genesis(Prepare)
    else QC(Prepare, false, v, if v < 1 then 0 else v - 1, H(v), HashAt(H, v - 1),
            false, if v < 2 then 0 else v - 2, HashAt(H, v - 2), map[])
  }

  /** The certificates resident in view `v`. */
  function Resident(H: nat -> Hash, v: nat): set<Hash> {
    if v == 0 then {NoHash}
    else if v == 1 then {NoHash, H(0)}
    else if v == 2 then {NoHash, H(0), H(1)}
    else {H(v - 2), H(v - 1)}
  }

  /** What execution was handed by view `v`: the genesis sentinel under
      identifier 0, and then the slots of views 0 to v-3. */
  function Handed(c: Config, v: nat): seq<nat>
    requires c.Valid()
  {
    if v < 3 then [] else if v == 3 then [0, c.Txn(0)] else Handed(c, v - 1) + [c.Txn(v - 3)]
  }

  ghost predicate InChain(H: nat -> Hash, m: CertMap, w: int) {
    HashAt(H, w) in m && Core(m[HashAt(H, w)]) == Link(H, w)
  }

  /** The shape of the store in view `v`. */
  ghost predicate Shape(c: Config, H: nat -> Hash, s: Store, v: nat)
    requires c.Valid()
  {
    && Core(s.prepared) == Link(H, v - 1)
    && Core(s.locked) == Link(H, v - 2)
    && s.qcs.Keys == Resident(H, v)
    && (forall w: int :: (if v < 3 then -1 else v - 2) <= w < v ==> InChain(H, s.qcs, w))
    && s.handed == Handed(c, v)
    && NoHash !in s.txnOf
  }

  /** Filing the certificate of the current view finds its whole family. */
  lemma FileShape(c: Config, H: nat -> Hash, s: Store, v: nat, qc: Cert)
    requires c.Valid() && Naming(H) && Shape(c, H, s, v) && Core(qc) == Link(H, v)
    ensures var f := File(s, qc);
      && f.qcs.Keys == Resident(H, v) + {H(v)}
      && (forall w: int :: (if v < 3 then -1 else v - 2) <= w <= v ==> InChain(H, f.qcs, w))
      && Family(f.qcs, qc) == f.qcs
      && Core(Parent(f.qcs, qc)) == Link(H, v - 1)
      && Parent(f.qcs, qc).view == (if v < 1 then 0 else v - 1)
      && Core(Grandparent(f.qcs, qc)) == Link(H, v - 2)
  {
    var f := File(s, qc);
    assert qc.hash == H(v) && qc.parent == HashAt(H, v - 1);
    forall w: int | (if v < 3 then -1 else v - 2) <= w <= v ensures InChain(H, f.qcs, w) {
      if w < v {
        assert InChain(H, s.qcs, w);
        assert HashAt(H, w) != H(v);
      }
    }
    assert InChain(H, f.qcs, v - 1);
    if v >= 1 {
      assert InChain(H, f.qcs, v - 2);
    }
  }

  lemma PrepareAndLock(c: Config, H: nat -> Hash, s: Store, v: nat, qc: Cert)
    requires c.Valid() && Naming(H) && Shape(c, H, s, v) && Core(qc) == Link(H, v)
    ensures Core(Newer(s.prepared, qc)) == Link(H, v)
    ensures v >= 1 ==> forall b2 :: Core(b2) == Link(H, v - 1) ==> Core(Newer(s.locked, b2)) == Link(H, v - 1)
  {
    assert s.prepared.view == Link(H, v - 1).view && s.prepared.genesis == Link(H, v - 1).genesis;
    assert s.locked.view == Link(H, v - 2).view && s.locked.genesis == Link(H, v - 2).genesis;
  }

  /** The first two views commit nothing. */
  lemma EarlyAdvance(c: Config, H: nat -> Hash, s: Store, v: nat, qc: Cert, b: Block)
    requires c.Valid() && Naming(H) && Shape(c, H, s, v) && Core(qc) == Link(H, v) && v < 2
    ensures Shape(c, H, UpdateLock(File(s, qc), qc, v + 1, b), v + 1)
  {
    FileShape(c, H, s, v, qc);
    PrepareAndLock(c, H, s, v, qc);
  }

  lemma MarkKeepsChain(H: nat -> Hash, m: CertMap, key: Hash)
    requires key in m
    ensures var t := MarkCommit(m, key);
      && t.Keys == m.Keys
      && (forall k :: k in m ==> Core(t[k]) == Core(m[k]))
      && (forall w: int :: InChain(H, m, w) ==> InChain(H, t, w))
  {
  }

  /** The walk of the first commit passes the genesis sentinel, later ones are
      cut off at once because the block before was removed. */
  lemma WalkLength(H: nat -> Hash, m: CertMap, v: nat)
    requires Naming(H) && v >= 2
    requires m.Keys == Resident(H, v) + {H(v)}
    requires v == 2 ==> InChain(H, m, -1)
    ensures Chain(m, HashAt(H, v - 3)) == if v == 2 then [NoHash] else []
  {
    if v == 2 {
      assert Core(m[NoHash]) == Genesis(Prepare);
      assert m[NoHash].hash == NoHash && m[NoHash].parent == NoHash;
      assert Chain(m - {NoHash}, NoHash) == [];
    }
  }

  /** From view 2 on, each advance commits the block two views back. */
  lemma CommittedWalk(c: Config, H: nat -> Hash, s: Store, v: nat, m: CertMap, b: Block)
    requires c.Valid() && Naming(H) && v >= 2
    requires m.Keys == Resident(H, v) + {H(v)}
    requires forall w: int :: (if v < 3 then -1 else v - 2) <= w <= v ==> InChain(H, m, w)
    requires b.hash == H(v - 2) && b.txn == c.Txn(v - 2)
    requires s.qcs == m && s.handed == Handed(c, v) && NoHash !in s.txnOf
    ensures var w := Walk(s, b);
      && w.qcs.Keys == Resident(H, v + 1)
      && (forall u: int :: v - 1 <= u < v + 1 ==> InChain(H, w.qcs, u))
      && w.handed == Handed(c, v + 1)
      && NoHash !in w.txnOf
  {
    assert InChain(H, m, v - 2) && InChain(H, m, v - 1) && InChain(H, m, v);
    WalkVisits(H, m, v, s.txnOf);
    var chain := Chain(m, m[b.hash].parent);
    var w := Walk(s, b);
    assert w.qcs == m - Elems(chain) - {b.hash};
    assert w.qcs.Keys == Resident(H, v + 1);
    assert w.handed == s.handed + IdsOf(s.txnOf, chain) + [b.txn];
  }

  /** The walk stops at once, except that the first one meets the genesis entry. */
  lemma WalkVisits(H: nat -> Hash, m: CertMap, v: nat, txnOf: map<Hash, nat>)
    requires Naming(H) && v >= 2 && NoHash !in txnOf
    requires m.Keys == Resident(H, v) + {H(v)}
    requires forall w: int :: (if v < 3 then -1 else v - 2) <= w <= v ==> InChain(H, m, w)
    ensures H(v - 2) in m
    ensures var chain := Chain(m, m[H(v - 2)].parent);
      && Elems(chain) == (if v == 2 then {NoHash} else {})
      && IdsOf(txnOf, chain) == (if v == 2 then [0] else [])
  {
    assert InChain(H, m, v - 2);
    assert v == 2 ==> InChain(H, m, -1);
    WalkLength(H, m, v);
    assert m[H(v - 2)].parent == HashAt(H, v - 3);
  }

  lemma LateAdvance(c: Config, H: nat -> Hash, s: Store, v: nat, qc: Cert, b: Block)
    requires c.Valid() && Naming(H) && Shape(c, H, s, v) && Core(qc) == Link(H, v) && v >= 2
    requires b.hash == H(v - 2) && b.txn == c.Txn(v - 2)
    ensures Shape(c, H, UpdateLock(File(s, qc), qc, v + 1, b), v + 1)
  {
    FileShape(c, H, s, v, qc);
    PrepareAndLock(c, H, s, v, qc);
    var f := File(s, qc);
    assert InChain(H, f.qcs, v - 2);
    MarkKeepsChain(H, f.qcs, H(v - 2));
    var b2, b3 := Parent(f.qcs, qc), Grandparent(f.qcs, qc);
    assert b2.view == v - 1 && b3.view == v - 2 && b3.hash == H(v - 2);
    var ready := f.(qcs := MarkCommit(f.qcs, H(v - 2)), prepared := Newer(s.prepared, qc), locked := Newer(s.locked, b2));
    assert UpdateLock(f, qc, v + 1, b) == Walk(ready, b);
    CommittedWalk(c, H, ready, v, ready.qcs, b);
  }

  // ----- Replicas ----------------------------------------------------------------

  /** The manager of view `w`. */
  ghost predicate SlotInv(c: Config, H: nat -> Hash, r: Replica, w: nat)
    requires c.Valid()
  {
    var m := Mgr(r, c.Txn(w));
    && (m.hash == NoHash || m.hash == H(w))
    && (m.generic ==> w <= r.view && m.hash == H(w) && Core(m.high) == Link(H, w - 1))
    && (m.generic && c.Primary(w) == r.self ==> w < r.nextSend)
    && (w < r.view ==> Ready(m) || (c.Txn(w) < r.nextIndex && !m.generic))
    && (c.Txn(w) < r.nextIndex ==> w + 3 <= r.view)
  }

  /** The leader's counters: the next slot to propose was not passed, and an
      unfinished proposal is for the current view. */
  ghost predicate LeadInv(c: Config, H: nat -> Hash, r: Replica)
    requires c.Valid()
  {
    && c.Primary(r.nextSend) == r.self && r.view <= r.nextSend && r.incomplete <= 1
    && (r.incomplete == 1 ==>
        && r.lastSent == r.view && r.lastSent < r.nextSend && c.Primary(r.lastSent) == r.self
        && !Mgr(r, c.Txn(r.lastSent)).generic && Mgr(r, c.Txn(r.lastSent)).hash == H(r.lastSent))
  }

  ghost predicate RepInv(c: Config, H: nat -> Hash, r: Replica)
    requires c.Valid()
  {
    && Shape(c, H, r.store, r.view)
    && (forall w: nat :: SlotInv(c, H, r, w))
    && LeadInv(c, H, r)
    && r.nextIndex % c.batch == 0
    && !r.crashed
  }

  /** Every message names the slot of its view and that slot's only batch; a
      leader's message extends the certificate of the view before. */
  ghost predicate GoodMsg(c: Config, H: nat -> Hash, m: Msg)
    requires c.Valid()
  {
    && m.txn == c.Txn(m.view) && m.hash == H(m.view)
    && (m.Generic? ==> m.from == c.Primary(m.view) && Core(m.high) == Link(H, m.view - 1))
  }

  lemma BlockTwoBack(c: Config, H: nat -> Hash, r: Replica)
    requires c.Valid() && RepInv(c, H, r) && r.view >= 2
    ensures var b := BlockAt(r, WrapSub(c.Txn(r.view), 2 * c.Stride()));
      b.txn == c.Txn(r.view - 2) && b.hash == H(r.view - 2)
  {
    TxnStep(c, r.view - 1);
    TxnStep(c, r.view - 2);
    assert SlotInv(c, H, r, r.view - 2);
  }

  lemma FormedIsLink(H: nat -> Hash, m: Manager, v: nat)
    requires m.hash == H(v) && Core(m.high) == Link(H, v - 1)
    ensures Core(Formed(m, v)) == Link(H, v)
  {
    var before: Cert := Link(H, v - 1);
    assert m.high.genesis == before.genesis && m.high.view == before.view && m.high.hash == before.hash;
    assert m.high.parentView == before.parentView && m.high.parent == before.parent;
  }

  lemma AdvanceShape(c: Config, H: nat -> Hash, r: Replica)
    requires c.Valid() && Naming(H) && RepInv(c, H, r) && Ready(Mgr(r, c.Txn(r.view)))
    ensures Shape(c, H, Advance(c, r, c.Txn(r.view)).store, r.view + 1)
  {
    var v, m := r.view, Mgr(r, c.Txn(r.view));
    assert SlotInv(c, H, r, v);
    FormedIsLink(H, m, v);
    var qc, b := Formed(m, v), BlockAt(r, WrapSub(c.Txn(v), 2 * c.Stride()));
    if v < 2 {
      EarlyAdvance(c, H, r.store, v, qc, b);
    } else {
      BlockTwoBack(c, H, r);
      LateAdvance(c, H, r.store, v, qc, b);
    }
  }

  /** Advancing on the complete manager of the current view. */
  lemma AdvanceKeeps(c: Config, H: nat -> Hash, r: Replica)
    requires c.Valid() && Naming(H) && RepInv(c, H, r) && Ready(Mgr(r, c.Txn(r.view)))
    ensures RepInv(c, H, Advance(c, r, c.Txn(r.view)))
  {
    AdvanceShape(c, H, r);
    AdvanceFrame(c, r, c.Txn(r.view), true);
    assert SlotInv(c, H, r, r.view);
    SlotsAfterAdvance(c, H, r, Advance(c, r, c.Txn(r.view)));
  }

  lemma SlotsAfterAdvance(c: Config, H: nat -> Hash, r: Replica, r': Replica)
    requires c.Valid() && RepInv(c, H, r) && Ready(Mgr(r, c.Txn(r.view)))
    requires r'.mgrs == r.mgrs && r'.self == r.self && r'.nextIndex == r.nextIndex && r'.view == r.view + 1
    requires r'.nextSend == r.nextSend && r'.lastSent == r.lastSent && r'.incomplete == r.incomplete
    ensures (forall w: nat :: SlotInv(c, H, r', w)) && LeadInv(c, H, r')
  {
    assert SlotInv(c, H, r, r.view);
    forall w: nat ensures SlotInv(c, H, r', w) {
      assert SlotInv(c, H, r, w);
      assert Mgr(r', c.Txn(w)) == Mgr(r, c.Txn(w));
    }
  }

  lemma AdvanceIfKeeps(c: Config, H: nat -> Hash, r: Replica, w: nat, ready: bool)
    requires c.Valid() && Naming(H) && RepInv(c, H, r)
    requires ready ==> w == r.view && Ready(Mgr(r, c.Txn(w)))
    ensures RepInv(c, H, AdvanceIf(c, r, c.Txn(w), ready))
  {
    if ready {
      AdvanceKeeps(c, H, r);
    }
  }

  lemma TxnInjective(c: Config, v: nat, w: nat)
    requires c.Valid() && c.Txn(v) == c.Txn(w)
    ensures v == w
  {
    if v < w {
      TxnMonotone(c, v, w);
    } else if w < v {
      TxnMonotone(c, w, v);
    }
  }

  /** Replacing one manager, and bookkeeping outside the chain. */
  lemma PutKeeps(c: Config, H: nat -> Hash, r: Replica, r': Replica, w: nat, m: Manager)
    requires c.Valid() && RepInv(c, H, r)
    requires r'.mgrs == r.mgrs[c.Txn(w) := m]
    requires r'.self == r.self && r'.view == r.view && r'.nextIndex == r.nextIndex && r'.crashed == r.crashed
    requires r'.nextSend >= r.nextSend
    requires Shape(c, H, r'.store, r'.view)
    requires SlotInv(c, H, r', w) && LeadInv(c, H, r')
    ensures RepInv(c, H, r')
  {
    forall u: nat ensures SlotInv(c, H, r', u) {
      if u != w {
        assert SlotInv(c, H, r, u);
        if c.Txn(u) == c.Txn(w) {
          TxnInjective(c, u, w);
        }
        assert Mgr(r', c.Txn(u)) == Mgr(r, c.Txn(u));
      }
    }
  }

  lemma LeadSame(c: Config, H: nat -> Hash, r: Replica, r': Replica, w: nat, m: Manager)
    requires c.Valid() && LeadInv(c, H, r)
    requires r'.mgrs == r.mgrs[c.Txn(w) := m]
    requires r'.self == r.self && r'.view == r.view && r'.nextSend == r.nextSend
    requires r'.lastSent == r.lastSent && r'.incomplete == r.incomplete
    requires r.incomplete == 1 && w == r.lastSent ==> !m.generic && m.hash == H(w)
    ensures LeadInv(c, H, r')
  {
    if r.incomplete == 1 && w != r.lastSent && c.Txn(w) == c.Txn(r.lastSent) {
      TxnInjective(c, w, r.lastSent);
    }
  }

  lemma SyncKeeps(c: Config, H: nat -> Hash, r: Replica, msg: Msg)
    requires c.Valid() && Naming(H) && RepInv(c, H, r) && msg.Sync? && GoodMsg(c, H, msg)
    ensures RepInv(c, H, OnSync(c, r, msg))
  {
    var w := msg.view;
    assert SlotInv(c, H, r, w);
    if Counted(r, msg) {
      var m, v := Mgr(r, msg.txn), VoteIn(msg);
      var m' := CountVote(m, r.self, c.Nf(), v);
      CountFlags(m, r.self, c.Nf(), v);
      var filed := if |VotersOf(m, v.hash)| == 0 && |VotersOf(m', v.hash)| == 1
                   then r.store.(txnOf := r.store.txnOf[v.hash := msg.txn]) else r.store;
      var r1 := PutMgr(r.(store := filed), msg.txn, m');
      LeadSame(c, H, r, r1, w, m');
      PutKeeps(c, H, r, r1, w, m');
      AdvanceIfKeeps(c, H, r1, w, Completes(m, r.self, c.Nf(), v) && m'.proposal && m'.generic);
    }
  }

  lemma ProposalKeeps(c: Config, H: nat -> Hash, r: Replica, msg: Msg)
    requires c.Valid() && Naming(H) && RepInv(c, H, r) && msg.Proposal? && GoodMsg(c, H, msg)
    ensures RepInv(c, H, OnProposal(c, r, msg))
  {
    var m := Mgr(r, msg.txn);
    if !(msg.txn - 2 <= r.nextIndex || m.proposal) {
      var m' := m.(hash := msg.hash, proposal := true);
      var txnOf := if msg.hash in r.store.txnOf then r.store.txnOf else r.store.txnOf[msg.hash := msg.txn];
      LearnKeeps(c, H, r, msg, txnOf);
      var r1 := PutMgr(r.(store := r.store.(txnOf := txnOf)), msg.txn, m');
      AdvanceIfKeeps(c, H, r1, msg.view, m'.newViewed && m'.generic);
      assert OnProposal(c, r, msg) == AdvanceIf(c, r1, msg.txn, m'.newViewed && m'.generic);
    }
  }

  /** The manager learns its batch from the proposal. */
  lemma LearnKeeps(c: Config, H: nat -> Hash, r: Replica, msg: Msg, txnOf: map<Hash, nat>)
    requires c.Valid() && Naming(H) && RepInv(c, H, r) && msg.Proposal? && GoodMsg(c, H, msg)
    requires msg.txn - 2 > r.nextIndex && !Mgr(r, msg.txn).proposal
    requires txnOf == if msg.hash in r.store.txnOf then r.store.txnOf else r.store.txnOf[msg.hash := msg.txn]
    ensures var m := Mgr(r, msg.txn);
      && RepInv(c, H, PutMgr(r.(store := r.store.(txnOf := txnOf)), msg.txn, m.(hash := msg.hash, proposal := true)))
      && (m.generic ==> m.hash == msg.hash && msg.view == r.view)
  {
    var w := msg.view;
    assert SlotInv(c, H, r, w);
    var m' := Mgr(r, msg.txn).(hash := msg.hash, proposal := true);
    var r1 := PutMgr(r.(store := r.store.(txnOf := txnOf)), msg.txn, m');
    LeadSame(c, H, r, r1, w, m');
    PutKeeps(c, H, r, r1, w, m');
  }

  /** Filing the certificate of the view before again changes nothing. */
  lemma RefileShape(c: Config, H: nat -> Hash, s: Store, v: nat, high: Cert)
    requires c.Valid() && Naming(H) && Shape(c, H, s, v) && Core(high) == Link(H, v - 1)
    ensures Shape(c, H, File(s, high), v) && high.view == s.prepared.view
  {
    assert InChain(H, s.qcs, v - 1);
    assert high.hash == HashAt(H, v - 1);
    assert high.view == Link(H, v - 1).view == s.prepared.view;
    forall w: int | (if v < 3 then -1 else v - 2) <= w < v ensures InChain(H, File(s, high).qcs, w) {
      assert InChain(H, s.qcs, w);
      if HashAt(H, w) == high.hash {
        assert w == v - 1;
      }
    }
  }

  lemma GenericKeeps(c: Config, H: nat -> Hash, r: Replica, g: Msg)
    requires c.Valid() && Naming(H) && RepInv(c, H, r) && g.Generic? && GoodMsg(c, H, g) && g.from != r.self
    ensures RepInv(c, H, OnGeneric(c, r, g).r)
    ensures forall m :: m in OnGeneric(c, r, g).out ==> GoodMsg(c, H, m)
  {
    var w := g.view;
    assert SlotInv(c, H, r, w);
    if Acceptable(c, r, g) {
      assert w == r.view;
      RefileShape(c, H, r.store, r.view, g.high);
      var m1 := Mgr(r, g.txn).(hash := g.hash, high := g.high, generic := true);
      var m2 := VoteFor(c, r.self, r.view, m1);
      CastFlags(m1, r.self, c.Nf(), r.self == c.Primary(r.view + 1));
      assert Extend(c, r, g) == File(r.store, g.high);
      var r1 := PutMgr(r.(store := File(r.store, g.high)), g.txn, m2);
      LeadSame(c, H, r, r1, w, m2);
      PutKeeps(c, H, r, r1, w, m2);
      AdvanceIfKeeps(c, H, r1, w, m2.newViewed && m2.proposal);
    }
  }

  lemma ProposeKeeps(c: Config, H: nat -> Hash, r: Replica, hash: Hash)
    requires c.Valid() && Naming(H) && RepInv(c, H, r) && CanPropose(r) && hash == H(r.nextSend)
    ensures RepInv(c, H, Propose(c, r, hash).r)
    ensures forall m :: m in Propose(c, r, hash).out ==> GoodMsg(c, H, m)
  {
    var v := r.view;
    assert SlotInv(c, H, r, v);
    PrimaryPeriod(c, v);
    var m := Mgr(r, c.Txn(v)).(hash := hash, proposal := true);
    PutKeeps(c, H, r, Propose(c, r, hash).r, v, m);
  }

  lemma LeadKeeps(c: Config, H: nat -> Hash, r: Replica)
    requires c.Valid() && Naming(H) && RepInv(c, H, r) && CanLead(c, r)
    ensures RepInv(c, H, Lead(c, r).r)
    ensures forall m :: m in Lead(c, r).out ==> GoodMsg(c, H, m)
  {
    var v, txn := r.view, c.Txn(r.lastSent);
    assert SlotInv(c, H, r, v);
    var r1 := r.(incomplete := r.incomplete - 1);
    if txn > r.nextIndex {
      var m1 := Mgr(r, txn).(high := r.store.prepared, generic := true);
      var m2 := VoteFor(c, r.self, r.view, m1);
      CastFlags(m1, r.self, c.Nf(), r.self == c.Primary(r.view + 1));
      PutKeeps(c, H, r, PutMgr(r1, txn, m2), v, m2);
    } else {
      SameManagersKeep(c, H, r, r1);
    }
  }

  lemma SameManagersKeep(c: Config, H: nat -> Hash, r: Replica, r': Replica)
    requires c.Valid() && RepInv(c, H, r)
    requires r' == r.(incomplete := r'.incomplete) && r'.incomplete == 0
    ensures RepInv(c, H, r')
  {
    forall u: nat ensures SlotInv(c, H, r', u) {
      assert SlotInv(c, H, r, u);
      assert Mgr(r', c.Txn(u)) == Mgr(r, c.Txn(u));
    }
  }

  lemma {:induction false} HandedSlots(c: Config, v: nat, w: nat)
    requires c.Valid() && c.Txn(w) in Handed(c, v)
    ensures w + 3 <= v
    decreases v
  {
    if v == 3 {
      TxnPositive(c, w);
      TxnInjective(c, w, 0);
    } else if v > 3 {
      if c.Txn(w) in Handed(c, v - 1) {
        HandedSlots(c, v - 1, w);
      } else {
        TxnInjective(c, w, v - 3);
      }
    }
  }

  lemma TxnPositive(c: Config, w: nat)
    requires c.Valid()
    ensures c.Txn(w) >= 4
  {
    assert c.Slot(w) * c.batch >= 0;
  }

  /** Executing one more slot passes a slot of this instance only if handed over. */
  lemma ExecuteKeeps(c: Config, H: nat -> Hash, r: Replica)
    requires c.Valid() && RepInv(c, H, r) && CanExecute(c, r)
    ensures RepInv(c, H, Execute(c, r))
  {
    var r' := Execute(c, r);
    var k := r.nextIndex / c.batch;
    assert r.nextIndex == k * c.batch;
    assert r'.nextIndex == (k + 1) * c.batch;
    ModUnique(r'.nextIndex, c.batch, k + 1, 0);
    forall u: nat ensures SlotInv(c, H, r', u) {
      assert SlotInv(c, H, r, u);
      assert Mgr(r', c.Txn(u)) == Mgr(r, c.Txn(u));
      if r.nextIndex <= c.Txn(u) < r'.nextIndex {
        var slot := c.Slot(u);
        MulGap(slot, k, c.batch);
        MulGap(k, slot, c.batch);
        assert slot == k;
        ModUnique(slot, c.instances, u, c.instance);
        HandedSlots(c, r.view, u);
      }
    }
  }

  lemma ReleaseKeeps(c: Config, H: nat -> Hash, r: Replica, txn: nat)
    requires c.Valid() && RepInv(c, H, r) && CanRelease(r, txn)
    ensures RepInv(c, H, Release(r, txn))
  {
    var r' := Release(r, txn);
    assert SlotInv(c, H, r, r.lastSent);
    forall u: nat ensures SlotInv(c, H, r', u) {
      assert SlotInv(c, H, r, u);
      if c.Txn(u) != txn {
        assert Mgr(r', c.Txn(u)) == Mgr(r, c.Txn(u));
      }
    }
  }

  // ----- Runs --------------------------------------------------------------------

  ghost predicate SysInv(c: Config, H: nat -> Hash, s: Sys)
    requires c.Valid()
  {
    && |s.reps| == c.nodes
    && (forall i :: 0 <= i < c.nodes ==> s.reps[i].self == i && RepInv(c, H, s.reps[i]))
    && (forall m :: m in s.sent ==> GoodMsg(c, H, m))
  }

  /** No view fails, and whoever proposes for a view proposes its batch. */
  ghost predicate Orderly(c: Config, H: nat -> Hash, s: Sys, step: Step) {
    && !step.DoFail?
    && (step.DoPropose? && step.i < |s.reps| ==> step.hash == H(s.reps[step.i].nextSend))
  }

  lemma ActKeeps(c: Config, H: nat -> Hash, s: Sys, step: Step)
    requires c.Valid() && Naming(H) && SysInv(c, H, s) && Orderly(c, H, s, step) && Enabled(c, {}, s, step)
    ensures var e := Act(c, s.reps[step.i], step);
      RepInv(c, H, e.r) && forall m :: m in e.out ==> GoodMsg(c, H, m)
  {
    var r := s.reps[step.i];
    match step
    case Deliver(_, msg) =>
      if msg.Generic? {
        GenericKeeps(c, H, r, msg);
      } else if msg.Sync? {
        SyncKeeps(c, H, r, msg);
      } else {
        ProposalKeeps(c, H, r, msg);
      }
    case DoPropose(_, hash) => ProposeKeeps(c, H, r, hash);
    case DoLead(_) => LeadKeeps(c, H, r);
    case DoExecute(_) => ExecuteKeeps(c, H, r);
    case DoRelease(_, txn) => ReleaseKeeps(c, H, r, txn);
  }

  lemma NextKeeps(c: Config, H: nat -> Hash, s: Sys, step: Step)
    requires c.Valid() && Naming(H) && SysInv(c, H, s) && Orderly(c, H, s, step)
    ensures SysInv(c, H, Next(c, {}, s, step))
  {
    if Enabled(c, {}, s, step) {
      SelfKept(c, s.reps[step.i], step);
      ActKeeps(c, H, s, step);
    }
  }

  ghost predicate OrderlyRun(c: Config, H: nat -> Hash, steps: seq<Step>)
    requires c.Valid()
  {
    forall k :: 0 <= k < |steps| ==> Orderly(c, H, Run(c, {}, steps[..k]), steps[k])
  }

  lemma BootKeeps(c: Config, H: nat -> Hash, i: nat)
    requires c.Valid() && Naming(H) && i < c.nodes
    ensures RepInv(c, H, Boot(c, i))
  {
    FirstLed(c, i);
    var r := Boot(c, i);
    forall w: nat ensures SlotInv(c, H, r, w) {
    }
    assert InChain(H, r.store.qcs, -1);
  }

  lemma {:induction false} RunKeeps(c: Config, H: nat -> Hash, steps: seq<Step>)
    requires c.Valid() && Naming(H) && OrderlyRun(c, H, steps)
    ensures SysInv(c, H, Run(c, {}, steps))
  {
    if steps == [] {
      forall i | 0 <= i < c.nodes ensures RepInv(c, H, Init(c).reps[i]) {
        BootKeeps(c, H, i);
      }
    } else {
      var k := |steps| - 1;
      assert forall j :: 0 <= j < k ==> steps[..k][..j] == steps[..j];
      RunKeeps(c, H, steps[..k]);
      NextKeeps(c, H, Run(c, {}, steps[..k]), steps[k]);
    }
  }

  lemma {:induction false} HandedContents(c: Config, v: nat)
    requires c.Valid() && v >= 3
    ensures |Handed(c, v)| == v - 1 && Handed(c, v)[0] == 0
    ensures forall w: nat :: w + 3 <= v ==> Handed(c, v)[w + 1] == c.Txn(w)
  {
    if v > 3 {
      HandedContents(c, v - 1);
    }
  }

  /** In view v >= 3: prepared on the certificate of v-1, locked on that of v-2, nothing else
      resident, and exactly the slots of views 0..v-3 handed over, in order and once each,
      after the genesis sentinel. */
  ghost predicate Chained(c: Config, H: nat -> Hash, r: Replica)
    requires c.Valid()
  {
    var v := r.view;
    v >= 3 ==>
      && Core(r.store.prepared) == Link(H, v - 1)
      && Core(r.store.locked) == Link(H, v - 2)
      && r.store.qcs.Keys == {H(v - 1), H(v - 2)}
      && |r.store.handed| == v - 1 && r.store.handed[0] == 0
      && (forall w: nat :: w + 3 <= v ==> r.store.handed[w + 1] == c.Txn(w))
  }

  lemma ChainOf(c: Config, H: nat -> Hash, r: Replica)
    requires c.Valid() && RepInv(c, H, r)
    ensures Chained(c, H, r)
  {
    if r.view >= 3 {
      HandedContents(c, r.view);
    }
  }

  /** The pipelined chain, in every orderly run of correct replicas. */
  lemma PipelinedChain(c: Config, H: nat -> Hash, steps: seq<Step>, i: nat)
    requires c.Valid() && Naming(H) && OrderlyRun(c, H, steps) && i < c.nodes
    ensures var s := Run(c, {}, steps); i < |s.reps| && Chained(c, H, s.reps[i])
  {
    RunKeeps(c, H, steps);
    var r := Run(c, {}, steps).reps[i];
    ChainOf(c, H, r);
  }

  lemma {:induction false} HandedPrefix(c: Config, v: nat, w: nat)
    requires c.Valid() && v <= w
    ensures Handed(c, v) <= Handed(c, w)
    decreases w
  {
    if v < w {
      HandedPrefix(c, v, w - 1);
    }
  }

  /** All replicas hand the same slots over in the same order: of two replicas
      one has handed over a prefix of the other's sequence. */
  lemma SameOrderEverywhere(c: Config, H: nat -> Hash, steps: seq<Step>, i: nat, j: nat)
    requires c.Valid() && Naming(H) && OrderlyRun(c, H, steps) && i < c.nodes && j < c.nodes
    ensures var s := Run(c, {}, steps);
      && i < |s.reps| && j < |s.reps|
      && (s.reps[i].view <= s.reps[j].view ==> s.reps[i].store.handed <= s.reps[j].store.handed)
  {
    RunKeeps(c, H, steps);
    var s := Run(c, {}, steps);
    if s.reps[i].view <= s.reps[j].view {
      HandedPrefix(c, s.reps[i].view, s.reps[j].view);
    }
  }
}
