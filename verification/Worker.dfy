/** The worker thread's handlers as methods on mutable state, each proved to
    carry out the transition of the same name in `Replica`. */
module Worker {
  import opened Cluster
  import opened Certificate
  import opened VoteManager
  import opened CertStore
  import opened FaultVoters
  import opened Replica
  import opened Sequences

  class Worker {
    const cfg: Config
    const self: nat
    const certs: CertTable
    const failed: FaultVoters
    var view: nat
    var mgrs: map<nat, Manager>
    var lastNewViewed: nat
    var nextIndex: nat
    var nextSend: nat
    var lastSent: nat
    var incomplete: nat
    var advanced: seq<nat>
    var crashed: bool
    /** Messages handed to the output queue. */
    var out: set<Msg>

    ghost predicate Valid()
      reads this
    {
      cfg.Valid() && self < cfg.nodes
    }

    ghost function Value(): Replica
      reads this, certs, failed
    {
      Replica(self, view, certs.Value(), mgrs, lastNewViewed, nextIndex, nextSend, lastSent, incomplete,
              advanced, failed.voters, crashed)
    }

    constructor (c: Config, id: nat)
      requires c.Valid() && id < c.nodes
      ensures Valid() && cfg == c && Value() == Boot(c, id) && out == {}
      ensures fresh(certs) && fresh(failed)
    {
      cfg, self := c, id;
      certs := new CertTable();
      failed := new FaultVoters();
      view, mgrs, lastNewViewed, nextIndex := 0, map[], 0, 0;
      nextSend, lastSent, incomplete := (c.nodes + id - c.instance) % c.nodes, 0, 0;
      advanced, crashed, out := [], false, {};
    }

    /** `get_transaction_manager`. */
    method GetManager(txn: nat) returns (tm: TxnManager)
      ensures fresh(tm) && tm.Value() == Mgr(Value(), txn)
    {
      if txn in mgrs {
        tm := new TxnManager.Load(mgrs[txn]);
      } else {
        tm := new TxnManager();
      }
    }

    /** Write a manager back. */
    method PutManager(txn: nat, tm: TxnManager)
      modifies this`mgrs
      ensures Value() == PutMgr(old(Value()), txn, tm.Value())
    {
      var m := tm.Save();
      mgrs := mgrs[txn := m];
    }

    method FileCert(qc: Cert)
      modifies certs
      ensures Value() == old(Value()).(store := File(old(Value()).store, qc))
    {
      certs.qcs := certs.qcs[qc.hash := qc];
    }

    method NoteTxn(hash: Hash, txn: nat)
      modifies certs
      ensures Value() == var r := old(Value()); r.(store := r.store.(txnOf := r.store.txnOf[hash := txn]))
    {
      certs.txnOf := certs.txnOf[hash := txn];
    }

    method UpdateLockQC(qc: Cert, v: nat, txn: nat)
      modifies certs
      ensures Value() == var r := old(Value()); r.(store := UpdateLock(r.store, qc, v, BlockAt(r, txn)))
    {
      var tm := GetManager(txn);
      certs.UpdateLockFrom(qc, v, Block(txn, tm.hash, tm.voters.Keys));
    }

    method BeginView(txn: nat)
      modifies this`view, this`lastNewViewed, this`advanced
      ensures Value() == var r := old(Value());
        r.(view := r.view + 1, newViewed := txn % U32, advanced := r.advanced + [txn])
    {
      view := view + 1;
      lastNewViewed := txn % U32;
      advanced := advanced + [txn];
    }

    /** `advance_view`. */
    method AdvanceView(txn: nat)
      requires Valid()
      modifies this`view, this`lastNewViewed, this`advanced, this`crashed, certs
      ensures Value() == Advance(cfg, old(Value()), txn)
    {
      var tm := GetManager(txn);
      if tm.hash == NoHash {
        crashed := true;
        return;
      }
      var qc := QC(Prepare, false, if tm.high.genesis then 0 else view, tm.high.view, tm.hash, tm.high.hash,
                   false, tm.high.parentView, tm.high.parent, tm.shares);
      assert qc == Formed(Mgr(Value(), txn), view);
      var v := view;
      FileCert(qc);
      UpdateLockQC(qc, v + 1, WrapSub(txn, 2 * cfg.Stride()));
      BeginView(txn);
    }

    /** `process_hotstuff_new_view`. */
    method ProcessNewView(msg: Msg)
      requires Valid() && msg.Sync?
      modifies this, certs
      ensures Valid() && Value() == OnSync(cfg, old(Value()), msg) && out == old(out)
    {
      if msg.view < view || (msg.view == view && msg.txn <= lastNewViewed) {
        return;
      }
      var tm := GetManager(msg.txn);
      if tm.hash != NoHash && msg.hash != tm.hash {
        return;
      }
      ghost var r, m := Value(), tm.Value();
      assert Counted(r, msg);
      var done := CountIn(tm, msg);
      PutManager(msg.txn, tm);
      if done {
        if tm.proposal && tm.generic {
          AdvanceView(msg.txn);
        }
      }
    }

    /** Count the vote and, for the first vote of a batch, note its slot. */
    method CountIn(tm: TxnManager, msg: Msg) returns (done: bool)
      requires Valid() && msg.Sync?
      modifies tm, certs
      ensures var m, v := old(tm.Value()), VoteIn(msg);
        && tm.Value() == CountVote(m, self, cfg.Nf(), v) && done == Completes(m, self, cfg.Nf(), v)
        && Value() == (var r := old(Value());
             if |VotersOf(m, v.hash)| == 0 && |VotersOf(tm.Value(), v.hash)| == 1
             then r.(store := r.store.(txnOf := r.store.txnOf[v.hash := msg.txn])) else r)
    {
      var had := if msg.hash in tm.voters then |tm.voters[msg.hash]| else 0;
      done := tm.NewViewed(self, cfg.Nf(), Vote(msg.from, msg.hash, msg.sig));
      var have := if msg.hash in tm.voters then |tm.voters[msg.hash]| else 0;
      if had == 0 && have == 1 {
        NoteTxn(msg.hash, msg.txn);
      }
    }

    /** `process_hotstuff_proposal`. */
    method ProcessProposal(msg: Msg)
      requires Valid() && msg.Proposal?
      modifies this, certs
      ensures Valid() && Value() == OnProposal(cfg, old(Value()), msg) && out == old(out)
    {
      if msg.txn - 2 <= nextIndex {
        return;
      }
      var tm := GetManager(msg.txn);
      if tm.proposal {
        return;
      } else if tm.generic {
        if msg.hash != tm.hash {
          crashed := true;
          return;
        }
      }
      tm.hash := msg.hash;
      tm.proposal := true;
      if msg.hash !in certs.txnOf {
        NoteTxn(msg.hash, msg.txn);
      }
      PutManager(msg.txn, tm);
      if tm.newViewed && tm.generic {
        AdvanceView(msg.txn);
      }
    }

    /** `send_hotstuff_newview`. */
    method SendVote(tm: TxnManager, txn: nat)
      requires Valid()
      modifies this`out, tm
      ensures tm.Value() == VoteFor(cfg, self, view, old(tm.Value()))
      ensures out == old(out) + Ballots(cfg, self, view, txn, old(tm.Value()))
    {
      var leader := cfg.Primary(view + 1);
      var share := Share(self, tm.hash, tm.high.hash, tm.high.view);
      var hash := tm.hash;
      var sent := tm.SendNewView(self, cfg.Nf(), self == leader);
      if sent {
        out := out + set d | d in Ids(cfg.nodes) && d != self ::
                 Sync(self, d, txn, view, hash, if d == leader then Some(share) else None);
      }
    }

    /** The checks before a leader's message is taken up. */
    method TakesUp(g: Msg) returns (ok: bool)
      requires Valid() && g.Generic?
      ensures ok == Acceptable(cfg, Value(), g)
    {
      if view < g.view || g.txn <= nextIndex {
        return false;
      }
      var tm := GetManager(g.txn);
      if tm.generic {
        return false;
      }
      if cfg.Primary(view) != g.from {
        return false;
      }
      return SafeNode(g.high, certs.locked);
    }

    /** `process_hotstuff_generic`. */
    method ProcessGeneric(g: Msg)
      requires Valid() && g.Generic?
      modifies this, certs
      ensures Valid() && Value() == OnGeneric(cfg, old(Value()), g).r
      ensures out == old(out) + OnGeneric(cfg, old(Value()), g).out
    {
      var ok := TakesUp(g);
      if !ok {
        return;
      }
      var tm := GetManager(g.txn);
      if tm.hash != NoHash && tm.hash != g.hash {
        crashed := true;
        return;
      }
      tm.hash := g.hash;
      tm.high := g.high;
      tm.generic := true;
      TakeUpWith(tm, g);
    }

    /** Vote on a proposal that passed the checks. */
    method TakeUpWith(tm: TxnManager, g: Msg)
      requires Valid() && g.Generic?
      modifies this, certs, tm
      ensures Valid() && Value() == TakeUp(cfg, old(Value()), g, old(tm.Value())).r
      ensures out == old(out) + TakeUp(cfg, old(Value()), g, old(tm.Value())).out
    {
      VoteOn(tm, g);
      if tm.newViewed && tm.proposal {
        AdvanceView(g.txn);
      }
    }

    /** Extend the certificates, vote, and write the manager back. */
    method VoteOn(tm: TxnManager, g: Msg)
      requires Valid() && g.Generic?
      modifies this`out, this`mgrs, certs, tm
      ensures tm.Value() == VoteFor(cfg, self, view, old(tm.Value()))
      ensures Value() == PutMgr(old(Value()).(store := Extend(cfg, old(Value()), g)), g.txn, tm.Value())
      ensures out == old(out) + Ballots(cfg, self, view, g.txn, old(tm.Value()))
    {
      ExtendWith(g);
      ghost var extended := Value();
      SendVote(tm, g.txn);
      assert Value() == extended;
      PutManager(g.txn, tm);
    }

    /** Filing the certificate a proposal extends. */
    method ExtendWith(g: Msg)
      requires Valid() && g.Generic?
      modifies certs
      ensures Value() == old(Value()).(store := Extend(cfg, old(Value()), g))
    {
      var newer := g.high.view > certs.prepared.view;
      FileCert(g.high);
      if newer {
        UpdateLockQC(g.high, g.view, WrapSub(WrapSub(g.txn, cfg.Stride()), 2 * cfg.Stride()));
      }
    }

    method NextProposal()
      requires Valid()
      modifies this`lastSent, this`nextSend, this`incomplete
      ensures Value() == var r := old(Value());
        r.(lastSent := r.nextSend, nextSend := r.nextSend + cfg.nodes, incomplete := r.incomplete + 1)
    {
      lastSent := nextSend;
      nextSend := nextSend + cfg.nodes;
      incomplete := incomplete + 1;
    }

    /** `create_and_send_hotstuff_prepare` on a batch bound to the next slot. */
    method CreateAndSend(hash: Hash)
      requires Valid()
      modifies this, certs
      ensures Valid() && Value() == Propose(cfg, old(Value()), hash).r
      ensures out == old(out) + Propose(cfg, old(Value()), hash).out
    {
      NextProposal();
      var txn := cfg.Txn(lastSent);
      var tm := GetManager(txn);
      tm.hash := hash;
      tm.proposal := true;
      NoteTxn(hash, txn);
      PutManager(txn, tm);
      out := out + {Proposal(self, txn, lastSent, hash)};
    }

    /** Send the leader's message and the own vote. */
    method Announce(tm: TxnManager, txn: nat)
      requires Valid()
      modifies this`out, this`mgrs, tm
      ensures var m := old(tm.Value()).(high := certs.prepared, generic := true);
        && Value() == PutMgr(old(Value()), txn, VoteFor(cfg, self, view, m))
        && out == old(out) + ({Generic(self, txn, view, m.hash, certs.prepared)} + Ballots(cfg, self, view, txn, m))
    {
      ghost var m := tm.Value();
      out := out + {Generic(self, txn, view, tm.hash, certs.prepared)};
      tm.high := certs.prepared;
      tm.generic := true;
      assert tm.Value() == m.(high := certs.prepared, generic := true);
      SendVote(tm, txn);
      PutManager(txn, tm);
    }

    /** `process_hotstuff_generic_p`. */
    method ProcessGenericP()
      requires Valid() && incomplete != 0
      modifies this
      ensures Valid() && Value() == Lead(cfg, old(Value())).r
      ensures out == old(out) + Lead(cfg, old(Value())).out
    {
      var txn := cfg.Txn(lastSent);
      incomplete := incomplete - 1;
      if txn <= nextIndex {
        return;
      }
      var tm := GetManager(txn);
      if tm.hash == NoHash {
        crashed := true;
        return;
      }
      Announce(tm, txn);
    }

    /** `process_failed_new_view`. */
    method ProcessFailed(v: nat, voter: nat)
      requires Valid()
      modifies this, certs, failed
      ensures Valid() && Value() == OnFailed(cfg, old(Value()), v, voter) && out == old(out)
    {
      if v < view {
        return;
      }
      var reached := failed.AddVoter(cfg.Nf(), v, voter);
      if reached {
        certs.handed := certs.handed + [cfg.Txn(v)];
        view := v + 1;
      }
    }
  }
}
