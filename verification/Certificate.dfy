/** Quorum certificates and the rules that compare them. */
module Certificate {

  datatype Kind = Prepare | PreCommit | Commit

  /** The hash of a batch; distinct batches have distinct hashes. `NoHash` is the
      empty string a hash field holds before it is set. */
  datatype Hash = NoHash | Hash(id: nat)

  /** A certificate, over the representations `H` of hashes and `S` of signature
      shares; `shares` maps a signer to its share. */
  datatype QC<H, S> = QC(
    kind: Kind, genesis: bool, view: nat, parentView: nat, hash: H, parent: H,
    grandEmpty: bool, grandView: nat, grandHash: H, shares: map<nat, S>)

  /** What a default-constructed certificate holds. */
  function Blank<S>(): QC<Hash, S> {
    QC(Prepare, false, 0, 0, NoHash, NoHash, false, 0, NoHash, map[])
  }

  function Genesis<S>(kind: Kind): QC<Hash, S> {
    Blank<S>().(kind := kind, genesis := true)
  }

  /** May a proposal that extends `high` be voted for under the lock `locked`? */
  predicate SafeNode<S>(high: QC<Hash, S>, locked: QC<Hash, S>) {
    if high.view == locked.view && high.hash == locked.hash then true
    else high.view > locked.view || (high.view == 0 && locked.genesis)
  }

  /** How the prepared and the locked certificate are replaced. */
  function Newer<S>(current: QC<Hash, S>, qc: QC<Hash, S>): QC<Hash, S> {
    if qc.view > current.view || current.genesis then qc else current
  }

  /** Replacement never lowers the view exactly as long as the genesis mark is
      only carried by a certificate of view 0. */
  lemma NewerIsMonotone<S>(current: QC<Hash, S>)
    ensures (forall qc: QC<Hash, S> :: Newer(current, qc).view >= current.view)
            <==> !(current.genesis && current.view > 0)
  {
    if current.genesis && current.view > 0 {
      assert Newer(current, Blank<S>()).view < current.view;
    }
  }

  /** A certificate accepted under a lock is never older than the lock. */
  lemma SafeNodeIsAtOrAboveLock<S>(high: QC<Hash, S>, locked: QC<Hash, S>)
    requires locked.genesis ==> locked.view == 0
    requires SafeNode(high, locked)
    ensures high.view >= locked.view
    ensures high.view == locked.view ==> high.hash == locked.hash || locked.genesis
  {
  }
}
