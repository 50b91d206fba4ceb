/** The certificates an instance keeps by batch hash, the prepared and locked
    certificates, and the walk that hands committed blocks to execution. */
module CertStore {
  import opened Certificate
  import opened VoteManager
  import opened Sequences

  /** An entry is filed under its own hash, or it is a blank certificate that a
      lookup of a missing key left behind. */
  predicate FiledRight(key: Hash, qc: Cert) {
    qc.hash == key || (qc.hash == NoHash && qc.parent == NoHash)
  }

  type CertMap = m: map<Hash, Cert> | forall k :: k in m ==> FiledRight(k, m[k]) witness map[]

  /** `handed` lists the manager identifiers of the blocks given to execution. */
  datatype Store = Store(qcs: CertMap, txnOf: map<Hash, nat>, prepared: Cert, locked: Cert, handed: seq<nat>)

  /** A block about to be committed: its manager's identifier, its hash, and
      every hash that was voted for in its slot. */
  datatype Block = Block(txn: nat, hash: Hash, rivals: set<Hash>)

  function Start(): Store {
    Store(map[NoHash := Genesis(PreCommit)], map[], Genesis(Prepare), Genesis(PreCommit), [])
  }

  /** The map after the subscript `m[key]`, which creates a missing entry. */
  function Touch(m: CertMap, key: Hash): (r: CertMap)
    ensures key in r
  {
    if key in m then m else m[key := Blank()]
  }

  function IdOf(txnOf: map<Hash, nat>, h: Hash): nat {
    if h in txnOf then txnOf[h] else 0
  }

  lemma RemoveShrinks(m: CertMap, key: Hash)
    requires key in m
    ensures |m - {key}| < |m|
  {
    assert m.Keys == (m - {key}).Keys + {key};
  }

  /** The hashes the walk visits from `key` on. */
  function Chain(m: CertMap, key: Hash): seq<Hash>
    decreases |m|
  {
    if key !in m then []
    else if m[key].hash != key then [NoHash]
    else RemoveShrinks(m, key); [key] + Chain(m - {key}, m[key].parent)
  }

  /** The manager identifiers of a list of hashes, each forgotten once used. */
  function IdsOf(txnOf: map<Hash, nat>, chain: seq<Hash>): seq<nat> {
    if chain == [] then [] else [IdOf(txnOf, chain[0])] + IdsOf(txnOf - {chain[0]}, chain[1..])
  }

  function Elems(s: seq<Hash>): set<Hash> {
    set h | h in s
  }

  function Forget(s: Store, h: Hash): Store {
    s.(qcs := s.qcs - {h}, txnOf := s.txnOf - {h}, handed := s.handed + [IdOf(s.txnOf, h)])
  }

  /** The walk along parent links, one block at a time. */
  function Ancestors(s: Store, key: Hash): Store
    decreases |s.qcs|
  {
    if key !in s.qcs then s
    else
      var qc := s.qcs[key];
      if qc.hash != key then Forget(s, qc.hash)
      else RemoveShrinks(s.qcs, key); Ancestors(Forget(s, key), qc.parent)
  }

  /** `t` is `s` after the blocks of `chain` were handed over. */
  ghost predicate HandedOver(s: Store, t: Store, chain: seq<Hash>) {
    && t.qcs == s.qcs - Elems(chain) && t.txnOf == s.txnOf - Elems(chain)
    && t.handed == s.handed + IdsOf(s.txnOf, chain)
    && t.prepared == s.prepared && t.locked == s.locked
  }

  lemma {:induction false} AncestorsEffect(s: Store, key: Hash)
    ensures HandedOver(s, Ancestors(s, key), Chain(s.qcs, key))
    decreases |s.qcs|
  {
    if key !in s.qcs {
      NoneHandedOver(s);
    } else if s.qcs[key].hash != key {
      NoneHandedOver(Forget(s, NoHash));
      OneMoreHandedOver(s, NoHash, [], Forget(s, NoHash));
      assert [NoHash] + [] == [NoHash];
    } else {
      RemoveShrinks(s.qcs, key);
      var f, rest := Forget(s, key), Chain(s.qcs - {key}, s.qcs[key].parent);
      AncestorsEffect(f, s.qcs[key].parent);
      OneMoreHandedOver(s, key, rest, Ancestors(f, s.qcs[key].parent));
    }
  }

  lemma NoneHandedOver(s: Store)
    ensures HandedOver(s, s, [])
  {
    assert Elems([]) == {};
    assert s.qcs - {} == s.qcs && s.txnOf - {} == s.txnOf;
  }

  lemma OneMoreHandedOver(s: Store, key: Hash, rest: seq<Hash>, t: Store)
    requires HandedOver(Forget(s, key), t, rest)
    ensures HandedOver(s, t, [key] + rest)
  {
    var chain := [key] + rest;
    assert chain[1..] == rest;
    assert Elems(chain) == {key} + Elems(rest);
    assert s.qcs - {key} - Elems(rest) == s.qcs - Elems(chain);
    assert s.txnOf - {key} - Elems(rest) == s.txnOf - Elems(chain);
  }

  /** Hand the resident ancestors of a block and then the block to execution. */
  function Walk(s: Store, b: Block): Store {
    var m := Touch(s.qcs, b.hash);
    var chain := Chain(m, m[b.hash].parent);
    s.(qcs := m - Elems(chain) - {b.hash},
       txnOf := s.txnOf - Elems(chain) - b.rivals,
       handed := s.handed + IdsOf(s.txnOf, chain) + [b.txn])
  }

  function MarkCommit(m: CertMap, key: Hash): CertMap {
    var t := Touch(m, key);
    t[key := t[key].(kind := Commit)]
  }

  /** The parent and grandparent entries that a certificate is judged by. */
  function Parent(m: CertMap, qc: Cert): Cert {
    Touch(m, qc.parent)[qc.parent]
  }

  function Family(m: CertMap, qc: Cert): CertMap {
    Touch(Touch(m, qc.parent), Parent(m, qc).parent)
  }

  function Grandparent(m: CertMap, qc: Cert): Cert {
    Family(m, qc)[Parent(m, qc).parent]
  }

  /** One, two and three consecutive views prepare, lock and commit. */
  function UpdateLock(s: Store, b1: Cert, view: nat, b: Block): Store {
    var b2 := Parent(s.qcs, b1);
    var b3 := Grandparent(s.qcs, b1);
    var s1 := s.(qcs := Family(s.qcs, b1));
    if b1.view + 1 != view then s1 else
    var s2 := s1.(prepared := Newer(s.prepared, b1));
    if b2.view + 2 != view then s2 else
    var s3 := s2.(locked := Newer(s.locked, b2));
    if b3.view + 3 != view then s3 else
    Walk(s3.(qcs := MarkCommit(s3.qcs, b3.hash)), b)
  }

  /** The prepared and the locked certificate after an update. */
  lemma UpdateFields(s: Store, b1: Cert, view: nat, b: Block)
    ensures var t, b2 := UpdateLock(s, b1, view, b), Parent(s.qcs, b1);
      && t.prepared == (if b1.view + 1 == view then Newer(s.prepared, b1) else s.prepared)
      && t.locked == (if b1.view + 1 == view && b2.view + 2 == view then Newer(s.locked, b2) else s.locked)
  {
  }

  // ----- The commit walk -------------------------------------------------------

  ghost predicate SelfKeyed(m: CertMap) {
    forall k :: k in m ==> m[k].hash == k
  }

  /** `c` follows parent links through resident certificates from `key`, visits
      none twice, and stops only where the next one is missing or was visited. */
  ghost predicate Ancestry(m: CertMap, key: Hash, c: seq<Hash>) {
    && (forall i :: 0 <= i < |c| ==> c[i] in m)
    && NoDup(c)
    && (if c == [] then key !in m else c[0] == key)
    && (forall i :: 0 <= i < |c| - 1 ==> c[i + 1] == m[c[i]].parent)
    && (c != [] ==> var next := m[c[|c| - 1]].parent; next !in m || next in c)
  }

  lemma {:induction false} ChainIsAncestry(m: CertMap, key: Hash)
    requires SelfKeyed(m)
    ensures Ancestry(m, key, Chain(m, key))
    decreases |m|
  {
    if key in m {
      RemoveShrinks(m, key);
      ChainIsAncestry(m - {key}, m[key].parent);
      AncestryGrows(m, key, Chain(m - {key}, m[key].parent));
    }
  }

  lemma AncestryGrows(m: CertMap, key: Hash, c: seq<Hash>)
    requires key in m && Ancestry(m - {key}, m[key].parent, c)
    ensures Ancestry(m, key, [key] + c)
  {
    var rest, whole := m - {key}, [key] + c;
    assert forall i :: 0 <= i < |c| ==> c[i] in rest && c[i] == whole[i + 1];
    forall i | 0 <= i < |whole| - 1 ensures whole[i + 1] == m[whole[i]].parent {
      if i > 0 {
        assert c[i - 1 + 1] == rest[c[i - 1]].parent;
      }
    }
    if c == [] {
      assert m[key].parent !in rest;
    } else {
      var next := rest[c[|c| - 1]].parent;
      assert next !in rest || next in c;
      assert whole[|whole| - 1] == c[|c| - 1];
    }
  }

  /** There is only one such list, so the walk is determined by the links. */
  lemma AncestryIsUnique(m: CertMap, key: Hash, c: seq<Hash>, d: seq<Hash>)
    requires Ancestry(m, key, c) && Ancestry(m, key, d) && |c| <= |d|
    ensures c == d
  {
    if c == [] {
      assert d == [];
    } else {
      AgreeUpTo(m, key, c, d, |c| - 1);
      if |c| < |d| {
        var next := m[c[|c| - 1]].parent;
        assert d[|c| - 1 + 1] == next;
        var j :| 0 <= j < |c| && c[j] == next;
        AgreeUpTo(m, key, c, d, j);
        assert false;
      }
      forall i | 0 <= i < |c| ensures c[i] == d[i] {
        AgreeUpTo(m, key, c, d, i);
      }
    }
  }

  lemma {:induction false} AgreeUpTo(m: CertMap, key: Hash, c: seq<Hash>, d: seq<Hash>, i: nat)
    requires Ancestry(m, key, c) && Ancestry(m, key, d) && i < |c| <= |d|
    ensures c[i] == d[i]
  {
    if i > 0 {
      AgreeUpTo(m, key, c, d, i - 1);
      assert c[i - 1 + 1] == m[c[i - 1]].parent;
      assert d[i - 1 + 1] == m[d[i - 1]].parent;
    }
  }

  /** The commit walk, on every self-keyed map whatever its parent links: it
      hands over exactly the unbroken resident ancestry and then the block, removes
      those certificates and nothing else, and forgets the identifiers of the ancestry
      and of every hash voted for in the block's slot and no others. */
  lemma CommitWalk(s: Store, b: Block, c: seq<Hash>)
    requires SelfKeyed(s.qcs) && b.hash in s.qcs
    requires Ancestry(s.qcs, s.qcs[b.hash].parent, c)
    ensures var w := Walk(s, b);
      && w.handed == s.handed + IdsOf(s.txnOf, c) + [b.txn]
      && (forall k :: k in w.qcs <==> k in s.qcs && k !in c && k != b.hash)
      && (forall k :: k in w.qcs ==> w.qcs[k] == s.qcs[k])
      && (forall h :: h in w.txnOf <==> h in s.txnOf && h !in c && h !in b.rivals)
      && (forall h :: h in w.txnOf ==> w.txnOf[h] == s.txnOf[h])
      && w.prepared == s.prepared && w.locked == s.locked
  {
    var d := Chain(s.qcs, s.qcs[b.hash].parent);
    ChainIsAncestry(s.qcs, s.qcs[b.hash].parent);
    if |c| <= |d| {
      AncestryIsUnique(s.qcs, s.qcs[b.hash].parent, c, d);
    } else {
      AncestryIsUnique(s.qcs, s.qcs[b.hash].parent, d, c);
    }
    assert c == d;
    assert Touch(s.qcs, b.hash) == s.qcs;
  }

  /** The identifiers handed over are the ones the ancestors were filed under. */
  lemma {:induction false} IdsOfDistinct(txnOf: map<Hash, nat>, c: seq<Hash>)
    requires NoDup(c)
    ensures |IdsOf(txnOf, c)| == |c|
    ensures forall i :: 0 <= i < |c| ==> IdsOf(txnOf, c)[i] == IdOf(txnOf, c[i])
  {
    if c != [] {
      var rest := txnOf - {c[0]};
      IdsOfDistinct(rest, c[1..]);
      assert forall i :: 0 < i < |c| ==> IdOf(rest, c[i]) == IdOf(txnOf, c[i]) && c[1..][i - 1] == c[i];
    }
  }

  /** A path along parent links through resident certificates, beginning at `key`. */
  ghost predicate Path(m: CertMap, key: Hash, p: seq<Hash>) {
    && p != [] && p[0] == key
    && (forall i :: 0 <= i < |p| ==> p[i] in m)
    && (forall i :: 0 <= i < |p| - 1 ==> p[i + 1] == m[p[i]].parent)
  }

  /** Parent links lead from block `b` to `x`. */
  ghost predicate Ancestor(m: CertMap, b: Hash, x: Hash) {
    b in m && exists p :: Path(m, m[b].parent, p) && p[|p| - 1] == x
  }

  lemma {:induction false} PathStaysInside(m: CertMap, key: Hash, c: seq<Hash>, p: seq<Hash>, i: nat)
    requires Ancestry(m, key, c) && Path(m, key, p) && i < |p|
    ensures p[i] in c
  {
    if i > 0 {
      PathStaysInside(m, key, c, p, i - 1);
      var j :| 0 <= j < |c| && c[j] == p[i - 1];
      assert p[i - 1 + 1] == m[p[i - 1]].parent;
      if j < |c| - 1 {
        assert c[j + 1] == m[c[j]].parent;
      }
    }
  }

  /** The list the walk follows is the set of all ancestors. */
  lemma AncestorsAreChain(m: CertMap, b: Hash, c: seq<Hash>, x: Hash)
    requires b in m && Ancestry(m, m[b].parent, c)
    ensures Ancestor(m, b, x) <==> x in c
  {
    var key := m[b].parent;
    if Ancestor(m, b, x) {
      var p :| Path(m, key, p) && p[|p| - 1] == x;
      PathStaysInside(m, key, c, p, |p| - 1);
    }
    if x in c {
      var j :| 0 <= j < |c| && c[j] == x;
      var p := c[..j + 1];
      assert Path(m, key, p) && p[|p| - 1] == x;
    }
  }

  /** The block and its ancestors are filed under different identifiers. */
  ghost predicate IdsApart(s: Store, b: Block) {
    && (forall x, y :: Ancestor(s.qcs, b.hash, x) && Ancestor(s.qcs, b.hash, y) && x != y ==>
          IdOf(s.txnOf, x) != IdOf(s.txnOf, y))
    && (forall x :: Ancestor(s.qcs, b.hash, x) && x != b.hash ==> IdOf(s.txnOf, x) != b.txn)
  }

  /** What one walk hands over, in order. */
  function NewlyHanded(s: Store, b: Block): seq<nat>
    requires s.handed <= Walk(s, b).handed
  {
    Walk(s, b).handed[|s.handed|..]
  }

  lemma NewlyHandedIs(s: Store, b: Block) returns (c: seq<Hash>)
    requires SelfKeyed(s.qcs) && b.hash in s.qcs
    ensures Ancestry(s.qcs, s.qcs[b.hash].parent, c)
    ensures s.handed <= Walk(s, b).handed && NewlyHanded(s, b) == IdsOf(s.txnOf, c) + [b.txn]
  {
    var key := s.qcs[b.hash].parent;
    c := Chain(s.qcs, key);
    ChainIsAncestry(s.qcs, key);
    CommitWalk(s, b, c);
    var now := IdsOf(s.txnOf, c) + [b.txn];
    assert Walk(s, b).handed == s.handed + now;
    DropsPrefix(s.handed, now);
  }

  lemma DropsPrefix(a: seq<nat>, b: seq<nat>)
    ensures a <= a + b && (a + b)[|a|..] == b
  {
  }

  /** A walk hands nothing over twice exactly if no parent links lead from the block back to
      itself and the identifiers are distinct. */
  lemma HandedOnceIff(s: Store, b: Block)
    requires SelfKeyed(s.qcs) && b.hash in s.qcs && b.hash in s.txnOf && s.txnOf[b.hash] == b.txn
    ensures s.handed <= Walk(s, b).handed
    ensures NoDup(NewlyHanded(s, b)) <==> !Ancestor(s.qcs, b.hash, b.hash) && IdsApart(s, b)
  {
    var c := NewlyHandedIs(s, b);
    IdsOfDistinct(s.txnOf, c);
    forall x ensures Ancestor(s.qcs, b.hash, x) <==> x in c {
      AncestorsAreChain(s.qcs, b.hash, c, x);
    }
    RepeatsIff(s.txnOf, c, b);
  }

  /** The block or one of its ancestors is filed under `x`. */
  ghost predicate FiledUnder(s: Store, b: Block, x: nat) {
    x == b.txn || exists h :: Ancestor(s.qcs, b.hash, h) && IdOf(s.txnOf, h) == x
  }

  lemma IdsHold(txnOf: map<Hash, nat>, c: seq<Hash>, x: nat)
    requires NoDup(c)
    ensures x in IdsOf(txnOf, c) <==> exists h :: h in c && IdOf(txnOf, h) == x
  {
    var ids := IdsOf(txnOf, c);
    IdsOfDistinct(txnOf, c);
    if x in ids {
      var i :| 0 <= i < |ids| && ids[i] == x;
      assert c[i] in c && IdOf(txnOf, c[i]) == x;
    }
    if h :| h in c && IdOf(txnOf, h) == x {
      var i :| 0 <= i < |c| && c[i] == h;
      assert ids[i] == x;
    }
  }

  /** What a walk hands over is what the block and its ancestors are filed under. */
  lemma HandsIff(s: Store, b: Block, x: nat)
    requires SelfKeyed(s.qcs) && b.hash in s.qcs && s.handed <= Walk(s, b).handed
    ensures x in NewlyHanded(s, b) <==> FiledUnder(s, b, x)
  {
    var c := NewlyHandedIs(s, b);
    IdsHold(s.txnOf, c, x);
    forall h ensures Ancestor(s.qcs, b.hash, h) <==> h in c {
      AncestorsAreChain(s.qcs, b.hash, c, h);
    }
  }

  /** A commit leaves every slot handed over at most once exactly if it was so before, the walk
      repeats nothing, and none of its blocks is filed under an identifier handed over
      before, such as that of a view given up. */
  lemma CommitHandsOnceIff(s: Store, b: Block)
    requires SelfKeyed(s.qcs) && b.hash in s.qcs && b.hash in s.txnOf && s.txnOf[b.hash] == b.txn
    ensures NoDup(Walk(s, b).handed) <==>
      && NoDup(s.handed) && !Ancestor(s.qcs, b.hash, b.hash) && IdsApart(s, b)
      && (forall x :: x in s.handed ==> !FiledUnder(s, b, x))
  {
    HandedOnceIff(s, b);
    var before, now := s.handed, NewlyHanded(s, b);
    assert Walk(s, b).handed == before + now;
    NoDupAppend(before, now);
    forall x | x in before ensures x in now <==> FiledUnder(s, b, x) {
      HandsIff(s, b, x);
    }
  }

  lemma NoDupAppend(a: seq<nat>, b: seq<nat>)
    ensures NoDup(a + b) <==> NoDup(a) && NoDup(b) && (forall x :: x in a ==> x !in b)
  {
    var all := a + b;
    if NoDup(all) {
      forall i, j | 0 <= i < j < |a| ensures a[i] != a[j] {
        assert all[i] != all[j];
      }
      forall i, j | 0 <= i < j < |b| ensures b[i] != b[j] {
        assert all[|a| + i] != all[|a| + j];
      }
      forall i, j | 0 <= i < |a| && 0 <= j < |b| ensures a[i] != b[j] {
        assert all[i] != all[|a| + j];
      }
    } else {
      var i, j :| 0 <= i < j < |all| && all[i] == all[j];
      if i < |a| <= j {
        assert a[i] in a && b[j - |a|] in b;
      } else if j < |a| {
        assert a[i] == a[j];
      } else {
        assert b[i - |a|] == b[j - |a|];
      }
    }
  }

  lemma RepeatsIff(txnOf: map<Hash, nat>, c: seq<Hash>, b: Block)
    requires NoDup(c) && b.hash in txnOf && txnOf[b.hash] == b.txn
    requires |IdsOf(txnOf, c)| == |c| && forall i :: 0 <= i < |c| ==> IdsOf(txnOf, c)[i] == IdOf(txnOf, c[i])
    ensures NoDup(IdsOf(txnOf, c) + [b.txn]) <==>
      && b.hash !in c
      && (forall x, y :: x in c && y in c && x != y ==> IdOf(txnOf, x) != IdOf(txnOf, y))
      && (forall x :: x in c && x != b.hash ==> IdOf(txnOf, x) != b.txn)
  {
    var all := IdsOf(txnOf, c) + [b.txn];
    if NoDup(all) {
      forall x | x in c ensures IdOf(txnOf, x) != b.txn {
        var i :| 0 <= i < |c| && c[i] == x;
        assert all[i] != all[|c|];
      }
      forall x, y | x in c && y in c && x != y ensures IdOf(txnOf, x) != IdOf(txnOf, y) {
        var i :| 0 <= i < |c| && c[i] == x;
        var j :| 0 <= j < |c| && c[j] == y;
        assert if i < j then all[i] != all[j] else all[j] != all[i];
      }
    }
  }

  // ----- What an update files and erases ---------------------------------------

  function File(s: Store, qc: Cert): Store {
    s.(qcs := s.qcs[qc.hash := qc])
  }

  /** The store holds the certificate of `h`; a default entry does not count. */
  predicate Certified(m: CertMap, h: Hash) {
    h in m && m[h].hash == h
  }

  /** A path along parent links through certificates, from `key` to `x`. */
  ghost predicate CertPath(m: CertMap, key: Hash, p: seq<Hash>, x: Hash) {
    && p != [] && p[0] == key && p[|p| - 1] == x
    && (forall i :: 0 <= i < |p| ==> Certified(m, p[i]))
    && (forall i :: 0 <= i < |p| - 1 ==> p[i + 1] == m[p[i]].parent)
  }

  ghost predicate Reached(m: CertMap, key: Hash, x: Hash) {
    exists p :: CertPath(m, key, p, x)
  }

  lemma {:induction false} VisitedIsReached(m: CertMap, key: Hash, x: Hash)
    requires x != NoHash && x in Chain(m, key)
    ensures Reached(m, key, x)
    decreases |m|
  {
    if x == key {
      assert CertPath(m, key, [key], x);
    } else {
      RemoveShrinks(m, key);
      VisitedIsReached(m - {key}, m[key].parent, x);
      var p :| CertPath(m - {key}, m[key].parent, p, x);
      var q := [key] + p;
      assert forall i :: 0 <= i < |p| ==> Certified(m - {key}, p[i]) && q[i + 1] == p[i];
      forall i | 0 <= i < |q| ensures Certified(m, q[i]) {
        if i > 0 {
          assert Certified(m - {key}, p[i - 1]);
        }
      }
      forall i | 0 <= i < |q| - 1 ensures q[i + 1] == m[q[i]].parent {
        if i > 0 {
          assert p[i - 1 + 1] == (m - {key})[p[i - 1]].parent;
        }
      }
      assert CertPath(m, key, q, x);
    }
  }

  lemma {:induction false} ReachedIsVisited(m: CertMap, key: Hash, p: seq<Hash>, x: Hash)
    requires CertPath(m, key, p, x)
    ensures x in Chain(m, key)
    decreases |p|
  {
    assert Certified(m, p[0]);
    if x != key {
      if j :| 0 < j < |p| && p[j] == key {
        var q := p[j..];
        assert forall i :: 0 <= i < |q| ==> q[i] == p[i + j];
        forall i | 0 <= i < |q| - 1 ensures q[i + 1] == m[q[i]].parent {
          assert p[i + j + 1] == m[p[i + j]].parent;
        }
        ReachedIsVisited(m, key, q, x);
      } else {
        var q := p[1..];
        assert forall i :: 0 <= i < |q| ==> q[i] == p[i + 1] && Certified(m, p[i + 1]);
        assert p[0 + 1] == m[p[0]].parent;
        forall i | 0 <= i < |q| - 1 ensures q[i + 1] == (m - {key})[q[i]].parent {
          assert p[i + 1 + 1] == m[p[i + 1]].parent;
        }
        ReachedIsVisited(m - {key}, m[key].parent, q, x);
      }
    }
  }

  /** The walk visits exactly the certificates that parent links lead to. */
  lemma VisitedIff(m: CertMap, key: Hash, x: Hash)
    requires x != NoHash
    ensures x in Chain(m, key) <==> Reached(m, key, x)
  {
    if x in Chain(m, key) {
      VisitedIsReached(m, key, x);
    }
    if p :| CertPath(m, key, p, x) {
      ReachedIsVisited(m, key, p, x);
    }
  }

  /** Three consecutive views: the update commits. */
  predicate Commits(m: CertMap, b1: Cert, view: nat) {
    b1.view + 1 == view && Parent(m, b1).view + 2 == view && Grandparent(m, b1).view + 3 == view
  }

  /** The map a committing update walks on. */
  function WalkedMap(m: CertMap, b1: Cert, b: Block): CertMap {
    Touch(MarkCommit(Family(m, b1), Grandparent(m, b1).hash), b.hash)
  }

  /** The commit takes out the block its walk starts from and what parent links reach. */
  ghost predicate Sweeps(m: CertMap, b1: Cert, view: nat, b: Block, h: Hash) {
    && Commits(m, b1, view)
    && (h == b.hash || Reached(WalkedMap(m, b1, b), WalkedMap(m, b1, b)[b.hash].parent, h))
  }

  /** What an update does to the map. */
  lemma UpdateMap(s: Store, b1: Cert, view: nat, b: Block)
    ensures var t, m := UpdateLock(s, b1, view, b), WalkedMap(s.qcs, b1, b);
      if Commits(s.qcs, b1, view)
      then t.qcs == m - Elems(Chain(m, m[b.hash].parent)) - {b.hash}
        && t.locked == Newer(s.locked, Parent(s.qcs, b1))
      else t.qcs == Family(s.qcs, b1)
  {
    var b3 := Grandparent(s.qcs, b1);
    if Commits(s.qcs, b1, view) {
      var ready := s.(qcs := MarkCommit(Family(s.qcs, b1), b3.hash), prepared := Newer(s.prepared, b1),
                      locked := Newer(s.locked, Parent(s.qcs, b1)));
      assert UpdateLock(s, b1, view, b) == Walk(ready, b);
    }
  }

  /** The maps differ in default entries and in the mark of the committed one. */
  ghost predicate SameCerts(m: CertMap, t: CertMap) {
    forall h :: h != NoHash ==>
      (Certified(m, h) <==> Certified(t, h)) && (Certified(m, h) ==> t[h].(kind := m[h].kind) == m[h])
  }

  lemma TouchSame(m: CertMap, key: Hash)
    ensures SameCerts(m, Touch(m, key))
  {
  }

  lemma MarkSame(m: CertMap, key: Hash)
    ensures SameCerts(m, MarkCommit(m, key))
  {
  }

  lemma FamilySame(m: CertMap, b1: Cert)
    ensures SameCerts(m, Family(m, b1))
  {
    var f := Touch(m, b1.parent);
    TouchSame(m, b1.parent);
    TouchSame(f, Parent(m, b1).parent);
    SameTwice(m, f, Family(m, b1));
  }

  lemma SameTwice(m: CertMap, t: CertMap, u: CertMap)
    requires SameCerts(m, t) && SameCerts(t, u)
    ensures SameCerts(m, u)
  {
  }

  lemma WalkedSame(m: CertMap, b1: Cert, b: Block)
    ensures SameCerts(m, WalkedMap(m, b1, b))
  {
    var f := Family(m, b1);
    var t := MarkCommit(f, Grandparent(m, b1).hash);
    FamilySame(m, b1);
    MarkSame(f, Grandparent(m, b1).hash);
    SameTwice(m, f, t);
    TouchSame(t, b.hash);
    SameTwice(m, t, WalkedMap(m, b1, b));
  }

  /** An update certifies nothing new and changes nothing but the mark of a certificate it
      keeps. */
  lemma UpdateFilesNothing(s: Store, b1: Cert, view: nat, b: Block, h: Hash)
    requires h != NoHash && Certified(UpdateLock(s, b1, view, b).qcs, h)
    ensures Certified(s.qcs, h) && UpdateLock(s, b1, view, b).qcs[h].(kind := s.qcs[h].kind) == s.qcs[h]
  {
    UpdateMap(s, b1, view, b);
    FamilySame(s.qcs, b1);
    WalkedSame(s.qcs, b1, b);
  }

  /** A certificate it keeps is as before, but that of the committed block is marked so. */
  lemma UpdateMarksCommitted(s: Store, b1: Cert, view: nat, b: Block, h: Hash)
    requires h != NoHash && Certified(UpdateLock(s, b1, view, b).qcs, h)
    ensures Certified(s.qcs, h)
    ensures UpdateLock(s, b1, view, b).qcs[h] ==
      if Commits(s.qcs, b1, view) && h == Grandparent(s.qcs, b1).hash then s.qcs[h].(kind := Commit) else s.qcs[h]
  {
    UpdateMap(s, b1, view, b);
    if Commits(s.qcs, b1, view) {
      WalkedKeeps(s.qcs, b1, b, h);
    }
    FamilyKeeps(s.qcs, b1, h);
  }

  lemma TouchKeeps(m: CertMap, key: Hash, h: Hash)
    requires h != NoHash && Certified(Touch(m, key), h)
    ensures Certified(m, h) && Touch(m, key)[h] == m[h]
  {
  }

  lemma MarkKeeps(m: CertMap, key: Hash, h: Hash)
    requires h != NoHash && Certified(MarkCommit(m, key), h)
    ensures Certified(m, h) && MarkCommit(m, key)[h] == if h == key then m[h].(kind := Commit) else m[h]
  {
  }

  lemma WalkedKeeps(m: CertMap, b1: Cert, b: Block, h: Hash)
    requires h != NoHash && Certified(WalkedMap(m, b1, b), h)
    ensures var f, w := Family(m, b1), WalkedMap(m, b1, b);
      Certified(f, h) && w[h] == if h == Grandparent(m, b1).hash then f[h].(kind := Commit) else f[h]
  {
    var f, key := Family(m, b1), Grandparent(m, b1).hash;
    TouchKeeps(MarkCommit(f, key), b.hash, h);
    MarkKeeps(f, key, h);
  }

  lemma FamilyKeeps(m: CertMap, b1: Cert, h: Hash)
    requires h != NoHash && Certified(Family(m, b1), h)
    ensures Certified(m, h) && Family(m, b1)[h] == m[h]
  {
    TouchKeeps(Touch(m, b1.parent), Parent(m, b1).parent, h);
    TouchKeeps(m, b1.parent, h);
  }

  /** It takes out a certificate exactly if it commits, and parent links lead to it from the
      block the walk starts from; whatever the views in the map. */
  lemma UpdateErasesIff(s: Store, b1: Cert, view: nat, b: Block, h: Hash)
    requires h != NoHash && Certified(s.qcs, h)
    ensures !Certified(UpdateLock(s, b1, view, b).qcs, h) <==> Sweeps(s.qcs, b1, view, b, h)
  {
    UpdateMap(s, b1, view, b);
    FamilySame(s.qcs, b1);
    WalkedSame(s.qcs, b1, b);
    var m := WalkedMap(s.qcs, b1, b);
    VisitedIff(m, m[b.hash].parent, h);
  }

  /** A commit erases only certificates of views below the new lock exactly if all those it
      reaches are; certificates of one block may have different views. */
  lemma CommitErasesBelowLockIff(s: Store, b1: Cert, view: nat, b: Block)
    ensures var t := UpdateLock(s, b1, view, b);
      (forall h :: h != NoHash && Certified(s.qcs, h) && !Certified(t.qcs, h) ==> s.qcs[h].view < t.locked.view)
      <==> (forall h :: h != NoHash && Certified(s.qcs, h) && Sweeps(s.qcs, b1, view, b, h) ==> s.qcs[h].view < t.locked.view)
  {
    forall h | h != NoHash && Certified(s.qcs, h)
      ensures !Certified(UpdateLock(s, b1, view, b).qcs, h) <==> Sweeps(s.qcs, b1, view, b, h)
    {
      UpdateErasesIff(s, b1, view, b, h);
    }
  }

  /** The block that is committed always is below the new lock, with the certificate that is
      erased. */
  lemma CommittedIsBelowLock(s: Store, b1: Cert, view: nat, b: Block)
    requires Commits(s.qcs, b1, view) && b.hash == Grandparent(s.qcs, b1).hash && b.hash != NoHash
    requires s.locked.genesis ==> s.locked.view == 0
    ensures Certified(s.qcs, b.hash) && s.qcs[b.hash].view + 3 == view
    ensures !Certified(UpdateLock(s, b1, view, b).qcs, b.hash)
    ensures s.qcs[b.hash].view < UpdateLock(s, b1, view, b).locked.view
  {
    UpdateMap(s, b1, view, b);
    FamilySame(s.qcs, b1);
    assert Certified(Family(s.qcs, b1), b.hash);
  }

  // ----- The store as an object ------------------------------------------------

  class CertTable {
    var qcs: CertMap
    var txnOf: map<Hash, nat>
    var prepared: Cert
    var locked: Cert
    var handed: seq<nat>

    ghost function Value(): Store
      reads this
    {
      Store(qcs, txnOf, prepared, locked, handed)
    }

    constructor ()
      ensures Value() == Start()
    {
      qcs, txnOf := map[NoHash := Genesis(PreCommit)], map[];
      prepared, locked, handed := Genesis(Prepare), Genesis(PreCommit), [];
    }

    /** `hash_to_QC[key]`. */
    method At(key: Hash) returns (qc: Cert)
      modifies this`qcs
      ensures qcs == Touch(old(qcs), key) && qc == qcs[key]
    {
      if key !in qcs {
        qcs := qcs[key := Blank()];
      }
      qc := qcs[key];
    }

    /** Give one visited block to execution and forget it. */
    method HandOver(h: Hash)
      modifies this
      ensures Value() == Forget(old(Value()), h)
    {
      handed := handed + [if h in txnOf then txnOf[h] else 0];
      qcs := qcs - {h};
      txnOf := txnOf - {h};
    }

    /** The loop of the ancestor walk. */
    method WalkAncestors(start: Hash)
      modifies this
      ensures Value() == Ancestors(old(Value()), start)
    {
      var key := start;
      var exist := key in qcs;
      while exist
        invariant exist ==> key in qcs
        invariant (if exist then Ancestors(Value(), key) else Value()) == Ancestors(old(Value()), start)
        decreases |qcs|, exist
      {
        var qc := qcs[key];
        if qc.hash == key {
          RemoveShrinks(qcs, key);
        }
        HandOver(qc.hash);
        exist := qc.parent in qcs;
        key := qc.parent;
      }
    }

    /** `send_execute_msg_hotstuff`. */
    method CommitWalkFrom(b: Block)
      modifies this
      ensures Value() == Walk(old(Value()), b)
    {
      var qc := At(b.hash);
      AncestorsEffect(Value(), qc.parent);
      WalkAncestors(qc.parent);
      qcs := qcs - {b.hash};
      txnOf := txnOf - b.rivals;
      handed := handed + [b.txn];
    }

    method SetPrepared(qc: Cert)
      modifies this`prepared
      ensures prepared == Newer(old(prepared), qc)
    {
      if qc.view > prepared.view || prepared.genesis {
        prepared := qc;
      }
    }

    method SetLocked(qc: Cert)
      modifies this`locked
      ensures locked == Newer(old(locked), qc)
    {
      if qc.view > locked.view || locked.genesis {
        locked := qc;
      }
    }

    method Relatives(b1: Cert) returns (b2: Cert, b3: Cert)
      modifies this`qcs
      ensures qcs == Family(old(qcs), b1)
      ensures b2 == Parent(old(qcs), b1) && b3 == Grandparent(old(qcs), b1)
    {
      b2 := At(b1.parent);
      b3 := At(b2.parent);
    }

    method CommitFrom(key: Hash, b: Block)
      modifies this
      ensures Value() == Walk(old(Value()).(qcs := MarkCommit(old(qcs), key)), b)
    {
      var qc := At(key);
      qcs := qcs[key := qc.(kind := Commit)];
      CommitWalkFrom(b);
    }

    /** `update_lockQC`. */
    method UpdateLockFrom(b1: Cert, view: nat, b: Block)
      modifies this
      ensures Value() == UpdateLock(old(Value()), b1, view, b)
    {
      var b2, b3 := Relatives(b1);
      if b1.view + 1 == view {
        SetPrepared(b1);
      }
      if b1.view + 1 == view && b2.view + 2 == view {
        SetLocked(b2);
      }
      if b1.view + 1 == view && b2.view + 2 == view && b3.view + 3 == view {
        CommitFrom(b3.hash, b);
      }
    }
  }
}
