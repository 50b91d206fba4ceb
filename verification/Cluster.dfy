/** The static configuration of a replica group: quorum sizes, the rotating
    leader, and the numbering of slots and transactions. */
module Cluster {

  /** `instance` is the consensus instance a model is about; the others only
      show up in the global numbering of transactions. */
  datatype Config = Config(nodes: nat, instances: nat, instance: nat, batch: nat) {

    predicate Valid() {
      1 <= instances <= nodes && instance < instances && 5 <= batch
    }

    /** The number of replicas that need not be waited for. */
    function MinInvalid(): nat
      requires nodes >= 1
    {
      if nodes % 3 == 1 then (nodes - 1) / 3 else (nodes - 1) / 3 + 1
    }

    /** The quorum size. */
    function Nf(): (nf: nat)
      requires nodes >= 1
      ensures 1 <= nf <= nodes
    {
      nodes - MinInvalid()
    }

    function Primary(view: nat): (p: nat)
      requires nodes >= 1
      ensures p < nodes
    {
      (view + instance) % nodes
    }

    /** The global slot of a view of this instance. */
    function Slot(view: nat): nat {
      view * instances + instance
    }

    /** The identifier of the last transaction of a slot; a slot's manager is
        the transaction manager of that transaction. */
    function LastId(slot: nat): nat
      requires Valid()
    {
      slot * batch + batch - 1
    }

    function Txn(view: nat): nat
      requires Valid()
    {
      LastId(Slot(view))
    }

    /** The distance between the managers of consecutive views. */
    function Stride(): nat {
      instances * batch
    }
  }

  /** Two quorums overlap in f+1 replicas when n = 3f+1; for the other group
      sizes the overlap is only one third of the group. */
  lemma QuorumOverlapSize(c: Config, k: nat)
    requires c.nodes >= 1
    ensures c.nodes == 3 * k + 1 ==> 2 * c.Nf() - c.nodes == k + 1 == c.MinInvalid() + 1
    ensures c.nodes == 3 * k + 2 ==> 2 * c.Nf() - c.nodes == k
    ensures c.nodes == 3 * k ==> 2 * c.Nf() - c.nodes == k
  {
  }

  lemma {:induction false} TxnStep(c: Config, view: nat)
    requires c.Valid()
    ensures c.Txn(view + 1) == c.Txn(view) + c.Stride()
  {
    var i, b, s := c.instances, c.batch, c.instance;
    assert (view + 1) * i == view * i + i;
    assert (view * i + i + s) * b == (view * i + s) * b + i * b;
  }

  /** Transaction identifiers of one instance are strictly ordered by view. */
  lemma {:induction false} TxnMonotone(c: Config, v: nat, w: nat)
    requires c.Valid() && v < w
    ensures c.Txn(v) + c.Stride() <= c.Txn(w)
    ensures c.Txn(v) < c.Txn(w)
    decreases w
  {
    TxnStep(c, w - 1);
    if v < w - 1 {
      TxnMonotone(c, v, w - 1);
    }
    assert c.Stride() >= 1 by { MulPositive(c.instances, c.batch); }
  }

  lemma MulPositive(x: nat, y: nat)
    requires x >= 1 && y >= 1
    ensures x * y >= x && x * y >= y
  {
  }

  lemma ModUnique(x: nat, n: nat, q: nat, r: nat)
    requires n >= 1 && r < n && x == q * n + r
    ensures x % n == r && x / n == q
  {
    var q', r' := x / n, x % n;
    assert x == q' * n + r';
    MulGap(q, q', n);
    MulGap(q', q, n);
  }

  lemma MulGap(a: nat, b: nat, n: nat)
    ensures a < b ==> a * n + n <= b * n
  {
    if a < b {
      assert b * n == a * n + (b - a) * n;
      MulAtLeast(b - a, n);
    }
  }

  lemma MulAtLeast(k: nat, n: nat)
    requires k >= 1
    ensures k * n >= n
  {
  }

  /** The leader repeats every `nodes` views. */
  lemma PrimaryPeriod(c: Config, view: nat)
    requires c.Valid()
    ensures c.Primary(view + c.nodes) == c.Primary(view)
  {
    var x, n := view + c.instance, c.nodes;
    assert x == (x / n) * n + x % n;
    assert x + n == (x / n + 1) * n + x % n;
    ModUnique(x + n, n, x / n + 1, x % n);
  }

  /** The first view a replica leads. */
  lemma FirstLed(c: Config, i: nat)
    requires c.Valid() && i < c.nodes
    ensures c.Primary((c.nodes + i - c.instance) % c.nodes) == i
  {
    var n := c.nodes;
    var x := n + i - c.instance;
    if x < n {
      ModUnique(x, n, 0, x);
      ModUnique(n + i, n, 1, i);
    } else {
      ModUnique(x, n, 1, x - n);
      ModUnique(i, n, 0, i);
    }
  }

  /** A set that holds every element of a duplicate-free sequence of replicas. */
  lemma {:induction false} ListSize(s: seq<nat>, all: set<nat>)
    requires forall i, j :: 0 <= i < j < |s| ==> s[i] != s[j]
    requires forall i :: 0 <= i < |s| ==> s[i] in all
    ensures |s| == |set i | 0 <= i < |s| :: s[i]| <= |all|
  {
    var elems := set i | 0 <= i < |s| :: s[i];
    if s == [] {
      assert elems == {};
    } else {
      var k := |s| - 1;
      ListSize(s[..k], all - {s[k]});
      var rest := set i | 0 <= i < k :: s[i];
      assert rest == set i | 0 <= i < |s[..k]| :: s[..k][i];
      assert elems == rest + {s[k]};
    }
  }

  /** Two quorums taken from `nodes` replicas share one outside `faulty`. */
  lemma SharedCorrect(nodes: nat, nf: nat, a: seq<nat>, b: seq<nat>, faulty: set<nat>) returns (k: nat)
    requires forall i, j :: 0 <= i < j < |a| ==> a[i] != a[j]
    requires forall i, j :: 0 <= i < j < |b| ==> b[i] != b[j]
    requires forall i :: 0 <= i < |a| ==> a[i] < nodes
    requires forall i :: 0 <= i < |b| ==> b[i] < nodes
    requires |a| >= nf && |b| >= nf
    requires |faulty| < 2 * nf - nodes
    ensures k in a && k in b && k !in faulty
  {
    var all := Ids(nodes);
    RangeSize(nodes);
    ListSize(a, all);
    ListSize(b, all);
    var sa := set i | 0 <= i < |a| :: a[i];
    var sb := set i | 0 <= i < |b| :: b[i];
    var both := sa * sb;
    assert |sa + sb| == |sa| + |sb| - |both|;
    assert sa + sb <= all;
    SubsetSize(sa + sb, all);
    if both <= faulty {
      SubsetSize(both, faulty);
      assert false;
    }
    k :| k in both && k !in faulty;
  }

  function Ids(n: nat): (s: set<nat>)
    ensures forall i :: i in s <==> 0 <= i < n
  {
    if n == 0 then {} else Ids(n - 1) + {n - 1}
  }

  lemma {:induction false} RangeSize(n: nat)
    ensures |Ids(n)| == n
  {
    if n > 0 {
      RangeSize(n - 1);
    }
  }

  lemma {:induction false} SubsetSize<T>(a: set<T>, b: set<T>)
    requires a <= b
    ensures |a| <= |b|
  {
    if a != {} {
      var x :| x in a;
      SubsetSize(a - {x}, b - {x});
    }
  }
}
