/** The transaction table: an array of buckets, each a doubly linked list of
    managers, which together behave as one finite map. */
module TxnTable {
  datatype Key = Key(txn: nat, batch: nat)

  /** A transaction manager, as far as the table looks into it. */
  class TxnMan {
    const key: Key

    constructor (key: Key)
      ensures this.key == key
    {
      this.key := key;
    }
  }

  class Node {
    var man: TxnMan
    var next: Node?
    var prev: Node?
    /** The bucket this node was made for. */
    ghost const home: nat

    constructor (man: TxnMan, ghost home: nat)
      ensures this.man == man && next == null && prev == null && this.home == home
    {
      this.man := man;
      next, prev := null, null;
      this.home := home;
    }
  }

  class Bucket {
    var head: Node?
    var tail: Node?
    var cnt: nat
    ghost var nodes: seq<Node>
    ghost const id: nat

    /** Head, tail, links and counter describe `nodes`. */
    ghost predicate Linked()
      reads this, nodes
    {
      && head == At(0) && tail == At(|nodes| - 1) && cnt == |nodes|
      && (forall i :: 0 <= i < |nodes| ==> LinkedAt(i))
    }

    ghost predicate LinkedAt(i: int)
      requires 0 <= i < |nodes|
      reads this, nodes
    {
      nodes[i].next == At(i + 1) && nodes[i].prev == At(i - 1) && nodes[i].home == id
    }

    ghost function At(i: int): Node?
      reads this
    {
      if 0 <= i < |nodes| then nodes[i] else null
    }

    ghost predicate Valid()
      reads this, nodes
    {
      Linked() && Distinct()
    }

    /** No key, and so no node, is in the list twice. */
    ghost predicate Distinct()
      reads this, nodes
    {
      forall i, j :: 0 <= i < j < |nodes| ==> nodes[i].man.key != nodes[j].man.key
    }

    constructor (ghost id: nat)
      ensures Valid() && nodes == [] && this.id == id
    {
      head, tail, cnt := null, null, 0;
      nodes := [];
      this.id := id;
    }

    /** The search loop. */
    method Find(key: Key) returns (n: Node?)
      requires Valid()
      ensures n == null ==> forall i :: 0 <= i < |nodes| ==> nodes[i].man.key != key
      ensures n != null ==> n in nodes && n.man.key == key
    {
      n := head;
      ghost var i := 0;
      while n != null
        invariant 0 <= i <= |nodes| && n == At(i)
        invariant forall j :: 0 <= j < i ==> nodes[j].man.key != key
        decreases |nodes| - i
      {
        if n.man.key == key {
          return;
        }
        assert LinkedAt(i);
        n := n.next;
        i := i + 1;
      }
    }

    /** `LIST_PUT_TAIL`. */
    method LinkLast(n: Node)
      requires Linked() && n !in nodes
      modifies this`head, this`tail, nodes, n
      ensures tail == n && head == (if nodes == [] then n else old(head))
      ensures n.next == null && n.prev == old(tail) && n.man == old(n.man)
      ensures forall i :: 0 <= i < |nodes| ==> nodes[i].man == old(nodes[i].man) && nodes[i].prev == old(nodes[i].prev)
      ensures forall i :: 0 <= i < |nodes| ==> nodes[i].next == if i + 1 == |nodes| then n else old(nodes[i].next)
    {
      n.next := null;
      n.prev := null;
      if tail != null {
        assert tail == nodes[|nodes| - 1];
        forall i | 0 <= i < |nodes| - 1 ensures nodes[i] != tail {
          assert LinkedAt(i) && LinkedAt(|nodes| - 1);
        }
        n.prev := tail;
        tail.next := n;
        tail := n;
      } else {
        head := n;
        tail := n;
      }
    }

    /** Append a node and count it. */
    method PutTail(n: Node)
      requires Valid() && n !in nodes && n.home == id
      requires forall m :: m in nodes ==> m.man.key != n.man.key
      modifies this, nodes, n
      ensures Valid() && nodes == old(nodes) + [n]
      ensures forall m :: m in nodes ==> m.man == old(m.man)
    {
      LinkLast(n);
      cnt := cnt + 1;
      nodes := nodes + [n];
      forall i | 0 <= i < |nodes| ensures LinkedAt(i) {
        if i < |nodes| - 1 {
          assert old(LinkedAt(i));
        }
      }
    }

    /** The links around position `at` skip it. */
    ghost predicate Skips(at: nat)
      requires at < |nodes|
      reads this, nodes
    {
      && head == At(if at == 0 then 1 else 0)
      && tail == At(if at + 1 == |nodes| then at - 1 else |nodes| - 1)
      && cnt == |nodes|
      && (forall i :: 0 <= i < |nodes| && i != at ==> SkipsAt(at, i))
    }

    ghost predicate SkipsAt(at: nat, i: nat)
      requires i < |nodes|
      reads this, nodes
    {
      && nodes[i].next == At(if i + 1 == at then at + 1 else i + 1)
      && nodes[i].prev == At(if i == at + 1 then at - 1 else i - 1)
      && nodes[i].home == id
    }

    /** `LIST_REMOVE_HT`, whose two assertions hold. */
    method Unlink(n: Node, ghost at: nat)
      requires Valid() && at < |nodes| && nodes[at] == n
      modifies this`head, this`tail, nodes
      ensures Skips(at)
      ensures forall m :: m in nodes ==> m.man == old(m.man)
    {
      assert LinkedAt(at);
      if n.next != null {
        assert n.next == nodes[at + 1];
        n.next.prev := n.prev;
      } else {
        assert n == tail;
        tail := n.prev;
      }
      if n.prev != null {
        assert n.prev == nodes[at - 1];
        n.prev.next := n.next;
      } else {
        assert n == head;
        head := n.next;
      }
      forall i | 0 <= i < |nodes| && i != at ensures SkipsAt(at, i) {
        assert old(LinkedAt(i));
      }
    }

    /** Count off a node that was unlinked. */
    method CountOff(ghost at: nat)
      requires at < |nodes| && Skips(at) && Distinct()
      modifies this`cnt, this`nodes
      ensures Valid() && nodes == RemoveAt(old(nodes), at)
    {
      ghost var was := nodes;
      cnt := cnt - 1;
      nodes := RemoveAt(nodes, at);
      forall i | 0 <= i < |nodes| ensures LinkedAt(i) {
        assert old(SkipsAt(at, if i < at then i else i + 1));
      }
    }

    /** Take a node out of the list. */
    method Remove(n: Node, ghost at: nat)
      requires Valid() && at < |nodes| && nodes[at] == n
      modifies this, nodes
      ensures Valid() && nodes == RemoveAt(old(nodes), at)
      ensures forall m :: m in nodes ==> m.man == old(m.man)
    {
      Unlink(n, at);
      CountOff(at);
    }
  }

  ghost function RemoveAt<T>(s: seq<T>, at: nat): (r: seq<T>)
    requires at < |s|
    ensures |r| == |s| - 1
    ensures forall i :: 0 <= i < at ==> r[i] == s[i]
    ensures forall i :: at <= i < |r| ==> r[i] == s[i + 1]
  {
    s[..at] + s[at + 1..]
  }

  // ----- The table -------------------------------------------------------------

  /** Bucket `b` of `size` holds exactly the managers of `content` that belong there. */
  ghost predicate Stores(bucket: Bucket, b: nat, size: nat, content: map<Key, TxnMan>)
    requires size > 0
    reads bucket, bucket.nodes
  {
    && bucket.Valid() && bucket.id == b
    && (forall n :: n in bucket.nodes ==>
          n.man.key.txn % size == b && n.man.key in content && content[n.man.key] == n.man)
    && (forall key :: key in content && key.txn % size == b ==>
          content[key].key == key && exists n :: n in bucket.nodes && n.man == content[key])
  }

  /** A change to keys of other buckets does not concern this one. */
  lemma StoresOther(bucket: Bucket, b: nat, size: nat, was: map<Key, TxnMan>, now: map<Key, TxnMan>)
    requires size > 0 && Stores(bucket, b, size, was)
    requires forall key: Key :: key.txn % size == b ==> (key in was <==> key in now)
    requires forall key: Key :: key.txn % size == b && key in was ==> was[key] == now[key]
    ensures Stores(bucket, b, size, now)
  {
  }

  lemma BucketsApart(a: Bucket, b: Bucket)
    requires a.Valid() && b.Valid() && a.id != b.id
    ensures forall n :: n in a.nodes ==> n !in b.nodes
  {
    forall n | n in a.nodes ensures n !in b.nodes {
      var i :| 0 <= i < |a.nodes| && a.nodes[i] == n;
      assert a.LinkedAt(i);
      forall j | 0 <= j < |b.nodes| ensures b.nodes[j] != n {
        assert b.LinkedAt(j);
      }
    }
  }

  class TxnTable {
    const pool: seq<Bucket>
    /** The map the table stands for. */
    ghost var content: map<Key, TxnMan>

    ghost function Nodes(): set<Node>
      reads pool
    {
      set i, n | 0 <= i < |pool| && n in pool[i].nodes :: n
    }

    ghost predicate Valid()
      reads this, pool, Nodes()
    {
      && |pool| > 0
      && (forall b, n :: 0 <= b < |pool| && n in pool[b].nodes ==> n in Nodes())
      && (forall b :: 0 <= b < |pool| ==> Stores(pool[b], b, |pool|, content))
    }

    /** `init`. */
    constructor (size: nat)
      requires size > 0
      ensures Valid() && content == map[] && |pool| == size
      ensures fresh(pool) && forall b :: 0 <= b < size ==> pool[b].nodes == []
    {
      var buckets: seq<Bucket> := [];
      for b := 0 to size
        invariant |buckets| == b
        invariant forall i :: 0 <= i < b ==> fresh(buckets[i])
        invariant forall i :: 0 <= i < b ==> buckets[i].nodes == [] && Stores(buckets[i], i, size, map[])
      {
        var bucket := new Bucket(b);
        buckets := buckets + [bucket];
      }
      pool := buckets;
      content := map[];
    }

    /** Every other bucket is out of reach of changes to bucket `b`. */
    lemma Apart(b: nat)
      requires Valid() && b < |pool|
      ensures forall c :: 0 <= c < |pool| && c != b ==> pool[c] != pool[b] && Disjoint(pool[c], pool[b])
      ensures forall c :: 0 <= c < |pool| && c != b ==> Stores(pool[c], c, |pool|, content)
    {
      assert Stores(pool[b], b, |pool|, content);
      forall c | 0 <= c < |pool| && c != b ensures pool[c] != pool[b] && Disjoint(pool[c], pool[b]) {
        assert Stores(pool[c], c, |pool|, content);
        BucketsApart(pool[c], pool[b]);
      }
    }

    /** The other buckets do not mind a change to keys of bucket `b`. */
    lemma AllStore(b: nat, now: map<Key, TxnMan>)
      requires b < |pool| && Stores(pool[b], b, |pool|, now)
      requires forall c :: 0 <= c < |pool| && c != b ==> Stores(pool[c], c, |pool|, content)
      requires forall key: Key :: key.txn % |pool| != b ==> (key in content <==> key in now)
      requires forall key: Key :: key.txn % |pool| != b && key in now ==> content[key] == now[key]
      ensures forall c :: 0 <= c < |pool| ==> Stores(pool[c], c, |pool|, now)
    {
      forall c | 0 <= c < |pool| && c != b ensures Stores(pool[c], c, |pool|, now) {
        StoresOther(pool[c], c, |pool|, content, now);
      }
    }

    /** `get_transaction_manager`: the manager of the key, created on first use. */
    method GetTransactionManager(key: Key) returns (man: TxnMan)
      requires Valid()
      modifies this`content, pool[key.txn % |pool|], pool[key.txn % |pool|].nodes
      ensures Valid() && man.key == key
      ensures content == old(content)[key := man]
      ensures if key in old(content) then man == old(content)[key] else fresh(man)
      ensures var b := key.txn % |pool|; forall n :: n in pool[b].nodes ==> n in old(pool[b].nodes) || fresh(n)
    {
      var b := key.txn % |pool|;
      assert Stores(pool[b], b, |pool|, content);
      var n := pool[b].Find(key);
      if n != null {
        man := n.man;
        assert content == content[key := man];
      } else {
        man := Add(b, key);
      }
    }

    method Add(b: nat, key: Key) returns (man: TxnMan)
      requires Valid() && b < |pool| && key.txn % |pool| == b
      requires forall i :: 0 <= i < |pool[b].nodes| ==> pool[b].nodes[i].man.key != key
      modifies this`content, pool[b], pool[b].nodes
      ensures Valid() && man.key == key && fresh(man)
      ensures key !in old(content) && content == old(content)[key := man]
      ensures forall n :: n in pool[b].nodes ==> n in old(pool[b].nodes) || fresh(n)
    {
      man := AddTo(b, key);
      ghost var now := content[key := man];
      AllStore(b, now);
      content := now;
    }

    method AddTo(b: nat, key: Key) returns (man: TxnMan)
      requires Valid() && b < |pool| && key.txn % |pool| == b
      requires forall i :: 0 <= i < |pool[b].nodes| ==> pool[b].nodes[i].man.key != key
      modifies pool[b], pool[b].nodes
      ensures man.key == key && fresh(man) && key !in content
      ensures Stores(pool[b], b, |pool|, content[key := man])
      ensures forall n :: n in pool[b].nodes ==> n in old(pool[b].nodes) || fresh(n)
      ensures forall c :: 0 <= c < |pool| && c != b ==> Stores(pool[c], c, |pool|, content)
    {
      Apart(b);
      assert Stores(pool[b], b, |pool|, content);
      man := Insert(pool[b], b, |pool|, key, content);
    }

    /** `release_transaction_manager`: the key is forgotten, if it was known. */
    method ReleaseTransactionManager(key: Key)
      requires Valid()
      modifies this`content, pool[key.txn % |pool|], pool[key.txn % |pool|].nodes
      ensures Valid() && content == old(content) - {key}
      ensures var b := key.txn % |pool|; forall n :: n in pool[b].nodes ==> n in old(pool[b].nodes)
    {
      var b := key.txn % |pool|;
      assert Stores(pool[b], b, |pool|, content);
      var n := pool[b].Find(key);
      if n != null {
        Drop(b, n);
      }
    }

    method Drop(b: nat, n: Node)
      requires Valid() && b < |pool| && n in pool[b].nodes
      modifies this`content, pool[b], pool[b].nodes
      ensures Valid() && content == old(content) - {old(n.man.key)}
      ensures forall m :: m in pool[b].nodes ==> m in old(pool[b].nodes)
    {
      ghost var key := n.man.key;
      DropFrom(b, n);
      ghost var now := content - {key};
      AllStore(b, now);
      content := now;
    }

    method DropFrom(b: nat, n: Node)
      requires Valid() && b < |pool| && n in pool[b].nodes
      modifies pool[b], pool[b].nodes
      ensures Stores(pool[b], b, |pool|, content - {old(n.man.key)}) && old(n.man.key).txn % |pool| == b
      ensures forall m :: m in pool[b].nodes ==> m in old(pool[b].nodes)
      ensures forall c :: 0 <= c < |pool| && c != b ==> Stores(pool[c], c, |pool|, content)
    {
      assert Stores(pool[b], b, |pool|, content);
      assert n.man.key.txn % |pool| == b;
      Apart(b);
      Delete(pool[b], n, b, |pool|, content);
    }
  }

  ghost predicate Disjoint(a: Bucket, b: Bucket)
    reads a, b
  {
    forall n :: n in a.nodes ==> n !in b.nodes
  }

  /** Allocate a manager and its node, and append them. */
  method Insert(bucket: Bucket, b: nat, size: nat, key: Key, ghost content: map<Key, TxnMan>)
    returns (man: TxnMan)
    requires size > 0 && Stores(bucket, b, size, content) && key.txn % size == b
    requires forall i :: 0 <= i < |bucket.nodes| ==> bucket.nodes[i].man.key != key
    modifies bucket, bucket.nodes
    ensures fresh(man) && man.key == key && key !in content
    ensures Stores(bucket, b, size, content[key := man])
    ensures forall n :: n in bucket.nodes ==> n in old(bucket.nodes) || fresh(n)
  {
    man := new TxnMan(key);
    var node := new Node(man, b);
    bucket.PutTail(node);
    assert forall n :: n in bucket.nodes ==> n == node || n in old(bucket.nodes);
    assert node in bucket.nodes && forall n :: n in old(bucket.nodes) ==> n in bucket.nodes;
    StoresMore(bucket, node, b, size, content);
  }

  lemma StoresMore(bucket: Bucket, node: Node, b: nat, size: nat, content: map<Key, TxnMan>)
    requires size > 0 && bucket.Valid() && bucket.id == b
    requires node in bucket.nodes && node.man.key.txn % size == b && node.man.key !in content
    requires forall n :: n in bucket.nodes && n != node ==>
      n.man.key.txn % size == b && n.man.key in content && content[n.man.key] == n.man
    requires forall key :: key in content && key.txn % size == b ==>
      content[key].key == key && exists n :: n in bucket.nodes && n.man == content[key]
    ensures Stores(bucket, b, size, content[node.man.key := node.man])
  {
  }

  /** Unlink the node of a known key. */
  method Delete(bucket: Bucket, n: Node, b: nat, size: nat, ghost content: map<Key, TxnMan>)
    requires size > 0 && Stores(bucket, b, size, content) && n in bucket.nodes
    modifies bucket, bucket.nodes
    ensures Stores(bucket, b, size, content - {old(n.man.key)})
    ensures forall m :: m in bucket.nodes ==> m in old(bucket.nodes)
  {
    ghost var at :| 0 <= at < |bucket.nodes| && bucket.nodes[at] == n;
    ghost var was := bucket.nodes;
    bucket.Remove(n, at);
    RemovedIn(was, at);
    assert forall m :: m in bucket.nodes ==> m.man.key != old(n.man.key) by {
      assert forall m :: m in bucket.nodes ==> exists i :: 0 <= i < |was| && i != at && was[i] == m;
    }
  }

  lemma RemovedIn<T>(s: seq<T>, at: nat)
    requires at < |s|
    ensures forall x :: x in RemoveAt(s, at) ==> x in s
    ensures forall x :: x in RemoveAt(s, at) ==> exists i :: 0 <= i < |s| && i != at && s[i] == x
    ensures forall x :: x in s && x != s[at] ==> x in RemoveAt(s, at)
  {
    var r := RemoveAt(s, at);
    forall x | x in r ensures exists i :: 0 <= i < |s| && i != at && s[i] == x {
      var i :| 0 <= i < |r| && r[i] == x;
      assert s[if i < at then i else i + 1] == x;
    }
    forall x | x in s && x != s[at] ensures x in r {
      var i :| 0 <= i < |s| && s[i] == x;
      assert r[if i < at then i else i - 1] == x;
    }
  }

  // ----- Whole histories -------------------------------------------------------

  datatype Call = Get(key: Key) | Release(key: Key)

  /** The key of call `i` is not released before call `j`. */
  predicate Kept(calls: seq<Call>, i: nat, j: nat)
    requires i < j <= |calls|
  {
    forall k :: i < k < j ==> calls[k] != Release(calls[i].key)
  }

  ghost predicate Current(content: map<Key, TxnMan>, man: TxnMan) {
    man.key in content && content[man.key] == man
  }

  /** The managers handed out so far, against the history and the map. */
  ghost predicate Faithful(calls: seq<Call>, mans: seq<TxnMan?>, content: map<Key, TxnMan>) {
    && |mans| <= |calls|
    && (forall i :: 0 <= i < |mans| ==> (mans[i] == null <==> calls[i].Release?))
    && (forall i :: 0 <= i < |mans| && calls[i].Get? ==> mans[i].key == calls[i].key)
    && (forall i :: 0 <= i < |mans| && calls[i].Get? ==> (Kept(calls, i, |mans|) <==> Current(content, mans[i])))
    && (forall i, k :: 0 <= i < k < |mans| && calls[i].Get? && calls[k].Get? ==>
          (mans[i] == mans[k] <==> calls[i].key == calls[k].key && Kept(calls, i, k)))
  }

  lemma KeptOn(calls: seq<Call>, i: nat, j: nat)
    requires i < j < |calls|
    ensures Kept(calls, i, j + 1) <==> Kept(calls, i, j) && calls[j] != Release(calls[i].key)
  {
  }

  lemma GetStep(calls: seq<Call>, mans: seq<TxnMan?>, content: map<Key, TxnMan>, man: TxnMan)
    requires Faithful(calls, mans, content) && |mans| < |calls| && calls[|mans|] == Get(man.key)
    requires man.key in content ==> content[man.key] == man
    requires man.key !in content ==> man !in mans
    ensures Faithful(calls, mans + [man], content[man.key := man])
  {
    var j := |mans|;
    var mans', content' := mans + [man], content[man.key := man];
    assert Kept(calls, j, j + 1);
    forall i | 0 <= i < j && calls[i].Get?
      ensures Kept(calls, i, j + 1) <==> Current(content', mans[i])
      ensures mans[i] == man <==> calls[i].key == man.key && Kept(calls, i, j)
    {
      KeptOn(calls, i, j);
      assert mans[i] in mans;
    }
  }

  lemma ReleaseStep(calls: seq<Call>, mans: seq<TxnMan?>, content: map<Key, TxnMan>, key: Key)
    requires Faithful(calls, mans, content) && |mans| < |calls| && calls[|mans|] == Release(key)
    ensures Faithful(calls, mans + [null], content - {key})
  {
    var j := |mans|;
    forall i | 0 <= i < j && calls[i].Get?
      ensures Kept(calls, i, j + 1) <==> Current(content - {key}, mans[i])
    {
      KeptOn(calls, i, j);
    }
  }

  /** One call, and where the table's nodes may come from. */
  method Answer(table: TxnTable, call: Call) returns (man: TxnMan?)
    requires table.Valid()
    modifies table, table.pool, table.Nodes()
    ensures table.Valid() && fresh(table.Nodes() - old(table.Nodes()))
    ensures call.Release? ==> man == null && table.content == old(table.content) - {call.key}
    ensures call.Get? ==> man != null && man.key == call.key && table.content == old(table.content)[call.key := man]
    ensures call.Get? ==> if call.key in old(table.content) then man == old(table.content)[call.key] else fresh(man)
  {
    if call.Get? {
      man := table.GetTransactionManager(call.key);
    } else {
      table.ReleaseTransactionManager(call.key);
      man := null;
    }
  }

  /** What callers see of the table: over any history of calls, two of them get the same
      manager exactly if they name the same key and nobody released it in between. */
  method Serve(size: nat, calls: seq<Call>) returns (mans: seq<TxnMan?>)
    requires size > 0
    ensures |mans| == |calls|
    ensures forall i :: 0 <= i < |calls| ==> (mans[i] == null <==> calls[i].Release?)
    ensures forall i, j :: 0 <= i < j < |calls| && calls[i].Get? && calls[j].Get? ==>
      (mans[i] == mans[j] <==> calls[i].key == calls[j].key && Kept(calls, i, j))
  {
    var table := new TxnTable(size);
    mans := [];
    for j := 0 to |calls|
      invariant fresh(table) && fresh(table.pool) && fresh(table.Nodes())
      invariant table.Valid() && |mans| == j && Faithful(calls, mans, table.content)
    {
      ghost var content := table.content;
      var man := Answer(table, calls[j]);
      if man != null {
        GetStep(calls, mans, content, man);
      } else {
        ReleaseStep(calls, mans, content, calls[j].key);
      }
      mans := mans + [man];
    }
  }
}
