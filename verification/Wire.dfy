/** How certificates and the three consensus messages are laid out in a buffer. */
module Wire {
  import opened Bytes
  import opened Certificate

  /** Signatures of the elliptic-curve library. */
  const SHARE := 64

  type WireCert = QC<bytes, bytes>

  // ----- Certificates ----------------------------------------------------------

  function KindCode(k: Kind): nat {
    match k case Prepare => 0 case PreCommit => 1 case Commit => 2
  }

  function TakeKind(b: bytes): Parse<Kind> {
    var (n, b) :- TakeNum(b, 4);
    if n == 0 then Ok(Prepare, b)
    else if n == 1 then Ok(PreCommit, b)
    else if n == 2 then Ok(Commit, b)
    else Bad
  }

  lemma KindRoundTrip(k: Kind, rest: bytes)
    ensures TakeKind(PutNum(KindCode(k), 4, rest)) == Ok(k, rest)
  {
    assert Pow256(4) == 256 * (256 * (256 * (256 * Pow256(0))));
    NumRoundTrip(KindCode(k), 4, rest);
  }

  ghost predicate IsLeast(s: set<nat>, k: nat) {
    k in s && forall j :: j in s ==> k <= j
  }

  lemma {:induction false} HasLeast(s: set<nat>)
    requires s != {}
    ensures exists k :: IsLeast(s, k)
  {
    var k :| k in s;
    if s == {k} {
      assert IsLeast(s, k);
    } else {
      HasLeast(s - {k});
      var j :| IsLeast(s - {k}, j);
      assert s == (s - {k}) + {k};
      assert IsLeast(s, if j < k then j else k);
    }
  }

  function Least(s: set<nat>): (k: nat)
    requires s != {}
    ensures IsLeast(s, k)
  {
    HasLeast(s);
    assert exists k :: k in s && IsLeast(s, k);
    var k :| k in s && forall j :: j in s ==> k <= j;
    k
  }

  /** An ordered map is walked in ascending order of its keys. */
  function Ascending(s: set<nat>): (keys: seq<nat>)
    ensures |keys| == |s|
    ensures forall k :: k in keys <==> k in s
  {
    if s == {} then []
    else
      var k := Least(s);
      var tail := Ascending(s - {k});
      assert s == (s - {k}) + {k};
      assert forall j :: j in [k] + tail <==> j == k || j in tail;
      [k] + tail
  }

  function PutEntries(keys: seq<nat>, shares: map<nat, bytes>, rest: bytes): bytes
    requires forall k :: k in keys ==> k in shares
  {
    if keys == [] then rest
    else PutNum(keys[0], 8, shares[keys[0]] + PutEntries(keys[1..], shares, rest))
  }

  function TakeEntries(b: bytes, n: nat, shares: map<nat, bytes>): Parse<map<nat, bytes>> {
    if n == 0 then Ok(shares, b)
    else
      var (k, b) :- TakeNum(b, 8);
      var (share, b) :- TakeRaw(b, SHARE);
      TakeEntries(b, n - 1, shares[k := share])
  }

  function Restrict(shares: map<nat, bytes>, keys: seq<nat>): map<nat, bytes> {
    map k | k in keys && k in shares :: shares[k]
  }

  lemma {:induction false} EntriesRoundTrip(keys: seq<nat>, shares: map<nat, bytes>, before: map<nat, bytes>, rest: bytes)
    requires forall k :: k in keys ==> k in shares && Fits(k, 8) && |shares[k]| == SHARE
    ensures TakeEntries(PutEntries(keys, shares, rest), |keys|, before) == Ok(before + Restrict(shares, keys), rest)
  {
    if keys == [] {
      assert before + Restrict(shares, keys) == before;
    } else {
      var k, tail := keys[0], keys[1..];
      EntriesRoundTrip(tail, shares, before[k := shares[k]], rest);
      EntryRoundTrip(k, shares[k], PutEntries(tail, shares, rest), |tail|, before);
      RestrictStep(keys, shares, before);
    }
  }

  lemma RestrictStep(keys: seq<nat>, shares: map<nat, bytes>, before: map<nat, bytes>)
    requires keys != [] && keys[0] in shares
    ensures before[keys[0] := shares[keys[0]]] + Restrict(shares, keys[1..]) == before + Restrict(shares, keys)
  {
    assert forall k :: k in keys <==> k == keys[0] || k in keys[1..];
  }

  lemma EntryRoundTrip(k: nat, share: bytes, after: bytes, n: nat, before: map<nat, bytes>)
    requires Fits(k, 8) && |share| == SHARE
    ensures TakeEntries(PutNum(k, 8, share + after), n + 1, before) == TakeEntries(after, n, before[k := share])
  {
    NumRoundTrip(k, 8, share + after);
    RawRoundTrip(share, after);
  }

  lemma {:induction false} EntriesSize(keys: seq<nat>, shares: map<nat, bytes>, rest: bytes)
    requires forall k :: k in keys ==> k in shares && |shares[k]| == SHARE
    ensures |PutEntries(keys, shares, rest)| == |keys| * 8 + |keys| * SHARE + |rest|
  {
    if keys != [] {
      EntriesSize(keys[1..], shares, rest);
    }
  }

  lemma {:induction false} EntriesLocal(keys: seq<nat>, shares: map<nat, bytes>, rest: bytes, more: bytes)
    requires forall k :: k in keys ==> k in shares
    ensures PutEntries(keys, shares, rest) + more == PutEntries(keys, shares, rest + more)
  {
    if keys != [] {
      var s, after := shares[keys[0]], PutEntries(keys[1..], shares, rest);
      EntriesLocal(keys[1..], shares, rest, more);
      Local(s, after, more);
      Local(Le(keys[0], 8), s + after, more);
    }
  }

  /** The grandparent, if present. */
  function PutGrand(q: WireCert, rest: bytes): bytes {
    if q.grandEmpty then rest else PutNum(q.grandView, 8, PutText(q.grandHash, rest))
  }

  function TakeGrand(b: bytes, empty: bool): Parse<(nat, bytes)> {
    if empty then Ok((0, []), b)
    else
      var (view, b) :- TakeNum(b, 8);
      var (hash, b) :- TakeText(b);
      Ok((view, hash), b)
  }

  /** The signature shares, unless this is the genesis certificate. */
  function PutShares(q: WireCert, rest: bytes): bytes {
    if q.genesis then rest
    else PutNum(|q.shares|, 8, PutEntries(Ascending(q.shares.Keys), q.shares, rest))
  }

  function TakeShares(b: bytes, genesis: bool): Parse<map<nat, bytes>> {
    if genesis then Ok(map[], b)
    else
      var (n, b) :- TakeNum(b, 8);
      TakeEntries(b, n, map[])
  }

  /** `QuorumCertificate::copy_to_buf`. */
  function PutCert(q: WireCert, rest: bytes): bytes {
    PutNum(KindCode(q.kind), 4, PutFlag(q.genesis, PutNum(q.view, 8, PutNum(q.parentView, 8,
      PutText(q.hash, PutText(q.parent, PutFlag(q.grandEmpty, PutGrand(q, PutShares(q, rest)))))))))
  }

  /** `QuorumCertificate::copy_from_buf`, into a default-constructed certificate. */
  function TakeCert(b: bytes): Parse<WireCert> {
    var (kind, b) :- TakeKind(b);
    var (genesis, b) :- TakeFlag(b);
    var (view, b) :- TakeNum(b, 8);
    var (parentView, b) :- TakeNum(b, 8);
    var (hash, b) :- TakeText(b);
    var (parent, b) :- TakeText(b);
    var (grandEmpty, b) :- TakeFlag(b);
    var (grand, b) :- TakeGrand(b, grandEmpty);
    var (shares, b) :- TakeShares(b, genesis);
    Ok(QC(kind, genesis, view, parentView, hash, parent, grandEmpty, grand.0, grand.1, shares), b)
  }

  /** `QuorumCertificate::get_size`. */
  function CertSize(q: WireCert): nat {
    1 + 4 + 2 * 8 + 2 * 8 + |q.hash| + |q.parent|
    + 1 + (if q.grandEmpty then 0 else 8 + 8 + |q.grandHash|)
    + (if q.genesis then 0 else 8 + |q.shares| * 8 + |q.shares| * SHARE)
  }

  ghost predicate CertOk(q: WireCert) {
    && Fits(q.view, 8) && Fits(q.parentView, 8) && Fits(q.grandView, 8)
    && Fits(|q.hash|, 8) && Fits(|q.parent|, 8) && Fits(|q.grandHash|, 8) && Fits(|q.shares|, 8)
    && (forall k :: k in q.shares ==> Fits(k, 8) && |q.shares[k]| == SHARE)
  }

  /** What of a certificate is on the wire. */
  function OnWireCert(q: WireCert): WireCert {
    q.(grandView := if q.grandEmpty then 0 else q.grandView,
       grandHash := if q.grandEmpty then [] else q.grandHash,
       shares := if q.genesis then map[] else q.shares)
  }

  lemma GrandRoundTrip(q: WireCert, rest: bytes)
    requires CertOk(q)
    ensures TakeGrand(PutGrand(q, rest), q.grandEmpty) == Ok((OnWireCert(q).grandView, OnWireCert(q).grandHash), rest)
  {
    if !q.grandEmpty {
      NumRoundTrip(q.grandView, 8, PutText(q.grandHash, rest));
      TextRoundTrip(q.grandHash, rest);
    }
  }

  lemma SharesRoundTrip(q: WireCert, rest: bytes)
    requires CertOk(q)
    ensures TakeShares(PutShares(q, rest), q.genesis) == Ok(OnWireCert(q).shares, rest)
  {
    if !q.genesis {
      var keys := Ascending(q.shares.Keys);
      NumRoundTrip(|q.shares|, 8, PutEntries(keys, q.shares, rest));
      EntriesRoundTrip(keys, q.shares, map[], rest);
      assert map[] + Restrict(q.shares, keys) == q.shares;
    }
  }

  /** A certificate is read back from its own bytes, whatever follows them. */
  lemma CertRoundTrip(q: WireCert, rest: bytes)
    requires CertOk(q)
    ensures TakeCert(PutCert(q, rest)) == Ok(OnWireCert(q), rest)
  {
    var b9 := PutShares(q, rest);
    var b8 := PutGrand(q, b9);
    var b7 := PutFlag(q.grandEmpty, b8);
    var b6 := PutText(q.parent, b7);
    var b5 := PutText(q.hash, b6);
    var b4 := PutNum(q.parentView, 8, b5);
    var b3 := PutNum(q.view, 8, b4);
    KindRoundTrip(q.kind, PutFlag(q.genesis, b3));
    FlagRoundTrip(q.genesis, b3);
    NumRoundTrip(q.view, 8, b4);
    NumRoundTrip(q.parentView, 8, b5);
    TextRoundTrip(q.hash, b6);
    TextRoundTrip(q.parent, b7);
    FlagRoundTrip(q.grandEmpty, b8);
    GrandRoundTrip(q, b9);
    SharesRoundTrip(q, rest);
  }

  /** `get_size` is exact, before and after the trip. */
  lemma CertSizeIsExact(q: WireCert, rest: bytes)
    requires CertOk(q)
    ensures |PutCert(q, rest)| == CertSize(q) + |rest|
    ensures CertSize(OnWireCert(q)) == CertSize(q)
  {
    if !q.genesis {
      EntriesSize(Ascending(q.shares.Keys), q.shares, rest);
    }
  }

  lemma CertLocal(q: WireCert, rest: bytes, more: bytes)
    ensures PutCert(q, rest) + more == PutCert(q, rest + more)
  {
    SharesLocal(q, rest, more);
    var b9 := PutShares(q, rest);
    GrandLocal(q, b9, more);
    var b8 := PutGrand(q, b9);
    Local([if q.grandEmpty then 1 else 0], b8, more);
    var b7 := PutFlag(q.grandEmpty, b8);
    TextLocal(q.parent, b7, more);
    var b6 := PutText(q.parent, b7);
    TextLocal(q.hash, b6, more);
    var b5 := PutText(q.hash, b6);
    Local(Le(q.parentView, 8), b5, more);
    var b4 := PutNum(q.parentView, 8, b5);
    Local(Le(q.view, 8), b4, more);
    var b3 := PutNum(q.view, 8, b4);
    Local([if q.genesis then 1 else 0], b3, more);
    Local(Le(KindCode(q.kind), 4), PutFlag(q.genesis, b3), more);
  }

  lemma SharesLocal(q: WireCert, rest: bytes, more: bytes)
    ensures PutShares(q, rest) + more == PutShares(q, rest + more)
  {
    if !q.genesis {
      var keys := Ascending(q.shares.Keys);
      EntriesLocal(keys, q.shares, rest, more);
      Local(Le(|q.shares|, 8), PutEntries(keys, q.shares, rest), more);
    }
  }

  lemma GrandLocal(q: WireCert, rest: bytes, more: bytes)
    ensures PutGrand(q, rest) + more == PutGrand(q, rest + more)
  {
    if !q.grandEmpty {
      TextLocal(q.grandHash, rest, more);
      Local(Le(q.grandView, 8), PutText(q.grandHash, rest), more);
    }
  }
}
