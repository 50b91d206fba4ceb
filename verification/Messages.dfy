/** The Sync, Generic and Proposal messages in a buffer, and several of them in
    one packet. */
module Messages {
  import opened Bytes
  import opened Certificate
  import opened Wire
  import Framing
  import opened Sequences

  const SYNC := 13
  const GENERIC := 14
  const PROPOSAL := 15
  const CLIENT_QUERY := 3
  /** Seven latency figures. */
  const LATENCY := 56

  /** The fields all messages share; `force` does not travel. */
  datatype Header = Header(txn: nat, queued: nat, latency: bytes, instance: nat, signature: bytes, key: bytes,
                           force: bool)

  /** What Sync and Generic have in common. */
  datatype Claim = Claim(view: nat, index: nat, hash: bytes, returnNode: nat, endIndex: nat, batchSize: nat,
                         high: WireCert, primarySig: bytes)

  /** A client request: a list of key-value pairs. */
  datatype Request = Request(startTs: nat, pairs: seq<(nat, nat)>, returnNode: nat)

  datatype Message =
    | Sync(header: Header, claim: Claim, share: Option<bytes>, nonVote: bool)
    | Generic(header: Header, claim: Claim)
    | Proposal(header: Header, view: nat, entries: seq<(nat, Request)>, hash: bytes, batchSize: nat)

  // ----- Header ----------------------------------------------------------------

  function Tag(m: Message): nat {
    match m case Sync(_, _, _, _) => SYNC case Generic(_, _) => GENERIC case Proposal(_, _, _, _, _) => PROPOSAL
  }

  /** `Message::mcopy_to_buf`. */
  function PutHeader(tag: nat, h: Header, rest: bytes): bytes {
    PutNum(tag, 4, PutNum(h.txn, 8, PutNum(h.queued, 8, h.latency +
      PutNum(|h.signature|, 8, PutNum(|h.key|, 8, PutNum(h.instance, 8, h.signature + (h.key + rest)))))))
  }

  /** `Message::mcopy_from_buf`. */
  function TakeHeader(b: bytes): Parse<(nat, Header)> {
    var (tag, b) :- TakeNum(b, 4);
    var (txn, b) :- TakeNum(b, 8);
    var (queued, b) :- TakeNum(b, 8);
    var (latency, b) :- TakeRaw(b, LATENCY);
    var (sigSize, b) :- TakeNum(b, 8);
    var (keySize, b) :- TakeNum(b, 8);
    var (instance, b) :- TakeNum(b, 8);
    var (signature, b) :- TakeRaw(b, sigSize);
    var (key, b) :- TakeRaw(b, keySize);
    Ok((tag, Header(txn, queued, latency, instance, signature, key, false)), b)
  }

  /** `Message::mget_size`. */
  function HeaderSize(h: Header): nat {
    4 + 8 + 8 + |h.signature| + |h.key| + 8 + 8 + 8 + 7 * 8
  }

  ghost predicate HeaderOk(h: Header) {
    && Fits(h.txn, 8) && Fits(h.queued, 8) && Fits(h.instance, 8)
    && |h.latency| == LATENCY && Fits(|h.signature|, 8) && Fits(|h.key|, 8)
  }

  lemma HeaderRoundTrip(tag: nat, h: Header, rest: bytes)
    requires Fits(tag, 4) && HeaderOk(h)
    ensures TakeHeader(PutHeader(tag, h, rest)) == Ok((tag, h.(force := false)), rest)
    ensures |PutHeader(tag, h, rest)| == HeaderSize(h) + |rest|
  {
    var b7 := h.signature + (h.key + rest);
    var b6 := PutNum(h.instance, 8, b7);
    var b5 := PutNum(|h.key|, 8, b6);
    var b4 := PutNum(|h.signature|, 8, b5);
    var b2 := PutNum(h.queued, 8, h.latency + b4);
    NumRoundTrip(tag, 4, PutNum(h.txn, 8, b2));
    NumRoundTrip(h.txn, 8, b2);
    NumRoundTrip(h.queued, 8, h.latency + b4);
    RawRoundTrip(h.latency, b4);
    NumRoundTrip(|h.signature|, 8, b5);
    NumRoundTrip(|h.key|, 8, b6);
    NumRoundTrip(h.instance, 8, b7);
    RawRoundTrip(h.signature, h.key + rest);
    RawRoundTrip(h.key, rest);
  }

  lemma HeaderLocal(tag: nat, h: Header, rest: bytes, more: bytes)
    ensures PutHeader(tag, h, rest) + more == PutHeader(tag, h, rest + more)
  {
    Local(h.key, rest, more);
    Local(h.signature, h.key + rest, more);
    var b7 := h.signature + (h.key + rest);
    Local(Le(h.instance, 8), b7, more);
    var b6 := PutNum(h.instance, 8, b7);
    Local(Le(|h.key|, 8), b6, more);
    var b5 := PutNum(|h.key|, 8, b6);
    Local(Le(|h.signature|, 8), b5, more);
    var b4 := PutNum(|h.signature|, 8, b5);
    Local(h.latency, b4, more);
    Local(Le(h.queued, 8), h.latency + b4, more);
    var b2 := PutNum(h.queued, 8, h.latency + b4);
    Local(Le(h.txn, 8), b2, more);
    Local(Le(tag, 4), PutNum(h.txn, 8, b2), more);
  }

  // ----- The claim of a Sync or Generic ----------------------------------------

  function PutClaim(c: Claim, rest: bytes): bytes {
    PutNum(c.view, 8, PutNum(c.index, 8, PutText(c.hash, PutNum(c.returnNode, 8, PutNum(c.endIndex, 8,
      PutNum(c.batchSize, 4, PutCert(c.high, c.primarySig + rest)))))))
  }

  function TakeClaim(b: bytes): Parse<Claim> {
    var (view, b) :- TakeNum(b, 8);
    var (index, b) :- TakeNum(b, 8);
    var (hash, b) :- TakeText(b);
    var (returnNode, b) :- TakeNum(b, 8);
    var (endIndex, b) :- TakeNum(b, 8);
    var (batchSize, b) :- TakeNum(b, 4);
    var (high, b) :- TakeCert(b);
    var (primarySig, b) :- TakeRaw(b, SHARE);
    Ok(Claim(view, index, hash, returnNode, endIndex, batchSize, high, primarySig), b)
  }

  function ClaimSize(c: Claim): nat {
    8 + 8 + |c.hash| + 8 + 8 + 8 + 4 + CertSize(c.high) + SHARE
  }

  ghost predicate ClaimOk(c: Claim) {
    && Fits(c.view, 8) && Fits(c.index, 8) && Fits(c.returnNode, 8) && Fits(c.endIndex, 8) && Fits(c.batchSize, 4)
    && Fits(|c.hash|, 8) && CertOk(c.high) && |c.primarySig| == SHARE
  }

  function OnWireClaim(c: Claim): Claim {
    c.(high := OnWireCert(c.high))
  }

  lemma ClaimRoundTrip(c: Claim, rest: bytes)
    requires ClaimOk(c)
    ensures TakeClaim(PutClaim(c, rest)) == Ok(OnWireClaim(c), rest)
  {
    var b7 := PutCert(c.high, c.primarySig + rest);
    var b6 := PutNum(c.batchSize, 4, b7);
    var b5 := PutNum(c.endIndex, 8, b6);
    var b4 := PutNum(c.returnNode, 8, b5);
    var b3 := PutText(c.hash, b4);
    NumRoundTrip(c.view, 8, PutNum(c.index, 8, b3));
    NumRoundTrip(c.index, 8, b3);
    TextRoundTrip(c.hash, b4);
    NumRoundTrip(c.returnNode, 8, b5);
    NumRoundTrip(c.endIndex, 8, b6);
    NumRoundTrip(c.batchSize, 4, b7);
    CertRoundTrip(c.high, c.primarySig + rest);
    RawRoundTrip(c.primarySig, rest);
  }

  lemma ClaimSizeIsExact(c: Claim, rest: bytes)
    requires ClaimOk(c)
    ensures |PutClaim(c, rest)| == ClaimSize(c) + |rest| && ClaimSize(OnWireClaim(c)) == ClaimSize(c)
  {
    CertSizeIsExact(c.high, c.primarySig + rest);
  }

  lemma ClaimLocal(c: Claim, rest: bytes, more: bytes)
    ensures PutClaim(c, rest) + more == PutClaim(c, rest + more)
  {
    Local(c.primarySig, rest, more);
    CertLocal(c.high, c.primarySig + rest, more);
    var b7 := PutCert(c.high, c.primarySig + rest);
    Local(Le(c.batchSize, 4), b7, more);
    var b6 := PutNum(c.batchSize, 4, b7);
    Local(Le(c.endIndex, 8), b6, more);
    var b5 := PutNum(c.endIndex, 8, b6);
    Local(Le(c.returnNode, 8), b5, more);
    var b4 := PutNum(c.returnNode, 8, b5);
    TextLocal(c.hash, b4, more);
    var b3 := PutText(c.hash, b4);
    Local(Le(c.index, 8), b3, more);
    Local(Le(c.view, 8), PutNum(c.index, 8, b3), more);
  }

  // ----- Client requests -------------------------------------------------------

  function PutPairs(pairs: seq<(nat, nat)>, rest: bytes): bytes {
    if pairs == [] then rest else PutNum(pairs[0].0, 8, PutNum(pairs[0].1, 8, PutPairs(pairs[1..], rest)))
  }

  function TakePairs(b: bytes, n: nat): Parse<seq<(nat, nat)>> {
    if n == 0 then Ok([], b)
    else
      var (key, b) :- TakeNum(b, 8);
      var (value, b) :- TakeNum(b, 8);
      var (pairs, b) :- TakePairs(b, n - 1);
      Ok([(key, value)] + pairs, b)
  }

  lemma {:induction false} PairsRoundTrip(pairs: seq<(nat, nat)>, rest: bytes)
    requires forall p :: p in pairs ==> Fits(p.0, 8) && Fits(p.1, 8)
    ensures TakePairs(PutPairs(pairs, rest), |pairs|) == Ok(pairs, rest)
    ensures |PutPairs(pairs, rest)| == 16 * |pairs| + |rest|
  {
    if pairs != [] {
      var k, v, after := pairs[0].0, pairs[0].1, PutPairs(pairs[1..], rest);
      PairsRoundTrip(pairs[1..], rest);
      NumRoundTrip(k, 8, PutNum(v, 8, after));
      NumRoundTrip(v, 8, after);
      assert [(k, v)] + pairs[1..] == pairs;
    }
  }

  lemma {:induction false} PairsLocal(pairs: seq<(nat, nat)>, rest: bytes, more: bytes)
    ensures PutPairs(pairs, rest) + more == PutPairs(pairs, rest + more)
  {
    if pairs != [] {
      var k, v, after := pairs[0].0, pairs[0].1, PutPairs(pairs[1..], rest);
      PairsLocal(pairs[1..], rest, more);
      Local(Le(v, 8), after, more);
      Local(Le(k, 8), PutNum(v, 8, after), more);
    }
  }

  /** `YCSBClientQueryMessage::copy_to_buf`. */
  function PutRequest(r: Request, rest: bytes): bytes {
    PutNum(CLIENT_QUERY, 4, PutNum(r.startTs, 8, PutNum(|r.pairs|, 8, PutPairs(r.pairs, PutNum(r.returnNode, 8, rest)))))
  }

  function TakeRequest(b: bytes): Parse<Request> {
    var (tag, b) :- TakeNum(b, 4);
    var (startTs, b) :- TakeNum(b, 8);
    var (n, b) :- TakeNum(b, 8);
    var (pairs, b) :- TakePairs(b, n);
    var (returnNode, b) :- TakeNum(b, 8);
    if tag == CLIENT_QUERY then Ok(Request(startTs, pairs, returnNode), b) else Bad
  }

  function RequestSize(r: Request): nat {
    4 + 8 + 8 + 16 * |r.pairs| + 8
  }

  ghost predicate RequestOk(r: Request) {
    && Fits(r.startTs, 8) && Fits(r.returnNode, 8) && Fits(|r.pairs|, 8)
    && (forall p :: p in r.pairs ==> Fits(p.0, 8) && Fits(p.1, 8))
  }

  lemma SmallFits(v: nat)
    requires v < 256
    ensures Fits(v, 4)
  {
    assert Pow256(4) == 256 * (256 * (256 * (256 * Pow256(0))));
  }

  lemma RequestRoundTrip(r: Request, rest: bytes)
    requires RequestOk(r)
    ensures TakeRequest(PutRequest(r, rest)) == Ok(r, rest)
    ensures |PutRequest(r, rest)| == RequestSize(r) + |rest|
  {
    var b5 := PutNum(r.returnNode, 8, rest);
    var b4 := PutPairs(r.pairs, b5);
    var b3 := PutNum(|r.pairs|, 8, b4);
    SmallFits(CLIENT_QUERY);
    NumRoundTrip(CLIENT_QUERY, 4, PutNum(r.startTs, 8, b3));
    NumRoundTrip(r.startTs, 8, b3);
    NumRoundTrip(|r.pairs|, 8, b4);
    PairsRoundTrip(r.pairs, b5);
    NumRoundTrip(r.returnNode, 8, rest);
  }

  lemma RequestLocal(r: Request, rest: bytes, more: bytes)
    ensures PutRequest(r, rest) + more == PutRequest(r, rest + more)
  {
    Local(Le(r.returnNode, 8), rest, more);
    var b5 := PutNum(r.returnNode, 8, rest);
    PairsLocal(r.pairs, b5, more);
    var b4 := PutPairs(r.pairs, b5);
    Local(Le(|r.pairs|, 8), b4, more);
    var b3 := PutNum(|r.pairs|, 8, b4);
    Local(Le(r.startTs, 8), b3, more);
    Local(Le(CLIENT_QUERY, 4), PutNum(r.startTs, 8, b3), more);
  }

  // ----- The requests of a proposal --------------------------------------------

  function PutBatch(entries: seq<(nat, Request)>, rest: bytes): bytes {
    if entries == [] then rest
    else PutNum(entries[0].0, 8, PutRequest(entries[0].1, PutBatch(entries[1..], rest)))
  }

  /** The nested request is decoded where it starts, and the pointer then moves on by
      the size the decoded request reports. */
  function TakeBatch(b: bytes, n: nat): Parse<seq<(nat, Request)>> {
    if n == 0 then Ok([], b)
    else
      var (index, b) :- TakeNum(b, 8);
      var (request, _) :- TakeRequest(b);
      if |b| < RequestSize(request) then Bad
      else
        var (entries, b) :- TakeBatch(b[RequestSize(request)..], n - 1);
        Ok([(index, request)] + entries, b)
  }

  function BatchSize(entries: seq<(nat, Request)>): nat {
    if entries == [] then 0 else RequestSize(entries[0].1) + BatchSize(entries[1..])
  }

  lemma {:induction false} BatchRoundTrip(entries: seq<(nat, Request)>, rest: bytes)
    requires forall e :: e in entries ==> Fits(e.0, 8) && RequestOk(e.1)
    ensures TakeBatch(PutBatch(entries, rest), |entries|) == Ok(entries, rest)
  {
    if entries != [] {
      var index, request, after := entries[0].0, entries[0].1, PutBatch(entries[1..], rest);
      BatchRoundTrip(entries[1..], rest);
      NumRoundTrip(index, 8, PutRequest(request, after));
      RequestRoundTrip(request, after);
      DropRequest(request, after);
      assert [(index, request)] + entries[1..] == entries;
    }
  }

  lemma {:induction false} BatchSizeIsExact(entries: seq<(nat, Request)>, rest: bytes)
    requires forall e :: e in entries ==> RequestOk(e.1)
    ensures |PutBatch(entries, rest)| == 8 * |entries| + BatchSize(entries) + |rest|
  {
    if entries != [] {
      BatchSizeIsExact(entries[1..], rest);
      RequestRoundTrip(entries[0].1, PutBatch(entries[1..], rest));
    }
  }

  lemma DropRequest(r: Request, rest: bytes)
    requires RequestOk(r)
    ensures |PutRequest(r, rest)| >= RequestSize(r) && PutRequest(r, rest)[RequestSize(r)..] == rest
  {
    RequestRoundTrip(r, []);
    RequestLocal(r, [], rest);
    assert [] + rest == rest;
  }

  lemma {:induction false} BatchLocal(entries: seq<(nat, Request)>, rest: bytes, more: bytes)
    ensures PutBatch(entries, rest) + more == PutBatch(entries, rest + more)
  {
    if entries != [] {
      var index, request, after := entries[0].0, entries[0].1, PutBatch(entries[1..], rest);
      BatchLocal(entries[1..], rest, more);
      RequestLocal(request, after, more);
      Local(Le(index, 8), PutRequest(request, after), more);
    }
  }

  // ----- Whole messages --------------------------------------------------------

  function PutShare(share: Option<bytes>, nonVote: bool, rest: bytes): bytes {
    PutFlag(share.None?, (if share.None? then [] else share.value) + PutFlag(nonVote, rest))
  }

  function PutBody(m: Message, rest: bytes): bytes {
    match m
    case Sync(_, claim, share, nonVote) => PutClaim(claim, PutShare(share, nonVote, rest))
    case Generic(_, claim) => PutClaim(claim, rest)
    case Proposal(_, view, entries, hash, batchSize) =>
      PutNum(view, 8, PutBatch(entries, PutText(hash, PutNum(batchSize, 4, rest))))
  }

  /** `copy_to_buf` of the three message classes. */
  function Put(m: Message, rest: bytes): bytes {
    PutHeader(Tag(m), m.header, PutBody(m, rest))
  }

  function TakeSync(h: Header, b: bytes): Parse<Message> {
    var (claim, b) :- TakeClaim(b);
    var (empty, b) :- TakeFlag(b);
    var (share, b) :- TakeRaw(b, if empty then 0 else SHARE);
    var (nonVote, b) :- TakeFlag(b);
    Ok(Sync(h, claim, if empty then None else Some(share), nonVote), b)
  }

  function TakeGeneric(h: Header, b: bytes): Parse<Message> {
    var (claim, b) :- TakeClaim(b);
    Ok(Generic(h, claim), b)
  }

  function TakeProposal(batch: nat, h: Header, b: bytes): Parse<Message> {
    var (view, b) :- TakeNum(b, 8);
    var (entries, b) :- TakeBatch(b, batch);
    var (hash, b) :- TakeText(b);
    var (batchSize, b) :- TakeNum(b, 4);
    Ok(Proposal(h, view, entries, hash, batchSize), b)
  }

  function TakeBody(batch: nat, tag: nat, h: Header, b: bytes): Parse<Message> {
    if tag == SYNC then TakeSync(h, b)
    else if tag == GENERIC then TakeGeneric(h, b)
    else if tag == PROPOSAL then TakeProposal(batch, h, b)
    else Bad
  }

  /** `Message::create_message` on a buffer and `copy_from_buf`; `batch` is the
      configured batch size. */
  function Take(batch: nat, b: bytes): Parse<Message> {
    var ((tag, header), b) :- TakeHeader(b);
    TakeBody(batch, tag, header, b)
  }

  /** `get_size` of the three message classes. */
  function Size(m: Message): nat {
    HeaderSize(m.header) +
    match m
    case Sync(_, claim, share, _) => ClaimSize(claim) + 1 + (if share.None? then 0 else SHARE) + 1
    case Generic(_, claim) => ClaimSize(claim)
    case Proposal(_, view, entries, hash, _) => 8 + 8 * |entries| + 8 + |hash| + BatchSize(entries) + 4
  }

  ghost predicate Sendable(batch: nat, m: Message) {
    && HeaderOk(m.header)
    && match m
       case Sync(_, claim, share, _) => ClaimOk(claim) && (share.Some? ==> |share.value| == SHARE)
       case Generic(_, claim) => ClaimOk(claim)
       case Proposal(_, view, entries, hash, batchSize) =>
         && Fits(view, 8) && Fits(|hash|, 8) && Fits(batchSize, 4) && |entries| == batch
         && (forall e :: e in entries ==> Fits(e.0, 8) && RequestOk(e.1))
  }

  /** What of a message is on the wire. */
  function OnWire(m: Message): Message {
    match m
    case Sync(h, claim, share, nonVote) => Sync(h.(force := false), OnWireClaim(claim), share, nonVote)
    case Generic(h, claim) => Generic(h.(force := false), OnWireClaim(claim))
    case Proposal(h, view, entries, hash, batchSize) =>
      Proposal(h.(force := false), view, entries, hash, batchSize)
  }

  lemma ShareRoundTrip(h: Header, claim: Claim, share: Option<bytes>, nonVote: bool, rest: bytes)
    requires ClaimOk(claim) && (share.Some? ==> |share.value| == SHARE)
    ensures TakeSync(h, PutClaim(claim, PutShare(share, nonVote, rest)))
         == Ok(Sync(h, OnWireClaim(claim), share, nonVote), rest)
  {
    var raw := if share.None? then [] else share.value;
    ClaimRoundTrip(claim, PutShare(share, nonVote, rest));
    FlagRoundTrip(share.None?, raw + PutFlag(nonVote, rest));
    RawRoundTrip(raw, PutFlag(nonVote, rest));
    FlagRoundTrip(nonVote, rest);
  }

  lemma GenericRoundTrip(h: Header, claim: Claim, rest: bytes)
    requires ClaimOk(claim)
    ensures TakeGeneric(h, PutClaim(claim, rest)) == Ok(Generic(h, OnWireClaim(claim)), rest)
  {
    ClaimRoundTrip(claim, rest);
  }

  lemma ProposalRoundTrip(batch: nat, m: Message, rest: bytes)
    requires m.Proposal? && Sendable(batch, m)
    ensures TakeProposal(batch, m.header,
              PutNum(m.view, 8, PutBatch(m.entries, PutText(m.hash, PutNum(m.batchSize, 4, rest))))) == Ok(m, rest)
  {
    var b4 := PutNum(m.batchSize, 4, rest);
    var b3 := PutText(m.hash, b4);
    NumRoundTrip(m.view, 8, PutBatch(m.entries, b3));
    BatchRoundTrip(m.entries, b3);
    TextRoundTrip(m.hash, b4);
    NumRoundTrip(m.batchSize, 4, rest);
  }

  lemma SyncBody(batch: nat, m: Message, rest: bytes)
    requires m.Sync? && Sendable(batch, m)
    ensures TakeBody(batch, SYNC, m.header.(force := false), PutBody(m, rest)) == Ok(OnWire(m), rest)
  {
    ShareRoundTrip(m.header.(force := false), m.claim, m.share, m.nonVote, rest);
  }

  lemma GenericBody(batch: nat, m: Message, rest: bytes)
    requires m.Generic? && Sendable(batch, m)
    ensures TakeBody(batch, GENERIC, m.header.(force := false), PutBody(m, rest)) == Ok(OnWire(m), rest)
  {
    GenericRoundTrip(m.header.(force := false), m.claim, rest);
  }

  lemma ProposalBody(batch: nat, m: Message, rest: bytes)
    requires m.Proposal? && Sendable(batch, m)
    ensures TakeBody(batch, PROPOSAL, m.header.(force := false), PutBody(m, rest)) == Ok(OnWire(m), rest)
  {
    ProposalRoundTrip(batch, OnWire(m), rest);
  }

  /** A message is read back from its own bytes alone: what follows them is left, and
      only the fields that do not travel are lost. */
  lemma DecodesOwnBytes(batch: nat, m: Message, rest: bytes)
    requires Sendable(batch, m)
    ensures Take(batch, Put(m, rest)) == Ok(OnWire(m), rest)
  {
    SmallFits(Tag(m));
    HeaderRoundTrip(Tag(m), m.header, PutBody(m, rest));
    match m {
      case Sync(_, _, _, _) => SyncBody(batch, m, rest);
      case Generic(_, _) => GenericBody(batch, m, rest);
      case Proposal(_, _, _, _, _) => ProposalBody(batch, m, rest);
    }
  }

  /** `get_size` counts exactly the bytes written, and the decoded copy reports the
      same: the assertions at the end of every copy function hold. */
  lemma SizeIsExact(batch: nat, m: Message, rest: bytes)
    requires Sendable(batch, m)
    ensures |Put(m, rest)| == Size(m) + |rest| && Size(OnWire(m)) == Size(m)
  {
    SmallFits(Tag(m));
    HeaderRoundTrip(Tag(m), m.header, PutBody(m, rest));
    BodySizeIsExact(batch, m, rest);
  }

  lemma BodySizeIsExact(batch: nat, m: Message, rest: bytes)
    requires Sendable(batch, m)
    ensures |PutBody(m, rest)| == Size(m) - HeaderSize(m.header) + |rest| && Size(OnWire(m)) == Size(m)
  {
    match m {
      case Sync(_, claim, share, nonVote) => ClaimSizeIsExact(claim, PutShare(share, nonVote, rest));
      case Generic(_, claim) => ClaimSizeIsExact(claim, rest);
      case Proposal(_, _, entries, hash, batchSize) =>
        BatchSizeIsExact(entries, PutText(hash, PutNum(batchSize, 4, rest)));
    }
  }

  lemma PutIsLocal(m: Message, rest: bytes, more: bytes)
    ensures Put(m, rest) + more == Put(m, rest + more)
  {
    BodyLocal(m, rest, more);
    HeaderLocal(Tag(m), m.header, PutBody(m, rest), more);
  }

  lemma BodyLocal(m: Message, rest: bytes, more: bytes)
    ensures PutBody(m, rest) + more == PutBody(m, rest + more)
  {
    match m {
      case Sync(_, claim, share, nonVote) =>
        var raw := if share.None? then [] else share.value;
        Local([if nonVote then 1 else 0], rest, more);
        Local(raw, PutFlag(nonVote, rest), more);
        Local([if share.None? then 1 else 0], raw + PutFlag(nonVote, rest), more);
        ClaimLocal(claim, PutShare(share, nonVote, rest), more);
      case Generic(_, claim) => ClaimLocal(claim, rest, more);
      case Proposal(_, view, entries, hash, batchSize) =>
        Local(Le(batchSize, 4), rest, more);
        var b4 := PutNum(batchSize, 4, rest);
        TextLocal(hash, b4, more);
        BatchLocal(entries, PutText(hash, b4), more);
        Local(Le(view, 8), PutBatch(entries, PutText(hash, b4)), more);
    }
  }

  // ----- Packets ---------------------------------------------------------------

  function Decoder(batch: nat): bytes -> Parse<Message> {
    b => Take(batch, b)
  }

  function PutAll(msgs: seq<Message>): bytes {
    Framing.PutAll(Put, msgs)
  }

  function OnWireAll(msgs: seq<Message>): seq<Message> {
    Framing.MapAll(OnWire, msgs)
  }

  function TotalSize(msgs: seq<Message>): nat {
    Framing.TotalSize(Size, msgs)
  }

  function Unpack(batch: nat, b: bytes, n: nat): Option<seq<Message>> {
    Framing.Unpack(Decoder(batch), Size, b, n)
  }

  /** One message leaves its pointer exactly at the next. */
  lemma NextStartsAfterSize(batch: nat, m: Message, rest: bytes)
    requires Sendable(batch, m)
    ensures |Put(m, rest)| == Size(m) + |rest| && Put(m, rest)[Size(m)..] == rest
  {
    SizeIsExact(batch, m, []);
    PutIsLocal(m, [], rest);
    assert [] + rest == rest;
  }

  lemma UnpackRoundTrip(batch: nat, msgs: seq<Message>)
    requires forall m :: m in msgs ==> Sendable(batch, m)
    ensures Unpack(batch, PutAll(msgs), |msgs|) == Some(OnWireAll(msgs))
    ensures |PutAll(msgs)| == TotalSize(msgs)
  {
    forall m, rest | m in msgs ensures Framing.Framed(Put, Decoder(batch), Size, OnWire, m, rest) {
      DecodesOwnBytes(batch, m, rest);
      SizeIsExact(batch, m, rest);
      NextStartsAfterSize(batch, m, rest);
    }
    Framing.RoundTrip(Put, Decoder(batch), Size, OnWire, msgs);
  }

  lemma FewEnough(batch: nat, msgs: seq<Message>)
    requires forall m :: m in msgs ==> Sendable(batch, m)
    ensures |PutAll(msgs)| >= |msgs|
  {
    UnpackRoundTrip(batch, msgs);
    Framing.AtLeastOneEach(Size, msgs);
  }

  /** `create_messages`, up to its assertions on the addresses. */
  method CreateMessages(batch: nat, self: nat, data: bytes) returns (r: Option<seq<Message>>)
    ensures r == ReadPacket(batch, self, data)
  {
    var dest := TakeNum(data, 4);
    if dest.Bad? {
      return None;
    }
    var from := TakeNum(dest.rest, 4);
    if from.Bad? {
      return None;
    }
    var count := TakeNum(from.rest, 4);
    if count.Bad? || dest.value != self || from.value == self {
      return None;
    }
    r := Framing.DecodeAll(Decoder(batch), Size, count.rest, count.value);
  }

  function ReadPacket(batch: nat, self: nat, data: bytes): Option<seq<Message>> {
    match TakeNum(data, 4)
    case Bad => None
    case Ok(dest, b) =>
      match TakeNum(b, 4)
      case Bad => None
      case Ok(from, b) =>
        match TakeNum(b, 4)
        case Bad => None
        case Ok(n, b) => if dest != self || from == self then None else Unpack(batch, b, n)
  }

  /** The round trip of a whole packet: the receiver gets the same messages in the same
      order, each from its own bytes. */
  lemma PacketRoundTrip(batch: nat, dest: nat, from: nat, msgs: seq<Message>)
    requires Fits(dest, 4) && Fits(from, 4) && Fits(|msgs|, 4) && dest != from
    requires forall m :: m in msgs ==> Sendable(batch, m)
    ensures ReadPacket(batch, dest, Framing.Packet(Put, dest, from, msgs)) == Some(OnWireAll(msgs))
    ensures |Framing.Packet(Put, dest, from, msgs)| == 12 + TotalSize(msgs)
  {
    var b3 := PutAll(msgs);
    var b2 := PutNum(|msgs|, 4, b3);
    NumRoundTrip(dest, 4, PutNum(from, 4, b2));
    NumRoundTrip(from, 4, b2);
    NumRoundTrip(|msgs|, 4, b3);
    UnpackRoundTrip(batch, msgs);
  }

  /** The deep copy that other send threads get is made by encoding and decoding. */
  method DeepCopy(batch: nat, m: Message) returns (copy: Message)
    requires Sendable(batch, m)
    ensures copy == OnWire(m)
  {
    DecodesOwnBytes(batch, m, []);
    copy := Take(batch, Put(m, [])).value;
  }
}
