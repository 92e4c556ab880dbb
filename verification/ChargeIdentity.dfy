/** The content-addressed identity of an inbound charge: which bytes are hashed, and why two
    requests share a charge key only when the hash itself collides. */
module ChargeIdentity {
  import opened Bytes

  /** The intrinsic, reboot-stable fields of an inbound request. */
  datatype Identity = Identity(correlationId: Str, sourcePubkey: Str, createdAt: nat, payload: Str)

  /** Lengths are `usize` values and the timestamp is a `u64`. */
  predicate Representable(r: Identity) {
    && |r.correlationId| < TWO_64
    && |r.sourcePubkey| < TWO_64
    && r.createdAt < TWO_64
    && |r.payload| < TWO_64
  }

  /** A variable-length field: its length as 8 little-endian bytes, then its bytes. */
  function Prefixed(s: Str): Str {
    LittleEndian(|s|, 8) + s
  }

  /** The bytes that are hashed. */
  function Encode(r: Identity): Str {
    Prefixed(r.correlationId) + Prefixed(r.sourcePubkey) + LittleEndian(r.createdAt, 8) + Prefixed(r.payload)
  }

  /** The buffer the source fills field by field is exactly the encoding. */
  method InboundChargeIdentity(hash: Str -> Str, r: Identity) returns (buf: Str, digest: Str)
    requires Representable(r)
    ensures buf == Encode(r)
    ensures digest == hash(Encode(r))
  {
    buf := LittleEndian(|r.correlationId|, 8);
    buf := buf + r.correlationId;
    buf := buf + LittleEndian(|r.sourcePubkey|, 8);
    buf := buf + r.sourcePubkey;
    buf := buf + LittleEndian(r.createdAt, 8);
    buf := buf + LittleEndian(|r.payload|, 8);
    buf := buf + r.payload;
    assert buf == Encode(r);
    digest := hash(buf);
  }

  /** A length-prefixed field can be cut off the front of a buffer in only one way. */
  lemma PrefixedSplits(a: Str, b: Str, restA: Str, restB: Str)
    requires |a| < TWO_64 && |b| < TWO_64
    requires Prefixed(a) + restA == Prefixed(b) + restB
    ensures a == b && restA == restB
  {
    var s, t := Prefixed(a) + restA, Prefixed(b) + restB;
    assert s[..8] == LittleEndian(|a|, 8) && t[..8] == LittleEndian(|b|, 8);
    Pow256Of8();
    LittleEndianInjective(|a|, |b|, 8);
    assert s[8..8 + |a|] == a && t[8..8 + |b|] == b;
    assert s[8 + |a|..] == restA && t[8 + |b|..] == restB;
  }

  /** The same for the fixed-width timestamp. */
  lemma TimestampSplits(a: nat, b: nat, restA: Str, restB: Str)
    requires a < TWO_64 && b < TWO_64
    requires LittleEndian(a, 8) + restA == LittleEndian(b, 8) + restB
    ensures a == b && restA == restB
  {
    var s, t := LittleEndian(a, 8) + restA, LittleEndian(b, 8) + restB;
    assert s[..8] == LittleEndian(a, 8) && t[..8] == LittleEndian(b, 8);
    Pow256Of8();
    LittleEndianInjective(a, b, 8);
    assert s[8..] == restA && t[8..] == restB;
  }

  /** The encoding after its first field. */
  function Tail1(r: Identity): Str {
    Prefixed(r.sourcePubkey) + Tail2(r)
  }

  function Tail2(r: Identity): Str {
    LittleEndian(r.createdAt, 8) + Prefixed(r.payload)
  }

  lemma EncodeNested(r: Identity)
    ensures Encode(r) == Prefixed(r.correlationId) + Tail1(r)
  {
    hide Prefixed;
    hide LittleEndian;
  }

  lemma PayloadInjective(a: Str, b: Str)
    requires |a| < TWO_64 && |b| < TWO_64
    requires Prefixed(a) == Prefixed(b)
    ensures a == b
  {
    assert Prefixed(a) + [] == Prefixed(a) && Prefixed(b) + [] == Prefixed(b);
    PrefixedSplits(a, b, [], []);
  }

  /** Requests of arbitrary lengths have equal encodings only if they are equal. */
  lemma EncodeInjective(p: Identity, q: Identity)
    requires Representable(p) && Representable(q)
    requires Encode(p) == Encode(q)
    ensures p == q
  {
    EncodeNested(p);
    EncodeNested(q);
    hide Prefixed;
    hide LittleEndian;
    hide Encode;
    PrefixedSplits(p.correlationId, q.correlationId, Tail1(p), Tail1(q));
    PrefixedSplits(p.sourcePubkey, q.sourcePubkey, Tail2(p), Tail2(q));
    TimestampSplits(p.createdAt, q.createdAt, Prefixed(p.payload), Prefixed(q.payload));
    PayloadInjective(p.payload, q.payload);
  }

  /** Two different requests that share a charge key are a hash collision: their encodings are two different
      byte strings with one digest. Nothing else enters the key, neither a tick number nor a reboot. */
  lemma SharedKeyIsCollision(hash: Str -> Str, p: Identity, q: Identity)
    requires Representable(p) && Representable(q)
    requires p != q && hash(Encode(p)) == hash(Encode(q))
    ensures Encode(p) != Encode(q) && hash(Encode(p)) == hash(Encode(q))
  {
    if Encode(p) == Encode(q) {
      EncodeInjective(p, q);
    }
  }
}
