/** Agent memory on relays: the frame an engram seals, and the reconcile that picks one head per address
    out of relays that have seen different histories. */
module Engram {
  import opened Bytes

  // ---- The frame ----

  const FRAME_LIVE: byte := 1
  const FRAME_TOMBSTONE: byte := 0
  const MAX_SLUG: nat := 65535

  /** The slug is the bytes of a string, the value is raw. */
  datatype Frame = Frame(tombstone: bool, slug: Str, value: Str)

  datatype FrameError = TooShort | UnknownMarker | SlugTruncated | SlugNotUtf8

  function SlugLen(f: Frame): (n: nat)
    ensures n <= MAX_SLUG && n <= |f.slug|
  {
    if |f.slug| <= MAX_SLUG then |f.slug| else MAX_SLUG
  }

  /** Marker, slug length as two big-endian bytes, slug, value; an oversized slug is cut. */
  function Encoded(f: Frame): Str {
    [if f.tombstone then FRAME_TOMBSTONE else FRAME_LIVE] + BigEndian(SlugLen(f), 2) + f.slug[..SlugLen(f)] + f.value
  }

  method Encode(f: Frame) returns (out: Str)
    ensures out == Encoded(f)
  {
    out := [if f.tombstone then FRAME_TOMBSTONE else FRAME_LIVE];
    var slugLen := if |f.slug| <= MAX_SLUG then |f.slug| else MAX_SLUG;
    out := out + BigEndian(slugLen, 2);
    out := out + f.slug[..slugLen];
    out := out + f.value;
  }

  function Decode(utf8: Str -> bool, bytes: Str): Result<Frame, FrameError> {
    if |bytes| < 3 then Err(TooShort)
    else if bytes[0] != FRAME_LIVE && bytes[0] != FRAME_TOMBSTONE then Err(UnknownMarker)
    else
      var end := 3 + 256 * bytes[1] as nat + bytes[2] as nat;
      if |bytes| < end then Err(SlugTruncated)
      else if !utf8(bytes[3..end]) then Err(SlugNotUtf8)
      else Ok(Frame(bytes[0] == FRAME_TOMBSTONE, bytes[3..end], bytes[end..]))
  }

  lemma TwoBytes(n: nat)
    requires n <= MAX_SLUG
    ensures var s := BigEndian(n, 2);
              s == [(n / 256) as byte, (n % 256) as byte] && 256 * s[0] as nat + s[1] as nat == n
  {
    assert BigEndian(n / 256, 1) == BigEndian(n / 256 / 256, 0) + [(n / 256 % 256) as byte];
  }

  /** The layout: 0 for a tombstone and 1 otherwise, two big-endian bytes of slug length, the slug cut at 65535
      bytes, the value. */
  lemma EncodedParts(f: Frame)
    ensures var b, n := Encoded(f), if |f.slug| < 65536 then |f.slug| else 65535;
            && n == SlugLen(f) && |b| == 3 + n + |f.value| && b[0] == (if f.tombstone then 0 else 1)
            && 256 * b[1] as nat + b[2] as nat == n
            && b[3..3 + n] == f.slug[..n] && b[3 + n..] == f.value
  {
    TwoBytes(SlugLen(f));
    var len := BigEndian(SlugLen(f), 2);
    hide BigEndian;
    var b := Encoded(f);
    assert b[1] == len[0] && b[2] == len[1];
  }

  /** What decoding an encoded frame gives: the frame, with its slug cut at 65535 bytes. */
  lemma DecodeEncode(utf8: Str -> bool, f: Frame)
    ensures var kept := f.slug[..SlugLen(f)];
            Decode(utf8, Encoded(f)) == if utf8(kept) then Ok(f.(slug := kept)) else Err(SlugNotUtf8)
  {
    EncodedParts(f);
    hide Encoded;
  }

  /** The round trip completes exactly for the frames whose slug needs no cut. */
  lemma RoundTripIff(utf8: Str -> bool, f: Frame)
    requires utf8(f.slug)
    ensures Decode(utf8, Encoded(f)) == Ok(f) <==> |f.slug| <= MAX_SLUG
  {
    DecodeEncode(utf8, f);
    assert f.slug[..|f.slug|] == f.slug;
    hide Encoded;
    hide Decode;
  }

  /** Nothing decodes but what encoding writes: a decoded frame re-encodes to the very same bytes. */
  lemma EncodeDecode(utf8: Str -> bool, bytes: Str)
    requires Decode(utf8, bytes).Ok?
    ensures Encoded(Decode(utf8, bytes).value) == bytes
  {
    var f := Decode(utf8, bytes).value;
    var n := 256 * bytes[1] as nat + bytes[2] as nat;
    assert |f.slug| == n && f.slug[..n] == f.slug;
    TwoBytes(n);
    Digits(bytes[1] as nat, bytes[2] as nat);
    hide BigEndian;
    assert bytes == bytes[..1] + bytes[1..3] + bytes[3..3 + n] + bytes[3 + n..];
    assert bytes[1..3] == [bytes[1], bytes[2]];
    assert bytes[..1] == [bytes[0]];
  }

  lemma Digits(hi: nat, lo: nat)
    requires hi < 256 && lo < 256
    ensures (256 * hi + lo) / 256 == hi && (256 * hi + lo) % 256 == lo
  {
  }

  // ---- Last writer wins ----

  /** An event at an address; the id stands for the hash of everything else about it. */
  datatype Event = Event(addr: Str, createdAt: nat, id: nat)

  /** The later event wins; of two from one second, the lower id. */
  predicate Beats(a: Event, b: Event) {
    a.createdAt > b.createdAt || (a.createdAt == b.createdAt && a.id < b.id)
  }

  /** The maximum as an iterator folds it: the later of two equals is kept. */
  function Best(best: Event, rest: seq<Event>): Event
    decreases |rest|
  {
    if rest == [] then best else Best(if Beats(best, rest[0]) then best else rest[0], rest[1..])
  }

  function LwwHead(events: seq<Event>): Option<Event> {
    if events == [] then None else Some(Best(events[0], events[1..]))
  }

  ghost predicate IsHead(h: Event, events: seq<Event>) {
    h in events && forall e :: e in events ==> !Beats(e, h)
  }

  lemma {:induction false} BestIsHead(best: Event, rest: seq<Event>)
    ensures IsHead(Best(best, rest), [best] + rest)
    decreases |rest|
  {
    if rest != [] {
      var next := if Beats(best, rest[0]) then best else rest[0];
      BestIsHead(next, rest[1..]);
      assert [best] + rest == [best, rest[0]] + rest[1..];
      assert rest[0] in rest;
      var h := Best(next, rest[1..]);
      assert h in [next] + rest[1..];
      assert next in [next] + rest[1..];
      forall e | e in [best] + rest ensures !Beats(e, h) {
        assert e == best || e == rest[0] || e in [next] + rest[1..];
      }
    }
  }

  /** The fold picks a member; none was created later, and of those created with it none has a lower id. */
  lemma HeadIs(events: seq<Event>)
    requires events != []
    ensures LwwHead(events).Some? && IsHead(LwwHead(events).value, events)
    ensures var h := LwwHead(events).value;
            h in events && forall e :: e in events ==>
              e.createdAt <= h.createdAt && (e.createdAt == h.createdAt ==> h.id <= e.id)
  {
    BestIsHead(events[0], events[1..]);
    assert events == [events[0]] + events[1..];
  }

  // ---- Relays ----

  /** A relay keeps one event per address, replacing it by one that beats it. */
  function Deliver(store: map<Str, Event>, e: Event): map<Str, Event> {
    if e.addr in store && !Beats(e, store[e.addr]) then store else store[e.addr := e]
  }

  function Store(delivered: seq<Event>): map<Str, Event> {
    if delivered == [] then map[] else Deliver(Store(delivered[..|delivered| - 1]), delivered[|delivered| - 1])
  }

  /** `h` is the best of the events delivered for address `a`. */
  ghost predicate IsWinner(h: Event, a: Str, delivered: seq<Event>) {
    h in delivered && h.addr == a && forall e :: e in delivered && e.addr == a ==> !Beats(e, h)
  }

  lemma {:induction false} StoreHoldsWinner(delivered: seq<Event>, a: Str)
    ensures a in Store(delivered) <==> exists e :: e in delivered && e.addr == a
    ensures a in Store(delivered) ==> IsWinner(Store(delivered)[a], a, delivered)
  {
    if delivered != [] {
      var n := |delivered| - 1;
      var before, last := delivered[..n], delivered[n];
      StoreHoldsWinner(before, a);
      assert delivered == before + [last];
      hide Store;
      StoreSnoc(before, last);
    }
  }

  lemma StoreSnoc(before: seq<Event>, last: Event)
    ensures Store(before + [last]) == Deliver(Store(before), last)
  {
    assert (before + [last])[..|before|] == before;
  }

  /** `union` lists what the relays hold at `a`, in any order and with any repetition. */
  ghost predicate Unions(union: seq<Event>, relays: seq<seq<Event>>, a: Str) {
    && (forall e :: e in union ==> exists r :: r in relays && a in Store(r) && Store(r)[a] == e)
    && (forall r :: r in relays && a in Store(r) ==> Store(r)[a] in union)
  }

  /** `all` lists every event for `a` that any relay was ever delivered. */
  ghost predicate Everything(all: seq<Event>, relays: seq<seq<Event>>, a: Str) {
    && (forall e :: e in all ==> e.addr == a && exists r :: r in relays && e in r)
    && (forall r, e :: r in relays && e in r && e.addr == a ==> e in all)
  }

  /** Convergence: whatever each relay was delivered, in whatever order and however often, the head of
      what they still hold is the head of everything delivered to any of them. */
  lemma Converges(relays: seq<seq<Event>>, union: seq<Event>, all: seq<Event>, a: Str)
    requires Unions(union, relays, a) && Everything(all, relays, a)
    ensures LwwHead(union) == LwwHead(all)
  {
    forall r | r in relays ensures a in Store(r) ==> IsWinner(Store(r)[a], a, r) && Store(r)[a] in all {
      StoreHoldsWinner(r, a);
    }
    assert forall e :: e in union ==> e in all;
    assert union != [] ==> union[0] in all;
    if all != [] {
      HeadIs(all);
      var h := LwwHead(all).value;
      WinnerIsUnioned(relays, union, all, a, h);
      HeadIs(union);
      var u := LwwHead(union).value;
      assert u in all;
      assert !Beats(h, u) && !Beats(u, h);
    }
  }

  /** The best event of all survives wherever it was delivered. */
  lemma WinnerIsUnioned(relays: seq<seq<Event>>, union: seq<Event>, all: seq<Event>, a: Str, h: Event)
    requires Unions(union, relays, a) && Everything(all, relays, a) && IsHead(h, all)
    ensures h in union
  {
    var r :| r in relays && h in r;
    StoreHoldsWinner(r, a);
    var w := Store(r)[a];
    assert w in all && !Beats(w, h) && !Beats(h, w);
  }

  // ---- Reading one's own writes ----

  lemma Overlap(n: nat, acked: set<nat>, read: set<nat>)
    requires (forall i :: i in acked ==> i < n) && (forall i :: i in read ==> i < n)
    requires |acked| + |read| > n
    ensures exists i :: i in acked && i in read
  {
    var range := Range(n);
    Subset(acked + read, range);
    assert |acked + read| + |acked * read| == |acked| + |read|;
    var i :| i in acked * read;
  }

  /** The numbers below `n`. */
  function Range(n: nat): (s: set<nat>)
    ensures |s| == n && forall i: nat :: i in s <==> i < n
  {
    if n == 0 then {} else Range(n - 1) + {n - 1}
  }

  lemma {:induction false} Subset<T>(s: set<T>, t: set<T>)
    requires s <= t
    ensures |s| <= |t|
    decreases |s|
  {
    if s != {} {
      var x :| x in s;
      Subset(s - {x}, t - {x});
    }
  }

  /** A write acknowledged by enough relays cannot be missed: if the relays that acknowledged it and the
      relays that answer a read outnumber the relay set, the read's head is that write or one that beats it. */
  lemma ReadsTheWrite(relays: seq<seq<Event>>, acked: set<nat>, read: set<nat>, answers: seq<seq<Event>>,
        union: seq<Event>, w: Event)
    requires (forall i :: i in acked ==> i < |relays| && w in relays[i])
             && (forall i :: i in read ==> i < |relays| && relays[i] in answers)
    requires |acked| + |read| > |relays|
    requires Unions(union, answers, w.addr)
    ensures LwwHead(union).Some? && !Beats(w, LwwHead(union).value)
  {
    Overlap(|relays|, acked, read);
    var i :| i in acked && i in read;
    var r := relays[i];
    StoreHoldsWinner(r, w.addr);
    var held := Store(r)[w.addr];
    assert held in union;
    HeadIs(union);
    var h := LwwHead(union).value;
    assert !Beats(w, held) && !Beats(held, h);
  }
}
