/** The bounds on an agent's web access: how often it may fetch, how much of a body is read, and that
    the cost debited never exceeds what was authorised beforehand. */
module Egress {
  import opened Bytes

  // ---- The token bucket ----

  /** Instants are seconds on a clock. */
  datatype Bucket = Bucket(capacity: real, tokens: real, last: real)

  predicate Valid(b: Bucket) {
    b.capacity >= 1.0 && 0.0 <= b.tokens <= b.capacity
  }

  function Min(x: real, y: real): real { if x <= y then x else y }

  /** The wait since the last attempt, none if the clock reads earlier. */
  function Elapsed(b: Bucket, now: real): real {
    if now <= b.last then 0.0 else now - b.last
  }

  /** Tokens trickle in at `capacity` a minute and never exceed it. */
  function Refill(b: Bucket, now: real): Bucket {
    Bucket(b.capacity, Min(b.tokens + Elapsed(b, now) * (b.capacity / 60.0), b.capacity), now)
  }

  function Take(b: Bucket, now: real): (Bucket, bool) {
    var r := Refill(b, now);
    if r.tokens >= 1.0 then (r.(tokens := r.tokens - 1.0), true) else (r, false)
  }

  class TokenBucket {
    var capacity: real
    var tokens: real
    var perSec: real
    var last: real

    ghost predicate Consistent()
      reads this
    {
      perSec == capacity / 60.0 && Valid(View())
    }

    ghost function View(): Bucket
      reads this
    {
      Bucket(capacity, tokens, last)
    }

    constructor (ratePerMin: nat, now: real)
      ensures Consistent() && View() == Full(ratePerMin, now)
    {
      var cap := if ratePerMin == 0 then 1.0 else ratePerMin as real;
      capacity, tokens, perSec, last := cap, cap, cap / 60.0, now;
    }

    method TryTake(now: real) returns (allowed: bool)
      requires Consistent()
      modifies this
      ensures Consistent() && (View(), allowed) == Take(old(View()), now)
    {
      var elapsed := if now <= last then 0.0 else now - last;
      ghost var refilled := Refill(View(), now);
      GrowsBy(elapsed, perSec);
      assert elapsed * perSec == Elapsed(View(), now) * (capacity / 60.0);
      tokens := tokens + elapsed * perSec;
      if tokens > capacity {
        tokens := capacity;
      }
      last := now;
      assert View() == refilled;
      if tokens >= 1.0 {
        tokens := tokens - 1.0;
        return true;
      }
      return false;
    }
  }

  /** A fresh bucket is full; a rate of zero reads as one. */
  function Full(ratePerMin: nat, now: real): (b: Bucket)
    ensures Valid(b)
  {
    var cap := if ratePerMin == 0 then 1.0 else ratePerMin as real;
    Bucket(cap, cap, now)
  }

  lemma GrowsBy(x: real, y: real)
    requires x >= 0.0 && y >= 0.0
    ensures x * y >= 0.0
  {
  }

  lemma TakeKeeps(b: Bucket, now: real)
    requires Valid(b)
    ensures Valid(Take(b, now).0) && Take(b, now).0.last == now && Take(b, now).0.capacity == b.capacity
  {
    GrowsBy(Elapsed(b, now), b.capacity / 60.0);
  }

  /** The bucket after attempts at the given times. */
  function After(b: Bucket, times: seq<real>): Bucket
    decreases |times|
  {
    if times == [] then b else After(Take(b, times[0]).0, times[1..])
  }

  /** How many of the attempts were granted. */
  function Granted(b: Bucket, times: seq<real>): (n: nat)
    ensures n <= |times|
    decreases |times|
  {
    if times == [] then 0 else (if Take(b, times[0]).1 then 1 else 0) + Granted(Take(b, times[0]).0, times[1..])
  }

  ghost predicate Monotonic(from: real, times: seq<real>) {
    && (forall i :: 0 <= i < |times| ==> from <= times[i])
    && (forall i, j :: 0 <= i <= j < |times| ==> times[i] <= times[j])
  }

  function EndOf(from: real, times: seq<real>): real {
    if times == [] then from else times[|times| - 1]
  }

  /** The tokens that trickle in between two instants. */
  function Accrued(capacity: real, from: real, to: real): real {
    (to - from) * (capacity / 60.0)
  }

  lemma StepBound(b: Bucket, now: real)
    requires Valid(b) && b.last <= now
    ensures var (b', ok) := Take(b, now);
            (if ok then 1.0 else 0.0) + b'.tokens <= b.tokens + Accrued(b.capacity, b.last, now)
  {
  }

  lemma Stretch(capacity: real, a: real, b: real, c: real)
    ensures Accrued(capacity, a, b) + Accrued(capacity, b, c) == Accrued(capacity, a, c)
  {
    var rate := capacity / 60.0;
    Distribute(b - a, c - b, rate);
  }

  lemma Distribute(x: real, y: real, rate: real)
    ensures x * rate + y * rate == (x + y) * rate
  {
  }

  /** Every grant is paid for by a token that was there or has trickled in. */
  lemma {:induction false} GrantsArePaid(b: Bucket, times: seq<real>)
    requires Valid(b) && Monotonic(b.last, times)
    ensures Valid(After(b, times)) && After(b, times).capacity == b.capacity
    ensures Granted(b, times) as real + After(b, times).tokens
            <= b.tokens + Accrued(b.capacity, b.last, EndOf(b.last, times))
    decreases |times|
  {
    if times != [] {
      var b' := Take(b, times[0]).0;
      TakeKeeps(b, times[0]);
      StepBound(b, times[0]);
      Stretch(b.capacity, b.last, times[0], EndOf(b.last, times));
      hide Take;
      hide Accrued;
      GrantsArePaid(b', times[1..]);
    } else {
      assert Accrued(b.capacity, b.last, b.last) == 0.0;
    }
  }

  /** The first attempt of a window finds at most a full bucket, however long the pause before it. */
  lemma WindowStartsFull(b: Bucket, times: seq<real>)
    requires Valid(b) && times != [] && Monotonic(b.last, times)
    ensures var r := Refill(b, times[0]);
            Valid(r) && Monotonic(r.last, times) && Granted(r, times) == Granted(b, times)
  {
    GrowsBy(Elapsed(b, times[0]), b.capacity / 60.0);
  }

  lemma {:induction false} AfterPrefix(b: Bucket, times: seq<real>, i: nat)
    requires Valid(b) && Monotonic(b.last, times) && i < |times|
    ensures var c := After(b, times[..i]); Valid(c) && c.capacity == b.capacity && Monotonic(c.last, times[i..])
    decreases i
  {
    if i > 0 {
      TakeKeeps(b, times[0]);
      var c := Take(b, times[0]).0;
      assert times[..i][1..] == times[1..][..i - 1] && times[i..] == times[1..][i - 1..];
      AfterPrefix(c, times[1..], i - 1);
    } else {
      assert times[0..] == times;
    }
  }

  /** The rate bound: on a clock that never runs backwards, the attempts from the `i`-th up to before the
      `j`-th, the last of them `d` seconds after the first, are granted at most `capacity + d * capacity / 60`
      times, whatever came before. */
  lemma RateBound(ratePerMin: nat, start: real, times: seq<real>, i: nat, j: nat)
    requires Monotonic(start, times) && i < j <= |times|
    ensures var b := Full(ratePerMin, start);
            Granted(After(b, times[..i]), times[i..j]) as real
            <= b.capacity + Accrued(b.capacity, times[i], times[j - 1])
  {
    var b := Full(ratePerMin, start);
    AfterPrefix(b, times, i);
    var c := After(b, times[..i]);
    var window := times[i..j];
    assert forall k :: 0 <= k < |window| ==> window[k] == times[i..][k];
    WindowStartsFull(c, window);
    assert Refill(c, window[0]).last == times[i] && Refill(c, window[0]).capacity == b.capacity;
    hide Accrued;
    hide After;
    hide Granted;
    hide Full;
    GrantsArePaid(Refill(c, window[0]), window);
  }

  lemma OneToken(d: real, cap: real)
    requires cap >= 1.0 && d >= 60.0 / cap
    ensures d * (cap / 60.0) >= 1.0
  {
    var k := cap / 60.0;
    assert (60.0 / cap) * k == 1.0;
    GrowsBy(d - 60.0 / cap, k);
    assert (d - 60.0 / cap) * k == d * k - (60.0 / cap) * k;
  }

  /** Nobody is starved: an attempt made at least `60 / capacity` seconds after the previous one is granted. */
  lemma PatientIsGranted(b: Bucket, now: real)
    requires Valid(b) && now - b.last >= 60.0 / b.capacity
    ensures Take(b, now).1
  {
    OneToken(now - b.last, b.capacity);
  }

  /** The books of an attempt that finds room for all that trickled in: a token is taken when there is one, the rest
      stays, fractions included. */
  lemma AttemptBooks(b: Bucket, now: real)
    requires Valid(b) && b.last <= now
    requires var held := b.tokens + (now - b.last) * (b.capacity / 60.0); held <= b.capacity
    ensures var held := b.tokens + (now - b.last) * (b.capacity / 60.0);
            && (Take(b, now).1 <==> held >= 1.0)
            && Take(b, now).0 == Bucket(b.capacity, held - (if held >= 1.0 then 1.0 else 0.0), now)
  {
  }

  /** `n` attempts at one instant. */
  function AtOnce(now: real, n: nat): seq<real> {
    seq(n, _ => now)
  }

  lemma TakeAtOnce(cap: nat, left: nat, now: real)
    requires left <= cap && cap >= 1
    ensures Take(Bucket(cap as real, left as real, now), now) ==
              (Bucket(cap as real, if left > 0 then (left - 1) as real else 0.0, now), left > 0)
  {
    assert 0.0 * (cap as real / 60.0) == 0.0;
  }

  lemma {:induction false} BurstFrom(cap: nat, left: nat, now: real, n: nat)
    requires left <= cap && cap >= 1
    ensures Granted(Bucket(cap as real, left as real, now), AtOnce(now, n)) == if n <= left then n else left
    decreases n
  {
    if n > 0 {
      TakeAtOnce(cap, left, now);
      hide Take;
      assert AtOnce(now, n)[1..] == AtOnce(now, n - 1);
      BurstFrom(cap, if left > 0 then left - 1 else 0, now, n - 1);
    }
  }

  /** A fresh bucket grants a burst up to its rate: of `n` attempts at one instant the first `ratePerMin`, at least
      one, and no more. */
  lemma BurstIsGranted(ratePerMin: nat, now: real, n: nat)
    ensures var cap := if ratePerMin == 0 then 1 else ratePerMin;
            Granted(Full(ratePerMin, now), AtOnce(now, n)) == if n <= cap then n else cap
  {
    var cap := if ratePerMin == 0 then 1 else ratePerMin;
    BurstFrom(cap, cap, now, n);
  }

  // ---- The bounded body ----

  /** What reading the next piece of a response yields. */
  datatype Read = Chunk(bytes: Str) | End | Broken

  /** The bytes a stream delivers before it ends, cleanly or not. */
  function Body(stream: seq<Read>): Str {
    if stream == [] || !stream[0].Chunk? then [] else stream[0].bytes + Body(stream[1..])
  }

  function Clip(s: Str, cap: nat): (r: Str)
    ensures |r| <= cap && r <= s
  {
    if |s| <= cap then s else s[..cap]
  }

  lemma BodyFrom(stream: seq<Read>, at: nat)
    requires at < |stream|
    ensures Body(stream[at..]) == if stream[at].Chunk? then stream[at].bytes + Body(stream[at + 1..]) else []
  {
    assert stream[at..][1..] == stream[at + 1..];
  }

  lemma ClipSplits(kept: Str, chunk: Str, rest: Str, cap: nat)
    requires |kept| <= cap < |kept| + |chunk|
    ensures Clip(kept + (chunk + rest), cap) == kept + chunk[..cap - |kept|]
  {
  }

  lemma Join(kept: Str, chunk: Str, rest: Str)
    ensures kept + (chunk + rest) == (kept + chunk) + rest
  {
  }

  /** The bytes kept are the first `cap` of what the stream delivers, and truncation is reported exactly
      when there were more, however the stream was cut into chunks. */
  method ReadBounded(stream: seq<Read>, cap: nat) returns (body: Str, truncated: bool)
    ensures body == Clip(Body(stream), cap)
    ensures truncated <==> |Body(stream)| > cap
  {
    body, truncated := [], false;
    var at := 0;
    assert stream[0..] == stream && Body(stream[|stream|..]) == [];
    hide Body;
    while at < |stream|
      invariant 0 <= at <= |stream| && |body| <= cap && !truncated
      invariant Body(stream) == body + Body(stream[at..])
      decreases |stream| - at
    {
      BodyFrom(stream, at);
      if !stream[at].Chunk? {
        return;
      }
      var chunk, rest := stream[at].bytes, Body(stream[at + 1..]);
      if |body| + |chunk| > cap {
        var take := cap - |body|;
        ClipSplits(body, chunk, rest, cap);
        body := body + chunk[..take];
        truncated := true;
        return;
      }
      Join(body, chunk, rest);
      body := body + chunk;
      at := at + 1;
    }
  }

  // ---- The cost ----

  datatype Policy = Policy(maxResponseBytes: nat, satsPerRequest: nat, satsPerKib: nat)

  function Saturate(n: nat): nat { if n < TWO_64 then n else TWO_64 - 1 }

  function Kib(len: nat): nat { (len + 1023) / 1024 }

  /** The floor plus the started KiBs, in saturating 64-bit arithmetic. */
  function Meter(p: Policy, len: nat): nat {
    Saturate(p.satsPerRequest + Saturate(Kib(len) * p.satsPerKib))
  }

  function WorstCaseCost(p: Policy): nat {
    Meter(p, p.maxResponseBytes)
  }

  /** A caller may lower the host's cap, never raise it; zero asks for the default. */
  function EffectiveCap(p: Policy, caller: nat): (cap: nat)
    ensures cap <= p.maxResponseBytes && (caller != 0 ==> cap <= caller)
    ensures cap == caller || cap == p.maxResponseBytes
  {
    if caller == 0 || caller > p.maxResponseBytes then p.maxResponseBytes else caller
  }

  lemma MoreCostsMore(x: nat, y: nat, k: nat)
    requires x <= y
    ensures x * k <= y * k
  {
  }

  lemma MeterMonotonic(p: Policy, x: nat, y: nat)
    requires x <= y
    ensures Meter(p, x) <= Meter(p, y)
  {
    MoreCostsMore(Kib(x), Kib(y), p.satsPerKib);
  }

  /** One fetch: the debit is the metered cost of the bytes kept, clamped to what was reserved. */
  method Perform(p: Policy, stream: seq<Read>, callerCap: nat, capSats: nat) returns (body: Str, truncated: bool,
        cost: nat)
    ensures body == Clip(Body(stream), EffectiveCap(p, callerCap))
    ensures truncated <==> |Body(stream)| > EffectiveCap(p, callerCap)
    ensures cost <= capSats && cost <= WorstCaseCost(p)
    ensures capSats >= WorstCaseCost(p) ==> cost == Meter(p, |body|)
  {
    var cap := EffectiveCap(p, callerCap);
    body, truncated := ReadBounded(stream, cap);
    MeterMonotonic(p, |body|, p.maxResponseBytes);
    cost := Meter(p, |body|);
    if cost > capSats {
      cost := capSats;
    }
  }

  /** The cost of `len` bytes: the floor, plus the price of each KiB started, capped at the greatest 64-bit number. */
  lemma MeterIs(p: Policy, len: nat, kibs: nat)
    requires len <= 1024 * kibs < len + 1024
    requires p.satsPerRequest < TWO_64
    ensures var exact := p.satsPerRequest + kibs * p.satsPerKib;
            Meter(p, len) == if exact < TWO_64 then exact else TWO_64 - 1
  {
    assert Kib(len) == kibs;
  }

  /** For any server, chunking and caller cap the metered cost stays within the worst case; and where the
      worst case fits 64 bits it is the floor plus the started KiBs of the bytes kept, never a saturated one. */
  lemma WorstCaseCoversEveryFetch(p: Policy, stream: seq<Read>, callerCap: nat, kibs: nat, most: nat)
    requires p.maxResponseBytes <= 1024 * most < p.maxResponseBytes + 1024
    requires var kept := |Clip(Body(stream), EffectiveCap(p, callerCap))|; kept <= 1024 * kibs < kept + 1024
    ensures var kept := |Clip(Body(stream), EffectiveCap(p, callerCap))|;
            Meter(p, kept) <= WorstCaseCost(p) &&
            (p.satsPerRequest + most * p.satsPerKib < TWO_64 ==>
               Meter(p, kept) == p.satsPerRequest + kibs * p.satsPerKib)
  {
    assert Kib(p.maxResponseBytes) == most;
    assert Kib(|Clip(Body(stream), EffectiveCap(p, callerCap))|) == kibs;
    var kept := |Clip(Body(stream), EffectiveCap(p, callerCap))|;
    MeterMonotonic(p, kept, p.maxResponseBytes);
    MoreCostsMore(Kib(kept), Kib(p.maxResponseBytes), p.satsPerKib);
  }
}
