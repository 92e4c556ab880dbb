/** The attested median: which value it is, how many feeds must lie to move it, and when an answer
    carries a price at all. */
module Median {
  import opened Bytes
  import opened OracleModel

  // ---- The median ----

  function Insert(x: real, s: seq<real>): (r: seq<real>)
    ensures |r| == |s| + 1
  {
    if s == [] || x <= s[0] then [x] + s else [s[0]] + Insert(x, s[1..])
  }

  /** The list in ascending order. */
  function Sorted(s: seq<real>): (r: seq<real>)
    ensures |r| == |s|
  {
    if s == [] then [] else Insert(s[0], Sorted(s[1..]))
  }

  /** The middle of the sorted list; the mean of the two middle values when the count is even. */
  function MedianPrice(prices: seq<real>): (m: Option<real>)
    ensures m.Some? <==> prices != []
  {
    if prices == [] then None
    else
      var s, n := Sorted(prices), |prices|;
      Some(if n % 2 == 1 then s[n / 2] else (s[n / 2 - 1] + s[n / 2]) / 2.0)
  }

  ghost predicate Ordered(s: seq<real>) {
    forall i, j :: 0 <= i <= j < |s| ==> s[i] <= s[j]
  }

  lemma {:induction false} InsertKeeps(x: real, s: seq<real>)
    ensures multiset(Insert(x, s)) == multiset(s) + multiset{x}
  {
    if s != [] && s[0] < x {
      InsertKeeps(x, s[1..]);
      assert s == [s[0]] + s[1..];
    } else {
      assert Insert(x, s) == [x] + s;
    }
  }

  lemma {:induction false} InsertOrdered(x: real, s: seq<real>)
    requires Ordered(s)
    ensures Ordered(Insert(x, s))
  {
    if s != [] && s[0] < x {
      InsertOrdered(x, s[1..]);
      InsertKeeps(x, s[1..]);
      OrderedCons(s[0], Insert(x, s[1..]), x, s[1..]);
    }
  }

  lemma OrderedCons(least: real, t: seq<real>, x: real, s: seq<real>)
    requires Ordered(t) && multiset(t) == multiset(s) + multiset{x}
    requires least <= x && forall i :: 0 <= i < |s| ==> least <= s[i]
    ensures Ordered([least] + t)
  {
    forall i | 0 <= i < |t| ensures least <= t[i] {
      assert t[i] in multiset(t);
      assert t[i] == x || t[i] in s;
    }
  }

  /** Sorting orders the list and neither loses, adds nor changes a price. */
  lemma {:induction false} SortedIs(s: seq<real>)
    ensures Ordered(Sorted(s)) && multiset(Sorted(s)) == multiset(s)
  {
    if s != [] {
      assert s == [s[0]] + s[1..];
      SortedIs(s[1..]);
      InsertOrdered(s[0], Sorted(s[1..]));
      InsertKeeps(s[0], Sorted(s[1..]));
    }
  }

  // ---- Counting ----

  function Count(s: seq<real>, p: real -> bool): (n: nat)
    ensures n <= |s|
  {
    if s == [] then 0 else (if p(s[0]) then 1 else 0) + Count(s[1..], p)
  }

  lemma {:induction false} CountInsert(x: real, s: seq<real>, p: real -> bool)
    ensures Count(Insert(x, s), p) == Count(s, p) + (if p(x) then 1 else 0)
  {
    var r := Insert(x, s);
    if s == [] || x <= s[0] {
      assert r[1..] == s;
    } else {
      assert r[1..] == Insert(x, s[1..]);
      CountInsert(x, s[1..], p);
    }
  }

  lemma {:induction false} CountSorted(s: seq<real>, p: real -> bool)
    ensures Count(Sorted(s), p) == Count(s, p)
  {
    if s != [] {
      CountSorted(s[1..], p);
      CountInsert(s[0], Sorted(s[1..]), p);
    }
  }

  /** What holds nowhere from `k` on holds at most `k` times, and dually. */
  lemma {:induction false} CountBefore(s: seq<real>, p: real -> bool, k: nat)
    requires forall i :: k <= i < |s| ==> !p(s[i])
    ensures Count(s, p) <= k
  {
    if s != [] {
      CountBefore(s[1..], p, if k == 0 then 0 else k - 1);
    }
  }

  lemma {:induction false} CountFrom(s: seq<real>, p: real -> bool, k: nat)
    requires k <= |s| && forall i :: 0 <= i < k ==> !p(s[i])
    ensures Count(s, p) <= |s| - k
  {
    if k > 0 {
      CountFrom(s[1..], p, k - 1);
    }
  }

  function Below(m: real): real -> bool { x => x < m }

  function Above(m: real): real -> bool { x => x > m }

  /** Where the median sits in the sorted list. */
  lemma MedianSits(prices: seq<real>)
    requires prices != []
    ensures var m, s, n := MedianPrice(prices).value, Sorted(prices), |prices|;
            && m <= s[n / 2] && s[(n - 1) / 2] <= m && n - 1 - (n - 1) / 2 == n / 2
  {
    SortedIs(prices);
    var s, n := Sorted(prices), |prices|;
    hide Sorted;
    assert s[(n - 1) / 2] <= s[n / 2];
    if n % 2 == 1 {
      assert (n - 1) / 2 == n / 2;
    } else {
      assert (n - 1) / 2 == n / 2 - 1;
      Mean(s[n / 2 - 1], s[n / 2]);
    }
  }

  lemma Mean(x: real, y: real)
    requires x <= y
    ensures x <= (x + y) / 2.0 <= y
  {
  }

  /** What makes it a median: at most half the prices lie strictly below it, and at most half above. */
  lemma MedianSplits(prices: seq<real>)
    requires prices != []
    ensures var m := MedianPrice(prices).value;
            2 * Count(prices, Below(m)) <= |prices| && 2 * Count(prices, Above(m)) <= |prices|
  {
    var m, s, n := MedianPrice(prices).value, Sorted(prices), |prices|;
    MedianSits(prices);
    SortedIs(prices);
    CountSorted(prices, Below(m));
    CountSorted(prices, Above(m));
    hide MedianPrice;
    hide Sorted;
    hide Count;
    CountBefore(s, Below(m), n / 2);
    CountFrom(s, Above(m), (n - 1) / 2 + 1);
  }

  /** The median is the mean of the two prices in the middle: one with at most (n - 1) / 2 of the n prices strictly
      below it and at most n / 2 strictly above, the other the other way round. For an odd n they are the same. */
  lemma MedianIsMiddle(prices: seq<real>) returns (low: real, high: real)
    requires prices != []
    ensures low in prices && high in prices && MedianPrice(prices) == Some((low + high) / 2.0)
    ensures Count(prices, Below(low)) <= (|prices| - 1) / 2 && Count(prices, Above(low)) <= |prices| / 2
    ensures Count(prices, Below(high)) <= |prices| / 2 && Count(prices, Above(high)) <= (|prices| - 1) / 2
  {
    hide *;
    var s, n := Sorted(prices), |prices|;
    assert n - 1 - (n - 1) / 2 == n / 2;
    low, high := s[(n - 1) / 2], s[n / 2];
    MeanOfMiddle(prices);
    SortedIs(prices);
    assert low in multiset(s) && high in multiset(s);
    RankCounts(prices, (n - 1) / 2);
    RankCounts(prices, n / 2);
  }

  lemma MeanOfMiddle(prices: seq<real>)
    requires prices != []
    ensures var s, n := Sorted(prices), |prices|;
            (n - 1) / 2 < n && n / 2 < n && MedianPrice(prices) == Some((s[(n - 1) / 2] + s[n / 2]) / 2.0)
  {
    hide Sorted;
    var n := |prices|;
    assert (n - 1) / 2 == if n % 2 == 1 then n / 2 else n / 2 - 1;
  }

  lemma RankCounts(prices: seq<real>, k: nat)
    requires k < |prices|
    ensures var v := Sorted(prices)[k];
            Count(prices, Below(v)) <= k && Count(prices, Above(v)) <= |prices| - 1 - k
  {
    var s := Sorted(prices);
    SortedIs(prices);
    CountSorted(prices, Below(s[k]));
    CountSorted(prices, Above(s[k]));
    hide Sorted;
    hide Count;
    CountBefore(s, Below(s[k]), k);
    CountFrom(s, Above(s[k]), k + 1);
  }

  // ---- The breakdown point ----

  /** How many entries were tampered with. */
  function Changed(a: seq<real>, b: seq<real>): nat
    requires |a| == |b|
  {
    if a == [] then 0 else (if a[0] != b[0] then 1 else 0) + Changed(a[1..], b[1..])
  }

  /** If every unchanged entry has a property, all but the changed entries of the result have it. */
  lemma {:induction false} HonestCount(a: seq<real>, b: seq<real>, p: real -> bool)
    requires |a| == |b|
    requires forall i :: 0 <= i < |a| && a[i] == b[i] ==> p(a[i])
    ensures Count(b, p) >= |a| - Changed(a, b)
  {
    if a != [] {
      forall i | 0 <= i < |a[1..]| && a[1..][i] == b[1..][i] ensures p(a[1..][i]) {
        assert a[i + 1] == b[i + 1];
      }
      HonestCount(a[1..], b[1..], p);
    }
  }

  /** Changing fewer than half of the prices, to anything at all, leaves the median between the least and
      the greatest of the ones left alone. */
  lemma BreakdownPoint(a: seq<real>, b: seq<real>, lo: real, hi: real)
    requires |a| == |b| && a != [] && 2 * Changed(a, b) < |a|
    requires forall i :: 0 <= i < |a| && a[i] == b[i] ==> lo <= a[i] <= hi
    ensures lo <= MedianPrice(b).value <= hi
  {
    var m := MedianPrice(b).value;
    MedianSplits(b);
    if m < lo {
      HonestCount(a, b, Above(m));
    }
    if m > hi {
      HonestCount(a, b, Below(m));
    }
  }

  // ---- The bound is sharp ----

  function Repeat(z: real, m: nat): (s: seq<real>)
    ensures |s| == m
  {
    if m == 0 then [] else [z] + Repeat(z, m - 1)
  }

  lemma {:induction false} CountRepeat(z: real, m: nat, p: real -> bool)
    ensures Count(Repeat(z, m), p) == if p(z) then m else 0
  {
    if m > 0 {
      assert Repeat(z, m)[1..] == Repeat(z, m - 1);
      CountRepeat(z, m - 1, p);
    }
  }

  lemma {:induction false} CountJoin(s: seq<real>, t: seq<real>, p: real -> bool)
    ensures Count(s + t, p) == Count(s, p) + Count(t, p)
  {
    if s == [] {
      assert s + t == t;
    } else {
      assert (s + t)[1..] == s[1..] + t;
      CountJoin(s[1..], t, p);
    }
  }

  /** One entry without the property leaves at most the others. */
  lemma {:induction false} CountMissing(s: seq<real>, p: real -> bool, x: real)
    requires x in s && !p(x)
    ensures Count(s, p) <= |s| - 1
  {
    if s[0] != x {
      assert x in s[1..];
      CountMissing(s[1..], p, x);
    }
  }

  /** Few enough prices below `v` put the sorted entry `k` at or above it, and dually. */
  lemma RankAtLeast(s: seq<real>, v: real, k: nat)
    requires k < |s| && Count(s, Below(v)) <= k
    ensures Sorted(s)[k] >= v
  {
    SortedIs(s);
    CountSorted(s, Below(v));
    var t := Sorted(s);
    hide Sorted;
    if t[k] < v {
      CountJoin(t[..k + 1], t[k + 1..], Below(v));
      assert t == t[..k + 1] + t[k + 1..];
      CountAll(t[..k + 1], Below(v));
    }
  }

  lemma RankAtMost(s: seq<real>, v: real, k: nat)
    requires k < |s| && Count(s, Above(v)) <= |s| - 1 - k
    ensures Sorted(s)[k] <= v
  {
    SortedIs(s);
    CountSorted(s, Above(v));
    var t := Sorted(s);
    hide Sorted;
    if t[k] > v {
      CountJoin(t[..k], t[k..], Above(v));
      assert t == t[..k] + t[k..];
      CountAll(t[k..], Above(v));
    }
  }

  lemma {:induction false} CountAll(s: seq<real>, p: real -> bool)
    requires forall i :: 0 <= i < |s| ==> p(s[i])
    ensures Count(s, p) == |s|
  {
    if s != [] {
      CountAll(s[1..], p);
    }
  }

  lemma {:induction false} Greatest(s: seq<real>) returns (u: real)
    requires s != []
    ensures u in s && forall i :: 0 <= i < |s| ==> s[i] <= u
  {
    if |s| == 1 {
      u := s[0];
    } else {
      u := Greatest(s[1..]);
      assert forall i :: 0 < i < |s| ==> s[i] == s[1..][i - 1];
      if u < s[0] {
        u := s[0];
      }
    }
  }

  lemma {:induction false} Least(s: seq<real>) returns (l: real)
    requires s != []
    ensures l in s && forall i :: 0 <= i < |s| ==> l <= s[i]
  {
    if |s| == 1 {
      l := s[0];
    } else {
      l := Least(s[1..]);
      assert forall i :: 0 < i < |s| ==> s[i] == s[1..][i - 1];
      if s[0] < l {
        l := s[0];
      }
    }
  }

  /** The front of the list kept, the rest told `z`. */
  function Told(kept: seq<real>, z: real, m: nat): (b: seq<real>)
    ensures |b| == |kept| + m
  {
    kept + Repeat(z, m)
  }

  lemma CountTold(kept: seq<real>, z: real, m: nat, p: real -> bool)
    ensures Count(Told(kept, z, m), p) == Count(kept, p) + if p(z) then m else 0
  {
    CountJoin(kept, Repeat(z, m), p);
    CountRepeat(z, m, p);
  }

  lemma RankIs(s: seq<real>, v: real, k: nat)
    requires k < |s| && Count(s, Below(v)) <= k && Count(s, Above(v)) <= |s| - 1 - k
    ensures Sorted(s)[k] == v
  {
    RankAtLeast(s, v, k);
    RankAtMost(s, v, k);
    hide Sorted;
    hide Count;
  }

  /** With the middle two entries `v` and `w`, the median of an even list is their mean. */
  lemma EvenMedian(b: seq<real>, n: nat, v: real, w: real)
    requires n > 0 && |b| == 2 * n
    requires Count(b, Below(v)) <= n - 1 && Count(b, Above(v)) <= n
    requires Count(b, Below(w)) <= n && Count(b, Above(w)) <= n - 1
    ensures MedianPrice(b) == Some((v + w) / 2.0)
  {
    hide Count;
    hide Sorted;
    hide MedianPrice;
    RankIs(b, v, n - 1);
    RankIs(b, w, n);
    MiddleTwo(b, n);
  }

  lemma MiddleTwo(b: seq<real>, n: nat)
    requires n > 0 && |b| == 2 * n
    ensures MedianPrice(b) == Some((Sorted(b)[n - 1] + Sorted(b)[n]) / 2.0)
  {
    hide Sorted;
    Halves(n);
  }

  lemma Halves(n: nat)
    ensures 2 * n / 2 == n && 2 * n % 2 == 0 && (2 * n + 1) / 2 == n && (2 * n + 1) % 2 == 1
  {
  }

  /** More than half of an odd list on `y` is a median of `y`. */
  lemma MajorityRules(kept: seq<real>, y: real)
    ensures MedianPrice(Told(kept, y, |kept| + 1)) == Some(y)
  {
    var b := Told(kept, y, |kept| + 1);
    CountTold(kept, y, |kept| + 1, Below(y));
    CountTold(kept, y, |kept| + 1, Above(y));
    hide Count;
    hide Told;
    Halves(|kept|);
    RankIs(b, y, |kept|);
    hide Sorted;
  }

  /** Half of an even list can be told what moves the median to `y`. */
  lemma HalfRules(kept: seq<real>, y: real) returns (z: real)
    requires kept != []
    ensures MedianPrice(Told(kept, z, |kept|)) == Some(y)
  {
    var n := |kept|;
    var u := Greatest(kept);
    var l := Least(kept);
    var v, w;
    if u <= y {
      z, v, w := 2.0 * y - u, u, 2.0 * y - u;
      CountMissing(kept, Below(u), u);
      CountBefore(kept, Above(u), 0);
      CountBefore(kept, Above(z), 0);
    } else if y <= l {
      z, v, w := 2.0 * y - l, 2.0 * y - l, l;
      CountMissing(kept, Above(l), l);
      CountBefore(kept, Below(l), 0);
      CountBefore(kept, Below(z), 0);
    } else {
      z, v, w := y, y, y;
      CountMissing(kept, Below(y), u);
      CountMissing(kept, Above(y), l);
    }
    CountTold(kept, z, n, Below(v));
    CountTold(kept, z, n, Above(v));
    CountTold(kept, z, n, Below(w));
    CountTold(kept, z, n, Above(w));
    hide Count;
    hide Told;
    EvenMedian(Told(kept, z, n), n, v, w);
    hide MedianPrice;
  }

  lemma {:induction false} ChangedTail(a: seq<real>, z: real, k: nat)
    requires k <= |a|
    ensures Changed(a, Told(a[..k], z, |a| - k)) <= |a| - k
  {
    var b := Told(a[..k], z, |a| - k);
    if k > 0 {
      assert b[1..] == Told(a[1..][..k - 1], z, |a[1..]| - (k - 1));
      ChangedTail(a[1..], z, k - 1);
    } else {
      ChangedAtMost(a, b);
    }
  }

  lemma {:induction false} ChangedAtMost(a: seq<real>, b: seq<real>)
    requires |a| == |b|
    ensures Changed(a, b) <= |a|
  {
    if a != [] {
      ChangedAtMost(a[1..], b[1..]);
    }
  }

  /** `b` is `a` with at most half of its entries, rounded up, changed; and its median is `y`. */
  ghost predicate Moves(a: seq<real>, b: seq<real>, y: real) {
    |b| == |a| && 2 * Changed(a, b) <= |a| + 1 && MedianPrice(b) == Some(y)
  }

  lemma TailMoves(a: seq<real>, z: real, k: nat, y: real)
    requires k <= |a| && 2 * (|a| - k) <= |a| + 1 && MedianPrice(Told(a[..k], z, |a| - k)) == Some(y)
    ensures Moves(a, Told(a[..k], z, |a| - k), y)
  {
    hide MedianPrice;
    ChangedTail(a, z, k);
    hide Changed;
    hide Told;
  }

  /** The bound is sharp for every list and every target: changing half of the prices, rounded up, can put
      the median anywhere. For the three feeds of the oracle that is two of them. */
  lemma HalfIsEnough(a: seq<real>, y: real)
    requires a != []
    ensures exists b :: Moves(a, b, y)
  {
    hide Moves;
    hide MedianPrice;
    var k := |a| / 2;
    Halves(k);
    if |a| == 2 * k {
      var z := HalfRules(a[..k], y);
      TailMoves(a, z, k, y);
    } else {
      MajorityRules(a[..k], y);
      TailMoves(a, y, k, y);
    }
  }

  // ---- The answer that carries it ----

  /** An attestation shows a price, in its answer line or beside a source, exactly when at least two feeds
      answered; the price in the answer line is their median, and every feed that answered is named. */
  lemma PriceOnlyAtQuorum(cfg: Codec, answered: seq<(nat, real)>, chargeId: Str, now: nat)
    requires cfg.median == MedianPrice
    ensures var a := Assemble(cfg, answered, chargeId, now);
            && (a.median.Some? <==> |answered| >= 2)
            && (a.median.Some? ==> 2 * Count(Prices(answered), Below(a.median.value)) <= |answered| &&
                                   2 * Count(Prices(answered), Above(a.median.value)) <= |answered|)
            && |a.sources| == |answered|
            && (forall i :: 0 <= i < |answered| ==>
                  a.sources[i].feed == answered[i].0 && (a.sources[i].price.Some? <==> |answered| >= 2))
  {
    if |answered| >= 2 {
      MedianSplits(Prices(answered));
    }
  }

  /** With the three feeds all answering, no single one can move the attested price outside the range of
      the other two, whatever it says. */
  lemma OneLiarOfThree(cfg: Codec, honest: seq<(nat, real)>, liar: nat, lie: real, chargeId: Str, now: nat)
    requires cfg.median == MedianPrice && |honest| == FEED_COUNT && liar < FEED_COUNT
    ensures var told := honest[liar := (honest[liar].0, lie)];
            var m := Assemble(cfg, told, chargeId, now).median;
            && m.Some?
            && (exists i, j :: 0 <= i < 3 && 0 <= j < 3 && i != liar && j != liar
                 && honest[i].1 <= m.value <= honest[j].1)
  {
    var told := honest[liar := (honest[liar].0, lie)];
    var a, b := Prices(honest), Prices(told);
    var i, j := if liar == 0 then 1 else 0, if liar == 2 then 1 else 2;
    var lo, hi := if a[i] <= a[j] then i else j, if a[i] <= a[j] then j else i;
    ChangedOne(a, b, liar);
    if a[liar] != lie {
      BreakdownPoint(a, b, a[lo], a[hi]);
    } else {
      assert a == b;
      var c := a[liar := a[liar] + 1.0];
      ChangedOne(c, b, liar);
      BreakdownPoint(c, b, a[lo], a[hi]);
    }
  }

  lemma {:induction false} ChangedOne(a: seq<real>, b: seq<real>, k: nat)
    requires |a| == |b| && k < |a|
    requires forall i :: 0 <= i < |a| && i != k ==> a[i] == b[i]
    ensures Changed(a, b) <= 1
  {
    if k > 0 {
      ChangedOne(a[1..], b[1..], k - 1);
    } else {
      ChangedNone(a[1..], b[1..]);
    }
  }

  lemma {:induction false} ChangedNone(a: seq<real>, b: seq<real>)
    requires |a| == |b| && forall i :: 0 <= i < |a| ==> a[i] == b[i]
    ensures Changed(a, b) == 0
  {
    if a != [] {
      ChangedNone(a[1..], b[1..]);
    }
  }
}
