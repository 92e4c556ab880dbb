/** What threshold ECDH computes: for any threshold, any sharing and any accepted quorum, the point a
    single holder of the secret would compute, and for the taproot identity the point its peer
    computes. */
module EcdhTheorems {
  import opened Bytes
  import opened PrimeField
  import opened Ecdh

  /** The key packages share the secret `f(0)` by the polynomial `f`, whose degree is below the
      threshold, under the group key `f(0) * G`. */
  ghost predicate Shared(c: Curve, signers: seq<KeyPackage>, f: seq<int>) {
    forall kp :: kp in signers ==>
      && IsIdentifier(c, kp.identifier)
      && kp.share == Eval(f, kp.identifier) % c.order
      && kp.verifyingKey == Eval(f, 0) % c.order
      && |f| <= kp.minSigners
  }

  function Secret(c: Curve, f: seq<int>): nat
    requires c.order > 0
  {
    Eval(f, 0) % c.order
  }

  // ---- The Lagrange coefficient is a weight ----

  function AsInts(s: seq<nat>): (r: seq<int>)
    ensures |r| == |s|
  {
    seq(|s|, i requires 0 <= i < |s| => s[i] as int)
  }

  lemma {:induction false} WithoutAbsent(s: seq<nat>, i: nat)
    requires i !in s
    ensures Without(s, i) == AsInts(s)
  {
    if s != [] {
      var n := |s| - 1;
      WithoutAbsent(s[..n], i);
      assert AsInts(s) == AsInts(s[..n]) + [s[n] as int];
    }
  }

  /** Skipping a member by value drops exactly its one place. */
  lemma {:induction false} WithoutIsRemove(s: seq<nat>, k: nat)
    requires Distinct(s) && k < |s|
    ensures Without(s, s[k]) == Remove(AsInts(s), k)
  {
    var n := |s| - 1;
    var xs := AsInts(s);
    if k == n {
      WithoutAbsent(s[..n], s[k]);
      assert Remove(xs, k) == AsInts(s[..n]);
    } else {
      WithoutIsRemove(s[..n], k);
      assert s[..n][k] == s[k];
      assert Remove(xs, k) == Remove(AsInts(s[..n]), k) + [xs[n]];
    }
  }

  lemma IdentifiersDistinctMod(c: Curve, s: seq<nat>)
    requires ValidCurve(c) && Distinct(s) && forall i :: i in s ==> IsIdentifier(c, i)
    ensures DistinctMod(c.order, AsInts(s))
  {
    forall i, j | 0 <= i < |s| && 0 <= j < |s| && i != j ensures !Cong(c.order, AsInts(s)[j] - AsInts(s)[i], 0) {
      assert s[i] in s && s[j] in s;
      assert s[j] != s[i];
      if Cong(c.order, s[j] as int - s[i] as int, 0) {
        DifferenceZero(c.order, s[j], s[i]);
      }
    }
  }

  lemma DifferenceZero(p: int, a: int, b: int)
    requires Cong(p, a - b, 0) && 0 <= a < p && 0 <= b < p
    ensures a == b
  {
    CongRefl(p, b);
    CongAdd(p, a - b, 0, b, b);
    CongCanonical(p, a, b);
  }

  /** For distinct identifiers the denominator is invertible, so the coefficient is always defined,
      and it solves the weight equation of interpolation at zero. */
  lemma LagrangeIsWeight(c: Curve, s: seq<nat>, k: nat)
    requires ValidCurve(c) && Distinct(s) && (forall i :: i in s ==> IsIdentifier(c, i)) && k < |s|
    ensures Lagrange(c, s[k], s).Ok?
    ensures Weight(c.order, AsInts(s), k, Lagrange(c, s[k], s).value)
  {
    var p, xs := c.order, AsInts(s);
    WithoutIsRemove(s, k);
    IdentifiersDistinctMod(c, s);
    DenominatorNonZero(p, xs, k);
    var num, den := ProdDiff(Remove(xs, k), 0), ProdDiff(Remove(xs, k), xs[k]);
    NonZeroMod(p, den);
    WeightFromParts(p, num, den);
  }

  lemma NonZeroMod(p: int, a: int)
    requires p > 0 && !Cong(p, a, 0)
    ensures a % p != 0
  {
    ModCong(p, a);
    if a % p == 0 {
      CongSym(p, a % p, a);
    }
  }

  lemma WeightFromParts(p: int, num: int, den: int)
    requires Prime(p) && den % p != 0
    ensures Cong(p, (num % p * Inverse(p, den % p)) % p * den, num)
  {
    var i := Inverse(p, den % p);
    ModCong(p, num);
    ModCong(p, num % p * i);
    InverseWeight(p, den, num % p);
    WeightChain(p, num, num % p, den, i, (num % p * i) % p);
  }

  lemma WeightChain(p: int, num: int, m: int, den: int, i: int, w: int)
    requires Cong(p, m, num) && Cong(p, w, m * i) && Cong(p, m * i * den, m)
    ensures Cong(p, w * den, num)
  {
    hide *;
    CongMul(p, w, m * i, den);
    assert den * w == w * den && den * (m * i) == m * i * den;
    CongTrans(p, w * den, m * i * den, m);
    CongTrans(p, w * den, m, num);
  }

  // ---- The combine ----

  /** `ws` are the Lagrange coefficients of the whole set `s`, in order. */
  ghost predicate Coefficients(c: Curve, s: seq<nat>, ws: seq<int>)
    requires c.order > 0
  {
    |ws| == |s| && forall k :: 0 <= k < |s| ==> Lagrange(c, s[k], s).Ok? && Lagrange(c, s[k], s).value == ws[k]
  }

  /** The sum over one more signer adds that signer's weighted share of `B`. */
  lemma SumStep(c: Curve, signers: seq<KeyPackage>, s: seq<nat>, n: nat, b: nat)
    requires 0 < b < c.order && 0 < n <= |signers|
    requires Lagrange(c, signers[n - 1].identifier, s).Ok?
    requires Contributions(c, signers[..n], s, Compressed(b)).Ok?
    ensures var coeff := Lagrange(c, signers[n - 1].identifier, s).value;
            var q := (b * (coeff * signers[n - 1].share)) % c.order;
            && q != 0
            && Contributions(c, signers[..n - 1], s, Compressed(b)).Ok?
            && var before := SumPoints(c, Contributions(c, signers[..n - 1], s, Compressed(b)).value);
            && (before.Ok? ==>
                  SumPoints(c, Contributions(c, signers[..n], s, Compressed(b)).value) ==
                  Ok((before.value + q) % c.order))
  {
    hide Lagrange;
    hide SumPoints;
    var m := n - 1;
    assert signers[..n][..m] == signers[..m];
    var before := Contributions(c, signers[..m], s, Compressed(b)).value;
    var q := (b * (Lagrange(c, signers[m].identifier, s).value * signers[m].share)) % c.order;
    assert HolderContribution(c, signers[m], s, Compressed(b)) == FromPoint(q);
    assert Contributions(c, signers[..n], s, Compressed(b)).value == before + [Compressed(q)];
    if SumPoints(c, before).Ok? {
      SumSnoc(c, before, q);
    }
  }

  lemma {:induction false} SumSnoc(c: Curve, ps: seq<WirePoint>, q: nat)
    requires 0 < q < c.order && SumPoints(c, ps).Ok?
    ensures SumPoints(c, ps + [Compressed(q)]) == Ok((SumPoints(c, ps).value + q) % c.order)
  {
    var more := ps + [Compressed(q)];
    assert more[..|more| - 1] == ps && more[|more| - 1] == Compressed(q);
    assert ToPoint(c, Compressed(q)) == Ok(q);
  }

  /** When every holder contributes, the sum is `B` times the dot product of coefficients and values. */
  lemma {:induction false} SumIsDot(c: Curve, signers: seq<KeyPackage>, s: seq<nat>, ws: seq<int>, n: nat,
        f: seq<int>, b: nat)
    requires 0 < b < c.order && n <= |signers|
    requires s == Ids(signers) && Coefficients(c, s, ws)
    requires forall kp :: kp in signers ==> kp.share == Eval(f, kp.identifier) % c.order
    requires Contributions(c, signers[..n], s, Compressed(b)).Ok?
    ensures var sum := SumPoints(c, Contributions(c, signers[..n], s, Compressed(b)).value);
            && sum.Ok? && sum.value < c.order
            && Cong(c.order, sum.value, b * Dot(ws[..n], Values(f, AsInts(s[..n]))))
  {
    hide Cong;
    hide Lagrange;
    hide Eval;
    if n == 0 {
      CongRefl(c.order, 0);
    } else {
      var m := n - 1;
      assert signers[m] in signers && signers[m].identifier == s[m];
      SumStep(c, signers, s, n, b);
      SumIsDot(c, signers, s, ws, m, f, b);
      hide Contributions;
      hide SumPoints;
      DotStep(ws, s, n, f);
      hide Dot;
      TermCong(c.order, b, ws[m], Eval(f, s[m]));
      AccCong(c.order, SumPoints(c, Contributions(c, signers[..m], s, Compressed(b)).value).value,
        (b * (ws[m] * signers[m].share)) % c.order, b, Dot(ws[..m], Values(f, AsInts(s[..m]))), ws[m] * Eval(f, s[m]));
    }
  }

  lemma DotStep(ws: seq<int>, s: seq<nat>, n: nat, f: seq<int>)
    requires |ws| == |s| && 0 < n <= |s|
    ensures Dot(ws[..n], Values(f, AsInts(s[..n]))) ==
            Dot(ws[..n - 1], Values(f, AsInts(s[..n - 1]))) + ws[n - 1] * Eval(f, s[n - 1])
  {
    hide Eval;
    var m := n - 1;
    var ys := Values(f, AsInts(s[..n]));
    assert ws[..n][..m] == ws[..m] && ws[..n][m] == ws[m];
    assert ys[..m] == Values(f, AsInts(s[..m])) && ys[m] == Eval(f, s[m]);
  }

  lemma TermCong(p: int, b: int, coeff: int, y: int)
    requires p > 0
    ensures Cong(p, (b * (coeff * (y % p))) % p, b * (coeff * y))
  {
    ModCong(p, y);
    ModCong(p, b * (coeff * (y % p)));
    TermChain(p, b, coeff, y, y % p, (b * (coeff * (y % p))) % p);
  }

  lemma TermChain(p: int, b: int, coeff: int, y: int, y': int, q: int)
    requires Cong(p, y', y) && Cong(p, q, b * (coeff * y'))
    ensures Cong(p, q, b * (coeff * y))
  {
    hide *;
    CongMul(p, y', y, coeff);
    CongMul(p, coeff * y', coeff * y, b);
    CongTrans(p, q, b * (coeff * y'), b * (coeff * y));
  }

  lemma AccCong(p: int, acc: int, q: int, b: int, d: int, t: int)
    requires p > 0 && Cong(p, acc, b * d) && Cong(p, q, b * t)
    ensures Cong(p, (acc + q) % p, b * (d + t))
  {
    ModCong(p, acc + q);
    AccChain(p, acc, q, b, d, t, (acc + q) % p);
  }

  lemma AccChain(p: int, acc: int, q: int, b: int, d: int, t: int, r: int)
    requires Cong(p, acc, b * d) && Cong(p, q, b * t) && Cong(p, r, acc + q)
    ensures Cong(p, r, b * (d + t))
  {
    hide *;
    CongAdd(p, acc, b * d, q, b * t);
    assert b * d + b * t == b * (d + t);
    CongTrans(p, r, acc + q, b * (d + t));
  }

  /** The accepted set has at least as many distinct nodes as the polynomial has coefficients. */
  lemma AcceptedSet(c: Curve, signers: seq<KeyPackage>, f: seq<int>)
    requires Shared(c, signers, f) && Validate(signers).Ok?
    ensures Distinct(Ids(signers)) && (forall i :: i in Ids(signers) ==> IsIdentifier(c, i)) && |f| <= |signers|
    ensures Validate(signers).value == Eval(f, 0) % c.order
  {
    ValidateAccepts(signers);
    assert signers[0] in signers;
    forall i | i in Ids(signers) ensures IsIdentifier(c, i) {
      var k :| 0 <= k < |signers| && Ids(signers)[k] == i;
      assert signers[k] in signers;
    }
  }

  /** The weighted values of an accepted set sum to the secret. */
  lemma DotIsSecret(c: Curve, s: seq<nat>, f: seq<int>) returns (ws: seq<int>)
    requires ValidCurve(c) && Distinct(s) && (forall i :: i in s ==> IsIdentifier(c, i)) && |f| <= |s|
    ensures Coefficients(c, s, ws)
    ensures Cong(c.order, Dot(ws, Values(f, AsInts(s))), Eval(f, 0))
  {
    var xs := AsInts(s);
    ws := CoefficientsOf(c, s, |s|);
    IdentifiersDistinctMod(c, s);
    assert Weights(c.order, xs, ws);
    Interpolation(c.order, xs, ws, f);
  }

  lemma {:induction false} CoefficientsOf(c: Curve, s: seq<nat>, n: nat) returns (ws: seq<int>)
    requires ValidCurve(c) && Distinct(s) && (forall i :: i in s ==> IsIdentifier(c, i)) && n <= |s|
    ensures |ws| == n
    ensures forall k :: 0 <= k < n ==> Lagrange(c, s[k], s).Ok? && Lagrange(c, s[k], s).value == ws[k]
    ensures forall k :: 0 <= k < n ==> Weight(c.order, AsInts(s), k, ws[k])
  {
    hide Lagrange;
    hide Weight;
    if n == 0 {
      ws := [];
    } else {
      var rest := CoefficientsOf(c, s, n - 1);
      LagrangeIsWeight(c, s, n - 1);
      ws := rest + [Lagrange(c, s[n - 1], s).value as int];
    }
  }

  /** An `Ok` result is the secret times the peer point: the same for every accepted quorum of any
      size at or above the threshold. */
  lemma CombineIsSecretTimesPeer(c: Curve, signers: seq<KeyPackage>, f: seq<int>, peerX: Str)
    requires ValidCurve(c) && Shared(c, signers, f)
    requires ThresholdUntweaked(c, signers, peerX).Ok?
    ensures c.lift(peerX).Some? && Secret(c, f) != 0
    ensures ThresholdUntweaked(c, signers, peerX) == Ok(Compressed((Secret(c, f) * c.lift(peerX).value) % c.order))
  {
    hide Cong;
    hide Eval;
    hide Lagrange;
    var p, b, s := c.order, c.lift(peerX).value, Ids(signers);
    AcceptedSet(c, signers, f);
    assert signers[..|signers|] == signers && s[..|s|] == s;
    var ws := DotIsSecret(c, s, f);
    assert ws[..|s|] == ws;
    SumIsDot(c, signers, s, ws, |s|, f, b);
    var sum := SumPoints(c, Contributions(c, signers, s, Compressed(b)).value).value;
    SecretTimes(p, sum, b, Dot(ws, Values(f, AsInts(s))), Eval(f, 0));
  }

  /** Scalars multiply points through the secret's residue alone; a zero secret gives the identity. */
  lemma SecretTimes(p: int, sum: int, b: int, d: int, s: int)
    requires p > 0 && 0 <= sum < p && Cong(p, sum, b * d) && Cong(p, d, s)
    ensures sum == (s % p * b) % p
    ensures s % p == 0 ==> sum == 0
  {
    ModCong(p, s);
    ModCong(p, s % p * b);
    TimesChain(p, sum, b, d, s, s % p, (s % p * b) % p);
    CongCanonical(p, sum, (s % p * b) % p);
    if s % p == 0 {
      assert s % p * b == 0;
    }
  }

  lemma TimesChain(p: int, sum: int, b: int, d: int, s: int, s': int, r: int)
    requires Cong(p, sum, b * d) && Cong(p, d, s) && Cong(p, s', s) && Cong(p, r, s' * b)
    ensures Cong(p, sum, r)
  {
    hide *;
    CongMul(p, d, s, b);
    CongTrans(p, sum, b * d, b * s);
    CongMul(p, s', s, b);
    assert b * s' == s' * b;
    CongTrans(p, r, s' * b, b * s);
    CongSym(p, r, b * s);
    CongTrans(p, sum, b * s, r);
  }

  // ---- Exactly when the combine succeeds ----

  /** A weight over non-zero nodes is not zero. */
  lemma WeightNonZero(c: Curve, s: seq<nat>, k: nat)
    requires ValidCurve(c) && Distinct(s) && (forall i :: i in s ==> IsIdentifier(c, i)) && k < |s|
    ensures Lagrange(c, s[k], s).Ok? && !Cong(c.order, Lagrange(c, s[k], s).value, 0)
  {
    var p, xs := c.order, AsInts(s);
    LagrangeIsWeight(c, s, k);
    var w := Lagrange(c, s[k], s).value;
    var den, num := ProdDiff(Remove(xs, k), xs[k]), ProdDiff(Remove(xs, k), 0);
    forall y | y in Remove(xs, k) ensures !Cong(p, y - 0, 0) {
      var j :| 0 <= j < |Remove(xs, k)| && Remove(xs, k)[j] == y;
      assert y == s[if j < k then j else j + 1];
      assert s[if j < k then j else j + 1] in s;
      NonZeroCanonical(p, y);
    }
    ProdDiffNonZero(p, Remove(xs, k), 0);
    ZeroWeight(p, w, den, num);
  }

  lemma ZeroWeight(p: int, w: int, den: int, num: int)
    requires Cong(p, w * den, num) && !Cong(p, num, 0)
    ensures !Cong(p, w, 0)
  {
    if Cong(p, w, 0) {
      CongMul(p, w, 0, den);
      assert den * w == w * den && den * 0 == 0;
      CongSym(p, w * den, num);
      CongTrans(p, num, w * den, 0);
    }
  }

  lemma ProductNonZero(p: int, b: int, w: int, y: int)
    requires Prime(p) && 0 < b < p && 0 <= y < p && !Cong(p, w, 0)
    ensures (b * (w * y)) % p == 0 <==> y == 0
  {
    if y == 0 {
      assert b * (w * y) == 0;
    } else {
      NonZeroCanonical(p, b);
      NonZeroCanonical(p, y);
      NoZeroDivisors(p, w, y);
      NoZeroDivisors(p, b, w * y);
      NonZeroMod(p, b * (w * y));
    }
  }

  /** Every holder of an accepted set contributes exactly when no share among them is zero. */
  lemma {:induction false} ContributionsSucceed(c: Curve, signers: seq<KeyPackage>, n: nat, b: nat)
    requires ValidCurve(c) && n <= |signers| && 0 < b < c.order
    requires Distinct(Ids(signers)) && forall i :: i in Ids(signers) ==> IsIdentifier(c, i)
    requires forall kp :: kp in signers ==> kp.share < c.order
    ensures Contributions(c, signers[..n], Ids(signers), Compressed(b)).Ok? <==>
              forall k :: 0 <= k < n ==> signers[k].share != 0
    ensures Contributions(c, signers[..n], Ids(signers), Compressed(b)).Ok? ==>
              |Contributions(c, signers[..n], Ids(signers), Compressed(b)).value| == n
  {
    hide Lagrange;
    hide Cong;
    var s := Ids(signers);
    if n > 0 {
      var m := n - 1;
      assert signers[..n][..m] == signers[..m];
      assert signers[m] in signers && signers[m].identifier == s[m];
      ContributionsSucceed(c, signers, m, b);
      WeightNonZero(c, s, m);
      ProductNonZero(c.order, b, Lagrange(c, s[m], s).value, signers[m].share);
    }
  }

  /** For shares of one group, the ceremony succeeds exactly when the set is accepted, the peer key is
      on the curve, and neither a share nor the secret is zero. */
  lemma CombineSucceedsIff(c: Curve, signers: seq<KeyPackage>, f: seq<int>, peerX: Str)
    requires ValidCurve(c) && Shared(c, signers, f)
    ensures ThresholdUntweaked(c, signers, peerX).Ok? <==>
            && Validate(signers).Ok? && c.lift(peerX).Some?
            && (forall kp :: kp in signers ==> kp.share != 0)
            && Secret(c, f) != 0
  {
    hide Cong;
    hide Eval;
    hide Lagrange;
    if Validate(signers).Ok? && c.lift(peerX).Some? {
      AcceptedSet(c, signers, f);
      var b, s := c.lift(peerX).value, Ids(signers);
      assert signers[..|signers|] == signers && s[..|s|] == s;
      ContributionsSucceed(c, signers, |signers|, b);
      SharesByIndex(signers);
      ValidateAccepts(signers);
      if Contributions(c, signers, s, Compressed(b)).Ok? {
        var ws := DotIsSecret(c, s, f);
        assert ws[..|s|] == ws;
        SumIsDot(c, signers, s, ws, |s|, f, b);
        var sum := SumPoints(c, Contributions(c, signers, s, Compressed(b)).value).value;
        SecretTimes(c.order, sum, b, Dot(ws, Values(f, AsInts(s))), Eval(f, 0));
        SecretNonZero(c, Eval(f, 0), b);
      }
    }
  }

  lemma SharesByIndex(signers: seq<KeyPackage>)
    ensures (forall kp :: kp in signers ==> kp.share != 0) <==>
              (forall k :: 0 <= k < |signers| ==> signers[k].share != 0)
  {
    forall k | 0 <= k < |signers| ensures signers[k] in signers {
    }
  }

  lemma SecretNonZero(c: Curve, s: int, b: nat)
    requires ValidCurve(c) && 0 < b < c.order
    ensures (s % c.order * b) % c.order == 0 <==> s % c.order == 0
  {
    NonZeroCanonical(c.order, 1);
    ProductNonZero(c.order, b, 1, s % c.order);
    assert b * (1 * (s % c.order)) == s % c.order * b;
  }

  /** Any two accepted quorums of one sharing that both succeed give the same point. */
  lemma QuorumsAgree(c: Curve, one: seq<KeyPackage>, other: seq<KeyPackage>, f: seq<int>, peerX: Str)
    requires ValidCurve(c) && Shared(c, one, f) && Shared(c, other, f)
    requires ThresholdUntweaked(c, one, peerX).Ok? && ThresholdUntweaked(c, other, peerX).Ok?
    ensures ThresholdUntweaked(c, one, peerX) == ThresholdUntweaked(c, other, peerX)
  {
    CombineIsSecretTimesPeer(c, one, f, peerX);
    CombineIsSecretTimesPeer(c, other, f, peerX);
  }

  // ---- The taproot identity ----

  /** The internal signing scalar: the secret, negated when the group key has odd y. */
  function InternalSecret(c: Curve, f: seq<int>): int
    requires c.order > 0
  {
    if c.odd(Secret(c, f)) then -(Secret(c, f) as int) else Secret(c, f)
  }

  /** `Q` is the internal secret plus the tweak. */
  function TweakedSecret(c: Curve, f: seq<int>): nat
    requires c.order > 0
  {
    (InternalSecret(c, f) + c.tweak(c.xOf(Secret(c, f)))) % c.order
  }

  lemma TweakedQIsTweakedSecret(c: Curve, f: seq<int>)
    requires ValidCurve(c) && Secret(c, f) != 0
    ensures TweakedQ(c, Secret(c, f)) == TweakedSecret(c, f)
  {
    hide Eval;
    AddOrder(c.order, Secret(c, f), c.tweak(c.xOf(Secret(c, f))));
  }

  lemma AddOrder(p: int, s: int, t: int)
    requires p > 0
    ensures (p - s + t) % p == (-s + t) % p
  {
    assert Differ(p, p - s + t, -s + t, 1);
    CongMod(p, p - s + t, -s + t);
  }

  /** An `Ok` tweaked result is the tweaked secret times the peer point, for both parities of the
      group key and for any accepted quorum. */
  lemma TweakedIsTweakedSecretTimesPeer(c: Curve, signers: seq<KeyPackage>, pubkeys: PublicKeyPackage, f: seq<int>,
        peerX: Str)
    requires ValidCurve(c) && Shared(c, signers, f) && 0 < pubkeys.verifyingKey < c.order
    requires ThresholdTweaked(c, signers, pubkeys, peerX).Ok?
    ensures c.lift(peerX).Some? && Secret(c, f) != 0 && pubkeys.verifyingKey == Secret(c, f) && TweakedSecret(c, f) != 0
    ensures ThresholdTweaked(c, signers, pubkeys, peerX) ==
              Ok(Compressed((TweakedSecret(c, f) * c.lift(peerX).value) % c.order))
  {
    hide Eval;
    hide Cong;
    AcceptedSet(c, signers, f);
    CombineIsSecretTimesPeer(c, signers, f, peerX);
    var p, s, b := c.order, Secret(c, f), c.lift(peerX).value;
    var t := c.tweak(c.xOf(s));
    var sB := (s * b) % p;
    hide ThresholdUntweaked;
    hide Validate;
    hide Shared;
    hide ValidCurve;
    FoldTweak(p, s, b, t, sB, c.odd(s));
    if TweakedSecret(c, f) == 0 {
      ZeroTimes(p, b);
    }
  }

  /** The tweaked ceremony succeeds exactly when the untweaked one does, the signers belong to the
      supplied package, and the tweaked secret is not zero. */
  lemma TweakedSucceedsIff(c: Curve, signers: seq<KeyPackage>, pubkeys: PublicKeyPackage, f: seq<int>, peerX: Str)
    requires ValidCurve(c) && Shared(c, signers, f) && 0 < pubkeys.verifyingKey < c.order
    ensures ThresholdTweaked(c, signers, pubkeys, peerX).Ok? <==>
            && ThresholdUntweaked(c, signers, peerX).Ok?
            && pubkeys.verifyingKey == Secret(c, f)
            && (forall kp :: kp in signers ==> kp.identifier in pubkeys.members)
            && TweakedSecret(c, f) != 0
  {
    hide Eval;
    hide Cong;
    if Validate(signers).Ok? {
      AcceptedSet(c, signers, f);
      if ThresholdUntweaked(c, signers, peerX).Ok? {
        CombineIsSecretTimesPeer(c, signers, f, peerX);
        var p, s, b := c.order, Secret(c, f), c.lift(peerX).value;
        FoldTweak(p, s, b, c.tweak(c.xOf(s)), (s * b) % p, c.odd(s));
        SecretNonZero(c, InternalSecret(c, f) + c.tweak(c.xOf(s)), b);
        hide ThresholdUntweaked;
        hide ValidCurve;
        hide Shared;
      }
    }
  }

  lemma ZeroTimes(p: int, b: int)
    requires p > 0
    ensures (0 * b) % p == 0
  {
  }

  /** Negating and adding the tweak on the point side is doing so on the scalar side. */
  lemma FoldTweak(p: int, s: int, b: int, t: int, sB: int, odd: bool)
    requires 0 < s < p && 0 < sB < p && sB == (s * b) % p
    ensures ((if odd then p - sB else sB) + b * t) % p == (((if odd then -s else s) + t) % p * b) % p
  {
    var d := if odd then -s else s;
    var dB := if odd then p - sB else sB;
    ModCong(p, s * b);
    DoubledCong(p, s, b, sB, odd);
    CongRefl(p, b * t);
    CongAdd(p, dB, d * b, b * t, b * t);
    assert d * b + b * t == (d + t) * b;
    CongMod(p, dB + b * t, (d + t) * b);
    ModMul(p, d + t, b);
  }

  lemma DoubledCong(p: int, s: int, b: int, sB: int, odd: bool)
    requires Cong(p, sB, s * b)
    ensures Cong(p, if odd then p - sB else sB, (if odd then -s else s) * b)
  {
    if odd {
      CongMul(p, sB, s * b, -1);
      assert -1 * (s * b) == -s * b;
      assert Differ(p, p - sB, -1 * sB, 1);
      CongTrans(p, p - sB, -1 * sB, -s * b);
    }
  }

  /** What the peer computes with its own secret `b`: its multiple of the even lift of `Q`. */
  function PeerShared(c: Curve, b: nat, q: nat): nat
    requires q < c.order
  {
    (b * LiftEven(c, q)) % c.order
  }

  /** The agent and its peer derive the same x-coordinate: the agent from the peer's x-only key, the
      peer from the agent's x-only key `Q`, whatever the parities of the four points. */
  lemma PeerDerivesTheSame(c: Curve, signers: seq<KeyPackage>, pubkeys: PublicKeyPackage, f: seq<int>, b: nat)
    requires ValidCurve(c) && Shared(c, signers, f) && 0 < pubkeys.verifyingKey < c.order && 0 < b < c.order
    requires ThresholdTweaked(c, signers, pubkeys, c.xOf(b)).Ok?
    ensures var q := TweakedQ(c, pubkeys.verifyingKey);
            && q != 0
            && TweakedQXonly(c, pubkeys) == Ok(c.xOf(q))
            && PeerShared(c, b, q) != 0
            && c.xOf(ThresholdTweaked(c, signers, pubkeys, c.xOf(b)).value.point) == c.xOf(PeerShared(c, b, q))
  {
    hide Eval;
    hide Cong;
    var p := c.order;
    TweakedIsTweakedSecretTimesPeer(c, signers, pubkeys, f, c.xOf(b));
    TweakedQIsTweakedSecret(c, f);
    var q := TweakedQ(c, pubkeys.verifyingKey);
    var lifted := c.lift(c.xOf(b)).value;
    hide ThresholdTweaked;
    hide TweakedSecret;
    hide TweakedQ;
    var r := (q * lifted) % p;
    var e := LiftEven(c, q);
    assert lifted == b || lifted == p - b;
    assert e == q || e == p - q;
    SignedProducts(p, q, e, b, lifted);
  }

  /** Changing the sign of either factor changes at most the sign of the product. */
  lemma SignedProducts(p: int, q: int, e: int, b: int, l: int)
    requires Prime(p) && 0 < q < p && 0 < b < p && (e == q || e == p - q) && (l == b || l == p - b)
    ensures 0 < (b * e) % p < p && 0 < (q * l) % p < p
    ensures (b * e) % p == (q * l) % p || (b * e) % p == p - (q * l) % p
  {
    NonZeroCanonical(p, b);
    NonZeroCanonical(p, e);
    NonZeroCanonical(p, q);
    NonZeroCanonical(p, l);
    NoZeroDivisors(p, b, e);
    NoZeroDivisors(p, q, l);
    NonZeroMod(p, b * e);
    NonZeroMod(p, q * l);
    SignCases(p, q, e, b, l);
    ModCong(p, b * e);
    ModCong(p, q * l);
    if Cong(p, b * e, q * l) {
      CongMod(p, b * e, q * l);
    } else {
      Opposite(p, b * e, q * l);
    }
  }

  lemma SignCases(p: int, q: int, e: int, b: int, l: int)
    requires (e == q || e == p - q) && (l == b || l == p - b)
    ensures Cong(p, b * e, q * l) || Cong(p, b * e, -(q * l))
  {
    if e == q && l == b {
      assert Differ(p, b * e, q * l, 0);
    } else if e == q {
      assert q * l == q * p - q * b;
      assert Differ(p, b * e, -(q * l), q);
    } else if l == b {
      assert b * e == b * p - b * q;
      assert Differ(p, b * e, -(q * l), b);
    } else {
      assert b * e == b * p - b * q && q * l == q * p - q * b;
      assert b * e == q * l + (b - q) * p;
      assert Differ(p, b * e, q * l, b - q);
    }
  }

  lemma Opposite(p: int, a: int, z: int)
    requires p > 0 && Cong(p, a, -z) && a % p != 0 && z % p != 0
    ensures a % p == p - z % p
  {
    ModCong(p, z);
    ModCong(p, a);
    CongMul(p, z % p, z, -1);
    assert Differ(p, p - z % p, -1 * (z % p), 1);
    CongTrans(p, p - z % p, -1 * (z % p), -1 * z);
    CongSym(p, p - z % p, -z);
    CongTrans(p, a % p, a, -z);
    CongTrans(p, a % p, -z, p - z % p);
    CongCanonical(p, a % p, p - z % p);
  }

  // ---- A curve and a ceremony that meet the hypotheses ----

  /** The group of order five: opposite points share x, the upper half is odd. */
  function TinyXOf(k: nat): Str { if k == 1 || k == 4 then [1] else if k == 2 || k == 3 then [2] else [] }

  predicate TinyOdd(k: nat) { k > 2 }

  function TinyLift(x: Str): Option<nat> { if x == [1] then Some(1) else if x == [2] then Some(2) else None }

  const TINY := Curve(5, TinyXOf, TinyOdd, TinyLift, _ => 1)

  lemma FiveIsPrime()
    ensures Prime(5)
  {
    assert 5 % 2 == 1 && 5 % 3 == 2 && 5 % 4 == 1;
  }

  lemma TinyOpposites()
    ensures forall k: nat :: 0 < k < 5 ==> TINY.xOf(5 - k) == TINY.xOf(k) && TINY.odd(5 - k) != TINY.odd(k)
  {
  }

  lemma TinyX(j: nat, k: nat)
    requires 0 < j < 5 && 0 < k < 5 && TINY.xOf(j) == TINY.xOf(k)
    ensures j == k || j == 5 - k
  {
    assert [1 as byte][0] != [2 as byte][0];
  }

  lemma TinyLifts(x: Str, k: nat)
    ensures TINY.lift(x) == Some(k) ==> 0 < k < 5 && !TINY.odd(k) && TINY.xOf(k) == x
    ensures 0 < k < 5 && !TINY.odd(k) ==> TINY.lift(TINY.xOf(k)) == Some(k)
  {
    assert [1 as byte][0] != [2 as byte][0];
  }

  lemma TinyIsACurve()
    ensures ValidCurve(TINY)
  {
    hide Prime;
    hide TinyXOf;
    hide TinyOdd;
    hide TinyLift;
    FiveIsPrime();
    TinyOpposites();
    forall j: nat, k: nat | 0 < j < 5 && 0 < k < 5 && TINY.xOf(j) == TINY.xOf(k) ensures j == k || j == 5 - k {
      TinyX(j, k);
    }
    forall x: Str, k: nat
      ensures TINY.lift(x) == Some(k) ==> 0 < k < 5 && !TINY.odd(k) && TINY.xOf(k) == x
    {
      TinyLifts(x, k);
    }
    forall k: nat ensures 0 < k < 5 && !TINY.odd(k) ==> TINY.lift(TINY.xOf(k)) == Some(k) {
      TinyLifts([], k);
    }
  }

  const TINY_SIGNERS := [KeyPackage(1, 2, 1, 2), KeyPackage(3, 4, 1, 2)]

  /** Two of the holders of the sharing `1 + x`, which is one polynomial of one group. */
  lemma TinySharing()
    ensures Shared(TINY, TINY_SIGNERS, [1, 1]) && Validate(TINY_SIGNERS).Ok?
    ensures Secret(TINY, [1, 1]) == 1 && TweakedSecret(TINY, [1, 1]) == 2
  {
    var f := [1, 1];
    assert f[1..] == [1] && f[1..][1..] == [];
    assert Eval(f[1..], 0) == 1 && Eval(f[1..], 1) == 1 && Eval(f[1..], 3) == 1;
    assert Eval(f, 0) == 1 && Eval(f, 1) == 2 && Eval(f, 3) == 4;
    assert Ids(TINY_SIGNERS)[0] == 1 && Ids(TINY_SIGNERS)[1] == 3;
    ValidateAccepts(TINY_SIGNERS);
  }

  /** The hypotheses of the theorems above can be met together: those two holders complete both
      ceremonies. */
  lemma SomeCeremonySucceeds(pubkeys: PublicKeyPackage)
    requires pubkeys == PublicKeyPackage(1, {1, 2, 3})
    ensures ValidCurve(TINY) && Shared(TINY, TINY_SIGNERS, [1, 1])
    ensures ThresholdUntweaked(TINY, TINY_SIGNERS, [2]).Ok? && ThresholdTweaked(TINY, TINY_SIGNERS, pubkeys, [2]).Ok?
  {
    TinyIsACurve();
    TinySharing();
    hide ThresholdUntweaked;
    hide ThresholdTweaked;
    hide ValidCurve;
    hide Shared;
    hide Validate;
    hide Secret;
    hide TweakedSecret;
    CombineSucceedsIff(TINY, TINY_SIGNERS, [1, 1], [2]);
    TweakedSucceedsIff(TINY, TINY_SIGNERS, pubkeys, [1, 1], [2]);
  }
}
