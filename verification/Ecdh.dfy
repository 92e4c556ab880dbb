/** Threshold ECDH: each holder contributes its share of the peer point, weighted by its Lagrange
    coefficient; the coordinator sums, and for the taproot identity folds in the public tweak. */
module Ecdh {
  import opened Bytes
  import opened PrimeField

  datatype EcdhError = MalformedPoint | MalformedScalar | EmptySet | DuplicateSigner | SignerNotInSet | SubThreshold
      | MismatchedGroup

  /** The group, seen through its generator: the point `k * G` is written `k`, for `0 <= k < order`,
      and `0` is the identity. `xOf` and `odd` are the affine x-coordinate and the parity of y of a
      non-identity point, `lift` the even point with a given x, and `tweak` the reduced taproot
      tweak of an x-coordinate. */
  datatype Curve = Curve(order: nat, xOf: nat -> Str, odd: nat -> bool, lift: Str -> Option<nat>, tweak: Str -> nat)

  /** What a curve over a prime-order group gives: opposite points share x and differ in parity, and
      no other points share x. */
  ghost predicate ValidCurve(c: Curve) {
    && Prime(c.order)
    && (forall k :: 0 < k < c.order ==> c.xOf(c.order - k) == c.xOf(k) && c.odd(c.order - k) != c.odd(k))
    && (forall j, k :: 0 < j < c.order && 0 < k < c.order && c.xOf(j) == c.xOf(k) ==> j == k || j == c.order - k)
    && (forall x, k :: c.lift(x) == Some(k) ==> 0 < k < c.order && !c.odd(k) && c.xOf(k) == x)
    && (forall k :: 0 < k < c.order && !c.odd(k) ==> c.lift(c.xOf(k)) == Some(k))
  }

  /** A point on the wire: 33 bytes that decode to a non-identity point, or do not decode. */
  datatype WirePoint = Garbled | Compressed(point: nat)

  function ToPoint(c: Curve, w: WirePoint): Result<nat, EcdhError> {
    if w.Compressed? && 0 < w.point < c.order then Ok(w.point) else Err(MalformedPoint)
  }

  /** The identity has no wire form. */
  function FromPoint(p: nat): Result<WirePoint, EcdhError> {
    if p == 0 then Err(MalformedPoint) else Ok(Compressed(p))
  }

  /** One holder's key package: its identifier, its share, and the group it belongs to. */
  datatype KeyPackage = KeyPackage(identifier: nat, share: nat, verifyingKey: nat, minSigners: nat)

  datatype PublicKeyPackage = PublicKeyPackage(verifyingKey: nat, members: set<nat>)

  predicate IsIdentifier(c: Curve, i: nat) {
    0 < i < c.order
  }

  predicate Distinct(s: seq<nat>) {
    forall i, j :: 0 <= i < j < |s| ==> s[i] != s[j]
  }

  // ---- The Lagrange coefficient ----

  /** The other members of the signing set. */
  function Without(s: seq<nat>, i: nat): (r: seq<int>) {
    if s == [] then []
    else
      var rest := Without(s[..|s| - 1], i);
      if s[|s| - 1] == i then rest else rest + [s[|s| - 1]]
  }

  function Lagrange(c: Curve, i: nat, s: seq<nat>): Result<nat, EcdhError>
    requires c.order > 0
  {
    if s == [] then Err(EmptySet)
    else if !Distinct(s) then Err(DuplicateSigner)
    else if i !in s then Err(SignerNotInSet)
    else
      var num, den := ProdDiff(Without(s, i), 0) % c.order, ProdDiff(Without(s, i), i) % c.order;
      if den == 0 then Err(MalformedScalar) else Ok((num * Inverse(c.order, den)) % c.order)
  }

  lemma ModMul(p: int, a: int, b: int)
    requires p > 0
    ensures (a % p * b) % p == (a * b) % p
  {
    ModCong(p, a);
    CongMul(p, a % p, a, b);
    assert b * (a % p) == a % p * b && b * a == a * b;
    CongMod(p, a % p * b, a * b);
  }

  /** The running products of the loop are the numerator and the denominator over the other
      members, reduced at every step. */
  method LagrangeCoefficient(c: Curve, i: nat, signingSet: seq<nat>) returns (r: Result<nat, EcdhError>)
    requires c.order > 1
    ensures r == Lagrange(c, i, signingSet)
  {
    if signingSet == [] {
      return Err(EmptySet);
    }
    var seen: set<nat> := {};
    var k := 0;
    while k < |signingSet|
      invariant 0 <= k <= |signingSet|
      invariant seen == set x | x in signingSet[..k]
      invariant Distinct(signingSet[..k])
    {
      if signingSet[k] in seen {
        var j :| 0 <= j < k && signingSet[..k][j] == signingSet[k];
        assert signingSet[j] == signingSet[k];
        return Err(DuplicateSigner);
      }
      seen := seen + {signingSet[k]};
      assert signingSet[..k + 1] == signingSet[..k] + [signingSet[k]];
      k := k + 1;
    }
    assert signingSet[..k] == signingSet;
    if i !in signingSet {
      return Err(SignerNotInSet);
    }
    var numerator, denominator := 1, 1;
    k := 0;
    while k < |signingSet|
      invariant 0 <= k <= |signingSet|
      invariant numerator == ProdDiff(Without(signingSet[..k], i), 0) % c.order
      invariant denominator == ProdDiff(Without(signingSet[..k], i), i) % c.order
    {
      var xj := signingSet[k];
      assert signingSet[..k + 1][..k] == signingSet[..k];
      if xj != i {
        ghost var rest := Without(signingSet[..k], i);
        assert (rest + [xj as int])[..|rest|] == rest;
        ModMul(c.order, ProdDiff(rest, 0), xj);
        ModMul(c.order, ProdDiff(rest, i), xj - i);
        numerator := (numerator * xj) % c.order;
        denominator := (denominator * (xj - i)) % c.order;
      }
      k := k + 1;
    }
    assert signingSet[..k] == signingSet;
    if denominator == 0 {
      return Err(MalformedScalar);
    }
    return Ok((numerator * Inverse(c.order, denominator)) % c.order);
  }

  // ---- Contributions and their sum ----

  /** `lambda_i * s_i * B`. */
  function HolderContribution(c: Curve, kp: KeyPackage, s: seq<nat>, peer: WirePoint): Result<WirePoint, EcdhError>
    requires c.order > 0
  {
    var coeff := Lagrange(c, kp.identifier, s);
    if coeff.Err? then Err(coeff.error)
    else
      var b := ToPoint(c, peer);
      if b.Err? then Err(b.error) else FromPoint((b.value * (coeff.value * kp.share)) % c.order)
  }

  /** The running sum over decoded contributions, stopping at the first that does not decode. */
  function SumPoints(c: Curve, ps: seq<WirePoint>): Result<nat, EcdhError>
    requires c.order > 0
  {
    if ps == [] then Ok(0)
    else
      var acc := SumPoints(c, ps[..|ps| - 1]);
      if acc.Err? then acc
      else
        var p := ToPoint(c, ps[|ps| - 1]);
        if p.Err? then p else Ok((acc.value + p.value) % c.order)
  }

  function Aggregate(c: Curve, ps: seq<WirePoint>): Result<WirePoint, EcdhError>
    requires c.order > 0
  {
    if ps == [] then Err(EmptySet)
    else
      var acc := SumPoints(c, ps);
      if acc.Err? then Err(acc.error) else FromPoint(acc.value)
  }

  lemma {:induction false} SumPointsStops(c: Curve, ps: seq<WirePoint>, k: nat)
    requires c.order > 0 && k <= |ps| && SumPoints(c, ps[..k]).Err?
    ensures SumPoints(c, ps) == SumPoints(c, ps[..k])
    decreases |ps|
  {
    if k < |ps| {
      var n := |ps| - 1;
      assert ps[..n][..k] == ps[..k];
      SumPointsStops(c, ps[..n], k);
    } else {
      assert ps[..k] == ps;
    }
  }

  method AggregateContributions(c: Curve, contributions: seq<WirePoint>) returns (r: Result<WirePoint, EcdhError>)
    requires c.order > 0
    ensures r == Aggregate(c, contributions)
  {
    if contributions == [] {
      return Err(EmptySet);
    }
    var acc := 0;
    var k := 0;
    while k < |contributions|
      invariant 0 <= k <= |contributions|
      invariant SumPoints(c, contributions[..k]) == Ok(acc)
    {
      var p := ToPoint(c, contributions[k]);
      assert contributions[..k + 1][..k] == contributions[..k];
      if p.Err? {
        SumPointsStops(c, contributions, k + 1);
        return Err(p.error);
      }
      acc := (acc + p.value) % c.order;
      k := k + 1;
    }
    assert contributions[..k] == contributions;
    return FromPoint(acc);
  }

  // ---- Validating the signing set ----

  function Ids(signers: seq<KeyPackage>): (s: seq<nat>)
    ensures |s| == |signers|
  {
    seq(|signers|, i requires 0 <= i < |signers| => signers[i].identifier)
  }

  /** The first fault the scan meets, at or after signer `k`. */
  function FirstFault(signers: seq<KeyPackage>, k: nat): Option<EcdhError>
    requires k <= |signers|
    decreases |signers| - k
  {
    if k == |signers| then None
    else if signers[k].identifier in Ids(signers)[..k] then Some(DuplicateSigner)
    else if signers[k].verifyingKey != signers[0].verifyingKey || signers[k].minSigners != signers[0].minSigners
    then Some(MismatchedGroup)
    else FirstFault(signers, k + 1)
  }

  function Validate(signers: seq<KeyPackage>): Result<nat, EcdhError> {
    if signers == [] then Err(EmptySet)
    else
      var fault := FirstFault(signers, 0);
      if fault.Some? then Err(fault.value)
      else if |signers| < signers[0].minSigners then Err(SubThreshold)
      else Ok(signers[0].verifyingKey)
  }

  method ValidateSigners(signers: seq<KeyPackage>) returns (r: Result<nat, EcdhError>)
    ensures r == Validate(signers)
  {
    if signers == [] {
      return Err(EmptySet);
    }
    var groupVk, minSigners := signers[0].verifyingKey, signers[0].minSigners;
    var seen: set<nat> := {};
    var k := 0;
    while k < |signers|
      invariant 0 <= k <= |signers|
      invariant seen == set x | x in Ids(signers)[..k]
      invariant FirstFault(signers, 0) == FirstFault(signers, k)
    {
      var kp := signers[k];
      if kp.identifier in seen {
        return Err(DuplicateSigner);
      }
      assert Ids(signers)[..k + 1] == Ids(signers)[..k] + [kp.identifier];
      seen := seen + {kp.identifier};
      if kp.verifyingKey != groupVk || kp.minSigners != minSigners {
        return Err(MismatchedGroup);
      }
      k := k + 1;
    }
    if |signers| < minSigners {
      return Err(SubThreshold);
    }
    return Ok(groupVk);
  }

  /** A set is accepted exactly when it is one consistent group of distinct signers at threshold. */
  lemma ValidateAccepts(signers: seq<KeyPackage>)
    ensures Validate(signers).Ok? <==>
            && signers != []
            && Distinct(Ids(signers))
            && (forall kp :: kp in signers ==>
                 kp.verifyingKey == signers[0].verifyingKey && kp.minSigners == signers[0].minSigners)
            && |signers| >= signers[0].minSigners
  {
    if signers != [] {
      FaultFree(signers, 0);
    }
  }

  lemma {:induction false} FaultFree(signers: seq<KeyPackage>, k: nat)
    requires signers != [] && k <= |signers| && Distinct(Ids(signers)[..k])
    ensures FirstFault(signers, k).None? <==>
            && Distinct(Ids(signers))
            && (forall i :: k <= i < |signers| ==>
                 signers[i].verifyingKey == signers[0].verifyingKey && signers[i].minSigners == signers[0].minSigners)
    decreases |signers| - k
  {
    var ids := Ids(signers);
    if k == |signers| {
      assert ids[..k] == ids;
    } else if ids[k] in ids[..k] {
      var j :| 0 <= j < k && ids[..k][j] == ids[k];
      assert ids[j] == ids[k];
    } else {
      assert ids[..k + 1] == ids[..k] + [ids[k]];
      FaultFree(signers, k + 1);
    }
  }

  // ---- The ceremonies ----

  /** The contributions of all signers, stopping at the first failure. */
  function Contributions(c: Curve, signers: seq<KeyPackage>, s: seq<nat>,
        peer: WirePoint): Result<seq<WirePoint>, EcdhError>
    requires c.order > 0
  {
    if signers == [] then Ok([])
    else
      var rest := Contributions(c, signers[..|signers| - 1], s, peer);
      if rest.Err? then rest
      else
        var last := HolderContribution(c, signers[|signers| - 1], s, peer);
        if last.Err? then Err(last.error) else Ok(rest.value + [last.value])
  }

  function ThresholdUntweaked(c: Curve, signers: seq<KeyPackage>, peerX: Str): Result<WirePoint, EcdhError>
    requires c.order > 0
  {
    var valid := Validate(signers);
    if valid.Err? then Err(valid.error)
    else
      var peer := c.lift(peerX);
      if peer.None? then Err(MalformedPoint)
      else
        var contributions := Contributions(c, signers, Ids(signers), Compressed(peer.value));
        if contributions.Err? then Err(contributions.error) else Aggregate(c, contributions.value)
  }

  function Neg(c: Curve, p: nat): nat
    requires p < c.order
  {
    if p == 0 then 0 else c.order - p
  }

  function LiftEven(c: Curve, p: nat): nat
    requires p < c.order
  {
    if c.odd(p) then Neg(c, p) else p
  }

  /** The taproot output key `Q = lift_even(P) + tG`. */
  function TweakedQ(c: Curve, p: nat): nat
    requires p < c.order
  {
    (LiftEven(c, p) + c.tweak(c.xOf(p))) % c.order
  }

  function TweakedQXonly(c: Curve, pubkeys: PublicKeyPackage): Result<Str, EcdhError>
    requires pubkeys.verifyingKey < c.order
  {
    var q := TweakedQ(c, pubkeys.verifyingKey);
    if q == 0 then Err(MalformedPoint) else Ok(c.xOf(q))
  }

  function ThresholdTweaked(c: Curve, signers: seq<KeyPackage>, pubkeys: PublicKeyPackage,
        peerX: Str): Result<WirePoint, EcdhError>
    requires 0 < pubkeys.verifyingKey < c.order
  {
    var valid := Validate(signers);
    if valid.Err? then Err(valid.error)
    else if valid.value != pubkeys.verifyingKey then Err(MismatchedGroup)
    else if exists kp :: kp in signers && kp.identifier !in pubkeys.members then Err(MismatchedGroup)
    else
      var peer := c.lift(peerX);
      if peer.None? then Err(MalformedPoint)
      else
        var combined := ThresholdUntweaked(c, signers, peerX);
        if combined.Err? then combined
        else
          var sB := ToPoint(c, combined.value);
          if sB.Err? then Err(sB.error)
          else
            var p := pubkeys.verifyingKey;
            var dB := if c.odd(p) then Neg(c, sB.value) else sB.value;
            FromPoint((dB + peer.value * c.tweak(c.xOf(p))) % c.order)
  }
}
