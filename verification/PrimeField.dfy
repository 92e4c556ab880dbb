/** Arithmetic modulo a prime, and Lagrange interpolation at zero for any number of points. */
module PrimeField {

  ghost predicate Prime(p: int) {
    p >= 2 && forall d :: 1 < d < p ==> p % d != 0
  }

  /** `a` and `b` differ by a multiple of `p`. */
  ghost predicate Cong(p: int, a: int, b: int) {
    exists k: int :: Differ(p, a, b, k)
  }

  predicate Differ(p: int, a: int, b: int, k: int) {
    a == b + k * p
  }

  // ---- Congruence is a ring congruence ----

  lemma CongRefl(p: int, a: int)
    ensures Cong(p, a, a)
  {
    assert Differ(p, a, a, 0);
  }

  lemma CongSym(p: int, a: int, b: int)
    requires Cong(p, a, b)
    ensures Cong(p, b, a)
  {
    var k :| Differ(p, a, b, k);
    assert Differ(p, b, a, -k);
  }

  lemma CongTrans(p: int, a: int, b: int, c: int)
    requires Cong(p, a, b) && Cong(p, b, c)
    ensures Cong(p, a, c)
  {
    var k :| Differ(p, a, b, k);
    var l :| Differ(p, b, c, l);
    assert Differ(p, a, c, k + l);
  }

  lemma CongAdd(p: int, a: int, b: int, c: int, d: int)
    requires Cong(p, a, b) && Cong(p, c, d)
    ensures Cong(p, a + c, b + d)
  {
    var k :| Differ(p, a, b, k);
    var l :| Differ(p, c, d, l);
    assert Differ(p, a + c, b + d, k + l);
  }

  lemma CongMul(p: int, a: int, b: int, m: int)
    requires Cong(p, a, b)
    ensures Cong(p, m * a, m * b)
  {
    var k :| Differ(p, a, b, k);
    assert m * a == m * b + (m * k) * p;
    assert Differ(p, m * a, m * b, m * k);
  }

  lemma ModCong(p: int, a: int)
    requires p > 0
    ensures Cong(p, a % p, a)
  {
    assert a % p == a + (-(a / p)) * p;
    assert Differ(p, a % p, a, -(a / p));
  }

  /** Canonical representatives are unique. */
  lemma CongCanonical(p: int, a: int, b: int)
    requires Cong(p, a, b) && 0 <= a < p && 0 <= b < p
    ensures a == b
  {
    var k :| Differ(p, a, b, k);
    MultipleIsFar(k, p);
  }

  lemma MultipleIsFar(k: int, p: int)
    ensures p > 0 && k >= 1 ==> k * p >= p
    ensures p > 0 && k <= -1 ==> k * p <= -p
  {
  }

  lemma CongMod(p: int, a: int, b: int)
    requires p > 0 && Cong(p, a, b)
    ensures a % p == b % p
  {
    ModCong(p, a);
    ModCong(p, b);
    CongSym(p, b % p, b);
    CongTrans(p, a % p, a, b);
    CongTrans(p, a % p, b, b % p);
    CongCanonical(p, a % p, b % p);
  }

  // ---- Inverses ----

  /** The inverse of a canonical non-zero scalar. */
  function Inverse(p: int, a: int): (r: int)
    requires 0 < a < p
    decreases a
  {
    if a == 1 || p % a == 0 then 1 else (-(p / a) * Inverse(p, p % a)) % p
  }

  lemma {:induction false} InverseInverts(p: int, a: int)
    requires Prime(p) && 0 < a < p
    ensures Cong(p, a * Inverse(p, a), 1)
    decreases a
  {
    if a == 1 {
      assert p % 1 == 0;
      CongRefl(p, 1);
    } else {
      assert p % a != 0;
      var q, r := p / a, p % a;
      var i := Inverse(p, r);
      InverseInverts(p, r);
      assert Inverse(p, a) == (-q * i) % p;
      ModCong(p, -q * i);
      InverseStep(p, a, q, r, i, Inverse(p, a));
    }
  }

  lemma InverseStep(p: int, a: int, q: int, r: int, i: int, m: int)
    requires p == q * a + r && Cong(p, m, -q * i) && Cong(p, r * i, 1)
    ensures Cong(p, a * m, 1)
  {
    hide *;
    CongMul(p, m, -q * i, a);
    InverseAlgebra(p, a, q, r, i);
    CongTrans(p, a * m, a * (-q * i), r * i);
    CongTrans(p, a * m, r * i, 1);
  }

  lemma InverseAlgebra(p: int, a: int, q: int, r: int, i: int)
    requires p == q * a + r
    ensures Cong(p, a * (-q * i), r * i)
  {
    assert a * (-q * i) == -(q * a) * i;
    assert -(q * a) * i == (r - p) * i;
    assert (r - p) * i == r * i + (-i) * p;
    assert Differ(p, a * (-q * i), r * i, -i);
  }

  /** What is not zero has an inverse. */
  lemma InverseOf(p: int, m: int) returns (i: int)
    requires Prime(p) && !Cong(p, m, 0)
    ensures Cong(p, i * m, 1)
  {
    var c := m % p;
    ModCong(p, m);
    CongSym(p, c, m);
    i := Inverse(p, c);
    InverseInverts(p, c);
    CongMul(p, m, c, i);
    assert i * c == c * i;
    CongTrans(p, i * m, i * c, 1);
  }

  lemma UnitTimes(p: int, i: int, m: int, a: int)
    requires Cong(p, i * m, 1)
    ensures Cong(p, i * (m * a), a)
  {
    CongMul(p, i * m, 1, a);
    assert a * (i * m) == i * (m * a);
  }

  /** A factor that is not zero can be cancelled. */
  lemma Cancel(p: int, m: int, a: int, b: int)
    requires Prime(p) && !Cong(p, m, 0)
    requires Cong(p, m * a, m * b)
    ensures Cong(p, a, b)
  {
    hide Cong;
    var i := InverseOf(p, m);
    UnitTimes(p, i, m, a);
    UnitTimes(p, i, m, b);
    CongMul(p, m * a, m * b, i);
    CongSym(p, i * (m * a), a);
    CongTrans(p, a, i * (m * a), i * (m * b));
    CongTrans(p, a, i * (m * b), b);
  }

  /** A prime field has no zero divisors. */
  lemma NoZeroDivisors(p: int, a: int, b: int)
    requires Prime(p) && !Cong(p, a, 0) && !Cong(p, b, 0)
    ensures !Cong(p, a * b, 0)
  {
    if Cong(p, a * b, 0) {
      assert a * 0 == 0;
      Cancel(p, a, b, 0);
    }
  }

  lemma NonZeroCanonical(p: int, a: int)
    requires 0 < a < p
    ensures !Cong(p, a, 0)
  {
    if Cong(p, a, 0) {
      CongCanonical(p, a, 0);
    }
  }

  // ---- Polynomials, as coefficient lists from the constant term up ----

  function Eval(f: seq<int>, x: int): int {
    if f == [] then 0 else f[0] + x * Eval(f[1..], x)
  }

  /** The quotient of `f(x) - f(a)` by `x - a`. */
  function Quotient(f: seq<int>, a: int): (g: seq<int>)
    ensures |g| == if f == [] then 0 else |f| - 1
  {
    if |f| <= 1 then [] else [Eval(f[1..], a)] + Quotient(f[1..], a)
  }

  lemma QuotientAlgebra(c: int, x: int, a: int, ea: int, eg: int)
    ensures c + x * (ea + (x - a) * eg) == c + a * ea + (x - a) * (ea + x * eg)
  {
    assert x * (ea + (x - a) * eg) == x * ea + (x - a) * (x * eg);
    assert x * ea == a * ea + (x - a) * ea;
    assert (x - a) * ea + (x - a) * (x * eg) == (x - a) * (ea + x * eg);
  }

  lemma {:induction false} QuotientDivides(f: seq<int>, a: int, x: int)
    ensures Eval(f, x) == Eval(f, a) + (x - a) * Eval(Quotient(f, a), x)
  {
    if |f| > 1 {
      var t := f[1..];
      var g := Quotient(t, a);
      QuotientDivides(t, a, x);
      assert Quotient(f, a)[1..] == g;
      QuotientAlgebra(f[0], x, a, Eval(t, a), Eval(g, x));
    } else if |f| == 1 {
      assert Eval(f[1..], x) == 0 && Eval(f[1..], a) == 0;
    }
  }

  /** The coefficients of `(y - x) * f(x)`. */
  function TimesRoot(f: seq<int>, y: int): (g: seq<int>)
    ensures |g| == |f| + 1
  {
    if f == [] then [0]
    else
      var t := TimesRoot(f[1..], y);
      [y * f[0]] + [t[0] - f[0]] + t[1..]
  }

  lemma {:induction false} TimesRootEval(f: seq<int>, y: int, x: int)
    ensures Eval(TimesRoot(f, y), x) == (y - x) * Eval(f, x)
  {
    if f == [] {
      assert Eval([0], x) == 0 + x * Eval([0][1..], x);
    } else {
      var t := TimesRoot(f[1..], y);
      TimesRootEval(f[1..], y, x);
      var g := TimesRoot(f, y);
      assert g[1..] == [t[0] - f[0]] + t[1..];
      assert g[1..][1..] == t[1..];
      var e, et := Eval(f[1..], x), Eval(t[1..], x);
      assert Eval(g, x) == y * f[0] + x * (t[0] - f[0] + x * et);
      assert t[0] + x * et == (y - x) * e;
      assert x * (t[0] - f[0] + x * et) == x * (t[0] + x * et) - x * f[0];
      assert x * ((y - x) * e) == (y - x) * (x * e);
      assert (y - x) * f[0] == y * f[0] - x * f[0];
      assert (y - x) * (f[0] + x * e) == (y - x) * f[0] + (y - x) * (x * e);
    }
  }

  /** The polynomial `(y0 - x)(y1 - x)...`. */
  function RootsPoly(ys: seq<int>): (g: seq<int>)
    ensures |g| == |ys| + 1
  {
    if ys == [] then [1] else TimesRoot(RootsPoly(ys[..|ys| - 1]), ys[|ys| - 1])
  }

  /** The product of `y - c` over `ys`. */
  function ProdDiff(ys: seq<int>, c: int): int {
    if ys == [] then 1 else ProdDiff(ys[..|ys| - 1], c) * (ys[|ys| - 1] - c)
  }

  lemma {:induction false} RootsPolyEval(ys: seq<int>, x: int)
    ensures Eval(RootsPoly(ys), x) == ProdDiff(ys, x)
  {
    if ys == [] {
      assert Eval([1], x) == 1 + x * Eval([1][1..], x);
    } else {
      var n := |ys| - 1;
      RootsPolyEval(ys[..n], x);
      TimesRootEval(RootsPoly(ys[..n]), ys[n], x);
    }
  }

  lemma {:induction false} ProdDiffZero(ys: seq<int>, c: int, i: nat)
    requires i < |ys| && ys[i] == c
    ensures ProdDiff(ys, c) == 0
  {
    var n := |ys| - 1;
    if i < n {
      ProdDiffZero(ys[..n], c, i);
    }
  }

  lemma {:induction false} ProdDiffNonZero(p: int, ys: seq<int>, c: int)
    requires Prime(p) && forall y :: y in ys ==> !Cong(p, y - c, 0)
    ensures !Cong(p, ProdDiff(ys, c), 0)
  {
    if ys == [] {
      NonZeroCanonical(p, 1);
    } else {
      var n := |ys| - 1;
      assert ys[n] in ys && forall y :: y in ys[..n] ==> y in ys;
      ProdDiffNonZero(p, ys[..n], c);
      NoZeroDivisors(p, ProdDiff(ys[..n], c), ys[n] - c);
    }
  }

  // ---- Lagrange interpolation at zero ----

  function Remove(xs: seq<int>, i: nat): seq<int>
    requires i < |xs|
  {
    xs[..i] + xs[i + 1..]
  }

  /** `w` is a Lagrange weight of node `i`: it solves `w * prod(x_j - x_i) = prod x_j` over `j != i`. */
  ghost predicate Weight(p: int, xs: seq<int>, i: nat, w: int)
    requires i < |xs|
  {
    Cong(p, w * ProdDiff(Remove(xs, i), xs[i]), ProdDiff(Remove(xs, i), 0))
  }

  ghost predicate Weights(p: int, xs: seq<int>, ws: seq<int>) {
    |ws| == |xs| && forall i :: 0 <= i < |xs| ==> Weight(p, xs, i, ws[i])
  }

  ghost predicate DistinctMod(p: int, xs: seq<int>) {
    forall i, j :: 0 <= i < |xs| && 0 <= j < |xs| && i != j ==> !Cong(p, xs[j] - xs[i], 0)
  }

  function Dot(ws: seq<int>, ys: seq<int>): int
    requires |ws| == |ys|
  {
    if ws == [] then 0 else Dot(ws[..|ws| - 1], ys[..|ws| - 1]) + ws[|ws| - 1] * ys[|ws| - 1]
  }

  function Values(f: seq<int>, xs: seq<int>): (ys: seq<int>)
    ensures |ys| == |xs|
  {
    seq(|xs|, i requires 0 <= i < |xs| => Eval(f, xs[i]))
  }

  function Sum(ws: seq<int>): int {
    if ws == [] then 0 else Sum(ws[..|ws| - 1]) + ws[|ws| - 1]
  }

  /** Weights exist: every denominator is invertible. */
  lemma WeightExists(p: int, xs: seq<int>, i: nat) returns (w: int)
    requires Prime(p) && DistinctMod(p, xs) && i < |xs|
    ensures Weight(p, xs, i, w)
    ensures !Cong(p, ProdDiff(Remove(xs, i), xs[i]), 0)
  {
    var den, num := ProdDiff(Remove(xs, i), xs[i]), ProdDiff(Remove(xs, i), 0);
    DenominatorNonZero(p, xs, i);
    var c := den % p;
    ModCong(p, den);
    if c == 0 {
      CongSym(p, c, den);
      assert false;
    }
    w := num * Inverse(p, c);
    InverseWeight(p, den, num);
  }

  lemma DenominatorNonZero(p: int, xs: seq<int>, i: nat)
    requires Prime(p) && DistinctMod(p, xs) && i < |xs|
    ensures !Cong(p, ProdDiff(Remove(xs, i), xs[i]), 0)
  {
    forall y | y in Remove(xs, i) ensures !Cong(p, y - xs[i], 0) {
      var j :| 0 <= j < |Remove(xs, i)| && Remove(xs, i)[j] == y;
      assert y == xs[if j < i then j else j + 1];
    }
    ProdDiffNonZero(p, Remove(xs, i), xs[i]);
  }

  /** Numerator times inverted denominator solves the weight equation. */
  lemma InverseWeight(p: int, den: int, num: int)
    requires Prime(p) && den % p != 0
    ensures Cong(p, num * Inverse(p, den % p) * den, num)
  {
    var c := den % p;
    ModCong(p, den);
    CongSym(p, c, den);
    InverseInverts(p, c);
    UnitWeight(p, den, num, c, Inverse(p, c));
  }

  lemma UnitWeight(p: int, den: int, num: int, c: int, i: int)
    requires Cong(p, den, c) && Cong(p, c * i, 1)
    ensures Cong(p, num * i * den, num)
  {
    hide *;
    CongMul(p, den, c, i);
    assert i * c == c * i;
    CongTrans(p, i * den, c * i, 1);
    CongMul(p, i * den, 1, num);
    assert num * (i * den) == num * i * den;
  }

  lemma {:induction false} WeightsExist(p: int, xs: seq<int>, n: nat) returns (ws: seq<int>)
    requires Prime(p) && DistinctMod(p, xs) && n <= |xs|
    ensures |ws| == n && forall i :: 0 <= i < n ==> Weight(p, xs, i, ws[i])
  {
    if n == 0 {
      ws := [];
    } else {
      var rest := WeightsExist(p, xs, n - 1);
      var w := WeightExists(p, xs, n - 1);
      ws := rest + [w];
    }
  }

  lemma DropAlgebra(w: int, den: int, num: int, a: int, x: int, w': int)
    ensures -1 * (w * (den * (a - x))) == den * (w * (x - a))
    ensures -1 * (num * (a - 0)) == -a * num
    ensures -a * (w' * den) == den * (-a * w')
  {
    assert w * (den * (a - x)) == den * (w * (a - x));
    assert w * (x - a) == -(w * (a - x));
  }

  /** Dropping the last node `a` rescales every other weight: `w * (a - x_i) = a * w'`. */
  lemma WeightDrops(p: int, xs: seq<int>, a: int, i: nat, w: int, w': int)
    requires Prime(p) && DistinctMod(p, xs) && i < |xs|
    requires Weight(p, xs + [a], i, w) && Weight(p, xs, i, w')
    ensures Cong(p, w * (xs[i] - a), -a * w')
  {
    hide Cong;
    var rest := Remove(xs, i);
    assert Remove(xs + [a], i) == rest + [a];
    assert (rest + [a])[..|rest|] == rest;
    var den, num := ProdDiff(rest, xs[i]), ProdDiff(rest, 0);
    assert ProdDiff(rest + [a], xs[i]) == den * (a - xs[i]);
    assert ProdDiff(rest + [a], 0) == num * (a - 0);
    DenominatorNonZero(p, xs, i);
    hide ProdDiff;
    CongMul(p, w' * den, num, -a);
    CongMul(p, w * (den * (a - xs[i])), num * (a - 0), -1);
    DropAlgebra(w, den, num, a, xs[i], w');
    CongSym(p, -a * (w' * den), -a * num);
    CongTrans(p, -1 * (w * (den * (a - xs[i]))), -a * num, -a * (w' * den));
    Cancel(p, den, w * (xs[i] - a), -a * w');
  }

  /** `f(x_i) = f(a) + (x_i - a) g(x_i)`, summed. */
  lemma SplitAlgebra(d: int, fa: int, sum: int, w: int, x: int, a: int, gx: int, rest: int)
    requires d == fa * sum + rest
    ensures d + w * (fa + (x - a) * gx) == fa * (sum + w) + (rest + w * (x - a) * gx)
  {
    assert w * (fa + (x - a) * gx) == w * fa + w * ((x - a) * gx);
    assert w * ((x - a) * gx) == w * (x - a) * gx;
    assert fa * (sum + w) == fa * sum + fa * w;
  }

  lemma {:induction false} DotSplits(ws: seq<int>, xs: seq<int>, f: seq<int>, a: int)
    requires |ws| == |xs|
    ensures Dot(ws, Values(f, xs)) ==
            Eval(f, a) * Sum(ws) + Dot(Shifted(ws, xs, a), Values(Quotient(f, a), xs))
  {
    if xs != [] {
      var n := |xs| - 1;
      var g := Quotient(f, a);
      DotSplits(ws[..n], xs[..n], f, a);
      assert Values(f, xs)[..n] == Values(f, xs[..n]);
      assert Values(g, xs)[..n] == Values(g, xs[..n]);
      assert Shifted(ws, xs, a)[..n] == Shifted(ws[..n], xs[..n], a);
      QuotientDivides(f, a, xs[n]);
      hide Eval;
      hide Quotient;
      SplitAlgebra(Dot(ws[..n], Values(f, xs[..n])), Eval(f, a), Sum(ws[..n]), ws[n], xs[n], a, Eval(g, xs[n]),
        Dot(Shifted(ws[..n], xs[..n], a), Values(g, xs[..n])));
    }
  }

  function Shifted(ws: seq<int>, xs: seq<int>, a: int): (r: seq<int>)
    requires |ws| == |xs|
    ensures |r| == |ws|
  {
    seq(|ws|, i requires 0 <= i < |ws| => ws[i] * (xs[i] - a))
  }

  lemma {:induction false} DotCong(p: int, us: seq<int>, vs: seq<int>, m: int, ys: seq<int>)
    requires |us| == |vs| == |ys|
    requires forall i :: 0 <= i < |us| ==> Cong(p, us[i], m * vs[i])
    ensures Cong(p, Dot(us, ys), m * Dot(vs, ys))
  {
    if us == [] {
      CongRefl(p, 0);
    } else {
      var n := |us| - 1;
      DotCong(p, us[..n], vs[..n], m, ys[..n]);
      CongMul(p, us[n], m * vs[n], ys[n]);
      assert ys[n] * us[n] == us[n] * ys[n] && ys[n] * (m * vs[n]) == m * (vs[n] * ys[n]);
      CongAdd(p, Dot(us[..n], ys[..n]), m * Dot(vs[..n], ys[..n]), us[n] * ys[n], m * (vs[n] * ys[n]));
      assert m * (Dot(vs[..n], ys[..n]) + vs[n] * ys[n]) == m * Dot(vs[..n], ys[..n]) + m * (vs[n] * ys[n]);
    }
  }

  // ---- The interpolation theorem ----

  lemma ShiftedShape(xs: seq<int>, a: int, ws: seq<int>, g: seq<int>)
    requires |ws| == |xs| + 1
    ensures Dot(Shifted(ws, xs + [a], a), Values(g, xs + [a])) == Dot(Shifted(ws[..|xs|], xs, a), Values(g, xs))
  {
    hide Eval;
    var n, all := |xs|, xs + [a];
    var us, ys := Shifted(ws, all, a), Values(g, all);
    assert us[..n] == Shifted(ws[..n], xs, a) && ys[..n] == Values(g, xs);
    assert us[n] == ws[n] * (a - a) == 0;
    assert us[n] * ys[n] == 0;
  }

  lemma ShiftedCong(p: int, xs: seq<int>, a: int, ws: seq<int>, ws': seq<int>, g: seq<int>)
    requires Prime(p) && DistinctMod(p, xs)
    requires Weights(p, xs + [a], ws) && Weights(p, xs, ws')
    ensures Cong(p, Dot(Shifted(ws[..|xs|], xs, a), Values(g, xs)), -a * Dot(ws', Values(g, xs)))
  {
    hide Cong;
    hide Eval;
    hide Dot;
    var n, all := |xs|, xs + [a];
    var us := Shifted(ws[..n], xs, a);
    forall i | 0 <= i < n ensures Cong(p, us[i], -a * ws'[i]) {
      assert all[i] == xs[i];
      WeightDrops(p, xs, a, i, ws[i], ws'[i]);
    }
    DotCong(p, us, ws', -a, Values(g, xs));
  }

  /** `f(0)` from the nodes `xs + [a]`, when the theorem holds for `xs`. */
  lemma DotReduces(p: int, xs: seq<int>, a: int, ws: seq<int>, ws': seq<int>, f: seq<int>)
    requires Prime(p) && DistinctMod(p, xs)
    requires Weights(p, xs + [a], ws) && Weights(p, xs, ws')
    requires Cong(p, Dot(ws', Values(Quotient(f, a), xs)), Eval(Quotient(f, a), 0))
    ensures Cong(p, Dot(ws, Values(f, xs + [a])), Eval(f, a) * Sum(ws) + (Eval(f, 0) - Eval(f, a)))
  {
    var g, n, all := Quotient(f, a), |xs|, xs + [a];
    assert |ws| == |all|;
    hide *;
    DotSplits(ws, all, f, a);
    ShiftedShape(xs, a, ws, g);
    ShiftedCong(p, xs, a, ws, ws', g);
    QuotientDivides(f, a, 0);
    var rest, e, g0 := Dot(Shifted(ws[..n], xs, a), Values(g, xs)), Dot(ws', Values(g, xs)), Eval(g, 0);
    CongMul(p, e, g0, -a);
    CongTrans(p, rest, -a * e, -a * g0);
    assert Eval(f, 0) - Eval(f, a) == -a * g0;
    CongRefl(p, Eval(f, a) * Sum(ws));
    CongAdd(p, Eval(f, a) * Sum(ws), Eval(f, a) * Sum(ws), rest, -a * g0);
  }

  /** A dot product whose values vanish but for the last. */
  lemma {:induction false} DotLast(ws: seq<int>, ys: seq<int>)
    requires |ws| == |ys| > 0 && forall i :: 0 <= i < |ys| - 1 ==> ys[i] == 0
    ensures Dot(ws, ys) == ws[|ws| - 1] * ys[|ys| - 1]
  {
    DotZero(ws[..|ws| - 1], ys[..|ys| - 1]);
  }

  lemma {:induction false} DotZero(ws: seq<int>, ys: seq<int>)
    requires |ws| == |ys| && forall i :: 0 <= i < |ys| ==> ys[i] == 0
    ensures Dot(ws, ys) == 0
  {
    if ws != [] {
      DotZero(ws[..|ws| - 1], ys[..|ys| - 1]);
    }
  }

  /** The polynomial that vanishes at `xs` picks out the last node. */
  lemma RootsPick(p: int, xs: seq<int>, a: int, ws: seq<int>)
    requires Weights(p, xs + [a], ws)
    ensures var f := RootsPoly(xs);
            Dot(ws, Values(f, xs + [a])) == ws[|xs|] * Eval(f, a) && Cong(p, ws[|xs|] * Eval(f, a), Eval(f, 0))
    ensures ProdDiff(Remove(xs + [a], |xs|), (xs + [a])[|xs|]) == Eval(RootsPoly(xs), a)
  {
    var f, n, all := RootsPoly(xs), |xs|, xs + [a];
    forall i | 0 <= i < n ensures Values(f, all)[i] == 0 {
      RootsPolyEval(xs, xs[i]);
      ProdDiffZero(xs, xs[i], i);
    }
    DotLast(ws, Values(f, all));
    RootsPolyEval(xs, a);
    RootsPolyEval(xs, 0);
    assert Remove(all, n) == xs;
    assert Weight(p, all, n, ws[n]);
  }

  /** The weights of a set of nodes sum to one. */
  lemma WeightsSumToOne(p: int, xs: seq<int>, a: int, ws: seq<int>, ws': seq<int>)
    requires Prime(p) && DistinctMod(p, xs + [a]) && DistinctMod(p, xs)
    requires Weights(p, xs + [a], ws) && Weights(p, xs, ws')
    requires Cong(p, Dot(ws', Values(Quotient(RootsPoly(xs), a), xs)), Eval(Quotient(RootsPoly(xs), a), 0))
    ensures Cong(p, Sum(ws), 1)
  {
    assert |ws| == |xs| + 1;
    hide *;
    var f := RootsPoly(xs);
    DotReduces(p, xs, a, ws, ws', f);
    RootsPick(p, xs, a, ws);
    DenominatorNonZero(p, xs + [a], |xs|);
    SumIsOne(p, ws[|xs|] * Eval(f, a), Eval(f, a), Eval(f, 0), Sum(ws));
  }

  lemma SumIsOne(p: int, last: int, fa: int, f0: int, s: int)
    requires Prime(p) && !Cong(p, fa, 0)
    requires Cong(p, last, fa * s + (f0 - fa)) && Cong(p, last, f0)
    ensures Cong(p, s, 1)
  {
    hide *;
    CongSym(p, last, fa * s + (f0 - fa));
    CongTrans(p, fa * s + (f0 - fa), last, f0);
    CongRefl(p, fa - f0);
    CongAdd(p, fa * s + (f0 - fa), f0, fa - f0, fa - f0);
    assert fa * s + (f0 - fa) + (fa - f0) == fa * s && f0 + (fa - f0) == fa * 1;
    Cancel(p, fa, s, 1);
  }

  /** Over any prime field, any polynomial with at most as many coefficients as there are distinct
      nodes is recovered at zero from its values at the nodes. */
  lemma {:induction false} Interpolation(p: int, xs: seq<int>, ws: seq<int>, f: seq<int>)
    requires Prime(p) && DistinctMod(p, xs) && Weights(p, xs, ws) && |f| <= |xs|
    ensures Cong(p, Dot(ws, Values(f, xs)), Eval(f, 0))
    decreases |xs|
  {
    hide Cong;
    hide Eval;
    if xs == [] {
      EvalEmpty(f, 0);
      CongRefl(p, 0);
    } else {
      var n := |xs| - 1;
      var xs', a := xs[..n], xs[n];
      assert xs' + [a] == xs;
      DistinctPrefix(p, xs, n);
      hide *;
      var ws' := WeightsOf(p, xs');
      Interpolation(p, xs', ws', Quotient(RootsPoly(xs'), a));
      WeightsSumToOne(p, xs', a, ws, ws');
      Interpolation(p, xs', ws', Quotient(f, a));
      DotReduces(p, xs', a, ws, ws', f);
      var fa, s, f0 := Eval(f, a), Sum(ws), Eval(f, 0);
      CongMul(p, s, 1, fa);
      CongRefl(p, f0 - fa);
      CongAdd(p, fa * s, fa * 1, f0 - fa, f0 - fa);
      CongTrans(p, Dot(ws, Values(f, xs)), fa * s + (f0 - fa), fa * 1 + (f0 - fa));
    }
  }

  lemma DistinctPrefix(p: int, xs: seq<int>, n: nat)
    requires DistinctMod(p, xs) && n <= |xs|
    ensures DistinctMod(p, xs[..n])
  {
    forall i, j | 0 <= i < n && 0 <= j < n && i != j ensures !Cong(p, xs[..n][j] - xs[..n][i], 0) {
      assert xs[..n][j] == xs[j] && xs[..n][i] == xs[i];
    }
  }

  lemma WeightsOf(p: int, xs: seq<int>) returns (ws: seq<int>)
    requires Prime(p) && DistinctMod(p, xs)
    ensures |ws| == |xs| && Weights(p, xs, ws)
  {
    ws := WeightsExist(p, xs, |xs|);
  }

  lemma EvalEmpty(f: seq<int>, x: int)
    requires f == []
    ensures Eval(f, x) == 0
  {
  }
}
