/** asim's RED router: the dropping probability that makes the queue of the thinned load agree
    with the RED line, in exact reals. */
module RedSolver {
  import opened Common

  /** MinTh, MaxTh, MaxP with the load thresholds Populate derives from them. */
  datatype Red = Red(minTh: real, maxTh: real, maxP: real, lambdaL: real, lambdaH: real)

  predicate ParamsOk(minTh: real, maxTh: real, maxP: real) {
    0.0 <= minTh < maxTh && 0.0 < maxP
  }

  /** The load at which the unthinned queue would have length q: q / (1 + q). */
  function LoadFor(q: real): real
    requires q >= 0.0
  {
    q / (1.0 + q)
  }

  /** Mean queue at load rho: rho / (1 - rho). */
  function QueueAt(rho: real): real
    requires rho < 1.0
  {
    rho / (1.0 - rho)
  }

  predicate Valid(r: Red) {
    && ParamsOk(r.minTh, r.maxTh, r.maxP)
    && r.lambdaL == LoadFor(r.minTh)
    && (r.maxP < 1.0 ==> r.lambdaH == LoadFor(r.maxTh) / (1.0 - r.maxP))
  }

  function Slope(r: Red): real
    requires r.maxP != 0.0
  {
    (r.maxTh - r.minTh) / r.maxP
  }

  /** The queue length at which RED drops with probability p. */
  function RedLine(r: Red, p: real): real
    requires r.maxP != 0.0
  {
    r.minTh + p * Slope(r)
  }

  // Coefficients of the quadratic in p.

  function A(r: Red, load: real): real
    requires r.maxP != 0.0
  {
    load * (r.maxTh - r.minTh) / r.maxP
  }

  function B(r: Red, load: real): real
    requires r.maxP != 0.0
  {
    (r.maxTh - r.minTh) * (1.0 - load) / r.maxP + r.minTh * load + load
  }

  function C(r: Red, load: real): real {
    r.minTh * (1.0 - load) - load
  }

  function Disc(a: real, b: real, c: real): real {
    b * b - 4.0 * a * c
  }

  function Poly(a: real, b: real, c: real, p: real): real {
    a * p * p + b * p + c
  }

  function HighP(r: Red, load: real): real
    requires load != 0.0
  {
    (load - r.lambdaH * (1.0 - r.maxP)) / load
  }

  function MiddleP(r: Red, load: real, root: real): real
    requires r.maxP != 0.0 && A(r, load) != 0.0
  {
    (-B(r, load) + root) / (2.0 * A(r, load))
  }

  /** Above the upper threshold, which exists only for MaxP below 1. */
  predicate High(r: Red, load: real) {
    r.maxP < 1.0 && load > r.lambdaH
  }

  predicate Middle(r: Red, load: real) {
    r.lambdaL < load && !High(r, load)
  }

  class RedRouter {
    const minTh: real
    const maxTh: real
    const maxP: real
    var lambdaL: real
    var lambdaH: real

    ghost function State(): Red
      reads this
    {
      Red(minTh, maxTh, maxP, lambdaL, lambdaH)
    }

    /** unset is what a threshold holds that Populate leaves alone or that has no finite value. */
    constructor (minTh: int, maxTh: int, maxP: real, unset: real)
      ensures ParamsOk(minTh as real, maxTh as real, maxP) ==> Populated()
      ensures this.minTh == minTh as real && this.maxTh == maxTh as real && this.maxP == maxP
      ensures minTh >= 0 ==> lambdaL < 1.0 && QueueAt(lambdaL) == minTh as real
      ensures maxP >= 1.0 ==> lambdaH == unset
    {
      this.minTh, this.maxTh, this.maxP := minTh as real, maxTh as real, maxP;
      lambdaL := if minTh != -1 then minTh as real / (1.0 + minTh as real) else unset;
      lambdaH := if maxP < 1.0 && maxTh != -1 then maxTh as real / (1.0 + maxTh as real) / (1.0 - maxP) else unset;
      if minTh >= 0 {
        QueueOfLoad(minTh as real);
      }
    }

    ghost predicate Populated()
      reads this
    {
      Valid(State())
    }

    /** ComputeProbability. root is the square root the original takes of the discriminant; a
        middle load has a positive one, see MiddleSigns. */
    method ComputeProbability(load: real, root: real) returns (p: real, delay: real)
      requires Populated() && load > 0.0
      requires Middle(State(), load) ==>
                 root >= 0.0 && root * root == Disc(A(State(), load), B(State(), load), C(State(), load))
      ensures Solves(State(), load, p)
      ensures delay == if load <= lambdaL then QueueAt(load) else if High(State(), load) then maxTh else RedLine(State(), p)
    {
      var r := Red(minTh, maxTh, maxP, lambdaL, lambdaH);
      if load <= lambdaL {
        LowLoad(r, load);
        return 0.0, QueueAt(load);
      }
      if maxP < 1.0 && load > lambdaH {
        p := HighP(r, load);
        HighLoad(r, load, p);
        return p, maxTh;
      }
      MiddleSigns(r, load);
      p := MiddleP(r, load, root);
      MiddleLoad(r, load, root, p);
      delay := QueueAt(load * (1.0 - p));
    }
  }

  /** What the result means. Low load: no drops, and the queue is below MinTh. Middle: the queue
      of the thinned load lies on the RED line, at a probability of at most MaxP. High: the thinned
      load is pinned at the one whose queue is MaxTh. */
  ghost predicate Solves(r: Red, load: real, p: real)
    requires Valid(r) && load > 0.0
  {
    && 0.0 <= p < 1.0
    && (load <= r.lambdaL ==> p == 0.0 && load < 1.0 && QueueAt(load) <= r.minTh)
    && (Middle(r, load) ==>
          0.0 < p <= r.maxP && load * (1.0 - p) < 1.0 && QueueAt(load * (1.0 - p)) == RedLine(r, p))
    && (High(r, load) ==> r.maxP < p && load * (1.0 - p) == LoadFor(r.maxTh))
  }

  // ----- arithmetic -----

  lemma DivEq(x: real, y: real, q: real)
    requires y != 0.0 && q * y == x
    ensures x / y == q
  {
  }

  lemma MulLe(k: real, a: real, b: real)
    requires k >= 0.0 && a <= b
    ensures k * a <= k * b
  {
  }

  lemma MulLt(k: real, a: real, b: real)
    requires k > 0.0 && a < b
    ensures k * a < k * b
  {
  }

  lemma MulPos(a: real, b: real)
    requires a > 0.0 && b > 0.0
    ensures a * b > 0.0
  {
  }

  /** rho <= q / (1 + q) says rho (1 + q) <= q. */
  lemma LoadForBound(q: real, rho: real)
    requires q >= 0.0
    ensures rho <= LoadFor(q) <==> rho * (1.0 + q) <= q
    ensures rho == LoadFor(q) <==> rho * (1.0 + q) == q
    ensures 0.0 <= LoadFor(q) < 1.0
  {
    var t := LoadFor(q);
    DivideBack(q, 1.0 + q);
    assert t * (1.0 + q) == q;
    if rho < t { MulLt(1.0 + q, rho, t); }
    if rho > t { MulLt(1.0 + q, t, rho); }
    if t >= 1.0 { MulLe(1.0 + q, 1.0, t); }
    if t < 0.0 { MulLt(1.0 + q, t, 0.0); }
  }

  lemma LowLoad(r: Red, load: real)
    requires Valid(r) && 0.0 < load <= r.lambdaL
    ensures Solves(r, load, 0.0)
  {
    LoadForBound(r.minTh, load);
    ThresholdsOrdered(r);
    assert load * (1.0 + r.minTh) == load + load * r.minTh;
    var q := QueueAt(load);
    DivideBack(load, 1.0 - load);
    assert q * (1.0 - load) <= r.minTh * (1.0 - load);
    if q > r.minTh { MulLt(1.0 - load, r.minTh, q); }
  }

  lemma ThresholdsOrdered(r: Red)
    requires Valid(r)
    ensures 0.0 <= r.lambdaL < 1.0
    ensures r.maxP < 1.0 ==> r.lambdaL < r.lambdaH
  {
    LoadForBound(r.minTh, r.lambdaL);
    if r.maxP < 1.0 {
      UpperAboveLower(r);
    }
  }

  lemma UpperAboveLower(r: Red)
    requires Valid(r) && r.maxP < 1.0 && 0.0 <= r.lambdaL < 1.0
    ensures r.lambdaL < r.lambdaH
  {
    LoadForBound(r.minTh, r.lambdaL);
    LoadForBound(r.maxTh, r.lambdaL);
    LoadForBound(r.maxTh, LoadFor(r.maxTh));
    var t, d := LoadFor(r.maxTh), 1.0 - r.maxP;
    DivideBack(t, d);
    assert r.lambdaL * (1.0 + r.maxTh) == r.lambdaL * (1.0 + r.minTh) + r.lambdaL * (r.maxTh - r.minTh);
    MulLt(r.maxTh - r.minTh, r.lambdaL, 1.0);
    assert r.lambdaL < t;
    DivideGrows(t, d, r.lambdaH);
  }

  lemma DivideGrows(t: real, d: real, h: real)
    requires t > 0.0 && 0.0 < d < 1.0 && h * d == t
    ensures h > t
  {
    MulLt(t, d, 1.0);
    if h <= t { MulLe(d, h, t); }
  }

  lemma HighLoad(r: Red, load: real, p: real)
    requires Valid(r) && High(r, load) && load > 0.0 && p == HighP(r, load)
    ensures Solves(r, load, p)
  {
    var t, d := LoadFor(r.maxTh), 1.0 - r.maxP;
    ThresholdsOrdered(r);
    LoadForBound(r.maxTh, 0.0);
    DivideBack(t, d);
    DivideBack(load - t, load);
    Pinned(load, p, t);
    AboveMaxP(load, r.lambdaH, d, t, p, r.maxP);
  }

  lemma Pinned(load: real, p: real, t: real)
    requires load > 0.0 && t > 0.0 && p * load == load - t
    ensures load * (1.0 - p) == t && p < 1.0
  {
    assert load * (1.0 - p) == load - p * load;
    if p >= 1.0 { MulLe(load, 1.0, p); }
  }

  lemma AboveMaxP(load: real, lambdaH: real, d: real, t: real, p: real, maxP: real)
    requires d == 1.0 - maxP && d > 0.0 && lambdaH * d == t && load > lambdaH && load > 0.0 && p * load == load - t
    ensures maxP < p
  {
    MulLt(d, lambdaH, load);
    assert d * load == load - maxP * load;
    if p <= maxP { MulLe(load, p, maxP); }
  }

  // ----- the middle regime -----

  lemma Coefficients(r: Red, load: real)
    requires Valid(r)
    ensures Slope(r) > 0.0 && Slope(r) * r.maxP == r.maxTh - r.minTh
    ensures A(r, load) == load * Slope(r)
    ensures B(r, load) == Slope(r) * (1.0 - load) + r.minTh * load + load
    ensures C(r, load) == r.minTh - load * (1.0 + r.minTh)
  {
    var k, d := Slope(r), r.maxTh - r.minTh;
    DivideBack(d, r.maxP);
    if k <= 0.0 { MulLe(r.maxP, k, 0.0); }
    assert (load * k) * r.maxP == load * (k * r.maxP);
    DivEq(load * d, r.maxP, load * k);
    assert (k * (1.0 - load)) * r.maxP == (k * r.maxP) * (1.0 - load);
    DivEq(d * (1.0 - load), r.maxP, k * (1.0 - load));
    assert load * (1.0 + r.minTh) == load + r.minTh * load;
  }

  /** A middle load has a positive leading coefficient, a negative constant one, and so a
      positive discriminant: its square root exists. */
  lemma MiddleSigns(r: Red, load: real)
    requires Valid(r) && Middle(r, load)
    ensures load > 0.0 && A(r, load) > 0.0 && C(r, load) < 0.0
    ensures Disc(A(r, load), B(r, load), C(r, load)) > 0.0
  {
    ThresholdsOrdered(r);
    Coefficients(r, load);
    LoadForBound(r.minTh, load);
    MulPos(load, Slope(r));
    DiscPositive(A(r, load), B(r, load), C(r, load));
  }

  lemma DiscPositive(a: real, b: real, c: real)
    requires a > 0.0 && c < 0.0
    ensures Disc(a, b, c) > b * b >= 0.0
  {
    MulPos(a, -c);
    assert 4.0 * a * c == -4.0 * (a * -c);
  }

  /** The root taken is positive and solves the quadratic. */
  lemma RootSolves(a: real, b: real, c: real, root: real, p: real)
    requires a > 0.0 && c < 0.0 && root >= 0.0 && root * root == Disc(a, b, c) && p == (-b + root) / (2.0 * a)
    ensures p > 0.0 && Poly(a, b, c, p) == 0.0
  {
    DivideBack(-b + root, 2.0 * a);
    var x := 2.0 * a * p;
    assert x == root - b;
    RootBeats(a, b, c, root);
    if p <= 0.0 { MulLe(2.0 * a, p, 0.0); }
    SquareOut(a, b, c, p, root);
  }

  lemma RootBeats(a: real, b: real, c: real, root: real)
    requires a > 0.0 && c < 0.0 && root >= 0.0 && root * root == Disc(a, b, c)
    ensures root > b
  {
    DiscPositive(a, b, c);
    if root <= b { MulLe(root, root, b); MulLe(b, root, b); }
  }

  lemma SquareOut(a: real, b: real, c: real, p: real, root: real)
    requires a > 0.0 && root == 2.0 * a * p + b && root * root == Disc(a, b, c)
    ensures Poly(a, b, c, p) == 0.0
  {
    var y := Poly(a, b, c, p);
    assert root * root == (2.0 * a * p + b) * (2.0 * a * p + b);
    assert (2.0 * a * p + b) * (2.0 * a * p + b) == 4.0 * a * (a * p * p + b * p) + b * b;
    assert 4.0 * a * (a * p * p + b * p) + 4.0 * a * c == 4.0 * a * y;
    if y > 0.0 { MulPos(4.0 * a, y); }
    if y < 0.0 { MulPos(4.0 * a, -y); }
  }

  /** Below its positive root the quadratic is negative. */
  lemma NegativeBelowRoot(a: real, b: real, c: real, q: real, p: real)
    requires a > 0.0 && c < 0.0 && 0.0 < q < p && Poly(a, b, c, p) == 0.0
    ensures Poly(a, b, c, q) < 0.0
  {
    var f := Poly(a, b, c, q);
    MulPos(a, q);
    MulPos(a * q, p);
    MulPos(p - q, a * q * p - c);
    assert p * f - q * Poly(a, b, c, p) == -(p - q) * (a * q * p - c) by {
      CrossProduct(a, b, c, q, p);
    }
    if f >= 0.0 { MulLe(p, 0.0, f); }
  }

  lemma CrossProduct(a: real, b: real, c: real, q: real, p: real)
    ensures p * Poly(a, b, c, q) - q * Poly(a, b, c, p) == -(p - q) * (a * q * p - c)
  {
  }

  /** The quadratic at p measures how far the RED line lies above the thinned queue. */
  lemma PolyValue(r: Red, load: real, p: real)
    requires Valid(r)
    ensures var rho, y := load * (1.0 - p), RedLine(r, p);
            Poly(A(r, load), B(r, load), C(r, load), p) == y - rho * (1.0 + y)
  {
    Coefficients(r, load);
    PolyForm(Slope(r), r.minTh, load, p, p * Slope(r));
  }

  lemma PolyForm(k: real, m: real, load: real, p: real, d: real)
    requires p * k == d
    ensures Poly(load * k, k * (1.0 - load) + m * load + load, m - load * (1.0 + m), p)
         == m + d - load * (1.0 - p) * (1.0 + (m + d))
  {
    assert load * k * p * p == load * (p * k) * p;
    assert (k * (1.0 - load)) * p == (p * k) * (1.0 - load);
    assert load * (p * k) * p == load * d * p;
    assert (p * k) * (1.0 - load) == d * (1.0 - load);
  }

  /** How far queue y lies above the one that a share d of the load makes. */
  function Gap(y: real, d: real, load: real): real {
    y - (load * d) * (1.0 + y)
  }

  lemma UpperThreshold(maxTh: real, d: real, lambdaH: real, load: real)
    requires maxTh > 0.0 && d > 0.0 && lambdaH == LoadFor(maxTh) / d
    ensures load <= lambdaH <==> Gap(maxTh, d, load) >= 0.0
    ensures load == lambdaH <==> Gap(maxTh, d, load) == 0.0
  {
    DivideBack(LoadFor(maxTh), d);
    LoadForBound(maxTh, load * d);
    if load < lambdaH { MulLt(d, load, lambdaH); }
    if load > lambdaH { MulLt(d, lambdaH, load); }
  }

  /** At MaxP the quadratic tells on which side of the upper threshold the load is. */
  lemma PolyAtMaxP(r: Red, load: real)
    requires Valid(r) && r.maxP < 1.0
    ensures load <= r.lambdaH <==> Poly(A(r, load), B(r, load), C(r, load), r.maxP) >= 0.0
    ensures load == r.lambdaH <==> Poly(A(r, load), B(r, load), C(r, load), r.maxP) == 0.0
  {
    PolyIsGap(r, load);
    UpperThreshold(r.maxTh, 1.0 - r.maxP, r.lambdaH, load);
  }

  lemma PolyIsGap(r: Red, load: real)
    requires Valid(r)
    ensures Poly(A(r, load), B(r, load), C(r, load), r.maxP) == Gap(r.maxTh, 1.0 - r.maxP, load)
  {
    LineAtMaxP(r);
    PolyValue(r, load, r.maxP);
  }

  lemma LineAtMaxP(r: Red)
    requires Valid(r)
    ensures RedLine(r, r.maxP) == r.maxTh
  {
    Coefficients(r, 0.0);
  }

  lemma QueueEquals(rho: real, y: real)
    requires rho < 1.0
    ensures QueueAt(rho) == y <==> y - rho * (1.0 + y) == 0.0
  {
    DivideBack(rho, 1.0 - rho);
    var q := QueueAt(rho);
    assert y * (1.0 - rho) == y - y * rho;
    if q < y { MulLt(1.0 - rho, q, y); }
    if q > y { MulLt(1.0 - rho, y, q); }
  }

  /** A probability solves the quadratic exactly when the thinned queue lies on the RED line. */
  lemma PolyIsFixedPoint(r: Red, load: real, p: real)
    requires Valid(r) && load * (1.0 - p) < 1.0
    ensures Poly(A(r, load), B(r, load), C(r, load), p) == 0.0 <==> QueueAt(load * (1.0 - p)) == RedLine(r, p)
  {
    PolyValue(r, load, p);
    QueueEquals(load * (1.0 - p), RedLine(r, p));
  }

  lemma MiddleLoad(r: Red, load: real, root: real, p: real)
    requires Valid(r) && Middle(r, load) && root >= 0.0
    requires root * root == Disc(A(r, load), B(r, load), C(r, load)) && A(r, load) != 0.0
    requires p == MiddleP(r, load, root)
    ensures load > 0.0 && Solves(r, load, p)
  {
    MiddleSigns(r, load);
    var a, b, c := A(r, load), B(r, load), C(r, load);
    RootSolves(a, b, c, root, p);
    PolyAtOne(r, load);
    if p > 1.0 { NegativeBelowRoot(a, b, c, 1.0, p); }
    if r.maxP < 1.0 {
      PolyAtMaxP(r, load);
      if p > r.maxP { NegativeBelowRoot(a, b, c, r.maxP, p); }
    }
    ThinnedBelowOne(r, load, p);
    PolyIsFixedPoint(r, load, p);
  }

  /** Dropping everything leaves an empty queue, which lies below the RED line. */
  lemma PolyAtOne(r: Red, load: real)
    requires Valid(r)
    ensures Poly(A(r, load), B(r, load), C(r, load), 1.0) > 0.0
  {
    Coefficients(r, load);
    PolyValue(r, load, 1.0);
    assert load * (1.0 - 1.0) == 0.0;
  }

  lemma QueueOfLoad(q: real)
    requires q >= 0.0
    ensures LoadFor(q) < 1.0 && QueueAt(LoadFor(q)) == q
  {
    LoadForBound(q, LoadFor(q));
    QueueEquals(LoadFor(q), q);
  }

  lemma ThinnedBelowOne(r: Red, load: real, p: real)
    requires Valid(r) && load > 0.0 && 0.0 < p <= r.maxP
    requires Poly(A(r, load), B(r, load), C(r, load), p) == 0.0
    ensures load * (1.0 - p) < 1.0
  {
    var rho, y := load * (1.0 - p), RedLine(r, p);
    Coefficients(r, load);
    PolyValue(r, load, p);
    MulPos(p, Slope(r));
    if rho >= 1.0 { MulLe(1.0 + y, 1.0, rho); }
  }

  /** In the middle regime the answer is the only one: any positive probability whose thinned
      queue lies on the RED line is the one returned. */
  lemma MiddleUnique(r: Red, load: real, p: real, p': real)
    requires Valid(r) && Middle(r, load) && load > 0.0 && Solves(r, load, p)
    requires p' > 0.0 && load * (1.0 - p') < 1.0 && QueueAt(load * (1.0 - p')) == RedLine(r, p')
    ensures p' == p
  {
    MiddleSigns(r, load);
    PolyIsFixedPoint(r, load, p);
    PolyIsFixedPoint(r, load, p');
    var a, b, c := A(r, load), B(r, load), C(r, load);
    if p < p' { NegativeBelowRoot(a, b, c, p, p'); }
    if p' < p { NegativeBelowRoot(a, b, c, p', p); }
  }

  /** The regimes meet: at the lower threshold dropping nothing solves the quadratic, and at the
      upper one the middle answer is MaxP, which is also what the high formula gives there. */
  lemma RegimesMeet(r: Red)
    requires Valid(r)
    ensures Poly(A(r, r.lambdaL), B(r, r.lambdaL), C(r, r.lambdaL), 0.0) == 0.0
    ensures r.maxP < 1.0 ==> r.lambdaH > 0.0 && (forall p :: Solves(r, r.lambdaH, p) ==> p == r.maxP)
    ensures r.maxP < 1.0 ==> HighP(r, r.lambdaH) == r.maxP
  {
    Coefficients(r, r.lambdaL);
    LoadForBound(r.minTh, r.lambdaL);
    ThresholdsOrdered(r);
    if r.maxP < 1.0 {
      UpperEnds(r);
    }
  }

  lemma UpperEnds(r: Red)
    requires Valid(r) && r.maxP < 1.0
    ensures r.lambdaH > 0.0 && (forall p :: Solves(r, r.lambdaH, p) ==> p == r.maxP)
    ensures HighP(r, r.lambdaH) == r.maxP
  {
    ThresholdsOrdered(r);
    assert r.maxP * r.lambdaH == r.lambdaH - r.lambdaH * (1.0 - r.maxP);
    DivEq(r.lambdaH - r.lambdaH * (1.0 - r.maxP), r.lambdaH, r.maxP);
    forall p | Solves(r, r.lambdaH, p)
      ensures p == r.maxP
    {
      UpperEndIsMaxP(r, p);
    }
  }

  lemma UpperEndIsMaxP(r: Red, p: real)
    requires Valid(r) && r.maxP < 1.0 && r.lambdaH > 0.0 && Solves(r, r.lambdaH, p)
    ensures p == r.maxP
  {
    ThresholdsOrdered(r);
    MiddleSigns(r, r.lambdaH);
    PolyAtMaxP(r, r.lambdaH);
    PolyIsFixedPoint(r, r.lambdaH, p);
    if p < r.maxP {
      NegativeBelowRoot(A(r, r.lambdaH), B(r, r.lambdaH), C(r, r.lambdaH), p, r.maxP);
    }
  }
}
