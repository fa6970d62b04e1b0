/** asim: flows over routes of links, in exact reals. Sums over flows, what a bottleneck
    allocation is, and why one is weighted max-min fair. */
module AsimModel {

  datatype Flow = Flow(ptput: real, short: bool, scaled: bool)

  datatype Link = Link(mu: real, uc: real, utput: real, lambda: real, plambda: real, tlambda: real)

  /** Adj: for each connection the links of its route, in order, repetitions allowed. */
  type Routes = seq<seq<nat>>

  predicate RoutesOk(adj: Routes, nLinks: nat) {
    forall i, j :: 0 <= i < |adj| && 0 <= j < |adj[i]| ==> adj[i][j] < nLinks
  }

  /** How often a route uses link l. */
  function Uses(route: seq<nat>, l: nat): nat {
    if route == [] then 0
    else Uses(route[..|route| - 1], l) + (if route[|route| - 1] == l then 1 else 0)
  }

  /** x added up k times. */
  function Times(k: nat, x: real): real {
    if k == 0 then 0.0 else Times(k - 1, x) + x
  }

  /** The load that per-connection rates w put on link l. */
  function Sum(adj: Routes, w: seq<real>, l: nat): real
    requires |adj| == |w|
  {
    if w == [] then 0.0
    else
      var n := |w| - 1;
      Sum(adj[..n], w[..n], l) + Times(Uses(adj[n], l), w[n])
  }

  function Rates(flows: seq<Flow>): seq<real> {
    seq(|flows|, i requires 0 <= i < |flows| => flows[i].ptput)
  }

  function Taken(flows: seq<Flow>): seq<real> {
    seq(|flows|, i requires 0 <= i < |flows| => if flows[i].scaled then flows[i].ptput else 0.0)
  }

  function Pending(flows: seq<Flow>): seq<real> {
    seq(|flows|, i requires 0 <= i < |flows| => if flows[i].scaled then 0.0 else flows[i].ptput)
  }

  function Shorts(flows: seq<Flow>): seq<real> {
    seq(|flows|, i requires 0 <= i < |flows| => if flows[i].short then flows[i].ptput else 0.0)
  }

  function Capacity(mu: real): real {
    mu * 1.05
  }

  // ----- laws of Times and Sum -----

  lemma {:induction false} TimesAdds(k: nat, a: real, b: real)
    ensures Times(k, a + b) == Times(k, a) + Times(k, b)
  {
    if k > 0 { TimesAdds(k - 1, a, b); }
  }

  lemma {:induction false} TimesMonotone(k: nat, a: real, b: real)
    requires a <= b
    ensures Times(k, a) <= Times(k, b)
    ensures k > 0 && a < b ==> Times(k, a) < Times(k, b)
  {
    if k > 0 { TimesMonotone(k - 1, a, b); }
  }

  lemma {:induction false} TimesScaled(k: nat, a: real, b: real, g: real)
    requires b == a * g
    ensures Times(k, b) == Times(k, a) * g
  {
    if k > 0 {
      TimesScaled(k - 1, a, b, g);
      DistributeRight(Times(k, a), Times(k - 1, a), a, g);
    }
  }

  lemma DistributeRight(t: real, a: real, b: real, g: real)
    requires t == a + b
    ensures t * g == a * g + b * g
  {
    assert t * g == (a + b) * g;
  }

  lemma {:induction false} SumUpdate(adj: Routes, w: seq<real>, l: nat, i: nat, x: real)
    requires |adj| == |w| && i < |w|
    ensures Sum(adj, w[i := x], l) == Sum(adj, w, l) + Times(Uses(adj[i], l), x - w[i])
  {
    var n := |w| - 1;
    if i == n {
      assert w[i := x][..n] == w[..n];
      TimesAdds(Uses(adj[n], l), x - w[n], w[n]);
    } else {
      assert w[i := x][..n] == w[..n][i := x];
      SumUpdate(adj[..n], w[..n], l, i, x);
    }
  }

  lemma {:induction false} SumAdds(adj: Routes, a: seq<real>, b: seq<real>, c: seq<real>, l: nat)
    requires |adj| == |a| == |b| == |c|
    requires forall i :: 0 <= i < |a| ==> c[i] == a[i] + b[i]
    ensures Sum(adj, c, l) == Sum(adj, a, l) + Sum(adj, b, l)
  {
    if a != [] {
      var n := |a| - 1;
      SumAdds(adj[..n], a[..n], b[..n], c[..n], l);
      TimesAdds(Uses(adj[n], l), a[n], b[n]);
    }
  }

  lemma {:induction false} SumMonotone(adj: Routes, a: seq<real>, b: seq<real>, l: nat)
    requires |adj| == |a| == |b|
    requires forall i :: 0 <= i < |a| && Uses(adj[i], l) > 0 ==> a[i] <= b[i]
    ensures Sum(adj, a, l) <= Sum(adj, b, l)
  {
    if a != [] {
      var n := |a| - 1;
      SumMonotone(adj[..n], a[..n], b[..n], l);
      if Uses(adj[n], l) > 0 {
        TimesMonotone(Uses(adj[n], l), a[n], b[n]);
      }
    }
  }

  lemma SumZero(adj: Routes, a: seq<real>, l: nat)
    requires |adj| == |a|
    requires forall i :: 0 <= i < |a| && Uses(adj[i], l) > 0 ==> a[i] == 0.0
    ensures Sum(adj, a, l) == 0.0
  {
    var z := seq(|a|, i => 0.0);
    SumMonotone(adj, a, z, l);
    SumMonotone(adj, z, a, l);
    SumOfZeros(adj, z, l);
  }

  lemma {:induction false} SumOfZeros(adj: Routes, a: seq<real>, l: nat)
    requires |adj| == |a| && forall i :: 0 <= i < |a| ==> a[i] == 0.0
    ensures Sum(adj, a, l) == 0.0
  {
    if a != [] {
      var n := |a| - 1;
      SumOfZeros(adj[..n], a[..n], l);
      TimesZero(Uses(adj[n], l));
    }
  }

  /** Equal on the connections that use l, equal load on l. */
  lemma SumSame(adj: Routes, a: seq<real>, b: seq<real>, l: nat)
    requires |adj| == |a| == |b|
    requires forall i :: 0 <= i < |a| && Uses(adj[i], l) > 0 ==> a[i] == b[i]
    ensures Sum(adj, a, l) == Sum(adj, b, l)
  {
    SumMonotone(adj, a, b, l);
    SumMonotone(adj, b, a, l);
  }

  /** A positive rate on l that nothing negative offsets makes the load strictly larger. */
  lemma SumStrict(adj: Routes, a: seq<real>, b: seq<real>, l: nat, k: nat)
    requires |adj| == |a| == |b| && k < |a| && Uses(adj[k], l) > 0 && a[k] < b[k]
    requires forall i :: 0 <= i < |a| && Uses(adj[i], l) > 0 ==> a[i] <= b[i]
    ensures Sum(adj, a, l) < Sum(adj, b, l)
  {
    var c := b[k := a[k]];
    SumMonotone(adj, a, c, l);
    SumUpdate(adj, b, l, k, a[k]);
    TimesMonotone(Uses(adj[k], l), a[k] - b[k], 0.0);
    TimesZero(Uses(adj[k], l));
  }

  lemma {:induction false} TimesZero(k: nat)
    ensures Times(k, 0.0) == 0.0
  {
    if k > 0 { TimesZero(k - 1); }
  }

  lemma {:induction false} SumScaled(adj: Routes, a: seq<real>, b: seq<real>, g: real, l: nat)
    requires |adj| == |a| == |b|
    requires forall i :: 0 <= i < |a| ==> a[i] == b[i] * g
    ensures Sum(adj, a, l) == Sum(adj, b, l) * g
  {
    if a != [] {
      var n := |a| - 1;
      SumScaled(adj[..n], a[..n], b[..n], g, l);
      TimesScaled(Uses(adj[n], l), b[n], a[n], g);
      DistributeRight(Sum(adj, b, l), Sum(adj[..n], b[..n], l), Times(Uses(adj[n], l), b[n]), g);
    }
  }

  lemma SumNonZero(adj: Routes, a: seq<real>, l: nat) returns (k: nat)
    requires |adj| == |a| && Sum(adj, a, l) != 0.0
    ensures k < |a| && Uses(adj[k], l) > 0 && a[k] != 0.0
  {
    if forall i :: 0 <= i < |a| && Uses(adj[i], l) > 0 ==> a[i] == 0.0 {
      SumZero(adj, a, l);
    }
    k :| k < |a| && Uses(adj[k], l) > 0 && a[k] != 0.0;
  }

  // ----- fairness -----

  /** Link l carries a bulk (not short) connection. */
  predicate Carries(adj: Routes, flows: seq<Flow>, l: nat)
    requires |adj| == |flows|
  {
    exists i :: 0 <= i < |flows| && !flows[i].short && Uses(adj[i], l) > 0
  }

  /** Same connections as before, short ones untouched. */
  predicate SameKinds(f0: seq<Flow>, f: seq<Flow>) {
    && |f| == |f0|
    && forall i :: 0 <= i < |f| ==>
         f[i].short == f0[i].short && (f[i].short ==> f[i].ptput == f0[i].ptput)
  }

  predicate PositiveBulk(f: seq<Flow>) {
    forall i :: 0 <= i < |f| && !f[i].short ==> f[i].ptput > 0.0
  }

  /** The short connections leave room on link l. */
  predicate Roomy(adj: Routes, f: seq<Flow>, cap: seq<real>, l: nat)
    requires |adj| == |f| && l < |cap|
  {
    cap[l] - Sum(adj, Shorts(f), l) > 0.0
  }

  /** Some link of connection i is roomy. */
  predicate Reaches(adj: Routes, f: seq<Flow>, cap: seq<real>, i: nat)
    requires |adj| == |f| && i < |f|
  {
    exists l :: 0 <= l < |cap| && Uses(adj[i], l) > 0 && Roomy(adj, f, cap, l)
  }

  /** Going from old to new rate, k kept no larger share than i: newK/oldK <= newI/oldI. */
  predicate NoLargerShare(newK: real, oldK: real, newI: real, oldI: real) {
    newK * oldI <= newI * oldK
  }

  /** Link b limits connection i: it is full, and no bulk connection on it kept a larger share
      of its demand (new rate over old rate) than i did. */
  predicate Limits(adj: Routes, f0: seq<Flow>, f: seq<Flow>, cap: seq<real>, i: nat, b: nat)
    requires |adj| == |f0| == |f| && i < |f|
  {
    && b < |cap| && Uses(adj[i], b) > 0
    && Sum(adj, Rates(f), b) == cap[b]
    && forall k :: 0 <= k < |f| && !f[k].short && Uses(adj[k], b) > 0 ==>
         NoLargerShare(f[k].ptput, f0[k].ptput, f[i].ptput, f0[i].ptput)
  }

  /** Every bulk connection with a roomy link has a link that limits it. */
  ghost predicate Fair(adj: Routes, f0: seq<Flow>, f: seq<Flow>, cap: seq<real>)
    requires |adj| == |f0| == |f|
  {
    forall i :: 0 <= i < |f| && !f[i].short && Reaches(adj, f0, cap, i) ==> exists b :: Limits(adj, f0, f, cap, i, b)
  }

  predicate Fits(adj: Routes, f: seq<Flow>, cap: seq<real>, l: nat)
    requires |adj| == |f| && l < |cap|
  {
    Sum(adj, Rates(f), l) <= cap[l]
  }

  /** y overloads no link that f does not overload. */
  predicate FitsLike(adj: Routes, f: seq<Flow>, y: seq<Flow>, cap: seq<real>)
    requires |adj| == |f| == |y|
  {
    forall l :: 0 <= l < |cap| && Fits(adj, f, cap, l) ==> Fits(adj, y, cap, l)
  }

  /** On a full link one connection cannot gain unless another loses. */
  lemma SomeoneLoses(adj: Routes, f: seq<Flow>, y: seq<Flow>, cap: seq<real>, b: nat, i: nat) returns (k: nat)
    requires |adj| == |f| && SameKinds(f, y) && FitsLike(adj, f, y, cap)
    requires i < |f| && !f[i].short && y[i].ptput > f[i].ptput
    requires b < |cap| && Uses(adj[i], b) > 0 && Sum(adj, Rates(f), b) == cap[b]
    ensures k < |f| && Uses(adj[k], b) > 0 && !f[k].short && y[k].ptput < f[k].ptput
  {
    assert Fits(adj, f, cap, b) && Fits(adj, y, cap, b);
    if forall j :: 0 <= j < |f| && Uses(adj[j], b) > 0 ==> Rates(f)[j] <= Rates(y)[j] {
      SumStrict(adj, Rates(f), Rates(y), b, i);
      assert false;
    }
    k :| 0 <= k < |f| && Uses(adj[k], b) > 0 && Rates(f)[k] > Rates(y)[k];
  }

  /** A fair allocation is weighted max-min optimal: in any other allocation y that gives connection
      i more without overloading further links, some bulk connection with no larger share than i
      gets less. */
  lemma FairIsMaxMin(adj: Routes, f0: seq<Flow>, f: seq<Flow>, cap: seq<real>, y: seq<Flow>, i: nat) returns (k: nat)
    requires |adj| == |f0| == |f| && SameKinds(f, y)
    requires Fair(adj, f0, f, cap) && FitsLike(adj, f, y, cap)
    requires i < |f| && !f[i].short && Reaches(adj, f0, cap, i) && y[i].ptput > f[i].ptput
    ensures k < |f| && !f[k].short && y[k].ptput < f[k].ptput
    ensures NoLargerShare(f[k].ptput, f0[k].ptput, f[i].ptput, f0[i].ptput)
  {
    var b :| Limits(adj, f0, f, cap, i, b);
    k := SomeoneLoses(adj, f, y, cap, b, i);
  }

  /** Short connections and bulk ones make up the whole load. */
  lemma SplitLoad(adj: Routes, f: seq<Flow>, l: nat)
    requires |adj| == |f|
    ensures Sum(adj, Rates(f), l) == Sum(adj, Taken(f), l) + Sum(adj, Pending(f), l)
  {
    SumAdds(adj, Taken(f), Pending(f), Rates(f), l);
  }

  /** Where the short connections already fill the link, positive bulk rates overload it. */
  lemma NoRoomOverloads(adj: Routes, f: seq<Flow>, cap: seq<real>, l: nat)
    requires |adj| == |f| && l < |cap| && Carries(adj, f, l) && PositiveBulk(f) && !Roomy(adj, f, cap, l)
    ensures !Fits(adj, f, cap, l)
  {
    var i :| 0 <= i < |f| && !f[i].short && Uses(adj[i], l) > 0;
    SumStrict(adj, Shorts(f), Rates(f), l, i);
  }
}
