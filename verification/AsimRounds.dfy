/** One round of newupdate as a function on the connections, and what a round keeps. */
module AsimRounds {
  import opened Common
  import opened AsimModel

  /** Scale every connection through b that has not been scaled yet by 1/g. */
  function ScaleThrough(adj: Routes, f: seq<Flow>, b: nat, g: real): seq<Flow>
    requires |adj| == |f| && g != 0.0
  {
    seq(|f|, i requires 0 <= i < |f| =>
      if !f[i].scaled && Uses(adj[i], b) > 0 then f[i].(ptput := f[i].ptput / g, scaled := true) else f[i])
  }

  function Residual(adj: Routes, f: seq<Flow>, cap: seq<real>, l: nat): real
    requires |adj| == |f| && l < |cap|
  {
    cap[l] - Sum(adj, Taken(f), l)
  }

  function Demand(adj: Routes, f: seq<Flow>, l: nat): real
    requires |adj| == |f|
  {
    Sum(adj, Pending(f), l)
  }

  function Unscaled(f: seq<Flow>): nat {
    if f == [] then 0
    else Unscaled(f[..|f| - 1]) + (if f[|f| - 1].scaled then 0 else 1)
  }

  lemma {:induction false} UnscaledDrops(f: seq<Flow>, f': seq<Flow>, k: nat)
    requires |f'| == |f| && k < |f| && !f[k].scaled && f'[k].scaled
    requires forall i :: 0 <= i < |f| && f[i].scaled ==> f'[i].scaled
    ensures Unscaled(f') < Unscaled(f)
  {
    var n := |f| - 1;
    if k == n {
      UnscaledMonotone(f[..n], f'[..n]);
    } else {
      UnscaledDrops(f[..n], f'[..n], k);
    }
  }

  lemma {:induction false} UnscaledMonotone(f: seq<Flow>, f': seq<Flow>)
    requires |f'| == |f|
    requires forall i :: 0 <= i < |f| && f[i].scaled ==> f'[i].scaled
    ensures Unscaled(f') <= Unscaled(f)
  {
    if f != [] {
      UnscaledMonotone(f[..|f| - 1], f'[..|f| - 1]);
    }
  }

  /** Demand on a link means that some connection on it is still unscaled. */
  lemma DemandNeedsFlow(adj: Routes, f: seq<Flow>, l: nat) returns (k: nat)
    requires |adj| == |f| && Demand(adj, f, l) != 0.0
    ensures k < |f| && Uses(adj[k], l) > 0 && !f[k].scaled
  {
    k := SumNonZero(adj, Pending(f), l);
  }

  /** A round moves some load x off the demand of link l and x/g onto its use. */
  lemma RoundMoves(adj: Routes, f: seq<Flow>, b: nat, g: real, cap: seq<real>, l: nat) returns (x: real)
    requires |adj| == |f| && g != 0.0 && l < |cap|
    ensures var f' := ScaleThrough(adj, f, b, g);
            && Demand(adj, f', l) == Demand(adj, f, l) - x * g
            && Residual(adj, f', cap, l) == Residual(adj, f, cap, l) - x
  {
    DemandMoves(adj, f, b, g, l);
    UseMoves(adj, f, b, g, l);
    MovedIsPlaced(adj, f, b, g, l);
    x := Sum(adj, Placed(adj, f, b, g), l);
  }

  lemma DemandMoves(adj: Routes, f: seq<Flow>, b: nat, g: real, l: nat)
    requires |adj| == |f| && g != 0.0
    ensures Demand(adj, f, l) == Demand(adj, ScaleThrough(adj, f, b, g), l) + Sum(adj, Moved(adj, f, b), l)
  {
    SumAdds(adj, Pending(ScaleThrough(adj, f, b, g)), Moved(adj, f, b), Pending(f), l);
  }

  lemma UseMoves(adj: Routes, f: seq<Flow>, b: nat, g: real, l: nat)
    requires |adj| == |f| && g != 0.0
    ensures Sum(adj, Taken(ScaleThrough(adj, f, b, g)), l) == Sum(adj, Taken(f), l) + Sum(adj, Placed(adj, f, b, g), l)
  {
    SumAdds(adj, Taken(f), Placed(adj, f, b, g), Taken(ScaleThrough(adj, f, b, g)), l);
  }

  /** Old and new rates of the connections a round scales. */
  function Moved(adj: Routes, f: seq<Flow>, b: nat): seq<real>
    requires |adj| == |f|
  {
    seq(|f|, i requires 0 <= i < |f| => if !f[i].scaled && Uses(adj[i], b) > 0 then f[i].ptput else 0.0)
  }

  function Placed(adj: Routes, f: seq<Flow>, b: nat, g: real): seq<real>
    requires |adj| == |f| && g != 0.0
  {
    seq(|f|, i requires 0 <= i < |f| => if !f[i].scaled && Uses(adj[i], b) > 0 then f[i].ptput / g else 0.0)
  }

  lemma MovedIsPlaced(adj: Routes, f: seq<Flow>, b: nat, g: real, l: nat)
    requires |adj| == |f| && g != 0.0
    ensures Sum(adj, Moved(adj, f, b), l) == Sum(adj, Placed(adj, f, b, g), l) * g
  {
    forall i | 0 <= i < |f|
      ensures Moved(adj, f, b)[i] == Placed(adj, f, b, g)[i] * g
    {
      DivideBack(f[i].ptput, g);
    }
    SumScaled(adj, Moved(adj, f, b), Placed(adj, f, b, g), g, l);
  }

  /** On the link the round works at, the demand goes to zero and the use fills the link exactly:
      the assignment uc = 0 changes nothing. */
  lemma RoundFills(adj: Routes, f: seq<Flow>, b: nat, g: real, cap: seq<real>)
    requires |adj| == |f| && g != 0.0 && b < |cap|
    requires Demand(adj, f, b) == g * Residual(adj, f, cap, b)
    ensures Demand(adj, ScaleThrough(adj, f, b, g), b) == 0.0
    ensures Residual(adj, ScaleThrough(adj, f, b, g), cap, b) == 0.0
  {
    RoundEmpties(adj, f, b, g);
    var x := RoundMoves(adj, f, b, g, cap, b);
    NothingLeft(Demand(adj, f, b), Residual(adj, f, cap, b), x, g);
  }

  lemma RoundEmpties(adj: Routes, f: seq<Flow>, b: nat, g: real)
    requires |adj| == |f| && g != 0.0
    ensures Demand(adj, ScaleThrough(adj, f, b, g), b) == 0.0
  {
    SumZero(adj, Pending(ScaleThrough(adj, f, b, g)), b);
  }

  lemma NothingLeft(d: real, r: real, x: real, g: real)
    requires g != 0.0 && d == g * r && d - x * g == 0.0
    ensures r - x == 0.0
  {
    assert x == (x * g) / g;
    assert r == (r * g) / g;
  }

  // ----- what the rounds keep -----

  /** Connections part way: short ones count as scaled, unscaled ones still have their old rate. */
  predicate PartWay(f0: seq<Flow>, f: seq<Flow>) {
    && SameKinds(f0, f)
    && forall i :: 0 <= i < |f| ==>
         (f[i].short ==> f[i].scaled) && (!f[i].scaled ==> f[i].ptput == f0[i].ptput)
  }

  /** On roomy links: no negative residual, and a positive one where demand remains. */
  predicate RoomLeft(adj: Routes, f0: seq<Flow>, f: seq<Flow>, cap: seq<real>)
    requires |adj| == |f0| == |f|
  {
    forall l :: 0 <= l < |cap| && Roomy(adj, f0, cap, l) ==>
      && 0.0 <= Residual(adj, f, cap, l)
      && (Demand(adj, f, l) > 0.0 ==> Residual(adj, f, cap, l) > 0.0)
  }

  /** On roomy links demand is at most g times the residual. */
  predicate RatioAtMost(adj: Routes, f0: seq<Flow>, f: seq<Flow>, cap: seq<real>, g: real)
    requires |adj| == |f0| == |f|
  {
    forall l :: 0 <= l < |cap| && Roomy(adj, f0, cap, l) ==> Demand(adj, f, l) <= g * Residual(adj, f, cap, l)
  }

  /** Only connections with a roomy link have been scaled. */
  predicate ScaledReach(adj: Routes, f0: seq<Flow>, f: seq<Flow>, cap: seq<real>)
    requires |adj| == |f0| == |f|
  {
    forall i :: 0 <= i < |f| && !f[i].short && f[i].scaled ==> Reaches(adj, f0, cap, i)
  }

  /** Whoever has been scaled was scaled by a factor of at most 1/g. */
  predicate SharesAtMost(f0: seq<Flow>, f: seq<Flow>, g: real)
    requires |f0| == |f|
  {
    forall i :: 0 <= i < |f| && !f[i].short && f[i].scaled ==> f[i].ptput * g <= f0[i].ptput
  }

  /** b is full of scaled connections, none with a larger share than i. */
  predicate Settles(adj: Routes, f0: seq<Flow>, f: seq<Flow>, cap: seq<real>, i: nat, b: nat)
    requires |adj| == |f0| == |f| && i < |f|
  {
    && b < |cap| && Uses(adj[i], b) > 0
    && Residual(adj, f, cap, b) == 0.0
    && forall k :: 0 <= k < |f| && Uses(adj[k], b) > 0 ==>
         f[k].scaled && (!f[k].short ==> NoLargerShare(f[k].ptput, f0[k].ptput, f[i].ptput, f0[i].ptput))
  }

  ghost predicate Settled(adj: Routes, f0: seq<Flow>, f: seq<Flow>, cap: seq<real>)
    requires |adj| == |f0| == |f|
  {
    forall i :: 0 <= i < |f| && !f[i].short && f[i].scaled ==> exists b :: Settles(adj, f0, f, cap, i, b)
  }

  lemma DemandNonNegative(adj: Routes, f: seq<Flow>, l: nat)
    requires |adj| == |f| && PositiveBulk(f)
    requires forall i :: 0 <= i < |f| && f[i].short ==> f[i].scaled
    ensures Demand(adj, f, l) >= 0.0
  {
    var z := seq(|f|, i => 0.0);
    SumOfZeros(adj, z, l);
    SumMonotone(adj, z, Pending(f), l);
  }

  lemma RoundKeepsKinds(adj: Routes, f0: seq<Flow>, f: seq<Flow>, b: nat, g: real)
    requires |adj| == |f| && g > 0.0 && PartWay(f0, f) && PositiveBulk(f)
    ensures PartWay(f0, ScaleThrough(adj, f, b, g)) && PositiveBulk(ScaleThrough(adj, f, b, g))
  {
    var f' := ScaleThrough(adj, f, b, g);
    forall i | 0 <= i < |f'| && !f'[i].short
      ensures f'[i].ptput > 0.0
    {
      DividePositive(f[i].ptput, g);
    }
  }

  lemma DividePositive(p: real, g: real)
    requires p > 0.0 && g > 0.0
    ensures p / g > 0.0
  {
  }

  lemma RoundKeepsLink(adj: Routes, f: seq<Flow>, cap: seq<real>, b: nat, g: real, l: nat)
    requires |adj| == |f| && g > 0.0 && l < |cap|
    requires Demand(adj, f, l) <= g * Residual(adj, f, cap, l)
    requires Demand(adj, ScaleThrough(adj, f, b, g), l) >= 0.0
    ensures var f' := ScaleThrough(adj, f, b, g);
            && Demand(adj, f', l) <= g * Residual(adj, f', cap, l)
            && 0.0 <= Residual(adj, f', cap, l)
            && (Demand(adj, f', l) > 0.0 ==> Residual(adj, f', cap, l) > 0.0)
  {
    var f' := ScaleThrough(adj, f, b, g);
    var x := RoundMoves(adj, f, b, g, cap, l);
    RatioStep(Demand(adj, f, l), Residual(adj, f, cap, l), x, g);
    PositiveFactor(g, Residual(adj, f', cap, l));
  }

  lemma RatioStep(d: real, r: real, x: real, g: real)
    requires d <= g * r
    ensures d - x * g <= g * (r - x)
  {
    assert g * (r - x) == g * r - x * g;
  }

  lemma PositiveFactor(g: real, r: real)
    requires g > 0.0
    ensures g * r >= 0.0 ==> r >= 0.0
    ensures g * r > 0.0 ==> r > 0.0
  {
  }

  lemma RoundKeepsRoom(adj: Routes, f0: seq<Flow>, f: seq<Flow>, cap: seq<real>, b: nat, g: real)
    requires |adj| == |f| && g > 0.0 && PartWay(f0, f) && PositiveBulk(f)
    requires RatioAtMost(adj, f0, f, cap, g)
    ensures RoomLeft(adj, f0, ScaleThrough(adj, f, b, g), cap)
    ensures RatioAtMost(adj, f0, ScaleThrough(adj, f, b, g), cap, g)
  {
    var f' := ScaleThrough(adj, f, b, g);
    RoundKeepsKinds(adj, f0, f, b, g);
    forall l | 0 <= l < |cap| && Roomy(adj, f0, cap, l)
      ensures 0.0 <= Residual(adj, f', cap, l)
      ensures Demand(adj, f', l) > 0.0 ==> Residual(adj, f', cap, l) > 0.0
      ensures Demand(adj, f', l) <= g * Residual(adj, f', cap, l)
    {
      DemandNonNegative(adj, f', l);
      RoundKeepsLink(adj, f, cap, b, g, l);
    }
  }

  /** Without room the residual is never positive, so a positive ratio points to a roomy link. */
  lemma RatioIsRoomy(adj: Routes, f0: seq<Flow>, f: seq<Flow>, cap: seq<real>, b: nat, g: real)
    requires |adj| == |f0| && PartWay(f0, f) && PositiveBulk(f) && Searched(adj, f, cap, b, g)
    ensures Residual(adj, f, cap, b) > 0.0 && Roomy(adj, f0, cap, b)
  {
    var k := SearchFound(adj, f, cap, b, g);
    DemandNonNegative(adj, f, b);
    NegativeFactor(g, Residual(adj, f, cap, b));
    SumMonotone(adj, Shorts(f0), Taken(f), b);
  }

  lemma NegativeFactor(g: real, r: real)
    requires g > 0.0
    ensures g * r >= 0.0 && r != 0.0 ==> r > 0.0
  {
  }

  lemma RoundKeepsShares(adj: Routes, f0: seq<Flow>, f: seq<Flow>, b: nat, g: real)
    requires |adj| == |f| && g > 0.0 && PartWay(f0, f) && SharesAtMost(f0, f, g)
    ensures SharesAtMost(f0, ScaleThrough(adj, f, b, g), g)
  {
    var f' := ScaleThrough(adj, f, b, g);
    forall i | 0 <= i < |f'| && !f'[i].short && f'[i].scaled
      ensures f'[i].ptput * g <= f0[i].ptput
    {
      DivideBack(f[i].ptput, g);
    }
  }

  lemma SharesShrink(f0: seq<Flow>, f: seq<Flow>, g: real, g': real)
    requires |f0| == |f| && PositiveBulk(f) && SharesAtMost(f0, f, g) && g' <= g
    ensures SharesAtMost(f0, f, g')
  {
    forall i | 0 <= i < |f| && !f[i].short && f[i].scaled
      ensures f[i].ptput * g' <= f0[i].ptput
    {
      ScaleLe(f[i].ptput, g', g);
    }
  }

  lemma ScaleLe(k: real, a: real, b: real)
    requires k > 0.0 && a <= b
    ensures k * a <= k * b
  {
  }

  /** A link that settled a connection before the round still does after it. */
  lemma SettlesStays(adj: Routes, f0: seq<Flow>, f: seq<Flow>, cap: seq<real>, b: nat, g: real, i: nat, c: nat)
    requires |adj| == |f0| == |f| && g != 0.0 && i < |f| && Settles(adj, f0, f, cap, i, c)
    ensures Settles(adj, f0, ScaleThrough(adj, f, b, g), cap, i, c)
  {
    var f' := ScaleThrough(adj, f, b, g);
    assert forall k :: 0 <= k < |f| && Uses(adj[k], c) > 0 ==> f'[k] == f[k];
    SumSame(adj, Taken(f), Taken(f'), c);
  }

  /** The link a round works at settles every connection that the round scaled. */
  lemma SettlesNew(adj: Routes, f0: seq<Flow>, f: seq<Flow>, cap: seq<real>, b: nat, g: real, i: nat)
    requires |adj| == |f0| == |f| && g > 0.0 && b < |cap| && PartWay(f0, f) && PositiveBulk(f0) && SharesAtMost(f0, f, g)
    requires Demand(adj, f, b) == g * Residual(adj, f, cap, b)
    requires i < |f| && !f[i].scaled && Uses(adj[i], b) > 0
    ensures Settles(adj, f0, ScaleThrough(adj, f, b, g), cap, i, b)
  {
    var f' := ScaleThrough(adj, f, b, g);
    RoundFills(adj, f, b, g, cap);
    forall k | 0 <= k < |f'| && Uses(adj[k], b) > 0 && !f'[k].short
      ensures NoLargerShare(f'[k].ptput, f0[k].ptput, f'[i].ptput, f0[i].ptput)
    {
      if f[k].scaled {
        ShareBelow(f[k].ptput, f0[k].ptput, f0[i].ptput, g);
      } else {
        ShareEqual(f0[k].ptput, f0[i].ptput, g);
      }
    }
  }

  lemma ShareBelow(p: real, q: real, r: real, g: real)
    requires g > 0.0 && r > 0.0 && p * g <= q
    ensures NoLargerShare(p, q, r / g, r)
  {
    var u := r / g;
    DivideBack(r, g);
    DividePositive(r, g);
    ScaleLe(u, p * g, q);
    assert u * (p * g) == p * (u * g);
  }

  lemma ShareEqual(q: real, r: real, g: real)
    requires g > 0.0
    ensures NoLargerShare(q / g, q, r / g, r)
  {
    var u, v := q / g, r / g;
    DivideBack(q, g);
    DivideBack(r, g);
    assert u * (v * g) == v * (u * g);
  }

  lemma RoundKeepsSettled(adj: Routes, f0: seq<Flow>, f: seq<Flow>, cap: seq<real>, b: nat, g: real)
    requires |adj| == |f0| == |f| && g > 0.0 && b < |cap| && PartWay(f0, f) && PositiveBulk(f0) && SharesAtMost(f0, f, g)
    requires Demand(adj, f, b) == g * Residual(adj, f, cap, b)
    requires Settled(adj, f0, f, cap)
    ensures Settled(adj, f0, ScaleThrough(adj, f, b, g), cap)
  {
    var f' := ScaleThrough(adj, f, b, g);
    forall i | 0 <= i < |f'| && !f'[i].short && f'[i].scaled
      ensures exists c :: Settles(adj, f0, f', cap, i, c)
    {
      if f[i].scaled {
        var c :| Settles(adj, f0, f, cap, i, c);
        SettlesStays(adj, f0, f, cap, b, g, i, c);
      } else {
        SettlesNew(adj, f0, f, cap, b, g, i);
      }
    }
  }

  // ----- start and end -----

  /** The start of newupdate: short connections count as scaled. */
  function Marked(f: seq<Flow>): seq<Flow> {
    seq(|f|, i requires 0 <= i < |f| => f[i].(scaled := f[i].short))
  }

  lemma MarkedStarts(adj: Routes, f0: seq<Flow>, cap: seq<real>, g: real)
    requires |adj| == |f0|
    ensures PartWay(f0, Marked(f0)) && Settled(adj, f0, Marked(f0), cap) && SharesAtMost(f0, Marked(f0), g)
    ensures PositiveBulk(f0) ==> PositiveBulk(Marked(f0))
    ensures RoomLeft(adj, f0, Marked(f0), cap) && ScaledReach(adj, f0, Marked(f0), cap)
  {
    assert Taken(Marked(f0)) == Shorts(f0);
  }

  /** Where no demand is left every connection has been scaled. */
  lemma NoDemandAllScaled(adj: Routes, f0: seq<Flow>, f: seq<Flow>, l: nat, i: nat)
    requires |adj| == |f| && PartWay(f0, f) && PositiveBulk(f) && Demand(adj, f, l) <= 0.0
    requires i < |f| && Uses(adj[i], l) > 0
    ensures f[i].scaled
  {
    if !f[i].scaled {
      var z := seq(|f|, i => 0.0);
      SumOfZeros(adj, z, l);
      SumStrict(adj, z, Pending(f), l, i);
    }
  }

  /** A link that settles a connection is full and limits it. */
  lemma SettlesLimits(adj: Routes, f0: seq<Flow>, f: seq<Flow>, cap: seq<real>, i: nat, b: nat)
    requires |adj| == |f0| == |f| && i < |f| && Settles(adj, f0, f, cap, i, b)
    ensures Limits(adj, f0, f, cap, i, b)
  {
    SumSame(adj, Rates(f), Taken(f), b);
  }

  // ----- the main loop's invariant, over any number of rounds -----

  ghost predicate RoundsInv(adj: Routes, f0: seq<Flow>, f: seq<Flow>, cap: seq<real>, g: real)
    requires |adj| == |f0|
  {
    && PartWay(f0, f)
    && (PositiveBulk(f0) ==>
          && PositiveBulk(f) && RoomLeft(adj, f0, f, cap) && RatioAtMost(adj, f0, f, cap, g)
          && Settled(adj, f0, f, cap) && SharesAtMost(f0, f, g) && ScaledReach(adj, f0, f, cap))
  }

  lemma RoundsKeep(adj: Routes, f0: seq<Flow>, f: seq<Flow>, cap: seq<real>, b: nat, g: real)
    requires |adj| == |f0| && RoundsInv(adj, f0, f, cap, g) && Searched(adj, f, cap, b, g)
    ensures RoundsInv(adj, f0, ScaleThrough(adj, f, b, g), cap, g)
  {
    if PositiveBulk(f0) {
      var k := SearchFound(adj, f, cap, b, g);
      RoundKeepsKinds(adj, f0, f, b, g);
      RoundKeepsRoom(adj, f0, f, cap, b, g);
      RoundKeepsShares(adj, f0, f, b, g);
      RoundKeepsSettled(adj, f0, f, cap, b, g);
      RatioIsRoomy(adj, f0, f, cap, b, g);
    }
  }

  /** What the search for the next bottleneck found out about residuals and demands. */
  predicate Searched(adj: Routes, f: seq<Flow>, cap: seq<real>, b: int, g: real)
    requires |adj| == |f|
  {
    && -1 <= b < |cap| && g >= 0.0
    && (b == -1 ==> g == 0.0)
    && (b >= 0 ==> g > 0.0 && Residual(adj, f, cap, b) != 0.0
                   && g == Demand(adj, f, b) / Residual(adj, f, cap, b))
    && forall l :: 0 <= l < |cap| && Residual(adj, f, cap, l) != 0.0 ==>
         Demand(adj, f, l) / Residual(adj, f, cap, l) <= g
  }

  lemma SearchBounds(adj: Routes, f0: seq<Flow>, f: seq<Flow>, cap: seq<real>, b: int, g: real)
    requires |adj| == |f0| == |f| && Searched(adj, f, cap, b, g) && RoomLeft(adj, f0, f, cap)
    ensures RatioAtMost(adj, f0, f, cap, g)
  {
    forall l | 0 <= l < |cap| && Roomy(adj, f0, cap, l)
      ensures Demand(adj, f, l) <= g * Residual(adj, f, cap, l)
    {
      var d, r := Demand(adj, f, l), Residual(adj, f, cap, l);
      if r > 0.0 {
        QuotientLe(d, r, g);
      }
    }
  }

  lemma QuotientLe(d: real, r: real, g: real)
    requires r > 0.0
    ensures d / r <= g <==> d <= g * r
  {
    DivideBack(d, r);
    var q := d / r;
    assert q * r == d;
    if q <= g { ScaleLe(r, q, g); } else { StrictScale(r, g, q); }
  }

  lemma ZeroOver(r: real)
    requires r != 0.0
    ensures 0.0 / r == 0.0
  {
  }

  lemma StrictScale(k: real, a: real, b: real)
    requires k > 0.0 && a < b
    ensures k * a < k * b
  {
  }

  /** Ratios do not grow from one round to the next. */
  lemma SearchShrinks(adj: Routes, f0: seq<Flow>, f: seq<Flow>, cap: seq<real>, g: real, b: int, g': real)
    requires |adj| == |f0| && PartWay(f0, f) && PositiveBulk(f) && Searched(adj, f, cap, b, g') && g >= 0.0
    requires RatioAtMost(adj, f0, f, cap, g)
    ensures g' <= g
  {
    if b >= 0 {
      RatioIsRoomy(adj, f0, f, cap, b, g');
      QuotientLe(Demand(adj, f, b), Residual(adj, f, cap, b), g);
    }
  }

  lemma SearchNext(adj: Routes, f0: seq<Flow>, f: seq<Flow>, cap: seq<real>, g: real, b: int, g': real)
    requires |adj| == |f0| && RoundsInv(adj, f0, f, cap, g) && g >= 0.0 && Searched(adj, f, cap, b, g')
    ensures RoundsInv(adj, f0, f, cap, g')
    ensures PositiveBulk(f0) ==> g' <= g
  {
    if PositiveBulk(f0) {
      SearchShrinks(adj, f0, f, cap, g, b, g');
      SharesShrink(f0, f, g, g');
      SearchBounds(adj, f0, f, cap, b, g');
    }
  }

  lemma SearchFirst(adj: Routes, f0: seq<Flow>, cap: seq<real>, b: int, g: real)
    requires |adj| == |f0| && Searched(adj, Marked(f0), cap, b, g)
    ensures RoundsInv(adj, f0, Marked(f0), cap, g)
  {
    MarkedStarts(adj, f0, cap, g);
    SearchBounds(adj, f0, Marked(f0), cap, b, g);
  }

  /** The bottleneck's ratio in product form, and the connection that makes it positive. */
  lemma SearchFound(adj: Routes, f: seq<Flow>, cap: seq<real>, b: nat, g: real) returns (k: nat)
    requires |adj| == |f| && Searched(adj, f, cap, b, g)
    ensures Demand(adj, f, b) == g * Residual(adj, f, cap, b)
    ensures k < |f| && Uses(adj[k], b) > 0 && !f[k].scaled
  {
    var d, r := Demand(adj, f, b), Residual(adj, f, cap, b);
    DivideBack(d, r);
    ZeroOver(r);
    k := DemandNeedsFlow(adj, f, b);
  }

  /** Each bulk connection that was scaled was scaled once, by one of the recorded ratios. */
  ghost predicate ScaledOnce(f0: seq<Flow>, f: seq<Flow>, gammas: seq<real>)
    requires |f0| == |f|
  {
    forall i :: 0 <= i < |f| && !f[i].short && f[i].scaled ==>
      exists k :: 0 <= k < |gammas| && gammas[k] != 0.0 && f[i].ptput == f0[i].ptput / gammas[k]
  }

  lemma ScaledOnceStep(adj: Routes, f0: seq<Flow>, f: seq<Flow>, b: nat, g: real, gammas: seq<real>)
    requires |adj| == |f| && PartWay(f0, f) && g != 0.0 && ScaledOnce(f0, f, gammas)
    ensures ScaledOnce(f0, ScaleThrough(adj, f, b, g), gammas + [g])
  {
    var f', gs := ScaleThrough(adj, f, b, g), gammas + [g];
    forall i | 0 <= i < |f'| && !f'[i].short && f'[i].scaled
      ensures exists k :: 0 <= k < |gs| && gs[k] != 0.0 && f'[i].ptput == f0[i].ptput / gs[k]
    {
      if f[i].scaled {
        var k :| 0 <= k < |gammas| && gammas[k] != 0.0 && f[i].ptput == f0[i].ptput / gammas[k];
        assert gs[k] == gammas[k];
      } else {
        assert gs[|gammas|] == g;
      }
    }
  }

  // ----- when the search comes up empty -----

  /** A link that carries bulk connections fits exactly when it is roomy. */
  lemma EndFits(adj: Routes, f0: seq<Flow>, f: seq<Flow>, cap: seq<real>, l: nat)
    requires |adj| == |f0| && RoundsInv(adj, f0, f, cap, 0.0) && PositiveBulk(f0)
    requires l < |cap| && Carries(adj, f0, l)
    ensures Fits(adj, f, cap, l) <==> Roomy(adj, f0, cap, l)
  {
    if Roomy(adj, f0, cap, l) {
      assert 0.0 * Residual(adj, f, cap, l) == 0.0;
      SplitLoad(adj, f, l);
    } else {
      assert Shorts(f) == Shorts(f0);
      assert Carries(adj, f, l);
      NoRoomOverloads(adj, f, cap, l);
    }
  }

  /** A bulk connection is scaled exactly if it has a roomy link, and then has one that limits it. */
  lemma EndScaled(adj: Routes, f0: seq<Flow>, f: seq<Flow>, cap: seq<real>, i: nat)
    requires |adj| == |f0| && RoundsInv(adj, f0, f, cap, 0.0) && PositiveBulk(f0)
    requires i < |f| && !f[i].short
    ensures f[i].scaled <==> Reaches(adj, f0, cap, i)
    ensures f[i].scaled ==> exists b :: Limits(adj, f0, f, cap, i, b)
  {
    if Reaches(adj, f0, cap, i) {
      var l :| 0 <= l < |cap| && Uses(adj[i], l) > 0 && Roomy(adj, f0, cap, l);
      assert 0.0 * Residual(adj, f, cap, l) == 0.0;
      NoDemandAllScaled(adj, f0, f, l, i);
    }
    if f[i].scaled {
      var b :| Settles(adj, f0, f, cap, i, b);
      SettlesLimits(adj, f0, f, cap, i, b);
    }
  }

  /** The allocation is fair; every bulk link fits exactly if it is roomy; and connections without
      a roomy link keep their rate. */
  lemma RoundsEnd(adj: Routes, f0: seq<Flow>, f: seq<Flow>, cap: seq<real>)
    requires |adj| == |f0| && RoundsInv(adj, f0, f, cap, 0.0) && PositiveBulk(f0)
    ensures Fair(adj, f0, f, cap)
    ensures forall l :: 0 <= l < |cap| && Carries(adj, f0, l) ==> (Fits(adj, f, cap, l) <==> Roomy(adj, f0, cap, l))
    ensures forall i :: 0 <= i < |f| && !f[i].short ==> (f[i].scaled <==> Reaches(adj, f0, cap, i))
    ensures forall i :: 0 <= i < |f| && !f[i].scaled ==> f[i].ptput == f0[i].ptput
  {
    forall l | 0 <= l < |cap| && Carries(adj, f0, l) { EndFits(adj, f0, f, cap, l); }
    forall i | 0 <= i < |f| && !f[i].short
      ensures f[i].scaled <==> Reaches(adj, f0, cap, i)
      ensures f[i].scaled ==> exists b :: Limits(adj, f0, f, cap, i, b)
    {
      EndScaled(adj, f0, f, cap, i);
    }
  }
}
