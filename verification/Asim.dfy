/** The asim object: newupdate and its helpers, working in place on the link and flow arrays. */
module Asim {
  import opened Common
  import opened AsimModel
  import opened AsimRounds

  /** theflows of a link, as GetInputs collects them: one entry per use of the link. */
  method TheFlows(adj: Routes, l: nat) returns (fs: seq<nat>)
    ensures forall j: nat :: multiset(fs)[j] == if j < |adj| then Uses(adj[j], l) else 0
  {
    fs := [];
    var j := 0;
    while j < |adj|
      invariant 0 <= j <= |adj|
      invariant forall i: nat :: multiset(fs)[i] == if i < j then Uses(adj[i], l) else 0
    {
      var k := 0;
      while k < |adj[j]|
        invariant 0 <= k <= |adj[j]|
        invariant forall i: nat :: multiset(fs)[i] == if i < j then Uses(adj[i], l) else if i == j then Uses(adj[j][..k], l) else 0
      {
        assert adj[j][..k + 1][..k] == adj[j][..k];
        if adj[j][k] == l {
          fs := fs + [j];
        }
        k := k + 1;
      }
      assert adj[j][..k] == adj[j];
      j := j + 1;
    }
  }

  /** fs names exactly the connections whose route uses l. */
  ghost predicate ListsUsers(adj: Routes, l: nat, fs: seq<nat>) {
    forall j: nat :: j in fs <==> j < |adj| && Uses(adj[j], l) > 0
  }

  function Caps(links: seq<Link>): seq<real> {
    seq(|links|, l requires 0 <= l < |links| => Capacity(links[l].mu))
  }

  /** Same links, apart from uc and utput. */
  predicate Kept(a: seq<Link>, b: seq<Link>) {
    |a| == |b| && forall l :: 0 <= l < |a| ==> b[l] == a[l].(uc := b[l].uc, utput := b[l].utput)
  }

  lemma KeptCaps(a: seq<Link>, b: seq<Link>)
    requires Kept(a, b)
    ensures Caps(a) == Caps(b)
  {
  }

  /** The rate estimate Update leaves on a link, from its old one and its new tlambda. */
  function Smoothed(niter: int, was: real, link: Link): real {
    if niter == 0 then link.tlambda
    else if link.tlambda > link.mu * 1.1 then (was + link.mu * 1.1) / 2.0
    else (link.tlambda + was) / 2.0
  }

  /** uc and utput of every link are what the scaled and unscaled connections make them. */
  predicate Consistent(adj: Routes, f: seq<Flow>, links: seq<Link>)
    requires |adj| == |f|
  {
    forall l :: 0 <= l < |links| ==>
      && links[l].uc == Residual(adj, f, Caps(links), l)
      && links[l].utput == Demand(adj, f, l)
  }

  /** The links after a route has been charged: a off uc and c off utput per use. */
  function Charged(links: seq<Link>, route: seq<nat>, a: real, c: real): seq<Link> {
    seq(|links|, l requires 0 <= l < |links| =>
      links[l].(uc := links[l].uc - Times(Uses(route, l), a), utput := links[l].utput - Times(Uses(route, l), c)))
  }

  /** Charging the route of connection t for its change of state keeps the books straight. */
  lemma ChargeConsistent(adj: Routes, f: seq<Flow>, f': seq<Flow>, links: seq<Link>, t: nat, a: real, c: real)
    requires |adj| == |f| == |f'| && t < |f| && f' == f[t := f'[t]] && Consistent(adj, f, links)
    requires a == Taken(f')[t] - Taken(f)[t] && c == Pending(f)[t] - Pending(f')[t]
    ensures Consistent(adj, f', Charged(links, adj[t], a, c))
  {
    var links' := Charged(links, adj[t], a, c);
    assert Taken(f') == Taken(f)[t := Taken(f')[t]];
    assert Pending(f') == Pending(f)[t := Pending(f')[t]];
    assert Caps(links') == Caps(links);
    forall l | 0 <= l < |links|
      ensures links'[l].uc == Residual(adj, f', Caps(links'), l) && links'[l].utput == Demand(adj, f', l)
    {
      SumUpdate(adj, Taken(f), l, t, Taken(f')[t]);
      SumUpdate(adj, Pending(f), l, t, Pending(f')[t]);
      TimesAdds(Uses(adj[t], l), c, -c);
      TimesZero(Uses(adj[t], l));
    }
  }

  /** Part of a round done: those of the listed connections that were unscaled have been scaled. */
  function ScaleListed(f: seq<Flow>, listed: seq<nat>, g: real): seq<Flow>
    requires g != 0.0
  {
    seq(|f|, i requires 0 <= i < |f| =>
      if !f[i].scaled && i in listed then f[i].(ptput := f[i].ptput / g, scaled := true) else f[i])
  }

  class Asim {
    const adj: Routes
    const theflows: seq<seq<nat>>
    const links: array<Link>
    const flows: array<Flow>

    ghost predicate Valid() {
      && RoutesOk(adj, links.Length)
      && |adj| == flows.Length && |theflows| == links.Length
      && (forall i :: 0 <= i < |adj| ==> |adj[i]| > 0)
      && forall l :: 0 <= l < |theflows| ==> ListsUsers(adj, l, theflows[l])
    }

    constructor (adj: Routes, links: array<Link>, flows: array<Flow>)
      requires RoutesOk(adj, links.Length) && |adj| == flows.Length
      requires forall i :: 0 <= i < |adj| ==> |adj[i]| > 0
      ensures Valid() && this.adj == adj && this.links == links && this.flows == flows
    {
      var per: seq<seq<nat>>, l := [], 0;
      while l < links.Length
        invariant 0 <= l <= links.Length && |per| == l
        invariant forall i :: 0 <= i < l ==> ListsUsers(adj, i, per[i])
      {
        var fs := TheFlows(adj, l);
        assert forall j :: j in fs <==> j in multiset(fs);
        per := per + [fs];
        l := l + 1;
      }
      this.adj, this.theflows, this.links, this.flows := adj, per, links, flows;
    }

    method Charge(t: nat, a: real, c: real)
      requires Valid() && t < flows.Length
      modifies links
      ensures links[..] == Charged(old(links[..]), adj[t], a, c)
    {
      var j := 0;
      ghost var was, route := links[..], adj[t];
      while j < |adj[t]|
        invariant 0 <= j <= |adj[t]|
        invariant links[..] == Charged(was, route[..j], a, c)
      {
        var l := adj[t][j];
        assert route[..j + 1][..j] == route[..j];
        ghost var before := links[..];
        links[l] := links[l].(uc := links[l].uc - a, utput := links[l].utput - c);
        assert links[..] == before[l := links[l]];
        assert links[..] == Charged(was, route[..j + 1], a, c);
        j := j + 1;
      }
      assert route[..j] == route;
    }

    /** First loops of newupdate: all capacity free, then every connection entered. */
    method InitResidual()
      requires Valid()
      modifies links, flows
      ensures flows[..] == Marked(old(flows[..]))
      ensures Consistent(adj, flows[..], links[..]) && Kept(old(links[..]), links[..])
    {
      FreeLinks();
      ghost var f0 := flows[..];
      BlankConsistent(adj, f0, links[..]);
      var i := 0;
      while i < flows.Length
        invariant 0 <= i <= flows.Length
        invariant flows[..] == Marked(f0[..i]) + f0[i..]
        invariant Consistent(adj, Entered(f0, i), links[..]) && Kept(old(links[..]), links[..])
      {
        EnterInto(i, f0);
        i := i + 1;
      }
      EnteredAll(f0);
    }

    method EnterInto(i: nat, ghost f0: seq<Flow>)
      requires Valid() && i < flows.Length == |f0|
      requires flows[..] == Marked(f0[..i]) + f0[i..] && Consistent(adj, Entered(f0, i), links[..])
      modifies links, flows
      ensures flows[..] == Marked(f0[..i + 1]) + f0[i + 1..] && Consistent(adj, Entered(f0, i + 1), links[..])
      ensures Kept(old(links[..]), links[..])
    {
      assert flows[i] == f0[i];
      EnterNext(adj, f0, links[..], i);
      MarkNext(f0, i);
      EnterFlow(i);
    }

    method EnterFlow(i: nat)
      requires Valid() && i < flows.Length
      modifies links, flows
      ensures flows[..] == old(flows[..])[i := old(flows[i]).(scaled := old(flows[i]).short)]
      ensures flows[i].short ==> links[..] == Charged(old(links[..]), adj[i], flows[i].ptput, 0.0)
      ensures !flows[i].short ==> links[..] == Charged(old(links[..]), adj[i], 0.0, -flows[i].ptput)
      ensures Kept(old(links[..]), links[..])
    {
      flows[i] := flows[i].(scaled := flows[i].short);
      if flows[i].short {
        Charge(i, flows[i].ptput, 0.0);
      } else {
        Charge(i, 0.0, -flows[i].ptput);
      }
    }

    method FreeLinks()
      modifies links
      ensures forall l :: 0 <= l < links.Length ==> links[l].uc == Capacity(links[l].mu) && links[l].utput == 0.0
      ensures Kept(old(links[..]), links[..])
    {
      var i := 0;
      while i < links.Length
        invariant 0 <= i <= links.Length
        invariant forall l :: i <= l < links.Length ==> links[l] == old(links[l])
        invariant forall l :: 0 <= l < i ==> links[l] == old(links[l]).(uc := Capacity(old(links[l]).mu), utput := 0.0)
      {
        links[i] := links[i].(uc := links[i].mu * 1.05, utput := 0.0);
        i := i + 1;
      }
    }

    /** The link with the largest demand over residual, if any ratio is positive. */
    method FindBottleneck() returns (bneck: int, maxgamma: real)
      ensures -1 <= bneck < links.Length && maxgamma >= 0.0
      ensures bneck == -1 ==> maxgamma == 0.0
      ensures bneck >= 0 ==> links[bneck].uc != 0.0 && maxgamma == links[bneck].utput / links[bneck].uc > 0.0
      ensures forall l :: 0 <= l < links.Length && links[l].uc != 0.0 ==> links[l].utput / links[l].uc <= maxgamma
    {
      bneck, maxgamma := -1, 0.0;
      var i := 0;
      while i < links.Length
        invariant 0 <= i <= links.Length && -1 <= bneck < links.Length && maxgamma >= 0.0
        invariant bneck == -1 ==> maxgamma == 0.0
        invariant bneck >= 0 ==> links[bneck].uc != 0.0 && maxgamma == links[bneck].utput / links[bneck].uc > 0.0
        invariant forall l :: 0 <= l < i && links[l].uc != 0.0 ==> links[l].utput / links[l].uc <= maxgamma
      {
        if links[i].uc != 0.0 {
          var t := links[i].utput / links[i].uc;
          if t > maxgamma {
            bneck, maxgamma := i, t;
          }
        }
        i := i + 1;
      }
    }

    /** Scale one connection and take it off every link of its route. */
    method ScaleFlow(t: nat, g: real)
      requires Valid() && t < flows.Length && g != 0.0 && !flows[t].scaled
      requires Consistent(adj, flows[..], links[..])
      modifies links, flows
      ensures flows[..] == old(flows[..])[t := old(flows[t]).(ptput := old(flows[t]).ptput / g, scaled := true)]
      ensures Consistent(adj, flows[..], links[..]) && Kept(old(links[..]), links[..])
    {
      ghost var f, before := flows[..], links[..];
      var p := flows[t].ptput / g;
      flows[t] := flows[t].(ptput := p, scaled := true);
      DivideBack(f[t].ptput, g);
      assert p * g == f[t].ptput;
      ghost var f' := flows[..];
      assert f' == f[t := f'[t]];
      ChargeConsistent(adj, f, f', before, t, p, p * g);
      Charge(t, p, p * g);
      assert Kept(before, links[..]);
    }

    /** The body of the main loop up to the next search: scale what still runs through b. */
    method ScaleLink(b: nat, g: real)
      requires Valid() && b < links.Length && g != 0.0
      requires Consistent(adj, flows[..], links[..]) && forall i :: 0 <= i < flows.Length && flows[i].short ==> flows[i].scaled
      modifies links, flows
      ensures flows[..] == ScaleThrough(adj, old(flows[..]), b, g)
      ensures Consistent(adj, flows[..], links[..]) && Kept(old(links[..]), links[..])
    {
      ghost var f := flows[..];
      var i, list := 0, theflows[b];
      while i < |list|
        invariant 0 <= i <= |list|
        invariant flows[..] == ScaleListed(f, list[..i], g)
        invariant Consistent(adj, flows[..], links[..]) && Kept(old(links[..]), links[..])
      {
        var t := list[i];
        assert ListsUsers(adj, b, list) && t in list;
        assert list[..i + 1] == list[..i] + [t];
        if !flows[t].short && !flows[t].scaled {
          ScaleFlow(t, g);
        }
        assert flows[..] == ScaleListed(f, list[..i + 1], g);
        i := i + 1;
      }
      assert list[..i] == list && ListsUsers(adj, b, list);
      assert flows[..] == ScaleThrough(adj, f, b, g);
    }

    /** newupdate. gammas records the ratio of each round. */
    method NewUpdate(niter: int) returns (ghost gammas: seq<real>)
      requires Valid()
      modifies links, flows
      ensures Caps(links[..]) == Caps(old(links[..]))
      ensures forall l :: 0 <= l < links.Length ==> links[l].tlambda == Sum(adj, Rates(flows[..]), l)
      ensures forall l :: 0 <= l < links.Length ==>
                links[l].plambda == old(links[l]).lambda && links[l].lambda == Smoothed(niter, old(links[l]).lambda, links[l])
      ensures Allocated(adj, old(flows[..]), flows[..], Caps(links[..]), gammas)
      ensures niter == 0 && PositiveBulk(old(flows[..])) ==>
                forall l :: 0 <= l < links.Length ==>
                  (links[l].lambda <= 1.05 * links[l].mu <==> ShortsFit(adj, old(flows[..]), Caps(links[..]), l))
    {
      gammas := ScaleBottlenecks();
      ghost var l1 := links[..];
      KeptCaps(old(links[..]), l1);
      Update(niter);
      assert Caps(links[..]) == Caps(l1);
      if niter == 0 && PositiveBulk(old(flows[..])) {
        forall l | 0 <= l < links.Length
          ensures links[l].lambda <= 1.05 * links[l].mu <==> ShortsFit(adj, old(flows[..]), Caps(links[..]), l)
        {
          LoadsFit(adj, old(flows[..]), flows[..], Caps(links[..]), gammas, l);
        }
      }
    }

    method ScaleBottlenecks() returns (ghost gammas: seq<real>)
      requires Valid()
      modifies links, flows
      ensures Kept(old(links[..]), links[..])
      ensures Allocated(adj, old(flows[..]), flows[..], Caps(links[..]), gammas)
    {
      ghost var f0, l0, cap := flows[..], links[..], Caps(links[..]);
      InitResidual();
      KeptCaps(l0, links[..]);
      gammas := [];
      var bneck, maxgamma := FindBottleneck();
      SearchedLinks(adj, flows[..], links[..], cap, bneck, maxgamma);
      SearchFirst(adj, f0, cap, bneck, maxgamma);
      while bneck + 1 != 0
        invariant Kept(l0, links[..]) && Consistent(adj, flows[..], links[..]) && Caps(links[..]) == cap
        invariant Searched(adj, flows[..], cap, bneck, maxgamma)
        invariant LoopInv(adj, f0, flows[..], cap, maxgamma, gammas)
        decreases Unscaled(flows[..])
      {
        bneck, maxgamma, gammas := RoundAndSearch(bneck, maxgamma, f0, gammas);
        KeptCaps(l0, links[..]);
      }
      AllocatedAtEnd(adj, f0, flows[..], cap, gammas);
    }

    /** The body of the main loop. */
    method RoundAndSearch(b: nat, g: real, ghost f0: seq<Flow>, ghost gammas: seq<real>)
      returns (bneck: int, maxgamma: real, ghost gammas': seq<real>)
      requires Valid() && b < links.Length && |f0| == flows.Length && Consistent(adj, flows[..], links[..])
      requires Searched(adj, flows[..], Caps(links[..]), b, g) && LoopInv(adj, f0, flows[..], Caps(links[..]), g, gammas)
      modifies links, flows
      ensures Kept(old(links[..]), links[..]) && Consistent(adj, flows[..], links[..])
      ensures Searched(adj, flows[..], Caps(links[..]), bneck, maxgamma)
      ensures LoopInv(adj, f0, flows[..], Caps(links[..]), maxgamma, gammas')
      ensures Unscaled(flows[..]) < Unscaled(old(flows[..]))
    {
      ghost var f, l0, cap := flows[..], links[..], Caps(links[..]);
      Round(b, g);
      KeptCaps(l0, links[..]);
      LoopKeeps(adj, f0, f, cap, b, g, gammas);
      gammas' := gammas + [g];
      bneck, maxgamma := FindBottleneck();
      SearchedLinks(adj, flows[..], links[..], cap, bneck, maxgamma);
      LoopNext(adj, f0, flows[..], cap, g, bneck, maxgamma, gammas');
    }

    /** One round at link b; the last assignment is shown to change nothing. */
    method Round(b: nat, g: real)
      requires Valid() && b < links.Length && Searched(adj, flows[..], Caps(links[..]), b, g)
      requires Consistent(adj, flows[..], links[..]) && forall i :: 0 <= i < flows.Length && flows[i].short ==> flows[i].scaled
      modifies links, flows
      ensures flows[..] == ScaleThrough(adj, old(flows[..]), b, g)
      ensures Consistent(adj, flows[..], links[..]) && Kept(old(links[..]), links[..])
      ensures Unscaled(flows[..]) < Unscaled(old(flows[..]))
    {
      ghost var f, l0 := flows[..], links[..];
      ghost var k := SearchFound(adj, f, Caps(l0), b, g);
      ScaleLink(b, g);
      KeptCaps(l0, links[..]);
      RoundFills(adj, f, b, g, Caps(l0));
      UnscaledDrops(f, flows[..], k);
      ghost var l1 := links[..];
      assert links[b].uc == 0.0;
      links[b] := links[b].(uc := 0.0);
      assert links[..] == l1;
    }

    method UpdateHelper(onlyUnscaled: bool)
      requires Valid()
      modifies links
      ensures links[..] == WithLoad(adj, old(links[..]), Counted(flows[..], onlyUnscaled, flows.Length))
    {
      ClearLoads();
      ghost var f, l0 := flows[..], old(links[..]);
      CountNone(adj, f, onlyUnscaled, l0, links[..]);
      var i := 0;
      while i < flows.Length
        invariant 0 <= i <= flows.Length
        invariant links[..] == WithLoad(adj, l0, Counted(f, onlyUnscaled, i))
      {
        CountNext(adj, f, onlyUnscaled, i, l0);
        if !onlyUnscaled || !flows[i].scaled {
          AddAlong(i, flows[i].ptput);
        }
        i := i + 1;
      }
    }

    method ClearLoads()
      modifies links
      ensures forall l :: 0 <= l < links.Length ==> links[l] == old(links[l]).(tlambda := 0.0)
    {
      var i := 0;
      while i < links.Length
        invariant 0 <= i <= links.Length
        invariant forall l :: i <= l < links.Length ==> links[l] == old(links[l])
        invariant forall l :: 0 <= l < i ==> links[l] == old(links[l]).(tlambda := 0.0)
      {
        links[i] := links[i].(tlambda := 0.0);
        i := i + 1;
      }
    }

    method AddAlong(t: nat, x: real)
      requires Valid() && t < flows.Length
      modifies links
      ensures links[..] == Added(old(links[..]), adj[t], x)
    {
      var j := 0;
      ghost var was, route := links[..], adj[t];
      assert links[..] == Added(was, route[..0], x);
      while j < |adj[t]|
        invariant 0 <= j <= |adj[t]|
        invariant links[..] == Added(was, route[..j], x)
      {
        var l := adj[t][j];
        assert route[..j + 1][..j] == route[..j];
        ghost var before := links[..];
        links[l] := links[l].(tlambda := links[l].tlambda + x);
        assert links[..] == before[l := links[l]];
        assert links[..] == Added(was, route[..j + 1], x);
        j := j + 1;
      }
      assert route[..j] == route;
    }

    method Update(niter: int)
      requires Valid()
      modifies links
      ensures forall l :: 0 <= l < links.Length ==>
                && links[l].tlambda == Sum(adj, Rates(flows[..]), l)
                && links[l] == old(links[l]).(tlambda := links[l].tlambda, plambda := old(links[l]).lambda,
                                              lambda := Smoothed(niter, old(links[l]).lambda, links[l]))
    {
      UpdateHelper(false);
      assert Counted(flows[..], false, flows.Length) == Rates(flows[..]);
      ghost var was := links[..];
      assert forall l :: 0 <= l < links.Length ==>
               was[l] == old(links[l]).(tlambda := Sum(adj, Rates(flows[..]), l));
      var i := 0;
      while i < links.Length
        invariant 0 <= i <= links.Length
        invariant forall l :: i <= l < links.Length ==> links[l] == was[l]
        invariant forall l :: 0 <= l < i ==>
                    links[l] == was[l].(plambda := was[l].lambda, lambda := Smoothed(niter, was[l].lambda, was[l]))
      {
        var t := links[i].tlambda;
        if niter != 0 {
          if links[i].tlambda > links[i].mu * 1.1 {
            t := (links[i].lambda + links[i].mu * 1.1) / 2.0;
          } else {
            t := (links[i].tlambda + links[i].lambda) / 2.0;
          }
        }
        links[i] := links[i].(plambda := links[i].lambda, lambda := t);
        i := i + 1;
      }
    }
  }

  lemma SearchedLinks(adj: Routes, f: seq<Flow>, links: seq<Link>, cap: seq<real>, b: int, g: real)
    requires |adj| == |f| && Consistent(adj, f, links) && cap == Caps(links)
    requires -1 <= b < |links| && g >= 0.0 && (b == -1 ==> g == 0.0)
    requires b >= 0 ==> links[b].uc != 0.0 && g == links[b].utput / links[b].uc > 0.0
    requires forall l :: 0 <= l < |links| && links[l].uc != 0.0 ==> links[l].utput / links[l].uc <= g
    ensures Searched(adj, f, cap, b, g)
  {
    forall l | 0 <= l < |cap| && Residual(adj, f, cap, l) != 0.0
      ensures Demand(adj, f, l) / Residual(adj, f, cap, l) <= g
    {
      assert links[l].utput / links[l].uc <= g;
    }
  }

  /** What the main loop keeps, including the record of its ratios. */
  ghost predicate LoopInv(adj: Routes, f0: seq<Flow>, f: seq<Flow>, cap: seq<real>, g: real, gammas: seq<real>)
    requires |adj| == |f0|
  {
    && RoundsInv(adj, f0, f, cap, g) && ScaledOnce(f0, f, gammas)
    && (PositiveBulk(f0) ==>
          && (forall i :: 0 <= i < |gammas| ==> g <= gammas[i])
          && (forall i, j :: 0 <= i < j < |gammas| ==> gammas[j] <= gammas[i]))
  }

  /** What newupdate achieves with positive bulk rates, whatever the short connections leave. Every
      link that carries bulk connections fits exactly if it is roomy. Bulk connections with a roomy
      link are scaled, once, by one of the ratios, which never grow, to a weighted max-min fair
      allocation; the others keep their rate. */
  ghost predicate Allocated(adj: Routes, f0: seq<Flow>, f: seq<Flow>, cap: seq<real>, gammas: seq<real>)
    requires |adj| == |f0|
  {
    && SameKinds(f0, f) && ScaledOnce(f0, f, gammas)
    && (forall i :: 0 <= i < |f| && !f[i].scaled ==> f[i].ptput == f0[i].ptput)
    && (PositiveBulk(f0) ==>
          && (forall l :: 0 <= l < |cap| && Carries(adj, f0, l) ==> (Fits(adj, f, cap, l) <==> Roomy(adj, f0, cap, l)))
          && (forall i :: 0 <= i < |f| && !f[i].short ==> (f[i].scaled <==> Reaches(adj, f0, cap, i)))
          && Fair(adj, f0, f, cap)
          && (forall i, j :: 0 <= i < j < |gammas| ==> gammas[j] <= gammas[i]))
  }

  /** The short connections leave enough of 1.05 mu on link l: something if bulk connections run
      there, and nothing missing otherwise. */
  predicate ShortsFit(adj: Routes, f: seq<Flow>, cap: seq<real>, l: nat)
    requires |adj| == |f| && l < |cap|
  {
    if Carries(adj, f, l) then Sum(adj, Shorts(f), l) < cap[l] else Sum(adj, Shorts(f), l) <= cap[l]
  }

  /** Link by link: the load is within 1.05 mu exactly if the short connections fit there. */
  lemma LoadsFit(adj: Routes, f0: seq<Flow>, f: seq<Flow>, cap: seq<real>, gammas: seq<real>, l: nat)
    requires |adj| == |f0| && Allocated(adj, f0, f, cap, gammas) && PositiveBulk(f0) && l < |cap|
    ensures Sum(adj, Rates(f), l) <= cap[l] <==> ShortsFit(adj, f0, cap, l)
  {
    if Carries(adj, f0, l) {
      assert Fits(adj, f, cap, l) <==> Roomy(adj, f0, cap, l);
    } else {
      SumSame(adj, Shorts(f0), Rates(f), l);
    }
  }

  lemma AllocatedAtEnd(adj: Routes, f0: seq<Flow>, f: seq<Flow>, cap: seq<real>, gammas: seq<real>)
    requires |adj| == |f0| && LoopInv(adj, f0, f, cap, 0.0, gammas)
    ensures Allocated(adj, f0, f, cap, gammas)
  {
    if PositiveBulk(f0) {
      RoundsEnd(adj, f0, f, cap);
    }
  }

  lemma LoopKeeps(adj: Routes, f0: seq<Flow>, f: seq<Flow>, cap: seq<real>, b: nat, g: real, gammas: seq<real>)
    requires |adj| == |f0| == |f| && Searched(adj, f, cap, b, g) && LoopInv(adj, f0, f, cap, g, gammas)
    ensures LoopInv(adj, f0, ScaleThrough(adj, f, b, g), cap, g, gammas + [g])
  {
    var k := SearchFound(adj, f, cap, b, g);
    RoundsKeep(adj, f0, f, cap, b, g);
    ScaledOnceStep(adj, f0, f, b, g, gammas);
  }

  lemma LoopNext(adj: Routes, f0: seq<Flow>, f: seq<Flow>, cap: seq<real>, g: real, b: int, g': real, gammas: seq<real>)
    requires |adj| == |f0| == |f| && LoopInv(adj, f0, f, cap, g, gammas) && g >= 0.0 && Searched(adj, f, cap, b, g')
    ensures LoopInv(adj, f0, f, cap, g', gammas)
  {
    SearchNext(adj, f0, f, cap, g, b, g');
  }

  /** The rates UpdateHelper has added up after the first n connections. */
  ghost function Counted(f: seq<Flow>, onlyUnscaled: bool, n: nat): seq<real> {
    seq(|f|, i requires 0 <= i < |f| => if i < n && (!onlyUnscaled || !f[i].scaled) then f[i].ptput else 0.0)
  }

  /** The estimate moves half way from its old value towards the load, the load counting for at most
      1.1 mu; the first iteration takes the load as it is. */
  lemma SmoothedHalfWay(niter: int, was: real, link: Link)
    ensures niter == 0 ==> Smoothed(niter, was, link) == link.tlambda
    ensures niter != 0 ==>
              var aim := if link.tlambda > 1.1 * link.mu then 1.1 * link.mu else link.tlambda;
              Smoothed(niter, was, link) - was == aim - Smoothed(niter, was, link)
  {
  }

  /** So a link that was within 1.1 mu stays so, and repeated at a steady load within it the error
      halves each time. */
  lemma SmoothedSettles(niter: int, was: real, link: Link)
    requires niter != 0
    ensures was <= 1.1 * link.mu ==> Smoothed(niter, was, link) <= 1.1 * link.mu
    ensures link.tlambda <= 1.1 * link.mu ==> 2.0 * (Smoothed(niter, was, link) - link.tlambda) == was - link.tlambda
  {
  }

  /** The links with tlambda set to the load of rates w. */
  ghost function WithLoad(adj: Routes, links: seq<Link>, w: seq<real>): seq<Link>
    requires |adj| == |w|
  {
    seq(|links|, l requires 0 <= l < |links| => links[l].(tlambda := Sum(adj, w, l)))
  }

  ghost function Added(links: seq<Link>, route: seq<nat>, x: real): seq<Link> {
    seq(|links|, l requires 0 <= l < |links| => links[l].(tlambda := links[l].tlambda + Times(Uses(route, l), x)))
  }

  lemma CountNone(adj: Routes, f: seq<Flow>, onlyUnscaled: bool, l0: seq<Link>, links: seq<Link>)
    requires |adj| == |f| && |links| == |l0|
    requires forall l :: 0 <= l < |links| ==> links[l] == l0[l].(tlambda := 0.0)
    ensures links == WithLoad(adj, l0, Counted(f, onlyUnscaled, 0))
  {
    forall l | 0 <= l < |links|
      ensures Sum(adj, Counted(f, onlyUnscaled, 0), l) == 0.0
    {
      SumOfZeros(adj, Counted(f, onlyUnscaled, 0), l);
    }
  }

  lemma CountNext(adj: Routes, f: seq<Flow>, onlyUnscaled: bool, i: nat, l0: seq<Link>)
    requires |adj| == |f| && i < |f|
    ensures WithLoad(adj, l0, Counted(f, onlyUnscaled, i + 1))
         == if !onlyUnscaled || !f[i].scaled
            then Added(WithLoad(adj, l0, Counted(f, onlyUnscaled, i)), adj[i], f[i].ptput)
            else WithLoad(adj, l0, Counted(f, onlyUnscaled, i))
  {
    var c, c' := Counted(f, onlyUnscaled, i), Counted(f, onlyUnscaled, i + 1);
    assert c' == c[i := c'[i]];
    forall l | 0 <= l < |l0|
      ensures Sum(adj, c', l) == Sum(adj, c, l) + Times(Uses(adj[i], l), c'[i])
    {
      SumUpdate(adj, c, l, i, c'[i]);
    }
    forall l | 0 <= l < |l0| { TimesZero(Uses(adj[i], l)); }
  }

  // ----- entering the connections one by one -----

  /** The first n connections marked, the rest contributing nothing. */
  ghost function Entered(f: seq<Flow>, n: nat): seq<Flow> {
    seq(|f|, i requires 0 <= i < |f| => if i < n then f[i].(scaled := f[i].short) else Flow(0.0, true, true))
  }

  lemma EnteredAll(f: seq<Flow>)
    ensures Entered(f, |f|) == Marked(f) == Marked(f[..|f|]) + f[|f|..]
  {
    assert f[..|f|] == f;
  }

  lemma MarkNext(f: seq<Flow>, i: nat)
    requires i < |f|
    ensures (Marked(f[..i]) + f[i..])[i := f[i].(scaled := f[i].short)] == Marked(f[..i + 1]) + f[i + 1..]
  {
  }

  lemma BlankConsistent(adj: Routes, f: seq<Flow>, links: seq<Link>)
    requires |adj| == |f|
    requires forall l :: 0 <= l < |links| ==> links[l].uc == Capacity(links[l].mu) && links[l].utput == 0.0
    ensures Consistent(adj, Entered(f, 0), links)
  {
    forall l | 0 <= l < |links|
      ensures links[l].uc == Residual(adj, Entered(f, 0), Caps(links), l)
      ensures links[l].utput == Demand(adj, Entered(f, 0), l)
    {
      SumOfZeros(adj, Taken(Entered(f, 0)), l);
      SumOfZeros(adj, Pending(Entered(f, 0)), l);
    }
  }

  lemma EnterNext(adj: Routes, f: seq<Flow>, links: seq<Link>, i: nat)
    requires |adj| == |f| && i < |f| && Consistent(adj, Entered(f, i), links)
    ensures f[i].short ==> Consistent(adj, Entered(f, i + 1), Charged(links, adj[i], f[i].ptput, 0.0))
    ensures !f[i].short ==> Consistent(adj, Entered(f, i + 1), Charged(links, adj[i], 0.0, -f[i].ptput))
  {
    var e, e' := Entered(f, i), Entered(f, i + 1);
    assert e' == e[i := e'[i]];
    if f[i].short {
      ChargeConsistent(adj, e, e', links, i, f[i].ptput, 0.0);
    } else {
      ChargeConsistent(adj, e, e', links, i, 0.0, -f[i].ptput);
    }
  }
}
