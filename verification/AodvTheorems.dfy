/** The AODV guarantees, stated over every state of every run. */
module AodvTheorems {
  import opened Common
  import opened AodvProtocol
  import opened AodvNetwork
  import opened AodvSafety
  import AodvAgent

  // ----- loop freedom -----

  /** p follows next hops of valid routes towards d; it cannot continue past d. */
  predicate NextHopPath(w: World, d: Addr, p: seq<Addr>) {
    forall i :: 0 <= i < |p| - 1 ==>
      p[i] in w.nodes && p[i] != d && Route(w, p[i], d).flag.Up? && p[i + 1] == Route(w, p[i], d).nexthop
  }

  lemma {:induction false} FresherAlongPath(w: World, d: Addr, p: seq<Addr>, i: nat, j: nat)
    requires Inv(w) && NextHopPath(w, d, p) && i < j < |p| && p[j] != d
    ensures Fresher(Route(w, p[j], d), Route(w, p[i], d).seqno, Route(w, p[i], d).hops)
    decreases j - i
  {
    assert EntryInv(w, p[j - 1], d);
    assert p[(j - 1) + 1] == Route(w, p[j - 1], d).nexthop;
    if i < j - 1 {
      FresherAlongPath(w, d, p, i, j - 1);
    }
  }

  lemma PathDistinct(w: World, d: Addr, p: seq<Addr>, i: nat, j: nat)
    requires Inv(w) && NextHopPath(w, d, p) && i < j < |p|
    ensures p[i] != p[j]
  {
    if p[j] != d {
      FresherAlongPath(w, d, p, i, j);
    }
  }

  lemma {:induction false} DistinctFits<T>(p: seq<T>, s: set<T>)
    requires forall i :: 0 <= i < |p| ==> p[i] in s
    requires forall i, j :: 0 <= i < j < |p| ==> p[i] != p[j]
    ensures |p| <= |s|
  {
    if p != [] {
      var k := |p| - 1;
      assert forall i :: 0 <= i < k ==> p[..k][i] == p[i];
      DistinctFits(p[..k], s - {p[k]});
    }
  }

  /** No next-hop path revisits a node, and a packet leaves the valid routes within |nodes| hops. */
  lemma LoopFreedom(ws: seq<World>, steps: seq<Step>, k: nat, d: Addr, p: seq<Addr>)
    requires IsRun(ws, steps) && k < |ws| && HopsFinite(ws[k])
    requires NextHopPath(ws[k], d, p)
    ensures forall i, j :: 0 <= i < j < |p| ==> p[i] != p[j]
    ensures |p| <= |ws[k].nodes| + 1
  {
    RunInv(ws, steps, k);
    forall i, j | 0 <= i < j < |p|
      ensures p[i] != p[j]
    {
      PathDistinct(ws[k], d, p, i, j);
    }
    if p != [] {
      assert forall i :: 0 <= i < |p| - 1 ==> p[..|p| - 1][i] == p[i];
      DistinctFits(p[..|p| - 1], ws[k].nodes.Keys);
    }
  }

  // ----- freshness, parity, ownership -----

  /** Along a run no entry ever loses freshness. */
  lemma {:induction false} FreshnessGrows(ws: seq<World>, steps: seq<Step>, i: nat, j: nat, n: Addr, d: Addr)
    requires IsRun(ws, steps) && i <= j < |ws| && HopsFinite(ws[j])
    ensures AtLeast(Route(ws[j], n, d), Route(ws[i], n, d).seqno, Route(ws[i], n, d).hops)
    decreases j - i
  {
    if i < j {
      FiniteBefore(ws, steps, j);
      FreshnessGrows(ws, steps, i, j - 1, n, d);
      StepGrows(ws, steps, j);
      GrowsOn(ws[i], ws[j - 1], ws[j], n, d);
    }
  }

  /** Messages stay in the network, so what is true of all of them was true of all before. */
  lemma FiniteBefore(ws: seq<World>, steps: seq<Step>, j: nat)
    requires IsRun(ws, steps) && 0 < j < |ws| && HopsFinite(ws[j])
    ensures HopsFinite(ws[j - 1])
  {
    assert StepAt(ws, steps, j - 1);
  }

  lemma StepGrows(ws: seq<World>, steps: seq<Step>, j: nat)
    requires IsRun(ws, steps) && 0 < j < |ws| && HopsFinite(ws[j - 1])
    ensures Grows(ws[j - 1], ws[j])
  {
    RunInv(ws, steps, j - 1);
    assert StepAt(ws, steps, j - 1);
    StepKeepsInv(ws[j - 1], steps[j - 1]);
  }

  lemma GrowsOn(a: World, b: World, c: World, n: Addr, d: Addr)
    requires AtLeast(Route(b, n, d), Route(a, n, d).seqno, Route(a, n, d).hops) && Grows(b, c)
    ensures AtLeast(Route(c, n, d), Route(a, n, d).seqno, Route(a, n, d).hops)
  {
    var e := Route(b, n, d);
    assert AtLeast(Route(c, n, d), e.seqno, e.hops);
  }

  /** UP exactly when the hop count is finite; valid routes carry even numbers, invalid ones odd
      or zero; every node's own number is even; hop counts never reach INFINITY2. */
  lemma RouteStates(ws: seq<World>, steps: seq<Step>, k: nat, n: Addr, d: Addr)
    requires IsRun(ws, steps) && k < |ws| && HopsFinite(ws[k]) && n in ws[k].nodes
    ensures ws[k].nodes[n].seqno % 2 == 0
    ensures Route(ws[k], n, d).flag.Up? <==> Route(ws[k], n, d).hops != INFINITY2
    ensures Route(ws[k], n, d).flag.Up? <==> Route(ws[k], n, d).seqno % 2 == 0 && Route(ws[k], n, d).seqno > 0
    ensures Route(ws[k], n, d).flag.Up? ==> 1 <= Route(ws[k], n, d).hops <= |ws[k].nodes| + NETWORK_DIAMETER
    ensures Route(ws[k], n, d).reqCnt <= RREQ_RETRIES + 1
  {
    RunInv(ws, steps, k);
    assert EntryInv(ws[k], n, d);
    var e := Route(ws[k], n, d);
    HoldersBound(ws[k], d, e.seqno, e.hops);
  }

  /** A destination's own number bounds what anybody holds or says about it. */
  lemma SequenceOwnership(ws: seq<World>, steps: seq<Step>, k: nat, d: Addr)
    requires IsRun(ws, steps) && k < |ws| && HopsFinite(ws[k])
    ensures forall n :: n in ws[k].nodes ==>
              var e := Route(ws[k], n, d);
              e.seqno <= Own(ws[k], d) + 1 && (e.flag.Up? ==> e.seqno <= Own(ws[k], d))
    ensures forall rq :: Request(rq) in ws[k].net ==>
              && (rq.src == d ==> rq.srcSeqno <= Own(ws[k], d))
              && (rq.dst == d ==> rq.dstSeqno <= Own(ws[k], d) + 1)
    ensures forall rp :: Reply(rp) in ws[k].net && rp.dst == d ==> rp.dstSeqno <= Own(ws[k], d)
    ensures forall re :: Error(re) in ws[k].net && d in re.unreachable ==> re.unreachable[d] <= Own(ws[k], d) + 1
  {
    RunInv(ws, steps, k);
    var w := ws[k];
    forall n | n in w.nodes
      ensures var e := Route(w, n, d);
              e.seqno <= Own(w, d) + 1 && (e.flag.Up? ==> e.seqno <= Own(w, d))
    {
      assert EntryInv(w, n, d);
    }
    forall rq | Request(rq) in w.net
      ensures && (rq.src == d ==> rq.srcSeqno <= Own(w, d))
              && (rq.dst == d ==> rq.dstSeqno <= Own(w, d) + 1)
    {
      assert MsgInv(w, Request(rq));
    }
    forall rp | Reply(rp) in w.net && rp.dst == d
      ensures rp.dstSeqno <= Own(w, d)
    {
      assert MsgInv(w, Reply(rp));
    }
    forall re | Error(re) in w.net && d in re.unreachable
      ensures re.unreachable[d] <= Own(w, d) + 1
    {
      assert MsgInv(w, Error(re));
      assert ErrorInv(w, d, re.unreachable[d]);
    }
  }

  /** When the destination itself answers, its number moves up by exactly two (the maximum taken
      with the requested number never matters) and beats every entry any node holds for it. */
  lemma FreshReply(ws: seq<World>, steps: seq<Step>, k: nat, x: Addr, h: nat)
    requires IsRun(ws, steps) && k < |steps| && HopsFinite(ws[k])
    requires Hears(ws[k], steps[k]) && steps[k].m.rq.dst == steps[k].at
    requires x in ws[k].nodes
    ensures Own(ws[k + 1], steps[k].at) == Own(ws[k], steps[k].at) + 2
    ensures Better(Route(ws[k], x, steps[k].at), Own(ws[k + 1], steps[k].at), h)
  {
    var w, st := ws[k], steps[k];
    RunInv(ws, steps, k);
    assert StepAt(ws, steps, k);
    assert MsgInv(w, st.m);
    assert EntryInv(w, x, st.at);
    assert StepAt(ws, steps, k);
  }

  /** The first-query branch of the expanding ring is dead: the last known hop count starts at
      INFINITY2, so every request goes out with 3 to 8 hops or with the network diameter. */
  lemma RingStartUnused(ws: seq<World>, steps: seq<Step>, k: nat, n: Addr, d: Addr)
    requires IsRun(ws, steps) && k < |ws| && HopsFinite(ws[k]) && n in ws[k].nodes
    ensures var e := Route(ws[k], n, d);
            var last := Max(e.reqLastTtl, e.lastHopCount);
            last != 0 && (3 <= RequestTtl(last) <= 8 || RequestTtl(last) == NETWORK_DIAMETER)
  {
    RunInv(ws, steps, k);
    assert EntryInv(ws[k], n, d);
  }

  // ----- the handlers' preconditions -----

  /** Everything in flight and every node of a run meets what the agent's handlers require, so
      none of the asserts in them can fail. */
  lemma HandlersApply(ws: seq<World>, steps: seq<Step>, k: nat)
    requires IsRun(ws, steps) && k < |ws| && HopsFinite(ws[k])
    ensures forall n :: n in ws[k].nodes ==> NodeOk(ws[k].nodes[n])
    ensures forall rq :: Request(rq) in ws[k].net ==> AodvAgent.RequestOk(rq)
    ensures forall rp :: Reply(rp) in ws[k].net ==> AodvAgent.ReplyOk(rp)
    ensures forall re :: Error(re) in ws[k].net ==> AodvAgent.ErrorOk(re)
  {
    RunInv(ws, steps, k);
    var w := ws[k];
    forall n | n in w.nodes
      ensures NodeOk(w.nodes[n])
    {
      forall d | d in w.nodes[n].rtable
        ensures EntryOk(w.nodes[n].rtable[d])
      {
        assert EntryInv(w, n, d) && Route(w, n, d) == w.nodes[n].rtable[d];
      }
    }
    forall rq | Request(rq) in w.net
      ensures AodvAgent.RequestOk(rq)
    {
      assert MsgInv(w, Request(rq));
    }
    forall rp | Reply(rp) in w.net
      ensures AodvAgent.ReplyOk(rp)
    {
      assert MsgInv(w, Reply(rp));
    }
    forall re | Error(re) in w.net
      ensures AodvAgent.ErrorOk(re)
    {
      assert MsgInv(w, Error(re));
      assert forall d :: d in re.unreachable ==> ErrorInv(w, d, re.unreachable[d]);
    }
  }

  lemma PurgeAsksOnly(w: World, st: Step)
    requires HopsFinite(w) && Enabled(w, st) && st.Purge?
    ensures HopsFinite(Next(w, st))
  {
    assert forall m :: m in Act(w, st).sent ==> m.Request?;
  }

  /** Node at has moved by o, and nothing else has happened. */
  ghost predicate Moved(w: World, at: Addr, o: Outcome, w': World) {
    && w'.nodes == w.nodes[at := o.node] && w'.now == w.now
    && w'.net == w.net + set m | m in o.sent
  }

  lemma MovedTwice(w: World, at: Addr, o1: Outcome, w1: World, o2: Outcome, w2: World)
    requires Moved(w, at, o1, w1) && Moved(w1, at, o2, w2)
    ensures Moved(w, at, Outcome(o2.node, o1.sent + o2.sent), w2)
  {
  }

  /** A whole rt_purge, whatever the order of its list, is a run of purge steps: it keeps the
      invariant and loses no freshness. */
  lemma {:induction false} PurgeAllIsSteps(w: World, at: Addr, order: seq<Addr>, waiting: set<Addr>, perHop: real) returns (w': World)
    requires Inv(w) && at in w.nodes && forall d :: d in order ==> d in w.nodes[at].rtable
    ensures Inv(w') && Grows(w, w')
    ensures Moved(w, at, PurgeAll(w.nodes[at], at, order, waiting, w.now, perHop), w')
  {
    if order == [] {
      w' := w;
      TickGrows(w, w);
    } else {
      var n := |order| - 1;
      var d := order[n];
      var w1 := PurgeAllIsSteps(w, at, order[..n], waiting, perHop);
      var o1 := PurgeAll(w.nodes[at], at, order[..n], waiting, w.now, perHop);
      w' := PurgeIsStep(w1, at, d, d in waiting, perHop);
      GrowsTrans(w, w1, w');
      MovedTwice(w, at, o1, w1, PurgeEntry(o1.node, at, d, d in waiting, w.now, perHop), w');
    }
  }

  lemma PurgeIsStep(w: World, at: Addr, d: Addr, waiting: bool, perHop: real) returns (w': World)
    requires Inv(w) && at in w.nodes && d in w.nodes[at].rtable
    ensures Inv(w') && Grows(w, w')
    ensures Moved(w, at, PurgeEntry(w.nodes[at], at, d, waiting, w.now, perHop), w')
  {
    var st := Purge(at, d, waiting, perHop);
    StepKeepsInv(w, st);
    PurgeAsksOnly(w, st);
    w' := Next(w, st);
  }

  lemma GrowsTrans(a: World, b: World, c: World)
    requires Grows(a, b) && Grows(b, c)
    ensures Grows(a, c)
  {
    forall d
      ensures Own(a, d) <= Own(c, d)
    {
      assert Own(a, d) <= Own(b, d) <= Own(c, d);
    }
    forall n, d
      ensures AtLeast(Route(c, n, d), Route(a, n, d).seqno, Route(a, n, d).hops)
    {
      var x, y := Route(a, n, d), Route(b, n, d);
      assert AtLeast(y, x.seqno, x.hops) && AtLeast(Route(c, n, d), y.seqno, y.hops);
    }
  }

  // ----- request containment -----

  predicate SameRequest(a: Rreq, b: Rreq) {
    a.src == b.src && a.bcastId == b.bcastId
  }

  /** Copies of one request agree on everything that is not rewritten on the way, and on the sum
      of hop count and remaining time to live. */
  predicate SameJourney(a: Rreq, b: Rreq) {
    a.dst == b.dst && a.srcSeqno == b.srcSeqno && a.hopCount + a.ttl == b.hopCount + b.ttl
  }

  ghost predicate RequestsInv(w: World) {
    && (forall a :: Request(a) in w.net ==> a.src in w.nodes && a.bcastId < w.nodes[a.src].bid)
    && (forall a, b :: Request(a) in w.net && Request(b) in w.net && SameRequest(a, b) ==> SameJourney(a, b))
  }

  lemma RequestSent(w: World, st: Step, a: Rreq)
    requires Enabled(w, st) && !st.Tick? && Request(a) in Act(w, st).sent
    ensures (st.Deliver? && st.m.Request? && SameRequest(a, st.m.rq) && SameJourney(a, st.m.rq))
         || (a.src == st.at && a.bcastId == w.nodes[st.at].bid && w.nodes[st.at].bid < Act(w, st).node.bid
             && Act(w, st).sent == [Request(a)])
  {
  }

  lemma BidGrows(w: World, st: Step)
    requires Enabled(w, st) && !st.Tick?
    ensures w.nodes[st.at].bid <= Act(w, st).node.bid
  {
  }

  lemma RequestsStep(w: World, st: Step)
    requires RequestsInv(w) && Enabled(w, st)
    ensures RequestsInv(Next(w, st))
  {
    if !st.Tick? {
      var w' := Next(w, st);
      BidGrows(w, st);
      forall a | Request(a) in w'.net
        ensures a.src in w'.nodes && a.bcastId < w'.nodes[a.src].bid
      {
        if Request(a) !in w.net { RequestSent(w, st, a); }
      }
      forall a, b | Request(a) in w'.net && Request(b) in w'.net && SameRequest(a, b)
        ensures SameJourney(a, b)
      {
        if Request(a) !in w.net { RequestSent(w, st, a); }
        if Request(b) !in w.net { RequestSent(w, st, b); }
      }
    }
  }

  lemma {:induction false} RequestsRun(ws: seq<World>, steps: seq<Step>, k: nat)
    requires IsRun(ws, steps) && k < |ws|
    ensures RequestsInv(ws[k])
  {
    if k > 0 {
      RequestsRun(ws, steps, k - 1);
      assert StepAt(ws, steps, k - 1);
      RequestsStep(ws[k - 1], steps[k - 1]);
    }
  }

  /** Every transmission of a request travels with hop count plus time to live constant over all
      its copies and at most NETWORK_DIAMETER + 1. */
  lemma RequestContainment(ws: seq<World>, steps: seq<Step>, k: nat, a: Rreq, b: Rreq)
    requires IsRun(ws, steps) && k < |ws| && HopsFinite(ws[k])
    requires Request(a) in ws[k].net && Request(b) in ws[k].net && SameRequest(a, b)
    ensures a.hopCount + a.ttl == b.hopCount + b.ttl <= NETWORK_DIAMETER + 1
    ensures 1 <= a.hopCount <= NETWORK_DIAMETER && a.srcSeqno == b.srcSeqno && a.dst == b.dst
  {
    RunInv(ws, steps, k);
    RequestsRun(ws, steps, k);
    assert MsgInv(ws[k], Request(a));
  }

  // ----- each request once per broadcast id period -----

  predicate Remembers(cache: seq<BroadcastId>, h: Heard) {
    exists i :: 0 <= i < |cache| && cache[i] == BroadcastId(h.src, h.id, h.time + BCAST_ID_SAVE)
  }

  predicate HeardInv(w: World) {
    && (forall i :: 0 <= i < |w.heard| ==>
          && w.heard[i].node in w.nodes && w.heard[i].time <= w.now
          && (w.now < w.heard[i].time + BCAST_ID_SAVE ==> Remembers(w.nodes[w.heard[i].node].bcache, w.heard[i])))
    && (forall i, j :: 0 <= i < j < |w.heard| ==> Spaced(w.heard[i], w.heard[j]))
  }

  predicate Spaced(a: Heard, b: Heard) {
    a.node == b.node && a.src == b.src && a.id == b.id ==> b.time >= a.time + BCAST_ID_SAVE
  }

  lemma {:induction false} PurgeKeeps(cache: seq<BroadcastId>, now: real, h: Heard)
    requires Remembers(cache, h) && now < h.time + BCAST_ID_SAVE
    ensures Remembers(IdPurge(cache, now), h)
  {
    var i :| 0 <= i < |cache| && cache[i] == BroadcastId(h.src, h.id, h.time + BCAST_ID_SAVE);
    if i > 0 {
      assert cache[1..][i - 1] == cache[i];
      PurgeKeeps(cache[1..], now, h);
      var rest := IdPurge(cache[1..], now);
      var k :| 0 <= k < |rest| && rest[k] == BroadcastId(h.src, h.id, h.time + BCAST_ID_SAVE);
      assert IdPurge(cache, now) == rest || IdPurge(cache, now)[k + 1] == rest[k];
    } else {
      assert IdPurge(cache, now)[0] == cache[0];
    }
  }

  /** Only a request heard, or the purge timer, touches the cache. */
  lemma CacheChange(w: World, st: Step)
    requires Enabled(w, st) && !st.Tick?
    ensures var c, c' := w.nodes[st.at].bcache, Act(w, st).node.bcache;
            if Hears(w, st) then c' == IdInsert(c, st.m.rq.src, st.m.rq.bcastId, w.now)
            else if st.PurgeIds? then c' == IdPurge(c, w.now)
            else c' == c
  {
  }

  lemma StillRemembers(w: World, st: Step, h: Heard)
    requires Enabled(w, st) && !st.Tick?
    requires Remembers(w.nodes[st.at].bcache, h) && w.now < h.time + BCAST_ID_SAVE
    ensures Remembers(Act(w, st).node.bcache, h)
  {
    var c, c' := w.nodes[st.at].bcache, Act(w, st).node.bcache;
    CacheChange(w, st);
    if Hears(w, st) {
      var i :| 0 <= i < |c| && c[i] == BroadcastId(h.src, h.id, h.time + BCAST_ID_SAVE);
      assert c'[i + 1] == c[i];
    } else if st.PurgeIds? {
      PurgeKeeps(c, w.now, h);
    }
  }

  lemma HeardStep(w: World, st: Step)
    requires HeardInv(w) && Enabled(w, st)
    ensures HeardInv(Next(w, st))
  {
    if !st.Tick? {
      var w' := Next(w, st);
      CacheChange(w, st);
      if Hears(w, st) {
        var h := w'.heard[|w.heard|];
        assert w'.nodes[st.at].bcache[0] == BroadcastId(h.src, h.id, h.time + BCAST_ID_SAVE);
      }
      forall i | 0 <= i < |w'.heard| && w'.now < w'.heard[i].time + BCAST_ID_SAVE
        ensures w'.heard[i].node in w'.nodes && Remembers(w'.nodes[w'.heard[i].node].bcache, w'.heard[i])
      {
        if i < |w.heard| && w.heard[i].node == st.at {
          StillRemembers(w, st, w.heard[i]);
        }
      }
      forall i, j | 0 <= i < j < |w'.heard|
        ensures Spaced(w'.heard[i], w'.heard[j])
      {
        if j < |w.heard| {
          assert Spaced(w.heard[i], w.heard[j]);
        } else {
          assert w'.heard[i] == w.heard[i];
        }
      }
    }
  }

  /** A node takes one and the same request past its broadcast id check at most once in any
      BCAST_ID_SAVE seconds. */
  lemma {:induction false} HeardOncePerPeriod(ws: seq<World>, steps: seq<Step>, k: nat)
    requires IsRun(ws, steps) && k < |ws|
    ensures HeardInv(ws[k])
    ensures forall i, j :: 0 <= i < j < |ws[k].heard| ==> Spaced(ws[k].heard[i], ws[k].heard[j])
  {
    if k > 0 {
      HeardOncePerPeriod(ws, steps, k - 1);
      assert StepAt(ws, steps, k - 1);
      HeardStep(ws[k - 1], steps[k - 1]);
    }
  }
}
