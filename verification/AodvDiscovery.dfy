/** Route discovery from end to end: a request carried along a path of nodes that know no better, and
    the reply carried back, leave every node of the path with a route along it. */
module AodvDiscovery {
  import opened Common
  import opened AodvProtocol
  import opened AodvNetwork
  import opened AodvSafety
  import opened AodvOutcomes

  /** Node x takes part in the discovery that m asks for: it has not heard of it, and its route back
      to the source is older. */
  predicate Unaware(w: World, x: Addr, m: Rreq) {
    && x in w.nodes && NewRequest(w.nodes[x], x, m)
    && Route(w, x, m.src).seqno < m.srcSeqno
  }

  /** x cannot answer for the destination itself. */
  predicate NoAnswer(w: World, x: Addr, m: Rreq) {
    Route(w, x, m.dst).hops == INFINITY2 || Route(w, x, m.dst).seqno < m.dstSeqno
  }

  predicate OlderThan(w: World, x: Addr, d: Addr, s: nat) {
    x in w.nodes && Route(w, x, d).seqno < s
  }

  /** x has a route to d by neighbour y at h hops. */
  predicate HasRoute(w: World, x: Addr, d: Addr, y: Addr, h: nat) {
    && x in w.nodes && d in w.nodes[x].rtable
    && Route(w, x, d).flag.Up? && Route(w, x, d).nexthop == y && Route(w, x, d).hops == h
  }

  predicate IsPath(p: seq<Addr>) {
    |p| >= 2 && forall i, j :: 0 <= i < j < |p| ==> p[i] != p[j]
  }

  /** m, issued by p[0] for the last node of p, may reach it along p. */
  predicate Asked(w: World, p: seq<Addr>, m: Rreq) {
    && IsPath(p) && p[0] in w.nodes && Request(m) in w.net
    && m.src == m.saddr == p[0] && m.dst == p[|p| - 1] && m.hopCount == 1
    && |p| - 1 <= m.ttl <= NETWORK_DIAMETER
    && (forall i :: 1 <= i < |p| ==> Unaware(w, p[i], m))
    && (forall i :: 1 <= i < |p| - 1 ==> NoAnswer(w, p[i], m))
  }

  /** The request m0 has come as far as p[i]; rq is what p[i] sends. s bounds what is known of the
      destination. */
  predicate Outward(w: World, p: seq<Addr>, m0: Rreq, i: nat, rq: Rreq, s: nat) {
    && IsPath(p) && i < |p| - 1 && p[0] in w.nodes
    && Request(rq) in w.net && rq.saddr == p[i] && rq.hopCount == i + 1 && rq.ttl == m0.ttl - i
    && rq.src == m0.src == p[0] && rq.srcSeqno == m0.srcSeqno && rq.bcastId == m0.bcastId
    && rq.dst == m0.dst == p[|p| - 1] && rq.dstSeqno >= m0.dstSeqno
    && |p| - 1 <= m0.ttl <= NETWORK_DIAMETER
    && (forall j :: 1 <= j <= i ==> HasRoute(w, p[j], p[0], p[j - 1], j))
    && (forall j :: i < j < |p| ==> Unaware(w, p[j], m0))
    && (forall j :: i < j < |p| - 1 ==> NoAnswer(w, p[j], m0))
    && (forall j :: 0 <= j < |p| - 1 ==> OlderThan(w, p[j], m0.dst, s))
    && Own(w, m0.dst) + 2 >= s && Own(w, m0.dst) % 2 == 0
  }

  /** The reply has come back as far as p[i]; rp is what p[i] sends. */
  predicate Homeward(w: World, p: seq<Addr>, i: nat, rp: Rrep, s: nat) {
    && IsPath(p) && 1 <= i < |p| && |p| - 1 <= NETWORK_DIAMETER
    && Reply(rp) in w.net && rp.saddr == p[i] && rp.nextHop == p[i - 1] && rp.daddr == p[0]
    && rp.dst == p[|p| - 1] && rp.dstSeqno == s && rp.hopCount == |p| - i && rp.ttl == 30 - (|p| - 1 - i)
    && p[0] in w.nodes
    && (forall j :: 1 <= j < i && j < |p| - 1 ==> HasRoute(w, p[j], p[0], p[j - 1], j))
    && (forall j :: 0 <= j < i ==> OlderThan(w, p[j], rp.dst, s))
    && (forall j :: i <= j < |p| - 1 ==> HasRoute(w, p[j], rp.dst, p[j + 1], |p| - 1 - j))
  }

  /** Only the receiver's state changes. */
  lemma OthersKept(w: World, st: Step, x: Addr)
    requires Enabled(w, st) && st.Deliver? && x != st.at
    ensures var w' := Next(w, st);
            (x in w'.nodes <==> x in w.nodes) && (x in w.nodes ==> w'.nodes[x] == w.nodes[x])
  {
  }

  // ----- outward -----

  /** What the receiver's own step contributes, on the way out. */
  lemma RequestHop(w: World, p: seq<Addr>, m0: Rreq, i: nat, rq: Rreq, s: nat, buffered: bool) returns (rq': Rreq)
    requires Outward(w, p, m0, i, rq, s) && i + 1 < |p| - 1
    ensures var w' := Next(w, Deliver(p[i + 1], Request(rq), buffered));
            && HasRoute(w', p[i + 1], p[0], p[i], i + 1) && OlderThan(w', p[i + 1], m0.dst, s)
            && Request(rq') in w'.net && rq'.saddr == p[i + 1] && rq'.hopCount == i + 2 && rq'.ttl == rq.ttl - 1
            && rq'.src == rq.src && rq'.srcSeqno == rq.srcSeqno && rq'.bcastId == rq.bcastId
            && rq'.dst == rq.dst && rq'.dstSeqno >= rq.dstSeqno
            && Own(w', m0.dst) == Own(w, m0.dst)
  {
    var x := p[i + 1];
    var n, m := w.nodes[x], rq.(ttl := rq.ttl - 1);
    var o := RecvRequest(n, x, m, w.now, buffered);
    assert Unaware(w, x, m0) && NoAnswer(w, x, m0) && OlderThan(w, x, m0.dst, s);
    assert p[0] != p[|p| - 1] && x != p[|p| - 1];
    RequestLeavesReverse(n, x, m, w.now, buffered);
    assert !CanAnswer(o.node.rtable, m);
    OtherwisePassedOn(n, x, m, w.now, buffered);
    rq' := o.sent[0].rq;
    assert Request(rq') in o.sent;
  }

  lemma RequestForward(w: World, p: seq<Addr>, m0: Rreq, i: nat, rq: Rreq, s: nat, buffered: bool) returns (rq': Rreq)
    requires Outward(w, p, m0, i, rq, s) && i + 1 < |p| - 1
    ensures Outward(Next(w, Deliver(p[i + 1], Request(rq), buffered)), p, m0, i + 1, rq', s)
  {
    rq' := RequestHop(w, p, m0, i, rq, s, buffered);
    RequestSpares(w, p, m0, i, rq, s, buffered);
  }

  /** What the others on the path contribute: nothing changes for them. */
  lemma RequestSpares(w: World, p: seq<Addr>, m0: Rreq, i: nat, rq: Rreq, s: nat, buffered: bool)
    requires Outward(w, p, m0, i, rq, s)
    ensures var w' := Next(w, Deliver(p[i + 1], Request(rq), buffered));
            && p[0] in w'.nodes
            && (forall j :: 1 <= j <= i ==> HasRoute(w', p[j], p[0], p[j - 1], j))
            && (forall j :: i + 1 < j < |p| ==> Unaware(w', p[j], m0))
            && (forall j :: i + 1 < j < |p| - 1 ==> NoAnswer(w', p[j], m0))
            && (forall j :: 0 <= j < |p| - 1 && j != i + 1 ==> OlderThan(w', p[j], m0.dst, s))
  {
    assert Unaware(w, p[i + 1], m0);
    var st := Deliver(p[i + 1], Request(rq), buffered);
    var w' := Next(w, st);
    forall j | 1 <= j <= i
      ensures HasRoute(w', p[j], p[0], p[j - 1], j)
    {
      OthersKept(w, st, p[j]);
      assert HasRoute(w, p[j], p[0], p[j - 1], j);
    }
    forall j | i + 1 < j < |p|
      ensures Unaware(w', p[j], m0)
      ensures j < |p| - 1 ==> NoAnswer(w', p[j], m0)
    {
      OthersKept(w, st, p[j]);
      assert Unaware(w, p[j], m0) && (j < |p| - 1 ==> NoAnswer(w, p[j], m0));
    }
    forall j | 0 <= j < |p| - 1 && j != i + 1
      ensures OlderThan(w', p[j], m0.dst, s)
    {
      OthersKept(w, st, p[j]);
      assert OlderThan(w, p[j], m0.dst, s);
    }
  }

  /** The destination turns the request round. */
  lemma RequestArrives(w: World, p: seq<Addr>, m0: Rreq, rq: Rreq, s: nat, buffered: bool) returns (rp: Rrep)
    requires |p| >= 2 && Outward(w, p, m0, |p| - 2, rq, s)
    ensures var w' := Next(w, Deliver(p[|p| - 1], Request(rq), buffered));
            Homeward(w', p, |p| - 1, rp, Own(w', m0.dst))
  {
    var x := p[|p| - 1];
    var n, m := w.nodes[x], rq.(ttl := rq.ttl - 1);
    var st := Deliver(x, Request(rq), buffered);
    var w' := Next(w, st);
    var o := RecvRequest(n, x, m, w.now, buffered);
    assert Unaware(w, x, m0);
    RequestLeavesReverse(n, x, m, w.now, buffered);
    DestinationReplies(n, x, m, w.now, buffered);
    rp := o.sent[0].rp;
    assert Reply(rp) in o.sent;
    forall j | 0 <= j < |p| - 1
      ensures p[j] != x && OlderThan(w', p[j], rp.dst, Own(w', m0.dst))
    {
      OthersKept(w, st, p[j]);
      assert OlderThan(w, p[j], m0.dst, s);
    }
    forall j | 1 <= j < |p| - 1
      ensures HasRoute(w', p[j], p[0], p[j - 1], j)
    {
      OthersKept(w, st, p[j]);
      assert HasRoute(w, p[j], p[0], p[j - 1], j);
    }
  }

  // ----- homeward -----

  lemma ReplyHop(w: World, p: seq<Addr>, i: nat, rp: Rrep, s: nat, buffered: bool)
    requires Homeward(w, p, i, rp, s)
    ensures var w' := Next(w, Deliver(p[i - 1], Reply(rp), buffered));
            && HasRoute(w', p[i - 1], rp.dst, p[i], |p| - i)
            && (i > 1 ==> Reply(rp.(saddr := p[i - 1], nextHop := p[i - 2], hopCount := rp.hopCount + 1, ttl := rp.ttl - 1)) in w'.net)
  {
    var x := p[i - 1];
    var n, m := w.nodes[x], rp.(ttl := rp.ttl - 1);
    assert OlderThan(w, x, rp.dst, s);
    FresherReplyTaken(n, x, m, w.now, buffered);
    if i > 1 {
      assert HasRoute(w, x, p[0], p[i - 2], i - 1);
      assert x != p[0] && p[0] != rp.dst;
      FresherReplyPassed(n, x, m, w.now, buffered);
      var o := RecvReply(n, x, m, w.now, buffered);
      assert o.sent[0] == Reply(m.(saddr := x, nextHop := p[i - 2], hopCount := m.hopCount + 1));
      assert o.sent[0] in o.sent;
    }
  }

  lemma ReplyBack(w: World, p: seq<Addr>, i: nat, rp: Rrep, s: nat, buffered: bool) returns (rp': Rrep)
    requires Homeward(w, p, i, rp, s) && i > 1
    ensures Homeward(Next(w, Deliver(p[i - 1], Reply(rp), buffered)), p, i - 1, rp', s)
  {
    ReplyHop(w, p, i, rp, s, buffered);
    var st := Deliver(p[i - 1], Reply(rp), buffered);
    var w' := Next(w, st);
    rp' := rp.(saddr := p[i - 1], nextHop := p[i - 2], hopCount := rp.hopCount + 1, ttl := rp.ttl - 1);
    forall j | 0 <= j < |p| && j != i - 1
      ensures p[j] != p[i - 1]
    {
    }
    forall j | 0 <= j < |p| && j != i - 1 { OthersKept(w, st, p[j]); }
    assert forall j :: 1 <= j < i - 1 && j < |p| - 1 ==> HasRoute(w, p[j], p[0], p[j - 1], j);
    assert forall j :: 0 <= j < i - 1 ==> OlderThan(w, p[j], rp.dst, s);
    assert forall j :: i <= j < |p| - 1 ==> HasRoute(w, p[j], rp.dst, p[j + 1], |p| - 1 - j);
  }

  lemma ReplyArrives(w: World, p: seq<Addr>, rp: Rrep, s: nat, buffered: bool)
    requires Homeward(w, p, 1, rp, s)
    ensures var w' := Next(w, Deliver(p[0], Reply(rp), buffered));
            forall j :: 0 <= j < |p| - 1 ==> HasRoute(w', p[j], rp.dst, p[j + 1], |p| - 1 - j)
  {
    ReplyHop(w, p, 1, rp, s, buffered);
    var st := Deliver(p[0], Reply(rp), buffered);
    forall j | 1 <= j < |p| - 1
      ensures HasRoute(Next(w, st), p[j], rp.dst, p[j + 1], |p| - 1 - j)
    {
      assert p[j] != p[0];
      OthersKept(w, st, p[j]);
      assert HasRoute(w, p[j], rp.dst, p[j + 1], |p| - 1 - j);
    }
  }

  // ----- the whole journey -----

  /** One delivery per hop out and back, each reply to the node it is addressed to. */
  predicate Journey(steps: seq<Step>) {
    forall i :: 0 <= i < |steps| ==>
      steps[i].Deliver? && (steps[i].m.Reply? ==> steps[i].m.rp.nextHop == steps[i].at)
  }

  ghost predicate Established(w: World, p: seq<Addr>) {
    IsPath(p) && forall j :: 0 <= j < |p| - 1 ==> HasRoute(w, p[j], p[|p| - 1], p[j + 1], |p| - 1 - j)
  }

  ghost predicate Delivers(w: World, p: seq<Addr>, ws: seq<World>, steps: seq<Step>, n: nat) {
    && Continues(ws, steps) && ws[0] == w && Journey(steps) && |steps| == n
    && Established(ws[n], p)
  }

  /** From w, n deliveries can establish the path. */
  ghost predicate Establishes(w: World, p: seq<Addr>, n: nat) {
    exists ws, steps :: Delivers(w, p, ws, steps, n)
  }

  lemma EstablishedNow(w: World, p: seq<Addr>)
    requires Established(w, p)
    ensures Establishes(w, p, 0)
  {
    assert Delivers(w, p, [w], [], 0);
  }

  lemma DeliverFirst(w: World, p: seq<Addr>, st: Step, n: nat)
    requires Enabled(w, st) && st.Deliver? && (st.m.Reply? ==> st.m.rp.nextHop == st.at)
    requires Establishes(Next(w, st), p, n)
    ensures Establishes(w, p, n + 1)
  {
    var ws, steps :| Delivers(Next(w, st), p, ws, steps, n);
    var vs, ss := [w] + ws, [st] + steps;
    forall i | 0 <= i < |ss|
      ensures StepAt(vs, ss, i)
      ensures ss[i].Deliver? && (ss[i].m.Reply? ==> ss[i].m.rp.nextHop == ss[i].at)
    {
      if i > 0 {
        assert StepAt(ws, steps, i - 1);
      }
    }
    assert vs[n + 1] == ws[n];
    assert Delivers(w, p, vs, ss, n + 1);
  }

  lemma {:induction false} GoHome(w: World, p: seq<Addr>, i: nat, rp: Rrep, s: nat, waiting: set<Addr>)
    requires Homeward(w, p, i, rp, s)
    ensures Establishes(w, p, i)
    decreases i
  {
    var st := Deliver(p[i - 1], Reply(rp), p[i - 1] in waiting);
    assert OlderThan(w, p[i - 1], rp.dst, s);
    if i == 1 {
      ReplyArrives(w, p, rp, s, st.buffered);
      EstablishedNow(Next(w, st), p);
    } else {
      var rp' := ReplyBack(w, p, i, rp, s, st.buffered);
      GoHome(Next(w, st), p, i - 1, rp', s, waiting);
    }
    DeliverFirst(w, p, st, i - 1);
  }

  lemma RequestHeard(w: World, p: seq<Addr>, m0: Rreq, i: nat, rq: Rreq, s: nat, st: Step)
    requires Outward(w, p, m0, i, rq, s) && st.Deliver? && st.at == p[i + 1] && st.m == Request(rq)
    ensures Enabled(w, st)
  {
    assert Unaware(w, p[i + 1], m0);
  }

  lemma TurnRound(w: World, p: seq<Addr>, m0: Rreq, rq: Rreq, s: nat, waiting: set<Addr>)
    requires |p| >= 2 && Outward(w, p, m0, |p| - 2, rq, s)
    ensures Establishes(w, p, |p|)
  {
    var st := Deliver(p[|p| - 1], Request(rq), p[|p| - 1] in waiting);
    RequestHeard(w, p, m0, |p| - 2, rq, s, st);
    var rp := RequestArrives(w, p, m0, rq, s, st.buffered);
    GoHome(Next(w, st), p, |p| - 1, rp, Own(Next(w, st), m0.dst), waiting);
    DeliverFirst(w, p, st, |p| - 1);
  }

  lemma {:induction false} GoOut(w: World, p: seq<Addr>, m0: Rreq, i: nat, rq: Rreq, s: nat, waiting: set<Addr>)
    requires Outward(w, p, m0, i, rq, s)
    ensures Establishes(w, p, 2 * (|p| - 1) - i)
    decreases |p| - i
  {
    if i + 1 < |p| - 1 {
      var st := Deliver(p[i + 1], Request(rq), p[i + 1] in waiting);
      RequestHeard(w, p, m0, i, rq, s, st);
      var rq' := RequestForward(w, p, m0, i, rq, s, st.buffered);
      GoOut(Next(w, st), p, m0, i + 1, rq', s, waiting);
      DeliverFirst(w, p, st, 2 * (|p| - 1) - i - 1);
    } else {
      TurnRound(w, p, m0, rq, s, waiting);
    }
  }

  /** From any reachable world: if a request for d can travel a path of nodes that have not heard of
      it and know no answer, then delivering it hop by hop and its reply back leaves every node of
      the path with a valid route to d by the next node, at the right distance. */
  lemma DiscoveryWorks(w: World, p: seq<Addr>, m: Rreq, waiting: set<Addr>)
    requires Inv(w) && Asked(w, p, m)
    ensures Establishes(w, p, 2 * (|p| - 1))
  {
    var s := Own(w, m.dst) + 2;
    forall j | 0 <= j < |p| - 1
      ensures OlderThan(w, p[j], m.dst, s)
    {
      assert p[j] in w.nodes by {
        if j > 0 { assert Unaware(w, p[j], m); }
      }
      assert EntryInv(w, p[j], m.dst);
    }
    GoOut(w, p, m, 0, m, s, waiting);
  }

  /** In a network that has just been started the first search of any node finds any other, along
      every path of up to 30 hops. */
  lemma FirstDiscovery(w: World, p: seq<Addr>, live: bool, perHop: real, waiting: set<Addr>)
    requires Init(w) && IsPath(p) && |p| - 1 <= NETWORK_DIAMETER && forall i :: 0 <= i < |p| ==> p[i] in w.nodes
    requires w.now >= 0.0
    ensures Establishes(Next(w, Resolve(p[0], p[|p| - 1], true, live, perHop)), p, 2 * (|p| - 1))
  {
    var at, d := p[0], p[|p| - 1];
    var st := Resolve(at, d, true, live, perHop);
    var w' := Next(w, st);
    var n := BLANK_NODE;
    assert w.nodes[at] == n;
    var m := Rreq(at, NETWORK_DIAMETER, 1, 1, d, 0, at, 4);
    assert Act(w, st).sent == [Request(m)];
    InitInv(w);
    StepKeepsInv(w, st);
    forall i | 1 <= i < |p|
      ensures Unaware(w', p[i], m) && NoAnswer(w', p[i], m)
    {
      assert p[i] != at && w'.nodes[p[i]] == n;
    }
    DiscoveryWorks(w', p, m, waiting);
  }
}
