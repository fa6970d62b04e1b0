/** Every step of the AODV network keeps the invariant, and what follows for whole runs. */
module AodvSafety {
  import opened Common
  import opened AodvProtocol
  import opened AodvNetwork

  ghost predicate TableStep(w: World, n: Addr, t': Table)
    requires n in w.nodes
  {
    forall d :: EntryStep(w, d, Lookup(w.nodes[n].rtable, d), Lookup(t', d))
  }

  lemma SameEntry(w: World, n: Addr, d: Addr)
    requires Inv(w) && n in w.nodes
    ensures EntryStep(w, d, Lookup(w.nodes[n].rtable, d), Lookup(w.nodes[n].rtable, d))
  {
    assert EntryInv(w, n, d);
    assert Route(w, n, d) == Lookup(w.nodes[n].rtable, d);
  }

  lemma OneEntry(w: World, n: Addr, d: Addr, e': RtEntry)
    requires Inv(w) && n in w.nodes
    requires EntryStep(w, d, Lookup(w.nodes[n].rtable, d), e')
    ensures TableStep(w, n, w.nodes[n].rtable[d := e'])
  {
    forall x
      ensures EntryStep(w, x, Lookup(w.nodes[n].rtable, x), Lookup(w.nodes[n].rtable[d := e'], x))
    {
      if x != d {
        SameEntry(w, n, x);
      }
    }
  }

  /** Changing only precursors or expiry on top of a table step is still one. */
  lemma Retouch(w: World, n: Addr, t: Table, d: Addr, e': RtEntry)
    requires n in w.nodes && TableStep(w, n, t) && d in t
    requires Keeps(t[d], e') && e'.lastHopCount == t[d].lastHopCount && e'.reqCnt == t[d].reqCnt
    ensures TableStep(w, n, t[d := e'])
  {
    forall x
      ensures EntryStep(w, x, Lookup(w.nodes[n].rtable, x), Lookup(t[d := e'], x))
    {
      assert EntryStep(w, x, Lookup(w.nodes[n].rtable, x), Lookup(t, x));
    }
  }

  ghost predicate StepOk(w: World, st: Step)
    requires Enabled(w, st) && !st.Tick?
  {
    && NodeStep(w, Next(w, st), st.at)
    && forall m :: m in Act(w, st).sent ==> MsgInv(Next(w, st), m)
  }

  lemma TableToNode(w: World, st: Step)
    requires Inv(w) && Enabled(w, st) && !st.Tick?
    requires TableStep(w, st.at, Act(w, st).node.rtable)
    requires w.nodes[st.at].seqno <= Act(w, st).node.seqno && Act(w, st).node.seqno % 2 == 0
    ensures NodeStep(w, Next(w, st), st.at) && Grows(w, Next(w, st))
  {
    var w' := Next(w, st);
    forall d
      ensures EntryStep(w, d, Route(w, st.at, d), Route(w', st.at, d))
    {
      assert EntryStep(w, d, Lookup(w.nodes[st.at].rtable, d), Lookup(Act(w, st).node.rtable, d));
    }
    NodeStepGrows(w, w', st.at);
  }

  // ----- requests -----

  lemma ReverseRouteStep(w: World, n: Addr, m: Rreq, now: real, buffered: bool)
    requires Inv(w) && n in w.nodes
    requires Advert(w, m.saddr, m.src, m.srcSeqno, m.hopCount) && m.hopCount <= NETWORK_DIAMETER
    ensures EntryStep(w, m.src, Lookup(w.nodes[n].rtable, m.src),
                      ReverseRoute(Lookup(w.nodes[n].rtable, m.src), m, now, buffered))
    ensures AtLeast(ReverseRoute(Lookup(w.nodes[n].rtable, m.src), m, now, buffered), m.srcSeqno, m.hopCount)
  {
    SameEntry(w, n, m.src);
  }

  lemma RequestTable(w: World, at: Addr, m: Rreq, buffered: bool)
    requires Inv(w) && at in w.nodes
    requires Advert(w, m.saddr, m.src, m.srcSeqno, m.hopCount) && m.hopCount <= NETWORK_DIAMETER
    ensures TableStep(w, at, RecvRequest(w.nodes[at], at, m, w.now, buffered).node.rtable)
  {
    var n := w.nodes[at];
    var e0 := Lookup(n.rtable, m.src);
    var rt0 := ReverseRoute(e0, m, w.now, buffered);
    ReverseRouteStep(w, at, m, w.now, buffered);
    if m.src == at || IdKnown(n.bcache, m.src, m.bcastId) {
      forall d { SameEntry(w, at, d); }
    } else {
      OneEntry(w, at, m.src, rt0);
      var t1 := n.rtable[m.src := rt0];
      var rt := Lookup(t1, m.dst);
      if m.dst != at && m.dst in t1 && rt.hops != INFINITY2 && rt.seqno >= m.dstSeqno {
        var e1 := t1[m.dst].(precursors := t1[m.dst].precursors + {rt0.nexthop});
        Retouch(w, at, t1, m.dst, e1);
        var t2 := t1[m.dst := e1];
        Retouch(w, at, t2, m.src, t2[m.src].(precursors := t2[m.src].precursors + {rt.nexthop}));
      }
    }
  }

  /** Whoever holds (s, h) for d, in whatever state, may offer (s, h + 1). */
  lemma HolderOffers(w: World, x: Addr, d: Addr, s: nat, h: nat)
    requires AtLeast(Route(w, x, d), s, h)
    requires s % 2 == 0 && 0 < s <= Own(w, d)
    requires h <= |Holders(w, d, s, h)| + NETWORK_DIAMETER
    ensures Advert(w, x, d, s, h + 1)
  {
  }

  /** A request that MsgInv admits, after recv took one off its time to live. */
  ghost predicate RequestIn(w: World, m: Rreq) {
    && Advert(w, m.saddr, m.src, m.srcSeqno, m.hopCount)
    && m.dstSeqno <= Own(w, m.dst) + 1
    && m.ttl >= 0 && m.hopCount + m.ttl <= NETWORK_DIAMETER
  }

  lemma RequestHeld(w: World, at: Addr, m: Rreq, buffered: bool, t': Table)
    requires Inv(w) && at in w.nodes && RequestIn(w, m)
    requires m.src != at && !IdKnown(w.nodes[at].bcache, m.src, m.bcastId)
    requires t' == RecvRequest(w.nodes[at], at, m, w.now, buffered).node.rtable
    ensures AtLeast(Lookup(t', m.src), m.srcSeqno, m.hopCount)
  {
    ReverseRouteStep(w, at, m, w.now, buffered);
  }

  lemma SentShape(n: Node, me: Addr, m: Rreq, now: real, buffered: bool)
    ensures var sent := RecvRequest(n, me, m, now, buffered).sent;
            sent == [] || (sent[0].Reply? && sent == [Reply(sent[0].rp)]) || (sent[0].Request? && sent == [Request(sent[0].rq)])
  {
  }

  /** What an intermediate node's reply says, in terms of the table it leaves behind. */
  lemma AnswerShape(n: Node, me: Addr, m: Rreq, now: real, buffered: bool, rp: Rrep)
    requires m.dst != me && RecvRequest(n, me, m, now, buffered).sent == [Reply(rp)]
    ensures var rt := Lookup(RecvRequest(n, me, m, now, buffered).node.rtable, m.dst);
            && rt.hops != INFINITY2
            && rp.saddr == me && rp.dst == m.dst && rp.dstSeqno == rt.seqno && rp.hopCount == rt.hops + 1
  {
  }

  /** What a reply passed on says, in terms of the table left behind. */
  lemma PassShape(n: Node, me: Addr, m: Rrep, now: real, buffered: bool)
    requires RecvReply(n, me, m, now, buffered).sent != []
    ensures var o := RecvReply(n, me, m, now, buffered);
            var rt := Lookup(o.node.rtable, m.dst);
            && rt.flag.Up? && rt.seqno == m.dstSeqno && rt.hops == m.hopCount
            && exists rp :: o.sent == [Reply(rp)] && rp.saddr == me && rp.dst == m.dst
                            && rp.dstSeqno == rt.seqno && rp.hopCount == rt.hops + 1
  {
    var o := RecvReply(n, me, m, now, buffered);
    assert o.sent == [Reply(o.sent[0].rp)];
  }

  lemma RequestAnswered(w: World, w': World, at: Addr, m: Rreq, buffered: bool, rp: Rrep)
    requires Inv(w) && at in w.nodes && RequestIn(w, m) && Grows(w, w') && m.dst != at
    requires w'.nodes[at] == RecvRequest(w.nodes[at], at, m, w.now, buffered).node
    requires EntryInv(w', at, m.dst)
    requires RecvRequest(w.nodes[at], at, m, w.now, buffered).sent == [Reply(rp)]
    ensures MsgInv(w', Reply(rp))
  {
    AnswerShape(w.nodes[at], at, m, w.now, buffered, rp);
    var rt := Route(w', at, m.dst);
    HolderOffers(w', at, m.dst, rt.seqno, rt.hops);
  }

  lemma RequestForwarded(w: World, w': World, at: Addr, m: Rreq, buffered: bool, rq: Rreq)
    requires Inv(w) && at in w.nodes && RequestIn(w, m) && Grows(w, w')
    requires w'.nodes[at] == RecvRequest(w.nodes[at], at, m, w.now, buffered).node
    requires EntryInv(w', at, m.dst)
    requires RecvRequest(w.nodes[at], at, m, w.now, buffered).sent == [Request(rq)]
    ensures MsgInv(w', Request(rq))
  {
    RequestHeld(w, at, m, buffered, w'.nodes[at].rtable);
    assert Own(w, m.src) <= Own(w', m.src) && Own(w, m.dst) <= Own(w', m.dst);
    assert rq.dstSeqno == Max(Route(w', at, m.dst).seqno, m.dstSeqno);
    HolderOffers(w', at, m.src, m.srcSeqno, m.hopCount);
  }

  lemma RequestReached(w: World, w': World, at: Addr, m: Rreq, buffered: bool)
    requires Inv(w) && at in w.nodes && w'.nodes.Keys == w.nodes.Keys && m.dst == at
    requires w'.nodes[at] == RecvRequest(w.nodes[at], at, m, w.now, buffered).node
    ensures forall x :: x in RecvRequest(w.nodes[at], at, m, w.now, buffered).sent ==> MsgInv(w', x)
  {
    assert Own(w', at) == w'.nodes[at].seqno;
  }

  lemma RequestMsgs(w: World, w': World, at: Addr, m: Rreq, buffered: bool)
    requires Inv(w) && at in w.nodes && RequestIn(w, m) && Grows(w, w')
    requires w'.nodes[at] == RecvRequest(w.nodes[at], at, m, w.now, buffered).node
    requires EntryInv(w', at, m.dst)
    ensures forall x :: x in RecvRequest(w.nodes[at], at, m, w.now, buffered).sent ==> MsgInv(w', x)
  {
    if m.dst == at {
      RequestReached(w, w', at, m, buffered);
    } else {
      var sent := RecvRequest(w.nodes[at], at, m, w.now, buffered).sent;
      SentShape(w.nodes[at], at, m, w.now, buffered);
      if sent != [] {
        if sent[0].Reply? {
          RequestAnswered(w, w', at, m, buffered, sent[0].rp);
        } else {
          RequestForwarded(w, w', at, m, buffered, sent[0].rq);
        }
      }
    }
  }

  lemma RequestStep(w: World, st: Step)
    requires Inv(w) && Enabled(w, st) && st.Deliver? && st.m.Request?
    ensures StepOk(w, st)
  {
    var m := st.m.rq.(ttl := st.m.rq.ttl - 1);
    assert MsgInv(w, st.m);
    RequestTable(w, st.at, m, st.buffered);
    assert Act(w, st) == RecvRequest(w.nodes[st.at], st.at, m, w.now, st.buffered);
    TableToNode(w, st);
    NodeStepEntry(w, Next(w, st), st.at, m.dst);
    RequestMsgs(w, Next(w, st), st.at, m, st.buffered);
  }

  // ----- replies -----

  lemma ReplyEntry(w: World, at: Addr, m: Rrep, buffered: bool)
    requires Inv(w) && at in w.nodes
    requires Advert(w, m.saddr, m.dst, m.dstSeqno, m.hopCount) && m.hopCount < INFINITY2
    ensures var t, rt := w.nodes[at].rtable, Lookup(w.nodes[at].rtable, m.dst);
            && TableStep(w, at, t[m.dst := rt])
            && (Better(rt, m.dstSeqno, m.hopCount) ==>
                  TableStep(w, at, t[m.dst := ForwardRoute(rt, m, w.now, buffered)]))
  {
    var rt := Lookup(w.nodes[at].rtable, m.dst);
    SameEntry(w, at, m.dst);
    OneEntry(w, at, m.dst, rt);
    if Better(rt, m.dstSeqno, m.hopCount) {
      OneEntry(w, at, m.dst, ForwardRoute(rt, m, w.now, buffered));
    }
  }

  /** Passing a reply on touches an expiry and a precursor list. */
  lemma ReplyRetouch(w: World, at: Addr, t1: Table, daddr: Addr, dst: Addr, live: bool)
    requires at in w.nodes && TableStep(w, at, t1) && daddr in t1 && dst in t1
    ensures var t2 := if live then t1[daddr := t1[daddr].(expire := w.now + ACTIVE_ROUTE_TIMEOUT)] else t1;
            TableStep(w, at, AddPrecursor(t2, dst, t1[daddr].nexthop))
  {
    var rt0 := t1[daddr];
    var e1 := rt0.(expire := w.now + ACTIVE_ROUTE_TIMEOUT);
    Retouch(w, at, t1, daddr, e1);
    var t2 := if live then t1[daddr := e1] else t1;
    Retouch(w, at, t2, dst, t2[dst].(precursors := t2[dst].precursors + {rt0.nexthop}));
  }

  lemma ReplyTable(w: World, at: Addr, m: Rrep, buffered: bool)
    requires Inv(w) && at in w.nodes
    requires Advert(w, m.saddr, m.dst, m.dstSeqno, m.hopCount) && m.hopCount < INFINITY2
    ensures TableStep(w, at, RecvReply(w.nodes[at], at, m, w.now, buffered).node.rtable)
  {
    ReplyEntry(w, at, m, buffered);
    var rt := Lookup(w.nodes[at].rtable, m.dst);
    if Better(rt, m.dstSeqno, m.hopCount) {
      var t1 := w.nodes[at].rtable[m.dst := ForwardRoute(rt, m, w.now, buffered)];
      if m.daddr in t1 {
        ReplyRetouch(w, at, t1, m.daddr, m.dst, m.ttl != 0);
      }
    }
  }

  lemma ReplyMsgs(w: World, w': World, at: Addr, m: Rrep, buffered: bool)
    requires Inv(w) && at in w.nodes && Grows(w, w')
    requires w'.nodes[at] == RecvReply(w.nodes[at], at, m, w.now, buffered).node
    requires EntryInv(w', at, m.dst)
    ensures forall x :: x in RecvReply(w.nodes[at], at, m, w.now, buffered).sent ==> MsgInv(w', x)
  {
    if RecvReply(w.nodes[at], at, m, w.now, buffered).sent != [] {
      PassShape(w.nodes[at], at, m, w.now, buffered);
      var e := Route(w', at, m.dst);
      HolderOffers(w', at, m.dst, e.seqno, e.hops);
    }
  }

  lemma ReplyStep(w: World, st: Step)
    requires Inv(w) && Enabled(w, st) && st.Deliver? && st.m.Reply?
    ensures StepOk(w, st)
  {
    var m := st.m.rp.(ttl := st.m.rp.ttl - 1);
    assert MsgInv(w, st.m);
    ReplyTable(w, st.at, m, st.buffered);
    assert Act(w, st) == RecvReply(w.nodes[st.at], st.at, m, w.now, st.buffered);
    TableToNode(w, st);
    NodeStepEntry(w, Next(w, st), st.at, m.dst);
    ReplyMsgs(w, Next(w, st), st.at, m, st.buffered);
  }

  // ----- errors -----

  lemma ErrorStep(w: World, st: Step)
    requires Inv(w) && Enabled(w, st) && st.Deliver? && st.m.Error?
    ensures StepOk(w, st)
  {
    var at, m := st.at, st.m.re;
    var t := w.nodes[at].rtable;
    assert MsgInv(w, st.m);
    forall d
      ensures EntryStep(w, d, Lookup(t, d), Lookup(ErrorTable(t, m), d))
    {
      SameEntry(w, at, d);
      assert EntryInv(w, at, d) && Route(w, at, d) == Lookup(t, d);
      if d in m.unreachable {
        assert ErrorInv(w, d, m.unreachable[d]);
      }
    }
    TableToNode(w, st);
    MsgGrows(w, Next(w, st), st.m);
    var fwd := ErrorForward(t, m);
    assert forall d :: d in fwd ==> d in m.unreachable && fwd[d] == m.unreachable[d];
  }

  lemma LinkTable(w: World, at: Addr, id: Addr)
    requires Inv(w) && at in w.nodes
    ensures TableStep(w, at, BrokenTable(w.nodes[at].rtable, id))
  {
    var t := w.nodes[at].rtable;
    forall d
      ensures EntryStep(w, d, Lookup(t, d), Lookup(BrokenTable(t, id), d))
    {
      SameEntry(w, at, d);
      assert EntryInv(w, at, d) && Route(w, at, d) == Lookup(t, d);
    }
  }

  lemma LinkDests(w: World, w': World, at: Addr, id: Addr, d: Addr)
    requires Inv(w) && at in w.nodes && Grows(w, w') && d in BrokenDests(w.nodes[at].rtable, id)
    ensures ErrorInv(w', d, BrokenDests(w.nodes[at].rtable, id)[d])
  {
    assert EntryInv(w, at, d) && Route(w, at, d) == w.nodes[at].rtable[d];
    assert Own(w, d) <= Own(w', d);
  }

  lemma LinkStep(w: World, st: Step)
    requires Inv(w) && Enabled(w, st) && st.LoseNeighbor?
    ensures StepOk(w, st)
  {
    LinkTable(w, st.at, st.id);
    TableToNode(w, st);
    forall d | d in BrokenDests(w.nodes[st.at].rtable, st.id) {
      LinkDests(w, Next(w, st), st.at, st.id, d);
    }
  }

  // ----- requests of one's own, data packets and timers -----

  lemma SendRequestStep(w: World, at: Addr, d: Addr, perHop: real, n1: Node)
    requires Inv(w) && at in w.nodes
    requires n1 == w.nodes[at].(rtable := n1.rtable) && d in n1.rtable
    requires n1.rtable == w.nodes[at].rtable[d := Lookup(w.nodes[at].rtable, d)]
    ensures TableStep(w, at, SendRequest(n1, at, d, w.now, perHop).node.rtable)
    ensures n1.seqno <= SendRequest(n1, at, d, w.now, perHop).node.seqno
    ensures SendRequest(n1, at, d, w.now, perHop).node.seqno % 2 == 0
  {
    var o := SendRequest(n1, at, d, w.now, perHop);
    var t := w.nodes[at].rtable;
    SameEntry(w, at, d);
    OneEntry(w, at, d, Lookup(o.node.rtable, d));
    assert o.node.rtable == t[d := Lookup(o.node.rtable, d)];
  }

  /** A request just issued is sound: the source vouches for itself at distance one. */
  lemma OwnRequest(w: World, w': World, at: Addr, d: Addr, perHop: real, n1: Node)
    requires Inv(w) && at in w.nodes && d in n1.rtable
    requires n1 == w.nodes[at].(rtable := n1.rtable)
    requires n1.rtable == w.nodes[at].rtable[d := Lookup(w.nodes[at].rtable, d)]
    requires Grows(w, w')
    requires w'.nodes[at] == SendRequest(n1, at, d, w.now, perHop).node
    ensures forall m :: m in SendRequest(n1, at, d, w.now, perHop).sent ==> MsgInv(w', m)
  {
    assert EntryInv(w, at, d);
    assert Own(w, d) <= Own(w', d);
    assert Own(w', at) == w'.nodes[at].seqno;
  }

  lemma ResolveStep(w: World, st: Step)
    requires Inv(w) && Enabled(w, st) && st.Resolve?
    ensures StepOk(w, st)
  {
    var n, at, d, w' := w.nodes[st.at], st.at, st.d, Next(w, st);
    var rt := Lookup(n.rtable, d);
    var n1 := n.(rtable := n.rtable[d := rt]);
    SameEntry(w, at, d);
    OneEntry(w, at, d, rt);
    if rt.flag.Up? {
      OneEntry(w, at, d, rt.(expire := w.now + ACTIVE_ROUTE_TIMEOUT));
      assert n1.rtable[d := rt.(expire := w.now + ACTIVE_ROUTE_TIMEOUT)]
          == n.rtable[d := rt.(expire := w.now + ACTIVE_ROUTE_TIMEOUT)];
      TableToNode(w, st);
    } else if st.mine {
      SendRequestStep(w, at, d, st.perHop, n1);
      TableToNode(w, st);
      OwnRequest(w, w', at, d, st.perHop, n1);
    } else {
      TableToNode(w, st);
      assert EntryInv(w, at, d) && Own(w, d) <= Own(w', d);
    }
  }

  lemma PurgeUp(w: World, at: Addr, d: Addr, waiting: bool, perHop: real)
    requires Inv(w) && at in w.nodes && d in w.nodes[at].rtable
    requires w.nodes[at].rtable[d].flag.Up? || !waiting
    ensures TableStep(w, at, PurgeEntry(w.nodes[at], at, d, waiting, w.now, perHop).node.rtable)
  {
    var n := w.nodes[at];
    var rt := n.rtable[d];
    SameEntry(w, at, d);
    assert EntryInv(w, at, d) && Route(w, at, d) == rt;
    var e' := Lookup(PurgeEntry(n, at, d, waiting, w.now, perHop).node.rtable, d);
    OneEntry(w, at, d, e');
    assert PurgeEntry(n, at, d, waiting, w.now, perHop).node.rtable == n.rtable[d := e'];
  }

  lemma PurgeStep(w: World, st: Step)
    requires Inv(w) && Enabled(w, st) && st.Purge?
    ensures StepOk(w, st)
  {
    var n, at, d := w.nodes[st.at], st.at, st.d;
    if n.rtable[d].flag.Up? || !st.waiting {
      PurgeUp(w, at, d, st.waiting, st.perHop);
      TableToNode(w, st);
    } else {
      assert n.rtable[d := n.rtable[d]] == n.rtable;
      SendRequestStep(w, at, d, st.perHop, n);
      TableToNode(w, st);
      OwnRequest(w, Next(w, st), at, d, st.perHop, n);
    }
  }

  lemma QuietStep(w: World, st: Step)
    requires Inv(w) && Enabled(w, st)
    requires st.PurgeIds? || st.Beacon? || (st.Deliver? && st.m.Hello?)
    ensures StepOk(w, st)
  {
    forall d { SameEntry(w, st.at, d); }
    TableToNode(w, st);
  }

  lemma AnyStep(w: World, st: Step)
    requires Inv(w) && Enabled(w, st) && !st.Tick?
    ensures StepOk(w, st)
  {
    match st
    case Deliver(_, m, _) =>
      match m {
        case Request(_) => RequestStep(w, st);
        case Reply(_) => ReplyStep(w, st);
        case Error(_) => ErrorStep(w, st);
        case Hello(_) => QuietStep(w, st);
      }
    case Resolve(_, _, _, _, _) => ResolveStep(w, st);
    case Purge(_, _, _, _) => PurgeStep(w, st);
    case PurgeIds(_) => QuietStep(w, st);
    case LoseNeighbor(_, _) => LinkStep(w, st);
    case Beacon(_) => QuietStep(w, st);
  }

  /** Every step leaves a sound world and loses no freshness. */
  lemma StepKeepsInv(w: World, st: Step)
    requires Inv(w) && Enabled(w, st)
    ensures Sound(Next(w, st)) && Grows(w, Next(w, st))
  {
    var w' := Next(w, st);
    if st.Tick? {
      TickGrows(w, w');
      forall n, d | n in w'.nodes
        ensures EntryInv(w', n, d)
      {
        assert EntryInv(w, n, d);
        var e := Route(w, n, d);
        if e.flag.Up? {
          LeadsGrows(w, w', e.nexthop, d, e.seqno, e.hops);
          HoldersGrow(w, w', d, e.seqno, e.hops);
        }
      }
      forall m | m in w'.net { MsgGrows(w, w', m); }
    } else {
      AnyStep(w, st);
      NodeStepGrows(w, w', st.at);
      NodeStepInv(w, w', st.at);
    }
  }

  lemma TickGrows(w: World, w': World)
    requires w' == w.(now := w'.now)
    ensures Grows(w, w')
  {
  }

  lemma InitInv(w: World)
    requires Init(w)
    ensures Inv(w)
  {
    forall n, d | n in w.nodes
      ensures EntryInv(w, n, d)
    {
      assert w.nodes[n] == BLANK_NODE;
    }
  }

  lemma {:induction false} RunInv(ws: seq<World>, steps: seq<Step>, i: nat)
    requires IsRun(ws, steps) && i < |ws| && HopsFinite(ws[i])
    ensures Inv(ws[i])
  {
    if i == 0 {
      InitInv(ws[0]);
    } else {
      assert StepAt(ws, steps, i - 1);
      RunInv(ws, steps, i - 1);
      StepKeepsInv(ws[i - 1], steps[i - 1]);
    }
  }

  /** Every adopter of a reply is one more holder of its route, so with up to MAX_NODES nodes no
      reply can have counted up to INFINITY2. */
  lemma SoundIsFinite(w: World)
    requires Sound(w) && |w.nodes| <= MAX_NODES
    ensures HopsFinite(w)
  {
    forall m | m in w.net && m.Reply?
      ensures m.rp.hopCount < INFINITY2
    {
      assert MsgInv(w, m);
      HoldersBound(w, m.rp.dst, m.rp.dstSeqno, m.rp.hopCount - 1);
    }
  }

  lemma {:induction false} SmallNetworks(ws: seq<World>, steps: seq<Step>, i: nat)
    requires IsRun(ws, steps) && |ws[0].nodes| <= MAX_NODES && i < |ws|
    ensures HopsFinite(ws[i]) && |ws[i].nodes| == |ws[0].nodes|
  {
    if i > 0 {
      SmallNetworks(ws, steps, i - 1);
      RunInv(ws, steps, i - 1);
      var w, w' := ws[i - 1], ws[i];
      assert StepAt(ws, steps, i - 1);
      StepKeepsInv(w, steps[i - 1]);
      assert |w'.nodes| == |w'.nodes.Keys| == |w.nodes.Keys| == |w.nodes|;
      SoundIsFinite(w');
    }
  }
}
