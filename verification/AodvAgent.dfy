/** The AODV agent as an object whose handlers update its fields. Each handler is proved to do
    what its function in AodvProtocol says, and the asserts of the original stand in the bodies. */
module AodvAgent {
  import opened Common
  import opened P = AodvProtocol
  import opened AodvNetwork

  /** What the network invariant guarantees of the contents of one delivered message. */
  predicate RequestOk(m: Rreq) {
    m.srcSeqno % 2 == 0 && m.srcSeqno > 0 && 1 <= m.hopCount < INFINITY2
  }

  predicate ReplyOk(m: Rrep) {
    m.dstSeqno % 2 == 0 && m.dstSeqno > 0 && 1 <= m.hopCount < INFINITY2
  }

  predicate ErrorOk(m: Rerr) {
    forall d :: d in m.unreachable ==> m.unreachable[d] % 2 == 1 || m.unreachable[d] == 0
  }

  // recvError part way: the destinations in todo are still to be visited.

  predicate ErrorPasses(e: RtEntry, d: Addr, m: Rerr) {
    d in m.unreachable && ErrorApplies(e, m.saddr, m.unreachable[d]) && e.precursors != {}
  }

  ghost function ErrorTodo(t: Table, m: Rerr, todo: set<Addr>): Table {
    map d | d in t :: if d in todo then t[d] else ErrorEntry(t[d], d, m)
  }

  ghost function ErrorDone(t: Table, m: Rerr, todo: set<Addr>): map<Addr, nat> {
    map d | d in t && ErrorPasses(t[d], d, m) && d !in todo :: m.unreachable[d]
  }

  lemma ErrorStart(t: Table, m: Rerr)
    ensures ErrorTodo(t, m, m.unreachable.Keys) == t && ErrorDone(t, m, m.unreachable.Keys) == map[]
  {
  }

  lemma ErrorNext(t: Table, m: Rerr, todo: set<Addr>, d: Addr)
    requires d in todo && todo <= m.unreachable.Keys
    ensures ErrorTodo(t, m, todo - {d})
         == if d in t then ErrorTodo(t, m, todo)[d := ErrorEntry(t[d], d, m)] else ErrorTodo(t, m, todo)
    ensures ErrorDone(t, m, todo - {d})
         == if d in t && ErrorPasses(t[d], d, m) then ErrorDone(t, m, todo)[d := m.unreachable[d]] else ErrorDone(t, m, todo)
  {
  }

  lemma ErrorEnd(t: Table, m: Rerr)
    ensures ErrorTodo(t, m, {}) == ErrorTable(t, m) && ErrorDone(t, m, {}) == ErrorForward(t, m)
  {
  }

  // handle_link_failure part way: the destinations in todo are still to be visited.

  ghost function BreakTable(t: Table, id: Addr, todo: set<Addr>): Table {
    map d | d in t :: if d in todo then t[d] else BrokenEntry(t[d], id)
  }

  ghost function BreakDests(t: Table, id: Addr, todo: set<Addr>): map<Addr, nat> {
    map d | d in t && UsesLink(t[d], id) && d !in todo :: t[d].seqno + 1
  }

  lemma BreakStart(t: Table, id: Addr)
    ensures BreakTable(t, id, t.Keys) == t && BreakDests(t, id, t.Keys) == map[]
  {
  }

  lemma BreakNext(t: Table, id: Addr, todo: set<Addr>, d: Addr)
    requires d in todo && todo <= t.Keys
    ensures BreakTable(t, id, todo - {d}) == BreakTable(t, id, todo)[d := BrokenEntry(t[d], id)]
    ensures BreakDests(t, id, todo - {d})
         == if UsesLink(t[d], id) then BreakDests(t, id, todo)[d := t[d].seqno + 1] else BreakDests(t, id, todo)
  {
  }

  lemma BreakEnd(t: Table, id: Addr)
    ensures BreakTable(t, id, {}) == BrokenTable(t, id) && BreakDests(t, id, {}) == BrokenDests(t, id)
  {
  }

  lemma BrokenOk(t: Table, id: Addr)
    requires forall d :: d in t ==> EntryOk(t[d])
    ensures forall d :: d in BrokenTable(t, id) ==> EntryOk(BrokenTable(t, id)[d])
  {
    forall d | d in t
      ensures EntryOk(BrokenEntry(t[d], id))
    {
      assert EntryOk(t[d]);
    }
  }

  class Agent {
    const index: Addr
    var seqno: nat
    var bid: nat
    var rtable: map<Addr, RtEntry>
    var bcache: seq<BroadcastId>
    var neighbors: map<Addr, real>

    ghost function State(): Node
      reads this
    {
      Node(seqno, bid, rtable, bcache, neighbors)
    }

    ghost predicate Valid()
      reads this
    {
      NodeOk(State())
    }

    constructor (id: Addr)
      ensures Valid() && index == id && State() == BLANK_NODE
    {
      index := id;
      seqno, bid := 2, 1;
      rtable, bcache, neighbors := map[], [], map[];
    }

    method IdLookup(src: Addr, id: nat) returns (found: bool)
      ensures found == IdKnown(bcache, src, id)
    {
      var i := 0;
      while i < |bcache|
        invariant 0 <= i <= |bcache|
        invariant forall k :: 0 <= k < i ==> bcache[k].src != src || bcache[k].id != id
      {
        if bcache[i].src == src && bcache[i].id == id {
          return true;
        }
        i := i + 1;
      }
      return false;
    }

    method IdPurge(now: real)
      modifies this`bcache
      ensures bcache == P.IdPurge(old(bcache), now)
    {
      var i, kept := |bcache|, [];
      while i > 0
        invariant 0 <= i <= |bcache|
        invariant bcache == old(bcache)
        invariant kept == P.IdPurge(bcache[i..], now)
      {
        i := i - 1;
        assert bcache[i..][1..] == bcache[i + 1..];
        if bcache[i].expire > now {
          kept := [bcache[i]] + kept;
        }
      }
      assert bcache[0..] == bcache;
      bcache := kept;
    }

    /** rt_lookup followed by rt_add when nothing was found. */
    method RtLookupAdd(d: Addr)
      modifies this`rtable
      ensures rtable == old(rtable)[d := P.Lookup(old(rtable), d)]
    {
      if d !in rtable {
        rtable := rtable[d := FRESH_ENTRY];
      }
    }

    method UpdateReverse(m: Rreq, now: real, buffered: bool)
      requires m.src in rtable && RequestOk(m)
      modifies this`rtable
      ensures rtable == old(rtable)[m.src := ReverseRoute(old(rtable)[m.src], m, now, buffered)]
    {
      var rt0 := rtable[m.src];
      rt0 := rt0.(expire := MaxReal(rt0.expire, now + REV_ROUTE_LIFE));
      if m.srcSeqno > rt0.seqno || (m.srcSeqno == rt0.seqno && m.hopCount < rt0.hops) {
        rt0 := RtUpdate(rt0, m.srcSeqno, m.hopCount, m.saddr, MaxReal(rt0.expire, now + REV_ROUTE_LIFE));
        if rt0.reqTimeout > 0.0 {
          rt0 := rt0.(reqCnt := 0, reqTimeout := 0.0, reqLastTtl := m.hopCount, expire := now + ACTIVE_ROUTE_TIMEOUT);
        }
        assert rt0.flag.Up?;
        if buffered {
          assert rt0.hops != INFINITY2;
          rt0 := rt0.(expire := now + ACTIVE_ROUTE_TIMEOUT);
        }
      }
      rtable := rtable[m.src := rt0];
    }

    method RecvRequest(m: Rreq, now: real, buffered: bool) returns (sent: seq<Msg>)
      requires Valid() && RequestOk(m)
      modifies this
      ensures Outcome(State(), sent) == P.RecvRequest(old(State()), index, m, now, buffered)
      ensures Valid()
    {
      sent := [];
      if m.src == index {
        return;
      }
      var known := IdLookup(m.src, m.bcastId);
      if known {
        return;
      }
      bcache := IdInsert(bcache, m.src, m.bcastId, now);
      RtLookupAdd(m.src);
      UpdateReverse(m, now, buffered);
      assert rtable == old(rtable)[m.src := ReverseRoute(P.Lookup(old(rtable), m.src), m, now, buffered)];
      sent := AnswerRequest(m, now);
    }

    method AnswerRequest(m: Rreq, now: real) returns (sent: seq<Msg>)
      requires Valid() && m.src in rtable
      modifies this`seqno, this`rtable
      ensures Outcome(State(), sent) == P.AnswerRequest(old(State()), index, m, now)
      ensures Valid()
    {
      sent := [];
      if m.dst == index {
        seqno := Max(seqno, m.dstSeqno) + 1;
        if seqno % 2 == 1 {
          seqno := seqno + 1;
        }
        sent := [Reply(Rrep(index, rtable[m.src].nexthop, m.src, NETWORK_DIAMETER, 1, index, seqno, MY_ROUTE_TIMEOUT))];
      } else if m.dst in rtable && rtable[m.dst].hops != INFINITY2 && rtable[m.dst].seqno >= m.dstSeqno {
        var rt, rt0 := rtable[m.dst], rtable[m.src];
        sent := [Reply(Rrep(index, rt0.nexthop, m.src, NETWORK_DIAMETER, rt.hops + 1, m.dst, rt.seqno,
                            (rt.expire - now).Floor as real))];
        PcInsert(m.dst, rt0.nexthop);
        PcInsert(m.src, rt.nexthop);
      } else {
        var wanted := m.dstSeqno;
        if m.dst in rtable {
          wanted := Max(rtable[m.dst].seqno, wanted);
        }
        if m.ttl != 0 {
          sent := [Request(m.(saddr := index, hopCount := m.hopCount + 1, dstSeqno := wanted))];
        }
      }
    }

    method PcInsert(d: Addr, id: Addr)
      requires d in rtable
      modifies this`rtable
      ensures rtable == AddPrecursor(old(rtable), d, id)
    {
      rtable := rtable[d := rtable[d].(precursors := rtable[d].precursors + {id})];
    }

    method RecvReply(m: Rrep, now: real, buffered: bool) returns (sent: seq<Msg>)
      requires Valid() && ReplyOk(m)
      modifies this`rtable
      ensures Outcome(State(), sent) == P.RecvReply(old(State()), index, m, now, buffered)
      ensures Valid()
    {
      sent := [];
      RtLookupAdd(m.dst);
      var rt := rtable[m.dst];
      if !(rt.seqno < m.dstSeqno || (rt.seqno == m.dstSeqno && rt.hops > m.hopCount)) {
        return;
      }
      rt := RtUpdate(rt, m.dstSeqno, m.hopCount, m.saddr, now + m.lifetime);
      rt := rt.(reqCnt := 0, reqTimeout := 0.0, reqLastTtl := m.hopCount);
      if buffered && rt.hops != INFINITY2 {
        assert rt.flag.Up?;
        rt := rt.(expire := now + ACTIVE_ROUTE_TIMEOUT);
      }
      rtable := rtable[m.dst := rt];
      assert rtable == old(rtable)[m.dst := ForwardRoute(P.Lookup(old(rtable), m.dst), m, now, buffered)];
      if m.daddr != index {
        sent := PassReply(m, now);
      }
    }

    method PassReply(m: Rrep, now: real) returns (sent: seq<Msg>)
      requires Valid() && m.dst in rtable && m.daddr != index
      modifies this`rtable
      ensures Outcome(State(), sent) == P.PassReply(old(State()), index, m, now)
      ensures Valid()
    {
      sent := [];
      if m.daddr in rtable && rtable[m.daddr].hops != INFINITY2 {
        var rt0 := rtable[m.daddr];
        assert rt0.flag.Up?;
        if m.ttl != 0 {
          rtable := rtable[m.daddr := rt0.(expire := now + ACTIVE_ROUTE_TIMEOUT)];
          sent := [Reply(m.(saddr := index, nextHop := rt0.nexthop, hopCount := m.hopCount + 1))];
        }
        PcInsert(m.dst, rt0.nexthop);
      }
    }

    /** One iteration of recvError; pass: the destination is to be reported further. */
    method ErrorOne(d: Addr, m: Rerr) returns (pass: bool)
      requires d in m.unreachable && (d in rtable ==> EntryOk(rtable[d]))
      modifies this`rtable
      ensures rtable == if d in old(rtable) then old(rtable)[d := ErrorEntry(old(rtable)[d], d, m)] else old(rtable)
      ensures pass <==> d in old(rtable) && ErrorPasses(old(rtable)[d], d, m)
    {
      pass := false;
      if d in rtable && rtable[d].hops != INFINITY2 && rtable[d].nexthop == m.saddr
         && rtable[d].seqno <= m.unreachable[d] {
        var rt := rtable[d];
        assert rt.flag.Up?;
        assert rt.seqno % 2 == 0;
        rt := RtDown(rt.(seqno := m.unreachable[d]));
        pass := rt.precursors != {};
        rtable := rtable[d := rt.(precursors := {})];
      }
    }

    method RecvError(m: Rerr) returns (sent: seq<Msg>)
      requires Valid() && ErrorOk(m)
      modifies this`rtable
      ensures Outcome(State(), sent) == P.RecvError(old(State()), index, m)
      ensures Valid()
    {
      var nre: map<Addr, nat>, todo := map[], m.unreachable.Keys;
      ghost var t0 := rtable;
      ErrorStart(t0, m);
      while todo != {}
        invariant todo <= m.unreachable.Keys
        invariant rtable == ErrorTodo(t0, m, todo) && nre == ErrorDone(t0, m, todo)
        decreases todo
      {
        var d :| d in todo;
        assert d in rtable ==> rtable[d] == t0[d] && EntryOk(t0[d]);
        ErrorNext(t0, m, todo, d);
        var pass := ErrorOne(d, m);
        if pass {
          nre := nre[d := m.unreachable[d]];
        }
        todo := todo - {d};
      }
      ErrorEnd(t0, m);
      sent := SendError(index, nre);
    }

    /** One iteration of handle_link_failure; lost: the route went through id. */
    method BreakOne(d: Addr, id: Addr) returns (lost: bool)
      requires d in rtable && EntryOk(rtable[d])
      modifies this`rtable
      ensures rtable == old(rtable)[d := BrokenEntry(old(rtable)[d], id)]
      ensures lost <==> UsesLink(old(rtable)[d], id)
      ensures lost ==> rtable[d].seqno == old(rtable)[d].seqno + 1
    {
      var rt := rtable[d];
      lost := false;
      if rt.hops != INFINITY2 && rt.nexthop == id {
        assert rt.flag.Up?;
        assert rt.seqno % 2 == 0;
        rt := RtDown(rt.(seqno := rt.seqno + 1));
        lost := true;
      }
      rtable := rtable[d := rt.(precursors := rt.precursors - {id})];
    }

    method BreakAll(id: Addr) returns (re: map<Addr, nat>)
      requires forall d :: d in rtable ==> EntryOk(rtable[d])
      modifies this`rtable
      ensures rtable == BrokenTable(old(rtable), id) && re == BrokenDests(old(rtable), id)
    {
      var todo := rtable.Keys;
      re := map[];
      ghost var t0 := rtable;
      BreakStart(t0, id);
      while todo != {}
        invariant todo <= t0.Keys
        invariant rtable == BreakTable(t0, id, todo) && re == BreakDests(t0, id, todo)
        decreases todo
      {
        var d :| d in todo;
        assert rtable[d] == t0[d] && EntryOk(t0[d]);
        BreakNext(t0, id, todo, d);
        var lost := BreakOne(d, id);
        if lost {
          re := re[d := rtable[d].seqno];
        }
        todo := todo - {d};
      }
      BreakEnd(t0, id);
    }

    method HandleLinkFailure(id: Addr) returns (sent: seq<Msg>)
      requires Valid()
      modifies this`rtable
      ensures rtable == BrokenTable(old(rtable), id)
      ensures sent == SendError(index, BrokenDests(old(rtable), id))
      ensures Valid()
    {
      BrokenOk(rtable, id);
      var re := BreakAll(id);
      sent := SendError(index, re);
    }

    method NbDelete(id: Addr) returns (sent: seq<Msg>)
      requires Valid()
      modifies this
      ensures Outcome(State(), sent) == P.NbDelete(old(State()), index, id)
      ensures Valid()
    {
      seqno := seqno + 2;
      assert seqno % 2 == 0;
      neighbors := neighbors - {id};
      sent := HandleLinkFailure(id);
    }

    method RecvHello(id: Addr, now: real)
      requires Valid()
      modifies this`seqno, this`neighbors
      ensures State() == P.RecvHello(old(State()), id, now).node
      ensures Valid()
    {
      if id !in neighbors {
        seqno := seqno + 2;
        assert seqno % 2 == 0;
      }
      neighbors := neighbors[id := now + NEIGHBOR_LIFE];
    }

    method SendRequest(d: Addr, now: real, perHop: real) returns (sent: seq<Msg>)
      requires Valid() && d in rtable
      modifies this
      ensures Outcome(State(), sent) == P.SendRequest(old(State()), index, d, now, perHop)
      ensures Valid()
    {
      sent := [];
      var rt := rtable[d];
      if rt.flag.Up? {
        assert rt.hops != INFINITY2;
        return;
      }
      if rt.reqTimeout > now {
        return;
      }
      if rt.reqCnt > RREQ_RETRIES {
        rtable := rtable[d := rt.(reqTimeout := now + MAX_RREQ_TIMEOUT, reqCnt := 0)];
        return;
      }
      var last, ttl := Max(rt.reqLastTtl, rt.lastHopCount), 0;
      if last == 0 {
        ttl := TTL_START;
      } else if last < TTL_THRESHOLD {
        ttl := last + TTL_INCREMENT;
      } else {
        ttl := NETWORK_DIAMETER;
        rt := rt.(reqCnt := rt.reqCnt + 1);
      }
      rt := rt.(reqLastTtl := ttl, reqTimeout := RequestTimeout(ttl, rt.reqCnt, perHop, now), expire := 0.0);
      rtable := rtable[d := rt];
      seqno := seqno + 2;
      assert seqno % 2 == 0;
      sent := [Request(Rreq(index, ttl, 1, bid, d, rt.seqno, index, seqno))];
      bid := bid + 1;
    }

    method RtResolve(d: Addr, mine: bool, live: bool, now: real, perHop: real) returns (sent: seq<Msg>)
      requires Valid()
      modifies this
      ensures Outcome(State(), sent) == P.RtResolve(old(State()), index, d, mine, live, now, perHop)
      ensures Valid()
    {
      sent := [];
      RtLookupAdd(d);
      var rt := rtable[d];
      if rt.flag.Up? {
        assert rt.hops != INFINITY2;
        if live {
          rtable := rtable[d := rt.(expire := now + ACTIVE_ROUTE_TIMEOUT)];
        }
      } else if mine {
        sent := SendRequest(d, now, perHop);
      } else {
        assert rt.flag.Down?;
        sent := [Error(Rerr(index, map[d := rt.seqno]))];
      }
    }

    method PurgeOne(d: Addr, waiting: bool, now: real, perHop: real) returns (sent: seq<Msg>)
      requires Valid() && d in rtable
      modifies this
      ensures Outcome(State(), sent) == PurgeEntry(old(State()), index, d, waiting, now, perHop)
      ensures Valid()
    {
      sent := [];
      var rt := rtable[d];
      if rt.flag.Up? && rt.expire < now {
        assert rt.hops != INFINITY2;
        rt := rt.(seqno := rt.seqno + 1);
        assert rt.seqno % 2 == 1;
        rtable := rtable[d := RtDown(rt)];
      } else if rt.flag.Up? {
        assert rt.hops != INFINITY2;
        if waiting {
          rtable := rtable[d := rt.(expire := now + ACTIVE_ROUTE_TIMEOUT)];
        }
      } else if waiting {
        sent := SendRequest(d, now, perHop);
      }
    }

    /** The list order is not modelled: order is some enumeration of the destinations. */
    method RtPurge(waiting: set<Addr>, now: real, perHop: real) returns (sent: seq<Msg>, ghost order: seq<Addr>)
      requires Valid()
      modifies this
      ensures Enumerates(order, old(rtable).Keys)
      ensures Outcome(State(), sent) == PurgeAll(old(State()), index, order, waiting, now, perHop)
      ensures Valid()
    {
      sent, order := [], [];
      var todo := rtable.Keys;
      ghost var n0 := State();
      while todo != {}
        invariant todo <= n0.rtable.Keys == rtable.Keys
        invariant Enumerates(order, n0.rtable.Keys - todo)
        invariant Outcome(State(), sent) == PurgeAll(n0, index, order, waiting, now, perHop)
        invariant Valid()
        decreases todo
      {
        var d :| d in todo;
        PurgeAllSnoc(n0, index, order, d, waiting, now, perHop);
        EnumerateSnoc(order, n0.rtable.Keys, todo, d);
        var more := PurgeOne(d, d in waiting, now, perHop);
        order, sent, todo := order + [d], sent + more, todo - {d};
      }
      assert n0.rtable.Keys - todo == n0.rtable.Keys;
    }
  }

  /** order lists the members of s, each once. */
  ghost predicate Enumerates(order: seq<Addr>, s: set<Addr>) {
    && (forall d :: d in order <==> d in s)
    && (forall i, j :: 0 <= i < j < |order| ==> order[i] != order[j])
  }

  lemma EnumerateSnoc(order: seq<Addr>, all: set<Addr>, todo: set<Addr>, d: Addr)
    requires Enumerates(order, all - todo) && d in todo && todo <= all
    ensures Enumerates(order + [d], all - (todo - {d}))
  {
  }

  lemma PurgeAllSnoc(n: Node, me: Addr, order: seq<Addr>, d: Addr, waiting: set<Addr>, now: real, perHop: real)
    requires (forall x :: x in order ==> x in n.rtable) && d in n.rtable
    ensures var o1 := PurgeAll(n, me, order, waiting, now, perHop);
            var o2 := PurgeEntry(o1.node, me, d, d in waiting, now, perHop);
            PurgeAll(n, me, order + [d], waiting, now, perHop) == Outcome(o2.node, o1.sent + o2.sent)
  {
    assert (order + [d])[..|order|] == order;
  }
}
