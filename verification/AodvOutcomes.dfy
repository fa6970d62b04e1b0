/** What each AODV handler brings about, said of the fields of the message heard, the table left
    behind and the messages sent. */
module AodvOutcomes {
  import opened Common
  import opened AodvProtocol
  import opened AodvNetwork

  predicate SameRoute(e: RtEntry, e': RtEntry) {
    e'.seqno == e.seqno && e'.hops == e.hops && e'.nexthop == e.nexthop && e'.flag == e.flag
  }

  // ----- requests -----

  /** A request that the broadcast id check lets pass. */
  predicate NewRequest(n: Node, me: Addr, m: Rreq) {
    m.src != me && !IdKnown(n.bcache, m.src, m.bcastId)
  }

  /** One's own requests and repeated ones change nothing and are not answered. */
  lemma OldRequestIgnored(n: Node, me: Addr, m: Rreq, now: real, buffered: bool)
    requires !NewRequest(n, me, m)
    ensures RecvRequest(n, me, m, now, buffered) == Outcome(n, [])
  {
  }

  /** Every new request leaves a route back to its source: through the sender if the request was
      fresher than what was known, else the one known; good for REV_ROUTE_LIFE seconds at least.
      Apart from precursors no entry but the source's changes. */
  lemma RequestLeavesReverse(n: Node, me: Addr, m: Rreq, now: real, buffered: bool)
    requires NewRequest(n, me, m)
    ensures var e, t' := Lookup(n.rtable, m.src), RecvRequest(n, me, m, now, buffered).node.rtable;
            && m.src in t' && t'[m.src].expire >= now + 6.0
            && (if m.srcSeqno > e.seqno || (m.srcSeqno == e.seqno && m.hopCount < e.hops)
                then t'[m.src].seqno == m.srcSeqno && t'[m.src].hops == m.hopCount
                     && t'[m.src].nexthop == m.saddr && t'[m.src].flag.Up?
                     && (e.reqTimeout > 0.0 ==>
                           t'[m.src].reqCnt == 0 && t'[m.src].reqTimeout == 0.0 && t'[m.src].reqLastTtl == m.hopCount)
                     && (buffered ==> t'[m.src].expire == now + 10.0)
                else SameRoute(e, t'[m.src]) && t'[m.src].expire >= e.expire)
            && (forall d :: d != m.src && d in n.rtable ==>
                  d in t' && t'[d] == n.rtable[d].(precursors := t'[d].precursors))
            && (forall d :: d in t' ==> d == m.src || d in n.rtable)
    ensures RecvRequest(n, me, m, now, buffered).node.bcache == [BroadcastId(m.src, m.bcastId, now + 6.0)] + n.bcache
  {
  }

  /** The destination answers a new request with exactly one reply: it names the destination at one
      hop with its new own number, and goes to the source along the reverse route. */
  lemma DestinationReplies(n: Node, me: Addr, m: Rreq, now: real, buffered: bool)
    requires NewRequest(n, me, m) && m.dst == me
    ensures var o := RecvRequest(n, me, m, now, buffered);
            && |o.sent| == 1 && o.sent[0].Reply? && m.src in o.node.rtable
            && var rp := o.sent[0].rp;
            && rp.dst == me && rp.dstSeqno == o.node.seqno && rp.hopCount == 1 && rp.lifetime == 10.0
            && rp.daddr == m.src && rp.saddr == me && rp.ttl == 30
            && rp.nextHop == o.node.rtable[m.src].nexthop
    ensures var s := RecvRequest(n, me, m, now, buffered).node.seqno;
            s > n.seqno && s > m.dstSeqno && s % 2 == 0
  {
  }

  /** The entry that lets an intermediate node answer: finite, and at least as new as asked for. */
  predicate CanAnswer(t: Table, m: Rreq) {
    m.dst in t && t[m.dst].hops != INFINITY2 && t[m.dst].seqno >= m.dstSeqno
  }

  /** A node on the way that has such an entry answers with exactly one reply of that entry, one hop
      further, and each of the two next hops becomes a precursor of the other's route. */
  lemma IntermediateReplies(n: Node, me: Addr, m: Rreq, now: real, buffered: bool)
    requires NewRequest(n, me, m) && m.dst != me && CanAnswer(RecvRequest(n, me, m, now, buffered).node.rtable, m)
    ensures var o := RecvRequest(n, me, m, now, buffered);
            && |o.sent| == 1 && o.sent[0].Reply? && m.src in o.node.rtable
            && var rp, e, back := o.sent[0].rp, o.node.rtable[m.dst], o.node.rtable[m.src];
            && rp.dst == m.dst && rp.dstSeqno == e.seqno && rp.hopCount == e.hops + 1
            && rp.daddr == m.src && rp.saddr == me && rp.ttl == 30 && rp.nextHop == back.nexthop
            && rp.lifetime <= e.expire - now < rp.lifetime + 1.0
            && back.nexthop in e.precursors && e.nexthop in back.precursors
            && o.node.seqno == n.seqno
  {
  }

  /** Any other node passes exactly one copy on, one hop older and never asking for less, unless the
      time to live is used up. */
  lemma OtherwisePassedOn(n: Node, me: Addr, m: Rreq, now: real, buffered: bool)
    requires NewRequest(n, me, m) && m.dst != me && !CanAnswer(RecvRequest(n, me, m, now, buffered).node.rtable, m)
    ensures var o := RecvRequest(n, me, m, now, buffered);
            && o.node.seqno == n.seqno
            && (m.ttl == 0 ==> o.sent == [])
            && (m.ttl != 0 ==>
                  && |o.sent| == 1 && o.sent[0].Request?
                  && var rq, known := o.sent[0].rq, Lookup(o.node.rtable, m.dst).seqno;
                  && rq.saddr == me && rq.hopCount == m.hopCount + 1 && rq.ttl == m.ttl
                  && rq.bcastId == m.bcastId && rq.src == m.src && rq.srcSeqno == m.srcSeqno && rq.dst == m.dst
                  && rq.dstSeqno >= m.dstSeqno && rq.dstSeqno >= known
                  && (rq.dstSeqno == m.dstSeqno || rq.dstSeqno == known))
  {
  }

  // ----- replies -----

  predicate FresherReply(n: Node, m: Rrep) {
    var e := Lookup(n.rtable, m.dst);
    m.dstSeqno > e.seqno || (m.dstSeqno == e.seqno && m.hopCount < e.hops)
  }

  /** A reply that is not fresher than the route known changes no route and goes no further. */
  lemma StaleReplyIgnored(n: Node, me: Addr, m: Rrep, now: real, buffered: bool)
    requires !FresherReply(n, m)
    ensures var o := RecvReply(n, me, m, now, buffered);
            && o.sent == [] && o.node == n.(rtable := o.node.rtable)
            && forall d :: Lookup(o.node.rtable, d) == Lookup(n.rtable, d)
  {
  }

  /** A fresher one leaves a valid route through its sender and ends the search for it. */
  lemma FresherReplyTaken(n: Node, me: Addr, m: Rrep, now: real, buffered: bool)
    requires FresherReply(n, m)
    ensures var t' := RecvReply(n, me, m, now, buffered).node.rtable;
            && m.dst in t'
            && t'[m.dst].seqno == m.dstSeqno && t'[m.dst].hops == m.hopCount && t'[m.dst].nexthop == m.saddr
            && t'[m.dst].flag.Up? && t'[m.dst].reqCnt == 0 && t'[m.dst].reqTimeout == 0.0 && t'[m.dst].reqLastTtl == m.hopCount
            && (m.daddr != m.dst && m.hopCount < INFINITY2 ==>
                  t'[m.dst].expire == now + (if buffered then 10.0 else m.lifetime))
            && forall d :: d != m.dst ==> SameRoute(Lookup(n.rtable, d), Lookup(t', d))
  {
  }

  /** The node that asked keeps the reply; any other passes exactly one on to its next hop towards
      the asker, one hop older, as long as it has a route there and time to live is left. */
  lemma FresherReplyPassed(n: Node, me: Addr, m: Rrep, now: real, buffered: bool)
    requires FresherReply(n, m)
    ensures var o := RecvReply(n, me, m, now, buffered);
            var back := Lookup(o.node.rtable, m.daddr);
            if m.daddr == me || m.daddr !in o.node.rtable || back.hops == INFINITY2 || m.ttl == 0 then o.sent == []
            else
              && |o.sent| == 1 && o.sent[0].Reply?
              && var rp := o.sent[0].rp;
              && rp.saddr == me && rp.nextHop == back.nexthop && rp.hopCount == m.hopCount + 1
              && rp.dst == m.dst && rp.dstSeqno == m.dstSeqno && rp.daddr == m.daddr && rp.ttl == m.ttl
              && back.nexthop in o.node.rtable[m.dst].precursors
              && (m.daddr != m.dst ==> back.expire == now + 10.0)
  {
  }

  // ----- errors and lost links -----

  /** The entries an error from m.saddr speaks of: finite, through that neighbour, not newer. */
  predicate Hit(t: Table, d: Addr, m: Rerr) {
    d in t && d in m.unreachable && t[d].hops != INFINITY2 && t[d].nexthop == m.saddr && t[d].seqno <= m.unreachable[d]
  }

  /** Exactly those go down, with the number listed; no other entry changes; and what is passed on
      names, with that number, exactly those that had precursors. */
  lemma ErrorTakesDown(n: Node, me: Addr, m: Rerr)
    requires forall d :: d in n.rtable && n.rtable[d].hops != INFINITY2 ==> n.rtable[d].flag.Up?
    ensures var o := RecvError(n, me, m);
            && o.node == n.(rtable := o.node.rtable) && o.node.rtable.Keys == n.rtable.Keys
            && (forall d :: d in n.rtable ==>
                  var e' := o.node.rtable[d];
                  if Hit(n.rtable, d, m)
                  then e'.flag.Down? && e'.hops == INFINITY2 && e'.seqno == m.unreachable[d] && e'.precursors == {}
                       && e'.lastHopCount == n.rtable[d].hops
                  else e' == n.rtable[d])
  {
  }

  lemma ErrorPassedOn(n: Node, me: Addr, m: Rerr)
    ensures var o := RecvError(n, me, m);
            if exists d :: Hit(n.rtable, d, m) && n.rtable[d].precursors != {}
            then && |o.sent| == 1 && o.sent[0].Error? && o.sent[0].re.saddr == me
                 && (forall d :: d in o.sent[0].re.unreachable <==> Hit(n.rtable, d, m) && n.rtable[d].precursors != {})
                 && (forall d :: d in o.sent[0].re.unreachable ==> o.sent[0].re.unreachable[d] == m.unreachable[d])
            else o.sent == []
  {
    var f := ErrorForward(n.rtable, m);
    assert forall d :: d in f <==> Hit(n.rtable, d, m) && n.rtable[d].precursors != {};
    if f == map[] {
      assert forall d :: d !in f;
    } else {
      assert f.Keys != {};
      var d :| d in f.Keys;
      assert d in f;
    }
  }

  /** Losing neighbour id takes down exactly the finite routes through it, each with the next
      number, removes it from every precursor list and reports exactly the routes lost. */
  lemma LostLinkTakesDown(n: Node, me: Addr, id: Addr)
    requires forall d :: d in n.rtable && n.rtable[d].hops != INFINITY2 ==> n.rtable[d].flag.Up?
    ensures var o := NbDelete(n, me, id);
            && o.node.rtable.Keys == n.rtable.Keys && id !in o.node.neighbors && o.node.seqno == n.seqno + 2
            && (forall d :: d in n.rtable ==>
                  var e, e' := n.rtable[d], o.node.rtable[d];
                  && e'.precursors == e.precursors - {id}
                  && (if e.hops != INFINITY2 && e.nexthop == id
                      then e'.flag.Down? && e'.hops == INFINITY2 && e'.seqno == e.seqno + 1 && e'.lastHopCount == e.hops
                      else e' == e.(precursors := e'.precursors)))
  {
  }

  lemma LostLinkReported(n: Node, me: Addr, id: Addr)
    ensures var o := NbDelete(n, me, id);
            if exists d :: d in n.rtable && n.rtable[d].hops != INFINITY2 && n.rtable[d].nexthop == id
            then && |o.sent| == 1 && o.sent[0].Error? && o.sent[0].re.saddr == me
                 && (forall d :: d in o.sent[0].re.unreachable <==>
                       d in n.rtable && n.rtable[d].hops != INFINITY2 && n.rtable[d].nexthop == id)
                 && (forall d :: d in o.sent[0].re.unreachable ==> o.sent[0].re.unreachable[d] == n.rtable[d].seqno + 1)
            else o.sent == []
  {
    var f := BrokenDests(n.rtable, id);
    assert forall d :: d in f <==> d in n.rtable && n.rtable[d].hops != INFINITY2 && n.rtable[d].nexthop == id;
    if f == map[] {
      assert forall d :: d !in f;
    } else {
      assert f.Keys != {};
      var d :| d in f.Keys;
      assert d in f;
    }
  }

  /** A hello makes its sender a neighbour for another 4.5 seconds; only one not known before moves
      the own number on. Nothing is sent and no route changes. */
  lemma HelloHeard(n: Node, id: Addr, now: real)
    ensures var o := RecvHello(n, id, now);
            && o.sent == [] && o.node == n.(neighbors := o.node.neighbors, seqno := o.node.seqno)
            && o.node.neighbors.Keys == n.neighbors.Keys + {id} && o.node.neighbors[id] == now + 4.5
            && (forall x :: x in n.neighbors && x != id ==> o.node.neighbors[x] == n.neighbors[x])
            && o.node.seqno == n.seqno + (if id in n.neighbors then 0 else 2)
  {
  }

  // ----- one's own requests, timers -----

  /** A request goes out exactly when the route is down, the last request's time is over and retries
      are left; it asks for the destination at the number known, with a new id and own number. Each
      ring is wider than the last one and than the last route; only the widest counts as a retry. */
  lemma RequestIssued(n: Node, me: Addr, d: Addr, now: real, perHop: real)
    requires d in n.rtable
    ensures var o, e := SendRequest(n, me, d, now, perHop), n.rtable[d];
            if e.flag.Down? && e.reqTimeout <= now && e.reqCnt <= 3
            then && |o.sent| == 1 && o.sent[0].Request?
                 && var rq := o.sent[0].rq;
                 && rq.saddr == me && rq.src == me && rq.dst == d && rq.dstSeqno == e.seqno && rq.hopCount == 1
                 && rq.bcastId == n.bid && o.node.bid == n.bid + 1
                 && rq.srcSeqno == o.node.seqno == n.seqno + 2
                 && rq.ttl == o.node.rtable[d].reqLastTtl && 1 <= rq.ttl <= 30
                 && (rq.ttl == 30 || (rq.ttl > e.reqLastTtl && rq.ttl > e.lastHopCount && rq.ttl <= 8))
                 && (rq.ttl == 30 <==> e.reqLastTtl >= 7 || e.lastHopCount >= 7)
                 && (0 < e.lastHopCount < 7 && e.reqLastTtl < 7 ==> rq.ttl == Max(e.reqLastTtl, e.lastHopCount) + 2)
                 && o.node.rtable[d].reqCnt == e.reqCnt + (if rq.ttl == 30 then 1 else 0)
                 && SameRoute(e, o.node.rtable[d])
                 && (perHop > 0.0 ==> now < o.node.rtable[d].reqTimeout <= now + 10.0)
            else o.sent == [] && o.node.seqno == n.seqno && o.node.bid == n.bid
    ensures var e, e' := n.rtable[d], SendRequest(n, me, d, now, perHop).node.rtable[d];
            e.flag.Down? && e.reqTimeout <= now && e.reqCnt > 3 ==> e'.reqCnt == 0 && e'.reqTimeout == now + 10.0
    ensures forall x :: x != d && x in n.rtable ==>
              x in SendRequest(n, me, d, now, perHop).node.rtable && SendRequest(n, me, d, now, perHop).node.rtable[x] == n.rtable[x]
  {
    TimeoutBounds(n, d, now, perHop);
  }

  /** The wait for an answer grows with the ring and, once retries are counted, with their number,
      up to MAX_RREQ_TIMEOUT. */
  lemma RequestBackoff(n: Node, me: Addr, d: Addr, now: real, perHop: real)
    requires d in n.rtable && SendRequest(n, me, d, now, perHop).sent != []
    ensures var e' := SendRequest(n, me, d, now, perHop).node.rtable[d];
            e'.reqTimeout == now + MinReal(10.0, RingTime(e'.reqLastTtl, perHop) * Max(1, e'.reqCnt) as real)
  {
    var e' := SendRequest(n, me, d, now, perHop).node.rtable[d];
    assert e'.reqTimeout == RequestTimeout(e'.reqLastTtl, e'.reqCnt, perHop, now);
    Backoff(e'.reqLastTtl, e'.reqCnt, perHop, now);
  }

  /** The time there and back over ttl hops. */
  function RingTime(ttl: nat, perHop: real): real {
    2.0 * ttl as real * perHop
  }

  lemma Backoff(ttl: nat, cnt: nat, perHop: real, now: real)
    ensures RequestTimeout(ttl, cnt, perHop, now) == now + MinReal(10.0, RingTime(ttl, perHop) * Max(1, cnt) as real)
  {
    var base := RingTime(ttl, perHop);
    assert cnt == 0 ==> base * Max(1, cnt) as real == base;
  }

  lemma TimeoutBounds(n: Node, d: Addr, now: real, perHop: real)
    ensures forall ttl: nat, cnt: nat :: RequestTimeout(ttl, cnt, perHop, now) <= now + 10.0
    ensures perHop > 0.0 ==> forall ttl: nat, cnt: nat :: ttl > 0 ==> RequestTimeout(ttl, cnt, perHop, now) > now
  {
    if perHop > 0.0 {
      forall ttl: nat, cnt: nat | ttl > 0
        ensures RequestTimeout(ttl, cnt, perHop, now) > now
      {
        var base := 2.0 * ttl as real * perHop;
        assert base > 0.0;
        assert cnt > 0 ==> base * cnt as real > 0.0;
      }
    }
  }

  /** The purge takes a route down exactly if it is valid and its time is over; a valid one with
      packets waiting is renewed; nothing else about a valid route changes. */
  lemma PurgeTakesDown(n: Node, me: Addr, d: Addr, waiting: bool, now: real, perHop: real)
    requires d in n.rtable && n.rtable[d].flag.Up?
    ensures var o, e := PurgeEntry(n, me, d, waiting, now, perHop), n.rtable[d];
            var e' := o.node.rtable[d];
            && o.sent == [] && o.node == n.(rtable := n.rtable[d := e'])
            && (if e.expire < now
                then e'.flag.Down? && e'.hops == INFINITY2 && e'.seqno == e.seqno + 1 && e'.lastHopCount == e.hops
                else e' == e.(expire := if waiting then now + 10.0 else e.expire))
  {
  }

  /** An invalid route is asked for again exactly if packets wait for it. */
  lemma PurgeAsksAgain(n: Node, me: Addr, d: Addr, waiting: bool, now: real, perHop: real)
    requires d in n.rtable && n.rtable[d].flag.Down?
    ensures PurgeEntry(n, me, d, waiting, now, perHop)
         == if waiting then SendRequest(n, me, d, now, perHop) else Outcome(n, [])
  {
  }

  /** A data packet finds its way by a valid route, which it keeps alive; without one its source
      searches, and any other node reports the destination with the number it knows. */
  lemma PacketResolved(n: Node, me: Addr, d: Addr, mine: bool, live: bool, now: real, perHop: real)
    ensures var o, e := RtResolve(n, me, d, mine, live, now, perHop), Lookup(n.rtable, d);
            && (e.flag.Up? ==>
                  o.sent == [] && o.node.rtable == n.rtable[d := e.(expire := if live then now + 10.0 else e.expire)])
            && (e.flag.Down? && !mine ==>
                  && |o.sent| == 1 && o.sent[0].Error? && o.sent[0].re.saddr == me
                  && o.sent[0].re.unreachable == map[d := e.seqno] && o.node.rtable == n.rtable[d := e])
            && (e.flag.Down? && mine ==>
                  o == SendRequest(n.(rtable := n.rtable[d := e]), me, d, now, perHop))
  {
  }

  /** The cache forgets exactly the ids whose time is over. */
  lemma {:induction false} IdPurgeExact(cache: seq<BroadcastId>, now: real, x: BroadcastId)
    ensures x in IdPurge(cache, now) <==> x in cache && now < x.expire
  {
    if cache != [] {
      IdPurgeExact(cache[1..], now, x);
      assert x in cache <==> x == cache[0] || x in cache[1..];
    }
  }

  // ----- in runs -----

  /** Whenever a node lets a request pass in a run, it is answered there and then: by the destination
      itself, from a route fresh enough, or by a copy, which only a spent time to live prevents. */
  lemma EveryRequestAnswered(ws: seq<World>, steps: seq<Step>, k: nat)
    requires IsRun(ws, steps) && k < |steps| && Hears(ws[k], steps[k])
    ensures var at, m, w' := steps[k].at, steps[k].m.rq, ws[k + 1];
            var back, e := Route(w', at, m.src), Route(w', at, m.dst);
            if m.dst == at then Reply(Rrep(at, back.nexthop, m.src, 30, 1, at, Own(w', at), 10.0)) in w'.net
            else if e.hops != INFINITY2 && e.seqno >= m.dstSeqno then
              exists rp :: Reply(rp) in w'.net && rp.saddr == at && rp.dst == m.dst && rp.dstSeqno == e.seqno
                           && rp.hopCount == e.hops + 1 && rp.daddr == m.src && rp.nextHop == back.nexthop
            else m.ttl != 1 ==>
              exists rq :: Request(rq) in w'.net && rq.saddr == at && rq.hopCount == m.hopCount + 1 && rq.ttl == m.ttl - 1
                           && rq.src == m.src && rq.bcastId == m.bcastId && rq.dst == m.dst && rq.dstSeqno >= m.dstSeqno
  {
    var w, st := ws[k], steps[k];
    assert StepAt(ws, steps, k);
    var n, m := w.nodes[st.at], st.m.rq.(ttl := st.m.rq.ttl - 1);
    var o := RecvRequest(n, st.at, m, w.now, st.buffered);
    assert Act(w, st) == o && forall x :: x in o.sent ==> x in ws[k + 1].net;
    if m.dst == st.at {
      DestinationReplies(n, st.at, m, w.now, st.buffered);
      assert o.sent[0] in o.sent;
    } else if CanAnswer(o.node.rtable, m) {
      IntermediateReplies(n, st.at, m, w.now, st.buffered);
      RequestLeavesReverse(n, st.at, m, w.now, st.buffered);
      assert Reply(o.sent[0].rp) in o.sent;
    } else {
      OtherwisePassedOn(n, st.at, m, w.now, st.buffered);
      if m.ttl != 0 {
        assert Request(o.sent[0].rq) in o.sent;
      }
    }
  }
}
