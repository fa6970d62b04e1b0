/** AODV routing: table entries, messages and the handlers as functions on one node's state.
    Real time is a parameter; sequence numbers and broadcast ids are unbounded. */
module AodvProtocol {
  import opened Common

  type Addr = nat

  const INFINITY2: nat := 0xff
  const MY_ROUTE_TIMEOUT: real := 10.0
  const ACTIVE_ROUTE_TIMEOUT: real := 10.0
  const REV_ROUTE_LIFE: real := 6.0
  const BCAST_ID_SAVE: real := 6.0
  const RREQ_RETRIES: nat := 3
  const MAX_RREQ_TIMEOUT: real := 10.0
  const TTL_START: nat := 5
  const TTL_THRESHOLD: nat := 7
  const TTL_INCREMENT: nat := 2
  const NETWORK_DIAMETER: nat := 30
  /** 1.5 * ALLOWED_HELLO_LOSS * HELLO_INTERVAL. */
  const NEIGHBOR_LIFE: real := 4.5

  datatype RtEntry = RtEntry(
    seqno: nat, hops: nat, lastHopCount: nat, nexthop: Addr, precursors: set<Addr>,
    expire: real, flag: Flag, reqTimeout: real, reqCnt: nat, reqLastTtl: nat)

  datatype BroadcastId = BroadcastId(src: Addr, id: nat, expire: real)

  type Table = map<Addr, RtEntry>

  datatype Node = Node(seqno: nat, bid: nat, rtable: Table, bcache: seq<BroadcastId>, neighbors: map<Addr, real>)

  datatype Rreq = Rreq(saddr: Addr, ttl: int, hopCount: nat, bcastId: nat,
                       dst: Addr, dstSeqno: nat, src: Addr, srcSeqno: nat)

  /** saddr is rp_src, the node that last sent the reply on; daddr is the IP destination. */
  datatype Rrep = Rrep(saddr: Addr, nextHop: Addr, daddr: Addr, ttl: int, hopCount: nat,
                       dst: Addr, dstSeqno: nat, lifetime: real)

  datatype Rerr = Rerr(saddr: Addr, unreachable: map<Addr, nat>)

  datatype Msg = Request(rq: Rreq) | Reply(rp: Rrep) | Error(re: Rerr) | Hello(saddr: Addr)

  datatype Outcome = Outcome(node: Node, sent: seq<Msg>)

  /** What the entry constructor leaves behind; also the reading of a missing entry. */
  const FRESH_ENTRY := RtEntry(0, INFINITY2, INFINITY2, 0, {}, 0.0, Down, 0.0, 0, 0)

  function Lookup(t: Table, d: Addr): RtEntry {
    if d in t then t[d] else FRESH_ENTRY
  }

  function RtUpdate(e: RtEntry, seqno: nat, metric: nat, nexthop: Addr, expire: real): RtEntry {
    e.(seqno := seqno, hops := metric, flag := Up, nexthop := nexthop, expire := expire)
  }

  function RtDown(e: RtEntry): RtEntry {
    if e.flag.Down? then e
    else e.(lastHopCount := e.hops, hops := INFINITY2, flag := Down, nexthop := 0, expire := 0.0)
  }

  // ----- broadcast id cache -----

  predicate IdKnown(cache: seq<BroadcastId>, src: Addr, id: nat) {
    exists i :: 0 <= i < |cache| && cache[i].src == src && cache[i].id == id
  }

  function IdInsert(cache: seq<BroadcastId>, src: Addr, id: nat, now: real): seq<BroadcastId> {
    [BroadcastId(src, id, now + BCAST_ID_SAVE)] + cache
  }

  function IdPurge(cache: seq<BroadcastId>, now: real): seq<BroadcastId> {
    if cache == [] then []
    else if cache[0].expire <= now then IdPurge(cache[1..], now)
    else [cache[0]] + IdPurge(cache[1..], now)
  }

  // ----- receiving a request -----

  /** The update test of both receive paths: newer sequence number, or same and shorter. */
  predicate Better(e: RtEntry, seqno: nat, hops: nat) {
    e.seqno < seqno || (e.seqno == seqno && hops < e.hops)
  }

  function ReverseRoute(rt0: RtEntry, m: Rreq, now: real, buffered: bool): RtEntry
  {
    var rt1 := rt0.(expire := MaxReal(rt0.expire, now + REV_ROUTE_LIFE));
    if Better(rt1, m.srcSeqno, m.hopCount) then
      var rt2 := RtUpdate(rt1, m.srcSeqno, m.hopCount, m.saddr, MaxReal(rt1.expire, now + REV_ROUTE_LIFE));
      var rt3 :=
        if rt2.reqTimeout > 0.0
        then rt2.(reqCnt := 0, reqTimeout := 0.0, reqLastTtl := m.hopCount, expire := now + ACTIVE_ROUTE_TIMEOUT)
        else rt2;
      if buffered then rt3.(expire := now + ACTIVE_ROUTE_TIMEOUT) else rt3
    else rt1
  }

  function EvenAbove(n: nat): nat {
    if n % 2 == 0 then n else n + 1
  }

  function AddPrecursor(t: Table, d: Addr, id: Addr): Table
    requires d in t
  {
    t[d := t[d].(precursors := t[d].precursors + {id})]
  }

  function RequestReply(n: Node, me: Addr, ipdst: Addr, hops: nat, dst: Addr, seqno: nat, lifetime: real): Rrep
    requires ipdst in n.rtable
  {
    Rrep(me, n.rtable[ipdst].nexthop, ipdst, NETWORK_DIAMETER, hops, dst, seqno, lifetime)
  }

  /** The second half of recvRequest: reply as destination, reply from a fresh enough route, or
      pass the request on. */
  function AnswerRequest(n: Node, me: Addr, m: Rreq, now: real): Outcome
    requires m.src in n.rtable
  {
    if m.dst == me then
      var n2 := n.(seqno := EvenAbove(Max(n.seqno, m.dstSeqno) + 1));
      Outcome(n2, [Reply(RequestReply(n2, me, m.src, 1, me, n2.seqno, MY_ROUTE_TIMEOUT))])
    else
      var rt := Lookup(n.rtable, m.dst);
      if m.dst in n.rtable && rt.hops != INFINITY2 && rt.seqno >= m.dstSeqno then
        var reply := RequestReply(n, me, m.src, rt.hops + 1, m.dst, rt.seqno, (rt.expire - now).Floor as real);
        var t1 := AddPrecursor(n.rtable, m.dst, n.rtable[m.src].nexthop);
        Outcome(n.(rtable := AddPrecursor(t1, m.src, rt.nexthop)), [Reply(reply)])
      else if m.ttl == 0 then Outcome(n, [])
      else
        Outcome(n, [Request(m.(saddr := me, hopCount := m.hopCount + 1, dstSeqno := Max(rt.seqno, m.dstSeqno)))])
  }

  /** recvRequest, entered with the time to live already decremented by recv.
      buffered: whether the send buffer held packets for the request's source. */
  function RecvRequest(n: Node, me: Addr, m: Rreq, now: real, buffered: bool): Outcome {
    if m.src == me || IdKnown(n.bcache, m.src, m.bcastId) then Outcome(n, [])
    else
      var rt0 := ReverseRoute(Lookup(n.rtable, m.src), m, now, buffered);
      AnswerRequest(
        n.(bcache := IdInsert(n.bcache, m.src, m.bcastId, now), rtable := n.rtable[m.src := rt0]), me, m, now)
  }

  // ----- receiving a reply -----

  function ForwardRoute(rt: RtEntry, m: Rrep, now: real, buffered: bool): RtEntry
  {
    var rt1 := RtUpdate(rt, m.dstSeqno, m.hopCount, m.saddr, now + m.lifetime)
               .(reqCnt := 0, reqTimeout := 0.0, reqLastTtl := m.hopCount);
    if buffered && rt1.hops != INFINITY2 then rt1.(expire := now + ACTIVE_ROUTE_TIMEOUT) else rt1
  }

  /** Sending a reply on towards the node that asked. */
  function PassReply(n: Node, me: Addr, m: Rrep, now: real): Outcome
    requires m.dst in n.rtable
  {
    if m.daddr in n.rtable && n.rtable[m.daddr].hops != INFINITY2 then
      var rt0 := n.rtable[m.daddr];
      var live := m.ttl != 0;
      var t1 := if live then n.rtable[m.daddr := rt0.(expire := now + ACTIVE_ROUTE_TIMEOUT)] else n.rtable;
      Outcome(n.(rtable := AddPrecursor(t1, m.dst, rt0.nexthop)),
              if live then [Reply(m.(saddr := me, nextHop := rt0.nexthop, hopCount := m.hopCount + 1))] else [])
    else Outcome(n, [])
  }

  /** recvReply, entered with the time to live already decremented by recv. */
  function RecvReply(n: Node, me: Addr, m: Rrep, now: real, buffered: bool): Outcome {
    var rt := Lookup(n.rtable, m.dst);
    if !Better(rt, m.dstSeqno, m.hopCount) then
      Outcome(n.(rtable := n.rtable[m.dst := rt]), [])
    else
      var n1 := n.(rtable := n.rtable[m.dst := ForwardRoute(rt, m, now, buffered)]);
      if m.daddr == me then Outcome(n1, []) else PassReply(n1, me, m, now)
  }

  // ----- errors -----

  predicate ErrorApplies(e: RtEntry, from: Addr, seqno: nat) {
    e.hops != INFINITY2 && e.nexthop == from && e.seqno <= seqno
  }

  function ErrorEntry(e: RtEntry, d: Addr, m: Rerr): RtEntry
  {
    if d in m.unreachable && ErrorApplies(e, m.saddr, m.unreachable[d])
    then RtDown(e.(seqno := m.unreachable[d])).(precursors := {})
    else e
  }

  function ErrorTable(t: Table, m: Rerr): Table
  {
    map d | d in t :: ErrorEntry(t[d], d, m)
  }

  /** The destinations recvError passes on: those it took down that had precursors. */
  function ErrorForward(t: Table, m: Rerr): map<Addr, nat>
  {
    map d | d in t && d in m.unreachable && ErrorApplies(t[d], m.saddr, m.unreachable[d]) && t[d].precursors != {}
      :: m.unreachable[d]
  }

  function SendError(me: Addr, dests: map<Addr, nat>): seq<Msg> {
    if dests == map[] then [] else [Error(Rerr(me, dests))]
  }

  function RecvError(n: Node, me: Addr, m: Rerr): Outcome
  {
    Outcome(n.(rtable := ErrorTable(n.rtable, m)), SendError(me, ErrorForward(n.rtable, m)))
  }

  predicate UsesLink(e: RtEntry, id: Addr) {
    e.hops != INFINITY2 && e.nexthop == id
  }

  function BrokenEntry(e: RtEntry, id: Addr): RtEntry {
    var e1 := if UsesLink(e, id) then RtDown(e.(seqno := e.seqno + 1)) else e;
    e1.(precursors := e1.precursors - {id})
  }

  function BrokenTable(t: Table, id: Addr): Table {
    map d | d in t :: BrokenEntry(t[d], id)
  }

  function BrokenDests(t: Table, id: Addr): map<Addr, nat> {
    map d | d in t && UsesLink(t[d], id) :: t[d].seqno + 1
  }

  /** nb_delete, which ends in handle_link_failure. */
  function NbDelete(n: Node, me: Addr, id: Addr): Outcome {
    Outcome(n.(seqno := n.seqno + 2, neighbors := n.neighbors - {id}, rtable := BrokenTable(n.rtable, id)),
            SendError(me, BrokenDests(n.rtable, id)))
  }

  /** recvHello: the neighbour's expiry is set; an unknown one also advances the sequence number. */
  function RecvHello(n: Node, id: Addr, now: real): Outcome {
    Outcome(n.(seqno := if id in n.neighbors then n.seqno else n.seqno + 2,
               neighbors := n.neighbors[id := now + NEIGHBOR_LIFE]), [])
  }

  // ----- originating requests -----

  function RequestTtl(lastTtl: nat): nat {
    if lastTtl == 0 then TTL_START
    else if lastTtl < TTL_THRESHOLD then lastTtl + TTL_INCREMENT
    else NETWORK_DIAMETER
  }

  function RequestTimeout(ttl: nat, cnt: nat, perHop: real, now: real): real {
    var base := 2.0 * ttl as real * perHop;
    var t := (if cnt > 0 then base * cnt as real else base) + now;
    if t > now + MAX_RREQ_TIMEOUT then now + MAX_RREQ_TIMEOUT else t
  }

  /** sendRequest; perHop is the latency estimate PerHopTime returns. */
  function SendRequest(n: Node, me: Addr, d: Addr, now: real, perHop: real): Outcome
    requires d in n.rtable
  {
    var rt := n.rtable[d];
    if rt.flag.Up? || rt.reqTimeout > now then Outcome(n, [])
    else if rt.reqCnt > RREQ_RETRIES then
      Outcome(n.(rtable := n.rtable[d := rt.(reqTimeout := now + MAX_RREQ_TIMEOUT, reqCnt := 0)]), [])
    else
      var last := Max(rt.reqLastTtl, rt.lastHopCount);
      var ttl := RequestTtl(last);
      var cnt := if last != 0 && last >= TTL_THRESHOLD then rt.reqCnt + 1 else rt.reqCnt;
      var rt1 := rt.(reqLastTtl := ttl, reqCnt := cnt, reqTimeout := RequestTimeout(ttl, cnt, perHop, now), expire := 0.0);
      var n1 := n.(seqno := n.seqno + 2, bid := n.bid + 1, rtable := n.rtable[d := rt1]);
      Outcome(n1, [Request(Rreq(me, ttl, 1, n.bid, d, rt.seqno, me, n1.seqno))])
  }

  /** rt_resolve for a data packet to d; mine: this node is the packet's source.
      live: forward found a non-zero time to live. */
  function RtResolve(n: Node, me: Addr, d: Addr, mine: bool, live: bool, now: real, perHop: real): Outcome {
    var rt := Lookup(n.rtable, d);
    var n1 := n.(rtable := n.rtable[d := rt]);
    if rt.flag.Up? then
      Outcome(if live then n1.(rtable := n1.rtable[d := rt.(expire := now + ACTIVE_ROUTE_TIMEOUT)]) else n1, [])
    else if mine then SendRequest(n1, me, d, now, perHop)
    else Outcome(n1, [Error(Rerr(me, map[d := rt.seqno]))])
  }

  /** One iteration of rt_purge; waiting: the send buffer holds packets for d. */
  function PurgeEntry(n: Node, me: Addr, d: Addr, waiting: bool, now: real, perHop: real): Outcome
    requires d in n.rtable
  {
    var rt := n.rtable[d];
    if rt.flag.Up? && rt.expire < now then
      Outcome(n.(rtable := n.rtable[d := RtDown(rt.(seqno := rt.seqno + 1))]), [])
    else if rt.flag.Up? then
      Outcome(if waiting then n.(rtable := n.rtable[d := rt.(expire := now + ACTIVE_ROUTE_TIMEOUT)]) else n, [])
    else if waiting then SendRequest(n, me, d, now, perHop)
    else Outcome(n, [])
  }

  /** All of rt_purge: its iterations in the order the list gives the destinations. */
  function PurgeAll(n: Node, me: Addr, order: seq<Addr>, waiting: set<Addr>, now: real, perHop: real): (o: Outcome)
    requires forall d :: d in order ==> d in n.rtable
    ensures o.node.rtable.Keys == n.rtable.Keys
  {
    if order == [] then Outcome(n, [])
    else
      var d := order[|order| - 1];
      var o1 := PurgeAll(n, me, order[..|order| - 1], waiting, now, perHop);
      var o2 := PurgeEntry(o1.node, me, d, d in waiting, now, perHop);
      Outcome(o2.node, o1.sent + o2.sent)
  }

  /** recv for a routing packet: the time to live is decremented before dispatch. */
  function Receive(n: Node, me: Addr, m: Msg, now: real, buffered: bool): Outcome {
    match m
    case Request(rq) => RecvRequest(n, me, rq.(ttl := rq.ttl - 1), now, buffered)
    case Reply(rp) => RecvReply(n, me, rp.(ttl := rp.ttl - 1), now, buffered)
    case Error(re) => RecvError(n, me, re)
    case Hello(saddr) => RecvHello(n, saddr, now)
  }
}
