/** A network of AODV nodes. Messages once sent stay deliverable: to any node, in any order,
    any number of times or never, so loss, duplication, delay and mobility are all covered. */
module AodvNetwork {
  import opened Common
  import opened AodvProtocol

  /** One passage of a request through a node's broadcast id check. */
  datatype Heard = Heard(node: Addr, src: Addr, id: nat, time: real)

  datatype World = World(nodes: map<Addr, Node>, net: set<Msg>, now: real, heard: seq<Heard>)

  datatype Step =
    | Tick(t: real)
    | Deliver(at: Addr, m: Msg, buffered: bool)
    | Resolve(at: Addr, d: Addr, mine: bool, live: bool, perHop: real)
    | Purge(at: Addr, d: Addr, waiting: bool, perHop: real)
    | PurgeIds(at: Addr)
    | LoseNeighbor(at: Addr, id: Addr)
    | Beacon(at: Addr)

  predicate Enabled(w: World, st: Step) {
    match st
    case Tick(t) => w.now <= t
    case Deliver(at, m, _) => at in w.nodes && m in w.net
    case Purge(at, d, _, _) => at in w.nodes && d in w.nodes[at].rtable
    case _ => st.at in w.nodes
  }

  function Act(w: World, st: Step): Outcome
    requires Enabled(w, st) && !st.Tick?
  {
    var n := w.nodes[st.at];
    match st
    case Deliver(at, m, buffered) => Receive(n, at, m, w.now, buffered)
    case Resolve(at, d, mine, live, perHop) => RtResolve(n, at, d, mine, live, w.now, perHop)
    case Purge(at, d, waiting, perHop) => PurgeEntry(n, at, d, waiting, w.now, perHop)
    case PurgeIds(at) => Outcome(n.(bcache := IdPurge(n.bcache, w.now)), [])
    case LoseNeighbor(at, id) => NbDelete(n, at, id)
    case Beacon(at) => Outcome(n, [Hello(at)])
  }

  /** Whether this step makes a node take a request past its broadcast id check. */
  predicate Hears(w: World, st: Step) {
    && st.Deliver? && st.m.Request? && st.at in w.nodes
    && st.m.rq.src != st.at
    && !IdKnown(w.nodes[st.at].bcache, st.m.rq.src, st.m.rq.bcastId)
  }

  function Next(w: World, st: Step): World
    requires Enabled(w, st)
  {
    if st.Tick? then w.(now := st.t)
    else
      var o := Act(w, st);
      w.(nodes := w.nodes[st.at := o.node],
         net := w.net + (set m | m in o.sent),
         heard := if Hears(w, st) then w.heard + [Heard(st.at, st.m.rq.src, st.m.rq.bcastId, w.now)] else w.heard)
  }

  const BLANK_NODE := Node(2, 1, map[], [], map[])

  predicate Init(w: World) {
    && (forall n :: n in w.nodes ==> w.nodes[n] == BLANK_NODE)
    && w.net == {} && w.heard == []
  }

  predicate StepAt(ws: seq<World>, steps: seq<Step>, i: nat)
    requires i < |steps| && |ws| == |steps| + 1
  {
    Enabled(ws[i], steps[i]) && ws[i + 1] == Next(ws[i], steps[i])
  }

  /** Worlds joined by enabled steps. */
  predicate Continues(ws: seq<World>, steps: seq<Step>) {
    && |ws| == |steps| + 1
    && forall i :: 0 <= i < |steps| ==> StepAt(ws, steps, i)
  }

  /** A run starts from an initial world. */
  predicate IsRun(ws: seq<World>, steps: seq<Step>) {
    Continues(ws, steps) && Init(ws[0])
  }

  // ----- freshness -----

  predicate AtLeast(e: RtEntry, s: nat, h: nat) {
    e.seqno > s || (e.seqno == s && e.hops <= h)
  }

  predicate Fresher(e: RtEntry, s: nat, h: nat) {
    e.seqno > s || (e.seqno == s && e.hops < h)
  }

  function Own(w: World, d: Addr): nat {
    if d in w.nodes then w.nodes[d].seqno else 0
  }

  function Route(w: World, n: Addr, d: Addr): RtEntry {
    if n in w.nodes then Lookup(w.nodes[n].rtable, d) else FRESH_ENTRY
  }

  function Holders(w: World, d: Addr, s: nat, h: nat): set<Addr> {
    set n | n in w.nodes && AtLeast(Route(w, n, d), s, h)
  }

  /** No reply has counted up to INFINITY2, the hop count that stands for a broken route. */
  predicate HopsFinite(w: World) {
    forall m :: m in w.net && m.Reply? ==> m.rp.hopCount < INFINITY2
  }

  /** The node count up to which that is proved of every run. */
  const MAX_NODES: nat := 223

  // ----- the invariant -----

  predicate SoftOk(e: RtEntry) {
    e.lastHopCount >= 1 && e.reqCnt <= RREQ_RETRIES + 1
  }

  predicate EntryOk(e: RtEntry) {
    && (e.flag.Up? ==> 1 <= e.hops < INFINITY2 && e.seqno % 2 == 0 && e.seqno > 0)
    && (e.flag.Down? ==> e.hops == INFINITY2 && (e.seqno % 2 == 1 || e.seqno == 0))
    && SoftOk(e)
  }

  predicate NodeOk(n: Node) {
    && n.seqno % 2 == 0 && n.seqno >= 2
    && forall d :: d in n.rtable ==> EntryOk(n.rtable[d])
  }

  /** x may be used as next hop towards d by whoever records (s, h) for d. */
  ghost predicate Leads(w: World, x: Addr, d: Addr, s: nat, h: nat) {
    x == d || Fresher(Route(w, x, d), s, h)
  }

  /** A message in which x offers a route to d with sequence number s and hop count h. */
  ghost predicate Advert(w: World, x: Addr, d: Addr, s: nat, h: nat) {
    && s % 2 == 0 && 0 < s <= Own(w, d)
    && Leads(w, x, d, s, h)
    && 1 <= h <= |Holders(w, d, s, h - 1)| + NETWORK_DIAMETER + 1
  }

  ghost predicate EntryInv(w: World, n: Addr, d: Addr) {
    var e := Route(w, n, d);
    && EntryOk(e)
    && (e.flag.Down? ==> e.seqno <= Own(w, d) + 1)
    && (e.flag.Up? ==>
          && e.seqno <= Own(w, d)
          && Leads(w, e.nexthop, d, e.seqno, e.hops)
          && e.hops <= |Holders(w, d, e.seqno, e.hops)| + NETWORK_DIAMETER)
  }

  ghost predicate ErrorInv(w: World, d: Addr, s: nat) {
    (s % 2 == 1 || s == 0) && s <= Own(w, d) + 1
  }

  ghost predicate MsgInv(w: World, m: Msg) {
    match m
    case Request(rq) =>
      && Advert(w, rq.saddr, rq.src, rq.srcSeqno, rq.hopCount)
      && rq.dstSeqno <= Own(w, rq.dst) + 1
      && rq.ttl >= 1 && rq.hopCount + rq.ttl <= NETWORK_DIAMETER + 1
    case Reply(rp) => Advert(w, rp.saddr, rp.dst, rp.dstSeqno, rp.hopCount)
    case Error(re) => forall d :: d in re.unreachable ==> ErrorInv(w, d, re.unreachable[d])
    case Hello(_) => true
  }

  ghost predicate Sound(w: World) {
    && (forall n :: n in w.nodes ==> w.nodes[n].seqno % 2 == 0 && w.nodes[n].seqno >= 2)
    && (forall n, d :: n in w.nodes ==> EntryInv(w, n, d))
    && (forall m :: m in w.net ==> MsgInv(w, m))
  }

  ghost predicate Inv(w: World) {
    Sound(w) && HopsFinite(w)
  }

  // ----- knowledge only grows -----

  ghost predicate Grows(w: World, w': World) {
    && w'.nodes.Keys == w.nodes.Keys
    && (forall d :: Own(w, d) <= Own(w', d))
    && (forall n, d :: AtLeast(Route(w', n, d), Route(w, n, d).seqno, Route(w, n, d).hops))
  }

  lemma HoldersGrow(w: World, w': World, d: Addr, s: nat, h: nat)
    requires Grows(w, w')
    ensures Holders(w, d, s, h) <= Holders(w', d, s, h)
    ensures |Holders(w, d, s, h)| <= |Holders(w', d, s, h)|
  {
    forall n | n in Holders(w, d, s, h)
      ensures n in Holders(w', d, s, h)
    {
      var e, e' := Route(w, n, d), Route(w', n, d);
      assert AtLeast(e', e.seqno, e.hops);
    }
    SubsetSize(Holders(w, d, s, h), Holders(w', d, s, h));
  }

  lemma HoldersBound(w: World, d: Addr, s: nat, h: nat)
    ensures |Holders(w, d, s, h)| <= |w.nodes|
  {
    SubsetSize(Holders(w, d, s, h), w.nodes.Keys);
  }

  lemma LeadsGrows(w: World, w': World, x: Addr, d: Addr, s: nat, h: nat)
    requires Grows(w, w') && Leads(w, x, d, s, h)
    ensures Leads(w', x, d, s, h)
  {
    var e, e' := Route(w, x, d), Route(w', x, d);
    assert AtLeast(e', e.seqno, e.hops);
  }

  lemma AdvertGrows(w: World, w': World, x: Addr, d: Addr, s: nat, h: nat)
    requires Grows(w, w') && Advert(w, x, d, s, h)
    ensures Advert(w', x, d, s, h)
  {
    LeadsGrows(w, w', x, d, s, h);
    HoldersGrow(w, w', d, s, h - 1);
    assert Own(w, d) <= Own(w', d);
  }

  lemma MsgGrows(w: World, w': World, m: Msg)
    requires Grows(w, w') && MsgInv(w, m)
    ensures MsgInv(w', m)
  {
    assert forall d :: Own(w, d) <= Own(w', d);
    match m
    case Request(rq) => AdvertGrows(w, w', rq.saddr, rq.src, rq.srcSeqno, rq.hopCount);
    case Reply(rp) => AdvertGrows(w, w', rp.saddr, rp.dst, rp.dstSeqno, rp.hopCount);
    case Error(re) =>
    case Hello(_) =>
  }

  // ----- what one step may do to one entry -----

  predicate Keeps(e: RtEntry, e': RtEntry) {
    e'.seqno == e.seqno && e'.hops == e.hops && e'.flag == e.flag && e'.nexthop == e.nexthop
  }

  ghost predicate Adopts(w: World, d: Addr, e: RtEntry, e': RtEntry) {
    && e'.flag.Up? && e'.hops < INFINITY2 && Better(e, e'.seqno, e'.hops)
    && Advert(w, e'.nexthop, d, e'.seqno, e'.hops)
  }

  ghost predicate Invalidates(w: World, d: Addr, e: RtEntry, e': RtEntry) {
    && e.flag.Up? && e'.flag.Down? && e'.hops == INFINITY2
    && e'.seqno % 2 == 1 && e.seqno < e'.seqno <= Own(w, d) + 1
  }

  ghost predicate EntryStep(w: World, d: Addr, e: RtEntry, e': RtEntry) {
    && SoftOk(e')
    && (Keeps(e, e') || Adopts(w, d, e, e') || Invalidates(w, d, e, e'))
  }

  /** Node n alone moved, each of its entries by an EntryStep, its own number upwards and even. */
  ghost predicate NodeStep(w: World, w': World, n: Addr) {
    && n in w.nodes
    && w'.nodes.Keys == w.nodes.Keys
    && (forall x :: x in w.nodes && x != n ==> w'.nodes[x] == w.nodes[x])
    && w.nodes[n].seqno <= w'.nodes[n].seqno && w'.nodes[n].seqno % 2 == 0
    && (forall d :: EntryStep(w, d, Route(w, n, d), Route(w', n, d)))
  }

  lemma NodeStepGrows(w: World, w': World, n: Addr)
    requires NodeStep(w, w', n)
    ensures Grows(w, w')
  {
    forall x, d
      ensures AtLeast(Route(w', x, d), Route(w, x, d).seqno, Route(w, x, d).hops)
    {
      if x == n {
        assert EntryStep(w, d, Route(w, n, d), Route(w', n, d));
      }
    }
  }

  lemma KeptEntry(w: World, w': World, n: Addr, d: Addr)
    requires EntryInv(w, n, d) && Grows(w, w') && SoftOk(Route(w', n, d))
    requires Keeps(Route(w, n, d), Route(w', n, d))
    ensures EntryInv(w', n, d)
  {
    var e := Route(w, n, d);
    assert Own(w, d) <= Own(w', d);
    if e.flag.Up? {
      LeadsGrows(w, w', e.nexthop, d, e.seqno, e.hops);
      HoldersGrow(w, w', d, e.seqno, e.hops);
    }
  }

  lemma AdoptedEntry(w: World, w': World, n: Addr, d: Addr)
    requires Grows(w, w') && n in w.nodes && SoftOk(Route(w', n, d))
    requires Adopts(w, d, Route(w, n, d), Route(w', n, d))
    ensures EntryInv(w', n, d)
  {
    var e' := Route(w', n, d);
    assert Own(w, d) <= Own(w', d);
    LeadsGrows(w, w', e'.nexthop, d, e'.seqno, e'.hops);
    AdoptCounts(w, w', n, d, e'.seqno, e'.hops);
  }

  lemma NodeStepEntry(w: World, w': World, n: Addr, d: Addr)
    requires Inv(w) && NodeStep(w, w', n)
    ensures EntryInv(w', n, d)
  {
    NodeStepGrows(w, w', n);
    var e, e' := Route(w, n, d), Route(w', n, d);
    assert EntryInv(w, n, d) && EntryStep(w, d, e, e') && Own(w, d) <= Own(w', d);
    if Keeps(e, e') {
      KeptEntry(w, w', n, d);
    } else if Adopts(w, d, e, e') {
      AdoptedEntry(w, w', n, d);
    }
  }

  /** The adopter is a new holder: the count of holders pays for the extra hop. */
  lemma AdoptCounts(w: World, w': World, n: Addr, d: Addr, s: nat, h: nat)
    requires Grows(w, w') && n in w.nodes && h >= 1
    requires Better(Route(w, n, d), s, h)
    requires AtLeast(Route(w', n, d), s, h)
    ensures |Holders(w, d, s, h - 1)| + 1 <= |Holders(w', d, s, h)|
  {
    HoldersGrow(w, w', d, s, h);
    var old_ := Holders(w, d, s, h - 1) + {n};
    assert n !in Holders(w, d, s, h - 1);
    assert old_ <= Holders(w', d, s, h);
    SubsetSize(old_, Holders(w', d, s, h));
  }

  /** The whole invariant survives a node step whose new messages are sound. */
  lemma NodeStepInv(w: World, w': World, n: Addr)
    requires Inv(w) && NodeStep(w, w', n)
    requires forall m :: m in w'.net ==> m in w.net || MsgInv(w', m)
    ensures Sound(w')
  {
    NodeStepGrows(w, w', n);
    forall x, d | x in w'.nodes
      ensures EntryInv(w', x, d)
    {
      if x == n {
        NodeStepEntry(w, w', n, d);
      } else {
        assert EntryInv(w, x, d);
        KeptEntry(w, w', x, d);
      }
    }
    forall m | m in w'.net
      ensures MsgInv(w', m)
    {
      if m in w.net {
        MsgGrows(w, w', m);
      }
    }
  }
}
