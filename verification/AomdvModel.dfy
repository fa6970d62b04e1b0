/** AOMDV route entries with several disjoint paths, and a network of nodes that exchange
    requests, replies and errors about them. */
module AomdvModel {
  import opened Common

  type Addr = nat

  const INFINITY2: nat := 0xff

  datatype Path = Path(nexthop: Addr, hopcount: nat, expire: real, lasthop: Addr)

  /** highest is rt_highest_seqno_heard. */
  datatype Entry = Entry(seqno: nat, paths: seq<Path>, numPaths: int, flag: Flag, highest: nat)

  const FRESH_ENTRY := Entry(0, [], 0, Down, 0)

  // ----- path lists -----

  /** path_delete(id): the first path through id goes. */
  function DeleteFirst(ps: seq<Path>, id: Addr): seq<Path> {
    if ps == [] then []
    else if ps[0].nexthop == id then ps[1..]
    else [ps[0]] + DeleteFirst(ps[1..], id)
  }

  predicate HasNextHop(ps: seq<Path>, id: Addr) {
    exists i :: 0 <= i < |ps| && ps[i].nexthop == id
  }

  /** path_purge: every path past its time goes. */
  function Unexpired(ps: seq<Path>, now: real): seq<Path> {
    if ps == [] then []
    else if ps[0].expire < now then Unexpired(ps[1..], now)
    else [ps[0]] + Unexpired(ps[1..], now)
  }

  function MinHops(ps: seq<Path>): nat {
    if ps == [] then INFINITY2
    else var m := MinHops(ps[..|ps| - 1]); if ps[|ps| - 1].hopcount < m then ps[|ps| - 1].hopcount else m
  }

  /** disjoint_path_lookup, as a position (the length when there is none). */
  function FindPath(ps: seq<Path>, nexthop: Addr, lasthop: Addr): (i: nat)
    ensures i <= |ps| && (i < |ps| ==> ps[i].nexthop == nexthop && ps[i].lasthop == lasthop)
    ensures forall k :: 0 <= k < i ==> ps[k].nexthop != nexthop || ps[k].lasthop != lasthop
  {
    if ps == [] || (ps[0].nexthop == nexthop && ps[0].lasthop == lasthop) then 0
    else 1 + FindPath(ps[1..], nexthop, lasthop)
  }

  predicate NewDisjoint(ps: seq<Path>, nexthop: Addr, lasthop: Addr) {
    forall i :: 0 <= i < |ps| ==> ps[i].nexthop != nexthop && ps[i].lasthop != lasthop
  }

  /** No two paths share a next hop or a last hop. */
  predicate Disjoint(ps: seq<Path>) {
    forall i, j :: 0 <= i < j < |ps| ==> ps[i].nexthop != ps[j].nexthop && ps[i].lasthop != ps[j].lasthop
  }

  // ----- entries -----

  datatype Config = Config(maxPaths: int, lenDiff: int)

  function RtDown(e: Entry): Entry {
    if e.flag.Down? then e else e.(flag := Down, paths := [], numPaths := 0)
  }

  /** What a request or reply of number seqno does to the entry it advertises. closer: the test
      against the advertised hop count succeeded. */
  function Learn(cfg: Config, e: Entry, seqno: nat, p: Path, closer: bool): Entry {
    if e.seqno < seqno then e.(seqno := seqno, paths := [p], numPaths := 1, flag := Up)
    else if e.seqno == seqno && closer then
      var k := FindPath(e.paths, p.nexthop, p.lasthop);
      if k < |e.paths| then
        var q := e.paths[k];
        e.(paths := e.paths[k := q.(expire := if q.expire < p.expire then p.expire else q.expire)])
      else if NewDisjoint(e.paths, p.nexthop, p.lasthop) && e.numPaths < cfg.maxPaths
              && p.hopcount - MinHops(e.paths) <= cfg.lenDiff then
        e.(paths := e.paths + [p], numPaths := e.numPaths + 1)
      else e
    else e
  }

  function DropPath(e: Entry, id: Addr): Entry {
    e.(paths := DeleteFirst(e.paths, id), numPaths := if HasNextHop(e.paths, id) then e.numPaths - 1 else e.numPaths)
  }

  /** handle_link_failure on one entry. */
  function LoseLink(e: Entry, id: Addr): Entry {
    if e.flag.Up? && HasNextHop(e.paths, id) then
      var e1 := DropPath(e, id);
      if e1.paths == [] then RtDown(e1.(seqno := Max(e1.seqno + 1, e1.highest))) else e1
    else e
  }

  /** recvError on one entry. */
  function HearError(e: Entry, from: Addr, seqno: nat): Entry {
    if e.flag.Up? && HasNextHop(e.paths, from) && e.seqno <= seqno then
      var e1 := DropPath(e, from).(highest := Max(e.highest, seqno));
      if e1.paths == [] then RtDown(e1.(seqno := e1.highest)) else e1
    else e
  }

  /** rt_purge on one entry; rt_expire is never set, so any positive time passes its test. */
  function Purge(e: Entry, now: real): Entry {
    if e.flag.Up? && 0.0 < now then
      var e1 := e.(paths := Unexpired(e.paths, now), numPaths := e.numPaths - (|e.paths| - |Unexpired(e.paths, now)|));
      if e1.paths == [] then
        var s := Max(e1.seqno + 1, e1.highest);
        RtDown(e1.(seqno := if s % 2 == 0 then s + 1 else s))
      else e1
    else e
  }

  /** forward: the first path of a valid route is used. */
  function UseRoute(e: Entry, expire: real): Entry
    requires e.flag.Up? ==> e.paths != []
  {
    if e.flag.Up? then e.(paths := e.paths[0 := e.paths[0].(expire := expire)]) else e
  }

  // ----- what every operation keeps -----

  predicate EntryInv(cfg: Config, e: Entry) {
    && (e.flag.Up? <==> e.paths != [])
    && (e.flag.Up? ==> e.seqno % 2 == 0 && e.seqno > 0)
    && (e.flag.Down? ==> e.seqno % 2 == 1 || e.seqno == 0)
    && (e.highest % 2 == 1 || e.highest == 0)
    && Disjoint(e.paths)
    && e.numPaths == |e.paths| && (|e.paths| <= 1 || |e.paths| <= cfg.maxPaths)
  }

  /** Deleting the first path through id deletes every path through id, because next hops are
      pairwise different. */
  lemma {:induction false} DeleteRemovesAll(ps: seq<Path>, id: Addr)
    requires Disjoint(ps)
    ensures !HasNextHop(DeleteFirst(ps, id), id) && Disjoint(DeleteFirst(ps, id))
    ensures |DeleteFirst(ps, id)| == |ps| - if HasNextHop(ps, id) then 1 else 0
    ensures forall p :: p in DeleteFirst(ps, id) <==> p in ps && p.nexthop != id
  {
    if ps != [] {
      assert forall p :: p in ps <==> p == ps[0] || p in ps[1..];
      assert HasNextHop(ps, id) <==> ps[0].nexthop == id || HasNextHop(ps[1..], id) by {
        if HasNextHop(ps[1..], id) {
          var i :| 0 <= i < |ps[1..]| && ps[1..][i].nexthop == id;
          assert ps[i + 1].nexthop == id;
        }
      }
      if ps[0].nexthop == id {
        assert forall i :: 0 <= i < |ps[1..]| ==> ps[1..][i] == ps[i + 1];
      } else {
        DeleteRemovesAll(ps[1..], id);
        var rest := DeleteFirst(ps[1..], id);
        forall i | 0 <= i < |rest|
          ensures rest[i].nexthop != ps[0].nexthop && rest[i].lasthop != ps[0].lasthop
        {
          assert rest[i] in ps[1..];
        }
        ConsDisjoint(ps[0], rest);
      }
    }
  }

  lemma ConsDisjoint(p: Path, rest: seq<Path>)
    requires Disjoint(rest) && forall i :: 0 <= i < |rest| ==> rest[i].nexthop != p.nexthop && rest[i].lasthop != p.lasthop
    ensures Disjoint([p] + rest)
  {
    assert forall i :: 0 < i < |[p] + rest| ==> ([p] + rest)[i] == rest[i - 1];
  }

  /** What purging keeps is a disjoint part of the list with exactly the unexpired paths. */
  lemma {:induction false} PurgeKeepsDisjoint(ps: seq<Path>, now: real)
    requires Disjoint(ps)
    ensures Disjoint(Unexpired(ps, now)) && |Unexpired(ps, now)| <= |ps|
    ensures forall p :: p in Unexpired(ps, now) <==> p in ps && !(p.expire < now)
  {
    if ps != [] {
      assert forall p :: p in ps <==> p == ps[0] || p in ps[1..];
      PurgeKeepsDisjoint(ps[1..], now);
      var rest := Unexpired(ps[1..], now);
      forall i | 0 <= i < |rest|
        ensures rest[i].nexthop != ps[0].nexthop && rest[i].lasthop != ps[0].lasthop
      {
        assert rest[i] in ps[1..];
      }
      ConsDisjoint(ps[0], rest);
    }
  }

  lemma LearnKeeps(cfg: Config, e: Entry, seqno: nat, p: Path, closer: bool)
    requires EntryInv(cfg, e) && seqno % 2 == 0 && seqno > 0
    ensures EntryInv(cfg, Learn(cfg, e, seqno, p, closer))
    ensures e.seqno == seqno ==> e.flag.Up?
  {
  }

  lemma LoseLinkKeeps(cfg: Config, e: Entry, id: Addr)
    requires EntryInv(cfg, e)
    ensures EntryInv(cfg, LoseLink(e, id)) && !HasNextHop(LoseLink(e, id).paths, id)
  {
    DeleteRemovesAll(e.paths, id);
    if e.flag.Down? {
      assert e.paths == [];
    }
  }

  lemma HearErrorKeeps(cfg: Config, e: Entry, from: Addr, seqno: nat)
    requires EntryInv(cfg, e) && (seqno % 2 == 1 || seqno == 0)
    ensures EntryInv(cfg, HearError(e, from, seqno))
  {
    DeleteRemovesAll(e.paths, from);
  }

  lemma PurgeKeeps(cfg: Config, e: Entry, now: real)
    requires EntryInv(cfg, e)
    ensures EntryInv(cfg, Purge(e, now))
  {
    PurgeKeepsDisjoint(e.paths, now);
  }

  /** The correction to an odd number in rt_purge never applies. */
  lemma PurgeCorrectionUnused(cfg: Config, e: Entry)
    requires EntryInv(cfg, e) && e.flag.Up?
    ensures Max(e.seqno + 1, e.highest) % 2 == 1
  {
  }

  // ----- the network -----

  datatype Node = Node(seqno: nat, table: map<Addr, Entry>)

  datatype Msg =
    | Req(saddr: Addr, src: Addr, srcSeqno: nat, rqDstSeqno: nat, hopCount: nat, firstHop: Addr)
    | Rep(saddr: Addr, dst: Addr, dstSeqno: nat, hopCount: nat, firstHop: Addr)
    | Err(saddr: Addr, unreachable: map<Addr, nat>)

  datatype World = World(nodes: map<Addr, Node>, net: set<Msg>)

  /** The caching decisions around replies are left open: anything the source allows may be sent,
      with any hop count and first hop when it is passed on. */
  datatype Step =
    | HearReq(at: Addr, m: Msg, expire: real, closer: bool)
    | HearRep(at: Addr, m: Msg, expire: real, closer: bool)
    | HearErr(at: Addr, m: Msg)
    | LinkLost(at: Addr, id: Addr)
    | PurgeAll(at: Addr, now: real)
    | Forward(at: Addr, d: Addr, expire: real)
    | Advance(at: Addr)
    | AdvanceTo(at: Addr, m: Msg)
    | Send(at: Addr, m: Msg)

  function Get(n: Node, d: Addr): Entry {
    if d in n.table then n.table[d] else FRESH_ENTRY
  }

  /** What a node may send: requests and replies with its own number, requests and replies passed
      on, replies from a valid entry, errors about entries that are down. */
  ghost predicate MaySend(w: World, at: Addr, m: Msg)
    requires at in w.nodes
  {
    var n := w.nodes[at];
    match m
    case Req(saddr, src, s, _, hops, _) =>
      && saddr == at
      && ((src == at && s == n.seqno && hops == 0)
          || exists x :: x in w.net && x.Req? && x.src == src && x.srcSeqno == s)
    case Rep(saddr, d, s, hops, _) =>
      && saddr == at
      && ((d == at && s == n.seqno && hops == 0)
          || (Get(n, d).flag.Up? && s == Get(n, d).seqno)
          || exists x :: x in w.net && x.Rep? && x.dst == d && x.dstSeqno == s)
    case Err(saddr, bad) => saddr == at && forall d :: d in bad ==> Get(n, d).flag.Down? && bad[d] == Get(n, d).seqno
  }

  ghost predicate Enabled(w: World, st: Step) {
    && st.at in w.nodes
    && match st
       case HearReq(at, m, _, _) => m in w.net && m.Req? && m.src != at
       case HearRep(at, m, _, _) => m in w.net && m.Rep? && m.dst != at
       case HearErr(at, m) => m in w.net && m.Err?
       case AdvanceTo(at, m) => m in w.net && m.Req?
       case Forward(at, d, _) => Get(w.nodes[at], d).flag.Up? ==> Get(w.nodes[at], d).paths != []
       case Send(at, m) => MaySend(w, at, m)
       case _ => true
  }

  /** The path back that node at reads off a request: a neighbour of the source is the first hop. */
  function BackPath(at: Addr, m: Msg, expire: real): Path
    requires m.Req?
  {
    Path(m.saddr, m.hopCount + 1, expire, if m.hopCount == 0 then at else m.firstHop)
  }

  function ForthPath(m: Msg, expire: real): Path
    requires m.Rep?
  {
    Path(m.saddr, m.hopCount + 1, expire, m.firstHop)
  }

  /** The number a destination answers with when asked for wanted. */
  function ReplySeqno(seqno: nat, wanted: nat): nat {
    var s := if seqno < wanted then wanted + 1 else seqno;
    if s % 2 == 1 then s + 1 else s
  }

  function Put(n: Node, d: Addr, e: Entry): Node {
    n.(table := n.table[d := e])
  }

  ghost function Act(cfg: Config, w: World, st: Step): Node
    requires Enabled(w, st)
  {
    var n := w.nodes[st.at];
    match st
    case HearReq(at, m, expire, closer) =>
      Put(n, m.src, Learn(cfg, Get(n, m.src), m.srcSeqno, BackPath(at, m, expire), closer))
    case HearRep(_, m, expire, closer) =>
      Put(n, m.dst, Learn(cfg, Get(n, m.dst), m.dstSeqno, ForthPath(m, expire), closer))
    case HearErr(_, m) =>
      n.(table := map d | d in n.table ::
        if d in m.unreachable then HearError(n.table[d], m.saddr, m.unreachable[d]) else n.table[d])
    case LinkLost(_, id) => n.(table := map d | d in n.table :: LoseLink(n.table[d], id))
    case PurgeAll(_, now) => n.(table := map d | d in n.table :: Purge(n.table[d], now))
    case Forward(_, d, expire) => Put(n, d, UseRoute(Get(n, d), expire))
    case Advance(_) => n.(seqno := n.seqno + 2)
    case AdvanceTo(_, m) => n.(seqno := ReplySeqno(n.seqno, m.rqDstSeqno))
    case Send(_, _) => n
  }

  ghost function Next(cfg: Config, w: World, st: Step): World
    requires Enabled(w, st)
  {
    World(w.nodes[st.at := Act(cfg, w, st)], if st.Send? then w.net + {st.m} else w.net)
  }

  ghost predicate IsRun(cfg: Config, ws: seq<World>, steps: seq<Step>) {
    && |ws| == |steps| + 1
    && (forall n :: n in ws[0].nodes ==> ws[0].nodes[n] == Node(2, map[])) && ws[0].net == {}
    && forall i :: 0 <= i < |steps| ==> Enabled(ws[i], steps[i]) && ws[i + 1] == Next(cfg, ws[i], steps[i])
  }

  ghost predicate MsgInv(m: Msg) {
    match m
    case Req(_, _, s, _, _, _) => s % 2 == 0 && s > 0
    case Rep(_, _, s, _, _) => s % 2 == 0 && s > 0
    case Err(_, bad) => forall d :: d in bad ==> bad[d] % 2 == 1 || bad[d] == 0
  }

  predicate NodeInv(cfg: Config, n: Node) {
    n.seqno % 2 == 0 && n.seqno >= 2 && forall d :: d in n.table ==> EntryInv(cfg, n.table[d])
  }

  ghost predicate Inv(cfg: Config, w: World) {
    && (forall n :: n in w.nodes ==> NodeInv(cfg, w.nodes[n]))
    && (forall m :: m in w.net ==> MsgInv(m))
  }

  lemma ActKeeps(cfg: Config, w: World, st: Step)
    requires Inv(cfg, w) && Enabled(w, st)
    ensures NodeInv(cfg, Act(cfg, w, st))
  {
    var n := w.nodes[st.at];
    match st
    case HearReq(at, m, expire, closer) => LearnKeeps(cfg, Get(n, m.src), m.srcSeqno, BackPath(at, m, expire), closer);
    case HearRep(_, m, expire, closer) => LearnKeeps(cfg, Get(n, m.dst), m.dstSeqno, ForthPath(m, expire), closer);
    case HearErr(_, m) =>
      assert MsgInv(m);
      forall d | d in n.table && d in m.unreachable { HearErrorKeeps(cfg, n.table[d], m.saddr, m.unreachable[d]); }
    case LinkLost(_, id) => forall d | d in n.table { LoseLinkKeeps(cfg, n.table[d], id); }
    case PurgeAll(_, now) => forall d | d in n.table { PurgeKeeps(cfg, n.table[d], now); }
    case Forward(_, d, expire) =>
    case Advance(_) =>
    case AdvanceTo(_, _) =>
    case Send(_, _) =>
  }

  lemma StepKeeps(cfg: Config, w: World, st: Step)
    requires Inv(cfg, w) && Enabled(w, st)
    ensures Inv(cfg, Next(cfg, w, st))
  {
    ActKeeps(cfg, w, st);
    if st.Send? {
      SendKeeps(cfg, w, st.at, st.m);
    }
  }

  lemma SendKeeps(cfg: Config, w: World, at: Addr, m: Msg)
    requires Inv(cfg, w) && at in w.nodes && MaySend(w, at, m)
    ensures MsgInv(m)
  {
    var n := w.nodes[at];
    assert NodeInv(cfg, n);
    match m
    case Req(_, src, s, _, hops, _) =>
      if !(src == at && s == n.seqno && hops == 0) {
        var x :| x in w.net && x.Req? && x.src == src && x.srcSeqno == s;
        assert MsgInv(x);
      }
    case Rep(_, d, s, hops, _) =>
      if !(d == at && s == n.seqno && hops == 0) && !(Get(n, d).flag.Up? && s == Get(n, d).seqno) {
        var x :| x in w.net && x.Rep? && x.dst == d && x.dstSeqno == s;
        assert MsgInv(x);
      }
    case Err(_, bad) =>
      forall d | d in bad
        ensures bad[d] % 2 == 1 || bad[d] == 0
      {
        assert Get(n, d).flag.Down? && bad[d] == Get(n, d).seqno;
      }
  }

  lemma {:induction false} RunInv(cfg: Config, ws: seq<World>, steps: seq<Step>, k: nat)
    requires IsRun(cfg, ws, steps) && k < |ws|
    ensures Inv(cfg, ws[k])
  {
    if k > 0 {
      RunInv(cfg, ws, steps, k - 1);
      StepKeeps(cfg, ws[k - 1], steps[k - 1]);
    }
  }

  /** In every state of every run: a route is UP exactly when it has a path; UP routes have even
      numbers, DOWN ones odd or zero; the highest number heard is odd or zero. */
  lemma RouteState(cfg: Config, ws: seq<World>, steps: seq<Step>, k: nat, n: Addr, d: Addr)
    requires IsRun(cfg, ws, steps) && k < |ws| && n in ws[k].nodes
    ensures var e := Get(ws[k].nodes[n], d);
            && (e.flag.Up? <==> e.paths != [])
            && (e.flag.Up? <==> e.seqno % 2 == 0 && e.seqno > 0)
            && (e.highest % 2 == 1 || e.highest == 0)
  {
    RunInv(cfg, ws, steps, k);
    assert NodeInv(cfg, ws[k].nodes[n]);
  }

  /** In every state of every run: the paths of an entry have pairwise different next hops and
      last hops and are counted right, at most max(1, aomdv_max_paths_) of them; so path_delete,
      which takes out one path, takes out every path through the given neighbour. */
  lemma PathsDisjoint(cfg: Config, ws: seq<World>, steps: seq<Step>, k: nat, n: Addr, d: Addr, id: Addr)
    requires IsRun(cfg, ws, steps) && k < |ws| && n in ws[k].nodes
    ensures var e := Get(ws[k].nodes[n], d);
            && Disjoint(e.paths) && e.numPaths == |e.paths|
            && (|e.paths| <= 1 || |e.paths| <= cfg.maxPaths)
            && (forall p :: p in DeleteFirst(e.paths, id) <==> p in e.paths && p.nexthop != id)
  {
    RunInv(cfg, ws, steps, k);
    assert NodeInv(cfg, ws[k].nodes[n]);
    DeleteRemovesAll(Get(ws[k].nodes[n], d).paths, id);
  }
}
