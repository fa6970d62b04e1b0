/** What each AOMDV operation does to an entry, said of its fields, and where its paths come from. */
module AomdvOutcomes {
  import opened Common
  import opened AomdvModel

  predicate SameHops(p: Path, q: Path) {
    p.nexthop == q.nexthop && p.lasthop == q.lasthop
  }

  /** News leave a valid entry with the path heard and no other; what is older changes nothing. */
  lemma NewerReplaces(cfg: Config, e: Entry, seqno: nat, p: Path, closer: bool)
    ensures var e' := Learn(cfg, e, seqno, p, closer);
            && (seqno > e.seqno ==>
                  e'.seqno == seqno && e'.flag.Up? && |e'.paths| == 1 && e'.numPaths == 1
                  && e'.paths[0].nexthop == p.nexthop && e'.paths[0].lasthop == p.lasthop
                  && e'.paths[0].hopcount == p.hopcount && e'.paths[0].expire == p.expire)
            && (seqno < e.seqno || (seqno == e.seqno && !closer) ==> e' == e)
            && e'.highest == e.highest
  {
  }

  /** The same number from closer by: a path known lives on, to the later of the two times, ... */
  lemma KnownPathExtended(cfg: Config, e: Entry, p: Path, i: nat)
    requires Disjoint(e.paths) && i < |e.paths| && SameHops(e.paths[i], p)
    ensures var e' := Learn(cfg, e, e.seqno, p, true);
            && e' == e.(paths := e'.paths) && |e'.paths| == |e.paths|
            && (forall j :: 0 <= j < |e.paths| && j != i ==> e'.paths[j] == e.paths[j])
            && e'.paths[i] == e.paths[i].(expire := e'.paths[i].expire)
            && e'.paths[i].expire == (if e.paths[i].expire < p.expire then p.expire else e.paths[i].expire)
  {
  }

  /** The hop counts of all paths are at least h. */
  predicate NoneShorter(ps: seq<Path>, h: nat) {
    forall i :: 0 <= i < |ps| ==> h <= ps[i].hopcount
  }

  lemma {:induction false} MinHopsLeast(ps: seq<Path>)
    ensures NoneShorter(ps, MinHops(ps)) && MinHops(ps) <= INFINITY2
    ensures MinHops(ps) == INFINITY2 || exists i :: 0 <= i < |ps| && ps[i].hopcount == MinHops(ps)
  {
    if ps != [] {
      var n := |ps| - 1;
      MinHopsLeast(ps[..n]);
      if MinHops(ps) == MinHops(ps[..n]) < INFINITY2 {
        var i :| 0 <= i < |ps[..n]| && ps[..n][i].hopcount == MinHops(ps);
        assert ps[i].hopcount == MinHops(ps);
      }
    }
  }

  /** ... and an unknown one joins, last, exactly if it shares no next hop and no last hop with any
      other, there is room, and it is not too much longer than the shortest. */
  lemma NewPathJoins(cfg: Config, e: Entry, p: Path)
    requires forall i :: 0 <= i < |e.paths| ==> !SameHops(e.paths[i], p)
    ensures var e' := Learn(cfg, e, e.seqno, p, true);
            if (forall i :: 0 <= i < |e.paths| ==> e.paths[i].nexthop != p.nexthop && e.paths[i].lasthop != p.lasthop)
               && e.numPaths < cfg.maxPaths && p.hopcount <= MinHops(e.paths) + cfg.lenDiff
            then |e'.paths| == |e.paths| + 1 && e'.paths[..|e.paths|] == e.paths && e'.numPaths == e.numPaths + 1
                 && e'.paths[|e.paths|] == p && e' == e.(paths := e'.paths, numPaths := e'.numPaths)
            else e' == e
  {
    assert FindPath(e.paths, p.nexthop, p.lasthop) == |e.paths|;
  }

  // ----- losing paths -----

  /** Losing neighbour id loses exactly the paths through it. The entry stays valid as long as one is
      left, and else goes down with a number above its own and not below any heard of. */
  lemma LinkLossOutcome(cfg: Config, e: Entry, id: Addr)
    requires EntryInv(cfg, e)
    ensures var e' := LoseLink(e, id);
            && (forall p :: p in e'.paths <==> p in e.paths && p.nexthop != id)
            && e'.highest == e.highest
            && (e.flag.Up? && e'.paths == [] ==>
                  && e'.flag.Down? && e'.seqno > e.seqno && e'.seqno >= e.highest
                  && (e'.seqno == e.seqno + 1 || e'.seqno == e.highest))
            && (e.flag.Down? || e'.paths != [] ==> e'.flag == e.flag && e'.seqno == e.seqno)
  {
    DeleteRemovesAll(e.paths, id);
    HasMember(e.paths, id);
  }

  lemma HasMember(ps: seq<Path>, id: Addr)
    ensures HasNextHop(ps, id) <==> exists p :: p in ps && p.nexthop == id
  {
    forall i | 0 <= i < |ps| && ps[i].nexthop == id
      ensures exists p :: p in ps && p.nexthop == id
    {
      assert ps[i] in ps;
    }
  }

  /** An error counts only from a neighbour the entry uses and with a number not older; then that
      neighbour's paths go, the number is remembered, and without a path left the entry goes down
      with the highest number heard. */
  lemma ErrorOutcome(cfg: Config, e: Entry, from: Addr, seqno: nat)
    requires EntryInv(cfg, e)
    ensures var e' := HearError(e, from, seqno);
            if e.flag.Up? && e.seqno <= seqno && exists p :: p in e.paths && p.nexthop == from
            then && (forall p :: p in e'.paths <==> p in e.paths && p.nexthop != from)
                 && e'.highest == Max(e.highest, seqno)
                 && (if e'.paths == [] then e'.flag.Down? && e'.seqno == e'.highest else e'.flag.Up? && e'.seqno == e.seqno)
            else e' == e
  {
    DeleteRemovesAll(e.paths, from);
    HasMember(e.paths, from);
  }

  lemma {:induction false} UnexpiredMembers(ps: seq<Path>, now: real, p: Path)
    ensures p in Unexpired(ps, now) <==> p in ps && now <= p.expire
  {
    if ps != [] {
      UnexpiredMembers(ps[1..], now, p);
      assert p in ps <==> p == ps[0] || p in ps[1..];
    }
  }

  /** Time takes exactly the paths that are over, and the entry with the last of them. */
  lemma PurgeOutcome(cfg: Config, e: Entry, now: real)
    requires EntryInv(cfg, e)
    ensures var e' := Purge(e, now);
            && (forall p :: p in e'.paths <==> p in e.paths && (now <= 0.0 || now <= p.expire))
            && (e.flag.Up? && e'.paths == [] ==>
                  && e'.flag.Down? && e'.seqno > e.seqno && e'.seqno >= e.highest
                  && (e'.seqno == e.seqno + 1 || e'.seqno == e.highest))
            && (e.flag.Down? || e'.paths != [] ==> e'.flag == e.flag && e'.seqno == e.seqno)
  {
    forall p { UnexpiredMembers(e.paths, now, p); }
  }

  /** Data goes by the first path, which lives on; nothing else changes. */
  lemma UseOutcome(e: Entry, expire: real)
    requires e.flag.Up? && e.paths != []
    ensures var e' := UseRoute(e, expire);
            && e' == e.(paths := e'.paths) && |e'.paths| == |e.paths| && e'.paths[1..] == e.paths[1..]
            && SameHops(e'.paths[0], e.paths[0]) && e'.paths[0].hopcount == e.paths[0].hopcount && e'.paths[0].expire == expire
  {
  }

  /** A destination answers with an even number that is not below its own and not below the number
      asked for, its own one if that will do. */
  lemma ReplyNumber(seqno: nat, wanted: nat)
    ensures var s := ReplySeqno(seqno, wanted);
            && s % 2 == 0 && s >= seqno && s >= wanted
            && (seqno % 2 == 0 && wanted <= seqno ==> s == seqno)
            && (wanted > seqno ==> wanted < s <= wanted + 2)
  {
  }

  // ----- where paths come from -----

  /** In this step node n hears of d from nexthop, with lasthop as the hop next to d: in a request
      from d, whose own neighbours enter themselves, or in a reply about d. */
  predicate Hears(st: Step, n: Addr, d: Addr, nexthop: Addr, lasthop: Addr) {
    || (st.HearReq? && st.at == n && st.m.Req? && st.m.src == d && st.m.saddr == nexthop
        && lasthop == (if st.m.hopCount == 0 then n else st.m.firstHop))
    || (st.HearRep? && st.at == n && st.m.Rep? && st.m.dst == d && st.m.saddr == nexthop && lasthop == st.m.firstHop)
  }

  predicate Known(ps: seq<Path>, p: Path) {
    exists i :: 0 <= i < |ps| && SameHops(ps[i], p)
  }

  lemma LearnStores(cfg: Config, e: Entry, seqno: nat, p: Path, closer: bool, q: Path)
    requires q in Learn(cfg, e, seqno, p, closer).paths
    ensures SameHops(p, q) || Known(e.paths, q)
  {
    var ps := Learn(cfg, e, seqno, p, closer).paths;
    var i :| 0 <= i < |ps| && ps[i] == q;
    assert i < |e.paths| && SameHops(e.paths[i], ps[i]) ==> Known(e.paths, q);
  }

  lemma KnownMember(ps: seq<Path>, q: Path)
    requires q in ps
    ensures Known(ps, q)
  {
    var i :| 0 <= i < |ps| && ps[i] == q;
    assert SameHops(ps[i], q);
  }

  lemma UseStores(e: Entry, expire: real, q: Path)
    requires (e.flag.Up? ==> e.paths != []) && q in UseRoute(e, expire).paths
    ensures Known(e.paths, q)
  {
    var ps := UseRoute(e, expire).paths;
    var i :| 0 <= i < |ps| && ps[i] == q;
    assert SameHops(e.paths[i], q);
  }

  /** One step adds no path but the one heard in it. */
  lemma StepStores(cfg: Config, w: World, st: Step, n: Addr, d: Addr, q: Path)
    requires Inv(cfg, w) && Enabled(w, st) && n in w.nodes
    requires q in Get(Next(cfg, w, st).nodes[n], d).paths
    ensures Known(Get(w.nodes[n], d).paths, q) || Hears(st, n, d, q.nexthop, q.lasthop)
  {
    var e := Get(w.nodes[n], d);
    if n != st.at || Get(Next(cfg, w, st).nodes[n], d) == e {
      KnownMember(e.paths, q);
    } else {
      assert NodeInv(cfg, w.nodes[n]);
      match st
      case HearReq(at, m, expire, closer) => LearnStores(cfg, e, m.srcSeqno, BackPath(at, m, expire), closer, q);
      case HearRep(_, m, expire, closer) => LearnStores(cfg, e, m.dstSeqno, ForthPath(m, expire), closer, q);
      case HearErr(_, m) => ErrorOutcome(cfg, e, m.saddr, m.unreachable[d]); KnownMember(e.paths, q);
      case LinkLost(_, id) => LinkLossOutcome(cfg, e, id); KnownMember(e.paths, q);
      case PurgeAll(_, now) => UnexpiredMembers(e.paths, now, q); KnownMember(e.paths, q);
      case Forward(_, _, expire) => UseStores(e, expire, q);
      case _ =>
    }
  }

  /** Every path an entry for d holds, at any node in any run, was heard at that node: its next hop
      sent a request from d or a reply about d with its last hop as first hop. */
  lemma {:induction false} StoredWasHeard(cfg: Config, ws: seq<World>, steps: seq<Step>, k: nat, n: Addr, d: Addr, q: Path)
    returns (j: nat)
    requires IsRun(cfg, ws, steps) && k < |ws| && n in ws[k].nodes && q in Get(ws[k].nodes[n], d).paths
    ensures j < k && Hears(steps[j], n, d, q.nexthop, q.lasthop)
  {
    assert k > 0;
    var w := ws[k - 1];
    assert ws[k] == Next(cfg, w, steps[k - 1]);
    RunInv(cfg, ws, steps, k - 1);
    StepStores(cfg, w, steps[k - 1], n, d, q);
    if Hears(steps[k - 1], n, d, q.nexthop, q.lasthop) {
      j := k - 1;
    } else {
      var ps := Get(w.nodes[n], d).paths;
      var i :| 0 <= i < |ps| && SameHops(ps[i], q);
      j := StoredWasHeard(cfg, ws, steps, k - 1, n, d, ps[i]);
    }
  }
}
