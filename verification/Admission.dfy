/** Parameter-based admission over multi-link paths: what each link does with the signalling
    packets, and what every interleaving of flows keeps. */
module Admission {
  import opened Common

  /** One SALink with its Param_ADC. limit is utilization_ * bandwidth_; pending holds flow ids
      with -1 for a free slot; held records the flows whose rate went into resv and not out. */
  datatype Link = Link(resv: real, limit: real, pending: seq<int>, numfl: int, held: set<nat>)

  /** lookup and get_nxt: the first slot holding id (-1: a free one). */
  function Find(pending: seq<int>, id: int): (r: Option<nat>)
    ensures r.Some? ==> r.value < |pending| && pending[r.value] == id && forall k :: 0 <= k < r.value ==> pending[k] != id
    ensures r.None? ==> id !in pending
  {
    if pending == [] then None
    else if pending[0] == id then Some(0)
    else
      var r := Find(pending[1..], id);
      if r.None? then None else Some(r.value + 1)
  }

  predicate Admits(l: Link, rate: real) {
    l.resv + rate <= l.limit
  }

  /** PT_REQUEST; without a free slot for an admitted flow the program exits. */
  function OnRequest(l: Link, id: nat, rate: real): Link
    requires Admits(l, rate) ==> -1 in l.pending
  {
    if !Admits(l, rate) then l
    else
      l.(resv := l.resv + rate, pending := l.pending[Find(l.pending, -1).value := id],
         numfl := l.numfl + 1, held := l.held + {id})
  }

  /** PT_CONFIRM: forget the pending entry, and the reservation too when the flow was rejected. */
  function OnConfirm(l: Link, id: nat, rate: real, decision: bool): Link {
    var j := Find(l.pending, id);
    if j.None? then l
    else
      var l1 := l.(pending := l.pending[j.value := -1]);
      if decision then l1
      else l1.(resv := l1.resv - rate, numfl := l1.numfl - 1, held := l1.held - {id})
  }

  /** PT_TEARDOWN takes the rate out unconditionally. */
  function OnTeardown(l: Link, id: nat, rate: real): Link {
    l.(resv := l.resv - rate, numfl := l.numfl - 1, held := l.held - {id})
  }

  // ----- flows -----

  /** Where a flow's current signalling packet is: it has passed the first hop links. */
  datatype Phase =
    | Idle
    | Requesting(hop: nat, decision: bool)
    | Confirming(hop: nat, decision: bool)
    | Running
    | Tearing(hop: nat)

  datatype Flow = Flow(path: seq<nat>, rate: real, phase: Phase)

  datatype World = World(links: seq<Link>, flows: seq<Flow>)

  predicate FlowOk(f: Flow, nLinks: nat) {
    && f.rate >= 0.0
    && (forall k :: 0 <= k < |f.path| ==> f.path[k] < nLinks)
    && (forall j, k :: 0 <= j < k < |f.path| ==> f.path[j] != f.path[k])
  }

  /** The next move of flow i. Idle flows issue a REQUEST; at the far end it is answered and comes
      back as a CONFIRM with the decision in it; confirmed flows run if accepted, and only running
      ones send a TEARDOWN. ACCEPT and REJECT pass the links without effect. */
  predicate Enabled(w: World, i: nat) {
    i < |w.flows| &&
    var f := w.flows[i];
    match f.phase
    case Requesting(hop, _) =>
      hop < |f.path| && f.path[hop] < |w.links| ==>
        (Admits(w.links[f.path[hop]], f.rate) ==> -1 in w.links[f.path[hop]].pending)
    case _ => true
  }

  function Next(w: World, i: nat): World
    requires Enabled(w, i) && FlowOk(w.flows[i], |w.links|)
  {
    var f := w.flows[i];
    match f.phase
    case Idle => Move(w, i, Requesting(0, true))
    case Requesting(hop, decision) =>
      if hop >= |f.path| then Move(w, i, Confirming(0, decision))
      else
        var l := f.path[hop];
        Move(w.(links := w.links[l := OnRequest(w.links[l], i, f.rate)]), i,
             Requesting(hop + 1, decision && Admits(w.links[l], f.rate)))
    case Confirming(hop, decision) =>
      if hop >= |f.path| then Move(w, i, if decision then Running else Idle)
      else
        var l := f.path[hop];
        Move(w.(links := w.links[l := OnConfirm(w.links[l], i, f.rate, decision)]), i, Confirming(hop + 1, decision))
    case Running => Move(w, i, Tearing(0))
    case Tearing(hop) =>
      if hop >= |f.path| then Move(w, i, Idle)
      else
        var l := f.path[hop];
        Move(w.(links := w.links[l := OnTeardown(w.links[l], i, f.rate)]), i, Tearing(hop + 1))
  }

  function Move(w: World, i: nat, phase: Phase): World
    requires i < |w.flows|
  {
    w.(flows := w.flows[i := w.flows[i].(phase := phase)])
  }

  predicate Init(w: World) {
    && (forall i :: 0 <= i < |w.flows| ==> FlowOk(w.flows[i], |w.links|) && w.flows[i].phase == Idle)
    && (forall l :: 0 <= l < |w.links| ==>
          var k := w.links[l];
          k.resv == 0.0 && k.limit >= 0.0 && k.held == {} && forall j :: 0 <= j < |k.pending| ==> k.pending[j] == -1)
  }

  predicate IsRun(ws: seq<World>, moves: seq<nat>) {
    && |ws| == |moves| + 1
    && Init(ws[0])
    && forall k :: 0 <= k < |moves| ==>
         && Enabled(ws[k], moves[k]) && FlowOk(ws[k].flows[moves[k]], |ws[k].links|)
         && ws[k + 1] == Next(ws[k], moves[k])
  }

  // ----- what a link keeps -----

  /** The rates of the first n flows that are in held. */
  function Total(flows: seq<Flow>, held: set<nat>, n: nat): real
    requires n <= |flows|
  {
    if n == 0 then 0.0
    else Total(flows, held, n - 1) + (if n - 1 in held then flows[n - 1].rate else 0.0)
  }

  /** The books balance: the reserved rate is the sum of the rates held, within the limit, and
      each pending flow is listed once. */
  predicate LinkInv(flows: seq<Flow>, l: Link) {
    && (forall i :: i in l.held ==> i < |flows|)
    && l.resv == Total(flows, l.held, |flows|)
    && l.resv <= l.limit
    && (forall j, k :: 0 <= j < k < |l.pending| && l.pending[j] != -1 ==> l.pending[j] != l.pending[k])
  }

  lemma {:induction false} TotalAdd(flows: seq<Flow>, held: set<nat>, i: nat, n: nat)
    requires n <= |flows| && i < |flows| && i !in held
    ensures Total(flows, held + {i}, n) == Total(flows, held, n) + if i < n then flows[i].rate else 0.0
  {
    if n > 0 { TotalAdd(flows, held, i, n - 1); }
  }

  lemma TotalRemove(flows: seq<Flow>, held: set<nat>, i: nat)
    requires i in held && i < |flows|
    ensures Total(flows, held - {i}, |flows|) == Total(flows, held, |flows|) - flows[i].rate
  {
    TotalAdd(flows, held - {i}, i, |flows|);
    assert held - {i} + {i} == held;
  }

  lemma {:induction false} TotalSameRates(a: seq<Flow>, b: seq<Flow>, held: set<nat>, n: nat)
    requires n <= |a| == |b| && forall i :: 0 <= i < |a| ==> a[i].rate == b[i].rate
    ensures Total(a, held, n) == Total(b, held, n)
  {
    if n > 0 { TotalSameRates(a, b, held, n - 1); }
  }

  lemma RequestKeeps(flows: seq<Flow>, l: Link, i: nat)
    requires LinkInv(flows, l) && i < |flows| && (Admits(l, flows[i].rate) ==> -1 in l.pending)
    requires i !in l.held && i !in l.pending
    ensures var l' := OnRequest(l, i, flows[i].rate);
            && LinkInv(flows, l') && l'.numfl - |l'.held| == l.numfl - |l.held|
            && (i in l'.held <==> i in l'.pending) && (i in l'.held <==> Admits(l, flows[i].rate))
            && (forall j: nat :: j != i ==> (j in l'.held <==> j in l.held) && (j in l'.pending <==> j in l.pending))
  {
    if Admits(l, flows[i].rate) {
      TotalAdd(flows, l.held, i, |flows|);
      var p := Find(l.pending, -1).value;
      SetSlot(l.pending, p, i);
    }
  }

  /** Writing one slot changes membership only of what was and is in it. */
  lemma SetSlot(s: seq<int>, p: nat, x: int)
    requires p < |s|
    ensures x in s[p := x]
    ensures forall y :: y != x && y != s[p] ==> (y in s[p := x] <==> y in s)
  {
    assert s[p := x][p] == x;
    forall y | y != x && y != s[p] && y in s
      ensures y in s[p := x]
    {
      var k :| 0 <= k < |s| && s[k] == y;
      assert s[p := x][k] == y;
    }
  }

  lemma ConfirmKeeps(flows: seq<Flow>, l: Link, i: nat, decision: bool)
    requires LinkInv(flows, l) && i < |flows| && flows[i].rate >= 0.0
    requires i in l.held <==> i in l.pending
    requires decision ==> i in l.held
    ensures var l' := OnConfirm(l, i, flows[i].rate, decision);
            && LinkInv(flows, l') && l'.numfl - |l'.held| == l.numfl - |l.held|
            && i !in l'.pending && (i in l'.held <==> decision)
            && (forall j: nat :: j != i ==> (j in l'.held <==> j in l.held) && (j in l'.pending <==> j in l.pending))
  {
    var j := Find(l.pending, i);
    if j.Some? {
      SetSlot(l.pending, j.value, -1);
      if !decision {
        TotalRemove(flows, l.held, i);
      }
    }
  }

  lemma TeardownKeeps(flows: seq<Flow>, l: Link, i: nat)
    requires LinkInv(flows, l) && i < |flows| && flows[i].rate >= 0.0 && i in l.held
    ensures var l' := OnTeardown(l, i, flows[i].rate);
            && LinkInv(flows, l') && l'.numfl - |l'.held| == l.numfl - |l.held|
            && i !in l'.held && l'.pending == l.pending
            && (forall j: nat :: j != i ==> (j in l'.held <==> j in l.held))
  {
    TotalRemove(flows, l.held, i);
  }

  /** A TEARDOWN balances the books only for a flow the link holds: for any other flow of positive
      rate it drives the reserved rate below the sum of what is held. */
  lemma StrayTeardown(flows: seq<Flow>, l: Link, i: nat)
    requires LinkInv(flows, l) && i < |flows| && flows[i].rate > 0.0
    ensures LinkInv(flows, OnTeardown(l, i, flows[i].rate)) <==> i in l.held
  {
    if i in l.held {
      TeardownKeeps(flows, l, i);
    } else {
      assert l.held - {i} == l.held;
    }
  }

  // ----- what every interleaving keeps -----

  /** The standing of flow i at one link: mentioned, i.e. pending or held there. */
  predicate Absent(l: Link, i: nat) {
    i !in l.pending && i !in l.held
  }

  predicate Undecided(l: Link, i: nat) {
    i in l.pending <==> i in l.held
  }

  predicate Settled(l: Link, i: nat, held: bool) {
    i !in l.pending && (i in l.held <==> held)
  }

  /** What the k-th link of flow i's path knows about it, given where its packet is. */
  predicate Stands(l: Link, i: nat, phase: Phase, k: nat) {
    match phase
    case Idle => Absent(l, i)
    case Requesting(hop, decision) =>
      if k < hop then Undecided(l, i) && (decision ==> i in l.held) else Absent(l, i)
    case Confirming(hop, decision) =>
      if k < hop then Settled(l, i, decision) else Undecided(l, i) && (decision ==> i in l.held)
    case Running => Settled(l, i, true)
    case Tearing(hop) => if k < hop then Absent(l, i) else Settled(l, i, true)
  }

  predicate FlowInv(w: World, i: nat)
    requires i < |w.flows|
  {
    var f := w.flows[i];
    && FlowOk(f, |w.links|)
    && (f.phase.Requesting? || f.phase.Confirming? || f.phase.Tearing? ==> f.phase.hop <= |f.path|)
    && (forall k :: 0 <= k < |f.path| ==> Stands(w.links[f.path[k]], i, f.phase, k))
    && (forall l :: 0 <= l < |w.links| && l !in f.path ==> Absent(w.links[l], i))
  }

  predicate Inv(w: World) {
    && (forall l :: 0 <= l < |w.links| ==> LinkInv(w.flows, w.links[l]))
    && (forall i :: 0 <= i < |w.flows| ==> FlowInv(w, i))
  }

  /** Flow i moved and touched at most link l, which kept its books and what it knew of others. */
  ghost predicate Touches(w: World, w': World, i: nat, l: nat) {
    && i < |w.flows| && l < |w.links|
    && |w'.flows| == |w.flows| && |w'.links| == |w.links|
    && w'.flows[i] == w.flows[i].(phase := w'.flows[i].phase)
    && (forall j :: 0 <= j < |w.flows| && j != i ==> w'.flows[j] == w.flows[j])
    && (forall k :: 0 <= k < |w.links| && k != l ==> w'.links[k] == w.links[k])
    && LinkInv(w.flows, w'.links[l])
    && (forall j: nat :: j != i ==>
          (j in w'.links[l].held <==> j in w.links[l].held) && (j in w'.links[l].pending <==> j in w.links[l].pending))
  }

  lemma TouchKeepsLinks(w: World, w': World, i: nat, l: nat)
    requires Inv(w) && Touches(w, w', i, l)
    ensures forall k :: 0 <= k < |w'.links| ==> LinkInv(w'.flows, w'.links[k])
  {
    forall k | 0 <= k < |w'.links|
      ensures LinkInv(w'.flows, w'.links[k])
    {
      assert LinkInv(w.flows, w'.links[k]);
      TotalSameRates(w.flows, w'.flows, w'.links[k].held, |w.flows|);
    }
  }

  lemma TouchKeepsOther(w: World, w': World, i: nat, l: nat, j: nat)
    requires Inv(w) && Touches(w, w', i, l) && j < |w.flows| && j != i
    ensures FlowInv(w', j)
  {
    assert FlowInv(w, j);
    var f := w.flows[j];
    forall k | 0 <= k < |f.path|
      ensures Stands(w'.links[f.path[k]], j, f.phase, k)
    {
      assert Stands(w.links[f.path[k]], j, f.phase, k);
    }
    forall x | 0 <= x < |w'.links| && x !in f.path
      ensures Absent(w'.links[x], j)
    {
      assert Absent(w.links[x], j);
    }
  }

  /** The flow that moved: its packet is one link on, and that link knows it. */
  lemma TouchKeepsMover(w: World, w': World, i: nat, l: nat, hop: nat)
    requires Inv(w) && Touches(w, w', i, l) && FlowInv(w, i)
    requires hop < |w.flows[i].path| && w.flows[i].path[hop] == l
    requires w'.flows[i].phase.Requesting? || w'.flows[i].phase.Confirming? || w'.flows[i].phase.Tearing? ==>
               w'.flows[i].phase.hop <= |w.flows[i].path|
    requires Stands(w'.links[l], i, w'.flows[i].phase, hop)
    requires forall k :: 0 <= k < |w.flows[i].path| && k != hop ==>
               Stands(w.links[w.flows[i].path[k]], i, w'.flows[i].phase, k)
    ensures FlowInv(w', i)
  {
    assert FlowInv(w, i);
    var f := w'.flows[i];
    forall k | 0 <= k < |f.path|
      ensures Stands(w'.links[f.path[k]], i, f.phase, k)
    {
      if k != hop {
        assert f.path[k] != l;
      }
    }
    forall x | 0 <= x < |w'.links| && x !in f.path
      ensures Absent(w'.links[x], i)
    {
      assert Absent(w.links[x], i);
    }
  }

  /** A hop across link l. */
  lemma HopKeeps(w: World, i: nat, hop: nat)
    requires Inv(w) && Enabled(w, i) && FlowOk(w.flows[i], |w.links|)
    requires var ph := w.flows[i].phase;
             (ph.Requesting? || ph.Confirming? || ph.Tearing?) && ph.hop == hop < |w.flows[i].path|
    ensures Inv(Next(w, i))
  {
    var f, w' := w.flows[i], Next(w, i);
    var l := f.path[hop];
    assert FlowInv(w, i) && Stands(w.links[l], i, f.phase, hop);
    assert LinkInv(w.flows, w.links[l]);
    match f.phase {
      case Requesting(_, _) => RequestKeeps(w.flows, w.links[l], i);
      case Confirming(_, decision) => ConfirmKeeps(w.flows, w.links[l], i, decision);
      case Tearing(_) => TeardownKeeps(w.flows, w.links[l], i);
    }
    assert Touches(w, w', i, l);
    TouchKeepsLinks(w, w', i, l);
    forall k | 0 <= k < |f.path| && k != hop
      ensures Stands(w.links[f.path[k]], i, w'.flows[i].phase, k)
    {
      assert Stands(w.links[f.path[k]], i, f.phase, k);
    }
    TouchKeepsMover(w, w', i, l, hop);
    forall j | 0 <= j < |w'.flows|
      ensures FlowInv(w', j)
    {
      if j != i {
        TouchKeepsOther(w, w', i, l, j);
      }
    }
  }

  /** A move that crosses no link. */
  lemma TurnKeeps(w: World, i: nat, phase: Phase)
    requires Inv(w) && i < |w.flows| && FlowInv(w, i)
    requires phase.Requesting? || phase.Confirming? || phase.Tearing? ==> phase.hop <= |w.flows[i].path|
    requires forall k :: 0 <= k < |w.flows[i].path| ==> Stands(w.links[w.flows[i].path[k]], i, phase, k)
    ensures Inv(Move(w, i, phase))
  {
    var w' := Move(w, i, phase);
    forall l | 0 <= l < |w'.links|
      ensures LinkInv(w'.flows, w'.links[l])
    {
      TotalSameRates(w.flows, w'.flows, w.links[l].held, |w.flows|);
    }
    forall j | 0 <= j < |w'.flows|
      ensures FlowInv(w', j)
    {
      assert FlowInv(w, j);
    }
  }

  lemma StepKeeps(w: World, i: nat)
    requires Inv(w) && Enabled(w, i) && FlowOk(w.flows[i], |w.links|)
    ensures Inv(Next(w, i))
  {
    var f := w.flows[i];
    assert FlowInv(w, i);
    if (f.phase.Requesting? || f.phase.Confirming? || f.phase.Tearing?) && f.phase.hop < |f.path| {
      HopKeeps(w, i, f.phase.hop);
    } else {
      var phase := Next(w, i).flows[i].phase;
      forall k | 0 <= k < |f.path|
        ensures Stands(w.links[f.path[k]], i, phase, k)
      {
        assert Stands(w.links[f.path[k]], i, f.phase, k);
      }
      TurnKeeps(w, i, phase);
    }
  }

  lemma InitInv(w: World)
    requires Init(w)
    ensures Inv(w)
  {
    forall l | 0 <= l < |w.links|
      ensures LinkInv(w.flows, w.links[l])
    {
      TotalEmpty(w.flows, |w.flows|);
    }
  }

  lemma {:induction false} TotalEmpty(flows: seq<Flow>, n: nat)
    requires n <= |flows|
    ensures Total(flows, {}, n) == 0.0
  {
    if n > 0 { TotalEmpty(flows, n - 1); }
  }

  lemma {:induction false} RunInv(ws: seq<World>, moves: seq<nat>, k: nat)
    requires IsRun(ws, moves) && k < |ws|
    ensures Inv(ws[k])
  {
    if k == 0 {
      InitInv(ws[0]);
    } else {
      RunInv(ws, moves, k - 1);
      StepKeeps(ws[k - 1], moves[k - 1]);
    }
  }

  /** In every state of every interleaving each link's reserved rate is the sum of the rates it
      holds and within its limit. */
  lemma ReservedWithinLimit(ws: seq<World>, moves: seq<nat>, k: nat, l: nat)
    requires IsRun(ws, moves) && k < |ws| && l < |ws[k].links|
    ensures var x := ws[k].links[l];
            x.resv == Total(ws[k].flows, x.held, |ws[k].flows|) && x.resv <= x.limit
  {
    RunInv(ws, moves, k);
  }

  /** Once a flow's CONFIRM has passed every link, its rate is held on all links of its path if it
      was accepted and on none if it was not; and nowhere is it still pending. */
  lemma AllOrNothing(ws: seq<World>, moves: seq<nat>, k: nat, i: nat)
    requires IsRun(ws, moves) && k < |ws| && i < |ws[k].flows|
    requires var ph := ws[k].flows[i].phase;
             ph.Running? || ph.Idle? || (ph.Confirming? && ph.hop >= |ws[k].flows[i].path|)
    ensures var f := ws[k].flows[i];
            var accepted := f.phase.Running? || (f.phase.Confirming? && f.phase.decision);
            forall j :: 0 <= j < |f.path| ==>
              && f.path[j] < |ws[k].links|
              && (i in ws[k].links[f.path[j]].held <==> accepted) && i !in ws[k].links[f.path[j]].pending
  {
    RunInv(ws, moves, k);
    var w := ws[k];
    assert FlowInv(w, i);
    var f := w.flows[i];
    forall j | 0 <= j < |f.path|
      ensures f.path[j] < |w.links| && i !in w.links[f.path[j]].pending
              && (i in w.links[f.path[j]].held <==> f.phase.Running? || (f.phase.Confirming? && f.phase.decision))
    {
      assert Stands(w.links[f.path[j]], i, f.phase, j);
    }
  }

  /** A link that holds nothing, and a TEARDOWN for flow 0 of rate 1: the books show -1. */
  lemma StrayTeardownBreaks(limit: real)
    requires limit >= 0.0
    ensures var flows, l := [Flow([0], 1.0, Idle)], Link(0.0, limit, [-1], -1, {});
            && LinkInv(flows, l) && OnTeardown(l, 0, 1.0).resv == -1.0
            && !LinkInv(flows, OnTeardown(l, 0, 1.0))
  {
    var flows, l := [Flow([0], 1.0, Idle)], Link(0.0, limit, [-1], -1, {});
    TotalEmpty(flows, |flows|);
    StrayTeardown(flows, l, 0);
  }

  // ----- who is accepted -----

  /** The REQUEST of flow i reaches its h-th link in step j of the run. */
  predicate Asks(ws: seq<World>, moves: seq<nat>, j: nat, i: nat, h: nat) {
    && j < |moves| && j < |ws| && moves[j] == i && i < |ws[j].flows|
    && ws[j].flows[i].phase.Requesting? && ws[j].flows[i].phase.hop == h < |ws[j].flows[i].path|
    && ws[j].flows[i].path[h] < |ws[j].links|
  }

  /** The link it then asks has room for its rate. */
  predicate Room(w: World, i: nat, h: nat)
    requires i < |w.flows| && h < |w.flows[i].path| && w.flows[i].path[h] < |w.links|
  {
    w.links[w.flows[i].path[h]].resv + w.flows[i].rate <= w.links[w.flows[i].path[h]].limit
  }

  /** The flow has been turned down so far. */
  predicate Refused(ph: Phase) {
    (ph.Requesting? || ph.Confirming?) && !ph.decision
  }

  /** The flow has passed link h of its path, with no objection. */
  predicate Passed(ph: Phase, h: nat) {
    || (ph.Requesting? && ph.decision && h < ph.hop)
    || (ph.Confirming? && ph.decision) || ph.Running? || ph.Tearing?
  }

  lemma StepFlow(ws: seq<World>, moves: seq<nat>, k: nat, i: nat)
    requires IsRun(ws, moves) && 0 < k < |ws| && i < |ws[k].flows|
    ensures i < |ws[k - 1].flows| && ws[k].flows[i].path == ws[k - 1].flows[i].path && ws[k].flows[i].rate == ws[k - 1].flows[i].rate
    ensures moves[k - 1] != i ==> ws[k].flows[i] == ws[k - 1].flows[i]
  {
    assert ws[k] == Next(ws[k - 1], moves[k - 1]);
  }

  /** A flow is turned down only by a link of its path that had no room for it when asked. */
  lemma {:induction false} RefusedHadNoRoom(ws: seq<World>, moves: seq<nat>, k: nat, i: nat) returns (j: nat, h: nat)
    requires IsRun(ws, moves) && k < |ws| && i < |ws[k].flows| && Refused(ws[k].flows[i].phase)
    ensures j < k && Asks(ws, moves, j, i, h) && !Room(ws[j], i, h)
    ensures ws[j].flows[i].path == ws[k].flows[i].path && ws[j].flows[i].rate == ws[k].flows[i].rate
  {
    assert k > 0;
    StepFlow(ws, moves, k, i);
    var w := ws[k - 1];
    assert ws[k] == Next(w, moves[k - 1]);
    if Refused(w.flows[i].phase) {
      j, h := RefusedHadNoRoom(ws, moves, k - 1, i);
    } else {
      j, h := k - 1, w.flows[i].phase.hop;
    }
  }

  /** A flow that is accepted, or runs, found room on every link of its path when it asked. */
  lemma {:induction false} AcceptedHadRoom(ws: seq<World>, moves: seq<nat>, k: nat, i: nat, h: nat) returns (j: nat)
    requires IsRun(ws, moves) && k < |ws| && i < |ws[k].flows| && h < |ws[k].flows[i].path| && Passed(ws[k].flows[i].phase, h)
    ensures j < k && Asks(ws, moves, j, i, h) && Room(ws[j], i, h)
    ensures ws[j].flows[i].path == ws[k].flows[i].path && ws[j].flows[i].rate == ws[k].flows[i].rate
  {
    assert k > 0;
    StepFlow(ws, moves, k, i);
    RunInv(ws, moves, k - 1);
    var w := ws[k - 1];
    assert ws[k] == Next(w, moves[k - 1]) && FlowInv(w, i);
    if Passed(w.flows[i].phase, h) {
      j := AcceptedHadRoom(ws, moves, k - 1, i, h);
    } else {
      j := k - 1;
    }
  }

  predicate HoldsAt(w: World, i: nat, h: nat) {
    && i < |w.flows| && h < |w.flows[i].path| && w.flows[i].path[h] < |w.links|
    && i in w.links[w.flows[i].path[h]].held
  }

  /** How many links a request that is under way, or just back, has passed. */
  function AskedSoFar(f: Flow): nat {
    if f.phase.Requesting? then f.phase.hop else |f.path|
  }

  /** The decision bit of a request is the conjunction of what the links passed so far said. */
  predicate Balloted(w: World, i: nat) {
    && i < |w.flows|
    && var f := w.flows[i];
    f.phase.Requesting? || (f.phase.Confirming? && f.phase.hop == 0) ==>
      (f.phase.decision <==> forall h :: 0 <= h < AskedSoFar(f) ==> HoldsAt(w, i, h))
  }

  /** Nobody else's move changes where flow i is held. */
  lemma OthersVote(w: World, mover: nat, i: nat, h: nat)
    requires Enabled(w, mover) && FlowOk(w.flows[mover], |w.links|) && mover != i
    ensures HoldsAt(Next(w, mover), i, h) <==> HoldsAt(w, i, h)
  {
  }

  /** A link asked holds the flow from then on exactly if it had room. */
  lemma LinkVotes(w: World, i: nat)
    requires Enabled(w, i) && FlowInv(w, i) && w.flows[i].phase.Requesting? && w.flows[i].phase.hop < |w.flows[i].path|
    ensures var w', hop := Next(w, i), w.flows[i].phase.hop;
            && w.flows[i].path[hop] < |w.links| && (HoldsAt(w', i, hop) <==> Room(w, i, hop))
            && (forall h :: 0 <= h < hop ==> (HoldsAt(w', i, h) <==> HoldsAt(w, i, h)))
            && w'.flows[i].phase == Requesting(hop + 1, w.flows[i].phase.decision && Room(w, i, hop))
  {
    var f := w.flows[i];
    assert Stands(w.links[f.path[f.phase.hop]], i, f.phase, f.phase.hop);
  }

  lemma BallotStep(w: World, mover: nat, i: nat)
    requires Enabled(w, mover) && FlowOk(w.flows[mover], |w.links|) && i < |w.flows| && FlowInv(w, i) && Balloted(w, i)
    ensures Balloted(Next(w, mover), i)
  {
    if mover != i {
      forall h | 0 <= h < |w.flows[i].path| { OthersVote(w, mover, i, h); }
    } else if w.flows[i].phase.Requesting? && w.flows[i].phase.hop < |w.flows[i].path| {
      LinkVotes(w, i);
      var w', hop := Next(w, mover), w.flows[i].phase.hop;
      assert (forall h :: 0 <= h < hop + 1 ==> HoldsAt(w', i, h))
        <==> (forall h :: 0 <= h < hop ==> HoldsAt(w', i, h)) && HoldsAt(w', i, hop);
    } else if w.flows[i].phase.Requesting? {
      assert forall h :: 0 <= h < |w.flows[i].path| ==> (HoldsAt(Next(w, mover), i, h) <==> HoldsAt(w, i, h));
    }
  }

  lemma {:induction false} RunBalloted(ws: seq<World>, moves: seq<nat>, k: nat, i: nat)
    requires IsRun(ws, moves) && k < |ws| && i < |ws[k].flows|
    ensures Balloted(ws[k], i)
  {
    if k > 0 {
      StepFlow(ws, moves, k, i);
      RunBalloted(ws, moves, k - 1, i);
      RunInv(ws, moves, k - 1);
      BallotStep(ws[k - 1], moves[k - 1], i);
    }
  }

  /** A flow whose REQUEST has passed all links is accepted exactly if every one of them holds it. */
  lemma AcceptedIffAllHold(ws: seq<World>, moves: seq<nat>, k: nat, i: nat)
    requires IsRun(ws, moves) && k < |ws| && i < |ws[k].flows| && ws[k].flows[i].phase.Confirming? && ws[k].flows[i].phase.hop == 0
    ensures ws[k].flows[i].phase.decision <==> forall h :: 0 <= h < |ws[k].flows[i].path| ==> HoldsAt(ws[k], i, h)
  {
    RunBalloted(ws, moves, k, i);
  }
}
