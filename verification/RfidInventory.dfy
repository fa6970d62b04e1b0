/** One reader and a population of tags as objects, driven through a whole inventory. */
module RfidInventory {
  import opened Common
  import opened RfidModel
  import opened RfidAgents
  import opened RfidSafety

  ghost function States(tags: seq<RfidTag>): seq<Tag>
    reads tags
  {
    seq(|tags|, i requires 0 <= i < |tags| reads tags => tags[i].State())
  }

  predicate Distinct(tags: seq<RfidTag>) {
    forall i, j :: 0 <= i < j < |tags| ==> tags[i] != tags[j]
  }

  /** A random number brought into the range 1 to q. */
  function Draw(raw: nat, q: int): int {
    if q >= 1 then 1 + raw % q else 1
  }

  function Draws(raw: seq<nat>, q: int): (d: seq<int>)
    ensures |d| == |raw| && (q >= 1 ==> DrawsOk(d, q))
  {
    seq(|raw|, i requires 0 <= i < |raw| => Draw(raw[i], q))
  }

  /** Those of the first n tags that reply. */
  ghost function HeardOf(tags: seq<Tag>, p: Packet, draws: seq<int>, n: nat): set<nat>
    requires n <= |tags| == |draws|
  {
    set k: nat | k < n && TagReplies(tags[k], p, draws[k])
  }

  lemma HearNext(tags: seq<Tag>, p: Packet, draws: seq<int>, n: nat)
    requires n < |tags| == |draws|
    ensures var h, h' := HeardOf(tags, p, draws, n), HeardOf(tags, p, draws, n + 1);
            if TagReplies(tags[n], p, draws[n]) then |h'| == |h| + 1 && n in h' else h' == h
  {
    var h, h' := HeardOf(tags, p, draws, n), HeardOf(tags, p, draws, n + 1);
    assert h' == if TagReplies(tags[n], p, draws[n]) then h + {n} else h;
  }

  /** A packet to all tags; count: how many replies came back, last: the tag heard last. */
  method Broadcast(tags: seq<RfidTag>, p: Packet, draws: seq<int>) returns (count: nat, last: nat)
    requires Distinct(tags) && |draws| == |tags|
    modifies tags
    ensures States(tags) == Deliver(old(States(tags)), p, draws)
    ensures count == |Repliers(old(States(tags)), p, draws)|
    ensures count > 0 ==> last in Repliers(old(States(tags)), p, draws)
  {
    ghost var was := States(tags);
    count, last := 0, 0;
    var i := 0;
    while i < |tags|
      invariant 0 <= i <= |tags|
      invariant forall k :: 0 <= k < i ==> tags[k].State() == TagRecv(was[k], p, draws[k])
      invariant forall k :: i <= k < |tags| ==> tags[k].State() == was[k]
      invariant count == |HeardOf(was, p, draws, i)| && (count > 0 ==> last in HeardOf(was, p, draws, i))
    {
      HearNext(was, p, draws, i);
      var reply := tags[i].RecvEdfsa(p, draws[i]);
      if reply {
        count, last := count + 1, i;
      }
      i := i + 1;
    }
    assert HeardOf(was, p, draws, i) == Repliers(was, p, draws);
  }

  /** What the reader decided goes out: the acknowledgement to the tag heard last, then the query. */
  method Send(reader: RfidReader, tags: seq<RfidTag>, last: nat, ack: bool, query: Option<Packet>, draws: seq<int>,
              ghost frameTags: set<nat>, ghost heard: multiset<nat>) returns (last': nat, ghost w': World)
    requires Distinct(tags) && |draws| == |tags|
    requires query.Some? && query.value.start ==> DrawsOk(draws, query.value.q)
    modifies reader`counter, tags
    ensures Sends(Out(old(reader.State()), ack, query), old(States(tags)), last, frameTags, heard, draws, w')
    ensures w'.r == reader.State() && w'.tags == States(tags) && w'.last == last'
  {
    if ack && last < |tags| {
      tags[last].RecvAck();
    }
    ghost var tags1 := States(tags);
    assert tags1 == if ack then Acknowledge(old(States(tags)), last) else old(States(tags));
    last' := last;
    match query
    case None =>
      w' := World(reader.State(), tags1, last, frameTags, heard);
    case Some(p) =>
      var count, l := Broadcast(tags, p, draws);
      reader.counter := reader.counter + count;
      if count > 0 {
        last' := l;
      }
      ghost var who := Repliers(tags1, p, draws);
      w' := World(reader.State(), States(tags), last', if p.start then Joiners(tags1, p) else frameTags,
                  (if p.start then multiset{} else heard) + multiset(who));
  }

  lemma QueryPositive(w: World)
    requires Going(w) && !Finished(w) && w.r.initialFrameSize >= 1
    ensures var q := Handler(w.r).query; q.Some? && q.value.start ==> q.value.q >= 1
  {
    var r, col := w.r, Tally(w.r).collisions;
    if col > 0 {
      FrameSizePositive(r.estMethod, col);
    }
  }

  /** One expiry of the reader's timer and the slot that follows. */
  method Slot(reader: RfidReader, tags: seq<RfidTag>, last: nat, raw: seq<nat>, ghost w: World)
    returns (last': nat, ghost draws: seq<int>, ghost w': World)
    requires Distinct(tags) && |raw| == |tags| && reader.initialFrameSize >= 1
    requires (reader.rsTimer || reader.colTimer) && Going(w)
    requires w.r == reader.State() && w.tags == States(tags) && w.last == last
    modifies reader, tags
    ensures Step(w, draws, w')
    ensures w'.r == reader.State() && w'.tags == States(tags) && w'.last == last'
  {
    QueryPositive(w);
    var ack, query := reader.Expire();
    var ds := Draws(raw, if query.Some? then query.value.q else 1);
    draws := ds;
    last', w' := Send(reader, tags, last, ack, query, ds, w.frameTags, w.heard);
  }

  /** w ends a run of reader r0 over the tags tags0. */
  ghost predicate Reached(r0: Reader, tags0: seq<Tag>, w: World) {
    exists draws, ws :: IsRun(r0, tags0, draws, ws) && ws[|ws| - 1] == w
  }

  lemma ReachedFirst(r0: Reader, tags0: seq<Tag>, draws: seq<int>, w: World)
    requires CanStart(r0, tags0)
    requires Sends(Ask(r0, false, true, 1, 0, false), tags0, 0, {}, multiset{}, draws, w)
    ensures Reached(r0, tags0, w)
  {
    assert IsRun(r0, tags0, [draws], [w]);
    assert [w][|[w]| - 1] == w;
  }

  lemma ReachedNext(r0: Reader, tags0: seq<Tag>, w: World, d: seq<int>, w': World)
    requires Reached(r0, tags0, w) && Step(w, d, w')
    ensures Reached(r0, tags0, w')
  {
    var draws, ws :| IsRun(r0, tags0, draws, ws) && ws[|ws| - 1] == w;
    var ds, vs := draws + [d], ws + [w'];
    forall m | 0 < m < |vs|
      ensures StepAt(ds, vs, m)
    {
      if m < |ws| {
        assert StepAt(draws, ws, m);
      }
    }
    assert IsRun(r0, tags0, ds, vs) && vs[|vs| - 1] == w';
  }

  lemma ReachedGoing(r0: Reader, tags0: seq<Tag>, w: World)
    requires Reached(r0, tags0, w)
    ensures Going(w) && |w.tags| == |tags0|
    ensures !w.r.rsTimer && !w.r.colTimer ==> Finished(w)
  {
    var draws, ws :| IsRun(r0, tags0, draws, ws) && ws[|ws| - 1] == w;
    RunGoing(r0, tags0, draws, ws, |ws| - 1);
  }

  /** The first query. */
  method Begin(reader: RfidReader, tags: seq<RfidTag>, raw: seq<nat>) returns (last: nat, ghost w: World)
    requires Distinct(tags) && |raw| == |tags| && CanStart(reader.State(), States(tags))
    modifies reader, tags
    ensures Reached(old(reader.State()), old(States(tags)), w)
    ensures w.r == reader.State() && w.tags == States(tags) && w.last == last
  {
    ghost var r0, tags0 := reader.State(), States(tags);
    var query := reader.Query(true, 1, 0, false);
    assert Out(reader.State(), false, query) == Ask(r0, false, true, 1, 0, false);
    var ds := Draws(raw, reader.qValue);
    last, w := Send(reader, tags, 0, false, query, ds, {}, multiset{});
    ReachedFirst(r0, tags0, ds, w);
  }

  /** An inventory of at most |raw| slots, plain or nested, with any random numbers: if the reader has
      stopped by then, every tag has been acknowledged and success counts them all. */
  method Inventory(reader: RfidReader, tags: seq<RfidTag>, raw: seq<seq<nat>>) returns (done: bool)
    requires Distinct(tags) && |raw| >= 1 && forall k :: 0 <= k < |raw| ==> |raw[k]| == |tags|
    requires CanStart(reader.State(), States(tags))
    modifies reader, tags
    ensures done == !(reader.rsTimer || reader.colTimer)
    ensures done ==> reader.success == |tags| && forall i :: 0 <= i < |tags| ==> tags[i].state.Acknowledged?
  {
    ghost var r0, tags0 := reader.State(), States(tags);
    var last: nat;
    ghost var w: World;
    last, w := Begin(reader, tags, raw[0]);
    var k := 1;
    while k < |raw| && (reader.rsTimer || reader.colTimer)
      invariant 1 <= k <= |raw|
      invariant Reached(r0, tags0, w)
      invariant w.r == reader.State() && w.tags == States(tags) && w.last == last
    {
      ghost var d: seq<int>, w': World;
      ReachedGoing(r0, tags0, w);
      last, d, w' := Slot(reader, tags, last, raw[k], w);
      ReachedNext(r0, tags0, w, d, w');
      w := w';
      k := k + 1;
    }
    done := !(reader.rsTimer || reader.colTimer);
    ReachedGoing(r0, tags0, w);
    if done {
      assert forall i :: 0 <= i < |tags| ==> tags[i].State() == w.tags[i];
    }
  }
}
