/** The AODV send buffer: a singly linked queue with head, tail and length, refining a sequence
    of packets with deadlines. */
module PacketBuffer {

  const AODV_RTQ_MAX_LEN: nat := 64
  const AODV_RTQ_TIMEOUT: real := 30.0

  class Packet {
    const dst: nat
    var ts: real
    var next: Packet?

    constructor (dst: nat)
      ensures this.dst == dst
    {
      this.dst, ts, next := dst, 0.0, null;
    }
  }

  // ----- the sequence it refines -----

  /** A queued packet with its destination and deadline. */
  datatype Item<P> = Item(p: P, dst: nat, ts: real)

  predicate Aged<P>(x: Item<P>, now: real) {
    x.ts < now
  }

  /** What purge leaves: every packet that has not timed out, in order. */
  function Live<P>(s: seq<Item<P>>, now: real): seq<Item<P>> {
    if s == [] then []
    else if Aged(s[0], now) then Live(s[1..], now)
    else [s[0]] + Live(s[1..], now)
  }

  /** The head-only purge that stands commented out in the source. */
  function PurgeHead<P>(s: seq<Item<P>>, now: real): seq<Item<P>> {
    if s != [] && Aged(s[0], now) then PurgeHead(s[1..], now) else s
  }

  function Without<P>(s: seq<Item<P>>, k: nat): seq<Item<P>>
    requires k < |s|
  {
    s[..k] + s[k + 1..]
  }

  /** The position of the first packet for dst, or the length. */
  function FirstFor<P>(s: seq<Item<P>>, dst: nat): (k: nat)
    ensures k <= |s|
    ensures k < |s| ==> s[k].dst == dst
    ensures forall i :: 0 <= i < k ==> s[i].dst != dst
  {
    if s == [] || s[0].dst == dst then 0 else 1 + FirstFor(s[1..], dst)
  }

  /** enque: purge, drop the head of a full queue, append with a new deadline. */
  function Enqueued<P>(s: seq<Item<P>>, p: P, dst: nat, now: real): seq<Item<P>> {
    var q := Live(s, now);
    var q1 := if |q| == AODV_RTQ_MAX_LEN then q[1..] else q;
    q1 + [Item(p, dst, now + AODV_RTQ_TIMEOUT)]
  }

  function DequeuedFor<P>(s: seq<Item<P>>, dst: nat, now: real): seq<Item<P>> {
    var q := Live(s, now);
    var k := FirstFor(q, dst);
    if k < |q| then Without(q, k) else q
  }

  predicate DeadlinesSorted<P>(s: seq<Item<P>>) {
    forall i, j :: 0 <= i < j < |s| ==> s[i].ts <= s[j].ts
  }

  // ----- properties of the sequence -----

  lemma {:induction false} LiveSkips<P>(s: seq<Item<P>>, now: real, k: nat)
    requires k < |s| && Aged(s[k], now)
    ensures Live(Without(s, k), now) == Live(s, now)
  {
    if k == 0 {
      assert Without(s, k) == s[1..];
    } else {
      assert Without(s, k)[1..] == Without(s[1..], k - 1);
      LiveSkips(s[1..], now, k - 1);
    }
  }

  lemma {:induction false} LiveAll<P>(s: seq<Item<P>>, now: real)
    requires forall i :: 0 <= i < |s| ==> !Aged(s[i], now)
    ensures Live(s, now) == s
  {
    if s != [] {
      LiveAll(s[1..], now);
    }
  }

  /** Exactly the packets still alive survive. */
  lemma {:induction false} LiveMembers<P>(s: seq<Item<P>>, now: real, x: Item<P>)
    ensures x in Live(s, now) <==> x in s && !Aged(x, now)
  {
    if s != [] {
      LiveMembers(s[1..], now, x);
      assert x in s <==> x == s[0] || x in s[1..];
    }
  }

  /** With deadlines in order, purging anywhere is purging at the head: what survives is a suffix
      of the queue and equals the commented-out purge. */
  lemma {:induction false} PurgeIsPrefix<P>(s: seq<Item<P>>, now: real)
    requires DeadlinesSorted(s)
    ensures Live(s, now) == PurgeHead(s, now)
    ensures |Live(s, now)| <= |s| && Live(s, now) == s[|s| - |Live(s, now)|..]
  {
    if s != [] {
      if Aged(s[0], now) {
        PurgeIsPrefix(s[1..], now);
      } else {
        LiveAll(s, now);
      }
    }
  }

  /** enque keeps deadlines in order and the length within the limit, as long as the clock does
      not run backwards. */
  lemma EnqueueKeeps<P>(s: seq<Item<P>>, p: P, dst: nat, now: real)
    requires DeadlinesSorted(s) && |s| <= AODV_RTQ_MAX_LEN
    requires forall i :: 0 <= i < |s| ==> s[i].ts <= now + AODV_RTQ_TIMEOUT
    ensures var s' := Enqueued(s, p, dst, now);
            && DeadlinesSorted(s') && 1 <= |s'| <= AODV_RTQ_MAX_LEN
            && (forall i :: 0 <= i < |s'| ==> s'[i].ts <= now + AODV_RTQ_TIMEOUT)
  {
    PurgeIsPrefix(s, now);
  }

  /** The new packet goes last, good for 30 seconds; of those still alive all stay, in order, except
      that a full buffer of 64 gives up its oldest. */
  lemma EnqueueAppends<P>(s: seq<Item<P>>, p: P, dst: nat, now: real)
    requires |s| <= AODV_RTQ_MAX_LEN
    ensures var q, s' := Live(s, now), Enqueued(s, p, dst, now);
            && |s'| >= 1 && s'[|s'| - 1] == Item(p, dst, now + 30.0)
            && s'[..|s'| - 1] == (if |q| == 64 then q[1..] else q)
            && forall x :: x in s && x.ts >= now ==> x in s' || (|q| == 64 && x == q[0])
  {
    var q, s' := Live(s, now), Enqueued(s, p, dst, now);
    forall x | x in s && x.ts >= now
      ensures x in s' || (|q| == 64 && x == q[0])
    {
      LiveMembers(s, now, x);
      assert q != [] ==> q == [q[0]] + q[1..];
    }
  }

  lemma WithoutKeeps<P>(s: seq<Item<P>>, k: nat)
    requires k < |s|
    ensures forall x :: x in Without(s, k) ==> x in s
    ensures DeadlinesSorted(s) ==> DeadlinesSorted(Without(s, k))
  {
    assert forall i :: 0 <= i < |Without(s, k)| ==> Without(s, k)[i] == s[if i < k then i else i + 1];
  }

  lemma DequeueKeeps<P>(s: seq<Item<P>>, dst: nat, now: real)
    requires DeadlinesSorted(s)
    ensures DeadlinesSorted(DequeuedFor(s, dst, now)) && |DequeuedFor(s, dst, now)| <= |s|
    ensures forall x :: x in DequeuedFor(s, dst, now) ==> x in s
  {
    PurgeIsPrefix(s, now);
    var q := Live(s, now);
    if FirstFor(q, dst) < |q| {
      WithoutKeeps(q, FirstFor(q, dst));
    }
  }

  lemma FirstIsEarliest<P>(q: seq<Item<P>>, dst: nat, x: Item<P>)
    requires DeadlinesSorted(q) && x in q && x.dst == dst
    ensures FirstFor(q, dst) < |q| && q[FirstFor(q, dst)].dst == dst && q[FirstFor(q, dst)].ts <= x.ts
  {
    var i :| 0 <= i < |q| && q[i] == x;
    assert FirstFor(q, dst) <= i;
  }

  lemma LiveSorted<P>(s: seq<Item<P>>, now: real)
    requires DeadlinesSorted(s)
    ensures DeadlinesSorted(Live(s, now))
  {
    PurgeIsPrefix(s, now);
  }

  /** While a packet for dst is alive, deque(dst) takes the one whose deadline is the earliest of
      those; the rest keep their order. */
  lemma DequeueOldest<P>(s: seq<Item<P>>, dst: nat, now: real, x: Item<P>)
    requires DeadlinesSorted(s) && x in s && x.dst == dst && !Aged(x, now)
    ensures var q := Live(s, now);
            var k := FirstFor(q, dst);
            k < |q| && q[k].dst == dst && q[k].ts <= x.ts && q[k] in s && DequeuedFor(s, dst, now) == Without(q, k)
  {
    var q := Live(s, now);
    var k := FirstFor(q, dst);
    LiveMembers(s, now, x);
    LiveSorted(s, now);
    FirstIsEarliest(q, dst, x);
    LiveMembers(s, now, q[k]);
  }

  /** When none is alive it takes nothing. */
  lemma DequeueNone<P>(s: seq<Item<P>>, dst: nat, now: real)
    requires forall x :: x in s && x.dst == dst ==> Aged(x, now)
    ensures FirstFor(Live(s, now), dst) == |Live(s, now)|
  {
    var q := Live(s, now);
    if FirstFor(q, dst) < |q| {
      LiveMembers(s, now, q[FirstFor(q, dst)]);
    }
  }

  // ----- whole runs -----

  datatype Op = Enque(p: nat, dst: nat) | DequeFor(dst: nat) | Deque

  function Apply(s: seq<Item<nat>>, op: Op, now: real): seq<Item<nat>> {
    match op
    case Enque(p, dst) => Enqueued(s, p, dst, now)
    case DequeFor(dst) => DequeuedFor(s, dst, now)
    case Deque => var q := Live(s, now); if q == [] then q else q[1..]
  }

  function RunOps(ops: seq<Op>, times: seq<real>): seq<Item<nat>>
    requires |ops| == |times|
  {
    if ops == [] then []
    else var n := |ops| - 1; Apply(RunOps(ops[..n], times[..n]), ops[n], times[n])
  }

  lemma OpKeeps(s: seq<Item<nat>>, op: Op, now: real)
    requires DeadlinesSorted(s) && |s| <= AODV_RTQ_MAX_LEN
    requires forall i :: 0 <= i < |s| ==> s[i].ts <= now + AODV_RTQ_TIMEOUT
    ensures var s' := Apply(s, op, now);
            && DeadlinesSorted(s') && |s'| <= AODV_RTQ_MAX_LEN
            && forall i :: 0 <= i < |s'| ==> s'[i].ts <= now + AODV_RTQ_TIMEOUT
  {
    match op {
      case Enque(p, dst) => EnqueueKeeps(s, p, dst, now);
      case DequeFor(dst) => DequeueKeeps(s, dst, now); Bounded(s, DequeuedFor(s, dst, now), now + AODV_RTQ_TIMEOUT);
      case Deque => DequeKeeps(s, now); Bounded(s, Apply(s, op, now), now + AODV_RTQ_TIMEOUT);
    }
  }

  lemma DequeKeeps(s: seq<Item<nat>>, now: real)
    requires DeadlinesSorted(s)
    ensures var s' := Apply(s, Deque, now);
            DeadlinesSorted(s') && |s'| <= |s| && forall x :: x in s' ==> x in s
  {
    PurgeIsPrefix(s, now);
  }

  lemma Bounded(s: seq<Item<nat>>, s': seq<Item<nat>>, t: real)
    requires (forall i :: 0 <= i < |s| ==> s[i].ts <= t) && forall x :: x in s' ==> x in s
    ensures forall i :: 0 <= i < |s'| ==> s'[i].ts <= t
  {
    assert forall i :: 0 <= i < |s'| ==> s'[i] in s;
  }

  /** Under a clock that never runs backwards the buffer always has its deadlines in order and at
      most AODV_RTQ_MAX_LEN packets, so every purge in every run takes exactly a prefix. */
  lemma {:induction false} RunKeepsOrder(ops: seq<Op>, times: seq<real>)
    requires |ops| == |times| && forall i, j :: 0 <= i < j < |times| ==> times[i] <= times[j]
    ensures var s := RunOps(ops, times);
            && DeadlinesSorted(s) && |s| <= AODV_RTQ_MAX_LEN
            && (ops != [] ==> forall i :: 0 <= i < |s| ==> s[i].ts <= times[|times| - 1] + AODV_RTQ_TIMEOUT)
            && (forall now :: Live(s, now) == PurgeHead(s, now))
  {
    if ops != [] {
      var n := |ops| - 1;
      var s, now := RunOps(ops[..n], times[..n]), times[n];
      RunKeepsOrder(ops[..n], times[..n]);
      if n > 0 {
        assert times[n - 1] <= times[n];
      }
      OpKeeps(s, ops[n], now);
    }
    forall now { PurgeIsPrefix(RunOps(ops, times), now); }
  }

  // ----- the linked queue -----

  class RQueue {
    var head: Packet?
    var tail: Packet?
    var len: int
    ghost var items: seq<Item<Packet>>

    ghost function Nodes(): set<Packet>
      reads this
    {
      set x | x in items :: x.p
    }

    /** The links spell out items: in order, each packet once, ending at tail. */
    ghost predicate Valid()
      reads this, Nodes()
    {
      && len == |items|
      && (forall i, j :: 0 <= i < j < |items| ==> items[i].p != items[j].p)
      && (forall i :: 0 <= i < |items| ==> items[i].dst == items[i].p.dst && items[i].ts == items[i].p.ts)
      && (items == [] ==> head == null && tail == null)
      && (items != [] ==> head == items[0].p && tail == items[|items| - 1].p && tail.next == null)
      && (forall i :: 0 <= i < |items| - 1 ==> items[i].p.next == items[i + 1].p)
    }

    constructor ()
      ensures Valid() && items == []
    {
      head, tail, len, items := null, null, 0, [];
    }

    method RemoveHead() returns (p: Packet?)
      requires Valid()
      modifies this
      ensures Valid() && Nodes() <= old(Nodes())
      ensures old(items) == [] ==> p == null && items == []
      ensures old(items) != [] ==> p == old(items)[0].p && items == old(items)[1..]
    {
      p := head;
      if head == tail {
        head, tail := null, null;
      } else {
        head := head.next;
      }
      if p != null {
        len := len - 1;
        items := items[1..];
      }
    }

    /** The unlinking shared by deque(dst) and purge. */
    method Unlink(p: Packet, prev: Packet?, ghost k: nat)
      requires Valid() && k < |items| && items[k].p == p
      requires if k == 0 then prev == null else prev == items[k - 1].p
      modifies this, Nodes()`next
      ensures Valid() && items == Without(old(items), k) && Nodes() <= old(Nodes())
    {
      WithoutKeeps(items, k);
      if p == head {
        assert k == 0;
        var q := RemoveHead();
        assert items == Without(old(items), k);
      } else {
        assert k > 0;
        if p == tail {
          assert k == |items| - 1;
          prev.next := null;
          tail := prev;
        } else {
          assert p.next == items[k + 1].p;
          prev.next := p.next;
        }
        len := len - 1;
        items := Without(items, k);
      }
    }

    method FindPacketWithDst(dst: nat) returns (p: Packet?, prev: Packet?, ghost k: nat)
      requires Valid()
      ensures k == FirstFor(items, dst)
      ensures p == if FirstFor(items, dst) < |items| then items[FirstFor(items, dst)].p else null
      ensures prev == if FirstFor(items, dst) == 0 then null else items[FirstFor(items, dst) - 1].p
    {
      p, prev, k := head, null, 0;
      while p != null
        invariant 0 <= k <= |items|
        invariant if k < |items| then p == items[k].p else p == null
        invariant if k == 0 then prev == null else prev == items[k - 1].p
        invariant forall i :: 0 <= i < k ==> items[i].dst != dst
        decreases |items| - k
      {
        if p.dst == dst {
          return;
        }
        prev := p;
        p := p.next;
        k := k + 1;
      }
    }

    method FindAgedPacket(now: real) returns (found: bool, p: Packet?, prev: Packet?, ghost k: nat)
      requires Valid()
      ensures found ==> k < |items| && p == items[k].p && Aged(items[k], now)
                        && (if k == 0 then prev == null else prev == items[k - 1].p)
      ensures !found ==> forall i :: 0 <= i < |items| ==> !Aged(items[i], now)
    {
      p, prev, k := head, null, 0;
      while p != null
        invariant 0 <= k <= |items|
        invariant if k < |items| then p == items[k].p else p == null
        invariant if k == 0 then prev == null else prev == items[k - 1].p
        invariant forall i :: 0 <= i < k ==> !Aged(items[i], now)
        decreases |items| - k
      {
        if p.ts < now {
          found := true;
          return;
        }
        prev := p;
        p := p.next;
        k := k + 1;
      }
      found := false;
    }

    method Purge(now: real)
      requires Valid()
      modifies this, Nodes()`next
      ensures Valid() && items == Live(old(items), now) && Nodes() <= old(Nodes())
    {
      var found: bool, p: Packet?, prev: Packet?;
      ghost var k: nat;
      found, p, prev, k := FindAgedPacket(now);
      while found
        invariant Valid() && Live(items, now) == Live(old(items), now) && Nodes() <= old(Nodes())
        invariant found ==> k < |items| && p == items[k].p && Aged(items[k], now)
                            && (if k == 0 then prev == null else prev == items[k - 1].p)
        invariant !found ==> forall i :: 0 <= i < |items| ==> !Aged(items[i], now)
        decreases |items|
      {
        LiveSkips(items, now, k);
        Unlink(p, prev, k);
        found, p, prev, k := FindAgedPacket(now);
      }
      LiveAll(items, now);
    }

    method Enque(p: Packet, now: real)
      requires Valid() && |items| <= AODV_RTQ_MAX_LEN && p !in Nodes()
      modifies this, Nodes(), p
      ensures Valid() && items == Enqueued(old(items), p, p.dst, now)
    {
      Purge(now);
      p.next := null;
      p.ts := now + AODV_RTQ_TIMEOUT;
      if len == AODV_RTQ_MAX_LEN {
        var p0 := RemoveHead();
        assert p0 != null;
      }
      Append(p);
    }

    method Append(p: Packet)
      requires Valid() && p !in Nodes() && p.next == null
      modifies this, Nodes()`next
      ensures Valid() && items == old(items) + [Item(p, p.dst, p.ts)]
    {
      assert forall i :: 0 <= i < |items| ==> items[i] in items;
      if head == null {
        head, tail := p, p;
      } else {
        tail.next := p;
        tail := p;
      }
      len := len + 1;
      items := items + [Item(p, p.dst, p.ts)];
    }

    method Deque(now: real) returns (p: Packet?)
      requires Valid()
      modifies this, Nodes()`next
      ensures Valid()
      ensures var q := Live(old(items), now);
              if q == [] then p == null && items == [] else p == q[0].p && items == q[1..]
    {
      Purge(now);
      p := RemoveHead();
    }

    method DequeFor(dst: nat, now: real) returns (p: Packet?)
      requires Valid()
      modifies this, Nodes()`next
      ensures Valid() && items == DequeuedFor(old(items), dst, now)
      ensures var q := Live(old(items), now);
              var k := FirstFor(q, dst);
              if k < |q| then p == q[k].p else p == null
    {
      Purge(now);
      var prev: Packet?;
      ghost var k: nat;
      p, prev, k := FindPacketWithDst(dst);
      if p != null {
        Unlink(p, prev, k);
      }
    }

    /** verifyQueue: its asserts hold. */
    method VerifyQueue()
      requires Valid()
    {
      var p, prev: Packet?, cnt := head, null, 0;
      while p != null
        invariant 0 <= cnt <= |items|
        invariant if cnt < |items| then p == items[cnt].p else p == null
        invariant if cnt == 0 then prev == null else prev == items[cnt - 1].p
        decreases |items| - cnt
      {
        cnt := cnt + 1;
        prev := p;
        p := p.next;
      }
      assert cnt == len;
      assert prev == tail;
    }
  }
}
