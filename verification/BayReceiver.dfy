/** The receiving side of BayFullTcpAgent with its reassembly queue, a doubly linked
    list that is spliced in place. */
module BayReceiver {
  import opened R = Reassembly

  lemma SearchUnique(q: seq<Seg>, s: Seg, i: nat)
    requires i <= |q| && (forall k :: 0 <= k < i ==> s.end > q[k].start) && (i < |q| ==> s.end <= q[i].start)
    ensures i == SearchPos(q, s)
  {
  }

  /** A seginfo node. */
  class SegInfo {
    const start: int
    const end: int
    const push: bool
    var prev: SegInfo?
    var next: SegInfo?

    constructor (s: Seg)
      ensures Value(this) == s && prev == null && next == null
    {
      start, end, push, prev, next := s.start, s.end, s.push, null, null;
    }
  }

  function Value(n: SegInfo): Seg {
    Seg(n.start, n.end, n.push)
  }

  ghost function Values(nodes: seq<SegInfo>): seq<Seg> {
    seq(|nodes|, i requires 0 <= i < |nodes| => Value(nodes[i]))
  }

  ghost predicate Joined(a: SegInfo, b: SegInfo)
    reads a, b
  {
    a.next == b && b.prev == a
  }

  /** Joining n between was[k] and its successor leaves the other joints as they are. */
  lemma ChainSpliced(was: seq<SegInfo>, n: SegInfo, k: nat)
    requires k < |was| && n !in was && forall i, j :: 0 <= i < j < |was| ==> was[i] != was[j]
    requires forall i :: 0 <= i < |was| - 1 && i != k ==> Joined(was[i], was[i + 1])
    requires Joined(was[k], n) && (k + 1 < |was| ==> Joined(n, was[k + 1]))
    ensures var nodes := was[..k + 1] + [n] + was[k + 1..];
            && (forall i, j :: 0 <= i < j < |nodes| ==> nodes[i] != nodes[j])
            && (forall i :: 0 <= i < |nodes| - 1 ==> Joined(nodes[i], nodes[i + 1]))
  {
    var nodes := was[..k + 1] + [n] + was[k + 1..];
    forall i | 0 <= i < |nodes| - 1
      ensures Joined(nodes[i], nodes[i + 1])
    {
      if i > k + 1 {
        assert Joined(was[i - 1], was[i - 1 + 1]);
      } else if i < k {
        assert Joined(was[i], was[i + 1]);
      }
    }
  }

  class Receiver {
    var rcvNxt: int
    var head: SegInfo?
    var tail: SegInfo?
    ghost var nodes: seq<SegInfo>

    /** head_, tail_, next_ and prev_ spell out nodes. */
    ghost predicate Valid()
      reads this, nodes
    {
      && (forall i, j :: 0 <= i < j < |nodes| ==> nodes[i] != nodes[j])
      && (nodes == [] ==> head == null && tail == null)
      && (nodes != [] ==> head == nodes[0] && tail == nodes[|nodes| - 1] && head.prev == null && tail.next == null)
      && (forall i :: 0 <= i < |nodes| - 1 ==> Joined(nodes[i], nodes[i + 1]))
    }

    ghost function Queue(): seq<Seg>
      reads this
    {
      Values(nodes)
    }

    ghost function State(): Rx
      reads this
    {
      Rx(rcvNxt, Queue())
    }

    constructor (nxt: int)
      ensures Valid() && State() == Rx(nxt, [])
    {
      rcvNxt, head, tail, nodes := nxt, null, null, [];
    }

    /** Walks the whole list, as the original does to free it. */
    method Clear()
      requires Valid()
      modifies this
      ensures Valid() && Queue() == [] && rcvNxt == old(rcvNxt)
    {
      var p := head;
      ghost var k := 0;
      while p != null
        invariant 0 <= k <= |nodes| && Valid() && nodes == old(nodes) && rcvNxt == old(rcvNxt)
        invariant if k < |nodes| then p == nodes[k] else p == null
        decreases |nodes| - k
      {
        p := p.next;
        k := k + 1;
      }
      head, tail, nodes := null, null, [];
    }

    method InsertHead(n: SegInfo)
      requires Valid() && nodes != [] && n !in nodes
      modifies this, nodes, n
      ensures Valid() && nodes == [n] + old(nodes) && rcvNxt == old(rcvNxt)
    {
      n.next := head;
      n.prev := null;
      head.prev := n;
      head := n;
      nodes := [n] + nodes;
    }

    /** In the middle or at the end, behind p. */
    method InsertAfter(n: SegInfo, p: SegInfo, ghost k: nat)
      requires Valid() && n !in nodes && k < |nodes| && p == nodes[k]
      modifies this, nodes, n
      ensures Valid() && nodes == old(nodes)[..k + 1] + [n] + old(nodes)[k + 1..] && rcvNxt == old(rcvNxt)
    {
      ghost var was := nodes;
      n.next := p.next;
      if p.next != null {
        assert p.next == was[k + 1];
        p.next.prev := n;
      }
      p.next := n;
      n.prev := p;
      if p == tail {
        tail := n;
      }
      ChainSpliced(was, n, k);
      nodes := was[..k + 1] + [n] + was[k + 1..];
    }

    /** The search from the head: the first node that begins after s ends. */
    method Search(s: Seg) returns (q: SegInfo?, ghost k: nat)
      requires Valid()
      ensures k == SearchPos(Queue(), s)
      ensures q == if SearchPos(Queue(), s) < |nodes| then nodes[SearchPos(Queue(), s)] else null
    {
      q, k := head, 0;
      while q != null && s.end > q.start
        invariant 0 <= k <= |nodes|
        invariant if k < |nodes| then q == nodes[k] else q == null
        invariant forall i :: 0 <= i < k ==> s.end > Queue()[i].start
        decreases |nodes| - k
      {
        q := q.next;
        k := k + 1;
      }
      SearchUnique(Queue(), s, k);
    }

    /** The node to insert behind, null for the head of the list. */
    method Locate(s: Seg) returns (p: SegInfo?, ghost k: nat)
      requires Valid() && nodes != []
      ensures k == InsertPos(Queue(), s)
      ensures p == if InsertPos(Queue(), s) == 0 then null else nodes[InsertPos(Queue(), s) - 1]
    {
      if tail.end <= s.start {
        p, k := tail, |nodes|;
      } else {
        var q: SegInfo?;
        q, k := Search(s);
        assert 0 < k < |nodes| ==> Joined(nodes[k - 1], nodes[k - 1 + 1]);
        p := if q == null then tail else q.prev;
      }
    }

    method Place(n: SegInfo, p: SegInfo?, ghost k: nat)
      requires Valid() && nodes != [] && n !in nodes && k <= |nodes|
      requires if k == 0 then p == null else p == nodes[k - 1]
      modifies this, nodes, n
      ensures Valid() && nodes == old(nodes)[..k] + [n] + old(nodes)[k..] && rcvNxt == old(rcvNxt)
    {
      if p == null {
        InsertHead(n);
      } else {
        InsertAfter(n, p, k - 1);
      }
    }

    method Splice(s: Seg)
      requires Valid()
      modifies this, nodes
      ensures Valid() && Queue() == Insert(old(Queue()), s) && rcvNxt == old(rcvNxt)
      ensures forall i :: 0 <= i < |nodes| ==> nodes[i] in old(nodes) || fresh(nodes[i])
    {
      var n := new SegInfo(s);
      if head == null {
        head, tail, nodes := n, n, [n];
      } else {
        SpliceInto(n, s);
      }
    }

    method SpliceInto(n: SegInfo, s: Seg)
      requires Valid() && nodes != [] && n !in nodes && Value(n) == s
      modifies this, nodes, n
      ensures Valid() && Queue() == Insert(old(Queue()), s) && rcvNxt == old(rcvNxt)
      ensures forall i :: 0 <= i < |nodes| ==> nodes[i] in old(nodes) || nodes[i] == n
    {
      var p: SegInfo?;
      ghost var k: nat;
      p, k := Locate(s);
      ValuesInsert(nodes, n, s, k);
      Place(n, p, k);
    }

    /** Takes the first node off the list. */
    method DropHead()
      requires Valid() && nodes != []
      modifies this, nodes
      ensures Valid() && nodes == old(nodes)[1..] && rcvNxt == old(rcvNxt)
    {
      var q := head;
      head := q.next;
      if q.next != null {
        assert q.next == nodes[1];
        q.next.prev := q.prev;
      } else {
        tail := q.prev;
      }
      nodes := nodes[1..];
    }

    method Add(s: Seg) returns (push: bool)
      requires Valid()
      modifies this, nodes
      ensures Valid() && State() == R.Add(old(State()), s)
      ensures push == AddPushes(old(State()), s)
      ensures forall i :: 0 <= i < |nodes| ==> nodes[i] in old(nodes) || fresh(nodes[i])
    {
      Splice(s);
      push := false;
      if head.start > rcvNxt {
        return;
      }
      push := DrainAll();
    }

    /** Delivers from the head up to the first gap. */
    method DrainAll() returns (push: bool)
      requires Valid() && nodes != []
      modifies this, nodes
      ensures Valid() && State() == Drain(old(Queue())) && push == DrainPush(old(Queue()))
      ensures forall i :: 0 <= i < |nodes| ==> nodes[i] in old(nodes)
    {
      ghost var q0, d := Queue(), 0;
      push := false;
      var more := true;
      while more && head != null
        invariant Valid() && 0 <= d <= |old(nodes)| && nodes == old(nodes)[d..]
        invariant more && nodes != [] ==> Drain(Queue()) == Drain(q0) && DrainPush(q0) == (push || DrainPush(Queue()))
        invariant !(more && nodes != []) ==> State() == Drain(q0) && push == DrainPush(q0)
        decreases |nodes|
      {
        rcvNxt := head.end;
        push := push || head.push;
        more := !(head.next != null && head.end < head.next.start);
        assert Queue()[0] == Value(head) && Queue()[1..] == Values(nodes[1..]);
        assert |nodes| > 1 ==> head.next == nodes[1];
        DropHead();
        d := d + 1;
      }
    }

    /** The data path of recv for a segment of at least one byte; upcall: the application is told. */
    method RecvData(s: Seg) returns (upcall: bool)
      requires Valid() && s.start < s.end
      modifies this, nodes
      ensures Valid() && State() == R.Recv(old(State()), s) && upcall == Pushes(old(State()), s)
      ensures forall i :: 0 <= i < |nodes| ==> nodes[i] in old(nodes) || fresh(nodes[i])
    {
      upcall := false;
      assert head == null <==> Queue() == [];
      var seqno, datalen := s.start, s.end - s.start;
      var todrop := rcvNxt - seqno;
      if todrop > 0 {
        if todrop >= datalen {
          todrop := datalen;
        }
        seqno := seqno + todrop;
        datalen := datalen - todrop;
      }
      if datalen > 0 {
        if seqno == rcvNxt && head == null {
          rcvNxt := rcvNxt + datalen;
          upcall := s.push;
        } else {
          upcall := Add(Seg(seqno, seqno + (s.end - s.start), s.push));
        }
      }
    }

    /** One arrival among segments that are pairwise identical or disjoint: rcv_nxt_ stays the
        first byte missing. */
    method Receive(ghost base: int, ghost arrived: seq<Seg>, s: Seg) returns (upcall: bool)
      requires Valid() && RxInv(base, arrived, State()) && Clean(base, arrived + [s])
      modifies this, nodes
      ensures Valid() && RxInv(base, arrived + [s], State()) && old(rcvNxt) <= rcvNxt
      ensures upcall <==> exists x :: x in old(Queue()) + [s] && x.push && old(rcvNxt) < x.end <= rcvNxt
      ensures forall i :: 0 <= i < |nodes| ==> nodes[i] in old(nodes) || fresh(nodes[i])
    {
      assert (arrived + [s])[|arrived|] == s;
      RecvKeeps(base, arrived, State(), s);
      PushesMeans(base, arrived, State(), s);
      upcall := RecvData(s);
    }
  }

  lemma ValuesInsert(nodes: seq<SegInfo>, n: SegInfo, s: Seg, k: nat)
    requires Value(n) == s && k == InsertPos(Values(nodes), s)
    ensures Values(nodes[..k] + [n] + nodes[k..]) == Insert(Values(nodes), s)
  {
    var q := Values(nodes);
    assert Values(nodes[..k] + [n] + nodes[k..]) == q[..k] + [s] + q[k..];
  }
}
