/** BayFullTcp's receive path for data: duplicate trimming, the in-order fast path and the
    reassembly queue, against the set of bytes received. */
module Reassembly {

  /** A data segment: bytes start up to but not including end. push: TH_PUSH is set. */
  datatype Seg = Seg(start: int, end: int, push: bool)

  /** rcv_nxt_ and the reassembly queue in list order. */
  datatype Rx = Rx(nxt: int, q: seq<Seg>)

  predicate SameRange(a: Seg, b: Seg) {
    a.start == b.start && a.end == b.end
  }

  // ----- the operations -----

  /** Where the search from the head stops: the first segment that begins after s ends. */
  function SearchPos(q: seq<Seg>, s: Seg): (i: nat)
    ensures i <= |q|
    ensures forall k :: 0 <= k < i ==> s.end > q[k].start
    ensures i < |q| ==> s.end <= q[i].start
  {
    if q == [] || s.end <= q[0].start then 0 else 1 + SearchPos(q[1..], s)
  }

  function InsertPos(q: seq<Seg>, s: Seg): (i: nat)
    ensures i <= |q|
  {
    if q != [] && q[|q| - 1].end <= s.start then |q| else SearchPos(q, s)
  }

  function Insert(q: seq<Seg>, s: Seg): seq<Seg> {
    var i := InsertPos(q, s);
    q[..i] + [s] + q[i..]
  }

  /** Taking segments off the head until the first gap: the new rcv_nxt_ and what stays queued. */
  function Drain(q: seq<Seg>): Rx
    requires q != []
  {
    if |q| == 1 || q[0].end < q[1].start then Rx(q[0].end, q[1..]) else Drain(q[1..])
  }

  /** BayReassemblyQueue::add. */
  function Add(rx: Rx, s: Seg): Rx {
    var q := Insert(rx.q, s);
    if q[0].start > rx.nxt then Rx(rx.nxt, q) else Drain(q)
  }

  /** The data path of recv. A segment that straddles rcv_nxt_ has its sequence number moved up
      but, on its way into the queue, keeps its full length. */
  function Recv(rx: Rx, s: Seg): Rx {
    var todrop := rx.nxt - s.start;
    var len := s.end - s.start;
    if todrop >= len && todrop > 0 then rx
    else if todrop > 0 then
      if rx.q == [] then Rx(rx.nxt + (len - todrop), [])
      else Add(rx, Seg(rx.nxt, rx.nxt + len, s.push))
    else if s.start == rx.nxt && rx.q == [] then Rx(rx.nxt + len, [])
    else Add(rx, s)
  }

  /** All arrivals in order, from an empty queue expecting byte base. */
  function RecvAll(base: int, arrived: seq<Seg>): Rx {
    if arrived == [] then Rx(base, [])
    else Recv(RecvAll(base, arrived[..|arrived| - 1]), arrived[|arrived| - 1])
  }

  // ----- the reference: bytes -----

  ghost predicate Got(arrived: seq<Seg>, b: int) {
    exists i :: 0 <= i < |arrived| && arrived[i].start <= b < arrived[i].end
  }

  ghost predicate FirstMissing(base: int, arrived: seq<Seg>, n: int) {
    base <= n && !Got(arrived, n) && forall b :: base <= b < n ==> Got(arrived, b)
  }

  /** Non-empty segments, any two identical or disjoint, none straddling the first byte. */
  predicate Clean(base: int, arrived: seq<Seg>) {
    && (forall i :: 0 <= i < |arrived| ==> arrived[i].start < arrived[i].end)
    && (forall i :: 0 <= i < |arrived| ==> arrived[i].end <= base || base <= arrived[i].start)
    && (forall i, j :: 0 <= i < |arrived| && 0 <= j < |arrived| ==> Apart(arrived[i], arrived[j]))
  }

  predicate Apart(a: Seg, b: Seg) {
    SameRange(a, b) || a.end <= b.start || b.end <= a.start
  }

  /** Queue order: non-empty segments, each wholly before the next or covering the same range. */
  predicate Ordered(q: seq<Seg>) {
    && (forall i :: 0 <= i < |q| ==> q[i].start < q[i].end)
    && (forall i, j :: 0 <= i < j < |q| ==> q[i].end <= q[j].start || SameRange(q[i], q[j]))
  }

  // ----- the queue operations -----

  /** The position found separates what lies before s (or repeats it) from what lies after. */
  lemma InsertSeparates(q: seq<Seg>, s: Seg)
    requires Ordered(q) && s.start < s.end
    requires forall i :: 0 <= i < |q| ==> Apart(q[i], s)
    ensures forall i :: 0 <= i < InsertPos(q, s) ==> q[i].end <= s.start || SameRange(q[i], s)
    ensures forall i :: InsertPos(q, s) <= i < |q| ==> s.end <= q[i].start
  {
    var p := InsertPos(q, s);
    forall i | 0 <= i < p
      ensures q[i].end <= s.start || SameRange(q[i], s)
    {
      if p == |q| && q[|q| - 1].end <= s.start && i < |q| - 1 {
        assert q[i].end <= q[|q| - 1].start || SameRange(q[i], q[|q| - 1]);
      }
    }
    forall i | p <= i < |q|
      ensures s.end <= q[i].start
    {
      if i > p {
        assert q[p].end <= q[i].start || SameRange(q[p], q[i]);
      }
    }
  }

  lemma SpliceOrdered(q: seq<Seg>, s: Seg, p: nat)
    requires Ordered(q) && s.start < s.end && p <= |q|
    requires forall i :: 0 <= i < p ==> q[i].end <= s.start || SameRange(q[i], s)
    requires forall i :: p <= i < |q| ==> s.end <= q[i].start
    ensures Ordered(q[..p] + [s] + q[p..])
  {
    var q' := q[..p] + [s] + q[p..];
    assert forall i :: 0 <= i < |q'| ==> q'[i] == if i < p then q[i] else if i == p then s else q[i - 1];
  }

  lemma InsertOrdered(q: seq<Seg>, s: Seg)
    requires Ordered(q) && s.start < s.end
    requires forall i :: 0 <= i < |q| ==> Apart(q[i], s)
    ensures Ordered(Insert(q, s))
  {
    InsertSeparates(q, s);
    SpliceOrdered(q, s, InsertPos(q, s));
  }

  lemma InsertMembers(q: seq<Seg>, s: Seg)
    ensures Insert(q, s) != []
    ensures forall x :: x in Insert(q, s) <==> x in q || x == s
  {
    var p := InsertPos(q, s);
    assert q == q[..p] + q[p..];
  }

  lemma InsertBytes(q: seq<Seg>, s: Seg, b: int)
    ensures Got(Insert(q, s), b) <==> Got(q, b) || s.start <= b < s.end
  {
    var p, q' := InsertPos(q, s), Insert(q, s);
    if Got(q, b) {
      var i :| 0 <= i < |q| && q[i].start <= b < q[i].end;
      assert q'[if i < p then i else i + 1] == q[i];
    }
    if s.start <= b < s.end {
      assert q'[p] == s;
    }
    if Got(q', b) {
      var i :| 0 <= i < |q'| && q'[i].start <= b < q'[i].end;
      assert q'[i] == if i < p then q[i] else if i == p then s else q[i - 1];
    }
  }

  lemma GotSplit(q: seq<Seg>, b: int)
    requires q != []
    ensures Got(q, b) <==> q[0].start <= b < q[0].end || Got(q[1..], b)
  {
    if Got(q, b) {
      var i :| 0 <= i < |q| && q[i].start <= b < q[i].end;
      if i > 0 {
        assert q[1..][i - 1] == q[i];
      }
    }
  }

  /** Draining stops at the first gap and loses no byte. */
  lemma {:induction false} DrainGap(q: seq<Seg>)
    requires q != [] && Ordered(q)
    ensures var rx := Drain(q);
            && rx.nxt >= q[0].end && Ordered(rx.q)
            && (forall i :: 0 <= i < |rx.q| ==> rx.nxt < rx.q[i].start && rx.q[i] in q)
            && (forall b :: q[0].start <= b ==> (Got(q, b) <==> b < rx.nxt || Got(rx.q, b)))
  {
    var rx := Drain(q);
    if |q| == 1 || q[0].end < q[1].start {
      forall i | 0 <= i < |rx.q|
        ensures rx.nxt < rx.q[i].start
      {
        if i > 0 {
          assert q[1].end <= q[i + 1].start || SameRange(q[1], q[i + 1]);
        }
      }
    } else {
      assert q[0].end <= q[1].start || SameRange(q[0], q[1]);
      DrainGap(q[1..]);
    }
    forall b | q[0].start <= b
      ensures Got(q, b) <==> b < rx.nxt || Got(rx.q, b)
    {
      GotSplit(q, b);
    }
  }

  // ----- what every arrival keeps -----

  predicate Known(arrived: seq<Seg>, x: Seg) {
    exists k :: 0 <= k < |arrived| && SameRange(x, arrived[k])
  }

  lemma KnownSnoc(arrived: seq<Seg>, s: Seg, x: Seg)
    requires Known(arrived, x) || SameRange(x, s)
    ensures Known(arrived + [s], x)
  {
    var all := arrived + [s];
    if Known(arrived, x) {
      var k :| 0 <= k < |arrived| && SameRange(x, arrived[k]);
      assert all[k] == arrived[k];
    } else {
      assert all[|arrived|] == s;
    }
  }

  /** rcv_nxt_ is the first byte missing; the queue is ordered, lies strictly beyond it, and
      together with everything before it holds exactly the bytes that arrived. */
  ghost predicate RxInv(base: int, arrived: seq<Seg>, rx: Rx) {
    && base <= rx.nxt
    && Ordered(rx.q)
    && (forall i :: 0 <= i < |rx.q| ==> rx.nxt < rx.q[i].start)
    && (forall x :: x in rx.q ==> Known(arrived, x))
    && (forall b :: base <= b ==> (Got(arrived, b) <==> b < rx.nxt || Got(rx.q, b)))
  }

  /** Segments that keep to themselves never straddle rcv_nxt_. */
  lemma NoStraddle(base: int, arrived: seq<Seg>, rx: Rx, s: Seg)
    requires RxInv(base, arrived, rx) && Clean(base, arrived + [s])
    ensures s.end <= rx.nxt || rx.nxt <= s.start
  {
    var all := arrived + [s];
    assert all[|arrived|] == s;
    if s.start < rx.nxt < s.end {
      assert Got(arrived, rx.nxt - 1);
      var i :| 0 <= i < |arrived| && arrived[i].start <= rx.nxt - 1 < arrived[i].end;
      assert all[i] == arrived[i] && Apart(all[i], all[|arrived|]);
      assert Got(arrived, rx.nxt);
      assert false;
    }
  }

  lemma GotSnoc(arrived: seq<Seg>, s: Seg, b: int)
    ensures Got(arrived + [s], b) <==> Got(arrived, b) || s.start <= b < s.end
  {
    var all := arrived + [s];
    if Got(arrived, b) {
      var i :| 0 <= i < |arrived| && arrived[i].start <= b < arrived[i].end;
      assert all[i] == arrived[i];
    }
    if s.start <= b < s.end {
      assert all[|arrived|] == s;
    }
  }

  /** A newcomer keeps apart from everything queued. */
  lemma ApartFromQueue(base: int, arrived: seq<Seg>, rx: Rx, s: Seg, x: Seg)
    requires RxInv(base, arrived, rx) && Clean(base, arrived + [s]) && x in rx.q
    ensures Apart(x, s)
  {
    var all := arrived + [s];
    assert Known(arrived, x);
    var k :| 0 <= k < |arrived| && SameRange(x, arrived[k]);
    assert all[k] == arrived[k] && all[|arrived|] == s && Apart(all[k], all[|arrived|]);
  }

  /** What a queue insertion followed by draining, if due, makes of an ordered queue. */
  lemma AddQueue(rx: Rx, s: Seg)
    requires Ordered(rx.q) && s.start < s.end && rx.nxt <= s.start
    requires forall i :: 0 <= i < |rx.q| ==> rx.nxt < rx.q[i].start && Apart(rx.q[i], s)
    ensures var rx' := Add(rx, s);
            && rx.nxt <= rx'.nxt && Ordered(rx'.q)
            && (forall i :: 0 <= i < |rx'.q| ==> rx'.nxt < rx'.q[i].start)
            && (forall x :: x in rx'.q ==> x in rx.q || x == s)
            && (forall b :: rx.nxt <= b ==> (Got(Insert(rx.q, s), b) <==> b < rx'.nxt || Got(rx'.q, b)))
  {
    var q', rx' := Insert(rx.q, s), Add(rx, s);
    InsertOrdered(rx.q, s);
    InsertMembers(rx.q, s);
    DrainGap(q');
    assert q'[0] in q';
    if q'[0].start > rx.nxt {
      forall i | 0 <= i < |q'|
        ensures rx.nxt < q'[i].start
      {
        if i > 0 {
          assert q'[0].end <= q'[i].start || SameRange(q'[0], q'[i]);
        }
      }
    } else {
      assert q'[0].start == rx.nxt;
    }
  }

  lemma AddKeeps(base: int, arrived: seq<Seg>, rx: Rx, s: Seg)
    requires RxInv(base, arrived, rx) && Clean(base, arrived + [s]) && rx.nxt <= s.start
    ensures RxInv(base, arrived + [s], Add(rx, s)) && rx.nxt <= Add(rx, s).nxt
  {
    var all, rx' := arrived + [s], Add(rx, s);
    assert all[|arrived|] == s;
    forall i | 0 <= i < |rx.q|
      ensures Apart(rx.q[i], s)
    {
      ApartFromQueue(base, arrived, rx, s, rx.q[i]);
    }
    AddQueue(rx, s);
    forall x | x in rx'.q
      ensures Known(all, x)
    {
      KnownSnoc(arrived, s, x);
    }
    forall b | base <= b
      ensures Got(all, b) <==> b < rx'.nxt || Got(rx'.q, b)
    {
      GotSnoc(arrived, s, b);
      InsertBytes(rx.q, s, b);
    }
  }

  lemma RecvKeeps(base: int, arrived: seq<Seg>, rx: Rx, s: Seg)
    requires RxInv(base, arrived, rx) && Clean(base, arrived + [s])
    ensures RxInv(base, arrived + [s], Recv(rx, s)) && rx.nxt <= Recv(rx, s).nxt
  {
    var all, rx' := arrived + [s], Recv(rx, s);
    assert all[|arrived|] == s;
    NoStraddle(base, arrived, rx, s);
    if rx.nxt <= s.start && !(s.start == rx.nxt && rx.q == []) {
      AddKeeps(base, arrived, rx, s);
    } else {
      forall b | base <= b
        ensures Got(all, b) <==> b < rx'.nxt || Got(rx'.q, b)
      {
        GotSnoc(arrived, s, b);
      }
      forall x | x in rx'.q
        ensures Known(all, x)
      {
        KnownSnoc(arrived, s, x);
      }
    }
  }

  lemma CleanPrefix(base: int, arrived: seq<Seg>, n: nat)
    requires Clean(base, arrived) && n <= |arrived|
    ensures Clean(base, arrived[..n])
  {
  }

  lemma {:induction false} RunKeeps(base: int, arrived: seq<Seg>)
    requires Clean(base, arrived)
    ensures RxInv(base, arrived, RecvAll(base, arrived))
  {
    if arrived == [] {
      assert Rx(base, []).q == [];
    } else {
      var n := |arrived| - 1;
      CleanPrefix(base, arrived, n);
      RunKeeps(base, arrived[..n]);
      assert arrived[..n] + [arrived[n]] == arrived;
      RecvKeeps(base, arrived[..n], RecvAll(base, arrived[..n]), arrived[n]);
    }
  }

  /** After any arrivals, in any order and with any repetitions, rcv_nxt_ is exactly the first
      byte that has not arrived, and the queue holds exactly the bytes that arrived beyond it. */
  lemma FirstMissingByte(base: int, arrived: seq<Seg>)
    requires Clean(base, arrived)
    ensures var rx := RecvAll(base, arrived);
            && FirstMissing(base, arrived, rx.nxt)
            && (forall b :: rx.nxt <= b ==> (Got(arrived, b) <==> Got(rx.q, b)))
            && Ordered(rx.q) && (forall i :: 0 <= i < |rx.q| ==> rx.nxt < rx.q[i].start)
  {
    RunKeeps(base, arrived);
    var rx := RecvAll(base, arrived);
    assert !Got(rx.q, rx.nxt);
  }

  lemma FirstMissingUnique(base: int, a: seq<Seg>, m: int, n: int)
    requires FirstMissing(base, a, m) && FirstMissing(base, a, n)
    ensures m == n
  {
    assert base <= m < n ==> Got(a, m);
    assert base <= n < m ==> Got(a, n);
  }

  /** rcv_nxt_ depends only on the set of bytes that arrived, not on order or repetition. */
  lemma OrderIrrelevant(base: int, a: seq<Seg>, b: seq<Seg>)
    requires Clean(base, a) && Clean(base, b)
    requires forall x :: base <= x ==> (Got(a, x) <==> Got(b, x))
    ensures RecvAll(base, a).nxt == RecvAll(base, b).nxt
  {
    FirstMissingByte(base, a);
    FirstMissingByte(base, b);
    FirstMissingUnique(base, a, RecvAll(base, a).nxt, RecvAll(base, b).nxt);
  }

  /** rcv_nxt_ never moves back. */
  lemma {:induction false} NeverBack(base: int, arrived: seq<Seg>, m: nat, n: nat)
    requires Clean(base, arrived) && m <= n <= |arrived|
    ensures RecvAll(base, arrived[..m]).nxt <= RecvAll(base, arrived[..n]).nxt
    decreases n - m
  {
    if m < n {
      NeverBack(base, arrived, m, n - 1);
      CleanPrefix(base, arrived, n);
      CleanPrefix(base, arrived, n - 1);
      RunKeeps(base, arrived[..n - 1]);
      assert arrived[..n][..n - 1] == arrived[..n - 1];
      assert arrived[..n - 1] + [arrived[n - 1]] == arrived[..n];
      RecvKeeps(base, arrived[..n - 1], RecvAll(base, arrived[..n - 1]), arrived[n - 1]);
    }
  }

  /** Why straddling segments are excluded: when one arrives, rcv_nxt_ is right afterwards exactly
      if nothing was queued. Otherwise either it stays although its byte has arrived, or it moves
      past the end of the segment over bytes that have not. */
  lemma StraddlingSegment(base: int, arrived: seq<Seg>, rx: Rx, s: Seg)
    requires RxInv(base, arrived, rx) && s.start < rx.nxt < s.end
    ensures FirstMissing(base, arrived + [s], Recv(rx, s).nxt) <==> rx.q == []
  {
    forall b { GotSnoc(arrived, s, b); }
    if rx.q != [] {
      StraddleSplits(rx, s);
      if Recv(rx, s).nxt > s.end {
        assert !Got(rx.q, s.end);
        assert !Got(arrived + [s], s.end);
      }
    }
  }

  lemma StraddleSplits(rx: Rx, s: Seg)
    requires Ordered(rx.q) && rx.q != [] && (forall i :: 0 <= i < |rx.q| ==> rx.nxt < rx.q[i].start)
    requires s.start < rx.nxt < s.end
    ensures Recv(rx, s).nxt == rx.nxt || (Recv(rx, s).nxt > s.end && !Got(rx.q, s.end))
  {
    var s' := Seg(rx.nxt, rx.nxt + (s.end - s.start), s.push);
    assert Recv(rx, s) == Add(rx, s');
    InsertFirst(rx.q, s');
    if s'.end <= rx.q[0].start {
      InFront(rx.q, s');
    }
  }

  lemma InsertFirst(q: seq<Seg>, s: Seg)
    requires q != [] && s.start < q[|q| - 1].end
    ensures s.end > q[0].start ==> Insert(q, s) != [] && Insert(q, s)[0] == q[0]
    ensures s.end <= q[0].start ==> Insert(q, s) == [s] + q
  {
  }

  lemma InFront(q: seq<Seg>, s: Seg)
    requires Ordered(q) && q != [] && s.start < s.end <= q[0].start
    ensures forall b :: b < s.end ==> !Got(q, b)
    ensures Drain([s] + q).nxt >= s.end
  {
    assert forall i :: 0 <= i < |q| ==> s.end <= q[i].start && ([s] + q)[i + 1] == q[i];
    DrainBeyond([s] + q);
  }

  lemma {:induction false} DrainBeyond(q: seq<Seg>)
    requires q != [] && forall i :: 0 <= i < |q| ==> q[i].start < q[i].end && (i > 0 ==> q[0].end <= q[i].start)
    ensures Drain(q).nxt >= q[0].end
  {
    if !(|q| == 1 || q[0].end < q[1].start) {
      DrainMember(q[1..]);
      var k :| 0 <= k < |q[1..]| && Drain(q[1..]).nxt == q[1..][k].end;
      assert q[1..][k] == q[k + 1];
    }
  }

  lemma {:induction false} DrainMember(q: seq<Seg>)
    requires q != []
    ensures exists k :: 0 <= k < |q| && Drain(q).nxt == q[k].end
  {
    if |q| == 1 || q[0].end < q[1].start {
      assert Drain(q).nxt == q[0].end;
    } else {
      DrainMember(q[1..]);
      var k :| 0 <= k < |q[1..]| && Drain(q[1..]).nxt == q[1..][k].end;
      assert q[1..][k] == q[k + 1];
    }
  }

  /** Bytes 0-1 and 3 arrive, then 1-2: byte 2 is there, but rcv_nxt_ still waits for it. */
  lemma StraddleExample()
    ensures var arrived := [Seg(0, 2, false), Seg(3, 4, false), Seg(1, 3, false)];
            RecvAll(0, arrived).nxt == 2 && FirstMissing(0, arrived, 4)
  {
    var a, b, c := Seg(0, 2, false), Seg(3, 4, false), Seg(1, 3, false);
    StraddleBytes(a, b, c);
    assert [a, b, c][..2] == [a, b] && [a, b][..1] == [a] && [a][..0] == [];
    InsertFirst([b], Seg(2, 4, false));
    assert RecvAll(0, [a]) == Rx(2, []);
    assert Add(Rx(2, []), b) == Rx(2, [b]);
    assert RecvAll(0, [a, b]) == Rx(2, [b]);
    assert Add(Rx(2, [b]), Seg(2, 4, false)).nxt == 2;
  }

  lemma StraddleBytes(a: Seg, b: Seg, c: Seg)
    requires a.start == 0 && a.end == 2 && b.start == 3 && b.end == 4 && c.start == 1 && c.end == 3
    ensures FirstMissing(0, [a, b, c], 4)
  {
    forall x | 0 <= x < 4
      ensures Got([a, b, c], x)
    {
      var i := if x < 2 then 0 else if x == 3 then 1 else 2;
      assert [a, b, c][i].start <= x < [a, b, c][i].end;
    }
  }

  // ----- telling the application -----

  /** Whether one of the segments that draining takes off carries PUSH. */
  function DrainPush(q: seq<Seg>): bool
    requires q != []
  {
    if |q| == 1 || q[0].end < q[1].start then q[0].push else q[0].push || DrainPush(q[1..])
  }

  /** The flags add returns: none while a hole remains, else those of all drained segments. */
  function AddPushes(rx: Rx, s: Seg): bool {
    var q := Insert(rx.q, s);
    q[0].start <= rx.nxt && DrainPush(q)
  }

  /** Whether recv tells the application. */
  function Pushes(rx: Rx, s: Seg): bool {
    var todrop := rx.nxt - s.start;
    var len := s.end - s.start;
    if todrop >= len && todrop > 0 then false
    else if todrop > 0 then
      if rx.q == [] then s.push else AddPushes(rx, Seg(rx.nxt, rx.nxt + len, s.push))
    else if s.start == rx.nxt && rx.q == [] then s.push
    else AddPushes(rx, s)
  }

  /** Draining an ordered queue takes off exactly the segments that end by the new rcv_nxt_. */
  lemma {:induction false} DrainPushMeans(q: seq<Seg>)
    requires Ordered(q) && q != []
    ensures DrainPush(q) <==> exists x :: x in q && x.push && x.end <= Drain(q).nxt
    ensures q[0].end <= Drain(q).nxt
  {
    if |q| == 1 || q[0].end < q[1].start {
      forall i | 1 <= i < |q|
        ensures q[i].end > q[0].end
      {
        assert q[1].end <= q[i].start || i == 1 || SameRange(q[1], q[i]);
      }
      assert q[0] in q;
    } else {
      DrainPushMeans(q[1..]);
      assert q[0].end <= q[1].end;
      assert forall x :: x in q <==> x == q[0] || x in q[1..];
    }
  }

  /** The application is told exactly when a segment that carries PUSH, the one arriving or one that
      waited, is delivered by this arrival. */
  lemma PushesMeans(base: int, arrived: seq<Seg>, rx: Rx, s: Seg)
    requires RxInv(base, arrived, rx) && Clean(base, arrived + [s]) && s.start < s.end
    ensures Pushes(rx, s) <==> exists x :: x in rx.q + [s] && x.push && rx.nxt < x.end <= Recv(rx, s).nxt
  {
    NoStraddle(base, arrived, rx, s);
    if rx.nxt <= s.start {
      if s.start == rx.nxt && rx.q == [] {
        assert s in rx.q + [s];
      } else {
        forall i | 0 <= i < |rx.q|
          ensures Apart(rx.q[i], s)
        {
          assert rx.q[i] in rx.q;
          ApartFromQueue(base, arrived, rx, s, rx.q[i]);
        }
        AddPushesMeans(rx, s);
      }
    }
  }

  lemma AddPushesMeans(rx: Rx, s: Seg)
    requires Ordered(rx.q) && rx.nxt <= s.start < s.end && forall i :: 0 <= i < |rx.q| ==> rx.nxt < rx.q[i].start
    requires forall i :: 0 <= i < |rx.q| ==> Apart(rx.q[i], s)
    ensures AddPushes(rx, s) <==> exists x :: x in rx.q + [s] && x.push && rx.nxt < x.end <= Add(rx, s).nxt
  {
    var q := Insert(rx.q, s);
    InsertOrdered(rx.q, s);
    InsertMembers(rx.q, s);
    DrainPushMeans(q);
    assert forall x :: x in q <==> x in rx.q + [s];
    forall x | x in q
      ensures rx.nxt < x.end
    {
      if x in rx.q {
        var i :| 0 <= i < |rx.q| && rx.q[i] == x;
        assert rx.nxt < rx.q[i].start;
      }
    }
  }
}
