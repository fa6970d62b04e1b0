/** What every slot of an RFID inventory keeps, and completeness of whole inventories. */
module RfidSafety {
  import opened Common
  import opened RfidModel

  /** A tag that takes part in the frame of rep (all unread tags when rep is 0). */
  predicate Active(t: Tag, rep: int) {
    Unread(t) && (rep == 0 || t.memory2 == rep)
  }

  function Members(tags: seq<Tag>, rep: int, s: int): set<nat> {
    set i: nat | i < |tags| && Active(tags[i], rep) && tags[i].slot == s
  }

  /** The tags that take part in the frame of rep. */
  function Group(tags: seq<Tag>, rep: int): set<nat> {
    set i: nat | i < |tags| && Active(tags[i], rep)
  }

  /** The unread tags of outer slot s, together with those left over in a group of that number. */
  function Claimed(tags: seq<Tag>, s: int): set<nat> {
    set i: nat | i < |tags| && Unread(tags[i]) && (tags[i].slot == s || tags[i].memory2 == s)
  }

  function Below(tags: seq<Tag>, rep: int, s: int): set<nat> {
    set i: nat | i < |tags| && Active(tags[i], rep) && tags[i].slot < s
  }

  function Above(tags: seq<Tag>, rep: int, s: int): set<nat> {
    set i: nat | i < |tags| && Active(tags[i], rep) && tags[i].slot > s
  }

  // ----- the channel -----

  predicate SameSlots(a: seq<Tag>, b: seq<Tag>) {
    && |a| == |b|
    && forall i :: 0 <= i < |a| ==> Unread(b[i]) == Unread(a[i]) && b[i].slot == a[i].slot && b[i].memory2 == a[i].memory2
  }

  /** Calling a slot moves nobody, and exactly the frame's tags with that slot answer. */
  lemma SingCalls(tags: seq<Tag>, p: Packet, draws: seq<int>)
    requires |draws| == |tags| && !p.start && p.rep >= 0
    ensures SameSlots(tags, Deliver(tags, p, draws))
    ensures Repliers(tags, p, draws) == Members(Deliver(tags, p, draws), p.rep, p.slotNumber)
    ensures ReadTags(Deliver(tags, p, draws)) == ReadTags(tags)
  {
  }

  /** A query to all makes every unread tag draw. */
  lemma StartAll(tags: seq<Tag>, p: Packet, draws: seq<int>)
    requires |draws| == |tags| && p.start && p.rep == 0 && DrawsOk(draws, p.q)
    ensures var tags' := Deliver(tags, p, draws);
            && (forall i :: 0 <= i < |tags| ==> Unread(tags'[i]) == Unread(tags[i]))
            && (forall i :: 0 <= i < |tags| && Unread(tags'[i]) ==> 1 <= tags'[i].slot <= p.q)
            && Repliers(tags, p, draws) == Members(tags', 0, p.slotNumber)
            && ReadTags(tags') == ReadTags(tags) && Joiners(tags, p) == UnreadTags(tags') == UnreadTags(tags)
  {
  }

  /** A query for outer slot rep makes the tags of that slot, and those already in its group,
      draw; afterwards they are the group, and nobody else moved. */
  lemma StartGroup(tags: seq<Tag>, p: Packet, draws: seq<int>)
    requires |draws| == |tags| && p.start && p.rep > 0 && DrawsOk(draws, p.q)
    ensures var tags' := Deliver(tags, p, draws);
            && (forall i :: 0 <= i < |tags| ==> Unread(tags'[i]) == Unread(tags[i]))
            && (forall i :: 0 <= i < |tags| && Active(tags'[i], p.rep) ==> 1 <= tags'[i].slot <= p.q)
            && (forall i :: 0 <= i < |tags| && Unread(tags'[i]) && tags'[i].memory2 != p.rep ==>
                  tags'[i] == tags[i] && tags[i].slot != p.rep)
            && Repliers(tags, p, draws) == Members(tags', p.rep, p.slotNumber)
            && ReadTags(tags') == ReadTags(tags)
            && Joiners(tags, p) == Claimed(tags, p.rep) == Group(tags', p.rep)
  {
  }

  /** A query makes an unread tag draw exactly if it is for all, or names the tag's slot or group; it
      notes the frame size, and the group if its slot was named; it replies if it drew the slot
      called. Any other tag ignores it. */
  lemma QueryHeard(t: Tag, p: Packet, draw: int)
    requires p.start && p.rep >= 0
    ensures var t' := TagRecv(t, p, draw);
            if !t.state.Acknowledged? && (p.rep == 0 || p.rep == t.slot || p.rep == t.memory2)
            then t'.slot == draw && t'.memory == p.q && !t'.state.Acknowledged?
                 && t'.memory2 == (if p.rep != 0 && p.rep == t.slot then p.rep else t.memory2)
                 && (t'.state.Replying? <==> draw == p.slotNumber) && (TagReplies(t, p, draw) <==> draw == p.slotNumber)
            else t' == t && !TagReplies(t, p, draw)
  {
  }

  /** A call makes an unread tag reply exactly if its slot is called, in its group or for all; nothing
      it remembers changes. */
  lemma CallHeard(t: Tag, p: Packet, draw: int)
    requires !p.start && p.rep >= 0
    ensures var t' := TagRecv(t, p, draw);
            if !t.state.Acknowledged? && p.slotNumber == t.slot && (p.rep == 0 || p.rep == t.memory2)
            then t' == t.(state := Replying) && TagReplies(t, p, draw)
            else t' == t && !TagReplies(t, p, draw)
  {
  }

  lemma AckReads(tags: seq<Tag>, i: nat)
    requires i < |tags| && Unread(tags[i])
    ensures ReadTags(Acknowledge(tags, i)) == ReadTags(tags) + {i} && i !in ReadTags(tags)
    ensures UnreadTags(Acknowledge(tags, i)) == UnreadTags(tags) - {i} && i in UnreadTags(tags)
  {
  }

  lemma AllRead(tags: seq<Tag>)
    ensures |ReadTags(tags)| + |UnreadTags(tags)| == |tags|
  {
    UpToSize(|tags|);
    assert ReadTags(tags) + UnreadTags(tags) == UpTo(|tags|) && ReadTags(tags) !! UnreadTags(tags);
  }

  ghost function UpTo(n: nat): (s: set<nat>)
    ensures forall i: nat :: i in s <==> i < n
  {
    if n == 0 then {} else UpTo(n - 1) + {n - 1}
  }

  lemma {:induction false} UpToSize(n: nat)
    ensures |UpTo(n)| == n
  {
    if n > 0 {
      UpToSize(n - 1);
    }
  }

  // ----- one slot of a frame -----

  /** Slot v of a frame of len slots has just been called. Tags of earlier slots that are still
      unread sit in the collided ones, at least two in each. */
  ghost predicate Frame(tags: seq<Tag>, last: nat, rep: int, v: int, len: int, counter: nat, collisions: nat) {
    && 1 <= v <= len
    && (forall i :: 0 <= i < |tags| && Active(tags[i], rep) ==> 1 <= tags[i].slot <= len)
    && counter == |Members(tags, rep, v)|
    && (counter > 0 ==> last in Members(tags, rep, v))
    && 2 * collisions <= |Below(tags, rep, v)|
    && (collisions == 0 ==> Below(tags, rep, v) == {})
  }

  /** The tags after the reader has dealt with slot v. */
  function AfterSlot(tags: seq<Tag>, last: nat, counter: nat): seq<Tag> {
    if counter == 1 then Acknowledge(tags, last) else tags
  }

  lemma SingletonOf<T>(s: set<T>, x: T)
    requires |s| == 1 && x in s
    ensures s == {x}
  {
    assert |s - {x}| == 0;
  }

  lemma AckEmptiesSlot(tags: seq<Tag>, last: nat, rep: int, v: int)
    requires Members(tags, rep, v) == {last}
    ensures Below(Acknowledge(tags, last), rep, v + 1) == Below(tags, rep, v)
    ensures Above(Acknowledge(tags, last), rep, v) == Above(tags, rep, v)
  {
    var tags' := Acknowledge(tags, last);
    assert last in Members(tags, rep, v);
    forall i: nat | i < |tags|
      ensures i in Below(tags', rep, v + 1) <==> i in Below(tags, rep, v)
    {
      if tags[i].slot == v && Active(tags[i], rep) {
        assert i in Members(tags, rep, v);
      }
    }
  }

  lemma SlotFallsBelow(tags: seq<Tag>, rep: int, v: int)
    ensures Below(tags, rep, v + 1) == Below(tags, rep, v) + Members(tags, rep, v)
    ensures |Below(tags, rep, v + 1)| == |Below(tags, rep, v)| + |Members(tags, rep, v)|
  {
    assert Below(tags, rep, v) !! Members(tags, rep, v);
  }

  /** Dealing with slot v accounts for all its tags. */
  lemma FrameSlot(tags: seq<Tag>, last: nat, rep: int, v: int, len: int, counter: nat, collisions: nat)
    requires Frame(tags, last, rep, v, len, counter, collisions)
    ensures var tags' := AfterSlot(tags, last, counter);
            var col := if counter > 1 then collisions + 1 else collisions;
            && |tags'| == |tags|
            && 2 * col <= |Below(tags', rep, v + 1)| && (col == 0 ==> Below(tags', rep, v + 1) == {})
            && |ReadTags(tags')| == |ReadTags(tags)| + (if counter == 1 then 1 else 0)
            && Above(tags', rep, v) == Above(tags, rep, v)
  {
    if counter == 1 {
      SingletonOf(Members(tags, rep, v), last);
      AckReads(tags, last);
      AckEmptiesSlot(tags, last, rep, v);
    } else {
      SlotFallsBelow(tags, rep, v);
    }
  }

  /** Calling the next slot of the frame leads to the same picture one slot on. */
  lemma FrameNext(tags: seq<Tag>, rep: int, v: int, len: int, col: nat, p: Packet, draws: seq<int>, last: nat)
    requires 1 <= v < len && rep >= 0
    requires forall i :: 0 <= i < |tags| && Active(tags[i], rep) ==> 1 <= tags[i].slot <= len
    requires 2 * col <= |Below(tags, rep, v + 1)| && (col == 0 ==> Below(tags, rep, v + 1) == {})
    requires !p.start && p.rep == rep && p.slotNumber == v + 1 && |draws| == |tags|
    requires Repliers(tags, p, draws) != {} ==> last in Repliers(tags, p, draws)
    ensures Frame(Deliver(tags, p, draws), last, rep, v + 1, len, |Repliers(tags, p, draws)|, col)
  {
    SingCalls(tags, p, draws);
    var tags' := Deliver(tags, p, draws);
    assert Below(tags', rep, v + 1) == Below(tags, rep, v + 1);
    forall i | 0 <= i < |tags'| && Active(tags'[i], rep)
      ensures 1 <= tags'[i].slot <= len
    {
      assert Active(tags[i], rep);
    }
  }

  /** A frame just begun: nothing below its first slot. */
  lemma FrameFirst(tags: seq<Tag>, rep: int, len: int, last: nat)
    requires len >= 1
    requires forall i :: 0 <= i < |tags| && Active(tags[i], rep) ==> 1 <= tags[i].slot <= len
    requires Members(tags, rep, 1) != {} ==> last in Members(tags, rep, 1)
    ensures Frame(tags, last, rep, 1, len, |Members(tags, rep, 1)|, 0)
  {
    assert Below(tags, rep, 1) == {};
    if |Members(tags, rep, 1)| > 0 {
      assert Members(tags, rep, 1) != {};
    }
  }

  lemma FrameSizePositive(m: Method, col: nat)
    requires col > 0
    ensures FrameSize(m, col) >= 2
  {
  }

  // ----- who has replied in a frame -----

  /** Slot v of the frame of rep has been called. Everybody who joined the frame is either read or
      still in it, and has replied exactly once, or not at all if its slot is to come. */
  ghost predicate Accounted(tags: seq<Tag>, rep: int, v: int, suc: nat, joined: set<nat>, heard: multiset<nat>) {
    && Group(tags, rep) <= joined && |joined| == suc + |Group(tags, rep)|
    && heard + multiset(Above(tags, rep, v)) == multiset(joined)
  }

  lemma AccountStart(tags: seq<Tag>, rep: int)
    requires forall i :: 0 <= i < |tags| && Active(tags[i], rep) ==> tags[i].slot >= 1
    ensures Accounted(tags, rep, 1, 0, Group(tags, rep), multiset(Members(tags, rep, 1)))
  {
    assert Above(tags, rep, 1) + Members(tags, rep, 1) == Group(tags, rep);
    assert Above(tags, rep, 1) !! Members(tags, rep, 1);
  }

  lemma AccountSlot(tags: seq<Tag>, last: nat, rep: int, v: int, len: int, counter: nat, collisions: nat,
                    suc: nat, joined: set<nat>, heard: multiset<nat>)
    requires Frame(tags, last, rep, v, len, counter, collisions) && Accounted(tags, rep, v, suc, joined, heard)
    ensures Accounted(AfterSlot(tags, last, counter), rep, v, if counter == 1 then suc + 1 else suc, joined, heard)
  {
    FrameSlot(tags, last, rep, v, len, counter, collisions);
    if counter == 1 {
      assert last in Group(tags, rep);
      assert Group(AfterSlot(tags, last, counter), rep) == Group(tags, rep) - {last};
    }
  }

  lemma AccountCall(tags: seq<Tag>, rep: int, v: int, suc: nat, joined: set<nat>, heard: multiset<nat>, p: Packet, draws: seq<int>)
    requires Accounted(tags, rep, v, suc, joined, heard) && rep >= 0
    requires !p.start && p.rep == rep && p.slotNumber == v + 1 && |draws| == |tags|
    ensures Accounted(Deliver(tags, p, draws), rep, v + 1, suc, joined, heard + multiset(Repliers(tags, p, draws)))
  {
    var tags' := Deliver(tags, p, draws);
    SingCalls(tags, p, draws);
    AboveSplits(tags, tags', rep, v);
    assert Group(tags', rep) == Group(tags, rep);
  }

  lemma AccountEnd(tags: seq<Tag>, rep: int, v: int, suc: nat, joined: set<nat>, heard: multiset<nat>)
    requires Accounted(tags, rep, v, suc, joined, heard)
    requires forall i :: 0 <= i < |tags| && Active(tags[i], rep) ==> tags[i].slot <= v
    ensures heard == multiset(joined) && Above(tags, rep, v) == {}
  {
  }

  /** Replies outstanding shrink by those of the slot just called. */
  lemma AboveSplits(tags: seq<Tag>, tags': seq<Tag>, rep: int, v: int)
    requires SameSlots(tags, tags')
    ensures multiset(Above(tags, rep, v)) == multiset(Above(tags', rep, v + 1)) + multiset(Members(tags', rep, v + 1))
  {
    assert Above(tags, rep, v) == Above(tags', rep, v + 1) + Members(tags', rep, v + 1);
    assert Above(tags', rep, v + 1) !! Members(tags', rep, v + 1);
  }

  // ----- DFSA (operation 2) -----

  ghost predicate FlatInv(w: World) {
    && w.r.rsTimer && !w.r.colTimer && !w.r.nested
    && Frame(w.tags, w.last, 0, w.r.uniqCounter, w.r.qValue, w.r.counter, w.r.collisions)
    && w.r.idle + w.r.suc + w.r.collisions == w.r.uniqCounter - 1
    && Accounted(w.tags, 0, w.r.uniqCounter, w.r.suc, w.frameTags, w.heard)
    && w.r.success == |ReadTags(w.tags)|
  }

  ghost predicate Finished(w: World) {
    && !w.r.rsTimer && !w.r.colTimer
    && (forall i :: 0 <= i < |w.tags| ==> w.tags[i].state.Acknowledged?)
    && w.r.success == |w.tags|
  }

  lemma NobodyLeft(w: World)
    requires w.r.success == |ReadTags(w.tags)| && UnreadTags(w.tags) == {}
    ensures forall i :: 0 <= i < |w.tags| ==> w.tags[i].state.Acknowledged?
    ensures w.r.success == |w.tags|
  {
    AllRead(w.tags);
    forall i: nat | i < |w.tags|
      ensures w.tags[i].state.Acknowledged?
    {
      assert i !in UnreadTags(w.tags);
    }
  }

  /** The frame picture one slot on, for the frame of rep. */
  lemma FrameStep(tags: seq<Tag>, last: nat, rep: int, v: int, len: int, counter: nat, collisions: nat,
                  p: Packet, draws: seq<int>, last': nat)
    requires Frame(tags, last, rep, v, len, counter, collisions) && v < len && rep >= 0
    requires !p.start && p.rep == rep && p.slotNumber == v + 1 && |draws| == |tags|
    requires var who := Repliers(AfterSlot(tags, last, counter), p, draws); who != {} ==> last' in who
    ensures var tags1 := AfterSlot(tags, last, counter);
            Frame(Deliver(tags1, p, draws), last', rep, v + 1, len, |Repliers(tags1, p, draws)|,
                  if counter > 1 then collisions + 1 else collisions)
  {
    var tags1 := AfterSlot(tags, last, counter);
    FrameSlot(tags, last, rep, v, len, counter, collisions);
    SlotsAfter(tags, last, counter, rep, len);
    FrameNext(tags1, rep, v, len, if counter > 1 then collisions + 1 else collisions, p, draws, last');
  }

  /** What the next slot of the same frame changes. */
  lemma FlatMoves(w: World, draws: seq<int>, w': World)
    requires w.r.rsTimer && !w.r.colTimer && !w.r.nested && w.r.uniqCounter < w.r.qValue && Step(w, draws, w')
    ensures var tags1 := AfterSlot(w.tags, w.last, w.r.counter);
            var p := Packet(false, w.r.uniqCounter + 1, 0, w.r.qValue);
            && |draws| == |tags1| && w'.tags == Deliver(tags1, p, draws)
            && w'.r == Tally(w.r).(uniqCounter := w.r.uniqCounter + 1, counter := |Repliers(tags1, p, draws)|, rsTimer := true)
            && (Repliers(tags1, p, draws) != {} ==> w'.last in Repliers(tags1, p, draws))
            && w'.frameTags == w.frameTags && w'.heard == w.heard + multiset(Repliers(tags1, p, draws))
  {
    FlatShape(w.r);
  }

  /** The next slot of the same frame. */
  lemma FlatSing(w: World, draws: seq<int>, w': World)
    requires FlatInv(w) && Step(w, draws, w') && w.r.uniqCounter < w.r.qValue
    ensures FlatInv(w') && |w'.tags| == |w.tags|
  {
    var r, v := w.r, w.r.uniqCounter;
    var tags1 := AfterSlot(w.tags, w.last, r.counter);
    var p := Packet(false, v + 1, 0, r.qValue);
    FlatMoves(w, draws, w');
    FrameStep(w.tags, w.last, 0, v, r.qValue, r.counter, r.collisions, p, draws, w'.last);
    FrameSlot(w.tags, w.last, 0, v, r.qValue, r.counter, r.collisions);
    SingCalls(tags1, p, draws);
    AccountSlot(w.tags, w.last, 0, v, r.qValue, r.counter, r.collisions, r.suc, w.frameTags, w.heard);
    AccountCall(tags1, 0, v, w'.r.suc, w.frameTags, w.heard, p, draws);
  }

  /** Inside a frame the handler tallies the slot and calls the next one. */
  lemma FlatShape(r: Reader)
    requires r.rsTimer && !r.colTimer && !r.nested && r.uniqCounter < r.qValue
    ensures var o := Handler(r);
            && o.ack == (r.counter == 1)
            && o.query == Some(Packet(false, r.uniqCounter + 1, 0, r.qValue))
            && o.r == Tally(r).(uniqCounter := r.uniqCounter + 1, counter := 0, rsTimer := true)
  {
  }

  /** What holds when the last slot of a frame has been dealt with. */
  lemma FlatFrameEnd(w: World)
    requires FlatInv(w) && w.r.uniqCounter == w.r.qValue
    ensures var r1 := Tally(w.r);
            var left := |UnreadTags(AfterSlot(w.tags, w.last, w.r.counter))|;
            && r1.idle + r1.suc + r1.collisions == w.r.qValue
            && w.heard == multiset(w.frameTags) && |w.frameTags| == r1.suc + left
            && 2 * r1.collisions <= left
            && (r1.collisions == 0 <==> left == 0)
  {
    var r, v := w.r, w.r.uniqCounter;
    var tags1, r1 := AfterSlot(w.tags, w.last, r.counter), Tally(w.r);
    FrameSlot(w.tags, w.last, 0, v, r.qValue, r.counter, r.collisions);
    AccountEnd(w.tags, 0, v, r.suc, w.frameTags, w.heard);
    AccountSlot(w.tags, w.last, 0, v, r.qValue, r.counter, r.collisions, r.suc, w.frameTags, w.heard);
    assert Below(tags1, 0, v + 1) == UnreadTags(tags1) == Group(tags1, 0);
  }

  /** The first query of a frame. */
  lemma FlatQuery(r: Reader, tags: seq<Tag>, p: Packet, draws: seq<int>, w': World)
    requires r.rsTimer && !r.colTimer && !r.nested && r.uniqCounter == 1
    requires r.suc == 0 && r.idle == 0 && r.collisions == 0 && r.qValue >= 1
    requires r.success == |ReadTags(tags)|
    requires p == Packet(true, 1, 0, r.qValue) && |draws| == |tags| && DrawsOk(draws, p.q)
    requires w'.r == r.(counter := |Repliers(tags, p, draws)|) && w'.tags == Deliver(tags, p, draws)
    requires Repliers(tags, p, draws) != {} ==> w'.last in Repliers(tags, p, draws)
    requires w'.frameTags == Joiners(tags, p) && w'.heard == multiset(Repliers(tags, p, draws))
    ensures FlatInv(w')
  {
    StartAll(tags, p, draws);
    FrameFirst(w'.tags, 0, r.qValue, w'.last);
    AccountStart(w'.tags, 0);
    assert Group(w'.tags, 0) == UnreadTags(w'.tags);
  }

  lemma FlatStep(w: World, draws: seq<int>, w': World)
    requires FlatInv(w) && Step(w, draws, w')
    ensures FlatInv(w') || Finished(w')
    ensures |w'.tags| == |w.tags|
  {
    var r := w.r;
    if r.uniqCounter < r.qValue {
      FlatSing(w, draws, w');
    } else {
      var tags1, r1 := AfterSlot(w.tags, w.last, r.counter), Tally(r);
      FlatFrameEnd(w);
      FrameSlot(w.tags, w.last, 0, r.uniqCounter, r.qValue, r.counter, r.collisions);
      if r1.collisions > 0 {
        FrameSizePositive(r.estMethod, r1.collisions);
        FlatQuery(Handler(r).r, tags1, Handler(r).query.value, draws, w');
      } else {
        assert UnreadTags(tags1) == {};
        NobodyLeft(w');
      }
    }
  }

  // ----- DFSA with nested collision resolution (operation 4) -----

  /** Polling the outer frame: everybody not yet read sits in a slot still to come. */
  ghost predicate OuterInv(w: World) {
    var r := w.r;
    && r.nested && r.rsTimer && !r.colTimer
    && r.initialFrameSize >= 1 && 1 <= r.uniqCounter <= r.qValue + 1
    && (forall i :: 0 <= i < |w.tags| && Unread(w.tags[i]) ==> r.uniqCounter <= w.tags[i].slot <= r.qValue)
    && r.counter == |Members(w.tags, 0, r.uniqCounter)|
    && (r.counter > 0 ==> w.last in Members(w.tags, 0, r.uniqCounter))
    && r.success == |ReadTags(w.tags)|
  }

  /** Resolving outer slot slotNumber: its group is in a frame of its own, and everybody else not
      yet read still sits in a later outer slot. */
  ghost predicate GroupInv(w: World) {
    var r := w.r;
    && r.nested && r.colTimer && !r.rsTimer
    && r.initialFrameSize >= 1 && 1 <= r.slotNumber <= r.qValue
    && Frame(w.tags, w.last, r.slotNumber, r.subSlotNumber, r.subQValue, r.counter, r.collisions)
    && Accounted(w.tags, r.slotNumber, r.subSlotNumber, r.suc, w.frameTags, w.heard)
    && Others(w.tags, r.slotNumber, r.qValue)
    && r.success == |ReadTags(w.tags)|
  }

  predicate Others(tags: seq<Tag>, k: int, q: int) {
    forall i :: 0 <= i < |tags| && Unread(tags[i]) && tags[i].memory2 != k ==> k < tags[i].slot <= q
  }

  /** Calling outer slot u when nobody unread sits before it. */
  lemma OuterCall(r: Reader, tags: seq<Tag>, p: Packet, draws: seq<int>, w': World)
    requires r.nested && r.rsTimer && !r.colTimer && r.initialFrameSize >= 1 && 1 <= r.uniqCounter <= r.qValue + 1
    requires forall i :: 0 <= i < |tags| && Unread(tags[i]) ==> r.uniqCounter <= tags[i].slot <= r.qValue
    requires r.success == |ReadTags(tags)|
    requires !p.start && p.rep == 0 && p.slotNumber == r.uniqCounter && |draws| == |tags|
    requires w'.r == r.(counter := |Repliers(tags, p, draws)|) && w'.tags == Deliver(tags, p, draws)
    requires Repliers(tags, p, draws) != {} ==> w'.last in Repliers(tags, p, draws)
    ensures OuterInv(w')
  {
    SingCalls(tags, p, draws);
    forall i | 0 <= i < |w'.tags| && Unread(w'.tags[i])
      ensures r.uniqCounter <= w'.tags[i].slot <= r.qValue
    {
      assert Unread(tags[i]);
    }
  }

  /** Opening a frame for outer slot slotNumber. */
  lemma GroupQuery(r: Reader, tags: seq<Tag>, p: Packet, draws: seq<int>, w': World)
    requires r.nested && r.colTimer && !r.rsTimer && r.initialFrameSize >= 1 && 1 <= r.slotNumber <= r.qValue
    requires r.subSlotNumber == 1 && r.subQValue >= 1 && r.collisions == 0 && r.suc == 0
    requires forall i :: 0 <= i < |tags| && Unread(tags[i]) && tags[i].memory2 != r.slotNumber && tags[i].slot != r.slotNumber ==>
               r.slotNumber < tags[i].slot <= r.qValue
    requires r.success == |ReadTags(tags)|
    requires p == Packet(true, 1, r.slotNumber, r.subQValue) && |draws| == |tags| && DrawsOk(draws, p.q)
    requires w'.r == r.(counter := |Repliers(tags, p, draws)|) && w'.tags == Deliver(tags, p, draws)
    requires Repliers(tags, p, draws) != {} ==> w'.last in Repliers(tags, p, draws)
    requires w'.frameTags == Joiners(tags, p) && w'.heard == multiset(Repliers(tags, p, draws))
    ensures GroupInv(w')
  {
    StartGroup(tags, p, draws);
    FrameFirst(w'.tags, r.slotNumber, r.subQValue, w'.last);
    AccountStart(w'.tags, r.slotNumber);
  }

  /** After an outer slot with at most one reply nobody unread is left at or before it. */
  lemma OuterSlot(w: World)
    requires OuterInv(w) && w.r.counter <= 1
    ensures var tags1 := AfterSlot(w.tags, w.last, w.r.counter);
            && |tags1| == |w.tags|
            && (forall i :: 0 <= i < |tags1| && Unread(tags1[i]) ==> w.r.uniqCounter < tags1[i].slot <= w.r.qValue)
            && |ReadTags(tags1)| == w.r.success + w.r.counter
  {
    var here := Members(w.tags, 0, w.r.uniqCounter);
    var tags1 := AfterSlot(w.tags, w.last, w.r.counter);
    if w.r.counter == 1 {
      SingletonOf(here, w.last);
      AckReads(w.tags, w.last);
    }
    forall i: nat | i < |tags1| && Unread(tags1[i])
      ensures w.r.uniqCounter < tags1[i].slot <= w.r.qValue
    {
      assert Unread(w.tags[i]);
      assert i !in here;
    }
  }

  lemma OuterStep(w: World, draws: seq<int>, w': World)
    requires OuterInv(w) && Step(w, draws, w')
    ensures OuterInv(w') || GroupInv(w') || Finished(w')
    ensures |w'.tags| == |w.tags|
  {
    var r, o := w.r, Handler(w.r);
    if r.counter > 1 {
      assert w.last in Members(w.tags, 0, r.uniqCounter);
      GroupQuery(o.r, w.tags, o.query.value, draws, w');
    } else {
      OuterSlot(w);
      var tags1 := AfterSlot(w.tags, w.last, r.counter);
      if r.uniqCounter < r.qValue {
        OuterCall(o.r, tags1, o.query.value, draws, w');
      } else {
        assert UnreadTags(tags1) == {};
        NobodyLeft(w');
      }
    }
  }

  lemma OthersAfterSlot(tags: seq<Tag>, last: nat, counter: nat, k: int, q: int)
    requires Others(tags, k, q)
    ensures Others(AfterSlot(tags, last, counter), k, q)
  {
    var tags1 := AfterSlot(tags, last, counter);
    forall i | 0 <= i < |tags1| && Unread(tags1[i]) && tags1[i].memory2 != k
      ensures k < tags1[i].slot <= q
    {
      assert Unread(tags[i]);
    }
  }

  lemma OthersAfterCall(tags: seq<Tag>, p: Packet, draws: seq<int>, k: int, q: int)
    requires Others(tags, k, q) && |draws| == |tags| && !p.start && p.rep >= 0
    ensures Others(Deliver(tags, p, draws), k, q)
  {
    SingCalls(tags, p, draws);
    var tags' := Deliver(tags, p, draws);
    forall i | 0 <= i < |tags'| && Unread(tags'[i]) && tags'[i].memory2 != k
      ensures k < tags'[i].slot <= q
    {
      assert Unread(tags[i]);
    }
  }

  lemma SlotsAfter(tags: seq<Tag>, last: nat, counter: nat, rep: int, len: int)
    requires forall i :: 0 <= i < |tags| && Active(tags[i], rep) ==> 1 <= tags[i].slot <= len
    ensures var tags1 := AfterSlot(tags, last, counter);
            forall i :: 0 <= i < |tags1| && Active(tags1[i], rep) ==> 1 <= tags1[i].slot <= len
  {
    var tags1 := AfterSlot(tags, last, counter);
    forall i | 0 <= i < |tags1| && Active(tags1[i], rep)
      ensures 1 <= tags1[i].slot <= len
    {
      assert Active(tags[i], rep);
    }
  }

  /** A group frame without collisions leaves nobody of the group unread. */
  lemma GroupEmpty(tags: seq<Tag>, k: int, len: int, q: int)
    requires forall i :: 0 <= i < |tags| && Active(tags[i], k) ==> 1 <= tags[i].slot <= len
    requires Below(tags, k, len + 1) == {} && Others(tags, k, q)
    ensures forall i :: 0 <= i < |tags| && Unread(tags[i]) ==> k + 1 <= tags[i].slot <= q && tags[i].memory2 != k
  {
    forall i: nat | i < |tags| && Unread(tags[i])
      ensures k + 1 <= tags[i].slot <= q && tags[i].memory2 != k
    {
      assert i !in Below(tags, k, len + 1);
    }
  }

  /** The last slot of a group's frame: open another one, or return to the outer frame. */
  lemma GroupFrameEnd(w: World, draws: seq<int>, w': World)
    requires GroupInv(w) && Step(w, draws, w') && w.r.subSlotNumber == w.r.subQValue
    ensures OuterInv(w') || GroupInv(w')
    ensures |w'.tags| == |w.tags|
  {
    var r, o := w.r, Handler(w.r);
    var k, v := r.slotNumber, r.subSlotNumber;
    var tags1 := AfterSlot(w.tags, w.last, r.counter);
    FrameSlot(w.tags, w.last, k, v, r.subQValue, r.counter, r.collisions);
    OthersAfterSlot(w.tags, w.last, r.counter, k, r.qValue);
    if Tally(r).collisions > 0 {
      FrameSizePositive(r.estMethod, Tally(r).collisions);
      GroupQuery(o.r, tags1, o.query.value, draws, w');
    } else {
      SlotsAfter(w.tags, w.last, r.counter, k, v);
      GroupEmpty(tags1, k, v, r.qValue);
      OuterCall(o.r, tags1, o.query.value, draws, w');
    }
  }

  lemma GroupStep(w: World, draws: seq<int>, w': World)
    requires GroupInv(w) && Step(w, draws, w')
    ensures OuterInv(w') || GroupInv(w')
    ensures |w'.tags| == |w.tags|
  {
    var r, o := w.r, Handler(w.r);
    var k, v := r.slotNumber, r.subSlotNumber;
    if v < r.subQValue {
      var tags1 := AfterSlot(w.tags, w.last, r.counter);
      var p := o.query.value;
      FrameStep(w.tags, w.last, k, v, r.subQValue, r.counter, r.collisions, p, draws, w'.last);
      FrameSlot(w.tags, w.last, k, v, r.subQValue, r.counter, r.collisions);
      OthersAfterSlot(w.tags, w.last, r.counter, k, r.qValue);
      OthersAfterCall(tags1, p, draws, k, r.qValue);
      SingCalls(tags1, p, draws);
      AccountSlot(w.tags, w.last, k, v, r.subQValue, r.counter, r.collisions, r.suc, w.frameTags, w.heard);
      AccountCall(tags1, k, v, w'.r.suc, w.frameTags, w.heard, p, draws);
    } else {
      GroupFrameEnd(w, draws, w');
    }
  }

  // ----- whole inventories -----

  ghost predicate Going(w: World) {
    FlatInv(w) || OuterInv(w) || GroupInv(w) || Finished(w)
  }

  lemma RunStart(r0: Reader, tags0: seq<Tag>, draws: seq<int>, w: World)
    requires CanStart(r0, tags0)
    requires Sends(Ask(r0, false, true, 1, 0, false), tags0, 0, {}, multiset{}, draws, w)
    ensures if r0.nested then OuterInv(w) else FlatInv(w)
    ensures |w.tags| == |tags0|
  {
    var p := Packet(true, 1, 0, r0.qValue);
    assert ReadTags(tags0) == {};
    StartAll(tags0, p, draws);
    if !r0.nested {
      FlatQuery(r0.(rsTimer := true, colTimer := false), tags0, p, draws, w);
    }
  }

  lemma {:induction false} RunGoing(r0: Reader, tags0: seq<Tag>, draws: seq<seq<int>>, ws: seq<World>, k: nat)
    requires IsRun(r0, tags0, draws, ws) && k < |ws|
    ensures Going(ws[k]) && |ws[k].tags| == |tags0|
    ensures if r0.nested then !FlatInv(ws[k]) else FlatInv(ws[k]) || Finished(ws[k])
  {
    if k == 0 {
      RunStart(r0, tags0, draws[0], ws[0]);
    } else {
      RunGoing(r0, tags0, draws, ws, k - 1);
      var w, w' := ws[k - 1], ws[k];
      assert StepAt(draws, ws, k);
      if FlatInv(w) {
        FlatStep(w, draws[k], w');
      } else if OuterInv(w) {
        OuterStep(w, draws[k], w');
      } else {
        GroupStep(w, draws[k], w');
      }
    }
  }

  /** Read tags stay read and at every moment there are as many as successes, so every success
      read a tag that had not been read before. */
  lemma EachTagOnce(r0: Reader, tags0: seq<Tag>, draws: seq<seq<int>>, ws: seq<World>, k: nat)
    requires IsRun(r0, tags0, draws, ws) && k < |ws|
    ensures ws[k].r.success == |ReadTags(ws[k].tags)|
    ensures k + 1 < |ws| ==> ReadTags(ws[k].tags) <= ReadTags(ws[k + 1].tags)
  {
    RunGoing(r0, tags0, draws, ws, k);
    if Finished(ws[k]) {
      AllRead(ws[k].tags);
    }
    if k + 1 < |ws| {
      assert StepAt(draws, ws, k + 1);
    }
  }

  /** Completeness of DFSA, plain or with nested collision resolution: whenever the reader has
      stopped, every tag has been acknowledged, and there were as many successes as tags, so
      none was acknowledged twice. */
  lemma InventoryComplete(r0: Reader, tags0: seq<Tag>, draws: seq<seq<int>>, ws: seq<World>)
    requires IsRun(r0, tags0, draws, ws)
    requires var w := ws[|ws| - 1]; !w.r.rsTimer && !w.r.colTimer
    ensures var w := ws[|ws| - 1];
            && (forall i :: 0 <= i < |w.tags| ==> w.tags[i].state.Acknowledged?)
            && w.r.success == |tags0|
  {
    RunGoing(r0, tags0, draws, ws, |ws| - 1);
  }

  /** Conservation over a plain DFSA frame: its slots are all accounted for, every tag unread at
      its start replied exactly once, and the collided slots hide at least two tags each, so the
      lower-bound frame size never exceeds the backlog and a frame without collisions is the last. */
  lemma FrameConservation(r0: Reader, tags0: seq<Tag>, draws: seq<seq<int>>, ws: seq<World>, k: nat)
    requires IsRun(r0, tags0, draws, ws) && !r0.nested && k < |ws|
    requires ws[k].r.rsTimer && ws[k].r.uniqCounter == ws[k].r.qValue
    ensures var w := ws[k];
            var r1 := Tally(w.r);
            var left := |UnreadTags(AfterSlot(w.tags, w.last, w.r.counter))|;
            && r1.idle + r1.suc + r1.collisions == w.r.qValue
            && w.heard == multiset(w.frameTags) && |w.frameTags| == r1.suc + left
            && FrameSize(LowerBound, r1.collisions) <= left
            && (r1.collisions == 0 <==> left == 0)
  {
    RunGoing(r0, tags0, draws, ws, k);
    FlatFrameEnd(ws[k]);
  }

  /** The same over a sub-frame: everybody who joined it replied exactly once, twice the collided
      slots are at most what is left of the group, and without collisions the group is read. */
  lemma SubFrameConservation(r0: Reader, tags0: seq<Tag>, draws: seq<seq<int>>, ws: seq<World>, k: nat)
    requires IsRun(r0, tags0, draws, ws) && r0.nested && k < |ws|
    requires ws[k].r.colTimer && ws[k].r.subSlotNumber == ws[k].r.subQValue
    ensures var w := ws[k];
            var r1 := Tally(w.r);
            var left := Group(AfterSlot(w.tags, w.last, w.r.counter), w.r.slotNumber);
            && w.heard == multiset(w.frameTags) && |w.frameTags| == r1.suc + |left| && left <= w.frameTags
            && FrameSize(LowerBound, r1.collisions) <= |left|
            && (r1.collisions == 0 <==> left == {})
  {
    RunGoing(r0, tags0, draws, ws, k);
    var w, r := ws[k], ws[k].r;
    var s, v := r.slotNumber, r.subSlotNumber;
    FrameSlot(w.tags, w.last, s, v, v, r.counter, r.collisions);
    AccountEnd(w.tags, s, v, r.suc, w.frameTags, w.heard);
    AccountSlot(w.tags, w.last, s, v, v, r.counter, r.collisions, r.suc, w.frameTags, w.heard);
    SlotsAfter(w.tags, w.last, r.counter, s, v);
    var tags1 := AfterSlot(w.tags, w.last, r.counter);
    assert Below(tags1, s, v + 1) == Group(tags1, s);
  }

  // ----- a sub-frame's group -----

  /** The frame running in w resolves the outer slot called in w0: at least two tags collided there,
      and the group is exactly what is unread of the tags the slot claimed. */
  ghost predicate Resolves(w0: World, w: World) {
    var s := w0.r.uniqCounter;
    && w.r.slotNumber == s && |Members(w0.tags, 0, s)| >= 2
    && Group(w.tags, s) == Claimed(w0.tags, s) * UnreadTags(w.tags)
  }

  lemma GroupOpens(w: World, draws: seq<int>, w': World)
    requires OuterInv(w) && Step(w, draws, w') && w'.r.colTimer
    ensures Resolves(w, w')
  {
    assert w.r.counter > 1;
    StartGroup(w.tags, Handler(w.r).query.value, draws);
  }

  /** Inside a group only acknowledgements change who belongs to it. */
  lemma GroupShrinks(w: World, draws: seq<int>, w': World)
    requires GroupInv(w) && Step(w, draws, w') && w'.r.colTimer
    ensures w'.r.slotNumber == w.r.slotNumber && UnreadTags(w'.tags) <= UnreadTags(w.tags)
    ensures Group(w'.tags, w.r.slotNumber) == Group(w.tags, w.r.slotNumber) * UnreadTags(w'.tags)
  {
  }

  lemma ResolvesStep(w0: World, w: World, draws: seq<int>, w': World)
    requires GroupInv(w) && Step(w, draws, w') && w'.r.colTimer && Resolves(w0, w)
    ensures Resolves(w0, w')
  {
    GroupShrinks(w, draws, w');
  }

  lemma RunNested(r0: Reader, tags0: seq<Tag>, draws: seq<seq<int>>, ws: seq<World>, k: nat)
    requires IsRun(r0, tags0, draws, ws) && r0.nested && k < |ws|
    ensures ws[k].r.rsTimer ==> OuterInv(ws[k])
    ensures ws[k].r.colTimer ==> GroupInv(ws[k])
  {
    RunGoing(r0, tags0, draws, ws, k);
  }

  lemma ResolvesFirst(r0: Reader, tags0: seq<Tag>, draws: seq<seq<int>>, ws: seq<World>, j: nat)
    requires IsRun(r0, tags0, draws, ws) && r0.nested && j + 1 < |ws| && ws[j].r.rsTimer && ws[j + 1].r.colTimer
    ensures Resolves(ws[j], ws[j + 1])
  {
    RunNested(r0, tags0, draws, ws, j);
    assert StepAt(draws, ws, j + 1);
    GroupOpens(ws[j], draws[j + 1], ws[j + 1]);
  }

  lemma ResolvesNext(r0: Reader, tags0: seq<Tag>, draws: seq<seq<int>>, ws: seq<World>, w0: World, k: nat)
    requires IsRun(r0, tags0, draws, ws) && r0.nested && 0 < k < |ws| && ws[k - 1].r.colTimer && ws[k].r.colTimer
    requires Resolves(w0, ws[k - 1])
    ensures Resolves(w0, ws[k])
  {
    RunNested(r0, tags0, draws, ws, k - 1);
    assert StepAt(draws, ws, k);
    ResolvesStep(w0, ws[k - 1], draws[k], ws[k]);
  }

  /** From the outer slot called at j on, as long as sub-frames run, they resolve that slot. */
  lemma {:induction false} GroupIsClaimed(r0: Reader, tags0: seq<Tag>, draws: seq<seq<int>>, ws: seq<World>, j: nat, k: nat)
    requires IsRun(r0, tags0, draws, ws) && r0.nested && j < k < |ws|
    requires ws[j].r.rsTimer && forall m :: j < m <= k ==> ws[m].r.colTimer
    ensures Resolves(ws[j], ws[k])
  {
    if k == j + 1 {
      ResolvesFirst(r0, tags0, draws, ws, j);
    } else {
      GroupIsClaimed(r0, tags0, draws, ws, j, k - 1);
      ResolvesNext(r0, tags0, draws, ws, ws[j], k);
    }
  }

  /** Unread tags outside the group being resolved have never been in one. */
  predicate Fresh(w: World) {
    forall i :: 0 <= i < |w.tags| && Unread(w.tags[i]) ==>
      w.tags[i].memory2 == -1 || (w.r.colTimer && w.tags[i].memory2 == w.r.slotNumber)
  }

  lemma FreshStep(w: World, draws: seq<int>, w': World)
    requires OuterInv(w) || GroupInv(w)
    requires Fresh(w) && Step(w, draws, w')
    ensures Fresh(w')
  {
    if GroupInv(w) && !w'.r.colTimer {
      GroupCloses(w, draws, w');
    }
  }

  /** When a group's last frame ends, nobody unread belongs to the group. */
  lemma GroupCloses(w: World, draws: seq<int>, w': World)
    requires GroupInv(w) && Step(w, draws, w') && !w'.r.colTimer
    ensures forall i :: 0 <= i < |w'.tags| && Unread(w'.tags[i]) ==>
              i < |w.tags| && Unread(w.tags[i]) && w'.tags[i].memory2 == w.tags[i].memory2 != w.r.slotNumber
  {
    var r, k := w.r, w.r.slotNumber;
    var tags1 := AfterSlot(w.tags, w.last, r.counter);
    assert r.subSlotNumber == r.subQValue && Tally(r).collisions == 0;
    FrameSlot(w.tags, w.last, k, r.subSlotNumber, r.subQValue, r.counter, r.collisions);
    OthersAfterSlot(w.tags, w.last, r.counter, k, r.qValue);
    SlotsAfter(w.tags, w.last, r.counter, k, r.subQValue);
    GroupEmpty(tags1, k, r.subQValue, r.qValue);
    SingCalls(tags1, Handler(r).query.value, draws);
  }

  lemma StartFresh(r0: Reader, tags0: seq<Tag>, draws: seq<int>, w: World)
    requires Sends(Ask(r0, false, true, 1, 0, false), tags0, 0, {}, multiset{}, draws, w)
    requires forall i :: 0 <= i < |tags0| ==> tags0[i].memory2 == -1
    ensures Fresh(w)
  {
  }

  lemma FreshAt(draws: seq<seq<int>>, ws: seq<World>, k: nat)
    requires 0 < k < |ws| == |draws| && StepAt(draws, ws, k) && Fresh(ws[k - 1])
    requires OuterInv(ws[k - 1]) || GroupInv(ws[k - 1])
    ensures Fresh(ws[k])
  {
    FreshStep(ws[k - 1], draws[k], ws[k]);
  }

  lemma {:induction false} RunFresh(r0: Reader, tags0: seq<Tag>, draws: seq<seq<int>>, ws: seq<World>, k: nat)
    requires IsRun(r0, tags0, draws, ws) && r0.nested && k < |ws|
    requires forall i :: 0 <= i < |tags0| ==> tags0[i].memory2 == -1
    ensures Fresh(ws[k])
  {
    if k == 0 {
      StartFresh(r0, tags0, draws[0], ws[0]);
    } else {
      RunFresh(r0, tags0, draws, ws, k - 1);
      RunNested(r0, tags0, draws, ws, k - 1);
      assert StepAt(draws, ws, k);
      FreshAt(draws, ws, k);
    }
  }

  /** With tags as they are created, a sub-frame's group is exactly the unread tags of the outer
      slot that collided. */
  lemma GroupIsSlot(r0: Reader, tags0: seq<Tag>, draws: seq<seq<int>>, ws: seq<World>, j: nat, k: nat)
    requires IsRun(r0, tags0, draws, ws) && r0.nested && j < k < |ws|
    requires ws[j].r.rsTimer && forall m :: j < m <= k ==> ws[m].r.colTimer
    requires forall i :: 0 <= i < |tags0| ==> tags0[i].memory2 == -1
    ensures var s := ws[k].r.slotNumber;
            Group(ws[k].tags, s) == Members(ws[j].tags, 0, s) * UnreadTags(ws[k].tags)
  {
    GroupIsClaimed(r0, tags0, draws, ws, j, k);
    RunFresh(r0, tags0, draws, ws, j);
    RunNested(r0, tags0, draws, ws, j);
    var s := ws[j].r.uniqCounter;
    assert Claimed(ws[j].tags, s) == Members(ws[j].tags, 0, s);
  }

  // ----- frame sizes, slots and the end -----

  /** The frame that answers col collided slots has the size its method asks for: twice col, the
      integer nearest to 2.39 col, or the whole part of 2.45 or 2.62 col. It is the outer frame for
      rep 0 and else the sub-frame of rep, and starts with its first slot. */
  lemma NextFrame(r: Reader, ack: bool, col: nat, rep: int)
    requires col > 0
    ensures var o := CalculateNextQ(r, ack, col, rep);
            && o.ack == ack && o.query.Some? && o.query.value.start && o.query.value.rep == rep
            && var q := o.query.value.q;
            && (r.estMethod.LowerBound? ==> q == col + col)
            && (r.estMethod.Schoute? ==> q as real - 0.5 <= 2.39 * col as real < q as real + 0.5)
            && (r.estMethod.Factor245? ==> q as real <= 2.45 * col as real < q as real + 1.0)
            && (r.estMethod.Factor262? ==> q as real <= 2.62 * col as real < q as real + 1.0)
            && (if rep == 0
                then o.r == r.(qValue := q, rsTimer := true, colTimer := false) && o.query.value.slotNumber == r.uniqCounter
                else o.r == r.(subQValue := q, rsTimer := false, colTimer := true) && o.query.value.slotNumber == r.subSlotNumber)
  {
  }

  /** Without collisions a sub-frame hands back to the outer slot after the one it resolved, and an
      outer frame ends the inventory. */
  lemma NoNextFrame(r: Reader, ack: bool, rep: int)
    ensures var o := CalculateNextQ(r, ack, 0, rep);
            && o.ack == ack
            && (rep == 0 ==> o.query == None && o.r == r)
            && (rep != 0 ==>
                  && o.query == Some(Packet(false, r.slotNumber + 1, 0, r.qValue))
                  && o.r == r.(uniqCounter := r.slotNumber + 1, counter := 0, rsTimer := true, colTimer := false))
  {
  }

  lemma SlotCounted(w: World, draws: seq<int>, w': World)
    requires Step(w, draws, w')
    ensures w'.r.slotCounter == w.r.slotCounter + 1
  {
    HandlerCounts(w.r);
  }

  lemma HandlerCounts(r: Reader)
    ensures Handler(r).r.slotCounter == r.slotCounter + 1
  {
  }

  lemma StartCounted(r0: Reader, tags0: seq<Tag>, draws: seq<int>, w: World)
    requires Sends(Ask(r0, false, true, 1, 0, false), tags0, 0, {}, multiset{}, draws, w)
    ensures w.r.slotCounter == r0.slotCounter
  {
  }

  /** The slots that slotCounter counts are the steps of the run. */
  lemma {:induction false} SlotsCounted(r0: Reader, tags0: seq<Tag>, draws: seq<seq<int>>, ws: seq<World>, k: nat)
    requires IsRun(r0, tags0, draws, ws) && k < |ws|
    ensures ws[k].r.slotCounter == r0.slotCounter + k
  {
    if k == 0 {
      StartCounted(r0, tags0, draws[0], ws[0]);
    } else {
      SlotsCounted(r0, tags0, draws, ws, k - 1);
      assert StepAt(draws, ws, k);
      SlotCounted(ws[k - 1], draws[k], ws[k]);
    }
  }

  /** Plain DFSA stops exactly when a frame ends that leaves nobody unread. */
  lemma PlainStops(r0: Reader, tags0: seq<Tag>, draws: seq<seq<int>>, ws: seq<World>, k: nat)
    requires IsRun(r0, tags0, draws, ws) && !r0.nested && 0 < k < |ws|
    ensures var w := ws[k - 1];
            !ws[k].r.rsTimer && !ws[k].r.colTimer <==>
              w.r.uniqCounter == w.r.qValue && UnreadTags(AfterSlot(w.tags, w.last, w.r.counter)) == {}
  {
    RunGoing(r0, tags0, draws, ws, k - 1);
    assert StepAt(draws, ws, k);
    var w := ws[k - 1];
    if w.r.uniqCounter == w.r.qValue {
      FlatFrameEnd(w);
    } else {
      FlatMoves(w, draws[k], ws[k]);
    }
  }

  /** The nested reader stops exactly when the last slot of the outer frame, or the one after it, has
      not collided. */
  lemma NestedStops(r0: Reader, tags0: seq<Tag>, draws: seq<seq<int>>, ws: seq<World>, k: nat)
    requires IsRun(r0, tags0, draws, ws) && r0.nested && 0 < k < |ws|
    ensures var r := ws[k - 1].r;
            !ws[k].r.rsTimer && !ws[k].r.colTimer <==> r.rsTimer && r.uniqCounter >= r.qValue && r.counter <= 1
  {
    RunNested(r0, tags0, draws, ws, k - 1);
    assert StepAt(draws, ws, k);
  }
}
