/** The Q algorithm (operation 0): reader, tags and a lossless slotted channel. */
module RfidQ {
  import opened Common
  import opened RfidModel

  // ----- the tag (STANDARD service) -----

  function Pow2(n: nat): nat {
    if n == 0 then 1 else 2 * Pow2(n - 1)
  }

  /** A slot drawn for Q: truncated from the range 0 to 2^Q - 1, which for a negative Q is 0. */
  predicate SlotOk(q: int, draw: int) {
    if q < 0 then draw == 0 else 0 <= draw < Pow2(q)
  }

  /** RC_QUERY and RC_QUERYADJUST draw anew. reenter: an RC_QUERY that an acknowledged tag obeys
      too (other reader, or the mechanism switched off). */
  function Draw(t: Tag, q: int, draw: int, reenter: bool): Tag {
    if t.state.Acknowledged? && !reenter then t.(memory := q)
    else t.(state := if draw == 0 then Replying else Arbitrate, slot := draw, memory := q)
  }

  predicate DrawReplies(t: Tag, draw: int, reenter: bool) {
    (reenter || Unread(t)) && draw == 0
  }

  /** The unicast RC_QUERYREPLY. */
  function Identify(t: Tag): Tag {
    t.(state := Acknowledged, slot := t.slot - 1)
  }

  /** The broadcast RC_QUERYREPLY: everybody waiting moves one slot up. */
  function CountDown(t: Tag): Tag {
    if t.slot > 0 && Unread(t)
    then t.(slot := t.slot - 1, state := if t.slot == 1 then Replying else Arbitrate)
    else t
  }

  predicate CountDownReplies(t: Tag) {
    t.slot == 1 && Unread(t)
  }

  // ----- the reader -----

  datatype QReader = QReader(qValue: int, qfp: real, c: real, counter: nat,
                             idle: nat, success: nat, collisions: nat, slotCounter: nat, timer: bool)

  function Round(x: real): int {
    (x + 0.5).Floor
  }

  datatype Command = Adjust | IdentifyAndCount | Halt

  datatype QOut = QOut(r: QReader, command: Command)

  /** start_sing for a slot in which counter replies were heard. */
  function StartSing(r: QReader): QOut {
    var r0 := r.(slotCounter := r.slotCounter + 1, timer := false);
    if r0.counter == 0 then
      var qfp := MinReal(MaxReal(0.0, r0.qfp - r0.c), 15.0);
      var r1 := r0.(idle := r0.idle + 1, qfp := qfp, qValue := if r0.qValue != -1 then Round(qfp) else -1);
      if r1.qValue > 0 then QOut(r1.(timer := true), Adjust)
      else if r1.qValue == 0 then QOut(r1.(qValue := -1, timer := true), Adjust)
      else QOut(r1, Halt)
    else if r0.counter == 1 then
      QOut(r0.(success := r0.success + 1, counter := 0, timer := true), IdentifyAndCount)
    else
      var qfp := MaxReal(MinReal(15.0, r0.qfp + r0.c), 0.0);
      var r1 := r0.(collisions := r0.collisions + 1, qfp := qfp, qValue := Round(qfp), counter := 0);
      QOut(r1.(timer := r1.qValue != 15), Adjust)
  }

  // ----- the channel -----

  datatype QWorld = QWorld(r: QReader, tags: seq<Tag>, last: nat)

  function DrawAll(tags: seq<Tag>, q: int, draws: seq<int>, reenter: bool): seq<Tag>
    requires |draws| == |tags|
  {
    seq(|tags|, i requires 0 <= i < |tags| => Draw(tags[i], q, draws[i], reenter))
  }

  function DrawRepliers(tags: seq<Tag>, draws: seq<int>, reenter: bool): set<nat>
    requires |draws| == |tags|
  {
    set i: nat | i < |tags| && DrawReplies(tags[i], draws[i], reenter)
  }

  function IdentifyOne(tags: seq<Tag>, i: nat): seq<Tag> {
    if i < |tags| then tags[i := Identify(tags[i])] else tags
  }

  function CountDownAll(tags: seq<Tag>): seq<Tag> {
    seq(|tags|, i requires 0 <= i < |tags| => CountDown(tags[i]))
  }

  function CountDownRepliers(tags: seq<Tag>): set<nat> {
    set i: nat | i < |tags| && CountDownReplies(tags[i])
  }

  /** The slot that follows an adjustment: all replies are heard. */
  ghost predicate Adjusts(r: QReader, tags: seq<Tag>, draws: seq<int>, reenter: bool, w': QWorld) {
    && |draws| == |tags|
    && (forall i :: 0 <= i < |draws| ==> SlotOk(r.qValue, draws[i]))
    && var who := DrawRepliers(tags, draws, reenter);
    && w'.r == r.(counter := r.counter + |who|)
    && w'.tags == DrawAll(tags, r.qValue, draws, reenter)
    && (who != {} ==> w'.last in who)
  }

  /** The slot that follows an identification. The identified tag's answer resets the reader's
      counter, so only the replies that come after it are counted. */
  ghost predicate Identifies(r: QReader, tags: seq<Tag>, last: nat, w': QWorld) {
    var tags1 := IdentifyOne(tags, last);
    var who := CountDownRepliers(tags1);
    && w'.r == r.(counter := w'.r.counter)
    && w'.r.counter <= |who|
    && w'.tags == CountDownAll(tags1)
    && (w'.r.counter > 0 ==> w'.last in who)
  }

  ghost predicate QStep(w: QWorld, draws: seq<int>, w': QWorld) {
    && w.r.timer
    && var o := StartSing(w.r);
    match o.command
    case Adjust => Adjusts(o.r, w.tags, draws, false, w')
    case IdentifyAndCount => Identifies(o.r, w.tags, w.last, w')
    case Halt => w' == w.(r := o.r)
  }

  ghost predicate IsQRun(r0: QReader, tags0: seq<Tag>, reenter: bool, draws: seq<seq<int>>, ws: seq<QWorld>) {
    && |ws| >= 1 && |draws| == |ws|
    && r0.counter == 0 && r0.timer && -1 <= r0.qValue
    && Adjusts(r0, tags0, draws[0], reenter, ws[0])
    && forall i :: 0 <= i < |ws| - 1 ==> QStep(ws[i], draws[i + 1], ws[i + 1])
  }

  // ----- what every slot keeps -----

  /** Every reply counted came from a tag still unread; and once Q is -1 every unread tag was
      heard, because it can only have drawn slot 0. */
  ghost predicate QInv(w: QWorld) {
    && -1 <= w.r.qValue
    && w.r.counter <= |UnreadTags(w.tags)|
    && (w.r.counter > 0 ==> w.last in UnreadTags(w.tags))
    && (w.r.qValue == -1 && w.r.timer ==> w.r.counter == |UnreadTags(w.tags)|)
    && (!w.r.timer ==> (w.r.qValue == -1 && UnreadTags(w.tags) == {}) || (w.r.qValue == 15 && |UnreadTags(w.tags)| >= 2))
  }

  lemma AdjustKeeps(r: QReader, tags: seq<Tag>, draws: seq<int>, reenter: bool, w': QWorld)
    requires Adjusts(r, tags, draws, reenter, w') && r.counter == 0 && -1 <= r.qValue
    requires r.timer || (r.qValue == 15 && !reenter && |UnreadTags(tags)| >= 2)
    ensures QInv(w')
    ensures !reenter ==> UnreadTags(w'.tags) == UnreadTags(tags)
  {
    var who := DrawRepliers(tags, draws, reenter);
    assert who <= UnreadTags(w'.tags);
    SubsetSize(who, UnreadTags(w'.tags));
    if r.qValue == -1 {
      forall i | i in UnreadTags(w'.tags)
        ensures i in who
      {
        assert SlotOk(r.qValue, draws[i]);
      }
      assert who == UnreadTags(w'.tags);
    }
    if !reenter {
      assert UnreadTags(w'.tags) == UnreadTags(tags);
    }
  }

  lemma IdentifyKeeps(r: QReader, tags: seq<Tag>, last: nat, w': QWorld)
    requires Identifies(r, tags, last, w') && -1 <= r.qValue && r.timer
    requires last in UnreadTags(tags) && (r.qValue == -1 ==> |UnreadTags(tags)| == 1)
    ensures QInv(w')
    ensures UnreadTags(w'.tags) == UnreadTags(tags) - {last}
  {
    var tags1 := IdentifyOne(tags, last);
    var who := CountDownRepliers(tags1);
    assert UnreadTags(w'.tags) == UnreadTags(tags) - {last};
    assert who <= UnreadTags(w'.tags);
    SubsetSize(who, UnreadTags(w'.tags));
  }

  lemma RoundRange(x: real)
    requires 0.0 <= x <= 15.0
    ensures 0 <= Round(x) <= 15
  {
  }

  lemma QStepKeeps(w: QWorld, draws: seq<int>, w': QWorld)
    requires QInv(w) && QStep(w, draws, w')
    ensures QInv(w')
    ensures w'.r.success + |UnreadTags(w'.tags)| == w.r.success + |UnreadTags(w.tags)|
  {
    var r, o := w.r, StartSing(w.r);
    RoundRange(MinReal(MaxReal(0.0, r.qfp - r.c), 15.0));
    RoundRange(MaxReal(MinReal(15.0, r.qfp + r.c), 0.0));
    match o.command
    case Adjust => AdjustKeeps(o.r, w.tags, draws, false, w');
    case IdentifyAndCount => IdentifyKeeps(o.r, w.tags, w.last, w');
    case Halt =>
  }

  lemma {:induction false} QRunKeeps(r0: QReader, tags0: seq<Tag>, reenter: bool, draws: seq<seq<int>>, ws: seq<QWorld>, k: nat)
    requires IsQRun(r0, tags0, reenter, draws, ws) && k < |ws|
    ensures QInv(ws[k])
    ensures ws[k].r.success + |UnreadTags(ws[k].tags)| == r0.success + |UnreadTags(ws[0].tags)|
  {
    if k == 0 {
      AdjustKeeps(r0, tags0, draws[0], reenter, ws[0]);
    } else {
      QRunKeeps(r0, tags0, reenter, draws, ws, k - 1);
      assert QStep(ws[k - 1], draws[k - 1 + 1], ws[k]);
      QStepKeeps(ws[k - 1], draws[k], ws[k]);
    }
  }

  /** When the Q algorithm has halted, every tag has been identified exactly when it halted with
      Q = -1; the other way to halt, Q = 15, always leaves at least two tags unread. Successes
      and unread tags always add up to the tags that entered. */
  lemma QHaltSound(r0: QReader, tags0: seq<Tag>, reenter: bool, draws: seq<seq<int>>, ws: seq<QWorld>)
    requires IsQRun(r0, tags0, reenter, draws, ws) && !ws[|ws| - 1].r.timer
    ensures var w := ws[|ws| - 1];
            && ((forall i :: 0 <= i < |w.tags| ==> w.tags[i].state.Acknowledged?) <==> w.r.qValue == -1)
            && (w.r.qValue != -1 ==> w.r.qValue == 15 && |UnreadTags(w.tags)| >= 2)
            && w.r.success - r0.success == |UnreadTags(ws[0].tags)| - |UnreadTags(w.tags)|
  {
    var w := ws[|ws| - 1];
    QRunKeeps(r0, tags0, reenter, draws, ws, |ws| - 1);
    if w.r.qValue == -1 {
      forall i: nat | i < |w.tags|
        ensures w.tags[i].state.Acknowledged?
      {
        assert i !in UnreadTags(w.tags);
      }
    } else {
      var i :| i in UnreadTags(w.tags);
      assert Unread(w.tags[i]);
    }
  }

  /** Halting with tags unread does happen: two tags that answer together twice while Q is 15. */
  lemma HaltUnread() returns (r0: QReader, tags0: seq<Tag>, draws: seq<seq<int>>, ws: seq<QWorld>)
    ensures IsQRun(r0, tags0, true, draws, ws) && !ws[|ws| - 1].r.timer
    ensures r0.qValue == 15 && |tags0| == 2 && UnreadTags(ws[|ws| - 1].tags) == {0, 1}
  {
    r0 := QReader(15, 15.0, 0.5, 0, 0, 0, 0, 0, true);
    tags0 := [Tag(Ready, 0, 0, -1), Tag(Ready, 0, 0, -1)];
    draws := [[0, 0], [1, 1]];
    assert Pow2(15) >= 2;
    var tags1 := DrawAll(tags0, 15, draws[0], true);
    var who := DrawRepliers(tags0, draws[0], true);
    assert who == {0, 1};
    var w0 := QWorld(r0.(counter := 2), tags1, 0);
    assert Adjusts(r0, tags0, draws[0], true, w0);
    var o := StartSing(w0.r);
    assert o.r.qValue == 15 && !o.r.timer && o.command == Adjust;
    var who1 := DrawRepliers(tags1, draws[1], false);
    var w1 := QWorld(o.r.(counter := |who1|), DrawAll(tags1, 15, draws[1], false), 0);
    assert who1 == {};
    assert QStep(w0, draws[1], w1);
    ws := [w0, w1];
    assert IsQRun(r0, tags0, true, draws, ws);
    assert UnreadTags(w1.tags) == {0, 1};
  }

  // ----- what one slot does -----

  /** A tag that takes part keeps the slot it drew and replies at once exactly if that is slot 0;
      any other only notes Q. */
  lemma DrawTaken(t: Tag, q: int, draw: int, reenter: bool)
    ensures var t' := Draw(t, q, draw, reenter);
            if !t.state.Acknowledged? || reenter
            then t'.slot == draw && (t'.state.Replying? <==> draw == 0) && !t'.state.Acknowledged?
                 && (DrawReplies(t, draw, reenter) <==> draw == 0)
            else t'.state.Acknowledged? && t'.slot == t.slot && !DrawReplies(t, draw, reenter)
  {
  }

  /** An identified tag is read, replies no more, and has left its slot. */
  lemma IdentifiedRests(t: Tag, draw: int)
    ensures var t' := Identify(t);
            && t'.state.Acknowledged? && t'.slot == t.slot - 1
            && !CountDownReplies(t') && CountDown(t') == t' && !DrawReplies(t', draw, false)
  {
  }

  /** A tag after n count-downs. */
  function CountedDown(t: Tag, n: nat): Tag {
    if n == 0 then t else CountDown(CountedDown(t, n - 1))
  }

  /** An unread tag in slot s > 0 replies to the s-th count-down and to none before it. */
  lemma {:induction false} CountDownTurn(t: Tag, n: nat)
    requires Unread(t) && 0 <= n < t.slot
    ensures Unread(CountedDown(t, n)) && CountedDown(t, n).slot == t.slot - n
    ensures CountDownReplies(CountedDown(t, n)) <==> n + 1 == t.slot
    ensures n + 1 == t.slot ==> CountedDown(t, n + 1).slot == 0 && CountedDown(t, n + 1).state.Replying?
  {
    if n > 0 {
      CountDownTurn(t, n - 1);
    }
  }

  predicate Nearest(q: int, x: real) {
    q as real - 0.5 <= x < q as real + 0.5
  }

  /** An idle slot lowers Qfp by c, a collision raises it by c, between 0 and 15; Q is the integer
      nearest to it, except that it goes below 0 to ask everybody, and then stays there until a
      collision. A slot with one reply leaves both alone. */
  lemma QMoves(r: QReader)
    ensures var o := StartSing(r);
            && o.r.slotCounter == r.slotCounter + 1 && o.r.c == r.c
            && o.r.idle + o.r.success + o.r.collisions == r.idle + r.success + r.collisions + 1
            && (r.counter == 0 ==>
                  && o.r.idle == r.idle + 1
                  && o.r.qfp == (if r.qfp - r.c < 0.0 then 0.0 else if r.qfp - r.c > 15.0 then 15.0 else r.qfp - r.c)
                  && (r.qValue == -1 ==> o.r.qValue == -1 && o.command == Halt)
                  && (r.qValue != -1 ==>
                        && o.command == Adjust && o.r.timer
                        && (if o.r.qfp < 0.5 then o.r.qValue == -1 else Nearest(o.r.qValue, o.r.qfp) && 1 <= o.r.qValue <= 15)))
            && (r.counter == 1 ==>
                  && o.r == r.(slotCounter := r.slotCounter + 1, success := r.success + 1, counter := 0, timer := true)
                  && o.command == IdentifyAndCount)
            && (r.counter > 1 ==>
                  && o.r.collisions == r.collisions + 1
                  && o.r.qfp == (if r.qfp + r.c > 15.0 then 15.0 else if r.qfp + r.c < 0.0 then 0.0 else r.qfp + r.c)
                  && Nearest(o.r.qValue, o.r.qfp) && 0 <= o.r.qValue <= 15
                  && o.command == Adjust && (o.r.timer <==> o.r.qValue != 15))
  {
  }
}
