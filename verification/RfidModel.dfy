/** RFID framed slotted ALOHA: tags, reader and a lossless slot-synchronous channel between them.
    A tag's random slot is an arbitrary value in the range it draws from. */
module RfidModel {
  import opened Common

  datatype TagState = Ready | Arbitrate | Replying | Acknowledged

  datatype Tag = Tag(state: TagState, slot: int, memory: int, memory2: int)

  /** RC_QUERY (start) or RC_SING; rep names the outer slot being resolved, 0 for all tags. */
  datatype Packet = Packet(start: bool, slotNumber: int, rep: int, q: int)

  // ----- the tag (EDFSA service) -----

  predicate Unread(t: Tag) {
    !t.state.Acknowledged?
  }

  /** Whether an RC_QUERY makes the tag draw a new slot. */
  predicate Joins(t: Tag, p: Packet) {
    Unread(t) && (p.rep == 0 || (p.rep > 0 && (p.rep == t.slot || p.rep == t.memory2)))
  }

  function Join(t: Tag, p: Packet, draw: int): Tag {
    Tag(if p.slotNumber == draw then Replying else Arbitrate, draw, p.q,
        if p.rep > 0 && p.rep == t.slot then p.rep else t.memory2)
  }

  /** Whether an RC_SING is this tag's turn. */
  predicate Called(t: Tag, p: Packet) {
    Unread(t) && p.slotNumber == t.slot && (p.rep == 0 || (p.rep > 0 && p.rep == t.memory2))
  }

  function TagRecv(t: Tag, p: Packet, draw: int): Tag {
    if p.start then (if Joins(t, p) then Join(t, p, draw) else t)
    else if Called(t, p) then t.(state := Replying)
    else t
  }

  predicate TagReplies(t: Tag, p: Packet, draw: int) {
    if p.start then Joins(t, p) && p.slotNumber == draw else Called(t, p)
  }

  // ----- the reader -----

  datatype Method = LowerBound | Schoute | Factor245 | Factor262

  /** The next frame size for col collided slots. */
  function FrameSize(m: Method, col: nat): nat {
    match m
    case LowerBound => 2 * col
    case Schoute => (239 * col + 50) / 100
    case Factor245 => 245 * col / 100
    case Factor262 => 262 * col / 100
  }

  datatype Reader = Reader(
    nested: bool, estMethod: Method, initialFrameSize: int,
    qValue: int, uniqCounter: int, counter: nat,
    idle: nat, success: nat, suc: nat, collisions: nat, slotCounter: nat,
    slotNumber: int, subQValue: int, subSlotNumber: int,
    rsTimer: bool, colTimer: bool)

  /** What a timer handler does: new state, whether it acknowledges the last tag heard, and the
      query it broadcasts after that. */
  datatype Out = Out(r: Reader, ack: bool, query: Option<Packet>)

  /** query() followed by rescheduling the timer that belongs to rep. */
  function Ask(r: Reader, ack: bool, start: bool, slotNumber: int, rep: int, sub: bool): Out {
    Out(r.(rsTimer := !sub, colTimer := sub), ack,
        Some(Packet(start, slotNumber, rep, if rep == 0 then r.qValue else r.subQValue)))
  }

  /** The counting common to all slot handlers. */
  function Tally(r: Reader): Reader {
    r.(slotCounter := r.slotCounter + 1,
       idle := if r.counter == 0 then r.idle + 1 else r.idle,
       success := if r.counter == 1 then r.success + 1 else r.success,
       suc := if r.counter == 1 then r.suc + 1 else r.suc,
       collisions := if r.counter > 1 then r.collisions + 1 else r.collisions,
       rsTimer := false, colTimer := false)
  }

  function CalculateNextQ(r: Reader, ack: bool, col: nat, rep: int): Out {
    if col > 0 then
      if rep == 0 then Ask(r.(qValue := FrameSize(r.estMethod, col)), ack, true, r.uniqCounter, rep, false)
      else Ask(r.(subQValue := FrameSize(r.estMethod, col)), ack, true, r.subSlotNumber, rep, true)
    else if rep != 0 then
      var r1 := r.(uniqCounter := r.slotNumber + 1, counter := 0);
      Ask(r1, ack, false, r1.uniqCounter, 0, false)
    else Out(r, ack, None)
  }

  function StartEdfsa(r: Reader): Out {
    var ack := r.counter == 1;
    var r1 := Tally(r).(uniqCounter := r.uniqCounter + 1);
    if r1.uniqCounter <= r1.qValue then Ask(r1.(counter := 0), ack, false, r1.uniqCounter, 0, false)
    else
      CalculateNextQ(r1.(collisions := 0, suc := 0, idle := 0, counter := 0, uniqCounter := 1), ack, r1.collisions, 0)
  }

  function StartEstimationDfsa(r: Reader): Out {
    var ack := r.counter == 1;
    var r1 := Tally(r).(uniqCounter := r.uniqCounter + 1);
    if r.counter > 1 then
      var r2 := r1.(slotNumber := r1.uniqCounter - 1, uniqCounter := r1.qValue + 1, subQValue := r1.initialFrameSize,
                    subSlotNumber := 1, counter := 0, collisions := 0, suc := 0);
      Ask(r2, ack, true, r2.subSlotNumber, r2.slotNumber, true)
    else if r1.uniqCounter <= r1.qValue then Ask(r1.(counter := 0), ack, false, r1.uniqCounter, 0, false)
    else Out(r1, ack, None)
  }

  function ResolveCollisions(r: Reader): Out {
    var ack := r.counter == 1;
    var r1 := Tally(r).(subSlotNumber := r.subSlotNumber + 1);
    if r1.subSlotNumber <= r1.subQValue then
      Ask(r1.(counter := 0), ack, false, r1.subSlotNumber, r1.slotNumber, true)
    else
      CalculateNextQ(r1.(collisions := 0, suc := 0, idle := 0, counter := 0, subSlotNumber := 1),
                     ack, r1.collisions, r1.slotNumber)
  }

  function Handler(r: Reader): Out {
    if r.colTimer then ResolveCollisions(r)
    else if r.nested then StartEstimationDfsa(r)
    else StartEdfsa(r)
  }

  // ----- the channel -----

  /** last: the tag heard last. frameTags: the tags that joined the frame when it began. heard: who
      has replied in it so far, and how often. */
  datatype World = World(r: Reader, tags: seq<Tag>, last: nat, frameTags: set<nat>, heard: multiset<nat>)

  function Repliers(tags: seq<Tag>, p: Packet, draws: seq<int>): set<nat>
    requires |draws| == |tags|
  {
    set i: nat | i < |tags| && TagReplies(tags[i], p, draws[i])
  }

  function Joiners(tags: seq<Tag>, p: Packet): set<nat> {
    set i: nat | i < |tags| && Joins(tags[i], p)
  }

  function Deliver(tags: seq<Tag>, p: Packet, draws: seq<int>): seq<Tag>
    requires |draws| == |tags|
  {
    seq(|tags|, i requires 0 <= i < |tags| => TagRecv(tags[i], p, draws[i]))
  }

  /** The unicast RC_QUERYREPLY. */
  function Acknowledge(tags: seq<Tag>, i: nat): seq<Tag> {
    if i < |tags| then tags[i := tags[i].(state := Acknowledged)] else tags
  }

  function UnreadTags(tags: seq<Tag>): set<nat> {
    set i: nat | i < |tags| && Unread(tags[i])
  }

  function ReadTags(tags: seq<Tag>): set<nat> {
    set i: nat | i < |tags| && !Unread(tags[i])
  }

  predicate DrawsOk(draws: seq<int>, q: int) {
    forall i :: 0 <= i < |draws| ==> 1 <= draws[i] <= q
  }

  /** w' results from w by sending what the reader asks for, for some draws of the tags. */
  ghost predicate Sends(o: Out, tags: seq<Tag>, last: nat, frameTags: set<nat>, heard: multiset<nat>, draws: seq<int>, w': World) {
    var tags1 := if o.ack then Acknowledge(tags, last) else tags;
    match o.query
    case None => w' == World(o.r, tags1, last, frameTags, heard)
    case Some(p) =>
      && |draws| == |tags| && (p.start ==> DrawsOk(draws, p.q))
      && var who := Repliers(tags1, p, draws);
      && w'.r == o.r.(counter := o.r.counter + |who|)
      && w'.tags == Deliver(tags1, p, draws)
      && (who != {} ==> w'.last in who)
      && w'.frameTags == (if p.start then Joiners(tags1, p) else frameTags)
      && w'.heard == (if p.start then multiset{} else heard) + multiset(who)
  }

  ghost predicate Step(w: World, draws: seq<int>, w': World) {
    && (w.r.rsTimer || w.r.colTimer)
    && Sends(Handler(w.r), w.tags, w.last, w.frameTags, w.heard, draws, w')
  }

  /** World m of a sequence follows from the world before it. */
  ghost predicate StepAt(draws: seq<seq<int>>, ws: seq<World>, m: nat)
    requires 0 < m < |ws| == |draws|
  {
    Step(ws[m - 1], draws[m], ws[m])
  }

  /** A reader about to begin and tags that have not been read. */
  predicate CanStart(r: Reader, tags: seq<Tag>) {
    && r.qValue >= 1 && r.initialFrameSize >= 1 && r.uniqCounter == 1 && r.counter == 0
    && r.success == 0 && r.suc == 0 && r.idle == 0 && r.collisions == 0
    && forall i :: 0 <= i < |tags| ==> Unread(tags[i])
  }

  /** A run from the first query of a frame of qValue slots. */
  ghost predicate IsRun(r0: Reader, tags0: seq<Tag>, draws: seq<seq<int>>, ws: seq<World>) {
    && |ws| >= 1 && |draws| == |ws| && CanStart(r0, tags0)
    && Sends(Ask(r0, false, true, 1, 0, false), tags0, 0, {}, multiset{}, draws[0], ws[0])
    && forall m :: 0 < m < |ws| ==> StepAt(draws, ws, m)
  }
}
