/** The RFID tag and reader agents as objects; each handler is proved to do what its function in
    RfidModel or RfidQ says. Sending is modelled by out-parameters. */
module RfidAgents {
  import opened Common
  import opened M = RfidModel
  import Q = RfidQ

  class RfidTag {
    var state: TagState
    var slot: int
    var memory: int
    var memory2: int

    constructor ()
      ensures State() == Tag(Ready, 0, 0, -1)
    {
      state, slot, memory, memory2 := Ready, 0, 0, -1;
    }

    ghost function State(): Tag
      reads this
    {
      Tag(state, slot, memory, memory2)
    }

    /** updateSlot2 with the random draw as a parameter. */
    method UpdateSlot2(draw: int)
      modifies this`slot
      ensures slot == if state.Acknowledged? then old(slot) else draw
    {
      if !state.Acknowledged? {
        slot := draw;
      }
    }

    /** RC_QUERY and RC_SING of the EDFSA service. */
    method RecvEdfsa(p: Packet, draw: int) returns (reply: bool)
      modifies this
      ensures State() == TagRecv(old(State()), p, draw)
      ensures reply == TagReplies(old(State()), p, draw)
    {
      reply := false;
      if p.start && !state.Acknowledged? {
        if p.rep == 0 {
          memory := p.q;
          state := Arbitrate;
          UpdateSlot2(draw);
          if p.slotNumber == slot { state := Replying; reply := true; }
        } else if p.rep > 0 {
          if p.rep == slot {
            memory, memory2 := p.q, p.rep;
            state := Arbitrate;
            UpdateSlot2(draw);
            if p.slotNumber == slot { state := Replying; reply := true; }
          } else if p.rep == memory2 {
            memory := p.q;
            state := Arbitrate;
            UpdateSlot2(draw);
            if p.slotNumber == slot { state := Replying; reply := true; }
          }
        }
      } else if !p.start && !state.Acknowledged? {
        if p.rep == 0 {
          if p.slotNumber == slot { state := Replying; reply := true; }
        } else if p.rep > 0 {
          if p.rep == memory2 {
            if p.slotNumber == slot { state := Replying; reply := true; }
          }
        }
      }
    }

    /** RC_QUERYREPLY of the EDFSA service, which is unicast. */
    method RecvAck()
      modifies this`state
      ensures State() == old(State()).(state := Acknowledged)
    {
      if !state.Acknowledged? {
        state := Acknowledged;
      }
    }

    /** RC_QUERY (query) and RC_QUERYADJUST of the STANDARD service. sameReader: the tag was last
        addressed by this reader; mechanism: the packet's mechanism flag. */
    method RecvStandard(query: bool, q: int, mechanism: int, sameReader: bool, draw: int) returns (reply: bool)
      modifies this
      ensures var reenter := query && (mechanism == 0 || !sameReader);
              && State() == Q.Draw(old(State()), q, draw, reenter)
              && reply == Q.DrawReplies(old(State()), draw, reenter)
    {
      memory := q;
      reply := false;
      if !state.Acknowledged? || (query && (mechanism == 0 || !sameReader)) {
        state := Ready;
        slot := draw;
        if slot == 0 {
          state := Replying;
          reply := true;
        } else {
          state := Arbitrate;
        }
      }
    }

    /** The broadcast RC_QUERYREPLY of the STANDARD service. */
    method RecvCountDown() returns (reply: bool)
      modifies this
      ensures State() == Q.CountDown(old(State())) && reply == Q.CountDownReplies(old(State()))
    {
      reply := false;
      if slot > 0 && !state.Acknowledged? {
        slot := slot - 1;
        if slot == 0 {
          state := Replying;
          reply := true;
        } else {
          state := Arbitrate;
        }
      }
    }
  }

  class RfidReader {
    const nested: bool
    const estMethod: Method
    const initialFrameSize: int
    const c: real
    var qValue: int
    var qfp: real
    var uniqCounter: int
    var counter: nat
    var idle: nat
    var success: nat
    var suc: nat
    var collisions: nat
    var slotCounter: nat
    var slotNumber: int
    var subQValue: int
    var subSlotNumber: int
    var rsTimer: bool
    var colTimer: bool

    ghost function State(): Reader
      reads this
    {
      Reader(nested, estMethod, initialFrameSize, qValue, uniqCounter, counter, idle, success, suc, collisions,
             slotCounter, slotNumber, subQValue, subSlotNumber, rsTimer, colTimer)
    }

    ghost function QState(): Q.QReader
      reads this
    {
      Q.QReader(qValue, qfp, c, counter, idle, success, collisions, slotCounter, rsTimer)
    }

    constructor (nested: bool, estMethod: Method, initialFrameSize: int, c: real, qValue: int, qfp: real)
      ensures State() == Reader(nested, estMethod, initialFrameSize, qValue, 1, 0, 0, 0, 0, 0, 0, 0, 0, 0, false, false)
      ensures QState() == Q.QReader(qValue, qfp, c, 0, 0, 0, 0, 0, false)
    {
      this.nested, this.estMethod, this.initialFrameSize, this.c := nested, estMethod, initialFrameSize, c;
      this.qValue, this.qfp := qValue, qfp;
      uniqCounter, counter, idle, success, suc, collisions, slotCounter := 1, 0, 0, 0, 0, 0, 0;
      slotNumber, subQValue, subSlotNumber := 0, 0, 0;
      rsTimer, colTimer := false, false;
    }

    /** query() and the rescheduling that always goes with it. */
    method Query(start: bool, number: int, rep: int, sub: bool) returns (query: Option<Packet>)
      modifies this`rsTimer, this`colTimer
      ensures forall ack :: Out(State(), ack, query) == Ask(old(State()), ack, start, number, rep, sub)
    {
      query := Some(Packet(start, number, rep, if rep == 0 then qValue else subQValue));
      rsTimer, colTimer := !sub, sub;
    }

    /** The idle, success and collision counting of the slot just heard. */
    method Count() returns (ack: bool)
      modifies this
      ensures State() == Tally(old(State())) && ack == (old(counter) == 1)
    {
      rsTimer, colTimer := false, false;
      slotCounter := slotCounter + 1;
      ack := false;
      if counter == 0 {
        idle := idle + 1;
      }
      if counter == 1 {
        success, suc := success + 1, suc + 1;
        ack := true;
      }
      if counter > 1 {
        collisions := collisions + 1;
      }
    }

    method StartEdfsa() returns (ack: bool, query: Option<Packet>)
      modifies this
      ensures Out(State(), ack, query) == M.StartEdfsa(old(State()))
    {
      ack := Count();
      uniqCounter := uniqCounter + 1;
      if uniqCounter <= qValue {
        counter := 0;
        query := Query(false, uniqCounter, 0, false);
      } else {
        var temp := collisions;
        collisions, suc, idle, counter, uniqCounter := 0, 0, 0, 0, 1;
        query := CalculateNextQ(ack, temp, 0);
      }
    }

    /** A collided outer slot gets a frame of its own. */
    method OpenGroup() returns (query: Option<Packet>)
      modifies this
      ensures State() == old(State()).(slotNumber := old(uniqCounter) - 1, uniqCounter := qValue + 1,
                subQValue := initialFrameSize, subSlotNumber := 1, counter := 0, collisions := 0, suc := 0,
                rsTimer := false, colTimer := true)
      ensures query == Some(Packet(true, 1, slotNumber, if slotNumber == 0 then qValue else initialFrameSize))
    {
      slotNumber := uniqCounter - 1;
      uniqCounter := qValue + 1;
      subQValue, subSlotNumber := initialFrameSize, 1;
      counter, collisions, suc := 0, 0, 0;
      ghost var r := State();
      query := Query(true, subSlotNumber, slotNumber, true);
      assert Out(State(), false, query) == Ask(r, false, true, 1, r.slotNumber, true);
    }

    method StartEstimationDfsa() returns (ack: bool, query: Option<Packet>)
      modifies this
      ensures Out(State(), ack, query) == M.StartEstimationDfsa(old(State()))
    {
      ack := Count();
      uniqCounter := uniqCounter + 1;
      query := None;
      if counter > 1 {
        query := OpenGroup();
      }
      if uniqCounter <= qValue {
        counter := 0;
        query := Query(false, uniqCounter, 0, false);
      }
    }

    method ResolveCollisions() returns (ack: bool, query: Option<Packet>)
      modifies this
      ensures Out(State(), ack, query) == M.ResolveCollisions(old(State()))
    {
      ack := Count();
      subSlotNumber := subSlotNumber + 1;
      if subSlotNumber <= subQValue {
        counter := 0;
        query := Query(false, subSlotNumber, slotNumber, true);
      } else {
        var temp := collisions;
        collisions, suc, idle, counter, subSlotNumber := 0, 0, 0, 0, 1;
        query := CalculateNextQ(ack, temp, slotNumber);
      }
    }

    method CalculateNextQ(ghost ack: bool, col: nat, rep: int) returns (query: Option<Packet>)
      modifies this
      ensures Out(State(), ack, query) == M.CalculateNextQ(old(State()), ack, col, rep)
    {
      query := None;
      if col > 0 {
        if rep == 0 {
          qValue := FrameSize(estMethod, col);
          query := Query(true, uniqCounter, rep, false);
        } else {
          subQValue := FrameSize(estMethod, col);
          query := Query(true, subSlotNumber, rep, true);
        }
      } else if rep != 0 {
        uniqCounter := slotNumber + 1;
        counter := 0;
        query := Query(false, uniqCounter, 0, false);
      }
    }

    /** Which handler the pending timer runs. */
    method Expire() returns (ack: bool, query: Option<Packet>)
      modifies this
      ensures Out(State(), ack, query) == Handler(old(State()))
    {
      if colTimer {
        ack, query := ResolveCollisions();
      } else if nested {
        ack, query := StartEstimationDfsa();
      } else {
        ack, query := StartEdfsa();
      }
    }

    /** start_sing, the slot handler of the Q algorithm. */
    method StartSing() returns (command: Q.Command)
      modifies this
      ensures Q.QOut(QState(), command) == Q.StartSing(old(QState()))
    {
      slotCounter := slotCounter + 1;
      rsTimer := false;
      command := Q.Halt;
      if counter == 0 {
        idle := idle + 1;
        qfp := MaxReal(0.0, qfp - c);
        if qfp > 15.0 {
          qfp := 15.0;
        }
        if qValue != -1 {
          qValue := Q.Round(qfp);
        }
        if qValue > 0 {
          command, rsTimer := Q.Adjust, true;
        } else if qValue == 0 {
          qValue := qValue - 1;
          command, rsTimer := Q.Adjust, true;
        }
      } else if counter == 1 {
        success := success + 1;
        counter := 0;
        command, rsTimer := Q.IdentifyAndCount, true;
      } else {
        collisions := collisions + 1;
        qfp := MinReal(15.0, qfp + c);
        if qfp < 0.0 {
          qfp := 0.0;
        }
        qValue := Q.Round(qfp);
        counter := 0;
        command := Q.Adjust;
        rsTimer := qValue != 15;
      }
    }
  }
}
