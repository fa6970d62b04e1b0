/** The token bucket filter, as an object and over whole runs. Time and tokens are exact reals. */
module TokenBucket {
  import opened Common

  datatype Params = Params(rate: real, bucket: nat, qlen: int)

  /** A filter's fields: the queue holds packet sizes in bits; timer: when tbf_timer_ will fire. */
  datatype Tbf = Tbf(tokens: real, last: real, q: seq<nat>, init: bool, timer: Option<real>)

  datatype Sent = Sent(time: real, bits: nat)

  // ----- the operations -----

  /** getupdatedtokens. */
  function Refill(p: Params, f: Tbf, now: real): Tbf {
    var tokens := f.tokens + Earned(p.rate, f.last, now);
    f.(tokens := if tokens > p.bucket as real then p.bucket as real else tokens, last := now)
  }

  function Earned(rate: real, a: real, b: real): real {
    (b - a) * rate
  }

  function Delay(p: Params, bits: nat, tokens: real): real
    requires p.rate > 0.0
  {
    (bits as real - tokens) / p.rate
  }

  datatype Result = Result(f: Tbf, out: Option<nat>)

  function OnRecv(p: Params, f: Tbf, now: real, bits: nat): Result
    requires p.rate > 0.0
  {
    var f0 := if f.init then f.(tokens := p.bucket as real, last := now, init := false) else f;
    if f0.q != [] then
      if |f0.q| < p.qlen then Result(f0.(q := f0.q + [bits]), None) else Result(f0, None)
    else
      var f1 := Refill(p, f0, now);
      if f1.tokens >= bits as real then Result(f1.(tokens := f1.tokens - bits as real), Some(bits))
      else if p.qlen != 0 then
        Result(f1.(q := [bits], timer := Some(now + Delay(p, bits, f1.tokens))), None)
      else Result(f1, None)
  }

  function OnTimeout(p: Params, f: Tbf, now: real): Result
    requires p.rate > 0.0 && f.q != []
  {
    var f1 := Refill(p, f.(q := f.q[1..], timer := None), now);
    var f2 := f1.(tokens := f1.tokens - f.q[0] as real);
    Result(if f2.q != [] then f2.(timer := Some(now + Delay(p, f2.q[0], f2.tokens))) else f2, Some(f.q[0]))
  }

  class Filter {
    const p: Params
    var tokens: real
    var last: real
    var q: seq<nat>
    var init: bool
    var timer: Option<real>

    ghost function State(): Tbf
      reads this
    {
      Tbf(tokens, last, q, init, timer)
    }

    constructor (p: Params)
      ensures this.p == p && State() == NEW_FILTER
    {
      this.p := p;
      tokens, last, q, init, timer := 0.0, 0.0, [], true, None;
    }

    method GetUpdatedTokens(now: real)
      modifies this`tokens, this`last
      ensures State() == Refill(p, old(State()), now)
    {
      tokens := tokens + Earned(p.rate, last, now);
      if tokens > p.bucket as real {
        tokens := p.bucket as real;
      }
      last := now;
    }

    method Recv(now: real, bits: nat) returns (out: Option<nat>)
      requires p.rate > 0.0
      modifies this
      ensures Result(State(), out) == OnRecv(p, old(State()), now, bits)
    {
      out := None;
      if init {
        tokens, last, init := p.bucket as real, now, false;
      }
      if |q| != 0 {
        if |q| < p.qlen {
          q := q + [bits];
        }
        return;
      }
      GetUpdatedTokens(now);
      if tokens >= bits as real {
        out := Some(bits);
        tokens := tokens - bits as real;
      } else if p.qlen != 0 {
        q := q + [bits];
        timer := Some(now + (bits as real - tokens) / p.rate);
      }
    }

    /** The abort on an empty queue is unreachable: see TimerMeansQueued. */
    method Timeout(now: real) returns (out: Option<nat>)
      requires p.rate > 0.0 && q != []
      modifies this
      ensures Result(State(), out) == OnTimeout(p, old(State()), now)
    {
      timer := None;
      var bits := q[0];
      q := q[1..];
      GetUpdatedTokens(now);
      out := Some(bits);
      tokens := tokens - bits as real;
      if |q| != 0 {
        timer := Some(now + (q[0] as real - tokens) / p.rate);
      }
    }
  }

  // ----- runs -----

  const NEW_FILTER := Tbf(0.0, 0.0, [], true, None)

  datatype World = World(f: Tbf, now: real, sent: seq<Sent>)

  /** A packet arrives, or the timer fires at the time it was set for. */
  datatype Event = Arrive(t: real, bits: nat) | Fire

  /** The scheduler never lets time pass a pending timer. */
  predicate Enabled(w: World, e: Event) {
    match e
    case Arrive(t, _) => w.now <= t && (w.f.timer.Some? ==> t <= w.f.timer.value)
    case Fire => w.f.timer.Some? && w.f.q != [] && w.now <= w.f.timer.value
  }

  function Next(p: Params, w: World, e: Event): World
    requires p.rate > 0.0 && Enabled(w, e)
  {
    var now := if e.Fire? then w.f.timer.value else e.t;
    var res := if e.Fire? then OnTimeout(p, w.f, now) else OnRecv(p, w.f, now, e.bits);
    World(res.f, now, if res.out.Some? then w.sent + [Sent(now, res.out.value)] else w.sent)
  }

  predicate IsRun(p: Params, ws: seq<World>, es: seq<Event>)
    requires p.rate > 0.0
  {
    && |ws| == |es| + 1
    && ws[0].f == NEW_FILTER && ws[0].sent == []
    && forall i :: 0 <= i < |es| ==> Enabled(ws[i], es[i]) && ws[i + 1] == Next(p, ws[i], es[i])
  }

  // ----- conformance -----

  /** Bits sent in the closed window from a to b. */
  function BitsIn(sent: seq<Sent>, a: real, b: real): nat {
    if sent == [] then 0
    else
      var x := sent[|sent| - 1];
      BitsIn(sent[..|sent| - 1], a, b) + (if a <= x.time <= b then x.bits else 0)
  }

  ghost predicate Conforms(p: Params, sent: seq<Sent>) {
    forall a, b :: a <= b ==> BitsIn(sent, a, b) as real <= p.bucket as real + Earned(p.rate, a, b)
  }

  predicate AllFit(p: Params, sent: seq<Sent>) {
    forall i :: 0 <= i < |sent| ==> sent[i].bits <= p.bucket
  }

  /** Tokens accrue at the rate. */
  lemma EarnedIs(rate: real, a: real, b: real)
    ensures Earned(rate, a, b) == (b - a) * rate
  {
  }

  lemma EarnedAdds(rate: real, a: real, b: real, c: real)
    ensures Earned(rate, a, b) + Earned(rate, b, c) == Earned(rate, a, c)
  {
  }

  lemma EarnedGrows(rate: real, a: real, b: real)
    requires rate > 0.0 && a <= b
    ensures Earned(rate, a, b) >= 0.0
  {
  }

  lemma EarnedDelay(p: Params, bits: nat, tokens: real, now: real)
    requires p.rate > 0.0
    ensures Earned(p.rate, now, now + Delay(p, bits, tokens)) == bits as real - tokens
    ensures bits as real >= tokens ==> Delay(p, bits, tokens) >= 0.0
  {
    var x := bits as real - tokens;
    assert (x / p.rate) * p.rate == x;
  }

  /** Tokens never exceed the bucket; the timer is pending exactly when packets wait, and it is
      set for the very moment the tokens will amount to the packet at the head. */
  ghost predicate FilterInv(p: Params, w: World) {
    var f := w.f;
    && (f.timer.Some? <==> f.q != [])
    && (f.init ==> f.q == [] && w.sent == [])
    && (!f.init ==> f.last <= w.now && f.tokens <= p.bucket as real)
    && (f.timer.Some? ==>
          && !f.init && w.now <= f.timer.value
          && f.tokens <= f.q[0] as real
          && f.tokens + Earned(p.rate, f.last, f.timer.value) == f.q[0] as real)
    && (AllFit(p, w.sent) && !f.init ==> f.tokens >= 0.0)
  }

  lemma RefillBounds(p: Params, f: Tbf, now: real)
    requires p.rate > 0.0 && f.last <= now && f.tokens <= p.bucket as real
    ensures f.tokens <= Refill(p, f, now).tokens <= p.bucket as real
    ensures Refill(p, f, now).tokens <= f.tokens + Earned(p.rate, f.last, now)
  {
    EarnedGrows(p.rate, f.last, now);
  }

  lemma AllFitSnoc(p: Params, sent: seq<Sent>, x: Sent)
    ensures AllFit(p, sent + [x]) <==> AllFit(p, sent) && x.bits <= p.bucket
  {
    var all := sent + [x];
    assert all[|sent|] == x && forall i :: 0 <= i < |sent| ==> all[i] == sent[i];
  }

  lemma ArriveKeeps(p: Params, w: World, e: Event)
    requires p.rate > 0.0 && FilterInv(p, w) && Enabled(w, e) && e.Arrive?
    ensures FilterInv(p, Next(p, w, e))
  {
    var f := w.f;
    var f0 := if f.init then f.(tokens := p.bucket as real, last := e.t, init := false) else f;
    AllFitSnoc(p, w.sent, Sent(e.t, e.bits));
    if f0.q == [] {
      RefillBounds(p, f0, e.t);
      EarnedDelay(p, e.bits, Refill(p, f0, e.t).tokens, e.t);
    }
  }

  lemma FireKeeps(p: Params, w: World)
    requires p.rate > 0.0 && FilterInv(p, w) && Enabled(w, Fire)
    ensures FilterInv(p, Next(p, w, Fire))
    ensures w.f.q[0] <= p.bucket ==> Refill(p, w.f, w.f.timer.value).tokens == w.f.q[0] as real
  {
    var f, now := w.f, w.f.timer.value;
    AllFitSnoc(p, w.sent, Sent(now, f.q[0]));
    RefillBounds(p, f, now);
    if |f.q| > 1 {
      EarnedDelay(p, f.q[1], Refill(p, f, now).tokens - f.q[0] as real, now);
    }
  }

  lemma {:induction false} RunKeeps(p: Params, ws: seq<World>, es: seq<Event>, k: nat)
    requires p.rate > 0.0 && IsRun(p, ws, es) && k < |ws|
    ensures FilterInv(p, ws[k])
  {
    if k > 0 {
      RunKeeps(p, ws, es, k - 1);
      assert Enabled(ws[k - 1], es[k - 1]) && ws[k] == Next(p, ws[k - 1], es[k - 1]);
      if es[k - 1].Fire? {
        FireKeeps(p, ws[k - 1]);
      } else {
        ArriveKeeps(p, ws[k - 1], es[k - 1]);
      }
    }
  }

  /** The timer is pending exactly when packets wait, so the abort cannot be reached; tokens stay
      within the bucket; and a packet that fits leaves with exactly the tokens it needs. */
  lemma TimerMeansQueued(p: Params, ws: seq<World>, es: seq<Event>, k: nat)
    requires p.rate > 0.0 && IsRun(p, ws, es) && k < |ws|
    ensures ws[k].f.timer.Some? <==> ws[k].f.q != []
    ensures !ws[k].f.init ==> ws[k].f.tokens <= p.bucket as real
    ensures !ws[k].f.init && AllFit(p, ws[k].sent) ==> 0.0 <= ws[k].f.tokens
    ensures ws[k].f.timer.Some? && ws[k].f.q[0] <= p.bucket ==>
              Refill(p, ws[k].f, ws[k].f.timer.value).tokens == ws[k].f.q[0] as real
  {
    RunKeeps(p, ws, es, k);
    if ws[k].f.timer.Some? {
      FireKeeps(p, ws[k]);
    }
  }

  // ----- the rate bound -----

  /** Nothing later than now was sent; windows that end now leave the tokens in hand unspent; and
      as long as all packets fit, every window closes within its allowance. */
  ghost predicate Paid(p: Params, w: World) {
    && (forall i :: 0 <= i < |w.sent| ==> w.sent[i].time <= w.now)
    && (!w.f.init ==> forall a :: a <= w.now ==> Saved(p, w.sent, w.f, a, w.now))
    && (AllFit(p, w.sent) ==> Conforms(p, w.sent))
  }

  /** Over the window from a to b the bits sent and the tokens left at b are covered. */
  ghost predicate Saved(p: Params, sent: seq<Sent>, f: Tbf, a: real, b: real) {
    BitsIn(sent, a, b) as real + Refill(p, f, b).tokens <= p.bucket as real + Earned(p.rate, a, b)
  }

  lemma {:induction false} NothingAfter(sent: seq<Sent>, a: real, b: real, c: real)
    requires (forall i :: 0 <= i < |sent| ==> sent[i].time <= b) && b <= c
    ensures BitsIn(sent, a, c) == BitsIn(sent, a, b)
    ensures b < a ==> BitsIn(sent, a, c) == 0
  {
    if sent != [] {
      assert sent[|sent| - 1].time <= b;
      NothingAfter(sent[..|sent| - 1], a, b, c);
    }
  }

  /** Waiting from now until t earns no more than the window grows. */
  lemma WaitSaves(p: Params, w: World, t: real, a: real)
    requires p.rate > 0.0 && FilterInv(p, w) && Paid(p, w) && !w.f.init && w.now <= t && a <= t
    ensures Saved(p, w.sent, w.f, a, t)
  {
    NothingAfter(w.sent, a, w.now, t);
    RefillBounds(p, w.f, t);
    RefillBounds(p, w.f, w.now);
    EarnedAdds(p.rate, w.f.last, w.now, t);
    EarnedGrows(p.rate, w.now, t);
    EarnedGrows(p.rate, w.f.last, w.now);
    EarnedGrows(p.rate, w.f.last, t);
    EarnedGrows(p.rate, a, t);
    if a <= w.now {
      assert Saved(p, w.sent, w.f, a, w.now);
      EarnedAdds(p.rate, a, w.now, t);
    }
  }

  lemma BitsSnoc(sent: seq<Sent>, x: Sent, a: real, b: real)
    ensures BitsIn(sent + [x], a, b) == BitsIn(sent, a, b) + if a <= x.time <= b then x.bits else 0
  {
    assert (sent + [x])[..|sent|] == sent;
  }

  lemma RefillAgain(p: Params, f: Tbf, t: real)
    requires f.last == t && f.tokens <= p.bucket as real
    ensures Refill(p, f, t).tokens == f.tokens
  {
    assert Earned(p.rate, t, t) == 0.0;
  }

  /** An event that sends nothing at time t. */
  lemma QuietPays(p: Params, w: World, w': World)
    requires p.rate > 0.0 && FilterInv(p, w) && Paid(p, w) && w.now <= w'.now && w'.sent == w.sent
    requires !w'.f.init
    requires if w.f.init then w'.f.tokens <= p.bucket as real && w'.f.last == w'.now
             else (w'.f.tokens == w.f.tokens && w'.f.last == w.f.last)
                  || (w'.f.tokens == Refill(p, w.f, w'.now).tokens && w'.f.last == w'.now)
    ensures Paid(p, w')
  {
    forall a | a <= w'.now
      ensures Saved(p, w'.sent, w'.f, a, w'.now)
    {
      if w.f.init {
        RefillAgain(p, w'.f, w'.now);
        EarnedGrows(p.rate, a, w'.now);
      } else {
        WaitSaves(p, w, w'.now, a);
        RefillBounds(p, w.f, w'.now);
        if w'.f.last == w'.now && w'.f.tokens == Refill(p, w.f, w'.now).tokens {
          RefillAgain(p, w'.f, w'.now);
        }
      }
    }
  }

  /** An event that sends x at time t out of the tokens it then has. */
  lemma SendPays(p: Params, w: World, f: Tbf, w': World, x: Sent)
    requires p.rate > 0.0 && FilterInv(p, w) && Paid(p, w) && w.now <= w'.now && x.time == w'.now
    requires w'.sent == w.sent + [x] && !w'.f.init && w'.f.last == w'.now
    requires f == if w.f.init then w.f.(tokens := p.bucket as real, last := w'.now, init := false) else w.f
    requires w'.f.tokens == Refill(p, f, w'.now).tokens - x.bits as real
    requires AllFit(p, w'.sent) ==> w'.f.tokens >= 0.0
    ensures Paid(p, w')
  {
    var t := w'.now;
    RefillBounds(p, f, t);
    RefillAgain(p, w'.f, t);
    forall i | 0 <= i < |w'.sent|
      ensures w'.sent[i].time <= t
    {
      if i < |w.sent| { assert w'.sent[i] == w.sent[i]; }
    }
    forall a | a <= t
      ensures Saved(p, w'.sent, w'.f, a, t)
    {
      BitsSnoc(w.sent, x, a, t);
      if w.f.init {
        EarnedGrows(p.rate, a, t);
      } else {
        WaitSaves(p, w, t, a);
      }
    }
    if AllFit(p, w'.sent) {
      AllFitSnoc(p, w.sent, x);
      SendConforms(p, w, w', x);
    }
  }

  lemma SendConforms(p: Params, w: World, w': World, x: Sent)
    requires p.rate > 0.0 && Conforms(p, w.sent) && w'.sent == w.sent + [x] && x.time == w'.now
    requires forall i :: 0 <= i < |w'.sent| ==> w'.sent[i].time <= w'.now
    requires forall a :: a <= w'.now ==> Saved(p, w'.sent, w'.f, a, w'.now)
    requires Refill(p, w'.f, w'.now).tokens >= 0.0
    ensures Conforms(p, w'.sent)
  {
    var t := w'.now;
    forall a, b | a <= b
      ensures BitsIn(w'.sent, a, b) as real <= p.bucket as real + Earned(p.rate, a, b)
    {
      BitsSnoc(w.sent, x, a, b);
      if a <= t <= b {
        NothingAfter(w'.sent, a, t, b);
        assert Saved(p, w'.sent, w'.f, a, t);
        EarnedAdds(p.rate, a, t, b);
        EarnedGrows(p.rate, t, b);
      }
    }
  }

  lemma StepPays(p: Params, w: World, e: Event)
    requires p.rate > 0.0 && FilterInv(p, w) && Paid(p, w) && Enabled(w, e)
    ensures Paid(p, Next(p, w, e))
  {
    var w' := Next(p, w, e);
    var f0 := if w.f.init then w.f.(tokens := p.bucket as real, last := w'.now, init := false) else w.f;
    if e.Fire? {
      FireKeeps(p, w);
    } else {
      ArriveKeeps(p, w, e);
    }
    if w'.sent == w.sent {
      RefillAgain(p, f0.(last := w'.now), w'.now);
      QuietPays(p, w, w');
    } else {
      SendPays(p, w, f0, w', w'.sent[|w.sent|]);
    }
  }

  lemma {:induction false} RunPays(p: Params, ws: seq<World>, es: seq<Event>, k: nat)
    requires p.rate > 0.0 && IsRun(p, ws, es) && k < |ws|
    ensures Paid(p, ws[k])
  {
    if k == 0 {
      forall a, b | a <= b
        ensures BitsIn([], a, b) as real <= p.bucket as real + Earned(p.rate, a, b)
      {
        EarnedGrows(p.rate, a, b);
      }
    } else {
      RunPays(p, ws, es, k - 1);
      RunKeeps(p, ws, es, k - 1);
      StepPays(p, ws[k - 1], es[k - 1]);
    }
  }

  lemma {:induction false} BitsAtLeast(sent: seq<Sent>, i: nat, t: real)
    requires i < |sent| && sent[i].time == t
    ensures BitsIn(sent, t, t) >= sent[i].bits
  {
    var n := |sent| - 1;
    if i < n {
      BitsAtLeast(sent[..n], i, t);
    }
  }

  /** Whatever arrives and whenever: the output keeps to the rate, at most bucket + rate * (b - a)
      bits in every window from a to b, exactly when every packet sent fits the bucket. */
  lemma ConformsIffAllFit(p: Params, ws: seq<World>, es: seq<Event>, k: nat)
    requires p.rate > 0.0 && IsRun(p, ws, es) && k < |ws|
    ensures Conforms(p, ws[k].sent) <==> AllFit(p, ws[k].sent)
  {
    RunPays(p, ws, es, k);
    var sent := ws[k].sent;
    if Conforms(p, sent) {
      forall i | 0 <= i < |sent|
        ensures sent[i].bits <= p.bucket
      {
        var t := sent[i].time;
        BitsAtLeast(sent, i, t);
        assert BitsIn(sent, t, t) as real <= p.bucket as real + Earned(p.rate, t, t);
        assert Earned(p.rate, t, t) == 0.0;
      }
    }
  }

  // ----- in terms of what arrives -----

  predicate Arrived(es: seq<Event>, k: nat, bits: nat)
    requires k <= |es|
  {
    exists i :: 0 <= i < k && es[i].Arrive? && es[i].bits == bits
  }

  /** Nothing is sent or queued that did not arrive. */
  lemma {:induction false} FromArrivals(p: Params, ws: seq<World>, es: seq<Event>, k: nat)
    requires p.rate > 0.0 && IsRun(p, ws, es) && k < |ws|
    ensures forall x :: x in ws[k].sent ==> Arrived(es, k, x.bits)
    ensures forall x :: x in ws[k].f.q ==> Arrived(es, k, x)
  {
    if k > 0 {
      FromArrivals(p, ws, es, k - 1);
      var w, e, w' := ws[k - 1], es[k - 1], ws[k];
      assert w' == Next(p, w, e);
      assert e.Arrive? ==> Arrived(es, k, e.bits);
      assert forall x :: Arrived(es, k - 1, x) ==> Arrived(es, k, x);
      assert forall x :: x in w'.f.q ==> x in w.f.q || (e.Arrive? && x == e.bits);
      assert forall x :: x in w'.sent ==> x in w.sent || x.bits in w.f.q || (e.Arrive? && x.bits == e.bits);
    }
  }

  /** When every packet that arrives fits the bucket, the output keeps to the rate. */
  lemma FittingArrivalsConform(p: Params, ws: seq<World>, es: seq<Event>, k: nat)
    requires p.rate > 0.0 && IsRun(p, ws, es) && k < |ws|
    requires forall i :: 0 <= i < k && es[i].Arrive? ==> es[i].bits <= p.bucket
    ensures Conforms(p, ws[k].sent)
  {
    FromArrivals(p, ws, es, k);
    forall i | 0 <= i < |ws[k].sent|
      ensures ws[k].sent[i].bits <= p.bucket
    {
      assert ws[k].sent[i] in ws[k].sent;
    }
    ConformsIffAllFit(p, ws, es, k);
  }

  /** Without a queue nothing oversize is ever sent. */
  lemma {:induction false} UnqueuedFits(p: Params, ws: seq<World>, es: seq<Event>, k: nat)
    requires p.rate > 0.0 && p.qlen == 0 && IsRun(p, ws, es) && k < |ws|
    ensures ws[k].f.q == [] && AllFit(p, ws[k].sent)
  {
    if k > 0 {
      UnqueuedFits(p, ws, es, k - 1);
      RunKeeps(p, ws, es, k - 1);
      assert ws[k] == Next(p, ws[k - 1], es[k - 1]);
    }
  }

  /** A packet of one bit more than the bucket, queued and served, breaks the bound. */
  lemma OversizeBreaks(p: Params) returns (ws: seq<World>, es: seq<Event>)
    requires p.rate > 0.0 && p.qlen != 0
    ensures IsRun(p, ws, es) && |ws| == 3 && !Conforms(p, ws[2].sent)
  {
    var w0 := World(NEW_FILTER, 0.0, []);
    var e0 := Arrive(0.0, p.bucket + 1);
    var w1 := Next(p, w0, e0);
    var f1 := w1.f;
    assert Earned(p.rate, 0.0, 0.0) == 0.0;
    assert f1.q == [p.bucket + 1] && f1.timer == Some(0.0 + Delay(p, p.bucket + 1, p.bucket as real));
    DelayPositive(p);
    var w2 := Next(p, w1, Fire);
    ws, es := [w0, w1, w2], [e0, Fire];
    assert w2.sent == [Sent(f1.timer.value, p.bucket + 1)];
    assert IsRun(p, ws, es);
    ConformsIffAllFit(p, ws, es, 2);
    assert !AllFit(p, w2.sent);
  }

  lemma DelayPositive(p: Params)
    requires p.rate > 0.0
    ensures Delay(p, p.bucket + 1, p.bucket as real) > 0.0
  {
  }

  /** The filter keeps to the rate whatever arrives exactly when it has no queue. */
  lemma AlwaysConformsIffUnqueued(p: Params)
    requires p.rate > 0.0
    ensures p.qlen == 0 <==> forall ws: seq<World>, es: seq<Event> :: IsRun(p, ws, es) ==> Conforms(p, ws[|ws| - 1].sent)
  {
    if p.qlen == 0 {
      forall ws: seq<World>, es: seq<Event> | IsRun(p, ws, es)
        ensures Conforms(p, ws[|ws| - 1].sent)
      {
        UnqueuedFits(p, ws, es, |ws| - 1);
        ConformsIffAllFit(p, ws, es, |ws| - 1);
      }
    } else {
      var ws, es := OversizeBreaks(p);
    }
  }

  // ----- what is kept -----

  /** The tokens a packet finds at time t. */
  function TokensAt(p: Params, f: Tbf, t: real): real {
    if f.init then p.bucket as real else MinReal(p.bucket as real, f.tokens + Earned(p.rate, f.last, t))
  }

  /** An arrival is refused if it finds packets waiting and no room behind them, or too few tokens
      and no queue to wait in. */
  predicate Refused(p: Params, f: Tbf, t: real, bits: nat) {
    if f.q != [] then |f.q| >= p.qlen
    else TokensAt(p, f, t) < bits as real && p.qlen == 0
  }

  /** The sizes accepted in the first k events, in order of arrival. */
  function Accepted(p: Params, ws: seq<World>, es: seq<Event>, k: nat): seq<nat>
    requires k <= |es| && |ws| == |es| + 1
  {
    if k == 0 then []
    else
      Accepted(p, ws, es, k - 1) + Admitted(p, ws[k - 1].f, es[k - 1])
  }

  function Admitted(p: Params, f: Tbf, e: Event): seq<nat> {
    if e.Arrive? && !Refused(p, f, e.t, e.bits) then [e.bits] else []
  }

  function Sizes(sent: seq<Sent>): seq<nat> {
    seq(|sent|, i requires 0 <= i < |sent| => sent[i].bits)
  }

  /** One arrival: refused, it changes nothing but the clockwork; sent at once exactly if it finds no
      queue and enough tokens, which it pays; queued last otherwise. */
  lemma ArrivalOutcome(p: Params, w: World, t: real, bits: nat)
    requires p.rate > 0.0 && Enabled(w, Arrive(t, bits)) && (w.f.init ==> w.f.q == [])
    ensures var w' := Next(p, w, Arrive(t, bits));
            && w'.now == t
            && (Refused(p, w.f, t, bits) ==> w'.sent == w.sent && w'.f.q == w.f.q)
            && (!Refused(p, w.f, t, bits) ==>
                  if w.f.q == [] && TokensAt(p, w.f, t) >= bits as real
                  then w'.sent == w.sent + [Sent(t, bits)] && w'.f.q == [] && w'.f.tokens == TokensAt(p, w.f, t) - bits as real
                  else w'.sent == w.sent && w'.f.q == w.f.q + [bits])
  {
    TokensFound(p, w.f, t);
  }

  /** Those are the tokens the refill leaves. */
  lemma TokensFound(p: Params, f: Tbf, t: real)
    ensures var f0 := if f.init then f.(tokens := p.bucket as real, last := t, init := false) else f;
            Refill(p, f0, t).tokens == TokensAt(p, f, t)
  {
    if f.init {
      assert Earned(p.rate, t, t) == 0.0;
    }
  }

  /** The timer sends the packet that has waited longest. */
  lemma FireOutcome(p: Params, w: World)
    requires p.rate > 0.0 && Enabled(w, Fire)
    ensures var w' := Next(p, w, Fire);
            w'.sent == w.sent + [Sent(w'.now, w.f.q[0])] && w'.f.q == w.f.q[1..] && w'.now == w.f.timer.value
  {
  }

  /** First come, first served, and nothing accepted is lost: what has been sent, followed by what
      waits, is what was accepted, in order. */
  lemma {:induction false} FirstComeFirstServed(p: Params, ws: seq<World>, es: seq<Event>, k: nat)
    requires p.rate > 0.0 && IsRun(p, ws, es) && k < |ws|
    ensures Sizes(ws[k].sent) + ws[k].f.q == Accepted(p, ws, es, k)
  {
    if k > 0 {
      FirstComeFirstServed(p, ws, es, k - 1);
      RunKeeps(p, ws, es, k - 1);
      assert ws[k] == Next(p, ws[k - 1], es[k - 1]);
      InOrder(p, ws[k - 1], es[k - 1]);
    }
  }

  lemma InOrder(p: Params, w: World, e: Event)
    requires p.rate > 0.0 && Enabled(w, e) && (w.f.init ==> w.f.q == [])
    ensures var w' := Next(p, w, e);
            Sizes(w'.sent) + w'.f.q == Sizes(w.sent) + w.f.q + Admitted(p, w.f, e)
  {
    if e.Fire? {
      FireOutcome(p, w);
      SizesSnoc(w.sent, Sent(w.f.timer.value, w.f.q[0]));
    } else {
      ArrivalOutcome(p, w, e.t, e.bits);
      SizesSnoc(w.sent, Sent(e.t, e.bits));
    }
  }

  lemma SizesSnoc(sent: seq<Sent>, x: Sent)
    ensures Sizes(sent + [x]) == Sizes(sent) + [x.bits]
  {
  }
}
