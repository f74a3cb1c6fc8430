/** How Copa stalls: the 64-bit velocity of a direction kept for long enough reaches zero, and a
    sender in that state never changes its window again. */
module CopaStall {
  import opened Arithmetic
  import opened Flights
  import opened CopaModel
  import opened CopaRuns

  // ------------------------------------------------------------ when velocity and step vanish

  lemma {:induction false} Pow2Splits(a: nat, b: nat)
    ensures Pow2(a + b) == Pow2(a) * Pow2(b)
  {
    if a > 0 {
      Pow2Splits(a - 1, b);
      assert Pow2(a) * Pow2(b) == 2 * (Pow2(a - 1) * Pow2(b));
    }
  }

  lemma {:induction false} Pow2Grows(a: nat, b: nat)
    requires a < b
    ensures Pow2(a) < Pow2(b)
  {
    if a + 1 < b {
      Pow2Grows(a, b - 1);
    }
  }

  lemma Pow2Small()
    ensures Pow2(1) == 2 && Pow2(2) == 4 && Pow2(4) == 16 && Pow2(8) == 256
  {
  }

  lemma Pow2Of64()
    ensures Pow2(64) == U64
  {
    hide Pow2;
    Pow2Small();
    Pow2Splits(8, 8);
    Pow2Splits(16, 16);
    Pow2Splits(32, 32);
  }

  /** The doubling law is exact up to 65 unchanged directions; from the 66th on the 64-bit velocity
      is zero. */
  lemma VelocityVanishesFrom66(vs: VelocityState)
    requires VelocityLaw(vs)
    ensures vs.velocity == Speed(vs.same) <==> vs.same <= 65
    ensures vs.velocity == 0 <==> vs.same >= 66
  {
    Pow2Of64();
    var k := Doublings(vs.same);
    if k < 64 {
      Pow2Grows(k, 64);
    } else {
      Pow2Splits(k - 64, 64);
      ModMultiple(Pow2(k - 64));
    }
  }

  /** MSS * MSS is 16 * 133225, so the step is lost four doublings before the velocity: from count
      62 on every step is zero, for every window and whatever is acknowledged. */
  lemma StepVanishesFrom62(vs: VelocityState)
    requires VelocityLaw(vs)
    ensures (forall acks, window | window > 0 :: StepSize(acks, vs.velocity, window) == 0) <==> vs.same >= 62
  {
    var k := Doublings(vs.same);
    Pow2Of64();
    VelocityVanishesFrom66(vs);
    if vs.same >= 66 {
      forall acks, window | window > 0 ensures StepSize(acks, vs.velocity, window) == 0 {
        NoStep(acks, window);
      }
    } else if vs.same >= 62 {
      Pow2Splits(k - 60, 60);
      forall acks, window | window > 0 ensures StepSize(acks, vs.velocity, window) == 0 {
        WholeWraps(acks, k);
      }
    } else {
      OneByteStep(k);
      assert StepSize(1, vs.velocity, 1) != 0;
    }
  }

  lemma WholeWraps(acks: nat, k: nat)
    requires k >= 60
    ensures (acks * MSS * MSS * Pow2(k)) % U64 == 0
  {
    hide Pow2;
    Pow2Of64();
    Pow2Small();
    Pow2Splits(k - 60, 60);
    Pow2Splits(4, 60);
    TakeOutSixteen(acks, Pow2(k - 60), Pow2(60));
    ModMultiple(acks * 133225 * Pow2(k - 60));
  }

  lemma TakeOutSixteen(acks: nat, p: nat, c: nat)
    ensures acks * MSS * MSS * (p * c) == (acks * 133225 * p) * (16 * c)
  {
    var n := acks * 133225;
    assert acks * MSS * MSS == 16 * n;
    assert (16 * n) * (p * c) == (n * p) * (16 * c);
  }

  lemma OneByteStep(k: nat)
    requires k < 60
    ensures (1 * MSS * MSS * Pow2(k)) % U64 != 0
  {
    hide Pow2;
    Pow2Of64();
    Pow2Small();
    Pow2Splits(4, 60);
    Pow2Splits(k, 60 - k);
    Pow2Splits(1, 59 - k);
    OddTimesPower(Pow2(k), Pow2(59 - k));
  }

  /** 133225 is odd. */
  lemma OddTimesPower(p: nat, q: nat)
    requires p > 0 && 16 * (p * (2 * q)) == U64
    ensures (1 * MSS * MSS * p) % U64 != 0
  {
    var c := (MSS * MSS * p) / U64;
    if (MSS * MSS * p) % U64 == 0 {
      assert 16 * (133225 * p) == c * U64 == c * (16 * (p * (2 * q)));
      assert c * (16 * (p * (2 * q))) == 16 * ((2 * (c * q)) * p);
      CancelFactor(133225, 2 * (c * q), p);
      CancelFactor(2 * (c * q), 133225, p);
    }
  }

  /** The product behind the step of a single acknowledgement fits 64 bits up to count 44, and again
      from 66 on, where the velocity is zero. */
  lemma OneAckFits(vs: VelocityState)
    requires VelocityLaw(vs)
    ensures 1 * MSS * MSS * vs.velocity < U64 <==> vs.same <= 44 || vs.same >= 66
  {
    hide Pow2;
    VelocityVanishesFrom66(vs);
    Pow2Of42();
    var k := Doublings(vs.same);
    if k < 42 {
      Pow2Grows(k, 42);
    } else if k > 43 {
      Pow2Grows(43, k);
    }
  }

  lemma Pow2Of42()
    ensures Pow2(42) == 0x400_0000_0000 && Pow2(43) == 0x800_0000_0000
  {
    hide Pow2;
    Pow2Small();
    Pow2Splits(8, 8);
    Pow2Splits(16, 16);
    Pow2Splits(32, 8);
    Pow2Splits(40, 2);
    Pow2Splits(42, 1);
  }

  lemma ModMultiple(x: nat)
    ensures (x * U64) % U64 == 0
  {
  }

  // ------------------------------------------------------------ a stalled sender stays stalled

  /** Velocity zero with direction Down, and no more window than was last on record. */
  ghost predicate Stalled(s: Copa) {
    && !s.slowStart && 0 < s.window < U64
    && s.vs.velocity == 0 && s.vs.direction == Down && s.window <= s.vs.recordedWindow
  }

  lemma StalledEvent(t: Trace, e: Event)
    requires Stalled(t.s) && Admissible(t, e) && (forall x | x in t.samples :: x > 0)
    ensures var r := Next(t, e);
            && r.Ok? && Stalled(r.state) && r.state.window == t.s.window
            && (forall x | x in Record(t, e, r.state).samples :: x > 0)
  {
    match e
    case Sent(_) =>
    case SetInitial(_) =>
    case Congestion(acked, lost, o) =>
      WindowUntouched(t.s, lost);
      NoStep(|acked|, t.s.window);
      hide StepSize, WantsIncrease, UpdateMaxAll;
  }

  lemma NoStep(acks: nat, window: nat)
    requires window > 0
    ensures StepSize(acks, 0, window) == 0
  {
    assert acks * MSS * MSS * 0 == 0;
  }

  /** Whatever is acknowledged, lost or measured later, and even when the rate comparison asks for
      an increase, a stalled sender keeps its window for the rest of the run. */
  lemma {:induction false} StalledForGood(t: Trace, events: seq<Event>, leastSmoothed: nat)
    requires Stalled(t.s) && (forall x | x in t.samples :: x > 0)
    requires AdmissibleRun(t, events, leastSmoothed)
    ensures var r := RunOf(t, events);
            r.Reached? && Stalled(r.trace.s) && r.trace.s.window == t.s.window
    decreases |events|
  {
    if events != [] {
      StalledEvent(t, events[0]);
      hide Admissible, Next, Stalled;
      StalledForGood(Record(t, events[0], Next(t, events[0]).state), events[1..], leastSmoothed);
    }
  }

  // ------------------------------------------------------------ velocity zero is a stall

  /** A count of 62 or more stops the window, so the next record turns the direction Down: heading
      up the count ends at 62, and from 66 on the window is no more than was last on record. */
  ghost predicate Capped(s: Copa) {
    && (s.slowStart ==> s.vs == VelocityState(1, NoDirection, 0, 0, 0))
    && (s.vs.direction == Up ==> s.vs.same <= 62 && (s.vs.same == 62 ==> s.window <= s.vs.recordedWindow))
    && (s.vs.same >= 66 ==> s.window <= s.vs.recordedWindow)
  }

  /** The direction update with the redirection after it. */
  lemma DirectionCapped(s: Copa, now: nat, smoothed: nat, d: Direction)
    requires Capped(s) && VelocityLaw(s.vs) && s.vs.same + 1 < U64 && d != NoDirection
    ensures var c := CheckAndUpdateDirection(s.vs, s.window, now, smoothed);
            var vs := Redirect(c, d, now, s.window);
            && (vs.direction == Up ==> vs.same <= 62)
            && (vs.same >= 62 && vs.direction == Up ==> s.window <= vs.recordedWindow)
            && (vs.same >= 66 ==> s.window <= vs.recordedWindow)
  {
  }

  lemma EventCapped(t: Trace, e: Event, leastSmoothed: nat)
    requires CopaInv(t, leastSmoothed) && Capped(t.s) && Admissible(t, e) && t.events + 1 < U64
    requires Next(t, e).Ok?
    ensures Capped(Next(t, e).state)
  {
    match e
    case Sent(_) =>
    case SetInitial(_) =>
    case Congestion(acked, lost, o) =>
      var all := t.samples + [o.latest];
      assert o.standing in all && forall x | x in all :: x > 0;
      WindowUntouched(t.s, lost);
      var m := OnPacketsLost(t.s, lost);
      AckedCapped(m, acked, o, t.events);
  }

  lemma AckedCapped(s: Copa, acked: seq<nat>, o: Reading, events: nat)
    requires WindowOk(s) && VelocityLaw(s.vs) && s.vs.same <= events && events + 1 < U64 && Capped(s)
    requires 0 < o.standing && o.least <= o.latest && OnPacketAcked(s, acked, o).Ok?
    ensures Capped(OnPacketAcked(s, acked, o).state)
  {
    AckedStep(s, acked, o, events);
    DirectionCapped(s, o.now, o.smoothed, Up);
    DirectionCapped(s, o.now, o.smoothed, Down);
    var r := OnPacketAcked(s, acked, o).state;
    StepVanishesFrom62(r.vs);
    AckedState(s, acked, o);
    hide StepSize, WantsIncrease, CheckAndUpdateDirection, Redirect, VelocityLaw, UpdateMaxAll, OnPacketAcked;
  }

  /** Which velocity state an acknowledgement event leaves. */
  lemma AckedState(s: Copa, acked: seq<nat>, o: Reading)
    requires s.window > 0 && o.standing > 0 && o.least <= o.latest && OnPacketAcked(s, acked, o).Ok?
    ensures var up := WantsIncrease(s.window, o.latest - o.least, o.standing);
            var c := CheckAndUpdateDirection(s.vs, s.window, o.now, o.smoothed);
            var r := OnPacketAcked(s, acked, o).state;
            && r.vs == (if up && s.slowStart then s.vs else Redirect(c, if up then Up else Down, o.now, s.window))
            && (r.slowStart <==> s.slowStart && up)
  {
    hide CheckAndUpdateDirection, Redirect, StepSize, WantsIncrease, UpdateMaxAll;
  }

  lemma {:induction false} RunCapped(t: Trace, events: seq<Event>, leastSmoothed: nat)
    requires CopaInv(t, leastSmoothed) && Capped(t.s) && t.events + |events| < U64
    requires AdmissibleRun(t, events, leastSmoothed) && RunOf(t, events).Reached?
    ensures var z := RunOf(t, events).trace;
            CopaInv(z, leastSmoothed) && Capped(z.s)
    decreases |events|
  {
    if events != [] {
      EventKeeps(t, events[0], leastSmoothed);
      EventCapped(t, events[0], leastSmoothed);
      hide CopaInv, Admissible, Capped, Next;
      RunCapped(Record(t, events[0], Next(t, events[0]).state), events[1..], leastSmoothed);
    }
  }

  /** In every reachable state a direction of Up has a count of at most 62, and velocity zero means
      the sender is stalled. */
  lemma ZeroIsStalled(initialPackets: nat, events: seq<Event>, leastSmoothed: nat)
    requires 4 <= initialPackets && initialPackets * MSS < U64 && |events| < U64
    requires AdmissibleRun(Start(initialPackets), events, leastSmoothed)
    requires RunOf(Start(initialPackets), events).Reached?
    ensures var s := RunOf(Start(initialPackets), events).trace.s;
            && (s.vs.direction == Up ==> s.vs.same <= 62)
            && (s.vs.velocity == 0 <==> Stalled(s))
  {
    StartInv(initialPackets, leastSmoothed);
    RunCapped(Start(initialPackets), events, leastSmoothed);
    var s := RunOf(Start(initialPackets), events).trace.s;
    VelocityVanishesFrom66(s.vs);
    hide RunOf, AdmissibleRun;
  }

  // ------------------------------------------------------------ and nothing else is

  /** Packets p, p + 1, ... in a row. */
  function Packets(p: nat, n: nat): seq<nat> { seq(n, i requires 0 <= i < n => p + i) }

  function Sends(p: nat, n: nat): seq<Event>
    decreases n
  {
    if n == 0 then [] else [Sent(p)] + Sends(p + 1, n - 1)
  }

  lemma {:induction false} SendsOnly(t: Trace, p: nat, n: nat, leastSmoothed: nat)
    requires t.s.window > 0 && (t.s.largestSent.Number? ==> t.s.largestSent.value < p)
    ensures AdmissibleRun(t, Sends(p, n), leastSmoothed)
    ensures var r := RunOf(t, Sends(p, n));
            && r.Reached? && r.trace.samples == t.samples
            && r.trace.s == t.s.(largestSent := if n == 0 then t.s.largestSent else Number(p + n - 1))
    decreases n
  {
    if n > 0 {
      var m := Record(t, Sent(p), OnPacketSent(t.s, p));
      SendsOnly(m, p + 1, n - 1, leastSmoothed);
      assert Sends(p, n)[1..] == Sends(p + 1, n - 1);
    }
  }

  /** A reading that asks for an increase, or for a decrease, without a new record. */
  function Probe(up: bool, now: nat, smoothed: nat): Reading {
    Reading(now, if up then 1 else 2, smoothed, 1, 1)
  }

  ghost predicate Probed(t: Trace, now: nat) {
    && WindowOk(t.s) && !t.s.slowStart
    && t.s.vs.recordTime != 0 && t.s.vs.recordTime <= now && 1 in t.samples
  }

  lemma ProbeAdmissible(t: Trace, up: bool, acked: seq<nat>, now: nat, smoothed: nat)
    requires up || 1 in t.samples
    requires SentBefore(acked, t.s.largestSent)
    ensures Admissible(t, Congestion(acked, [], Probe(up, now, smoothed)))
  {
    var all := t.samples + [Probe(up, now, smoothed).latest];
    assert all[|t.samples|] == Probe(up, now, smoothed).latest;
  }

  /** The sender as the step finds it, when no new record is due. */
  function Turned(s: Copa, d: Direction, acked: seq<nat>, now: nat): Copa {
    var vs := if s.vs.recordTime == 0 then s.vs.(recordTime := now, recordedWindow := s.window) else s.vs;
    s.(vs := Redirect(vs, d, now, s.window), largestAcked := UpdateMaxAll(s.largestAcked, acked))
  }

  lemma ProbeUp(s: Copa, acked: seq<nat>, now: nat, smoothed: nat)
    requires WindowOk(s) && !s.slowStart && 0 < now < smoothed && s.vs.recordTime <= now
    ensures var m := Turned(s, Up, acked, now);
            OnCongestionEvent(s, acked, [], Probe(true, now, smoothed))
              == AddChecked(m, StepSize(|acked|, m.vs.velocity, s.window))
  {
    WindowUntouched(s, []);
    assert WantsIncrease(s.window, 0, 1);
    hide WantsIncrease, StepSize, UpdateMaxAll, Redirect;
  }

  lemma ProbeDown(s: Copa, acked: seq<nat>, now: nat, smoothed: nat)
    requires WindowOk(s) && !s.slowStart && 0 < now < smoothed && s.vs.recordTime <= now
    ensures var m := Turned(s, Down, acked, now);
            OnCongestionEvent(s, acked, [], Probe(false, now, smoothed))
              == Ok(m.(window := Max(MIN_WINDOW, s.window - StepSize(|acked|, m.vs.velocity, s.window))))
  {
    WindowUntouched(s, []);
    TooFast(s.window);
    hide WantsIncrease, StepSize, UpdateMaxAll, Redirect;
  }

  lemma TooFast(window: nat)
    requires window >= MIN_WINDOW
    ensures !WantsIncrease(window, 1, 1)
  {
  }

  lemma NoAcksNoStep(velocity: nat, window: nat)
    requires window > 0
    ensures StepSize(0, velocity, window) == 0
  {
    assert 0 * MSS * MSS * velocity == 0;
  }

  /** Two events without acknowledgements, one each way, bring any velocity but zero down to one. */
  lemma ResetVelocity(t: Trace, leastSmoothed: nat) returns (events: seq<Event>, now: nat)
    requires WindowOk(t.s) && !t.s.slowStart && t.s.vs.velocity > 0
    ensures AdmissibleRun(t, events, leastSmoothed)
    ensures var r := RunOf(t, events);
            && r.Reached? && Probed(r.trace, now) && now > 0
            && r.trace.s.vs.velocity == 1 && r.trace.s.window == t.s.window
            && r.trace.s.largestSent == t.s.largestSent
  {
    now := t.s.vs.recordTime + 1;
    var smoothed := now + 1 + leastSmoothed;
    var e, f := Congestion([], [], Probe(true, now, smoothed)), Congestion([], [], Probe(false, now, smoothed));
    ProbeAdmissible(t, true, [], now, smoothed);
    ProbeUp(t.s, [], now, smoothed);
    forall v ensures StepSize(0, v, t.s.window) == 0 {
      NoAcksNoStep(v, t.s.window);
    }
    var m := Record(t, e, Next(t, e).state);
    assert m.samples == t.samples + [1] && 1 in m.samples;
    ProbeAdmissible(m, false, [], now, smoothed);
    ProbeDown(m.s, [], now, smoothed);
    events := [e, f];
    var z := Record(m, f, Next(m, f).state);
    hide Admissible, OnCongestionEvent, StepSize, CutsIn, NextStreak;
    assert events[1..] == [f] && [f][1..] == [];
    assert RunOf(m, [f]) == RunOf(z, []) == Reached(z);
    assert AdmissibleRun(m, [f], leastSmoothed);
  }

  lemma EnoughAcks(window: nat)
    requires MIN_WINDOW <= window < U64
    ensures var step := StepSize(window / (2 * MSS * MSS) + 1, 1, window);
            step >= 1 && (window == MIN_WINDOW ==> step == 730)
  {
    var n := window / (2 * MSS * MSS) + 1;
    var product := n * MSS * MSS * 1;
    assert 2 * product >= window && product < U64;
    ModSmall(product);
    DivBelow(2 * product, window, 1);
  }

  lemma LastProbe(t: Trace, p: nat, n: nat, now: nat, leastSmoothed: nat)
    requires Probed(t, now) && now > 0 && t.s.vs.velocity == 1
    requires n == t.s.window / (2 * MSS * MSS) + 1 && t.s.largestSent == Number(p + n - 1)
    ensures var e := Congestion(Packets(p, n), [], Probe(t.s.window == MIN_WINDOW, now, now + 1 + leastSmoothed));
            && AdmissibleRun(t, [e], leastSmoothed)
            && RunOf(t, [e]).Reached? && RunOf(t, [e]).trace.s.window != t.s.window
  {
    var up := t.s.window == MIN_WINDOW;
    var acked, smoothed := Packets(p, n), now + 1 + leastSmoothed;
    var e := Congestion(acked, [], Probe(up, now, smoothed));
    ProbeAdmissible(t, up, acked, now, smoothed);
    EnoughAcks(t.s.window);
    if up {
      ProbeUp(t.s, acked, now, smoothed);
    } else {
      ProbeDown(t.s, acked, now, smoothed);
    }
    hide Admissible, OnCongestionEvent, StepSize, CutsIn, NextStreak, UpdateMaxAll;
    var z := Record(t, e, Next(t, e).state);
    assert [e][1..] == [];
    assert RunOf(z, []) == Reached(z) && AdmissibleRun(z, [], leastSmoothed);
  }

  /** Outside slow start a sender whose velocity is not zero has a continuation that moves its
      window: two events that bring the velocity back to one, then enough acknowledgements. */
  lemma MovesUnlessZero(t: Trace, leastSmoothed: nat) returns (events: seq<Event>)
    requires WindowOk(t.s) && !t.s.slowStart && t.s.vs.velocity > 0
    ensures AdmissibleRun(t, events, leastSmoothed)
    ensures RunOf(t, events).Reached? && RunOf(t, events).trace.s.window != t.s.window
  {
    var reset, now := ResetVelocity(t, leastSmoothed);
    var t1 := RunOf(t, reset).trace;
    var p := if t.s.largestSent.Number? then t.s.largestSent.value + 1 else 0;
    var n := t.s.window / (2 * MSS * MSS) + 1;
    SendsOnly(t1, p, n, leastSmoothed);
    var t2 := RunOf(t1, Sends(p, n)).trace;
    LastProbe(t2, p, n, now, leastSmoothed);
    var e := Congestion(Packets(p, n), [], Probe(t.s.window == MIN_WINDOW, now, now + 1 + leastSmoothed));
    hide AdmissibleRun, RunOf, Sends, Packets, Probe;
    RunConcat(t1, Sends(p, n), [e], leastSmoothed);
    RunConcat(t, reset, Sends(p, n) + [e], leastSmoothed);
    events := reset + (Sends(p, n) + [e]);
  }

  /** So of the reachable states outside slow start exactly the stalled ones are frozen for good. */
  lemma FrozenIffStalled(initialPackets: nat, events: seq<Event>, leastSmoothed: nat)
    requires 4 <= initialPackets && initialPackets * MSS < U64 && |events| < U64
    requires AdmissibleRun(Start(initialPackets), events, leastSmoothed)
    requires var r := RunOf(Start(initialPackets), events); r.Reached? && !r.trace.s.slowStart
    ensures var t := RunOf(Start(initialPackets), events).trace;
            Stalled(t.s) <==>
              forall more, least | AdmissibleRun(t, more, least) ::
                RunOf(t, more).Reached? && RunOf(t, more).trace.s.window == t.s.window
  {
    StartInv(initialPackets, leastSmoothed);
    RunCapped(Start(initialPackets), events, leastSmoothed);
    ZeroIsStalled(initialPackets, events, leastSmoothed);
    var t := RunOf(Start(initialPackets), events).trace;
    SamplesPositive(t, leastSmoothed);
    hide AdmissibleRun, RunOf, Stalled, CopaInv, Capped;
    if Stalled(t.s) {
      forall more, least | AdmissibleRun(t, more, least)
        ensures RunOf(t, more).Reached? && RunOf(t, more).trace.s.window == t.s.window
      {
        StalledForGood(t, more, least);
      }
    } else {
      var more := MovesUnlessZero(t, leastSmoothed);
    }
  }

  lemma SamplesPositive(t: Trace, leastSmoothed: nat)
    requires CopaInv(t, leastSmoothed)
    ensures WindowOk(t.s) && forall x | x in t.samples :: x > 0
  {
  }
}
