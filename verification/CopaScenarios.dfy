/** Runs of Copa from a new sender that end in trouble: one that stalls for good at the floor, and
    one whose step falls short because its 64-bit product wraps. A packet is sent and acknowledged
    every 30 ms; its RTT is 10 ms, or 30 ms while a queue stands. The smoothed RTTs are arbitrary
    up to 30 ms, except that the first equals the first sample. */
module CopaScenarios {
  import opened Arithmetic
  import opened Flights
  import opened CopaModel
  import opened CopaRuns
  import opened CopaStall

  function RoundTrip(packet: nat, now: nat, latest: nat, smoothed: nat): seq<Event> {
    [Sent(packet), Congestion([packet], [], Reading(now, latest, smoothed, 10000, latest))]
  }

  function RoundTrips(packet: nat, now: nat, latest: nat, smoothed: seq<nat>): seq<Event>
    decreases |smoothed|
  {
    if smoothed == [] then []
    else RoundTrip(packet, now, latest, smoothed[0]) + RoundTrips(packet + 1, now + 30000, latest, smoothed[1..])
  }

  /** Every smoothed RTT lies between the bounds. */
  ghost predicate Smooth(smoothed: seq<nat>, leastSmoothed: nat) {
    forall x | x in smoothed :: leastSmoothed <= x <= 30000
  }

  /** For instance the smoothed RTTs of RttStats, each an eighth of the way to the latest sample. */
  function Eighths(smoothed: nat, samples: seq<nat>): seq<nat>
    decreases |samples|
  {
    if samples == [] then []
    else
      var next := (7 * smoothed + samples[0]) / 8;
      [next] + Eighths(next, samples[1..])
  }

  lemma {:induction false} EighthsSmooth(smoothed: nat, samples: seq<nat>)
    requires 10000 <= smoothed <= 30000 && forall x | x in samples :: 10000 <= x <= 30000
    ensures |Eighths(smoothed, samples)| == |samples| && Smooth(Eighths(smoothed, samples), 10000)
    decreases |samples|
  {
    if samples != [] {
      assert samples[0] in samples;
      assert forall x | x in samples[1..] :: x in samples;
      EighthsSmooth((7 * smoothed + samples[0]) / 8, samples[1..]);
    }
  }

  lemma SmoothSplit(smoothed: seq<nat>, leastSmoothed: nat)
    requires Smooth(smoothed, leastSmoothed) && smoothed != []
    ensures leastSmoothed <= smoothed[0] <= 30000 && Smooth(smoothed[1..], leastSmoothed)
  {
    assert smoothed[0] in smoothed;
    assert forall x | x in smoothed[1..] :: x in smoothed;
  }

  // ------------------------------------------------------------ pressure at the floor

  /** At the floor and heading down, the last record at least a round trip old. */
  ghost predicate Sinking(t: Trace, packet: nat, now: nat) {
    && !t.s.slowStart && t.s.window == MIN_WINDOW
    && VelocityLaw(t.s.vs) && t.s.vs.direction == Down && t.s.vs.recordedWindow >= MIN_WINDOW
    && 0 < t.s.vs.recordTime && t.s.vs.recordTime + 30000 <= now
    && (t.s.largestSent.Number? ==> t.s.largestSent.value < packet)
    && 10000 in t.samples && (forall x | x in t.samples :: x > 0)
  }

  lemma SinkingStep(t: Trace, packet: nat, now: nat, smoothed: nat)
    requires Sinking(t, packet, now) && t.s.vs.same + 1 < U64 && smoothed <= 30000
    ensures var es := RoundTrip(packet, now, 30000, smoothed);
            var m := Record(t, es[0], OnPacketSent(t.s, packet));
            && Admissible(t, es[0]) && Admissible(m, es[1]) && m.s.window > 0
            && var r := Next(m, es[1]);
               && r.Ok? && Sinking(Record(m, es[1], r.state), packet + 1, now + 30000)
               && r.state.vs.same == t.s.vs.same + 1
  {
    var es := RoundTrip(packet, now, 30000, smoothed);
    var m := Record(t, es[0], OnPacketSent(t.s, packet));
    var all := m.samples + [30000];
    assert all[|all| - 1] == 30000;
    assert !WantsIncrease(MIN_WINDOW, 20000, 30000);
    DirectionKeepsLaw(m.s.vs, MIN_WINDOW, now, smoothed, m.s.vs.same);
    RedirectKeepsLaw(CheckAndUpdateDirection(m.s.vs, MIN_WINDOW, now, smoothed), Down, now, MIN_WINDOW);
    hide StepSize, WantsIncrease, VelocityLaw;
  }

  lemma SinkingTrip(t: Trace, packet: nat, now: nat, smoothed: nat, leastSmoothed: nat)
    requires Sinking(t, packet, now) && t.s.vs.same + 1 < U64 && leastSmoothed <= smoothed <= 30000
    ensures var es := RoundTrip(packet, now, 30000, smoothed);
            && AdmissibleRun(t, es, leastSmoothed)
            && var r := RunOf(t, es);
            && r.Reached? && Sinking(r.trace, packet + 1, now + 30000)
            && r.trace.s.vs.same == t.s.vs.same + 1
  {
    SinkingStep(t, packet, now, smoothed);
    hide Sinking, Admissible, AdmissibleRun, RunOf;
    RunOfTwo(t, RoundTrip(packet, now, 30000, smoothed), leastSmoothed);
  }

  /** Every round trip under this pressure adds one to the count of unchanged directions. */
  lemma {:induction false} PressureSinks(t: Trace, packet: nat, now: nat, smoothed: seq<nat>, leastSmoothed: nat)
    requires Sinking(t, packet, now) && t.s.vs.same + |smoothed| < U64 && Smooth(smoothed, leastSmoothed)
    ensures var es := RoundTrips(packet, now, 30000, smoothed);
            && AdmissibleRun(t, es, leastSmoothed)
            && var r := RunOf(t, es);
            && r.Reached? && Sinking(r.trace, packet + |smoothed|, now + 30000 * |smoothed|)
            && r.trace.s.vs.same == t.s.vs.same + |smoothed|
    decreases |smoothed|
  {
    hide Sinking, AdmissibleRun, RunOf, RoundTrip, Smooth;
    EmptyRun(t, leastSmoothed);
    if smoothed != [] {
      SmoothSplit(smoothed, leastSmoothed);
      var es := RoundTrip(packet, now, 30000, smoothed[0]);
      SinkingTrip(t, packet, now, smoothed[0], leastSmoothed);
      var t' := RunOf(t, es).trace;
      PressureSinks(t', packet + 1, now + 30000, smoothed[1..], leastSmoothed);
      RunConcat(t, es, RoundTrips(packet + 1, now + 30000, 30000, smoothed[1..]), leastSmoothed);
    }
  }

  // ------------------------------------------------------------ growth without a queue

  /** Heading up, grown since the last record, which is at least a round trip old; the window is
      still small against MSS * MSS * velocity. */
  ghost predicate Climbing(t: Trace, packet: nat, now: nat) {
    && !t.s.slowStart && MIN_WINDOW <= t.s.window && ClimbBound(t.s.window, t.s.vs.same)
    && VelocityLaw(t.s.vs) && t.s.vs.direction == Up && t.s.vs.recordedWindow < t.s.window
    && 0 < t.s.vs.recordTime && t.s.vs.recordTime + 30000 <= now
    && (t.s.largestSent.Number? ==> t.s.largestSent.value < packet)
    && 10000 in t.samples && (forall x | x in t.samples :: x > 0)
  }

  predicate ClimbBound(window: nat, same: nat) {
    window <= MSS * MSS * Speed(same) && (same <= 2 ==> window <= 10000 + 800 * same)
  }

  /** A step up from a window within the bound stays within the next one, and is not zero. */
  lemma ClimbBoundKept(window: nat, same: nat)
    requires MIN_WINDOW <= window && ClimbBound(window, same)
    ensures var v := Speed(same + 1);
            && (MSS * MSS * v < U64 ==>
                  var next := window + StepSize(1, v, window);
                  window < next < U64 && ClimbBound(next, same + 1))
  {
    var v := Speed(same + 1);
    var product := MSS * MSS * v;
    if product < U64 {
      ModSmall(product);
      assert 1 * MSS * MSS * v == product;
      var step := StepSize(1, v, window);
      assert step == (2 * product) / window;
      DivBounds(2 * product, window);
      SpeedDoubles(same);
      StepWithin(window, product, step);
    }
  }

  lemma SpeedDoubles(same: nat)
    ensures Speed(same + 1) == if same < 2 then 1 else 2 * Speed(same)
  {
  }

  lemma StepWithin(window: nat, product: nat, step: nat)
    requires MIN_WINDOW <= window <= product && step * window <= 2 * product < (step + 1) * window
    ensures 2 <= step && step * 2920 <= product
  {
    if step < 2 {
      MulLe(step + 1, 2, window);
    }
    MulLe(MIN_WINDOW, window, step);
  }

  /** A round trip without a queue raises the count and moves the window by the step of the new
      velocity, whether or not its product still fits. */
  lemma ClimbEvent(t: Trace, packet: nat, now: nat, smoothed: nat)
    requires Climbing(t, packet, now) && t.s.vs.same <= 44 && smoothed <= 30000
    ensures var es := RoundTrip(packet, now, 10000, smoothed);
            var m := Record(t, es[0], OnPacketSent(t.s, packet));
            && Admissible(t, es[0]) && Admissible(m, es[1]) && m.s.window > 0
            && var o := es[1].reading;
               var vs := CheckAndUpdateDirection(t.s.vs, t.s.window, now, smoothed);
               && vs.same == t.s.vs.same + 1 && vs.direction == Up && VelocityLaw(vs)
               && vs.recordedWindow == t.s.window && vs.recordTime == now
               && Next(m, es[1]) == AddChecked(m.s.(vs := vs, largestAcked := UpdateMaxAll(m.s.largestAcked, [packet])),
                                               StepSize(1, vs.velocity, t.s.window))
  {
    var es := RoundTrip(packet, now, 10000, smoothed);
    var m := Record(t, es[0], OnPacketSent(t.s, packet));
    var all := m.samples + [10000];
    assert all[|all| - 1] == 10000;
    assert WantsIncrease(m.s.window, 0, 10000);
    DirectionKeepsLaw(m.s.vs, m.s.window, now, smoothed, m.s.vs.same);
    WindowUntouched(m.s, []);
    hide StepSize, WantsIncrease, VelocityLaw, UpdateMaxAll, ClimbBound;
  }

  lemma ClimbTrip(t: Trace, packet: nat, now: nat, smoothed: nat, leastSmoothed: nat)
    requires Climbing(t, packet, now) && t.s.vs.same <= 43 && leastSmoothed <= smoothed <= 30000
    ensures var es := RoundTrip(packet, now, 10000, smoothed);
            && AdmissibleRun(t, es, leastSmoothed)
            && var r := RunOf(t, es);
            && r.Reached? && Climbing(r.trace, packet + 1, now + 30000)
            && r.trace.s.vs.same == t.s.vs.same + 1
  {
    ClimbEvent(t, packet, now, smoothed);
    var es := RoundTrip(packet, now, 10000, smoothed);
    var vs := CheckAndUpdateDirection(t.s.vs, t.s.window, now, smoothed);
    OneAckFits(vs);
    VelocityVanishesFrom66(vs);
    ClimbBoundKept(t.s.window, t.s.vs.same);
    hide AdmissibleRun, RunOf, Admissible, StepSize, CheckAndUpdateDirection, Speed, UpdateMaxAll, ClimbBound;
    hide VelocityLaw;
    RunOfTwo(t, es, leastSmoothed);
  }

  /** Every round trip without a queue adds one to the count, up to 44. */
  lemma {:induction false} Climbs(t: Trace, packet: nat, now: nat, smoothed: seq<nat>, leastSmoothed: nat)
    requires Climbing(t, packet, now) && t.s.vs.same + |smoothed| <= 44 && Smooth(smoothed, leastSmoothed)
    ensures var es := RoundTrips(packet, now, 10000, smoothed);
            && AdmissibleRun(t, es, leastSmoothed)
            && var r := RunOf(t, es);
            && r.Reached? && Climbing(r.trace, packet + |smoothed|, now + 30000 * |smoothed|)
            && r.trace.s.vs.same == t.s.vs.same + |smoothed|
    decreases |smoothed|
  {
    hide Climbing, AdmissibleRun, RunOf, RoundTrip, Smooth;
    EmptyRun(t, leastSmoothed);
    if smoothed != [] {
      SmoothSplit(smoothed, leastSmoothed);
      var es := RoundTrip(packet, now, 10000, smoothed[0]);
      ClimbTrip(t, packet, now, smoothed[0], leastSmoothed);
      var t' := RunOf(t, es).trace;
      Climbs(t', packet + 1, now + 30000, smoothed[1..], leastSmoothed);
      RunConcat(t, es, RoundTrips(packet + 1, now + 30000, 10000, smoothed[1..]), leastSmoothed);
    }
  }

  /** The next one takes the count to 45 and the velocity to 2^43; its step, for one acknowledged
      packet, is less than a sixtieth of what the law gives. */
  lemma ShortStep(t: Trace, packet: nat, now: nat, smoothed: nat, leastSmoothed: nat)
    requires Climbing(t, packet, now) && t.s.vs.same == 44 && leastSmoothed <= smoothed <= 30000
    ensures var es := RoundTrip(packet, now, 10000, smoothed);
            && AdmissibleRun(t, es, leastSmoothed)
            && var r := RunOf(t, es);
            && r.Reached? && r.trace.s.vs.same == 45 && r.trace.s.vs.velocity == Pow2(43)
            && t.s.window <= r.trace.s.window
            && 61 * (r.trace.s.window - t.s.window) <= Budget(Pow2(43), 1) / t.s.window
  {
    ClimbEvent(t, packet, now, smoothed);
    var es := RoundTrip(packet, now, 10000, smoothed);
    var vs := CheckAndUpdateDirection(t.s.vs, t.s.window, now, smoothed);
    VelocityVanishesFrom66(vs);
    Pow2Of42();
    WrappedStep(t.s.window);
    assert t.s.window <= MSS * MSS * Pow2(42);
    hide AdmissibleRun, RunOf, Admissible, StepSize, CheckAndUpdateDirection, Pow2, UpdateMaxAll, Climbing;
    hide VelocityLaw, Budget;
    RunOfTwo(t, es, leastSmoothed);
  }

  /** For every window: MSS * MSS * 2^43 is 303007812429021184 above 2^64. */
  lemma WrappedStep(window: nat)
    requires window >= MIN_WINDOW
    ensures 61 * StepSize(1, 0x800_0000_0000, window) <= Budget(0x800_0000_0000, 1) / window
    ensures StepSize(1, 0x800_0000_0000, window) < 0x8000_0000_0000_0000
  {
    var kept := (1 * MSS * MSS * 0x800_0000_0000) % U64;
    assert Budget(0x800_0000_0000, 1) == 2 * (kept + U64) && 60 * kept <= U64;
    var step := StepSize(1, 0x800_0000_0000, window);
    assert step == (2 * kept) / window;
    DivBounds(2 * kept, window);
    DivBelow(2 * (kept + U64), window, 61 * step);
  }

  // ------------------------------------------------------------ from a new sender

  /** The first round trip of a connection: no queue, and the smoothed RTT is the sample. */
  function FirstTrip(): seq<Event> { RoundTrip(1, 30000, 10000, 10000) }

  /** Window, mode, velocity state and largest sent packet; samples so far. */
  ghost predicate At(t: Trace, window: nat, slowStart: bool, vs: VelocityState, sent: nat) {
    && t.s.window == window && t.s.slowStart == slowStart && t.s.vs == vs && t.s.largestSent == Number(sent)
    && 10000 in t.samples && (forall x | x in t.samples :: x > 0)
  }

  /** Slow start takes the first round trip for an increase. */
  lemma FirstTripIs(leastSmoothed: nat)
    requires leastSmoothed <= 10000
    ensures AdmissibleRun(Start(4), FirstTrip(), leastSmoothed)
    ensures var r := RunOf(Start(4), FirstTrip());
            r.Reached? && At(r.trace, MIN_WINDOW, true, VelocityState(1, NoDirection, 0, 0, 0), 1)
  {
    var es := FirstTrip();
    var m := Record(Start(4), es[0], OnPacketSent(NewCopa(4), 1));
    assert (m.samples + [10000])[0] == 10000;
    RunOfTwo(Start(4), es, leastSmoothed);
  }

  /** A round trip under pressure before any direction is on record ends slow start. */
  lemma FloorTrip(t: Trace, slowStart: bool, vs: VelocityState, packet: nat, now: nat, smoothed: nat,
                  leastSmoothed: nat)
    requires packet >= 1 && At(t, MIN_WINDOW, slowStart, vs, packet - 1) && leastSmoothed <= smoothed <= 30000
    requires vs.direction == NoDirection && vs.velocity == 1 && vs.same == 0
    requires vs.recordTime != 0 ==> now >= vs.recordTime + 30000 && vs.recordedWindow == MIN_WINDOW
    ensures AdmissibleRun(t, RoundTrip(packet, now, 30000, smoothed), leastSmoothed)
    ensures var r := RunOf(t, RoundTrip(packet, now, 30000, smoothed));
            var d := if vs.recordTime == 0 then NoDirection else Down;
            r.Reached? && At(r.trace, MIN_WINDOW, false, VelocityState(1, d, 0, MIN_WINDOW, now), packet)
  {
    var es := RoundTrip(packet, now, 30000, smoothed);
    var m := Record(t, es[0], OnPacketSent(t.s, packet));
    var all := m.samples + [30000];
    assert all[|all| - 1] == 30000;
    assert !WantsIncrease(MIN_WINDOW, 20000, 30000);
    hide StepSize, WantsIncrease;
    RunOfTwo(t, es, leastSmoothed);
  }

  /** The first round trips without a queue after slow start, at velocity 1. */
  lemma FreeTrip(t: Trace, window: nat, vs: VelocityState, packet: nat, now: nat, smoothed: nat, leastSmoothed: nat)
    requires packet >= 1 && At(t, window, false, vs, packet - 1) && leastSmoothed <= smoothed <= 30000
    requires MIN_WINDOW <= window <= 10000 && vs.velocity == 1 && 0 < vs.recordTime && vs.recordTime + 30000 <= now
    requires vs.direction != if window > vs.recordedWindow then Up else Down
    ensures AdmissibleRun(t, RoundTrip(packet, now, 10000, smoothed), leastSmoothed)
    ensures var r := RunOf(t, RoundTrip(packet, now, 10000, smoothed));
            var d := if window > vs.recordedWindow then Up else Down;
            && r.Reached?
            && At(r.trace, window + 2 * MSS * MSS / window, false, VelocityState(1, d, 0, window, now), packet)
  {
    var es := RoundTrip(packet, now, 10000, smoothed);
    var m := Record(t, es[0], OnPacketSent(t.s, packet));
    var all := m.samples + [10000];
    assert all[|all| - 1] == 10000;
    assert WantsIncrease(m.s.window, 0, 10000);
    assert StepSize(1, 1, window) == 2 * MSS * MSS / window;
    assert 2 * MSS * MSS / window <= 2 * MSS * MSS;
    hide StepSize, WantsIncrease;
    RunOfTwo(t, es, leastSmoothed);
  }

  lemma PressureFromStart(smoothed: seq<nat>, leastSmoothed: nat)
    requires |smoothed| >= 2 && Smooth(smoothed, leastSmoothed) && leastSmoothed <= 10000
    requires |smoothed| < U64
    ensures var run := FirstTrip() + RoundTrips(2, 60000, 30000, smoothed);
            && AdmissibleRun(Start(4), run, leastSmoothed)
            && var r := RunOf(Start(4), run);
            && r.Reached? && Sinking(r.trace, 2 + |smoothed|, 60000 + 30000 * |smoothed|)
            && r.trace.s.vs.same == |smoothed| - 2
  {
    var rest := smoothed[1..];
    SmoothSplit(smoothed, leastSmoothed);
    SmoothSplit(rest, leastSmoothed);
    var a, b := RoundTrip(2, 60000, 30000, smoothed[0]), RoundTrip(3, 90000, 30000, rest[0]);
    FirstTripIs(leastSmoothed);
    var t1 := RunOf(Start(4), FirstTrip()).trace;
    FloorTrip(t1, true, VelocityState(1, NoDirection, 0, 0, 0), 2, 60000, smoothed[0], leastSmoothed);
    var t2 := RunOf(t1, a).trace;
    FloorTrip(t2, false, VelocityState(1, NoDirection, 0, MIN_WINDOW, 60000), 3, 90000, rest[0], leastSmoothed);
    var t3 := RunOf(t2, b).trace;
    NowSinking(t3);
    hide At, Sinking, AdmissibleRun, RunOf, RoundTrip, Smooth, Start;
    PressureSinks(t3, 4, 120000, rest[1..], leastSmoothed);
    var tail := RoundTrips(4, 120000, 30000, rest[1..]);
    RunConcat(t2, b, tail, leastSmoothed);
    RunConcat(t1, a, b + tail, leastSmoothed);
    RunConcat(Start(4), FirstTrip(), a + (b + tail), leastSmoothed);
    assert RoundTrips(3, 90000, 30000, rest) == b + tail;
    assert RoundTrips(2, 60000, 30000, smoothed) == a + (b + tail);
  }

  lemma NowSinking(t: Trace)
    requires At(t, MIN_WINDOW, false, VelocityState(1, Down, 0, MIN_WINDOW, 90000), 3)
    ensures Sinking(t, 4, 120000) && t.s.vs.same == 0
  {
    assert Pow2(0) == 1;
  }

  /** A new sender of four packets under 20 ms of standing queue reaches velocity zero within 69
      round trips of 30 ms, and then stays at four packets in every run that follows, also once the
      queue is gone. */
  lemma StallReached(smoothed: seq<nat>, leastSmoothed: nat, more: seq<Event>, leastLater: nat)
    requires 68 <= |smoothed| < U64 && Smooth(smoothed, leastSmoothed) && leastSmoothed <= 10000
    ensures var run := FirstTrip() + RoundTrips(2, 60000, 30000, smoothed);
            && AdmissibleRun(Start(4), run, leastSmoothed)
            && var r := RunOf(Start(4), run);
            && r.Reached? && r.trace.s.vs.velocity == 0 && r.trace.s.window == 4 * MSS
            && (AdmissibleRun(r.trace, more, leastLater) ==>
                  var z := RunOf(r.trace, more);
                  z.Reached? && z.trace.s.vs.velocity == 0 && z.trace.s.window == 4 * MSS)
  {
    PressureFromStart(smoothed, leastSmoothed);
    hide AdmissibleRun, RunOf, FirstTrip, RoundTrips, VelocityLaw, Smooth;
    var t := RunOf(Start(4), FirstTrip() + RoundTrips(2, 60000, 30000, smoothed)).trace;
    SinkingStalls(t, 2 + |smoothed|, 60000 + 30000 * |smoothed|);
    if AdmissibleRun(t, more, leastLater) {
      StalledForGood(t, more, leastLater);
    }
  }

  lemma SinkingStalls(t: Trace, packet: nat, now: nat)
    requires Sinking(t, packet, now) && t.s.vs.same >= 66
    ensures Stalled(t.s) && t.s.window == 4 * MSS && forall x | x in t.samples :: x > 0
  {
    VelocityVanishesFrom66(t.s.vs);
  }

  /** One round trip with a queue, to leave slow start, and then none. */
  function ClimbRun(smoothed: seq<nat>): seq<Event>
    requires smoothed != []
  {
    FirstTrip() + (RoundTrip(2, 60000, 30000, smoothed[0]) + RoundTrips(3, 90000, 10000, smoothed[1..]))
  }

  lemma ClimbFromStart(smoothed: seq<nat>, leastSmoothed: nat)
    requires 3 <= |smoothed| <= 47 && Smooth(smoothed, leastSmoothed) && leastSmoothed <= 10000
    ensures AdmissibleRun(Start(4), ClimbRun(smoothed), leastSmoothed)
    ensures var r := RunOf(Start(4), ClimbRun(smoothed));
            && r.Reached? && Climbing(r.trace, 2 + |smoothed|, 60000 + 30000 * |smoothed|)
            && r.trace.s.vs.same == |smoothed| - 3
  {
    var two := smoothed[1..];
    var three := two[1..];
    SmoothSplit(smoothed, leastSmoothed);
    SmoothSplit(two, leastSmoothed);
    SmoothSplit(three, leastSmoothed);
    var a, b, c := RoundTrip(2, 60000, 30000, smoothed[0]), RoundTrip(3, 90000, 10000, two[0]),
                   RoundTrip(4, 120000, 10000, three[0]);
    FirstTripIs(leastSmoothed);
    var t1 := RunOf(Start(4), FirstTrip()).trace;
    FloorTrip(t1, true, VelocityState(1, NoDirection, 0, 0, 0), 2, 60000, smoothed[0], leastSmoothed);
    var t2 := RunOf(t1, a).trace;
    FreeTrip(t2, 5840, VelocityState(1, NoDirection, 0, MIN_WINDOW, 60000), 3, 90000, two[0], leastSmoothed);
    var t3 := RunOf(t2, b).trace;
    FreeTrip(t3, 6570, VelocityState(1, Down, 0, 5840, 90000), 4, 120000, three[0], leastSmoothed);
    var t4 := RunOf(t3, c).trace;
    NowClimbing(t4);
    hide At, Climbing, AdmissibleRun, RunOf, RoundTrip, Smooth, Start;
    Climbs(t4, 5, 150000, three[1..], leastSmoothed);
    var tail := RoundTrips(5, 150000, 10000, three[1..]);
    RunConcat(t3, c, tail, leastSmoothed);
    RunConcat(t2, b, c + tail, leastSmoothed);
    RunConcat(t1, a, b + (c + tail), leastSmoothed);
    RunConcat(Start(4), FirstTrip(), a + (b + (c + tail)), leastSmoothed);
    assert RoundTrips(4, 120000, 10000, three) == c + tail;
    assert RoundTrips(3, 90000, 10000, two) == b + (c + tail);
  }

  lemma NowClimbing(t: Trace)
    requires At(t, 7218, false, VelocityState(1, Up, 0, 6570, 120000), 4)
    ensures Climbing(t, 5, 150000) && t.s.vs.same == 0
  {
    assert Pow2(0) == 1;
  }

  /** A new sender whose path has no queue after one round trip reaches, in the 49th, a step that is
      less than a sixtieth of acks * MSS * MSS * velocity over half the window: the product has
      wrapped. */
  lemma ShortStepTaken(smoothed: seq<nat>, last: nat, leastSmoothed: nat)
    requires |smoothed| == 47 && Smooth(smoothed, leastSmoothed) && leastSmoothed <= 10000
    requires leastSmoothed <= last <= 30000
    ensures var run := ClimbRun(smoothed) + RoundTrip(49, 1470000, 10000, last);
            && AdmissibleRun(Start(4), run, leastSmoothed)
            && RunOf(Start(4), ClimbRun(smoothed)).Reached? && RunOf(Start(4), run).Reached?
            && var before, after := RunOf(Start(4), ClimbRun(smoothed)).trace.s, RunOf(Start(4), run).trace.s;
            && after.vs.same == 45 && after.vs.velocity == Pow2(43)
            && before.window > 0 && before.window <= after.window
            && 61 * (after.window - before.window) <= Budget(Pow2(43), 1) / before.window
  {
    ClimbFromStart(smoothed, leastSmoothed);
    var t := RunOf(Start(4), ClimbRun(smoothed)).trace;
    assert t.s.window > 0;
    hide AdmissibleRun, RunOf, ClimbRun, Climbing, Smooth, RoundTrip, Budget, Pow2;
    ShortStep(t, 49, 1470000, last, leastSmoothed);
    RunConcat(Start(4), ClimbRun(smoothed), RoundTrip(49, 1470000, 10000, last), leastSmoothed);
  }
}
