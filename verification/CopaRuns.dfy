/** Whole runs of Copa: the window floor, slow-start growth, the velocity law, one cutback per
    flight, and what a single step and a run of increases may do to the window. */
module CopaRuns {
  import opened Arithmetic
  import opened Flights
  import opened CopaModel

  function Pow2(n: nat): (p: nat)
    ensures p >= 1
  {
    if n == 0 then 1 else 2 * Pow2(n - 1)
  }

  /** A window on record and the time of the record. */
  datatype Mark = Mark(window: nat, time: nat)

  /** A run so far: the sender, every latest RTT given to the filters, the time of the first
      slow-start increase, the doublings since the window was last set from outside, the cutbacks,
      the records since the direction last changed, and the number of events. */
  datatype Trace = Trace(
    s: Copa,
    samples: seq<nat>,
    firstIncrease: nat,
    doublings: nat,
    cuts: seq<Cut>,
    streak: seq<Mark>,
    events: nat)

  function Start(initialPackets: nat): Trace {
    Trace(NewCopa(initialPackets), [], 0, 0, [], [], 0)
  }

  /** What a windowed minimum filter promises after an update with the last sample. */
  ghost predicate FilterContract(samples: seq<nat>, best: nat) {
    samples != [] && best in samples && best <= samples[|samples| - 1]
  }

  /** Packet numbers grow; only sent packets are acknowledged or lost; RTT samples are positive;
      the filters keep their contract; the window is only set to at least the minimum. */
  ghost predicate Admissible(t: Trace, e: Event) {
    match e
    case Sent(p) => t.s.largestSent.Number? ==> t.s.largestSent.value < p
    case Congestion(acked, lost, o) =>
      && SentBefore(acked, t.s.largestSent) && SentBefore(lost, t.s.largestSent)
      && o.latest > 0
      && FilterContract(t.samples + [o.latest], o.least)
      && FilterContract(t.samples + [o.latest], o.standing)
    case SetInitial(n) => 4 <= n && n * MSS < U64
  }

  /** The next trace, if the sender does not fail. */
  function Next(t: Trace, e: Event): (r: Outcome)
    requires t.s.window > 0
  {
    match e
    case Sent(p) => Ok(OnPacketSent(t.s, p))
    case Congestion(acked, lost, o) => OnCongestionEvent(t.s, acked, lost, o)
    case SetInitial(n) => Ok(SetInitialWindow(t.s, n))
  }

  /** One more record in the same direction lengthens the streak; any other record starts anew. */
  function NextStreak(streak: seq<Mark>, vs: VelocityState, vs': VelocityState): seq<Mark> {
    if vs' == vs then streak
    else
      var mark := Mark(vs'.recordedWindow, vs'.recordTime);
      if vs'.same == vs.same + 1 then streak + [mark] else [mark]
  }

  function Record(t: Trace, e: Event, s: Copa): Trace {
    match e
    case Sent(_) => t.(s := s, events := t.events + 1)
    case SetInitial(_) =>
      t.(s := s, doublings := if t.s.slowStart then 0 else t.doublings, events := t.events + 1)
    case Congestion(_, lost, o) =>
      Trace(
        s,
        t.samples + [o.latest],
        if t.s.lastDouble == 0 then s.lastDouble else t.firstIncrease,
        if t.s.slowStart && s.slowStart && s.window != t.s.window then t.doublings + 1 else t.doublings,
        t.cuts + CutsIn(t.s.cutback, t.s.largestSent, lost),
        NextStreak(t.streak, t.s.vs, s.vs),
        t.events + 1)
  }

  // ------------------------------------------------------------ the invariant of every run

  ghost predicate WindowOk(s: Copa) {
    MIN_WINDOW <= s.window < U64
  }

  /** The velocity is the power of two that the count of unchanged directions calls for. */
  ghost predicate VelocityLaw(vs: VelocityState) {
    && vs.velocity == Speed(vs.same) % U64
    && (vs.direction == NoDirection ==> vs.same == 0 && vs.velocity == 1)
  }

  /** The doublings behind a count of unchanged directions. */
  function Doublings(same: nat): nat { if same <= 2 then 0 else same - 2 }

  /** 1, 1, 1, 2, 4, 8, ... */
  function Speed(same: nat): nat { Pow2(Doublings(same)) }

  /** `same` counts records an RTT or more apart between each two of which the window really moved
      in the recorded direction. */
  ghost predicate StreakLaw(vs: VelocityState, streak: seq<Mark>, leastSmoothed: nat) {
    if vs.recordTime == 0 then vs.same == 0 && vs.velocity == 1
    else
      && |streak| == vs.same + 1
      && streak[vs.same] == Mark(vs.recordedWindow, vs.recordTime)
      && (forall i | 0 <= i < vs.same ::
            && streak[i + 1].time >= streak[i].time + leastSmoothed
            && (vs.direction == Up ==> streak[i].window < streak[i + 1].window)
            && (vs.direction == Down ==> streak[i].window >= streak[i + 1].window))
  }

  /** In slow start the window is the initial one doubled, and doublings are an RTT apart. */
  ghost predicate Growth(t: Trace, leastSmoothed: nat) {
    && (t.s.slowStart ==> t.s.window == t.s.initialWindow * Pow2(t.doublings))
    && (t.s.lastDouble == 0 ==> t.firstIncrease == 0 && t.doublings == 0)
    && t.doublings * (leastSmoothed + 1) <= t.s.lastDouble - t.firstIncrease
  }

  ghost predicate CopaInv(t: Trace, leastSmoothed: nat) {
    && WindowOk(t.s)
    && VelocityLaw(t.s.vs) && t.s.vs.same <= t.events
    && StreakLaw(t.s.vs, t.streak, leastSmoothed)
    && Growth(t, leastSmoothed)
    && OnePerFlight(t.cuts) && MarkedBy(t.s.cutback, t.s.largestSent, t.cuts)
    && (forall x | x in t.samples :: x > 0)
  }

  lemma StartInv(initialPackets: nat, leastSmoothed: nat)
    requires 4 <= initialPackets && initialPackets * MSS < U64
    ensures CopaInv(Start(initialPackets), leastSmoothed)
  {
  }

  lemma SpeedStep(same: nat)
    ensures Speed(0) == 1
    ensures same >= 2 ==> (2 * (Speed(same) % U64)) % U64 == Speed(same + 1) % U64
    ensures same < 2 ==> Speed(same + 1) == Speed(same)
  {
    DoubleWraps(Speed(same));
  }

  lemma DoubleWraps(p: nat)
    ensures (2 * (p % U64)) % U64 == (2 * p) % U64
  {
  }

  lemma DirectionKeepsLaw(vs: VelocityState, window: nat, now: nat, smoothed: nat, events: nat)
    requires VelocityLaw(vs) && vs.same <= events && events + 1 < U64
    ensures var r := CheckAndUpdateDirection(vs, window, now, smoothed);
            VelocityLaw(r) && r.same <= events + 1
  {
    hide Speed;
    SpeedStep(vs.same);
  }

  lemma RedirectKeepsLaw(vs: VelocityState, d: Direction, now: nat, window: nat)
    requires VelocityLaw(vs) && d != NoDirection
    ensures var r := Redirect(vs, d, now, window);
            && VelocityLaw(r) && r.same <= vs.same
            && (r.velocity > 1 ==> r.direction == d)
  {
  }

  lemma StreakKept(vs: VelocityState, streak: seq<Mark>, d: Direction, window: nat, now: nat, smoothed: nat,
                   leastSmoothed: nat)
    requires StreakLaw(vs, streak, leastSmoothed) && smoothed >= leastSmoothed
    requires vs.same + 1 < U64 && d != NoDirection
    ensures var c := CheckAndUpdateDirection(vs, window, now, smoothed);
            var r := Redirect(c, d, now, window);
            StreakLaw(r, NextStreak(streak, vs, r), leastSmoothed)
  {
    var c := CheckAndUpdateDirection(vs, window, now, smoothed);
    var r := Redirect(c, d, now, window);
    if r == c && c.same == vs.same + 1 {
      var longer := streak + [Mark(window, now)];
      assert longer[vs.same] == streak[vs.same] && longer[vs.same + 1] == Mark(window, now);
      forall i | 0 <= i < c.same
        ensures && longer[i + 1].time >= longer[i].time + leastSmoothed
                && (c.direction == Up ==> longer[i].window < longer[i + 1].window)
                && (c.direction == Down ==> longer[i].window >= longer[i + 1].window)
      {
        if i < vs.same {
          assert longer[i] == streak[i] && longer[i + 1] == streak[i + 1];
        }
      }
    }
  }

  /** The event asks for a sum above 64 bits: a doubling of 2^63 or more in slow start, or later a
      step up, at the velocity of the direction update, beyond 2^64. */
  ghost predicate Overflows(s: Copa, acks: nat, o: Reading)
    requires s.window > 0 && o.standing > 0 && o.least <= o.latest
  {
    && WantsIncrease(s.window, o.latest - o.least, o.standing)
    && if s.slowStart then s.lastDouble != 0 && o.now - s.lastDouble > o.smoothed && 2 * s.window >= U64
       else
         var c := CheckAndUpdateDirection(s.vs, s.window, o.now, o.smoothed);
         s.window + StepSize(acks, Redirect(c, Up, o.now, s.window).velocity, s.window) >= U64
  }

  /** One acknowledgement event: it fails exactly by overflow, keeps the floor, and outside slow
      start moves the window by exactly one step of the velocity it leaves behind, in the recorded
      direction whenever that velocity is above 1. */
  lemma AckedStep(s: Copa, acked: seq<nat>, o: Reading, events: nat)
    requires WindowOk(s) && VelocityLaw(s.vs) && s.vs.same <= events && events + 1 < U64
    requires 0 < o.standing && o.least <= o.latest
    ensures var r := OnPacketAcked(s, acked, o);
            var up := WantsIncrease(s.window, o.latest - o.least, o.standing);
            && (r.Failed? <==> Overflows(s, |acked|, o))
            && (r.Failed? ==> r.fault == Overflow)
            && (r.Ok? ==>
                  && WindowOk(r.state) && VelocityLaw(r.state.vs) && r.state.vs.same <= events + 1
                  && (r.state.slowStart <==> s.slowStart && up)
                  && (if s.slowStart && up then
                        r.state.vs == s.vs && (r.state.window == s.window || r.state.window == 2 * s.window)
                      else if up then
                        && r.state.window == s.window + StepSize(|acked|, r.state.vs.velocity, s.window)
                        && (r.state.vs.velocity > 1 ==> r.state.vs.direction == Up)
                      else
                        && r.state.window
                           == Max(MIN_WINDOW, s.window - StepSize(|acked|, r.state.vs.velocity, s.window))
                        && (r.state.vs.velocity > 1 ==> r.state.vs.direction == Down)))
  {
    hide StepSize, WantsIncrease;
    DirectionKeepsLaw(s.vs, s.window, o.now, o.smoothed, events);
    var vs := CheckAndUpdateDirection(s.vs, s.window, o.now, o.smoothed);
    RedirectKeepsLaw(vs, Up, o.now, s.window);
    RedirectKeepsLaw(vs, Down, o.now, s.window);
    hide VelocityLaw, CheckAndUpdateDirection, Redirect;
  }

  lemma EventKeeps(t: Trace, e: Event, leastSmoothed: nat)
    requires CopaInv(t, leastSmoothed) && Admissible(t, e) && t.events + 1 < U64
    requires e.Congestion? ==> e.reading.smoothed >= leastSmoothed
    ensures var r := Next(t, e);
            && (r.Failed? ==> r.fault == Overflow)
            && (r.Ok? ==>
                  && CopaInv(Record(t, e, r.state), leastSmoothed)
                  && (r.state.slowStart ==> t.s.slowStart)
                  && (t.s.slowStart && r.state.slowStart && !e.SetInitial? ==> r.state.window >= t.s.window))
  {
    match e
    case Sent(p) =>
    case SetInitial(n) => assert Pow2(0) == 1;
    case Congestion(acked, lost, o) =>
      var all := t.samples + [o.latest];
      assert forall x | x in all :: x > 0;
      WindowUntouched(t.s, lost);
      var m := OnPacketsLost(t.s, lost);
      AckedStep(m, acked, o, t.events);
      EventKeepsEpochs(t.cuts, t.s.cutback, t.s.largestSent, lost);
      var r := OnPacketAcked(m, acked, o);
      if r.Ok? {
        StreakAfter(t, m, acked, o, leastSmoothed);
        AckedMarkers(m, acked, o);
        GrowthKept(t, m, acked, lost, o, leastSmoothed);
      }
  }

  lemma StreakAfter(t: Trace, m: Copa, acked: seq<nat>, o: Reading, leastSmoothed: nat)
    requires StreakLaw(t.s.vs, t.streak, leastSmoothed) && o.smoothed >= leastSmoothed
    requires t.s.vs.same + 1 < U64 && m.vs == t.s.vs && m.window > 0 && OnPacketAcked(m, acked, o).Ok?
    ensures var vs := OnPacketAcked(m, acked, o).state.vs;
            StreakLaw(vs, NextStreak(t.streak, t.s.vs, vs), leastSmoothed)
  {
    StreakKept(t.s.vs, t.streak, Up, m.window, o.now, o.smoothed, leastSmoothed);
    StreakKept(t.s.vs, t.streak, Down, m.window, o.now, o.smoothed, leastSmoothed);
    hide StreakLaw, CheckAndUpdateDirection, Redirect, OnPacketAcked;
    AckedVelocity(m, acked, o);
    assert NextStreak(t.streak, t.s.vs, t.s.vs) == t.streak;
  }

  lemma AckedVelocity(s: Copa, acked: seq<nat>, o: Reading)
    requires s.window > 0 && OnPacketAcked(s, acked, o).Ok?
    ensures var vs := OnPacketAcked(s, acked, o).state.vs;
            var c := CheckAndUpdateDirection(s.vs, s.window, o.now, o.smoothed);
            vs == s.vs || vs == Redirect(c, Up, o.now, s.window) || vs == Redirect(c, Down, o.now, s.window)
  {
    hide CheckAndUpdateDirection, Redirect, StepSize, WantsIncrease, UpdateMaxAll;
  }

  lemma AckedMarkers(s: Copa, acked: seq<nat>, o: Reading)
    requires s.window > 0 && OnPacketAcked(s, acked, o).Ok?
    ensures var r := OnPacketAcked(s, acked, o).state;
            r.cutback == s.cutback && r.largestSent == s.largestSent && r.initialWindow == s.initialWindow
  {
    hide WantsIncrease, StepSize, CheckAndUpdateDirection, Redirect;
  }

  lemma GrowthKept(t: Trace, m: Copa, acked: seq<nat>, lost: seq<nat>, o: Reading, leastSmoothed: nat)
    requires Growth(t, leastSmoothed) && t.s.window > 0 && o.smoothed >= leastSmoothed
    requires m == t.s.(cutback := m.cutback)
    requires OnPacketAcked(m, acked, o).Ok?
    ensures Growth(Record(t, Congestion(acked, lost, o), OnPacketAcked(m, acked, o).state), leastSmoothed)
  {
    hide WantsIncrease, StepSize, CheckAndUpdateDirection, Redirect, CutsIn;
    var r := OnPacketAcked(m, acked, o).state;
    var t' := Record(t, Congestion(acked, lost, o), r);
    if t'.doublings == t.doublings + 1 {
      assert Pow2(t.doublings + 1) == 2 * Pow2(t.doublings);
      assert t'.doublings * (leastSmoothed + 1) == t.doublings * (leastSmoothed + 1) + leastSmoothed + 1;
      assert r.window == 2 * m.window;
      assert t.s.initialWindow * (2 * Pow2(t.doublings)) == 2 * (t.s.initialWindow * Pow2(t.doublings));
    }
  }

  // ------------------------------------------------------------ whole runs

  datatype Run = Reached(trace: Trace) | Broke(fault: Fault)

  function RunOf(t: Trace, events: seq<Event>): Run
    decreases |events|
  {
    if events == [] then Reached(t)
    else if t.s.window == 0 then Broke(Underflow)
    else
      var r := Next(t, events[0]);
      if r.Failed? then Broke(r.fault) else RunOf(Record(t, events[0], r.state), events[1..])
  }

  ghost predicate AdmissibleRun(t: Trace, events: seq<Event>, leastSmoothed: nat)
    decreases |events|
  {
    events == [] ||
    (&& Admissible(t, events[0])
     && (events[0].Congestion? ==> events[0].reading.smoothed >= leastSmoothed)
     && (t.s.window > 0 && Next(t, events[0]).Ok? ==>
           AdmissibleRun(Record(t, events[0], Next(t, events[0]).state), events[1..], leastSmoothed)))
  }

  lemma {:induction false} RunKeeps(t: Trace, events: seq<Event>, leastSmoothed: nat)
    requires CopaInv(t, leastSmoothed) && t.events + |events| < U64
    requires AdmissibleRun(t, events, leastSmoothed)
    ensures var r := RunOf(t, events);
            if r.Broke? then r.fault == Overflow
            else CopaInv(r.trace, leastSmoothed) && r.trace.events == t.events + |events|
    decreases |events|
  {
    hide CopaInv, Admissible;
    if events != [] {
      EventKeeps(t, events[0], leastSmoothed);
      assert t.s.window > 0 by { WindowPositive(t, leastSmoothed); }
      var r := Next(t, events[0]);
      if r.Ok? {
        RunKeeps(Record(t, events[0], r.state), events[1..], leastSmoothed);
      }
    }
  }

  lemma WindowPositive(t: Trace, leastSmoothed: nat)
    requires CopaInv(t, leastSmoothed)
    ensures t.s.window > 0
  {
  }

  /** Every run from a window of at least four packets keeps at least four packets, never trips the
      checks on the delay, the standing RTT or the subtraction (only the window addition can
      overflow 64 bits); the velocity is the power of two given by the direction count, which
      counts records an RTT apart with the window moving that way throughout; while in slow start
      the window is the initial one doubled k times, with k smoothed RTTs elapsed; and losses of one
      flight count once. */
  lemma EveryRunSafe(initialPackets: nat, events: seq<Event>, leastSmoothed: nat)
    requires 4 <= initialPackets && initialPackets * MSS < U64 && |events| < U64
    requires AdmissibleRun(Start(initialPackets), events, leastSmoothed)
    ensures var r := RunOf(Start(initialPackets), events);
            && (r.Broke? ==> r.fault == Overflow)
            && (r.Reached? ==>
                  var t := r.trace;
                  && 4 * MSS <= t.s.window < U64
                  && t.s.vs.velocity == Speed(t.s.vs.same) % U64
                  && (t.s.vs.direction == NoDirection ==> t.s.vs.velocity == 1)
                  && StreakLaw(t.s.vs, t.streak, leastSmoothed)
                  && (t.s.slowStart ==> t.s.window == t.s.initialWindow * Pow2(t.doublings))
                  && t.doublings * (leastSmoothed + 1) <= t.s.lastDouble - t.firstIncrease
                  && OnePerFlight(t.cuts)
                  && MarkedBy(t.s.cutback, t.s.largestSent, t.cuts))
  {
    StartInv(initialPackets, leastSmoothed);
    RunKeeps(Start(initialPackets), events, leastSmoothed);
  }

  // ------------------------------------------------------------ putting runs together

  lemma RunOfTwo(t: Trace, es: seq<Event>, leastSmoothed: nat)
    requires |es| == 2 && t.s.window > 0 && Next(t, es[0]).Ok?
    requires es[0].Sent? && es[1].Congestion? && es[1].reading.smoothed >= leastSmoothed
    requires var m := Record(t, es[0], Next(t, es[0]).state);
             Admissible(t, es[0]) && Admissible(m, es[1]) && m.s.window > 0 && Next(m, es[1]).Ok?
    ensures AdmissibleRun(t, es, leastSmoothed)
    ensures var m := Record(t, es[0], Next(t, es[0]).state);
            RunOf(t, es) == Reached(Record(m, es[1], Next(m, es[1]).state))
  {
    hide Admissible, Next, Record;
    var m := Record(t, es[0], Next(t, es[0]).state);
    var rest := es[1..];
    assert rest[0] == es[1] && rest[1..] == [];
    var z := Record(m, es[1], Next(m, es[1]).state);
    assert RunOf(z, rest[1..]) == Reached(z);
    assert RunOf(m, rest) == Reached(z);
    assert AdmissibleRun(m, rest, leastSmoothed);
  }

  lemma EmptyRun(t: Trace, leastSmoothed: nat)
    ensures AdmissibleRun(t, [], leastSmoothed) && RunOf(t, []) == Reached(t)
  {
  }

  lemma {:induction false} RunConcat(t: Trace, first: seq<Event>, more: seq<Event>, leastSmoothed: nat)
    requires AdmissibleRun(t, first, leastSmoothed) && RunOf(t, first).Reached?
    requires AdmissibleRun(RunOf(t, first).trace, more, leastSmoothed)
    ensures AdmissibleRun(t, first + more, leastSmoothed)
    ensures RunOf(t, first + more) == RunOf(RunOf(t, first).trace, more)
    decreases |first|
  {
    hide Admissible, Next;
    if first == [] {
      assert first + more == more;
    } else {
      RunConcat(Record(t, first[0], Next(t, first[0]).state), first[1..], more, leastSmoothed);
      assert (first + more)[1..] == first[1..] + more;
    }
  }

  // ------------------------------------------------------------ equilibrium

  /** Two separate roundings do not blur the equilibrium below: at or under 2 * MSS of queueing
      the window always grows. Above it the roundings leave a gap of one byte per second. */
  lemma Equilibrium(window: nat, delay: nat, standing: nat)
    requires delay > 0 && standing > 0
    ensures window * delay <= 2 * MSS * standing ==> WantsIncrease(window, delay, standing)
    ensures WantsIncrease(window, delay, standing) ==>
              window * delay * 1000000 < 2 * MSS * standing * 1000000 + delay * standing
  {
    var target, current := 2 * MSS * 1000000 / delay, (window * 1000000) / standing;
    var w := window * 1000000;
    if window * delay <= 2 * MSS * standing {
      // current * delay * standing <= w * delay <= 2 * MSS * 1000000 * standing
      DivBelow(w, standing, current);
      assert (current * standing) * delay <= w * delay by { MulLe(current * standing, w, delay); }
      assert w * delay == (window * delay) * 1000000;
      assert (current * delay) * standing == (current * standing) * delay;
      assert (current * delay) * standing <= 2 * MSS * 1000000 * standing;
      CancelFactor(current * delay, 2 * MSS * 1000000, standing);
      DivBelow(2 * MSS * 1000000, delay, current);
    }
    if target >= current {
      // w < (current + 1) * standing and target * delay <= 2 * MSS * 1000000
      DivBelow(w, standing, current + 1);
      DivBelow(2 * MSS * 1000000, delay, target);
      assert w < (current + 1) * standing;
      assert (current + 1) * standing <= (target + 1) * standing by { MulLe(current + 1, target + 1, standing); }
      MulLt(w, (target + 1) * standing, delay);
      assert (target + 1) * standing * delay == (target * delay) * standing + delay * standing by {
        Rearrange(target, standing, delay);
      }
      MulLe(target * delay, 2 * MSS * 1000000, standing);
      assert w * delay == window * delay * 1000000;
    }
  }

  lemma Rearrange(t: nat, s: nat, d: nat)
    ensures (t + 1) * s * d == (t * d) * s + d * s
  {
  }

  // ------------------------------------------------------------ rate of change

  function Acks(events: seq<Event>): nat
    requires forall e | e in events :: e.Congestion?
    decreases |events|
  {
    if events == [] then 0
    else
      assert events[0] in events;
      assert forall e | e in events[1..] :: e in events;
      |events[0].acked| + Acks(events[1..])
  }

  /** A run of acknowledgement events outside slow start, each raising the window at velocity v. */
  ghost predicate IncreaseRun(s: Copa, events: seq<Event>, v: nat)
    decreases |events|
  {
    events == [] ||
    (&& events[0].Congestion? && s.window > 0 && !s.slowStart
     && var o := events[0].reading;
        && o.least <= o.latest && o.standing > 0
        && WantsIncrease(s.window, o.latest - o.least, o.standing)
        && var r := OnCongestionEvent(s, events[0].acked, events[0].lost, o);
           r.Ok? && r.state.vs.velocity == v && IncreaseRun(r.state, events[1..], v))
  }

  function WindowAfter(s: Copa, events: seq<Event>): nat
    requires forall e | e in events :: e.Congestion?
    decreases |events|
  {
    if events == [] || s.window == 0 then s.window
    else
      assert events[0] in events;
      assert forall e | e in events[1..] :: e in events;
      var r := OnCongestionEvent(s, events[0].acked, events[0].lost, events[0].reading);
      if r.Failed? then s.window else WindowAfter(r.state, events[1..])
  }

  /** 2 * MSS * MSS * v * acks. */
  function Budget(v: nat, acks: nat): nat { 2 * MSS * MSS * (v * acks) }

  lemma BudgetAdds(v: nat, a: nat, b: nat)
    ensures Budget(v, a) + Budget(v, b) == Budget(v, a + b)
  {
  }

  lemma BudgetPerWindow(v: nat, acks: nat, window: nat)
    requires acks * MSS <= window
    ensures Budget(v, acks) <= (2 * MSS * v) * window
  {
  }

  lemma StepBound(acks: nat, v: nat, window: nat, floor: nat)
    requires 0 < floor <= window
    ensures StepSize(acks, v, window) * floor <= Budget(v, acks)
  {
  }

  /** The step is acks * MSS * MSS * v / (window / 2), rounded down, exactly when that product fits
      64 bits; otherwise that of the product modulo 2^64, which falls short for every window. */
  lemma StepSizeIs(acks: nat, v: nat, window: nat)
    requires 0 < window < U64
    ensures StepSize(acks, v, window) * window <= Budget(v, acks)
    ensures var kept := (acks * MSS * MSS * v) % U64;
            StepSize(acks, v, window) * window <= 2 * kept < (StepSize(acks, v, window) + 1) * window
    ensures Budget(v, acks) < (StepSize(acks, v, window) + 1) * window <==> acks * MSS * MSS * v < U64
  {
    var product := acks * MSS * MSS * v;
    assert Budget(v, acks) == 2 * product;
    DivBounds(2 * (product % U64), window);
    if product < U64 {
      ModSmall(product);
    }
  }

  lemma {:induction false} GrowthBound(s: Copa, events: seq<Event>, v: nat, floor: nat)
    requires forall e | e in events :: e.Congestion?
    requires IncreaseRun(s, events, v) && 0 < floor <= s.window
    ensures s.window <= WindowAfter(s, events)
    ensures (WindowAfter(s, events) - s.window) * floor <= Budget(v, Acks(events))
    decreases |events|
  {
    hide OnCongestionEvent, StepSize, Budget;
    if events != [] {
      var e := events[0];
      assert forall e | e in events[1..] :: e in events;
      var r := OnCongestionEvent(s, e.acked, e.lost, e.reading).state;
      IncreaseIs(s, e.acked, e.lost, e.reading);
      StepBound(|e.acked|, v, s.window, floor);
      GrowthBound(r, events[1..], v, floor);
      var step, rest := r.window - s.window, WindowAfter(r, events[1..]) - r.window;
      BudgetAdds(v, |e.acked|, Acks(events[1..]));
      Distribute(step, rest, floor);
    }
  }

  lemma IncreaseIs(s: Copa, acked: seq<nat>, lost: seq<nat>, o: Reading)
    requires s.window > 0 && !s.slowStart && o.least <= o.latest && o.standing > 0
    requires WantsIncrease(s.window, o.latest - o.least, o.standing)
    requires OnCongestionEvent(s, acked, lost, o).Ok?
    ensures var r := OnCongestionEvent(s, acked, lost, o).state;
            r.window == s.window + StepSize(|acked|, r.vs.velocity, s.window)
  {
    WindowUntouched(s, lost);
    hide StepSize, WantsIncrease, CheckAndUpdateDirection, Redirect, OnPacketsLost, MarkerAfter, UpdateMaxAll;
    var m := OnPacketsLost(s, lost);
    assert OnPacketAcked(m, acked, o).state.window
        == m.window + StepSize(|acked|, OnPacketAcked(m, acked, o).state.vs.velocity, m.window);
  }

  /** Over a run of increases at velocity v that acknowledges at most one starting window of
      packets, the window grows by at most 2 * v packets. */
  lemma AtMostTwoVelocityPerWindow(s: Copa, events: seq<Event>, v: nat)
    requires forall e | e in events :: e.Congestion?
    requires s.window > 0 && IncreaseRun(s, events, v)
    requires Acks(events) * MSS <= s.window
    ensures s.window <= WindowAfter(s, events) <= s.window + 2 * v * MSS
  {
    GrowthBound(s, events, v, s.window);
    var grown := WindowAfter(s, events) - s.window;
    BudgetPerWindow(v, Acks(events), s.window);
    CancelFactor(grown, 2 * MSS * v, s.window);
  }
}
