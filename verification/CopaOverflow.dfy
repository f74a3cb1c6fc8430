/** When a run of Copa can overflow its window: only by doubling in slow start. */
module CopaOverflow {
  import opened Arithmetic
  import opened Flights
  import opened CopaModel
  import opened CopaRuns

  /** The largest window the run has in slow start. */
  function Peak(t: Trace, events: seq<Event>): nat
    decreases |events|
  {
    var here := if t.s.slowStart then t.s.window else 0;
    if events == [] || t.s.window == 0 || Next(t, events[0]).Failed? then here
    else Max(here, Peak(Record(t, events[0], Next(t, events[0]).state), events[1..]))
  }

  /** The larger the window, the smaller its largest possible step. */
  lemma StepSmall(acks: nat, velocity: nat, window: nat)
    requires MIN_WINDOW <= window
    ensures window + StepSize(acks, velocity, window) <= Max(HALF, window + 8)
  {
    var doubled := 2 * ((acks * MSS * MSS * velocity) % U64);
    var step := StepSize(acks, velocity, window);
    DivBounds(doubled, window);
    if window <= HALF / 2 {
      MulLe(MIN_WINDOW, window, step);
    } else if step > 8 {
      MulLe(9, step, window);
    }
  }

  lemma EventFits(t: Trace, e: Event, leastSmoothed: nat)
    requires CopaInv(t, leastSmoothed) && Admissible(t, e) && t.events < HALF / 16
    requires t.s.window <= HALF + 8 * t.events && (t.s.slowStart ==> t.s.window < HALF)
    ensures Next(t, e).Ok?
    ensures var r := Next(t, e).state;
            r.slowStart || r.window <= HALF + 8 * (t.events + 1)
  {
    match e
    case Sent(_) =>
    case SetInitial(_) =>
    case Congestion(acked, lost, o) =>
      var all := t.samples + [o.latest];
      assert o.standing in all && forall x | x in all :: x > 0;
      WindowUntouched(t.s, lost);
      var m := OnPacketsLost(t.s, lost);
      AckedStep(m, acked, o, t.events);
      forall v ensures m.window + StepSize(|acked|, v, m.window) <= HALF + 8 * (t.events + 1) {
        StepSmall(|acked|, v, m.window);
      }
      hide StepSize, WantsIncrease, CheckAndUpdateDirection, Redirect, OnPacketAcked, VelocityLaw;
  }

  /** A run of fewer than 2^59 events whose window stays below 2^63 while in slow start never
      overflows: outside slow start a large window only takes steps of a few bytes. */
  lemma {:induction false} NeverOverflows(t: Trace, events: seq<Event>, leastSmoothed: nat)
    requires CopaInv(t, leastSmoothed) && AdmissibleRun(t, events, leastSmoothed)
    requires t.events + |events| < HALF / 16 && Peak(t, events) < HALF
    requires t.s.slowStart || t.s.window <= HALF + 8 * t.events
    ensures RunOf(t, events).Reached?
    decreases |events|
  {
    if events != [] {
      EventFits(t, events[0], leastSmoothed);
      EventKeeps(t, events[0], leastSmoothed);
      WindowPositive(t, leastSmoothed);
      hide CopaInv, Admissible, Next;
      NeverOverflows(Record(t, events[0], Next(t, events[0]).state), events[1..], leastSmoothed);
    }
  }

  lemma RunNeverOverflows(initialPackets: nat, events: seq<Event>, leastSmoothed: nat)
    requires 4 <= initialPackets && initialPackets * MSS < U64 && |events| < HALF / 16
    requires AdmissibleRun(Start(initialPackets), events, leastSmoothed)
    requires Peak(Start(initialPackets), events) < HALF
    ensures RunOf(Start(initialPackets), events).Reached?
  {
    StartInv(initialPackets, leastSmoothed);
    NeverOverflows(Start(initialPackets), events, leastSmoothed);
  }
}
