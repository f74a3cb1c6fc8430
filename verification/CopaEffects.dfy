/** What each event does to the Copa sender, field by field and branch by branch, and how fast slow
    start must grow. */
module CopaEffects {
  import opened Arithmetic
  import opened Flights
  import opened CopaModel
  import opened CopaRuns

  /** The rate comparison without its divisions: some whole rate is at most MSS / (0.5 * delay), and
      window / standing is less than one above it. No delay always asks for an increase. */
  lemma WantsIncreaseIff(window: nat, delay: nat, standing: nat)
    requires standing > 0
    ensures WantsIncrease(window, delay, standing) <==>
              delay == 0 ||
              exists q: nat :: q * delay <= 2 * MSS * 1000000 && window * 1000000 < (q + 1) * standing
  {
    if delay > 0 {
      var target, current := (2 * MSS * 1000000) / delay, (window * 1000000) / standing;
      DivBelow(2 * MSS * 1000000, delay, target);
      DivBelow(window * 1000000, standing, target + 1);
      if WantsIncrease(window, delay, standing) {
        assert target * delay <= 2 * MSS * 1000000 && window * 1000000 < (target + 1) * standing;
      }
      forall q: nat | q * delay <= 2 * MSS * 1000000 && window * 1000000 < (q + 1) * standing
        ensures target >= current
      {
        DivBelow(2 * MSS * 1000000, delay, q);
        DivBelow(window * 1000000, standing, q + 1);
      }
    }
  }

  /** Losses move the marker, to the largest sent packet, exactly when one of them was sent after the
      last cutback; Copa takes nothing off its window for them. */
  lemma LossesTakeEffect(s: Copa, lost: seq<nat>)
    requires s.largestSent.Number? && forall p | p in lost :: p <= s.largestSent.value
    ensures OnPacketsLost(s, lost) == if LostNewer(s.cutback, lost) then s.(cutback := s.largestSent) else s
  {
    WindowUntouched(s, lost);
    OneCutIff(s.cutback, s.largestSent.value, lost);
  }

  /** The checks on the reading. */
  lemma ReadingFaults(s: Copa, acked: seq<nat>, o: Reading)
    requires s.window > 0
    ensures o.latest < o.least ==> OnPacketAcked(s, acked, o) == Failed(NegativeDelay)
    ensures o.latest >= o.least && o.standing == 0 ==> OnPacketAcked(s, acked, o) == Failed(ZeroStanding)
  {
  }

  // ------------------------------------------------------------ slow start

  /** An event in slow start that wants an increase: the first one starts the clock, one more than a
      smoothed RTT after the last doubling doubles the window, and any other changes nothing but the
      largest acknowledged packet. */
  lemma SlowStartEvent(s: Copa, acked: seq<nat>, o: Reading)
    requires s.window > 0 && s.slowStart && o.standing > 0 && o.least <= o.latest
    requires WantsIncrease(s.window, o.latest - o.least, o.standing)
    ensures var r := OnPacketAcked(s, acked, o);
            var m := s.(largestAcked := UpdateMaxAll(s.largestAcked, acked));
            if s.lastDouble == 0 then r == Ok(m.(lastDouble := o.now))
            else if o.now - s.lastDouble <= o.smoothed then r == Ok(m)
            else if 2 * s.window < U64 then r == Ok(m.(window := 2 * s.window, lastDouble := o.now))
            else r == Failed(Overflow)
  {
    hide WantsIncrease, UpdateMaxAll;
  }

  /** Events in slow start that all want an increase, none of them more than `gap` after the one
      before, with smoothed RTTs of at most `most`. */
  ghost predicate Pressing(t: Trace, events: seq<Event>, last: nat, gap: nat, most: nat)
    decreases |events|
  {
    events == [] ||
    (&& t.s.window > 0 && !events[0].SetInitial?
     && (events[0].Congestion? ==>
           var o := events[0].reading;
           && o.standing > 0 && o.least <= o.latest
           && WantsIncrease(t.s.window, o.latest - o.least, o.standing)
           && 0 < last <= o.now <= last + gap && o.smoothed <= most)
     && (Next(t, events[0]).Ok? ==>
           Pressing(Record(t, events[0], Next(t, events[0]).state), events[1..],
                    if events[0].Congestion? then events[0].reading.now else last, gap, most)))
  }

  /** The time of the last of the events, or before them. */
  function LastTime(events: seq<Event>, last: nat): nat
    decreases |events|
  {
    if events == [] then last
    else LastTime(events[1..], if events[0].Congestion? then events[0].reading.now else last)
  }

  /** So far the doublings have kept up with the clock. */
  ghost predicate KeepsUp(t: Trace, last: nat, gap: nat, most: nat) {
    && t.s.slowStart
    && (t.s.lastDouble != 0 ==>
          && t.firstIncrease <= t.s.lastDouble <= last <= t.s.lastDouble + most
          && t.s.lastDouble - t.firstIncrease <= t.doublings * (most + gap))
  }

  lemma EventKeepsUp(t: Trace, e: Event, last: nat, gap: nat, most: nat)
    requires KeepsUp(t, last, gap, most) && t.s.window > 0 && !e.SetInitial?
    requires e.Congestion? ==>
               var o := e.reading;
               && o.standing > 0 && o.least <= o.latest
               && WantsIncrease(t.s.window, o.latest - o.least, o.standing)
               && 0 < last <= o.now <= last + gap && o.smoothed <= most
    requires Next(t, e).Ok?
    ensures var r := Record(t, e, Next(t, e).state);
            KeepsUp(r, if e.Congestion? then e.reading.now else last, gap, most)
  {
    if e.Congestion? {
      WindowUntouched(t.s, e.lost);
      var m := OnPacketsLost(t.s, e.lost);
      SlowStartEvent(m, e.acked, e.reading);
      hide WantsIncrease, OnPacketAcked, UpdateMaxAll, CutsIn, NextStreak, OnPacketsLost, MarkerAfter;
      var r := Record(t, e, Next(t, e).state);
      if t.s.lastDouble != 0 && r.s.window != t.s.window {
        Distribute(t.doublings, 1, most + gap);
      }
    }
  }

  /** The lower bound on growth: while acknowledgements keep coming and ask for more, k doublings
      last at most k * (most + gap) + most, so the window is the initial one times at least
      2^((elapsed - most) / (most + gap)). */
  lemma {:induction false} DoublesInTime(t: Trace, events: seq<Event>, last: nat, gap: nat, most: nat)
    requires KeepsUp(t, last, gap, most) && Pressing(t, events, last, gap, most)
    ensures var r := RunOf(t, events);
            r.Reached? ==>
              && r.trace.s.slowStart
              && (r.trace.s.lastDouble != 0 ==>
                    LastTime(events, last) <= r.trace.firstIncrease + r.trace.doublings * (most + gap) + most)
    decreases |events|
  {
    if events != [] {
      var e := events[0];
      if Next(t, e).Ok? {
        EventKeepsUp(t, e, last, gap, most);
        hide KeepsUp, Next, Record;
        DoublesInTime(Record(t, e, Next(t, e).state), events[1..], if e.Congestion? then e.reading.now else last,
                      gap, most);
      }
    }
  }

  /** Slow start from both sides, from a new sender on: the window is the initial one doubled k times;
      k doublings take more than k times the least smoothed RTT, and no more than k + 1 times the
      greatest and k gaps. */
  lemma SlowStartPace(initialPackets: nat, events: seq<Event>, begin: nat, gap: nat, least: nat, most: nat)
    requires 4 <= initialPackets && initialPackets * MSS < U64 && |events| < U64
    requires AdmissibleRun(Start(initialPackets), events, least)
    requires Pressing(Start(initialPackets), events, begin, gap, most)
    ensures var r := RunOf(Start(initialPackets), events);
            r.Reached? && r.trace.s.lastDouble != 0 ==>
              var t := r.trace;
              && t.s.window == t.s.initialWindow * Pow2(t.doublings)
              && t.doublings * (least + 1) <= t.s.lastDouble - t.firstIncrease
              && LastTime(events, begin) - t.firstIncrease <= t.doublings * (most + gap) + most
  {
    EveryRunSafe(initialPackets, events, least);
    DoublesInTime(Start(initialPackets), events, begin, gap, most);
  }

  // ------------------------------------------------------------ direction and velocity

  /** The direction update, case by case: the first time only the record is made; within a smoothed
      RTT nothing happens; a due record in the recorded direction adds one to the count and doubles
      the velocity from the third on; in the other direction both start anew. */
  lemma DirectionUpdate(vs: VelocityState, window: nat, now: nat, smoothed: nat)
    ensures var r := CheckAndUpdateDirection(vs, window, now, smoothed);
            var d := if window > vs.recordedWindow then Up else Down;
            && (vs.recordTime == 0 ==> r == vs.(recordTime := now, recordedWindow := window))
            && (vs.recordTime != 0 && now - vs.recordTime < smoothed ==> r == vs)
            && (vs.recordTime != 0 && now - vs.recordTime >= smoothed ==>
                  && r.direction == d && r.recordTime == now && r.recordedWindow == window
                  && (d != vs.direction ==> r.velocity == 1 && r.same == 0)
                  && (d == vs.direction && vs.same + 1 < U64 ==>
                        && r.same == vs.same + 1
                        && r.velocity == if vs.same >= 2 then (2 * vs.velocity) % U64 else vs.velocity))
  {
  }

  /** A velocity above one meant for the other direction is dropped, with the count, and the window
      and the time go on record; any other is kept. */
  lemma RedirectIs(vs: VelocityState, d: Direction, now: nat, window: nat)
    ensures Redirect(vs, d, now, window)
         == if vs.direction != d && vs.velocity > 1 then VelocityState(1, d, 0, window, now) else vs
  {
  }

  /** An event outside slow start, or one that ends it: the direction is updated with the window as it
      was, a velocity for the other direction dropped, and the window moves by one step, not below
      four packets. */
  lemma StepEvent(s: Copa, acked: seq<nat>, o: Reading)
    requires 4 * MSS <= s.window < U64 && o.standing > 0 && o.least <= o.latest
    requires !(s.slowStart && WantsIncrease(s.window, o.latest - o.least, o.standing))
    ensures var up := WantsIncrease(s.window, o.latest - o.least, o.standing);
            var vs := Redirect(CheckAndUpdateDirection(s.vs, s.window, o.now, o.smoothed),
                               if up then Up else Down, o.now, s.window);
            var step := StepSize(|acked|, vs.velocity, s.window);
            var m := s.(largestAcked := UpdateMaxAll(s.largestAcked, acked), vs := vs, slowStart := false);
            OnPacketAcked(s, acked, o)
              == if !up then Ok(m.(window := if s.window - step < 4 * MSS then 4 * MSS else s.window - step))
                 else if s.window + step < U64 then Ok(m.(window := s.window + step)) else Failed(Overflow)
  {
    hide WantsIncrease, CheckAndUpdateDirection, Redirect, StepSize, UpdateMaxAll;
  }

  /** A new sender, a sent packet, and a window set from outside. */
  lemma OtherEvents(s: Copa, packets: nat)
    requires packets * MSS < U64
    ensures NewCopa(packets)
         == Copa(packets * MSS, packets * MSS, true, 0, VelocityState(1, NoDirection, 0, 0, 0), Unset, Unset, Unset)
    ensures SetInitialWindow(s, packets)
         == if s.slowStart then s.(initialWindow := packets * MSS, window := packets * MSS) else s
    ensures OnPacketSent(s, packets) == s.(largestSent := Number(packets))
  {
    ModSmall(packets * MSS);
  }
}
