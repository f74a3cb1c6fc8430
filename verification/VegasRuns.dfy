/** Whole runs of Vegas: no check fails and no division is by zero, the window floor, the slow
    start threshold, the mode switch, one halving per flight, and the Reno growth law. */
module VegasRuns {
  import opened Arithmetic
  import opened Flights
  import opened VegasModel
  import opened VegasRoom

  /** A run so far: the sender, every RTT sample given to the base filter, the samples of the
      current round, the halvings, and the number of acknowledgements. */
  datatype Trace = Trace(s: Vegas, samples: seq<nat>, round: seq<nat>, cuts: seq<Cut>, acks: nat)

  function Start(initialPackets: nat, maxPackets: nat): Trace {
    Trace(NewVegas(initialPackets, maxPackets), [], [], [], 0)
  }

  ghost predicate AtLeast(xs: seq<nat>, bound: nat) {
    forall x | x in xs :: bound <= x
  }

  /** What the base RTT filter promises: one of the samples supplied, and none of the current
      round's is smaller. */
  ghost predicate FilterContract(samples: seq<nat>, round: seq<nat>, base: nat) {
    base in samples && AtLeast(round, base)
  }

  /** Packet numbers grow; only sent packets are acknowledged or lost; the base RTT is one of the
      samples supplied; the window is only set to at least the minimum and at most 2^63. */
  ghost predicate Plausible(t: Trace, e: Event) {
    match e
    case Sent(p) => t.s.largestSent.Number? ==> t.s.largestSent.value < p
    case Congestion(acked, lost, latest, base) =>
      && SentBefore(acked, t.s.largestSent) && SentBefore(lost, t.s.largestSent)
      && latest + 1 < INFINITE
      && (acked != [] ==> base in t.samples + [latest + 1])
    case SetInitial(n) => 4 <= n && n * MSS <= HALF
  }

  /** And the base RTT filter keeps its contract. */
  ghost predicate Admissible(t: Trace, e: Event) {
    && Plausible(t, e)
    && (e.Congestion? && e.acked != [] ==>
          FilterContract(t.samples + [e.latest + 1], t.round + [e.latest + 1], e.base))
  }

  /** The packets an event can at most add to the window. */
  function Demand(e: Event): nat {
    match e
    case Sent(_) => 0
    case Congestion(acked, _, _, _) => |acked|
    case SetInitial(n) => n
  }

  function TotalDemand(events: seq<Event>): nat {
    if events == [] then 0 else Demand(events[0]) + TotalDemand(events[1..])
  }

  /** The acknowledgements of an event, and of a run. */
  function Acks(e: Event): nat { if e.Congestion? then |e.acked| else 0 }

  function TotalAcks(events: seq<Event>): nat {
    if events == [] then 0 else Acks(events[0]) + TotalAcks(events[1..])
  }

  function Next(s: Vegas, e: Event): Outcome {
    match e
    case Sent(p) => Ok(OnPacketSent(s, p))
    case Congestion(acked, lost, latest, base) => OnCongestionEvent(s, acked, lost, latest, base)
    case SetInitial(n) => Ok(SetInitialWindow(s, n))
  }

  function Record(t: Trace, e: Event, s: Vegas): Trace {
    match e
    case Sent(_) => t.(s := s)
    case SetInitial(_) => t.(s := s)
    case Congestion(acked, lost, latest, _) =>
      Trace(
        s,
        if acked != [] then t.samples + [latest + 1] else t.samples,
        if s.rttCount == 0 then [] else if acked != [] then t.round + [latest + 1] else t.round,
        t.cuts + CutsIn(t.s.cutback, t.s.largestSent, lost),
        t.acks + |acked|)
  }

  // ------------------------------------------------------------ the invariant of every run

  /** min_rtt_ and rtt_count_ are the minimum and the number of the round's samples. */
  ghost predicate RoundOk(s: Vegas, round: seq<nat>) {
    && s.rttCount == |round|
    && (round == [] ==> s.minRtt == INFINITE)
    && (round != [] ==> s.minRtt in round)
    && (forall x | x in round :: 1 <= s.minRtt <= x < INFINITE)
  }

  /** The round marker is set once anything has been sent, and was sent itself. */
  ghost predicate MarkOk(s: Vegas) {
    && (s.roundMark.Number? <==> s.largestSent.Number?)
    && (s.roundMark.Number? ==> s.roundMark.value <= s.largestSent.value)
  }

  ghost predicate VegasInv(t: Trace) { Core(t) && Room(t.s, t.acks) }

  ghost predicate Core(t: Trace) {
    && MIN_WINDOW <= t.s.window
    && RoundOk(t.s, t.round)
    && MarkOk(t.s)
    && (t.s.vegasMode <==> !Recovering(t.s))
    && OnePerFlight(t.cuts) && MarkedBy(t.s.cutback, t.s.largestSent, t.cuts)
    && AtLeast(t.samples, 1)
  }

  /** The slow start threshold is at most one packet above the window. */
  predicate Close(s: Vegas) { s.threshold <= s.window + MSS }

  // ------------------------------------------------------------ losses

  /** Losses change the window, the threshold, the ack count and the marker only; the window
      stays at the floor or above and a cut brings the threshold down to the window. */
  lemma {:induction false} LossesKeep(s: Vegas, lost: seq<nat>)
    requires MIN_WINDOW <= s.window
    ensures var r := OnPacketsLost(s, lost);
            && MIN_WINDOW <= r.window <= s.window
            && r.cutback == MarkerAfter(s.cutback, s.largestSent, lost)
            && r == s.(window := r.window, threshold := r.threshold, ackCount := r.ackCount, cutback := r.cutback)
            && (Close(s) ==> Close(r))
    decreases |lost|
  {
    if lost != [] {
      LossesKeep(OnPacketLost(s, lost[0]), lost[1..]);
    }
  }

  lemma {:induction false} NoEpochNoChange(s: Vegas, lost: seq<nat>)
    requires forall p | p in lost :: !StartsEpoch(s.cutback, p)
    ensures OnPacketsLost(s, lost) == s
    ensures s.largestSent.Number? ==> CutsOf(s.cutback, s.largestSent.value, lost) == []
    decreases |lost|
  {
    if lost != [] {
      assert lost[0] in lost;
      assert forall p | p in lost[1..] :: p in lost;
      NoEpochNoChange(s, lost[1..]);
    }
  }

  /** One event halves the window at most once, however many packets it reports lost. */
  lemma {:induction false} OneHalvingPerEvent(s: Vegas, lost: seq<nat>)
    requires SentBefore(lost, s.largestSent) && s.largestSent.Number?
    ensures var cuts := CutsOf(s.cutback, s.largestSent.value, lost);
            && |cuts| <= 1
            && (cuts == [] ==> OnPacketsLost(s, lost) == s)
            && (cuts != [] ==> OnPacketsLost(s, lost).window == Max(s.window / 2, MIN_WINDOW))
    decreases |lost|
  {
    if lost != [] {
      assert lost[0] in lost;
      assert forall p | p in lost[1..] :: p in lost;
      if StartsEpoch(s.cutback, lost[0]) {
        NoEpochNoChange(OnPacketLost(s, lost[0]), lost[1..]);
      } else {
        OneHalvingPerEvent(s, lost[1..]);
      }
    }
  }

  // ------------------------------------------------------------ acknowledgements

  /** The gamma exit matches the window to the actual rate: it never raises the window, never
      leaves it below the floor, and never leaves the threshold above it. */
  lemma GammaExit(s: Vegas, packet: nat, base: nat)
    requires MIN_WINDOW <= s.window && s.vegasMode && s.roundMark.Number? && packet >= s.roundMark.value
    requires s.rttCount > 2 && 0 < base <= s.minRtt
    requires InSlowStart(s) && Queued(s.window, base, s.minRtt) > GAMMA
    ensures var r := OnPacketAcked(s, packet, base);
            && r.Ok?
            && MIN_WINDOW <= r.state.window <= s.window
            && r.state.window == Max(MIN_WINDOW, Min(s.window, Target(s.window, base, s.minRtt)))
            && !InSlowStart(r.state)
  {
  }

  lemma QueuedAtLeast(window: nat, base: nat, least: nat, k: nat)
    requires 0 < base <= least
    ensures Queued(window, base, least) >= k <==> (window * (least - base)) % U64 >= k * base
  {
    DivBelow((window * (least - base)) % U64, base, k);
  }

  /** The end of a round outside slow start, without the divisions. `late` is the window times the
      extra delay, in 64 bits: less than two packets' worth of the base RTT adds a packet, more than
      four takes one away, and in between the window is held. */
  lemma RoundDecision(s: Vegas, packet: nat, base: nat)
    requires MIN_WINDOW <= s.window && s.vegasMode && s.roundMark.Number? && packet >= s.roundMark.value
    requires s.rttCount > 2 && 0 < base <= s.minRtt && !InSlowStart(s)
    ensures var r := OnPacketAcked(s, packet, base);
            var late := (s.window * (s.minRtt - base)) % U64;
            && r.Ok? && r.state.threshold == s.threshold
            && r.state.window == if late < 2 * MSS * base then Max(MIN_WINDOW, Grow(s).window)
                                 else if late >= (4 * MSS + 1) * base then Max(MIN_WINDOW, s.window - MSS)
                                 else s.window
  {
    hide Queued, Target;
    QueuedAtLeast(s.window, base, s.minRtt, ALPHA);
    QueuedAtLeast(s.window, base, s.minRtt, BETA + 1);
  }

  /** A round that grows a window within a packet of 2^64 puts it at the floor, below the
      threshold: with wrapped additions ThresholdStaysClose fails. */
  lemma WrapLosesThreshold(s: Vegas, packet: nat, base: nat)
    requires U64 - MSS <= s.window < U64 && s.vegasMode && s.roundMark.Number? && packet >= s.roundMark.value
    requires s.rttCount > 2 && 0 < base <= s.minRtt && !InSlowStart(s) && s.threshold > MIN_WINDOW + MSS
    requires (s.window * (s.minRtt - base)) % U64 < 2 * MSS * base
    ensures var r := OnPacketAcked(s, packet, base);
            r.Ok? && r.state.window == MIN_WINDOW && !Close(r.state)
  {
    RoundDecision(s, packet, base);
  }

  /** Slow start ends at a round exactly when more than one packet's worth queues; otherwise the
      round adds a packet. */
  lemma SlowStartDecision(s: Vegas, packet: nat, base: nat)
    requires MIN_WINDOW <= s.window && s.vegasMode && s.roundMark.Number? && packet >= s.roundMark.value
    requires s.rttCount > 2 && 0 < base <= s.minRtt && InSlowStart(s)
    ensures var r := OnPacketAcked(s, packet, base);
            var late := (s.window * (s.minRtt - base)) % U64;
            && r.Ok?
            && (if late >= (MSS + 1) * base then
                  && r.state.window == Max(MIN_WINDOW, Min(s.window, Target(s.window, base, s.minRtt)))
                  && r.state.threshold == Min(s.window, Target(s.window, base, s.minRtt))
                  && r.state.threshold <= r.state.window <= s.window
                else r.state.window == Max(MIN_WINDOW, Grow(s).window) && r.state.threshold == s.threshold)
  {
    hide Queued, Target;
    QueuedAtLeast(s.window, base, s.minRtt, GAMMA + 1);
  }

  /** t is q rounded up to whole packets, or zero if that takes more than 64 bits. */
  ghost predicate RoundedUp(q: nat, t: nat) {
    && t % MSS == 0
    && (q <= t < q + MSS <==> q + MSS - 1 < U64)
    && (q + MSS - 1 >= U64 ==> t == 0)
  }

  lemma RoundsUp(q: nat)
    requires q < U64
    ensures RoundedUp(q, ((q + MSS - 1) % U64 / MSS) * MSS)
  {
  }

  /** The exit target is window * base / min, rounded down to a byte and then up to whole packets,
      exactly when the rounding up stays within 64 bits; otherwise it is zero. */
  lemma TargetIs(window: nat, base: nat, least: nat, q: nat)
    requires least > 0 && q * least <= (window * base) % U64 < (q + 1) * least
    ensures RoundedUp(q, Target(window, base, least))
  {
    QuotientIs((window * base) % U64, least, q);
    hide RoundedUp;
    RoundsUp(q);
  }

  lemma QuotientIs(x: nat, least: nat, q: nat)
    requires least > 0 && q * least <= x < (q + 1) * least
    ensures x / least == q <= x
  {
    DivBelow(x, least, q);
    DivBelow(x, least, q + 1);
    DivBounds(x, least);
  }

  /** One acknowledgement fails only where it ends a round of more than two samples whose minimum
      is below the base RTT; else it keeps floor, marker, round bookkeeping and threshold. */
  lemma AckKeeps(s: Vegas, packet: nat, base: nat, round: seq<nat>)
    requires MIN_WINDOW <= s.window < U64 && MarkOk(s) && RoundOk(s, round)
    requires s.largestSent.Number? && base >= 1 && (s.vegasMode || s.window < U64 - MSS)
    ensures var r := OnPacketAcked(s, packet, base);
            && (r.Failed? <==>
                  s.vegasMode && packet >= s.roundMark.value && s.rttCount > 2 && s.minRtt < base)
            && (r.Failed? ==> r.fault == BaseAboveMin)
            && (r.Ok? ==>
                  && MIN_WINDOW <= r.state.window < U64 && MarkOk(r.state)
                  && r.state.largestSent == s.largestSent && r.state.cutback == s.cutback
                  && r.state.vegasMode == s.vegasMode
                  && r.state.largestAcked == UpdateMax(s.largestAcked, packet)
                  && RoundOk(r.state, if r.state.rttCount == 0 then [] else round)
                  && (s.vegasMode && packet >= s.roundMark.value ==> r.state.rttCount == 0)
                  && (!(s.vegasMode && packet >= s.roundMark.value) ==>
                        r.state == s.(window := r.state.window, ackCount := r.state.ackCount,
                                      largestAcked := r.state.largestAcked))
                  && (s.window + MSS < U64 ==>
                        r.state.window <= s.window + MSS && (Close(s) ==> Close(r.state))))
  {
    hide Target, Queued;
    assert s.rttCount > 0 ==> round[0] in round;
  }

  /** Among these acknowledgements is one that ends the round. */
  ghost predicate EndsRound(s: Vegas, acked: seq<nat>) {
    s.vegasMode && s.roundMark.Number? && exists p | p in acked :: p >= s.roundMark.value
  }

  /** The acknowledgements of an event fail exactly when they end a round of more than two samples
      whose minimum is below the base RTT. */
  lemma {:induction false} AcksKeep(s: Vegas, acked: seq<nat>, base: nat, round: seq<nat>, acks: nat)
    requires MIN_WINDOW <= s.window < U64 && MarkOk(s) && RoundOk(s, round)
    requires (s.vegasMode || Bounded(s, acks)) && acks + |acked| < U64
    requires acked != [] ==> s.largestSent.Number? && base >= 1
    ensures var r := OnPacketsAcked(s, acked, base);
            && (r.Failed? <==> EndsRound(s, acked) && s.rttCount > 2 && s.minRtt < base)
            && (r.Failed? ==> r.fault == BaseAboveMin)
            && (r.Ok? ==>
                  && MIN_WINDOW <= r.state.window < U64 && MarkOk(r.state)
                  && r.state.largestSent == s.largestSent && r.state.cutback == s.cutback
                  && r.state.vegasMode == s.vegasMode
                  && RoundOk(r.state, if r.state.rttCount == 0 then [] else round)
                  && (s.window + |acked| * MSS < U64 ==>
                        r.state.window <= s.window + |acked| * MSS && (Close(s) ==> Close(r.state))))
    decreases |acked|
  {
    EndsRoundNone(s);
    if acked != [] {
      if !s.vegasMode {
        RoomLeft(s, acks);
      }
      AckKeeps(s, acked[0], base, round);
      EndsRoundSplit(s, acked);
      hide OnPacketAcked, EndsRound, RoundOk, MarkOk, Close, Bounded;
      var m := OnPacketAcked(s, acked[0], base);
      if m.Ok? {
        var kept := if m.state.rttCount == 0 then [] else round;
        if !s.vegasMode {
          AckBounded(s, acked[0], base, acks);
        }
        AcksKeep(m.state, acked[1..], base, kept, acks + 1);
        RoundStaysEmpty(OnPacketsAcked(m.state, acked[1..], base), kept);
        EndsRoundSame(s, m.state, acked[1..]);
      }
    }
  }

  lemma RoundStaysEmpty(r: Outcome, kept: seq<nat>)
    ensures r.Ok? && kept == [] && RoundOk(r.state, if r.state.rttCount == 0 then [] else kept) ==>
              r.state.rttCount == 0
  {
  }

  lemma EndsRoundSplit(s: Vegas, acked: seq<nat>)
    requires acked != []
    ensures EndsRound(s, acked) <==>
              || (s.vegasMode && s.roundMark.Number? && acked[0] >= s.roundMark.value)
              || EndsRound(s, acked[1..])
  {
    if s.vegasMode && s.roundMark.Number? {
      assert acked[0] in acked;
      forall p | p in acked ensures p == acked[0] || p in acked[1..] {
        assert acked == [acked[0]] + acked[1..];
      }
      forall p | p in acked[1..] ensures p in acked {
      }
    }
  }

  lemma EndsRoundNone(s: Vegas)
    ensures !EndsRound(s, [])
  {
  }

  lemma EndsRoundSame(s: Vegas, r: Vegas, acked: seq<nat>)
    ensures r.vegasMode == s.vegasMode && r.roundMark == s.roundMark ==> (EndsRound(s, acked) <==> EndsRound(r, acked))
  {
  }

  /** Only an increase that wraps 64 bits while Vegas mode is off could lose the floor; no run of
      fewer than 2^64 acknowledgements comes to one (EveryRunSafe). */
  lemma RenoFloorIff(s: Vegas)
    requires MIN_WINDOW <= s.window < U64
    ensures var grows := InSlowStart(s) || ((s.ackCount + 1) % U64 * MSS) % U64 >= s.window;
            MIN_WINDOW <= IncreaseAsReno(s).window <==> !(grows && s.window >= U64 - MSS)
  {
  }

  // ------------------------------------------------------------ events and runs

  lemma SampleKeeps(s: Vegas, round: seq<nat>, latest: nat)
    requires RoundOk(s, round) && latest + 1 < INFINITE
    ensures RoundOk(TakeSample(s, latest), round + [latest + 1])
  {
  }

  /** The event ends a round of at least three samples whose minimum is below the base RTT. */
  ghost predicate TripsCheck(t: Trace, e: Event) {
    && e.Congestion? && EndsRound(t.s, e.acked) && t.s.rttCount >= 2
    && Min(t.s.minRtt, e.latest + 1) < e.base
  }

  /** Every event that does not trip the check on the base RTT goes through and keeps the
      invariant; with a filter that keeps its contract none does. */
  lemma EventKeeps(t: Trace, e: Event)
    requires VegasInv(t) && Plausible(t, e) && t.acks + Acks(e) < U64
    ensures var r := Next(t.s, e);
            && (r.Failed? <==> TripsCheck(t, e))
            && (r.Failed? ==> r.fault == BaseAboveMin)
            && (Admissible(t, e) ==> r.Ok?)
            && (r.Ok? ==>
                  && VegasInv(Record(t, e, r.state))
                  && (t.s.window + Demand(e) * MSS < U64 ==>
                        && r.state.window <= t.s.window + Demand(e) * MSS
                        && (Close(t.s) && !e.SetInitial? ==> Close(r.state))))
  {
    match e
    case Sent(p) =>
    case SetInitial(n) => ModSmall(n * MSS);
    case Congestion(acked, lost, latest, base) =>
      CongestionKeeps(t, acked, lost, latest, base);
      if Next(t.s, e).Ok? {
        EventKeepsRoom(t.s, acked, lost, latest, base, t.acks);
      }
      if Admissible(t, e) && EndsRound(t.s, acked) {
        ContractHolds(t, acked, lost, latest, base);
      }
  }

  lemma ContractHolds(t: Trace, acked: seq<nat>, lost: seq<nat>, latest: nat, base: nat)
    requires VegasInv(t) && Admissible(t, Congestion(acked, lost, latest, base)) && acked != []
    ensures base <= Min(t.s.minRtt, latest + 1)
  {
    var round := t.round + [latest + 1];
    assert latest + 1 in round;
    assert t.round != [] ==> t.s.minRtt in round;
  }

  lemma CongestionKeeps(t: Trace, acked: seq<nat>, lost: seq<nat>, latest: nat, base: nat)
    requires VegasInv(t) && Plausible(t, Congestion(acked, lost, latest, base))
    requires t.acks + |acked| < U64
    ensures var e := Congestion(acked, lost, latest, base);
            var r := Next(t.s, e);
            && (r.Failed? <==> TripsCheck(t, e))
            && (r.Failed? ==> r.fault == BaseAboveMin)
            && (r.Ok? ==>
                  && Core(Record(t, e, r.state))
                  && (t.s.window + |acked| * MSS < U64 ==>
                        r.state.window <= t.s.window + |acked| * MSS && (Close(t.s) ==> Close(r.state))))
  {
    var s1 := if acked != [] then TakeSample(t.s, latest) else t.s;
    var round := if acked != [] then t.round + [latest + 1] else t.round;
    SampleKeeps(t.s, t.round, latest);
    LossesKeep(s1, lost);
    EventKeepsEpochs(t.cuts, t.s.cutback, t.s.largestSent, lost);
    AckedOnlySent(t, acked, lost, latest, base);
    hide CutsIn, MarkerAfter, OnPacketsLost, OnPacketsAcked, Recovering, EndsRound;
    var s2 := OnPacketsLost(s1, lost);
    RoomAfterLosses(t.s, s1, lost, t.acks);
    hide OnePerFlight, MarkedBy, MarkOk, Close, AtLeast, SentBefore, Room, Bounded;
    AcksKeep(s2, acked, base, round, t.acks);
    EndsRoundSame(s2, t.s, acked);
    EndsRoundNone(t.s);
    var r := OnPacketsAcked(s2, acked, base);
    if r.Ok? {
      SwitchKeeps(r.state, Recovering(t.s), if r.state.rttCount == 0 then [] else round);
    }
  }

  /** As Reno, taking a sample and halving keep the bound. */
  lemma RoomAfterLosses(s: Vegas, s1: Vegas, lost: seq<nat>, acks: nat)
    requires Room(s, acks) && s1 == s.(minRtt := s1.minRtt, rttCount := s1.rttCount)
    ensures var s2 := OnPacketsLost(s1, lost);
            s2.window < U64 && (s2.vegasMode || Bounded(s2, acks))
  {
    LossesCurb(s1, lost);
    var s2 := OnPacketsLost(s1, lost);
    if s2 != s1 {
      CurbedIsBounded(s2, acks);
    }
  }

  lemma AckedOnlySent(t: Trace, acked: seq<nat>, lost: seq<nat>, latest: nat, base: nat)
    requires Plausible(t, Congestion(acked, lost, latest, base)) && AtLeast(t.samples, 1)
    ensures acked != [] ==> t.s.largestSent.Number? && base >= 1 && AtLeast(t.samples + [latest + 1], 1)
  {
    if acked != [] {
      assert acked[0] in acked;
      var all := t.samples + [latest + 1];
      forall x | x in all ensures x >= 1 {
        assert x in t.samples || x == latest + 1;
      }
    }
  }

  lemma SwitchKeeps(s: Vegas, before: bool, round: seq<nat>)
    requires RoundOk(s, round) && MarkOk(s) && (s.vegasMode <==> !before)
    ensures var r := SwitchMode(s, before);
            && (r.vegasMode <==> !Recovering(r)) && MarkOk(r)
            && RoundOk(r, if r.rttCount == 0 then [] else round)
            && r == s.(vegasMode := r.vegasMode, roundMark := r.roundMark, minRtt := r.minRtt, rttCount := r.rttCount)
  {
  }

  datatype Run = Reached(trace: Trace) | Broke(fault: Fault)

  function RunOf(t: Trace, events: seq<Event>): Run
    decreases |events|
  {
    if events == [] then Reached(t)
    else
      var r := Next(t.s, events[0]);
      if r.Failed? then Broke(r.fault) else RunOf(Record(t, events[0], r.state), events[1..])
  }

  ghost predicate PlausibleRun(t: Trace, events: seq<Event>)
    decreases |events|
  {
    events == [] ||
    (&& Plausible(t, events[0])
     && (Next(t.s, events[0]).Ok? ==>
           PlausibleRun(Record(t, events[0], Next(t.s, events[0]).state), events[1..])))
  }

  ghost predicate AdmissibleRun(t: Trace, events: seq<Event>)
    decreases |events|
  {
    events == [] ||
    (&& Admissible(t, events[0])
     && (Next(t.s, events[0]).Ok? ==>
           AdmissibleRun(Record(t, events[0], Next(t.s, events[0]).state), events[1..])))
  }

  lemma {:induction false} RunKeeps(t: Trace, events: seq<Event>)
    requires VegasInv(t) && AdmissibleRun(t, events) && t.acks + TotalAcks(events) < U64
    ensures var r := RunOf(t, events);
            && r.Reached? && VegasInv(r.trace) && r.trace.acks == t.acks + TotalAcks(events)
            && r.trace.s.rttCount <= t.s.rttCount + |events|
            && (t.s.window + TotalDemand(events) * MSS < U64 ==>
                  && r.trace.s.window <= t.s.window + TotalDemand(events) * MSS
                  && (Close(t.s) && (forall e | e in events :: !e.SetInitial?) ==> Close(r.trace.s)))
    decreases |events|
  {
    hide VegasInv, Admissible, Plausible;
    if events != [] {
      assert Plausible(t, events[0]) by {
        AdmissibleIsPlausible(t, events[0]);
      }
      EventKeeps(t, events[0]);
      CountGrows(t, events[0], Next(t.s, events[0]).state);
      assert events[0] in events;
      assert forall e | e in events[1..] :: e in events;
      RunKeeps(Record(t, events[0], Next(t.s, events[0]).state), events[1..]);
    }
  }

  lemma CountGrows(t: Trace, e: Event, s: Vegas)
    requires VegasInv(t) && VegasInv(Record(t, e, s))
    ensures s.rttCount <= t.s.rttCount + 1
  {
  }

  lemma AdmissibleIsPlausible(t: Trace, e: Event)
    requires Admissible(t, e)
    ensures Plausible(t, e)
  {
  }

  lemma StartInv(initialPackets: nat, maxPackets: nat)
    requires 4 <= initialPackets && initialPackets * MSS < U64
    ensures VegasInv(Start(initialPackets, maxPackets))
    ensures Start(initialPackets, maxPackets).s.window == initialPackets * MSS
  {
    ModSmall(initialPackets * MSS);
  }

  /** Every run of fewer than 2^64 acknowledgements goes through: no check fails and no division is
      by zero. The window keeps at least four packets, also where 64 bits wrap; Vegas mode is on
      exactly outside recovery, the round marker never passes the largest sent packet, and each
      flight halves the window at most once. While the run's packets fit 64 bits nothing wraps. */
  lemma EveryRunSafe(initialPackets: nat, maxPackets: nat, events: seq<Event>)
    requires 4 <= initialPackets && initialPackets * MSS < U64 && TotalAcks(events) < U64
    requires AdmissibleRun(Start(initialPackets, maxPackets), events)
    ensures var r := RunOf(Start(initialPackets, maxPackets), events);
            && r.Reached?
            && var t := r.trace;
               && 4 * MSS <= t.s.window < U64
               && ((initialPackets + TotalDemand(events)) * MSS < U64 ==>
                     t.s.window <= (initialPackets + TotalDemand(events)) * MSS)
               && (t.s.vegasMode <==> !Recovering(t.s))
               && (t.s.rttCount == 0 <==> t.s.minRtt == INFINITE) && t.s.rttCount <= |events|
               && MarkOk(t.s)
               && OnePerFlight(t.cuts) && MarkedBy(t.s.cutback, t.s.largestSent, t.cuts)
  {
    StartInv(initialPackets, maxPackets);
    RunKeeps(Start(initialPackets, maxPackets), events);
    var t := RunOf(Start(initialPackets, maxPackets), events).trace;
    assert t.round != [] ==> t.round[0] in t.round;
  }

  /** Once slow start has ended, the threshold stays within one packet of the window for good,
      even though the window may step back below it, as long as no addition wraps. */
  lemma ThresholdStaysClose(initialPackets: nat, maxPackets: nat, first: seq<Event>, more: seq<Event>)
    requires 4 <= initialPackets && AdmissibleRun(Start(initialPackets, maxPackets), first)
    requires (initialPackets + TotalDemand(first) + TotalDemand(more)) * MSS < U64
    requires var m := RunOf(Start(initialPackets, maxPackets), first);
             m.Reached? && !InSlowStart(m.trace.s) && AdmissibleRun(m.trace, more)
    requires forall e | e in more :: !e.SetInitial?
    ensures var m := RunOf(Start(initialPackets, maxPackets), first).trace;
            && RunOf(m, more).Reached?
            && var s := RunOf(m, more).trace.s;
               s.threshold <= s.window + MSS
  {
    StartInv(initialPackets, maxPackets);
    AcksAreDemand(first);
    AcksAreDemand(more);
    RunKeeps(Start(initialPackets, maxPackets), first);
    RunKeeps(RunOf(Start(initialPackets, maxPackets), first).trace, more);
  }

  lemma {:induction false} AcksAreDemand(events: seq<Event>)
    ensures TotalAcks(events) <= TotalDemand(events)
  {
    if events != [] {
      AcksAreDemand(events[1..]);
    }
  }

  // ------------------------------------------------------------ the Reno law

  function RenoAcks(s: Vegas, n: nat): Vegas {
    if n == 0 then s else IncreaseAsReno(RenoAcks(s, n - 1))
  }

  /** The packets that make up a window, the last one perhaps partial. */
  function Packets(window: nat): nat { (window + MSS - 1) / MSS }

  /** Acknowledgements needed for k increases from a window of w packets. */
  function AcksFor(w: nat, k: nat): nat {
    if k == 0 then 0 else AcksFor(w, k - 1) + w + (k - 1)
  }

  lemma {:induction false} AcksForClosed(w: nat, k: nat)
    ensures 2 * AcksFor(w, k) == 2 * k * w + k * (k - 1)
  {
    if k > 0 {
      AcksForClosed(w, k - 1);
      assert 2 * (k - 1) * w + 2 * w == 2 * k * w;
      assert (k - 1) * (k - 2) + 2 * (k - 1) == k * (k - 1);
    }
  }

  lemma {:induction false} RenoWithin(s: Vegas, n: nat, j: nat)
    requires var m := RenoAcks(s, n); !InSlowStart(m) && m.ackCount == 0 && 0 < m.window < U64 - MSS
    requires j <= Packets(RenoAcks(s, n).window)
    ensures var m := RenoAcks(s, n);
            RenoAcks(s, n + j) == if j < Packets(m.window) then m.(ackCount := j) else m.(window := m.window + MSS)
  {
    hide IncreaseAsReno, InSlowStart;
    if j > 0 {
      RenoWithin(s, n, j - 1);
      RenoStep(RenoAcks(s, n), j);
    }
  }

  lemma RenoStep(m: Vegas, j: nat)
    requires !InSlowStart(m) && m.ackCount == 0 && 0 < m.window < U64 - MSS
    requires 1 <= j <= Packets(m.window)
    ensures IncreaseAsReno(m.(ackCount := j - 1))
         == if j < Packets(m.window) then m.(ackCount := j) else m.(window := m.window + MSS)
  {
    ModSmall(j);
    ModSmall(j * MSS);
  }

  /** Outside slow start with the count at zero, the window grows by k packets in exactly
      k * w + k * (k - 1) / 2 acknowledgements, w being the packets of the starting window, and
      between two increases it does not move, as long as there is room in 64 bits for one more. */
  lemma {:induction false} RenoLaw(s: Vegas, k: nat, j: nat)
    requires !InSlowStart(s) && s.ackCount == 0 && 0 < s.window && s.window + (k + 1) * MSS < U64
    requires j < Packets(s.window) + k
    ensures 2 * AcksFor(Packets(s.window), k) == 2 * k * Packets(s.window) + k * (k - 1)
    ensures RenoAcks(s, AcksFor(Packets(s.window), k) + j) == s.(window := s.window + k * MSS, ackCount := j)
    decreases k, 1
  {
    AcksForClosed(Packets(s.window), k);
    RenoReaches(s, k);
    assert Packets(s.window + k * MSS) == Packets(s.window) + k;
    RenoWithin(s, AcksFor(Packets(s.window), k), j);
  }

  lemma {:induction false} RenoReaches(s: Vegas, k: nat)
    requires !InSlowStart(s) && s.ackCount == 0 && 0 < s.window && s.window + k * MSS < U64
    ensures RenoAcks(s, AcksFor(Packets(s.window), k)) == s.(window := s.window + k * MSS)
    decreases k
  {
    if k > 0 {
      RenoReaches(s, k - 1);
      var n := AcksFor(Packets(s.window), k - 1);
      assert Packets(s.window + (k - 1) * MSS) == Packets(s.window) + (k - 1);
      RenoWithin(s, n, Packets(s.window) + (k - 1));
    }
  }
}
