/** The base RTT filter as an exact windowed minimum, and when Vegas may rely on it. */
module MinFilter {
  import opened Arithmetic
  import opened Flights
  import opened VegasModel
  import opened VegasRuns
  import CopaRuns

  datatype Timed = Timed(time: nat, rtt: nat)

  ghost predicate Ordered(samples: seq<Timed>) {
    forall i, j | 0 <= i < j < |samples| :: samples[i].time <= samples[j].time
  }

  function Rtts(samples: seq<Timed>): (r: seq<nat>)
    ensures |r| == |samples|
    ensures forall i | 0 <= i < |samples| :: r[i] == samples[i].rtt
  {
    if samples == [] then [] else [samples[0].rtt] + Rtts(samples[1..])
  }

  /** The least sample not older than `from`; the newest sample is one. */
  function LeastSince(samples: seq<Timed>, from: nat): nat
    requires samples != [] && samples[|samples| - 1].time >= from
  {
    var n := |samples| - 1;
    if n == 0 || samples[n - 1].time < from then samples[n].rtt
    else Min(samples[n].rtt, LeastSince(samples[..n], from))
  }

  /** It is one of the samples in the window and below no other of them. */
  lemma {:induction false} LeastSinceIsLeast(samples: seq<Timed>, from: nat)
    requires Ordered(samples) && samples != [] && samples[|samples| - 1].time >= from
    ensures exists i | 0 <= i < |samples| :: samples[i].time >= from && samples[i].rtt == LeastSince(samples, from)
    ensures forall i | 0 <= i < |samples| && samples[i].time >= from :: LeastSince(samples, from) <= samples[i].rtt
  {
    var n := |samples| - 1;
    if n == 0 || samples[n - 1].time < from {
      assert samples[n].rtt == LeastSince(samples, from);
    } else {
      var older := samples[..n];
      assert older[n - 1] == samples[n - 1];
      LeastSinceIsLeast(older, from);
      var i :| 0 <= i < |older| && older[i].time >= from && older[i].rtt == LeastSince(older, from);
      assert samples[i] == older[i] && samples[n].time >= from;
      forall j | 0 <= j < |samples| && samples[j].time >= from
        ensures LeastSince(samples, from) <= samples[j].rtt
      {
        assert j < n ==> older[j] == samples[j];
      }
    }
  }

  /** An exact windowed minimum keeps the contract that Copa's runs ask of both its filters. */
  lemma KeepsCopaContract(samples: seq<Timed>, from: nat)
    requires Ordered(samples) && samples != [] && samples[|samples| - 1].time >= from
    ensures CopaRuns.FilterContract(Rtts(samples), LeastSince(samples, from))
  {
  }

  /** And the one Vegas's runs ask for, as long as the whole round is in the filter's window. */
  lemma KeepsVegasContract(samples: seq<Timed>, first: nat, from: nat)
    requires Ordered(samples) && first < |samples| && samples[|samples| - 1].time >= from
    requires samples[first].time >= from
    ensures VegasRuns.FilterContract(Rtts(samples), Rtts(samples)[first..], LeastSince(samples, from))
  {
    LeastSinceIsLeast(samples, from);
    hide LeastSince, Rtts, Ordered;
    var base, all := LeastSince(samples, from), Rtts(samples);
    var k :| 0 <= k < |samples| && samples[k].time >= from && samples[k].rtt == base;
    assert all[k] == base;
    BelowRound(samples, first, from, base);
  }

  /** What is not above any sample in the window is not above any of a round that fits it. */
  lemma BelowRound(samples: seq<Timed>, first: nat, from: nat, base: nat)
    requires Ordered(samples) && first < |samples| && samples[first].time >= from
    requires forall i | 0 <= i < |samples| && samples[i].time >= from :: base <= samples[i].rtt
    ensures AtLeast(Rtts(samples)[first..], base)
  {
    hide Rtts;
    var round := Rtts(samples)[first..];
    forall n | 0 <= n < |round| ensures base <= round[n] {
      assert n > 0 ==> samples[first].time <= samples[first + n].time;
    }
  }

  // ------------------------------------------------------------ runs with a timed filter

  const WINDOW: nat := 10000000  // kMinRTTWindowLength, 10 s

  /** The start of the filter's window at a time. */
  function Since(at: nat): nat { if at >= WINDOW then at - WINDOW else 0 }

  datatype TimedEvent =
    | Sends(packet: nat)
    | Hears(at: nat, acked: seq<nat>, lost: seq<nat>, latest: nat)
    | Sets(packets: nat)

  /** The filter's samples after an event: acknowledgements put the latest RTT in. */
  function Samples(samples: seq<Timed>, e: TimedEvent): seq<Timed> {
    if e.Hears? && e.acked != [] then samples + [Timed(e.at, e.latest + 1)] else samples
  }

  /** GetBest of the filter; it is only asked for when a sample has just gone in. */
  function Best(samples: seq<Timed>, from: nat): nat {
    if samples != [] && samples[|samples| - 1].time >= from then LeastSince(samples, from) else 0
  }

  /** The event as the sender sees it, the base RTT read off the filter. */
  function Seen(samples: seq<Timed>, e: TimedEvent): Event {
    match e
    case Sends(p) => Sent(p)
    case Sets(n) => SetInitial(n)
    case Hears(at, acked, lost, latest) =>
      Congestion(acked, lost, latest, Best(Samples(samples, e), Since(at)))
  }

  function SeenAll(samples: seq<Timed>, events: seq<TimedEvent>): seq<Event>
    decreases |events|
  {
    if events == [] then [] else [Seen(samples, events[0])] + SeenAll(Samples(samples, events[0]), events[1..])
  }

  /** What a network and a caller can do, with a clock that does not run backwards. */
  ghost predicate Timely(t: Trace, samples: seq<Timed>, e: TimedEvent) {
    match e
    case Sends(p) => t.s.largestSent.Number? ==> t.s.largestSent.value < p
    case Sets(n) => 4 <= n && n * MSS <= HALF
    case Hears(at, acked, lost, latest) =>
      && SentBefore(acked, t.s.largestSent) && SentBefore(lost, t.s.largestSent)
      && latest + 1 < INFINITE
      && (samples != [] ==> samples[|samples| - 1].time <= at)
  }

  ghost predicate TimelyRun(t: Trace, samples: seq<Timed>, events: seq<TimedEvent>)
    decreases |events|
  {
    events == [] ||
    (&& Timely(t, samples, events[0])
     && var e := Seen(samples, events[0]);
        (Next(t.s, e).Ok? ==>
           TimelyRun(Record(t, e, Next(t.s, e).state), Samples(samples, events[0]), events[1..])))
  }

  /** The samples of the trace are the filter's, and those of the round its newest ones. */
  ghost predicate Linked(t: Trace, samples: seq<Timed>) {
    && Ordered(samples) && t.samples == Rtts(samples)
    && |t.round| <= |samples| && t.round == Rtts(samples)[|samples| - |t.round|..]
  }

  /** Where the current round starts among the filter's samples. */
  function RoundStart(t: Trace, samples: seq<Timed>): nat {
    if |t.round| <= |samples| then |samples| - |t.round| else 0
  }

  /** The event ends a round of at least three samples, and wherever in the round its minimum was
      measured, that is longer ago than the filter's window. */
  ghost predicate StaleMinimum(t: Trace, samples: seq<Timed>, e: TimedEvent) {
    && e.Hears? && EndsRound(t.s, e.acked) && t.s.rttCount >= 2
    && var all := Samples(samples, e);
       forall i | RoundStart(t, samples) <= i < |all| && all[i].rtt == Min(t.s.minRtt, e.latest + 1) ::
         all[i].time < Since(e.at)
  }

  /** Somewhere in the run a round ends whose minimum has left the filter's window. */
  ghost predicate StaleRound(t: Trace, samples: seq<Timed>, events: seq<TimedEvent>)
    decreases |events|
  {
    events != [] &&
    (|| StaleMinimum(t, samples, events[0])
     || var e := Seen(samples, events[0]);
        (Next(t.s, e).Ok? &&
           StaleRound(Record(t, e, Next(t.s, e).state), Samples(samples, events[0]), events[1..])))
  }

  lemma RttsOfMore(samples: seq<Timed>, x: Timed)
    ensures Rtts(samples + [x]) == Rtts(samples) + [x.rtt]
  {
    var more := Rtts(samples + [x]);
    forall i | 0 <= i < |more| ensures more[i] == (Rtts(samples) + [x.rtt])[i] {
    }
  }

  lemma SamplesLinked(t: Trace, samples: seq<Timed>, e: TimedEvent, s: Vegas)
    requires Linked(t, samples) && Timely(t, samples, e)
    ensures Linked(Record(t, Seen(samples, e), s), Samples(samples, e))
  {
    hide Linked, Rtts, Ordered, Best, CutsIn, SentBefore;
    var t' := Record(t, Seen(samples, e), s);
    if e.Hears? && e.acked != [] {
      LinkedMore(t, samples, Timed(e.at, e.latest + 1), t');
    } else {
      LinkedSame(t, samples, t');
    }
  }

  lemma LinkedMore(t: Trace, samples: seq<Timed>, x: Timed, t': Trace)
    requires Linked(t, samples) && (samples != [] ==> samples[|samples| - 1].time <= x.time)
    requires t'.samples == t.samples + [x.rtt] && (t'.round == [] || t'.round == t.round + [x.rtt])
    ensures Linked(t', samples + [x])
  {
    OrderedGrows(samples, x);
    hide Rtts, Ordered;
    RttsOfMore(samples, x);
    EmptySuffix(Rtts(samples + [x]));
    SuffixGrows(Rtts(samples), |t.round|, x.rtt);
  }

  lemma LinkedSame(t: Trace, samples: seq<Timed>, t': Trace)
    requires Linked(t, samples) && t'.samples == t.samples && (t'.round == [] || t'.round == t.round)
    ensures Linked(t', samples)
  {
    hide Rtts, Ordered;
    EmptySuffix(Rtts(samples));
  }

  lemma EmptySuffix(r: seq<nat>)
    ensures r[|r|..] == []
  {
  }

  lemma OrderedGrows(samples: seq<Timed>, x: Timed)
    requires Ordered(samples) && (samples != [] ==> samples[|samples| - 1].time <= x.time)
    ensures Ordered(samples + [x])
  {
    forall i | 0 <= i < |samples| ensures samples[i].time <= x.time {
      assert i < |samples| - 1 ==> samples[i].time <= samples[|samples| - 1].time;
    }
  }

  lemma SuffixGrows(r: seq<nat>, k: nat, x: nat)
    requires k <= |r|
    ensures (r + [x])[|r| - k..] == r[|r| - k..] + [x]
  {
  }

  // ------------------------------------------------------------ exactly when Vegas's check fails

  /** The least sample in the window is above the least of a round exactly when the round's least
      value was only measured before the window. */
  lemma MinimumLeft(samples: seq<Timed>, first: nat, from: nat, least: nat)
    requires Ordered(samples) && first < |samples| && samples[|samples| - 1].time >= from
    requires forall i | first <= i < |samples| :: least <= samples[i].rtt
    requires exists i | first <= i < |samples| :: samples[i].rtt == least
    ensures least < LeastSince(samples, from) <==>
              forall i | first <= i < |samples| && samples[i].rtt == least :: samples[i].time < from
  {
    LeastSinceIsLeast(samples, from);
    hide LeastSince;
    var base := LeastSince(samples, from);
    var j :| 0 <= j < |samples| && samples[j].time >= from && samples[j].rtt == base;
    if forall i | first <= i < |samples| && samples[i].rtt == least :: samples[i].time < from {
      var k :| first <= k < |samples| && samples[k].rtt == least;
      assert j < k ==> samples[j].time <= samples[k].time;
      assert least <= samples[j].rtt;
    }
  }

  /** The samples of the round, with the one the event brings. */
  lemma RoundIs(t: Trace, samples: seq<Timed>, x: Timed)
    requires Linked(t, samples)
    ensures var all, first := samples + [x], RoundStart(t, samples);
            && first < |all|
            && (forall i | first <= i < |all| :: all[i].rtt == (t.round + [x.rtt])[i - first])
  {
    forall i | RoundStart(t, samples) <= i < |samples| ensures samples[i].rtt == t.round[i - RoundStart(t, samples)] {
      assert Rtts(samples)[i] == samples[i].rtt;
    }
  }

  lemma StaleTrips(t: Trace, samples: seq<Timed>, e: TimedEvent)
    requires VegasInv(t) && Linked(t, samples) && Timely(t, samples, e)
    ensures StaleMinimum(t, samples, e) <==> TripsCheck(t, Seen(samples, e))
  {
    hide VegasInv, Linked, EndsRound, RoundStart, Min;
    if e.Hears? {
      EndsRoundNone(t.s);
      if e.acked != [] {
        var x := Timed(e.at, e.latest + 1);
        RoundAgainstWindow(t, samples, x, Since(e.at));
        assert Samples(samples, e) == samples + [x];
        hide Timely, Samples, Best;
        assert Seen(samples, e).base == Best(samples + [x], Since(e.at));
      }
    }
  }

  lemma RoundAgainstWindow(t: Trace, samples: seq<Timed>, x: Timed, from: nat)
    requires VegasInv(t) && Linked(t, samples) && 1 <= x.rtt < INFINITE
    requires (samples != [] ==> samples[|samples| - 1].time <= x.time) && from <= x.time
    ensures var all, least := samples + [x], Min(t.s.minRtt, x.rtt);
            (forall i | RoundStart(t, samples) <= i < |all| && all[i].rtt == least :: all[i].time < from)
            <==> least < Best(all, from)
  {
    OrderedGrows(samples, x);
    RoundIs(t, samples, x);
    LeastIsInRound(t, samples, x);
    MinimumLeft(samples + [x], RoundStart(t, samples), from, Min(t.s.minRtt, x.rtt));
  }

  lemma SeenPlausible(t: Trace, samples: seq<Timed>, e: TimedEvent)
    requires Linked(t, samples) && Timely(t, samples, e)
    ensures Plausible(t, Seen(samples, e))
  {
    if e.Hears? && e.acked != [] {
      var x := Timed(e.at, e.latest + 1);
      BestIsSample(samples, x, Since(e.at));
      assert Samples(samples, e) == samples + [x];
      hide Rtts, Ordered, SentBefore, Samples, Best;
    }
  }

  lemma BestIsSample(samples: seq<Timed>, x: Timed, from: nat)
    requires Ordered(samples) && (samples != [] ==> samples[|samples| - 1].time <= x.time) && from <= x.time
    ensures Best(samples + [x], from) in Rtts(samples) + [x.rtt]
  {
    OrderedGrows(samples, x);
    RttsOfMore(samples, x);
    KeepsCopaContract(samples + [x], from);
  }

  lemma RoundLeast(t: Trace, latest: nat)
    requires VegasInv(t) && latest + 1 < INFINITE
    ensures var round := t.round + [latest + 1];
            && (forall i | 0 <= i < |round| :: Min(t.s.minRtt, latest + 1) <= round[i])
            && (exists i | 0 <= i < |round| :: round[i] == Min(t.s.minRtt, latest + 1))
  {
    var round := t.round + [latest + 1];
    assert round[|t.round|] == latest + 1;
    forall i | 0 <= i < |t.round| ensures t.s.minRtt <= round[i] {
      assert round[i] == t.round[i] && t.round[i] in t.round;
    }
    if t.round != [] {
      var k :| 0 <= k < |t.round| && t.round[k] == t.s.minRtt;
      assert round[k] == t.s.minRtt;
    }
  }

  lemma LeastIsInRound(t: Trace, samples: seq<Timed>, x: Timed)
    requires VegasInv(t) && Linked(t, samples) && 1 <= x.rtt < INFINITE
    ensures var all, first, least := samples + [x], RoundStart(t, samples), Min(t.s.minRtt, x.rtt);
            && (forall i | first <= i < |all| :: least <= all[i].rtt)
            && (exists i | first <= i < |all| :: all[i].rtt == least)
  {
    RoundIs(t, samples, x);
    RoundLeast(t, x.rtt - 1);
    hide VegasInv, Linked;
    var all, first, least := samples + [x], RoundStart(t, samples), Min(t.s.minRtt, x.rtt);
    var k :| 0 <= k < |t.round + [x.rtt]| && (t.round + [x.rtt])[k] == least;
    assert |t.round| + first <= |samples|;
    assert all[first + k].rtt == least;
  }

  lemma {:induction false} RunBreaksFrom(t: Trace, samples: seq<Timed>, events: seq<TimedEvent>)
    requires VegasInv(t) && Linked(t, samples) && TimelyRun(t, samples, events)
    requires t.acks + TotalAcks(SeenAll(samples, events)) < U64
    ensures var r := RunOf(t, SeenAll(samples, events));
            && (r.Broke? <==> StaleRound(t, samples, events))
            && (r.Broke? ==> r.fault == BaseAboveMin)
            && (r.Reached? ==> VegasInv(r.trace))
    decreases |events|
  {
    if events != [] {
      var e := Seen(samples, events[0]);
      StaleTrips(t, samples, events[0]);
      SeenPlausible(t, samples, events[0]);
      EventKeeps(t, e);
      hide VegasInv, Linked, Timely, TripsCheck, StaleMinimum, Plausible, Next, Record, Seen, Samples;
      var rest := SeenAll(Samples(samples, events[0]), events[1..]);
      assert SeenAll(samples, events)[0] == e && SeenAll(samples, events)[1..] == rest;
      if Next(t.s, e).Ok? {
        SamplesLinked(t, samples, events[0], Next(t.s, e).state);
        RunBreaksFrom(Record(t, e, Next(t.s, e).state), Samples(samples, events[0]), events[1..]);
      }
    }
  }

  /** With an exact windowed minimum for a filter, a run of Vegas fails if and only if some round of
      three or more samples ends when its minimum was last measured longer ago than the window; then
      it is the check on the base RTT that fails. */
  lemma RunBreaksIff(initialPackets: nat, maxPackets: nat, events: seq<TimedEvent>)
    requires 4 <= initialPackets && TimelyRun(Start(initialPackets, maxPackets), [], events)
    requires initialPackets * MSS < U64 && TotalAcks(SeenAll([], events)) < U64
    ensures var t := Start(initialPackets, maxPackets);
            var r := RunOf(t, SeenAll([], events));
            && (r.Broke? <==> StaleRound(t, [], events))
            && (r.Broke? ==> r.fault == BaseAboveMin)
            && (r.Reached? ==> VegasInv(r.trace))
  {
    StartInv(initialPackets, maxPackets);
    assert Linked(Start(initialPackets, maxPackets), []);
    hide VegasInv, Linked, StaleRound, TimelyRun, RunOf, SeenAll, TotalAcks;
    RunBreaksFrom(Start(initialPackets, maxPackets), [], events);
  }

  // ------------------------------------------------------------ rounds that fit the window

  /** The first sample of the round is in the filter's window when the event puts in its own. */
  ghost predicate RoundFits(t: Trace, samples: seq<Timed>, e: TimedEvent) {
    e.Hears? && e.acked != [] ==>
      var all := Samples(samples, e);
      RoundStart(t, samples) < |all| && all[RoundStart(t, samples)].time >= Since(e.at)
  }

  ghost predicate RoundsFit(t: Trace, samples: seq<Timed>, events: seq<TimedEvent>)
    decreases |events|
  {
    events == [] ||
    (&& RoundFits(t, samples, events[0])
     && var e := Seen(samples, events[0]);
        (Next(t.s, e).Ok? ==>
           RoundsFit(Record(t, e, Next(t.s, e).state), Samples(samples, events[0]), events[1..])))
  }

  /** A minimum measured in a round that fits the window was measured in the window. */
  lemma FreshMinimum(samples: seq<Timed>, first: nat, from: nat, least: nat)
    requires Ordered(samples) && first < |samples| && samples[first].time >= from
    requires exists i | first <= i < |samples| :: samples[i].rtt == least
    ensures exists i | first <= i < |samples| && samples[i].rtt == least :: samples[i].time >= from
  {
    var k :| first <= k < |samples| && samples[k].rtt == least;
    assert k > first ==> samples[first].time <= samples[k].time;
  }

  lemma FittingIsFresh(t: Trace, samples: seq<Timed>, e: TimedEvent)
    requires VegasInv(t) && Linked(t, samples) && Timely(t, samples, e) && RoundFits(t, samples, e)
    ensures !StaleMinimum(t, samples, e)
  {
    hide VegasInv, EndsRound, Min, Ordered, SentBefore, Rtts;
    EndsRoundNone(t.s);
    if e.Hears? && e.acked != [] {
      var x := Timed(e.at, e.latest + 1);
      OrderedGrows(samples, x);
      LeastIsInRound(t, samples, x);
      hide Linked, Timely;
      FreshMinimum(samples + [x], RoundStart(t, samples), Since(e.at), Min(t.s.minRtt, x.rtt));
      hide RoundStart;
    }
  }

  /** So a run in which no round outlasts the filter's window never fails. */
  lemma {:induction false} ShortRoundsNeverBreak(t: Trace, samples: seq<Timed>, events: seq<TimedEvent>)
    requires VegasInv(t) && Linked(t, samples) && TimelyRun(t, samples, events) && RoundsFit(t, samples, events)
    requires t.acks + TotalAcks(SeenAll(samples, events)) < U64
    ensures RunOf(t, SeenAll(samples, events)).Reached?
    decreases |events|
  {
    if events != [] {
      var e := Seen(samples, events[0]);
      FittingIsFresh(t, samples, events[0]);
      StaleTrips(t, samples, events[0]);
      SeenPlausible(t, samples, events[0]);
      EventKeeps(t, e);
      hide VegasInv, Linked, Timely, TripsCheck, StaleMinimum, Plausible, Next, Record, Seen, Samples, RoundFits;
      var rest := SeenAll(Samples(samples, events[0]), events[1..]);
      assert SeenAll(samples, events)[0] == e && SeenAll(samples, events)[1..] == rest;
      SamplesLinked(t, samples, events[0], Next(t.s, e).state);
      ShortRoundsNeverBreak(Record(t, e, Next(t.s, e).state), Samples(samples, events[0]), events[1..]);
    }
  }
}
