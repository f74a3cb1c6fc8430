/** A run of Vegas from a new sender that fails the check on the base RTT. */
module VegasPause {
  import opened Arithmetic
  import opened Flights
  import opened VegasModel
  import opened VegasRuns
  import opened MinFilter

  /** Four packets, three of them acknowledged after 10 ms; then a pause of ten seconds, and the
      next packet takes 20 ms. */
  function PauseInRound(): seq<TimedEvent> { SendsFrom(1) }

  function SendsFrom(packet: nat): seq<TimedEvent>
    decreases 5 - packet
  {
    if packet <= 4 then [Sends(packet)] + SendsFrom(packet + 1) else HeardFrom(1)
  }

  function HeardFrom(packet: nat): seq<TimedEvent>
    decreases 4 - packet
  {
    if packet <= 3 then [Early(packet)] + HeardFrom(packet + 1) else [Sends(5)] + AfterPause()
  }

  function AfterPause(): seq<TimedEvent> { [Hears(10030000, [5], [], 19999)] }

  function Early(packet: nat): TimedEvent { Hears(10000, [packet], [], 9999) }

  /** The part of the state that the check depends on, nothing lost so far. */
  ghost predicate Phase(t: Trace, mark: PacketNumber, sent: PacketNumber, least: nat, count: nat) {
    && t.s.vegasMode && t.s.cutback == Unset
    && t.s.roundMark == mark && t.s.largestSent == sent && t.s.minRtt == least && t.s.rttCount == count
  }

  function After(t: Trace, samples: seq<Timed>, e: TimedEvent): Trace
    requires Next(t.s, Seen(samples, e)).Ok?
  {
    Record(t, Seen(samples, e), Next(t.s, Seen(samples, e)).state)
  }

  lemma SendPhase(t: Trace, samples: seq<Timed>, mark: PacketNumber, least: nat, count: nat, packet: nat)
    requires packet >= 1 && Phase(t, mark, if packet == 1 then Unset else Number(packet - 1), least, count)
    ensures Timely(t, samples, Sends(packet)) && Next(t.s, Seen(samples, Sends(packet))).Ok?
    ensures Phase(After(t, samples, Sends(packet)), if mark.Unset? then Number(packet) else mark, Number(packet),
                  least, count)
  {
  }

  lemma EarlyPhase(t: Trace, samples: seq<Timed>, mark: nat, sent: nat, least: nat, count: nat, packet: nat)
    requires Phase(t, Number(mark), Number(sent), least, count) && packet <= sent
    requires packet < mark || count <= 1
    requires samples != [] ==> samples[|samples| - 1].time == 10000
    ensures Timely(t, samples, Early(packet)) && Next(t.s, Seen(samples, Early(packet))).Ok?
    ensures var t' := After(t, samples, Early(packet));
            if packet < mark then Phase(t', Number(mark), Number(sent), Min(least, 10000), count + 1)
            else Phase(t', Number(sent), Number(sent), INFINITE, 0)
  {
    hide Best, UpdateMax, CutsIn;
    HearsIs(t.s, packet, 9999, Best(Samples(samples, Early(packet)), 0));
    assert Seen(samples, Early(packet)) == Congestion([packet], [], 9999, Best(Samples(samples, Early(packet)), 0));
  }

  lemma HearsIs(s: Vegas, packet: nat, latest: nat, base: nat)
    ensures OnCongestionEvent(s, [packet], [], latest, base) ==
            var r := OnPacketAcked(TakeSample(s, latest), packet, base);
            if r.Ok? then Ok(SwitchMode(r.state, Recovering(s))) else r
  {
    hide OnPacketAcked, SwitchMode, Recovering;
    var s1 := TakeSample(s, latest);
    assert OnPacketsLost(s1, []) == s1;
    var r := OnPacketAcked(s1, packet, base);
    assert [packet][0] == packet && [packet][1..] == [];
    assert OnPacketsAcked(s1, [packet], base) == r by {
      if r.Ok? {
        assert OnPacketsAcked(r.state, [], base) == Ok(r.state);
      }
    }
  }

  /** The acknowledgement after the pause: the earlier samples have left the window. */
  lemma LatePhase(t: Trace, samples: seq<Timed>)
    requires Phase(t, Number(4), Number(5), 10000, 2)
    requires samples != [] && samples[|samples| - 1].time == 10000
    ensures var e := Hears(10030000, [5], [], 19999);
            && Timely(t, samples, e)
            && Next(t.s, Seen(samples, e)) == Failed(BaseAboveMin)
  {
    var all := samples + [Timed(10030000, 20000)];
    assert Best(all, 30000) == 20000;
    HearsIs(t.s, 5, 19999, 20000);
    assert Seen(samples, Hears(10030000, [5], [], 19999)) == Congestion([5], [], 19999, 20000);
  }

  lemma RunStep(t: Trace, samples: seq<Timed>, e: TimedEvent, rest: seq<TimedEvent>)
    requires Timely(t, samples, e)
    ensures var r := Next(t.s, Seen(samples, e));
            if r.Ok? then
              && (TimelyRun(t, samples, [e] + rest) <==> TimelyRun(After(t, samples, e), Samples(samples, e), rest))
              && RunOf(t, SeenAll(samples, [e] + rest))
                 == RunOf(After(t, samples, e), SeenAll(Samples(samples, e), rest))
            else TimelyRun(t, samples, [e] + rest) && RunOf(t, SeenAll(samples, [e] + rest)) == Broke(r.fault)
  {
    hide Timely, Next, Record, Seen, Samples;
    var all := [e] + rest;
    assert all[0] == e && all[1..] == rest;
    var seen := SeenAll(samples, all);
    assert seen[0] == Seen(samples, e) && seen[1..] == SeenAll(Samples(samples, e), rest);
  }

  ghost predicate Breaks(t: Trace, samples: seq<Timed>, events: seq<TimedEvent>) {
    TimelyRun(t, samples, events) && RunOf(t, SeenAll(samples, events)) == Broke(BaseAboveMin)
  }

  lemma BreaksLater(t: Trace, samples: seq<Timed>, e: TimedEvent, rest: seq<TimedEvent>)
    requires Timely(t, samples, e) && Next(t.s, Seen(samples, e)).Ok?
    requires Breaks(After(t, samples, e), Samples(samples, e), rest)
    ensures Breaks(t, samples, [e] + rest)
  {
    RunStep(t, samples, e, rest);
  }

  lemma FromPause(t: Trace, samples: seq<Timed>)
    requires Phase(t, Number(4), Number(4), 10000, 2)
    requires samples != [] && samples[|samples| - 1].time == 10000
    ensures Breaks(t, samples, HeardFrom(4))
  {
    SendPhase(t, samples, Number(4), 10000, 2, 5);
    var t' := After(t, samples, Sends(5));
    LatePhase(t', samples);
    hide Phase, After, Next, Seen, Timely;
    RunStep(t', samples, AfterPause()[0], []);
    assert AfterPause()[..1] + [] == AfterPause();
    BreaksLater(t, samples, Sends(5), AfterPause());
  }

  lemma FromHeard(t: Trace, samples: seq<Timed>, packet: nat)
    requires 1 <= packet <= 3 && (samples != [] ==> samples[|samples| - 1].time == 10000)
    requires Phase(t, Number(if packet == 1 then 1 else 4), Number(4),
                   if packet == 3 then 10000 else INFINITE, if packet == 3 then 1 else 0)
    ensures Breaks(t, samples, HeardFrom(packet))
    decreases 4 - packet
  {
    hide Phase, After, Next, Seen, Timely, Breaks, Record;
    EarlyPhase(t, samples, if packet == 1 then 1 else 4, 4, if packet == 3 then 10000 else INFINITE,
               if packet == 3 then 1 else 0, packet);
    var t', more := After(t, samples, Early(packet)), Samples(samples, Early(packet));
    if packet == 3 {
      FromPause(t', more);
    } else {
      FromHeard(t', more, packet + 1);
    }
    BreaksLater(t, samples, Early(packet), HeardFrom(packet + 1));
  }

  lemma FromSends(t: Trace, packet: nat)
    requires 1 <= packet <= 5
    requires Phase(t, if packet == 1 then Unset else Number(1), if packet == 1 then Unset else Number(packet - 1),
                   INFINITE, 0)
    ensures Breaks(t, [], SendsFrom(packet))
    decreases 5 - packet
  {
    if packet == 5 {
      FromHeard(t, [], 1);
    } else {
      SendPhase(t, [], if packet == 1 then Unset else Number(1), INFINITE, 0, packet);
      hide Phase, After, Next, Seen, Timely, Breaks;
      FromSends(After(t, [], Sends(packet)), packet + 1);
      BreaksLater(t, [], Sends(packet), SendsFrom(packet + 1));
    }
  }

  /** The check does fail in a run from a new sender. */
  lemma PauseBreaks(initialPackets: nat, maxPackets: nat)
    ensures TimelyRun(Start(initialPackets, maxPackets), [], PauseInRound())
    ensures RunOf(Start(initialPackets, maxPackets), SeenAll([], PauseInRound())) == Broke(BaseAboveMin)
  {
    FromSends(Start(initialPackets, maxPackets), 1);
  }
}
