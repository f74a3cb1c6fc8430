/** What each event does to the Vegas sender, field by field and branch by branch. */
module VegasEffects {
  import opened Arithmetic
  import opened Flights
  import opened VegasModel
  import opened VegasRuns

  // ------------------------------------------------------------ losses

  lemma {:induction false} OlderLossesChangeNothing(s: Vegas, lost: seq<nat>)
    requires s.cutback.Number? && forall p | p in lost :: p <= s.cutback.value
    ensures OnPacketsLost(s, lost) == s
    decreases |lost|
  {
    if lost != [] {
      assert lost[0] in lost;
      assert forall p | p in lost[1..] :: p in lost;
      OlderLossesChangeNothing(s, lost[1..]);
    }
  }

  /** Losses of packets sent before the last cutback change nothing. Any loss of a later packet halves
      the window once, down to four packets, brings the threshold to it, forgets the ack count and
      marks the flight. */
  lemma {:induction false} LossesTakeEffect(s: Vegas, lost: seq<nat>)
    requires s.largestSent.Number? && forall p | p in lost :: p <= s.largestSent.value
    ensures var w := if s.window / 2 < 4 * MSS then 4 * MSS else s.window / 2;
            OnPacketsLost(s, lost)
              == if LostNewer(s.cutback, lost)
                 then s.(window := w, threshold := w, cutback := s.largestSent, ackCount := 0) else s
    decreases |lost|
  {
    if lost != [] {
      assert lost[0] in lost;
      assert forall p | p in lost[1..] :: p in lost;
      if s.cutback == Unset || lost[0] > s.cutback.value {
        OlderLossesChangeNothing(OnPacketLost(s, lost[0]), lost[1..]);
        assert LostNewer(s.cutback, lost);
      } else {
        LossesTakeEffect(s, lost[1..]);
        NewerSplit(s.cutback, lost);
      }
    }
  }

  // ------------------------------------------------------------ acknowledgements

  /** As Reno: a packet per acknowledgement in slow start, else one when the count reaches the
      window. Nothing else changes. */
  lemma RenoTakesEffect(s: Vegas)
    requires s.window + MSS < U64 && (s.ackCount + 1) * MSS < U64
    ensures IncreaseAsReno(s)
         == if s.window < s.threshold then s.(window := s.window + MSS)
            else if (s.ackCount + 1) * MSS >= s.window then s.(window := s.window + MSS, ackCount := 0)
            else s.(ackCount := s.ackCount + 1)
  {
    ModSmall(s.window + MSS);
    ModSmall((s.ackCount + 1) * MSS);
  }

  /** Outside Vegas mode an acknowledgement is one of Reno's, whatever the round. */
  lemma RenoModeAck(s: Vegas, packet: nat, base: nat)
    requires !s.vegasMode && s.window + MSS < U64 && (s.ackCount + 1) * MSS < U64
    ensures OnPacketAcked(s, packet, base)
         == Ok((if s.window < s.threshold then s.(window := s.window + MSS)
                else if (s.ackCount + 1) * MSS >= s.window then s.(window := s.window + MSS, ackCount := 0)
                else s.(ackCount := s.ackCount + 1)).(largestAcked := UpdateMax(s.largestAcked, packet)))
  {
    RenoTakesEffect(s.(largestAcked := UpdateMax(s.largestAcked, packet)));
    hide IncreaseAsReno, UpdateMax;
  }

  /** Inside a round in Vegas mode the window grows by a packet in slow start and not at all after. */
  lemma MidRoundAck(s: Vegas, packet: nat, base: nat)
    requires s.vegasMode && s.roundMark.Number? && packet < s.roundMark.value
    requires 4 * MSS <= s.window && s.window + MSS < U64
    ensures OnPacketAcked(s, packet, base)
         == Ok(s.(window := if s.window < s.threshold then s.window + MSS else s.window,
                  largestAcked := UpdateMax(s.largestAcked, packet)))
  {
    ModSmall(s.window + MSS);
  }

  /** The packets by which slow start falls short of the threshold, rounded up. */
  function Shortfall(window: nat, threshold: nat): nat {
    if window < threshold then (threshold - window + MSS - 1) / MSS else 0
  }

  /** A whole list of them: a packet each, until the threshold is reached. */
  lemma {:induction false} MidRoundAcks(s: Vegas, acked: seq<nat>, base: nat)
    requires s.vegasMode && s.roundMark.Number? && forall p | p in acked :: p < s.roundMark.value
    requires 4 * MSS <= s.window && s.window + |acked| * MSS < U64
    ensures OnPacketsAcked(s, acked, base)
         == Ok(s.(window := s.window + MSS * Min(|acked|, Shortfall(s.window, s.threshold)),
                  largestAcked := UpdateMaxAll(s.largestAcked, acked)))
    decreases |acked|
  {
    if acked != [] {
      assert acked[0] in acked;
      assert forall p | p in acked[1..] :: p in acked;
      MidRoundAck(s, acked[0], base);
      hide OnPacketAcked, UpdateMax;
      MidRoundAcks(OnPacketAcked(s, acked[0], base).state, acked[1..], base);
      ShortfallStep(s.window, s.threshold);
    } else {
      assert Min(0, Shortfall(s.window, s.threshold)) == 0;
    }
  }

  lemma ShortfallStep(window: nat, threshold: nat)
    ensures window < threshold ==> Shortfall(window, threshold) == Shortfall(window + MSS, threshold) + 1
    ensures window >= threshold ==> Shortfall(window, threshold) == 0
  {
  }

  /** A round that ends after at most two samples runs the Reno increase; like every round end it
      moves the marker to the largest sent packet and forgets the round's samples. */
  lemma ShortRoundEnd(s: Vegas, packet: nat, base: nat)
    requires s.vegasMode && s.roundMark.Number? && packet >= s.roundMark.value && s.rttCount <= 2
    requires 4 * MSS <= s.window && s.window + MSS < U64 && (s.ackCount + 1) * MSS < U64
    ensures OnPacketAcked(s, packet, base)
         == Ok((if s.window < s.threshold then s.(window := s.window + MSS)
                else if (s.ackCount + 1) * MSS >= s.window then s.(window := s.window + MSS, ackCount := 0)
                else s.(ackCount := s.ackCount + 1))
               .(largestAcked := UpdateMax(s.largestAcked, packet), roundMark := s.largestSent,
                 minRtt := 0x7fff_ffff_ffff_ffff, rttCount := 0))
  {
    RenoTakesEffect(s.(largestAcked := UpdateMax(s.largestAcked, packet), roundMark := s.largestSent));
    hide IncreaseAsReno, UpdateMax;
  }

  /** A round that ends after more samples leaves the ack count alone, moves the marker and forgets
      its samples; the window and the threshold are what RoundDecision and SlowStartDecision say. */
  lemma LongRoundEnd(s: Vegas, packet: nat, base: nat)
    requires s.vegasMode && s.roundMark.Number? && packet >= s.roundMark.value && s.rttCount > 2
    requires 0 < base <= s.minRtt
    ensures var r := OnPacketAcked(s, packet, base);
            && r.Ok?
            && r.state == s.(window := r.state.window, threshold := r.state.threshold,
                             largestAcked := UpdateMax(s.largestAcked, packet), roundMark := s.largestSent,
                             minRtt := 0x7fff_ffff_ffff_ffff, rttCount := 0)
  {
    hide Target, Queued, UpdateMax;
  }

  /** What an acknowledgement fails on. */
  lemma AckFaults(s: Vegas, packet: nat, base: nat)
    requires s.vegasMode
    ensures s.roundMark == Unset ==> OnPacketAcked(s, packet, base) == Failed(NoRoundMark)
    ensures s.roundMark.Number? && packet >= s.roundMark.value && s.rttCount > 2 ==>
              && (s.minRtt == 0 || base == 0 ==> OnPacketAcked(s, packet, base) == Failed(DivideByZero))
              && (0 < s.minRtt < base ==> OnPacketAcked(s, packet, base) == Failed(BaseAboveMin))
  {
  }

  // ------------------------------------------------------------ whole events

  /** Entering recovery turns Vegas mode off and keeps the round; leaving it turns the mode on with a
      fresh round from the largest sent packet. */
  lemma SwitchTakesEffect(s: Vegas, before: bool)
    ensures var after := s.largestAcked.Number? && s.cutback.Number? && s.largestAcked.value <= s.cutback.value;
            SwitchMode(s, before)
              == if after == before then s
                 else if after then s.(vegasMode := false)
                 else s.(vegasMode := true, roundMark := s.largestSent, minRtt := 0x7fff_ffff_ffff_ffff, rttCount := 0)
  {
  }

  /** An event that leaves recovery starts a fresh round: nothing measured in recovery is in it. */
  lemma LeavingRecovery(t: Trace, acked: seq<nat>, lost: seq<nat>, latest: nat, base: nat)
    requires InRecovery(t.s.largestAcked, t.s.cutback)
    requires OnCongestionEvent(t.s, acked, lost, latest, base).Ok?
    ensures var e := Congestion(acked, lost, latest, base);
            var r := OnCongestionEvent(t.s, acked, lost, latest, base).state;
            !InRecovery(r.largestAcked, r.cutback) ==>
              && r.vegasMode && r.roundMark == r.largestSent && r.minRtt == 0x7fff_ffff_ffff_ffff && r.rttCount == 0
              && Record(t, e, r).round == []
  {
    hide OnPacketsAcked, OnPacketsLost, CutsIn;
  }

  /** Losses come before acknowledgements: an event that halves the window and acknowledges only
      packets inside the round leaves it at the half, in slow start too. */
  lemma LossesComeFirst(s: Vegas, acked: seq<nat>, lost: seq<nat>, latest: nat, base: nat)
    requires s.largestSent.Number? && (forall p | p in lost :: p <= s.largestSent.value) && LostNewer(s.cutback, lost)
    requires s.vegasMode && s.roundMark.Number? && forall p | p in acked :: p < s.roundMark.value
    requires 4 * MSS <= s.window < U64 && |acked| < 0x1_0000_0000
    ensures var r := OnCongestionEvent(s, acked, lost, latest, base);
            && r.Ok?
            && r.state.window == r.state.threshold == (if s.window / 2 < 4 * MSS then 4 * MSS else s.window / 2)
            && r.state.cutback == s.largestSent && r.state.largestAcked == UpdateMaxAll(s.largestAcked, acked)
  {
    var s1 := if acked != [] then TakeSample(s, latest) else s;
    LossesTakeEffect(s1, lost);
    hide OnPacketsLost, OnPacketsAcked, LostNewer, UpdateMaxAll;
    MidRoundAcks(OnPacketsLost(s1, lost), acked, base);
  }

  /** An event without losses before any cutback that acknowledges only packets inside the round: one
      more sample, and the growth of MidRoundAcks. */
  lemma MidRoundEvent(s: Vegas, acked: seq<nat>, latest: nat, base: nat)
    requires s.vegasMode && s.cutback == Unset && acked != []
    requires s.roundMark.Number? && forall p | p in acked :: p < s.roundMark.value
    requires 4 * MSS <= s.window && s.window + |acked| * MSS < U64
    ensures OnCongestionEvent(s, acked, [], latest, base)
         == Ok(s.(window := s.window + MSS * Min(|acked|, Shortfall(s.window, s.threshold)),
                  largestAcked := UpdateMaxAll(s.largestAcked, acked), rttCount := s.rttCount + 1,
                  minRtt := if latest + 1 < s.minRtt then latest + 1 else s.minRtt))
  {
    var s1 := TakeSample(s, latest);
    MidRoundAcks(s1, acked, base);
    assert OnPacketsLost(s1, []) == s1;
    hide OnPacketsAcked, OnPacketsLost, UpdateMaxAll, Shortfall;
  }

  /** One sample, the latest RTT and a microsecond, per event that acknowledges something. */
  lemma SampleTakesEffect(s: Vegas, latest: nat)
    ensures TakeSample(s, latest)
         == s.(minRtt := if latest + 1 < s.minRtt then latest + 1 else s.minRtt, rttCount := s.rttCount + 1)
  {
  }

  /** A new sender, a sent packet, and a window set from outside. */
  lemma OtherEvents(s: Vegas, packets: nat, maxPackets: nat)
    requires packets * MSS < U64 && maxPackets * MSS < U64
    ensures NewVegas(packets, maxPackets)
         == Vegas(packets * MSS, maxPackets * MSS, 0x7fff_ffff_ffff_ffff, 0, Unset, 0, true, Unset, Unset, Unset)
    ensures SetInitialWindow(s, packets) == if s.window < s.threshold then s.(window := packets * MSS) else s
    ensures OnPacketSent(s, packets)
         == s.(largestSent := Number(packets),
               roundMark := if s.roundMark == Unset then Number(packets) else s.roundMark)
  {
    ModSmall(packets * MSS);
    ModSmall(maxPackets * MSS);
  }
}
