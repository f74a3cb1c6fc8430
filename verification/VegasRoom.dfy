/** Why Vegas keeps its floor in 64 bits: while it behaves as Reno its window starts from a halving,
    and from 2^63 on an increase takes more acknowledgements than a run can have room for. */
module VegasRoom {
  import opened Arithmetic
  import opened Flights
  import opened VegasModel

  /** Increases that the window may be ahead of its acknowledgements: the end of a round with enough
      samples gives one away, once. */
  function Slack(s: Vegas): nat { if s.vegasMode && s.rttCount > 2 then MSS else 2 * MSS }

  /** Above 2^63 every packet of window has been paid for by 2^63 / MSS of the `acks` so far. */
  ghost predicate Bounded(s: Vegas, acks: nat) {
    && s.threshold <= HALF && s.ackCount <= acks
    && (s.window - HALF - Slack(s)) * HALF <= MSS * MSS * (acks - s.ackCount)
  }

  /** A halving leaves both window and threshold here. */
  ghost predicate Curbed(s: Vegas) { s.window <= HALF && s.threshold <= HALF }

  /** As Reno the window is bounded; and so it is after a halving that precedes every
      acknowledgement, which leaves Vegas mode on for the moment. */
  ghost predicate Room(s: Vegas, acks: nat) {
    && s.window < U64 && s.ackCount <= acks
    && (!s.vegasMode ==> Bounded(s, acks))
    && (s.cutback.Number? && s.largestAcked.Unset? ==> Curbed(s))
  }

  lemma CurbedIsBounded(s: Vegas, acks: nat)
    requires Curbed(s) && s.ackCount <= acks
    ensures Bounded(s, acks)
  {
  }

  lemma RoomLeft(s: Vegas, acks: nat)
    requires Bounded(s, acks) && acks < U64
    ensures s.window < U64 - MSS
  {
  }

  /** A Reno acknowledgement: an increase at 2^63 or more has counted 2^63 / MSS of them. */
  lemma RenoBounded(s: Vegas, acks: nat)
    requires Bounded(s, acks) && acks < U64
    ensures Bounded(IncreaseAsReno(s), acks + 1)
  {
    RoomLeft(s, acks);
    var r := IncreaseAsReno(s);
    if !InSlowStart(s) && r.window != s.window {
      assert (s.ackCount + 1) * MSS >= s.window;
    }
  }

  /** Any other change that does not outrun the slack. */
  lemma StaysBounded(s: Vegas, acks: nat, r: Vegas)
    requires Bounded(s, acks) && r.threshold <= HALF && r.ackCount <= s.ackCount
    requires r.window - Slack(r) <= Max(s.window - Slack(s), HALF)
    ensures Bounded(r, acks) && Bounded(r, acks + 1)
  {
  }

  lemma RoundBounded(s: Vegas, base: nat, acks: nat)
    requires Bounded(s, acks) && acks < U64 && s.vegasMode && EndRound(s, base).Ok?
    ensures Bounded(EndRound(s, base).state, acks + 1)
  {
    RoomLeft(s, acks);
    var s1 := s.(roundMark := s.largestSent);
    var r := EndRound(s, base).state;
    hide Target, Queued;
    if s.rttCount <= 2 {
      RenoBounded(s1, acks);
      StaysBounded(IncreaseAsReno(s1), acks + 1, r);
    } else {
      DecideWithin(s1, base);
      StaysBounded(s, acks, r);
    }
  }

  lemma DecideWithin(s: Vegas, base: nat)
    requires 0 < base <= s.minRtt && s.window < U64 - MSS
    ensures var r := Decide(s, base);
            && r == s.(window := r.window, threshold := r.threshold)
            && r.window <= s.window + MSS
            && (r.threshold == s.threshold || r.threshold == r.window <= s.window < s.threshold)
  {
    hide Target, Queued;
  }

  /** Every acknowledgement keeps the bound, in either mode. */
  lemma AckBounded(s: Vegas, packet: nat, base: nat, acks: nat)
    requires Bounded(s, acks) && acks < U64 && OnPacketAcked(s, packet, base).Ok?
    ensures Bounded(OnPacketAcked(s, packet, base).state, acks + 1)
  {
    RoomLeft(s, acks);
    var s1 := s.(largestAcked := UpdateMax(s.largestAcked, packet));
    var r := OnPacketAcked(s, packet, base).state;
    assert Bounded(s1, acks);
    hide UpdateMax, IncreaseAsReno, EndRound;
    if !s.vegasMode {
      RenoBounded(s1, acks);
    } else if packet >= s.roundMark.value {
      RoundBounded(s1, base, acks);
      StaysBounded(EndRound(s1, base).state, acks + 1, r);
    } else {
      StaysBounded(s, acks, r);
    }
  }

  // ------------------------------------------------------------ events

  lemma AckCounts(s: Vegas, packet: nat, base: nat, acks: nat)
    requires s.window < U64 && s.ackCount <= acks && OnPacketAcked(s, packet, base).Ok?
    ensures var r := OnPacketAcked(s, packet, base).state;
            && r.window < U64 && r.ackCount <= acks + 1
            && r.vegasMode == s.vegasMode && r.cutback == s.cutback
            && r.largestAcked == UpdateMax(s.largestAcked, packet)
  {
    hide Target, Queued, UpdateMax;
  }

  /** The acknowledgements of an event: the largest acknowledged packet does not go back. */
  lemma {:induction false} AcksBounded(s: Vegas, acked: seq<nat>, base: nat, acks: nat)
    requires s.window < U64 && s.ackCount <= acks && OnPacketsAcked(s, acked, base).Ok?
    ensures var r := OnPacketsAcked(s, acked, base).state;
            && r.window < U64 && r.ackCount <= acks + |acked|
            && (Bounded(s, acks) && acks + |acked| < U64 ==> Bounded(r, acks + |acked|))
            && r.vegasMode == s.vegasMode && r.cutback == s.cutback
            && (acked == [] ==> r == s)
            && (acked != [] || s.largestAcked.Number? ==> r.largestAcked.Number?)
            && (s.largestAcked.Number? ==> r.largestAcked.value >= s.largestAcked.value)
    decreases |acked|
  {
    if acked != [] {
      AckCounts(s, acked[0], base, acks);
      var m := OnPacketAcked(s, acked[0], base).state;
      if Bounded(s, acks) && acks + |acked| < U64 {
        AckBounded(s, acked[0], base, acks);
      }
      hide OnPacketAcked, Bounded;
      AcksBounded(m, acked[1..], base, acks + 1);
    }
  }

  /** A list of losses leaves the sender alone, or halves its window and the threshold with it. */
  lemma {:induction false} LossesCurb(s: Vegas, lost: seq<nat>)
    requires s.window < U64
    ensures var r := OnPacketsLost(s, lost);
            r == s || (Curbed(r) && r.ackCount == 0 && r.vegasMode == s.vegasMode
                       && r.largestAcked == s.largestAcked && r.rttCount == s.rttCount)
    decreases |lost|
  {
    if lost != [] {
      LossesCurb(OnPacketLost(s, lost[0]), lost[1..]);
    }
  }

  /** Leaving Vegas mode takes a halving, in this event or before the first acknowledgement. */
  lemma EventKeepsRoom(s: Vegas, acked: seq<nat>, lost: seq<nat>, latest: nat, base: nat, acks: nat)
    requires Room(s, acks) && acks + |acked| < U64 && (s.vegasMode <==> !Recovering(s))
    requires OnCongestionEvent(s, acked, lost, latest, base).Ok?
    ensures Room(OnCongestionEvent(s, acked, lost, latest, base).state, acks + |acked|)
  {
    var s1 := if acked != [] then TakeSample(s, latest) else s;
    var s2 := OnPacketsLost(s1, lost);
    LossesCurb(s1, lost);
    AcksBounded(s2, acked, base, acks);
    var s3 := OnPacketsAcked(s2, acked, base).state;
    hide OnPacketsLost, OnPacketsAcked;
    if s2 != s1 {
      CurbedIsBounded(s2, acks);
    } else if !s.vegasMode {
      assert Bounded(s1, acks);
    } else if s.cutback.Number? && s.largestAcked.Unset? {
      CurbedIsBounded(s1, acks);
    } else {
      assert !Recovering(s3);
    }
    SwitchRoom(s3, Recovering(s), acks + |acked|);
  }

  lemma SwitchRoom(s: Vegas, before: bool, acks: nat)
    ensures var r := SwitchMode(s, before);
            && (Bounded(s, acks) && !r.vegasMode ==> Bounded(r, acks))
            && r.window == s.window && r.threshold == s.threshold && r.ackCount == s.ackCount
            && r.cutback == s.cutback && r.largestAcked == s.largestAcked
            && (!r.vegasMode ==> Recovering(s) || !s.vegasMode)
  {
  }
}
