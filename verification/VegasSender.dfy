/** VegasSender with its fields, updated in place; every handler is proved to take the state to
    what the state machine says, and to report the failed check it says. */
module VegasSender {
  import opened Arithmetic
  import opened Flights
  import opened VegasModel

  datatype Status = Fine | Aborted(fault: Fault)

  class VegasSender {
    var largestSent: PacketNumber
    var largestAcked: PacketNumber
    var cutback: PacketNumber
    var window: nat
    var threshold: nat
    var minRtt: nat
    var rttCount: nat
    var roundMark: PacketNumber
    var ackCount: nat
    var vegasMode: bool

    function State(): Vegas
      reads this
    {
      Vegas(window, threshold, minRtt, rttCount, roundMark, ackCount, vegasMode, largestSent, largestAcked, cutback)
    }

    constructor (initialPackets: nat, maxPackets: nat)
      ensures State() == NewVegas(initialPackets, maxPackets)
    {
      window, threshold := (initialPackets * MSS) % U64, (maxPackets * MSS) % U64;
      minRtt, rttCount, ackCount, vegasMode := INFINITE, 0, 0, true;
      roundMark, largestSent, largestAcked, cutback := Unset, Unset, Unset, Unset;
    }

    method SetInitialCongestionWindowInPackets(packets: nat)
      modifies this
      ensures State() == SetInitialWindow(old(State()), packets)
    {
      if window < threshold {
        window := (packets * MSS) % U64;
      }
    }

    /** The code asserts that packet numbers grow. */
    method OnPacketSent(packet: nat)
      requires largestSent.Number? ==> largestSent.value < packet
      modifies this
      ensures State() == VegasModel.OnPacketSent(old(State()), packet)
    {
      largestSent := Number(packet);
      if roundMark.Unset? {
        roundMark := largestSent;
      }
    }

    method OnPacketLost(packet: nat)
      modifies this
      ensures State() == VegasModel.OnPacketLost(old(State()), packet)
    {
      if cutback.Number? && packet <= cutback.value {
        return;
      }
      window := window / 2;
      window := Max(window, MIN_WINDOW);
      threshold := window;
      cutback := largestSent;
      ackCount := 0;
    }

    method OnCongestionEvent(acked: seq<nat>, lost: seq<nat>, latest: nat, base: nat) returns (status: Status)
      modifies this
      ensures match VegasModel.OnCongestionEvent(old(State()), acked, lost, latest, base)
              case Ok(s) => status == Fine && State() == s
              case Failed(f) => status == Aborted(f)
    {
      hide VegasModel.OnPacketAcked, VegasModel.OnPacketLost;
      if |acked| > 0 {
        var sample := latest + 1;
        if minRtt > sample {
          minRtt := sample;
        }
        rttCount := rttCount + 1;
      }
      var before := InRecovery(largestAcked, cutback);
      LoseAll(lost);
      status := AckAll(acked, base);
      if status != Fine {
        return;
      }
      if InRecovery(largestAcked, cutback) != before {
        if InRecovery(largestAcked, cutback) {
          vegasMode := false;
        } else {
          vegasMode := true;
          roundMark := largestSent;
          minRtt := INFINITE;
          rttCount := 0;
        }
      }
    }

    /** The loop over the lost packets. */
    method LoseAll(lost: seq<nat>)
      modifies this
      ensures State() == OnPacketsLost(old(State()), lost)
    {
      var i := 0;
      while i < |lost|
        invariant 0 <= i <= |lost|
        invariant OnPacketsLost(State(), lost[i..]) == OnPacketsLost(old(State()), lost)
      {
        assert lost[i..][1..] == lost[i + 1..];
        OnPacketLost(lost[i]);
        i := i + 1;
      }
      assert lost[i..] == [];
    }

    /** The loop over the acknowledged packets. */
    method AckAll(acked: seq<nat>, base: nat) returns (status: Status)
      modifies this
      ensures match OnPacketsAcked(old(State()), acked, base)
              case Ok(s) => status == Fine && State() == s
              case Failed(f) => status == Aborted(f)
    {
      hide VegasModel.OnPacketAcked;
      var i := 0;
      while i < |acked|
        invariant 0 <= i <= |acked|
        invariant OnPacketsAcked(State(), acked[i..], base) == OnPacketsAcked(old(State()), acked, base)
      {
        assert acked[i..][1..] == acked[i + 1..];
        status := OnPacketAcked(acked[i], base);
        if status != Fine {
          return;
        }
        i := i + 1;
      }
      assert acked[i..] == [];
      return Fine;
    }

    method OnPacketAcked(packet: nat, base: nat) returns (status: Status)
      modifies this
      ensures match VegasModel.OnPacketAcked(old(State()), packet, base)
              case Ok(s) => status == Fine && State() == s
              case Failed(f) => status == Aborted(f)
    {
      hide Target, Queued;
      largestAcked := UpdateMax(largestAcked, packet);
      if !vegasMode {
        IncreaseCongestionWindowAsReno();
        return Fine;
      }
      if roundMark.Unset? {
        return Aborted(NoRoundMark);
      }
      if packet >= roundMark.value {
        roundMark := largestSent;
        if rttCount <= 2 {
          IncreaseCongestionWindowAsReno();
        } else {
          if minRtt == 0 || base == 0 {
            return Aborted(DivideByZero);
          }
          var target := Target(window, base, minRtt);
          if minRtt < base {
            return Aborted(BaseAboveMin);
          }
          var diff := Queued(window, base, minRtt);
          if diff > GAMMA && window < threshold {
            window := Min(window, target);
            threshold := window;
          } else if window < threshold {
            window := (window + MSS) % U64;
          } else {
            if diff > BETA {
              if window > MIN_WINDOW {
                window := window - MSS;
              }
            } else if diff < ALPHA {
              window := (window + MSS) % U64;
            }
          }
        }
        minRtt := INFINITE;
        rttCount := 0;
      } else if window < threshold {
        window := (window + MSS) % U64;
      }
      window := Max(window, MIN_WINDOW);
      return Fine;
    }

    method IncreaseCongestionWindowAsReno()
      modifies this`window, this`ackCount
      ensures State() == IncreaseAsReno(old(State()))
    {
      if window < threshold {
        window := (window + MSS) % U64;
      } else {
        ackCount := (ackCount + 1) % U64;
        if (ackCount * MSS) % U64 >= window {
          window := (window + MSS) % U64;
          ackCount := 0;
        }
      }
    }
  }
}
