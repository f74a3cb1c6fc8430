/** CopaSender with its fields, updated in place; every handler is proved to take the state to
    what the state machine says, and to report the exception or failed check it says. */
module CopaSender {
  import opened Arithmetic
  import opened Flights
  import opened CopaModel

  datatype Status = Fine | Threw(fault: Fault)

  class CopaSender {
    var largestSent: PacketNumber
    var largestAcked: PacketNumber
    var cutback: PacketNumber
    var window: nat
    var initialWindow: nat
    var slowStart: bool
    var lastDouble: nat
    var vs: VelocityState

    function State(): Copa
      reads this
    {
      Copa(window, initialWindow, slowStart, lastDouble, vs, largestSent, largestAcked, cutback)
    }

    constructor (initialPackets: nat)
      ensures State() == NewCopa(initialPackets)
    {
      window := (initialPackets * MSS) % U64;
      initialWindow := (initialPackets * MSS) % U64;
      slowStart, lastDouble := true, 0;
      vs := VelocityState(1, NoDirection, 0, 0, 0);
      largestSent, largestAcked, cutback := Unset, Unset, Unset;
    }

    method SetInitialCongestionWindowInPackets(packets: nat)
      modifies this
      ensures State() == SetInitialWindow(old(State()), packets)
    {
      if slowStart {
        initialWindow := (packets * MSS) % U64;
        window := (packets * MSS) % U64;
      }
    }

    /** The code asserts that packet numbers grow. */
    method OnPacketSent(packet: nat)
      requires largestSent.Number? ==> largestSent.value < packet
      modifies this
      ensures State() == CopaModel.OnPacketSent(old(State()), packet)
    {
      largestSent := Number(packet);
    }

    method OnPacketLost(packet: nat)
      modifies this
      ensures State() == CopaModel.OnPacketLost(old(State()), packet)
    {
      if cutback.Number? && packet <= cutback.value {
        return;
      }
      cutback := largestSent;
    }

    method OnCongestionEvent(acked: seq<nat>, lost: seq<nat>, o: Reading) returns (status: Status)
      requires window > 0
      modifies this
      ensures match CopaModel.OnCongestionEvent(old(State()), acked, lost, o)
              case Ok(s) => status == Fine && State() == s
              case Failed(f) => status == Threw(f)
    {
      WindowUntouched(State(), lost);
      var i := 0;
      while i < |lost|
        invariant 0 <= i <= |lost|
        invariant OnPacketsLost(State(), lost[i..]) == OnPacketsLost(old(State()), lost)
      {
        assert lost[i..][1..] == lost[i + 1..];
        OnPacketLost(lost[i]);
        i := i + 1;
      }
      assert lost[i..] == [];
      status := OnPacketAcked(acked, o);
    }

    method OnPacketAcked(acked: seq<nat>, o: Reading) returns (status: Status)
      requires window > 0
      modifies this
      ensures match CopaModel.OnPacketAcked(old(State()), acked, o)
              case Ok(s) => status == Fine && State() == s
              case Failed(f) => status == Threw(f)
    {
      hide StepSize, CopaModel.CheckAndUpdateDirection, CopaModel.ChangeDirection, UpdateMaxAll;
      UpdateLargestAcked(acked);
      var delay := o.latest - o.least;
      if delay < 0 {
        return Threw(NegativeDelay);
      }
      if o.standing == 0 {
        return Threw(ZeroStanding);
      }
      var increase := false;
      if delay == 0 {
        increase := true;
      } else {
        var targetRate := (2 * MSS * 1000000) / delay;
        var currentRate := (window * 1000000) / o.standing;
        increase := targetRate >= currentRate;
      }
      if !(increase && slowStart) {
        CheckAndUpdateDirection(o.now, o.smoothed);
      }
      if increase {
        if slowStart {
          if lastDouble == 0 {
            lastDouble := o.now;
          } else if o.now - lastDouble > o.smoothed {
            var ok := AddToWindow(window);
            if !ok {
              return Threw(Overflow);
            }
            lastDouble := o.now;
          }
        } else {
          if vs.direction != Up && vs.velocity > 1 {
            ChangeDirection(Up, o.now);
          }
          var addition := StepSize(|acked|, vs.velocity, window);
          var ok := AddToWindow(addition);
          if !ok {
            return Threw(Overflow);
          }
        }
      } else {
        if vs.direction != Down && vs.velocity > 1 {
          ChangeDirection(Down, o.now);
        }
        var reduction := StepSize(|acked|, vs.velocity, window);
        slowStart := false;
        var ok := SubtractFromWindow(Min(reduction, (window - MIN_WINDOW) % U64));
        if !ok {
          return Threw(Underflow);
        }
      }
      return Fine;
    }

    method UpdateLargestAcked(acked: seq<nat>)
      modifies this`largestAcked
      ensures largestAcked == UpdateMaxAll(old(largestAcked), acked)
    {
      var i := 0;
      while i < |acked|
        invariant 0 <= i <= |acked|
        invariant UpdateMaxAll(largestAcked, acked[i..]) == UpdateMaxAll(old(largestAcked), acked)
      {
        assert acked[i..][1..] == acked[i + 1..];
        largestAcked := UpdateMax(largestAcked, acked[i]);
        i := i + 1;
      }
      assert acked[i..] == [];
    }

    /** addAndCheckOverflow on the window; false stands for the exception. */
    method AddToWindow(amount: nat) returns (ok: bool)
      modifies this`window
      ensures match AddChecked(old(State()), amount)
              case Ok(s) => ok && State() == s
              case Failed(_) => !ok && window == old(window)
    {
      if U64 - 1 - amount < window {
        return false;
      }
      window := window + amount;
      return true;
    }

    /** subtractAndCheckUnderflow on the window. */
    method SubtractFromWindow(amount: nat) returns (ok: bool)
      modifies this`window
      ensures match SubtractChecked(old(State()), amount)
              case Ok(s) => ok && State() == s
              case Failed(_) => !ok && window == old(window)
    {
      if window < amount {
        return false;
      }
      window := window - amount;
      return true;
    }

    method CheckAndUpdateDirection(now: nat, smoothed: nat)
      modifies this`vs
      ensures vs == CopaModel.CheckAndUpdateDirection(old(vs), window, now, smoothed)
    {
      if vs.recordTime == 0 {
        vs := vs.(recordTime := now, recordedWindow := window);
        return;
      }
      var elapsed := now - vs.recordTime;
      if elapsed >= smoothed {
        var newDirection := if window > vs.recordedWindow then Up else Down;
        if newDirection != vs.direction {
          vs := vs.(velocity := 1, same := 0);
        } else {
          vs := vs.(same := (vs.same + 1) % U64);
          if vs.same >= 3 {
            vs := vs.(velocity := (2 * vs.velocity) % U64);
          }
        }
        vs := vs.(direction := newDirection, recordTime := now, recordedWindow := window);
      }
    }

    method ChangeDirection(newDirection: Direction, now: nat)
      modifies this`vs
      ensures vs == CopaModel.ChangeDirection(old(vs), newDirection, now, window)
    {
      if vs.direction == newDirection {
        return;
      }
      vs := VelocityState(1, newDirection, 0, window, now);
    }
  }
}
