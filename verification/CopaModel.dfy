/** CopaSender as a state machine. Times are microseconds, 0 standing for an uninitialised
    QuicTime; window and velocity arithmetic is the 64-bit arithmetic of the code, and the two
    quotients by a double are exact reals rounded down. */
module CopaModel {
  import opened Arithmetic
  import opened Flights

  datatype Direction = NoDirection | Up | Down

  datatype VelocityState = VelocityState(
    velocity: nat,
    direction: Direction,
    same: nat,
    recordedWindow: nat,
    recordTime: nat)

  datatype Copa = Copa(
    window: nat,
    initialWindow: nat,
    slowStart: bool,
    lastDouble: nat,
    vs: VelocityState,
    largestSent: PacketNumber,
    largestAcked: PacketNumber,
    cutback: PacketNumber)

  function NewCopa(initialPackets: nat): Copa {
    var w := (initialPackets * MSS) % U64;
    Copa(w, w, true, 0, VelocityState(1, NoDirection, 0, 0, 0), Unset, Unset, Unset)
  }

  /** What an acknowledgement event finds: its time, RttStats' latest and smoothed RTT, and the
      best values of the two windowed minimum filters after the latest RTT went in. */
  datatype Reading = Reading(now: nat, latest: nat, smoothed: nat, least: nat, standing: nat)

  datatype Fault = NegativeDelay | ZeroStanding | Overflow | Underflow

  datatype Outcome = Ok(state: Copa) | Failed(fault: Fault) {
    predicate IsFailure() { Failed? }
    function PropagateFailure(): Outcome requires Failed? { this }
    function Extract(): Copa requires Ok? { state }
  }

  function OnPacketSent(s: Copa, packet: nat): Copa {
    s.(largestSent := Number(packet))
  }

  function OnPacketLost(s: Copa, packet: nat): Copa {
    if !StartsEpoch(s.cutback, packet) then s else s.(cutback := s.largestSent)
  }

  function OnPacketsLost(s: Copa, lost: seq<nat>): Copa
    decreases |lost|
  {
    if lost == [] then s else OnPacketsLost(OnPacketLost(s, lost[0]), lost[1..])
  }

  /** The rate comparison: target rate MSS / (0.5 * delay) against window / standing RTT. */
  predicate WantsIncrease(window: nat, delay: nat, standing: nat)
    requires standing > 0
  {
    delay == 0 || (2 * MSS * 1000000) / delay >= (window * 1000000) / standing
  }

  function CheckAndUpdateDirection(vs: VelocityState, window: nat, now: nat, smoothed: nat): VelocityState {
    if vs.recordTime == 0 then vs.(recordTime := now, recordedWindow := window)
    else if now - vs.recordTime < smoothed then vs
    else
      var newDirection := if window > vs.recordedWindow then Up else Down;
      var turned :=
        if newDirection != vs.direction then vs.(velocity := 1, same := 0)
        else
          var same := (vs.same + 1) % U64;
          vs.(same := same, velocity := if same >= 3 then (2 * vs.velocity) % U64 else vs.velocity);
      turned.(direction := newDirection, recordTime := now, recordedWindow := window)
  }

  function ChangeDirection(vs: VelocityState, direction: Direction, now: nat, window: nat): VelocityState {
    if vs.direction == direction then vs
    else VelocityState(1, direction, 0, window, now)
  }

  /** Before a step in `direction`: a high velocity meant for another direction is dropped. */
  function Redirect(vs: VelocityState, direction: Direction, now: nat, window: nat): VelocityState {
    if vs.direction != direction && vs.velocity > 1 then ChangeDirection(vs, direction, now, window) else vs
  }

  /** acks * MSS * MSS * velocity / (0.5 * window), the product in 64 bits. */
  function StepSize(acks: nat, velocity: nat, window: nat): nat
    requires window > 0
  {
    (2 * ((acks * MSS * MSS * velocity) % U64)) / window
  }

  /** addAndCheckOverflow and subtractAndCheckUnderflow on the window. */
  function AddChecked(s: Copa, amount: nat): Outcome {
    if U64 - 1 - amount < s.window then Failed(Overflow) else Ok(s.(window := s.window + amount))
  }

  function SubtractChecked(s: Copa, amount: nat): Outcome {
    if s.window < amount then Failed(Underflow) else Ok(s.(window := s.window - amount))
  }

  function IncreaseInSlowStart(s: Copa, o: Reading): Outcome {
    if s.lastDouble == 0 then Ok(s.(lastDouble := o.now))
    else if o.now - s.lastDouble > o.smoothed then
      var d :- AddChecked(s, s.window);
      Ok(d.(lastDouble := o.now))
    else Ok(s)
  }

  function Increase(s: Copa, acks: nat, o: Reading): Outcome
    requires s.window > 0
  {
    var vs := Redirect(s.vs, Up, o.now, s.window);
    AddChecked(s.(vs := vs), StepSize(acks, vs.velocity, s.window))
  }

  function Decrease(s: Copa, acks: nat, o: Reading): Outcome
    requires s.window > 0
  {
    var vs := Redirect(s.vs, Down, o.now, s.window);
    SubtractChecked(s.(vs := vs, slowStart := false),
                    Min(StepSize(acks, vs.velocity, s.window), (s.window - MIN_WINDOW) % U64))
  }

  function OnPacketAcked(s: Copa, acked: seq<nat>, o: Reading): Outcome
    requires s.window > 0
  {
    var s1 := s.(largestAcked := UpdateMaxAll(s.largestAcked, acked));
    if o.latest < o.least then Failed(NegativeDelay)
    else if o.standing == 0 then Failed(ZeroStanding)
    else
      var up := WantsIncrease(s.window, o.latest - o.least, o.standing);
      if up && s.slowStart then IncreaseInSlowStart(s1, o)
      else
        var s2 := s1.(vs := CheckAndUpdateDirection(s.vs, s.window, o.now, o.smoothed));
        if up then Increase(s2, |acked|, o) else Decrease(s2, |acked|, o)
  }

  function OnCongestionEvent(s: Copa, acked: seq<nat>, lost: seq<nat>, o: Reading): (r: Outcome)
    requires s.window > 0
  {
    WindowUntouched(s, lost);
    OnPacketAcked(OnPacketsLost(s, lost), acked, o)
  }

  /** Losses only move the marker: Copa never cuts its window for a loss. */
  lemma {:induction false} WindowUntouched(s: Copa, lost: seq<nat>)
    ensures OnPacketsLost(s, lost) == s.(cutback := MarkerAfter(s.cutback, s.largestSent, lost))
    decreases |lost|
  {
    if lost != [] {
      WindowUntouched(OnPacketLost(s, lost[0]), lost[1..]);
    }
  }

  function SetInitialWindow(s: Copa, packets: nat): Copa {
    if s.slowStart then
      var w := (packets * MSS) % U64;
      s.(initialWindow := w, window := w)
    else s
  }

  datatype Event =
    | Sent(packet: nat)
    | Congestion(acked: seq<nat>, lost: seq<nat>, reading: Reading)
    | SetInitial(packets: nat)
}
