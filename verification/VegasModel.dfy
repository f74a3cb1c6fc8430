/** VegasSender as a state machine. RTTs are microseconds; window and RTT arithmetic is the 64-bit
    arithmetic of the code. */
module VegasModel {
  import opened Arithmetic
  import opened Flights

  const ALPHA: nat := 2 * MSS
  const BETA: nat := 4 * MSS
  const GAMMA: nat := MSS
  const INFINITE: nat := 0x7fff_ffff_ffff_ffff       // QuicTime::Delta::Infinite()

  datatype Vegas = Vegas(
    window: nat,
    threshold: nat,
    minRtt: nat,
    rttCount: nat,
    roundMark: PacketNumber,   // beg_send_next_
    ackCount: nat,             // num_acked_packets_
    vegasMode: bool,
    largestSent: PacketNumber,
    largestAcked: PacketNumber,
    cutback: PacketNumber)

  datatype Fault = NoRoundMark | BaseAboveMin | DivideByZero

  datatype Outcome = Ok(state: Vegas) | Failed(fault: Fault) {
    predicate IsFailure() { Failed? }
    function PropagateFailure(): Outcome requires Failed? { this }
    function Extract(): Vegas requires Ok? { state }
  }

  function NewVegas(initialPackets: nat, maxPackets: nat): Vegas {
    Vegas((initialPackets * MSS) % U64, (maxPackets * MSS) % U64, INFINITE, 0, Unset, 0, true, Unset, Unset, Unset)
  }

  predicate InSlowStart(s: Vegas) { s.window < s.threshold }

  predicate Recovering(s: Vegas) { InRecovery(s.largestAcked, s.cutback) }

  function OnPacketSent(s: Vegas, packet: nat): Vegas {
    s.(largestSent := Number(packet), roundMark := if s.roundMark.Unset? then Number(packet) else s.roundMark)
  }

  function OnPacketLost(s: Vegas, packet: nat): Vegas {
    if !StartsEpoch(s.cutback, packet) then s
    else
      var w := Max(s.window / 2, MIN_WINDOW);
      s.(window := w, threshold := w, cutback := s.largestSent, ackCount := 0)
  }

  function OnPacketsLost(s: Vegas, lost: seq<nat>): Vegas
    decreases |lost|
  {
    if lost == [] then s else OnPacketsLost(OnPacketLost(s, lost[0]), lost[1..])
  }

  /** One packet more, in 64 bits. */
  function Grow(s: Vegas): Vegas {
    s.(window := (s.window + MSS) % U64)
  }

  function IncreaseAsReno(s: Vegas): Vegas {
    if InSlowStart(s) then Grow(s)
    else
      var acks := (s.ackCount + 1) % U64;
      if (acks * MSS) % U64 >= s.window then Grow(s).(ackCount := 0) else s.(ackCount := acks)
  }

  /** window * base / min, rounded up to whole packets. */
  function Target(window: nat, base: nat, least: nat): nat
    requires least > 0
  {
    (((window * base) % U64 / least + MSS - 1) % U64 / MSS) * MSS
  }

  /** The packets (in bytes) that the extra delay keeps in queues. */
  function Queued(window: nat, base: nat, least: nat): nat
    requires 0 < base <= least
  {
    (window * (least - base)) % U64 / base
  }

  /** The decision at the end of a round with enough samples. */
  function Decide(s: Vegas, base: nat): Vegas
    requires 0 < base <= s.minRtt
  {
    var queued := Queued(s.window, base, s.minRtt);
    if queued > GAMMA && InSlowStart(s) then
      var w := Min(s.window, Target(s.window, base, s.minRtt));
      s.(window := w, threshold := w)
    else if InSlowStart(s) then Grow(s)
    else if queued > BETA then
      if s.window > MIN_WINDOW then s.(window := s.window - MSS) else s
    else if queued < ALPHA then Grow(s)
    else s
  }

  function EndRound(s: Vegas, base: nat): Outcome {
    var s1 := s.(roundMark := s.largestSent);
    if s.rttCount <= 2 then Ok(IncreaseAsReno(s1).(minRtt := INFINITE, rttCount := 0))
    else if s.minRtt == 0 || base == 0 then Failed(DivideByZero)
    else if s.minRtt < base then Failed(BaseAboveMin)
    else Ok(Decide(s1, base).(minRtt := INFINITE, rttCount := 0))
  }

  function OnPacketAcked(s: Vegas, packet: nat, base: nat): Outcome {
    var s1 := s.(largestAcked := UpdateMax(s.largestAcked, packet));
    if !s.vegasMode then Ok(IncreaseAsReno(s1))
    else if s.roundMark.Unset? then Failed(NoRoundMark)
    else
      var s2 :- if packet >= s.roundMark.value then EndRound(s1, base)
                else if InSlowStart(s1) then Ok(Grow(s1))
                else Ok(s1);
      Ok(s2.(window := Max(s2.window, MIN_WINDOW)))
  }

  function OnPacketsAcked(s: Vegas, acked: seq<nat>, base: nat): Outcome
    decreases |acked|
  {
    if acked == [] then Ok(s) else
      var s1 :- OnPacketAcked(s, acked[0], base);
      OnPacketsAcked(s1, acked[1..], base)
  }

  /** The RTT sample of an event that acknowledges something; one microsecond is added so that
      it is never zero. */
  function TakeSample(s: Vegas, latest: nat): Vegas {
    s.(minRtt := Min(s.minRtt, latest + 1), rttCount := s.rttCount + 1)
  }

  /** Vegas is switched off on entering recovery, and on again, with a fresh round, on leaving. */
  function SwitchMode(s: Vegas, before: bool): Vegas {
    if Recovering(s) == before then s
    else if Recovering(s) then s.(vegasMode := false)
    else s.(vegasMode := true, roundMark := s.largestSent, minRtt := INFINITE, rttCount := 0)
  }

  /** `latest` is RttStats' latest RTT, `base` the best of the base RTT filter after the event's
      own sample went in. */
  function OnCongestionEvent(s: Vegas, acked: seq<nat>, lost: seq<nat>, latest: nat, base: nat): Outcome {
    var s1 := if acked != [] then TakeSample(s, latest) else s;
    var s2 :- OnPacketsAcked(OnPacketsLost(s1, lost), acked, base);
    Ok(SwitchMode(s2, Recovering(s)))
  }

  function SetInitialWindow(s: Vegas, packets: nat): Vegas {
    if InSlowStart(s) then s.(window := (packets * MSS) % U64) else s
  }

  datatype Event =
    | Sent(packet: nat)
    | Congestion(acked: seq<nat>, lost: seq<nat>, latest: nat, base: nat)
    | SetInitial(packets: nat)
}
