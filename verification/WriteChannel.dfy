/** BandwidthWriteChannel: writes packets when started, on a 50 ms alarm and when the stream can
    take more, and counts the bytes in 32 bits. */
module WriteChannel {
  import opened AlarmQueue
  import opened AlarmInvariant
  import opened AlarmCommands
  import opened PeriodicClient
  import opened AlarmEngine
  import M = AlarmModel

  const WRITE_PACKETS := 6

  /** How many writes the stream accepts before its first refusal. */
  function Accepted(flags: seq<bool>): (n: nat)
    ensures n <= |flags|
    ensures forall i | 0 <= i < n :: flags[i]
    ensures n < |flags| ==> !flags[n]
  {
    if flags == [] || !flags[0] then 0 else 1 + Accepted(flags[1..])
  }

  lemma {:induction false} AcceptedIs(flags: seq<bool>, n: nat)
    requires n <= |flags| && (forall i | 0 <= i < n :: flags[i]) && (n < |flags| ==> !flags[n])
    ensures Accepted(flags) == n
  {
  }

  lemma WrapAdd(x: nat)
    ensures (x % 0x1_0000_0000 + 1500) % 0x1_0000_0000 == (x + 1500) % 0x1_0000_0000
  {
  }

  class BandwidthWriteChannel {
    const hasStream: bool
    const alarm: Ns3Alarm
    var writeBytes: nat            // uint32_t write_bytes_
    ghost var written: nat         // packets the stream has accepted

    ghost predicate Valid()
      reads this
    {
      writeBytes == (1500 * written) % 0x1_0000_0000
    }

    constructor (hasStream: bool, alarm: Ns3Alarm)
      ensures Valid() && written == 0 && this.hasStream == hasStream && this.alarm == alarm
    {
      this.hasStream, this.alarm := hasStream, alarm;
      writeBytes, written := 0, 0;
    }

    /** Up to six packets, stopping at the stream's first refusal; `accepts` is how the stream
        would answer each of them. */
    method WriteData(accepts: seq<bool>)
      requires Valid() && |accepts| == WRITE_PACKETS
      modifies this
      ensures Valid() && written == old(written) + (if hasStream then Accepted(accepts) else 0)
      ensures written <= old(written) + WRITE_PACKETS
    {
      if hasStream {
        var i := 0;
        while i < WRITE_PACKETS
          invariant 0 <= i <= WRITE_PACKETS && Valid()
          invariant written == old(written) + i
          invariant forall k | 0 <= k < i :: accepts[k]
        {
          var success := accepts[i];
          if !success {
            break;
          }
          writeBytes := (writeBytes + 1500) % 0x1_0000_0000;
          WrapAdd(1500 * written);
          written := written + 1;
          i := i + 1;
        }
        AcceptedIs(accepts, i);
      }
    }

    method StartFillData(accepts: seq<bool>)
      requires Valid() && |accepts| == WRITE_PACKETS
      requires alarm.home.Valid() && alarm in alarm.home.views && Inv(alarm.home.State(), [], true)
      requires alarm.deadline == 0
      modifies this, alarm, alarm.home
      ensures Valid() && written == old(written) + (if hasStream then Accepted(accepts) else 0)
      ensures alarm.home.Valid()
      ensures M.Exec(old(alarm.home.State()), M.Set(alarm, M.NowUs(old(alarm.home.State())) + PERIOD))
              == M.Ok(alarm.home.State())
    {
      WriteData(accepts);
      var nowUs := M.Micros(alarm.home.sim.now);
      alarm.Set(nowUs + PERIOD, [], true);
    }

    /** The alarm's callback: write, then re-arm one period ahead. */
    method OnTimeout(accepts: seq<bool>, ghost batch: seq<Entry<Ns3Alarm>>)
      requires Valid() && |accepts| == WRITE_PACKETS
      requires alarm.home.Valid() && alarm in alarm.home.views && Inv(alarm.home.State(), batch, false)
      requires !alarm.registered && alarm.deadline == 0
      modifies this, alarm.home, alarm.home.views.Keys
      ensures Valid() && written == old(written) + (if hasStream then Accepted(accepts) else 0)
      ensures alarm.home.Valid()
      ensures var s := old(alarm.home.State());
              M.ExecAll(s, [M.Update(alarm, M.NowUs(s) + PERIOD, GRANULARITY)]) == M.Ok(alarm.home.State())
      ensures Rearms([M.Update(alarm, M.NowUs(old(alarm.home.State())) + PERIOD, GRANULARITY)], alarm,
                     M.NowUs(old(alarm.home.State())))
    {
      ghost var s := alarm.home.State();
      var nowUs := M.Micros(alarm.home.sim.now);
      WriteData(accepts);
      alarm.Update(nowUs + PERIOD, GRANULARITY, batch, false);
      ghost var c := M.Update(alarm, nowUs + PERIOD, GRANULARITY);
      assert M.ExecAll(alarm.home.State(), [c][1..]) == M.Ok(alarm.home.State());
    }

    method OnCanWrite(accepts: seq<bool>)
      requires Valid() && |accepts| == WRITE_PACKETS
      modifies this
      ensures Valid() && written == old(written) + (if hasStream then Accepted(accepts) else 0)
    {
      WriteData(accepts);
    }

    /** Also reached from the callback of another alarm, when a connection closes; then the
        channel's own alarm must not be waiting for its call (DestroyedInPass). Between passes none
        is. */
    method OnDestroy(ghost batch: seq<Entry<Ns3Alarm>>, ghost idle: bool)
      requires alarm.home.Valid() && alarm in alarm.home.views && Inv(alarm.home.State(), batch, idle)
      requires if idle then batch == [] else !AwaitsCall(alarm.home.State(), alarm)
      modifies alarm.home, alarm.home.views.Keys
      ensures alarm.home.Valid()
      ensures M.Exec(old(alarm.home.State()), M.Cancel(alarm)) == M.Ok(alarm.home.State())
    {
      if idle {
        NeverAwaits(alarm.home.State(), alarm);
      }
      if alarm.deadline != 0 {
        alarm.Cancel(batch, idle);
      }
    }
  }

  /** Between passes no alarm awaits its call. */
  lemma NeverAwaits(s: M.Engine<Ns3Alarm>, a: Ns3Alarm)
    requires Inv(s, [], true) && a in s.alarms
    ensures !AwaitsCall(s, a)
  {
  }
}
