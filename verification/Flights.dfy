/** Packet-number bookkeeping common to the two senders: quiche's QuicPacketNumber, the largest
    acknowledged number, and the cutback marker that makes all losses of a flight count once. */
module Flights {

  const MSS: nat := 1460         // kDefaultTCPMSS
  const MIN_WINDOW: nat := 4 * MSS  // kDefaultMinimumCongestionWindow

  /** QuicPacketNumber: possibly not initialised. */
  datatype PacketNumber = Unset | Number(value: nat)

  /** QuicPacketNumber::UpdateMax. */
  function UpdateMax(p: PacketNumber, n: nat): PacketNumber {
    if p.Number? && n <= p.value then p else Number(n)
  }

  function UpdateMaxAll(p: PacketNumber, ns: seq<nat>): PacketNumber
    decreases |ns|
  {
    if ns == [] then p else UpdateMaxAll(UpdateMax(p, ns[0]), ns[1..])
  }

  /** The largest acknowledged packet was sent no later than the last cutback. */
  predicate InRecovery(acked: PacketNumber, cutback: PacketNumber) {
    acked.Number? && cutback.Number? && acked.value <= cutback.value
  }

  /** The guard of both OnPacketLost: is this loss of a packet sent after the last cutback? */
  predicate StartsEpoch(cutback: PacketNumber, lost: nat) {
    !(cutback.Number? && lost <= cutback.value)
  }

  /** A cutback: the loss that caused it and the largest packet sent by then. */
  datatype Cut = Cut(lost: nat, marker: nat)

  /** The cutbacks a list of losses causes. */
  function CutsOf(cutback: PacketNumber, sent: nat, lost: seq<nat>): seq<Cut>
    decreases |lost|
  {
    if lost == [] then []
    else if StartsEpoch(cutback, lost[0]) then [Cut(lost[0], sent)] + CutsOf(Number(sent), sent, lost[1..])
    else CutsOf(cutback, sent, lost[1..])
  }

  /** The same, with nothing to cut back while nothing has been sent. */
  function CutsIn(cutback: PacketNumber, sent: PacketNumber, lost: seq<nat>): seq<Cut> {
    if sent.Number? then CutsOf(cutback, sent.value, lost) else []
  }

  function MarkerAfter(cutback: PacketNumber, sent: PacketNumber, lost: seq<nat>): PacketNumber
    decreases |lost|
  {
    if lost == [] then cutback
    else MarkerAfter(if StartsEpoch(cutback, lost[0]) then sent else cutback, sent, lost[1..])
  }

  ghost predicate SentBefore(ns: seq<nat>, sent: PacketNumber) {
    forall n | n in ns :: sent.Number? && n <= sent.value
  }

  /** One cutback per flight: each is caused by a packet sent after the previous cutback. */
  ghost predicate OnePerFlight(cuts: seq<Cut>) {
    && (forall i | 0 <= i < |cuts| :: cuts[i].lost <= cuts[i].marker)
    && (forall i, j | 0 <= i < j < |cuts| :: cuts[i].marker < cuts[j].lost)
  }

  /** The marker field is the marker of the last cutback, which is at most the largest sent. */
  ghost predicate MarkedBy(cutback: PacketNumber, sent: PacketNumber, cuts: seq<Cut>) {
    && cutback == (if cuts == [] then Unset else Number(cuts[|cuts| - 1].marker))
    && (cuts != [] ==> sent.Number? && cuts[|cuts| - 1].marker <= sent.value)
  }

  lemma {:induction false} LossesKeepEpochs(cuts: seq<Cut>, cutback: PacketNumber, sent: PacketNumber, lost: seq<nat>)
    requires OnePerFlight(cuts) && MarkedBy(cutback, sent, cuts) && SentBefore(lost, sent)
    requires lost != [] ==> sent.Number?
    ensures var all := cuts + (if lost == [] then [] else CutsOf(cutback, sent.value, lost));
            OnePerFlight(all) && MarkedBy(MarkerAfter(cutback, sent, lost), sent, all)
    decreases |lost|
  {
    if lost == [] {
      assert cuts + [] == cuts;
    } else {
      assert lost[0] in lost;
      assert SentBefore(lost[1..], sent) by {
        forall n | n in lost[1..] ensures n in lost {
        }
      }
      if StartsEpoch(cutback, lost[0]) {
        var more := cuts + [Cut(lost[0], sent.value)];
        LossesKeepEpochs(more, sent, sent, lost[1..]);
        assert more + CutsOf(sent, sent.value, lost[1..]) == cuts + CutsOf(cutback, sent.value, lost);
      } else {
        LossesKeepEpochs(cuts, cutback, sent, lost[1..]);
      }
    }
  }

  lemma EventKeepsEpochs(cuts: seq<Cut>, cutback: PacketNumber, sent: PacketNumber, lost: seq<nat>)
    requires OnePerFlight(cuts) && MarkedBy(cutback, sent, cuts) && SentBefore(lost, sent)
    ensures var all := cuts + CutsIn(cutback, sent, lost);
            OnePerFlight(all) && MarkedBy(MarkerAfter(cutback, sent, lost), sent, all)
  {
    assert lost != [] ==> lost[0] in lost;
    LossesKeepEpochs(cuts, cutback, sent, lost);
    assert cuts + [] == cuts;
  }

  // ------------------------------------------------------------ which losses count

  /** Some packet on the list was sent after the last cutback. */
  ghost predicate LostNewer(cutback: PacketNumber, lost: seq<nat>) {
    exists p | p in lost :: cutback == Unset || p > cutback.value
  }

  lemma {:induction false} OlderChangeNothing(marker: nat, sent: nat, lost: seq<nat>)
    requires forall p | p in lost :: p <= marker
    ensures MarkerAfter(Number(marker), Number(sent), lost) == Number(marker)
    ensures CutsOf(Number(marker), sent, lost) == []
    decreases |lost|
  {
    if lost != [] {
      assert lost[0] in lost;
      assert forall p | p in lost[1..] :: p in lost;
      OlderChangeNothing(marker, sent, lost[1..]);
    }
  }

  /** A list of lost packets causes exactly one cutback if some packet on it was sent after the last
      one, and then the marker is the largest sent packet; otherwise none, and the marker stays. */
  lemma {:induction false} OneCutIff(cutback: PacketNumber, sent: nat, lost: seq<nat>)
    requires forall p | p in lost :: p <= sent
    ensures |CutsOf(cutback, sent, lost)| == if LostNewer(cutback, lost) then 1 else 0
    ensures MarkerAfter(cutback, Number(sent), lost) == if LostNewer(cutback, lost) then Number(sent) else cutback
    decreases |lost|
  {
    if lost != [] {
      assert lost[0] in lost;
      assert forall p | p in lost[1..] :: p in lost;
      if cutback == Unset || lost[0] > cutback.value {
        OlderChangeNothing(sent, sent, lost[1..]);
        assert LostNewer(cutback, lost);
      } else {
        OneCutIff(cutback, sent, lost[1..]);
        NewerSplit(cutback, lost);
      }
    }
  }

  lemma NewerSplit(cutback: PacketNumber, lost: seq<nat>)
    requires lost != [] && cutback.Number? && lost[0] <= cutback.value
    ensures LostNewer(cutback, lost) <==> LostNewer(cutback, lost[1..])
  {
    assert lost == [lost[0]] + lost[1..];
    assert forall p | p in lost[1..] :: p in lost;
    assert forall p | p in lost :: p == lost[0] || p in lost[1..];
  }

  // ------------------------------------------------------------ the largest acknowledged packet

  /** It is the largest of all the packets acknowledged so far. */
  lemma {:induction false} LargestIs(p: PacketNumber, ns: seq<nat>)
    ensures UpdateMaxAll(p, ns) == Unset <==> p == Unset && ns == []
    ensures forall n | n in ns :: UpdateMaxAll(p, ns).Number? && n <= UpdateMaxAll(p, ns).value
    ensures p.Number? ==> UpdateMaxAll(p, ns).Number? && p.value <= UpdateMaxAll(p, ns).value
    ensures UpdateMaxAll(p, ns) == p || (UpdateMaxAll(p, ns).Number? && UpdateMaxAll(p, ns).value in ns)
    decreases |ns|
  {
    if ns != [] {
      LargestIs(UpdateMax(p, ns[0]), ns[1..]);
      assert ns == [ns[0]] + ns[1..];
    }
  }

  /** Recovery lasts from the first acknowledgement to the first of a packet sent after the cutback:
      after a cutback at `marker` it is on exactly while something, but nothing newer, has been
      acknowledged. */
  lemma RecoveryIff(marker: nat, before: PacketNumber, ns: seq<nat>)
    ensures InRecovery(UpdateMaxAll(before, ns), Number(marker)) <==>
              && (before.Number? || ns != [])
              && (before.Number? ==> before.value <= marker) && (forall n | n in ns :: n <= marker)
    ensures !InRecovery(UpdateMaxAll(before, ns), Unset)
  {
    LargestIs(before, ns);
  }
}
