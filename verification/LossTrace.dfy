/** Ns3QuicServerTrace's loss accounting: three counters fed one arriving sequence number at a
    time, against the set of sequence numbers that are really missing. */
module LossTrace {

  datatype Counters = Counters(last: int, largest: int, lost: int)

  function Arrive(c: Counters, seq_: int): Counters {
    Counters(
      if seq_ > c.last then seq_ else c.last,
      if seq_ > c.largest then seq_ else c.largest,
      if seq_ > c.last - 1 then c.lost + (seq_ - c.last - 1) else c.lost)
  }

  function After(arrivals: seq<int>): Counters {
    if arrivals == [] then Counters(0, 0, 0)
    else Arrive(After(arrivals[..|arrivals| - 1]), arrivals[|arrivals| - 1])
  }

  class ServerTrace {
    const lossFileOpen: bool
    var lastSeq: int
    var largestSeq: int
    var lostPackets: int
    ghost var arrivals: seq<int>

    ghost predicate Valid()
      reads this
    {
      Counters(lastSeq, largestSeq, lostPackets) == After(if lossFileOpen then arrivals else [])
    }

    constructor (lossFileOpen: bool)
      ensures Valid() && arrivals == [] && this.lossFileOpen == lossFileOpen
    {
      this.lossFileOpen := lossFileOpen;
      lastSeq, largestSeq, lostPackets, arrivals := 0, 0, 0, [];
    }

    /** The loss part of OnOwd. */
    method OnOwd(s: int)
      requires Valid()
      modifies this
      ensures Valid() && arrivals == old(arrivals) + [s]
    {
      assert (arrivals + [s])[..|arrivals|] == arrivals;
      arrivals := arrivals + [s];
      if lossFileOpen {
        if s > lastSeq - 1 {
          var lost := s - lastSeq - 1;
          lostPackets := lostPackets + lost;
        }
        if s > lastSeq {
          lastSeq := s;
        }
        if s > largestSeq {
          largestSeq := s;
        }
      }
    }
  }

  // ------------------------------------------------------------ what the counters count

  /** The largest sequence number so far, 0 at first. */
  function Largest(arrivals: seq<int>): int {
    if arrivals == [] then 0
    else
      var m, x := Largest(arrivals[..|arrivals| - 1]), arrivals[|arrivals| - 1];
      if x > m then x else m
  }

  /** Arrivals that are larger than everything before them. */
  function Records(arrivals: seq<int>): nat {
    if arrivals == [] then 0
    else
      var front := arrivals[..|arrivals| - 1];
      Records(front) + if arrivals[|arrivals| - 1] > Largest(front) then 1 else 0
  }

  /** Arrivals that repeat the largest number so far. */
  function Repeats(arrivals: seq<int>): nat {
    if arrivals == [] then 0
    else
      var front := arrivals[..|arrivals| - 1];
      Repeats(front) + if arrivals[|arrivals| - 1] == Largest(front) then 1 else 0
  }

  function Received(arrivals: seq<int>): set<int> {
    set x | x in arrivals
  }

  /** The set of 1, ..., n. */
  function UpTo(n: int): (r: set<int>)
    ensures forall x :: x in r <==> 1 <= x <= n
    ensures |r| == if n <= 0 then 0 else n
    decreases if n <= 0 then 0 else n
  {
    if n <= 0 then {} else UpTo(n - 1) + {n}
  }

  /** The sequence numbers 1 to the largest that have not arrived. */
  function Missing(arrivals: seq<int>): set<int> {
    UpTo(Largest(arrivals)) - Received(arrivals)
  }

  ghost predicate Distinct(arrivals: seq<int>) {
    forall i, j | 0 <= i < j < |arrivals| :: arrivals[i] != arrivals[j]
  }

  ghost predicate Positive(arrivals: seq<int>) {
    forall x | x in arrivals :: x >= 1
  }

  ghost predicate Increasing(arrivals: seq<int>) {
    forall i, j | 0 <= i < j < |arrivals| :: arrivals[i] < arrivals[j]
  }

  /** For any arrivals whatever: every record and every repeat of the current maximum takes one
      off the largest number; nothing else is counted. */
  lemma {:induction false} CountersMean(arrivals: seq<int>)
    ensures After(arrivals) ==
            Counters(Largest(arrivals), Largest(arrivals), Largest(arrivals) - Records(arrivals) - Repeats(arrivals))
  {
    if arrivals != [] {
      CountersMean(arrivals[..|arrivals| - 1]);
    }
  }

  lemma {:induction false} LargestBounds(arrivals: seq<int>)
    ensures Largest(arrivals) >= 0
    ensures forall x | x in arrivals :: x <= Largest(arrivals)
    ensures Largest(arrivals) > 0 ==> Largest(arrivals) in arrivals
  {
    if arrivals != [] {
      var front, last := arrivals[..|arrivals| - 1], arrivals[|arrivals| - 1];
      LargestBounds(front);
      assert arrivals == front + [last];
    }
  }

  /** The true number of losses, from the numbers received. */
  lemma MissingCount(arrivals: seq<int>)
    requires Positive(arrivals)
    ensures |Missing(arrivals)| == Largest(arrivals) - |Received(arrivals)|
  {
    LargestBounds(arrivals);
    var range := UpTo(Largest(arrivals));
    forall x | x in Received(arrivals) ensures x in range {
      assert x in arrivals;
    }
    assert range == Missing(arrivals) + Received(arrivals);
  }

  lemma {:induction false} DistinctCount(arrivals: seq<int>)
    requires Distinct(arrivals)
    ensures |Received(arrivals)| == |arrivals|
  {
    if arrivals != [] {
      var front, last := arrivals[..|arrivals| - 1], arrivals[|arrivals| - 1];
      assert arrivals == front + [last];
      DistinctCount(front);
      assert last !in front;
      assert Received(arrivals) == Received(front) + {last};
    }
  }

  lemma FrontPositive(arrivals: seq<int>)
    requires Positive(arrivals) && arrivals != []
    ensures Positive(arrivals[..|arrivals| - 1])
  {
    var front := arrivals[..|arrivals| - 1];
    forall x | x in front ensures x >= 1 {
      assert x in arrivals;
    }
  }

  lemma {:induction false} NoRepeats(arrivals: seq<int>)
    requires Distinct(arrivals) && Positive(arrivals)
    ensures Repeats(arrivals) == 0
  {
    if arrivals != [] {
      var front, last := arrivals[..|arrivals| - 1], arrivals[|arrivals| - 1];
      FrontPositive(arrivals);
      assert arrivals == front + [last];
      NoRepeats(front);
      LargestBounds(front);
      assert last in arrivals;
      assert last !in front;
    }
  }

  lemma {:induction false} RecordsIncreasing(arrivals: seq<int>)
    requires Positive(arrivals)
    ensures Records(arrivals) <= |arrivals|
    ensures Records(arrivals) == |arrivals| <==> Increasing(arrivals)
  {
    if arrivals != [] {
      var n := |arrivals| - 1;
      var front, last := arrivals[..n], arrivals[n];
      FrontPositive(arrivals);
      RecordsIncreasing(front);
      LargestBounds(front);
      IncreasingStep(front, last, arrivals);
    }
  }

  lemma IncreasingStep(front: seq<int>, last: int, arrivals: seq<int>)
    requires arrivals == front + [last] && Positive(arrivals)
    requires forall x | x in front :: x <= Largest(front)
    requires Largest(front) >= 0 && (Largest(front) > 0 ==> Largest(front) in front)
    ensures Increasing(arrivals) <==> Increasing(front) && last > Largest(front)
  {
    hide Largest;
    var m, n := Largest(front), |front|;
    assert arrivals[n] == last && last in arrivals;
    if Increasing(arrivals) {
      forall i, j | 0 <= i < j < n ensures front[i] < front[j] {
        assert arrivals[i] < arrivals[j];
      }
      if m > 0 {
        var k :| 0 <= k < n && front[k] == m;
        assert arrivals[k] < arrivals[n];
      }
    }
    if Increasing(front) && last > m {
      forall i, j | 0 <= i < j < |arrivals| ensures arrivals[i] < arrivals[j] {
        assert arrivals[i] == front[i] && front[i] in front;
        assert j < n ==> arrivals[j] == front[j];
      }
    }
  }

  /** For distinct sequence numbers in any order the count exceeds the true number of losses by
      exactly the number of late arrivals, those that were not records. */
  lemma ExactUpToReordering(arrivals: seq<int>)
    requires Distinct(arrivals) && Positive(arrivals)
    ensures After(arrivals).lost == Largest(arrivals) - Records(arrivals)
    ensures After(arrivals).lost == |Missing(arrivals)| + (|arrivals| - Records(arrivals))
  {
    CountersMean(arrivals);
    NoRepeats(arrivals);
    MissingCount(arrivals);
    DistinctCount(arrivals);
  }

  /** So among distinct arrivals it is right exactly for those in increasing order. */
  lemma RightIffInOrder(arrivals: seq<int>)
    requires Distinct(arrivals) && Positive(arrivals)
    ensures After(arrivals).lost == |Missing(arrivals)| <==> Increasing(arrivals)
  {
    ExactUpToReordering(arrivals);
    RecordsIncreasing(arrivals);
  }

  /** With repeated numbers allowed: it is right exactly when the numbers received are as many as
      the records and the repeats of the current maximum together. */
  lemma RightIffBalanced(arrivals: seq<int>)
    requires Positive(arrivals)
    ensures After(arrivals).lost == |Missing(arrivals)| <==>
              |Received(arrivals)| == Records(arrivals) + Repeats(arrivals)
  {
    CountersMean(arrivals);
    MissingCount(arrivals);
  }

  lemma {:induction false} CountedOnce(arrivals: seq<int>)
    ensures Records(arrivals) + Repeats(arrivals) <= |arrivals|
  {
    if arrivals != [] {
      CountedOnce(arrivals[..|arrivals| - 1]);
    }
  }

  const I32: int := 0x8000_0000

  /** The counters of the code are ints. They hold these values exactly as long as records and
      repeats together exceed the largest number by no more than 2^31; it takes more than 2^31
      arrivals to break that. */
  lemma CountersFit(arrivals: seq<int>)
    requires forall x | x in arrivals :: x < I32
    ensures 0 <= After(arrivals).last == After(arrivals).largest < I32 && After(arrivals).lost < I32
    ensures After(arrivals).lost >= -I32 <==> Records(arrivals) + Repeats(arrivals) <= Largest(arrivals) + I32
    ensures |arrivals| <= I32 ==> After(arrivals).lost >= -I32
  {
    CountersMean(arrivals);
    LargestBounds(arrivals);
    CountedOnce(arrivals);
  }

  /** A repeat of the current maximum takes one loss off the count although nothing new arrived. */
  lemma RepeatLowersCount(arrivals: seq<int>)
    requires Positive(arrivals) && arrivals != []
    ensures var again := arrivals + [Largest(arrivals)];
            && After(again).lost == After(arrivals).lost - 1
            && Missing(again) == Missing(arrivals)
  {
    var m := Largest(arrivals);
    var again := arrivals + [m];
    assert again[..|arrivals|] == arrivals;
    CountersMean(arrivals);
    CountersMean(again);
    LargestBounds(arrivals);
    assert 1 <= arrivals[0] <= m by {
      assert arrivals[0] in arrivals;
    }
    assert m in arrivals;
    assert Received(again) == Received(arrivals);
  }
}
