/** The delay-gradient part of TcpCdgSenderBytes: the eight-slot ring of RTT gradients with its
    running sums. */
module CdgGradients {

  datatype MinMax = MinMax(min: int, max: int)

  function Plus(a: MinMax, b: MinMax): MinMax { MinMax(a.min + b.min, a.max + b.max) }
  function Minus(a: MinMax, b: MinMax): MinMax { MinMax(a.min - b.min, a.max - b.max) }

  const ZERO := MinMax(0, 0)

  /** The sum of a sequence of gradients. */
  function Total(gs: seq<MinMax>): MinMax {
    if gs == [] then ZERO else Plus(Total(gs[..|gs| - 1]), gs[|gs| - 1])
  }

  /** How many gradients have left the window of eight. */
  function Expired(count: nat): nat { if count <= 8 then 0 else count - 8 }

  /** The sum of the eight newest gradients, or of all while there are fewer. */
  function WindowSum(gs: seq<MinMax>): MinMax {
    Minus(Total(gs), Total(gs[..Expired(|gs|)]))
  }

  /** The k-th newest gradient, zero if there are not that many. */
  function Newest(gs: seq<MinMax>, k: nat): MinMax
    requires k >= 1
  {
    if k <= |gs| then gs[|gs| - k] else ZERO
  }

  /** The slot before the tail holds the newest gradient, and so on backwards round the ring. */
  ghost predicate RingHolds(slots: seq<MinMax>, tail: nat, gs: seq<MinMax>)
    requires |slots| == 8 && tail < 8
  {
    forall j | 0 <= j < 8 :: slots[j] == Newest(gs, if j < tail then tail - j else tail + 8 - j)
  }

  /** C++ division rounds towards zero. */
  function Truncate(a: int, b: nat): int
    requires b > 0
  {
    if a >= 0 then a / b else -((-a) / b)
  }

  /** The gradient handed on: the minimum's sum if it is positive, else the maximum's, scaled up
      while the ring is not yet full. */
  function Gradient(sum: MinMax, count: nat): int {
    var g := if sum.min > 0 then sum.min else sum.max;
    if 0 < count < 8 then Truncate(g * 8, count) else g
  }

  /** Which sum is handed on, and by how much it is scaled: once the ring is full the minimum's if it
      is positive and else the maximum's; before, eight times that over the number of gradients,
      rounded towards zero, as if the average so far had filled the ring. */
  lemma GradientIs(sum: MinMax, count: nat)
    ensures var g := if sum.min > 0 then sum.min else sum.max;
            var r := Gradient(sum, count);
            && (count == 0 || count >= 8 ==> r == g)
            && (0 < count < 8 && g >= 0 ==> r * count <= g * 8 < (r + 1) * count)
            && (0 < count < 8 && g <= 0 ==> (r - 1) * count < g * 8 <= r * count)
  {
  }

  class CdgWindow {
    const slots: array<MinMax>  // gradients_
    var sum: MinMax             // cdg_gsum_
    var tail: nat
    var filled: bool
    var backoffCount: nat
    ghost var gradients: seq<MinMax>

    ghost predicate Ring()
      reads this, slots
    {
      && slots.Length == 8 && tail == |gradients| % 8
      && RingHolds(slots[..], tail, gradients)
      && sum == Total(slots[..]) == WindowSum(gradients)
    }

    ghost predicate Valid()
      reads this, slots
    {
      Ring() && (filled <==> |gradients| >= 8)
    }

    constructor ()
      ensures Valid() && gradients == [] && fresh(slots)
    {
      hide RingHolds, Total, WindowSum;
      slots := new MinMax[8](_ => ZERO);
      sum, tail, filled, backoffCount, gradients := ZERO, 0, false, 0, [];
      new;
      FreshRing(slots[..]);
    }

    /** One call of CalculateGrad: the oldest slot makes room for the newest gradient. */
    method CalculateGrad(rtt: MinMax, previous: MinMax) returns (grad: int)
      requires Valid()
      modifies this, slots
      ensures Valid() && gradients == old(gradients) + [Minus(rtt, previous)]
      ensures grad == Gradient(sum, |gradients|)
      ensures backoffCount == if sum.min <= 0 || sum.max <= 0 then 0 else old(backoffCount)
    {
      hide RingHolds, Total, WindowSum;
      Push(Minus(rtt, previous));
      grad := if sum.min > 0 then sum.min else sum.max;
      if !filled {
        if tail == 0 {
          filled := true;
        } else {
          grad := Truncate(grad * 8, tail);
        }
      }
      if sum.min <= 0 || sum.max <= 0 {
        backoffCount := 0;
      }
    }

    /** The sums, the slot at the tail and the tail itself. */
    method Push(g: MinMax)
      requires Ring()
      modifies this`sum, this`tail, this`gradients, slots
      ensures Ring() && gradients == old(gradients) + [g]
    {
      hide RingHolds, Total, WindowSum, Newest, Plus, Minus;
      ghost var ring := slots[..];
      RingTurns(ring, tail, gradients, g);
      TotalOfUpdate(ring, tail, g);
      WindowMoves(gradients, g);
      sum := Plus(sum, Minus(g, slots[tail]));
      slots[tail] := g;
      gradients := gradients + [g];
      tail := (tail + 1) % 8;
    }
  }

  lemma {:induction false} TotalOfZeros(s: seq<MinMax>)
    requires forall x | x in s :: x == ZERO
    ensures Total(s) == ZERO
  {
    if s != [] {
      var front := s[..|s| - 1];
      assert forall x | x in front :: x in s;
      assert s[|s| - 1] in s;
      TotalOfZeros(front);
    }
  }

  lemma FreshRing(slots: seq<MinMax>)
    requires |slots| == 8 && forall x | x in slots :: x == ZERO
    ensures RingHolds(slots, 0, []) && Total(slots) == WindowSum([]) == ZERO
  {
    TotalOfZeros(slots);
    hide Total;
    forall j | 0 <= j < 8 ensures slots[j] == Newest([], 8 - j) {
      assert slots[j] in slots;
    }
  }

  lemma {:induction false} TotalOfUpdate(s: seq<MinMax>, i: nat, x: MinMax)
    requires i < |s|
    ensures Total(s[i := x]) == Plus(Total(s), Minus(x, s[i]))
  {
    var n := |s| - 1;
    if i < n {
      assert s[i := x][..n] == s[..n][i := x];
      TotalOfUpdate(s[..n], i, x);
    } else {
      assert s[i := x][..n] == s[..n];
    }
  }

  /** Writing at the tail and moving it on makes every other gradient one older; the slot written
      over is the one whose gradient expires. */
  lemma RingTurns(ring: seq<MinMax>, tail: nat, gs: seq<MinMax>, x: MinMax)
    requires |ring| == 8 && tail < 8 && RingHolds(ring, tail, gs)
    ensures ring[tail] == Newest(gs, 8)
    ensures RingHolds(ring[tail := x], (tail + 1) % 8, gs + [x])
  {
  }

  lemma WindowMoves(gs: seq<MinMax>, x: MinMax)
    ensures WindowSum(gs + [x]) == Plus(WindowSum(gs), Minus(x, Newest(gs, 8)))
  {
    var all, n := gs + [x], |gs|;
    assert all[..n] == gs;
    if n >= 8 {
      var m := n - 8;
      assert all[..m + 1][..m] == gs[..m] && all[..m + 1][m] == gs[m];
    } else {
      assert all[..0] == [] && gs[..0] == [];
    }
  }

  /** The gradients of a chain of calls, each starting from the RTT the last one ended with. */
  function Chain(rtts: seq<MinMax>): (r: seq<MinMax>)
    requires rtts != []
    ensures |r| == |rtts| - 1
  {
    if |rtts| == 1 then []
    else Chain(rtts[..|rtts| - 1]) + [Minus(rtts[|rtts| - 1], rtts[|rtts| - 2])]
  }

  lemma {:induction false} ChainTotal(rtts: seq<MinMax>)
    requires rtts != []
    ensures Total(Chain(rtts)) == Minus(rtts[|rtts| - 1], rtts[0])
  {
    var n := |rtts| - 1;
    if n > 0 {
      var front := Chain(rtts[..n]);
      ChainTotal(rtts[..n]);
      assert Chain(rtts)[..n - 1] == front;
    }
  }

  lemma {:induction false} ChainPrefix(rtts: seq<MinMax>, m: nat)
    requires m < |rtts|
    ensures Chain(rtts)[..m] == Chain(rtts[..m + 1])
  {
    var n := |rtts| - 1;
    if m < n {
      ChainPrefix(rtts[..n], m);
      assert rtts[..n][..m + 1] == rtts[..m + 1];
    } else {
      assert rtts[..m + 1] == rtts;
    }
  }

  /** Chained gradients telescope: the window's sum is the RTT now minus the RTT eight calls ago,
      or minus the first one while there have been fewer calls. */
  lemma SumTelescopes(rtts: seq<MinMax>)
    requires rtts != []
    ensures var n := |rtts| - 1;
            WindowSum(Chain(rtts)) == Minus(rtts[n], rtts[if n >= 8 then n - 8 else 0])
  {
    hide Chain, Total;
    var m := Expired(|rtts| - 1);
    ChainTotal(rtts);
    ChainTotal(rtts[..m + 1]);
    ChainPrefix(rtts, m);
  }

  predicate Within(g: MinMax, bound: int) {
    -bound < g.min < bound && -bound < g.max < bound
  }

  lemma {:induction false} ChainWithin(rtts: seq<MinMax>, bound: int)
    requires rtts != [] && forall r | r in rtts :: 0 <= r.min < bound && 0 <= r.max < bound
    ensures forall g | g in Chain(rtts) :: Within(g, bound)
  {
    var n := |rtts| - 1;
    if n > 0 {
      assert rtts[n] in rtts && rtts[n - 1] in rtts;
      assert forall r | r in rtts[..n] :: r in rtts;
      ChainWithin(rtts[..n], bound);
    }
  }

  /** The code computes in 32-bit ints. With chained calls and RTTs below 2^28 microseconds (268 s)
      every gradient, every difference of two and eight times the sum fit. */
  lemma SumsFit(rtts: seq<MinMax>)
    requires rtts != [] && forall r | r in rtts :: 0 <= r.min < 0x1000_0000 && 0 <= r.max < 0x1000_0000
    ensures forall g | g in Chain(rtts) :: Within(g, 0x1000_0000)
    ensures forall g, h | g in Chain(rtts) && h in Chain(rtts) :: Within(Minus(g, h), 0x8000_0000)
    ensures var sum := WindowSum(Chain(rtts));
            Within(MinMax(sum.min * 8, sum.max * 8), 0x8000_0000)
  {
    ChainWithin(rtts, 0x1000_0000);
    SumTelescopes(rtts);
    var n := |rtts| - 1;
    assert rtts[n] in rtts && rtts[if n >= 8 then n - 8 else 0] in rtts;
  }
}
