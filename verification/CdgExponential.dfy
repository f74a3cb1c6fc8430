/** nexp_u32, the fixed-point exponential behind CDG's backoff probability. */
module CdgExponential {
  import opened Arithmetic


  /** exp(-x) * 65536 - 1 for x = 0, 0.000256, 0.000512, ... */
  const TABLE: seq<nat> :=
    [65535, 65518, 65501, 65468, 65401, 65267, 65001, 64470, 63422, 61378, 57484, 50423, 38795, 22965, 8047, 987, 14]

  const U32_MAX: nat := 0xffff_ffff

  /** The low eight bits, scaled linearly. */
  function Scaled(ux: nat): nat
  {
    0xffff_ffff - (ux % 256) * 4294
  }

  /** 2^(17 - i): before step i of the loop, the bound on the bits still to be looked at. */
  const ROOM: seq<nat> :=
    [131072, 65536, 32768, 16384, 8192, 4096, 2048, 1024, 512, 256, 128, 64, 32, 16, 8, 4, 2, 1]

  lemma RoomHalves(i: nat)
    requires i <= 16
    ensures ROOM[i] == 2 * ROOM[i + 1]
  {
  }

  /** One step of the loop: the table entry of a set bit, or nearly nothing. */
  function Factor(msb: nat, i: nat): (y: nat)
    requires i <= 16
    ensures y <= 65536
  {
    TABLE[if msb % 2 == 1 then i else 0] + 1
  }

  /** The product over the set bits of `msb`, bit j taking table entry i + j. */
  function Multiply(res: nat, msb: nat, i: nat): nat
    decreases msb
  {
    if msb == 0 || i > 16 then res
    else Multiply((res * Factor(msb, i)) / 65536, msb / 2, i + 1)
  }

  function Nexp(ux: nat): nat {
    if ux >= 0x100_0000 then 0 else Multiply(Scaled(ux), ux / 256, 1)
  }

  /** Before step i at most 17 - i bits are left. */
  ghost predicate Fits(msb: nat, i: nat) { 1 <= i <= 17 && msb < ROOM[i] }

  /** nexp_u32; every table index is within the seventeen entries. */
  method NexpU32(ux: nat) returns (r: nat)
    requires ux <= U32_MAX
    ensures r == Nexp(ux) && r <= U32_MAX
  {
    var msb: nat := ux / 256;
    if msb > 65535 {
      return 0;
    }
    LoopStart(ux);
    var res: nat := 0xffff_ffff - (ux % 256) * (0xffff_ffff / 1000000);
    var i: nat := 1;
    hide Multiply, Nexp, Factor, Fits;
    while msb > 0
      invariant Fits(msb, i) && res <= U32_MAX
      invariant Multiply(res, msb, i) == Nexp(ux)
      decreases msb
    {
      LoopStep(res, msb, i);
      var index: nat := if msb % 2 == 1 then i else 0;
      var y := TABLE[index] + 1;
      res := (res * y) / 65536;
      i := i + 1;
      msb := msb / 2;
    }
    EndOfLoop(res, i);
    return res;
  }

  lemma LoopStart(ux: nat)
    requires ux / 256 <= 65535
    ensures Fits(ux / 256, 1) && Multiply(Scaled(ux), ux / 256, 1) == Nexp(ux)
  {
    hide Multiply;
  }

  lemma LoopStep(res: nat, msb: nat, i: nat)
    requires Fits(msb, i) && msb > 0
    ensures i <= 16 && Fits(msb / 2, i + 1)
    ensures TABLE[if msb % 2 == 1 then i else 0] + 1 == Factor(msb, i)
    ensures var r := (res * Factor(msb, i)) / 65536;
            r <= res && Multiply(res, msb, i) == Multiply(r, msb / 2, i + 1)
  {
    assert ROOM[17] == 1;
    RoomHalves(i);
    ShrinksBy(res, Factor(msb, i));
  }

  lemma EndOfLoop(res: nat, i: nat)
    ensures Multiply(res, 0, i) == res
  {
  }

  lemma ShrinksBy(res: nat, y: nat)
    requires y <= 65536
    ensures (res * y) / 65536 <= res
  {
  }

  lemma Monotone(a: nat, b: nat, y: nat)
    requires a <= b
    ensures (a * y) / 65536 <= (b * y) / 65536
  {
    assert a * y <= b * y;
  }

  lemma {:induction false} MultiplyMonotone(a: nat, b: nat, msb: nat, i: nat)
    requires a <= b
    ensures Multiply(a, msb, i) <= Multiply(b, msb, i)
    decreases msb
  {
    if msb > 0 && i <= 16 {
      var y := Factor(msb, i);
      Monotone(a, b, y);
      MultiplyMonotone((a * y) / 65536, (b * y) / 65536, msb / 2, i + 1);
    }
  }

  lemma {:induction false} MultiplyShrinks(res: nat, msb: nat, i: nat)
    ensures Multiply(res, msb, i) <= res
    decreases msb
  {
    if msb > 0 && i <= 16 {
      var y := Factor(msb, i);
      ShrinksBy(res, y);
      MultiplyShrinks((res * y) / 65536, msb / 2, i + 1);
    }
  }

  /** Within a block of 256 arguments the exponential falls, and it never exceeds its scaled start. */
  lemma NexpFallsWithinBlock(ux: nat, uy: nat)
    requires ux <= uy && ux / 256 == uy / 256
    ensures Nexp(uy) <= Nexp(ux) <= Scaled(ux) <= U32_MAX
  {
    if uy < 0x100_0000 {
      MultiplyMonotone(Scaled(uy), Scaled(ux), ux / 256, 1);
      MultiplyShrinks(Scaled(ux), ux / 256, 1);
    }
  }

  /** The scale: linear over the first 256 arguments, one table entry for each power of two above
      them, and zero from 2^24 on. */
  lemma NexpOfPower(low: nat, j: nat)
    requires low < 256 && j <= 15
    ensures Nexp(low) == 0xffff_ffff - 4294 * low
    ensures Nexp(ROOM[17 - j] * 256 + low) == ((0xffff_ffff - 4294 * low) * (TABLE[j + 1] + 1)) / 65536
    ensures forall ux: nat | ux >= 0x100_0000 :: Nexp(ux) == 0
  {
    hide Multiply;
    EndOfLoop(Scaled(low), 1);
    RoomBounds(j);
    BlockOf(ROOM[17 - j], low);
    PowerMultiply(0xffff_ffff - 4294 * low, j, 1);
  }

  lemma RoomBounds(j: nat)
    requires j <= 15
    ensures 1 <= ROOM[17 - j] <= 32768
  {
  }

  lemma BlockOf(m: nat, low: nat)
    requires low < 256
    ensures (m * 256 + low) / 256 == m && (m * 256 + low) % 256 == low
  {
  }

  lemma LastRoom()
    ensures ROOM[17] == 1
  {
  }

  lemma {:induction false} PowerMultiply(res: nat, j: nat, i: nat)
    requires 1 <= i && i + j <= 16
    ensures Multiply(res, ROOM[17 - j], i) == (res * (TABLE[i + j] + 1)) / 65536
    decreases j
  {
    hide Multiply;
    if j == 0 {
      LastRoom();
      MultiplyOdd(res, 0, i);
      EndOfLoop((res * (TABLE[i] + 1)) / 65536, i + 1);
    } else {
      RoomHalves(17 - j);
      MultiplyEven(res, ROOM[18 - j], i);
      PowerMultiply(res, j - 1, i + 1);
    }
  }

  // ------------------------------------------------------------ from one block to the next

  /** The number of ones at the end of m, and what stands above the zero before them. */
  function TrailingOnes(m: nat): nat { if m % 2 == 0 then 0 else 1 + TrailingOnes(m / 2) }

  function Above(m: nat): nat { if m % 2 == 0 then m / 2 else Above(m / 2) }

  /** Full scale at the end of a block, 0xffff_ffff - 255 * 4294, through table entries 1 to t. */
  const BEFORE: seq<nat> :=
    [4293872325, 4292758497, 4290531418, 4286145040, 4277381254, 4259889521, 4225179117, 4156517377,
     4022503686, 3767353114, 3304539394, 2542542944, 1505134522, 527449332, 64772220, 976485]

  /** Full scale at the start of a block, 0xffff_ffff, through table entry t + 1 alone. */
  const AFTER: seq<nat> :=
    [4293853183, 4292739071, 4290576383, 4286185471, 4277403647, 4259971071, 4225171455, 4156489727,
     4022534143, 3767336959, 3304587263, 2542534655, 1505099775, 527433727, 64749567, 983039]

  /** The lengths of trailing ones whose table entries multiply to less than the entry above them. */
  predicate Rising(t: nat) { t in {2, 3, 4, 5, 8, 10, 15} }

  /** The number of ones of m: how many table entries it stands for. */
  function Ones(m: nat): nat { if m == 0 then 0 else m % 2 + Ones(m / 2) }

  /** At 0.0006 of full scale and above every rise survives the roundings. */
  const VISIBLE: nat := 2300000

  lemma TableProducts(t: nat)
    requires t <= 15
    ensures BEFORE[0] == Scaled(255)
    ensures t < 15 ==> BEFORE[t + 1] == (BEFORE[t] * (TABLE[t + 1] + 1)) / 65536
    ensures AFTER[t] == (Scaled(0) * (TABLE[t + 1] + 1)) / 65536
    ensures if Rising(t) then BEFORE[t] < AFTER[t] else AFTER[t] < BEFORE[t]
    ensures Rising(t) ==> (16 - t) * BEFORE[t] <= VISIBLE * (AFTER[t] - BEFORE[t])
  {
  }

  lemma MultiplyOdd(res: nat, m: nat, i: nat)
    requires i <= 16
    ensures Multiply(res, 2 * m + 1, i) == Multiply((res * (TABLE[i] + 1)) / 65536, m, i + 1)
  {
  }

  lemma MultiplyEven(res: nat, m: nat, i: nat)
    requires i <= 16
    ensures Multiply(res, 2 * m, i) == Multiply(res, m, i + 1)
  {
    assert (res * 65536) / 65536 == res;
  }

  lemma BeforeStep(t: nat)
    requires t < 15
    ensures BEFORE[t + 1] == (BEFORE[t] * (TABLE[t + 1] + 1)) / 65536
  {
  }

  /** The t trailing ones of m are t table entries; the zero above them is none. */
  lemma {:induction false} ThroughOnes(m: nat, i: nat, t: nat)
    requires t + TrailingOnes(m) <= 15 && i == t + 1
    ensures Multiply(BEFORE[t], m, i) == Multiply(BEFORE[t + TrailingOnes(m)], Above(m), i + TrailingOnes(m) + 1)
    decreases m
  {
    hide Multiply;
    if m % 2 == 1 {
      BeforeStep(t);
      MultiplyOdd(BEFORE[t], m / 2, i);
      ThroughOnes(m / 2, i + 1, t + 1);
    } else {
      MultiplyEven(BEFORE[t], m / 2, i);
    }
  }

  /** The carry turns them into zeros and the zero above into a one, the only entry before the rest. */
  lemma {:induction false} ThroughCarry(m: nat, i: nat)
    requires 1 <= i && i + TrailingOnes(m) <= 16
    ensures var t := TrailingOnes(m);
            Multiply(Scaled(0), m + 1, i)
              == Multiply((Scaled(0) * (TABLE[i + t] + 1)) / 65536, Above(m), i + t + 1)
    decreases m
  {
    if m % 2 == 1 {
      assert (m + 1) / 2 == m / 2 + 1;
      assert (Scaled(0) * 65536) / 65536 == Scaled(0);
      ThroughCarry(m / 2, i + 1);
    }
  }

  lemma {:induction false} OnesFit(m: nat, k: nat)
    requires k <= 16 && m + 1 < ROOM[17 - k]
    ensures TrailingOnes(m) < k
    decreases m
  {
    if m % 2 == 1 {
      RoomHalves(17 - k);
      OnesFit(m / 2, k - 1);
    }
  }

  /** At the end of a block with t trailing ones in its number, both neighbours come down to the
      same remaining factors, applied to one of two constants that depend on t alone. */
  lemma CarryIs(ux: nat)
    requires ux % 256 == 255 && ux + 1 < 0x100_0000
    ensures var t, rest := TrailingOnes(ux / 256), Above(ux / 256);
            && t <= 15
            && Nexp(ux) == Multiply(BEFORE[t], rest, t + 2)
            && Nexp(ux + 1) == Multiply(AFTER[t], rest, t + 2)
  {
    var m := ux / 256;
    assert (ux + 1) / 256 == m + 1 && (ux + 1) % 256 == 0 && ux % 256 == 255;
    assert Scaled(ux) == Scaled(255) && Scaled(ux + 1) == Scaled(0);
    OnesFit(m, 16);
    var t := TrailingOnes(m);
    TableProducts(t);
    ThroughOnes(m, 1, 0);
    ThroughCarry(m, 1);
  }

  /** Rounding costs a relative lead at most one part in v while the value is v. */
  lemma GapStep(a: nat, b: nat, y: nat, v: nat, e: nat)
    requires b * v >= a * (v + e) && e >= 1 && y <= 65536
    requires (a * y) / 65536 >= v
    ensures ((b * y) / 65536) * v >= ((a * y) / 65536) * (v + e - 1)
  {
    var a', b', x := (a * y) / 65536, (b * y) / 65536, v + e;
    MulLe(a * x, b * v, y);
    Swap(a, x, y);
    Swap(b, v, y);
    MulLe(65536 * a', a * y, x);
    MulLe(b * y, 65536 * (b' + 1), v);
    Cancels(a', b', x, v);
  }

  lemma Swap(a: nat, x: nat, y: nat)
    ensures (a * x) * y == (a * y) * x
  {
  }

  lemma Cancels(a: nat, b: nat, x: nat, v: nat)
    requires (65536 * a) * x <= (65536 * (b + 1)) * v && a >= v && x >= 1
    ensures b * v >= a * (x - 1)
  {
    assert (65536 * a) * x == 65536 * (a * x);
    assert (65536 * (b + 1)) * v == 65536 * (b * v + v);
    assert a * x == a * (x - 1) + a;
  }

  /** A relative lead of one part in v for every factor still to come, and one more, is a lead at
      the end if the end is v. */
  lemma {:induction false} LeadSurvives(a: nat, b: nat, msb: nat, i: nat, v: nat, e: nat)
    requires b * v >= a * (v + e) && e >= Ones(msb) + 1
    requires v > 0 && 1 <= i && Multiply(a, msb, i) >= v
    ensures Multiply(a, msb, i) < Multiply(b, msb, i)
    decreases msb
  {
    if msb == 0 || i > 16 {
      assert a * (v + e) == a * v + a * e;
      MulLe(1, e, a);
      if b <= a {
        MulLe(b, a, v);
      }
    } else if msb % 2 == 0 {
      assert (a * 65536) / 65536 == a && (b * 65536) / 65536 == b;
      LeadSurvives(a, b, msb / 2, i + 1, v, e);
    } else {
      var y := Factor(msb, i);
      MultiplyShrinks((a * y) / 65536, msb / 2, i + 1);
      GapStep(a, b, y, v, e);
      LeadSurvives((a * y) / 65536, (b * y) / 65536, msb / 2, i + 1, v, e - 1);
    }
  }

  /** The block before the carry ends in a length of ones that makes a rise possible. */
  predicate Carries(ux: nat) {
    ux % 256 == 255 && ux + 1 < 0x100_0000 && Rising(TrailingOnes(ux / 256))
  }

  /** At such a carry: the relative gap of the two constants outweighs one unit for each factor
      still to come, and one more. */
  predicate Outweighs(ux: nat)
    requires Carries(ux)
  {
    var t := TrailingOnes(ux / 256);
    (Ones(Above(ux / 256)) + 1) * BEFORE[t] <= Nexp(ux) * (AFTER[t] - BEFORE[t])
  }

  /** Which way the exponential goes from each argument to the next, for all of them: it can rise
      only at the end of a block whose number ends in 2, 3, 4, 5, 8, 10 or 15 ones; there it never
      falls, and it rises if the gap outweighs the roundings. Everywhere else it never rises. */
  lemma NexpStep(ux: nat)
    ensures Carries(ux) ==> Nexp(ux) <= Nexp(ux + 1)
    ensures Carries(ux) && Outweighs(ux) ==> Nexp(ux) < Nexp(ux + 1)
    ensures !Carries(ux) ==> Nexp(ux + 1) <= Nexp(ux)
  {
    if ux + 1 < 0x100_0000 {
      if ux % 256 == 255 {
        CarryStep(ux);
      } else {
        NexpFallsWithinBlock(ux, ux + 1);
      }
    }
  }

  lemma CarryStep(ux: nat)
    requires ux % 256 == 255 && ux + 1 < 0x100_0000
    ensures if Carries(ux) then Nexp(ux) <= Nexp(ux + 1) else Nexp(ux + 1) <= Nexp(ux)
    ensures Carries(ux) && Outweighs(ux) ==> Nexp(ux) < Nexp(ux + 1)
  {
    CarryIs(ux);
    hide Nexp, TrailingOnes, Above, Multiply, Ones;
    var t, rest := TrailingOnes(ux / 256), Above(ux / 256);
    TableProducts(t);
    var a, b, v := BEFORE[t], AFTER[t], Nexp(ux);
    if Rising(t) {
      MultiplyMonotone(a, b, rest, t + 2);
      if Outweighs(ux) {
        var e := Ones(rest) + 1;
        assert b * v >= a * (v + e) by {
          Widen(a, b, v, e);
        }
        assert v > 0 by {
          MulLe(1, e, a);
        }
        LeadSurvives(a, b, rest, t + 2, v, e);
      }
    } else {
      MultiplyMonotone(b, a, rest, t + 2);
    }
  }

  lemma Widen(a: nat, b: nat, v: nat, e: nat)
    requires a <= b && e * a <= v * (b - a)
    ensures b * v >= a * (v + e)
  {
    assert v * (b - a) == b * v - a * v && a * (v + e) == a * v + e * a;
  }

  /** In particular at every value of VISIBLE or more. */
  lemma VisibleRises(ux: nat)
    requires Carries(ux) && Nexp(ux) >= VISIBLE
    ensures Outweighs(ux) && Nexp(ux) < Nexp(ux + 1)
  {
    var m := ux / 256;
    var t := TrailingOnes(m);
    CarryIs(ux);
    TableProducts(t);
    OnesBelow(m, 16);
    OnesAdd(m);
    hide Nexp;
    MulLe(Ones(Above(m)) + 1, 16 - t, BEFORE[t]);
    MulLe(VISIBLE, Nexp(ux), AFTER[t] - BEFORE[t]);
    NexpStep(ux);
  }

  lemma {:induction false} OnesAdd(m: nat)
    ensures Ones(m) == TrailingOnes(m) + Ones(Above(m))
  {
    if m % 2 == 1 {
      OnesAdd(m / 2);
    }
  }

  lemma {:induction false} OnesAtMost(m: nat, k: nat)
    requires k <= 16 && m < ROOM[17 - k]
    ensures Ones(m) <= k
    decreases m
  {
    if m > 0 {
      RoomHalves(17 - k);
      OnesAtMost(m / 2, k - 1);
    }
  }

  /** Fewer than k ones in k bits that are not all ones. */
  lemma {:induction false} OnesBelow(m: nat, k: nat)
    requires k <= 16 && m + 1 < ROOM[17 - k]
    ensures Ones(m) < k
    decreases m
  {
    if m % 2 == 1 {
      RoomHalves(17 - k);
      OnesBelow(m / 2, k - 1);
    } else if m > 0 {
      RoomHalves(17 - k);
      OnesAtMost(m / 2, k - 1);
    }
  }

  /** The first rise of all: up to 1023 the exponential only falls. */
  lemma NexpRisesAtCarry()
    ensures Nexp(1023) < Nexp(1024)
    ensures forall ux: nat | ux < 1023 :: Nexp(ux + 1) <= Nexp(ux)
  {
    CarryIs(1023);
    forall ux: nat | ux < 1023 ensures Nexp(ux + 1) <= Nexp(ux) {
      NexpStep(ux);
      if ux % 256 == 255 {
        FirstBlocks(ux / 256);
      }
    }
  }

  lemma FirstBlocks(m: nat)
    requires m <= 2
    ensures TrailingOnes(m) <= 1
  {
  }

  /** A carry whose rise the roundings absorb: 290 on both sides, far below VISIBLE. */
  lemma RiseLostInRounding()
    ensures Rising(TrailingOnes(16515071 / 256)) && Nexp(16515071) == Nexp(16515072)
  {
    TrailingIs(31, 10);
    assert OnesUnder(31, 10) == 64511;
    CarryIs(16515071);
    FiveFactors();
  }

  lemma FiveFactors()
    ensures Multiply(3304539394, 31, 12) == Multiply(3304587263, 31, 12) == 290
  {
    FiveSteps(3304539394, 1956221165, 685525135, 84184361, 1269136);
    FiveSteps(3304587263, 1956249503, 685535066, 84185580, 1269155);
  }

  /** The last five table entries, one after the other. */
  lemma FiveSteps(a: nat, b: nat, c: nat, d: nat, e: nat)
    requires b == (a * 38796) / 65536 && c == (b * 22966) / 65536
    requires d == (c * 8048) / 65536 && e == (d * 988) / 65536
    ensures Multiply(a, 31, 12) == (e * 15) / 65536
  {
    MultiplyOdd(a, 15, 12);
    MultiplyOdd(b, 7, 13);
    MultiplyOdd(c, 3, 14);
    MultiplyOdd(d, 1, 15);
    MultiplyOdd(e, 0, 16);
  }

  /** The one carry over fifteen ones, at the very end of the scale, rises too. */
  lemma LastCarryRises()
    ensures Carries(8388607) && TrailingOnes(8388607 / 256) == 15
    ensures Nexp(8388607) == 976485 && Nexp(8388608) == 983039
  {
    TrailingIs(0, 15);
    OnesUnderNothing(15);
    TableProducts(15);
    CarryIs(8388607);
  }

  /** The number with q above a zero and k ones. */
  function OnesUnder(q: nat, k: nat): nat { if k == 0 then 2 * q else 2 * OnesUnder(q, k - 1) + 1 }

  lemma {:induction false} TrailingIs(q: nat, k: nat)
    ensures TrailingOnes(OnesUnder(q, k)) == k && Above(OnesUnder(q, k)) == q
  {
    if k > 0 {
      TrailingIs(q, k - 1);
    }
  }

  lemma {:induction false} OnesUnderNothing(k: nat)
    requires k <= 16
    ensures OnesUnder(0, k) + 1 == ROOM[17 - k]
  {
    if k > 0 {
      RoomHalves(17 - k);
      OnesUnderNothing(k - 1);
    }
  }
}
