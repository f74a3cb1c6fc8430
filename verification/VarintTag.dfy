/** The varint packet tag: two unsigned 64-bit fields in base-128 groups, least significant first,
    every byte but the last of a field with its top bit set. Zero is written as no bytes at all. */
module VarintTag {
  import opened Arithmetic
  import opened Wrappers

  type byte = b: nat | b < 256

  function Encode(v: nat): seq<byte> {
    if v == 0 then []
    else if v < 128 then [v]
    else [v % 128 + 128] + Encode(v / 128)
  }

  /** varint_length: the value is first taken as signed, and division truncates, so a value of
      2^63 or more goes once round the loop. */
  function Length(v: nat): nat {
    if v == 0 then 0 else if v >= HALF then 1 else |Encode(v)|
  }

  datatype Decoded = Decoded(value: nat, used: nat)

  /** VarientDecode in 64-bit arithmetic; None if it runs off the end of the buffer. */
  function DecodeLoop(bytes: seq<byte>, remain: nat, multi: nat): Option<Decoded> {
    if bytes == [] then None
    else
      var remain' := (remain + (bytes[0] % 128) * multi) % U64;
      if bytes[0] < 128 then Some(Decoded(remain', 1))
      else
        match DecodeLoop(bytes[1..], remain', (multi * 128) % U64)
        case None => None
        case Some(d) => Some(d.(used := d.used + 1))
  }

  function Decode(bytes: seq<byte>): Option<Decoded> { DecodeLoop(bytes, 0, 1) }

  // ------------------------------------------------------------ the two directions of one field

  lemma ModStep(a: nat, b: nat, c: nat)
    ensures (a % U64 + b * (c % U64)) % U64 == (a + b * c) % U64
  {
    var qa, qc := a / U64, c / U64;
    assert a == qa * U64 + a % U64 && c == qc * U64 + c % U64;
    assert b * c == (b * qc) * U64 + b * (c % U64) by {
      assert b * (qc * U64) == (b * qc) * U64;
      assert b * (qc * U64 + c % U64) == b * (qc * U64) + b * (c % U64);
    }
    ModPlus(a % U64 + b * (c % U64), qa + b * qc);
    assert (qa + b * qc) * U64 == qa * U64 + (b * qc) * U64;
  }

  lemma ModPlus(x: nat, k: nat)
    ensures (x + k * U64) % U64 == x % U64
  {
  }

  lemma UnfoldDecode(low: nat, rest: seq<byte>, remain: nat, multi: nat)
    requires low < 128
    ensures var d := DecodeLoop(rest, (remain + low * multi) % U64, (multi * 128) % U64);
            DecodeLoop([low + 128] + rest, remain, multi)
              == if d.None? then None else Some(d.value.(used := d.value.used + 1))
  {
    var bytes: seq<byte> := [low + 128] + rest;
    assert bytes[0] % 128 == low;
    assert bytes[1..] == rest;
  }

  /** Decoding what was encoded, with anything behind it. */
  lemma {:induction false} DecodeEncodeLoop(v: nat, rest: seq<byte>, remain: nat, multi: nat)
    requires v > 0
    ensures DecodeLoop(Encode(v) + rest, remain, multi) == Some(Decoded((remain + v * multi) % U64, |Encode(v)|))
  {
    if v < 128 {
      assert (Encode(v) + rest)[0] == v;
    } else {
      var low, high := v % 128, v / 128;
      var r, m := (remain + low * multi) % U64, (multi * 128) % U64;
      UnfoldDecode(low, Encode(high) + rest, remain, multi);
      assert Encode(v) + rest == [low + 128] + (Encode(high) + rest);
      assert |Encode(v)| == |Encode(high)| + 1;
      DecodeEncodeLoop(high, rest, r, m);
      hide DecodeLoop, Encode;
      ModStep(remain + low * multi, high, multi * 128);
      Regroup(low, high, multi);
    }
  }

  lemma Regroup(low: nat, high: nat, multi: nat)
    ensures low * multi + high * (multi * 128) == (low + high * 128) * multi
  {
  }

  /** Every positive 64-bit value decodes back from its own bytes, whatever follows them. */
  lemma DecodeEncode(v: nat, rest: seq<byte>)
    requires 0 < v < U64
    ensures Decode(Encode(v) + rest) == Some(Decoded(v, |Encode(v)|))
  {
    hide DecodeLoop, Encode;
    DecodeEncodeLoop(v, rest, 0, 1);
    ModSmall(v);
  }

  /** No encoding is a prefix of another. */
  lemma PrefixFree(u: nat, v: nat)
    requires 0 < u < U64 && 0 < v < U64 && Encode(u) <= Encode(v)
    ensures u == v
  {
    var rest := Encode(v)[|Encode(u)|..];
    assert Encode(v) == Encode(u) + rest;
    DecodeEncode(u, rest);
    DecodeEncode(v, []);
    assert Encode(v) + [] == Encode(v);
  }

  /** The bytes that a positive value can be written as: a top bit on all but the last, which is
      not zero. */
  predicate Canonical(bytes: seq<byte>) {
    && bytes != []
    && (forall i | 0 <= i < |bytes| - 1 :: bytes[i] >= 128)
    && 0 < bytes[|bytes| - 1] < 128
  }

  function Value(bytes: seq<byte>): nat {
    if bytes == [] then 0 else bytes[0] % 128 + 128 * Value(bytes[1..])
  }

  lemma {:induction false} EncodeCanonical(v: nat)
    requires v > 0
    ensures Canonical(Encode(v)) && Value(Encode(v)) == v
  {
    if v >= 128 {
      EncodeCanonical(v / 128);
      assert Encode(v)[1..] == Encode(v / 128);
    } else {
      assert Value(Encode(v)[1..]) == 0;
    }
  }

  /** The other direction: canonical bytes are the encoding of their value. */
  lemma {:induction false} EncodeValue(bytes: seq<byte>)
    requires Canonical(bytes)
    ensures Value(bytes) > 0 && Encode(Value(bytes)) == bytes
  {
    if |bytes| > 1 {
      var rest := bytes[1..];
      assert Canonical(rest);
      EncodeValue(rest);
      assert Value(bytes) / 128 == Value(rest) && Value(bytes) % 128 == bytes[0] % 128;
      assert bytes == [bytes[0]] + rest;
    } else {
      assert Value(bytes[1..]) == 0;
    }
  }

  /** The first byte without its top bit, if there is one. */
  function Terminator(bytes: seq<byte>): Option<nat> {
    if bytes == [] then None
    else if bytes[0] < 128 then Some(0)
    else
      match Terminator(bytes[1..])
      case None => None
      case Some(n) => Some(n + 1)
  }

  lemma {:induction false} TerminatorIs(bytes: seq<byte>)
    ensures match Terminator(bytes)
            case None => forall i | 0 <= i < |bytes| :: bytes[i] >= 128
            case Some(n) => n < |bytes| && bytes[n] < 128 && forall i | 0 <= i < n :: bytes[i] >= 128
  {
    if bytes != [] && bytes[0] >= 128 {
      TerminatorIs(bytes[1..]);
    }
  }

  lemma {:induction false} DecodeLoopIs(bytes: seq<byte>, remain: nat, multi: nat)
    ensures DecodeLoop(bytes, remain, multi) ==
            match Terminator(bytes)
            case None => None
            case Some(n) => if n >= |bytes| then None
                            else Some(Decoded((remain + Value(bytes[..n + 1]) * multi) % U64, n + 1))
  {
    TerminatorIs(bytes);
    if bytes != [] {
      var low, rest := bytes[0] % 128, bytes[1..];
      var r, m := (remain + low * multi) % U64, (multi * 128) % U64;
      if bytes[0] < 128 {
        assert bytes[..1][1..] == [];
        assert Value(bytes[..1]) == low;
      } else {
        DecodeLoopIs(rest, r, m);
        var t := Terminator(rest);
        if t.Some? {
          TerminatorIs(rest);
          var n := t.value;
          assert bytes[..n + 2][1..] == rest[..n + 1];
          FieldStep(remain, low, Value(rest[..n + 1]), multi);
        }
      }
    }
  }

  lemma FieldStep(remain: nat, low: nat, high: nat, multi: nat)
    ensures ((remain + low * multi) % U64 + high * ((multi * 128) % U64)) % U64
         == (remain + (low + 128 * high) * multi) % U64
  {
    ModStep(remain + low * multi, high, multi * 128);
    Regroup(low, high, multi);
  }

  /** Of arbitrary bytes the decoder reads up to the first one without its top bit, and returns
      their base-128 value modulo 2^64; it runs off the end exactly when there is no such byte. */
  lemma DecodeIs(bytes: seq<byte>)
    ensures match Decode(bytes)
            case None => forall i | 0 <= i < |bytes| :: bytes[i] >= 128
            case Some(d) =>
              && 1 <= d.used <= |bytes| && bytes[d.used - 1] < 128
              && (forall i | 0 <= i < d.used - 1 :: bytes[i] >= 128)
              && d.value == Value(bytes[..d.used]) % U64
  {
    TerminatorIs(bytes);
    DecodeLoopIs(bytes, 0, 1);
  }

  function Pow128(k: nat): nat { if k == 0 then 1 else 128 * Pow128(k - 1) }

  /** Minimal length: k bytes for exactly the values of k base-128 digits. */
  lemma {:induction false} EncodeMinimal(v: nat)
    requires v > 0
    ensures |Encode(v)| >= 1 && Pow128(|Encode(v)| - 1) <= v < Pow128(|Encode(v)|)
  {
    if v >= 128 {
      EncodeMinimal(v / 128);
    } else {
      assert Pow128(0) == 1 && Pow128(1) == 128;
    }
  }

  // ------------------------------------------------------------ the tag

  function Serialized(sequence: nat, time: nat): seq<byte> { Encode(sequence) + Encode(time) }

  function SerializedSize(sequence: nat, time: nat): nat { Length(sequence) + Length(time) }

  datatype Tag = Tag(sequence: nat, time: nat, used: nat)

  function Deserialized(bytes: seq<byte>): Option<Tag> {
    match Decode(bytes)
    case None => None
    case Some(s) =>
      if s.used > |bytes| then None else
      match Decode(bytes[s.used..])
      case None => None
      case Some(t) => Some(Tag(s.value, t.value, s.used + t.used))
  }

  lemma {:induction false} UsedBounded(bytes: seq<byte>, remain: nat, multi: nat)
    ensures var d := DecodeLoop(bytes, remain, multi); d.Some? ==> 1 <= d.value.used <= |bytes|
  {
    if bytes != [] && bytes[0] >= 128 {
      UsedBounded(bytes[1..], (remain + (bytes[0] % 128) * multi) % U64, (multi * 128) % U64);
    }
  }

  /** The round trip works for exactly the tags with both fields positive: both come back and
      exactly the bytes written are read. With a zero field the reader runs off the buffer. */
  lemma RoundTripIffPositive(sequence: nat, time: nat)
    requires sequence < U64 && time < U64
    ensures var r := Deserialized(Serialized(sequence, time));
            if sequence > 0 && time > 0
            then r == Some(Tag(sequence, time, |Serialized(sequence, time)|))
            else r == None
  {
    var bytes := Serialized(sequence, time);
    if sequence > 0 {
      DecodeEncode(sequence, Encode(time));
      assert bytes[|Encode(sequence)|..] == Encode(time);
    }
    if time > 0 {
      DecodeEncode(time, []);
      assert Encode(time) + [] == Encode(time);
      if sequence == 0 {
        assert bytes == Encode(time);
        assert bytes[|Encode(time)|..] == [];
      }
    }
  }

  /** What goes wrong with the others: ten bytes are announced as one. */
  lemma LongEncoding(v: nat)
    requires HALF <= v < U64
    ensures Length(v) == 1 && |Encode(v)| == 10
  {
    EncodeMinimal(v);
    assert Pow128(3) == 2097152;
    assert Pow128(6) == 4398046511104;
    assert Pow128(9) == 0x8000_0000_0000_0000;
    PowMonotone(|Encode(v)|, 9);
    PowMonotone(10, |Encode(v)| - 1);
  }

  lemma {:induction false} PowMonotone(a: nat, b: nat)
    ensures a <= b ==> Pow128(a) <= Pow128(b)
    decreases b
  {
    if a < b {
      PowMonotone(a, b - 1);
    }
  }

  /** The size announced is the size written for exactly the values below 2^63; a field of 2^63 or
      more takes ten bytes and is announced as one. */
  lemma SizeRightIff(sequence: nat, time: nat)
    requires sequence < U64 && time < U64
    ensures SerializedSize(sequence, time) == |Serialized(sequence, time)| <==> sequence < HALF && time < HALF
    ensures SerializedSize(sequence, time) <= |Serialized(sequence, time)|
  {
    if sequence >= HALF {
      LongEncoding(sequence);
    }
    if time >= HALF {
      LongEncoding(time);
    }
  }

  /** What a tag leaves in a buffer of the announced size: all its bytes, or the writer runs off
      the end. */
  function Stored(sequence: nat, time: nat): Option<seq<byte>> {
    if |Serialized(sequence, time)| <= SerializedSize(sequence, time) then Some(Serialized(sequence, time)) else None
  }

  /** Through a buffer of the announced size, as the packet tag list provides, the round trip works
      for exactly the tags with both fields from 1 to 2^63 - 1. */
  lemma BufferRoundTripIff(sequence: nat, time: nat)
    requires sequence < U64 && time < U64
    ensures var b := Stored(sequence, time);
            && (b.Some? <==> sequence < HALF && time < HALF)
            && (b.Some? && Deserialized(b.value) == Some(Tag(sequence, time, |b.value|))
                <==> 1 <= sequence < HALF && 1 <= time < HALF)
  {
    SizeRightIff(sequence, time);
    RoundTripIffPositive(sequence, time);
  }

  // ------------------------------------------------------------ the loops over a buffer

  /** ns3::TagBuffer: a window of memory and a cursor into it. */
  class TagBuffer {
    const data: array<byte>
    var cur: nat

    constructor (data: array<byte>, cur: nat)
      ensures this.data == data && this.cur == cur
    {
      this.data, this.cur := data, cur;
    }

    method WriteU8(b: byte)
      requires cur < data.Length
      modifies this`cur, data
      ensures cur == old(cur) + 1 && data[old(cur)] == b
      ensures forall k | 0 <= k < data.Length && k != old(cur) :: data[k] == old(data[k])
    {
      data[cur] := b;
      cur := cur + 1;
    }

    method ReadU8() returns (b: byte)
      requires cur < data.Length
      modifies this`cur
      ensures cur == old(cur) + 1 && b == data[old(cur)]
    {
      b := data[cur];
      cur := cur + 1;
    }
  }

  /** varint_length over the signed value. */
  method VarintLength(number: nat) returns (key: nat)
    requires number < U64
    ensures key == Length(number)
  {
    var next: int := if number < HALF then number else number - U64;
    key := 0;
    if next != 0 {
      next := TruncatedBy128(next);
      key := 1;
      while next > 0
        invariant number < HALF ==> 0 <= next && key + |Encode(next)| == |Encode(number)|
        invariant number >= HALF ==> next <= 0 && key == 1
        decreases next
      {
        next := TruncatedBy128(next);
        key := key + 1;
      }
    }
  }

  /** C++ division rounds towards zero. */
  function TruncatedBy128(x: int): int { if x >= 0 then x / 128 else -((-x) / 128) }

  /** False stands for WriteU8 past the end of the buffer. */
  method VarintEncode(i: TagBuffer, value: nat) returns (ok: bool)
    requires value < U64 && i.cur <= i.data.Length
    modifies i`cur, i.data
    ensures ok <==> old(i.cur) + |Encode(value)| <= i.data.Length
    ensures ok ==>
              && i.cur == old(i.cur) + |Encode(value)|
              && i.data[..]
                 == old(i.data[..])[..old(i.cur)] + Encode(value) + old(i.data[..])[old(i.cur) + |Encode(value)|..]
  {
    var next := value;
    ghost var before, bytes, start, n: nat := i.data[..], Encode(value), i.cur, 0;
    hide Encode;
    while next > 0
      invariant n <= |bytes| && bytes[n..] == Encode(next)
      invariant i.cur == start + n <= i.data.Length
      invariant forall k | 0 <= k < n :: i.data[start + k] == bytes[k]
      invariant forall k | 0 <= k < start || i.cur <= k < i.data.Length :: i.data[k] == before[k]
    {
      TailStep(bytes, n, next);
      var first := next % 128;
      var b: byte := first;
      next := next / 128;
      if next > 0 {
        b := b + 128;
      }
      if i.cur == i.data.Length {
        return false;
      }
      i.WriteU8(b);
      n := n + 1;
    }
    EncodeStep(0);
    Assembled(before, i.data[..], bytes, start);
    return true;
  }

  lemma TailStep(bytes: seq<byte>, n: nat, next: nat)
    requires n <= |bytes| && bytes[n..] == Encode(next) && next > 0
    ensures n < |bytes| && bytes[n] == (if next < 128 then next else next % 128 + 128)
    ensures bytes[n + 1..] == Encode(next / 128)
  {
    EncodeStep(next);
    hide Encode;
    assert bytes[n..][0] == bytes[n] && bytes[n + 1..] == bytes[n..][1..];
  }

  lemma Assembled(before: seq<byte>, now: seq<byte>, bytes: seq<byte>, start: nat)
    requires |now| == |before| && start + |bytes| <= |now|
    requires forall k | 0 <= k < |bytes| :: now[start + k] == bytes[k]
    requires forall k | 0 <= k < start || start + |bytes| <= k < |now| :: now[k] == before[k]
    ensures now == before[..start] + bytes + before[start + |bytes|..]
  {
  }

  lemma EncodeStep(v: nat)
    ensures if v == 0 then Encode(v) == []
            else Encode(v) == [if v < 128 then v else v % 128 + 128] + Encode(v / 128)
  {
  }

  /** None stands for ReadU8 running off the end. */
  method VarintDecode(i: TagBuffer) returns (value: Option<nat>)
    requires i.cur <= i.data.Length
    modifies i`cur
    ensures i.cur <= i.data.Length
    ensures match Decode(old(i.data[i.cur..]))
            case Some(d) => value == Some(d.value) && i.cur == old(i.cur) + d.used
            case None => value == None
  {
    var remain: nat, multi: nat := 0, 1;
    ghost var bytes, start, k: nat := i.data[i.cur..], i.cur, 0;
    while true
      invariant start <= i.cur <= i.data.Length && k == i.cur - start
      invariant bytes == i.data[start..]
      invariant Decode(bytes) == match DecodeLoop(bytes[k..], remain, multi)
                                 case None => None
                                 case Some(d) => Some(d.(used := d.used + k))
      decreases i.data.Length - i.cur
    {
      if i.cur == i.data.Length {
        return None;
      }
      assert bytes[k..][0] == i.data[i.cur] && bytes[k..][1..] == bytes[k + 1..];
      var b := i.ReadU8();
      remain := (remain + (b % 128) * multi) % U64;
      multi := (multi * 128) % U64;
      k := k + 1;
      if b < 128 {
        return Some(remain);
      }
    }
  }

  class Ns3QuicTag {
    var sequence: nat
    var time: nat

    constructor (sequence: nat, time: nat)
      ensures this.sequence == sequence && this.time == time
    {
      this.sequence, this.time := sequence, time;
    }

    method GetSerializedSize() returns (n: nat)
      requires sequence < U64 && time < U64
      ensures n == SerializedSize(sequence, time)
    {
      var a := VarintLength(sequence);
      var b := VarintLength(time);
      return a + b;
    }

    /** Into a buffer of exactly the announced size, as the packet tag list provides; false stands
        for a write past its end. */
    method Serialize(i: TagBuffer) returns (ok: bool)
      requires sequence < U64 && time < U64
      requires i.cur == 0 && i.data.Length == SerializedSize(sequence, time)
      modifies i`cur, i.data
      ensures ok <==> Stored(sequence, time).Some?
      ensures ok ==> Stored(sequence, time) == Some(i.data[..]) && i.cur == i.data.Length
    {
      SizeRightIff(sequence, time);
      ok := VarintEncode(i, sequence);
      if ok {
        ghost var middle := i.data[..];
        assert middle[..i.cur] == Encode(sequence);
        ok := VarintEncode(i, time);
        if ok {
          assert i.cur == |Serialized(sequence, time)| == i.data.Length;
          assert middle[i.cur..] == [];
          assert i.data[..] == Encode(sequence) + Encode(time) + [];
          assert i.data[..] == Serialized(sequence, time);
        }
      }
    }

    method Deserialize(i: TagBuffer) returns (ok: bool)
      requires i.cur == 0
      modifies this, i`cur
      ensures match Deserialized(i.data[..])
              case Some(t) => ok && sequence == t.sequence && time == t.time && i.cur == t.used
              case None => !ok
    {
      UsedBounded(i.data[..], 0, 1);
      assert i.data[0..] == i.data[..];
      var s := VarintDecode(i);
      if s.None? {
        return false;
      }
      sequence := s.value;
      assert i.data[..][i.cur..] == i.data[i.cur..];
      var t := VarintDecode(i);
      if t.None? {
        return false;
      }
      time := t.value;
      return true;
    }
  }
}
