/** Bytes, 32-bit words and the big-endian encoding shared by every wire format. */
module Bytes {
  type Byte = x: int | 0 <= x < 0x100
  type U32 = x: int | 0 <= x < 0x1_0000_0000

  const WORD: int := 0x1_0000_0000

  /** The value that `htonl` leaves in memory, lowest address first. */
  function BigEndian(v: U32): (b: seq<Byte>)
    ensures |b| == 4
  {
    var high, low := v / 0x1_0000, v % 0x1_0000;
    [high / 0x100, high % 0x100, low / 0x100, low % 0x100]
  }

  /** What `ntohl` reads from four bytes. */
  function FromBigEndian(b: seq<Byte>): (v: U32)
    requires |b| == 4
  {
    var high: int := 0x100 * (b[0] as int) + b[1] as int;
    var low: int := 0x100 * (b[2] as int) + b[3] as int;
    0x1_0000 * high + low
  }

  /** The highest byte comes first. */
  lemma BigEndianPlaces(v: U32)
    ensures var b := BigEndian(v);
            && v == 0x100_0000 * (b[0] as int) + 0x1_0000 * (b[1] as int) + 0x100 * (b[2] as int) + b[3] as int
            && b[0] == v / 0x100_0000 && b[3] == v % 0x100
  {
    var high, low := v / 0x1_0000, v % 0x1_0000;
    assert v == 0x1_0000 * high + low;
    assert high == 0x100 * (high / 0x100) + high % 0x100;
    assert low == 0x100 * (low / 0x100) + low % 0x100;
  }

  lemma BigEndianRoundTrip(v: U32)
    ensures FromBigEndian(BigEndian(v)) == v
  {
    var high, low := v / 0x1_0000, v % 0x1_0000;
    assert v == 0x1_0000 * high + low;
    assert high == 0x100 * (high / 0x100) + high % 0x100;
  }

  lemma BigEndianOfParsed(b: seq<Byte>)
    requires |b| == 4
    ensures BigEndian(FromBigEndian(b)) == b
  {
    var v := FromBigEndian(b);
    assert v / 0x1_0000 == 0x100 * (b[0] as int) + b[1] as int;
  }

  /** A 32-bit counter that starts at 1: the number drawn when `taken` were drawn before. */
  function SequenceOf(taken: nat): U32 {
    (1 + taken) % WORD
  }

  /** How many numbers were drawn before `s`, in the first round. */
  function DrawOf(s: U32): nat {
    (s + WORD - 1) % WORD
  }

  /** The counter starts at 1, goes up by one, and comes back to 0 behind 2^32 - 1. */
  lemma CounterLaw(taken: nat)
    ensures SequenceOf(0) == 1
    ensures SequenceOf(taken + 1) == if SequenceOf(taken) == 0xFFFF_FFFF then 0 else SequenceOf(taken) + 1
  {
  }

  lemma DrawOfSequence(taken: nat)
    requires taken < WORD
    ensures DrawOf(SequenceOf(taken)) == taken
  {
  }

  function Flatten<T>(parts: seq<seq<T>>): seq<T> {
    if parts == [] then [] else parts[0] + Flatten(parts[1..])
  }

  lemma {:induction false} FlattenAppend<T>(a: seq<seq<T>>, b: seq<seq<T>>)
    ensures Flatten(a + b) == Flatten(a) + Flatten(b)
  {
    if a == [] {
      assert a + b == b;
    } else {
      assert (a + b)[1..] == a[1..] + b;
      FlattenAppend(a[1..], b);
      assert a[0] + (Flatten(a[1..]) + Flatten(b)) == (a[0] + Flatten(a[1..])) + Flatten(b);
    }
  }
}
