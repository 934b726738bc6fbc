/** The byte codecs of database/encoding.go: little-endian unsigned integers,
    two's complement int64, booleans, and the map codec that turns an absent or
    null JSON document into an empty map. */
module Encoding {

  type byte = b: int | 0 <= b < 256
  type uint32 = n: int | 0 <= n < 0x1_0000_0000
  type int64 = n: int | -0x8000_0000_0000_0000 <= n < 0x8000_0000_0000_0000

  const TWO_TO_THE_64: int := 0x1_0000_0000_0000_0000

  function LittleEndian(n: nat, width: nat): (bs: seq<byte>)
    ensures |bs| == width
  {
    if width == 0 then [] else [n % 256] + LittleEndian(n / 256, width - 1)
  }

  function FromLittleEndian(bs: seq<byte>): nat
  {
    if bs == [] then 0 else bs[0] + 256 * FromLittleEndian(bs[1..])
  }

  /** The number of values that fit in `width` bytes. */
  function Capacity(width: nat): nat
  {
    if width == 0 then 1 else 256 * Capacity(width - 1)
  }

  lemma {:induction false} LittleEndianRoundTrip(n: nat, width: nat)
    requires n < Capacity(width)
    ensures FromLittleEndian(LittleEndian(n, width)) == n
  {
    if width > 0 {
      LittleEndianRoundTrip(n / 256, width - 1);
      var bs := LittleEndian(n, width);
      assert bs[1..] == LittleEndian(n / 256, width - 1);
    }
  }

  lemma {:induction false} LittleEndianOnto(bs: seq<byte>)
    ensures FromLittleEndian(bs) < Capacity(|bs|)
    ensures LittleEndian(FromLittleEndian(bs), |bs|) == bs
  {
    if bs != [] {
      LittleEndianOnto(bs[1..]);
      var n := FromLittleEndian(bs);
      assert n % 256 == bs[0] && n / 256 == FromLittleEndian(bs[1..]);
      assert bs == [bs[0]] + bs[1..];
    }
  }

  function Uint32ToBytes(i: uint32): (bs: seq<byte>)
    ensures |bs| == 4
  {
    LittleEndian(i, 4)
  }

  /** Go reads the first four bytes and panics when there are fewer. */
  function BytesToUint32(bs: seq<byte>): uint32
    requires |bs| >= 4
  {
    LittleEndianOnto(bs[..4]);
    assert Capacity(4) == 0x1_0000_0000 by { CapacityValues(); }
    FromLittleEndian(bs[..4])
  }

  function Int64ToBytes(i: int64): (bs: seq<byte>)
    ensures |bs| == 8
  {
    LittleEndian(if i < 0 then i + TWO_TO_THE_64 else i, 8)
  }

  function BytesToInt64(bs: seq<byte>): int64
    requires |bs| >= 8
  {
    LittleEndianOnto(bs[..8]);
    CapacityValues();
    var u := FromLittleEndian(bs[..8]);
    if u >= 0x8000_0000_0000_0000 then u - TWO_TO_THE_64 else u
  }

  function BoolToBytes(b: bool): (bs: seq<byte>)
    ensures |bs| == 1
  {
    if b then [1] else [0]
  }

  function BytesToBool(bs: seq<byte>): bool
    requires |bs| >= 1
  {
    bs[0] == 1
  }

  lemma CapacityValues()
    ensures Capacity(4) == 0x1_0000_0000
    ensures Capacity(8) == TWO_TO_THE_64
  {
    assert Capacity(2) == 0x1_0000;
    assert Capacity(3) == 0x100_0000;
    assert Capacity(5) == 256 * Capacity(4);
    assert Capacity(6) == 256 * Capacity(5);
    assert Capacity(7) == 256 * Capacity(6);
  }

  /** The integer codecs are bijections between the Go integer type and the byte
      strings of its width: nothing wraps, and no two byte strings collide. */
  lemma Uint32RoundTrip(i: uint32, bs: seq<byte>)
    requires |bs| == 4
    ensures BytesToUint32(Uint32ToBytes(i)) == i
    ensures Uint32ToBytes(BytesToUint32(bs)) == bs
  {
    CapacityValues();
    LittleEndianRoundTrip(i, 4);
    LittleEndianOnto(bs);
    assert bs[..4] == bs;
    var enc := Uint32ToBytes(i);
    assert enc[..4] == enc;
  }

  lemma Int64RoundTrip(i: int64, bs: seq<byte>)
    requires |bs| == 8
    ensures BytesToInt64(Int64ToBytes(i)) == i
    ensures Int64ToBytes(BytesToInt64(bs)) == bs
  {
    CapacityValues();
    LittleEndianRoundTrip(if i < 0 then i + TWO_TO_THE_64 else i, 8);
    LittleEndianOnto(bs);
    assert bs[..8] == bs;
    var enc := Int64ToBytes(i);
    assert enc[..8] == enc;
  }

  /** Least significant byte first. */
  lemma Uint32Value(bs: seq<byte>)
    requires |bs| >= 4
    ensures BytesToUint32(bs)
            == bs[0] + 0x100 * (bs[1] as int) + 0x1_0000 * (bs[2] as int) + 0x100_0000 * (bs[3] as int)
  {
    FourBytes(bs[..4]);
  }

  lemma FourBytes(bs: seq<byte>)
    requires |bs| == 4
    ensures FromLittleEndian(bs)
            == bs[0] + 0x100 * (bs[1] as int) + 0x1_0000 * (bs[2] as int) + 0x100_0000 * (bs[3] as int)
  {
    var b1, b2, b3 := bs[1..], bs[2..], bs[3..];
    assert b1[1..] == b2 && b2[1..] == b3 && b3[1..] == [];
    assert FromLittleEndian(b3) == bs[3];
    assert FromLittleEndian(b2) == bs[2] + 0x100 * (bs[3] as int);
    assert FromLittleEndian(b1) == bs[1] + 0x100 * (bs[2] as int) + 0x1_0000 * (bs[3] as int);
  }

  /** Two's complement: the highest byte says whether the number is negative. */
  lemma Int64Value(bs: seq<byte>)
    requires |bs| >= 8
    ensures BytesToInt64(bs) == bs[0] + 0x100 * (bs[1] as int) + 0x1_0000 * (bs[2] as int) + 0x100_0000 * (bs[3] as int)
                                + 0x1_0000_0000 * (bs[4] + 0x100 * (bs[5] as int) + 0x1_0000 * (bs[6] as int)
                                  + 0x100_0000 * (bs[7] as int))
                                - (if bs[7] >= 128 then 0x1_0000_0000_0000_0000 else 0)
  {
    var low, high := bs[..4], bs[4..8];
    assert bs[..8] == low + high;
    FourBytes(low);
    FourBytes(high);
    HighBytes(low, high);
  }

  lemma HighBytes(low: seq<byte>, high: seq<byte>)
    requires |low| == 4
    ensures FromLittleEndian(low + high) == FromLittleEndian(low) + 0x1_0000_0000 * FromLittleEndian(high)
  {
    FourBytes(low);
    var bs := low + high;
    var b1, b2, b3 := bs[1..], bs[2..], bs[3..];
    assert b1[1..] == b2 && b2[1..] == b3 && b3[1..] == high;
    assert FromLittleEndian(b3) == low[3] + 0x100 * FromLittleEndian(high);
    assert FromLittleEndian(b2) == low[2] + 0x100 * FromLittleEndian(b3);
    assert FromLittleEndian(b1) == low[1] + 0x100 * FromLittleEndian(b2);
  }

  lemma BoolRoundTrip(b: bool)
    ensures BytesToBool(BoolToBytes(b)) == b && BoolToBytes(b) == [if b then 1 else 0]
  {
  }
}
