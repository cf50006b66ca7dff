/**
 The record checksum: CRC-32 with the reflected polynomial of clause 3.2.9 of IEEE 802.3
 (section 8 of RFC 1952), computed from a table, and what it is good for.
 */
module Crc32 {
  import opened Bytes
  import opened Registers

  const POLYNOMIAL: bv32 := 0xEDB88320

  // ----- Reference: division one bit at a time -----

  predicate Odd(x: bv32) {
    x & 1 == 1
  }

  /** One bit of the division: shift, and subtract the polynomial when a one falls out. */
  function Shift(x: bv32): bv32 {
    if Odd(x) then (x >> 1) ^ POLYNOMIAL else x >> 1
  }

  function Xor(x: bv32, y: bv32): bv32 {
    x ^ y
  }

  function Double(x: bv32): bv32 {
    x << 1
  }

  predicate TopClear(x: bv32) {
    x & 0x8000_0000 == 0
  }

  const CRC: Register<bv32> := Register(32, 0, 1, Xor, Shift, Double, TopClear)

  /** The bits of a byte, least significant first. */
  function BitsOf(b: Byte): seq<bool> {
    [b & 1 != 0, b & 2 != 0, b & 4 != 0, b & 8 != 0, b & 16 != 0, b & 32 != 0, b & 64 != 0, b & 128 != 0]
  }

  function AllBits(bytes: seq<Byte>): seq<bool> {
    if bytes == [] then [] else AllBits(bytes[..|bytes| - 1]) + BitsOf(bytes[|bytes| - 1])
  }

  const ALL_ONES: bv32 := 0xFFFF_FFFF

  /** The checksum by long division: all ones in, every bit through, complement out. */
  function Checksum(bytes: seq<Byte>): bv32 {
    FeedBits(CRC, ALL_ONES, AllBits(bytes)) ^ ALL_ONES
  }

  // ----- The register obeys the laws -----

  lemma Parity(x: bv32, y: bv32)
    ensures Odd(x ^ y) <==> (Odd(x) != Odd(y))
  {
  }

  lemma HalvesOddOdd(x: bv32, y: bv32)
    ensures (x ^ y) >> 1 == ((x >> 1) ^ POLYNOMIAL) ^ ((y >> 1) ^ POLYNOMIAL)
  {
  }

  lemma HalvesOddEven(x: bv32, y: bv32)
    ensures ((x ^ y) >> 1) ^ POLYNOMIAL == ((x >> 1) ^ POLYNOMIAL) ^ (y >> 1)
    ensures ((x ^ y) >> 1) ^ POLYNOMIAL == (x >> 1) ^ ((y >> 1) ^ POLYNOMIAL)
  {
  }

  lemma HalvesEvenEven(x: bv32, y: bv32)
    ensures (x ^ y) >> 1 == (x >> 1) ^ (y >> 1)
  {
  }

  lemma ShiftLinear(x: bv32, y: bv32)
    ensures Shift(Xor(x, y)) == Xor(Shift(x), Shift(y))
  {
    Parity(x, y);
    if Odd(x) && Odd(y) {
      HalvesOddOdd(x, y);
    } else if Odd(x) || Odd(y) {
      HalvesOddEven(x, y);
    } else {
      HalvesEvenEven(x, y);
    }
  }

  lemma ShiftInjective(x: bv32, y: bv32)
    ensures Shift(x) == Shift(y) ==> x == y
  {
  }

  lemma XorMoves(x: bv32, y: bv32, z: bv32)
    ensures Xor(Xor(x, y), z) == Xor(x, Xor(y, z))
  {
  }

  lemma ShiftBack(x: bv32)
    ensures TopClear(x) ==> Shift(Double(x)) == x
  {
  }

  lemma CrcDivides()
    ensures Divides(CRC)
  {
    forall x, y ensures Shift(Xor(x, y)) == Xor(Shift(x), Shift(y)) {
      ShiftLinear(x, y);
    }
    forall x: bv32, b: bool, y: bv32
      ensures Xor(Xor(x, Low(CRC, b)), Double(y)) == Xor(x, Xor(Low(CRC, b), Double(y)))
    {
      XorMoves(x, Low(CRC, b), Double(y));
    }
    forall x ensures TopClear(x) ==> Shift(Double(x)) == x {
      ShiftBack(x);
    }
  }

  lemma DoubleXor(x: bv32, y: bv32)
    ensures Double(Xor(x, y)) == Xor(Double(x), Double(y))
  {
  }

  lemma XorClear(x: bv32, y: bv32)
    ensures TopClear(x) && TopClear(y) ==> TopClear(Xor(x, y))
  {
  }

  lemma RoomStep(x: bv32, room: nat)
    requires TopClear(x) && Room(CRC, Double(x), room)
    ensures Room(CRC, x, room + 1)
  {
  }

  lemma RoomForByte(x: bv32, room: nat)
    requires x & 0xFF00_0000 == 0 && Room(CRC, x << 8, room)
    ensures Room(CRC, x, room + 8)
  {
    ByteUp(x);
    RoomStep(x << 7, room);
    RoomStep(x << 6, room + 1);
    RoomStep(x << 5, room + 2);
    RoomStep(x << 4, room + 3);
    RoomStep(x << 3, room + 4);
    RoomStep(x << 2, room + 5);
    RoomStep(x << 1, room + 6);
    RoomStep(x, room + 7);
  }

  lemma ByteUp(x: bv32)
    requires x & 0xFF00_0000 == 0
    ensures TopClear(x) && TopClear(x << 1) && TopClear(x << 2) && TopClear(x << 3)
    ensures TopClear(x << 4) && TopClear(x << 5) && TopClear(x << 6) && TopClear(x << 7)
  {
  }

  lemma RoomForOne()
    ensures Room(CRC, 1, 31)
  {
    RoomStep(0x4000_0000, 0);
    RoomStep(0x2000_0000, 1);
    RoomStep(0x1000_0000, 2);
    RoomStep(0x0800_0000, 3);
    RoomStep(0x0400_0000, 4);
    RoomStep(0x0200_0000, 5);
    RoomStep(0x0100_0000, 6);
    RoomForByte(0x0001_0000, 7);
    RoomForByte(0x0000_0100, 15);
    RoomForByte(1, 23);
  }

  lemma CrcDoubles()
    ensures Doubles(CRC) && StaysClear(CRC)
  {
    forall x, y ensures Double(Xor(x, y)) == Xor(Double(x), Double(y)) {
      DoubleXor(x, y);
    }
    forall x, y ensures TopClear(x) && TopClear(y) ==> TopClear(Xor(x, y)) {
      XorClear(x, y);
    }
  }

  lemma CrcMovesUp()
    ensures MovesUp(CRC)
  {
    CrcDoubles();
    RoomForOne();
  }

  lemma XorCancels(x: bv32, y: bv32, z: bv32)
    ensures Xor(z, x) == Xor(z, y) ==> x == y
    ensures Xor(x, z) == Xor(y, z) ==> x == y
  {
  }

  lemma LowBit(x: bv32, y: bv32, b: bool, c: bool)
    requires TopClear(x) && TopClear(y)
    requires Xor(if b then 1 else 0, Double(x)) == Xor(if c then 1 else 0, Double(y))
    ensures b == c && x == y
  {
  }

  lemma CrcKeepsApart()
    ensures KeepsApart(CRC)
  {
    forall x, y ensures Shift(x) == Shift(y) ==> x == y {
      ShiftInjective(x, y);
    }
    forall x, y, z
      ensures Xor(z, x) == Xor(z, y) ==> x == y
      ensures Xor(x, z) == Xor(y, z) ==> x == y
    {
      XorCancels(x, y, z);
    }
    forall x, y, b, c | TopClear(x) && TopClear(y) && Xor(Low(CRC, b), Double(x)) == Xor(Low(CRC, c), Double(y))
      ensures b == c && x == y
    {
      LowBit(x, y, b, c);
    }
  }

  // ----- Bursts -----

  lemma BitsOfInjective(b: Byte, c: Byte)
    requires BitsOf(b) == BitsOf(c)
    ensures b == c
  {
    assert forall i :: 0 <= i < 8 ==> BitsOf(b)[i] == BitsOf(c)[i];
  }

  lemma {:induction false} AllBitsLength(bytes: seq<Byte>)
    ensures |AllBits(bytes)| == 8 * |bytes|
  {
    if bytes != [] {
      AllBitsLength(bytes[..|bytes| - 1]);
    }
  }

  lemma SameHalves<T>(a: seq<T>, a': seq<T>, b: seq<T>, b': seq<T>)
    requires |a| == |b| && a + a' == b + b'
    ensures a == b && a' == b'
  {
    assert (a + a')[..|a|] == a && (b + b')[..|b|] == b;
    assert (a + a')[|a|..] == a' && (b + b')[|b|..] == b';
  }

  lemma {:induction false} AllBitsInjective(a: seq<Byte>, b: seq<Byte>)
    requires AllBits(a) == AllBits(b)
    ensures a == b
  {
    AllBitsLength(a);
    AllBitsLength(b);
    if a != [] {
      var n := |a| - 1;
      AllBitsLength(a[..n]);
      AllBitsLength(b[..n]);
      SameHalves(AllBits(a[..n]), BitsOf(a[n]), AllBits(b[..n]), BitsOf(b[n]));
      BitsOfInjective(a[n], b[n]);
      AllBitsInjective(a[..n], b[..n]);
      assert a == a[..n] + [a[n]] && b == b[..n] + [b[n]];
    }
  }

  /** `a` and `b` differ, and only inside the bits `from` to `to`, at most 32 of them. */
  ghost predicate BurstApart(a: seq<Byte>, b: seq<Byte>, from: nat, to: nat) {
    var u, v := AllBits(a), AllBits(b);
    && a != b && |u| == |v|
    && from <= to <= |u| && to - from <= 32
    && u[..from] == v[..from] && u[to..] == v[to..]
  }

  /** No error burst of up to 32 bits, wherever it falls, leaves the checksum as it was. */
  lemma BurstDetected(a: seq<Byte>, b: seq<Byte>, from: nat, to: nat)
    requires BurstApart(a, b, from, to)
    ensures Checksum(a) != Checksum(b)
  {
    if AllBits(a) == AllBits(b) {
      AllBitsInjective(a, b);
    } else {
      CrcMovesUp();
      CrcDivides();
      CrcKeepsApart();
      BurstChangesRemainder(CRC, ALL_ONES, AllBits(a), AllBits(b), from, to);
      XorCancels(FeedBits(CRC, ALL_ONES, AllBits(a)), FeedBits(CRC, ALL_ONES, AllBits(b)), ALL_ONES);
    }
  }

  lemma {:induction false} AllBitsAppend(a: seq<Byte>, b: seq<Byte>)
    ensures AllBits(a + b) == AllBits(a) + AllBits(b)
  {
    if b == [] {
      assert a + b == a;
    } else {
      var n := |b| - 1;
      assert (a + b)[..|a + b| - 1] == a + b[..n];
      AllBitsAppend(a, b[..n]);
      assert AllBits(a) + AllBits(b[..n]) + BitsOf(b[n]) == AllBits(a) + (AllBits(b[..n]) + BitsOf(b[n]));
    }
  }

  /** The bits of a message in three parts: `n` bytes, then `m`, then the rest. */
  lemma BitsInThree(a: seq<Byte>, n: nat, m: nat)
    requires n + m <= |a|
    ensures |AllBits(a)| == 8 * |a|
    ensures AllBits(a)[..8 * n] == AllBits(a[..n]) && AllBits(a)[8 * (n + m)..] == AllBits(a[n + m..])
  {
    AllBitsLength(a);
    AllBitsLength(a[..n]);
    AllBitsLength(a[..n + m]);
    assert a == a[..n] + a[n..] && a == a[..n + m] + a[n + m..];
    AllBitsAppend(a[..n], a[n..]);
    AllBitsAppend(a[..n + m], a[n + m..]);
  }

  /** Any change confined to four consecutive bytes changes the checksum. */
  lemma FourBytesDetected(a: seq<Byte>, b: seq<Byte>, i: nat, n: nat)
    requires |a| == |b| && a != b && n <= 4 && i + n <= |a|
    requires a[..i] == b[..i] && a[i + n..] == b[i + n..]
    ensures BurstApart(a, b, 8 * i, 8 * (i + n)) && Checksum(a) != Checksum(b)
  {
    BitsInThree(a, i, n);
    BitsInThree(b, i, n);
    BurstDetected(a, b, 8 * i, 8 * (i + n));
  }

  /** The four bytes of a checksum, lowest first. */
  function CrcBytes(crc: bv32): (bytes: seq<Byte>)
    ensures |bytes| == 4
  {
    [(crc & 0xFF) as bv8, ((crc >> 8) & 0xFF) as bv8, ((crc >> 16) & 0xFF) as bv8, ((crc >> 24) & 0xFF) as bv8]
  }

  /** The checksum that four bytes spell. */
  function CrcOfBytes(bytes: seq<Byte>): (crc: bv32)
    requires |bytes| == 4
  {
    (bytes[0] as bv32) | ((bytes[1] as bv32) << 8) | ((bytes[2] as bv32) << 16) | ((bytes[3] as bv32) << 24)
  }

  lemma CrcBytesBack(crc: bv32)
    ensures CrcOfBytes(CrcBytes(crc)) == crc
  {
  }

  lemma CrcBytesThere(b0: Byte, b1: Byte, b2: Byte, b3: Byte)
    ensures CrcBytes(CrcOfBytes([b0, b1, b2, b3])) == [b0, b1, b2, b3]
  {
  }

  // ----- A byte at a time -----

  function Shifts(x: bv32, n: nat): bv32 {
    Iter(Shift, x, n)
  }

  lemma ShiftsLinear(x: bv32, y: bv32, n: nat)
    ensures Shifts(Xor(x, y), n) == Xor(Shifts(x, n), Shifts(y, n))
  {
    CrcDivides();
    IterLinear(CRC, x, y, n);
  }

  function Bit(b: bool): bv32 {
    if b then 1 else 0
  }

  lemma ByteOfBits(b: Byte)
    ensures Xor(Bit(b & 1 != 0), Double(Xor(Bit(b & 2 != 0), Double(Xor(Bit(b & 4 != 0), Double(
            Xor(Bit(b & 8 != 0), Double(Xor(Bit(b & 16 != 0), Double(Xor(Bit(b & 32 != 0), Double(
            Xor(Bit(b & 64 != 0), Double(Xor(Bit(b & 128 != 0), Double(0)))))))))))))))) == b as bv32
  {
    HighBits(b);
    LowBits(b);
  }

  lemma HighBits(b: Byte)
    ensures Xor(Bit(b & 16 != 0), Double(Xor(Bit(b & 32 != 0), Double(
            Xor(Bit(b & 64 != 0), Double(Xor(Bit(b & 128 != 0), Double(0)))))))) == (b >> 4) as bv32
  {
  }

  lemma LowBits(b: Byte)
    ensures Xor(Bit(b & 1 != 0), Double(Xor(Bit(b & 2 != 0), Double(Xor(Bit(b & 4 != 0), Double(
            Xor(Bit(b & 8 != 0), Double((b >> 4) as bv32)))))))) == b as bv32
  {
  }

  lemma ValueOfEight<T>(r: Register<T>, bits: seq<bool>)
    requires |bits| == 8
    ensures Value(r, bits) ==
            r.plus(Low(r, bits[0]), r.double(r.plus(Low(r, bits[1]), r.double(r.plus(Low(r, bits[2]), r.double(
            r.plus(Low(r, bits[3]), r.double(r.plus(Low(r, bits[4]), r.double(r.plus(Low(r, bits[5]), r.double(
            r.plus(Low(r, bits[6]), r.double(r.plus(Low(r, bits[7]), r.double(r.zero))))))))))))))))
  {
    assert Value(r, bits[7..]) == r.plus(Low(r, bits[7]), r.double(Value(r, bits[7..][1..])));
    assert Value(r, bits[6..]) == r.plus(Low(r, bits[6]), r.double(Value(r, bits[7..]))) by { assert bits[6..][1..] == bits[7..]; }
    assert Value(r, bits[5..]) == r.plus(Low(r, bits[5]), r.double(Value(r, bits[6..]))) by { assert bits[5..][1..] == bits[6..]; }
    assert Value(r, bits[4..]) == r.plus(Low(r, bits[4]), r.double(Value(r, bits[5..]))) by { assert bits[4..][1..] == bits[5..]; }
    assert Value(r, bits[3..]) == r.plus(Low(r, bits[3]), r.double(Value(r, bits[4..]))) by { assert bits[3..][1..] == bits[4..]; }
    assert Value(r, bits[2..]) == r.plus(Low(r, bits[2]), r.double(Value(r, bits[3..]))) by { assert bits[2..][1..] == bits[3..]; }
    assert Value(r, bits[1..]) == r.plus(Low(r, bits[1]), r.double(Value(r, bits[2..]))) by { assert bits[1..][1..] == bits[2..]; }
  }

  lemma ValueOfByte(b: Byte)
    ensures Value(CRC, BitsOf(b)) == b as bv32
  {
    forall bit ensures Low(CRC, bit) == Bit(bit) {
    }
    ValueOfEight(CRC, BitsOf(b));
    ByteOfBits(b);
  }

  /** The remainder after one more byte: add it in, then shift eight times. */
  function FeedByte(crc: bv32, b: Byte): bv32 {
    Shifts(Xor(crc, b as bv32), 8)
  }

  lemma FeedByteIsBits(crc: bv32, b: Byte)
    ensures FeedBits(CRC, crc, BitsOf(b)) == FeedByte(crc, b)
  {
    CrcMovesUp();
    CrcDivides();
    FeedWord(CRC, crc, BitsOf(b));
    ValueOfByte(b);
  }

  function Feed(crc: bv32, bytes: seq<Byte>): bv32 {
    if bytes == [] then crc else FeedByte(Feed(crc, bytes[..|bytes| - 1]), bytes[|bytes| - 1])
  }

  /** Byte by byte and bit by bit come to the same remainder. */
  lemma {:induction false} FeedIsBits(crc: bv32, bytes: seq<Byte>)
    ensures FeedBits(CRC, crc, AllBits(bytes)) == Feed(crc, bytes)
  {
    if bytes != [] {
      var n := |bytes| - 1;
      FeedIsBits(crc, bytes[..n]);
      FeedBitsAppend(CRC, crc, AllBits(bytes[..n]), BitsOf(bytes[n]));
      FeedByteIsBits(Feed(crc, bytes[..n]), bytes[n]);
    }
  }

  // ----- The table -----

  /** Eight shifts of a word whose low byte is zero just drop that byte. */
  lemma HighComesDown(y: bv32)
    requires y & 0xFF == 0
    ensures Shifts(y, 8) == y >> 8
  {
    ShiftEven(y);
    ShiftEven(y >> 1);
    ShiftEven(y >> 2);
    ShiftEven(y >> 3);
    ShiftEven(y >> 4);
    ShiftEven(y >> 5);
    ShiftEven(y >> 6);
    ShiftEven(y >> 7);
    IterUpTo8(Shift, y);
  }

  lemma ShiftEven(x: bv32)
    ensures !Odd(x) ==> Shift(x) == x >> 1
  {
  }

  lemma IterUpTo8<T>(f: T -> T, x: T)
    ensures Iter(f, x, 8) == f(f(f(f(f(f(f(f(x))))))))
  {
    assert Iter(f, x, 2) == f(Iter(f, x, 1)) && Iter(f, x, 1) == f(Iter(f, x, 0));
    assert Iter(f, x, 4) == f(Iter(f, x, 3)) && Iter(f, x, 3) == f(Iter(f, x, 2));
    assert Iter(f, x, 6) == f(Iter(f, x, 5)) && Iter(f, x, 5) == f(Iter(f, x, 4));
    assert Iter(f, x, 8) == f(Iter(f, x, 7)) && Iter(f, x, 7) == f(Iter(f, x, 6));
  }

  /** The table entry the next byte selects. */
  function Index(crc: bv32, b: Byte): Byte {
    ((crc ^ (b as bv32)) & 0xFF) as bv8
  }

  lemma FedParts(crc: bv32, b: Byte)
    ensures Xor(crc, b as bv32) == Xor((crc >> 8) << 8, Index(crc, b) as bv32)
    ensures ((crc >> 8) << 8) & 0xFF == 0
    ensures ((crc >> 8) << 8) >> 8 == crc >> 8
  {
  }

  /** One table lookup does the work of eight shifts. */
  lemma TableStep(crc: bv32, b: Byte)
    ensures Xor(crc >> 8, Shifts(Index(crc, b) as bv32, 8)) == FeedByte(crc, b)
  {
    FedParts(crc, b);
    ShiftsLinear((crc >> 8) << 8, Index(crc, b) as bv32, 8);
    HighComesDown((crc >> 8) << 8);
  }

  ghost predicate Entry(table: seq<bv32>, b: Byte) {
    (b as nat) < |table| && table[b as nat] == Shifts(b as bv32, 8)
  }

  ghost predicate IsTable(table: seq<bv32>) {
    forall b :: Entry(table, b)
  }

  lemma EntryAdded(table: seq<bv32>, c: Byte, entry: bv32)
    requires c as nat == |table| && entry == Shifts(c as bv32, 8)
    requires forall b: Byte :: (b as nat) < |table| ==> Entry(table, b)
    ensures forall b: Byte :: (b as nat) < |table| + 1 ==> Entry(table + [entry], b)
  {
    forall b: Byte | (b as nat) < |table| + 1 ensures Entry(table + [entry], b) {
      if (b as nat) < |table| {
        assert Entry(table, b);
      } else {
        SameByte(b, c);
      }
    }
  }

  method MakeCrcTable() returns (table: seq<bv32>)
    ensures IsTable(table)
  {
    table := [];
    for i := 0 to 256
      invariant |table| == i
      invariant forall b: Byte :: (b as nat) < i ==> Entry(table, b)
    {
      var index := i as bv8;
      var value := index as bv32;
      for bit := 0 to 8
        invariant value == Shifts(index as bv32, bit)
      {
        value := if Odd(value) then (value >> 1) ^ POLYNOMIAL else value >> 1;
      }
      ByteOfNumber(i);
      EntryAdded(table, index, value);
      table := table + [value];
    }
    forall b ensures Entry(table, b) {
      ByteRange(b);
    }
  }

  lemma FeedNext(crc: bv32, bytes: seq<Byte>, i: nat)
    requires i < |bytes|
    ensures Feed(crc, bytes[..i + 1]) == FeedByte(Feed(crc, bytes[..i]), bytes[i])
  {
    assert bytes[..i + 1][..i] == bytes[..i];
  }

  lemma FeedAll(crc: bv32, bytes: seq<Byte>)
    ensures FeedBits(CRC, crc, AllBits(bytes)) == Feed(crc, bytes[..|bytes|])
  {
    assert bytes[..|bytes|] == bytes;
    FeedIsBits(crc, bytes);
  }

  /** The checksum as the log computes it: one table lookup a byte. */
  method ComputeCrc32(table: seq<bv32>, bytes: seq<Byte>) returns (crc: bv32)
    requires IsTable(table)
    ensures crc == Checksum(bytes)
  {
    crc := ALL_ONES;
    for i := 0 to |bytes|
      invariant crc == Feed(ALL_ONES, bytes[..i])
    {
      var index := Index(crc, bytes[i]);
      assert Entry(table, index);
      TableStep(crc, bytes[i]);
      FeedNext(ALL_ONES, bytes, i);
      crc := Xor(crc >> 8, table[index as nat]);
    }
    FeedAll(ALL_ONES, bytes);
    crc := crc ^ ALL_ONES;
  }
}
