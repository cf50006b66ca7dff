/**
 Linear shift registers over any word type. Long division of a bit string by a polynomial is what
 such a register does, so the facts a checksum rests on are proved here once, from a few laws of the
 register, and hold for every word that obeys them.
 */
module Registers {

  function Iter<T>(f: T -> T, x: T, n: nat): T {
    if n == 0 then x else f(Iter(f, x, n - 1))
  }

  lemma {:induction false} IterFirst<T>(f: T -> T, x: T, n: nat)
    ensures Iter(f, f(x), n) == Iter(f, x, n + 1)
  {
    if n > 0 {
      IterFirst(f, x, n - 1);
    }
  }

  /**
   `shift` is one step of the division; `double` moves a word up one place, and `clear` says that no
   one falls off the top when it does.
   */
  datatype Register<!T> = Register(
    width: nat, zero: T, one: T, plus: (T, T) -> T, shift: T -> T, double: T -> T, clear: T -> bool)

  function Low<T>(r: Register<T>, bit: bool): T {
    if bit then r.one else r.zero
  }

  /** The word `x` can be moved up `room` times before a one falls off the top. */
  ghost predicate Room<T>(r: Register<T>, x: T, room: nat)
    decreases room
  {
    room > 0 ==> r.clear(x) && Room(r, r.double(x), room - 1)
  }

  ghost predicate Linear<T(!new)>(r: Register<T>) {
    forall x, y {:trigger r.shift(r.plus(x, y))} :: r.shift(r.plus(x, y)) == r.plus(r.shift(x), r.shift(y))
  }

  ghost predicate Injective<T(!new)>(r: Register<T>) {
    forall x, y :: r.shift(x) == r.shift(y) ==> x == y
  }

  ghost predicate Regroups<T(!new)>(r: Register<T>) {
    forall x, b, y {:trigger r.plus(r.plus(x, Low(r, b)), r.double(y))} ::
      r.plus(r.plus(x, Low(r, b)), r.double(y)) == r.plus(x, r.plus(Low(r, b), r.double(y)))
  }

  ghost predicate Cancels<T(!new)>(r: Register<T>) {
    && (forall x, y, z {:trigger r.plus(z, x), r.plus(z, y)} :: r.plus(z, x) == r.plus(z, y) ==> x == y)
    && (forall x, y, z {:trigger r.plus(x, z), r.plus(y, z)} :: r.plus(x, z) == r.plus(y, z) ==> x == y)
  }

  ghost predicate Unit<T(!new)>(r: Register<T>) {
    forall x {:trigger r.plus(x, r.zero)} :: r.plus(x, r.zero) == x
  }

  ghost predicate Doubles<T(!new)>(r: Register<T>) {
    forall x, y {:trigger r.double(r.plus(x, y))} :: r.double(r.plus(x, y)) == r.plus(r.double(x), r.double(y))
  }

  ghost predicate StaysClear<T(!new)>(r: Register<T>) {
    forall x, y {:trigger r.clear(r.plus(x, y))} :: r.clear(x) && r.clear(y) ==> r.clear(r.plus(x, y))
  }

  ghost predicate ComesBack<T(!new)>(r: Register<T>) {
    forall x {:trigger r.shift(r.double(x))} :: r.clear(x) ==> r.shift(r.double(x)) == x
  }

  ghost predicate LowBitSeen<T(!new)>(r: Register<T>) {
    forall x, y, b, c {:trigger r.plus(Low(r, b), r.double(x)), r.plus(Low(r, c), r.double(y))} ::
      r.clear(x) && r.clear(y) && r.plus(Low(r, b), r.double(x)) == r.plus(Low(r, c), r.double(y))
      ==> b == c && x == y
  }

  /** Words move up as many places as the width allows. */
  ghost predicate MovesUp<T(!new)>(r: Register<T>) {
    && Doubles(r) && StaysClear(r)
    && r.clear(r.zero) && r.double(r.zero) == r.zero
    && r.width > 0 && Room(r, r.one, r.width - 1)
  }

  /** Shifting divides, and brings down what was moved up. */
  ghost predicate Divides<T(!new)>(r: Register<T>) {
    Linear(r) && Regroups(r) && Unit(r) && ComesBack(r)
  }

  /** Nothing is lost on the way. */
  ghost predicate KeepsApart<T(!new)>(r: Register<T>) {
    Injective(r) && Cancels(r) && LowBitSeen(r)
  }

  // ----- Division one bit at a time -----

  /** Takes one message bit into the remainder. */
  function FeedBit<T>(r: Register<T>, x: T, bit: bool): T {
    r.shift(r.plus(x, Low(r, bit)))
  }

  function FeedBits<T>(r: Register<T>, x: T, bits: seq<bool>): T {
    if bits == [] then x else FeedBit(r, FeedBits(r, x, bits[..|bits| - 1]), bits[|bits| - 1])
  }

  lemma {:induction false} FeedBitsAppend<T>(r: Register<T>, x: T, a: seq<bool>, b: seq<bool>)
    ensures FeedBits(r, x, a + b) == FeedBits(r, FeedBits(r, x, a), b)
  {
    if b == [] {
      assert a + b == a;
    } else {
      var n := |b| - 1;
      assert (a + b)[..|a + b| - 1] == a + b[..n];
      FeedBitsAppend(r, x, a, b[..n]);
    }
  }

  lemma {:induction false} IterLinear<T(!new)>(r: Register<T>, x: T, y: T, n: nat)
    requires Linear(r)
    ensures Iter(r.shift, r.plus(x, y), n) == r.plus(Iter(r.shift, x, n), Iter(r.shift, y, n))
  {
    if n > 0 {
      IterLinear(r, x, y, n - 1);
    }
  }

  lemma {:induction false} IterInjective<T(!new)>(r: Register<T>, x: T, y: T, n: nat)
    requires Injective(r) && Iter(r.shift, x, n) == Iter(r.shift, y, n)
    ensures x == y
  {
    if n > 0 {
      IterInjective(r, x, y, n - 1);
    }
  }

  lemma {:induction false} FeedBitsInjective<T(!new)>(r: Register<T>, x: T, y: T, bits: seq<bool>)
    requires Injective(r) && Cancels(r)
    requires FeedBits(r, x, bits) == FeedBits(r, y, bits)
    ensures x == y
  {
    if bits != [] {
      FeedBitsInjective(r, x, y, bits[..|bits| - 1]);
    }
  }

  // ----- A register's width of bits at once -----

  /** The word that bits make, first bit lowest. */
  function Value<T>(r: Register<T>, bits: seq<bool>): T {
    if bits == [] then r.zero else r.plus(Low(r, bits[0]), r.double(Value(r, bits[1..])))
  }

  lemma {:induction false} RoomForBoth<T(!new)>(r: Register<T>, x: T, y: T, room: nat)
    requires Doubles(r) && StaysClear(r)
    requires Room(r, x, room) && Room(r, y, room)
    ensures Room(r, r.plus(x, y), room)
    decreases room
  {
    if room > 0 {
      RoomForBoth(r, r.double(x), r.double(y), room - 1);
    }
  }

  lemma {:induction false} RoomForLess<T>(r: Register<T>, x: T, room: nat, less: nat)
    requires less <= room && Room(r, x, room)
    ensures Room(r, x, less)
    decreases room
  {
    if less > 0 {
      RoomForLess(r, r.double(x), room - 1, less - 1);
    }
  }

  lemma {:induction false} RoomForZero<T>(r: Register<T>, room: nat)
    requires r.clear(r.zero) && r.double(r.zero) == r.zero
    ensures Room(r, r.zero, room)
  {
    if room > 0 {
      RoomForZero(r, room - 1);
    }
  }

  /** Fewer bits than the width leave the top of the word clear. */
  lemma {:induction false} RoomAbove<T(!new)>(r: Register<T>, bits: seq<bool>)
    requires MovesUp(r) && |bits| <= r.width
    ensures Room(r, Value(r, bits), r.width - |bits|)
  {
    RoomForZero(r, r.width - |bits|);
    if bits != [] {
      RoomAbove(r, bits[1..]);
      RoomForLess(r, r.one, r.width - 1, r.width - |bits|);
      RoomForBoth(r, Low(r, bits[0]), r.double(Value(r, bits[1..])), r.width - |bits|);
    }
  }

  lemma FeedBelow<T(!new)>(r: Register<T>, x: T, bit: bool, above: T)
    requires Divides(r) && r.clear(above)
    ensures r.plus(FeedBit(r, x, bit), above) == r.shift(r.plus(x, r.plus(Low(r, bit), r.double(above))))
  {
    assert r.shift(r.double(above)) == above;
    assert r.plus(r.plus(x, Low(r, bit)), r.double(above)) == r.plus(x, r.plus(Low(r, bit), r.double(above)));
  }

  /** Feeding up to a width of bits is adding their word to the remainder, then shifting it through. */
  lemma {:induction false} FeedWord<T(!new)>(r: Register<T>, x: T, bits: seq<bool>)
    requires MovesUp(r) && Divides(r) && |bits| <= r.width
    ensures FeedBits(r, x, bits) == Iter(r.shift, r.plus(x, Value(r, bits)), |bits|)
    decreases |bits|
  {
    if bits != [] {
      var one, more := [bits[0]], bits[1..];
      assert bits == one + more && one[..0] == [];
      FeedBitsAppend(r, x, one, more);
      assert FeedBits(r, x, one) == FeedBit(r, x, bits[0]);
      FeedWord(r, FeedBit(r, x, bits[0]), more);
      RoomAbove(r, more);
      FeedBelow(r, x, bits[0], Value(r, more));
      IterFirst(r.shift, r.plus(x, Value(r, bits)), |more|);
    }
  }

  /** Different bits make different words. */
  lemma {:induction false} ValueInjective<T(!new)>(r: Register<T>, a: seq<bool>, b: seq<bool>)
    requires MovesUp(r) && LowBitSeen(r) && |a| == |b| <= r.width && Value(r, a) == Value(r, b)
    ensures a == b
  {
    if a != [] {
      RoomAbove(r, a[1..]);
      RoomAbove(r, b[1..]);
      assert r.plus(Low(r, a[0]), r.double(Value(r, a[1..]))) == r.plus(Low(r, b[0]), r.double(Value(r, b[1..])));
      ValueInjective(r, a[1..], b[1..]);
      assert a == [a[0]] + a[1..] && b == [b[0]] + b[1..];
    }
  }

  lemma FeedWordsApart<T(!new)>(r: Register<T>, x: T, a: seq<bool>, b: seq<bool>)
    requires MovesUp(r) && Divides(r) && KeepsApart(r)
    && |a| == |b| <= r.width && a != b
    ensures FeedBits(r, x, a) != FeedBits(r, x, b)
  {
    FeedWord(r, x, a);
    FeedWord(r, x, b);
    if FeedBits(r, x, a) == FeedBits(r, x, b) {
      IterInjective(r, r.plus(x, Value(r, a)), r.plus(x, Value(r, b)), |a|);
      ValueInjective(r, a, b);
    }
  }

  // ----- Bursts -----

  lemma BurstBetween<T(!new)>(r: Register<T>, x: T, before: seq<bool>, a: seq<bool>, b: seq<bool>, after: seq<bool>)
    requires MovesUp(r) && Divides(r) && KeepsApart(r)
    requires |a| == |b| <= r.width && a != b
    ensures FeedBits(r, x, before + a + after) != FeedBits(r, x, before + b + after)
  {
    FeedBitsAppend(r, x, before + a, after);
    FeedBitsAppend(r, x, before + b, after);
    FeedBitsAppend(r, x, before, a);
    FeedBitsAppend(r, x, before, b);
    var start := FeedBits(r, x, before);
    FeedWordsApart(r, start, a, b);
    if FeedBits(r, x, before + a + after) == FeedBits(r, x, before + b + after) {
      FeedBitsInjective(r, FeedBits(r, start, a), FeedBits(r, start, b), after);
    }
  }

  lemma InThree(bits: seq<bool>, from: nat, to: nat)
    requires from <= to <= |bits|
    ensures bits[..from] + bits[from..to] + bits[to..] == bits
  {
  }

  /** Bit strings that differ only inside a window no wider than the register divide differently. */
  lemma BurstChangesRemainder<T(!new)>(r: Register<T>, x: T, a: seq<bool>, b: seq<bool>, from: nat, to: nat)
    requires MovesUp(r) && Divides(r) && KeepsApart(r)
    requires |a| == |b| && a != b && from <= to <= |a| && to - from <= r.width
    requires a[..from] == b[..from] && a[to..] == b[to..]
    ensures FeedBits(r, x, a) != FeedBits(r, x, b)
  {
    InThree(a, from, to);
    InThree(b, from, to);
    BurstBetween(r, x, a[..from], a[from..to], b[from..to], a[to..]);
  }
}
