/**
 Little-endian numbers on bytes, for the log and the network alike: what a number of `n` bytes looks
 like and back again, and the sequential writer and reader that work byte by byte.
 */
module Wire {
  import opened Bytes
  import opened Orders

  /** A read that ran out of bytes, or a value that is not allowed, fails. */
  datatype Result<+T> = Success(value: T) | Failure {
    predicate IsFailure() {
      Failure?
    }
    function PropagateFailure<U>(): Result<U>
      requires Failure?
    {
      Failure
    }
    function Extract(): T
      requires Success?
    {
      value
    }
  }

  const TWO_TO_THE_32 := 0x1_0000_0000
  const TWO_TO_THE_63 := 0x8000_0000_0000_0000

  /** How many values fit in `n` bytes. */
  function Capacity(n: nat): nat {
    if n == 0 then 1 else 256 * Capacity(n - 1)
  }

  lemma Capacities()
    ensures Capacity(1) == 256 && Capacity(4) == TWO_TO_THE_32 && Capacity(8) == TWO_TO_THE_64
  {
    assert Capacity(2) == 256 * Capacity(1) && Capacity(3) == 256 * Capacity(2);
    assert Capacity(5) == 256 * Capacity(4) && Capacity(6) == 256 * Capacity(5);
    assert Capacity(7) == 256 * Capacity(6) && Capacity(8) == 256 * Capacity(7);
  }

  /** The low `n` bytes of a number, lowest first. */
  function Emitted(value: nat, n: nat): (bytes: seq<Byte>)
    ensures |bytes| == n
  {
    if n == 0 then [] else [(value % 256) as bv8] + Emitted(value / 256, n - 1)
  }

  /** The number that bytes spell, lowest first. */
  function Absorbed(bytes: seq<Byte>): (value: nat)
    ensures value < Capacity(|bytes|)
  {
    if bytes == [] then 0 else
      ByteRange(bytes[0]);
      (bytes[0] as nat) + 256 * Absorbed(bytes[1..])
  }

  /** Reading back what was written, whenever the number fits. */
  lemma {:induction false} AbsorbedEmitted(value: nat, n: nat)
    requires value < Capacity(n)
    ensures Absorbed(Emitted(value, n)) == value
  {
    if n > 0 {
      AbsorbedEmitted(value / 256, n - 1);
      ByteOfNumber(value % 256);
      assert Emitted(value, n)[1..] == Emitted(value / 256, n - 1);
    }
  }

  /** Writing what was read gives the same bytes: no two byte strings of a width spell one number. */
  lemma {:induction false} EmittedAbsorbed(bytes: seq<Byte>)
    ensures Emitted(Absorbed(bytes), |bytes|) == bytes
  {
    if bytes != [] {
      EmittedAbsorbed(bytes[1..]);
      NumberOfByte(bytes[0]);
      var low, high := bytes[0] as nat, Absorbed(bytes[1..]);
      LowAndHigh(low, high);
      EmittedFirst(low + 256 * high, low, high, |bytes|);
      assert bytes == [bytes[0]] + bytes[1..];
    }
  }

  lemma EmittedFirst(value: nat, low: nat, high: nat, n: nat)
    requires n > 0 && low < 256 && value % 256 == low && value / 256 == high
    ensures Emitted(value, n) == [low as bv8] + Emitted(high, n - 1)
  {
  }

  lemma LowAndHigh(low: nat, high: nat)
    requires low < 256
    ensures (low + 256 * high) % 256 == low && (low + 256 * high) / 256 == high
  {
  }

  // ----- Signed numbers travel in two's complement -----

  predicate IsI64(value: int) {
    -TWO_TO_THE_63 <= value < TWO_TO_THE_63
  }

  function AsUnsigned(value: int): nat
    requires IsI64(value)
  {
    if value < 0 then value + TWO_TO_THE_64 else value
  }

  function AsSigned(value: nat): (r: int)
    requires value < TWO_TO_THE_64
    ensures IsI64(r) && AsUnsigned(r) == value
  {
    if value < TWO_TO_THE_63 then value else value - TWO_TO_THE_64
  }

  /** A price that may be absent travels as a number all the same. */
  function PriceBits(price: Option<Price>): nat
    requires price.Some? ==> IsI64(price.value)
  {
    if price.Some? then AsUnsigned(price.value) else 0
  }

  function SideByte(side: Side): nat {
    if side == Buy then 0 else 1
  }

  // ----- Writing and reading byte by byte -----

  class Writer {
    var out: seq<Byte>

    constructor ()
      ensures out == []
    {
      out := [];
    }

    method Emit(value: nat, bytes: nat)
      modifies this
      ensures out == old(out) + Emitted(value, bytes)
    {
      var rest: nat := value;
      for i := 0 to bytes
        invariant out + Emitted(rest, bytes - i) == old(out) + Emitted(value, bytes)
      {
        ghost var was := out;
        out := out + [(rest % 256) as bv8];
        assert out + Emitted(rest / 256, bytes - i - 1) == was + Emitted(rest, bytes - i);
        rest := rest / 256;
      }
    }

    method U8(value: nat)
      modifies this
      ensures out == old(out) + Emitted(value, 1)
    {
      Emit(value, 1);
    }

    method U32(value: nat)
      modifies this
      ensures out == old(out) + Emitted(value, 4)
    {
      Emit(value, 4);
    }

    method U64(value: nat)
      modifies this
      ensures out == old(out) + Emitted(value, 8)
    {
      Emit(value, 8);
    }

    method I64(value: int)
      requires IsI64(value)
      modifies this
      ensures out == old(out) + Emitted(AsUnsigned(value), 8)
    {
      U64(AsUnsigned(value));
    }
  }

  /** The number standing at `pos`, or nothing if the bytes run out first. */
  function NumberAt(bytes: seq<Byte>, pos: nat, n: nat): nat
    requires pos + n <= |bytes|
  {
    Absorbed(bytes[pos..pos + n])
  }

  lemma {:induction false} AbsorbedSnoc(bytes: seq<Byte>, b: Byte)
    ensures Absorbed(bytes + [b]) == Absorbed(bytes) + (b as nat) * Capacity(|bytes|)
  {
    if bytes == [] {
      assert [b][1..] == [];
    } else {
      assert (bytes + [b])[1..] == bytes[1..] + [b];
      AbsorbedSnoc(bytes[1..], b);
      Regroup(b as nat, Capacity(|bytes| - 1));
    }
  }

  lemma Regroup(b: nat, c: nat)
    ensures 256 * (b * c) == b * (256 * c)
  {
  }

  function SignedAt(bytes: seq<Byte>, pos: nat): int
    requires pos + 8 <= |bytes|
  {
    Capacities();
    AsSigned(NumberAt(bytes, pos, 8))
  }

  lemma Regrouped<T>(a: seq<T>, b: seq<T>, c: seq<T>)
    ensures a + b + c == a + (b + c)
  {
  }

  class Reader {
    const input: seq<Byte>
    var pos: nat

    ghost predicate Valid()
      reads this
    {
      pos <= |input|
    }

    constructor (bytes: seq<Byte>)
      ensures Valid() && input == bytes && pos == 0
    {
      input := bytes;
      pos := 0;
    }

    method Consume(bytes: nat) returns (r: Result<nat>)
      requires Valid()
      modifies this
      ensures Valid()
      ensures r.Success? <==> old(pos) + bytes <= |input|
      ensures r.Success? ==> r.value == NumberAt(input, old(pos), bytes) && pos == old(pos) + bytes
      ensures r.Failure? ==> pos == old(pos)
    {
      if |input| - pos < bytes {
        return Failure;
      }
      var value, scale := 0, 1;
      for i := 0 to bytes
        invariant pos == old(pos)
        invariant value == NumberAt(input, pos, i) && scale == Capacity(i)
      {
        AbsorbedSnoc(input[pos..pos + i], input[pos + i]);
        assert input[pos..pos + i] + [input[pos + i]] == input[pos..pos + i + 1];
        value := value + (input[pos + i] as nat) * scale;
        scale := 256 * scale;
      }
      pos := pos + bytes;
      r := Success(value);
    }

    method U8() returns (r: Result<nat>)
      requires Valid()
      modifies this
      ensures Valid()
      ensures r.Success? <==> old(pos) < |input|
      ensures r.Success? ==> r.value == NumberAt(input, old(pos), 1) && pos == old(pos) + 1
      ensures r.Failure? ==> pos == old(pos)
    {
      r := Consume(1);
    }

    method U32() returns (r: Result<nat>)
      requires Valid()
      modifies this
      ensures Valid()
      ensures r.Success? <==> old(pos) + 4 <= |input|
      ensures r.Success? ==> r.value == NumberAt(input, old(pos), 4) && pos == old(pos) + 4
      ensures r.Failure? ==> pos == old(pos)
    {
      r := Consume(4);
    }

    method U64() returns (r: Result<nat>)
      requires Valid()
      modifies this
      ensures Valid()
      ensures r.Success? <==> old(pos) + 8 <= |input|
      ensures r.Success? ==> r.value == NumberAt(input, old(pos), 8) && pos == old(pos) + 8
      ensures r.Failure? ==> pos == old(pos)
    {
      r := Consume(8);
    }

    method I64() returns (r: Result<int>)
      requires Valid()
      modifies this
      ensures Valid()
      ensures r.Success? <==> old(pos) + 8 <= |input|
      ensures r.Success? ==> NumberAt(input, old(pos), 8) < TWO_TO_THE_64
      ensures r.Success? ==> r.value == AsSigned(NumberAt(input, old(pos), 8)) && pos == old(pos) + 8
      ensures r.Failure? ==> pos == old(pos)
    {
      Capacities();
      var raw :- U64();
      r := Success(AsSigned(raw));
    }
  }
}
