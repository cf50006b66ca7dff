/** Bytes and the numbers they stand for. */
module Bytes {

  type Byte = bv8

  lemma ByteRange(b: Byte)
    ensures (b as nat) < 256
  {
  }

  lemma NumberOfByte(b: Byte)
    ensures (b as nat) < 256 && ((b as nat) as bv8) == b
  {
  }

  lemma NextByte(b: Byte)
    ensures b == 255 ==> b as nat == 255
    ensures b != 255 ==> (b + 1) as nat == b as nat + 1
  {
  }

  lemma {:induction false} SomeByte(v: nat) returns (b: Byte)
    requires v < 256
    ensures b as nat == v
  {
    if v == 0 {
      b := 0;
    } else {
      var below := SomeByte(v - 1);
      NextByte(below);
      b := below + 1;
    }
  }

  lemma ByteOfNumber(v: nat)
    requires v < 256
    ensures (v as bv8) as nat == v
  {
    var b := SomeByte(v);
    NumberOfByte(b);
  }

  lemma SameByte(b: Byte, c: Byte)
    requires b as nat == c as nat
    ensures b == c
  {
    NumberOfByte(b);
    NumberOfByte(c);
  }
}
