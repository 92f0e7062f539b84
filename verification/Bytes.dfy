/** Bytes and the numbers they stand for, bit by bit. */
module Bytes {
  // ----- bits of a byte -----

  function Bit(on: bool, v: bv8): bv8 {
    if on then v else 0
  }

  function Has(b: bv8, v: bv8): bool {
    b & v != 0
  }

  /** The byte with the given bits, lowest first. */
  function Pack(b0: bool, b1: bool, b2: bool, b3: bool, b4: bool, b5: bool, b6: bool, b7: bool): bv8 {
    Bit(b0, 0x01) | Bit(b1, 0x02) | Bit(b2, 0x04) | Bit(b3, 0x08)
    | Bit(b4, 0x10) | Bit(b5, 0x20) | Bit(b6, 0x40) | Bit(b7, 0x80)
  }

  lemma PackHas(b0: bool, b1: bool, b2: bool, b3: bool, b4: bool, b5: bool, b6: bool, b7: bool)
    ensures var b := Pack(b0, b1, b2, b3, b4, b5, b6, b7);
      && Has(b, 0x01) == b0 && Has(b, 0x02) == b1 && Has(b, 0x04) == b2 && Has(b, 0x08) == b3
      && Has(b, 0x10) == b4 && Has(b, 0x20) == b5 && Has(b, 0x40) == b6 && Has(b, 0x80) == b7
  {
  }

  // ----- bits of a number -----

  function Half(n: nat): nat {
    n / 2
  }

  /** The lowest bit as a number. */
  function Parity(n: nat): nat {
    n % 2
  }

  // ----- bytes as numbers -----

  function ByteOf(n: nat): bv8
    requires n < 256
  {
    var h1 := Half(n);
    var h2 := Half(h1);
    var h3 := Half(h2);
    var h4 := Half(h3);
    var h5 := Half(h4);
    var h6 := Half(h5);
    var h7 := Half(h6);
    Pack(Parity(n) == 1, Parity(h1) == 1, Parity(h2) == 1, Parity(h3) == 1,
         Parity(h4) == 1, Parity(h5) == 1, Parity(h6) == 1, Parity(h7) == 1)
  }

  /** A bit as a number. */
  function Worth(b: bv8, v: bv8): (n: nat)
    ensures n < 2
  {
    if Has(b, v) then 1 else 0
  }

  function Num(b: bv8): (n: nat)
    ensures n < 256
  {
    Worth(b, 0x01) + 2 * Worth(b, 0x02) + 4 * Worth(b, 0x04) + 8 * Worth(b, 0x08)
    + 16 * Worth(b, 0x10) + 32 * Worth(b, 0x20) + 64 * Worth(b, 0x40) + 128 * Worth(b, 0x80)
  }

  lemma Halved(n: nat)
    ensures n == 2 * Half(n) + Parity(n) && Parity(n) < 2
  {
  }

  lemma Digits(n: nat, h1: nat, h2: nat, h3: nat, h4: nat, h5: nat, h6: nat, h7: nat)
    requires h1 == Half(n) && h2 == Half(h1) && h3 == Half(h2) && h4 == Half(h3)
    requires n < 256 && h5 == Half(h4) && h6 == Half(h5) && h7 == Half(h6)
    ensures n == Parity(n) + 2 * Parity(h1) + 4 * Parity(h2) + 8 * Parity(h3)
               + 16 * Parity(h4) + 32 * Parity(h5) + 64 * Parity(h6) + 128 * Parity(h7)
  {
    hide Half, Parity;
    Halved(n);
    Halved(h1);
    Halved(h2);
    Halved(h3);
    Halved(h4);
    Halved(h5);
    Halved(h6);
    Halved(h7);
  }

  lemma BitWorth(b: bv8, v: bv8, n: nat)
    requires Has(b, v) == (Parity(n) == 1)
    ensures Worth(b, v) == Parity(n)
  {
    hide Has;
  }

  lemma NumIsValue(b: bv8)
    ensures Num(b) == b as int
  {
  }

  lemma ByteValue(n: nat)
    requires n < 256
    ensures ByteOf(n) as int == n
  {
    hide ByteOf, Num;
    NumOfByte(n);
    NumIsValue(ByteOf(n));
  }

  lemma NumOfByte(n: nat)
    requires n < 256
    ensures Num(ByteOf(n)) == n
  {
    hide Has, Pack, Half, Parity, Worth;
    var h1 := Half(n);
    var h2 := Half(h1);
    var h3 := Half(h2);
    var h4 := Half(h3);
    var h5 := Half(h4);
    var h6 := Half(h5);
    var h7 := Half(h6);
    PackHas(Parity(n) == 1, Parity(h1) == 1, Parity(h2) == 1, Parity(h3) == 1,
            Parity(h4) == 1, Parity(h5) == 1, Parity(h6) == 1, Parity(h7) == 1);
    var b := ByteOf(n);
    BitWorth(b, 0x01, n);
    BitWorth(b, 0x02, h1);
    BitWorth(b, 0x04, h2);
    BitWorth(b, 0x08, h3);
    BitWorth(b, 0x10, h4);
    BitWorth(b, 0x20, h5);
    BitWorth(b, 0x40, h6);
    BitWorth(b, 0x80, h7);
    Digits(n, h1, h2, h3, h4, h5, h6, h7);
  }
}
