/** Bytes and words as numbers. */
module Bytes {

  /** The hexadecimal digit of value n. */
  function Digit(n: nat): bv4
    requires n < 16
  {
    n as bv4
  }

  function DigitValue(x: bv4): (n: nat)
    ensures n < 16
  {
    x as nat
  }

  function High(b: bv8): bv4 {
    (b >> 4) as bv4
  }

  function Low(b: bv8): bv4 {
    (b & 0x0F) as bv4
  }

  function Join(x: bv4, y: bv4): bv8 {
    ((x as bv8) << 4) | (y as bv8)
  }

  /** The byte of value n, by its two digits. */
  function ToByte(n: nat): bv8
    requires n < 256
  {
    Join(Digit(n / 16), Digit(n % 16))
  }

  function FromByte(b: bv8): (n: nat)
    ensures n < 256
  {
    16 * DigitValue(High(b)) + DigitValue(Low(b))
  }

  lemma Joined(x: bv4, y: bv4)
    ensures High(Join(x, y)) == x && Low(Join(x, y)) == y
  {
  }

  lemma Parted(b: bv8)
    ensures Join(High(b), Low(b)) == b
  {
  }

  lemma DigitOf(n: nat)
    requires n < 16
    ensures DigitValue(Digit(n)) == n
  {
  }

  lemma OfDigit(x: bv4)
    ensures Digit(DigitValue(x)) == x
  {
  }

  lemma ByteFromTo(n: nat)
    requires n < 256
    ensures FromByte(ToByte(n)) == n
  {
    hide Digit, DigitValue, High, Low, Join;
    DigitOf(n / 16);
    DigitOf(n % 16);
    Joined(Digit(n / 16), Digit(n % 16));
  }

  lemma ByteToFrom(b: bv8)
    ensures ToByte(FromByte(b)) == b
  {
    hide Digit, DigitValue, High, Low, Join;
    Parted(b);
    OfDigit(High(b));
    OfDigit(Low(b));
  }

  lemma ByteValue(b: bv8)
    ensures FromByte(b) == b as nat
  {
  }

  /** The byte of value n, as a number. */
  lemma ByteIs(n: nat)
    requires n < 256
    ensures ToByte(n) as nat == n
  {
    hide *;
    ByteFromTo(n);
    ByteValue(ToByte(n));
  }

  lemma WordAsNumber(a: bv16, b: bv16)
    requires a as nat == b as nat
    ensures a == b
  {
    assert (a as nat) as bv16 == a && (b as nat) as bv16 == b;
  }
}
