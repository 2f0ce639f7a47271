/** CRC-16 with generator x^16 + x^12 + x^5 + 1, preset to all ones, and what it detects. */
module Crc {

  type Byte = bv8

  const PRESET: bv16 := 0xFFFF

  function Xor(a: bv16, b: bv16): bv16 {
    a ^ b
  }

  function Left(a: bv16): bv16 {
    a << 1
  }

  predicate High(a: bv16) {
    a & 0x8000 != 0
  }

  const GENERATOR: bv16 := 0x1021

  /** One shift of the register. */
  function Shift(r: bv16): bv16 {
    if High(r) then Xor(Left(r), GENERATOR) else Left(r)
  }

  function Top(b: bool): bv16 {
    if b then 0x8000 else 0
  }

  /** Bit-serial feeding: each message bit is added at the top of the register before the shift. */
  function Feed(r: bv16, bits: seq<bool>): bv16
    decreases |bits|
  {
    if bits == [] then r else Feed(Shift(Xor(r, Top(bits[0]))), bits[1..])
  }

  function ByteBits(b: Byte): (s: seq<bool>)
    ensures |s| == 8
  {
    [b & 0x80 != 0, b & 0x40 != 0, b & 0x20 != 0, b & 0x10 != 0, b & 0x08 != 0, b & 0x04 != 0, b & 0x02 != 0,
     b & 0x01 != 0]
  }

  /** The bits of a message, most significant bit of each byte first. */
  function Bits(data: seq<Byte>): (s: seq<bool>)
    ensures |s| == 8 * |data|
  {
    if data == [] then [] else ByteBits(data[0]) + Bits(data[1..])
  }

  /** The checksum of a message: its bits fed into the preset register. */
  function Checksum(data: seq<Byte>): bv16 {
    Feed(PRESET, Bits(data))
  }

  lemma {:induction false} FeedConcat(r: bv16, s: seq<bool>, t: seq<bool>)
    ensures Feed(r, s + t) == Feed(Feed(r, s), t)
    decreases |s|
  {
    hide Shift, Xor, Top;
    if s == [] {
      assert s + t == t;
    } else {
      assert (s + t)[1..] == s[1..] + t;
      FeedConcat(Shift(Xor(r, Top(s[0]))), s[1..], t);
    }
  }

  lemma {:induction false} BitsConcat(s: seq<Byte>, t: seq<Byte>)
    ensures Bits(s + t) == Bits(s) + Bits(t)
    decreases |s|
  {
    if s == [] {
      assert s + t == t;
    } else {
      assert (s + t)[1..] == s[1..] + t;
      BitsConcat(s[1..], t);
    }
  }

  // ---- The register is linear ------------------------------------------------

  lemma XorAssoc(a: bv16, b: bv16, c: bv16)
    ensures Xor(Xor(a, b), c) == Xor(a, Xor(b, c))
  {
  }

  lemma XorCommutes(a: bv16, b: bv16)
    ensures Xor(a, b) == Xor(b, a)
  {
  }

  lemma XorSwap(a: bv16, b: bv16, c: bv16)
    ensures Xor(Xor(a, b), c) == Xor(Xor(a, c), b)
  {
    hide Xor;
    XorAssoc(a, b, c);
    XorCommutes(b, c);
    XorAssoc(a, c, b);
  }

  lemma XorCancel(a: bv16, b: bv16, c: bv16)
    ensures Xor(Xor(a, c), Xor(b, c)) == Xor(a, b)
  {
    hide Xor;
    XorAssoc(a, c, Xor(b, c));
    XorCommutes(b, c);
    XorAssoc(c, c, b);
    XorZero(c);
    XorZero(b);
  }

  lemma XorZero(a: bv16)
    ensures Xor(a, 0) == a && Xor(0, a) == a && Xor(a, a) == 0
  {
  }

  lemma XorIsZero(a: bv16, b: bv16)
    ensures Xor(a, b) == 0 <==> a == b
  {
    hide Xor;
    XorZero(a);
    XorZero(b);
    XorAssoc(a, b, b);
  }

  lemma XorLeft(a: bv16, b: bv16)
    ensures Left(Xor(a, b)) == Xor(Left(a), Left(b))
  {
  }

  lemma XorHigh(a: bv16, b: bv16)
    ensures High(Xor(a, b)) == (High(a) != High(b))
  {
  }

  /** Shifting a sum is adding the shifts. */
  lemma ShiftLinear(a: bv16, b: bv16)
    ensures Shift(Xor(a, b)) == Xor(Shift(a), Shift(b))
  {
    hide Xor, Left, High;
    XorHigh(a, b);
    XorLeft(a, b);
    XorAssoc(Left(a), Left(b), GENERATOR);
    XorSwap(Left(a), Left(b), GENERATOR);
    XorCancel(Left(a), Left(b), GENERATOR);
  }

  /** Shifting loses nothing: only the zero register shifts to zero. */
  lemma ShiftNonzero(a: bv16)
    ensures Shift(a) == 0 <==> a == 0
  {
  }

  // ---- The byte-wise loop ----------------------------------------------------

  function Shifts(r: bv16, n: nat): bv16
    decreases n
  {
    if n == 0 then r else Shifts(Shift(r), n - 1)
  }

  /** The top bit of a word, in place. */
  function TopOf(w: bv16): bv16 {
    Top(High(w))
  }

  /** Feeding the top n bits of a word one at a time. */
  function FeedWord(r: bv16, w: bv16, n: nat): bv16
    decreases n
  {
    if n == 0 then r else FeedWord(Shift(Xor(r, TopOf(w))), Left(w), n - 1)
  }

  function LeftShifts(w: bv16, n: nat): bv16
    decreases n
  {
    if n == 0 then w else LeftShifts(Left(w), n - 1)
  }

  lemma SplitTop(w: bv16)
    ensures w == Xor(TopOf(w), w & 0x7FFF)
  {
    if w & 0x8000 != 0 {
      SplitHigh(w);
    } else {
      SplitLow(w);
    }
  }

  lemma SplitHigh(w: bv16)
    requires w & 0x8000 != 0
    ensures w == 0x8000 ^ (w & 0x7FFF)
  {
  }

  lemma SplitLow(w: bv16)
    requires w & 0x8000 == 0
    ensures w == 0 ^ (w & 0x7FFF)
  {
  }

  lemma RestShifted(w: bv16)
    ensures Shift(w & 0x7FFF) == Left(w)
  {
    assert (w & 0x7FFF) & 0x8000 == 0;
    assert (w & 0x7FFF) << 1 == w << 1;
  }

  lemma ShiftSplitsTop(r: bv16, w: bv16)
    ensures Shift(Xor(r, w)) == Xor(Shift(Xor(r, TopOf(w))), Left(w))
  {
    SplitTop(w);
    RestShifted(w);
    hide Xor, Left, Shift, TopOf;
    var low := w & 0x7FFF;
    XorAssoc(r, TopOf(w), low);
    ShiftLinear(Xor(r, TopOf(w)), low);
  }

  /** Adding a whole word and then shifting n times is feeding its top n bits, up to the bits not yet fed. */
  lemma {:induction false} WordAtOnce(r: bv16, w: bv16, n: nat)
    ensures Shifts(Xor(r, w), n) == Xor(FeedWord(r, w, n), LeftShifts(w, n))
    decreases n
  {
    hide Xor, Left, Shift, TopOf;
    if n > 0 {
      ShiftSplitsTop(r, w);
      WordAtOnce(Shift(Xor(r, TopOf(w))), Left(w), n - 1);
    }
  }

  lemma {:induction false} FeedWordIsFeed(r: bv16, w: bv16, bits: seq<bool>)
    requires forall i :: 0 <= i < |bits| ==> (bits[i] <==> High(LeftShifts(w, i)))
    ensures FeedWord(r, w, |bits|) == Feed(r, bits)
    decreases |bits|
  {
    hide Xor, Left, Shift, High, Top;
    if bits != [] {
      assert LeftShifts(w, 0) == w;
      assert bits[0] <==> High(w);
      forall i | 0 <= i < |bits| - 1 ensures bits[1..][i] <==> High(LeftShifts(Left(w), i)) {
        assert LeftShifts(w, i + 1) == LeftShifts(Left(w), i);
      }
      FeedWordIsFeed(Shift(Xor(r, TopOf(w))), Left(w), bits[1..]);
    }
  }

  lemma {:induction false} ShiftsAdd(w: bv16, m: nat, n: nat)
    ensures LeftShifts(w, m + n) == LeftShifts(LeftShifts(w, m), n)
    decreases m
  {
    hide Left;
    if m > 0 {
      ShiftsAdd(Left(w), m - 1, n);
    }
  }

  // ---- The bits of a register -------------------------------------------------

  /** The bits of a register, most significant first: what leaves it at the top, shift after shift. */
  function WordBits(w: bv16): (s: seq<bool>)
    ensures |s| == 16
  {
    seq(16, i requires 0 <= i < 16 => High(LeftShifts(w, i)))
  }

  /** w and what is left of it after each of sixteen shifts. */
  function Shifted(w: bv16): (ws: seq<bv16>)
    ensures |ws| == 17
  {
    [w, w << 1, w << 2, w << 3, w << 4, w << 5, w << 6, w << 7, w << 8, w << 9, w << 10, w << 11, w << 12, w << 13,
     w << 14, w << 15, w << 16]
  }

  lemma LeftOf(w: bv16)
    ensures Left(w) == w << 1
    ensures Left(w << 1) == w << 2
    ensures Left(w << 2) == w << 3
    ensures Left(w << 3) == w << 4
    ensures Left(w << 4) == w << 5
    ensures Left(w << 5) == w << 6
    ensures Left(w << 6) == w << 7
    ensures Left(w << 7) == w << 8
    ensures Left(w << 8) == w << 9
    ensures Left(w << 9) == w << 10
    ensures Left(w << 10) == w << 11
    ensures Left(w << 11) == w << 12
    ensures Left(w << 12) == w << 13
    ensures Left(w << 13) == w << 14
    ensures Left(w << 14) == w << 15
    ensures Left(w << 15) == w << 16
  {
  }

  lemma ShiftedNext(w: bv16)
    ensures forall i :: 0 <= i < 16 ==> Left(Shifted(w)[i]) == Shifted(w)[i + 1]
  {
    LeftOf(w);
    hide Left;
  }

  lemma ShiftedEnds(w: bv16)
    ensures Shifted(w)[0] == w && Shifted(w)[16] == 0
  {
  }

  lemma NoHigh()
    ensures !High(0) && Left(0) == 0
  {
  }

  lemma {:induction false} ChainOfLefts(ws: seq<bv16>, n: nat)
    requires n < |ws| && forall i :: 0 <= i < |ws| - 1 ==> Left(ws[i]) == ws[i + 1]
    ensures LeftShifts(ws[0], n) == ws[n]
    decreases n
  {
    hide Left;
    if n > 0 {
      ChainOfLefts(ws[1..], n - 1);
      assert Left(ws[0]) == ws[1];
    }
  }

  lemma ShiftedAt(w: bv16, n: nat)
    requires n <= 16
    ensures LeftShifts(w, n) == Shifted(w)[n]
  {
    hide Left, LeftShifts, Shifted;
    ShiftedNext(w);
    ShiftedEnds(w);
    ChainOfLefts(Shifted(w), n);
  }

  /** After sixteen shifts nothing is left. */
  lemma Emptied(w: bv16)
    ensures LeftShifts(w, 16) == 0
  {
    hide *;
    ShiftedAt(w, 16);
    ShiftedEnds(w);
  }

  /** The bits of a register, read off the shifted words. */
  lemma WordBitsAt(w: bv16)
    ensures forall i :: 0 <= i < 16 ==> WordBits(w)[i] == High(Shifted(w)[i])
  {
    hide High, LeftShifts, Shifted;
    forall i | 0 <= i < 16 ensures WordBits(w)[i] == High(Shifted(w)[i]) {
      ShiftedAt(w, i);
    }
  }

  lemma FirstBit(w: bv16)
    ensures WordBits(w)[0] == High(w)
  {
  }

  /** Shifting left drops the first bit and appends a zero. */
  lemma WordBitsLeft(w: bv16)
    ensures WordBits(Left(w)) == WordBits(w)[1..] + [false]
  {
    hide Left, High;
    Emptied(w);
    NoHigh();
    forall i | 0 <= i < 16 ensures WordBits(Left(w))[i] == High(LeftShifts(w, i + 1)) {
    }
  }

  lemma {:induction false} LeftShiftsXor(a: bv16, b: bv16, n: nat)
    ensures LeftShifts(Xor(a, b), n) == Xor(LeftShifts(a, n), LeftShifts(b, n))
    decreases n
  {
    hide Xor, Left;
    if n > 0 {
      XorLeft(a, b);
      LeftShiftsXor(Left(a), Left(b), n - 1);
    }
  }

  /** Adding registers adds their bits. */
  lemma WordBitsXor(a: bv16, b: bv16)
    ensures forall i :: 0 <= i < 16 ==> WordBits(Xor(a, b))[i] == (WordBits(a)[i] != WordBits(b)[i])
  {
    hide Xor, High, LeftShifts;
    forall i | 0 <= i < 16 ensures WordBits(Xor(a, b))[i] == (WordBits(a)[i] != WordBits(b)[i]) {
      LeftShiftsXor(a, b, i);
      XorHigh(LeftShifts(a, i), LeftShifts(b, i));
    }
  }

  /** w holds the byte b in its upper half. */
  predicate Upper(w: bv16, b: Byte) {
    w == (b as bv16) << 8
  }

  lemma UpperHigh(b: Byte)
    ensures forall i :: 0 <= i < 8 ==> High(Shifted(b as bv16)[8 + i]) == ByteBits(b)[i]
  {
  }

  lemma UpperWord(b: Byte, w: bv16)
    requires Upper(w, b)
    ensures w == Shifted(b as bv16)[8]
  {
  }

  /** The loop body of the byte-wise algorithm feeds the eight bits of the byte. */
  lemma ByteAtOnce(r: bv16, b: Byte)
    ensures Shifts(Xor(r, (b as bv16) << 8), 8) == Feed(r, ByteBits(b))
  {
    var w := (b as bv16) << 8;
    assert Upper(w, b);
    hide *;
    WordAtOnce(r, w, 8);
    ByteShifts(b, w);
    XorZero(FeedWord(r, w, 8));
    FeedWordIsFeed(r, w, ByteBits(b));
  }

  lemma ByteShifts(b: Byte, w: bv16)
    requires Upper(w, b)
    ensures forall i :: 0 <= i < 8 ==> (ByteBits(b)[i] <==> High(LeftShifts(w, i)))
    ensures LeftShifts(w, 8) == 0
  {
    hide *;
    var u := b as bv16;
    UpperHigh(b);
    UpperWord(b, w);
    ShiftedAt(u, 8);
    forall i | 0 <= i < 8 ensures ByteBits(b)[i] <==> High(LeftShifts(w, i)) {
      ShiftsAdd(u, 8, i);
      ShiftedAt(u, 8 + i);
    }
    ShiftsAdd(u, 8, 8);
    Emptied(u);
  }

  method ShiftOnce(crc: bv16) returns (next: bv16)
    ensures next == Shift(crc)
  {
    if crc & 0x8000 != 0 {
      next := (crc << 1) ^ 0x1021;
    } else {
      next := crc << 1;
    }
  }

  method AddByte(crc: bv16, b: Byte) returns (next: bv16)
    ensures next == Xor(crc, (b as bv16) << 8)
  {
    next := crc ^ ((b as bv16) << 8);
  }

  lemma {:induction false} OneMoreByte(data: seq<Byte>, n: nat)
    requires n < |data|
    ensures Feed(PRESET, Bits(data[..n + 1])) == Feed(Feed(PRESET, Bits(data[..n])), ByteBits(data[n]))
  {
    hide Feed, ByteBits;
    assert data[..n + 1] == data[..n] + [data[n]];
    BitsConcat(data[..n], [data[n]]);
    assert Bits([data[n]]) == ByteBits(data[n]) + Bits([data[n]][1..]);
    assert Bits([data[n]]) == ByteBits(data[n]);
    FeedConcat(PRESET, Bits(data[..n]), ByteBits(data[n]));
  }

  /** The inner loop: eight conditional shifts. */
  method EightShifts(start: bv16) returns (crc: bv16)
    ensures crc == Shifts(start, 8)
  {
    hide Shift;
    crc := start;
    for i := 0 to 8
      invariant Shifts(start, 8) == Shifts(crc, 8 - i)
    {
      crc := ShiftOnce(crc);
    }
  }

  /** crc16, as the source computes it: add each byte at the top, then eight conditional shifts. */
  method Crc16(data: seq<Byte>) returns (crc: bv16)
    ensures crc == Checksum(data)
  {
    crc := PRESET;
    assert Feed(PRESET, Bits(data[..0])) == PRESET;
    hide Xor, Shift, Shifts, Feed, ByteBits, Bits;
    for n := 0 to |data|
      invariant crc == Feed(PRESET, Bits(data[..n]))
    {
      ghost var before := crc;
      crc := AddByte(crc, data[n]);
      crc := EightShifts(crc);
      ByteAtOnce(before, data[n]);
      OneMoreByte(data, n);
    }
    assert data[..|data|] == data;
  }

  function Four(r: bv16): bv16 {
    Shift(Shift(Shift(Shift(r))))
  }

  /** The register r after one more byte. */
  function Absorb(r: bv16, b: Byte): bv16 {
    Four(Four(Xor(r, (b as bv16) << 8)))
  }

  lemma FourShifts(r: bv16, n: nat)
    ensures Shifts(r, n + 4) == Shifts(Four(r), n)
  {
    hide Shift;
    var r2 := Shift(Shift(r));
    assert Shifts(r, n + 4) == Shifts(r2, n + 2);
  }

  lemma Absorbs(r: bv16, b: Byte)
    ensures Absorb(r, b) == Feed(r, ByteBits(b))
  {
    hide Xor, Four, Feed, ByteBits;
    var x := Xor(r, (b as bv16) << 8);
    FourShifts(x, 4);
    FourShifts(Four(x), 0);
    ByteAtOnce(r, b);
  }

  /** The registers between the bytes of a message, from the preset to the checksum. */
  lemma {:induction false} Registers(data: seq<Byte>, regs: seq<bv16>)
    requires |regs| == |data| + 1 && regs[0] == PRESET
    requires forall i :: 0 <= i < |data| ==> regs[i + 1] == Absorb(regs[i], data[i])
    ensures Checksum(data) == regs[|data|]
  {
    assert Feed(PRESET, Bits(data[..0])) == PRESET;
    hide Absorb, Feed, Bits, ByteBits;
    for n := 0 to |data|
      invariant regs[n] == Feed(PRESET, Bits(data[..n]))
    {
      Absorbs(regs[n], data[n]);
      OneMoreByte(data, n);
    }
    assert data[..|data|] == data;
  }

  lemma FirstRegisters()
    ensures Absorb(0xFFFF, 0x31) == 0xC782 && Absorb(0xC782, 0x32) == 0x3DBA && Absorb(0x3DBA, 0x33) == 0x5BCE
  {
  }

  lemma MiddleRegisters()
    ensures Absorb(0x5BCE, 0x34) == 0x5349 && Absorb(0x5349, 0x35) == 0x4560 && Absorb(0x4560, 0x36) == 0x2EF4
  {
  }

  lemma LastRegisters()
    ensures Absorb(0x2EF4, 0x37) == 0x7718 && Absorb(0x7718, 0x38) == 0xA12B && Absorb(0xA12B, 0x39) == 0x29B1
  {
  }

  /** The published check value: the checksum of the nine ASCII digits "123456789"; and that of no bytes. */
  lemma CheckValue()
    ensures Checksum([0x31, 0x32, 0x33, 0x34, 0x35, 0x36, 0x37, 0x38, 0x39]) == 0x29B1
    ensures Checksum([]) == 0xFFFF
  {
    hide Absorb, Checksum;
    Registers([], [0xFFFF]);
    FirstRegisters();
    MiddleRegisters();
    LastRegisters();
    Registers([0x31, 0x32, 0x33, 0x34, 0x35, 0x36, 0x37, 0x38, 0x39],
              [0xFFFF, 0xC782, 0x3DBA, 0x5BCE, 0x5349, 0x4560, 0x2EF4, 0x7718, 0xA12B, 0x29B1]);
  }

  // ---- Polynomial division ---------------------------------------------------

  /** Adds the polynomial p to the leading terms of d. */
  function AddLeading(d: seq<bool>, p: seq<bool>): (s: seq<bool>)
    requires |p| <= |d|
    ensures |s| == |d|
  {
    seq(|d|, i requires 0 <= i < |d| => if i < |p| then d[i] != p[i] else d[i])
  }

  /** The generator x^16 + x^12 + x^5 + 1 without its leading term. */
  function GeneratorTail(): (p: seq<bool>)
    ensures |p| == 16
  {
    [false, false, false, true, false, false, false, false, false, false, true, false, false, false, false, true]
  }

  /** Long division over GF(2): while more than sixteen terms are left, cancel the leading one with the generator. */
  function Remainder(d: seq<bool>): (r: seq<bool>)
    requires |d| >= 16
    ensures |r| == 16
    decreases |d|
  {
    if |d| == 16 then d
    else Remainder(if d[0] then AddLeading(d[1..], GeneratorTail()) else d[1..])
  }

  function Zeros(n: nat): (s: seq<bool>)
    ensures |s| == n
  {
    seq(n, i => false)
  }

  lemma GeneratorHigh()
    ensures forall i :: 0 <= i < 16 ==> High(Shifted(GENERATOR)[i]) == GeneratorTail()[i]
  {
  }

  lemma GeneratorBits()
    ensures WordBits(GENERATOR) == GeneratorTail()
  {
    hide *;
    GeneratorHigh();
    WordBitsAt(GENERATOR);
  }

  lemma TopShifts(b: bool)
    ensures High(Top(b)) == b && Left(Top(b)) == 0
  {
  }

  lemma {:induction false} ZeroShifts(n: nat)
    ensures LeftShifts(0, n) == 0
    decreases n
  {
    NoHigh();
    hide Left;
    if n > 0 {
      ZeroShifts(n - 1);
    }
  }

  lemma TopBits(b: bool)
    ensures forall i :: 0 <= i < 16 ==> WordBits(Top(b))[i] == (i == 0 && b)
  {
    TopShifts(b);
    NoHigh();
    hide Left, High, Top;
    forall i | 0 <= i < 16 ensures WordBits(Top(b))[i] == (i == 0 && b) {
      if i > 0 {
        ZeroShifts(i - 1);
      }
    }
  }

  /** The bits of a register shifted with the message bit b added at its top. */
  lemma StepBits(r: bv16, b: bool)
    ensures var r', lead := Shift(Xor(r, Top(b))), WordBits(r)[0] != b;
            forall i :: 0 <= i < 16 ==>
              WordBits(r')[i] == ((i < 15 && WordBits(r)[i + 1]) != (lead && GeneratorTail()[i]))
  {
    hide WordBits, Xor, Left, High, Top, GeneratorTail;
    var x := Xor(r, Top(b));
    WordBitsXor(r, Top(b));
    TopBits(b);
    assert High(x) == (WordBits(r)[0] != b) by {
      FirstBit(x);
    }
    GeneratorBits();
    WordBitsLeft(x);
    WordBitsXor(Left(x), GENERATOR);
    forall i | 0 <= i < 16 ensures WordBits(Left(x))[i] == (i < 15 && WordBits(r)[i + 1]) {
      if i < 15 {
        assert WordBits(Left(x))[i] == WordBits(x)[i + 1];
      }
    }
  }

  /** One step of the division cancels the first message bit and leaves the shifted register at the front. */
  lemma DivisionStep(r: bv16, m: seq<bool>)
    requires |m| >= 17
    ensures var d := AddLeading(m, WordBits(r));
            AddLeading(m[1..], WordBits(Shift(Xor(r, Top(m[0])))))
            == if d[0] then AddLeading(d[1..], GeneratorTail()) else d[1..]
  {
    StepBits(r, m[0]);
    hide WordBits, Xor, Top, Shift, GeneratorTail;
    var d, r' := AddLeading(m, WordBits(r)), Shift(Xor(r, Top(m[0])));
    var left, right := AddLeading(m[1..], WordBits(r')), if d[0] then AddLeading(d[1..], GeneratorTail()) else d[1..];
    forall i | 0 <= i < |m| - 1 ensures left[i] == right[i] {
      if i < 16 {
        assert WordBits(r')[i] == ((i < 15 && WordBits(r)[i + 1]) != ((WordBits(r)[0] != m[0]) && GeneratorTail()[i]));
      }
    }
  }

  lemma {:induction false} FeedIsDivision(r: bv16, bits: seq<bool>)
    ensures WordBits(Feed(r, bits)) == Remainder(AddLeading(bits + Zeros(16), WordBits(r)))
    decreases |bits|
  {
    hide WordBits, Xor, Top, Shift, GeneratorTail, AddLeading;
    var m := bits + Zeros(16);
    if bits == [] {
      assert m == Zeros(16);
      AddToZeros(WordBits(r));
    } else {
      var r' := Shift(Xor(r, Top(bits[0])));
      DivisionStep(r, m);
      assert m[1..] == bits[1..] + Zeros(16);
      FeedIsDivision(r', bits[1..]);
    }
  }

  lemma AddToZeros(p: seq<bool>)
    requires |p| == 16
    ensures AddLeading(Zeros(16), p) == p
  {
  }

  /**
   The checksum is the remainder of the message polynomial, followed by sixteen zero terms and with its first
   sixteen terms complemented, on division by the generator.
   */
  lemma ChecksumIsRemainder(data: seq<Byte>)
    ensures WordBits(Checksum(data)) == Remainder(AddLeading(Bits(data) + Zeros(16), seq(16, i => true)))
  {
    FeedIsDivision(PRESET, Bits(data));
    PresetBits();
    hide WordBits, Feed, AddLeading, Remainder, Bits;
  }

  lemma PresetHigh()
    ensures forall i :: 0 <= i < 16 ==> High(Shifted(PRESET)[i])
  {
  }

  lemma PresetBits()
    ensures WordBits(PRESET) == seq(16, i => true)
  {
    hide *;
    PresetHigh();
    WordBitsAt(PRESET);
  }

  // ---- Burst errors ----------------------------------------------------------

  function XorBits(s: seq<bool>, t: seq<bool>): (d: seq<bool>)
    requires |s| == |t|
    ensures |d| == |s|
  {
    seq(|s|, i requires 0 <= i < |s| => s[i] != t[i])
  }

  lemma TopXor(a: bool, b: bool)
    ensures Top(a != b) == Xor(Top(a), Top(b))
  {
  }

  /** Feeding two messages into two registers: the difference evolves by feeding the difference. */
  lemma {:induction false} FeedDifference(r: bv16, q: bv16, s: seq<bool>, t: seq<bool>)
    requires |s| == |t|
    ensures Xor(Feed(r, s), Feed(q, t)) == Feed(Xor(r, q), XorBits(s, t))
    decreases |s|
  {
    hide Xor, Shift, Top;
    if s != [] {
      var a, b := Top(s[0]), Top(t[0]);
      FeedDifference(Shift(Xor(r, a)), Shift(Xor(q, b)), s[1..], t[1..]);
      assert XorBits(s, t)[1..] == XorBits(s[1..], t[1..]);
      ShiftLinear(Xor(r, a), Xor(q, b));
      TopXor(s[0], t[0]);
      XorExchange(r, a, q, b);
    }
  }

  lemma XorExchange(r: bv16, a: bv16, q: bv16, b: bv16)
    ensures Xor(Xor(r, a), Xor(q, b)) == Xor(Xor(r, q), Xor(a, b))
  {
    hide Xor;
    XorAssoc(Xor(r, a), q, b);
    XorSwap(r, a, q);
    XorAssoc(Xor(r, q), a, b);
  }

  lemma {:induction false} FeedZeros(r: bv16, s: seq<bool>)
    requires forall i :: 0 <= i < |s| ==> !s[i]
    ensures Feed(r, s) == 0 <==> r == 0
    decreases |s|
  {
    hide Xor, Shift;
    if s != [] {
      XorZero(r);
      ShiftNonzero(r);
      FeedZeros(Shift(Xor(r, Top(s[0]))), s[1..]);
    }
  }

  /** The last n bits of the register are zero. */
  ghost predicate LowZero(r: bv16, n: nat)
    requires n <= 16
  {
    forall i :: 16 - n <= i < 16 ==> !WordBits(r)[i]
  }

  /**
   At most sixteen bits that leave the register zero were the leading bits of the register, and the rest of it was zero.
   */
  lemma {:induction false} ShortFeedZero(r: bv16, w: seq<bool>)
    requires |w| <= 16 && Feed(r, w) == 0
    ensures LowZero(r, 16 - |w|)
    ensures forall i :: 0 <= i < |w| ==> w[i] == WordBits(r)[i]
    decreases |w|
  {
    hide WordBits, Xor, Top, Shift;
    if w == [] {
      ZeroBits();
    } else {
      var r' := Shift(Xor(r, Top(w[0])));
      ShortFeedZero(r', w[1..]);
      StepBits(r, w[0]);
      assert !WordBits(r')[15];
      assert GeneratorTail()[15];
      assert WordBits(r)[0] == w[0];
      forall i | 1 <= i < 16 ensures WordBits(r)[i] == WordBits(r')[i - 1] {
        assert WordBits(r')[i - 1] == ((i - 1 < 15 && WordBits(r)[i - 1 + 1]) != false);
      }
      forall i | 1 <= i < |w| ensures w[i] == WordBits(r)[i] {
        assert w[1..][i - 1] == WordBits(r')[i - 1];
      }
    }
  }

  lemma ZeroBits()
    ensures forall i :: 0 <= i < 16 ==> !WordBits(0)[i]
  {
    NoHigh();
    hide Left, High;
    forall i | 0 <= i < 16 ensures !WordBits(0)[i] {
      ZeroShifts(i);
    }
  }

  /** s and t differ, and only within sixteen consecutive bits from position p on. */
  predicate BurstAt(s: seq<bool>, t: seq<bool>, p: nat) {
    && |s| == |t| && s != t
    && forall i :: 0 <= i < |s| && s[i] != t[i] ==> p <= i < p + 16
  }

  lemma ShortNonzero(w: seq<bool>, i: nat)
    requires |w| <= 16 && i < |w| && w[i]
    ensures Feed(0, w) != 0
  {
    hide Feed, WordBits;
    ZeroBits();
    if Feed(0, w) == 0 {
      ShortFeedZero(0, w);
      assert false;
    }
  }

  /** A nonzero difference confined to sixteen bits never cancels. */
  lemma BurstNonzero(d: seq<bool>, p: nat, i: nat)
    requires i < |d| && d[i]
    requires forall j :: 0 <= j < |d| && d[j] ==> p <= j < p + 16
    ensures Feed(0, d) != 0
  {
    hide Feed;
    var q := if p + 16 <= |d| then p + 16 else |d|;
    var pre, w, post := d[..p], d[p..q], d[q..];
    assert d == pre + (w + post);
    FeedConcat(0, pre, w + post);
    FeedConcat(0, w, post);
    FeedZeros(0, pre);
    ShortNonzero(w, i - p);
    FeedZeros(Feed(0, w), post);
  }

  lemma {:induction false} BitsInjective(a: seq<Byte>, b: seq<Byte>)
    requires |a| == |b| && Bits(a) == Bits(b)
    ensures a == b
    decreases |a|
  {
    hide ByteBits;
    if a != [] {
      var s, t := Bits(a), Bits(b);
      assert s[..8] == ByteBits(a[0]) && t[..8] == ByteBits(b[0]);
      ByteBitsInjective(a[0], b[0]);
      assert s[8..] == Bits(a[1..]) && t[8..] == Bits(b[1..]);
      BitsInjective(a[1..], b[1..]);
    }
  }

  lemma ByteBitsInjective(a: Byte, b: Byte)
    requires ByteBits(a) == ByteBits(b)
    ensures a == b
  {
    var s, t := ByteBits(a), ByteBits(b);
    assert s[0] == t[0] && s[1] == t[1] && s[2] == t[2] && s[3] == t[3];
    assert s[4] == t[4] && s[5] == t[5] && s[6] == t[6] && s[7] == t[7];
  }

  /**
   Two different messages of equal length whose differences lie within sixteen consecutive bits have different
   checksums.
   */
  lemma BurstDetected(a: seq<Byte>, b: seq<Byte>, p: nat)
    requires BurstAt(Bits(a), Bits(b), p)
    ensures Checksum(a) != Checksum(b)
  {
    hide Feed, Bits;
    var s, t := Bits(a), Bits(b);
    var d := XorBits(s, t);
    var i :| 0 <= i < |s| && s[i] != t[i];
    FeedDifference(PRESET, PRESET, s, t);
    XorZero(PRESET);
    BurstNonzero(d, p, i);
    XorIsZero(Checksum(a), Checksum(b));
  }

  // ---- Odd numbers of errors -------------------------------------------------

  /** Whether an odd number of bits is set. */
  function Odd(s: seq<bool>): bool {
    if s == [] then false else s[0] != Odd(s[1..])
  }

  lemma {:induction false} OddXor(s: seq<bool>, t: seq<bool>)
    requires |s| == |t|
    ensures Odd(XorBits(s, t)) == (Odd(s) != Odd(t))
    decreases |s|
  {
    if s != [] {
      OddXor(s[1..], t[1..]);
      assert XorBits(s, t)[1..] == XorBits(s[1..], t[1..]);
    }
  }

  lemma {:induction false} OddAppend(s: seq<bool>, b: bool)
    ensures Odd(s + [b]) == (Odd(s) != b)
    decreases |s|
  {
    if s == [] {
      assert s + [b] == [b];
    } else {
      assert (s + [b])[1..] == s[1..] + [b];
      OddAppend(s[1..], b);
    }
  }

  lemma {:induction false} OddZeros(s: seq<bool>)
    requires forall i :: 0 <= i < |s| ==> !s[i]
    ensures !Odd(s)
    decreases |s|
  {
    if s != [] {
      OddZeros(s[1..]);
    }
  }

  predicate OddWord(w: bv16) {
    Odd(WordBits(w))
  }

  lemma OddWordXor(a: bv16, b: bv16)
    ensures OddWord(Xor(a, b)) == (OddWord(a) != OddWord(b))
  {
    hide WordBits, Xor;
    WordBitsXor(a, b);
    assert WordBits(Xor(a, b)) == XorBits(WordBits(a), WordBits(b));
    OddXor(WordBits(a), WordBits(b));
  }

  lemma OddWordLeft(w: bv16)
    ensures OddWord(Left(w)) == (OddWord(w) != High(w))
  {
    hide Left, High, LeftShifts;
    WordBitsLeft(w);
    FirstBit(w);
    hide WordBits;
    OddAppend(WordBits(w)[1..], false);
  }

  lemma {:induction false} OddTerm(s: seq<bool>, n: nat)
    ensures Odd(s + Zeros(n) + [true]) == !Odd(s)
    decreases n
  {
    hide Odd;
    if n == 0 {
      assert s + Zeros(0) + [true] == s + [true];
      OddAppend(s, true);
    } else {
      assert s + Zeros(n) + [true] == (s + [false]) + Zeros(n - 1) + [true];
      OddTerm(s + [false], n - 1);
      OddAppend(s, false);
    }
  }

  /** The generator, leading term included, has an even number of terms. */
  lemma GeneratorOdd()
    ensures OddWord(GENERATOR)
  {
    GeneratorBits();
    var s1 := [] + Zeros(3) + [true];
    var s2 := s1 + Zeros(6) + [true];
    assert GeneratorTail() == s2 + Zeros(4) + [true];
    assert !Odd([]);
    hide WordBits, Odd, GeneratorTail, Zeros;
    OddTerm([], 3);
    OddTerm(s1, 6);
    OddTerm(s2, 4);
  }

  /** A shift keeps the parity of the register. */
  lemma ShiftKeepsParity(r: bv16)
    ensures OddWord(Shift(r)) == OddWord(r)
  {
    hide Left, High, Xor, OddWord;
    OddWordLeft(r);
    OddWordXor(Left(r), GENERATOR);
    GeneratorOdd();
  }

  lemma OddTop(b: bool)
    ensures OddWord(Top(b)) == b
  {
    hide WordBits, Top;
    TopBits(b);
    OddZeros(WordBits(Top(b))[1..]);
  }

  lemma {:induction false} FeedParity(r: bv16, bits: seq<bool>)
    ensures OddWord(Feed(r, bits)) == (OddWord(r) != Odd(bits))
    decreases |bits|
  {
    hide Xor, Shift, Top, OddWord;
    if bits != [] {
      var x := Xor(r, Top(bits[0]));
      OddWordXor(r, Top(bits[0]));
      OddTop(bits[0]);
      ShiftKeepsParity(x);
      FeedParity(Shift(x), bits[1..]);
    }
  }

  /** Messages that differ in an odd number of bits, wherever they are, have different checksums. */
  lemma OddErrorDetected(a: seq<Byte>, b: seq<Byte>)
    requires |a| == |b| && Odd(XorBits(Bits(a), Bits(b)))
    ensures Checksum(a) != Checksum(b)
  {
    hide Bits, Feed, OddWord, XorBits;
    OddXor(Bits(a), Bits(b));
    FeedParity(PRESET, Bits(a));
    FeedParity(PRESET, Bits(b));
  }
}
