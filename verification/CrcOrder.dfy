/**
 The order of x modulo the generator, and with it which two-bit errors the checksum detects.

 Shifting the register is multiplication by x modulo the generator, so the register that starts at 1 runs through the
 powers of x. They repeat after exactly 32767 steps.
 */
module CrcOrder {
  import opened Crc

  const ORDER: nat := 32767

  /** x^n modulo the generator. */
  function Power(n: nat): bv16 {
    Shifts(1, n)
  }

  // ---- Shifting n times ------------------------------------------------------

  lemma {:induction false} ShiftsPlus(r: bv16, m: nat, n: nat)
    ensures Shifts(r, m + n) == Shifts(Shifts(r, m), n)
    decreases m
  {
    hide Shift;
    if m > 0 {
      ShiftsPlus(Shift(r), m - 1, n);
    }
  }

  lemma ShiftsNext(r: bv16, n: nat)
    ensures Shifts(r, n + 1) == Shift(Shifts(r, n))
  {
    hide Shift;
    ShiftsPlus(r, n, 1);
    assert Shifts(Shifts(r, n), 1) == Shifts(Shift(Shifts(r, n)), 0);
  }

  lemma {:induction false} ShiftsXor(a: bv16, b: bv16, n: nat)
    ensures Shifts(Xor(a, b), n) == Xor(Shifts(a, n), Shifts(b, n))
    decreases n
  {
    hide Xor, Shift;
    if n > 0 {
      ShiftLinear(a, b);
      ShiftsXor(Shift(a), Shift(b), n - 1);
    }
  }

  lemma {:induction false} ShiftsNonzero(a: bv16, n: nat)
    ensures Shifts(a, n) == 0 <==> a == 0
    decreases n
  {
    hide Shift;
    if n > 0 {
      ShiftNonzero(a);
      ShiftsNonzero(Shift(a), n - 1);
    }
  }

  lemma ShiftsInjective(a: bv16, b: bv16, n: nat)
    requires Shifts(a, n) == Shifts(b, n)
    ensures a == b
  {
    hide Xor, Shifts;
    ShiftsXor(a, b, n);
    ShiftsNonzero(Xor(a, b), n);
    XorIsZero(a, b);
    XorIsZero(Shifts(a, n), Shifts(b, n));
  }

  // ---- Multiplication modulo the generator -----------------------------------

  function Pick(b: bool, w: bv16): bv16 {
    if b then w else 0
  }

  /** Horner's rule, most significant coefficient first. */
  function Horner(acc: bv16, s: seq<bool>, w: bv16): bv16
    decreases |s|
  {
    if s == [] then acc else Horner(Xor(Shift(acc), Pick(s[0], w)), s[1..], w)
  }

  function Mul(u: bv16, w: bv16): bv16 {
    Horner(0, WordBits(u), w)
  }

  lemma PickXor(a: bool, b: bool, w: bv16)
    ensures Pick(a != b, w) == Xor(Pick(a, w), Pick(b, w))
  {
    XorZero(w);
    XorZero(0);
    hide Xor;
  }

  lemma {:induction false} HornerXor(a: bv16, b: bv16, s: seq<bool>, t: seq<bool>, w: bv16)
    requires |s| == |t|
    ensures Horner(Xor(a, b), XorBits(s, t), w) == Xor(Horner(a, s, w), Horner(b, t, w))
    decreases |s|
  {
    hide Xor, Shift, Pick;
    if s != [] {
      var x, y := Pick(s[0], w), Pick(t[0], w);
      ShiftLinear(a, b);
      PickXor(s[0], t[0], w);
      XorExchange(Shift(a), x, Shift(b), y);
      assert XorBits(s, t)[1..] == XorBits(s[1..], t[1..]);
      HornerXor(Xor(Shift(a), x), Xor(Shift(b), y), s[1..], t[1..], w);
    }
  }

  lemma {:induction false} HornerAppend(acc: bv16, s: seq<bool>, b: bool, w: bv16)
    ensures Horner(acc, s + [b], w) == Xor(Shift(Horner(acc, s, w)), Pick(b, w))
    decreases |s|
  {
    hide Xor, Shift, Pick;
    if s == [] {
      assert s + [b] == [b] && [b][1..] == [];
      assert Horner(acc, [b], w) == Horner(Xor(Shift(acc), Pick(b, w)), [], w);
    } else {
      assert (s + [b])[1..] == s[1..] + [b];
      HornerAppend(Xor(Shift(acc), Pick(s[0], w)), s[1..], b, w);
    }
  }

  lemma {:induction false} HornerZeros(acc: bv16, s: seq<bool>, w: bv16)
    requires forall i :: 0 <= i < |s| ==> !s[i]
    ensures Horner(acc, s, w) == Shifts(acc, |s|)
    decreases |s|
  {
    hide Xor, Shift;
    if s != [] {
      XorZero(Shift(acc));
      HornerZeros(Shift(acc), s[1..], w);
    }
  }

  lemma {:induction false} HornerShift(acc: bv16, s: seq<bool>, w: bv16)
    ensures Horner(Shift(acc), s, Shift(w)) == Shift(Horner(acc, s, w))
    decreases |s|
  {
    hide Xor, Shift;
    if s != [] {
      ShiftNonzero(0);
      ShiftLinear(Shift(acc), Pick(s[0], w));
      HornerShift(Xor(Shift(acc), Pick(s[0], w)), s[1..], w);
    }
  }

  lemma MulXor(a: bv16, b: bv16, w: bv16)
    ensures Mul(Xor(a, b), w) == Xor(Mul(a, w), Mul(b, w))
  {
    hide Xor, WordBits, Horner;
    WordBitsXor(a, b);
    assert WordBits(Xor(a, b)) == XorBits(WordBits(a), WordBits(b));
    XorZero(0);
    HornerXor(0, 0, WordBits(a), WordBits(b), w);
  }

  /** Shifting the second factor shifts the product. */
  lemma MulShiftRight(u: bv16, w: bv16)
    ensures Mul(u, Shift(w)) == Shift(Mul(u, w))
  {
    hide Shift, WordBits, Horner;
    ShiftNonzero(0);
    HornerShift(0, WordBits(u), w);
  }

  /** The product with the top coefficient split off. */
  lemma MulTop(u: bv16, w: bv16)
    ensures Shift(Mul(u, w)) == Xor(Mul(Left(u), w), Pick(High(u), Shifts(w, 16)))
  {
    hide Xor, Shift, WordBits, Horner, Pick, Left, High;
    var s := WordBits(u);
    var first := Pick(s[0], w);
    FirstBit(u);
    WordBitsLeft(u);
    MulFirst(s, w);
    var z := Zeros(15);
    ShiftLinear(Horner(0, s[1..], w), Shifts(first, 15));
    HornerAppend(0, s[1..], false, w);
    NoPick(w);
    XorZero(Shift(Horner(0, s[1..], w)));
    ShiftsNext(first, 15);
    PickShifts(s[0], w);
  }

  lemma NoPick(w: bv16)
    ensures Pick(false, w) == 0
  {
  }

  lemma PickShifts(b: bool, w: bv16)
    ensures Shifts(Pick(b, w), 16) == Pick(b, Shifts(w, 16))
  {
    hide Shifts;
    ShiftsNonzero(0, 16);
  }

  lemma MulFirst(s: seq<bool>, w: bv16)
    requires |s| == 16
    ensures Horner(0, s, w) == Xor(Horner(0, s[1..], w), Shifts(Pick(s[0], w), 15))
  {
    var first := Pick(s[0], w);
    hide Xor, Shift, Pick;
    ShiftNonzero(0);
    XorZero(first);
    assert Horner(0, s, w) == Horner(first, s[1..], w);
    var t, z := s[1..], Zeros(15);
    assert XorBits(t, z) == t;
    HornerXor(0, first, t, z, w);
    HornerZeros(first, z, w);
  }

  /** The relation x^16 = x^12 + x^5 + 1 holds at w. */
  predicate Related(w: bv16) {
    Mul(GENERATOR, w) == Shifts(w, 16)
  }

  /** Shifting the first factor shifts the product. */
  lemma MulShiftLeft(u: bv16, w: bv16)
    requires Related(w)
    ensures Mul(Shift(u), w) == Shift(Mul(u, w))
  {
    assert Shift(u) == if High(u) then Xor(Left(u), GENERATOR) else Left(u);
    assert Pick(High(u), Shifts(w, 16)) == if High(u) then Shifts(w, 16) else 0;
    hide Xor, Shift, Mul, Pick, Left, High, Shifts;
    MulTop(u, w);
    MulXor(Left(u), GENERATOR, w);
    XorZero(Mul(Left(u), w));
  }

  lemma RelatedNext(w: bv16)
    requires Related(w)
    ensures Related(Shift(w))
  {
    hide Shift, Mul;
    MulShiftRight(GENERATOR, w);
    ShiftsNext(w, 16);
    assert Shifts(Shift(w), 16) == Shifts(w, 17);
  }

  lemma OneBits()
    ensures forall i :: 0 <= i < 16 ==> WordBits(1)[i] == (i == 15)
  {
    OneHigh();
    WordBitsAt(1);
    hide WordBits, High, Shifted;
  }

  lemma OneHigh()
    ensures forall i :: 0 <= i < 16 ==> High(Shifted(1)[i]) == (i == 15)
  {
  }

  lemma MulOne(w: bv16)
    ensures Mul(1, w) == w
  {
    hide Xor, Shift, WordBits;
    OneBits();
    var s := WordBits(1);
    var z := s[..15];
    assert s == z + [true];
    HornerAppend(0, z, true, w);
    HornerZeros(0, z, w);
    ShiftsNonzero(0, 15);
    ShiftNonzero(0);
    XorZero(w);
  }

  // ---- Evaluation ------------------------------------------------------------

  /** An accumulator and the coefficients still to come, at the top of a register. */
  datatype Stage = Stage(acc: bv16, u: bv16)

  function Advance(p: Stage, w: bv16): Stage {
    Stage(Xor(Shift(p.acc), Pick(High(p.u), w)), Left(p.u))
  }

  function Advances(p: Stage, w: bv16, n: nat): Stage
    decreases n
  {
    if n == 0 then p else Advances(Advance(p, w), w, n - 1)
  }

  function Four(p: Stage, w: bv16): Stage {
    Advance(Advance(Advance(Advance(p, w), w), w), w)
  }

  /** The product, computed. */
  function Product(u: bv16, w: bv16): bv16 {
    Four(Four(Four(Four(Stage(0, u), w), w), w), w).acc
  }

  lemma FourAdvances(p: Stage, w: bv16, n: nat)
    ensures Advances(p, w, n + 4) == Advances(Four(p, w), w, n)
  {
    hide Advance;
    var p1 := Advance(p, w);
    var p2 := Advance(p1, w);
    assert Advances(p, w, n + 4) == Advances(p1, w, n + 3);
    assert Advances(p1, w, n + 3) == Advances(p2, w, n + 2);
    assert Advances(p2, w, n + 2) == Advances(Advance(p2, w), w, n + 1);
  }

  lemma {:induction false} AdvancesAreHorner(p: Stage, w: bv16, s: seq<bool>)
    requires forall i :: 0 <= i < |s| ==> (s[i] <==> High(LeftShifts(p.u, i)))
    ensures Advances(p, w, |s|).acc == Horner(p.acc, s, w)
    decreases |s|
  {
    hide Xor, Left, Shift, High, Pick;
    if s != [] {
      assert LeftShifts(p.u, 0) == p.u;
      assert s[0] <==> High(p.u);
      forall i | 0 <= i < |s| - 1 ensures s[1..][i] <==> High(LeftShifts(Left(p.u), i)) {
        assert LeftShifts(p.u, i + 1) == LeftShifts(Left(p.u), i);
      }
      AdvancesAreHorner(Advance(p, w), w, s[1..]);
    }
  }

  lemma ProductIsMul(u: bv16, w: bv16)
    ensures Product(u, w) == Mul(u, w)
  {
    hide High, LeftShifts, Horner, Advance, Four;
    var p0 := Stage(0, u);
    var p1 := Four(p0, w);
    var p2 := Four(p1, w);
    var p3 := Four(p2, w);
    FourAdvances(p0, w, 12);
    FourAdvances(p1, w, 8);
    FourAdvances(p2, w, 4);
    FourAdvances(p3, w, 0);
    AdvancesAreHorner(p0, w, WordBits(u));
  }

  /** The first powers are single bits; the sixteenth is the generator without its leading term. */
  lemma SmallPowers()
    ensures Power(3) == 0x0008 && Power(15) == 0x8000 && Power(16) == GENERATOR
  {
    OneShifts();
    hide Shift;
    ChainOfShifts(Ones(), 3);
    ChainOfShifts(Ones(), 15);
    ChainOfShifts(Ones(), 16);
  }

  function Ones(): (ws: seq<bv16>)
    ensures |ws| == 17
  {
    [0x0001, 0x0002, 0x0004, 0x0008, 0x0010, 0x0020, 0x0040, 0x0080, 0x0100, 0x0200, 0x0400, 0x0800, 0x1000, 0x2000,
     0x4000, 0x8000, GENERATOR]
  }

  lemma OneShifts()
    ensures forall i :: 0 <= i < 16 ==> Shift(Ones()[i]) == Ones()[i + 1]
  {
  }

  lemma {:induction false} ChainOfShifts(ws: seq<bv16>, n: nat)
    requires n < |ws| && forall i :: 0 <= i < |ws| - 1 ==> Shift(ws[i]) == ws[i + 1]
    ensures Shifts(ws[0], n) == ws[n]
    decreases n
  {
    hide Shift;
    if n > 0 {
      ChainOfShifts(ws[1..], n - 1);
      assert Shift(ws[0]) == ws[1];
    }
  }

  lemma GeneratorTimesOne()
    ensures Product(GENERATOR, 1) == GENERATOR
  {
  }

  lemma RelatedOne()
    ensures Related(1)
  {
    SmallPowers();
    GeneratorTimesOne();
    ProductIsMul(GENERATOR, 1);
    hide Mul, Product, Shifts;
  }

  lemma {:induction false} PowersRelated(n: nat)
    ensures Related(Power(n))
    decreases n
  {
    hide Related, Shift;
    if n == 0 {
      RelatedOne();
    } else {
      PowersRelated(n - 1);
      ShiftsNext(1, n - 1);
      RelatedNext(Power(n - 1));
    }
  }

  /** Powers multiply by adding exponents. */
  lemma {:induction false} PowersMultiply(a: nat, b: nat)
    ensures Mul(Power(a), Power(b)) == Power(a + b)
    decreases a
  {
    hide Mul, Related, Shift;
    if a == 0 {
      MulOne(Power(b));
    } else {
      PowersMultiply(a - 1, b);
      PowersRelated(b);
      ShiftsNext(1, a - 1);
      ShiftsNext(1, a - 1 + b);
      MulShiftLeft(Power(a - 1), Power(b));
    }
  }

  lemma Multiply(a: nat, b: nat, u: bv16, w: bv16, r: bv16)
    requires Power(a) == u && Power(b) == w && Product(u, w) == r
    ensures Power(a + b) == r
  {
    hide Mul, Product, Power;
    ProductIsMul(u, w);
    PowersMultiply(a, b);
  }

  lemma ProductsTo124()
    ensures Product(0x8000, 0x1021) == 0x1B98
    ensures Product(0x1B98, 0x1B98) == 0x6A10
    ensures Product(0x6A10, 0x6A10) == 0xC6F7
  {
  }

  lemma ProductsTo217()
    ensures Product(0xC6F7, 0x6A10) == 0xA741
    ensures Product(0xA741, 0x1B98) == 0x48E3
  {
  }

  lemma ProductsTo3472()
    ensures Product(0x48E3, 0x48E3) == 0x1FB2
    ensures Product(0x1FB2, 0x1FB2) == 0x7C65
    ensures Product(0x7C65, 0x7C65) == 0xB262
    ensures Product(0xB262, 0xB262) == 0xA6B9
  {
  }

  lemma ProductsTo4681()
    ensures Product(0xA6B9, 0x7C65) == 0x2D62
    ensures Product(0x2D62, 0x48E3) == 0xD8A4
    ensures Product(0xD8A4, 0xC6F7) == 0x2C42
  {
  }

  lemma ProductsTo1057()
    ensures Product(0x7C65, 0xA741) == 0xF049
    ensures Product(0xF049, 0x0008) == 0xF2AF
  {
  }

  lemma ProductsTo32767()
    ensures Product(0x2C42, 0x2C42) == 0x8635
    ensures Product(0x8635, 0x8635) == 0x5A68
    ensures Product(0x5A68, 0x8635) == 0x762B
    ensures Product(0x762B, 0x2C42) == 0x0001
  {
  }

  /** Powers along a short addition chain. */
  lemma ChainOfPowers()
    ensures Power(217) != 1 && Power(1057) != 1 && Power(4681) != 1 && Power(ORDER) == 1
  {
    SmallPowers();
    ProductsTo124();
    ProductsTo217();
    ProductsTo3472();
    ProductsTo4681();
    ProductsTo1057();
    ProductsTo32767();
    hide Product, Power;
    Multiply(15, 16, 0x8000, 0x1021, 0x1B98);
    Multiply(31, 31, 0x1B98, 0x1B98, 0x6A10);
    Multiply(62, 62, 0x6A10, 0x6A10, 0xC6F7);
    Multiply(124, 62, 0xC6F7, 0x6A10, 0xA741);
    Multiply(186, 31, 0xA741, 0x1B98, 0x48E3);
    Multiply(217, 217, 0x48E3, 0x48E3, 0x1FB2);
    Multiply(434, 434, 0x1FB2, 0x1FB2, 0x7C65);
    Multiply(868, 868, 0x7C65, 0x7C65, 0xB262);
    Multiply(1736, 1736, 0xB262, 0xB262, 0xA6B9);
    Multiply(3472, 868, 0xA6B9, 0x7C65, 0x2D62);
    Multiply(4340, 217, 0x2D62, 0x48E3, 0xD8A4);
    Multiply(4557, 124, 0xD8A4, 0xC6F7, 0x2C42);
    Multiply(868, 186, 0x7C65, 0xA741, 0xF049);
    Multiply(1054, 3, 0xF049, 0x0008, 0xF2AF);
    Multiply(4681, 4681, 0x2C42, 0x2C42, 0x8635);
    Multiply(9362, 9362, 0x8635, 0x8635, 0x5A68);
    Multiply(18724, 9362, 0x5A68, 0x8635, 0x762B);
    Multiply(28086, 4681, 0x762B, 0x2C42, 0x0001);
  }

  // ---- The order -------------------------------------------------------------

  predicate Period(n: nat) {
    Power(n) == 1
  }

  lemma PeriodAdds(a: nat, b: nat)
    requires Period(a)
    ensures Period(a + b) <==> Period(b)
  {
    hide Shifts;
    ShiftsPlus(1, a, b);
  }

  lemma {:induction false} PeriodTimes(o: nat, k: nat)
    requires Period(o)
    ensures Period(k * o)
    decreases k
  {
    hide Period;
    if k == 0 {
      NoShift();
    } else {
      PeriodTimes(o, k - 1);
      assert k * o == o + (k - 1) * o;
      PeriodAdds(o, (k - 1) * o);
    }
  }

  lemma NoShift()
    ensures Period(0)
  {
  }

  /** No positive number below o is a period. */
  ghost predicate Least(o: nat) {
    o > 0 && Period(o) && forall n :: 0 < n < o ==> !Period(n)
  }

  lemma {:induction false} LeastPeriod(d: nat) returns (o: nat)
    requires d > 0 && Period(d)
    ensures Least(o) && o <= d
    decreases d
  {
    hide Period;
    if n :| 0 < n < d && Period(n) {
      o := LeastPeriod(n);
    } else {
      o := d;
    }
  }

  /** Every period is a multiple of the least one. */
  lemma {:induction false} PeriodIsMultiple(o: nat, n: nat) returns (k: nat)
    requires Least(o) && Period(n)
    ensures n == k * o
    decreases n
  {
    hide Period;
    if n == 0 {
      k := 0;
    } else if n < o {
      assert false;
    } else {
      PeriodAdds(o, n - o);
      k := PeriodIsMultiple(o, n - o);
      k := k + 1;
      assert k * o == (k - 1) * o + o;
    }
  }

  /** No other number up to 181 divides the order: each is tried. */
  lemma SmallDivisors1(m: nat)
    requires 2 <= m <= 25 && 32767 % m == 0
    ensures m == 7 || m == 31 || m == 151
  {
    assert m != 2 && m != 3 && m != 4 && m != 5 && m != 6 && m != 8 && m != 9 && m != 10 && m != 11 && m != 12;
    assert m != 13 && m != 14 && m != 15 && m != 16 && m != 17 && m != 18 && m != 19 && m != 20 && m != 21;
    assert m != 22 && m != 23 && m != 24 && m != 25;
  }

  lemma SmallDivisors2(m: nat)
    requires 26 <= m <= 90 && 32767 % m == 0
    ensures m == 7 || m == 31 || m == 151
  {
    assert m != 26 && m != 27 && m != 28 && m != 29 && m != 30 && m != 32 && m != 33 && m != 34 && m != 35;
    assert m != 36 && m != 37 && m != 38 && m != 39 && m != 40 && m != 41 && m != 42 && m != 43 && m != 44;
    assert m != 45 && m != 46 && m != 47 && m != 48 && m != 49 && m != 50 && m != 51 && m != 52 && m != 53;
    assert m != 54 && m != 55 && m != 56 && m != 57 && m != 58 && m != 59 && m != 60 && m != 61 && m != 62;
    assert m != 63 && m != 64 && m != 65 && m != 66 && m != 67 && m != 68 && m != 69 && m != 70 && m != 71;
    assert m != 72 && m != 73 && m != 74 && m != 75 && m != 76 && m != 77 && m != 78 && m != 79 && m != 80;
    assert m != 81 && m != 82 && m != 83 && m != 84 && m != 85 && m != 86 && m != 87 && m != 88 && m != 89;
    assert m != 90;
  }

  lemma SmallDivisors3(m: nat)
    requires 91 <= m <= 181 && 32767 % m == 0
    ensures m == 7 || m == 31 || m == 151
  {
    assert m != 91 && m != 92 && m != 93 && m != 94 && m != 95 && m != 96 && m != 97 && m != 98 && m != 99;
    assert m != 100 && m != 101 && m != 102 && m != 103 && m != 104 && m != 105 && m != 106 && m != 107;
    assert m != 108 && m != 109 && m != 110 && m != 111 && m != 112 && m != 113 && m != 114 && m != 115;
    assert m != 116 && m != 117 && m != 118 && m != 119 && m != 120 && m != 121 && m != 122 && m != 123;
    assert m != 124 && m != 125 && m != 126 && m != 127 && m != 128 && m != 129 && m != 130 && m != 131;
    assert m != 132 && m != 133 && m != 134 && m != 135 && m != 136 && m != 137 && m != 138 && m != 139;
    assert m != 140 && m != 141 && m != 142 && m != 143 && m != 144 && m != 145 && m != 146 && m != 147;
    assert m != 148 && m != 149 && m != 150 && m != 152 && m != 153 && m != 154 && m != 155 && m != 156;
    assert m != 157 && m != 158 && m != 159 && m != 160 && m != 161 && m != 162 && m != 163 && m != 164;
    assert m != 165 && m != 166 && m != 167 && m != 168 && m != 169 && m != 170 && m != 171 && m != 172;
    assert m != 173 && m != 174 && m != 175 && m != 176 && m != 177 && m != 178 && m != 179 && m != 180;
    assert m != 181;
  }

  lemma Divides(m: nat, k: nat)
    requires m > 0 && m * k == ORDER
    ensures 32767 % m == 0
  {
    var q, r := ORDER / m, ORDER % m;
    assert q * m + r == k * m;
    MultipleBelow(q, k, m, r);
  }

  lemma {:induction false} AtLeastOnce(d: nat, m: nat)
    requires d > 0
    ensures d * m >= m
    decreases d
  {
    if d > 1 {
      AtLeastOnce(d - 1, m);
      assert d * m == (d - 1) * m + m;
    }
  }

  lemma FartherApart(q: nat, k: nat, m: nat)
    requires q < k
    ensures k * m >= q * m + m
  {
    AtLeastOnce(k - q, m);
    assert k * m == q * m + (k - q) * m;
  }

  /** A remainder that is a difference of multiples is zero. */
  lemma MultipleBelow(q: nat, k: nat, m: nat, r: nat)
    requires q * m + r == k * m && r < m
    ensures r == 0
  {
    if k < q {
      FartherApart(k, q, m);
    } else if q < k {
      FartherApart(q, k, m);
    }
  }

  lemma OneIsSmall(m: nat, k: nat)
    requires m * k == ORDER
    ensures m <= 181 || k <= 181
  {
    if m >= 182 {
      assert m * k >= 182 * k;
    }
  }

  lemma SmallFactor(m: nat, k: nat)
    requires m * k == ORDER && 2 <= m <= 181
    ensures (m == 7 && k == 4681) || (m == 31 && k == 1057) || (m == 151 && k == 217)
  {
    Divides(m, k);
    if m <= 25 {
      SmallDivisors1(m);
    } else if m <= 90 {
      SmallDivisors2(m);
    } else {
      SmallDivisors3(m);
    }
  }

  /** A proper divisor of the order divides the order over one of its primes. */
  lemma ProperDivisor(o: nat, k: nat) returns (j: nat)
    requires o * k == ORDER && k > 1
    ensures j * o == 4681 || j * o == 1057 || j * o == 217
  {
    OneIsSmall(o, k);
    if k <= 181 {
      SmallFactor(k, o);
      j := 1;
    } else if o == 1 {
      j := 217;
    } else {
      assert o >= 2;
      SmallFactor(o, k);
      j := if o == 7 then 31 else if o == 31 then 7 else 31;
    }
  }

  /** No power of x below the order is one. */
  lemma NoEarlierPeriod(d: nat)
    requires 0 < d < ORDER
    ensures !Period(d)
  {
    ChainOfPowers();
    assert Period(ORDER) && !Period(217) && !Period(1057) && !Period(4681);
    hide Period;
    if Period(d) {
      var o := LeastPeriod(d);
      var k := PeriodIsMultiple(o, ORDER);
      assert k > 1;
      var j := ProperDivisor(o, k);
      PeriodTimes(o, j);
    }
  }

  /** The powers of x repeat after exactly 32767 steps. */
  lemma PeriodIff(n: nat)
    ensures Period(n) <==> n % ORDER == 0
  {
    ChainOfPowers();
    assert Period(ORDER);
    NoShift();
    hide Period;
    var q, r := n / ORDER, n % ORDER;
    assert n == q * ORDER + r;
    PeriodTimes(ORDER, q);
    PeriodAdds(q * ORDER, r);
    if r > 0 {
      NoEarlierPeriod(r);
    }
  }

  // ---- Two-bit errors --------------------------------------------------------

  /** s and t differ exactly at i and at j. */
  predicate TwoFlips(s: seq<bool>, t: seq<bool>, i: nat, j: nat) {
    && |s| == |t| && i < j < |s|
    && forall n :: 0 <= n < |s| ==> (s[n] != t[n] <==> n == i || n == j)
  }

  lemma {:induction false} FeedIsShifts(r: bv16, s: seq<bool>)
    requires forall n :: 0 <= n < |s| ==> !s[n]
    ensures Feed(r, s) == Shifts(r, |s|)
    decreases |s|
  {
    hide Xor, Shift;
    if s != [] {
      XorZero(r);
      FeedIsShifts(Shift(r), s[1..]);
    }
  }

  lemma FeedOne(r: bv16)
    ensures Feed(r, [true]) == Shift(Xor(r, 0x8000))
  {
    hide Xor, Shift;
    assert [true][1..] == [];
    assert Feed(r, [true]) == Feed(Shift(Xor(r, Top(true))), []);
  }

  /** The register after a set bit, m - 1 zero bits and another set bit is zero exactly when m is a period. */
  lemma TwoBitsCancelIff(z: seq<bool>)
    requires forall n :: 0 <= n < |z| ==> !z[n]
    ensures Feed(0, [true] + z + [true]) == 0 <==> Period(|z| + 1)
  {
    hide Feed, Xor, Shift, Shifts;
    var m := |z| + 1;
    FeedConcat(0, [true] + z, [true]);
    FeedConcat(0, [true], z);
    FeedOne(0);
    XorZero(0x8000);
    FeedIsShifts(Shift(0x8000), z);
    ShiftsFirst(0x8000, |z|);
    var r := Shifts(0x8000, m);
    FeedOne(r);
    ShiftNonzero(Xor(r, 0x8000));
    XorIsZero(r, 0x8000);
    SmallPowers();
    ShiftsPlus(1, 15, m);
    ShiftsPlus(1, m, 15);
    if r == 0x8000 {
      ShiftsInjective(Power(m), 1, 15);
    }
  }

  lemma ShiftsFirst(r: bv16, n: nat)
    ensures Shifts(Shift(r), n) == Shifts(r, n + 1)
  {
    hide Shift;
  }

  lemma TwoFlipsCancelIff(d: seq<bool>, i: nat, j: nat)
    requires i < j < |d| && forall n :: 0 <= n < |d| ==> (d[n] <==> n == i || n == j)
    ensures Feed(0, d) == 0 <==> Period(j - i)
  {
    hide Feed, Period;
    var pre, z, post := d[..i], d[i + 1..j], d[j + 1..];
    var w := [true] + z + [true];
    assert d == pre + (w + post);
    FeedConcat(0, pre, w + post);
    FeedConcat(0, w, post);
    FeedZeros(0, pre);
    TwoBitsCancelIff(z);
    FeedZeros(Feed(0, w), post);
  }

  /**
   Two flipped bits, anywhere in a message of any length, go unnoticed exactly when they are a multiple of 32767 bit
   positions apart.
   */
  lemma TwoBitErrorIff(a: seq<Byte>, b: seq<Byte>, i: nat, j: nat)
    requires TwoFlips(Bits(a), Bits(b), i, j)
    ensures Checksum(a) == Checksum(b) <==> (j - i) % ORDER == 0
  {
    hide Feed, Bits;
    var s, t := Bits(a), Bits(b);
    FeedDifference(PRESET, PRESET, s, t);
    XorZero(PRESET);
    XorIsZero(Checksum(a), Checksum(b));
    TwoFlipsCancelIff(XorBits(s, t), i, j);
    PeriodIff(j - i);
  }
}
