/** The sinusoidal PWM modulator of controller.py. */
module SpwmModulator {
  import opened VscReference
  import opened VscEnergy

  /** The triangle wave at time t: -1 at the start of a period, +1 at its middle. */
  function Carrier(t: real, period: real): (c: real)
    requires period > 0.0
    ensures -1.0 <= c <= 1.0
  {
    Triangle(Fraction(t / period))
  }

  function Fraction(c: real): (phi: real)
    ensures 0.0 <= phi < 1.0
  {
    c - c.Floor as real
  }

  function Triangle(phi: real): real {
    if phi < 0.5 then 4.0 * phi - 1.0 else 3.0 - 4.0 * phi
  }

  lemma FractionOf(c: real, n: int, phi: real)
    requires c == n as real + phi && 0.0 <= phi < 1.0
    ensures Fraction(c) == phi
  {
    assert c.Floor == n;
  }

  lemma Ratio(a: real, period: real, phi: real)
    requires period > 0.0 && a == phi * period
    ensures a / period == phi
  {
  }

  lemma CyclesShift(t: real, period: real, u: real)
    requires period > 0.0 && (u == t + period || u == period - t)
    ensures u == t + period ==> u / period == t / period + 1.0
    ensures u == period - t ==> u / period == 1.0 - t / period
  {
    var c := t / period;
    assert c * period == t;
    if u == t + period {
      assert u == (c + 1.0) * period;
      Ratio(u, period, c + 1.0);
    }
    if u == period - t {
      assert u == (1.0 - c) * period;
      Ratio(u, period, 1.0 - c);
    }
  }

  /** The carrier repeats after a period. */
  lemma CarrierPeriodic(t: real, period: real)
    requires period > 0.0
    ensures Carrier(t + period, period) == Carrier(t, period)
  {
    hide Triangle;
    var c := t / period;
    CyclesShift(t, period, t + period);
    FractionOf(c + 1.0, c.Floor + 1, Fraction(c));
  }

  /** It is symmetric about the middle of a period. */
  lemma CarrierMirror(t: real, period: real)
    requires period > 0.0
    ensures Carrier(period - t, period) == Carrier(t, period)
  {
    var c := t / period;
    var phi := Fraction(c);
    CyclesShift(t, period, period - t);
    if phi == 0.0 {
      FractionOf(1.0 - c, 1 - c.Floor, 0.0);
    } else {
      FractionOf(1.0 - c, -c.Floor, 1.0 - phi);
    }
  }

  lemma FirstHalf(t: real, period: real, c: real)
    requires period > 0.0 && 0.0 <= t <= period / 2.0 && c == t / period
    ensures 0.0 <= c <= 0.5 && Carrier(t, period) == 4.0 * c - 1.0
  {
    assert c * period == t;
    assert 0.0 <= c <= 0.5;
    FractionOf(c, 0, c);
  }

  lemma Slope(a: real, b: real, period: real)
    requires period > 0.0
    ensures 4.0 * (b / period) - 4.0 * (a / period) == 4.0 * (b - a) / period
  {
    var x, y := a / period, b / period;
    assert x * period == a && y * period == b;
    Ratio(4.0 * (b - a), period, 4.0 * y - 4.0 * x);
  }

  /** It rises from -1 to 1 with constant slope over the first half. */
  lemma CarrierRises(a: real, b: real, period: real)
    requires period > 0.0 && 0.0 <= a <= b <= period / 2.0
    ensures Carrier(b, period) - Carrier(a, period) == 4.0 * (b - a) / period
  {
    hide Carrier;
    FirstHalf(a, period, a / period);
    FirstHalf(b, period, b / period);
    Slope(a, b, period);
  }

  /** The values at the quarters; the modulator starts at the first one, where the carrier is zero. */
  lemma CarrierQuarters(period: real)
    requires period > 0.0
    ensures Carrier(0.0, period) == -1.0 && Carrier(0.25 * period, period) == 0.0
    ensures Carrier(0.5 * period, period) == 1.0 && Carrier(0.75 * period, period) == 0.0
  {
    hide Carrier;
    Ratio(0.0, period, 0.0);
    Ratio(0.25 * period, period, 0.25);
    Ratio(0.5 * period, period, 0.5);
    FirstHalf(0.0, period, 0.0);
    FirstHalf(0.25 * period, period, 0.25);
    FirstHalf(0.5 * period, period, 0.5);
    CarrierMirror(0.25 * period, period);
    assert period - 0.25 * period == 0.75 * period;
  }

  class Modulator {
    const dt: real
    const period: real
    var carrierT: real

    constructor (dt: real, period: real)
      requires period > 0.0
      ensures this.dt == dt && this.period == period && carrierT == 0.25 * period
    {
      this.dt, this.period := dt, period;
      carrierT := 0.25 * period;
    }

    /** The gate byte turns on exactly one switch per phase: the upper one where the demand exceeds the carrier. */
    method Modulate(u: seq<real>) returns (gate: bv8)
      requires |u| == 3 && period > 0.0
      modifies this
      ensures carrierT == old(carrierT) + dt
      ensures Complementary(gate)
      ensures forall k :: 0 <= k < 3 ==> (Upper(gate, k) <==> u[k] > Carrier(old(carrierT), period))
    {
      hide Upper, Lower;
      var carrier := Carrier(carrierT, period);
      carrierT := carrierT + dt;
      gate := 0;
      AllOff();
      for k := 0 to 3
        invariant carrierT == old(carrierT) + dt
        invariant forall i :: 0 <= i < k ==>
                    (Upper(gate, i) <==> u[i] > carrier) && (Lower(gate, i) <==> u[i] <= carrier)
        invariant forall i :: k <= i < 3 ==> !Upper(gate, i) && !Lower(gate, i)
      {
        var b := if u[k] > carrier then 2 * k else 2 * k + 1;
        SetBit(gate, b);
        ghost var g0 := gate;
        gate := gate | (1 << b);
        assert forall i :: 0 <= i < 3 ==> (Upper(gate, i) <==> b == 2 * i || Upper(g0, i));
        assert forall i :: 0 <= i < 3 ==> (Lower(gate, i) <==> b == 2 * i + 1 || Lower(g0, i));
      }
    }
  }

  lemma AllOff()
    ensures forall k :: 0 <= k < 3 ==> !Upper(0, k) && !Lower(0, k)
  {
  }

  /** Setting one of the six gate bits leaves the other five alone. */
  lemma SetBit(gate: bv8, b: nat)
    requires b < 6
    ensures forall k :: 0 <= k < 3 ==> (Upper(gate | (1 << b), k) <==> b == 2 * k || Upper(gate, k))
    ensures forall k :: 0 <= k < 3 ==> (Lower(gate | (1 << b), k) <==> b == 2 * k + 1 || Lower(gate, k))
  {
    hide Bit;
    forall k | 0 <= k < 3
      ensures Upper(gate | (1 << b), k) <==> b == 2 * k || Upper(gate, k)
      ensures Lower(gate | (1 << b), k) <==> b == 2 * k + 1 || Lower(gate, k)
    {
      SetBitAt(gate, b, 2 * k);
      SetBitAt(gate, b, 2 * k + 1);
    }
  }

  lemma SetBitAt(gate: bv8, b: nat, i: nat)
    requires b < 6 && i < 6
    ensures Bit(gate | (1 << b), i) <==> b == i || Bit(gate, i)
  {
  }
}
