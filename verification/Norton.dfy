/** Companion circuits of the trapezoidal rule (NortonUpdate.cpp). */
module Norton {

  datatype Inductor = Inductor(gEq: real, beta: real)

  function MakeInductor(l: real, r: real, dt: real): Inductor
    requires l > 0.0 && r >= 0.0 && dt > 0.0
  {
    var denom := 2.0 * l + r * dt;
    assert r * dt >= 0.0;
    Inductor(dt / denom, (2.0 * l - r * dt) / denom)
  }

  function CapacitorConductance(c: real, dt: real): real
    requires dt > 0.0
  {
    2.0 * c / dt
  }

  function InductorHistory(n: Inductor, i: real, v: real): real {
    n.gEq * v + n.beta * i
  }

  function CapacitorHistory(g: real, i: real, v: real): real {
    -i - g * v
  }

  /** The companion current of a branch with history h between voltages a and c. */
  function BranchCurrent(g: real, a: real, c: real, h: real): real {
    g * (a - c) + h
  }

  /** The trapezoidal step of l * di/dt = (a - c) - r * i. */
  predicate RlTrapezoidal(l: real, r: real, dt: real, i: real, a: real, c: real, i': real, a': real, c': real) {
    2.0 * l * (i' - i) == dt * ((a' - c') + (a - c)) - (r * dt) * (i' + i)
  }

  /** The trapezoidal step of cap * dv/dt = i. */
  predicate CTrapezoidal(cap: real, dt: real, i: real, v: real, i': real, v': real) {
    2.0 * cap * (v' - v) == dt * (i' + i)
  }

  lemma InductorFactors(l: real, r: real, dt: real, d: real)
    requires l > 0.0 && r >= 0.0 && dt > 0.0 && d == 2.0 * l + r * dt
    ensures var n := MakeInductor(l, r, dt); d > 0.0 && n.gEq * d == dt && n.beta * d == 2.0 * l - r * dt
  {
    assert r * dt >= 0.0;
  }

  /** The companion of an RL branch takes the trapezoidal step, and no other current does. */
  lemma InductorTrapezoidal(l: real, r: real, dt: real, i: real, a: real, c: real, i': real, a': real, c': real)
    requires l > 0.0 && r >= 0.0 && dt > 0.0
    ensures var n := MakeInductor(l, r, dt);
            i' == BranchCurrent(n.gEq, a', c', InductorHistory(n, i, a - c))
            <==> RlTrapezoidal(l, r, dt, i, a, c, i', a', c')
  {
    hide MakeInductor;
    var n, v, v' := MakeInductor(l, r, dt), a - c, a' - c';
    var rd := r * dt;
    var d := 2.0 * l + rd;
    InductorFactors(l, r, dt, d);
    var w := n.gEq * v' + InductorHistory(n, i, v);
    ScaledCompanion(n.gEq, n.beta, d, dt, 2.0 * l - rd, v, v', i, w);
    CompanionAlgebra(l, rd, dt, i, v, i', v', d * w, d, w);
  }

  lemma ScaledCompanion(g: real, b: real, d: real, dt: real, e: real, v: real, v': real, i: real, w: real)
    requires g * d == dt && b * d == e && w == g * v' + (g * v + b * i)
    ensures d * w == dt * (v' + v) + e * i
  {
    assert d * (g * v') == (g * d) * v';
    assert d * (g * v) == (g * d) * v;
    assert d * (b * i) == (b * d) * i;
    assert d * w == d * (g * v') + d * (g * v) + d * (b * i);
  }

  lemma CompanionAlgebra(l: real, rd: real, dt: real, i: real, v: real, i': real, v': real, dw: real, d: real, w: real)
    requires d > 0.0 && d == 2.0 * l + rd && dw == d * w
    requires dw == dt * (v' + v) + (2.0 * l - rd) * i
    ensures i' == w <==> 2.0 * l * (i' - i) == dt * (v' + v) - rd * (i' + i)
  {
    assert d * i' == 2.0 * l * i' + rd * i';
    if d * i' == d * w {
      assert d * (i' - w) == 0.0;
    }
  }

  /** Likewise for a capacitor to ground. */
  lemma CapacitorTrapezoidal(c: real, dt: real, i: real, v: real, i': real, v': real)
    requires dt > 0.0
    ensures var g := CapacitorConductance(c, dt);
            i' == BranchCurrent(g, v', 0.0, CapacitorHistory(g, i, v)) <==> CTrapezoidal(c, dt, i, v, i', v')
  {
    var g := CapacitorConductance(c, dt);
    assert g * dt == 2.0 * c;
    assert (g * dt) * (v' - v) == dt * (g * v' - g * v);
    assert dt * (i' + i) - dt * (g * v' - g * v) == dt * (i' + i - g * v' + g * v);
  }
}
