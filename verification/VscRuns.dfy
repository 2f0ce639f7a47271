/** Every step has exactly one outcome, and the three phases never influence each other. */
module VscRuns {
  import opened LinearAlgebra
  import opened Norton
  import opened VscReference

  // ---- Existence: the three-node system has a closed solution ---------------

  /** The voltages of three nodes in a row: eliminate the two end nodes, solve for the middle one, substitute back. */
  function ChainSolve(g0: real, g1: real, g2: real, gF: real, gG: real, b0: real, b1: real, b2: real)
    : (x: (real, real, real))
    requires g0 > 0.0 && g1 > 0.0 && g2 > 0.0 && gF > 0.0 && gG > 0.0
    ensures ChainEquations(g0, g1, g2, gF, gG, x.0, x.1, x.2, b0, b1, b2)
  {
    var u, w := gF / (g0 + gF), gG / (g2 + gG);
    ChainDenominator(g0, g1, g2, gF, gG, u, w);
    var c := (b1 + u * b0 + w * b2) / (g1 + g0 * u + g2 * w);
    var a, e := (b0 + gF * c) / (g0 + gF), (b2 + gG * c) / (g2 + gG);
    ChainSolved(g0, g1, g2, gF, gG, b0, b1, b2, u, w, a, c, e);
    (a, c, e)
  }

  lemma ChainDenominator(g0: real, g1: real, g2: real, gF: real, gG: real, u: real, w: real)
    requires g0 > 0.0 && g1 > 0.0 && g2 > 0.0 && gF > 0.0 && gG > 0.0
    requires u == gF / (g0 + gF) && w == gG / (g2 + gG)
    ensures u > 0.0 && w > 0.0 && g1 + g0 * u + g2 * w > 0.0
    ensures u * (g0 + gF) == gF && w * (g2 + gG) == gG
  {
    PositiveQuotient(gF, g0 + gF);
    PositiveQuotient(gG, g2 + gG);
    assert g0 * u > 0.0 && g2 * w > 0.0;
  }

  lemma ChainSolved(g0: real, g1: real, g2: real, gF: real, gG: real, b0: real, b1: real, b2: real,
                    u: real, w: real, a: real, c: real, e: real)
    requires g0 + gF > 0.0 && g2 + gG > 0.0
    requires u * (g0 + gF) == gF && w * (g2 + gG) == gG
    requires a * (g0 + gF) == b0 + gF * c && e * (g2 + gG) == b2 + gG * c
    requires c * (g1 + g0 * u + g2 * w) == b1 + u * b0 + w * b2
    ensures ChainEquations(g0, g1, g2, gF, gG, a, c, e, b0, b1, b2)
  {
    EndFlow(g0, gF, u, a, c, b0);
    EndFlow(g2, gG, w, e, c, b2);
    assert c * (g1 + g0 * u + g2 * w) == g1 * c + (g0 * u) * c + (g2 * w) * c;
    assert gG * (c - e) == -(gG * (e - c));
  }

  /** The current from an end node into the middle, with the end node eliminated. */
  lemma EndFlow(g: real, h: real, u: real, a: real, c: real, b: real)
    requires g + h > 0.0 && u * (g + h) == h && a * (g + h) == b + h * c
    ensures h * (a - c) == u * b - (g * u) * c
    ensures g * a + h * (a - c) == b
  {
    var t := g + h;
    assert h * a == u * (t * a);
    assert u * (a * t) == u * (b + h * c);
    assert u * (b + h * c) == u * b + (u * h) * c;
    assert u * h == h - u * g;
    assert (h - u * g) * c == h * c - (u * g) * c;
  }

  /** The node voltages that a step produces. */
  function NodeVoltages(tr: Trig, p: SolverParams, s: State, gate: bv8): (v: Vec)
    requires p.Positive() && s.Valid() && forall i :: 0 <= i < NODES ==> p.Ground(gate, i) > 0.0
    ensures |v| == NODES && Solves(GMatrix(p, gate), v, Injection(tr, p, s, gate))
  {
    CompanionsPositive(p);
    var b := Injection(tr, p, s, gate);
    var x := seq(3, k requires 0 <= k < 3 => PhaseVoltages(p, gate, b, k));
    var v := [x[0].0, x[1].0, x[2].0, x[0].1, x[1].1, x[2].1, x[0].2, x[1].2, x[2].2];
    assert PhaseEquations(p, gate, v, b, 0) && PhaseEquations(p, gate, v, b, 1) && PhaseEquations(p, gate, v, b, 2);
    SolvesByPhase(p, gate, v, b);
    v
  }

  function PhaseVoltages(p: SolverParams, gate: bv8, b: Vec, k: nat): (x: (real, real, real))
    requires p.Positive() && |b| == NODES && k < 3 && p.FilterL().gEq > 0.0 && p.GridL().gEq > 0.0
    requires p.Ground(gate, k) > 0.0 && p.Ground(gate, k + 3) > 0.0 && p.Ground(gate, k + 6) > 0.0
    ensures ChainEquations(p.Ground(gate, k), p.Ground(gate, k + 3), p.Ground(gate, k + 6), p.FilterL().gEq,
                           p.GridL().gEq, x.0, x.1, x.2, b[k], b[k + 3], b[k + 6])
  {
    ChainSolve(p.Ground(gate, k), p.Ground(gate, k + 3), p.Ground(gate, k + 6), p.FilterL().gEq, p.GridL().gEq,
               b[k], b[k + 3], b[k + 6])
  }

  /** For valid parameters every state has exactly one successor under every gate byte. */
  lemma StepExistsUnique(tr: Trig, p: SolverParams, s: State, gate: bv8) returns (s': State)
    requires p.Valid() && s.Valid()
    ensures Step(tr, p, s, gate, s')
    ensures forall z :: Step(tr, p, s, gate, z) ==> z == s'
  {
    var v := NodeVoltages(tr, p, s, gate);
    s' := Updated(p, s, gate, v);
    forall z | Step(tr, p, s, gate, z) ensures z == s' {
      StepDeterministic(tr, p, s, gate, z, s');
    }
  }

  // ---- Phase isolation -------------------------------------------------------

  /** Everything a step of phase k reads from the state. */
  predicate SameMemory(s: State, z: State, k: nat)
    requires s.Valid() && z.Valid() && k < 3
  {
    s.hLf[k] == z.hLf[k] && s.hCf[k] == z.hCf[k] && s.hLgrid[k] == z.hLgrid[k] && s.t == z.t
  }

  predicate SamePhase(s: State, z: State, k: nat)
    requires s.Valid() && z.Valid() && k < 3
  {
    && s.v[k] == z.v[k] && s.v[k + 3] == z.v[k + 3] && s.v[k + 6] == z.v[k + 6]
    && s.iLf[k] == z.iLf[k] && s.iCf[k] == z.iCf[k] && s.iLgrid[k] == z.iLgrid[k]
    && SameMemory(s, z, k)
  }

  predicate SameBits(gate: bv8, other: bv8, k: nat)
    requires k < 3
  {
    Upper(gate, k) == Upper(other, k) && Lower(gate, k) == Lower(other, k)
  }

  /** A three-node system with positive conductances has at most one solution. */
  lemma ChainUnique(g0: real, g1: real, g2: real, gF: real, gG: real, b0: real, b1: real, b2: real,
                    a: real, c: real, e: real, a': real, c': real, e': real)
    requires g0 > 0.0 && g1 > 0.0 && g2 > 0.0 && gF > 0.0 && gG > 0.0
    requires ChainEquations(g0, g1, g2, gF, gG, a, c, e, b0, b1, b2)
    requires ChainEquations(g0, g1, g2, gF, gG, a', c', e', b0, b1, b2)
    ensures a == a' && c == c' && e == e'
  {
    ChainDifference(g0, g1, g2, gF, gG, b0, b1, b2, a, c, e, a', c', e');
    var gMin := if g0 <= g1 && g0 <= g2 then g0 else if g1 <= g2 then g1 else g2;
    ChainPeak(g0, g1, g2, a - a', c - c', e - e', gF, gG, 0.0, 0.0, 0.0, gMin, 0.0);
    CarriesNothing(gMin, a - a');
    CarriesNothing(gMin, c - c');
    CarriesNothing(gMin, e - e');
  }

  lemma ChainDifference(g0: real, g1: real, g2: real, gF: real, gG: real, b0: real, b1: real, b2: real,
                        a: real, c: real, e: real, a': real, c': real, e': real)
    requires ChainEquations(g0, g1, g2, gF, gG, a, c, e, b0, b1, b2)
    requires ChainEquations(g0, g1, g2, gF, gG, a', c', e', b0, b1, b2)
    ensures ChainEquations(g0, g1, g2, gF, gG, a - a', c - c', e - e', 0.0, 0.0, 0.0)
  {
  }

  lemma CarriesNothing(gMin: real, v: real)
    requires gMin > 0.0 && Carries(gMin, v, 0.0)
    ensures v == 0.0
  {
  }

  lemma StepIsolation(tr: Trig, p: SolverParams, s: State, gate: bv8, s': State, z: State, other: bv8, z': State,
                      k: nat)
    requires p.Valid() && Step(tr, p, s, gate, s') && Step(tr, p, z, other, z') && k < 3
    requires SameMemory(s, z, k) && SameBits(gate, other, k)
    ensures SamePhase(s', z', k)
  {
    hide Solves, GMatrix, Injection, Updated, PhaseEquations, SamePhase, SameMemory, SameBits;
    var b, d := Injection(tr, p, s, gate), Injection(tr, p, z, other);
    SolvesByPhase(p, gate, s'.v, b);
    SolvesByPhase(p, other, z'.v, d);
    SameInjection(tr, p, s, gate, z, other, k);
    assert p.Ground(gate, k) > 0.0 && p.Ground(gate, k + 3) > 0.0 && p.Ground(gate, k + 6) > 0.0;
    CompanionsPositive(p);
    PhaseSolution(p, gate, other, s'.v, z'.v, b, d, k);
    SameUpdate(p, s, z, gate, other, s'.v, z'.v, k);
  }

  lemma SameInjection(tr: Trig, p: SolverParams, s: State, gate: bv8, z: State, other: bv8, k: nat)
    requires p.Positive() && s.Valid() && z.Valid() && k < 3 && SameMemory(s, z, k) && SameBits(gate, other, k)
    ensures var b, d := Injection(tr, p, s, gate), Injection(tr, p, z, other);
            b[k] == d[k] && b[k + 3] == d[k + 3] && b[k + 6] == d[k + 6]
  {
    hide GridSource;
  }

  lemma PhaseSolution(p: SolverParams, gate: bv8, other: bv8, v: Vec, w: Vec, b: Vec, d: Vec, k: nat)
    requires p.Positive() && |v| == |w| == |b| == |d| == NODES && k < 3 && SameBits(gate, other, k)
    requires PhaseEquations(p, gate, v, b, k) && PhaseEquations(p, other, w, d, k)
    requires b[k] == d[k] && b[k + 3] == d[k + 3] && b[k + 6] == d[k + 6]
    requires p.Ground(gate, k) > 0.0 && p.Ground(gate, k + 3) > 0.0 && p.Ground(gate, k + 6) > 0.0
    requires p.FilterL().gEq > 0.0 && p.GridL().gEq > 0.0
    ensures v[k] == w[k] && v[k + 3] == w[k + 3] && v[k + 6] == w[k + 6]
  {
    hide ChainEquations;
    assert p.Ground(gate, k) == p.Ground(other, k);
    ChainUnique(p.Ground(gate, k), p.Ground(gate, k + 3), p.Ground(gate, k + 6), p.FilterL().gEq, p.GridL().gEq,
                b[k], b[k + 3], b[k + 6], v[k], v[k + 3], v[k + 6], w[k], w[k + 3], w[k + 6]);
  }

  lemma SameUpdate(p: SolverParams, s: State, z: State, gate: bv8, other: bv8, v: Vec, w: Vec, k: nat)
    requires p.Positive() && s.Valid() && z.Valid() && |v| == |w| == NODES && k < 3 && SameMemory(s, z, k)
    requires v[k] == w[k] && v[k + 3] == w[k + 3] && v[k + 6] == w[k + 6]
    ensures SamePhase(Updated(p, s, gate, v), Updated(p, z, other, w), k)
  {
    hide BranchCurrent, InductorHistory, CapacitorHistory;
  }

  /**
   Phase isolation over whole runs: if two runs start with the same clock and the same histories in phase k and their
   gate sequences agree on the two bits of phase k, then from the first step on the voltages, currents and histories
   of phase k are the same, whatever happens in the other phases.
   */
  lemma {:induction false} RunIsolation(tr: Trig, p: SolverParams, s: seq<State>, gates: seq<bv8>, z: seq<State>,
                                        others: seq<bv8>, k: nat, n: nat)
    requires p.Valid() && Run(tr, p, s, gates) && Run(tr, p, z, others) && |gates| == |others| && k < 3
    requires SameMemory(s[0], z[0], k) && forall i :: 0 <= i < |gates| ==> SameBits(gates[i], others[i], k)
    requires n <= |gates|
    ensures SameMemory(s[n], z[n], k)
    ensures n > 0 ==> SamePhase(s[n], z[n], k)
  {
    hide Step, SolverParams.Valid, SameBits;
    if n > 0 {
      RunIsolation(tr, p, s, gates, z, others, k, n - 1);
      StepIsolation(tr, p, s[n - 1], gates[n - 1], s[n], z[n - 1], others[n - 1], z[n], k);
    }
  }
}
