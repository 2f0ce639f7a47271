/**
 The reference meaning of one timestep of the nine-node converter network: assemble the conductance matrix for the
 gate byte from scratch, solve it exactly for the Norton injections, and update currents and histories.
 Nodes 0-2 are the inverter terminals, 3-5 the filter capacitors, 6-8 the grid terminals; phase k owns k, k+3, k+6.
 */
module VscReference {
  import opened LinearAlgebra
  import opened Norton
  import LuTheory

  const NODES := 9

  datatype SolverParams = SolverParams(
    dt: real, lF: real, rF: real, cF: real, lGrid: real, rGrid: real,
    vDc: real, vGridRms: real, fGrid: real, gOn: real, gOff: real, vRated: real, rSrc: real)
  {
    ghost predicate Valid() {
      && dt > 0.0 && lF > 0.0 && rF >= 0.0 && cF > 0.0 && lGrid > 0.0 && rGrid >= 0.0 && rSrc > 0.0
      && gOn > 0.0 && gOff > 0.0
      && forall gate: bv8, i :: 0 <= i < NODES ==> Ground(gate, i) >= LuTheory.PIVOT_MIN
    }

    predicate Positive() {
      dt > 0.0 && lF > 0.0 && rF >= 0.0 && cF > 0.0 && lGrid > 0.0 && rGrid >= 0.0 && rSrc > 0.0
    }

    function FilterL(): Inductor
      requires Positive()
    {
      MakeInductor(lF, rF, dt)
    }

    function GridL(): Inductor
      requires Positive()
    {
      MakeInductor(lGrid, rGrid, dt)
    }

    function FilterC(): real
      requires Positive()
    {
      CapacitorConductance(cF, dt)
    }

    function SwitchG(on: bool): real {
      if on then gOn else gOff
    }

    /** The conductance from node i to ground. */
    function Ground(gate: bv8, i: nat): real
      requires Positive() && i < NODES
    {
      if i < 3 then SwitchG(Upper(gate, i)) + SwitchG(Lower(gate, i))
      else if i < 6 then FilterC()
      else 1.0 / rSrc
    }
  }

  /** What the model takes from the mathematics library: the sine function and the constants pi and sqrt(2). */
  datatype Trig = Trig(sin: real -> real, pi: real, sqrt2: real)

  predicate Bit(gate: bv8, b: nat)
    requires b < 8
  {
    (gate >> b) & 1 == 1
  }

  /** The upper switch of phase k is on. */
  predicate Upper(gate: bv8, k: nat)
    requires k < 3
  {
    Bit(gate, 2 * k)
  }

  /** The lower switch of phase k is on. */
  predicate Lower(gate: bv8, k: nat)
    requires k < 3
  {
    Bit(gate, 2 * k + 1)
  }

  function GridPeak(tr: Trig, p: SolverParams): real {
    p.vGridRms * tr.sqrt2
  }

  function GridAngle(tr: Trig, p: SolverParams, k: nat, t: real): real {
    2.0 * tr.pi * p.fGrid * t + (k as real) * (-2.0 * tr.pi / 3.0)
  }

  function GridSource(tr: Trig, p: SolverParams, k: nat, t: real): real {
    GridPeak(tr, p) * tr.sin(GridAngle(tr, p, k, t))
  }

  // ---- The conductance matrix ------------------------------------------------

  function GEntry(p: SolverParams, gate: bv8, i: nat, j: nat): real
    requires p.Positive() && i < NODES && j < NODES
  {
    var gF, gG := p.FilterL().gEq, p.GridL().gEq;
    if i == j then
      (if i < 3 then gF else if i < 6 then gF + gG else gG) + p.Ground(gate, i)
    else if i + 3 == j then (if i < 3 then -gF else -gG)
    else if j + 3 == i then (if j < 3 then -gF else -gG)
    else 0.0
  }

  function GMatrix(p: SolverParams, gate: bv8): (g: Matrix)
    requires p.Positive()
    ensures Square(g, NODES)
  {
    seq(NODES, i requires 0 <= i < NODES => seq(NODES, j requires 0 <= j < NODES => GEntry(p, gate, i, j)))
  }

  lemma CompanionsPositive(p: SolverParams)
    requires p.Positive()
    ensures p.FilterL().gEq > 0.0 && p.GridL().gEq > 0.0
  {
    InductorPositive(p.lF, p.rF, p.dt);
    InductorPositive(p.lGrid, p.rGrid, p.dt);
  }

  lemma InductorPositive(l: real, r: real, dt: real)
    requires l > 0.0 && r >= 0.0 && dt > 0.0
    ensures MakeInductor(l, r, dt).gEq > 0.0
  {
    var rd := r * dt;
    assert rd >= 0.0;
    PositiveQuotient(dt, 2.0 * l + rd);
  }

  lemma PositiveQuotient(a: real, b: real)
    requires a > 0.0 && b > 0.0
    ensures a / b > 0.0
  {
    var q := a / b;
    assert q * b == a;
  }

  /** Every column of the assembled matrix is dominated by its diagonal, with the conductance to ground as the gap. */
  lemma GDominant(p: SolverParams, gate: bv8)
    requires p.Valid()
    ensures LuTheory.Dominant(GMatrix(p, gate), 0, NODES, LuTheory.PIVOT_MIN)
  {
    var g := GMatrix(p, gate);
    CompanionsPositive(p);
    forall j | 0 <= j < NODES ensures Abs(g[j][j]) >= LuTheory.PIVOT_MIN + LuTheory.ColumnSum(g, j, 0, NODES, j) {
      assert p.Ground(gate, j) >= LuTheory.PIVOT_MIN;
      var a, b := if j < 3 then j + 3 else j - 3, if j < 6 then (if j < 3 then j + 6 else j + 3) else j - 6;
      LuTheory.ColumnSumSparse(g, j, 0, NODES, j, if a < b then a else b, if a < b then b else a);
    }
  }

  // ---- One step --------------------------------------------------------------

  datatype State = State(
    v: Vec, iLf: Vec, iCf: Vec, iLgrid: Vec, hLf: Vec, hCf: Vec, hLgrid: Vec, t: real, gate: bv8, fault: bool)
  {
    predicate Valid() {
      |v| == NODES && |iLf| == |iCf| == |iLgrid| == |hLf| == |hCf| == |hLgrid| == 3
    }

    /** No voltage, no current, no history: how a simulation starts. */
    predicate AtRest() {
      && Valid()
      && (forall i :: 0 <= i < NODES ==> v[i] == 0.0)
      && (forall k :: 0 <= k < 3 ==> iLf[k] == 0.0 && iCf[k] == 0.0 && iLgrid[k] == 0.0)
      && (forall k :: 0 <= k < 3 ==> hLf[k] == 0.0 && hCf[k] == 0.0 && hLgrid[k] == 0.0)
    }
  }

  /** What the upper switch of phase k lets in from the DC bus. */
  function Feed(p: SolverParams, gate: bv8, k: nat): real
    requires k < 3
  {
    p.SwitchG(Upper(gate, k)) * p.vDc
  }

  /** The injection of a voltage source src behind conductance g, on top of the history h. */
  function SourceInjection(h: real, g: real, src: real): real {
    h + g * src
  }

  /** The Norton current injected into node i. */
  function InjectionAt(tr: Trig, p: SolverParams, s: State, gate: bv8, i: nat): real
    requires s.Valid() && p.Positive() && i < NODES
  {
    if i < 3 then Feed(p, gate, i) - s.hLf[i]
    else if i < 6 then s.hLf[i - 3] - s.hCf[i - 3] - s.hLgrid[i - 3]
    else SourceInjection(s.hLgrid[i - 6], 1.0 / p.rSrc, GridSource(tr, p, i - 6, s.t))
  }

  function Injection(tr: Trig, p: SolverParams, s: State, gate: bv8): (b: Vec)
    requires s.Valid() && p.Positive()
    ensures |b| == NODES
  {
    seq(NODES, i requires 0 <= i < NODES => InjectionAt(tr, p, s, gate, i))
  }

  /** Nothing has been injected at the nodes of phase k yet. */
  predicate ClearPhase(b: Vec, k: nat)
    requires |b| == NODES && k < 3
  {
    b[k] == 0.0 && b[k + 3] == 0.0 && b[k + 6] == 0.0
  }

  predicate Overvoltage(p: SolverParams, v: Vec) {
    exists i :: 0 <= i < |v| && Abs(v[i]) > 2.0 * p.vRated
  }

  function FilterCurrent(p: SolverParams, s: State, v: Vec, k: nat): real
    requires s.Valid() && p.Positive() && |v| == NODES && k < 3
  {
    BranchCurrent(p.FilterL().gEq, v[k], v[k + 3], s.hLf[k])
  }

  function CapacitorCurrent(p: SolverParams, s: State, v: Vec, k: nat): real
    requires s.Valid() && p.Positive() && |v| == NODES && k < 3
  {
    BranchCurrent(p.FilterC(), v[k + 3], 0.0, s.hCf[k])
  }

  function GridCurrent(p: SolverParams, s: State, v: Vec, k: nat): real
    requires s.Valid() && p.Positive() && |v| == NODES && k < 3
  {
    BranchCurrent(p.GridL().gEq, v[k + 3], v[k + 6], s.hLgrid[k])
  }

  /** The state after the node voltages v have been found. */
  function Updated(p: SolverParams, s: State, gate: bv8, v: Vec): (s': State)
    requires s.Valid() && p.Positive() && |v| == NODES
    ensures s'.Valid()
  {
    var iF := seq(3, k requires 0 <= k < 3 => FilterCurrent(p, s, v, k));
    var iC := seq(3, k requires 0 <= k < 3 => CapacitorCurrent(p, s, v, k));
    var iG := seq(3, k requires 0 <= k < 3 => GridCurrent(p, s, v, k));
    State(v, iF, iC, iG,
          seq(3, k requires 0 <= k < 3 => InductorHistory(p.FilterL(), iF[k], v[k] - v[k + 3])),
          seq(3, k requires 0 <= k < 3 => CapacitorHistory(p.FilterC(), iC[k], v[k + 3])),
          seq(3, k requires 0 <= k < 3 => InductorHistory(p.GridL(), iG[k], v[k + 3] - v[k + 6])),
          s.t + p.dt, gate, Overvoltage(p, v))
  }

  /**
   s' follows s under the gate byte: its voltages solve the freshly assembled system, the rest is updated from them.
   */
  ghost predicate Step(tr: Trig, p: SolverParams, s: State, gate: bv8, s': State)
    requires p.Positive()
  {
    && s.Valid() && s'.Valid()
    && Solves(GMatrix(p, gate), s'.v, Injection(tr, p, s, gate))
    && s' == Updated(p, s, gate, s'.v)
  }

  /** run[0] is the start, and run[n + 1] follows run[n] under gates[n]. */
  ghost predicate Run(tr: Trig, p: SolverParams, run: seq<State>, gates: seq<bv8>)
    requires p.Positive()
  {
    && |run| == |gates| + 1
    && (forall n :: 0 <= n < |run| ==> run[n].Valid())
    && forall n :: 0 <= n < |gates| ==> Step(tr, p, run[n], gates[n], run[n + 1])
  }

  // ---- The nine equations, phase by phase -----------------------------------

  /**
   Kirchhoff's current law at three nodes in a row: g0, g1, g2 lead to ground, gF joins the first two and gG the
   last two; a, c, e are the voltages and b0, b1, b2 the injected currents.
   */
  predicate ChainEquations(g0: real, g1: real, g2: real, gF: real, gG: real,
                           a: real, c: real, e: real, b0: real, b1: real, b2: real)
  {
    && g0 * a + gF * (a - c) == b0
    && g1 * c + (gG * (c - e) - gF * (a - c)) == b1
    && g2 * e - gG * (c - e) == b2
  }

  /** The equations of the nodes of phase k. */
  predicate PhaseEquations(p: SolverParams, gate: bv8, v: Vec, b: Vec, k: nat)
    requires p.Positive() && |v| == |b| == NODES && k < 3
  {
    ChainEquations(p.Ground(gate, k), p.Ground(gate, k + 3), p.Ground(gate, k + 6), p.FilterL().gEq, p.GridL().gEq,
                   v[k], v[k + 3], v[k + 6], b[k], b[k + 3], b[k + 6])
  }

  lemma ChainRows(g0: real, g1: real, g2: real, gF: real, gG: real, m00: real, m01: real, m10: real, m11: real,
                  m12: real, m21: real, m22: real, a: real, c: real, e: real, b0: real, b1: real, b2: real)
    requires m00 == gF + g0 && m01 == -gF && m10 == -gF && m11 == gF + gG + g1 && m12 == -gG && m21 == -gG
    requires m22 == gG + g2
    ensures (&& Three(m00, a, m01, c, 0.0, e) == b0
             && Three(m10, a, m11, c, m12, e) == b1
             && Three(0.0, a, m21, c, m22, e) == b2)
            <==> ChainEquations(g0, g1, g2, gF, gG, a, c, e, b0, b1, b2)
  {
  }

  lemma RowEquations(p: SolverParams, gate: bv8, v: Vec, b: Vec, k: nat)
    requires p.Positive() && |v| == |b| == NODES && k < 3
    ensures var g := GMatrix(p, gate);
            PhaseEquations(p, gate, v, b, k) <==>
            Dot(g[k], v) == b[k] && Dot(g[k + 3], v) == b[k + 3] && Dot(g[k + 6], v) == b[k + 6]
  {
    var g := GMatrix(p, gate);
    DotSparse(g[k], v, k, k + 3, k + 6);
    DotSparse(g[k + 3], v, k, k + 3, k + 6);
    DotSparse(g[k + 6], v, k, k + 3, k + 6);
    ChainRows(p.Ground(gate, k), p.Ground(gate, k + 3), p.Ground(gate, k + 6), p.FilterL().gEq, p.GridL().gEq,
              g[k][k], g[k][k + 3], g[k + 3][k], g[k + 3][k + 3], g[k + 3][k + 6], g[k + 6][k + 3], g[k + 6][k + 6],
              v[k], v[k + 3], v[k + 6], b[k], b[k + 3], b[k + 6]);
  }

  /** The nine-node system is three independent three-node systems. */
  lemma SolvesByPhase(p: SolverParams, gate: bv8, v: Vec, b: Vec)
    requires p.Positive() && |v| == |b| == NODES
    ensures Solves(GMatrix(p, gate), v, b) <==> forall k :: 0 <= k < 3 ==> PhaseEquations(p, gate, v, b, k)
  {
    RowEquations(p, gate, v, b, 0);
    RowEquations(p, gate, v, b, 1);
    RowEquations(p, gate, v, b, 2);
  }

  // ---- Discrete maximum principle -------------------------------------------

  ghost predicate BoundedBy(b: Vec, m: real) {
    forall i :: 0 <= i < |b| ==> Abs(b[i]) <= m
  }

  /** A conductance gMin to ground carries at most m at voltage v. */
  ghost predicate Carries(gMin: real, v: real, m: real) {
    gMin * Abs(v) <= m
  }

  lemma CarriesLess(gMin: real, u: real, v: real, m: real)
    requires gMin > 0.0 && Abs(u) <= Abs(v) && Carries(gMin, v, m)
    ensures Carries(gMin, u, m)
  {
    LuTheory.Scale(gMin, Abs(u), Abs(v));
  }

  /** A node whose outflow to its neighbours has the sign of its voltage cannot rise above its injection. */
  lemma PeakNode(g: real, v: real, flow: real, b: real, gMin: real, m: real)
    requires g * v + flow == b && g >= gMin > 0.0 && Abs(b) <= m
    requires (v >= 0.0 && flow >= 0.0) || (v <= 0.0 && flow <= 0.0)
    ensures Carries(gMin, v, m)
  {
    LuTheory.Scale(Abs(v), gMin, g);
    assert Abs(v) * g == if v < 0.0 then -(g * v) else g * v;
  }

  /** Current flows away from the node with the larger voltage magnitude. */
  lemma FlowSign(g: real, v: real, u: real, flow: real)
    requires g > 0.0 && Abs(u) <= Abs(v) && flow == g * (v - u)
    ensures v >= 0.0 ==> flow >= 0.0
    ensures v <= 0.0 ==> flow <= 0.0
  {
  }

  /** Three nodes in a row, each with a conductance to ground. */
  lemma ChainPeak(g0: real, g1: real, g2: real, a: real, c: real, e: real, gF: real, gG: real,
                  b0: real, b1: real, b2: real, gMin: real, m: real)
    requires gF > 0.0 && gG > 0.0 && ChainEquations(g0, g1, g2, gF, gG, a, c, e, b0, b1, b2)
    requires g0 >= gMin > 0.0 && g1 >= gMin && g2 >= gMin && Abs(b0) <= m && Abs(b1) <= m && Abs(b2) <= m
    ensures Carries(gMin, a, m) && Carries(gMin, c, m) && Carries(gMin, e, m)
  {
    var f, h := gF * (a - c), gG * (c - e);
    if Abs(a) >= Abs(c) && Abs(a) >= Abs(e) {
      FlowSign(gF, a, c, f);
      PeakNode(g0, a, f, b0, gMin, m);
      CarriesLess(gMin, c, a, m);
      CarriesLess(gMin, e, a, m);
    } else if Abs(c) >= Abs(a) && Abs(c) >= Abs(e) {
      FlowSign(gF, c, a, -f);
      FlowSign(gG, c, e, h);
      PeakNode(g1, c, h - f, b1, gMin, m);
      CarriesLess(gMin, a, c, m);
      CarriesLess(gMin, e, c, m);
    } else {
      FlowSign(gG, e, c, -h);
      PeakNode(g2, e, -h, b2, gMin, m);
      CarriesLess(gMin, a, e, m);
      CarriesLess(gMin, c, e, m);
    }
  }

  lemma PhasePeak(p: SolverParams, gate: bv8, v: Vec, b: Vec, k: nat, gMin: real, m: real)
    requires p.Positive() && |v| == |b| == NODES && k < 3 && gMin > 0.0
    requires PhaseEquations(p, gate, v, b, k) && BoundedBy(b, m)
    requires p.Ground(gate, k) >= gMin && p.Ground(gate, k + 3) >= gMin && p.Ground(gate, k + 6) >= gMin
    ensures Carries(gMin, v[k], m) && Carries(gMin, v[k + 3], m) && Carries(gMin, v[k + 6], m)
  {
    CompanionsPositive(p);
    var gF, gG := p.FilterL().gEq, p.GridL().gEq;
    ChainPeak(p.Ground(gate, k), p.Ground(gate, k + 3), p.Ground(gate, k + 6), v[k], v[k + 3], v[k + 6], gF, gG,
              b[k], b[k + 3], b[k + 6], gMin, m);
  }

  /** No node voltage exceeds the largest injection divided by the smallest conductance to ground. */
  lemma MaximumPrinciple(p: SolverParams, gate: bv8, v: Vec, b: Vec, gMin: real, m: real)
    requires p.Positive() && |v| == |b| == NODES && gMin > 0.0
    requires forall i :: 0 <= i < NODES ==> p.Ground(gate, i) >= gMin
    requires Solves(GMatrix(p, gate), v, b) && BoundedBy(b, m)
    ensures forall i :: 0 <= i < NODES ==> Carries(gMin, v[i], m)
  {
    SolvesByPhase(p, gate, v, b);
    hide Carries, Solves, PhaseEquations, BoundedBy, GMatrix;
    forall i | 0 <= i < NODES ensures Carries(gMin, v[i], m) {
      var k := i % 3;
      assert i == k || i == k + 3 || i == k + 6;
      PhasePeak(p, gate, v, b, k, gMin, m);
    }
  }

  /** A fault is raised only when some injection exceeds 2 * V_rated times the smallest conductance to ground. */
  lemma FaultNeedsInjection(tr: Trig, p: SolverParams, s: State, gate: bv8, s': State, gMin: real)
    requires p.Positive() && gMin > 0.0 && Step(tr, p, s, gate, s')
    requires forall i :: 0 <= i < NODES ==> p.Ground(gate, i) >= gMin
    requires s'.fault
    ensures !BoundedBy(Injection(tr, p, s, gate), gMin * (2.0 * p.vRated))
  {
    OvervoltageNeedsInjection(p, gate, s'.v, Injection(tr, p, s, gate), gMin);
  }

  lemma OvervoltageNeedsInjection(p: SolverParams, gate: bv8, v: Vec, b: Vec, gMin: real)
    requires p.Positive() && |v| == |b| == NODES && gMin > 0.0 && Solves(GMatrix(p, gate), v, b)
    requires forall i :: 0 <= i < NODES ==> p.Ground(gate, i) >= gMin
    requires Overvoltage(p, v)
    ensures !BoundedBy(b, gMin * (2.0 * p.vRated))
  {
    hide Solves, GMatrix, SolverParams.Ground, Carries;
    var u := 2.0 * p.vRated;
    var i :| 0 <= i < NODES && Abs(v[i]) > u;
    if BoundedBy(b, gMin * u) {
      MaximumPrinciple(p, gate, v, b, gMin, gMin * u);
      CarriesAtMost(gMin, v[i], u);
    }
  }

  lemma CarriesAtMost(gMin: real, v: real, u: real)
    requires gMin > 0.0 && Abs(v) > u
    ensures !Carries(gMin, v, gMin * u)
  {
    var a := Abs(v);
    assert gMin * (a - u) > 0.0;
  }

  /** The assembled matrix is never singular, whatever the gate byte. */
  lemma GNonsingular(p: SolverParams, gate: bv8)
    requires p.Valid()
    ensures !Singular(GMatrix(p, gate), NODES)
  {
    forall x: Vec | |x| == NODES && Kernel(GMatrix(p, gate), x) ensures false {
      var zero: Vec := seq(NODES, i => 0.0);
      assert Solves(GMatrix(p, gate), x, zero);
      MaximumPrinciple(p, gate, x, zero, LuTheory.PIVOT_MIN, 0.0);
    }
  }

  /** A step has at most one outcome. */
  lemma StepDeterministic(tr: Trig, p: SolverParams, s: State, gate: bv8, s1: State, s2: State)
    requires p.Valid() && Step(tr, p, s, gate, s1) && Step(tr, p, s, gate, s2)
    ensures s1 == s2
  {
    GNonsingular(p, gate);
    LuTheory.NonsingularUnique(GMatrix(p, gate), Injection(tr, p, s, gate), s1.v, s2.v);
  }
}
