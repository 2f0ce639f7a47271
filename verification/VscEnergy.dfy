/**
 What a timestep conserves: Kirchhoff's laws and the trapezoidal branch equations hold after every step, which
 gives an exact energy balance, a bound on energy growth, and contraction of any two runs under the same gates.
 */
module VscEnergy {
  import opened LinearAlgebra
  import opened Norton
  import opened VscReference
  import LuTheory

  /** Voltages and currents of one phase. */
  datatype Phase = Phase(vInv: real, vCap: real, vGrid: real, iF: real, iC: real, iG: real)

  function PhaseOf(s: State, k: nat): Phase
    requires s.Valid() && k < 3
  {
    Phase(s.v[k], s.v[k + 3], s.v[k + 6], s.iLf[k], s.iCf[k], s.iLgrid[k])
  }

  /**
   Kirchhoff's current law at the three nodes. The half bridge is a source behind conductances: it supplies
   feed - load * vInv. The grid is a voltage source src behind the conductance gV.
   */
  predicate Balanced(vInv: real, vGrid: real, iF: real, iC: real, iG: real, feed: real, load: real, gV: real,
                     src: real) {
    && Supplies(iF, feed, load, vInv)
    && iF == iC + iG
    && Absorbs(iG, gV, vGrid, src)
  }

  /** The current out of a Norton source of strength feed and conductance load at voltage v. */
  predicate Supplies(i: real, feed: real, load: real, v: real) {
    i == feed - load * v
  }

  /** The current through a conductance gV from voltage v to voltage src. */
  predicate Absorbs(i: real, gV: real, v: real, src: real) {
    i == gV * (v - src)
  }

  predicate Kirchhoff(x: Phase, feed: real, load: real, gV: real, src: real) {
    Balanced(x.vInv, x.vGrid, x.iF, x.iC, x.iG, feed, load, gV, src)
  }

  /** The trapezoidal rule on the filter inductor, the filter capacitor and the grid inductor. */
  predicate Trapezoidal(p: SolverParams, x: Phase, y: Phase) {
    && RlTrapezoidal(p.lF, p.rF, p.dt, x.iF, x.vInv, x.vCap, y.iF, y.vInv, y.vCap)
    && CTrapezoidal(p.cF, p.dt, x.iC, x.vCap, y.iC, y.vCap)
    && RlTrapezoidal(p.lGrid, p.rGrid, p.dt, x.iG, x.vCap, x.vGrid, y.iG, y.vCap, y.vGrid)
  }

  /** The stored histories of phase k are those of the stored voltages and currents. */
  predicate ConsistentAt(p: SolverParams, s: State, k: nat)
    requires p.Positive() && s.Valid() && k < 3
  {
    && s.hLf[k] == InductorHistory(p.FilterL(), s.iLf[k], s.v[k] - s.v[k + 3])
    && s.hCf[k] == CapacitorHistory(p.FilterC(), s.iCf[k], s.v[k + 3])
    && s.hLgrid[k] == InductorHistory(p.GridL(), s.iLgrid[k], s.v[k + 3] - s.v[k + 6])
  }

  lemma StepConsistent(tr: Trig, p: SolverParams, s: State, gate: bv8, s': State, k: nat)
    requires p.Positive() && Step(tr, p, s, gate, s') && k < 3
    ensures ConsistentAt(p, s', k)
  {
    UpdatedAt(p, s, gate, s'.v, k);
  }

  lemma UpdatedAt(p: SolverParams, s: State, gate: bv8, v: Vec, k: nat)
    requires s.Valid() && p.Positive() && |v| == NODES && k < 3
    ensures var s' := Updated(p, s, gate, v);
            && s'.iLf[k] == FilterCurrent(p, s, v, k)
            && s'.iCf[k] == CapacitorCurrent(p, s, v, k)
            && s'.iLgrid[k] == GridCurrent(p, s, v, k)
            && ConsistentAt(p, s', k)
  {
  }

  lemma ChainKirchhoff(g0: real, g1: real, g2: real, gF: real, gG: real, a: real, c: real, e: real,
                       b0: real, b1: real, b2: real, hF: real, hC: real, hG: real, feed: real, src: real,
                       iF: real, iC: real, iG: real)
    requires ChainEquations(g0, g1, g2, gF, gG, a, c, e, b0, b1, b2)
    requires b0 == feed - hF && b1 == hF - hC - hG && b2 == SourceInjection(hG, g2, src)
    requires iF == BranchCurrent(gF, a, c, hF) && iC == BranchCurrent(g1, c, 0.0, hC)
    requires iG == BranchCurrent(gG, c, e, hG)
    ensures Balanced(a, e, iF, iC, iG, feed, g0, g2, src)
  {
  }

  /** The injections of phase k, in the form Kirchhoff's law uses them. */
  lemma InjectionOf(tr: Trig, p: SolverParams, s: State, gate: bv8, k: nat)
    requires p.Positive() && s.Valid() && k < 3
    ensures var b := Injection(tr, p, s, gate);
            && b[k] == Feed(p, gate, k) - s.hLf[k]
            && b[k + 3] == s.hLf[k] - s.hCf[k] - s.hLgrid[k]
            && b[k + 6] == SourceInjection(s.hLgrid[k], p.Ground(gate, k + 6), GridSource(tr, p, k, s.t))
  {
  }

  /** After a step, the currents balance at all nine nodes. */
  lemma StepKirchhoff(tr: Trig, p: SolverParams, s: State, gate: bv8, s': State, k: nat)
    requires p.Positive() && Step(tr, p, s, gate, s') && k < 3
    ensures Kirchhoff(PhaseOf(s', k), Feed(p, gate, k), p.Ground(gate, k), p.Ground(gate, k + 6),
                      GridSource(tr, p, k, s.t))
  {
    var b := Injection(tr, p, s, gate);
    assert PhaseEquations(p, gate, s'.v, b, k) by {
      SolvesByPhase(p, gate, s'.v, b);
    }
    assert s' == Updated(p, s, gate, s'.v);
    KirchhoffOf(tr, p, s, gate, s'.v, k);
  }

  lemma KirchhoffOf(tr: Trig, p: SolverParams, s: State, gate: bv8, v: Vec, k: nat)
    requires p.Positive() && s.Valid() && |v| == NODES && k < 3
    requires PhaseEquations(p, gate, v, Injection(tr, p, s, gate), k)
    ensures var x := PhaseOf(Updated(p, s, gate, v), k);
            Kirchhoff(x, Feed(p, gate, k), p.Ground(gate, k), p.Ground(gate, k + 6), GridSource(tr, p, k, s.t))
  {
    var b, x := Injection(tr, p, s, gate), PhaseOf(Updated(p, s, gate, v), k);
    InjectionOf(tr, p, s, gate, k);
    UpdatedAt(p, s, gate, v, k);
    ChainKirchhoff(p.Ground(gate, k), p.Ground(gate, k + 3), p.Ground(gate, k + 6), p.FilterL().gEq, p.GridL().gEq,
                   v[k], v[k + 3], v[k + 6], b[k], b[k + 3], b[k + 6], s.hLf[k], s.hCf[k], s.hLgrid[k],
                   Feed(p, gate, k), GridSource(tr, p, k, s.t), x.iF, x.iC, x.iG);
  }

  /** After a step from a consistent state, every branch obeys its trapezoidal equation. */
  lemma StepTrapezoidal(tr: Trig, p: SolverParams, s: State, gate: bv8, s': State, k: nat)
    requires p.Positive() && s.Valid() && k < 3 && ConsistentAt(p, s, k) && Step(tr, p, s, gate, s')
    ensures Trapezoidal(p, PhaseOf(s, k), PhaseOf(s', k))
  {
    var v := s'.v;
    UpdatedAt(p, s, gate, v, k);
    InductorTrapezoidal(p.lF, p.rF, p.dt, s.iLf[k], s.v[k], s.v[k + 3], s'.iLf[k], v[k], v[k + 3]);
    CapacitorTrapezoidal(p.cF, p.dt, s.iCf[k], s.v[k + 3], s'.iCf[k], v[k + 3]);
    InductorTrapezoidal(p.lGrid, p.rGrid, p.dt, s.iLgrid[k], s.v[k + 3], s.v[k + 6], s'.iLgrid[k], v[k + 3], v[k + 6]);
  }

  // ---- Energy balance --------------------------------------------------------

  function Weighted(c: real, u: real): real {
    c * (u * u)
  }

  /** Twice the energy stored in the two inductors and the capacitor of a phase. */
  function Stored(p: SolverParams, x: Phase): real {
    Weighted(p.lF, x.iF) + Weighted(p.cF, x.vCap) + Weighted(p.lGrid, x.iG)
  }

  lemma SquareGrowth(c: real, u: real, u': real, w: real)
    requires 2.0 * c * (u' - u) == w
    ensures 2.0 * (Weighted(c, u') - Weighted(c, u)) == w * (u' + u)
  {
    var d, s := u' - u, u' + u;
    assert d * s == u' * u' - u * u;
    assert (2.0 * c) * (d * s) == ((2.0 * c) * d) * s;
  }

  /** Work done on an RL branch: voltage u less the drop over r, times the current s (sums over both ends). */
  function RlWork(dt: real, r: real, u: real, s: real): real {
    (dt * u - (r * dt) * s) * s
  }

  function CWork(dt: real, s: real, v: real): real {
    (dt * s) * v
  }

  lemma RlEnergy(l: real, r: real, dt: real, i: real, a: real, c: real, i': real, a': real, c': real)
    requires RlTrapezoidal(l, r, dt, i, a, c, i', a', c')
    ensures 2.0 * (Weighted(l, i') - Weighted(l, i)) == RlWork(dt, r, (a' - c') + (a - c), i' + i)
  {
    SquareGrowth(l, i, i', dt * ((a' - c') + (a - c)) - (r * dt) * (i' + i));
  }

  lemma CEnergy(cap: real, dt: real, i: real, v: real, i': real, v': real)
    requires CTrapezoidal(cap, dt, i, v, i', v')
    ensures 2.0 * (Weighted(cap, v') - Weighted(cap, v)) == CWork(dt, i' + i, v' + v)
  {
    SquareGrowth(cap, v, v', dt * (i' + i));
  }

  lemma WorkSum(dt: real, rF: real, rG: real, a: real, i: real, v: real, e: real, j: real, u: real, q: real, w: real)
    requires u == a - v && q == i - j && w == v - e
    ensures RlWork(dt, rF, u, i) + CWork(dt, q, v) + RlWork(dt, rG, w, j) == NetPower(dt, rF, rG, a, i, e, j)
  {
    assert RlWork(dt, rF, u, i) == dt * (a * i) - dt * (v * i) - (rF * dt) * (i * i);
    assert CWork(dt, q, v) == dt * (v * i) - dt * (v * j);
    assert RlWork(dt, rG, w, j) == dt * (v * j) - dt * (e * j) - (rG * dt) * (j * j);
  }

  /** Power at the mid-point of a step, four times over: in at the bridge, out at the grid, lost in the resistances. */
  function NetPower(dt: real, rF: real, rG: real, a: real, i: real, e: real, j: real): real {
    dt * (a * i) - dt * (e * j) - (rF * dt) * (i * i) - (rG * dt) * (j * j)
  }

  function Power(p: SolverParams, x: Phase, y: Phase): real {
    NetPower(p.dt, p.rF, p.rGrid, y.vInv + x.vInv, y.iF + x.iF, y.vGrid + x.vGrid, y.iG + x.iG)
  }

  /**
   The exact energy balance of a step: the stored energy changes by what the bridge delivers, less what the grid
   takes, less what the two series resistances dissipate.
   */
  lemma EnergyBalance(p: SolverParams, x: Phase, y: Phase)
    requires Trapezoidal(p, x, y) && x.iF == x.iC + x.iG && y.iF == y.iC + y.iG
    ensures 2.0 * (Stored(p, y) - Stored(p, x)) == Power(p, x, y)
  {
    RlEnergy(p.lF, p.rF, p.dt, x.iF, x.vInv, x.vCap, y.iF, y.vInv, y.vCap);
    CEnergy(p.cF, p.dt, x.iC, x.vCap, y.iC, y.vCap);
    RlEnergy(p.lGrid, p.rGrid, p.dt, x.iG, x.vCap, x.vGrid, y.iG, y.vCap, y.vGrid);
    WorkSum(p.dt, p.rF, p.rGrid, y.vInv + x.vInv, y.iF + x.iF, y.vCap + x.vCap, y.vGrid + x.vGrid, y.iG + x.iG,
            (y.vInv - y.vCap) + (x.vInv - x.vCap), y.iC + x.iC, (y.vCap - y.vGrid) + (x.vCap - x.vGrid));
  }

  // ---- Bounded growth --------------------------------------------------------

  /** b is at least the power m * m / r that a source of strength 2 m delivers into the resistance r. */
  predicate PowerLimit(m: real, r: real, b: real) {
    m * m <= b * r
  }

  /** Completing the square: a source u behind a resistance r delivers at most u * u / (4 r). */
  lemma MaximumPower(u: real, r: real, i: real, m: real, b: real)
    requires r > 0.0 && Abs(u) <= 2.0 * m && PowerLimit(m, r, b)
    ensures u * i - r * (i * i) <= b
  {
    var w, ri := u * i - r * (i * i), r * i;
    var d := 2.0 * ri - u;
    assert d * d == 4.0 * (ri * ri) - 4.0 * (ri * u) + u * u;
    assert ri * ri == r * (r * (i * i)) && ri * u == r * (u * i);
    assert 4.0 * (r * w) == u * u - d * d;
    SquareMonotone(u, 2.0 * m);
    CancelPositive(r, w, b, m, d);
  }

  lemma CancelPositive(r: real, w: real, b: real, m: real, d: real)
    requires r > 0.0 && 4.0 * (r * w) <= 4.0 * (m * m) - d * d && m * m <= b * r
    ensures w <= b
  {
    assert d * d >= 0.0;
    assert r * (b - w) >= 0.0;
  }

  lemma SquareMonotone(u: real, m: real)
    requires Abs(u) <= m
    ensures u * u <= m * m
  {
    assert (m - u) * (m + u) >= 0.0;
  }

  predicate FeedWithin(f: real, load: real, m: real) {
    Abs(f) <= load * m
  }

  /** A source f behind the conductance load, feeding a current s at voltage a into a resistance r. */
  lemma SourcePower(load: real, rho: real, s: real, a: real, f: real, r: real, m: real, b: real)
    requires rho > 0.0 && rho * load == 1.0 && r >= 0.0 && Supplies(s, f, load, a) && FeedWithin(f, load, 2.0 * m)
    requires PowerLimit(m, r + rho, b)
    ensures a * s - r * (s * s) <= b
  {
    hide PowerLimit, Abs;
    SourceBehindLoad(rho, load, s, a, f);
    ScaledDown(rho, load, f, 2.0 * m);
    MaximumPower(rho * f, r + rho, s, m, b);
    SplitResistance(r, rho, s * s);
  }

  lemma SplitResistance(r: real, rho: real, ss: real)
    ensures (r + rho) * ss == r * ss + rho * ss
  {
  }

  lemma SourceBehindLoad(rho: real, load: real, s: real, a: real, f: real)
    requires rho * load == 1.0 && s == f - load * a
    ensures a * s == (rho * f) * s - rho * (s * s)
  {
    assert rho * s == rho * f - (rho * load) * a;
    assert a == rho * f - rho * s;
    assert a * s == (rho * f) * s - (rho * s) * s;
  }

  lemma ScaledDown(rho: real, load: real, f: real, m: real)
    requires rho > 0.0 && rho * load == 1.0 && Abs(f) <= load * m
    ensures Abs(rho * f) <= m
  {
    assert rho * (load * m) == (rho * load) * m;
    assert rho * (load * m - f) >= 0.0 && rho * (load * m + f) >= 0.0;
  }

  /** Resistances of the bridge and grid sources, and a limit for the power each delivers. */
  datatype Limits = Limits(rhoF: real, mF: real, bF: real, mG: real, bG: real)

  predicate WithinLimits(p: SolverParams, load: real, lim: Limits) {
    && lim.rhoF > 0.0 && lim.rhoF * load == 1.0
    && PowerLimit(lim.mF, p.rF + lim.rhoF, lim.bF)
    && PowerLimit(lim.mG, p.rGrid + p.rSrc, lim.bG)
  }

  lemma NetPowerBound(p: SolverParams, a: real, i: real, e: real, j: real, load: real, gV: real,
                      f: real, src: real, lim: Limits)
    requires p.Positive() && WithinLimits(p, load, lim) && p.rSrc * gV == 1.0
    requires Supplies(i, f, load, a) && Absorbs(j, gV, e, src) && FeedWithin(f, load, 2.0 * lim.mF)
    requires Abs(src) <= 2.0 * lim.mG
    ensures NetPower(p.dt, p.rF, p.rGrid, a, i, e, j) <= p.dt * (lim.bF + lim.bG)
  {
    hide PowerLimit, Abs, Supplies, Absorbs, FeedWithin;
    SourcePower(load, lim.rhoF, i, a, f, p.rF, lim.mF, lim.bF);
    GridBound(gV, p.rSrc, j, e, src, p.rGrid, lim.mG, lim.bG);
    GrowthAlgebra(p.dt, p.rF, p.rGrid, a * i, e * j, i * i, j * j, lim.bF, lim.bG);
  }

  /** Growth of the energy of one phase over a step that keeps the load of the bridge. */
  lemma PhaseGrowth(p: SolverParams, x: Phase, y: Phase, load: real, gV: real,
                    feed: real, feed': real, src: real, src': real, lim: Limits)
    requires p.Positive() && WithinLimits(p, load, lim) && p.rSrc * gV == 1.0
    requires Trapezoidal(p, x, y) && Kirchhoff(x, feed, load, gV, src) && Kirchhoff(y, feed', load, gV, src')
    requires FeedWithin(feed, load, lim.mF) && FeedWithin(feed', load, lim.mF) && Abs(src) <= lim.mG
    requires Abs(src') <= lim.mG
    ensures 2.0 * (Stored(p, y) - Stored(p, x)) <= p.dt * (lim.bF + lim.bG)
  {
    EnergyBalance(p, x, y);
    FeedSum(feed, feed', load, lim.mF);
    SumsOfEnds(x, y, load, gV, feed, feed', src, src');
    NetPowerBound(p, y.vInv + x.vInv, y.iF + x.iF, y.vGrid + x.vGrid, y.iG + x.iG, load, gV, feed' + feed, src' + src,
                  lim);
  }

  lemma SumsOfEnds(x: Phase, y: Phase, load: real, gV: real, feed: real, feed': real, src: real, src': real)
    requires Kirchhoff(x, feed, load, gV, src) && Kirchhoff(y, feed', load, gV, src')
    ensures Supplies(y.iF + x.iF, feed' + feed, load, y.vInv + x.vInv)
    ensures Absorbs(y.iG + x.iG, gV, y.vGrid + x.vGrid, src' + src)
  {
  }

  lemma FeedSum(f: real, f': real, load: real, m: real)
    requires FeedWithin(f, load, m) && FeedWithin(f', load, m)
    ensures FeedWithin(f' + f, load, 2.0 * m)
  {
  }

  lemma GridBound(gV: real, rho: real, j: real, e: real, src: real, r: real, m: real, b: real)
    requires rho > 0.0 && rho * gV == 1.0 && r >= 0.0 && Absorbs(j, gV, e, src) && Abs(src) <= 2.0 * m
    requires PowerLimit(m, r + rho, b)
    ensures -(e * j) - r * (j * j) <= b
  {
    AsSupply(gV, rho, j, e, src, m);
    SourcePower(gV, rho, -j, e, gV * src, r, m, b);
  }

  lemma AsSupply(gV: real, rho: real, j: real, e: real, src: real, m: real)
    requires rho > 0.0 && rho * gV == 1.0 && Absorbs(j, gV, e, src) && Abs(src) <= 2.0 * m
    ensures Supplies(-j, gV * src, gV, e) && FeedWithin(gV * src, gV, 2.0 * m)
  {
    assert gV > 0.0;
    assert gV * (2.0 * m - src) >= 0.0 && gV * (2.0 * m + src) >= 0.0;
  }

  lemma GrowthAlgebra(dt: real, rF: real, rG: real, ai: real, ej: real, ii: real, jj: real, bF: real, bG: real)
    requires dt > 0.0 && ai - rF * ii <= bF && -ej - rG * jj <= bG
    ensures dt * ai - dt * ej - (rF * dt) * ii - (rG * dt) * jj <= dt * (bF + bG)
  {
    var w := bF + bG - (ai - rF * ii) - (-ej - rG * jj);
    assert dt * w >= 0.0;
    assert dt * (rF * ii) == (rF * dt) * ii && dt * (rG * jj) == (rG * dt) * jj;
  }

  // ---- Bounded growth over runs ----------------------------------------------

  /** Exactly one switch of each half bridge is on, as the modulator drives them. */
  predicate Complementary(gate: bv8) {
    forall k :: 0 <= k < 3 ==> Upper(gate, k) != Lower(gate, k)
  }

  lemma ComplementaryLoad(p: SolverParams, gate: bv8, k: nat)
    requires p.Positive() && Complementary(gate) && k < 3
    ensures p.Ground(gate, k) == p.gOn + p.gOff
  {
  }

  /** Every complementary gate byte leads to the same conductance matrix. */
  lemma ComplementaryMatrix(p: SolverParams, gate: bv8, other: bv8)
    requires p.Positive() && Complementary(gate) && Complementary(other)
    ensures GMatrix(p, gate) == GMatrix(p, other)
  {
    forall i | 0 <= i < 3 ensures p.Ground(gate, i) == p.Ground(other, i) {
      ComplementaryLoad(p, gate, i);
      ComplementaryLoad(p, other, i);
    }
    var g, h := GMatrix(p, gate), GMatrix(p, other);
    forall i, j | 0 <= i < NODES && 0 <= j < NODES ensures g[i][j] == h[i][j] {
      assert g[i][j] == GEntry(p, gate, i, j) && h[i][j] == GEntry(p, other, i, j);
    }
    assert forall i :: 0 <= i < NODES ==> g[i] == h[i];
  }

  function StoredEnergy(p: SolverParams, s: State): real
    requires s.Valid()
  {
    (Stored(p, PhaseOf(s, 0)) + Stored(p, PhaseOf(s, 1)) + Stored(p, PhaseOf(s, 2))) / 2.0
  }

  ghost predicate SineBounded(tr: Trig) {
    forall x :: -1.0 <= tr.sin(x) <= 1.0
  }

  lemma FeedBounded(p: SolverParams, gate: bv8, k: nat)
    requires p.gOn > 0.0 && p.gOff > 0.0 && k < 3
    ensures FeedWithin(Feed(p, gate, k), p.gOn + p.gOff, Abs(p.vDc))
  {
    ScaledAbs(p.SwitchG(Upper(gate, k)), p.gOn + p.gOff, p.vDc);
  }

  lemma ScaledAbs(g: real, h: real, v: real)
    requires 0.0 < g <= h
    ensures Abs(g * v) <= h * Abs(v)
  {
    var a, w := Abs(v), g * v;
    LuTheory.AbsProduct(g, v, w);
    LuTheory.Scale(a, g, h);
  }

  lemma SourceBounded(tr: Trig, p: SolverParams, k: nat, t: real)
    requires SineBounded(tr)
    ensures Abs(GridSource(tr, p, k, t)) <= Abs(GridPeak(tr, p))
  {
    var z := tr.sin(GridAngle(tr, p, k, t));
    UnitFactor(GridPeak(tr, p), z);
  }

  lemma UnitFactor(a: real, z: real)
    requires -1.0 <= z <= 1.0
    ensures Abs(a * z) <= Abs(a)
  {
    var w := a * z;
    LuTheory.AbsProduct(a, z, w);
    Shrinks(Abs(w), Abs(a), Abs(z));
  }

  lemma Shrinks(w: real, m: real, y: real)
    requires w == m * y && 0.0 <= m && y <= 1.0
    ensures w <= m
  {
    assert m * (1.0 - y) >= 0.0;
  }

  /** What two consecutive steps say about the second: both ends obey Kirchhoff's law, and the rule links them. */
  lemma StepPair(tr: Trig, p: SolverParams, s0: State, g1: bv8, s1: State, g2: bv8, s2: State, k: nat)
    requires p.Positive() && Complementary(g1) && Complementary(g2) && k < 3
    requires Step(tr, p, s0, g1, s1) && Step(tr, p, s1, g2, s2)
    ensures Kirchhoff(PhaseOf(s1, k), Feed(p, g1, k), p.gOn + p.gOff, 1.0 / p.rSrc, GridSource(tr, p, k, s0.t))
    ensures Kirchhoff(PhaseOf(s2, k), Feed(p, g2, k), p.gOn + p.gOff, 1.0 / p.rSrc, GridSource(tr, p, k, s1.t))
    ensures Trapezoidal(p, PhaseOf(s1, k), PhaseOf(s2, k))
  {
    hide Trapezoidal, Kirchhoff, ConsistentAt, Solves, Updated, Injection, Complementary, Feed, GridSource;
    StepKirchhoff(tr, p, s0, g1, s1, k);
    StepKirchhoff(tr, p, s1, g2, s2, k);
    StepConsistent(tr, p, s0, g1, s1, k);
    StepTrapezoidal(tr, p, s1, g2, s2, k);
    ComplementaryLoad(p, g1, k);
    ComplementaryLoad(p, g2, k);
  }

  /** The limits that hold for every complementary gate byte and every time. */
  ghost predicate DesignLimits(tr: Trig, p: SolverParams, lim: Limits) {
    && SineBounded(tr) && p.gOn > 0.0 && p.gOff > 0.0
    && WithinLimits(p, p.gOn + p.gOff, lim) && lim.mF == Abs(p.vDc) && lim.mG == Abs(GridPeak(tr, p))
  }

  /** Phase k obeys Kirchhoff's law for some sources within the limits. */
  predicate DrivenAt(p: SolverParams, s: State, k: nat, lim: Limits, feed: real, src: real)
    requires p.Positive() && s.Valid() && k < 3
  {
    && FeedWithin(feed, p.gOn + p.gOff, lim.mF) && Abs(src) <= lim.mG
    && Kirchhoff(PhaseOf(s, k), feed, p.gOn + p.gOff, 1.0 / p.rSrc, src)
  }

  ghost predicate SettledAt(p: SolverParams, s: State, k: nat, lim: Limits)
    requires p.Positive() && s.Valid() && k < 3
  {
    ConsistentAt(p, s, k) && exists feed, src :: DrivenAt(p, s, k, lim, feed, src)
  }

  /**
   A state a bounded step can start from: histories that fit, currents that balance under sources within the limits.
   */
  ghost predicate Settled(p: SolverParams, s: State, lim: Limits)
    requires p.Positive() && s.Valid()
  {
    forall k :: 0 <= k < 3 ==> SettledAt(p, s, k, lim)
  }

  /** Rest is settled: all sources are zero. */
  lemma RestSettled(tr: Trig, p: SolverParams, s: State, lim: Limits)
    requires p.Positive() && DesignLimits(tr, p, lim) && s.AtRest()
    ensures Settled(p, s, lim)
  {
    forall k | 0 <= k < 3 ensures SettledAt(p, s, k, lim) {
      RestBalanced(p, s, k);
      NoFeed(p.gOn + p.gOff, lim.mF);
      hide FeedWithin, Kirchhoff, WithinLimits, GridPeak, ConsistentAt;
      assert Abs(0.0) <= lim.mG;
      assert DrivenAt(p, s, k, lim, 0.0, 0.0);
    }
  }

  lemma NoFeed(load: real, m: real)
    requires load > 0.0 && m >= 0.0
    ensures FeedWithin(0.0, load, m)
  {
    assert load * m >= 0.0;
  }

  lemma RestBalanced(p: SolverParams, s: State, k: nat)
    requires p.Positive() && s.AtRest() && k < 3
    ensures ConsistentAt(p, s, k)
    ensures Kirchhoff(PhaseOf(s, k), 0.0, p.gOn + p.gOff, 1.0 / p.rSrc, 0.0)
  {
    ZeroHistories(p.FilterL(), p.FilterC());
    ZeroHistories(p.GridL(), p.FilterC());
    hide InductorHistory, CapacitorHistory;
  }

  lemma ZeroHistories(n: Inductor, g: real)
    ensures InductorHistory(n, 0.0, 0.0) == 0.0 && CapacitorHistory(g, 0.0, 0.0) == 0.0
  {
  }

  /** So is every state a step under a complementary gate leads to, whatever it started from. */
  lemma StepSettled(tr: Trig, p: SolverParams, s: State, gate: bv8, s': State, lim: Limits)
    requires p.Positive() && DesignLimits(tr, p, lim) && Complementary(gate) && Step(tr, p, s, gate, s')
    ensures Settled(p, s', lim)
  {
    hide Kirchhoff, ConsistentAt, Solves, Updated, Injection, Complementary, Feed, GridSource, GridPeak, FeedWithin;
    hide WithinLimits;
    forall k | 0 <= k < 3 ensures SettledAt(p, s', k, lim) {
      StepKirchhoff(tr, p, s, gate, s', k);
      StepConsistent(tr, p, s, gate, s', k);
      ComplementaryLoad(p, gate, k);
      FeedBounded(p, gate, k);
      SourceBounded(tr, p, k, s.t);
      assert DrivenAt(p, s', k, lim, Feed(p, gate, k), GridSource(tr, p, k, s.t));
    }
  }

  lemma StepGrowthAt(tr: Trig, p: SolverParams, s: State, gate: bv8, s': State, k: nat, lim: Limits)
    requires p.Positive() && DesignLimits(tr, p, lim) && k < 3
    requires s.Valid() && SettledAt(p, s, k, lim) && Complementary(gate) && Step(tr, p, s, gate, s')
    ensures 2.0 * (Stored(p, PhaseOf(s', k)) - Stored(p, PhaseOf(s, k))) <= p.dt * (lim.bF + lim.bG)
  {
    hide PowerLimit, Trapezoidal, Kirchhoff, Solves, Updated, Injection, Complementary, Feed, GridSource, GridPeak;
    hide FeedWithin, Stored, WithinLimits, ConsistentAt;
    var feed, src :| DrivenAt(p, s, k, lim, feed, src);
    StepTrapezoidal(tr, p, s, gate, s', k);
    StepKirchhoff(tr, p, s, gate, s', k);
    ComplementaryLoad(p, gate, k);
    FeedBounded(p, gate, k);
    SourceBounded(tr, p, k, s.t);
    PhaseGrowth(p, PhaseOf(s, k), PhaseOf(s', k), p.gOn + p.gOff, 1.0 / p.rSrc,
                feed, Feed(p, gate, k), src, GridSource(tr, p, k, s.t), lim);
  }

  /** From a settled state, a step under a complementary gate adds at most 3 dt (bF + bG) / 4 to the stored energy. */
  lemma StepGrowth(tr: Trig, p: SolverParams, s: State, gate: bv8, s': State, lim: Limits)
    requires p.Positive() && DesignLimits(tr, p, lim) && s.Valid() && Settled(p, s, lim)
    requires Complementary(gate) && Step(tr, p, s, gate, s')
    ensures StoredEnergy(p, s') - StoredEnergy(p, s) <= StepLimit(p.dt, lim)
  {
    hide Stored, Solves, Updated, Injection, Complementary, DesignLimits, SettledAt;
    StepGrowthAt(tr, p, s, gate, s', 0, lim);
    StepGrowthAt(tr, p, s, gate, s', 1, lim);
    StepGrowthAt(tr, p, s, gate, s', 2, lim);
  }

  function StepLimit(dt: real, lim: Limits): real {
    3.0 * (dt * (lim.bF + lim.bG)) / 4.0
  }

  /** Along a run under complementary gates, every state but possibly the first is settled. */
  lemma RunSettled(tr: Trig, p: SolverParams, run: seq<State>, gates: seq<bv8>, lim: Limits, n: nat)
    requires p.Positive() && DesignLimits(tr, p, lim)
    requires Run(tr, p, run, gates) && (forall i :: 0 <= i < |gates| ==> Complementary(gates[i])) && n <= |gates|
    requires n > 0 || Settled(p, run[0], lim)
    ensures Settled(p, run[n], lim)
  {
    hide Step, DesignLimits, Complementary, Settled;
    if n > 0 {
      StepSettled(tr, p, run[n - 1], gates[n - 1], run[n], lim);
    }
  }

  /**
   The stored energy of any run under complementary gates grows at most linearly: from the start if the run starts
   settled, and from its first step on in any case.
   */
  lemma {:induction false} RunGrowth(tr: Trig, p: SolverParams, run: seq<State>, gates: seq<bv8>, lim: Limits, m: nat,
                                     n: nat)
    requires p.Positive() && DesignLimits(tr, p, lim)
    requires Run(tr, p, run, gates) && (forall i :: 0 <= i < |gates| ==> Complementary(gates[i]))
    requires m <= n <= |gates| && (m > 0 || Settled(p, run[0], lim))
    ensures StoredEnergy(p, run[n]) <= StoredEnergy(p, run[m]) + Multiple(n - m, StepLimit(p.dt, lim))
    decreases n
  {
    OneMore(n - m, StepLimit(p.dt, lim));
    hide StoredEnergy, StepLimit, Step, DesignLimits, Complementary, Settled, Multiple;
    if m < n {
      RunGrowth(tr, p, run, gates, lim, m, n - 1);
      RunSettled(tr, p, run, gates, lim, n - 1);
      StepGrowth(tr, p, run[n - 1], gates[n - 1], run[n], lim);
    }
  }

  lemma RestIsEmpty(p: SolverParams, s: State)
    requires s.AtRest()
    ensures StoredEnergy(p, s) == 0.0
  {
  }

  /** A simulation that starts at rest never holds more than n times the limit after n steps. */
  lemma EnergyFromRest(tr: Trig, p: SolverParams, run: seq<State>, gates: seq<bv8>, lim: Limits, n: nat)
    requires p.Positive() && DesignLimits(tr, p, lim)
    requires Run(tr, p, run, gates) && (forall i :: 0 <= i < |gates| ==> Complementary(gates[i]))
    requires n <= |gates| && run[0].AtRest()
    ensures StoredEnergy(p, run[n]) <= Multiple(n, StepLimit(p.dt, lim))
  {
    RestSettled(tr, p, run[0], lim);
    RestIsEmpty(p, run[0]);
    hide StoredEnergy, StepLimit, Step, DesignLimits, Complementary, Settled, Multiple;
    RunGrowth(tr, p, run, gates, lim, 0, n);
  }

  /** The limits that the circuit values give, and the resulting bound per step written out. */
  lemma DesignBound(tr: Trig, p: SolverParams) returns (lim: Limits)
    requires p.Positive() && p.gOn > 0.0 && p.gOff > 0.0 && SineBounded(tr)
    ensures DesignLimits(tr, p, lim) && lim.rhoF == 1.0 / (p.gOn + p.gOff)
    ensures var vp := GridPeak(tr, p);
            var bridge, grid := p.vDc * p.vDc / (4.0 * (p.rF + lim.rhoF)), vp * vp / (4.0 * (p.rGrid + p.rSrc));
            StepLimit(p.dt, lim) == 3.0 * p.dt * (bridge + grid)
  {
    var rho := 1.0 / (p.gOn + p.gOff);
    PositiveQuotient(1.0, p.gOn + p.gOff);
    var rF, rG := p.rF + rho, p.rGrid + p.rSrc;
    var mF, mG := Abs(p.vDc), Abs(GridPeak(tr, p));
    var bF, bG := PowerOf(mF, rF), PowerOf(mG, rG);
    lim := Limits(rho, mF, bF, mG, bG);
    Quarter(mF, p.vDc, rF, bF);
    Quarter(mG, GridPeak(tr, p), rG, bG);
    LimitFormula(p.dt, bF, bG, p.vDc * p.vDc / (4.0 * rF), GridPeak(tr, p) * GridPeak(tr, p) / (4.0 * rG));
  }

  function PowerOf(m: real, r: real): (b: real)
    requires r > 0.0
    ensures PowerLimit(m, r, b)
  {
    m * m / r
  }

  lemma Quarter(m: real, v: real, r: real, b: real)
    requires r > 0.0 && m == Abs(v) && b == PowerOf(m, r)
    ensures v * v / (4.0 * r) == b / 4.0
  {
    assert m * m == v * v;
    assert b * r == v * v;
    assert (b / 4.0) * (4.0 * r) == b * r;
  }

  lemma LimitFormula(dt: real, bF: real, bG: real, qF: real, qG: real)
    requires qF == bF / 4.0 && qG == bG / 4.0
    ensures 3.0 * (dt * (bF + bG)) / 4.0 == 3.0 * dt * (qF + qG)
  {
  }

  function Multiple(n: nat, b: real): real {
    (n as real) * b
  }

  lemma OneMore(n: nat, b: real)
    ensures Multiple(0, b) == 0.0
    ensures n > 0 ==> Multiple(n, b) == Multiple(n - 1, b) + b
  {
  }

  // ---- Contraction -----------------------------------------------------------

  function Difference(x: Phase, z: Phase): Phase {
    Phase(x.vInv - z.vInv, x.vCap - z.vCap, x.vGrid - z.vGrid, x.iF - z.iF, x.iC - z.iC, x.iG - z.iG)
  }

  lemma DifferenceKirchhoff(x: Phase, z: Phase, feed: real, load: real, gV: real, src: real)
    requires Kirchhoff(x, feed, load, gV, src) && Kirchhoff(z, feed, load, gV, src)
    ensures Kirchhoff(Difference(x, z), 0.0, load, gV, 0.0)
  {
  }

  lemma DifferenceRl(l: real, r: real, dt: real, i: real, a: real, c: real, i': real, a': real, c': real,
                     j: real, e: real, f: real, j': real, e': real, f': real)
    requires RlTrapezoidal(l, r, dt, i, a, c, i', a', c') && RlTrapezoidal(l, r, dt, j, e, f, j', e', f')
    ensures RlTrapezoidal(l, r, dt, i - j, a - e, c - f, i' - j', a' - e', c' - f')
  {
    LinearDifference(2.0 * l, dt, r * dt, i' - i, j' - j, (a' - c') + (a - c), (e' - f') + (e - f), i' + i, j' + j);
  }

  lemma DifferenceC(cap: real, dt: real, i: real, v: real, i': real, v': real, j: real, u: real, j': real, u': real)
    requires CTrapezoidal(cap, dt, i, v, i', v') && CTrapezoidal(cap, dt, j, u, j', u')
    ensures CTrapezoidal(cap, dt, i - j, v - u, i' - j', v' - u')
  {
    LinearDifference(2.0 * cap, dt, 0.0, v' - v, u' - u, i' + i, j' + j, 0.0, 0.0);
  }

  lemma LinearDifference(l: real, dt: real, rd: real, p: real, q: real, w: real, u: real, s: real, z: real)
    requires l * p == dt * w - rd * s && l * q == dt * u - rd * z
    ensures l * (p - q) == dt * (w - u) - rd * (s - z)
  {
  }

  lemma DifferenceTrapezoidal(p: SolverParams, x: Phase, y: Phase, z: Phase, w: Phase)
    requires Trapezoidal(p, x, y) && Trapezoidal(p, z, w)
    ensures Trapezoidal(p, Difference(x, z), Difference(y, w))
  {
    DifferenceRl(p.lF, p.rF, p.dt, x.iF, x.vInv, x.vCap, y.iF, y.vInv, y.vCap, z.iF, z.vInv, z.vCap, w.iF, w.vInv,
                 w.vCap);
    DifferenceC(p.cF, p.dt, x.iC, x.vCap, y.iC, y.vCap, z.iC, z.vCap, w.iC, w.vCap);
    DifferenceRl(p.lGrid, p.rGrid, p.dt, x.iG, x.vCap, x.vGrid, y.iG, y.vCap, y.vGrid, z.iG, z.vCap, z.vGrid, w.iG,
                 w.vCap, w.vGrid);
  }

  lemma SourcelessPower(dt: real, rF: real, rG: real, a: real, i: real, e: real, j: real, load: real, gV: real)
    requires dt > 0.0 && rF >= 0.0 && rG >= 0.0 && load > 0.0 && gV > 0.0 && Supplies(i, 0.0, load, a)
    requires Absorbs(j, gV, e, 0.0)
    ensures NetPower(dt, rF, rG, a, i, e, j) <= 0.0
  {
    Nonnegative(dt, load, a);
    Nonnegative(dt, gV, e);
    Nonnegative(rF, dt, i);
    Nonnegative(rG, dt, j);
    assert a * i == -(load * (a * a)) && e * j == gV * (e * e);
  }

  lemma Nonnegative(c: real, d: real, u: real)
    requires c >= 0.0 && d >= 0.0
    ensures (c * d) * (u * u) >= 0.0 && c * (d * (u * u)) >= 0.0
  {
    var uu := u * u;
    assert uu >= 0.0;
    assert d * uu >= 0.0;
    assert (c * d) * uu == c * (d * uu);
  }

  /** Without sources, a step that keeps the load only dissipates. */
  lemma SourcelessDecay(p: SolverParams, x: Phase, y: Phase, load: real, gV: real)
    requires p.Positive() && load > 0.0 && gV > 0.0
    requires Trapezoidal(p, x, y) && Kirchhoff(x, 0.0, load, gV, 0.0) && Kirchhoff(y, 0.0, load, gV, 0.0)
    ensures Stored(p, y) <= Stored(p, x)
  {
    EnergyBalance(p, x, y);
    SumsOfEnds(x, y, load, gV, 0.0, 0.0, 0.0, 0.0);
    SourcelessPower(p.dt, p.rF, p.rGrid, y.vInv + x.vInv, y.iF + x.iF, y.vGrid + x.vGrid, y.iG + x.iG, load, gV);
  }

  /** The distance between two states, weighted by inductances and capacitances. */
  function Distance(p: SolverParams, s: State, z: State): real
    requires s.Valid() && z.Valid()
  {
    Stored(p, Difference(PhaseOf(s, 0), PhaseOf(z, 0))) + Stored(p, Difference(PhaseOf(s, 1), PhaseOf(z, 1)))
    + Stored(p, Difference(PhaseOf(s, 2), PhaseOf(z, 2)))
  }

  lemma PhaseContraction(p: SolverParams, x: Phase, y: Phase, z: Phase, w: Phase, load: real, gV: real,
                         f1: real, f2: real, src1: real, src2: real)
    requires p.Positive() && load > 0.0 && gV > 0.0 && Trapezoidal(p, x, y) && Trapezoidal(p, z, w)
    requires Kirchhoff(x, f1, load, gV, src1) && Kirchhoff(z, f1, load, gV, src1)
    requires Kirchhoff(y, f2, load, gV, src2) && Kirchhoff(w, f2, load, gV, src2)
    ensures Stored(p, Difference(y, w)) <= Stored(p, Difference(x, z))
  {
    hide Trapezoidal, Kirchhoff, Stored, Difference;
    DifferenceKirchhoff(x, z, f1, load, gV, src1);
    DifferenceKirchhoff(y, w, f2, load, gV, src2);
    DifferenceTrapezoidal(p, x, y, z, w);
    SourcelessDecay(p, Difference(x, z), Difference(y, w), load, gV);
  }

  /** Phase k of two pairs of states that take the same two complementary steps at the same time. */
  lemma StepContractionAt(tr: Trig, p: SolverParams, s0: State, s1: State, s2: State, z0: State, z1: State, z2: State,
                          g1: bv8, g2: bv8, k: nat)
    requires p.Positive() && p.gOn > 0.0 && p.gOff > 0.0 && k < 3 && Complementary(g1) && Complementary(g2)
    requires Step(tr, p, s0, g1, s1) && Step(tr, p, s1, g2, s2) && Step(tr, p, z0, g1, z1) && Step(tr, p, z1, g2, z2)
    requires s0.t == z0.t && s1.t == z1.t
    ensures Stored(p, Difference(PhaseOf(s2, k), PhaseOf(z2, k)))
         <= Stored(p, Difference(PhaseOf(s1, k), PhaseOf(z1, k)))
  {
    hide Trapezoidal, Kirchhoff, Solves, Updated, Injection, Complementary, Feed, GridSource, Stored;
    StepPair(tr, p, s0, g1, s1, g2, s2, k);
    StepPair(tr, p, z0, g1, z1, g2, z2, k);
    PositiveQuotient(1.0, p.rSrc);
    PhaseContraction(p, PhaseOf(s1, k), PhaseOf(s2, k), PhaseOf(z1, k), PhaseOf(z2, k), p.gOn + p.gOff, 1.0 / p.rSrc,
                     Feed(p, g1, k), Feed(p, g2, k), GridSource(tr, p, k, s0.t), GridSource(tr, p, k, s1.t));
  }

  lemma StepContraction(tr: Trig, p: SolverParams, s0: State, s1: State, s2: State, z0: State, z1: State, z2: State,
                        g1: bv8, g2: bv8)
    requires p.Positive() && p.gOn > 0.0 && p.gOff > 0.0 && Complementary(g1) && Complementary(g2)
    requires Step(tr, p, s0, g1, s1) && Step(tr, p, s1, g2, s2) && Step(tr, p, z0, g1, z1) && Step(tr, p, z1, g2, z2)
    requires s0.t == z0.t && s1.t == z1.t
    ensures Distance(p, s2, z2) <= Distance(p, s1, z1)
  {
    hide Stored, Solves, Updated, Injection, Complementary;
    StepContractionAt(tr, p, s0, s1, s2, z0, z1, z2, g1, g2, 0);
    StepContractionAt(tr, p, s0, s1, s2, z0, z1, z2, g1, g2, 1);
    StepContractionAt(tr, p, s0, s1, s2, z0, z1, z2, g1, g2, 2);
  }

  lemma {:induction false} SameClock(tr: Trig, p: SolverParams, s: seq<State>, z: seq<State>, gates: seq<bv8>, n: nat)
    requires p.Positive() && Run(tr, p, s, gates) && Run(tr, p, z, gates) && s[0].t == z[0].t && n <= |gates|
    ensures s[n].t == z[n].t
  {
    if n > 0 {
      SameClock(tr, p, s, z, gates, n - 1);
      assert Step(tr, p, s[n - 1], gates[n - 1], s[n]) && Step(tr, p, z[n - 1], gates[n - 1], z[n]);
    }
  }

  /**
   Contraction: two runs with the same clock and the same complementary gates, from any two starting states, never
   move apart again once each has taken its first step.
   */
  lemma {:induction false} RunContraction(tr: Trig, p: SolverParams, s: seq<State>, z: seq<State>, gates: seq<bv8>,
                                          m: nat, n: nat)
    requires p.Positive() && p.gOn > 0.0 && p.gOff > 0.0
    requires Run(tr, p, s, gates) && Run(tr, p, z, gates) && s[0].t == z[0].t
    requires forall i :: 0 <= i < |gates| ==> Complementary(gates[i])
    requires 1 <= m <= n <= |gates|
    ensures Distance(p, s[n], z[n]) <= Distance(p, s[m], z[m])
    decreases n
  {
    hide Step, Distance, Complementary;
    if m < n {
      RunContraction(tr, p, s, z, gates, m, n - 1);
      SameClock(tr, p, s, z, gates, n - 2);
      SameClock(tr, p, s, z, gates, n - 1);
      StepContraction(tr, p, s[n - 2], s[n - 1], s[n], z[n - 2], z[n - 1], z[n], gates[n - 2], gates[n - 1]);
    }
  }

  // ---- Strict contraction ----------------------------------------------------

  function Squared(u: real): real {
    u * u
  }

  lemma SquarePositive(u: real)
    requires u != 0.0
    ensures Squared(u) > 0.0
  {
    if u > 0.0 {
      Product(u, u, Squared(u));
    } else {
      Product(-u, -u, Squared(u));
    }
  }

  lemma Product(a: real, b: real, ab: real)
    requires a > 0.0 && b > 0.0 && ab == a * b
    ensures ab > 0.0
  {
  }

  lemma ZeroSquare(c: real, d: real, u: real)
    requires c > 0.0 && d > 0.0 && c * (d * Squared(u)) == 0.0
    ensures u == 0.0
  {
    hide Squared;
    if u != 0.0 {
      SquarePositive(u);
      Product(d, Squared(u), d * Squared(u));
      Product(c, d * Squared(u), c * (d * Squared(u)));
    }
  }

  /** Without sources no power flows at the mid-point only if all voltages and currents there are zero. */
  lemma NoPowerFlows(dt: real, rF: real, rG: real, a: real, i: real, e: real, j: real, load: real, gV: real)
    requires dt > 0.0 && rF >= 0.0 && rG >= 0.0 && load > 0.0 && gV > 0.0 && Supplies(i, 0.0, load, a)
    requires Absorbs(j, gV, e, 0.0) && NetPower(dt, rF, rG, a, i, e, j) == 0.0
    ensures a == 0.0 && i == 0.0 && e == 0.0 && j == 0.0
  {
    Nonnegative(dt, load, a);
    Nonnegative(dt, gV, e);
    Nonnegative(rF, dt, i);
    Nonnegative(rG, dt, j);
    assert a * i == -(load * (a * a)) && e * j == gV * (e * e);
    assert dt * (load * (a * a)) == 0.0 && dt * (gV * (e * e)) == 0.0;
    ZeroSquare(dt, load, a);
    ZeroSquare(dt, gV, e);
  }

  /** The current of an RL branch changes sign while w is the sum of its voltages at both ends of the step. */
  predicate Reverses(l: real, dt: real, i: real, w: real) {
    4.0 * l * i == -(dt * w)
  }

  lemma ReversedRl(l: real, r: real, dt: real, i: real, a: real, c: real, i': real, a': real, c': real)
    requires RlTrapezoidal(l, r, dt, i, a, c, i', a', c') && i' + i == 0.0
    ensures Reverses(l, dt, i, (a' - c') + (a - c))
  {
    assert i' - i == -2.0 * i;
    assert 2.0 * l * (i' - i) == -(4.0 * l * i);
    assert (r * dt) * (i' + i) == 0.0;
  }

  lemma SameVoltage(cap: real, dt: real, i: real, v: real, i': real, v': real)
    requires CTrapezoidal(cap, dt, i, v, i', v') && i' + i == 0.0 && cap > 0.0
    ensures v' == v
  {
    assert cap * (v' - v) == 0.0;
  }

  /** What a step that loses no energy looks like: both inductor currents reverse, the capacitor keeps its voltage. */
  predicate Reflected(p: SolverParams, x: Phase, y: Phase) {
    && y.iF == -x.iF && y.iG == -x.iG && y.vCap == x.vCap
    && Reverses(p.lF, p.dt, x.iF, -2.0 * x.vCap) && Reverses(p.lGrid, p.dt, x.iG, 2.0 * x.vCap)
  }

  lemma LosslessStep(p: SolverParams, x: Phase, y: Phase, load: real, gV: real)
    requires p.Positive() && load > 0.0 && gV > 0.0 && Stored(p, y) == Stored(p, x)
    requires Trapezoidal(p, x, y) && Kirchhoff(x, 0.0, load, gV, 0.0) && Kirchhoff(y, 0.0, load, gV, 0.0)
    ensures Reflected(p, x, y)
  {
    EnergyBalance(p, x, y);
    SumsOfEnds(x, y, load, gV, 0.0, 0.0, 0.0, 0.0);
    hide Stored, NetPower, Supplies, Absorbs, RlTrapezoidal, CTrapezoidal, Reverses;
    NoPowerFlows(p.dt, p.rF, p.rGrid, y.vInv + x.vInv, y.iF + x.iF, y.vGrid + x.vGrid, y.iG + x.iG, load, gV);
    SameVoltage(p.cF, p.dt, x.iC, x.vCap, y.iC, y.vCap);
    ReversedRl(p.lF, p.rF, p.dt, x.iF, x.vInv, x.vCap, y.iF, y.vInv, y.vCap);
    ReversedRl(p.lGrid, p.rGrid, p.dt, x.iG, x.vCap, x.vGrid, y.iG, y.vCap, y.vGrid);
    assert (y.vInv - y.vCap) + (x.vInv - x.vCap) == -2.0 * x.vCap;
    assert (y.vCap - y.vGrid) + (x.vCap - x.vGrid) == 2.0 * x.vCap;
  }

  lemma ReversesTwice(l: real, dt: real, i: real, w: real)
    requires l > 0.0 && dt > 0.0 && Reverses(l, dt, i, w) && Reverses(l, dt, -i, w)
    ensures i == 0.0 && w == 0.0
  {
    assert 4.0 * l * -i == -(4.0 * l * i);
    assert dt * w == 0.0 && l * i == 0.0;
  }

  lemma ReflectedTwice(p: SolverParams, x: Phase, y: Phase, w: Phase)
    requires p.Positive() && Reflected(p, x, y) && Reflected(p, y, w)
    ensures Stored(p, x) == 0.0
  {
    hide Reverses;
    ReversesTwice(p.lF, p.dt, x.iF, -2.0 * x.vCap);
    ReversesTwice(p.lGrid, p.dt, x.iG, 2.0 * x.vCap);
  }

  /** Two steps without sources lose energy unless there is none. */
  lemma TwoStepsLose(p: SolverParams, x: Phase, y: Phase, w: Phase, load: real, gV: real)
    requires p.Positive() && load > 0.0 && gV > 0.0 && Trapezoidal(p, x, y) && Trapezoidal(p, y, w)
    requires Kirchhoff(x, 0.0, load, gV, 0.0) && Kirchhoff(y, 0.0, load, gV, 0.0) && Kirchhoff(w, 0.0, load, gV, 0.0)
    ensures Stored(p, w) <= Stored(p, x) && (Stored(p, w) == Stored(p, x) ==> Stored(p, x) == 0.0)
  {
    hide Stored, Trapezoidal, Kirchhoff, Reflected;
    SourcelessDecay(p, x, y, load, gV);
    SourcelessDecay(p, y, w, load, gV);
    if Stored(p, w) == Stored(p, x) {
      LosslessStep(p, x, y, load, gV);
      LosslessStep(p, y, w, load, gV);
      ReflectedTwice(p, x, y, w);
    }
  }

  function Gap(s: State, z: State, k: nat): Phase
    requires s.Valid() && z.Valid() && k < 3
  {
    Difference(PhaseOf(s, k), PhaseOf(z, k))
  }

  /** The difference of two runs is a run without sources. */
  lemma GapStep(tr: Trig, p: SolverParams, s0: State, s1: State, s2: State, z0: State, z1: State, z2: State,
                g1: bv8, g2: bv8, k: nat)
    requires p.Positive() && p.gOn > 0.0 && p.gOff > 0.0 && k < 3 && Complementary(g1) && Complementary(g2)
    requires Step(tr, p, s0, g1, s1) && Step(tr, p, s1, g2, s2) && Step(tr, p, z0, g1, z1) && Step(tr, p, z1, g2, z2)
    requires s0.t == z0.t && s1.t == z1.t
    ensures Trapezoidal(p, Gap(s1, z1, k), Gap(s2, z2, k))
    ensures Kirchhoff(Gap(s1, z1, k), 0.0, p.gOn + p.gOff, 1.0 / p.rSrc, 0.0)
    ensures Kirchhoff(Gap(s2, z2, k), 0.0, p.gOn + p.gOff, 1.0 / p.rSrc, 0.0)
  {
    hide Trapezoidal, Kirchhoff, Solves, Updated, Injection, Complementary, Feed, GridSource, Difference;
    StepPair(tr, p, s0, g1, s1, g2, s2, k);
    StepPair(tr, p, z0, g1, z1, g2, z2, k);
    var load, gV := p.gOn + p.gOff, 1.0 / p.rSrc;
    DifferenceKirchhoff(PhaseOf(s1, k), PhaseOf(z1, k), Feed(p, g1, k), load, gV, GridSource(tr, p, k, s0.t));
    DifferenceKirchhoff(PhaseOf(s2, k), PhaseOf(z2, k), Feed(p, g2, k), load, gV, GridSource(tr, p, k, s1.t));
    DifferenceTrapezoidal(p, PhaseOf(s1, k), PhaseOf(s2, k), PhaseOf(z1, k), PhaseOf(z2, k));
  }

  lemma GapShrinks(tr: Trig, p: SolverParams, s: seq<State>, z: seq<State>, gates: seq<bv8>, n: nat, k: nat)
    requires p.Positive() && p.gOn > 0.0 && p.gOff > 0.0 && k < 3
    requires Run(tr, p, s, gates) && Run(tr, p, z, gates) && s[0].t == z[0].t
    requires forall i :: 0 <= i < |gates| ==> Complementary(gates[i])
    requires 1 <= n && n + 2 <= |gates|
    ensures Stored(p, Gap(s[n + 2], z[n + 2], k)) <= Stored(p, Gap(s[n], z[n], k))
    ensures Stored(p, Gap(s[n + 2], z[n + 2], k)) == Stored(p, Gap(s[n], z[n], k)) ==>
              Stored(p, Gap(s[n], z[n], k)) == 0.0
  {
    hide Step, Complementary, Trapezoidal, Kirchhoff, Stored, Gap;
    SameClock(tr, p, s, z, gates, n - 1);
    SameClock(tr, p, s, z, gates, n);
    SameClock(tr, p, s, z, gates, n + 1);
    assert Step(tr, p, s[n - 1], gates[n - 1], s[n]) && Step(tr, p, z[n - 1], gates[n - 1], z[n]);
    assert Step(tr, p, s[n], gates[n], s[n + 1]) && Step(tr, p, z[n], gates[n], z[n + 1]);
    assert Step(tr, p, s[n + 1], gates[n + 1], s[n + 2]) && Step(tr, p, z[n + 1], gates[n + 1], z[n + 2]);
    GapStep(tr, p, s[n - 1], s[n], s[n + 1], z[n - 1], z[n], z[n + 1], gates[n - 1], gates[n], k);
    GapStep(tr, p, s[n], s[n + 1], s[n + 2], z[n], z[n + 1], z[n + 2], gates[n], gates[n + 1], k);
    PositiveQuotient(1.0, p.rSrc);
    TwoStepsLose(p, Gap(s[n], z[n], k), Gap(s[n + 1], z[n + 1], k), Gap(s[n + 2], z[n + 2], k),
                 p.gOn + p.gOff, 1.0 / p.rSrc);
  }

  /** Over any two steps the distance of two runs strictly decreases, unless it is zero. */
  lemma StrictContraction(tr: Trig, p: SolverParams, s: seq<State>, z: seq<State>, gates: seq<bv8>, n: nat)
    requires p.Positive() && p.gOn > 0.0 && p.gOff > 0.0
    requires Run(tr, p, s, gates) && Run(tr, p, z, gates) && s[0].t == z[0].t
    requires forall i :: 0 <= i < |gates| ==> Complementary(gates[i])
    requires 1 <= n && n + 2 <= |gates|
    ensures Distance(p, s[n + 2], z[n + 2]) < Distance(p, s[n], z[n]) || Distance(p, s[n], z[n]) == 0.0
  {
    hide Step, Complementary, Stored;
    GapShrinks(tr, p, s, z, gates, n, 0);
    GapShrinks(tr, p, s, z, gates, n, 1);
    GapShrinks(tr, p, s, z, gates, n, 2);
  }

  // ---- The step as circuit equations -----------------------------------------

  /** The current into the filter from a terminal at v: conductance gU to the DC bus, gL to ground. */
  predicate HalfBridge(i: real, gU: real, gL: real, vDc: real, v: real) {
    i == gU * (vDc - v) - gL * v
  }

  /** The current i from a terminal at v into a source at src behind the resistance r. */
  predicate BehindResistance(i: real, r: real, v: real, src: real) {
    r * i == v - src
  }

  lemma BridgeCurrent(gU: real, gL: real, vDc: real, feed: real, load: real, v: real, i: real)
    requires feed == gU * vDc && load == gU + gL && Supplies(i, feed, load, v)
    ensures HalfBridge(i, gU, gL, vDc, v)
  {
    LuTheory.Distribute(v, load, gU, gL);
    LuTheory.Distribute(gU, vDc - v, vDc, -v);
  }

  lemma SineOf(tr: Trig, p: SolverParams, k: nat, t: real, angle: real)
    requires angle == 2.0 * tr.pi * p.fGrid * t + (k as real) * (-2.0 * tr.pi / 3.0)
    ensures GridSource(tr, p, k, t) == p.vGridRms * tr.sqrt2 * tr.sin(angle)
  {
    assert GridAngle(tr, p, k, t) == angle;
    hide GridAngle;
  }

  lemma SwitchedBy(p: SolverParams, gate: bv8, k: nat, gU: real, gL: real)
    requires p.Positive() && k < 3
    requires gU == (if Bit(gate, 2 * k) then p.gOn else p.gOff)
    requires gL == (if Bit(gate, 2 * k + 1) then p.gOn else p.gOff)
    ensures Feed(p, gate, k) == gU * p.vDc && p.Ground(gate, k) == gU + gL && p.Ground(gate, k + 6) == 1.0 / p.rSrc
  {
    hide Bit;
  }

  lemma GridTerminal(gV: real, rSrc: real, v: real, src: real, i: real)
    requires rSrc > 0.0 && gV == 1.0 / rSrc && Absorbs(i, gV, v, src)
    ensures BehindResistance(i, rSrc, v, src)
  {
    assert rSrc * gV == 1.0;
    assert rSrc * (gV * (v - src)) == (rSrc * gV) * (v - src);
  }

  /**
   What a step means for phase k, in the circuit's own quantities: the upper switch connects the inverter terminal to
   the DC bus and the lower one to ground, currents add up at the capacitor, the grid terminal sees the sine of its
   phase behind the source resistance. This holds for every gate byte, complementary or not.
   */
  lemma StepCircuit(tr: Trig, p: SolverParams, s: State, gate: bv8, s': State, k: nat)
    requires p.Positive() && Step(tr, p, s, gate, s') && k < 3
    ensures var gU := if Bit(gate, 2 * k) then p.gOn else p.gOff;
            var gL := if Bit(gate, 2 * k + 1) then p.gOn else p.gOff;
            HalfBridge(s'.iLf[k], gU, gL, p.vDc, s'.v[k])
    ensures s'.iLf[k] == s'.iCf[k] + s'.iLgrid[k]
    ensures var angle := 2.0 * tr.pi * p.fGrid * s.t + (k as real) * (-2.0 * tr.pi / 3.0);
            BehindResistance(s'.iLgrid[k], p.rSrc, s'.v[k + 6], p.vGridRms * tr.sqrt2 * tr.sin(angle))
  {
    assert s'.Valid();
    hide Step, Feed, GridSource, Supplies, Absorbs, SolverParams.Ground, Bit, HalfBridge, BehindResistance;
    StepKirchhoff(tr, p, s, gate, s', k);
    var gU := if Bit(gate, 2 * k) then p.gOn else p.gOff;
    var gL := if Bit(gate, 2 * k + 1) then p.gOn else p.gOff;
    SwitchedBy(p, gate, k, gU, gL);
    SineOf(tr, p, k, s.t, 2.0 * tr.pi * p.fGrid * s.t + (k as real) * (-2.0 * tr.pi / 3.0));
    BridgeCurrent(gU, gL, p.vDc, Feed(p, gate, k), p.Ground(gate, k), s'.v[k], s'.iLf[k]);
    GridTerminal(p.Ground(gate, k + 6), p.rSrc, s'.v[k + 6], GridSource(tr, p, k, s.t), s'.iLgrid[k]);
  }

  /** The clock advances, the gate byte is recorded, and the fault flag is up exactly if a node exceeds the limit. */
  lemma StepFlags(tr: Trig, p: SolverParams, s: State, gate: bv8, s': State)
    requires p.Positive() && Step(tr, p, s, gate, s')
    ensures s'.t == s.t + p.dt && s'.gate == gate
    ensures s'.fault <==> exists i :: 0 <= i < 9 && (s'.v[i] > 2.0 * p.vRated || s'.v[i] < -(2.0 * p.vRated))
  {
    hide Injection, GMatrix, Solves, FilterCurrent, CapacitorCurrent, GridCurrent, InductorHistory, CapacitorHistory;
    assert s'.fault == Overvoltage(p, s'.v);
    if s'.fault {
      var i :| 0 <= i < |s'.v| && Abs(s'.v[i]) > 2.0 * p.vRated;
      assert s'.v[i] > 2.0 * p.vRated || s'.v[i] < -(2.0 * p.vRated);
    } else {
      forall i | 0 <= i < 9 ensures !(s'.v[i] > 2.0 * p.vRated || s'.v[i] < -(2.0 * p.vRated)) {
        assert !(Abs(s'.v[i]) > 2.0 * p.vRated);
      }
    }
  }

  /** The grid is three-phase: phase k is phase 0 a third of a period later for each k. */
  lemma GridDelay(tr: Trig, p: SolverParams, k: nat, t: real)
    requires p.fGrid > 0.0
    ensures GridSource(tr, p, k, t) == GridSource(tr, p, 0, t - (k as real) / (3.0 * p.fGrid))
    ensures GridSource(tr, p, 0, t) == p.vGridRms * tr.sqrt2 * tr.sin(2.0 * tr.pi * p.fGrid * t)
  {
    var d := (k as real) / (3.0 * p.fGrid);
    SameAngle(tr.pi, p.fGrid, k as real, t, d);
    NoDelay(tr.pi, p.fGrid, t);
    NoDelay(tr.pi, p.fGrid, t - d);
    var angle := 2.0 * tr.pi * p.fGrid * (t - d);
    hide GridSource;
    SineOf(tr, p, k, t, angle);
    SineOf(tr, p, 0, t - d, angle);
    SineOf(tr, p, 0, t, 2.0 * tr.pi * p.fGrid * t);
  }

  lemma NoDelay(pi: real, f: real, t: real)
    ensures 2.0 * pi * f * t + (0 as real) * (-2.0 * pi / 3.0) == 2.0 * pi * f * t
  {
  }

  lemma SameAngle(pi: real, f: real, k: real, t: real, d: real)
    requires f > 0.0 && d == k / (3.0 * f)
    ensures 2.0 * pi * f * t + k * (-2.0 * pi / 3.0) == 2.0 * pi * f * (t - d)
  {
    assert d * (3.0 * f) == k;
    assert f * d == k / 3.0;
    assert 2.0 * pi * f * (t - d) == 2.0 * pi * f * t - 2.0 * pi * (f * d);
    assert 2.0 * pi * (k / 3.0) == -(k * (-2.0 * pi / 3.0));
  }
}
