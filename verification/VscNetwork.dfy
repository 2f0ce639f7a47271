/**
 The solver objects: assembly by stamping, the factorisation cached per gate byte, and the step on a mutable state.
 */
module VscNetwork {
  import opened LinearAlgebra
  import opened Norton
  import opened VscReference
  import opened LuSolver
  import LuTheory

  // ---- Stamping --------------------------------------------------------------

  /** What stamping the conductance c between nodes p and m adds to entry (i, j); m = -1 is ground. */
  function StampDelta(i: int, j: int, p: int, m: int, c: real): real {
    if i == p && j == p then c
    else if m < 0 then 0.0
    else if i == m && j == m then c
    else if (i == p && j == m) || (i == m && j == p) then -c
    else 0.0
  }

  method Stamp(g: array2<real>, p: int, m: int, c: real)
    requires g.Length0 == g.Length1 == NODES && 0 <= p < NODES && -1 <= m < NODES && p != m
    modifies g
    ensures forall i, j :: 0 <= i < NODES && 0 <= j < NODES ==> g[i, j] == old(g[i, j]) + StampDelta(i, j, p, m, c)
  {
    g[p, p] := g[p, p] + c;
    if m >= 0 {
      g[m, m] := g[m, m] + c;
      g[p, m] := g[p, m] - c;
      g[m, p] := g[m, p] - c;
    }
  }

  /** Entry (i, j) of n branches of conductance c, the k-th from node first + k to node first + k + 3. */
  function ChainPart(i: int, j: int, first: int, n: int, c: real): real {
    if i == j && (first <= i < first + n || first + 3 <= i < first + 3 + n) then c
    else if (first <= i < first + n && j == i + 3) || (first <= j < first + n && i == j + 3) then -c
    else 0.0
  }

  function DiagonalPart(i: int, j: int, first: int, to: int, c: real): real {
    if i == j && first <= i < to then c else 0.0
  }

  /** Stamps three branches of one kind. */
  method StampBranches(g: array2<real>, first: int, c: real)
    requires g.Length0 == g.Length1 == NODES && (first == 0 || first == 3)
    modifies g
    ensures forall i, j :: 0 <= i < NODES && 0 <= j < NODES ==> g[i, j] == old(g[i, j]) + ChainPart(i, j, first, 3, c)
  {
    for k := 0 to 3
      invariant forall i, j :: 0 <= i < NODES && 0 <= j < NODES ==>
                  g[i, j] == old(g[i, j]) + ChainPart(i, j, first, k, c)
    {
      Stamp(g, k + first, k + first + 3, c);
    }
  }

  /** Stamps a conductance to ground at three consecutive nodes. */
  method StampGround(g: array2<real>, first: int, c: real)
    requires g.Length0 == g.Length1 == NODES && 0 <= first <= 6
    modifies g
    ensures forall i, j :: 0 <= i < NODES && 0 <= j < NODES ==>
              g[i, j] == old(g[i, j]) + DiagonalPart(i, j, first, first + 3, c)
  {
    for k := first to first + 3
      invariant forall i, j :: 0 <= i < NODES && 0 <= j < NODES ==>
                  g[i, j] == old(g[i, j]) + DiagonalPart(i, j, first, k, c)
    {
      Stamp(g, k, -1, c);
    }
  }

  function SwitchPart(p: SolverParams, gate: bv8, i: nat, j: nat, to: nat): real
    requires p.Positive() && i < NODES && to <= 3
  {
    if i == j && i < to then p.Ground(gate, i) else 0.0
  }

  method StampSwitches(g: array2<real>, p: SolverParams, gate: bv8)
    requires g.Length0 == g.Length1 == NODES && p.Positive()
    modifies g
    ensures forall i, j :: 0 <= i < NODES && 0 <= j < NODES ==> g[i, j] == old(g[i, j]) + SwitchPart(p, gate, i, j, 3)
  {
    hide Bit;
    for k := 0 to 3
      invariant forall i, j :: 0 <= i < NODES && 0 <= j < NODES ==>
                  g[i, j] == old(g[i, j]) + SwitchPart(p, gate, i, j, k)
    {
      var t1 := Bit(gate, 2 * k);
      var t2 := Bit(gate, 2 * k + 1);
      var gT1 := if t1 then p.gOn else p.gOff;
      var gT2 := if t2 then p.gOn else p.gOff;
      Stamp(g, k, -1, gT1 + gT2);
    }
  }

  /** All stamps of assemble_and_factor, in its order, on a cleared matrix. */
  method Assemble(g: array2<real>, p: SolverParams, gate: bv8)
    requires g.Length0 == g.Length1 == NODES && p.Positive()
    modifies g
    ensures View(g) == GMatrix(p, gate)
  {
    forall i, j | 0 <= i < NODES && 0 <= j < NODES {
      g[i, j] := 0.0;
    }
    var nF, gC, nG, gVs := p.FilterL(), p.FilterC(), p.GridL(), 1.0 / p.rSrc;
    StampBranches(g, 0, nF.gEq);
    StampGround(g, 3, gC);
    StampBranches(g, 3, nG.gEq);
    StampGround(g, 6, gVs);
    StampSwitches(g, p, gate);
    forall i, j | 0 <= i < NODES && 0 <= j < NODES ensures View(g)[i][j] == GMatrix(p, gate)[i][j] {
      assert View(g)[i][j] == ChainPart(i, j, 0, 3, nF.gEq) + DiagonalPart(i, j, 3, 6, gC)
                              + ChainPart(i, j, 3, 3, nG.gEq) + DiagonalPart(i, j, 6, 9, gVs)
                              + SwitchPart(p, gate, i, j, 3);
      assert GMatrix(p, gate)[i][j] == GEntry(p, gate, i, j);
    }
    assert forall i :: 0 <= i < NODES ==> View(g)[i] == GMatrix(p, gate)[i];
  }

  // ---- The mutable state -----------------------------------------------------

  class VscState {
    var v: Vec
    var iLf: Vec
    var iCf: Vec
    var iLgrid: Vec
    var hLf: Vec
    var hCf: Vec
    var hLgrid: Vec
    var t: real
    var gate: bv8
    var fault: bool

    function Value(): State
      reads this
    {
      State(v, iLf, iCf, iLgrid, hLf, hCf, hLgrid, t, gate, fault)
    }

    /** A state at rest. */
    constructor ()
      ensures Value().AtRest()
      ensures t == 0.0 && gate == 0 && !fault
    {
      v := seq(NODES, i => 0.0);
      iLf, iCf, iLgrid := [0.0, 0.0, 0.0], [0.0, 0.0, 0.0], [0.0, 0.0, 0.0];
      hLf, hCf, hLgrid := [0.0, 0.0, 0.0], [0.0, 0.0, 0.0], [0.0, 0.0, 0.0];
      t, gate, fault := 0.0, 0, false;
    }
  }

  /** The entries of phase k of an injection vector. */
  ghost predicate InjectedPhase(tr: Trig, p: SolverParams, s: State, gate: bv8, b: Vec, k: nat)
    requires p.Positive() && s.Valid() && |b| == NODES && k < 3
  {
    && b[k] == Feed(p, gate, k) - s.hLf[k]
    && b[k + 3] == s.hLf[k] - s.hCf[k] - s.hLgrid[k]
    && b[k + 6] == SourceInjection(s.hLgrid[k], 1.0 / p.rSrc, GridSource(tr, p, k, s.t))
  }

  lemma InjectedPhases(tr: Trig, p: SolverParams, s: State, gate: bv8, b: Vec)
    requires p.Positive() && s.Valid() && |b| == NODES
    requires forall k :: 0 <= k < 3 ==> InjectedPhase(tr, p, s, gate, b, k)
    ensures b == Injection(tr, p, s, gate)
  {
    hide Feed, SourceInjection, GridSource;
    assert InjectedPhase(tr, p, s, gate, b, 0) && InjectedPhase(tr, p, s, gate, b, 1);
    assert InjectedPhase(tr, p, s, gate, b, 2);
  }

  /** The body of the injection loop for phase k. */
  method InjectPhase(tr: Trig, p: SolverParams, s: VscState, gate: bv8, iN: array<real>, k: nat)
    requires p.Positive() && s.Value().Valid() && iN.Length == NODES && k < 3
    requires ClearPhase(iN[..], k)
    modifies iN
    ensures InjectedPhase(tr, p, s.Value(), gate, iN[..], k)
    ensures forall i :: 0 <= i < NODES && i != k && i != k + 3 && i != k + 6 ==> iN[i] == old(iN[i])
  {
    hide GridSource, Bit;
    var t1 := Bit(gate, 2 * k);
    var gT1 := if t1 then p.gOn else p.gOff;
    var feed := gT1 * p.vDc;
    assert feed == Feed(p, gate, k);
    var vSrc := GridSource(tr, p, k, s.t);
    var iSrc := (1.0 / p.rSrc) * vSrc;
    assert SourceInjection(s.hLgrid[k], 1.0 / p.rSrc, vSrc) == s.hLgrid[k] + iSrc;
    hide Feed, SourceInjection;
    iN[k] := iN[k] - s.hLf[k];
    iN[k + 3] := iN[k + 3] + s.hLf[k];
    iN[k + 3] := iN[k + 3] - s.hCf[k];
    iN[k + 3] := iN[k + 3] - s.hLgrid[k];
    iN[k + 6] := iN[k + 6] + s.hLgrid[k];
    iN[k + 6] := iN[k + 6] + iSrc;
    iN[k] := iN[k] + feed;
  }

  /** The loop that accumulates the Norton injections. */
  method AccumulateInjection(tr: Trig, p: SolverParams, s: VscState, gate: bv8) returns (iN: array<real>)
    requires p.Positive() && s.Value().Valid()
    ensures fresh(iN) && iN[..] == Injection(tr, p, s.Value(), gate)
  {
    hide Feed, SourceInjection, GridSource;
    iN := new real[NODES](i => 0.0);
    for k := 0 to 3
      invariant forall i :: 0 <= i < k ==> InjectedPhase(tr, p, s.Value(), gate, iN[..], i)
      invariant forall i :: k <= i < 3 ==> ClearPhase(iN[..], i)
    {
      ghost var before := iN[..];
      InjectPhase(tr, p, s, gate, iN, k);
      forall i | 0 <= i < k ensures InjectedPhase(tr, p, s.Value(), gate, iN[..], i) {
        assert InjectedPhase(tr, p, s.Value(), gate, before, i);
      }
      forall i | k < i < 3 ensures ClearPhase(iN[..], i) {
        assert ClearPhase(before, i);
      }
    }
    InjectedPhases(tr, p, s.Value(), gate, iN[..]);
  }

  /** The fault scan. */
  method DetectFault(p: SolverParams, v: Vec) returns (fault: bool)
    ensures fault == Overvoltage(p, v)
  {
    fault := false;
    for i := 0 to |v|
      invariant !fault && forall t :: 0 <= t < i ==> Abs(v[t]) <= 2.0 * p.vRated
    {
      var absV := if v[i] < 0.0 then -v[i] else v[i];
      if absV > 2.0 * p.vRated {
        return true;
      }
    }
  }

  /** s' holds the new currents and histories of phase k that follow from s and the node voltages v. */
  ghost predicate UpdatedPhase(p: SolverParams, s: State, v: Vec, s': State, k: nat)
    requires p.Positive() && s.Valid() && s'.Valid() && |v| == NODES && k < 3
  {
    && s'.iLf[k] == FilterCurrent(p, s, v, k)
    && s'.iCf[k] == CapacitorCurrent(p, s, v, k)
    && s'.iLgrid[k] == GridCurrent(p, s, v, k)
    && s'.hLf[k] == InductorHistory(p.FilterL(), s'.iLf[k], v[k] - v[k + 3])
    && s'.hCf[k] == CapacitorHistory(p.FilterC(), s'.iCf[k], v[k + 3])
    && s'.hLgrid[k] == InductorHistory(p.GridL(), s'.iLgrid[k], v[k + 3] - v[k + 6])
  }

  ghost predicate KeepsPhase(s: State, s': State, k: nat)
    requires s.Valid() && s'.Valid() && k < 3
  {
    && s'.iLf[k] == s.iLf[k] && s'.iCf[k] == s.iCf[k] && s'.iLgrid[k] == s.iLgrid[k]
    && s'.hLf[k] == s.hLf[k] && s'.hCf[k] == s.hCf[k] && s'.hLgrid[k] == s.hLgrid[k]
  }

  ghost predicate SameRest(s: State, s': State) {
    s'.v == s.v && s'.t == s.t && s'.gate == s.gate && s'.fault == s.fault
  }

  /** The body of the update loop for phase k. */
  method UpdatePhase(p: SolverParams, s: VscState, v: Vec, k: nat)
    requires p.Positive() && s.Value().Valid() && |v| == NODES && k < 3
    modifies s
    ensures s.Value().Valid() && SameRest(old(s.Value()), s.Value())
    ensures UpdatedPhase(p, old(s.Value()), v, s.Value(), k)
    ensures forall i :: 0 <= i < 3 && i != k ==> KeepsPhase(old(s.Value()), s.Value(), i)
  {
    hide InductorHistory, CapacitorHistory, BranchCurrent;
    var nF, gC, nG := p.FilterL(), p.FilterC(), p.GridL();
    s.iLf := s.iLf[k := BranchCurrent(nF.gEq, v[k], v[k + 3], s.hLf[k])];
    s.hLf := s.hLf[k := InductorHistory(nF, s.iLf[k], v[k] - v[k + 3])];
    s.iCf := s.iCf[k := BranchCurrent(gC, v[k + 3], 0.0, s.hCf[k])];
    s.hCf := s.hCf[k := CapacitorHistory(gC, s.iCf[k], v[k + 3])];
    s.iLgrid := s.iLgrid[k := BranchCurrent(nG.gEq, v[k + 3], v[k + 6], s.hLgrid[k])];
    s.hLgrid := s.hLgrid[k := InductorHistory(nG, s.iLgrid[k], v[k + 3] - v[k + 6])];
  }

  lemma UpdatedPhases(p: SolverParams, s: State, v: Vec, s': State)
    requires p.Positive() && s.Valid() && s'.Valid() && |v| == NODES && SameRest(s, s')
    requires forall k :: 0 <= k < 3 ==> UpdatedPhase(p, s, v, s', k)
    ensures s' == Updated(p, s, s.gate, v).(v := s.v, t := s.t, gate := s.gate, fault := s.fault)
  {
    hide InductorHistory, CapacitorHistory, BranchCurrent;
    var u := Updated(p, s, s.gate, v);
    forall k | 0 <= k < 3
      ensures s'.iLf[k] == u.iLf[k] && s'.iCf[k] == u.iCf[k] && s'.iLgrid[k] == u.iLgrid[k]
      ensures s'.hLf[k] == u.hLf[k] && s'.hCf[k] == u.hCf[k] && s'.hLgrid[k] == u.hLgrid[k]
    {
      assert UpdatedPhase(p, s, v, s', k);
    }
    assert s'.iLf == u.iLf && s'.iCf == u.iCf && s'.iLgrid == u.iLgrid;
    assert s'.hLf == u.hLf && s'.hCf == u.hCf && s'.hLgrid == u.hLgrid;
  }

  /** The loop that updates branch currents and histories from the new node voltages. */
  method UpdateBranches(p: SolverParams, s: VscState, v: Vec)
    requires p.Positive() && s.Value().Valid() && |v| == NODES
    modifies s
    ensures s.Value() == Updated(p, old(s.Value()), old(s.gate), v)
                           .(v := old(s.v), t := old(s.t), gate := old(s.gate), fault := old(s.fault))
  {
    hide Updated, InductorHistory, CapacitorHistory, BranchCurrent;
    ghost var s0 := s.Value();
    for k := 0 to 3
      invariant s.Value().Valid() && SameRest(s0, s.Value())
      invariant forall i :: 0 <= i < k ==> UpdatedPhase(p, s0, v, s.Value(), i)
      invariant forall i :: k <= i < 3 ==> KeepsPhase(s0, s.Value(), i)
    {
      ghost var s1 := s.Value();
      UpdatePhase(p, s, v, k);
      assert KeepsPhase(s0, s1, k);
      forall i | 0 <= i < k ensures UpdatedPhase(p, s0, v, s.Value(), i) {
        assert UpdatedPhase(p, s0, v, s1, i) && KeepsPhase(s1, s.Value(), i);
      }
      forall i | k < i < 3 ensures KeepsPhase(s0, s.Value(), i) {
        assert KeepsPhase(s0, s1, i) && KeepsPhase(s1, s.Value(), i);
      }
    }
    UpdatedPhases(p, s0, v, s.Value());
  }

  /** Gate and fault flag are no input of the update. */
  lemma UpdatedAfter(p: SolverParams, s: State, gate: bv8, fault: bool, v: Vec)
    requires p.Positive() && s.Valid() && |v| == NODES && fault == Overvoltage(p, v)
    ensures var s1 := s.(gate := gate, fault := fault);
            Updated(p, s1, gate, v).(v := v, t := s.t + p.dt, gate := gate, fault := fault) == Updated(p, s, gate, v)
  {
    hide FilterCurrent, CapacitorCurrent, GridCurrent, InductorHistory, CapacitorHistory, Overvoltage;
    var s1 := s.(gate := gate, fault := fault);
    forall k | 0 <= k < 3
      ensures FilterCurrent(p, s1, v, k) == FilterCurrent(p, s, v, k)
      ensures CapacitorCurrent(p, s1, v, k) == CapacitorCurrent(p, s, v, k)
      ensures GridCurrent(p, s1, v, k) == GridCurrent(p, s, v, k)
    {
      SameCurrents(p, s1, s, v, k);
    }
  }

  lemma SameCurrents(p: SolverParams, s: State, z: State, v: Vec, k: nat)
    requires p.Positive() && s.Valid() && z.Valid() && |v| == NODES && k < 3
    requires s.hLf == z.hLf && s.hCf == z.hCf && s.hLgrid == z.hLgrid
    ensures FilterCurrent(p, s, v, k) == FilterCurrent(p, z, v, k)
    ensures CapacitorCurrent(p, s, v, k) == CapacitorCurrent(p, z, v, k)
    ensures GridCurrent(p, s, v, k) == GridCurrent(p, z, v, k)
  {
  }

  /** Everything a step does once the node voltages are known. */
  method FinishStep(p: SolverParams, s: VscState, gate: bv8, v: Vec)
    requires p.Positive() && s.Value().Valid() && |v| == NODES
    modifies s
    ensures s.Value() == Updated(p, old(s.Value()), gate, v)
  {
    hide Updated, Overvoltage, SolverParams.Positive;
    ghost var s0 := s.Value();
    s.gate := gate;
    s.fault := DetectFault(p, v);
    UpdatedAfter(p, s0, gate, s.fault, v);
    UpdateBranches(p, s, v);
    s.v := v;
    s.t := s.t + p.dt;
  }

  // ---- The C++ solver --------------------------------------------------------

  class Network {
    const tr: Trig
    const p: SolverParams
    const g: array2<real>
    const lu: array2<real>
    const piv: array<nat>
    var gateFactored: bv8

    predicate Allocated() {
      g.Length0 == g.Length1 == lu.Length0 == lu.Length1 == piv.Length == NODES && g != lu
    }

    /** The cached factors are those of the matrix for the recorded gate byte, and no rows were exchanged. */
    ghost predicate Valid()
      reads this, g, lu, piv
    {
      && p.Valid() && Allocated()
      && View(g) == GMatrix(p, gateFactored)
      && LuTheory.IsFactorOf(GMatrix(p, gateFactored), View(lu), piv[..], NODES)
      && forall t :: 0 <= t < NODES ==> piv[t] == t
    }

    constructor (tr: Trig, p: SolverParams)
      requires p.Valid()
      ensures Valid() && this.tr == tr && this.p == p && fresh(g) && fresh(lu) && fresh(piv)
      ensures gateFactored == 0
    {
      this.tr, this.p := tr, p;
      gateFactored := 0xFF;
      g := new real[NODES, NODES]((i, j) => 0.0);
      lu := new real[NODES, NODES]((i, j) => 0.0);
      piv := new nat[NODES](i => 0);
      new;
      AssembleAndFactor(0);
    }

    /** For valid parameters the factorisation never fails, so the cache is always refilled. */
    method AssembleAndFactor(gate: bv8)
      requires p.Valid() && Allocated()
      modifies this, g, lu, piv
      ensures Valid() && gateFactored == gate
    {
      Assemble(g, p, gate);
      forall i, j | 0 <= i < NODES && 0 <= j < NODES {
        lu[i, j] := g[i, j];
      }
      assert forall i :: 0 <= i < NODES ==> View(lu)[i] == View(g)[i];
      assert View(lu) == GMatrix(p, gate);
      GDominant(p, gate);
      hide *;
      var ok := LuFactor(lu, piv);
      assert ok;
      gateFactored := gate;
    }

    /** The part of a step after the cache is in place. */
    method Advance(s: VscState, gate: bv8) returns (fault: bool)
      requires Valid() && gateFactored == gate && s.Value().Valid()
      modifies s
      ensures VscReference.Step(tr, p, old(s.Value()), gate, s.Value())
      ensures fault == s.fault
    {
      assert p.Positive();
      hide Injection, Updated, GMatrix, SolverParams.Valid, SolverParams.Positive, LuTheory.IsFactorOf, Solves;
      var iN := AccumulateInjection(tr, p, s, gate);
      var x := new real[NODES](i => 0.0);
      LuSolve(GMatrix(p, gate), lu, piv, iN, x);
      FinishStep(p, s, gate, x[..]);
      fault := s.fault;
    }

    /** A step of the cached solver is a step of the reference, whatever gate bytes came before. */
    method Step(s: VscState, gate: bv8) returns (fault: bool)
      requires Valid() && s.Value().Valid()
      modifies this, g, lu, piv, s
      ensures Valid() && gateFactored == gate
      ensures VscReference.Step(tr, p, old(s.Value()), gate, s.Value())
      ensures fault == s.fault
    {
      hide VscReference.Step, GMatrix, SolverParams.Valid, SolverParams.Positive, LuTheory.IsFactorOf;
      if gate != gateFactored {
        AssembleAndFactor(gate);
      }
      fault := Advance(s, gate);
    }
  }

  // ---- The Python solver -----------------------------------------------------

  /** What the stamps of phase k add to entry (i, j). */
  function PhasePart(p: SolverParams, gate: bv8, i: nat, j: nat, k: nat): real
    requires p.Positive() && i < NODES && j < NODES
  {
    if i == k || i == k + 3 || i == k + 6 then GEntry(p, gate, i, j) else 0.0
  }

  lemma StampSum(p: SolverParams, gate: bv8, i: nat, j: nat, k: nat, gF: real, gC: real, gG: real, gVs: real, gSw: real)
    requires p.Positive() && i < NODES && j < NODES && k < 3
    requires gF == p.FilterL().gEq && gG == p.GridL().gEq
    requires gSw == p.Ground(gate, k) && gC == p.Ground(gate, k + 3) && gVs == p.Ground(gate, k + 6)
    ensures StampDelta(i, j, k, k + 3, gF) + StampDelta(i, j, k + 3, -1, gC) + StampDelta(i, j, k + 3, k + 6, gG)
            + StampDelta(i, j, k + 6, -1, gVs) + StampDelta(i, j, k, -1, gSw) == PhasePart(p, gate, i, j, k)
  {
    hide SolverParams.FilterL, SolverParams.GridL, SolverParams.FilterC, Bit;
  }

  /** The five stamps of phase k, in the order of the Python assembly loop. */
  method StampPhase(g: array2<real>, p: SolverParams, gate: bv8, k: nat)
    requires g.Length0 == g.Length1 == NODES && p.Positive() && k < 3
    modifies g
    ensures forall i, j :: 0 <= i < NODES && 0 <= j < NODES ==> g[i, j] == old(g[i, j]) + PhasePart(p, gate, i, j, k)
  {
    var gF, gC, gG, gVs := p.FilterL().gEq, p.FilterC(), p.GridL().gEq, 1.0 / p.rSrc;
    var t1 := Bit(gate, 2 * k);
    var t2 := Bit(gate, 2 * k + 1);
    var gT1 := if t1 then p.gOn else p.gOff;
    var gT2 := if t2 then p.gOn else p.gOff;
    forall i, j | 0 <= i < NODES && 0 <= j < NODES
      ensures StampDelta(i, j, k, k + 3, gF) + StampDelta(i, j, k + 3, -1, gC) + StampDelta(i, j, k + 3, k + 6, gG)
              + StampDelta(i, j, k + 6, -1, gVs) + StampDelta(i, j, k, -1, gT1 + gT2) == PhasePart(p, gate, i, j, k)
    {
      StampSum(p, gate, i, j, k, gF, gC, gG, gVs, gT1 + gT2);
    }
    hide *;
    Stamp(g, k, k + 3, gF);
    Stamp(g, k + 3, -1, gC);
    Stamp(g, k + 3, k + 6, gG);
    Stamp(g, k + 6, -1, gVs);
    Stamp(g, k, -1, gT1 + gT2);
  }

  /** The assembly of the Python model, one phase at a time. */
  method AssembleByPhase(p: SolverParams, gate: bv8) returns (m: Matrix)
    requires p.Positive()
    ensures m == GMatrix(p, gate)
  {
    hide GEntry;
    var g := new real[NODES, NODES]((i, j) => 0.0);
    for k := 0 to 3
      invariant forall i, j :: 0 <= i < NODES && 0 <= j < NODES ==>
        g[i, j] == if i < k || 3 <= i < k + 3 || 6 <= i < k + 6 then GEntry(p, gate, i, j) else 0.0
    {
      StampPhase(g, p, gate, k);
    }
    m := seq(NODES, i requires 0 <= i < NODES reads g => seq(NODES, j requires 0 <= j < NODES reads g => g[i, j]));
    assert forall i :: 0 <= i < NODES ==> m[i] == GMatrix(p, gate)[i];
  }

  /** A library solver that is right on every nonsingular nine-node system. */
  ghost predicate CorrectSolver(solve: (Matrix, Vec) -> Vec) {
    forall a: Matrix, b: Vec :: Square(a, NODES) && |b| == NODES && !Singular(a, NODES) ==>
      |solve(a, b)| == NODES && Solves(a, solve(a, b), b)
  }

  datatype Cached = Nothing | Factored(gate: bv8, matrix: Matrix)

  /** The Python VscNetwork; the cached factor object is represented by the matrix it was computed from. */
  class PyNetwork {
    const tr: Trig
    const p: SolverParams
    const solve: (Matrix, Vec) -> Vec
    var cache: Cached

    ghost predicate Valid()
      reads this
    {
      && p.Valid() && CorrectSolver(solve)
      && (cache.Factored? ==> cache.matrix == GMatrix(p, cache.gate))
    }

    constructor (tr: Trig, p: SolverParams, solve: (Matrix, Vec) -> Vec)
      requires p.Valid() && CorrectSolver(solve)
      ensures Valid() && this.tr == tr && this.p == p && this.solve == solve && cache == Nothing
    {
      this.tr, this.p, this.solve := tr, p, solve;
      cache := Nothing;
    }

    /** The cached step with a correct library solver is a step of the same reference. */
    method Step(s: VscState, gate: bv8) returns (fault: bool)
      requires Valid() && s.Value().Valid()
      modifies this, s
      ensures Valid() && cache == Factored(gate, GMatrix(p, gate))
      ensures VscReference.Step(tr, p, old(s.Value()), gate, s.Value())
      ensures fault == s.fault
    {
      if cache.Nothing? || cache.gate != gate {
        var m := AssembleByPhase(p, gate);
        cache := Factored(gate, m);
      }
      var iN := AccumulateInjection(tr, p, s, gate);
      GNonsingular(p, gate);
      var v := solve(cache.matrix, iN[..]);
      FinishStep(p, s, gate, v);
      fault := s.fault;
    }
  }
}
