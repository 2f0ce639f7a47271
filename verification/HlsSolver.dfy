/**
 The FPGA kernel: one pre-loaded factorisation, the pivot list read as a permutation, histories packed in one array.
 On every run under complementary gates it computes what the solver that refactors on each gate change computes.
 */
module HlsSolver {
  import opened LinearAlgebra
  import opened Norton
  import opened VscReference
  import opened VscEnergy
  import VscNetwork
  import opened LuSolver
  import LuTheory

  datatype FixedParams = FixedParams(
    dt: real, gLf: real, betaLf: real, gCf: real, gLgrid: real, betaLgrid: real,
    gOn: real, gOff: real, gVs: real, vDc: real, vRated: real)

  const TWO_PI := 6.283185307179586
  const GRID_PEAK := 230.0 * 1.41421356237

  function KernelSource(sin: real -> real, k: nat, t: real): real {
    GRID_PEAK * sin(TWO_PI * 50.0 * t + (k as real) * (-TWO_PI / 3.0))
  }

  /** The programmed grid: 50 Hz and 230 V times the square root of two, phase k delayed by k/150 s. */
  lemma KernelDelay(sin: real -> real, k: nat, t: real)
    ensures KernelSource(sin, k, t)
         == (230.0 * 1.41421356237) * sin(100.0 * 3.141592653589793 * (t - k as real / 150.0))
  {
    var delay := k as real / 150.0;
    assert TWO_PI * 50.0 * t + (k as real) * (-TWO_PI / 3.0) == 100.0 * 3.141592653589793 * (t - delay);
  }

  // ---- Norton injections -----------------------------------------------------

  function KernelFeed(fp: FixedParams, gate: bv8, k: nat): real
    requires k < 3
  {
    (if Upper(gate, k) then fp.gOn else fp.gOff) * fp.vDc
  }

  /** hist packs [I_Lf x 3, I_Cf x 3, I_Lgrid x 3]. */
  ghost predicate KernelInjected(sin: real -> real, fp: FixedParams, hist: Vec, gate: bv8, t: real, b: Vec, k: nat)
    requires |hist| == |b| == NODES && k < 3
  {
    && b[k] == KernelFeed(fp, gate, k) - hist[k]
    && b[k + 3] == hist[k] - hist[k + 3] - hist[k + 6]
    && b[k + 6] == SourceInjection(hist[k + 6], fp.gVs, KernelSource(sin, k, t))
  }

  method InjectPhase(sin: real -> real, fp: FixedParams, hist: array<real>, gate: bv8, t: real, out: array<real>,
                     k: nat)
    requires hist.Length == out.Length == NODES && hist != out && k < 3 && ClearPhase(out[..], k)
    modifies out
    ensures KernelInjected(sin, fp, hist[..], gate, t, out[..], k)
    ensures forall i :: 0 <= i < NODES && i != k && i != k + 3 && i != k + 6 ==> out[i] == old(out[i])
  {
    hide KernelSource, Bit;
    var t1 := Bit(gate, 2 * k);
    var gT1 := if t1 then fp.gOn else fp.gOff;
    var feed := gT1 * fp.vDc;
    assert feed == KernelFeed(fp, gate, k);
    var vSrc := KernelSource(sin, k, t);
    var iSrc := fp.gVs * vSrc;
    assert SourceInjection(hist[k + 6], fp.gVs, vSrc) == hist[k + 6] + iSrc;
    hide KernelFeed, SourceInjection;
    out[k] := out[k] - hist[k];
    out[k + 3] := out[k + 3] + hist[k];
    out[k + 3] := out[k + 3] - hist[k + 3];
    out[k + 3] := out[k + 3] - hist[k + 6];
    out[k + 6] := out[k + 6] + hist[k + 6];
    out[k + 6] := out[k + 6] + iSrc;
    out[k] := out[k] + feed;
  }

  method NortonUpdate(sin: real -> real, fp: FixedParams, hist: array<real>, gate: bv8, t: real, out: array<real>)
    requires hist.Length == out.Length == NODES && hist != out
    modifies out
    ensures forall k :: 0 <= k < 3 ==> KernelInjected(sin, fp, hist[..], gate, t, out[..], k)
  {
    hide KernelFeed, SourceInjection, KernelSource;
    for i := 0 to NODES
      invariant forall j :: 0 <= j < i ==> out[j] == 0.0
    {
      out[i] := 0.0;
    }
    for k := 0 to 3
      invariant forall i :: 0 <= i < k ==> KernelInjected(sin, fp, hist[..], gate, t, out[..], i)
      invariant forall i :: k <= i < 3 ==> ClearPhase(out[..], i)
    {
      ghost var before := out[..];
      InjectPhase(sin, fp, hist, gate, t, out, k);
      forall i | 0 <= i < k ensures KernelInjected(sin, fp, hist[..], gate, t, out[..], i) {
        assert KernelInjected(sin, fp, hist[..], gate, t, before, i);
      }
      forall i | k < i < 3 ensures ClearPhase(out[..], i) {
        assert ClearPhase(before, i);
      }
    }
  }

  // ---- The triangular solves with the pivot list read as a permutation --------

  /** b rearranged by reading the pivot list as "entry i comes from row piv[i]". */
  function Gather<T>(b: seq<T>, piv: seq<nat>): (c: seq<T>)
    requires |piv| == |b| && forall i :: 0 <= i < |piv| ==> piv[i] < |b|
    ensures |c| == |b|
  {
    seq(|b|, i requires 0 <= i < |b| => b[piv[i]])
  }

  ghost predicate ForwardSolved(l: Matrix, c: Vec, y: Vec)
    requires Square(l, |y|) && |c| == |y|
  {
    forall i :: 0 <= i < |y| ==> y[i] == c[i] - LuTheory.Prefix(l[i], i, y)
  }

  ghost predicate BackSolved(u: Matrix, y: Vec, x: Vec)
    requires Square(u, |y|) && |x| == |y|
  {
    forall i :: 0 <= i < |y| ==> Tail(u[i], i, x) == y[i]
  }

  method ForwardSub(l: array2<real>, b: array<real>, y: array<real>)
    requires l.Length0 == l.Length1 == b.Length == y.Length && b != y
    modifies y
    ensures ForwardSolved(View(l), b[..], y[..])
  {
    ghost var m := View(l);
    for i := 0 to y.Length
      invariant forall t :: 0 <= t < i ==> y[t] == b[t] - LuTheory.Prefix(m[t], t, y[..])
    {
      var s := ForwardRow(l, y, i, b[i]);
      ghost var before := y[..];
      y[i] := s;
      forall t | 0 <= t <= i ensures LuTheory.Prefix(m[t], t, y[..]) == LuTheory.Prefix(m[t], t, before) {
        LuTheory.PrefixLocal(m[t], t, y[..], before);
      }
    }
  }

  /** Top-level solve of the kernel. */
  method KernelSolve(l: array2<real>, u: array2<real>, piv: array<nat>, b: array<real>, x: array<real>)
    returns (ghost y: Vec)
    requires l.Length0 == l.Length1 == u.Length0 == u.Length1 == piv.Length == b.Length == x.Length && b != x
    requires forall i :: 0 <= i < piv.Length ==> piv[i] < piv.Length
    requires LuTheory.PivotsUsable(View(u), x.Length, x.Length)
    modifies x
    ensures |y| == x.Length
    ensures ForwardSolved(View(l), Gather(b[..], piv[..]), y) && BackSolved(View(u), y, x[..])
  {
    var n := x.Length;
    var bPerm := new real[n];
    for i := 0 to n
      invariant forall t :: 0 <= t < i ==> bPerm[t] == b[piv[t]]
    {
      bPerm[i] := b[piv[i]];
    }
    assert bPerm[..] == Gather(b[..], piv[..]);
    hide *;
    var w := new real[n];
    ForwardSub(l, bPerm, w);
    BackSubstitute(u, w, x);
    y := w[..];
    assert BackSolved(View(u), y, x[..]) by {
      BackSolvedFrom(View(u), y, x[..]);
    }
  }

  lemma BackSolvedFrom(u: Matrix, y: Vec, x: Vec)
    requires Square(u, |y|) && |x| == |y| && forall i :: 0 <= i < |y| ==> Tail(u[i], i, x) == y[i]
    ensures BackSolved(u, y, x)
  {
  }

  // ---- Swap list and permutation ---------------------------------------------

  lemma {:induction false} ReplayInjective(b: Vec, piv: seq<nat>, k: nat)
    requires k <= |piv| <= |b| && (forall t :: 0 <= t < k ==> t <= piv[t] < |b|)
    requires forall i, j :: 0 <= i < j < |b| ==> b[i] != b[j]
    ensures forall i, j :: 0 <= i < j < |b| ==> Replay(b, piv, k)[i] != Replay(b, piv, k)[j]
  {
    if k > 0 {
      ReplayInjective(b, piv, k - 1);
    }
  }

  /** An injective list with t <= piv[t] is the identity. */
  lemma {:induction false} InjectiveIsIdentity(piv: seq<nat>, n: nat, t: nat)
    requires |piv| == n && t <= n && (forall i :: 0 <= i < n ==> i <= piv[i] < n)
    requires forall i, j :: 0 <= i < j < n ==> piv[i] != piv[j]
    ensures forall i :: t <= i < n ==> piv[i] == i
    decreases n - t
  {
    if t < n {
      InjectiveIsIdentity(piv, n, t + 1);
      assert piv[piv[t]] >= piv[t];
    }
  }

  /** The two readings of a pivot list agree on every vector. */
  ghost predicate ReadingsAgree(piv: seq<nat>, n: nat)
    requires |piv| == n && forall i :: 0 <= i < n ==> i <= piv[i] < n
  {
    forall b: Vec :: |b| == n ==> AgreeOn(b, piv, n)
  }

  ghost predicate AgreeOn(b: Vec, piv: seq<nat>, n: nat)
    requires |piv| == |b| == n && forall i :: 0 <= i < n ==> i <= piv[i] < n
  {
    Gather(b, piv) == Replay(b, piv, n)
  }

  /** The vector 0, 1, 2, ...: on it a pivot list can be read off. */
  function Ramp(n: nat): (id: Vec)
    ensures |id| == n && forall i :: 0 <= i < n ==> id[i] == i as real
  {
    seq(n, i requires 0 <= i < n => i as real)
  }

  lemma GatherRamp(piv: seq<nat>, n: nat)
    requires |piv| == n && forall i :: 0 <= i < n ==> piv[i] < n
    ensures forall i :: 0 <= i < n ==> Gather(Ramp(n), piv)[i] == piv[i] as real
  {
    hide Ramp;
  }

  lemma AgreeingIsIdentity(piv: seq<nat>, n: nat)
    requires |piv| == n && (forall i :: 0 <= i < n ==> i <= piv[i] < n) && AgreeOn(Ramp(n), piv, n)
    ensures forall i :: 0 <= i < n ==> piv[i] == i
  {
    ReplayInjective(Ramp(n), piv, n);
    GatherRamp(piv, n);
    assert Gather(Ramp(n), piv) == Replay(Ramp(n), piv, n);
    hide *;
    forall i, j | 0 <= i < j < n ensures piv[i] != piv[j] {
      assert Gather(Ramp(n), piv)[i] != Gather(Ramp(n), piv)[j];
    }
    InjectiveIsIdentity(piv, n, 0);
  }

  /**
   lu_factor's swap list and the kernel's permutation reading agree on every vector exactly when no rows were
   exchanged.
   */
  lemma ReadingsAgreeIff(piv: seq<nat>, n: nat)
    requires |piv| == n && forall i :: 0 <= i < n ==> i <= piv[i] < n
    ensures ReadingsAgree(piv, n) <==> forall i :: 0 <= i < n ==> piv[i] == i
  {
    hide AgreeOn, Ramp;
    if forall i :: 0 <= i < n ==> piv[i] == i {
      forall b: Vec | |b| == n ensures AgreeOn(b, piv, n) {
        IdentityAgrees(b, piv, n);
      }
    }
    if ReadingsAgree(piv, n) {
      AgreeingIsIdentity(piv, n);
    }
  }

  lemma IdentityAgrees(b: Vec, piv: seq<nat>, n: nat)
    requires |piv| == |b| == n && forall i :: 0 <= i < n ==> piv[i] == i
    ensures AgreeOn(b, piv, n)
  {
    ReplayIdentity(b, piv, n);
    hide Replay;
  }

  // ---- Histories -------------------------------------------------------------

  /** New branch currents and packed histories of phase k. */
  ghost predicate KernelUpdated(fp: FixedParams, hist: Vec, v: Vec, hist': Vec, cur: Vec, k: nat)
    requires |hist| == |v| == |hist'| == |cur| == NODES && k < 3
  {
    && cur[k] == BranchCurrent(fp.gLf, v[k], v[k + 3], hist[k])
    && hist'[k] == InductorHistory(Inductor(fp.gLf, fp.betaLf), cur[k], v[k] - v[k + 3])
    && cur[k + 3] == BranchCurrent(fp.gCf, v[k + 3], 0.0, hist[k + 3])
    && hist'[k + 3] == CapacitorHistory(fp.gCf, cur[k + 3], v[k + 3])
    && cur[k + 6] == BranchCurrent(fp.gLgrid, v[k + 3], v[k + 6], hist[k + 6])
    && hist'[k + 6] == InductorHistory(Inductor(fp.gLgrid, fp.betaLgrid), cur[k + 6], v[k + 3] - v[k + 6])
  }

  method UpdatePhase(fp: FixedParams, v: array<real>, hist: array<real>, histOut: array<real>, cur: array<real>, k: nat)
    requires v.Length == hist.Length == histOut.Length == cur.Length == NODES && k < 3
    requires histOut != v && histOut != hist && cur != v && cur != hist && cur != histOut
    modifies histOut, cur
    ensures KernelUpdated(fp, hist[..], v[..], histOut[..], cur[..], k)
    ensures forall i :: 0 <= i < NODES && i != k && i != k + 3 && i != k + 6 ==>
              histOut[i] == old(histOut[i]) && cur[i] == old(cur[i])
  {
    hide BranchCurrent, InductorHistory, CapacitorHistory;
    var iF := BranchCurrent(fp.gLf, v[k], v[k + 3], hist[k]);
    histOut[k] := InductorHistory(Inductor(fp.gLf, fp.betaLf), iF, v[k] - v[k + 3]);
    cur[k] := iF;
    var iC := BranchCurrent(fp.gCf, v[k + 3], 0.0, hist[k + 3]);
    histOut[k + 3] := CapacitorHistory(fp.gCf, iC, v[k + 3]);
    cur[k + 3] := iC;
    var iG := BranchCurrent(fp.gLgrid, v[k + 3], v[k + 6], hist[k + 6]);
    histOut[k + 6] := InductorHistory(Inductor(fp.gLgrid, fp.betaLgrid), iG, v[k + 3] - v[k + 6]);
    cur[k + 6] := iG;
  }

  method UpdateHistory(fp: FixedParams, v: array<real>, hist: array<real>, histOut: array<real>, cur: array<real>)
    requires v.Length == hist.Length == histOut.Length == cur.Length == NODES
    requires histOut != v && histOut != hist && cur != v && cur != hist && cur != histOut
    modifies histOut, cur
    ensures forall k :: 0 <= k < 3 ==> KernelUpdated(fp, hist[..], v[..], histOut[..], cur[..], k)
  {
    hide BranchCurrent, InductorHistory, CapacitorHistory;
    for k := 0 to 3
      invariant forall i :: 0 <= i < k ==> KernelUpdated(fp, hist[..], v[..], histOut[..], cur[..], i)
    {
      ghost var h0, c0 := histOut[..], cur[..];
      UpdatePhase(fp, v, hist, histOut, cur, k);
      forall i | 0 <= i < k ensures KernelUpdated(fp, hist[..], v[..], histOut[..], cur[..], i) {
        assert KernelUpdated(fp, hist[..], v[..], h0, c0, i);
      }
    }
  }

  // ---- The kernel ------------------------------------------------------------

  /** The kernel's persistent state. */
  datatype KernelState = KernelState(v: Vec, hist: Vec, t: real) {
    predicate Valid() {
      |v| == NODES && |hist| == NODES
    }
  }

  /** One transaction: injections b, forward result y and branch currents cur link h to h'. */
  ghost predicate KernelStep(sin: real -> real, fp: FixedParams, l: Matrix, u: Matrix, piv: seq<nat>,
                             h: KernelState, gate: bv8, h': KernelState, b: Vec, y: Vec, cur: Vec) {
    && h.Valid() && h'.Valid() && |b| == |y| == |cur| == |piv| == NODES && Square(l, NODES) && Square(u, NODES)
    && (forall i :: 0 <= i < NODES ==> piv[i] < NODES)
    && (forall k :: 0 <= k < 3 ==> KernelInjected(sin, fp, h.hist, gate, h.t, b, k))
    && ForwardSolved(l, Gather(b, piv), y) && BackSolved(u, y, h'.v)
    && (forall k :: 0 <= k < 3 ==> KernelUpdated(fp, h.hist, h'.v, h'.hist, cur, k))
    && h'.t == h.t + fp.dt
  }

  function Zero(n: nat): (z: Vec)
    ensures |z| == n
  {
    seq(n, i => 0.0)
  }

  /** The unit lower or the upper triangle of a factored matrix. */
  method Triangle(lu: array2<real>, lower: bool) returns (m: array2<real>)
    requires lu.Length0 == lu.Length1 == NODES
    ensures fresh(m) && m.Length0 == m.Length1 == NODES
    ensures lower ==> forall i, j :: 0 <= j < i < NODES ==> m[i, j] == lu[i, j]
    ensures !lower ==> forall i, j :: 0 <= i <= j < NODES ==> m[i, j] == lu[i, j]
  {
    m := new real[NODES, NODES];
    for i := 0 to NODES
      invariant lower ==> forall a, b :: 0 <= b < a < i ==> m[a, b] == lu[a, b]
      invariant !lower ==> forall a, b :: 0 <= a < i && a <= b < NODES ==> m[a, b] == lu[a, b]
    {
      for j := 0 to NODES
        invariant lower ==> forall a, b :: 0 <= b < a < i ==> m[a, b] == lu[a, b]
        invariant !lower ==> forall a, b :: 0 <= a < i && a <= b < NODES ==> m[a, b] == lu[a, b]
        invariant forall b :: 0 <= b < j && (if lower then b < i else i <= b) ==> m[i, b] == lu[i, b]
      {
        m[i, j] := if (if lower then j < i else i <= j) then lu[i, j] else if i == j then 1.0 else 0.0;
      }
    }
  }

  lemma TrianglesLoaded(l: Matrix, u: Matrix, lu: Matrix)
    requires Square(l, NODES) && Square(u, NODES) && Square(lu, NODES) && LuTheory.PivotsUsable(lu, NODES, NODES)
    requires forall i, j :: 0 <= j < i < NODES ==> l[i][j] == lu[i][j]
    requires forall i, j :: 0 <= i <= j < NODES ==> u[i][j] == lu[i][j]
    ensures Loaded(l, u, lu) && LuTheory.PivotsUsable(u, NODES, NODES)
  {
  }

  lemma ZeroIs(z: Vec)
    requires |z| == NODES && forall i :: 0 <= i < NODES ==> z[i] == 0.0
    ensures z == Zero(NODES)
  {
  }

  class Kernel {
    const sin: real -> real
    const sL: array2<real>
    const sU: array2<real>
    const sPiv: array<nat>
    const sV: array<real>
    const sHist: array<real>
    var sT: real

    /** The host has written usable factors and a pivot list. */
    ghost predicate Valid()
      reads sL, sU, sPiv
    {
      && sL.Length0 == sL.Length1 == sU.Length0 == sU.Length1 == sPiv.Length == sV.Length == sHist.Length == NODES
      && sV != sHist
      && (forall i :: 0 <= i < NODES ==> sPiv[i] < NODES)
      && LuTheory.PivotsUsable(View(sU), NODES, NODES)
    }

    /** The host programs the kernel with what its own solver has cached; the kernel's state starts at zero. */
    constructor (net: VscNetwork.Network)
      requires net.Valid()
      ensures Valid() && fresh(sL) && fresh(sU) && fresh(sPiv) && fresh(sV) && fresh(sHist)
      ensures sin == net.tr.sin && Loaded(View(sL), View(sU), View(net.lu)) && sPiv[..] == net.piv[..]
      ensures Value() == KernelState(Zero(NODES), Zero(NODES), 0.0)
    {
      assert LuTheory.PivotsUsable(View(net.lu), NODES, NODES);
      hide GMatrix, LuTheory.IsFactorOf, LuTheory.PivotsUsable, SolverParams.Valid, Loaded, View, Zero;
      sin := net.tr.sin;
      var l := Triangle(net.lu, true);
      var u := Triangle(net.lu, false);
      sL, sU := l, u;
      var piv := net.piv;
      sPiv := new nat[NODES](i requires 0 <= i < NODES && piv.Length == NODES reads piv => piv[i]);
      sV := new real[NODES](_ => 0.0);
      sHist := new real[NODES](_ => 0.0);
      sT := 0.0;
      new;
      TrianglesLoaded(View(sL), View(sU), View(net.lu));
      ZeroIs(sV[..]);
      ZeroIs(sHist[..]);
    }

    function Value(): KernelState
      reads this, sV, sHist
    {
      KernelState(sV[..], sHist[..], sT)
    }

    method SolverTop(gate: bv8, fp: FixedParams)
      returns (stream: seq<(real, bool)>, ghost b: Vec, ghost y: Vec, ghost cur: Vec)
      requires Valid()
      modifies this, sV, sHist
      ensures Valid()
      ensures KernelStep(sin, fp, View(sL), View(sU), sPiv[..], old(Value()), gate, Value(), b, y, cur)
      ensures |stream| == NODES && forall i :: 0 <= i < NODES ==> stream[i] == (sV[i], i == NODES - 1)
    {
      hide KernelInjected, KernelUpdated, ForwardSolved, BackSolved, LuTheory.PivotsUsable, View, Gather;
      var iN, vNew, histNew, branch := new real[NODES], new real[NODES], new real[NODES], new real[NODES];
      NortonUpdate(sin, fp, sHist, gate, sT, iN);
      y := KernelSolve(sL, sU, sPiv, iN, vNew);
      UpdateHistory(fp, vNew, sHist, histNew, branch);
      ghost var h' := KernelState(vNew[..], histNew[..], sT + fp.dt);
      b, cur := iN[..], branch[..];
      assert KernelStep(sin, fp, View(sL), View(sU), sPiv[..], Value(), gate, h', b, y, cur);
      CopyInto(vNew, sV);
      CopyInto(histNew, sHist);
      sT := sT + fp.dt;
      stream := seq(NODES, i requires 0 <= i < NODES reads vNew => (vNew[i], i == NODES - 1));
      hide KernelStep;
      assert Value() == h';
    }
  }

  method CopyInto(src: array<real>, dst: array<real>)
    requires src.Length == dst.Length && src != dst
    modifies dst
    ensures dst[..] == src[..]
  {
    for i := 0 to src.Length
      invariant forall j :: 0 <= j < i ==> dst[j] == src[j]
    {
      dst[i] := src[i];
    }
  }

  // ---- The kernel computes the reference -------------------------------------

  /** The host wrote the parameters of p, and the fixed grid of the kernel is the grid of p. */
  ghost predicate Matching(tr: Trig, p: SolverParams, fp: FixedParams)
    requires p.Positive()
  {
    && fp.dt == p.dt && Inductor(fp.gLf, fp.betaLf) == p.FilterL() && fp.gCf == p.FilterC()
    && Inductor(fp.gLgrid, fp.betaLgrid) == p.GridL()
    && fp.gOn == p.gOn && fp.gOff == p.gOff && fp.gVs == 1.0 / p.rSrc && fp.vDc == p.vDc
    && 2.0 * tr.pi == TWO_PI && p.fGrid == 50.0 && GridPeak(tr, p) == GRID_PEAK
  }

  /** l and u hold the two triangles of lu. */
  predicate Loaded(l: Matrix, u: Matrix, lu: Matrix)
    requires Square(l, NODES) && Square(u, NODES) && Square(lu, NODES)
  {
    && (forall i, j :: 0 <= j < i < NODES ==> l[i][j] == lu[i][j])
    && (forall i, j :: 0 <= i <= j < NODES ==> u[i][j] == lu[i][j])
  }

  predicate Corresponds(s: State, h: KernelState) {
    s.Valid() && h.Valid() && s.v == h.v && h.hist == s.hLf + s.hCf + s.hLgrid && s.t == h.t
  }

  lemma SameSource(tr: Trig, p: SolverParams, fp: FixedParams, k: nat, t: real)
    requires p.Positive() && Matching(tr, p, fp)
    ensures KernelSource(tr.sin, k, t) == GridSource(tr, p, k, t)
  {
    var a := TWO_PI * 50.0 * t + (k as real) * (-TWO_PI / 3.0);
    var b := 2.0 * tr.pi * p.fGrid * t + (k as real) * (-2.0 * tr.pi / 3.0);
    assert a == b;
  }

  lemma SameInjections(tr: Trig, p: SolverParams, fp: FixedParams, s: State, h: KernelState, gate: bv8, b: Vec)
    requires p.Positive() && Matching(tr, p, fp) && Corresponds(s, h) && |b| == NODES
    requires s.Valid() && h.Valid()
    requires forall k :: 0 <= k < 3 ==> KernelInjected(tr.sin, fp, h.hist, gate, h.t, b, k)
    ensures b == Injection(tr, p, s, gate)
  {
    hide Matching, Corresponds, KernelInjected, VscNetwork.InjectedPhase, Injection;
    forall k | 0 <= k < 3 ensures VscNetwork.InjectedPhase(tr, p, s, gate, b, k) {
      SameInjectionAt(tr, p, fp, s, h, gate, b, k);
    }
    VscNetwork.InjectedPhases(tr, p, s, gate, b);
  }

  lemma SameInjectionAt(tr: Trig, p: SolverParams, fp: FixedParams, s: State, h: KernelState, gate: bv8, b: Vec, k: nat)
    requires p.Positive() && Matching(tr, p, fp) && Corresponds(s, h) && |b| == NODES && k < 3
    requires KernelInjected(tr.sin, fp, h.hist, gate, h.t, b, k)
    ensures VscNetwork.InjectedPhase(tr, p, s, gate, b, k)
  {
    SameSource(tr, p, fp, k, s.t);
    assert h.hist[k] == s.hLf[k] && h.hist[k + 3] == s.hCf[k] && h.hist[k + 6] == s.hLgrid[k];
    assert KernelFeed(fp, gate, k) == Feed(p, gate, k);
    hide KernelSource, GridSource, SourceInjection, KernelFeed, Feed;
  }

  lemma SameVoltages(a: Matrix, lu: Matrix, l: Matrix, u: Matrix, piv: seq<nat>, b: Vec, y: Vec, x: Vec)
    requires LuTheory.IsFactorOf(a, lu, piv, NODES) && (forall t :: 0 <= t < NODES ==> piv[t] == t)
    requires Square(l, NODES) && Square(u, NODES) && Loaded(l, u, lu) && |b| == |y| == |x| == NODES
    requires ForwardSolved(l, Gather(b, piv), y) && BackSolved(u, y, x)
    ensures Solves(a, x, b)
  {
    ReplayIdentity(b, piv, NODES);
    assert Gather(b, piv) == b;
    forall i | 0 <= i < NODES
      ensures y[i] == b[i] - LuTheory.Prefix(lu[i], i, y) && Tail(lu[i], i, x) == y[i]
    {
      SamePrefix(l[i], lu[i], i, y);
      TailSame(u[i], lu[i], i, x, x);
    }
    LuTheory.FactorSolves(a, lu, piv, b, y, x, NODES);
  }

  lemma {:induction false} SamePrefix(r: Vec, q: Vec, m: nat, y: Vec)
    requires |r| == |q| == |y| && m <= |y| && forall t :: 0 <= t < m ==> r[t] == q[t]
    ensures LuTheory.Prefix(r, m, y) == LuTheory.Prefix(q, m, y)
  {
    if m > 0 {
      SamePrefix(r, q, m - 1, y);
    }
  }

  lemma SameHistories(tr: Trig, p: SolverParams, fp: FixedParams, s: State, h: KernelState, gate: bv8, h': KernelState,
                      cur: Vec)
    requires p.Positive() && Matching(tr, p, fp) && Corresponds(s, h) && h'.Valid() && |cur| == NODES
    requires h'.t == h.t + fp.dt
    requires forall k :: 0 <= k < 3 ==> KernelUpdated(fp, h.hist, h'.v, h'.hist, cur, k)
    ensures Corresponds(Updated(p, s, gate, h'.v), h')
  {
    hide BranchCurrent, InductorHistory, CapacitorHistory;
    hide SolverParams.FilterL, SolverParams.GridL, SolverParams.FilterC;
    var s' := Updated(p, s, gate, h'.v);
    forall k | 0 <= k < 3
      ensures s'.hLf[k] == h'.hist[k] && s'.hCf[k] == h'.hist[k + 3] && s'.hLgrid[k] == h'.hist[k + 6]
    {
      assert KernelUpdated(fp, h.hist, h'.v, h'.hist, cur, k);
      assert h.hist[k] == s.hLf[k] && h.hist[k + 3] == s.hCf[k] && h.hist[k + 6] == s.hLgrid[k];
    }
    assert h'.hist == s'.hLf + s'.hCf + s'.hLgrid;
  }

  /** The factors of any complementary gate byte, loaded once, serve every other complementary gate byte. */
  ghost predicate Programmed(tr: Trig, p: SolverParams, fp: FixedParams, l: Matrix, u: Matrix, piv: seq<nat>,
                             lu: Matrix, g0: bv8) {
    && p.Valid() && Matching(tr, p, fp) && Complementary(g0)
    && LuTheory.IsFactorOf(GMatrix(p, g0), lu, piv, NODES) && (forall t :: 0 <= t < NODES ==> piv[t] == t)
    && Square(l, NODES) && Square(u, NODES) && Loaded(l, u, lu)
  }

  /** What the host solver has cached for a complementary gate byte programs the kernel. */
  lemma HostPrograms(net: VscNetwork.Network, fp: FixedParams, l: Matrix, u: Matrix)
    requires net.Valid() && Complementary(net.gateFactored) && net.p.Positive() && Matching(net.tr, net.p, fp)
    requires Square(l, NODES) && Square(u, NODES) && Loaded(l, u, View(net.lu))
    ensures Programmed(net.tr, net.p, fp, l, u, net.piv[..], View(net.lu), net.gateFactored)
  {
    hide Matching, GMatrix, LuTheory.IsFactorOf, SolverParams.Valid, SolverParams.Positive;
  }

  lemma KernelStepIsReference(tr: Trig, p: SolverParams, fp: FixedParams, l: Matrix, u: Matrix, piv: seq<nat>,
                              lu: Matrix, g0: bv8,
                              s: State, h: KernelState, gate: bv8, h': KernelState, b: Vec, y: Vec, cur: Vec)
    requires Programmed(tr, p, fp, l, u, piv, lu, g0) && Complementary(gate) && Corresponds(s, h)
    requires KernelStep(tr.sin, fp, l, u, piv, h, gate, h', b, y, cur)
    ensures Step(tr, p, s, gate, Updated(p, s, gate, h'.v)) && Corresponds(Updated(p, s, gate, h'.v), h')
  {
    assert p.Positive();
    hide KernelInjected, KernelUpdated, ForwardSolved, BackSolved, GMatrix;
    hide Injection, Matching, SolverParams.Valid, SolverParams.Positive, Loaded;
    ComplementaryMatrix(p, g0, gate);
    SameInjections(tr, p, fp, s, h, gate, b);
    SameVoltages(GMatrix(p, g0), lu, l, u, piv, b, y, h'.v);
    SameHistories(tr, p, fp, s, h, gate, h', cur);
  }

  /** A run of the kernel with its intermediate vectors. */
  ghost predicate KernelRun(sin: real -> real, fp: FixedParams, l: Matrix, u: Matrix, piv: seq<nat>,
                            hs: seq<KernelState>, gates: seq<bv8>, bs: seq<Vec>, ys: seq<Vec>, curs: seq<Vec>) {
    && |hs| == |gates| + 1 && |bs| == |ys| == |curs| == |gates|
    && forall n :: 0 <= n < |gates| ==>
        KernelStep(sin, fp, l, u, piv, hs[n], gates[n], hs[n + 1], bs[n], ys[n], curs[n])
  }

  /**
   On every run under complementary gates, the kernel that was programmed once holds the same voltages, histories and
   time as the solver that refactors whenever the gate byte changes.
   */
  lemma {:induction false} KernelRunIsReference(tr: Trig, p: SolverParams, fp: FixedParams, l: Matrix, u: Matrix,
                                                piv: seq<nat>, lu: Matrix, g0: bv8, run: seq<State>,
                                                hs: seq<KernelState>, gates: seq<bv8>, bs: seq<Vec>, ys: seq<Vec>,
                                                curs: seq<Vec>, n: nat)
    requires Programmed(tr, p, fp, l, u, piv, lu, g0) && (forall i :: 0 <= i < |gates| ==> Complementary(gates[i]))
    requires Run(tr, p, run, gates) && KernelRun(tr.sin, fp, l, u, piv, hs, gates, bs, ys, curs)
    requires Corresponds(run[0], hs[0]) && n <= |gates|
    ensures Corresponds(run[n], hs[n])
  {
    if n > 0 {
      assert p.Valid();
      hide Step, KernelStep, SolverParams.Valid, Corresponds, Complementary, Programmed;
      KernelRunIsReference(tr, p, fp, l, u, piv, lu, g0, run, hs, gates, bs, ys, curs, n - 1);
      SameStep(tr, p, fp, l, u, piv, lu, g0, run[n - 1], hs[n - 1], gates[n - 1], run[n], hs[n],
               bs[n - 1], ys[n - 1], curs[n - 1]);
    }
  }

  /** The host solver and a kernel programmed with the factors lu of gate g0, in corresponding states. */
  ghost predicate InStep(net: VscNetwork.Network, s: VscNetwork.VscState, kernel: Kernel, fp: FixedParams, lu: Matrix,
                         g0: bv8)
    reads net, net.g, net.lu, net.piv, s, kernel, kernel.sL, kernel.sU, kernel.sPiv, kernel.sV, kernel.sHist
  {
    && net.Valid() && kernel.Valid() && kernel.sin == net.tr.sin
    && {net.g, net.lu} !! {kernel.sL, kernel.sU} && net.piv != kernel.sPiv
    && Programmed(net.tr, net.p, fp, View(kernel.sL), View(kernel.sU), kernel.sPiv[..], lu, g0)
    && Corresponds(s.Value(), kernel.Value())
  }

  method StepBoth(net: VscNetwork.Network, s: VscNetwork.VscState, kernel: Kernel, fp: FixedParams, gate: bv8,
                  ghost lu: Matrix, ghost g0: bv8)
    requires InStep(net, s, kernel, fp, lu, g0) && Complementary(gate)
    modifies net, net.g, net.lu, net.piv, s, kernel, kernel.sV, kernel.sHist
    ensures InStep(net, s, kernel, fp, lu, g0) && net.p.Positive()
    ensures VscReference.Step(net.tr, net.p, old(s.Value()), gate, s.Value())
  {
    ghost var l, u, piv := View(kernel.sL), View(kernel.sU), kernel.sPiv[..];
    ghost var s0, h0 := s.Value(), kernel.Value();
    assert s0.Valid();
    hide Corresponds, Programmed, VscReference.Step, KernelStep, Complementary, View;
    assert net.p.Positive();
    hide SolverParams.Valid, SolverParams.Positive, LuTheory.IsFactorOf, LuTheory.PivotsUsable, GMatrix;
    var _ := net.Step(s, gate);
    assert kernel.Value() == h0;
    var _, b, y, cur := kernel.SolverTop(gate, fp);
    SameStep(net.tr, net.p, fp, l, u, piv, lu, g0, s0, h0, gate, s.Value(), kernel.Value(), b, y, cur);
  }

  /** The states recorded so far: a run of the reference from rest, and the kernel's states beside it. */
  ghost predicate Recorded(tr: Trig, p: SolverParams, run: seq<State>, trace: seq<KernelState>, gates: seq<bv8>) {
    && p.Positive() && Run(tr, p, run, gates) && run[0].AtRest()
    && |trace| == |run| && forall n :: 0 <= n < |run| ==> Corresponds(run[n], trace[n])
  }

  lemma RecordStart(tr: Trig, p: SolverParams, s: State, h: KernelState)
    requires p.Positive() && s.AtRest() && Corresponds(s, h)
    ensures Recorded(tr, p, [s], [h], [])
  {
  }

  lemma RecordNext(tr: Trig, p: SolverParams, run: seq<State>, trace: seq<KernelState>, gates: seq<bv8>,
                   s: State, h: KernelState, gate: bv8)
    requires Recorded(tr, p, run, trace, gates) && Step(tr, p, run[|gates|], gate, s) && Corresponds(s, h)
    ensures Recorded(tr, p, run + [s], trace + [h], gates + [gate])
  {
    hide Step, Corresponds, State.AtRest, SolverParams.Positive;
    CorrespondsValid(s, h);
    var all, longer := gates + [gate], run + [s];
    forall n | 0 <= n < |all| ensures Step(tr, p, longer[n], all[n], longer[n + 1]) {
      if n < |gates| {
        assert Step(tr, p, run[n], gates[n], run[n + 1]);
      }
    }
  }

  lemma CorrespondsValid(s: State, h: KernelState)
    requires Corresponds(s, h)
    ensures s.Valid()
  {
  }

  /** A host solver at rest, factored for g0, and a kernel programmed from it. */
  method PowerUp(tr: Trig, p: SolverParams, fp: FixedParams, g0: bv8)
    returns (net: VscNetwork.Network, s: VscNetwork.VscState, kernel: Kernel, ghost lu: Matrix)
    requires p.Valid() && p.Positive() && Matching(tr, p, fp) && Complementary(g0)
    ensures fresh(net) && fresh(net.g) && fresh(net.lu) && fresh(net.piv)
    ensures fresh(s) && fresh(kernel) && fresh(kernel.sV) && fresh(kernel.sHist)
    ensures net.tr == tr && net.p == p && InStep(net, s, kernel, fp, lu, g0) && s.Value().AtRest()
  {
    hide Complementary, Matching, SolverParams.Valid, SolverParams.Positive, Programmed, View, Loaded, State.AtRest;
    hide LuTheory.IsFactorOf, LuTheory.PivotsUsable, GMatrix, Corresponds;
    net := new VscNetwork.Network(tr, p);
    net.AssembleAndFactor(g0);
    s := new VscNetwork.VscState();
    kernel := new Kernel(net);
    RestCorresponds(s.Value(), kernel.Value());
    lu := View(net.lu);
    HostPrograms(net, fp, View(kernel.sL), View(kernel.sU));
  }

  /**
   Both solvers side by side from rest: the kernel programmed once for g0, the host refactoring as the gates change.
   The host takes the reference run under the gates, and at every step the kernel holds the same voltages, histories
   and time.
   */
  method CoSimulate(tr: Trig, p: SolverParams, fp: FixedParams, g0: bv8, gates: seq<bv8>)
    returns (s: VscNetwork.VscState, kernel: Kernel, ghost run: seq<State>, ghost trace: seq<KernelState>)
    requires p.Valid() && p.Positive() && Matching(tr, p, fp)
    requires Complementary(g0) && forall i :: 0 <= i < |gates| ==> Complementary(gates[i])
    ensures Run(tr, p, run, gates) && run[0].AtRest() && run[|gates|] == s.Value()
    ensures |trace| == |run| && trace[|gates|] == kernel.Value()
    ensures forall n :: 0 <= n < |run| ==> Corresponds(run[n], trace[n])
    ensures Corresponds(s.Value(), kernel.Value())
  {
    var net;
    ghost var lu;
    hide *;
    net, s, kernel, lu := PowerUp(tr, p, fp, g0);
    run, trace := [s.Value()], [kernel.Value()];
    Linked(net, s, kernel, fp, lu, g0);
    RecordStart(tr, p, s.Value(), kernel.Value());
    for n := 0 to |gates|
      invariant fresh(net) && fresh(net.g) && fresh(net.lu) && fresh(net.piv)
      invariant fresh(s) && fresh(kernel) && fresh(kernel.sV) && fresh(kernel.sHist)
      invariant net.tr == tr && net.p == p && InStep(net, s, kernel, fp, lu, g0)
      invariant |run| == |trace| == n + 1 && run[n] == s.Value() && trace[n] == kernel.Value()
      invariant Recorded(tr, p, run, trace, gates[..n])
    {
      StepBoth(net, s, kernel, fp, gates[n], lu, g0);
      Linked(net, s, kernel, fp, lu, g0);
      RecordNext(tr, p, run, trace, gates[..n], s.Value(), kernel.Value(), gates[n]);
      run, trace := run + [s.Value()], trace + [kernel.Value()];
      assert gates[..n + 1] == gates[..n] + [gates[n]];
    }
    assert gates[..|gates|] == gates;
    Replayed(tr, p, run, trace, gates);
  }

  lemma Replayed(tr: Trig, p: SolverParams, run: seq<State>, trace: seq<KernelState>, gates: seq<bv8>)
    requires Recorded(tr, p, run, trace, gates) && p.Positive()
    ensures Run(tr, p, run, gates) && run[0].AtRest() && |trace| == |run|
    ensures forall n :: 0 <= n < |run| ==> Corresponds(run[n], trace[n])
  {
  }

  lemma Linked(net: VscNetwork.Network, s: VscNetwork.VscState, kernel: Kernel, fp: FixedParams, lu: Matrix, g0: bv8)
    requires InStep(net, s, kernel, fp, lu, g0)
    ensures Corresponds(s.Value(), kernel.Value())
  {
  }

  lemma RestCorresponds(s: State, h: KernelState)
    requires s.AtRest() && s.t == 0.0 && h == KernelState(Zero(NODES), Zero(NODES), 0.0)
    ensures Corresponds(s, h)
  {
    assert s.hLf + s.hCf + s.hLgrid == Zero(NODES);
  }

  lemma SameStep(tr: Trig, p: SolverParams, fp: FixedParams, l: Matrix, u: Matrix, piv: seq<nat>, lu: Matrix, g0: bv8,
                 s: State, h: KernelState, gate: bv8, s': State, h': KernelState, b: Vec, y: Vec, cur: Vec)
    requires Programmed(tr, p, fp, l, u, piv, lu, g0) && Complementary(gate) && Corresponds(s, h)
    requires Step(tr, p, s, gate, s') && KernelStep(tr.sin, fp, l, u, piv, h, gate, h', b, y, cur)
    ensures Corresponds(s', h')
  {
    assert p.Valid();
    hide Step, KernelStep, SolverParams.Valid, Corresponds, Complementary, Programmed;
    KernelStepIsReference(tr, p, fp, l, u, piv, lu, g0, s, h, gate, h', b, y, cur);
    StepDeterministic(tr, p, s, gate, s', Updated(p, s, gate, h'.v));
  }
}
