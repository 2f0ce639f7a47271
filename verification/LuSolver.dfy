/** The in-place factorisation and the triangular solves of LuSolver.h, on arrays of any size. */
module LuSolver {
  import opened LinearAlgebra
  import opened LuTheory

  /** The matrix held by a two-dimensional array. */
  ghost function View(a: array2<real>): (m: Matrix)
    reads a
    ensures |m| == a.Length0
    ensures forall i :: 0 <= i < a.Length0 ==> |m[i]| == a.Length1
    ensures forall i, j :: 0 <= i < a.Length0 && 0 <= j < a.Length1 ==> m[i][j] == a[i, j]
  {
    seq(a.Length0, i requires 0 <= i < a.Length0 reads a =>
      seq(a.Length1, j requires 0 <= j < a.Length1 reads a => a[i, j]))
  }

  /** The search for the first largest entry of column k on or below the diagonal. */
  method FindPivot(a: array2<real>, k: nat) returns (p: nat, best: real)
    requires a.Length0 == a.Length1 && k < a.Length0
    ensures k <= p < a.Length0 && best == Abs(View(a)[p][k])
    ensures forall i :: k <= i < a.Length0 ==> Abs(View(a)[i][k]) <= best
    ensures forall i :: k <= i < p ==> Abs(View(a)[i][k]) < best
  {
    p, best := k, 0.0;
    for i := k to a.Length0
      invariant k <= p < a.Length0 && p <= i && best >= 0.0
      invariant p < i ==> best == Abs(a[p, k])
      invariant forall t :: k <= t < i ==> Abs(a[t, k]) <= best
      invariant forall t :: k <= t < p ==> Abs(a[t, k]) < best
      invariant (p == k || best > 0.0) && (i == k ==> best == 0.0) && (i > k ==> p < i)
    {
      var v := if a[i, k] < 0.0 then -a[i, k] else a[i, k];
      if v > best {
        best, p := v, i;
      }
    }
  }

  /** Exchanges rows k and p over all columns. */
  method SwapRows(a: array2<real>, k: nat, p: nat)
    requires a.Length0 == a.Length1 && k < a.Length0 && p < a.Length0
    modifies a
    ensures View(a) == Swap(old(View(a)), k, p)
  {
    for j := 0 to a.Length1
      invariant forall i, c :: 0 <= i < a.Length0 && 0 <= c < a.Length1 ==>
        a[i, c] == if c >= j then old(a[i, c])
                   else if i == k then old(a[p, c])
                   else if i == p then old(a[k, c])
                   else old(a[i, c])
    {
      var tmp := a[k, j];
      a[k, j] := a[p, j];
      a[p, j] := tmp;
    }
    assert forall i :: 0 <= i < a.Length0 ==> View(a)[i] == Swap(old(View(a)), k, p)[i];
  }

  /** Stores the multiplier of row i in column k and subtracts that multiple of row k. */
  method EliminateRow(a: array2<real>, k: nat, i: nat, inv: real)
    requires a.Length0 == a.Length1 && k < i < a.Length0 && a[k, k] != 0.0 && inv == 1.0 / a[k, k]
    modifies a
    ensures View(a) == old(View(a))[i := Eliminated(old(View(a))[i], old(View(a))[k], k)]
  {
    hide View, Eliminated, Subtracted;
    var n := a.Length0;
    a[i, k] := a[i, k] * inv;
    for j := k + 1 to n
      invariant forall r, c :: 0 <= r < n && 0 <= c < n && r != i ==> a[r, c] == old(a[r, c])
      invariant forall c :: 0 <= c < k || j <= c < n ==> a[i, c] == old(a[i, c])
      invariant a[i, k] == old(a[i, k]) * inv
      invariant forall c :: k < c < j ==> a[i, c] == Subtracted(old(a[i, c]), a[i, k], old(a[k, c]))
    {
      a[i, j] := Subtracted(a[i, j], a[i, k], a[k, j]);
    }
    ghost var m := old(View(a));
    EliminatedAt(m[i], m[k], k, inv);
    assert a[i, k] == m[i][k] * inv;
    forall c | 0 <= c < n ensures View(a)[i][c] == Eliminated(m[i], m[k], k)[c] {
      assert View(a)[i][c] == a[i, c] && m[i][c] == old(a[i, c]) && m[k][c] == old(a[k, c]);
      if c > k {
        assert a[i, c] == Subtracted(m[i][c], a[i, k], m[k][c]);
      }
    }
    assert View(a)[i] == Eliminated(m[i], m[k], k);
    assert forall r :: 0 <= r < n && r != i ==> View(a)[r] == m[r];
  }

  /** Reduces every row below row k. */
  method EliminateColumn(a: array2<real>, k: nat)
    requires a.Length0 == a.Length1 && k < a.Length0 && a[k, k] != 0.0
    modifies a
    ensures View(a) == EliminatedRows(old(View(a)), k, a.Length0, a.Length0)
  {
    var n := a.Length0;
    ghost var m := View(a);
    assert EliminatedRows(m, k, k + 1, n) == m;
    var inv := 1.0 / a[k, k];
    for i := k + 1 to n
      invariant View(a) == EliminatedRows(m, k, i, n)
      invariant a[k, k] == m[k][k]
    {
      EliminateRow(a, k, i, inv);
      assert EliminatedRows(m, k, i + 1, n) == EliminatedRows(m, k, i, n)[i := Eliminated(m[i], m[k], k)];
      assert View(a)[k][k] == m[k][k];
    }
  }

  /** One pass of the factorisation loop; false means that column k offers no usable pivot. */
  method FactorStage(ghost a0: Matrix, a: array2<real>, pivot: array<nat>, k: nat) returns (ok: bool)
    requires a.Length0 == a.Length1 == pivot.Length && k < a.Length0
    requires Progress(a0, View(a), pivot[..], k, a.Length0)
    modifies a, pivot
    ensures ok ==> Progress(a0, View(a), pivot[..], k + 1, a.Length0)
    ensures !ok ==> |a0| == a.Length0 && Square(a0, a.Length0)
    ensures !ok ==> NearlySingular(a0, a.Length0) && !Dominant(a0, 0, a.Length0, PIVOT_MIN)
  {
    ghost var n, m, piv := a.Length0, View(a), pivot[..];
    assert Square(a0, n);
    hide *;
    var p, best := FindPivot(a, k);
    if best < PIVOT_MIN {
      ProgressStuck(a0, m, piv, k, n);
      return false;
    }
    ProgressNext(a0, m, piv, k, p, n);
    if p != k {
      SwapRows(a, k, p);
    } else {
      SwapSelf(m, k);
    }
    EliminateColumn(a, k);
    pivot[k] := p;
    assert pivot[..] == piv[k := p];
    return true;
  }

  /**
   lu_factor. On success the array and the pivot list factor the input, so the input is not singular; a refusal
   (the source throws) means that a singular matrix lies within PIVOT_MIN of the input. A matrix whose
   columns are dominated by their diagonal is never refused and no rows are exchanged.
   */
  method LuFactor(a: array2<real>, pivot: array<nat>) returns (ok: bool)
    requires a.Length0 == a.Length1 == pivot.Length
    modifies a, pivot
    ensures ok ==> IsFactorOf(old(View(a)), View(a), pivot[..], a.Length0)
    ensures ok ==> !Singular(old(View(a)), a.Length0)
    ensures !ok ==> NearlySingular(old(View(a)), a.Length0)
    ensures Dominant(old(View(a)), 0, a.Length0, PIVOT_MIN) ==>
              ok && forall t :: 0 <= t < a.Length0 ==> pivot[t] == t
  {
    var n := a.Length0;
    ghost var a0 := View(a);
    ProgressStart(a0, pivot[..], n);
    hide *;
    for k := 0 to n
      invariant Progress(a0, View(a), pivot[..], k, n)
    {
      ok := FactorStage(a0, a, pivot, k);
      if !ok {
        return;
      }
    }
    ProgressDone(a0, View(a), pivot[..], n);
    return true;
  }

  /** The scratch vector of lu_solve after replaying the pivot list on the right-hand side. */
  method ApplyPivots(y: array<real>, pivot: array<nat>)
    requires PivotsInRange(pivot[..], y.Length, y.Length)
    modifies y
    ensures y[..] == Replay(old(y[..]), pivot[..], y.Length)
  {
    for k := 0 to y.Length
      invariant y[..] == Replay(old(y[..]), pivot[..], k)
    {
      var tmp := y[k];
      y[k] := y[pivot[k]];
      y[pivot[k]] := tmp;
    }
  }

  /** The inner loop of the forward substitution, from the right-hand side b. */
  method ForwardRow(lu: array2<real>, y: array<real>, i: nat, b: real) returns (s: real)
    requires lu.Length0 == lu.Length1 == y.Length && i < y.Length
    ensures s == b - Prefix(View(lu)[i], i, y[..])
  {
    s := b;
    ghost var row := View(lu)[i];
    for j := 0 to i
      invariant s == b - Prefix(row, j, y[..])
    {
      assert row[j] == lu[i, j];
      s := s - lu[i, j] * y[j];
    }
  }

  method ForwardSubstitute(lu: array2<real>, y: array<real>)
    requires lu.Length0 == lu.Length1 == y.Length
    modifies y
    ensures forall i :: 0 <= i < y.Length ==> y[i] == old(y[i]) - Prefix(View(lu)[i], i, y[..])
  {
    var n := y.Length;
    ghost var m := View(lu);
    for i := 0 to n
      invariant forall t :: i <= t < n ==> y[t] == old(y[t])
      invariant forall t :: 0 <= t < i ==> y[t] == old(y[t]) - Prefix(m[t], t, y[..])
    {
      var s := ForwardRow(lu, y, i, y[i]);
      ghost var before := y[..];
      y[i] := s;
      forall t | 0 <= t <= i ensures Prefix(m[t], t, y[..]) == Prefix(m[t], t, before) {
        PrefixLocal(m[t], t, y[..], before);
      }
    }
  }

  /** The inner loop of back substitution. */
  method BackRow(lu: array2<real>, y: array<real>, x: array<real>, i: nat) returns (s: real)
    requires lu.Length0 == lu.Length1 == y.Length == x.Length && i < x.Length
    ensures s == y[i] - Tail(View(lu)[i], i + 1, x[..])
  {
    hide View;
    ghost var m := View(lu);
    s := y[i];
    for j := i + 1 to x.Length
      invariant s == y[i] - (Tail(m[i], i + 1, x[..]) - Tail(m[i], j, x[..]))
    {
      s := s - lu[i, j] * x[j];
    }
  }

  method BackSubstitute(lu: array2<real>, y: array<real>, x: array<real>)
    requires lu.Length0 == lu.Length1 == y.Length == x.Length && x != y
    requires PivotsUsable(View(lu), y.Length, y.Length)
    modifies x
    ensures forall i :: 0 <= i < x.Length ==> Tail(View(lu)[i], i, x[..]) == y[i]
  {
    hide View, Tail;
    var n := y.Length;
    ghost var m := View(lu);
    for i := n downto 0
      invariant forall t :: i <= t < n ==> Tail(m[t], t, x[..]) == y[t]
    {
      var s := BackRow(lu, y, x, i);
      ghost var before := x[..];
      assert Abs(m[i][i]) >= PIVOT_MIN;
      x[i] := s / lu[i, i];
      forall t | i < t < n ensures Tail(m[t], t, x[..]) == y[t] {
        TailSame(m[t], m[t], t, x[..], before);
      }
      TailSame(m[i], m[i], i + 1, x[..], before);
      TailStep(m[i], i, x[..]);
      assert m[i][i] * x[i] == s;
    }
  }

  /** lu_solve: x is the one solution of a * x = b for the matrix a that was factored. */
  method LuSolve(ghost a: Matrix, lu: array2<real>, pivot: array<nat>, b: array<real>, x: array<real>)
    requires lu.Length0 == lu.Length1 == b.Length == x.Length && b != x
    requires IsFactorOf(a, View(lu), pivot[..], x.Length)
    modifies x
    ensures Solves(a, x[..], b[..])
    ensures forall z: Vec :: |z| == x.Length && Solves(a, z, b[..]) ==> z == x[..]
  {
    var n := x.Length;
    var y := new real[n];
    for i := 0 to n
      invariant y[..i] == b[..i]
    {
      y[i] := b[i];
    }
    assert y[..] == b[..];
    ApplyPivots(y, pivot);
    ghost var c := y[..];
    ForwardSubstitute(lu, y);
    BackSubstitute(lu, y, x);
    assert Substituted(View(lu), c, y[..], x[..], n);
    FactorSolves(a, View(lu), pivot[..], b[..], y[..], x[..], n);
    FactorNonsingular(a, View(lu), pivot[..], n);
    forall z: Vec | |z| == n && Solves(a, z, b[..]) ensures z == x[..] {
      NonsingularUnique(a, b[..], x[..], z);
    }
  }
}
