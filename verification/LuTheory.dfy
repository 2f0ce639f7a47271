/**
 Why in-place LU factorisation with partial pivoting is correct, for every size n.

 One matrix holds both factors: the strictly lower part of L and all of U. Instead of multiplying the
 factors out, `Stage` says what the half-finished matrix means as a linear map: for every vector x, row i of
 the row-permuted input applied to x is the finished L part of row i applied to U * x, plus what is still
 unreduced in row i.
 */
module LuTheory {
  import opened LinearAlgebra

  /** The magnitude below which lu_factor gives up on a column. */
  const PIVOT_MIN := 0.000000000000001

  // ---- What the array means after k stages ---------------------------------

  /** The first m multipliers of a row applied to U * x. */
  ghost function Lower(row: Vec, u: Matrix, m: nat, x: Vec): real
    requires Square(u, |x|) && |row| == |x| && m <= |x|
  {
    if m == 0 then 0.0 else Lower(row, u, m - 1, x) + row[m - 1] * Tail(u[m - 1], m - 1, x)
  }

  ghost function StageRow(m: Matrix, i: nat, k: nat, x: Vec): real
    requires Square(m, |x|) && i < |x| && k <= |x|
  {
    var c := if i < k then i else k;
    Lower(m[i], m, c, x) + Tail(m[i], c, x)
  }

  ghost predicate Stage(pa: Matrix, m: Matrix, k: nat, n: nat) {
    && k <= n && Square(pa, n) && Square(m, n)
    && forall x: Vec, i | |x| == n && 0 <= i < n :: Dot(pa[i], x) == StageRow(m, i, k, x)
  }

  ghost predicate PivotsInRange(pivot: seq<nat>, k: nat, n: nat) {
    |pivot| == n && k <= n && forall t :: 0 <= t < k ==> t <= pivot[t] < n
  }

  ghost predicate PivotsUsable(m: Matrix, k: nat, n: nat)
    requires Square(m, n) && k <= n
  {
    forall t :: 0 <= t < k ==> Abs(m[t][t]) >= PIVOT_MIN
  }

  /** lu and pivot are a complete factorisation of a. */
  ghost predicate IsFactorOf(a: Matrix, lu: Matrix, pivot: seq<nat>, n: nat) {
    && Square(a, n) && Square(lu, n) && PivotsInRange(pivot, n, n) && PivotsUsable(lu, n, n)
    && Stage(Replay(a, pivot, n), lu, n, n)
  }

  lemma Distribute(a: real, t: real, b: real, c: real)
    requires t == b + c
    ensures a * t == a * b + a * c
  {
  }

  lemma Reassociate(a: real, b: real, c: real)
    ensures (a * b) * c == b * (a * c)
  {
  }

  lemma Scale(a: real, b: real, c: real)
    requires 0.0 <= a && b <= c
    ensures a * b <= a * c
  {
    assert a * (c - b) >= 0.0;
    assert a * (c - b) == a * c - a * b;
  }

  // ---- Each step of a stage keeps the meaning -------------------------------

  lemma {:induction false} LowerLocal(row: Vec, u: Matrix, row': Vec, u': Matrix, m: nat, x: Vec)
    requires Square(u, |x|) && Square(u', |x|) && |row| == |row'| == |x| && m <= |x|
    requires forall t :: 0 <= t < m ==> row[t] == row'[t] && u[t] == u'[t]
    ensures Lower(row, u, m, x) == Lower(row', u', m, x)
  {
    if m > 0 {
      LowerLocal(row, u, row', u', m - 1, x);
    }
  }

  /** At stage 0 the array is the input itself. */
  lemma StageStart(a: Matrix, n: nat)
    requires Square(a, n)
    ensures Stage(a, a, 0, n)
  {
  }

  /** Exchanging whole rows, stored multipliers included, is the same as exchanging the input rows. */
  lemma StageSwap(pa: Matrix, m: Matrix, k: nat, p: nat, n: nat)
    requires Stage(pa, m, k, n) && k <= p < n
    ensures Stage(Swap(pa, k, p), Swap(m, k, p), k, n)
  {
    var pa', m' := Swap(pa, k, p), Swap(m, k, p);
    forall x: Vec, i | |x| == n && 0 <= i < n ensures Dot(pa'[i], x) == StageRow(m', i, k, x) {
      var from := if i == k then p else if i == p then k else i;
      assert Dot(pa[from], x) == StageRow(m, from, k, x);
      LowerLocal(m[from], m, m'[i], m', if i < k then i else k, x);
    }
  }

  /** An entry less f times the entry of the pivot row above it. */
  function Subtracted(a: real, f: real, p: real): real {
    a - f * p
  }

  function Eliminated(row: Vec, pivotRow: Vec, k: nat): (r: Vec)
    requires k < |row| == |pivotRow| && pivotRow[k] != 0.0
    ensures |r| == |row|
  {
    var f := row[k] * (1.0 / pivotRow[k]);
    seq(|row|, j requires 0 <= j < |row| =>
      if j < k then row[j] else if j == k then f else Subtracted(row[j], f, pivotRow[j]))
  }

  lemma EliminatedAt(row: Vec, pivotRow: Vec, k: nat, inv: real)
    requires k < |row| == |pivotRow| && pivotRow[k] != 0.0 && inv == 1.0 / pivotRow[k]
    ensures var r, f := Eliminated(row, pivotRow, k), row[k] * inv;
            && r[k] == f && (forall j :: 0 <= j < k ==> r[j] == row[j])
            && forall j :: k < j < |row| ==> r[j] == Subtracted(row[j], f, pivotRow[j])
  {
  }

  /** Rows k + 1 up to `to` after stage k. */
  function EliminatedRows(m: Matrix, k: nat, to: nat, n: nat): (r: Matrix)
    requires Square(m, n) && k < to <= n && m[k][k] != 0.0
    ensures Square(r, n)
  {
    seq(n, i requires 0 <= i < n => if k < i < to then Eliminated(m[i], m[k], k) else m[i])
  }

  lemma TailStep(r: Vec, k: nat, x: Vec)
    requires k < |r| == |x|
    ensures Tail(r, k, x) == r[k] * x[k] + Tail(r, k + 1, x)
  {
  }

  lemma EliminatedTail(row: Vec, pivotRow: Vec, k: nat, x: Vec)
    requires k < |row| == |pivotRow| == |x| && pivotRow[k] != 0.0
    ensures var r := Eliminated(row, pivotRow, k);
            Tail(row, k, x) == r[k] * Tail(pivotRow, k, x) + Tail(r, k + 1, x)
  {
    var r := Eliminated(row, pivotRow, k);
    EliminatedAt(row, pivotRow, k, 1.0 / pivotRow[k]);
    MultiplierTimesPivot(row[k], pivotRow[k], r[k]);
    ReducedTail(row, pivotRow, r, k, x, r[k]);
  }

  lemma MultiplierTimesPivot(c: real, p: real, f: real)
    requires p != 0.0 && f == c * (1.0 / p)
    ensures f * p == c
  {
    var q := 1.0 / p;
    assert q * p == 1.0;
    assert (c * q) * p == c * (q * p);
  }

  lemma ReducedTail(row: Vec, pivotRow: Vec, r: Vec, k: nat, x: Vec, f: real)
    requires k < |row| == |pivotRow| == |r| == |x| && f * pivotRow[k] == row[k]
    requires forall j :: k < j < |row| ==> r[j] == row[j] - f * pivotRow[j]
    ensures Tail(row, k, x) == f * Tail(pivotRow, k, x) + Tail(r, k + 1, x)
  {
    hide *;
    TailCombine(r, row, -f, pivotRow, k + 1, x);
    TailStep(row, k, x);
    TailStep(pivotRow, k, x);
    EliminationAlgebra(row[k], pivotRow[k], f, x[k], Tail(pivotRow, k + 1, x), Tail(pivotRow, k, x),
                       Tail(row, k + 1, x), Tail(r, k + 1, x));
  }

  lemma EliminationAlgebra(c: real, p: real, f: real, xk: real, tail: real, pivotTail: real, rest: real, reduced: real)
    requires f * p == c && pivotTail == p * xk + tail && reduced == rest + (-f) * tail
    ensures c * xk + rest == f * pivotTail + reduced
  {
    Distribute(f, pivotTail, p * xk, tail);
    assert f * (p * xk) == (f * p) * xk;
  }

  lemma LowerStep(row: Vec, u: Matrix, k: nat, x: Vec)
    requires Square(u, |x|) && |row| == |x| && k < |x|
    ensures Lower(row, u, k + 1, x) == Lower(row, u, k, x) + row[k] * Tail(u[k], k, x)
  {
    var k' := k + 1;
    assert k' - 1 == k;
    assert u[k' - 1] == u[k];
  }

  lemma EliminatedStageRow(m: Matrix, m': Matrix, k: nat, i: nat, x: Vec)
    requires Square(m, |x|) && k < i < |x| && m[k][k] != 0.0 && m' == EliminatedRows(m, k, |x|, |x|)
    ensures StageRow(m', i, k + 1, x) == StageRow(m, i, k, x)
  {
    hide Tail;
    assert m'[k] == m[k] && m'[i] == Eliminated(m[i], m[k], k);
    LowerLocal(m[i], m, m'[i], m', k, x);
    EliminatedTail(m[i], m[k], k, x);
    LowerStep(m'[i], m', k, x);
  }

  lemma StageEliminate(pa: Matrix, m: Matrix, k: nat, n: nat)
    requires Stage(pa, m, k, n) && k < n && m[k][k] != 0.0
    ensures Stage(pa, EliminatedRows(m, k, n, n), k + 1, n)
  {
    var m' := EliminatedRows(m, k, n, n);
    forall x: Vec, i | |x| == n && 0 <= i < n ensures Dot(pa[i], x) == StageRow(m', i, k + 1, x) {
      assert Dot(pa[i], x) == StageRow(m, i, k, x);
      if i <= k {
        LowerLocal(m[i], m, m'[i], m', i, x);
      } else {
        EliminatedStageRow(m, m', k, i, x);
      }
    }
  }

  /** A whole stage: record the pivot, exchange the rows, eliminate below. */
  lemma StageNext(a: Matrix, m: Matrix, piv: seq<nat>, piv': seq<nat>, k: nat, p: nat, n: nat)
    requires Square(a, n) && k < n && k <= p < n && PivotsInRange(piv, k, n) && piv' == piv[k := p]
    requires Stage(Replay(a, piv, k), m, k, n) && PivotsUsable(m, k, n) && Abs(m[p][k]) >= PIVOT_MIN
    ensures var s := Swap(m, k, p);
            && s[k][k] != 0.0
            && PivotsInRange(piv', k + 1, n)
            && Stage(Replay(a, piv', k + 1), EliminatedRows(s, k, n, n), k + 1, n)
            && PivotsUsable(EliminatedRows(s, k, n, n), k + 1, n)
  {
    ReplayLocal(a, piv, piv', k);
    StageSwap(Replay(a, piv, k), m, k, p, n);
    StageEliminate(Replay(a, piv', k + 1), Swap(m, k, p), k, n);
  }

  // ---- A complete factorisation solves, and has one solution ----------------

  /** y is the forward substitution of c, x the back substitution of y. */
  ghost predicate Substituted(lu: Matrix, c: Vec, y: Vec, x: Vec, n: nat)
    requires Square(lu, n) && |c| == |y| == |x| == n
  {
    && (forall i :: 0 <= i < n ==> y[i] == c[i] - Prefix(lu[i], i, y))
    && (forall i :: 0 <= i < n ==> Tail(lu[i], i, x) == y[i])
  }

  ghost function Prefix(r: Vec, m: nat, y: Vec): real
    requires |r| == |y| && m <= |y|
  {
    if m == 0 then 0.0 else Prefix(r, m - 1, y) + r[m - 1] * y[m - 1]
  }

  lemma {:induction false} PrefixLocal(r: Vec, m: nat, y: Vec, z: Vec)
    requires |r| == |y| == |z| && m <= |y|
    requires forall t :: 0 <= t < m ==> y[t] == z[t]
    ensures Prefix(r, m, y) == Prefix(r, m, z)
  {
    if m > 0 {
      PrefixLocal(r, m - 1, y, z);
    }
  }

  lemma {:induction false} LowerIsPrefix(row: Vec, u: Matrix, m: nat, x: Vec, y: Vec)
    requires Square(u, |x|) && |row| == |x| == |y| && m <= |x|
    requires forall t :: 0 <= t < m ==> Tail(u[t], t, x) == y[t]
    ensures Lower(row, u, m, x) == Prefix(row, m, y)
  {
    if m > 0 {
      LowerIsPrefix(row, u, m - 1, x, y);
    }
  }

  lemma FactorSolves(a: Matrix, lu: Matrix, pivot: seq<nat>, b: Vec, y: Vec, x: Vec, n: nat)
    requires IsFactorOf(a, lu, pivot, n) && |b| == |y| == |x| == n
    requires Substituted(lu, Replay(b, pivot, n), y, x, n)
    ensures Solves(a, x, b)
  {
    var pa, pb := Replay(a, pivot, n), Replay(b, pivot, n);
    forall i | 0 <= i < n ensures Dot(pa[i], x) == pb[i] {
      assert Dot(pa[i], x) == StageRow(lu, i, n, x);
      LowerIsPrefix(lu[i], lu, i, x, y);
    }
    ReplayKeepsSolutions(a, x, b, pivot, n);
  }

  lemma {:induction false} KernelTails(pa: Matrix, lu: Matrix, d: Vec, i: nat, n: nat)
    requires Stage(pa, lu, n, n) && |d| == n && i < n
    requires forall t :: 0 <= t < n ==> Dot(pa[t], d) == 0.0
    ensures Tail(lu[i], i, d) == 0.0
    decreases i
  {
    var zero := seq(n, t => 0.0);
    forall t | 0 <= t < i ensures Tail(lu[t], t, d) == zero[t] {
      KernelTails(pa, lu, d, t, n);
    }
    LowerIsPrefix(lu[i], lu, i, d, zero);
    PrefixZero(lu[i], i, zero);
    assert Dot(pa[i], d) == StageRow(lu, i, n, d);
  }

  lemma {:induction false} PrefixZero(r: Vec, m: nat, y: Vec)
    requires |r| == |y| && m <= |y| && forall t :: 0 <= t < m ==> y[t] == 0.0
    ensures Prefix(r, m, y) == 0.0
  {
    if m > 0 {
      PrefixZero(r, m - 1, y);
    }
  }

  lemma {:induction false} KernelIsZero(lu: Matrix, d: Vec, i: nat, n: nat)
    requires Square(lu, n) && PivotsUsable(lu, n, n) && |d| == n && i <= n
    requires forall t :: 0 <= t < n ==> Tail(lu[t], t, d) == 0.0
    ensures forall t :: i <= t < n ==> d[t] == 0.0
    decreases n - i
  {
    if i < n {
      KernelIsZero(lu, d, i + 1, n);
      TailZero(lu[i], i + 1, d);
      assert lu[i][i] * d[i] == 0.0;
      assert Abs(lu[i][i]) >= PIVOT_MIN;
    }
  }

  /** A matrix that lu_factor accepts sends only the zero vector to zero. */
  lemma FactorNonsingular(a: Matrix, lu: Matrix, pivot: seq<nat>, n: nat)
    requires IsFactorOf(a, lu, pivot, n)
    ensures !Singular(a, n)
  {
    forall d: Vec | |d| == n && Kernel(a, d) ensures false {
      var zero: Vec := seq(n, t => 0.0);
      ReplayKeepsSolutions(a, d, zero, pivot, n);
      assert Solves(a, d, zero);
      ReplayConstant(zero, pivot, n);
      forall i | 0 <= i < n ensures Tail(lu[i], i, d) == 0.0 {
        KernelTails(Replay(a, pivot, n), lu, d, i, n);
      }
      KernelIsZero(lu, d, 0, n);
    }
  }

  lemma {:induction false} ReplayConstant(z: Vec, pivot: seq<nat>, k: nat)
    requires k <= |pivot| <= |z| && forall t :: 0 <= t < k ==> t <= pivot[t] < |z|
    requires forall t :: 0 <= t < |z| ==> z[t] == 0.0
    ensures forall t :: 0 <= t < |z| ==> Replay(z, pivot, k)[t] == 0.0
  {
    if k > 0 {
      ReplayConstant(z, pivot, k - 1);
    }
  }

  /** A system whose matrix is not singular has at most one solution. */
  lemma NonsingularUnique(a: Matrix, b: Vec, x: Vec, z: Vec)
    requires Square(a, |b|) && |b| == |x| == |z| && !Singular(a, |b|)
    requires Solves(a, x, b) && Solves(a, z, b)
    ensures x == z
  {
    var d: Vec := seq(|b|, t requires 0 <= t < |b| => x[t] - z[t]);
    forall i | 0 <= i < |b| ensures Dot(a[i], d) == 0.0 {
      TailSub(a[i], x, z, d, 0);
    }
    assert !Kernel(a, d);
    forall j | 0 <= j < |b| ensures x[j] == z[j] {
      assert d[j] == 0.0;
    }
  }

  /** The entries of P * A are the entries of the product L * U. */
  ghost function ProductEntry(lu: Matrix, i: nat, j: nat, t: nat, n: nat): real
    requires Square(lu, n) && i < n && j < n && t <= i
    decreases t
  {
    if t == 0 then (if i <= j then lu[i][j] else 0.0)
    else (if t - 1 <= j then lu[i][t - 1] * lu[t - 1][j] else 0.0) + ProductEntry(lu, i, j, t - 1, n)
  }

  lemma FactorProduct(a: Matrix, lu: Matrix, pivot: seq<nat>, n: nat, i: nat, j: nat)
    requires IsFactorOf(a, lu, pivot, n) && i < n && j < n
    ensures Replay(a, pivot, n)[i][j] == ProductEntry(lu, i, j, i, n)
  {
    var pa, e := Replay(a, pivot, n), Unit(n, j);
    assert Dot(pa[i], e) == StageRow(lu, i, n, e);
    TailUnit(pa[i], 0, j);
    TailUnit(lu[i], i, j);
    ProductEntryIsLower(lu, i, j, i, n);
  }

  lemma {:induction false} ProductEntryIsLower(lu: Matrix, i: nat, j: nat, t: nat, n: nat)
    requires Square(lu, n) && i < n && j < n && t <= i
    ensures ProductEntry(lu, i, j, t, n) == Lower(lu[i], lu, t, Unit(n, j)) + (if i <= j then lu[i][j] else 0.0)
  {
    if t > 0 {
      ProductEntryIsLower(lu, i, j, t - 1, n);
      TailUnit(lu[t - 1], t - 1, j);
    }
  }

  // ---- What a refusal means -------------------------------------------------

  ghost predicate Close(a: Matrix, s: Matrix, n: nat)
    requires Square(a, n) && Square(s, n)
  {
    forall i, j :: 0 <= i < n && 0 <= j < n ==> Abs(a[i][j] - s[i][j]) < PIVOT_MIN
  }

  ghost predicate NearlySingular(a: Matrix, n: nat)
    requires Square(a, n)
  {
    exists s: Matrix :: Square(s, n) && Singular(s, n) && Close(a, s, n)
  }

  /** A vector with a 1 at position k that the first k rows of U send to zero. */
  ghost function BackFill(m: Matrix, k: nat, i: nat, n: nat): (x: Vec)
    requires Square(m, n) && i <= k < n && PivotsUsable(m, k, n)
    ensures |x| == n && x[k] == 1.0 && forall j :: k < j < n ==> x[j] == 0.0
    decreases k - i
  {
    if i == k then Unit(n, k)
    else
      var z := BackFill(m, k, i + 1, n);
      assert Abs(m[i][i]) >= PIVOT_MIN;
      z[i := -Tail(m[i], i + 1, z) / m[i][i]]
  }

  lemma {:induction false} BackFillTails(m: Matrix, k: nat, i: nat, n: nat)
    requires Square(m, n) && i <= k < n && PivotsUsable(m, k, n)
    ensures forall t :: i <= t < k ==> Tail(m[t], t, BackFill(m, k, i, n)) == 0.0
    decreases k - i
  {
    if i < k {
      BackFillTails(m, k, i + 1, n);
      var z, x := BackFill(m, k, i + 1, n), BackFill(m, k, i, n);
      assert Abs(m[i][i]) >= PIVOT_MIN;
      forall t | i <= t < k ensures Tail(m[t], t, x) == 0.0 {
        if t == i {
          TailSame(m[i], m[i], i + 1, x, z);
          assert m[i][i] * x[i] == -Tail(m[i], i + 1, z);
        } else {
          TailSame(m[t], m[t], t, x, z);
        }
      }
    }
  }

  lemma {:induction false} ReplayHasEveryRow<T>(s: seq<T>, pivot: seq<nat>, k: nat, i: nat) returns (j: nat)
    requires k <= |pivot| <= |s| && i < |s|
    requires forall t :: 0 <= t < k ==> t <= pivot[t] < |s|
    ensures j < |s| && Replay(s, pivot, k)[j] == s[i]
  {
    if k == 0 {
      j := i;
    } else {
      var j' := ReplayHasEveryRow(s, pivot, k - 1, i);
      var p := pivot[k - 1];
      j := if j' == k - 1 then p else if j' == p then k - 1 else j';
    }
  }

  lemma SmallColumnRows(pa: Matrix, m: Matrix, k: nat, i: nat, n: nat)
    requires Stage(pa, m, k, n) && k < n && i < n && PivotsUsable(m, k, n)
    requires forall t :: k <= t < n ==> Abs(m[t][k]) < PIVOT_MIN
    ensures Abs(Dot(pa[i], BackFill(m, k, 0, n))) < PIVOT_MIN
  {
    var x := BackFill(m, k, 0, n);
    BackFillTails(m, k, 0, n);
    var c := if i < k then i else k;
    var zero: Vec := seq(n, t => 0.0);
    LowerIsPrefix(m[i], m, c, x, zero);
    PrefixZero(m[i], c, zero);
    assert Dot(pa[i], x) == StageRow(m, i, k, x);
    if i >= k {
      TailZero(m[i], k + 1, x);
    }
  }

  /** When a column offers no usable pivot, a singular matrix lies within PIVOT_MIN of the input, entry by entry. */
  lemma NoPivotNearlySingular(a: Matrix, m: Matrix, pivot: seq<nat>, k: nat, n: nat)
    requires Square(a, n) && PivotsInRange(pivot, k, n) && k < n
    requires Stage(Replay(a, pivot, k), m, k, n) && PivotsUsable(m, k, n)
    requires forall t :: k <= t < n ==> Abs(m[t][k]) < PIVOT_MIN
    ensures NearlySingular(a, n)
  {
    var x := BackFill(m, k, 0, n);
    var s: Matrix := seq(n, i requires 0 <= i < n => a[i][k := a[i][k] - Dot(a[i], x)]);
    forall i | 0 <= i < n ensures Abs(Dot(a[i], x)) < PIVOT_MIN && Dot(s[i], x) == 0.0 {
      var j := ReplayHasEveryRow(a, pivot, k, i);
      SmallColumnRows(Replay(a, pivot, k), m, k, j, n);
      TailCombine(s[i], a[i], -Dot(a[i], x), Unit(n, k), 0, x);
      DotUnit(x, k);
    }
    assert Kernel(s, x);
    assert Singular(s, n) && Close(a, s, n);
  }

  // ---- Column dominance survives every stage --------------------------------

  /** Sum of the magnitudes of column j over rows lo up to hi, row `skip` left out. */
  ghost function ColumnSum(m: Matrix, j: nat, lo: nat, hi: nat, skip: nat): (s: real)
    requires hi <= |m| && lo <= hi && forall i :: 0 <= i < |m| ==> j < |m[i]|
    ensures s >= 0.0
    decreases hi - lo
  {
    if lo == hi then 0.0
    else (if lo == skip then 0.0 else Abs(m[lo][j])) + ColumnSum(m, j, lo + 1, hi, skip)
  }

  /** From stage k on, each diagonal entry exceeds the rest of its column by at least gap. */
  ghost predicate Dominant(m: Matrix, k: nat, n: nat, gap: real)
    requires Square(m, n) && k <= n
  {
    forall j :: k <= j < n ==> Abs(m[j][j]) >= gap + ColumnSum(m, j, k, n, j)
  }

  lemma {:induction false} ColumnSumBounds(m: Matrix, j: nat, lo: nat, hi: nat, skip: nat, i: nat)
    requires hi <= |m| && lo <= i < hi && i != skip && forall i :: 0 <= i < |m| ==> j < |m[i]|
    ensures Abs(m[i][j]) <= ColumnSum(m, j, lo, hi, skip)
    decreases hi - lo
  {
    if lo < i {
      ColumnSumBounds(m, j, lo + 1, hi, skip, i);
    }
  }

  lemma {:induction false} ColumnSumSame(m: Matrix, j: nat, lo: nat, hi: nat, s: nat, s': nat)
    requires hi <= |m| && lo <= hi && forall i :: 0 <= i < |m| ==> j < |m[i]|
    requires (s < lo || hi <= s) && (s' < lo || hi <= s')
    ensures ColumnSum(m, j, lo, hi, s) == ColumnSum(m, j, lo, hi, s')
    decreases hi - lo
  {
    if lo < hi {
      ColumnSumSame(m, j, lo + 1, hi, s, s');
    }
  }

  /** A column that is zero outside the diagonal and two more rows. */
  lemma {:induction false} ColumnSumSparse(m: Matrix, j: nat, lo: nat, hi: nat, skip: nat, p: nat, q: nat)
    requires hi <= |m| && lo <= hi && p < q < hi && skip != p && skip != q && forall i :: 0 <= i < |m| ==> j < |m[i]|
    requires forall i :: lo <= i < hi && i != skip && i != p && i != q ==> m[i][j] == 0.0
    ensures ColumnSum(m, j, lo, hi, skip) ==
            (if lo <= p then Abs(m[p][j]) else 0.0) + (if lo <= q then Abs(m[q][j]) else 0.0)
    decreases hi - lo
  {
    if lo < hi {
      ColumnSumSparse(m, j, lo + 1, hi, skip, p, q);
    }
  }

  lemma AbsProduct(a: real, b: real, ab: real)
    requires ab == a * b
    ensures Abs(ab) == Abs(a) * Abs(b)
  {
  }

  lemma ProductChain(d: real, e: real, r: real, c: real, i: real, w: real)
    requires d == e * r && e == c * i && w == i * r
    ensures d == w * c
  {
  }

  lemma TriangleBounds(a: real, d: real)
    ensures Abs(a) - Abs(d) <= Abs(a - d) <= Abs(a) + Abs(d)
  {
  }

  /** What elimination subtracts from an entry has magnitude w * |c|. */
  lemma ShiftSize(c: real, inv: real, r: real, w: real, d: real)
    requires w == Abs(inv) * Abs(r) && d == (c * inv) * r
    ensures Abs(d) == w * Abs(c)
  {
    var e := c * inv;
    AbsProduct(e, r, d);
    AbsProduct(c, inv, e);
    ProductChain(Abs(d), Abs(e), Abs(r), Abs(c), Abs(inv), w);
  }

  /** Sum of z over lo up to hi, position `skip` left out. */
  ghost function SumBut(z: Vec, lo: nat, hi: nat, skip: nat): real
    requires lo <= hi <= |z|
    decreases hi - lo
  {
    if lo == hi then 0.0 else (if lo == skip then 0.0 else z[lo]) + SumBut(z, lo + 1, hi, skip)
  }

  /** An entrywise bound on a column carries over to its sum. */
  lemma {:induction false} ColumnSumGrowth(m': Matrix, m: Matrix, z: Vec, j: nat, lo: nat, hi: nat, skip: nat)
    requires Square(m, |m|) && Square(m', |m|) && |z| == |m| && j < |m| && lo <= hi <= |m|
    requires forall i :: lo <= i < hi ==> Abs(m'[i][j]) <= Abs(m[i][j]) + z[i]
    ensures ColumnSum(m', j, lo, hi, skip) <= ColumnSum(m, j, lo, hi, skip) + SumBut(z, lo, hi, skip)
    decreases hi - lo
  {
    if lo < hi {
      ColumnSumGrowth(m', m, z, j, lo + 1, hi, skip);
    }
  }

  ghost function AbsColumn(m: Matrix, k: nat): (z: Vec)
    requires Square(m, |m|) && k < |m|
    ensures |z| == |m|
  {
    seq(|m|, i requires 0 <= i < |m| => Abs(m[i][k]))
  }

  lemma {:induction false} AbsColumnSum(m: Matrix, k: nat, lo: nat, hi: nat, skip: nat)
    requires Square(m, |m|) && k < |m| && lo <= hi <= |m|
    ensures SumBut(AbsColumn(m, k), lo, hi, skip) == ColumnSum(m, k, lo, hi, skip)
    decreases hi - lo
  {
    if lo < hi {
      AbsColumnSum(m, k, lo + 1, hi, skip);
    }
  }

  ghost function Times(w: real, c: Vec): (z: Vec)
    ensures |z| == |c|
  {
    seq(|c|, i requires 0 <= i < |c| => w * c[i])
  }

  lemma {:induction false} TimesSum(w: real, c: Vec, lo: nat, hi: nat, skip: nat)
    requires lo <= hi <= |c|
    ensures SumBut(Times(w, c), lo, hi, skip) == w * SumBut(c, lo, hi, skip)
    decreases hi - lo
  {
    if lo < hi {
      TimesSum(w, c, lo + 1, hi, skip);
      Distribute(w, SumBut(c, lo, hi, skip), if lo == skip then 0.0 else c[lo], SumBut(c, lo + 1, hi, skip));
    }
  }

  lemma ScaledColumn(q: real, p: real, r: real, w: real, total: real)
    requires q >= 0.0 && q * p == 1.0 && w == q * r && 0.0 <= total <= p && 0.0 <= r
    ensures w * total <= r
  {
    Scale(q, total, p);
    Scale(r, q * total, 1.0);
    Reassociate(q, r, total);
  }

  lemma InverseAbs(p: real)
    requires p != 0.0
    ensures Abs(1.0 / p) * Abs(p) == 1.0
  {
    AbsProduct(1.0 / p, p, 1.0);
  }

  /** The Schur complement of a dominant matrix is dominant with the same gap. */
  lemma SchurKeepsGap(m: Matrix, k: nat, n: nat, gap: real)
    requires Square(m, n) && k < n && gap > 0.0 && Dominant(m, k, n, gap)
    ensures m[k][k] != 0.0 && Dominant(EliminatedRows(m, k, n, n), k + 1, n, gap)
  {
    assert Abs(m[k][k]) >= gap + ColumnSum(m, k, k, n, k);
    ColumnSumSame(m, k, k + 1, n, k, n);
    var m' := EliminatedRows(m, k, n, n);
    forall j | k + 1 <= j < n ensures Abs(m'[j][j]) >= gap + ColumnSum(m', j, k + 1, n, j) {
      SchurColumn(m, m', k, n, gap, j);
    }
  }

  lemma SchurColumn(m: Matrix, m': Matrix, k: nat, n: nat, gap: real, j: nat)
    requires Square(m, n) && k < j < n && m[k][k] != 0.0 && m' == EliminatedRows(m, k, n, n)
    requires ColumnSum(m, k, k + 1, n, n) <= Abs(m[k][k])
    requires Abs(m[j][j]) >= gap + ColumnSum(m, j, k, n, j)
    ensures Abs(m'[j][j]) >= gap + ColumnSum(m', j, k + 1, n, j)
  {
    var z := Shift(m, m', k, n, j);
    ColumnSumGrowth(m', m, z, j, k + 1, n, j);
    SumButSplit(z, k + 1, n, j);
  }

  lemma {:induction false} SumButSplit(z: Vec, lo: nat, hi: nat, skip: nat)
    requires lo <= skip < hi <= |z|
    ensures SumBut(z, lo, hi, hi) == z[skip] + SumBut(z, lo, hi, skip)
    decreases hi - lo
  {
    if lo < skip {
      SumButSplit(z, lo + 1, hi, skip);
    } else {
      SumButSame(z, lo + 1, hi, skip);
    }
  }

  lemma {:induction false} SumButSame(z: Vec, lo: nat, hi: nat, skip: nat)
    requires skip < lo <= hi <= |z|
    ensures SumBut(z, lo, hi, hi) == SumBut(z, lo, hi, skip)
    decreases hi - lo
  {
    if lo < hi {
      SumButSame(z, lo + 1, hi, skip);
    }
  }

  /** Elimination moves entry i of column j by w times entry i of column k. */
  lemma ShiftBounds(m: Matrix, m': Matrix, k: nat, n: nat, j: nat, i: nat, w: real)
    requires Square(m, n) && k < j < n && k < i < n && m[k][k] != 0.0 && m' == EliminatedRows(m, k, n, n)
    requires w == Abs(1.0 / m[k][k]) * Abs(m[k][j])
    ensures var e := Times(w, AbsColumn(m, k))[i];
            Abs(m[i][j]) - e <= Abs(m'[i][j]) <= Abs(m[i][j]) + e
  {
    hide Abs;
    assert m'[i] == Eliminated(m[i], m[k], k);
    EntryShift(m[i][j], m'[i][j], m[i][k], 1.0 / m[k][k], m[k][j], w, Times(w, AbsColumn(m, k))[i]);
  }

  lemma EntryShift(a: real, a': real, c: real, inv: real, r: real, w: real, e: real)
    requires w == Abs(inv) * Abs(r) && a' == a - (c * inv) * r && e == w * Abs(c)
    ensures Abs(a) - e <= Abs(a') <= Abs(a) + e
  {
    var d := a - a';
    ShiftSize(c, inv, r, w, d);
    TriangleBounds(a, d);
  }

  lemma ScaledTotal(q: real, p: real, r: real, w: real, c: Vec, lo: nat, hi: nat)
    requires q >= 0.0 && q * p == 1.0 && r >= 0.0 && w == q * r && lo <= hi <= |c|
    requires 0.0 <= SumBut(c, lo, hi, hi) <= p
    ensures SumBut(Times(w, c), lo, hi, hi) <= r
  {
    TimesSum(w, c, lo, hi, hi);
    ScaledColumn(q, p, r, w, SumBut(c, lo, hi, hi));
  }

  /** Together the shifts are no more than the entry that leaves the column. */
  lemma ShiftTotal(m: Matrix, k: nat, n: nat, q: real, p: real, r: real, w: real)
    requires Square(m, n) && k < n && ColumnSum(m, k, k + 1, n, n) <= p
    requires q >= 0.0 && q * p == 1.0 && r >= 0.0 && w == q * r
    ensures SumBut(Times(w, AbsColumn(m, k)), k + 1, n, n) <= r
  {
    AbsColumnSum(m, k, k + 1, n, n);
    ScaledTotal(q, p, r, w, AbsColumn(m, k), k + 1, n);
  }

  /** How far elimination moves each entry of column j. */
  lemma Shift(m: Matrix, m': Matrix, k: nat, n: nat, j: nat) returns (z: Vec)
    requires Square(m, n) && k < j < n && m[k][k] != 0.0 && m' == EliminatedRows(m, k, n, n)
    requires ColumnSum(m, k, k + 1, n, n) <= Abs(m[k][k])
    ensures |z| == n && SumBut(z, k + 1, n, n) <= Abs(m[k][j])
    ensures forall i :: k < i < n ==> Abs(m[i][j]) - z[i] <= Abs(m'[i][j]) <= Abs(m[i][j]) + z[i]
  {
    var w := Abs(1.0 / m[k][k]) * Abs(m[k][j]);
    z := Times(w, AbsColumn(m, k));
    InverseAbs(m[k][k]);
    ShiftTotal(m, k, n, Abs(1.0 / m[k][k]), Abs(m[k][k]), Abs(m[k][j]), w);
    forall i | k < i < n ensures Abs(m[i][j]) - z[i] <= Abs(m'[i][j]) <= Abs(m[i][j]) + z[i] {
      ShiftBounds(m, m', k, n, j, i, w);
    }
  }

  /** In a dominant column the diagonal entry is the strict maximum. */
  lemma DominantColumn(m: Matrix, k: nat, n: nat, gap: real)
    requires Square(m, n) && k < n && gap > 0.0 && Dominant(m, k, n, gap)
    ensures Abs(m[k][k]) >= gap
    ensures forall i :: k < i < n ==> Abs(m[i][k]) < Abs(m[k][k])
  {
    assert Abs(m[k][k]) >= gap + ColumnSum(m, k, k, n, k);
    forall i | k < i < n ensures Abs(m[i][k]) < Abs(m[k][k]) {
      ColumnSumBounds(m, k, k, n, k, i);
    }
  }

  // ---- The invariant of the factorisation loop ------------------------------

  /** What lu_factor has achieved after k stages on input a. */
  ghost predicate Progress(a: Matrix, m: Matrix, piv: seq<nat>, k: nat, n: nat) {
    && Square(a, n) && Square(m, n) && PivotsInRange(piv, k, n)
    && Stage(Replay(a, piv, k), m, k, n) && PivotsUsable(m, k, n)
    && (Dominant(a, 0, n, PIVOT_MIN) ==> Dominant(m, k, n, PIVOT_MIN) && forall t :: 0 <= t < k ==> piv[t] == t)
  }

  lemma ProgressStart(a: Matrix, piv: seq<nat>, n: nat)
    requires Square(a, n) && |piv| == n
    ensures Progress(a, a, piv, 0, n)
  {
    StageStart(a, n);
  }

  lemma ProgressNext(a: Matrix, m: Matrix, piv: seq<nat>, k: nat, p: nat, n: nat)
    requires Progress(a, m, piv, k, n) && k <= p < n && Abs(m[p][k]) >= PIVOT_MIN
    requires forall i :: k <= i < n ==> Abs(m[i][k]) <= Abs(m[p][k])
    ensures var s := Swap(m, k, p);
            s[k][k] != 0.0 && Progress(a, EliminatedRows(s, k, n, n), piv[k := p], k + 1, n)
  {
    StageNext(a, m, piv, piv[k := p], k, p, n);
    if Dominant(a, 0, n, PIVOT_MIN) {
      DominantColumn(m, k, n, PIVOT_MIN);
      assert Swap(m, k, p) == m;
      SchurKeepsGap(m, k, n, PIVOT_MIN);
    }
  }

  /** A column without a usable pivot: the input is nearly singular, and so not dominant. */
  lemma ProgressStuck(a: Matrix, m: Matrix, piv: seq<nat>, k: nat, n: nat)
    requires Progress(a, m, piv, k, n) && k < n && forall i :: k <= i < n ==> Abs(m[i][k]) < PIVOT_MIN
    ensures NearlySingular(a, n) && !Dominant(a, 0, n, PIVOT_MIN)
  {
    NoPivotNearlySingular(a, m, piv, k, n);
    if Dominant(a, 0, n, PIVOT_MIN) {
      DominantColumn(m, k, n, PIVOT_MIN);
    }
  }

  lemma ProgressDone(a: Matrix, m: Matrix, piv: seq<nat>, n: nat)
    requires Progress(a, m, piv, n, n)
    ensures IsFactorOf(a, m, piv, n) && !Singular(a, n)
    ensures Dominant(a, 0, n, PIVOT_MIN) ==> forall t :: 0 <= t < n ==> piv[t] == t
  {
    FactorNonsingular(a, m, piv, n);
  }

  lemma OneEntryDot(c: real, x: real)
    ensures Dot([c], [x]) == c * x
  {
    TailStep([c], 0, [x]);
    assert Tail([c], 1, [x]) == 0.0;
  }

  lemma NoProduct(c: real, x: real)
    requires c * x == 0.0 && x != 0.0
    ensures c == 0.0
  {
  }

  lemma OneEntryKernel(s: Matrix)
    requires Square(s, 1) && Singular(s, 1)
    ensures s[0][0] == 0.0
  {
    var x: Vec :| |x| == 1 && Kernel(s, x);
    assert s[0] == [s[0][0]] && x == [x[0]];
    OneEntryDot(s[0][0], x[0]);
    NoProduct(s[0][0], x[0]);
  }

  lemma OneEntrySingular(s: Matrix)
    requires s == [[0.0]]
    ensures Singular(s, 1)
  {
    OneEntryDot(0.0, 1.0);
    var x: Vec := [1.0];
    assert x[0] != 0.0;
    assert Kernel(s, x);
  }

  lemma SmallEntry(x: real)
    ensures NearlySingular([[x]], 1) <==> -0.000000000000001 < x < 0.000000000000001
  {
    hide Singular;
    var a: Matrix := [[x]];
    if NearlySingular(a, 1) {
      var s: Matrix :| Square(s, 1) && Singular(s, 1) && Close(a, s, 1);
      OneEntryKernel(s);
      assert Abs(a[0][0] - s[0][0]) < PIVOT_MIN;
    }
    if -0.000000000000001 < x < 0.000000000000001 {
      var s: Matrix := [[0.0]];
      OneEntrySingular(s);
      assert Close(a, s, 1);
    }
  }

  /** A matrix of one entry is refused exactly when the entry is below 1e-15 in size. */
  lemma OneByOne(x: real, lu: Matrix, pivot: seq<nat>)
    ensures NearlySingular([[x]], 1) <==> -0.000000000000001 < x < 0.000000000000001
    ensures IsFactorOf([[x]], lu, pivot, 1) ==> !(-0.000000000000001 < x < 0.000000000000001)
  {
    var a: Matrix := [[x]];
    hide NearlySingular;
    SmallEntry(x);
    if IsFactorOf(a, lu, pivot, 1) {
      FactorProduct(a, lu, pivot, 1, 0, 0);
      assert Replay(a, pivot, 1) == a;
    }
  }
}
