/** Dense vectors and matrices over exact reals, and what it means for a vector to solve a linear system. */
module LinearAlgebra {

  type Vec = seq<real>
  type Matrix = seq<Vec>

  predicate Square(a: Matrix, n: nat) {
    |a| == n && forall i :: 0 <= i < n ==> |a[i]| == n
  }

  function Abs(x: real): real {
    if x < 0.0 then -x else x
  }

  /** The part of the inner product of r and x that starts at column m. */
  ghost function Tail(r: Vec, m: nat, x: Vec): real
    requires |r| == |x| && m <= |x|
    decreases |x| - m
  {
    if m == |x| then 0.0 else r[m] * x[m] + Tail(r, m + 1, x)
  }

  ghost function Dot(r: Vec, x: Vec): real
    requires |r| == |x|
  {
    Tail(r, 0, x)
  }

  /** x satisfies every equation of a * x = b. */
  ghost predicate Solves(a: Matrix, x: Vec, b: Vec)
    requires Square(a, |x|) && |b| == |x|
  {
    forall i :: 0 <= i < |x| ==> Dot(a[i], x) == b[i]
  }

  /** x is sent to zero by a although it is not zero. */
  ghost predicate Kernel(a: Matrix, x: Vec)
    requires Square(a, |x|)
  {
    && (forall i :: 0 <= i < |x| ==> Dot(a[i], x) == 0.0)
    && exists j :: 0 <= j < |x| && x[j] != 0.0
  }

  ghost predicate Singular(a: Matrix, n: nat)
    requires Square(a, n)
  {
    exists x: Vec :: |x| == n && Kernel(a, x)
  }

  // ---- Tail is linear in the row and in the vector --------------------------

  /** r equals p + c * q from column m on. */
  lemma {:induction false} TailCombine(r: Vec, p: Vec, c: real, q: Vec, m: nat, x: Vec)
    requires |r| == |p| == |q| == |x| && m <= |x|
    requires forall j :: m <= j < |x| ==> r[j] == p[j] + c * q[j]
    ensures Tail(r, m, x) == Tail(p, m, x) + c * Tail(q, m, x)
    decreases |x| - m
  {
    if m < |x| {
      TailCombine(r, p, c, q, m + 1, x);
      var tq := Tail(q, m + 1, x);
      assert (p[m] + c * q[m]) * x[m] == p[m] * x[m] + c * (q[m] * x[m]);
      assert c * (q[m] * x[m] + tq) == c * (q[m] * x[m]) + c * tq;
    }
  }

  lemma {:induction false} TailSame(r: Vec, q: Vec, m: nat, x: Vec, z: Vec)
    requires |r| == |q| == |x| == |z| && m <= |x|
    requires forall j :: m <= j < |x| ==> r[j] == q[j] && x[j] == z[j]
    ensures Tail(r, m, x) == Tail(q, m, z)
    decreases |x| - m
  {
    if m < |x| {
      TailSame(r, q, m + 1, x, z);
    }
  }

  /** Subtracting two arguments subtracts the products. */
  lemma {:induction false} TailSub(r: Vec, x: Vec, z: Vec, d: Vec, m: nat)
    requires |r| == |x| == |z| == |d| && m <= |x|
    requires forall j :: m <= j < |x| ==> d[j] == x[j] - z[j]
    ensures Tail(r, m, d) == Tail(r, m, x) - Tail(r, m, z)
    decreases |x| - m
  {
    if m < |x| {
      TailSub(r, x, z, d, m + 1);
      assert r[m] * (x[m] - z[m]) == r[m] * x[m] - r[m] * z[m];
    }
  }

  lemma {:induction false} TailZero(r: Vec, m: nat, x: Vec)
    requires |r| == |x| && m <= |x|
    requires forall j :: m <= j < |x| ==> r[j] == 0.0 || x[j] == 0.0
    ensures Tail(r, m, x) == 0.0
    decreases |x| - m
  {
    if m < |x| {
      TailZero(r, m + 1, x);
    }
  }

  // ---- Unit vectors read entries back --------------------------------------

  function Unit(n: nat, j: nat): (e: Vec)
    ensures |e| == n
  {
    seq(n, i => if i == j then 1.0 else 0.0)
  }

  lemma {:induction false} TailUnit(r: Vec, m: nat, j: nat)
    requires m <= |r| && j < |r|
    ensures Tail(r, m, Unit(|r|, j)) == if m <= j then r[j] else 0.0
    decreases |r| - m
  {
    if m < |r| {
      TailUnit(r, m + 1, j);
    }
  }

  lemma DotUnit(x: Vec, k: nat)
    requires k < |x|
    ensures Dot(Unit(|x|, k), x) == x[k]
  {
    TailCommutes(Unit(|x|, k), 0, x);
    TailUnit(x, 0, k);
  }

  lemma {:induction false} TailCommutes(r: Vec, m: nat, x: Vec)
    requires |r| == |x| && m <= |x|
    ensures Tail(r, m, x) == Tail(x, m, r)
    decreases |x| - m
  {
    if m < |x| {
      TailCommutes(r, m + 1, x);
    }
  }

  function Three(a: real, x: real, b: real, y: real, c: real, z: real): real {
    a * x + b * y + c * z
  }

  /** Clearing one entry of a row takes its product out of the inner product. */
  lemma DotClear(r: Vec, x: Vec, i: nat, ri: real, xi: real)
    requires i < |r| == |x| && r[i] == ri && x[i] == xi
    ensures Dot(r, x) == Dot(r[i := 0.0], x) + ri * xi
  {
    TailCombine(r, r[i := 0.0], ri, Unit(|x|, i), 0, x);
    DotUnit(x, i);
  }

  /** The inner product with a row that is zero outside three columns. */
  lemma DotSparse(r: Vec, x: Vec, i: nat, j: nat, k: nat)
    requires |r| == |x| && i < |x| && j < |x| && k < |x| && i != j && j != k && i != k
    requires forall t :: 0 <= t < |r| && t != i && t != j && t != k ==> r[t] == 0.0
    ensures Dot(r, x) == Three(r[i], x[i], r[j], x[j], r[k], x[k])
  {
    var r1 := r[i := 0.0];
    var r2 := r1[j := 0.0];
    var r3 := r2[k := 0.0];
    DotClear(r, x, i, r[i], x[i]);
    DotClear(r1, x, j, r[j], x[j]);
    DotClear(r2, x, k, r[k], x[k]);
    TailZero(r3, 0, x);
  }

  // ---- Row exchanges --------------------------------------------------------

  function Swap<T>(s: seq<T>, i: nat, j: nat): (r: seq<T>)
    requires i < |s| && j < |s|
    ensures |r| == |s|
  {
    s[i := s[j]][j := s[i]]
  }

  lemma SwapSelf<T>(s: seq<T>, i: nat)
    requires i < |s|
    ensures Swap(s, i, i) == s
  {
  }

  /** Replays the first k transpositions (0, pivot[0]), (1, pivot[1]), ... on s. */
  function Replay<T>(s: seq<T>, pivot: seq<nat>, k: nat): (r: seq<T>)
    requires k <= |pivot| <= |s|
    requires forall t :: 0 <= t < k ==> t <= pivot[t] < |s|
    ensures |r| == |s|
  {
    if k == 0 then s else Swap(Replay(s, pivot, k - 1), k - 1, pivot[k - 1])
  }

  lemma {:induction false} ReplayKeepsSolutions(a: Matrix, x: Vec, b: Vec, pivot: seq<nat>, k: nat)
    requires Square(a, |x|) && |b| == |x| && k <= |pivot| <= |x|
    requires forall t :: 0 <= t < k ==> t <= pivot[t] < |x|
    ensures Square(Replay(a, pivot, k), |x|)
    ensures Solves(Replay(a, pivot, k), x, Replay(b, pivot, k)) <==> Solves(a, x, b)
  {
    if k > 0 {
      ReplayKeepsSolutions(a, x, b, pivot, k - 1);
      SwapKeepsSolutions(Replay(a, pivot, k - 1), x, Replay(b, pivot, k - 1), k - 1, pivot[k - 1]);
    }
  }

  lemma SwapKeepsSolutions(a: Matrix, x: Vec, b: Vec, i: nat, j: nat)
    requires Square(a, |x|) && |b| == |x| && i < |x| && j < |x|
    ensures Square(Swap(a, i, j), |x|)
    ensures Solves(Swap(a, i, j), x, Swap(b, i, j)) <==> Solves(a, x, b)
  {
    var a', b' := Swap(a, i, j), Swap(b, i, j);
    if Solves(a', x, b') {
      forall t | 0 <= t < |x| ensures Dot(a[t], x) == b[t] {
        assert a[t] == a'[if t == i then j else if t == j then i else t];
      }
    }
  }

  lemma {:induction false} ReplayLocal<T>(s: seq<T>, pivot: seq<nat>, other: seq<nat>, k: nat)
    requires k <= |pivot| <= |s| && |other| == |pivot|
    requires forall t :: 0 <= t < k ==> t <= pivot[t] < |s|
    requires forall t :: 0 <= t < k ==> other[t] == pivot[t]
    ensures Replay(s, other, k) == Replay(s, pivot, k)
  {
    if k > 0 {
      ReplayLocal(s, pivot, other, k - 1);
    }
  }

  lemma {:induction false} ReplayIdentity<T>(s: seq<T>, pivot: seq<nat>, k: nat)
    requires k <= |pivot| <= |s|
    requires forall t :: 0 <= t < k ==> pivot[t] == t
    ensures Replay(s, pivot, k) == s
  {
    if k > 0 {
      ReplayIdentity(s, pivot, k - 1);
    }
  }
}
