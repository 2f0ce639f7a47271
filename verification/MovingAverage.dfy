/** The mean of the last samples, kept as a running sum over a circular buffer. */
module MovingAverage {

  function Sum(s: seq<real>): real {
    if s == [] then 0.0 else Sum(s[..|s| - 1]) + s[|s| - 1]
  }

  function Min(a: nat, b: nat): nat {
    if a < b then a else b
  }

  /** The last n samples, or all of them if there are fewer. */
  function Recent<T>(s: seq<T>, n: nat): (r: seq<T>)
    ensures |r| == Min(|s|, n)
  {
    s[|s| - Min(|s|, n)..]
  }

  /** The arithmetic mean of the last n samples. */
  function Mean(s: seq<real>, n: nat): real
    requires s != [] && n > 0
  {
    Sum(Recent(s, n)) / |Recent(s, n)| as real
  }

  lemma SumAppend(s: seq<real>, x: real)
    ensures Sum(s + [x]) == Sum(s) + x
  {
    assert (s + [x])[..|s|] == s;
  }

  lemma {:induction false} SumHead(s: seq<real>)
    requires s != []
    ensures Sum(s) == s[0] + Sum(s[1..])
    decreases |s|
  {
    if |s| > 1 {
      var front := s[..|s| - 1];
      SumHead(front);
      assert s[1..] == front[1..] + [s[|s| - 1]];
      SumAppend(front[1..], s[|s| - 1]);
    } else {
      assert s[..0] == [] && s[1..] == [];
    }
  }

  /** Sliding the window: the oldest sample leaves if the window was full, the new one enters. */
  lemma SumSlides(h: seq<real>, n: nat, x: real)
    requires n > 0
    ensures Sum(Recent(h + [x], n)) == Sum(Recent(h, n)) + x - if |h| >= n then h[|h| - n] else 0.0
  {
    var r := Recent(h, n);
    if |h| < n {
      assert Recent(h + [x], n) == r + [x];
      SumAppend(r, x);
    } else {
      assert Recent(h + [x], n) == r[1..] + [x];
      SumHead(r);
      SumAppend(r[1..], x);
    }
  }

  lemma {:induction false} SumBounds(s: seq<real>, lo: real, hi: real)
    requires forall i :: 0 <= i < |s| ==> lo <= s[i] <= hi
    ensures (|s| as real) * lo <= Sum(s) <= (|s| as real) * hi
    decreases |s|
  {
    if s != [] {
      var front := s[..|s| - 1];
      SumBounds(front, lo, hi);
      assert |s| as real == |front| as real + 1.0;
      OneMore(|front| as real, lo);
      OneMore(|front| as real, hi);
    }
  }

  lemma OneMore(n: real, x: real)
    ensures (n + 1.0) * x == n * x + x
  {
  }

  lemma Scaled(a: real, b: real, n: real)
    requires a < b && n > 0.0
    ensures n * a < n * b
  {
    assert n * (b - a) > 0.0;
  }

  lemma Quotients(n: real, lo: real, sum: real, hi: real)
    requires n > 0.0 && n * lo <= sum <= n * hi
    ensures lo <= sum / n <= hi
  {
    var q := sum / n;
    assert q * n == sum;
    if q < lo {
      Scaled(q, lo, n);
    }
    if q > hi {
      Scaled(hi, q, n);
    }
  }

  /** The mean lies between any bounds of the samples it is taken over; of equal samples it is their value. */
  lemma MeanBounds(s: seq<real>, n: nat, lo: real, hi: real)
    requires s != [] && n > 0
    requires forall i :: 0 <= i < |s| && |s| - n <= i ==> lo <= s[i] <= hi
    ensures lo <= Mean(s, n) <= hi
  {
    var r := Recent(s, n);
    forall i | 0 <= i < |r| ensures lo <= r[i] <= hi {
      assert r[i] == s[|s| - |r| + i];
    }
    SumBounds(r, lo, hi);
    Quotients(|r| as real, lo, Sum(r), hi);
  }

  // ---- Positions in the circular buffer --------------------------------------

  function Position(i: nat, window: nat): (p: nat)
    requires window > 0
    ensures p < window
  {
    i % window
  }

  lemma {:induction false} AtLeastOnce(d: nat, w: nat)
    requires d > 0
    ensures d * w >= w
    decreases d
  {
    if d > 1 {
      AtLeastOnce(d - 1, w);
      assert d * w == (d - 1) * w + w;
    }
  }

  lemma FartherApart(q: nat, p: nat, w: nat)
    requires q < p
    ensures p * w >= q * w + w
  {
    AtLeastOnce(p - q, w);
    assert p * w == q * w + (p - q) * w;
  }

  lemma Divided(i: nat, w: nat)
    requires w > 0
    ensures i == (i / w) * w + Position(i, w)
  {
  }

  lemma Quotient(i: nat, window: nat, q: nat, r: nat)
    requires window > 0 && r < window && i == q * window + r
    ensures Position(i, window) == r
  {
    Divided(i, window);
    hide Position;
    var p := i / window;
    if q < p {
      FartherApart(q, p, window);
    } else if p < q {
      FartherApart(p, q, window);
    }
  }

  lemma PositionNext(i: nat, window: nat)
    requires window > 0
    ensures Position(i + 1, window) == (Position(i, window) + 1) % window
  {
    var q, r := i / window, i % window;
    assert i == q * window + r;
    if r + 1 < window {
      Quotient(i + 1, window, q, r + 1);
      Quotient(r + 1, window, 0, r + 1);
    } else {
      assert i + 1 == (q + 1) * window + 0;
      Quotient(i + 1, window, q + 1, 0);
      Quotient(window, window, 1, 0);
    }
  }

  /** Within a window all positions differ, and one window apart they coincide. */
  lemma PositionDiffers(i: nat, j: nat, window: nat)
    requires window > 0 && i < j < i + window
    ensures Position(i, window) != Position(j, window)
  {
    var q, r := i / window, i % window;
    assert i == q * window + r;
    var d := j - i;
    if r + d < window {
      Quotient(j, window, q, r + d);
    } else {
      assert j == (q + 1) * window + (r + d - window);
      Quotient(j, window, q + 1, r + d - window);
    }
  }

  lemma PositionRepeats(i: nat, window: nat)
    requires window > 0
    ensures Position(i + window, window) == Position(i, window)
  {
    var q, r := i / window, i % window;
    assert i + window == (q + 1) * window + r;
    Quotient(i + window, window, q + 1, r);
  }

  /** The next position to be written holds the oldest sample of a full window, and no other sample of it. */
  lemma OldestPosition(h: seq<real>, window: nat)
    requires window > 0
    ensures |h| >= window ==> Position(|h| - window, window) == Position(|h|, window)
  {
    hide Position;
    if |h| >= window {
      PositionRepeats(|h| - window, window);
    }
  }

  lemma OtherPositions(n: nat, window: nat)
    requires window > 0
    ensures forall i :: 0 <= i < n && n - window < i ==> Position(i, window) != Position(n, window)
  {
    hide Position;
    forall i | 0 <= i < n && n - window < i ensures Position(i, window) != Position(n, window) {
      PositionDiffers(i, n, window);
    }
  }

  lemma MeanIs(s: seq<real>, n: nat)
    requires s != [] && n > 0
    ensures Mean(s, n) == Sum(Recent(s, n)) / Min(|s|, n) as real
  {
  }

  class MovingAverageFilter {
    const window: nat
    const buf: array<real>
    var head: nat
    var count: nat
    var sum: real
    ghost var history: seq<real>

    /** Every recent sample is at its position, and sum is their sum. */
    ghost predicate Valid()
      reads this, buf
    {
      && window > 0 && buf.Length == window
      && count == Min(|history|, window)
      && head == Position(|history|, window)
      && sum == Sum(Recent(history, window))
      && forall i :: |history| - count <= i < |history| ==> buf[Position(i, window)] == history[i]
    }

    constructor (window: nat)
      requires window > 0
      ensures Valid() && fresh(buf) && this.window == window && history == []
    {
      this.window := window;
      this.buf := new real[window](_ => 0.0);
      head, count, sum, history := 0, 0, 0.0, [];
    }

    /** Returns the mean of the last `window` samples, this one included. */
    method Apply(sample: real) returns (mean: real)
      requires Valid()
      modifies this, buf
      ensures Valid() && history == old(history) + [sample]
      ensures mean == Mean(history, window)
    {
      hide Sum, Recent, Position, Mean;
      ghost var h := history;
      SumSlides(h, window, sample);
      PositionNext(|h|, window);
      OldestPosition(h, window);
      OtherPositions(|h|, window);
      MeanIs(h + [sample], window);
      if count < window {
        count := count + 1;
      } else {
        sum := sum - buf[head];
      }
      buf[head] := sample;
      sum := sum + sample;
      head := (head + 1) % window;
      history := h + [sample];
      mean := sum / count as real;
    }

    method Reset()
      requires Valid()
      modifies this, buf
      ensures Valid() && history == []
    {
      for i := 0 to window
        invariant unchanged(this)
      {
        buf[i] := 0.0;
      }
      head, count, sum, history := 0, 0, 0.0, [];
    }
  }
}
