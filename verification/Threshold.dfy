/** An alarm after k consecutive samples out of band. */
module Threshold {
  import opened MovingAverage

  datatype Band = Band(high: real, low: real) {
    predicate Outside(x: real) {
      x > high || x < low
    }
  }

  /** The number of samples out of band at the end of the history. */
  function Streak(h: seq<real>, band: Band): (n: nat)
    ensures n <= |h|
  {
    if h == [] || !band.Outside(h[|h| - 1]) then 0 else 1 + Streak(h[..|h| - 1], band)
  }

  predicate AllOutside(s: seq<real>, band: Band) {
    forall i :: 0 <= i < |s| ==> band.Outside(s[i])
  }

  /** The last k samples exist and are all out of band; a k below one asks for one sample. */
  predicate Alarmed(h: seq<real>, band: Band, k: int) {
    var n := if k < 1 then 1 else k;
    |h| >= n && AllOutside(Recent(h, n), band)
  }

  lemma StreakAppend(h: seq<real>, x: real, band: Band)
    ensures Streak(h + [x], band) == if band.Outside(x) then Streak(h, band) + 1 else 0
  {
    assert (h + [x])[..|h|] == h;
  }

  /** The streak is at least n exactly when the last n samples are out of band. */
  lemma {:induction false} StreakIff(h: seq<real>, band: Band, n: nat)
    requires n <= |h|
    ensures Streak(h, band) >= n <==> AllOutside(Recent(h, n), band)
    decreases |h|
  {
    if n > 0 {
      var front, last := h[..|h| - 1], h[|h| - 1];
      StreakIff(front, band, n - 1);
      assert Recent(h, n) == Recent(front, n - 1) + [last];
      assert forall i :: 0 <= i < n - 1 ==> Recent(h, n)[i] == Recent(front, n - 1)[i];
      assert Recent(h, n)[n - 1] == last;
    }
  }

  lemma AlarmedIff(h: seq<real>, band: Band, k: int)
    ensures Alarmed(h, band, k) <==> Streak(h, band) >= 1 && Streak(h, band) >= k
  {
    var n := if k < 1 then 1 else k;
    if |h| >= n {
      StreakIff(h, band, n);
    }
  }

  /** The alarm in terms of the samples: each of the last n, n at least one, is above the high or below the low mark. */
  lemma AlarmedSamples(h: seq<real>, band: Band, k: int)
    ensures var n := if k < 1 then 1 else k;
            Alarmed(h, band, k) <==>
              |h| >= n && forall i :: |h| - n <= i < |h| ==> h[i] > band.high || h[i] < band.low
  {
    var n := if k < 1 then 1 else k;
    if |h| >= n {
      var r := Recent(h, n);
      assert forall i :: 0 <= i < n ==> r[i] == h[|h| - n + i];
      if AllOutside(r, band) {
        forall i | |h| - n <= i < |h| ensures h[i] > band.high || h[i] < band.low {
          assert band.Outside(r[i - (|h| - n)]);
        }
      }
    }
  }

  class ThresholdDetector {
    const band: Band
    const k: int
    var consecutive: int
    var alarm: bool
    ghost var history: seq<real>

    ghost predicate Valid()
      reads this
    {
      consecutive == Streak(history, band) && alarm == Alarmed(history, band, k)
    }

    constructor (high: real, low: real, k: int)
      ensures Valid() && band == Band(high, low) && this.k == k && history == []
    {
      this.band := Band(high, low);
      this.k := k;
      consecutive, alarm, history := 0, false, [];
    }

    /** Passes the sample through; the alarm is on exactly when the last k samples were out of band. */
    method Apply(sample: real) returns (r: real)
      requires Valid()
      modifies this
      ensures Valid() && history == old(history) + [sample] && r == sample
      ensures var n := if k < 1 then 1 else k;
              alarm <==>
                |history| >= n
                && forall i :: |history| - n <= i < |history| ==> history[i] > band.high || history[i] < band.low
    {
      StreakAppend(history, sample, band);
      AlarmedIff(history, band, k);
      AlarmedIff(history + [sample], band, k);
      AlarmedSamples(history + [sample], band, k);
      hide Alarmed, Streak;
      if sample > band.high || sample < band.low {
        consecutive := consecutive + 1;
        if consecutive >= k {
          alarm := true;
        }
      } else {
        consecutive := 0;
        alarm := false;
      }
      history := history + [sample];
      r := sample;
    }

    method Reset()
      modifies this
      ensures Valid() && history == []
    {
      consecutive, alarm, history := 0, false, [];
    }
  }
}
