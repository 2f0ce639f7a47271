/** One sensor's processing: the filter and the detector fed with every frame. */
module Processing {
  import opened MovingAverage
  import opened Threshold

  datatype TelemetryFrame = TelemetryFrame(sensor: string, value: real, stamp: int)

  datatype Metric = Metric(sensor: string, filtered: real, alarm: bool)

  datatype Settings = Settings(window: nat, band: Band, k: int)

  function Values(frames: seq<TelemetryFrame>): (v: seq<real>)
    ensures |v| == |frames|
  {
    seq(|frames|, i requires 0 <= i < |frames| => frames[i].value)
  }

  /** What a non-empty list of frames amounts to: the last sensor, the mean of the last raw samples, the alarm. */
  function MetricOf(frames: seq<TelemetryFrame>, p: Settings): Metric
    requires frames != [] && p.window > 0
  {
    Metric(frames[|frames| - 1].sensor, Mean(Values(frames), p.window), Alarmed(Values(frames), p.band, p.k))
  }

  class DataProcessor {
    const filter: MovingAverageFilter
    const detector: ThresholdDetector
    ghost var frames: seq<TelemetryFrame>

    ghost function Settled(): Settings {
      Settings(filter.window, detector.band, detector.k)
    }

    ghost predicate Valid()
      reads this, filter, filter.buf, detector
    {
      && filter.Valid() && detector.Valid()
      && filter.history == Values(frames) && detector.history == Values(frames)
    }

    constructor (window: nat, high: real, low: real, k: int)
      requires window > 0
      ensures Valid() && fresh(filter) && fresh(filter.buf) && fresh(detector)
      ensures Settled() == Settings(window, Band(high, low), k) && frames == []
    {
      hide Mean, Alarmed, Sum, Recent, Streak, Position;
      filter := new MovingAverageFilter(window);
      detector := new ThresholdDetector(high, low, k);
      frames := [];
    }

    method Process(frame: TelemetryFrame) returns (m: Metric)
      requires Valid()
      modifies this, filter, filter.buf, detector
      ensures Valid() && frames == old(frames) + [frame]
      ensures m == MetricOf(frames, Settled())
    {
      assert Values(frames + [frame]) == Values(frames) + [frame.value];
      hide Mean, Alarmed, Values, Sum, Recent, Streak, Position;
      var filtered := filter.Apply(frame.value);
      var _ := detector.Apply(frame.value);
      frames := frames + [frame];
      m := Metric(frame.sensor, filtered, detector.alarm);
    }

    method Reset()
      requires Valid()
      modifies this, filter, filter.buf, detector
      ensures Valid() && frames == []
    {
      filter.Reset();
      detector.Reset();
      frames := [];
    }
  }
}
