/**
 The whole daemon: a producer thread, the ring, the drain loop with its processor, and the state machine that other
 threads start, halt and shut down meanwhile.
 */
module Pipeline {
  import R = Ring
  import M = StateManager
  import opened MovingAverage
  import opened Threshold
  import opened Processing

  type Frame = TelemetryFrame

  /** The settings and the alarm threshold of the daemon's main loop. */
  const SETTINGS := Settings(10, Band(80.0, 20.0), 3)
  const THRESHOLD := 80.0

  /** Where the drain loop is. */
  datatype Loop = Draining | Popped(frame: Frame) | Faulting(id: nat)

  /** `fed` are the frames the processor has seen, `called` the alarms the loop has called fault with. */
  datatype State = State(ring: R.State<Frame>, fsm: M.State, loop: Loop, fed: seq<Frame>, called: seq<M.Alarm>)

  datatype Step =
    | Produce(push: R.Step<Frame>)
    | Consume(pop: R.Step<Frame>)
    | Process(id: nat, known: nat)
    | Resume
    | Control(move: M.Step)

  function Start(): State {
    State(R.Start(), M.Start(), Draining, [], [])
  }

  predicate Enabled(s: State, a: Step) {
    match a
    case Produce(r) => R.PushStep(r) && R.Enabled(s.ring, r)
    case Consume(r) => s.loop.Draining? && R.PopStep(r) && R.Enabled(s.ring, r)
    case Process(id, known) => s.loop.Popped? && id !in s.fsm.calls && known <= |s.fsm.history|
    case Resume => s.loop.Faulting? && s.loop.id in s.fsm.calls && s.fsm.calls[s.loop.id].Returned?
    case Control(m) => M.Enabled(s.fsm, m) && (m.Invoke? ==> !m.op.CallFault?)
  }

  function AlarmOf(frames: seq<Frame>, p: Settings): M.Alarm
    requires frames != [] && p.window > 0
  {
    var m := MetricOf(frames, p);
    M.Alarm(m.sensor, m.filtered, THRESHOLD)
  }

  function Next(p: Settings, s: State, a: Step): State
    requires p.window > 0 && Enabled(s, a)
  {
    match a
    case Produce(r) => s.(ring := R.Next(s.ring, r))
    case Consume(r) =>
      s.(ring := R.Next(s.ring, r), loop := if r.StoreHead? then Popped(s.ring.consumer.out) else Draining)
    case Process(id, known) =>
      var fed := s.fed + [s.loop.frame];
      if MetricOf(fed, p).alarm then
        s.(fed := fed, loop := Faulting(id), called := s.called + [AlarmOf(fed, p)],
           fsm := M.Next(s.fsm, M.Invoke(id, M.CallFault(AlarmOf(fed, p), known))))
      else s.(fed := fed, loop := Draining)
    case Resume => s.(loop := Draining)
    case Control(m) => s.(fsm := M.Next(s.fsm, m))
  }

  ghost predicate Run(p: Settings, s: State, steps: seq<Step>, t: State)
    requires p.window > 0
    decreases |steps|
  {
    if steps == [] then s == t else Enabled(s, steps[0]) && Run(p, Next(p, s, steps[0]), steps[1..], t)
  }

  // ---- What a fault rests on -------------------------------------------------

  /** The last k of these frames were out of band, and the alarm carries the mean of their last samples. */
  predicate Explains(frames: seq<Frame>, p: Settings, alarm: M.Alarm)
    requires p.window > 0
  {
    && frames != []
    && Alarmed(Values(frames), p.band, p.k)
    && alarm == M.Alarm(frames[|frames| - 1].sensor, Mean(Values(frames), p.window), THRESHOLD)
  }

  /** The alarm is explained by the frames up to some moment. */
  ghost predicate Explained(frames: seq<Frame>, p: Settings, alarm: M.Alarm)
    requires p.window > 0
  {
    exists n :: 0 <= n <= |frames| && Explains(frames[..n], p, alarm)
  }

  lemma ExplainedNow(frames: seq<Frame>, p: Settings, alarm: M.Alarm)
    requires p.window > 0 && Explains(frames, p, alarm)
    ensures Explained(frames, p, alarm)
  {
    hide Explains;
    assert frames[..|frames|] == frames;
  }

  lemma ExplainedLater(frames: seq<Frame>, more: seq<Frame>, p: Settings, alarm: M.Alarm)
    requires p.window > 0 && Explained(frames, p, alarm) && frames <= more
    ensures Explained(more, p, alarm)
  {
    hide Explains;
    var n :| 0 <= n <= |frames| && Explains(frames[..n], p, alarm);
    assert more[..n] == frames[..n];
  }

  /** Only the drain loop calls fault, and while that call is pending the frames are the ones that explain it. */
  ghost predicate CallExplained(s: State, p: Settings, id: nat)
    requires p.window > 0 && id in s.fsm.calls
  {
    s.fsm.calls[id].FaultTry? ==> s.loop == Faulting(id) && Explains(s.fed, p, s.fsm.calls[id].alarm)
  }

  ghost predicate EntryExplained(s: State, p: Settings, i: nat)
    requires p.window > 0 && i < |s.fsm.history|
  {
    s.fsm.history[i].cause.ByFault? ==> Explained(s.fed, p, s.fsm.history[i].cause.alarm)
  }

  /** The alarms of all moments at which the frames so far end in k samples out of band, in order. */
  function AlarmsOf(frames: seq<Frame>, p: Settings): seq<M.Alarm>
    requires p.window > 0
  {
    if frames == [] then []
    else AlarmsOf(frames[..|frames| - 1], p)
         + if Alarmed(Values(frames), p.band, p.k) then [AlarmOf(frames, p)] else []
  }

  lemma AlarmsOfNext(frames: seq<Frame>, f: Frame, p: Settings)
    requires p.window > 0
    ensures var all := frames + [f];
            AlarmsOf(all, p) == AlarmsOf(frames, p) + if MetricOf(all, p).alarm then [AlarmOf(all, p)] else []
  {
    assert (frames + [f])[..|frames|] == frames;
  }

  /** The loop waits for the call of fault it has made. */
  predicate Awaited(s: State) {
    s.loop.Faulting? ==> s.loop.id in s.fsm.calls && OfFault(s.fsm.calls[s.loop.id])
  }

  predicate Fed(s: State) {
    s.ring.popped == s.fed + if s.loop.Popped? then [s.loop.frame] else []
  }

  ghost predicate Inv(p: Settings, s: State)
    requires p.window > 0
  {
    && R.Inv(s.ring)
    && M.Inv(s.fsm)
    && Fed(s)
    && s.called == AlarmsOf(s.fed, p)
    && Awaited(s)
    && (forall id :: id in s.fsm.calls ==> CallExplained(s, p, id))
    && (forall i :: 0 <= i < |s.fsm.history| ==> EntryExplained(s, p, i))
  }

  /** Of the ring steps only the consumer's last one adds to the popped frames. */
  lemma PoppedBy(ring: R.State<Frame>, r: R.Step<Frame>)
    requires R.Enabled(ring, r)
    ensures R.Next(ring, r).popped == ring.popped + if r.StoreHead? then [ring.consumer.out] else []
  {
  }

  lemma RingStep(p: Settings, s: State, a: Step)
    requires p.window > 0 && Inv(p, s) && Enabled(s, a) && (a.Produce? || a.Consume?)
    ensures Inv(p, Next(p, s, a))
  {
    hide R.Inv, R.Next, R.Enabled, M.Inv, Explains, Explained, AlarmsOf;
    var r := if a.Produce? then a.push else a.pop;
    R.StepInv(s.ring, r);
    PoppedBy(s.ring, r);
    var t := Next(p, s, a);
    forall id | id in t.fsm.calls ensures CallExplained(t, p, id) {
      assert CallExplained(s, p, id);
    }
    forall i | 0 <= i < |t.fsm.history| ensures EntryExplained(t, p, i) {
      assert EntryExplained(s, p, i);
    }
  }

  lemma AlarmExplains(frames: seq<Frame>, p: Settings)
    requires p.window > 0 && frames != [] && MetricOf(frames, p).alarm
    ensures Explains(frames, p, AlarmOf(frames, p))
  {
  }

  lemma InvokeFault(f: M.State, id: nat, alarm: M.Alarm, known: nat)
    requires id !in f.calls && known <= |f.history|
    ensures var a := M.Invoke(id, M.CallFault(alarm, known));
            M.Enabled(f, a) && M.Next(f, a) == f.(calls := f.calls[id := M.FaultTry(alarm, known)])
  {
  }

  /** Old entries stay explained when a frame is processed. */
  lemma EntriesKept(p: Settings, s: State, t: State, i: nat)
    requires p.window > 0 && i < |s.fsm.history| && EntryExplained(s, p, i)
    requires t.fsm.history == s.fsm.history && s.fed <= t.fed
    ensures EntryExplained(t, p, i)
  {
    hide Explained;
    if s.fsm.history[i].cause.ByFault? {
      ExplainedLater(s.fed, t.fed, p, s.fsm.history[i].cause.alarm);
    }
  }

  lemma ProcessStep(p: Settings, s: State, id: nat, known: nat)
    requires p.window > 0 && Inv(p, s) && Enabled(s, Process(id, known))
    ensures Inv(p, Next(p, s, Process(id, known)))
  {
    hide R.Inv, M.Inv, M.Next, M.Enabled, Explains, Explained, AlarmOf, MetricOf, AlarmsOf, Values;
    var t := Next(p, s, Process(id, known));
    AlarmsOfNext(s.fed, s.loop.frame, p);
    assert M.Inv(s.fsm) && forall k :: k in s.fsm.calls ==> CallExplained(s, p, k);
    if MetricOf(t.fed, p).alarm {
      AlarmExplains(t.fed, p);
      InvokeFault(s.fsm, id, AlarmOf(t.fed, p), known);
      M.StepInv(s.fsm, M.Invoke(id, M.CallFault(AlarmOf(t.fed, p), known)));
    }
    hide EntryExplained;
    forall k | k in t.fsm.calls ensures CallExplained(t, p, k) {
      if k in s.fsm.calls {
        assert CallExplained(s, p, k);
      }
    }
    forall i | 0 <= i < |t.fsm.history| ensures EntryExplained(t, p, i) {
      EntriesKept(p, s, t, i);
    }
  }

  lemma ResumeStep(p: Settings, s: State)
    requires p.window > 0 && Inv(p, s) && Enabled(s, Resume)
    ensures Inv(p, Next(p, s, Resume))
  {
    hide R.Inv, M.Inv, Explains, Explained, AlarmsOf;
    var t := Next(p, s, Resume);
    forall k | k in t.fsm.calls ensures CallExplained(t, p, k) {
      assert CallExplained(s, p, k);
    }
    forall i | 0 <= i < |t.fsm.history| ensures EntryExplained(t, p, i) {
      assert EntryExplained(s, p, i);
    }
  }

  predicate OfFault(c: M.Call) {
    c.FaultTry? || c.FaultNotify? || c.AlarmNotify? || c.Returned?
  }

  /** A step of the state machine brings no new fault call to its compare-exchange, and enters FAULT only from there. */
  lemma MoveCalls(f: M.State, m: M.Step)
    requires M.Enabled(f, m) && (m.Invoke? ==> !m.op.CallFault?)
    ensures var g := M.Next(f, m);
            && (forall id :: id in g.calls && g.calls[id].FaultTry? ==> id in f.calls && f.calls[id] == g.calls[id])
            && (forall id :: id in f.calls ==> id in g.calls)
            && (forall id :: id in f.calls && OfFault(f.calls[id]) ==> OfFault(g.calls[id]))
            && f.history <= g.history && |g.history| <= |f.history| + 1
            && (|g.history| > |f.history| && g.history[|f.history|].cause.ByFault? ==>
                  && m.id in f.calls && f.calls[m.id].FaultTry?
                  && f.calls[m.id].alarm == g.history[|f.history|].cause.alarm)
  {
  }

  lemma ControlStep(p: Settings, s: State, m: M.Step)
    requires p.window > 0 && Inv(p, s) && Enabled(s, Control(m))
    ensures Inv(p, Next(p, s, Control(m)))
  {
    hide R.Inv, M.Inv, Explains, Explained, AlarmsOf, M.Next, M.Enabled;
    M.StepInv(s.fsm, m);
    MoveCalls(s.fsm, m);
    var t := Next(p, s, Control(m));
    forall k | k in t.fsm.calls ensures CallExplained(t, p, k) {
      if t.fsm.calls[k].FaultTry? {
        assert CallExplained(s, p, k);
      }
    }
    forall i | 0 <= i < |t.fsm.history| ensures EntryExplained(t, p, i) {
      if i < |s.fsm.history| {
        assert EntryExplained(s, p, i);
      } else if t.fsm.history[i].cause.ByFault? {
        assert CallExplained(s, p, m.id);
        ExplainedNow(s.fed, p, t.fsm.history[i].cause.alarm);
      }
    }
  }

  lemma StepInv(p: Settings, s: State, a: Step)
    requires p.window > 0 && Inv(p, s) && Enabled(s, a)
    ensures Inv(p, Next(p, s, a))
  {
    hide Inv, Enabled, Next;
    match a
    case Produce(_) => RingStep(p, s, a);
    case Consume(_) => RingStep(p, s, a);
    case Process(id, known) => ProcessStep(p, s, id, known);
    case Resume => ResumeStep(p, s);
    case Control(m) => ControlStep(p, s, m);
  }

  lemma StartInv(p: Settings)
    requires p.window > 0
    ensures Inv(p, Start())
  {
    R.StartInv<Frame>();
    M.StartInv();
  }

  lemma {:induction false} RunInv(p: Settings, s: State, steps: seq<Step>, t: State)
    requires p.window > 0 && Inv(p, s) && Run(p, s, steps, t)
    ensures Inv(p, t)
    decreases |steps|
  {
    hide Inv, Enabled, Next;
    if steps != [] {
      StepInv(p, s, steps[0]);
      RunInv(p, Next(p, s, steps[0]), steps[1..], t);
    }
  }

  // ---- End to end ------------------------------------------------------------

  /**
   In every run, a step that enters FAULT leaves RUNNING, and at that moment the last k frames popped were all out of
   band. The frames popped are the first accepted ones, so these are consecutive accepted pushes; the alarm carries the
   last sensor and exactly the mean of the last `window` raw samples popped.
   */
  lemma FaultEntry(p: Settings, steps: seq<Step>, s: State, a: Step)
    requires p.window > 0 && Run(p, Start(), steps, s) && Enabled(s, a)
    requires s.fsm.mode != M.FAULT && Next(p, s, a).fsm.mode == M.FAULT
    ensures s.fsm.mode == M.RUNNING
    ensures s.ring.popped <= s.ring.accepted
    ensures a.Control? && a.move.id in s.fsm.calls && s.fsm.calls[a.move.id].FaultTry?
    ensures Explains(s.ring.popped, p, s.fsm.calls[a.move.id].alarm)
  {
    StartInv(p);
    RunInv(p, Start(), steps, s);
    hide R.Inv, R.Next, R.Enabled, M.Inv, Explains, Explained, Run;
    assert R.Ordered(s.ring) by { Prefix(s.ring); }
    match a
    case Process(_, _) =>
    case Control(m) =>
      EntersFault(s.fsm, m);
      assert CallExplained(s, p, m.id);
      assert s.fed + [] == s.fed;
    case _ =>
  }

  /** The loop calls fault exactly at the moments at which the last k frames popped are all out of band. */
  lemma FaultCallsExact(p: Settings, steps: seq<Step>, t: State)
    requires p.window > 0 && Run(p, Start(), steps, t)
    ensures t.called == AlarmsOf(t.fed, p) && t.fed <= t.ring.popped <= t.ring.accepted
    ensures t.ring.popped == t.fed || (t.loop.Popped? && t.ring.popped == t.fed + [t.loop.frame])
  {
    StartInv(p);
    hide R.Inv, M.Inv, Run, AlarmsOf, Explained;
    RunInv(p, Start(), steps, t);
    Prefix(t.ring);
    assert t.fed + [] == t.fed;
  }

  /** A processing step calls fault if and only if the frames popped so far end in k samples out of band. */
  lemma FaultCalledIff(p: Settings, steps: seq<Step>, s: State, id: nat, known: nat)
    requires p.window > 0 && Run(p, Start(), steps, s) && Enabled(s, Process(id, known))
    ensures var t := Next(p, s, Process(id, known));
            && (t.loop == Faulting(id) <==> Alarmed(Values(s.ring.popped), p.band, p.k))
            && (t.loop == Faulting(id) ==> t.fsm.calls[id] == M.FaultTry(AlarmOf(s.ring.popped, p), known))
  {
    StartInv(p);
    hide R.Inv, M.Inv, Run, AlarmsOf, Explained;
    RunInv(p, Start(), steps, s);
    assert s.ring.popped == s.fed + [s.loop.frame];
  }

  /** The compare-exchange of the fault call id, reading the state after `view` transitions, enters FAULT. */
  predicate Takes(p: Settings, s: State, id: nat, view: nat)
    requires p.window > 0 && Enabled(s, Control(M.Cas(id, view, false)))
  {
    var t := Next(p, s, Control(M.Cas(id, view, false)));
    t.fsm.mode == M.FAULT && |t.fsm.history| == |s.fsm.history| + 1
  }

  /**
   The call of fault cannot be missed, whatever value its compare-exchange reads, if and only if the state has been
   RUNNING ever since the last transition the drain loop's thread knew of when it called.
   */
  lemma FaultTakenIff(p: Settings, steps: seq<Step>, s: State, id: nat)
    requires p.window > 0 && Run(p, Start(), steps, s)
    requires id in s.fsm.calls && s.fsm.calls[id].FaultTry?
    ensures (forall view: nat :: Enabled(s, Control(M.Cas(id, view, false))) ==> Takes(p, s, id, view))
       <==> forall n :: s.fsm.calls[id].known <= n <= |s.fsm.history| ==> M.ModeAfter(s.fsm.history, n) == M.RUNNING
  {
    StartInv(p);
    RunInv(p, Start(), steps, s);
    hide R.Inv, Run, AlarmsOf, Explained, M.CallbackInv, M.Chain, M.AllLawful;
    var known, h := s.fsm.calls[id].known, s.fsm.history;
    forall view: nat | Enabled(s, Control(M.Cas(id, view, false)))
      ensures known <= view <= |h| && (Takes(p, s, id, view) <==> M.ModeAfter(h, view) == M.RUNNING)
    {
    }
    forall n | known <= n <= |h| && M.ModeAfter(h, n) != M.RUNNING
      ensures Enabled(s, Control(M.Cas(id, n, false)))
    {
    }
    if forall n :: known <= n <= |h| ==> M.ModeAfter(h, n) == M.RUNNING {
    } else {
      var n :| known <= n <= |h| && M.ModeAfter(h, n) != M.RUNNING;
      assert !Takes(p, s, id, n);
    }
  }

  lemma Prefix(ring: R.State<Frame>)
    requires R.Inv(ring)
    ensures R.Ordered(ring)
  {
  }

  lemma EntersFault(f: M.State, m: M.Step)
    requires M.HistoryInv(f) && M.Enabled(f, m) && f.mode != M.FAULT && M.Next(f, m).mode == M.FAULT
    ensures f.mode == M.RUNNING && m.id in f.calls && f.calls[m.id].FaultTry?
  {
  }

  /** Every entry into FAULT of any run is explained, for good, by a prefix of the accepted frames. */
  lemma FaultsExplained(p: Settings, steps: seq<Step>, t: State, i: nat) returns (n: nat)
    requires p.window > 0 && Run(p, Start(), steps, t)
    requires i < |t.fsm.history| && t.fsm.history[i].change.next == M.FAULT
    ensures t.fsm.history[i].change.prev == M.RUNNING && t.fsm.history[i].cause.ByFault?
    ensures n <= |t.ring.accepted| && Explains(t.ring.accepted[..n], p, t.fsm.history[i].cause.alarm)
  {
    StartInv(p);
    RunInv(p, Start(), steps, t);
    Lawful(t.fsm, i);
    hide R.Inv, M.Inv, Explains, Run;
    assert R.Ordered(t.ring) by { Prefix(t.ring); }
    assert EntryExplained(t, p, i);
    n :| 0 <= n <= |t.fed| && Explains(t.fed[..n], p, t.fsm.history[i].cause.alarm);
    assert t.ring.accepted[..n] == t.fed[..n];
  }

  lemma Lawful(f: M.State, i: nat)
    requires M.Inv(f) && i < |f.history| && f.history[i].change.next == M.FAULT
    ensures f.history[i].change.prev == M.RUNNING && f.history[i].cause.ByFault?
  {
    assert M.Lawful(f.history, i);
  }

  /** So is every alarm raised in any run. */
  lemma AlarmsExplained(p: Settings, steps: seq<Step>, t: State, alarm: M.Alarm) returns (n: nat)
    requires p.window > 0 && Run(p, Start(), steps, t) && alarm in t.fsm.alarms
    ensures n <= |t.ring.accepted| && Explains(t.ring.accepted[..n], p, alarm)
  {
    StartInv(p);
    RunInv(p, Start(), steps, t);
    hide Explains, Run;
    var i := M.AlarmHasFault(t.fsm, alarm);
    assert M.Lawful(t.fsm.history, i);
    n := FaultsExplained(p, steps, t, i);
  }

  /** With the daemon's own settings: the last three samples are above 80 or below 20. */
  predicate ThreeOutside(v: seq<real>) {
    |v| >= 3 && forall i :: |v| - 3 <= i < |v| ==> v[i] > 80.0 || v[i] < 20.0
  }

  /** The alarm the daemon raises for these frames, written out. */
  function WrittenAlarm(frames: seq<Frame>): M.Alarm
    requires frames != []
  {
    var v := Values(frames);
    M.Alarm(frames[|frames| - 1].sensor, Sum(Recent(v, 10)) / Min(|v|, 10) as real, 80.0)
  }

  lemma DaemonAlarm(v: seq<real>)
    ensures Alarmed(v, SETTINGS.band, SETTINGS.k) <==> ThreeOutside(v)
  {
    AlarmedSamples(v, SETTINGS.band, SETTINGS.k);
  }

  /**
   The daemon calls fault exactly when the last three samples popped are above 80 or below 20, with the sensor of the
   last frame, the mean of the last ten samples or fewer, and the threshold 80.
   */
  lemma DaemonCallsIff(steps: seq<Step>, s: State, id: nat, known: nat)
    requires Run(SETTINGS, Start(), steps, s) && Enabled(s, Process(id, known))
    ensures var t, v := Next(SETTINGS, s, Process(id, known)), Values(s.ring.popped);
            && (t.loop == Faulting(id) <==> ThreeOutside(v))
            && (t.loop == Faulting(id) ==> t.fsm.calls[id] == M.FaultTry(WrittenAlarm(s.ring.popped), known))
  {
    FaultCalledIff(SETTINGS, steps, s, id, known);
    DaemonAlarm(Values(s.ring.popped));
    hide Run, Next, Enabled, Values, Sum, Alarmed, ThreeOutside;
  }

  /** And FAULT is entered only after such a call. */
  lemma DaemonFault(steps: seq<Step>, s: State, a: Step)
    requires Run(SETTINGS, Start(), steps, s) && Enabled(s, a)
    requires s.fsm.mode != M.FAULT && Next(SETTINGS, s, a).fsm.mode == M.FAULT
    ensures var v := Values(s.ring.popped);
            && ThreeOutside(v)
            && s.fsm.calls[a.move.id].alarm == WrittenAlarm(s.ring.popped)
  {
    FaultEntry(SETTINGS, steps, s, a);
    DaemonAlarm(Values(s.ring.popped));
    hide Run, Enabled, Next, Values, Sum, Alarmed, ThreeOutside;
  }
}
