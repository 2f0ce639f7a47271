/**
 The daemon's state machine under concurrent calls, one atomic access or callback per step.

 Any number of calls run at once, each at its own place. The list of transitions is history: entry i was made by one
 successful compare-exchange or exchange on the state.
 */
module StateManager {

  datatype Mode = IDLE | RUNNING | FAULT | SHUTDOWN

  /** What a state-changed callback reports. */
  datatype Change = Change(next: Mode, prev: Mode)

  datatype Alarm = Alarm(sensor: string, value: real, threshold: real)

  /**
   Calls may read a late value of the state: anything it has held since the `known`-th transition, the last one that
   happened before the call in its own thread's view.
   */
  datatype Operation = CallStart(known: nat) | CallHalt(known: nat)
    | CallFault(alarm: Alarm, known: nat) | CallShutdown

  datatype Call =
    | StartLoad(known: nat)
    | StartTry(prev: Mode, known: nat)
    | HaltLoad(known: nat)
    | HaltSwap(loaded: nat)
    | FaultTry(alarm: Alarm, known: nat)
    | FaultNotify(alarm: Alarm)
    | AlarmNotify(alarm: Alarm)
    | ShutdownSwap
    | Notify(change: Change)
    | Returned
    | Threw

  /** Who made a transition; a halt remembers after how many transitions the state was the one it loaded. */
  datatype Cause = ByStart | ByHalt(loaded: nat) | ByFault(alarm: Alarm) | ByShutdown

  datatype Entry = Entry(change: Change, cause: Cause)

  datatype State = State(
    mode: Mode,
    calls: map<nat, Call>,
    history: seq<Entry>,
    emitted: seq<Change>,
    alarms: seq<Alarm>
  )

  datatype Step =
    | Invoke(id: nat, op: Operation)
    | Load(id: nat, view: nat)
    | Cas(id: nat, view: nat, spurious: bool)
    | Exchange(id: nat)
    | Callback(id: nat)

  function Start(): State {
    State(IDLE, map[], [], [], [])
  }

  function Entered(op: Operation): Call {
    match op
    case CallStart(known) => StartLoad(known)
    case CallHalt(known) => HaltLoad(known)
    case CallFault(alarm, known) => FaultTry(alarm, known)
    case CallShutdown => ShutdownSwap
  }

  /**
   A compare-exchange that fails is a load and may read late; one that succeeds reads the newest value. Only the weak
   form may fail on the value it expects.
   */
  predicate CanCompare(s: State, c: Call, view: nat, spurious: bool) {
    && (c.StartTry? || (c.FaultTry? && !spurious))
    && c.known <= view <= |s.history|
    && (ModeAfter(s.history, view) == Expected(c) && !spurious ==> view == |s.history|)
  }

  function Expected(c: Call): Mode
    requires c.StartTry? || c.FaultTry?
  {
    if c.StartTry? then c.prev else RUNNING
  }

  predicate At(s: State, a: Step) {
    a.id in s.calls &&
    match a
    case Invoke(_, _) => true
    case Load(id, view) => (s.calls[id].StartLoad? || s.calls[id].HaltLoad?) && s.calls[id].known <= view <= |s.history|
    case Cas(id, view, spurious) => CanCompare(s, s.calls[id], view, spurious)
    case Exchange(id) => s.calls[id].HaltSwap? || s.calls[id].ShutdownSwap?
    case Callback(id) => s.calls[id].Notify? || s.calls[id].FaultNotify? || s.calls[id].AlarmNotify?
  }

  predicate Enabled(s: State, a: Step) {
    if a.Invoke? then a.id !in s.calls && Known(a.op) <= |s.history| else At(s, a)
  }

  function Known(op: Operation): nat {
    if op.CallShutdown? then 0 else op.known
  }

  /** The state after the first n transitions. */
  function ModeAfter(h: seq<Entry>, n: nat): Mode
    requires n <= |h|
  {
    if n == 0 then IDLE else h[n - 1].change.next
  }

  function Goes(s: State, id: nat, c: Call): State {
    s.(calls := s.calls[id := c])
  }

  /** One transition of the state, by the call id, which goes on at c. */
  function Moves(s: State, id: nat, next: Mode, cause: Cause, c: Call): State {
    s.(mode := next, history := s.history + [Entry(Change(next, s.mode), cause)], calls := s.calls[id := c])
  }

  /** start with the value it last read: refuse from RUNNING and SHUTDOWN, otherwise try. */
  function Tries(prev: Mode, view: nat): Call {
    if prev == RUNNING || prev == SHUTDOWN then Threw else StartTry(prev, view)
  }

  function Loads(s: State, id: nat, view: nat): State
    requires At(s, Load(id, view))
  {
    var read := ModeAfter(s.history, view);
    if s.calls[id].StartLoad? then Goes(s, id, Tries(read, view))
    else Goes(s, id, if read == SHUTDOWN then Returned else HaltSwap(view))
  }

  function Compares(s: State, id: nat, view: nat, spurious: bool): State
    requires At(s, Cas(id, view, spurious))
  {
    var c, read := s.calls[id], ModeAfter(s.history, view);
    if c.StartTry? then
      if read == c.prev && !spurious then Moves(s, id, RUNNING, ByStart, Notify(Change(RUNNING, s.mode)))
      else Goes(s, id, Tries(read, view))
    else if read == RUNNING then Moves(s, id, FAULT, ByFault(c.alarm), FaultNotify(c.alarm))
    else Goes(s, id, Returned)
  }

  function Swaps(s: State, id: nat): State
    requires At(s, Exchange(id))
  {
    var c := s.calls[id];
    if c.HaltSwap? then Moves(s, id, IDLE, ByHalt(c.loaded), Notify(Change(IDLE, s.mode)))
    else Moves(s, id, SHUTDOWN, ByShutdown, Notify(Change(SHUTDOWN, s.mode)))
  }

  function Emits(s: State, id: nat): State
    requires At(s, Callback(id))
  {
    var c := s.calls[id];
    if c.Notify? then Goes(s, id, Returned).(emitted := s.emitted + [c.change])
    else if c.FaultNotify? then Goes(s, id, AlarmNotify(c.alarm)).(emitted := s.emitted + [Change(FAULT, RUNNING)])
    else Goes(s, id, Returned).(alarms := s.alarms + [c.alarm])
  }

  function Next(s: State, a: Step): State
    requires Enabled(s, a)
  {
    match a
    case Invoke(id, op) => Goes(s, id, Entered(op))
    case Load(id, view) => Loads(s, id, view)
    case Cas(id, view, spurious) => Compares(s, id, view, spurious)
    case Exchange(id) => Swaps(s, id)
    case Callback(id) => Emits(s, id)
  }

  ghost predicate Run(s: State, steps: seq<Step>, t: State)
    decreases |steps|
  {
    if steps == [] then s == t else Enabled(s, steps[0]) && Run(Next(s, steps[0]), steps[1..], t)
  }

  // ---- One chain of transitions ----------------------------------------------

  /** Each transition starts where the one before it ended. */
  predicate Chain(h: seq<Entry>) {
    forall i :: 0 <= i < |h| ==> h[i].change.prev == ModeAfter(h, i)
  }

  /** What each transition may be. */
  predicate Lawful(h: seq<Entry>, i: nat)
    requires i < |h|
  {
    var e := h[i].change;
    match h[i].cause
    case ByStart => e.next == RUNNING && (e.prev == IDLE || e.prev == FAULT)
    case ByFault(_) => e == Change(FAULT, RUNNING)
    case ByShutdown => e.next == SHUTDOWN
    case ByHalt(loaded) => e.next == IDLE && loaded <= i && ModeAfter(h, loaded) != SHUTDOWN
  }

  predicate AllLawful(h: seq<Entry>) {
    forall i :: 0 <= i < |h| ==> Lawful(h, i)
  }

  /** A call between its steps. */
  predicate CallOk(h: seq<Entry>, c: Call) {
    match c
    case StartTry(prev, _) => prev == IDLE || prev == FAULT
    case HaltSwap(loaded) => loaded <= |h| && ModeAfter(h, loaded) != SHUTDOWN
    case _ => true
  }

  ghost predicate HistoryInv(s: State) {
    && Chain(s.history)
    && ModeAfter(s.history, |s.history|) == s.mode
    && AllLawful(s.history)
    && forall id :: id in s.calls ==> CallOk(s.history, s.calls[id])
  }

  lemma GrowKeepsCall(h: seq<Entry>, e: Entry, c: Call)
    requires CallOk(h, c)
    ensures CallOk(h + [e], c)
  {
  }

  lemma GrowKeepsLaw(h: seq<Entry>, e: Entry, i: nat)
    requires i < |h| && Lawful(h, i)
    ensures Lawful(h + [e], i)
  {
  }

  lemma MovesInv(s: State, id: nat, next: Mode, cause: Cause, c: Call)
    requires HistoryInv(s) && CallOk(s.history + [Entry(Change(next, s.mode), cause)], c)
    requires Lawful(s.history + [Entry(Change(next, s.mode), cause)], |s.history|)
    ensures HistoryInv(Moves(s, id, next, cause, c))
  {
    hide Lawful, CallOk;
    var e := Entry(Change(next, s.mode), cause);
    var t := Moves(s, id, next, cause, c);
    forall k | k in t.calls ensures CallOk(t.history, t.calls[k]) {
      if k != id {
        GrowKeepsCall(s.history, e, s.calls[k]);
      }
    }
    forall i | 0 <= i < |t.history| ensures Lawful(t.history, i) {
      if i < |s.history| {
        GrowKeepsLaw(s.history, e, i);
      }
    }
  }

  lemma GoesInv(s: State, id: nat, c: Call)
    requires HistoryInv(s) && CallOk(s.history, c)
    ensures HistoryInv(Goes(s, id, c))
  {
    hide CallOk, Chain, AllLawful;
  }

  lemma StepHistory(s: State, a: Step)
    requires HistoryInv(s) && Enabled(s, a)
    ensures HistoryInv(Next(s, a))
  {
    hide Chain, AllLawful;
    if a.Invoke? {
      GoesInv(s, a.id, Entered(a.op));
    } else {
      var c := s.calls[a.id];
      assert CallOk(s.history, c);
      match a
      case Load(id, view) => GoesInv(s, id, Loads(s, id, view).calls[id]);
      case Cas(id, view, spurious) =>
        var read := ModeAfter(s.history, view);
        if c.FaultTry? && read == RUNNING {
          MovesInv(s, id, FAULT, ByFault(c.alarm), FaultNotify(c.alarm));
        } else if c.StartTry? && read == c.prev && !spurious {
          MovesInv(s, id, RUNNING, ByStart, Notify(Change(RUNNING, s.mode)));
        } else {
          GoesInv(s, id, Compares(s, id, view, spurious).calls[id]);
        }
      case Exchange(id) =>
        if c.HaltSwap? {
          GrowKeepsCall(s.history, Entry(Change(IDLE, s.mode), ByHalt(c.loaded)), c);
          MovesInv(s, id, IDLE, ByHalt(c.loaded), Notify(Change(IDLE, s.mode)));
        } else {
          MovesInv(s, id, SHUTDOWN, ByShutdown, Notify(Change(SHUTDOWN, s.mode)));
        }
      case Callback(id) => GoesInv(s, id, Emits(s, id).calls[id]);
    }
  }

  // ---- Callbacks and alarms --------------------------------------------------

  predicate Owes(c: Call, change: Change) {
    c == Notify(change) || (c.FaultNotify? && change == Change(FAULT, RUNNING))
  }

  predicate OwesAlarm(c: Call, alarm: Alarm) {
    c == FaultNotify(alarm) || c == AlarmNotify(alarm)
  }

  /** The calls that still have to report a change, or to raise an alarm. */
  ghost function Owing(calls: map<nat, Call>, change: Change): set<nat> {
    set id | id in calls && Owes(calls[id], change)
  }

  ghost function OwingAlarm(calls: map<nat, Call>, alarm: Alarm): set<nat> {
    set id | id in calls && OwesAlarm(calls[id], alarm)
  }

  function Changes(h: seq<Entry>): (c: seq<Change>)
    ensures |c| == |h|
  {
    seq(|h|, i requires 0 <= i < |h| => h[i].change)
  }

  /** The alarms of the FAULT entries, in order. */
  function Faults(h: seq<Entry>): seq<Alarm> {
    if h == [] then []
    else
      var last := h[|h| - 1].cause;
      Faults(h[..|h| - 1]) + if last.ByFault? then [last.alarm] else []
  }

  /** Reported so far plus still owed makes the transitions; likewise for alarms and FAULT entries. */
  ghost predicate ChangeEven(s: State, c: Change) {
    multiset(s.emitted)[c] + |Owing(s.calls, c)| == multiset(Changes(s.history))[c]
  }

  ghost predicate AlarmEven(s: State, a: Alarm) {
    multiset(s.alarms)[a] + |OwingAlarm(s.calls, a)| == multiset(Faults(s.history))[a]
  }

  ghost predicate CallbackInv(s: State) {
    && (forall c :: ChangeEven(s, c))
    && (forall a :: AlarmEven(s, a))
  }

  function Bit(b: bool): nat {
    if b then 1 else 0
  }

  /** Sets that agree except at id. */
  lemma SizeAt(before: set<nat>, after: set<nat>, id: nat)
    requires before - {id} == after - {id}
    ensures |after| == |before| + Bit(id in after) - Bit(id in before)
  {
    assert |after - {id}| == |after| - Bit(id in after);
    assert |before - {id}| == |before| - Bit(id in before);
  }

  lemma OwingMoves(calls: map<nat, Call>, id: nat, c: Call, change: Change)
    ensures |Owing(calls[id := c], change)|
         == |Owing(calls, change)| + Bit(Owes(c, change)) - Bit(id in calls && Owes(calls[id], change))
  {
    hide Owes, Bit;
    var before, after := Owing(calls, change), Owing(calls[id := c], change);
    assert before - {id} == after - {id};
    SizeAt(before, after, id);
    assert id in after <==> Owes(c, change);
    assert id in before <==> id in calls && Owes(calls[id], change);
  }

  lemma OwingAlarmMoves(calls: map<nat, Call>, id: nat, c: Call, alarm: Alarm)
    ensures |OwingAlarm(calls[id := c], alarm)|
         == |OwingAlarm(calls, alarm)| + Bit(OwesAlarm(c, alarm)) - Bit(id in calls && OwesAlarm(calls[id], alarm))
  {
    hide OwesAlarm, Bit;
    var before, after := OwingAlarm(calls, alarm), OwingAlarm(calls[id := c], alarm);
    assert before - {id} == after - {id};
    SizeAt(before, after, id);
    assert id in after <==> OwesAlarm(c, alarm);
    assert id in before <==> id in calls && OwesAlarm(calls[id], alarm);
  }

  lemma HistoryGrows(h: seq<Entry>, e: Entry)
    ensures Changes(h + [e]) == Changes(h) + [e.change]
    ensures Faults(h + [e]) == Faults(h) + if e.cause.ByFault? then [e.cause.alarm] else []
  {
    assert (h + [e])[..|h|] == h;
  }

  lemma Appended<T>(s: seq<T>, x: T, y: T)
    ensures multiset(s + [x])[y] == multiset(s)[y] + Bit(x == y)
  {
  }

  /** Neither reporting nor raising anything next. */
  predicate Silent(c: Call) {
    !c.Notify? && !c.FaultNotify? && !c.AlarmNotify?
  }

  lemma GoesEven(s: State, id: nat, c: Call)
    requires CallbackInv(s) && Silent(c) && (id in s.calls ==> Silent(s.calls[id]))
    ensures CallbackInv(Goes(s, id, c))
  {
    hide Owing, OwingAlarm, Changes, Faults;
    var t := Goes(s, id, c);
    forall x ensures ChangeEven(t, x) {
      assert ChangeEven(s, x);
      OwingMoves(s.calls, id, c, x);
    }
    forall x ensures AlarmEven(t, x) {
      assert AlarmEven(s, x);
      OwingAlarmMoves(s.calls, id, c, x);
    }
  }

  /** The call that makes a transition owes its report, and its alarm if the transition is a fault. */
  predicate Reports(cause: Cause, change: Change, c: Call) {
    if cause.ByFault? then change == Change(FAULT, RUNNING) && c == FaultNotify(cause.alarm) else c == Notify(change)
  }

  lemma MovesChange(s: State, id: nat, next: Mode, cause: Cause, c: Call, x: Change)
    requires ChangeEven(s, x) && id in s.calls && Silent(s.calls[id]) && Reports(cause, Change(next, s.mode), c)
    ensures ChangeEven(Moves(s, id, next, cause, c), x)
  {
    hide Owing, Changes;
    HistoryGrows(s.history, Entry(Change(next, s.mode), cause));
    OwingMoves(s.calls, id, c, x);
    Appended(Changes(s.history), Change(next, s.mode), x);
  }

  lemma MovesAlarm(s: State, id: nat, next: Mode, cause: Cause, c: Call, x: Alarm)
    requires AlarmEven(s, x) && id in s.calls && Silent(s.calls[id]) && Reports(cause, Change(next, s.mode), c)
    ensures AlarmEven(Moves(s, id, next, cause, c), x)
  {
    hide OwingAlarm, Faults;
    HistoryGrows(s.history, Entry(Change(next, s.mode), cause));
    OwingAlarmMoves(s.calls, id, c, x);
    if cause.ByFault? {
      Appended(Faults(s.history), cause.alarm, x);
    } else {
      assert Faults(s.history) + [] == Faults(s.history);
    }
  }

  lemma MovesEven(s: State, id: nat, next: Mode, cause: Cause, c: Call)
    requires CallbackInv(s) && id in s.calls && Silent(s.calls[id]) && Reports(cause, Change(next, s.mode), c)
    ensures CallbackInv(Moves(s, id, next, cause, c))
  {
    hide Moves, ChangeEven, AlarmEven;
    forall x ensures ChangeEven(Moves(s, id, next, cause, c), x) {
      MovesChange(s, id, next, cause, c, x);
    }
    forall x ensures AlarmEven(Moves(s, id, next, cause, c), x) {
      MovesAlarm(s, id, next, cause, c, x);
    }
  }

  lemma EmitsChange(s: State, id: nat, x: Change)
    requires At(s, Callback(id)) && ChangeEven(s, x)
    ensures ChangeEven(Emits(s, id), x)
  {
    hide Owing, Changes;
    var t, c := Emits(s, id), s.calls[id];
    OwingMoves(s.calls, id, t.calls[id], x);
    if !c.AlarmNotify? {
      Appended(s.emitted, if c.Notify? then c.change else Change(FAULT, RUNNING), x);
    }
  }

  lemma EmitsAlarm(s: State, id: nat, x: Alarm)
    requires At(s, Callback(id)) && AlarmEven(s, x)
    ensures AlarmEven(Emits(s, id), x)
  {
    hide OwingAlarm, Faults;
    var t, c := Emits(s, id), s.calls[id];
    OwingAlarmMoves(s.calls, id, t.calls[id], x);
    if c.AlarmNotify? {
      Appended(s.alarms, c.alarm, x);
    }
  }

  lemma EmitsEven(s: State, id: nat)
    requires CallbackInv(s) && At(s, Callback(id))
    ensures CallbackInv(Emits(s, id))
  {
    hide At, Emits, ChangeEven, AlarmEven;
    forall x ensures ChangeEven(Emits(s, id), x) {
      EmitsChange(s, id, x);
    }
    forall x ensures AlarmEven(Emits(s, id), x) {
      EmitsAlarm(s, id, x);
    }
  }

  lemma StepCallbacks(s: State, a: Step)
    requires HistoryInv(s) && CallbackInv(s) && Enabled(s, a)
    ensures CallbackInv(Next(s, a))
  {
    assert ModeAfter(s.history, |s.history|) == s.mode;
    hide HistoryInv, CallbackInv;
    if a.Invoke? {
      GoesEven(s, a.id, Entered(a.op));
    } else {
      var c := s.calls[a.id];
      match a
      case Load(id, view) => GoesEven(s, id, Loads(s, id, view).calls[id]);
      case Cas(id, view, spurious) =>
        var read := ModeAfter(s.history, view);
        if c.FaultTry? && read == RUNNING {
          MovesEven(s, id, FAULT, ByFault(c.alarm), FaultNotify(c.alarm));
        } else if c.StartTry? && read == c.prev && !spurious {
          MovesEven(s, id, RUNNING, ByStart, Notify(Change(RUNNING, s.mode)));
        } else {
          GoesEven(s, id, Compares(s, id, view, spurious).calls[id]);
        }
      case Exchange(id) =>
        if c.HaltSwap? {
          MovesEven(s, id, IDLE, ByHalt(c.loaded), Notify(Change(IDLE, s.mode)));
        } else {
          MovesEven(s, id, SHUTDOWN, ByShutdown, Notify(Change(SHUTDOWN, s.mode)));
        }
      case Callback(id) => EmitsEven(s, id);
    }
  }

  // ---- Runs ------------------------------------------------------------------

  ghost predicate Inv(s: State) {
    HistoryInv(s) && CallbackInv(s)
  }

  lemma StepInv(s: State, a: Step)
    requires Inv(s) && Enabled(s, a)
    ensures Inv(Next(s, a))
  {
    hide HistoryInv, CallbackInv, Enabled, Next;
    StepHistory(s, a);
    StepCallbacks(s, a);
  }

  lemma StartInv()
    ensures Inv(Start())
  {
    var s := Start();
    forall c ensures ChangeEven(s, c) {
      assert Owing(s.calls, c) == {};
    }
    forall a ensures AlarmEven(s, a) {
      assert OwingAlarm(s.calls, a) == {};
    }
  }

  lemma {:induction false} RunInv(s: State, steps: seq<Step>, t: State)
    requires Inv(s) && Run(s, steps, t)
    ensures Inv(t)
    decreases |steps|
  {
    hide Inv, Enabled, Next;
    if steps != [] {
      StepInv(s, steps[0]);
      RunInv(Next(s, steps[0]), steps[1..], t);
    }
  }

  /** Every call has returned or thrown. */
  predicate Quiescent(s: State) {
    forall id :: id in s.calls ==> s.calls[id].Returned? || s.calls[id].Threw?
  }

  function Enters(m: multiset<Change>, x: Mode): nat {
    m[Change(x, IDLE)] + m[Change(x, RUNNING)] + m[Change(x, FAULT)] + m[Change(x, SHUTDOWN)]
  }

  function Leaves(m: multiset<Change>, x: Mode): nat {
    m[Change(IDLE, x)] + m[Change(RUNNING, x)] + m[Change(FAULT, x)] + m[Change(SHUTDOWN, x)]
  }

  lemma {:induction false} ChainBalances(h: seq<Entry>, x: Mode)
    requires Chain(h)
    ensures var m := multiset(Changes(h));
            Enters(m, x) + Bit(x == IDLE) == Leaves(m, x) + Bit(x == ModeAfter(h, |h|))
    decreases |h|
  {
    if h != [] {
      var front, last := h[..|h| - 1], h[|h| - 1];
      assert h == front + [last];
      assert ModeAfter(front, |front|) == ModeAfter(h, |front|);
      ChainPrefix(h);
      ChainBalances(front, x);
      HistoryGrows(front, last);
      OneChange(multiset(Changes(front)), last.change, x);
    }
  }

  lemma ChainPrefix(h: seq<Entry>)
    requires Chain(h) && h != []
    ensures Chain(h[..|h| - 1])
  {
    var front := h[..|h| - 1];
    forall i | 0 <= i < |front| ensures front[i].change.prev == ModeAfter(front, i) {
      assert h[i].change.prev == ModeAfter(h, i);
    }
  }

  lemma OneChange(m: multiset<Change>, c: Change, x: Mode)
    ensures Enters(m + multiset{c}, x) == Enters(m, x) + Bit(c.next == x)
    ensures Leaves(m + multiset{c}, x) == Leaves(m, x) + Bit(c.prev == x)
  {
    var n := m + multiset{c};
    forall d: Change ensures n[d] == m[d] + Bit(c == d) {
    }
    match c.prev {
      case IDLE => assert n[Change(x, IDLE)] == m[Change(x, IDLE)] + Bit(c.next == x);
      case RUNNING => assert n[Change(x, RUNNING)] == m[Change(x, RUNNING)] + Bit(c.next == x);
      case FAULT => assert n[Change(x, FAULT)] == m[Change(x, FAULT)] + Bit(c.next == x);
      case SHUTDOWN => assert n[Change(x, SHUTDOWN)] == m[Change(x, SHUTDOWN)] + Bit(c.next == x);
    }
    match c.next {
      case IDLE => assert n[Change(IDLE, x)] == m[Change(IDLE, x)] + Bit(c.prev == x);
      case RUNNING => assert n[Change(RUNNING, x)] == m[Change(RUNNING, x)] + Bit(c.prev == x);
      case FAULT => assert n[Change(FAULT, x)] == m[Change(FAULT, x)] + Bit(c.prev == x);
      case SHUTDOWN => assert n[Change(SHUTDOWN, x)] == m[Change(SHUTDOWN, x)] + Bit(c.prev == x);
    }
  }

  /**
   Once all calls have finished, the callbacks that fired, in whatever order, are exactly the transitions made. So they
   balance for every state: as many enter as leave, but for the initial and the current state.
   */
  lemma CallbacksBalance(steps: seq<Step>, t: State, x: Mode)
    requires Run(Start(), steps, t) && Quiescent(t)
    ensures multiset(t.emitted) == multiset(Changes(t.history))
    ensures var m := multiset(t.emitted);
            Enters(m, x) + Bit(x == IDLE) == Leaves(m, x) + Bit(x == t.mode)
  {
    StartInv();
    RunInv(Start(), steps, t);
    hide Run, Changes, Enters, Leaves, Bit, Chain, AllLawful, ModeAfter;
    AllReported(t);
    ChainBalances(t.history, x);
  }

  lemma AllReported(t: State)
    requires CallbackInv(t) && Quiescent(t)
    ensures multiset(t.emitted) == multiset(Changes(t.history))
    ensures multiset(t.alarms) == multiset(Faults(t.history))
  {
    hide Changes, Faults;
    forall c: Change ensures multiset(t.emitted)[c] == multiset(Changes(t.history))[c] {
      assert ChangeEven(t, c);
      assert Owing(t.calls, c) == {};
    }
    forall a: Alarm ensures multiset(t.alarms)[a] == multiset(Faults(t.history))[a] {
      assert AlarmEven(t, a);
      assert OwingAlarm(t.calls, a) == {};
    }
  }

  /** At every moment the transitions form one chain from IDLE to the current state, each of a lawful kind. */
  lemma OneChain(steps: seq<Step>, t: State)
    requires Run(Start(), steps, t)
    ensures Chain(t.history) && ModeAfter(t.history, |t.history|) == t.mode && AllLawful(t.history)
  {
    StartInv();
    hide Chain, AllLawful, ModeAfter, Run, CallbackInv;
    RunInv(Start(), steps, t);
  }

  function FaultEntries(h: seq<Entry>): nat {
    if h == [] then 0 else FaultEntries(h[..|h| - 1]) + Bit(h[|h| - 1].change.next == FAULT)
  }

  lemma {:induction false} FaultsCounted(h: seq<Entry>)
    requires AllLawful(h)
    ensures |Faults(h)| == FaultEntries(h)
    decreases |h|
  {
    if h != [] {
      var front := h[..|h| - 1];
      forall i | 0 <= i < |front| ensures Lawful(front, i) {
        assert Lawful(h, i);
      }
      FaultsCounted(front);
      assert Lawful(h, |h| - 1);
    }
  }

  /** Once all calls have finished, there is exactly one alarm for each entry into FAULT, with that call's data. */
  lemma OneAlarmPerFault(steps: seq<Step>, t: State)
    requires Run(Start(), steps, t) && Quiescent(t)
    ensures multiset(t.alarms) == multiset(Faults(t.history)) && |t.alarms| == FaultEntries(t.history)
  {
    StartInv();
    RunInv(Start(), steps, t);
    hide Run, Faults, FaultEntries, AllLawful;
    AllReported(t);
    FaultsCounted(t.history);
    assert |multiset(t.alarms)| == |multiset(Faults(t.history))|;
  }

  lemma {:induction false} FaultEntered(h: seq<Entry>, alarm: Alarm) returns (i: nat)
    requires alarm in Faults(h)
    ensures i < |h| && h[i].cause == ByFault(alarm)
    decreases |h|
  {
    var front, last := h[..|h| - 1], h[|h| - 1].cause;
    if last == ByFault(alarm) {
      i := |h| - 1;
    } else {
      i := FaultEntered(front, alarm);
    }
  }

  /** An alarm that was raised belongs to an entry into FAULT. */
  lemma AlarmHasFault(s: State, alarm: Alarm) returns (i: nat)
    requires Inv(s) && alarm in s.alarms
    ensures i < |s.history| && s.history[i].cause == ByFault(alarm)
  {
    assert AlarmEven(s, alarm);
    hide Faults, HistoryInv, OwingAlarm;
    assert multiset(s.alarms)[alarm] > 0;
    assert alarm in Faults(s.history);
    i := FaultEntered(s.history, alarm);
  }

  // ---- SHUTDOWN --------------------------------------------------------------

  /**
   A transition out of SHUTDOWN is the exchange of a halt that loaded a state from before that SHUTDOWN was entered.
   */
  lemma ShutdownLeftByHalt(steps: seq<Step>, t: State, i: nat) returns (j: nat)
    requires Run(Start(), steps, t) && i < |t.history|
    requires t.history[i].change.prev == SHUTDOWN && t.history[i].change.next != SHUTDOWN
    ensures t.history[i].cause.ByHalt? && t.history[i].cause.loaded <= j < i
    ensures t.history[j].cause.ByShutdown? && t.history[j].change.prev != SHUTDOWN
    ensures forall n :: j < n <= i ==> ModeAfter(t.history, n) == SHUTDOWN
  {
    OneChain(steps, t);
    assert Lawful(t.history, i);
    j := ShutdownEntered(t.history, t.history[i].cause.loaded, i);
  }

  /** Between a moment outside SHUTDOWN and one in it, SHUTDOWN was entered. */
  lemma {:induction false} ShutdownEntered(h: seq<Entry>, lo: nat, hi: nat) returns (j: nat)
    requires Chain(h) && AllLawful(h) && lo <= hi <= |h|
    requires ModeAfter(h, lo) != SHUTDOWN && ModeAfter(h, hi) == SHUTDOWN
    ensures lo <= j < hi && h[j].cause.ByShutdown? && h[j].change.prev != SHUTDOWN
    ensures forall n :: j < n <= hi ==> ModeAfter(h, n) == SHUTDOWN
    decreases hi
  {
    assert Lawful(h, hi - 1);
    if ModeAfter(h, hi - 1) == SHUTDOWN {
      j := ShutdownEntered(h, lo, hi - 1);
    } else {
      j := hi - 1;
    }
  }

  /** The last moment, up to the n-th transition, at which the state was not SHUTDOWN. */
  function LastOutside(h: seq<Entry>, n: nat): (d: nat)
    requires n <= |h|
    ensures d <= n && ModeAfter(h, d) != SHUTDOWN
    ensures forall i :: d < i <= n ==> ModeAfter(h, i) == SHUTDOWN
    decreases n
  {
    if ModeAfter(h, n) != SHUTDOWN then n else LastOutside(h, n - 1)
  }

  function LeftOutside(s: State): nat {
    LastOutside(s.history, |s.history|)
  }

  /** A halt that has read, or may still read, a state from before moment d or at it. */
  predicate Late(c: Call, d: nat) {
    c.HaltSwap? || (c.HaltLoad? && c.known <= d)
  }

  predicate LatePending(s: State, d: nat) {
    exists id :: id in s.calls && Late(s.calls[id], d)
  }

  /** The step is no call of halt by a thread that knows of nothing later than moment d. */
  predicate Aware(a: Step, d: nat) {
    a.Invoke? && a.op.CallHalt? ==> a.op.known > d
  }

  predicate AllAware(steps: seq<Step>, d: nat) {
    forall i :: 0 <= i < |steps| ==> Aware(steps[i], d)
  }

  /** SHUTDOWN since moment d, and no late halt. */
  ghost predicate Down(s: State, d: nat) {
    && s.mode == SHUTDOWN && d < |s.history| && !LatePending(s, d)
    && forall i :: d < i <= |s.history| ==> ModeAfter(s.history, i) == SHUTDOWN
  }

  lemma DownHolds(s: State, a: Step, d: nat)
    requires HistoryInv(s) && Down(s, d) && Enabled(s, a) && Aware(a, d)
    ensures Down(Next(s, a), d)
  {
    hide Chain, AllLawful;
    if !a.Invoke? {
      assert CallOk(s.history, s.calls[a.id]) && !Late(s.calls[a.id], d);
    }
    var t := Next(s, a);
    forall id | id in t.calls ensures !Late(t.calls[id], d) {
      if id in s.calls {
        assert !Late(s.calls[id], d);
      }
    }
    assert t.mode == SHUTDOWN;
    forall i | d < i <= |t.history| ensures ModeAfter(t.history, i) == SHUTDOWN {
      if i <= |s.history| {
        assert ModeAfter(s.history, i) == SHUTDOWN;
      }
    }
  }

  lemma {:induction false} StaysDown(s: State, steps: seq<Step>, t: State, d: nat)
    requires HistoryInv(s) && Down(s, d) && Run(s, steps, t) && AllAware(steps, d)
    ensures t.mode == SHUTDOWN
    decreases |steps|
  {
    if steps != [] {
      assert Aware(steps[0], d);
      StepHistory(s, steps[0]);
      DownHolds(s, steps[0], d);
      hide HistoryInv, Down, Enabled, Next, Aware;
      assert forall i :: 0 <= i < |steps| - 1 ==> steps[1..][i] == steps[i + 1];
      StaysDown(Next(s, steps[0]), steps[1..], t, d);
    }
  }

  /** A late halt can leave SHUTDOWN by its own steps alone. */
  lemma LateHaltLeaves(s: State, id: nat) returns (steps: seq<Step>, t: State)
    requires id in s.calls && Late(s.calls[id], LeftOutside(s))
    ensures Run(s, steps, t) && t.mode == IDLE && forall i :: 0 <= i < |steps| ==> !steps[i].Invoke?
  {
    if s.calls[id].HaltSwap? {
      t := Next(s, Exchange(id));
      steps := Prepend(s, Exchange(id), [], t);
    } else {
      var load := Load(id, LeftOutside(s));
      var s1 := Next(s, load);
      t := Next(s1, Exchange(id));
      steps := Prepend(s1, Exchange(id), [], t);
      steps := Prepend(s, load, steps, t);
    }
  }

  /** No run in which halt is called only by threads that know of the shutdown leaves SHUTDOWN. */
  ghost predicate Final(s: State) {
    forall steps, t :: Run(s, steps, t) && AllAware(steps, LeftOutside(s)) ==> t.mode == SHUTDOWN
  }

  /**
   From a reachable SHUTDOWN state, SHUTDOWN is final for calls by threads that know of it if and only if no earlier
   halt is left that has read a state from before it, or that was called without knowledge of it and has yet to read.
   */
  lemma ShutdownFinalIff(before: seq<Step>, s: State)
    requires Run(Start(), before, s) && s.mode == SHUTDOWN
    ensures Final(s) <==> !LatePending(s, LeftOutside(s))
  {
    StartInv();
    RunInv(Start(), before, s);
    var d := LeftOutside(s);
    if LatePending(s, d) {
      var id :| id in s.calls && Late(s.calls[id], d);
      hide Run, HistoryInv, CallbackInv, LeftOutside;
      var steps, t := LateHaltLeaves(s, id);
      assert AllAware(steps, d);
    } else {
      assert Down(s, d);
      hide Run, HistoryInv, CallbackInv, Down, AllAware, LeftOutside;
      forall steps, t | Run(s, steps, t) && AllAware(steps, d) ensures t.mode == SHUTDOWN {
        StaysDown(s, steps, t, d);
      }
    }
  }

  /** A halt called later by a thread that has not learnt of the shutdown can always leave it. */
  lemma UnawareHaltLeaves(s: State, id: nat) returns (steps: seq<Step>, t: State)
    requires s.mode == SHUTDOWN && id !in s.calls
    ensures Run(s, steps, t) && t.mode == IDLE
    ensures |steps| > 0 && steps[0] == Invoke(id, CallHalt(LeftOutside(s)))
  {
    var call := Invoke(id, CallHalt(LeftOutside(s)));
    var s1 := Next(s, call);
    steps, t := LateHaltLeaves(s1, id);
    steps := Prepend(s, call, steps, t);
  }

  /** A state with such a halt is reachable: it loads IDLE, a shutdown completes, and the halt then leaves SHUTDOWN. */
  lemma ShutdownCanBeLeft() returns (steps: seq<Step>, s: State)
    ensures Run(Start(), steps, s) && s.mode == SHUTDOWN && LatePending(s, LeftOutside(s))
  {
    var s0 := Start();
    var s1 := Next(s0, Invoke(0, CallHalt(0)));
    var s2 := Next(s1, Load(0, 0));
    var s3 := Next(s2, Invoke(1, CallShutdown));
    s := Next(s3, Exchange(1));
    assert s.calls[0] == HaltSwap(0);
    assert Late(s.calls[0], LeftOutside(s));
    steps := [];
    steps := Prepend(s3, Exchange(1), steps, s);
    steps := Prepend(s2, Invoke(1, CallShutdown), steps, s);
    steps := Prepend(s1, Load(0, 0), steps, s);
    steps := Prepend(s0, Invoke(0, CallHalt(0)), steps, s);
  }

  lemma Prepend(s: State, a: Step, steps: seq<Step>, t: State) returns (all: seq<Step>)
    requires Enabled(s, a) && Run(Next(s, a), steps, t)
    ensures all == [a] + steps && Run(s, all, t)
  {
    all := [a] + steps;
    assert all[1..] == steps;
  }

  // ---- What each call does when it runs alone --------------------------------

  /** The state after a call that made one transition and reported it. */
  function Changed(s: State, id: nat, next: Mode, cause: Cause): State {
    State(next, s.calls[id := Returned], s.history + [Entry(Change(next, s.mode), cause)],
          s.emitted + [Change(next, s.mode)], s.alarms)
  }

  /** start from IDLE or FAULT enters RUNNING and reports the change. */
  lemma StartRuns(s: State, id: nat) returns (steps: seq<Step>, t: State)
    requires HistoryInv(s) && id !in s.calls && (s.mode == IDLE || s.mode == FAULT)
    ensures Run(s, steps, t) && t == Changed(s, id, RUNNING, ByStart)
    ensures |steps| > 0 && steps[0] == Invoke(id, CallStart(|s.history|))
  {
    hide Chain, AllLawful, CallOk;
    var n := |s.history|;
    var s1 := Next(s, Invoke(id, CallStart(n)));
    var s2 := Next(s1, Load(id, n));
    var s3 := Next(s2, Cas(id, n, false));
    t := Next(s3, Callback(id));
    assert t.calls == s.calls[id := Returned];
    steps := [];
    steps := Prepend(s3, Callback(id), steps, t);
    steps := Prepend(s2, Cas(id, n, false), steps, t);
    steps := Prepend(s1, Load(id, n), steps, t);
    steps := Prepend(s, Invoke(id, CallStart(n)), steps, t);
  }

  /** start throws exactly when the value it has just read is RUNNING or SHUTDOWN, and then changes nothing else. */
  lemma StartThrowsIff(s: State, a: Step)
    requires Enabled(s, a) && a.id in s.calls
    requires (a.Load? && s.calls[a.id].StartLoad?) || (a.Cas? && s.calls[a.id].StartTry?)
    ensures var t, read := Next(s, a), ModeAfter(s.history, a.view);
            var taken := a.Cas? && read == s.calls[a.id].prev && !a.spurious;
            && (t.calls[a.id] == Threw <==> !taken && (read == RUNNING || read == SHUTDOWN))
            && (!taken ==> t == s.(calls := t.calls))
            && (!taken && t.calls[a.id] != Threw ==> t.calls[a.id] == StartTry(read, a.view))
  {
  }

  /** halt from any state but SHUTDOWN enters IDLE and reports the change. */
  lemma HaltRuns(s: State, id: nat) returns (steps: seq<Step>, t: State)
    requires HistoryInv(s) && id !in s.calls && s.mode != SHUTDOWN
    ensures Run(s, steps, t) && t == Changed(s, id, IDLE, ByHalt(|s.history|))
    ensures |steps| > 0 && steps[0] == Invoke(id, CallHalt(|s.history|))
  {
    hide Chain, AllLawful, CallOk;
    var n := |s.history|;
    var s1 := Next(s, Invoke(id, CallHalt(n)));
    var s2 := Next(s1, Load(id, n));
    var s3 := Next(s2, Exchange(id));
    t := Next(s3, Callback(id));
    assert t.calls == s.calls[id := Returned];
    steps := [];
    steps := Prepend(s3, Callback(id), steps, t);
    steps := Prepend(s2, Exchange(id), steps, t);
    steps := Prepend(s1, Load(id, n), steps, t);
    steps := Prepend(s, Invoke(id, CallHalt(n)), steps, t);
  }

  /** halt that finds SHUTDOWN returns and does nothing. */
  lemma HaltIgnored(s: State, id: nat) returns (steps: seq<Step>, t: State)
    requires HistoryInv(s) && id !in s.calls && s.mode == SHUTDOWN
    ensures Run(s, steps, t) && t == s.(calls := s.calls[id := Returned])
    ensures |steps| > 0 && steps[0] == Invoke(id, CallHalt(|s.history|))
  {
    hide Chain, AllLawful, CallOk;
    var n := |s.history|;
    var s1 := Next(s, Invoke(id, CallHalt(n)));
    t := Next(s1, Load(id, n));
    assert t.calls == s.calls[id := Returned];
    steps := Prepend(s1, Load(id, n), [], t);
    steps := Prepend(s, Invoke(id, CallHalt(n)), steps, t);
  }

  /** shutdown enters SHUTDOWN from any state and reports the change. */
  lemma ShutdownRuns(s: State, id: nat) returns (steps: seq<Step>, t: State)
    requires id !in s.calls
    ensures Run(s, steps, t) && t == Changed(s, id, SHUTDOWN, ByShutdown)
    ensures |steps| > 0 && steps[0] == Invoke(id, CallShutdown)
  {
    var s1 := Next(s, Invoke(id, CallShutdown));
    var s2 := Next(s1, Exchange(id));
    t := Next(s2, Callback(id));
    assert t.calls == s.calls[id := Returned];
    steps := Prepend(s2, Callback(id), [], t);
    steps := Prepend(s1, Exchange(id), steps, t);
    steps := Prepend(s, Invoke(id, CallShutdown), steps, t);
  }

  /** fault from RUNNING enters FAULT, reports the change, and then raises the alarm it was called with. */
  lemma FaultRuns(s: State, id: nat, alarm: Alarm) returns (steps: seq<Step>, u: State, t: State)
    requires HistoryInv(s) && id !in s.calls && s.mode == RUNNING
    ensures Run(s, steps, t) && t == Changed(s, id, FAULT, ByFault(alarm)).(alarms := s.alarms + [alarm])
    ensures |steps| > 1 && steps[0] == Invoke(id, CallFault(alarm, |s.history|)) && Run(s, steps[..|steps| - 1], u)
    ensures u.emitted == s.emitted + [Change(FAULT, RUNNING)] && u.alarms == s.alarms
  {
    hide Chain, AllLawful, CallOk;
    var n := |s.history|;
    var call := Invoke(id, CallFault(alarm, n));
    var s1 := Next(s, call);
    var s2 := Next(s1, Cas(id, n, false));
    u := Next(s2, Callback(id));
    t := Next(u, Callback(id));
    assert t.calls == s.calls[id := Returned];
    var most := Prepend(s2, Callback(id), [], u);
    most := Prepend(s1, Cas(id, n, false), most, u);
    most := Prepend(s, call, most, u);
    steps := Prepend(u, Callback(id), [], t);
    steps := Prepend(s2, Callback(id), steps, t);
    steps := Prepend(s1, Cas(id, n, false), steps, t);
    steps := Prepend(s, call, steps, t);
    assert steps[..|steps| - 1] == most;
  }

  /** fault that finds any other state returns and does nothing. */
  lemma FaultIgnored(s: State, id: nat, alarm: Alarm) returns (steps: seq<Step>, t: State)
    requires HistoryInv(s) && id !in s.calls && s.mode != RUNNING
    ensures Run(s, steps, t) && t == s.(calls := s.calls[id := Returned])
    ensures |steps| > 0 && steps[0] == Invoke(id, CallFault(alarm, |s.history|))
  {
    hide Chain, AllLawful, CallOk;
    var n := |s.history|;
    var s1 := Next(s, Invoke(id, CallFault(alarm, n)));
    t := Next(s1, Cas(id, n, false));
    assert t.calls == s.calls[id := Returned];
    steps := Prepend(s1, Cas(id, n, false), [], t);
    steps := Prepend(s, Invoke(id, CallFault(alarm, n)), steps, t);
  }
}
