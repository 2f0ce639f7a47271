/** The connection pool: a counting semaphore around a round-robin choice of connection. */
module DbPool {

  const POOL_SIZE: nat := 8

  // ---- Concurrent callers ----------------------------------------------------

  /**
   `entering` callers hold a permit and wait for the mutex. Acquires are numbered in mutex order: ticket t was given
   connection t mod 8. `live` tickets hold their connection, `failed` ones threw while reconnecting.
   */
  datatype State = State(permits: nat, entering: nat, next: nat, issued: nat, live: set<nat>, failed: set<nat>)

  datatype Step = Wait | Assign(ok: bool) | Release(ticket: nat)

  function Start(): State {
    State(POOL_SIZE, 0, 0, 0, {}, {})
  }

  function Connection(ticket: nat): nat {
    ticket % POOL_SIZE
  }

  function After(index: nat): nat {
    (index + 1) % POOL_SIZE
  }

  predicate Enabled(s: State, a: Step) {
    match a
    case Wait => s.permits > 0
    case Assign(_) => s.entering > 0
    case Release(t) => t in s.live
  }

  function Next(s: State, a: Step): State
    requires Enabled(s, a)
  {
    match a
    case Wait => s.(permits := s.permits - 1, entering := s.entering + 1)
    case Assign(ok) =>
      var t := s.(entering := s.entering - 1, next := After(s.next), issued := s.issued + 1);
      if ok then t.(live := s.live + {s.issued}) else t.(failed := s.failed + {s.issued})
    case Release(ticket) => s.(permits := s.permits + 1, live := s.live - {ticket})
  }

  predicate Run(s: State, steps: seq<Step>, t: State)
    decreases |steps|
  {
    if steps == [] then s == t else Enabled(s, steps[0]) && Run(Next(s, steps[0]), steps[1..], t)
  }

  /** Every permit is free, in the hands of a caller, or lost to a failed reconnect; the index follows the tickets. */
  ghost predicate Inv(s: State) {
    && s.permits + s.entering + |s.live| + |s.failed| == POOL_SIZE
    && s.next == Connection(s.issued)
    && s.live !! s.failed
    && Numbered(s)
  }

  predicate Numbered(s: State) {
    && (forall t :: t in s.live ==> t < s.issued)
    && (forall t :: t in s.failed ==> t < s.issued)
  }

  lemma ConnectionNext(t: nat)
    ensures Connection(t + 1) == After(Connection(t))
  {
  }

  lemma AssignInv(s: State, ok: bool)
    requires Inv(s) && s.entering > 0
    ensures Inv(Next(s, Assign(ok)))
  {
    ConnectionNext(s.issued);
    hide Connection, After;
    assert s.issued !in s.live && s.issued !in s.failed;
    if ok {
      assert |s.live + {s.issued}| == |s.live| + 1;
    } else {
      assert |s.failed + {s.issued}| == |s.failed| + 1;
    }
  }

  lemma ReleaseInv(s: State, t: nat)
    requires Inv(s) && t in s.live
    ensures Inv(Next(s, Release(t)))
  {
    hide Connection, After;
    assert |s.live - {t}| == |s.live| - 1;
  }

  lemma StepInv(s: State, a: Step)
    requires Inv(s) && Enabled(s, a)
    ensures Inv(Next(s, a))
  {
    hide Connection, After, Numbered;
    match a
    case Wait => assert Numbered(Next(s, a)) by { WaitNumbered(s); }
    case Assign(ok) => AssignInv(s, ok);
    case Release(t) => ReleaseInv(s, t);
  }

  lemma WaitNumbered(s: State)
    requires Numbered(s) && s.permits > 0
    ensures Numbered(Next(s, Wait))
  {
  }

  /** Permits, callers and failed acquires always add up to the pool size. */
  lemma {:induction false} Conservation(s: State, steps: seq<Step>, t: State)
    requires Inv(s) && Run(s, steps, t)
    ensures Inv(t)
    decreases |steps|
  {
    hide Inv;
    if steps != [] {
      StepInv(s, steps[0]);
      Conservation(Next(s, steps[0]), steps[1..], t);
    }
  }

  /** Eight permits: free, about to be used, held or lost; connections go round robin by the tickets issued. */
  lemma EightPermits(steps: seq<Step>, t: State)
    requires Run(Start(), steps, t)
    ensures t.permits + t.entering + |t.live| + |t.failed| == 8 && t.next == t.issued % 8
  {
    Conservation(Start(), steps, t);
  }

  /** After eight failed reconnects nobody can acquire or release again. */
  lemma Exhausted(steps: seq<Step>, t: State, a: Step)
    requires Run(Start(), steps, t) && |t.failed| == 8
    ensures !Enabled(t, a)
  {
    Conservation(Start(), steps, t);
  }

  predicate Shared(s: State) {
    exists t, u :: t in s.live && u in s.live && t < u && Connection(t) == Connection(u)
  }

  // ---- Release in acquisition order ------------------------------------------

  /** A release gives back the oldest ticket held. */
  predicate InOrder(s: State, a: Step) {
    a.Release? ==> forall t :: t in s.live ==> a.ticket <= t
  }

  predicate OrderedRun(s: State, steps: seq<Step>, t: State)
    decreases |steps|
  {
    if steps == [] then s == t
    else Enabled(s, steps[0]) && InOrder(s, steps[0]) && OrderedRun(Next(s, steps[0]), steps[1..], t)
  }

  predicate Accounted(s: State, t: nat) {
    t in s.live || t in s.failed
  }

  /** Everything issued since a live ticket is live or failed. */
  ghost predicate Window(s: State) {
    forall t, u :: t in s.live && t <= u < s.issued ==> Accounted(s, u)
  }

  lemma StepWindow(s: State, a: Step)
    requires Inv(s) && Window(s) && Enabled(s, a) && InOrder(s, a)
    ensures Window(Next(s, a))
  {
    hide Connection, After;
    var s' := Next(s, a);
    forall t, u | t in s'.live && t <= u < s'.issued ensures Accounted(s', u) {
      if t in s.live && u < s.issued {
        assert Accounted(s, u);
      }
    }
  }

  lemma {:induction false} IntervalSize(lo: nat, hi: nat, s: set<nat>)
    requires lo <= hi && forall u :: lo <= u < hi ==> u in s
    ensures hi - lo <= |s|
    decreases hi - lo
  {
    if lo < hi {
      assert hi - 1 in s;
      IntervalSize(lo, hi - 1, s - {hi - 1});
    }
  }

  /** The live tickets are among the last eight. */
  lemma WindowSize(s: State, t: nat)
    requires Inv(s) && Window(s) && t in s.live
    ensures s.issued - t <= POOL_SIZE
  {
    forall u | t <= u < s.issued ensures u in s.live + s.failed {
      assert Accounted(s, u);
    }
    IntervalSize(t, s.issued, s.live + s.failed);
    assert |s.live + s.failed| == |s.live| + |s.failed|;
  }

  lemma CloseTickets(t: nat, u: nat)
    requires t < u < t + POOL_SIZE
    ensures Connection(t) != Connection(u)
  {
  }

  lemma WindowUnshared(s: State)
    requires Inv(s) && Window(s)
    ensures !Shared(s)
  {
    forall t, u | t in s.live && u in s.live && t < u ensures Connection(t) != Connection(u) {
      WindowSize(s, t);
      CloseTickets(t, u);
    }
  }

  lemma {:induction false} OrderedKeeps(s: State, steps: seq<Step>, t: State)
    requires Inv(s) && Window(s) && OrderedRun(s, steps, t)
    ensures Inv(t) && Window(t)
    decreases |steps|
  {
    hide Inv, Window;
    if steps != [] {
      StepInv(s, steps[0]);
      StepWindow(s, steps[0]);
      OrderedKeeps(Next(s, steps[0]), steps[1..], t);
    }
  }

  /**
   If releases follow acquisition order, no two callers ever hold the same connection, and the holders sit in a
   cyclic window of the last eight tickets, failed reconnects included.
   */
  lemma OrderedNeverShares(steps: seq<Step>, t: State)
    requires OrderedRun(Start(), steps, t)
    ensures !Shared(t)
    ensures forall k :: k in t.live ==> t.issued - POOL_SIZE <= k < t.issued
  {
    OrderedKeeps(Start(), steps, t);
    WindowUnshared(t);
    forall k | k in t.live ensures t.issued - POOL_SIZE <= k < t.issued {
      WindowSize(t, k);
    }
  }

  // ---- Any other order can share ---------------------------------------------

  /** Steps left until the index comes round to the connection of ticket t. */
  function Distance(s: State, t: nat): nat {
    (POOL_SIZE + Connection(t) - Connection(s.issued)) % POOL_SIZE
  }

  lemma DistanceNext(s: State, t: nat)
    requires Connection(t) != Connection(s.issued)
    ensures Distance(s.(issued := s.issued + 1), t) < Distance(s, t)
  {
  }

  /**
   Without the order nothing protects a holder: from any reachable state with a free permit, some run keeps ticket t
   held and gives its connection to a second caller.
   */
  lemma {:induction false} CanShare(s: State, t: nat) returns (steps: seq<Step>, u: State)
    requires Inv(s) && s.permits > 0 && t in s.live
    ensures Run(s, steps, u) && t in u.live && Shared(u)
    decreases Distance(s, t)
  {
    var j := s.issued;
    var s1 := Next(s, Wait);
    var s2 := Next(s1, Assign(true));
    if Connection(t) == Connection(j) {
      steps, u := [Wait, Assign(true)], s2;
      assert Run(s2, [], u) && Run(s1, [Assign(true)], u);
      assert steps[1..] == [Assign(true)];
      assert t in u.live && j in u.live && t < j;
    } else {
      var s3 := Next(s2, Release(j));
      StepInv(s, Wait);
      StepInv(s1, Assign(true));
      StepInv(s2, Release(j));
      DistanceNext(s, t);
      var more;
      more, u := CanShare(s3, t);
      RunCons(s2, Release(j), more, u);
      RunCons(s1, Assign(true), [Release(j)] + more, u);
      RunCons(s, Wait, [Assign(true)] + ([Release(j)] + more), u);
      steps := [Wait] + ([Assign(true)] + ([Release(j)] + more));
    }
  }

  lemma RunCons(s: State, a: Step, steps: seq<Step>, t: State)
    requires Enabled(s, a) && Run(Next(s, a), steps, t)
    ensures Run(s, [a] + steps, t)
  {
    assert ([a] + steps)[1..] == steps;
  }

  /** A holder can be made to share as soon as another permit is anywhere but lost. */
  lemma HolderCanShare(s: State, t: nat) returns (steps: seq<Step>, u: State)
    requires Inv(s) && t in s.live && |s.failed| <= POOL_SIZE - 2
    ensures Run(s, steps, u) && Shared(u)
  {
    hide Connection, After;
    if s.permits > 0 {
      steps, u := CanShare(s, t);
    } else if r :| r in s.live && r != t {
      StepInv(s, Release(r));
      steps, u := CanShare(Next(s, Release(r)), t);
      RunCons(s, Release(r), steps, u);
      steps := [Release(r)] + steps;
    } else {
      assert s.live == {t};
      var s1 := Next(s, Assign(true));
      StepInv(s, Assign(true));
      StepInv(s1, Release(s.issued));
      steps, u := CanShare(Next(s1, Release(s.issued)), t);
      RunCons(s1, Release(s.issued), steps, u);
      RunCons(s, Assign(true), [Release(s.issued)] + steps, u);
      steps := [Assign(true)] + ([Release(s.issued)] + steps);
    }
  }

  lemma AssignedCanShare(s: State) returns (steps: seq<Step>, u: State)
    requires Inv(s) && s.entering > 0 && |s.failed| <= POOL_SIZE - 2
    ensures Run(s, steps, u) && Shared(u)
  {
    hide Connection, After;
    StepInv(s, Assign(true));
    steps, u := HolderCanShare(Next(s, Assign(true)), s.issued);
    RunCons(s, Assign(true), steps, u);
    steps := [Assign(true)] + steps;
  }

  lemma AnyoneCanShare(s: State) returns (steps: seq<Step>, u: State)
    requires Inv(s) && |s.failed| <= POOL_SIZE - 2
    ensures Run(s, steps, u) && Shared(u)
  {
    hide Connection, After;
    if t :| t in s.live {
      steps, u := HolderCanShare(s, t);
    } else if s.entering > 0 {
      steps, u := AssignedCanShare(s);
    } else {
      assert s.live == {};
      StepInv(s, Wait);
      steps, u := AssignedCanShare(Next(s, Wait));
      RunCons(s, Wait, steps, u);
      steps := [Wait] + steps;
    }
  }

  lemma {:induction false} FailuresStay(s: State, steps: seq<Step>, u: State)
    requires Run(s, steps, u)
    ensures s.failed <= u.failed
    decreases |steps|
  {
    if steps != [] {
      FailuresStay(Next(s, steps[0]), steps[1..], u);
    }
  }

  lemma {:induction false} SubsetSize(a: set<nat>, b: set<nat>)
    requires a <= b
    ensures |a| <= |b|
    decreases |a|
  {
    if x :| x in a {
      SubsetSize(a - {x}, b - {x});
    }
  }

  lemma SharedNeedsTwo(u: State)
    requires Inv(u) && Shared(u)
    ensures |u.failed| <= POOL_SIZE - 2
  {
    hide Connection;
    var t, w :| t in u.live && w in u.live && t < w && Connection(t) == Connection(w);
    SubsetSize({t, w}, u.live);
  }

  ghost predicate CanBeShared(s: State) {
    exists steps, u :: Run(s, steps, u) && Shared(u)
  }

  /**
   Two callers can come to hold one connection, from any reachable state, if and only if at least two permits are left
   that no failed reconnect has taken.
   */
  lemma SharingReachableIff(s: State)
    requires Inv(s)
    ensures CanBeShared(s) <==> |s.failed| <= 6
  {
    hide Inv, Shared, Run;
    if |s.failed| <= POOL_SIZE - 2 {
      var steps, u := AnyoneCanShare(s);
    }
    if CanBeShared(s) {
      var steps, u :| Run(s, steps, u) && Shared(u);
      Conservation(s, steps, u);
      FailuresStay(s, steps, u);
      SubsetSize(s.failed, u.failed);
      SharedNeedsTwo(u);
    }
  }

  /** In particular a fresh pool can share: nothing but the order of releases prevents it. */
  lemma FreshPoolCanShare() returns (steps: seq<Step>, u: State)
    ensures Run(Start(), steps, u) && Shared(u)
  {
    steps, u := AnyoneCanShare(Start());
  }

  // ---- The pool and the repository calls -------------------------------------

  /** What becomes of an acquire: it waits while no permit is free, it gets a connection, or reconnecting throws. */
  datatype Grant = Waits | Granted(connection: nat) | Throws

  class Pool {
    var permits: nat
    var next: nat
    var open: seq<bool>
    ghost var state: State

    /** The counters are those of the transition system, with nobody between semaphore and mutex. */
    ghost predicate Valid()
      reads this
    {
      Inv(state) && state.entering == 0 && permits == state.permits && next == state.next && |open| == POOL_SIZE
    }

    constructor ()
      ensures Valid() && state == Start()
    {
      permits := POOL_SIZE;
      next := 0;
      open := seq(POOL_SIZE, i => true);
      state := Start();
    }

    /** A connection is lost: the server or the network closes it, without the pool's knowledge. */
    method Lose(connection: nat)
      requires Valid() && connection < POOL_SIZE
      modifies this
      ensures Valid() && state == old(state) && open == old(open)[connection := false]
    {
      open := open[connection := false];
    }

    /** acquire; `reconnects` is the outcome of opening a closed connection again. */
    method Acquire(reconnects: bool) returns (r: Grant)
      requires Valid()
      modifies this
      ensures Valid()
      ensures r.Waits? <==> old(permits) == 0
      ensures r.Waits? ==> state == old(state) && open == old(open)
      ensures !r.Waits? ==> state == Next(Next(old(state), Wait), Assign(r.Granted?))
      ensures r.Granted? ==>
                r.connection == Connection(old(state.issued)) && r.connection < |open| && open[r.connection]
      ensures r.Throws? <==> old(permits) > 0 && !old(open)[Connection(old(state.issued))] && !reconnects
      ensures forall i :: 0 <= i < POOL_SIZE && i != old(next) ==> open[i] == old(open)[i]
    {
      if permits == 0 {
        return Waits;
      }
      permits := permits - 1;
      var idx := next;
      next := (next + 1) % POOL_SIZE;
      ghost var waited := Next(state, Wait);
      StepInv(state, Wait);
      StepInv(waited, Assign(true));
      StepInv(waited, Assign(false));
      if !open[idx] {
        if !reconnects {
          state := Next(waited, Assign(false));
          return Throws;
        }
        open := open[idx := true];
      }
      state := Next(waited, Assign(true));
      r := Granted(idx);
    }

    /** release, on behalf of the holder of a ticket. */
    method Release(ghost ticket: nat)
      requires Valid() && ticket in state.live
      modifies this
      ensures Valid() && state == Next(old(state), Step.Release(ticket)) && open == old(open)
    {
      StepInv(state, Step.Release(ticket));
      permits := permits + 1;
      state := Next(state, Step.Release(ticket));
    }
  }

  datatype Outcome = Blocked | Inserted | NoConnection | WorkFailed

  /**
   insert_telemetry and insert_auth_log: once there was a connection the ticket is given back on both paths, and no
   other caller's ticket is touched.
   */
  method Insert(pool: Pool, reconnects: bool, works: bool) returns (outcome: Outcome)
    requires pool.Valid()
    modifies pool
    ensures pool.Valid()
    ensures outcome == Blocked <==> old(pool.permits) == 0
    ensures outcome == Blocked ==> pool.state == old(pool.state)
    ensures outcome == NoConnection <==>
              old(pool.permits) > 0 && !old(pool.open)[Connection(old(pool.state.issued))] && !reconnects
    ensures outcome == Inserted || outcome == WorkFailed ==> (outcome == Inserted <==> works)
    ensures pool.state.live == old(pool.state.live)
    ensures outcome == NoConnection ==>
              && pool.permits == old(pool.permits) - 1
              && pool.state.failed == old(pool.state.failed) + {old(pool.state.issued)}
    ensures outcome != NoConnection ==>
              pool.permits == old(pool.permits) && pool.state.failed == old(pool.state.failed)
  {
    ghost var ticket := pool.state.issued;
    assert ticket !in pool.state.live;
    var conn := pool.Acquire(reconnects);
    if conn.Waits? {
      return Blocked;
    }
    if conn.Throws? {
      return NoConnection;
    }
    if !works {
      pool.Release(ticket);
      return WorkFailed;
    }
    pool.Release(ticket);
    return Inserted;
  }
}
