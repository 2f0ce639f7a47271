/**
 The single-producer single-consumer ring, one atomic access per step.

 Indices are what the source stores; the lists of accepted and popped frames are history. Each side reads the other
 side's index possibly late: any value it has held since the reader last looked. Copying a frame into or out of a
 slot takes two steps, and in between the slot is in use.
 */
module Ring {

  const CAPACITY: nat := 1024

  datatype Slot<T> = Unspecified | Full(frame: T)

  datatype Producer<T> =
    | PIdle
    | PLoaded(frame: T, tail: nat)
    | PDropping
    | PFree(frame: T, tail: nat)
    | PWriting(frame: T, tail: nat)
    | PWritten(frame: T, tail: nat)

  datatype Consumer<T> =
    | CIdle
    | CLoaded(head: nat)
    | CReady(head: nat)
    | CReading(head: nat)
    | CTaken(head: nat, out: T)

  datatype State<T> = State(
    buf: seq<Slot<T>>,
    head: nat,
    tail: nat,
    dropped: nat,
    producer: Producer<T>,
    consumer: Consumer<T>,
    seenHead: nat,
    seenTail: nat,
    accepted: seq<T>,
    popped: seq<T>,
    pushes: nat
  )

  /** A view is the number of frames the other side had accepted or popped when it stored the value read. */
  datatype Step<T> =
    | Push(frame: T)
    | LoadHead(view: nat)
    | Drop
    | BeginWrite
    | EndWrite
    | StoreTail
    | Pop
    | LoadTail(view: nat)
    | BeginRead
    | EndRead
    | StoreHead

  function Start<T>(): State<T> {
    State(seq(CAPACITY, i => Unspecified), 0, 0, 0, PIdle, CIdle, 0, 0, [], [], 0)
  }

  function Index(count: nat): (i: nat)
    ensures i < CAPACITY
  {
    count % CAPACITY
  }

  function After(index: nat): (i: nat)
    ensures i < CAPACITY
  {
    (index + 1) % CAPACITY
  }

  /**
   Which step a side can take next; the guards on slots are shown to hold whenever a side gets there (NeverBlocks).
   */
  predicate Enabled<T(==)>(s: State<T>, a: Step<T>) {
    match a
    case Push(_) => s.producer.PIdle?
    case LoadHead(v) => s.producer.PLoaded? && s.seenHead <= v <= |s.popped|
    case Drop => s.producer.PDropping?
    case BeginWrite => s.producer.PFree? && s.producer.tail < |s.buf|
    case EndWrite => s.producer.PWriting? && s.producer.tail < |s.buf|
    case StoreTail => s.producer.PWritten?
    case Pop => s.consumer.CIdle?
    case LoadTail(v) => s.consumer.CLoaded? && s.seenTail <= v <= |s.accepted|
    case BeginRead => s.consumer.CReady?
    case EndRead => s.consumer.CReading? && s.consumer.head < |s.buf| && s.buf[s.consumer.head].Full?
    case StoreHead => s.consumer.CTaken?
  }

  function Next<T>(s: State<T>, a: Step<T>): State<T>
    requires Enabled(s, a)
  {
    match a
    case Push(f) => s.(producer := PLoaded(f, s.tail))
    case LoadHead(v) =>
      var p := s.producer;
      s.(seenHead := v, producer := if After(p.tail) == Index(v) then PDropping else PFree(p.frame, p.tail))
    case Drop => s.(dropped := s.dropped + 1, pushes := s.pushes + 1, producer := PIdle)
    case BeginWrite =>
      var p := s.producer;
      s.(buf := s.buf[p.tail := Unspecified], producer := PWriting(p.frame, p.tail))
    case EndWrite =>
      var p := s.producer;
      s.(buf := s.buf[p.tail := Full(p.frame)], producer := PWritten(p.frame, p.tail))
    case StoreTail =>
      var p := s.producer;
      s.(tail := After(p.tail), accepted := s.accepted + [p.frame], pushes := s.pushes + 1, producer := PIdle)
    case Pop => s.(consumer := CLoaded(s.head))
    case LoadTail(v) =>
      var h := s.consumer.head;
      s.(seenTail := v, consumer := if h == Index(v) then CIdle else CReady(h))
    case BeginRead => s.(consumer := CReading(s.consumer.head))
    case EndRead =>
      var h := s.consumer.head;
      s.(buf := s.buf[h := Unspecified], consumer := CTaken(h, s.buf[h].frame))
    case StoreHead =>
      var c := s.consumer;
      s.(head := After(c.head), popped := s.popped + [c.out], consumer := CIdle)
  }

  ghost predicate Run<T>(s: State<T>, steps: seq<Step<T>>, t: State<T>)
    decreases |steps|
  {
    if steps == [] then s == t else Enabled(s, steps[0]) && Run(Next(s, steps[0]), steps[1..], t)
  }

  // ---- Indices and counts ----------------------------------------------------

  lemma IndexAfter(n: nat)
    ensures After(Index(n)) == Index(n + 1)
  {
  }

  /** Within one lap, counts have the same index only if they are equal. */
  lemma IndexInjective(m: nat, n: nat)
    requires m <= n <= m + CAPACITY
    ensures Index(m) == Index(n) <==> m == n || n == m + CAPACITY
  {
  }

  // ---- The invariant ---------------------------------------------------------

  ghost predicate Counts<T>(s: State<T>) {
    && |s.buf| == CAPACITY
    && s.tail == Index(|s.accepted|)
    && s.head == Index(|s.popped|)
    && s.seenHead <= |s.popped| <= s.seenTail <= |s.accepted|
    && |s.accepted| <= s.seenHead + (CAPACITY - 1)
    && s.pushes == |s.accepted| + s.dropped
  }

  /** The frames popped are the first frames accepted. */
  predicate Ordered<T(==)>(s: State<T>) {
    s.popped <= s.accepted
  }

  predicate Holds<T(==)>(s: State<T>, i: nat) {
    i < |s.accepted| && |s.buf| == CAPACITY && s.buf[Index(i)] == Full(s.accepted[i])
  }

  predicate Taken<T>(s: State<T>) {
    s.consumer.CTaken?
  }

  /** Every frame accepted and not yet taken out is in its slot. */
  ghost predicate Slots<T>(s: State<T>) {
    forall i :: |s.popped| <= i < |s.accepted| && (i > |s.popped| || !Taken(s)) ==> Holds(s, i)
  }

  ghost predicate ProducerInv<T>(s: State<T>) {
    match s.producer
    case PIdle => true
    case PLoaded(_, t) => t == s.tail
    case PDropping => |s.accepted| == s.seenHead + (CAPACITY - 1)
    case PFree(_, t) => t == s.tail && |s.accepted| < s.seenHead + (CAPACITY - 1)
    case PWriting(_, t) => t == s.tail && |s.accepted| < s.seenHead + (CAPACITY - 1)
    case PWritten(f, t) => t == s.tail && |s.accepted| < s.seenHead + (CAPACITY - 1)
                           && t < |s.buf| && s.buf[t] == Full(f)
  }

  ghost predicate ConsumerInv<T>(s: State<T>) {
    match s.consumer
    case CIdle => true
    case CLoaded(h) => h == s.head
    case CReady(h) => h == s.head && |s.popped| < s.seenTail
    case CReading(h) => h == s.head && |s.popped| < s.seenTail
    case CTaken(h, out) => h == s.head && |s.popped| < s.seenTail && |s.popped| < |s.accepted|
                           && out == s.accepted[|s.popped|]
  }

  ghost predicate Inv<T>(s: State<T>) {
    Counts(s) && Ordered(s) && Slots(s) && ProducerInv(s) && ConsumerInv(s)
  }

  /** The slot the producer fills holds no frame waiting to be popped. */
  lemma TailSlotFree<T>(s: State<T>, i: nat)
    requires Counts(s) && |s.popped| <= i < |s.accepted|
    ensures Index(i) != s.tail
  {
    IndexInjective(i, |s.accepted|);
  }

  lemma HeadSlot<T>(s: State<T>, i: nat)
    requires Counts(s) && |s.popped| < i < |s.accepted|
    ensures Index(i) != s.head
  {
    IndexInjective(|s.popped|, i);
  }

  /** No step lets the producer write a slot while the consumer reads it. */
  lemma NoRace<T>(s: State<T>)
    requires Inv(s) && s.producer.PWriting? && s.consumer.CReading?
    ensures s.producer.tail != s.consumer.head
  {
    IndexInjective(|s.popped|, |s.accepted|);
  }

  lemma LoadHeadInv<T>(s: State<T>, v: nat)
    requires Inv(s) && Enabled(s, LoadHead(v))
    ensures Inv(Next(s, LoadHead(v)))
  {
    IndexAfter(|s.accepted|);
    IndexInjective(v, |s.accepted| + 1);
    hide Index, After;
    var t := Next(s, LoadHead(v));
    forall i | |t.popped| <= i < |t.accepted| && (i > |t.popped| || !Taken(t)) ensures Holds(t, i) {
      assert Holds(s, i);
    }
  }

  lemma LoadTailInv<T>(s: State<T>, v: nat)
    requires Inv(s) && Enabled(s, LoadTail(v))
    ensures Inv(Next(s, LoadTail(v)))
  {
    IndexInjective(|s.popped|, v);
    hide Index, After;
    var t := Next(s, LoadTail(v));
    forall i | |t.popped| <= i < |t.accepted| && (i > |t.popped| || !Taken(t)) ensures Holds(t, i) {
      assert Holds(s, i);
    }
  }

  lemma WriteInv<T>(s: State<T>, a: Step<T>)
    requires Inv(s) && Enabled(s, a) && (a.BeginWrite? || a.EndWrite?)
    ensures Inv(Next(s, a))
  {
    hide Index, After;
    var t := Next(s, a);
    forall i | |t.popped| <= i < |t.accepted| && (i > |t.popped| || !Taken(t)) ensures Holds(t, i) {
      assert Holds(s, i);
      TailSlotFree(s, i);
    }
  }

  lemma StoreTailInv<T>(s: State<T>)
    requires Inv(s) && Enabled(s, StoreTail)
    ensures Inv(Next(s, StoreTail))
  {
    IndexAfter(|s.accepted|);
    hide Index, After;
    var t := Next(s, StoreTail);
    forall i | |t.popped| <= i < |t.accepted| && (i > |t.popped| || !Taken(t)) ensures Holds(t, i) {
      if i < |s.accepted| {
        assert Holds(s, i);
      }
    }
  }

  lemma EndReadInv<T>(s: State<T>)
    requires Inv(s) && Enabled(s, EndRead)
    ensures Inv(Next(s, EndRead))
  {
    assert Holds(s, |s.popped|);
    hide Index, After;
    var t := Next(s, EndRead);
    forall i | |t.popped| < i < |t.accepted| ensures Holds(t, i) {
      assert Holds(s, i);
      HeadSlot(s, i);
    }
    WrittenSlotKept(s);
  }

  lemma WrittenSlotKept<T>(s: State<T>)
    requires Counts(s) && |s.popped| < |s.accepted|
    ensures s.tail != s.head
  {
    IndexInjective(|s.popped|, |s.accepted|);
  }

  lemma StoreHeadInv<T>(s: State<T>)
    requires Inv(s) && Enabled(s, StoreHead)
    ensures Inv(Next(s, StoreHead))
  {
    IndexAfter(|s.popped|);
    hide Index, After;
    var t := Next(s, StoreHead);
    forall i | |t.popped| <= i < |t.accepted| && (i > |t.popped| || !Taken(t)) ensures Holds(t, i) {
      assert Holds(s, i);
    }
  }

  lemma LocalInv<T>(s: State<T>, a: Step<T>)
    requires Inv(s) && Enabled(s, a) && (a.Push? || a.Drop? || a.Pop? || a.BeginRead?)
    ensures Inv(Next(s, a))
  {
    hide Index, After;
    var t := Next(s, a);
    forall i | |t.popped| <= i < |t.accepted| && (i > |t.popped| || !Taken(t)) ensures Holds(t, i) {
      assert Holds(s, i);
    }
  }

  lemma StepInv<T>(s: State<T>, a: Step<T>)
    requires Inv(s) && Enabled(s, a)
    ensures Inv(Next(s, a))
  {
    hide Inv, Enabled, Next;
    match a
    case LoadHead(v) => LoadHeadInv(s, v);
    case LoadTail(v) => LoadTailInv(s, v);
    case BeginWrite => WriteInv(s, a);
    case EndWrite => WriteInv(s, a);
    case StoreTail => StoreTailInv(s);
    case EndRead => EndReadInv(s);
    case StoreHead => StoreHeadInv(s);
    case _ => LocalInv(s, a);
  }

  lemma StartInv<T>()
    ensures Inv(Start<T>())
  {
  }

  lemma {:induction false} RunInv<T>(s: State<T>, steps: seq<Step<T>>, t: State<T>)
    requires Inv(s) && Run(s, steps, t)
    ensures Inv(t)
    decreases |steps|
  {
    hide Inv, Enabled, Next;
    if steps != [] {
      StepInv(s, steps[0]);
      RunInv(Next(s, steps[0]), steps[1..], t);
    }
  }

  // ---- What every interleaving guarantees ------------------------------------

  /**
   The frames popped are a prefix of the frames accepted; at most 1023 are held; every completed push was
   accepted or dropped; a slot is never written while it is read.
   */
  lemma Guarantees<T>(steps: seq<Step<T>>, t: State<T>)
    requires Run(Start(), steps, t)
    ensures t.popped <= t.accepted
    ensures |t.accepted| - |t.popped| <= 1023
    ensures |t.accepted| + t.dropped == t.pushes
    ensures t.producer.PWriting? && t.consumer.CReading? ==> t.producer.tail != t.consumer.head
  {
    StartInv<T>();
    RunInv(Start(), steps, t);
    if t.producer.PWriting? && t.consumer.CReading? {
      NoRace(t);
    }
  }

  /** A push is dropped exactly when the producer's view shows 1023 frames held. */
  lemma DropIff<T>(steps: seq<Step<T>>, t: State<T>, v: nat)
    requires Run(Start(), steps, t) && Enabled(t, LoadHead(v))
    ensures Next(t, LoadHead(v)).producer.PDropping? <==> |t.accepted| - v == 1023
  {
    StartInv<T>();
    RunInv(Start(), steps, t);
    IndexAfter(|t.accepted|);
    IndexInjective(v, |t.accepted| + 1);
  }

  /** A pop comes back empty exactly when the consumer's view shows nothing beyond what it has popped. */
  lemma EmptyIff<T>(steps: seq<Step<T>>, t: State<T>, v: nat)
    requires Run(Start(), steps, t) && Enabled(t, LoadTail(v))
    ensures Next(t, LoadTail(v)).consumer.CIdle? <==> v == |t.popped|
  {
    StartInv<T>();
    RunInv(Start(), steps, t);
    IndexInjective(|t.popped|, v);
  }

  predicate PushStep<T>(a: Step<T>) {
    a.Push? || a.LoadHead? || a.Drop? || a.BeginWrite? || a.EndWrite? || a.StoreTail?
  }

  predicate PopStep<T>(a: Step<T>) {
    a.Pop? || a.LoadTail? || a.BeginRead? || a.EndRead? || a.StoreHead?
  }

  lemma PusherMoves<T>(s: State<T>, frame: T) returns (a: Step<T>)
    requires Inv(s)
    ensures Enabled(s, a) && PushStep(a)
  {
    a := match s.producer
      case PIdle => Push(frame)
      case PLoaded(_, _) => LoadHead(s.seenHead)
      case PDropping => Drop
      case PFree(_, _) => BeginWrite
      case PWriting(_, _) => EndWrite
      case PWritten(_, _) => StoreTail;
  }

  lemma PopperMoves<T>(s: State<T>) returns (a: Step<T>)
    requires Inv(s)
    ensures Enabled(s, a) && PopStep(a)
  {
    assert s.consumer.CReading? ==> Holds(s, |s.popped|);
    a := match s.consumer
      case CIdle => Pop
      case CLoaded(_) => LoadTail(s.seenTail)
      case CReady(_) => BeginRead
      case CReading(_) => EndRead
      case CTaken(_, _) => StoreHead;
  }

  /** Neither side ever waits for the other: whatever the other does, each has a step to take. */
  lemma NeverBlocks<T>(steps: seq<Step<T>>, t: State<T>, frame: T)
    requires Run(Start(), steps, t)
    ensures exists a :: Enabled(t, a) && PushStep(a)
    ensures exists a :: Enabled(t, a) && PopStep(a)
  {
    StartInv<T>();
    hide *;
    RunInv(Start(), steps, t);
    var a := PusherMoves(t, frame);
    var b := PopperMoves(t);
  }
}
