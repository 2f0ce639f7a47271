/**
 The queue between the node's producer and its stream readers: bounded, dropping the oldest snapshot when full.

 Push and pop each run under one mutex, so an interleaving of any number of readers is a sequence of whole pushes and
 pops. Snapshots are numbered as they are pushed; `given` lists which reader took which number.
 */
module SnapshotQueue {

  const CAP: nat := 256

  datatype Delivery = Delivery(reader: nat, index: nat)

  datatype State<T> = State(queue: seq<T>, pushed: seq<T>, given: seq<Delivery>, evicted: seq<nat>)

  /** A pop that finds the queue empty when its wait ends leaves it as it is. */
  datatype Step<T> = Push(snap: T) | Pop(reader: nat)

  function Start<T>(): State<T> {
    State([], [], [], [])
  }

  /** The number of the snapshot at the front. */
  function Front<T>(s: State<T>): int {
    |s.pushed| - |s.queue|
  }

  function Pushed<T>(s: State<T>, snap: T): State<T>
    requires Front(s) >= 0
  {
    var full := |s.queue| >= CAP;
    State((if full then s.queue[1..] else s.queue) + [snap], s.pushed + [snap], s.given,
          if full then s.evicted + [Front(s)] else s.evicted)
  }

  function Popped<T>(s: State<T>, reader: nat): State<T>
    requires Front(s) >= 0
  {
    if s.queue == [] then s
    else s.(queue := s.queue[1..], given := s.given + [Delivery(reader, Front(s))])
  }

  function Next<T>(s: State<T>, a: Step<T>): State<T>
    requires Front(s) >= 0
  {
    match a
    case Push(snap) => Pushed(s, snap)
    case Pop(reader) => Popped(s, reader)
  }

  ghost predicate Run<T>(s: State<T>, steps: seq<Step<T>>, t: State<T>)
    decreases |steps|
  {
    if steps == [] then s == t else Front(s) >= 0 && Run(Next(s, steps[0]), steps[1..], t)
  }

  /** The queue is the last snapshots pushed, at most CAP of them. */
  predicate Suffix<T(==)>(s: State<T>) {
    |s.queue| <= CAP && |s.queue| <= |s.pushed| && s.queue == s.pushed[Front(s)..]
  }

  /** Numbers are given out in production order, each at most once, to whichever reader. */
  predicate InOrder(given: seq<Delivery>, front: int) {
    && (forall i :: 0 <= i < |given| ==> given[i].index < front)
    && (forall i, j :: 0 <= i < j < |given| ==> given[i].index < given[j].index)
  }

  function Numbers(given: seq<Delivery>): set<nat> {
    set i | 0 <= i < |given| :: given[i].index
  }

  function Members(s: seq<nat>): set<nat> {
    set i | 0 <= i < |s| :: s[i]
  }

  predicate HasLeft<T>(s: State<T>, n: nat) {
    n in Numbers(s.given) || n in Members(s.evicted)
  }

  /** Every number that left the queue was either given out or evicted, never both. */
  ghost predicate Accounted<T>(s: State<T>) {
    && |s.given| + |s.evicted| + |s.queue| == |s.pushed|
    && Numbers(s.given) !! Members(s.evicted)
    && forall n: nat :: HasLeft(s, n) <==> n < Front(s)
  }

  ghost predicate Inv<T>(s: State<T>) {
    Suffix(s) && InOrder(s.given, Front(s)) && Accounted(s)
  }

  lemma NumbersAppend(given: seq<Delivery>, d: Delivery)
    ensures Numbers(given + [d]) == Numbers(given) + {d.index}
  {
    var g := given + [d];
    assert g[|given|] == d;
    assert forall i :: 0 <= i < |given| ==> g[i] == given[i];
  }

  lemma MembersAppend(s: seq<nat>, n: nat)
    ensures Members(s + [n]) == Members(s) + {n}
  {
    var t := s + [n];
    assert t[|s|] == n;
    assert forall i :: 0 <= i < |s| ==> t[i] == s[i];
  }

  lemma PushInv<T>(s: State<T>, snap: T)
    requires Inv(s)
    ensures Inv(Pushed(s, snap))
  {
    hide Numbers, Members;
    var t := Pushed(s, snap);
    assert t.queue == t.pushed[Front(t)..];
    if |s.queue| >= CAP {
      MembersAppend(s.evicted, Front(s));
    }
    assert !HasLeft(s, Front(s));
    forall n: nat ensures HasLeft(t, n) <==> n < Front(t) {
      assert HasLeft(s, n) <==> n < Front(s);
    }
  }

  lemma PopInv<T>(s: State<T>, reader: nat)
    requires Inv(s)
    ensures Inv(Popped(s, reader))
  {
    hide Numbers, Members;
    var t := Popped(s, reader);
    if s.queue != [] {
      assert t.queue == t.pushed[Front(t)..];
      NumbersAppend(s.given, Delivery(reader, Front(s)));
      assert !HasLeft(s, Front(s));
      forall n: nat ensures HasLeft(t, n) <==> n < Front(t) {
        assert HasLeft(s, n) <==> n < Front(s);
      }
    }
  }

  lemma {:induction false} RunInv<T>(s: State<T>, steps: seq<Step<T>>, t: State<T>)
    requires Inv(s) && Run(s, steps, t)
    ensures Inv(t)
    decreases |steps|
  {
    if steps != [] {
      match steps[0] {
        case Push(snap) => PushInv(s, snap);
        case Pop(reader) => PopInv(s, reader);
      }
      hide Inv;
      RunInv(Next(s, steps[0]), steps[1..], t);
    }
  }

  /** The numbers one reader was given, in the order it was given them. */
  function Seen(given: seq<Delivery>, reader: nat): seq<nat> {
    if given == [] then []
    else
      var last := given[|given| - 1];
      Seen(given[..|given| - 1], reader) + if last.reader == reader then [last.index] else []
  }

  predicate Increasing(s: seq<nat>) {
    forall i, j :: 0 <= i < j < |s| ==> s[i] < s[j]
  }

  lemma {:induction false} SeenIncreases(given: seq<Delivery>, front: int, reader: nat)
    requires InOrder(given, front)
    ensures Increasing(Seen(given, reader))
    ensures forall i :: 0 <= i < |Seen(given, reader)| ==> Seen(given, reader)[i] < front
    decreases |given|
  {
    if given != [] {
      var init, last := given[..|given| - 1], given[|given| - 1];
      assert InOrder(init, last.index);
      SeenIncreases(init, last.index, reader);
    }
  }

  /**
   In every interleaving: the queue is the last at most 256 snapshots pushed; each snapshot goes to at most one reader;
   each reader sees production order; delivered, evicted and queued make up everything pushed.
   */
  lemma Guarantees<T>(steps: seq<Step<T>>, t: State<T>, reader: nat)
    requires Run(Start(), steps, t)
    ensures |t.queue| <= 256 && |t.queue| <= |t.pushed| && t.queue == t.pushed[|t.pushed| - |t.queue|..]
    ensures forall i, j :: 0 <= i < j < |t.given| ==> t.given[i].index != t.given[j].index
    ensures Increasing(Seen(t.given, reader))
    ensures |t.given| + |t.evicted| + |t.queue| == |t.pushed| && Accounted(t)
  {
    assert Inv(Start<T>());
    hide Numbers, Members, Seen, Increasing, Accounted;
    RunInv(Start(), steps, t);
    Conserved(t);
    SeenIncreases(t.given, Front(t), reader);
  }

  /** After any run a push evicts, and then the oldest queued snapshot, exactly when 256 are queued. */
  lemma EvictsIff<T>(steps: seq<Step<T>>, t: State<T>, snap: T)
    requires Run(Start(), steps, t)
    ensures Front(t) >= 0
    ensures |t.queue| == 256 <==> Pushed(t, snap).evicted != t.evicted
    ensures |t.queue| == 256 ==> Pushed(t, snap).evicted == t.evicted + [|t.pushed| - 256]
    ensures Pushed(t, snap).queue == (t.queue + [snap])[if |t.queue| == 256 then 1 else 0..]
  {
    assert Inv(Start<T>());
    RunInv(Start(), steps, t);
  }

  lemma Conserved<T>(t: State<T>)
    requires Accounted(t)
    ensures |t.given| + |t.evicted| + |t.queue| == |t.pushed|
  {
  }

  // ---- The node's queue ------------------------------------------------------

  datatype Option<T> = None | Some(value: T)

  class Queue<T> {
    var stream: seq<T>
    ghost var state: State<T>

    ghost predicate Valid()
      reads this
    {
      Inv(state) && stream == state.queue
    }

    constructor ()
      ensures Valid() && state == Start()
    {
      stream, state := [], Start();
    }

    /** PushSnapshot: drop the oldest if the queue is full, then append. */
    method Push(snap: T)
      requires Valid()
      modifies this
      ensures Valid() && state == Pushed(old(state), snap)
      ensures |stream| > 0 && stream[|stream| - 1] == snap
    {
      PushInv(state, snap);
      hide Inv, Suffix, Accounted, InOrder;
      assert Front(state) >= 0 by { FrontNonnegative(state); }
      state := Pushed(state, snap);
      if |stream| >= CAP {
        stream := stream[1..];
      }
      stream := stream + [snap];
    }

    /** PopSnapshot, once its wait is over: the oldest snapshot, if there is one. */
    method Pop(reader: nat) returns (out: Option<T>)
      requires Valid()
      modifies this
      ensures Valid() && state == Popped(old(state), reader)
      ensures out.None? <==> old(stream) == []
      ensures out.Some? ==> out.value == old(state.pushed[Front(state)])
    {
      FrontNonnegative(state);
      PopInv(state, reader);
      if stream == [] {
        return None;
      }
      out := Some(stream[0]);
      assert stream[0] == state.pushed[Front(state)];
      hide Inv, Suffix, Accounted, InOrder;
      state := Popped(state, reader);
      stream := stream[1..];
    }
  }

  lemma FrontNonnegative<T>(s: State<T>)
    requires Inv(s)
    ensures Front(s) >= 0
  {
  }
}
