/**
 A client and a server session over two byte channels.

 Every suspension point of the two coroutines and every repository call is one step; the network delivers bytes in
 order, in pieces of any size. The token verdict and the outcome of each insert are chosen by the environment.
 */
module Session {
  import opened Crc
  import F = Frame
  import S = SensorFrame

  datatype Config = Config(token: seq<Byte>, readings: seq<S.Reading>)

  ghost predicate Valid(c: Config) {
    && F.Sendable(AuthFrame(c))
    && forall i :: 0 <= i < |c.readings| ==> S.Representable(c.readings[i])
  }

  datatype Event = AuthOk | AuthFailSig

  datatype Entry = Entry(peer: string, event: Event)

  datatype Row = Row(reading: S.Reading, subject: string)

  function PeerId(subject: string): string {
    if subject == "" then "unknown" else subject
  }

  function AuthFrame(c: Config): F.Frame {
    F.Frame(F.AUTH, c.token)
  }

  function TelemetryFrame(r: S.Reading): F.Frame {
    F.Frame(F.TELEMETRY, S.Payload(r))
  }

  function AckFrame(): F.Frame {
    F.Frame(F.ACK, [])
  }

  function ErrorFrame(): F.Frame {
    F.Frame(F.ERROR, [])
  }

  // ---- The server ------------------------------------------------------------

  datatype Phase =
    | AwaitAuth
    | Checking(token: seq<Byte>)
    | Granting
    | Refusing
    | Receiving
    | Storing(payload: seq<Byte>)
    | Acking
    | Closed

  datatype Verdict = Pending | Given(ok: bool, logged: bool)

  /** What has passed between the server and its surroundings so far. */
  datatype History = History(
    frames: seq<F.Frame>,    // read, in order
    broken: bool,            // a read has failed
    verdict: Verdict,        // on the token, and whether it could be logged
    inserts: seq<bool>,      // outcomes of the telemetry inserts
    replies: seq<F.Frame>    // written, in order
  )

  /** The server session: where it is, the validated subject, its two tables, and its history. */
  datatype Server = Server(phase: Phase, subject: string, log: seq<Entry>, rows: seq<Row>, past: History)

  function ServerStart(): Server {
    Server(AwaitAuth, "", [], [], History([], false, Pending, [], []))
  }

  predicate Listening(p: Phase) {
    p == AwaitAuth || p == Receiving
  }

  /** A read completes, with a frame or with an exception. */
  function Take(v: Server, r: F.Result<F.Frame>): Server
    requires Listening(v.phase)
  {
    if r.Failed? then v.(phase := Closed, past := v.past.(broken := true))
    else
      var f := r.value;
      var next :=
        if v.phase == AwaitAuth then
          if f.msgType != F.AUTH then Refusing else Checking(f.payload)
        else if f.msgType != F.TELEMETRY then Closed
        else if |f.payload| >= S.SIZE then Storing(f.payload)
        else Acking;
      v.(phase := next, past := v.past.(frames := v.past.frames + [f]))
  }

  /** The token is validated and the verdict logged; a failed insert ends the session. */
  function Check(v: Server, ok: bool, subject: string, logged: bool): Server
    requires v.phase.Checking?
  {
    var past := v.past.(verdict := Given(ok, logged));
    if !logged then v.(phase := Closed, subject := subject, past := past)
    else v.(phase := if ok then Granting else Refusing, subject := subject, past := past,
            log := v.log + [Entry(PeerId(subject), if ok then AuthOk else AuthFailSig)])
  }

  /** The reading is inserted, or the insert throws and the session ends. */
  function Store(v: Server, ok: bool): Server
    requires v.phase.Storing? && |v.phase.payload| >= S.SIZE
  {
    var past := v.past.(inserts := v.past.inserts + [ok]);
    if ok then v.(phase := Acking, rows := v.rows + [Row(S.Parse(v.phase.payload), v.subject)], past := past)
    else v.(phase := Closed, past := past)
  }

  predicate Replying(p: Phase) {
    p == Granting || p == Refusing || p == Acking
  }

  function ReplyOf(p: Phase): F.Frame {
    if p == Refusing then ErrorFrame() else AckFrame()
  }

  function Reply(v: Server): Server
    requires Replying(v.phase)
  {
    v.(phase := if v.phase == Refusing then Closed else Receiving,
       past := v.past.(replies := v.past.replies + [ReplyOf(v.phase)]))
  }

  // ---- The server against an arbitrary peer ----------------------------------

  datatype Move =
    | Took(read: F.Result<F.Frame>)
    | Checked(ok: bool, subject: string, logged: bool)
    | Stored(ok: bool)
    | Replied

  predicate Allowed(v: Server, m: Move) {
    match m
    case Took(_) => Listening(v.phase)
    case Checked(_, _, _) => v.phase.Checking?
    case Stored(_) => v.phase.Storing? && |v.phase.payload| >= S.SIZE
    case Replied => Replying(v.phase)
  }

  function Moved(v: Server, m: Move): Server
    requires Allowed(v, m)
  {
    match m
    case Took(r) => Take(v, r)
    case Checked(ok, subject, logged) => Check(v, ok, subject, logged)
    case Stored(ok) => Store(v, ok)
    case Replied => Reply(v)
  }

  predicate Session(v: Server, moves: seq<Move>, w: Server)
    decreases |moves|
  {
    if moves == [] then v == w
    else Allowed(v, moves[0]) && Session(Moved(v, moves[0]), moves[1..], w)
  }

  // ---- What a session amounts to ---------------------------------------------

  /** A telemetry frame long enough to hold a reading: type 2, at least twenty bytes. */
  predicate HoldsReading(f: F.Frame) {
    f.msgType == 2 && |f.payload| >= 20
  }

  /** The rows a list of frames is worth: one for each that holds a reading. */
  function RowsIn(frames: seq<F.Frame>, subject: string): seq<Row> {
    if frames == [] then []
    else
      var last := frames[|frames| - 1];
      RowsIn(frames[..|frames| - 1], subject)
      + if HoldsReading(last) then [Row(S.Parse(last.payload), subject)] else []
  }

  function Readings(frames: seq<F.Frame>): nat {
    if frames == [] then 0
    else Readings(frames[..|frames| - 1]) + if HoldsReading(frames[|frames| - 1]) then 1 else 0
  }

  lemma RowsInNext(frames: seq<F.Frame>, f: F.Frame, subject: string)
    ensures RowsIn(frames + [f], subject)
         == RowsIn(frames, subject) + if HoldsReading(f) then [Row(S.Parse(f.payload), subject)] else []
    ensures Readings(frames + [f]) == Readings(frames) + if HoldsReading(f) then 1 else 0
  {
    assert (frames + [f])[..|frames|] == frames;
  }

  /**
   Where the session must be, from its history alone. The first frame must have type 1, later ones type 2. A refused
   session ends with its one reply; an admitted one answers every frame before it reads the next.
   */
  function Expected(h: History): Phase {
    var n := |h.frames|;
    if h.broken then Closed
    else if n == 0 then AwaitAuth
    else if h.frames[0].msgType != 1 then (if h.replies == [] then Refusing else Closed)
    else if h.verdict.Pending? then Checking(h.frames[0].payload)
    else if !h.verdict.logged then Closed
    else if !h.verdict.ok then (if h.replies == [] then Refusing else Closed)
    else if h.replies == [] then Granting
    else if |h.replies| == n then Receiving
    else if h.frames[n - 1].msgType != 2 then Closed
    else if |h.inserts| < Readings(h.frames[1..]) then Storing(h.frames[n - 1].payload)
    else if h.inserts != [] && !h.inserts[|h.inserts| - 1] then Closed
    else Acking
  }

  /** The log: nothing, or one entry with the verdict, for the subject or for "unknown" if it is empty. */
  function ExpectedLog(h: History, subject: string): seq<Entry> {
    if h.verdict.Pending? || !h.verdict.logged then []
    else [Entry(if subject == "" then "unknown" else subject, if h.verdict.ok then AuthOk else AuthFailSig)]
  }

  predicate Accepted(h: History) {
    |h.frames| >= 1 && h.frames[0].msgType == 1 && h.verdict == Given(true, true)
  }

  /** Every reply of an admitted session is an empty frame of type 3, one for each frame but possibly the last. */
  predicate Acknowledged(h: History) {
    && |h.replies| <= |h.frames| <= |h.replies| + 1
    && forall i :: 0 <= i < |h.replies| ==> h.replies[i] == F.Frame(3, [])
  }

  /** Every frame that was answered, after the first, is a telemetry frame. */
  predicate OnlyTelemetry(h: History) {
    forall i :: 1 <= i < |h.replies| && i < |h.frames| ==> h.frames[i].msgType == 2
  }

  /**
   The rows are those of the frames answered, in order and under the validated subject, and that of the frame in work
   once its insert has succeeded. Inserts never failed before the last one.
   */
  predicate Inserted(v: Server) {
    var h, m := v.past, |v.past.replies|;
    if m == 0 || m > |h.frames| then v.rows == [] && h.inserts == []
    else
      var front := RowsIn(h.frames[1..m], v.subject);
      && |front| == Readings(h.frames[1..m]) <= |h.inserts|
      && (forall i :: 0 <= i < |front| ==> h.inserts[i])
      && (if |h.inserts| == |front| then v.rows == front
          else
            && m < |h.frames| && HoldsReading(h.frames[m]) && |h.inserts| == |front| + 1
            && v.rows == front + if h.inserts[|front|] then [Row(S.Parse(h.frames[m].payload), v.subject)] else [])
  }

  /** The session is exactly what its history says. */
  ghost predicate Exact(v: Server) {
    var h := v.past;
    && v.phase == Expected(h)
    && v.log == ExpectedLog(h, v.subject)
    && (h.frames == [] || h.frames[0].msgType != 1 ==> h.verdict.Pending?)
    && (if Accepted(h) then Acknowledged(h) && OnlyTelemetry(h) && Inserted(v) else Turned(v))
  }

  /** A session not admitted has read at most one frame, stored nothing, and answered at most a refusal, by type 4. */
  predicate Turned(v: Server) {
    && v.rows == [] && v.past.inserts == [] && |v.past.frames| <= 1
    && (v.past.replies == [] || (v.past.replies == [F.Frame(4, [])] && Refused(v.past)))
  }

  predicate Refused(h: History) {
    |h.frames| == 1 && (h.frames[0].msgType != 1 || h.verdict == Given(false, true))
  }

  /** What each move adds to the history. */
  lemma MoveRecorded(v: Server, m: Move)
    requires Allowed(v, m)
    ensures var h, g := v.past, Moved(v, m).past;
            match m
            case Took(Ok(f)) => g == h.(frames := h.frames + [f])
            case Took(Failed(_)) => g == h.(broken := true)
            case Checked(ok, subject, logged) => g == h.(verdict := Given(ok, logged)) && Moved(v, m).subject == subject
            case Stored(ok) => g == h.(inserts := h.inserts + [ok])
            case Replied => |g.replies| == |h.replies| + 1 && g == h.(replies := g.replies) && h.replies <= g.replies
  {
  }

  /** The rows with the frame in work counted in. */
  lemma FrontExtends(frames: seq<F.Frame>, m: nat, subject: string)
    requires 1 <= m && |frames| == m + 1
    ensures RowsIn(frames[1..], subject)
         == RowsIn(frames[1..m], subject)
            + if HoldsReading(frames[m]) then [Row(S.Parse(frames[m].payload), subject)] else []
    ensures Readings(frames[1..]) == Readings(frames[1..m]) + if HoldsReading(frames[m]) then 1 else 0
  {
    hide RowsIn, Readings, HoldsReading, S.Parse;
    assert frames[1..] == frames[1..m] + [frames[m]];
    RowsInNext(frames[1..m], frames[m], subject);
  }

  lemma ReceiveExact(v: Server, f: F.Frame)
    requires Exact(v) && v.phase == Receiving
    ensures Exact(Take(v, F.Ok(f)))
  {
    hide RowsIn, Readings, S.Parse;
    var w, m := Take(v, F.Ok(f)), |v.past.frames|;
    assert w.past.frames[..m] == v.past.frames;
    assert w.past.frames[1..m] == v.past.frames[1..m];
    FrontExtends(w.past.frames, m, v.subject);
  }

  lemma FirstExact(v: Server, f: F.Frame)
    requires Exact(v) && v.phase == AwaitAuth
    ensures Exact(Take(v, F.Ok(f)))
  {
    hide RowsIn, Readings, S.Parse, Inserted;
    assert v.past.frames + [f] == [f];
  }

  lemma BrokenExact(v: Server, e: F.Error)
    requires Exact(v) && Listening(v.phase)
    ensures Exact(Take(v, F.Failed(e)))
  {
    hide RowsIn, Readings, S.Parse;
  }

  lemma CheckExact(v: Server, ok: bool, subject: string, logged: bool)
    requires Exact(v) && v.phase.Checking?
    ensures Exact(Check(v, ok, subject, logged))
  {
    hide RowsIn, Readings, S.Parse;
  }

  /** In Storing the frame in work holds a reading that has not been inserted; in Acking nothing is outstanding. */
  lemma InWork(v: Server)
    requires Exact(v) && (v.phase.Storing? || v.phase == Acking)
    ensures Accepted(v.past) && 1 <= |v.past.replies| && |v.past.frames| == |v.past.replies| + 1
    ensures var h, m := v.past, |v.past.replies|;
            && h.frames[m].msgType == 2
            && (v.phase.Storing? ==> HoldsReading(h.frames[m]) && v.rows == RowsIn(h.frames[1..m], v.subject)
                                     && |h.inserts| == |v.rows| && v.phase.payload == h.frames[m].payload)
            && (v.phase == Acking ==> v.rows == RowsIn(h.frames[1..], v.subject)
                                      && |h.inserts| == |v.rows| && forall i :: 0 <= i < |v.rows| ==> h.inserts[i])
  {
    hide RowsIn, Readings, S.Parse;
    FrontExtends(v.past.frames, |v.past.replies|, v.subject);
  }

  lemma StoreExact(v: Server, ok: bool)
    requires Exact(v) && v.phase.Storing? && |v.phase.payload| >= S.SIZE
    ensures Exact(Store(v, ok))
  {
    hide RowsIn, Readings, S.Parse, HoldsReading;
    InWork(v);
    FrontExtends(v.past.frames, |v.past.replies|, v.subject);
  }

  lemma AckExact(v: Server)
    requires Exact(v) && v.phase == Acking
    ensures Exact(Reply(v))
  {
    hide RowsIn, Readings, S.Parse, HoldsReading;
    InWork(v);
    var m := |v.past.replies|;
    FrontExtends(v.past.frames, m, v.subject);
    assert v.past.frames[1..m + 1] == v.past.frames[1..];
  }

  lemma AnswerExact(v: Server)
    requires Exact(v) && (v.phase == Granting || v.phase == Refusing)
    ensures Exact(Reply(v))
  {
    hide S.Parse;
    assert v.phase == Granting ==> v.past.frames[1..1] == [];
  }

  lemma MoveExact(v: Server, m: Move)
    requires Exact(v) && Allowed(v, m)
    ensures Exact(Moved(v, m))
  {
    hide Exact;
    match m
    case Took(r) =>
      if r.Failed? {
        BrokenExact(v, r.error);
      } else if v.phase == AwaitAuth {
        FirstExact(v, r.value);
      } else {
        ReceiveExact(v, r.value);
      }
    case Checked(ok, subject, logged) => CheckExact(v, ok, subject, logged);
    case Stored(ok) => StoreExact(v, ok);
    case Replied =>
      if v.phase == Acking {
        AckExact(v);
      } else {
        AnswerExact(v);
      }
  }

  lemma StartExact()
    ensures Exact(ServerStart())
  {
  }

  lemma {:induction false} SessionExact(v: Server, moves: seq<Move>, w: Server)
    requires Exact(v) && Session(v, moves, w)
    ensures Exact(w)
    decreases |moves|
  {
    hide Exact, Moved, Allowed;
    if moves != [] {
      MoveExact(v, moves[0]);
      SessionExact(Moved(v, moves[0]), moves[1..], w);
    }
  }

  /** What a read of the bytes still to come yields. */
  function ReadResult(stream: seq<Byte>): F.Result<F.Frame> {
    match F.ReadFrame(stream)
    case Ok(read) => F.Ok(read.0)
    case Failed(e) => F.Failed(e)
  }

  function Unread(stream: seq<Byte>): seq<Byte> {
    match F.ReadFrame(stream)
    case Ok(read) => read.1
    case Failed(_) => stream
  }

  /** A session fed with the bytes of an arbitrary peer, of which `rest` is left unread. */
  predicate ByteSession(v: Server, stream: seq<Byte>, moves: seq<Move>, w: Server, rest: seq<Byte>)
    decreases |moves|
  {
    if moves == [] then v == w && stream == rest
    else
      var m := moves[0];
      && Allowed(v, m)
      && (m.Took? ==> m.read == ReadResult(stream))
      && ByteSession(Moved(v, m), if m.Took? then Unread(stream) else stream, moves[1..], w, rest)
  }

  lemma FramesGrow(v: Server, m: Move)
    requires Allowed(v, m)
    ensures Moved(v, m).past.frames == v.past.frames + if m.Took? && m.read.Ok? then [m.read.value] else []
  {
  }

  /** The frames w has read beyond the first n are what the stream encodes, up to rest. */
  predicate Encoded(w: Server, n: nat, stream: seq<Byte>, rest: seq<Byte>) {
    n <= |w.past.frames| && F.AllEncodable(w.past.frames[n..]) && stream == F.Wire(w.past.frames[n..]) + rest
  }

  lemma OneMoreFrame(w: Server, n: nat, f: F.Frame, stream: seq<Byte>, left: seq<Byte>, rest: seq<Byte>)
    requires n < |w.past.frames| && w.past.frames[n] == f && Encoded(w, n + 1, left, rest)
    requires F.Encodable(f) && stream == F.Encode(f) + left
    ensures Encoded(w, n, stream, rest)
  {
    hide F.Encode, F.Wire, F.AllEncodable;
    var more := w.past.frames[n + 1..];
    assert w.past.frames[n..] == [f] + more;
    WireCons(f, w.past.frames[n..], more);
    assert F.Encode(f) + (F.Wire(more) + rest) == F.Encode(f) + F.Wire(more) + rest;
  }

  /** The frames read are exactly what the bytes consumed encode. */
  lemma {:induction false} BytesAreFrames(v: Server, stream: seq<Byte>, moves: seq<Move>, w: Server, rest: seq<Byte>)
    requires ByteSession(v, stream, moves, w, rest)
    ensures Session(v, moves, w) && v.past.frames <= w.past.frames && Encoded(w, |v.past.frames|, stream, rest)
    decreases |moves|
  {
    hide F.ReadFrame, F.Encode, F.Wire, F.AllEncodable, Moved, Allowed, Encoded, ReadResult, Unread;
    if moves == [] {
      NothingRead(v, stream);
    } else {
      var m := moves[0];
      FramesGrow(v, m);
      ReadSplits(stream);
      var left := if m.Took? then Unread(stream) else stream;
      BytesAreFrames(Moved(v, m), left, moves[1..], w, rest);
      if m.Took? && m.read.Ok? {
        FrameConsumed(w, |v.past.frames|, m.read.value, stream, left, rest);
      }
    }
  }

  lemma NothingRead(v: Server, stream: seq<Byte>)
    ensures Encoded(v, |v.past.frames|, stream, stream)
  {
    assert v.past.frames[|v.past.frames|..] == [];
  }

  lemma ReadSplits(stream: seq<Byte>)
    ensures ReadResult(stream).Ok? ==> F.ReadFrame(stream) == F.Ok((ReadResult(stream).value, Unread(stream)))
    ensures ReadResult(stream).Failed? ==> Unread(stream) == stream
  {
    hide F.ReadFrame;
  }

  lemma FrameConsumed(w: Server, n: nat, f: F.Frame, stream: seq<Byte>, left: seq<Byte>, rest: seq<Byte>)
    requires F.ReadFrame(stream) == F.Ok((f, left))
    requires n < |w.past.frames| && w.past.frames[n] == f && Encoded(w, n + 1, left, rest)
    ensures Encoded(w, n, stream, rest)
  {
    hide F.ReadFrame, F.Encode, Encoded;
    F.OneRead(stream, f, left);
    OneMoreFrame(w, n, f, stream, left, rest);
  }

  lemma WireCons(f: F.Frame, all: seq<F.Frame>, more: seq<F.Frame>)
    requires F.Encodable(f) && F.AllEncodable(more) && all == [f] + more
    ensures F.AllEncodable(all) && F.Wire(all) == F.Encode(f) + F.Wire(more)
  {
    hide F.Encode, F.Encodable;
    assert all[1..] == more;
  }

  /** The rows are the readings of the frames up to m, all of which but the first are telemetry frames. */
  predicate StoredUpTo(v: Server, m: nat) {
    && 1 <= m <= |v.past.frames| <= m + 1 && v.rows == RowsIn(v.past.frames[1..m], v.subject)
    && forall i :: 1 <= i < m ==> v.past.frames[i].msgType == 2
  }

  lemma RowsOfAccepted(w: Server)
    requires Exact(w) && w.rows != []
    ensures Accepted(w.past) && exists m :: StoredUpTo(w, m)
  {
    hide RowsIn, Readings, S.Parse;
    var h, m := w.past, |w.past.replies|;
    if m < |h.frames| {
      FrontExtends(h.frames, m, w.subject);
      assert h.frames[1..m + 1] == h.frames[1..];
    }
    assert StoredUpTo(w, m) || StoredUpTo(w, m + 1);
  }

  /**
   Whatever bytes a peer sends: the bytes consumed are the encodings of the frames read, the session is exactly what its
   history says, and there is no row without the AUTH_OK entry.
   */
  lemma NoRowBeforeAuth(stream: seq<Byte>, moves: seq<Move>, w: Server, rest: seq<Byte>)
    requires ByteSession(ServerStart(), stream, moves, w, rest)
    ensures F.AllEncodable(w.past.frames) && stream == F.Wire(w.past.frames) + rest
    ensures Exact(w)
    ensures w.rows != [] ==>
              && Accepted(w.past) && (exists m :: StoredUpTo(w, m))
              && w.log == [Entry(if w.subject == "" then "unknown" else w.subject, AuthOk)]
  {
    StartExact();
    BytesAreFrames(ServerStart(), stream, moves, w, rest);
    assert w.past.frames[0..] == w.past.frames;
    hide F.Encode, Session, Inserted, Expected, Turned, StoredUpTo;
    SessionExact(ServerStart(), moves, w);
    if w.rows != [] {
      RowsOfAccepted(w);
    }
  }

  // ---- The client and the network --------------------------------------------

  /** The client; k counts the readings acknowledged so far. */
  datatype Client = Hello | AwaitGrant | Ready(k: nat) | AwaitAck(k: nat) | Done | Aborted

  /** One direction of the connection: bytes that can be read now, and bytes still on their way. */
  datatype Channel = Channel(ready: seq<Byte>, transit: seq<Byte>) {
    function Content(): seq<Byte> {
      ready + transit
    }
  }

  datatype State = State(client: Client, up: Channel, down: Channel, server: Server)

  datatype Action =
    | Send
    | Finish
    | ClientRead
    | ClientEof
    | ServerRead
    | ServerEof
    | Verdict(ok: bool, subject: string, logged: bool)
    | Insert(ok: bool)
    | Answer
    | DeliverUp(k: nat)
    | DeliverDown(k: nat)

  function Start(): State {
    State(Hello, Channel([], []), Channel([], []), ServerStart())
  }

  predicate Waiting(c: Client) {
    c.AwaitGrant? || c.AwaitAck?
  }

  predicate Gone(c: Client) {
    c.Done? || c.Aborted?
  }

  function Read(ch: Channel): F.Result<(F.Frame, seq<Byte>)> {
    F.ReadFrame(ch.ready)
  }

  predicate Short(ch: Channel) {
    Read(ch) == F.Failed(F.EndOfStream)
  }

  predicate Enabled(c: Config, s: State, a: Action) {
    match a
    case Send => s.client.Hello? || (s.client.Ready? && s.client.k < |c.readings|)
    case Finish => s.client.Ready? && s.client.k >= |c.readings|
    case ClientRead => Waiting(s.client) && !Short(s.down)
    case ClientEof => Waiting(s.client) && Short(s.down) && s.down.transit == [] && s.server.phase == Closed
    case ServerRead => Listening(s.server.phase) && !Short(s.up)
    case ServerEof => Listening(s.server.phase) && Short(s.up) && s.up.transit == [] && Gone(s.client)
    case Verdict(_, _, _) => s.server.phase.Checking?
    case Insert(_) => s.server.phase.Storing? && |s.server.phase.payload| >= S.SIZE
    case Answer => Replying(s.server.phase)
    case DeliverUp(k) => 0 < k <= |s.up.transit|
    case DeliverDown(k) => 0 < k <= |s.down.transit|
  }

  function Delivered(ch: Channel, k: nat): Channel
    requires k <= |ch.transit|
  {
    Channel(ch.ready + ch.transit[..k], ch.transit[k..])
  }

  function Written(ch: Channel, f: F.Frame): Channel
    requires F.Encodable(f)
  {
    ch.(transit := ch.transit + F.Encode(f))
  }

  /** The client takes a frame: the grant must be an ACK; later answers are not looked at. */
  function Answered(client: Client, r: F.Result<(F.Frame, seq<Byte>)>): Client
    requires Waiting(client)
  {
    match r
    case Failed(_) => Aborted
    case Ok(read) =>
      if client.AwaitGrant? then (if read.0.msgType == F.ACK then Ready(0) else Aborted)
      else Ready(client.k + 1)
  }

  function Remaining(ch: Channel): Channel {
    ch.(ready := Unread(ch.ready))
  }

  function Outgoing(c: Config, client: Client): F.Frame
    requires client.Hello? || (client.Ready? && client.k < |c.readings|)
  {
    if client.Hello? then AuthFrame(c) else TelemetryFrame(c.readings[client.k])
  }

  function Next(c: Config, s: State, a: Action): State
    requires F.Encodable(AuthFrame(c)) && Enabled(c, s, a)
  {
    match a
    case Send => s.(client := if s.client.Hello? then AwaitGrant else AwaitAck(s.client.k),
                    up := Written(s.up, Outgoing(c, s.client)))
    case Finish => s.(client := Done)
    case ClientRead => s.(client := Answered(s.client, Read(s.down)), down := Remaining(s.down))
    case ClientEof => s.(client := Aborted)
    case ServerRead => s.(server := Take(s.server, ReadResult(s.up.ready)), up := Remaining(s.up))
    case ServerEof => s.(server := Take(s.server, F.Failed(F.EndOfStream)))
    case Verdict(ok, subject, logged) => s.(server := Check(s.server, ok, subject, logged))
    case Insert(ok) => s.(server := Store(s.server, ok))
    case Answer => s.(server := Reply(s.server), down := Written(s.down, ReplyOf(s.server.phase)))
    case DeliverUp(k) => s.(up := Delivered(s.up, k))
    case DeliverDown(k) => s.(down := Delivered(s.down, k))
  }

  predicate Run(c: Config, s: State, actions: seq<Action>, t: State)
    requires F.Encodable(AuthFrame(c))
    decreases |actions|
  {
    if actions == [] then s == t
    else Enabled(c, s, actions[0]) && Run(c, Next(c, s, actions[0]), actions[1..], t)
  }

  // ---- The lockstep invariant ------------------------------------------------

  predicate Quiet(ch: Channel) {
    ch.Content() == []
  }

  predicate Carries(ch: Channel, f: F.Frame) {
    F.Sendable(f) && ch.Content() == F.Encode(f)
  }

  function RowsFor(readings: seq<S.Reading>, subject: string): (rows: seq<Row>)
    ensures |rows| == |readings|
  {
    seq(|readings|, i requires 0 <= i < |readings| => Row(readings[i], subject))
  }

  /** The first k readings are stored and the AUTH_OK entry is the whole log. */
  predicate Holds(c: Config, v: Server, k: nat) {
    && k <= |c.readings|
    && v.rows == RowsFor(c.readings[..k], v.subject)
    && v.log == [Entry(PeerId(v.subject), AuthOk)]
  }

  predicate Nothing(v: Server) {
    v.rows == [] && v.log == []
  }

  ghost predicate GrantPhase(c: Config, s: State) {
    var v := s.server;
    match v.phase
    case AwaitAuth => Carries(s.up, AuthFrame(c)) && Quiet(s.down) && Nothing(v)
    case Checking(token) => Quiet(s.up) && Quiet(s.down) && Nothing(v) && token == c.token
    case Granting => Quiet(s.up) && Quiet(s.down) && Holds(c, v, 0)
    case Refusing => Quiet(s.up) && Quiet(s.down) && v.rows == []
    case Receiving => Quiet(s.up) && Carries(s.down, AckFrame()) && Holds(c, v, 0)
    case Closed => Quiet(s.up) && (Carries(s.down, ErrorFrame()) || Quiet(s.down)) && v.rows == []
    case _ => false
  }

  ghost predicate AckPhase(c: Config, s: State, k: nat) {
    var v := s.server;
    && k < |c.readings|
    && match v.phase
       case Receiving =>
         || (Carries(s.up, TelemetryFrame(c.readings[k])) && Quiet(s.down) && Holds(c, v, k))
         || (Quiet(s.up) && Carries(s.down, AckFrame()) && Holds(c, v, k + 1))
       case Storing(payload) => Quiet(s.up) && Quiet(s.down) && Holds(c, v, k) && payload == S.Payload(c.readings[k])
       case Acking => Quiet(s.up) && Quiet(s.down) && Holds(c, v, k + 1)
       case Closed => Quiet(s.up) && Quiet(s.down) && Holds(c, v, k)
       case _ => false
  }

  ghost predicate Inv(c: Config, s: State) {
    var v := s.server;
    match s.client
    case Hello => v.phase == AwaitAuth && Quiet(s.up) && Quiet(s.down) && Nothing(v)
    case AwaitGrant => GrantPhase(c, s)
    case Ready(k) => v.phase == Receiving && Quiet(s.up) && Quiet(s.down) && Holds(c, v, k)
    case AwaitAck(k) => AckPhase(c, s, k)
    case Done =>
      (v.phase == Receiving || v.phase == Closed) && Quiet(s.up) && Quiet(s.down) && Holds(c, v, |c.readings|)
    case Aborted => v.phase == Closed && Quiet(s.up) && Quiet(s.down) && (v.rows == [] || exists k :: Holds(c, v, k))
  }

  /** A channel carrying one frame is readable exactly when all of it has arrived, and then yields it. */
  lemma ReadCarried(ch: Channel, f: F.Frame)
    requires Carries(ch, f)
    ensures Short(ch) <==> ch.transit != []
    ensures !Short(ch) ==> Read(ch) == F.Ok((f, []))
  {
    hide F.ReadFrame, F.Encode;
    if ch.transit == [] {
      assert ch.ready == F.Encode(f) + [];
      F.ReadOne(f, []);
    } else {
      assert ch.ready < F.Encode(f);
      F.PartialWaits(f, ch.ready);
    }
  }

  lemma ReadQuiet(ch: Channel)
    requires Quiet(ch)
    ensures Short(ch) && ch.ready == [] && ch.transit == []
  {
    assert |ch.ready + ch.transit| == 0;
  }

  lemma WriteQuiet(ch: Channel, f: F.Frame)
    requires Quiet(ch) && F.Sendable(f)
    ensures Carries(Written(ch, f), f)
  {
    hide F.Encode;
    ReadQuiet(ch);
    assert [] + ([] + F.Encode(f)) == F.Encode(f);
  }

  lemma DeliverKeeps(ch: Channel, k: nat)
    requires k <= |ch.transit|
    ensures Delivered(ch, k).Content() == ch.Content()
  {
    assert ch.transit == ch.transit[..k] + ch.transit[k..];
  }

  lemma SendInv(c: Config, s: State)
    requires Valid(c) && Inv(c, s) && Enabled(c, s, Send)
    ensures Inv(c, Next(c, s, Send))
  {
    hide F.Encode, F.ReadFrame, S.Payload;
    WriteQuiet(s.up, Outgoing(c, s.client));
  }

  lemma ClientReadInv(c: Config, s: State)
    requires Valid(c) && Inv(c, s) && Enabled(c, s, ClientRead)
    ensures Inv(c, Next(c, s, ClientRead))
  {
    hide F.Encode, F.ReadFrame, S.Payload, RowsFor;
    if Quiet(s.down) {
      ReadQuiet(s.down);
      assert false;
    } else {
      var f := if s.server.phase == Closed then ErrorFrame() else AckFrame();
      ReadCarried(s.down, f);
      assert Quiet(Remaining(s.down));
    }
  }

  lemma ServerReadInv(c: Config, s: State)
    requires Valid(c) && Inv(c, s) && Enabled(c, s, ServerRead)
    ensures Inv(c, Next(c, s, ServerRead))
  {
    hide F.Encode, F.ReadFrame, S.Payload, RowsFor;
    if Quiet(s.up) {
      ReadQuiet(s.up);
      assert false;
    } else {
      var f := if s.client.AwaitGrant? then AuthFrame(c) else TelemetryFrame(c.readings[s.client.k]);
      ReadCarried(s.up, f);
      assert Quiet(Remaining(s.up));
    }
  }

  lemma RowsForNext(c: Config, k: nat, subject: string)
    requires k < |c.readings|
    ensures RowsFor(c.readings[..k + 1], subject) == RowsFor(c.readings[..k], subject) + [Row(c.readings[k], subject)]
  {
  }

  lemma InsertInv(c: Config, s: State, ok: bool)
    requires Valid(c) && Inv(c, s) && Enabled(c, s, Insert(ok))
    ensures Inv(c, Next(c, s, Insert(ok)))
  {
    hide F.Encode, F.ReadFrame, S.Payload, RowsFor, S.Parse, S.Representable;
    var k := s.client.k;
    RowsForNext(c, k, s.server.subject);
    S.ParsePayload(c.readings[k], []);
    assert S.Payload(c.readings[k]) + [] == S.Payload(c.readings[k]);
  }

  lemma VerdictInv(c: Config, s: State, ok: bool, subject: string, logged: bool)
    requires Valid(c) && Inv(c, s) && Enabled(c, s, Verdict(ok, subject, logged))
    ensures Inv(c, Next(c, s, Verdict(ok, subject, logged)))
  {
    hide F.Encode, F.ReadFrame, S.Payload;
    assert RowsFor(c.readings[..0], subject) == [];
  }

  lemma AnswerInv(c: Config, s: State)
    requires Valid(c) && Inv(c, s) && Enabled(c, s, Answer)
    ensures Inv(c, Next(c, s, Answer))
  {
    hide F.Encode, F.ReadFrame, S.Payload, RowsFor;
    WriteQuiet(s.down, ReplyOf(s.server.phase));
  }

  lemma ServerEofInv(c: Config, s: State)
    requires Valid(c) && Inv(c, s) && Enabled(c, s, ServerEof)
    ensures Inv(c, Next(c, s, ServerEof))
  {
    hide F.Encode, F.ReadFrame, S.Payload, RowsFor;
  }

  lemma ClientEofInv(c: Config, s: State)
    requires Valid(c) && Inv(c, s) && Enabled(c, s, ClientEof)
    ensures Inv(c, Next(c, s, ClientEof))
  {
    hide F.Encode, F.ReadFrame, S.Payload, RowsFor;
    if Carries(s.down, ErrorFrame()) {
      ReadCarried(s.down, ErrorFrame());
      assert false;
    }
  }

  lemma DeliverInv(c: Config, s: State, a: Action)
    requires Valid(c) && Inv(c, s) && Enabled(c, s, a) && (a.DeliverUp? || a.DeliverDown?)
    ensures Inv(c, Next(c, s, a))
  {
    hide F.Encode, F.ReadFrame, S.Payload, RowsFor, Delivered;
    if a.DeliverUp? {
      DeliverKeeps(s.up, a.k);
    } else {
      DeliverKeeps(s.down, a.k);
    }
  }

  lemma StepInv(c: Config, s: State, a: Action)
    requires Valid(c) && Inv(c, s) && Enabled(c, s, a)
    ensures Inv(c, Next(c, s, a))
  {
    hide F.Encode, F.ReadFrame, S.Payload, RowsFor, GrantPhase, AckPhase;
    match a
    case Send => SendInv(c, s);
    case Finish =>
    case ClientRead => ClientReadInv(c, s);
    case ClientEof => ClientEofInv(c, s);
    case ServerRead => ServerReadInv(c, s);
    case ServerEof => ServerEofInv(c, s);
    case Verdict(ok, subject, logged) => VerdictInv(c, s, ok, subject, logged);
    case Insert(ok) => InsertInv(c, s, ok);
    case Answer => AnswerInv(c, s);
    case DeliverUp(_) => DeliverInv(c, s, a);
    case DeliverDown(_) => DeliverInv(c, s, a);
  }

  lemma {:induction false} RunInv(c: Config, s: State, actions: seq<Action>, t: State)
    requires Valid(c) && Inv(c, s) && Run(c, s, actions, t)
    ensures Inv(c, t)
    decreases |actions|
  {
    hide Inv, Enabled, Next;
    if actions != [] {
      StepInv(c, s, actions[0]);
      RunInv(c, Next(c, s, actions[0]), actions[1..], t);
    }
  }

  // ---- What every run guarantees ---------------------------------------------

  /** The rows of any reachable state are the first readings of the client, in order, under the logged subject. */
  lemma RowsArePrefix(c: Config, actions: seq<Action>, t: State)
    requires Valid(c) && Run(c, Start(), actions, t)
    ensures t.server.rows != [] ==> exists k :: Holds(c, t.server, k)
  {
    hide Enabled, Next, RowsFor, F.Encode;
    RunInv(c, Start(), actions, t);
    match t.client
    case Hello =>
    case AwaitGrant => assert Holds(c, t.server, 0) || t.server.rows == [];
    case Ready(k) => assert Holds(c, t.server, k);
    case AwaitAck(k) => assert Holds(c, t.server, k) || Holds(c, t.server, k + 1);
    case Done => assert Holds(c, t.server, |c.readings|);
    case Aborted =>
  }

  /** The frames in flight in a channel. */
  ghost predicate InFlight(ch: Channel, fs: seq<F.Frame>) {
    F.AllEncodable(fs) && ch.Content() == F.Wire(fs)
  }

  ghost function Flight(ch: Channel): (fs: seq<F.Frame>)
    ensures Quiet(ch) ==> fs == [] && InFlight(ch, fs)
    ensures (exists f :: Carries(ch, f)) ==> |fs| == 1 && InFlight(ch, fs)
  {
    hide F.Encode;
    if exists f :: Carries(ch, f) then
      var f :| Carries(ch, f);
      assert F.Wire([f][1..]) == [];
      [f]
    else []
  }

  /** Both directions together never hold more than one frame. */
  lemma OneFrameInFlight(c: Config, actions: seq<Action>, t: State)
    requires Valid(c) && Run(c, Start(), actions, t)
    ensures InFlight(t.up, Flight(t.up)) && InFlight(t.down, Flight(t.down))
    ensures |Flight(t.up)| + |Flight(t.down)| <= 1
  {
    hide Enabled, Next, RowsFor, InFlight, Holds, F.Encode, S.Payload;
    RunInv(c, Start(), actions, t);
    OneSideQuiet(c, t);
  }

  lemma NoFrameIsEmpty(ch: Channel)
    requires Quiet(ch)
    ensures forall f :: !Carries(ch, f)
  {
  }

  lemma OneSideQuiet(c: Config, t: State)
    requires Inv(c, t)
    ensures Quiet(t.up) || Quiet(t.down)
    ensures Quiet(t.up) || exists f :: Carries(t.up, f)
    ensures Quiet(t.down) || exists f :: Carries(t.down, f)
  {
    hide RowsFor, Holds, F.Encode, S.Payload;
    assert Quiet(t.down) || Carries(t.down, AckFrame()) || Carries(t.down, ErrorFrame());
    match t.client
    case AwaitAck(k) => assert Quiet(t.up) || Carries(t.up, TelemetryFrame(c.readings[k]));
    case _ => assert Quiet(t.up) || Carries(t.up, AuthFrame(c));
  }

  /** When both sides wait for a frame, exactly one is on its way to one of them. */
  lemma NeverBothWait(c: Config, actions: seq<Action>, t: State)
    requires Valid(c) && Run(c, Start(), actions, t)
    requires Waiting(t.client) && Listening(t.server.phase)
    ensures |Flight(t.up)| + |Flight(t.down)| == 1
  {
    hide *;
    OneFrameInFlight(c, actions, t);
    StartInv(c);
    RunInv(c, Start(), actions, t);
    BothWaiting(c, t);
  }

  lemma StartInv(c: Config)
    ensures Inv(c, Start())
  {
  }

  lemma BothWaiting(c: Config, t: State)
    requires Inv(c, t) && Waiting(t.client) && Listening(t.server.phase)
    ensures (exists f :: Carries(t.up, f)) || (exists f :: Carries(t.down, f))
  {
    hide Carries, RowsFor, Holds, F.Encode, S.Payload;
    if t.client.AwaitGrant? {
      assert Carries(t.up, AuthFrame(c)) || Carries(t.down, AckFrame());
    } else {
      assert Carries(t.up, TelemetryFrame(c.readings[t.client.k])) || Carries(t.down, AckFrame());
    }
  }

  predicate Finished(s: State) {
    Gone(s.client) && s.server.phase == Closed
  }

  /** A channel with a frame can be read or still has bytes to deliver. */
  lemma CarriedMoves(ch: Channel, f: F.Frame)
    requires Carries(ch, f)
    ensures !Short(ch) || 0 < |ch.transit|
  {
    ReadCarried(ch, f);
  }

  lemma UpMoves(c: Config, s: State, f: F.Frame)
    requires Carries(s.up, f) && Listening(s.server.phase)
    ensures exists a :: Enabled(c, s, a)
  {
    hide Carries, Short, F.Encode, F.ReadFrame;
    CarriedMoves(s.up, f);
    assert Enabled(c, s, ServerRead) || Enabled(c, s, DeliverUp(1));
  }

  lemma DownMoves(c: Config, s: State, f: F.Frame)
    requires Carries(s.down, f) && Waiting(s.client)
    ensures exists a :: Enabled(c, s, a)
  {
    hide Carries, Short, F.Encode, F.ReadFrame;
    CarriedMoves(s.down, f);
    assert Enabled(c, s, ClientRead) || Enabled(c, s, DeliverDown(1));
  }

  lemma ServerWorks(c: Config, s: State)
    requires Replying(s.server.phase) || s.server.phase.Checking?
             || (s.server.phase.Storing? && |s.server.phase.payload| >= S.SIZE)
    ensures exists a :: Enabled(c, s, a)
  {
    hide F.ReadFrame;
    assert Enabled(c, s, Answer) || Enabled(c, s, Verdict(true, "", true)) || Enabled(c, s, Insert(true));
  }

  /** No deadlock: until both sides are done some step can be taken. */
  lemma Progress(c: Config, s: State)
    requires Valid(c) && Inv(c, s) && !Finished(s)
    ensures exists a :: Enabled(c, s, a)
  {
    hide F.Encode, F.ReadFrame, S.Payload, RowsFor, Holds, Short, Enabled;
    match s.client
    case Hello => assert Enabled(c, s, Send) by { SendEnabled(c, s); }
    case Ready(k) => ReadyMoves(c, s);
    case AwaitGrant =>
      if Carries(s.up, AuthFrame(c)) && Listening(s.server.phase) {
        UpMoves(c, s, AuthFrame(c));
      } else {
        WaitingMoves(c, s);
      }
    case AwaitAck(k) =>
      if Carries(s.up, TelemetryFrame(c.readings[k])) && Listening(s.server.phase) {
        UpMoves(c, s, TelemetryFrame(c.readings[k]));
      } else {
        WaitingMoves(c, s);
      }
    case Done => EofMoves(c, s);
    case Aborted =>
  }

  lemma SendEnabled(c: Config, s: State)
    requires s.client.Hello?
    ensures Enabled(c, s, Send)
  {
  }

  lemma ReadyMoves(c: Config, s: State)
    requires s.client.Ready?
    ensures exists a :: Enabled(c, s, a)
  {
    hide F.ReadFrame;
    assert Enabled(c, s, Send) || Enabled(c, s, Finish);
  }

  lemma EofMoves(c: Config, s: State)
    requires s.client.Done? && Listening(s.server.phase) && Quiet(s.up)
    ensures exists a :: Enabled(c, s, a)
  {
    ReadQuiet(s.up);
    hide F.ReadFrame, Short;
    assert Enabled(c, s, ServerEof);
  }

  lemma WaitingMoves(c: Config, s: State)
    requires Waiting(s.client)
    requires
      || Carries(s.down, AckFrame())
      || Carries(s.down, ErrorFrame())
      || (Quiet(s.down) && s.server.phase == Closed)
      || Replying(s.server.phase) || s.server.phase.Checking?
      || (s.server.phase.Storing? && |s.server.phase.payload| >= S.SIZE)
    ensures exists a :: Enabled(c, s, a)
  {
    hide F.Encode, F.ReadFrame, S.Payload;
    if Carries(s.down, AckFrame()) {
      DownMoves(c, s, AckFrame());
    } else if Carries(s.down, ErrorFrame()) {
      DownMoves(c, s, ErrorFrame());
    } else if Quiet(s.down) && s.server.phase == Closed {
      ReadQuiet(s.down);
      assert Enabled(c, s, ClientEof);
    } else {
      ServerWorks(c, s);
    }
  }

  // ---- Every run ends --------------------------------------------------------

  /** Protocol steps still to come, deliveries aside. */
  function Stage(c: Config, s: State): int {
    var n, p := |c.readings|, s.server.phase;
    match s.client
    case Hello => 5 * n + 7
    case AwaitGrant =>
      (match p
       case AwaitAuth => 5 * n + 6
       case Checking(_) => 5 * n + 5
       case Receiving => 5 * n + 3
       case Closed => 1
       case _ => 5 * n + 4)
    case Ready(k) => 5 * (n - k) + 2
    case AwaitAck(k) =>
      (match p
       case Receiving => if Quiet(s.up) then 5 * (n - k) - 2 else 5 * (n - k) + 1
       case Storing(_) => 5 * (n - k)
       case Closed => 1
       case _ => 5 * (n - k) - 1)
    case Done => if p == Closed then 0 else 1
    case Aborted => 0
  }

  function InTransit(s: State): nat {
    |s.up.transit| + |s.down.transit|
  }

  /** More than any frame of the session is long. */
  function Bound(c: Config): nat {
    F.HEADER + S.SIZE + |c.token| + 1
  }

  predicate IsDelivery(a: Action) {
    a.DeliverUp? || a.DeliverDown?
  }

  lemma DeliveryRank(c: Config, s: State, a: Action)
    requires Valid(c) && Inv(c, s) && Enabled(c, s, a) && IsDelivery(a)
    ensures Stage(c, Next(c, s, a)) == Stage(c, s) && InTransit(Next(c, s, a)) < InTransit(s)
  {
    hide F.Encode, F.ReadFrame, S.Payload, RowsFor, Holds;
    if a.DeliverUp? {
      DeliverKeeps(s.up, a.k);
    }
  }

  lemma WriteRank(c: Config, s: State, a: Action)
    requires Valid(c) && Inv(c, s) && Enabled(c, s, a) && (a.Send? || a.Answer?)
    ensures Stage(c, Next(c, s, a)) < Stage(c, s) && InTransit(Next(c, s, a)) < InTransit(s) + Bound(c)
  {
    hide F.Encode, F.ReadFrame, S.Payload, RowsFor, Holds;
    if a.Send? {
      WriteQuiet(s.up, Outgoing(c, s.client));
      NoFrameIsEmpty(s.up);
    }
  }

  lemma ReadRank(c: Config, s: State, a: Action)
    requires Valid(c) && Inv(c, s) && Enabled(c, s, a) && (a.ClientRead? || a.ServerRead?)
    ensures Stage(c, Next(c, s, a)) < Stage(c, s) && InTransit(Next(c, s, a)) <= InTransit(s)
  {
    hide F.Encode, F.ReadFrame, S.Payload, RowsFor, Holds;
    if a.ClientRead? {
      if Quiet(s.down) {
        ReadQuiet(s.down);
        assert false;
      } else {
        ReadCarried(s.down, if s.server.phase == Closed then ErrorFrame() else AckFrame());
      }
    } else {
      if Quiet(s.up) {
        ReadQuiet(s.up);
        assert false;
      } else {
        ReadCarried(s.up, if s.client.AwaitGrant? then AuthFrame(c) else TelemetryFrame(c.readings[s.client.k]));
      }
    }
  }

  lemma LocalRank(c: Config, s: State, a: Action)
    requires Valid(c) && Inv(c, s) && Enabled(c, s, a)
    requires a.Finish? || a.ClientEof? || a.ServerEof? || a.Verdict? || a.Insert?
    ensures Stage(c, Next(c, s, a)) < Stage(c, s) && InTransit(Next(c, s, a)) == InTransit(s)
  {
    hide F.Encode, F.ReadFrame, S.Payload, S.Parse, RowsFor, Carries, Quiet, Short;
  }

  lemma StageNonnegative(c: Config, s: State)
    requires Inv(c, s)
    ensures Stage(c, s) >= 0
  {
    hide F.Encode, F.ReadFrame, S.Payload, RowsFor;
  }

  /** Steps a run can still take. */
  function Fuel(c: Config, s: State): int {
    Stage(c, s) * Bound(c) + InTransit(s)
  }

  lemma Weighted(b: nat, x: int, y: int)
    requires x < y
    ensures x * b + b <= y * b
  {
    Nonnegative(b, y - x - 1);
    assert y * b == x * b + b + (y - x - 1) * b;
  }

  lemma {:induction false} Nonnegative(b: nat, d: nat)
    ensures d * b >= 0
    decreases d
  {
    if d > 0 {
      Nonnegative(b, d - 1);
      assert d * b == (d - 1) * b + b;
    }
  }

  lemma StepFuel(c: Config, s: State, a: Action)
    requires Valid(c) && Inv(c, s) && Enabled(c, s, a)
    ensures Fuel(c, Next(c, s, a)) < Fuel(c, s)
  {
    hide Inv, Enabled, Next, Stage, InTransit;
    var t := Next(c, s, a);
    if IsDelivery(a) {
      DeliveryRank(c, s, a);
    } else {
      if a.Send? || a.Answer? {
        WriteRank(c, s, a);
      } else if a.ClientRead? || a.ServerRead? {
        ReadRank(c, s, a);
      } else {
        LocalRank(c, s, a);
      }
      Weighted(Bound(c), Stage(c, t), Stage(c, s));
    }
  }

  lemma {:induction false} RunFuel(c: Config, s: State, actions: seq<Action>, t: State)
    requires Valid(c) && Inv(c, s) && Run(c, s, actions, t)
    ensures Fuel(c, t) >= 0 && |actions| <= Fuel(c, s) - Fuel(c, t)
    decreases |actions|
  {
    hide Inv, Enabled, Next, Stage, InTransit;
    if actions == [] {
      StageNonnegative(c, s);
      Nonnegative(Bound(c), Stage(c, s));
    } else {
      var u := Next(c, s, actions[0]);
      StepInv(c, s, actions[0]);
      StepFuel(c, s, actions[0]);
      hide Fuel;
      RunFuel(c, u, actions[1..], t);
    }
  }

  /** The longest a session of n readings can run. */
  lemma RunsEnd(c: Config, actions: seq<Action>, t: State)
    requires Valid(c) && Run(c, Start(), actions, t)
    ensures |actions| <= (5 * |c.readings| + 7) * Bound(c)
  {
    RunFuel(c, Start(), actions, t);
  }

  // ---- How a run ends --------------------------------------------------------

  /** The token is accepted and no insert fails. */
  predicate Smooth(a: Action) {
    match a
    case Verdict(ok, _, logged) => ok && logged
    case Insert(ok) => ok
    case _ => true
  }

  predicate OnCourse(s: State) {
    && s.client != Aborted
    && s.server.phase != Refusing
    && (s.server.phase == Closed ==> s.client == Done)
  }

  lemma SmoothStep(c: Config, s: State, a: Action)
    requires Valid(c) && Inv(c, s) && OnCourse(s) && Enabled(c, s, a) && Smooth(a)
    ensures OnCourse(Next(c, s, a))
  {
    hide F.Encode, F.ReadFrame, S.Payload, RowsFor, Holds;
    if a.ClientRead? {
      if Quiet(s.down) {
        ReadQuiet(s.down);
        assert false;
      } else {
        ReadCarried(s.down, AckFrame());
      }
    } else if a.ServerRead? {
      if Quiet(s.up) {
        ReadQuiet(s.up);
        assert false;
      } else {
        ReadCarried(s.up, if s.client.AwaitGrant? then AuthFrame(c) else TelemetryFrame(c.readings[s.client.k]));
      }
    }
  }

  lemma {:induction false} SmoothRun(c: Config, s: State, actions: seq<Action>, t: State)
    requires Valid(c) && Inv(c, s) && OnCourse(s) && Run(c, s, actions, t)
    requires forall i :: 0 <= i < |actions| ==> Smooth(actions[i])
    ensures OnCourse(t)
    decreases |actions|
  {
    hide Inv, Enabled, Next, OnCourse, Smooth;
    if actions != [] {
      SmoothStep(c, s, actions[0]);
      StepInv(c, s, actions[0]);
      SmoothRun(c, Next(c, s, actions[0]), actions[1..], t);
    }
  }

  /**
   A run that can go no further has finished on both sides. If the token was accepted and every insert succeeded, the
   stored rows are exactly the client's readings, in order, under the validated subject.
   */
  lemma Outcome(c: Config, actions: seq<Action>, t: State)
    requires Valid(c) && Run(c, Start(), actions, t)
    requires forall a :: !Enabled(c, t, a)
    ensures Finished(t)
    ensures (forall i :: 0 <= i < |actions| ==> Smooth(actions[i])) ==>
              && t.client == Done
              && t.server.log == [Entry(PeerId(t.server.subject), AuthOk)]
              && t.server.rows == RowsFor(c.readings, t.server.subject)
  {
    RunInv(c, Start(), actions, t);
    if !Finished(t) {
      Progress(c, t);
    }
    if forall i :: 0 <= i < |actions| ==> Smooth(actions[i]) {
      SmoothRun(c, Start(), actions, t);
      assert c.readings[..|c.readings|] == c.readings;
    }
  }
}
