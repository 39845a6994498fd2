/**
 * The multiplexing HTTP/2 connection (section 5 of RFC 9113) as a machine of atomic steps: one step for each
 * request sent under the send lock, each frame the reader dispatches, and each call that changes the stream table.
 */
module H2Conn {
  import opened Prelude
  import opened H2Frames

  const MAX_FRAME := 16384
  const CONN_WINDOW_INCREMENT := 12517377
  const E_CANCEL := 8
  const HEADERS_PRIORITY: Bytes := [0, 0, 0, 0, 41]
  const OPENING_SETTINGS: seq<(nat, nat)> := [(1, 65536), (2, 0), (4, 131072), (5, 16384)]

  datatype Failure = OverCap | GoAway(code: int) | Reset | PeerClosed | Broken | ClosedHere

  /**
   * What a future is settled with. An answer fixes the body, and the status from the header blocks so far; the header
   * list it holds is the stream's own, to which a later block is still added.
   */
  datatype Outcome = Failed(why: Failure) | Answer(blocks: seq<Bytes>, body: Bytes) | Cancelled

  /** One request's response: the header blocks received, the body in chunks, and how it ended. */
  datatype Stream = Stream(
    blocks: seq<Bytes>, chunks: seq<Bytes>, nbytes: nat, maxBytes: nat,
    done: bool, error: Option<Failure>,
    awaited: bool,             // an event loop waits for a future
    scheduled: nat,            // calls of `_resolve` queued on that loop
    future: Option<Outcome>)

  function NewStream(maxBytes: nat, awaited: bool): Stream {
    Stream([], [], 0, maxBytes, false, None, awaited, 0, None)
  }

  function Finish(st: Stream): Stream {
    st.(done := true, scheduled := if st.awaited then st.scheduled + 1 else st.scheduled)
  }

  function Fail(st: Stream, why: Failure): Stream {
    if st.done then st else Finish(st.(error := Some(why)))
  }

  predicate OverLimit(st: Stream) { st.maxBytes > 0 && st.nbytes > st.maxBytes }

  function Received(st: Stream, payload: Bytes): Stream {
    st.(chunks := st.chunks + [payload], nbytes := st.nbytes + |payload|)
  }

  function OnData(st: Stream, payload: Bytes, end: bool): Stream {
    if st.done then st
    else
      var st := Received(st, payload);
      if OverLimit(st) then Finish(st.(error := Some(OverCap)))
      else if end then Finish(st)
      else st
  }

  function OnBlock(st: Stream, bytes: Bytes, end: bool): Stream {
    var st := st.(blocks := st.blocks + [bytes]);
    if end then Finish(st) else st
  }

  function Resolve(st: Stream): Stream {
    if st.scheduled == 0 then st
    else
      var st := st.(scheduled := st.scheduled - 1);
      if st.future.Some? then st
      else if st.error.Some? then st.(future := Some(Failed(st.error.value)))
      else st.(future := Some(Answer(st.blocks, Concat(st.chunks))))
  }

  function Abandon(st: Stream): Stream {
    if st.future.Some? then st else st.(future := Some(Cancelled))
  }

  /** A header block under assembly. */
  datatype Block = Block(sid: nat, bytes: Bytes, end: bool)

  datatype Conn = Conn(
    streams: map<nat, Stream>,
    popped: map<nat, Stream>,      // left the table; a caller may still hold them
    nextId: nat, closed: bool, closing: bool, maxConcurrent: nat, goawayLast: nat,
    block: Option<Block>,
    wire: seq<seq<Frame>>,         // what each write under the send lock put on the wire
    gone: bool)                    // the reader has left its loop

  function SettingsPayload(settings: seq<(nat, nat)>): Bytes {
    if settings == [] then []
    else BigEndian(settings[0].0, 2) + BigEndian(settings[0].1, 4) + SettingsPayload(settings[1..])
  }

  function WindowUpdate(sid: nat, n: nat): Frame { Frame(WINDOW_UPDATE, 0, sid, BigEndian(n, 4)) }

  /** After the preface: SETTINGS and the connection's window. */
  function Init(): Conn {
    Conn(map[], map[], 1, false, false, 100, 0x8000_0000, None,
         [[Frame(SETTINGS, 0, 0, SettingsPayload(OPENING_SETTINGS)), WindowUpdate(0, CONN_WINDOW_INCREMENT)]], false)
  }

  // ---- sending ----

  function DataFrames(sid: nat, body: Bytes): seq<Frame>
    decreases |body|
  {
    if body == [] then []
    else if |body| <= MAX_FRAME then [Frame(DATA, END_STREAM, sid, body)]
    else [Frame(DATA, 0, sid, body[..MAX_FRAME])] + DataFrames(sid, body[MAX_FRAME..])
  }

  function HeadersFrame(sid: nat, block: Bytes, end: bool): Frame {
    var flags := END_HEADERS + (if end then END_STREAM else 0);
    if sid == 1 then Frame(HEADERS, flags + PRIORITY, sid, HEADERS_PRIORITY + block)
    else Frame(HEADERS, flags, sid, block)
  }

  function RequestFrames(sid: nat, block: Bytes, body: Bytes): seq<Frame> {
    [HeadersFrame(sid, block, body == [])] + DataFrames(sid, body)
  }

  function Send(c: Conn, block: Bytes, body: Bytes, maxBytes: nat, awaited: bool): Conn {
    if c.closed then c
    else c.(
      streams := c.streams[c.nextId := NewStream(maxBytes, awaited)],
      nextId := c.nextId + 2,
      wire := c.wire + [RequestFrames(c.nextId, block, body)])
  }

  function SendReset(c: Conn, sid: nat): Conn {
    if c.closed || c.closing then c
    else c.(wire := c.wire + [[Frame(RST_STREAM, 0, sid, BigEndian(E_CANCEL, 4))]])
  }

  // ---- dispatching ----

  /** Dispatching neither adds nor removes streams, and never reopens. */
  predicate SameTable(c: Conn, d: Conn) {
    && d.streams.Keys == c.streams.Keys && d.popped == c.popped && d.nextId == c.nextId
    && d.closing == c.closing && d.gone == c.gone && (c.closed ==> d.closed)
  }

  function FinishHeaders(c: Conn, b: Block): (d: Conn)
    ensures SameTable(c, d)
  {
    var c := c.(block := None);
    if b.sid in c.streams then c.(streams := c.streams[b.sid := OnBlock(c.streams[b.sid], b.bytes, b.end)]) else c
  }

  /** The DATA frame reaches a stream that still takes it. */
  predicate Accepts(c: Conn, sid: nat) { sid in c.streams && !c.streams[sid].done }

  function Credits(sid: nat, n: nat, end: bool): seq<Frame> {
    [WindowUpdate(0, n)] + if end then [] else [WindowUpdate(sid, n)]
  }

  function OnDataFrame(c: Conn, f: Frame): (d: Conn)
    ensures SameTable(c, d)
  {
    if !Accepts(c, f.sid) then c
    else
      var st, end := c.streams[f.sid], EndStream(f.flags);
      var c1 := if f.payload == [] then c else c.(wire := c.wire + [Credits(f.sid, |f.payload|, end)]);
      var c2 := if OverLimit(Received(st, f.payload)) then SendReset(c1, f.sid) else c1;
      c2.(streams := c2.streams[f.sid := OnData(st, f.payload, end)])
  }

  /** Walk the settings from offset i: the last MAX_CONCURRENT_STREAMS, and whether every entry could be read. */
  function ReadSettings(p: Bytes, i: nat, current: nat): (nat, bool)
    decreases |p| - i
  {
    if i >= |p| then (current, true)
    else if i + 1 >= |p| then (current, false)
    else if FromBigEndian(p[i..i + 2]) != 3 then ReadSettings(p, i + 6, current)
    else if i + 6 > |p| then (current, false)
    else ReadSettings(p, i + 6, FromBigEndian(p[i + 2..i + 6]))
  }

  /** The one frame whose dispatch raises: a SETTINGS frame cut short inside an entry. */
  predicate Faulty(f: Frame) { f.kind == SETTINGS && !IsAck(f.flags) && !ReadSettings(f.payload, 0, 0).1 }

  function LastStream(p: Bytes): nat { if |p| >= 4 then FromBigEndian(p[..4]) % 0x8000_0000 else 0 }

  function ErrorCode(p: Bytes): int { if |p| >= 8 then FromBigEndian(p[4..8]) else -1 }

  function FailAbove(streams: map<nat, Stream>, last: int, why: Failure): map<nat, Stream> {
    map s | s in streams :: if s > last then Fail(streams[s], why) else streams[s]
  }

  function FailAll(c: Conn, why: Failure): Conn {
    c.(closed := true, streams := FailAbove(c.streams, -1, why))
  }

  function ReaderExit(c: Conn, why: Failure): Conn { FailAll(c, why).(gone := true) }

  function OnSettings(c: Conn, f: Frame): (d: Conn)
    ensures SameTable(c, d)
  {
    if IsAck(f.flags) then c
    else
      var (m, whole) := ReadSettings(f.payload, 0, c.maxConcurrent);
      var c := c.(maxConcurrent := m);
      if whole then c.(wire := c.wire + [[Frame(SETTINGS, ACK, 0, [])]]) else c
  }

  function OnPing(c: Conn, f: Frame): (d: Conn)
    ensures SameTable(c, d)
  {
    if IsAck(f.flags) then c else c.(wire := c.wire + [[Frame(PING, ACK, 0, f.payload)]])
  }

  function OnGoAway(c: Conn, f: Frame): (d: Conn)
    ensures SameTable(c, d)
  {
    var last := LastStream(f.payload);
    c.(goawayLast := last, closed := true,
       streams := FailAbove(c.streams, last, GoAway(ErrorCode(f.payload))))
  }

  function OnReset(c: Conn, f: Frame): (d: Conn)
    ensures SameTable(c, d)
  {
    if Accepts(c, f.sid) then c.(streams := c.streams[f.sid := Fail(c.streams[f.sid], Reset)]) else c
  }

  function OnHeaders(c: Conn, f: Frame): (d: Conn)
    ensures SameTable(c, d)
  {
    var b := Block(f.sid, f.payload, EndStream(f.flags));
    if EndHeaders(f.flags) then FinishHeaders(c, b) else c.(block := Some(b))
  }

  function OnContinuation(c: Conn, f: Frame): (d: Conn)
    ensures SameTable(c, d)
  {
    if c.block.None? then c
    else
      var b := c.block.value.(bytes := c.block.value.bytes + f.payload);
      if EndHeaders(f.flags) then FinishHeaders(c, b) else c.(block := Some(b))
  }

  function Dispatch(c: Conn, f: Frame): (d: Conn)
    ensures SameTable(c, d)
  {
    if f.kind == HEADERS then OnHeaders(c, f)
    else if f.kind == CONTINUATION then OnContinuation(c, f)
    else if f.kind == DATA then OnDataFrame(c, f)
    else if f.kind == SETTINGS then OnSettings(c, f)
    else if f.kind == PING then OnPing(c, f)
    else if f.kind == GOAWAY then OnGoAway(c, f)
    else if f.kind == RST_STREAM then OnReset(c, f)
    else c
  }

  /** One turn of the reader loop; an exception ends it. */
  function Read(c: Conn, f: Frame): Conn {
    if c.gone then c
    else if Faulty(f) then ReaderExit(Dispatch(c, f), Broken)
    else Dispatch(c, f)
  }

  /** A reader that has gone dispatches nothing more; one that has not leaves at the end of the input. */
  function ReadAll(c: Conn, fs: seq<Frame>): Conn
    decreases |fs|
  {
    if fs == [] then (if c.gone then c else ReaderExit(c, PeerClosed)) else ReadAll(Read(c, fs[0]), fs[1..])
  }

  /** The turns of the reader loop alone. */
  function ReadEach(c: Conn, fs: seq<Frame>): Conn
    decreases |fs|
  {
    if fs == [] then c else ReadEach(Read(c, fs[0]), fs[1..])
  }

  lemma {:induction false} ReadAllSplits(c: Conn, a: seq<Frame>, b: seq<Frame>)
    ensures ReadAll(c, a + b) == ReadAll(ReadEach(c, a), b)
    ensures ReadEach(c, a + b) == ReadEach(ReadEach(c, a), b)
    decreases |a|
  {
    if a == [] {
      assert a + b == b;
    } else {
      assert (a + b)[1..] == a[1..] + b;
      ReadAllSplits(Read(c, a[0]), a[1..], b);
    }
  }

  // ---- the table ----

  function Pop(c: Conn, sid: nat): Conn {
    if sid in c.streams then c.(streams := c.streams - {sid}, popped := c.popped[sid := c.streams[sid]]) else c
  }

  function Held(c: Conn, sid: nat): Option<Stream> {
    if sid in c.streams then Some(c.streams[sid])
    else if sid in c.popped then Some(c.popped[sid])
    else None
  }

  function Replace(c: Conn, sid: nat, st: Stream): Conn {
    if sid in c.streams then c.(streams := c.streams[sid := st])
    else if sid in c.popped then c.(popped := c.popped[sid := st])
    else c
  }

  function Close(c: Conn): Conn {
    if c.closing then c
    else
      var c := c.(closing := true, closed := true);
      if c.gone then FailAll(c, ClosedHere) else c
  }

  // ---- runs ----

  /** Frames a reader can have read. */
  type WireFrame = f: Frame | Fits(f) witness Frame(0, 0, 0, [])

  datatype Event =
    | Request(block: Bytes, body: Bytes, maxBytes: nat, awaited: bool)
    | Arrive(frame: WireFrame)
    | EndOfInput
    | TimeOut(sid: nat)          // the waiter gives up and cancels the stream
    | Leave(sid: nat)            // the caller takes its stream out of the table
    | Callback(sid: nat)         // the event loop runs one queued `_resolve`
    | Drop(sid: nat)             // the caller cancels its future
    | CloseCall

  function Step(c: Conn, e: Event): Conn {
    match e
    case Request(block, body, maxBytes, awaited) => Send(c, block, body, maxBytes, awaited)
    case Arrive(f) => Read(c, f)
    case EndOfInput => if c.gone then c else ReaderExit(c, PeerClosed)
    case TimeOut(sid) => if Held(c, sid).Some? then SendReset(c, sid) else c
    case Leave(sid) => Pop(c, sid)
    case Callback(sid) => (match Held(c, sid) case None => c case Some(st) => Replace(c, sid, Resolve(st)))
    case Drop(sid) => (match Held(c, sid) case None => c case Some(st) => Replace(c, sid, Abandon(st)))
    case CloseCall => Close(c)
  }

  function Last<T>(s: seq<T>): T
    requires s != []
  {
    s[|s| - 1]
  }

  function Front<T>(s: seq<T>): (r: seq<T>)
    requires s != []
    ensures |r| < |s|
  {
    s[..|s| - 1]
  }

  function Run(es: seq<Event>): Conn {
    if es == [] then Init() else Step(Run(Front(es)), Last(es))
  }

  lemma RunArrives(es: seq<Event>, f: WireFrame)
    ensures Run(es + [Arrive(f)]) == Read(Run(es), f)
  {
    assert Front(es + [Arrive(f)]) == es;
  }

  lemma RunEnds(es: seq<Event>)
    ensures Run(es + [EndOfInput]) == ReadAll(Run(es), [])
  {
    assert Front(es + [EndOfInput]) == es;
  }

  function Arrivals(fs: seq<Frame>): seq<Event>
    requires forall k :: 0 <= k < |fs| ==> Fits(fs[k])
  {
    if fs == [] then [] else [Arrive(fs[0])] + Arrivals(fs[1..])
  }

  lemma Regrouped(a: seq<Event>, b: seq<Event>, c: seq<Event>)
    ensures a + b + c == a + (b + c) && a + [] + c == a + c
  {
  }

  lemma ArrivalsShift(es: seq<Event>, fs: seq<Frame>)
    requires forall k :: 0 <= k < |fs| ==> Fits(fs[k])
    ensures fs == [] ==> es + Arrivals(fs) + [EndOfInput] == es + [EndOfInput]
    ensures fs != [] ==> es + [Arrive(fs[0])] + Arrivals(fs[1..]) + [EndOfInput] == es + Arrivals(fs) + [EndOfInput]
  {
    if fs == [] {
      Regrouped(es, [], [EndOfInput]);
    } else {
      Regrouped(es, [Arrive(fs[0])], Arrivals(fs[1..]));
    }
  }

  /** The reader's whole loop is a run: one arrival for each whole frame, then the end of the input. */
  lemma {:induction false} ReadLoopIsRun(c: Conn, es: seq<Event>, fs: seq<Frame>)
    requires c == Run(es) && forall k :: 0 <= k < |fs| ==> Fits(fs[k])
    ensures ReadAll(c, fs) == Run(es + Arrivals(fs) + [EndOfInput])
    decreases |fs|
  {
    ArrivalsShift(es, fs);
    if fs == [] {
      RunEnds(es);
    } else {
      RunArrives(es, fs[0]);
      ReadLoopIsRun(Read(c, fs[0]), es + [Arrive(fs[0])], fs[1..]);
    }
  }
}
