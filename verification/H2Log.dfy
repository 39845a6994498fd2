/** What the connection puts on the wire, and the requests a server reads from it. */
module H2Log {
  import opened Prelude
  import opened H2Frames
  import opened H2Conn
  import H2Life

  // ---- what each event writes, in the numbers of sections 6 and 7 of RFC 9113 ----

  function DataWrites(c: Conn, f: Frame): seq<seq<Frame>> {
    if !Accepts(c, f.sid) then []
    else
      (if f.payload == [] then [] else [Credits(f.sid, |f.payload|, EndStream(f.flags))])
      + if OverLimit(Received(c.streams[f.sid], f.payload)) then ResetWrites(c, f.sid) else []
  }

  function ResetWrites(c: Conn, sid: nat): seq<seq<Frame>> {
    if c.closed || c.closing then [] else [[Frame(3, 0, sid, [0, 0, 0, 8])]]
  }

  function Writes(c: Conn, e: Event): seq<seq<Frame>> {
    match e
    case Request(block, body, _, _) => if c.closed then [] else [RequestFrames(c.nextId, block, body)]
    case Arrive(f) =>
      if c.gone then []
      else if f.kind == 0 then DataWrites(c, f)
      else if f.kind == 4 && f.flags % 2 == 0 && ReadSettings(f.payload, 0, c.maxConcurrent).1 then
        [[Frame(4, 1, 0, [])]]
      else if f.kind == 6 && f.flags % 2 == 0 then [[Frame(6, 1, 0, f.payload)]]
      else []
    case TimeOut(sid) => if Held(c, sid).Some? then ResetWrites(c, sid) else []
    case _ => []
  }

  lemma CancelCode()
    ensures BigEndian(E_CANCEL, 4) == [0, 0, 0, 8]
  {
    assert BigEndian(8, 1) == [8] && BigEndian(0, 1) == [0] && BigEndian(0, 2) == [0, 0];
    assert BigEndian(0, 3) == [0, 0, 0];
  }

  lemma DataWritten(c: Conn, f: Frame)
    ensures OnDataFrame(c, f).wire == c.wire + DataWrites(c, f)
  {
    CancelCode();
  }

  lemma HeadersUnwritten(c: Conn, f: Frame)
    ensures OnHeaders(c, f).wire == c.wire && OnContinuation(c, f).wire == c.wire
  {
  }

  lemma DispatchWritten(c: Conn, f: WireFrame)
    requires !c.gone
    ensures Dispatch(c, f).wire == c.wire + Writes(c, Arrive(f))
  {
    if f.kind == DATA { DataWritten(c, f); }
    else if f.kind == HEADERS || f.kind == CONTINUATION { HeadersUnwritten(c, f); }
    else if f.kind == SETTINGS { assert Dispatch(c, f) == OnSettings(c, f); }
    else if f.kind == PING { assert Dispatch(c, f) == OnPing(c, f); }
    else { assert Dispatch(c, f).wire == c.wire; }
  }

  lemma StepWritten(c: Conn, e: Event)
    ensures Step(c, e).wire == c.wire + Writes(c, e)
  {
    CancelCode();
    if e.Arrive? && !c.gone { DispatchWritten(c, e.frame); }
  }

  function Flat(es: seq<Event>): seq<Frame> { Concat(Run(es).wire) }

  lemma FlatStep(es: seq<Event>)
    requires es != []
    ensures Flat(es) == Flat(Front(es)) + Concat(Writes(Run(Front(es)), Last(es)))
  {
    var c, e := Run(Front(es)), Last(es);
    StepWritten(c, e);
    ConcatSplit(c.wire, Writes(c, e));
  }

  // ---- a server's reading ----

  datatype Asked = Asked(sid: nat, block: Bytes, body: Bytes, ended: bool)

  /** The largest frame a server accepts until it says otherwise (section 4.2 of RFC 9113). */
  const SERVER_LIMIT := 16384

  predicate HeadersLegal(asked: seq<Asked>, f: Frame) {
    && f.sid % 2 == 1 && |f.payload| <= SERVER_LIMIT
    && (asked != [] ==> Last(asked).ended && f.sid > Last(asked).sid)
    && f.flags / 4 % 2 == 1 && (HasPriority(f.flags) ==> |f.payload| >= 5)
  }

  predicate HasPriority(flags: Byte) { flags / 32 % 2 == 1 }

  predicate DataLegal(asked: seq<Asked>, f: Frame) {
    asked != [] && !Last(asked).ended && f.sid == Last(asked).sid && |f.payload| <= SERVER_LIMIT
  }

  /**
   * A server that accepts requests only one after the other: new odd identifiers in order (section 5.1.1 of
   * RFC 9113), no frame above its limit, nothing on a stream after END_STREAM. None is a protocol error. The server
   * knows HEADERS, DATA and CONTINUATION by the numbers of section 6.
   */
  function Serve(asked: Option<seq<Asked>>, f: Frame): Option<seq<Asked>> {
    if asked.None? then None
    else if f.kind == 1 then
      if !HeadersLegal(asked.value, f) then None
      else
        var block := if HasPriority(f.flags) then f.payload[5..] else f.payload;
        Some(asked.value + [Asked(f.sid, block, [], f.flags % 2 == 1)])
    else if f.kind == 0 then
      if !DataLegal(asked.value, f) then None
      else
        var r := Last(asked.value);
        Some(Front(asked.value) + [r.(body := r.body + f.payload, ended := f.flags % 2 == 1)])
    else if f.kind == 9 then None
    else asked
  }

  function ServeAll(asked: Option<seq<Asked>>, fs: seq<Frame>): Option<seq<Asked>>
    decreases |fs|
  {
    if fs == [] then asked else ServeAll(Serve(asked, fs[0]), fs[1..])
  }

  lemma {:induction false} ServeSplit(asked: Option<seq<Asked>>, a: seq<Frame>, b: seq<Frame>)
    ensures ServeAll(asked, a + b) == ServeAll(ServeAll(asked, a), b)
    decreases |a|
  {
    if a == [] {
      assert a + b == b;
    } else {
      assert (a + b)[1..] == a[1..] + b;
      ServeSplit(Serve(asked, a[0]), a[1..], b);
    }
  }

  lemma {:induction false} ErrorStays(fs: seq<Frame>)
    ensures ServeAll(None, fs) == None
  {
    if fs != [] { ErrorStays(fs[1..]); }
  }

  lemma {:induction false} BodyServed(asked: seq<Asked>, r: Asked, body: Bytes)
    requires !r.ended && body != []
    ensures ServeAll(Some(asked + [r]), DataFrames(r.sid, body)) ==
      Some(asked + [r.(body := r.body + body, ended := true)])
    decreases |body|
  {
    var fs := DataFrames(r.sid, body);
    assert Front(asked + [r]) == asked;
    if |body| <= MAX_FRAME {
      assert fs[1..] == [];
      assert Serve(Some(asked + [r]), fs[0]) == Some(asked + [r.(body := r.body + body, ended := true)]);
    } else {
      var next := r.(body := r.body + body[..MAX_FRAME]);
      assert Serve(Some(asked + [r]), fs[0]) == Some(asked + [next]);
      BodyServed(asked, next, body[MAX_FRAME..]);
      assert fs[1..] == DataFrames(r.sid, body[MAX_FRAME..]);
      assert next.body + body[MAX_FRAME..] == r.body + body;
    }
  }

  /** The request's header block fits one frame of the server's limit. */
  predicate BlockFits(r: Asked) { |r.block| + (if r.sid == 1 then 5 else 0) <= SERVER_LIMIT }

  lemma HeadersServed(asked: seq<Asked>, sid: nat, block: Bytes, end: bool)
    requires sid % 2 == 1 && (asked != [] ==> Last(asked).ended && sid > Last(asked).sid)
    ensures Serve(Some(asked), HeadersFrame(sid, block, end)) ==
      if BlockFits(Asked(sid, block, [], end)) then Some(asked + [Asked(sid, block, [], end)]) else None
  {
    assert (HEADERS_PRIORITY + block)[5..] == block;
  }

  lemma RequestServed(asked: seq<Asked>, sid: nat, block: Bytes, body: Bytes)
    requires sid % 2 == 1 && (asked != [] ==> Last(asked).ended && sid > Last(asked).sid)
    ensures var r := Asked(sid, block, body, true);
      ServeAll(Some(asked), RequestFrames(sid, block, body)) == if BlockFits(r) then Some(asked + [r]) else None
  {
    var fs := RequestFrames(sid, block, body);
    assert fs[1..] == DataFrames(sid, body);
    HeadersServed(asked, sid, block, body == []);
    var r := Asked(sid, block, [], body == []);
    if !BlockFits(r) {
      ErrorStays(fs[1..]);
    } else if body != [] {
      BodyServed(asked, r, body);
      assert [] + body == body;
    }
  }

  predicate Control(f: Frame) { f.kind != HEADERS && f.kind != DATA && f.kind != CONTINUATION }

  lemma {:induction false} ControlServed(asked: Option<seq<Asked>>, fs: seq<Frame>)
    requires forall k :: 0 <= k < |fs| ==> Control(fs[k])
    ensures ServeAll(asked, fs) == asked
  {
    if fs != [] { ControlServed(asked, fs[1..]); }
  }

  /** The requests the run sent, in the order their writes got the send lock. */
  function Requests(es: seq<Event>): seq<Asked> {
    if es == [] then []
    else
      var c, e := Run(Front(es)), Last(es);
      if e.Request? && !c.closed then Requests(Front(es)) + [Asked(c.nextId, e.block, e.body, true)]
      else Requests(Front(es))
  }

  predicate Numbered(rs: seq<Asked>, nextId: nat) {
    nextId == 2 * |rs| + 1 && forall k :: 0 <= k < |rs| ==> rs[k].sid == 2 * k + 1 && rs[k].ended
  }

  predicate AllFit(rs: seq<Asked>) { forall k :: 0 <= k < |rs| ==> BlockFits(rs[k]) }

  lemma IdSteps(c: Conn, e: Event)
    ensures Step(c, e).nextId == c.nextId + if e.Request? && !c.closed then 2 else 0
  {
  }

  lemma {:induction false} RequestsAreNumbered(es: seq<Event>)
    ensures Numbered(Requests(es), Run(es).nextId)
  {
    if es != [] {
      RequestsAreNumbered(Front(es));
      IdSteps(Run(Front(es)), Last(es));
    }
  }

  predicate ControlOnly(fs: seq<Frame>) { forall k :: 0 <= k < |fs| ==> Control(fs[k]) }

  lemma OthersWriteControl(c: Conn, e: Event)
    requires !e.Request?
    ensures |Writes(c, e)| <= 2 && ControlOnly(Concat(Writes(c, e)))
    ensures forall k :: 0 <= k < |Writes(c, e)| ==> ControlOnly(Writes(c, e)[k])
  {
    var w := Writes(c, e);
    assert forall k :: 0 <= k < |w| ==> ControlOnly(w[k]);
    if |w| == 1 { assert w == [w[0]] && Concat(w[1..]) == []; }
    if |w| == 2 { assert w == [w[0], w[1]] && w[1..] == [w[1]] && Concat(w[1..][1..]) == []; }
  }

  lemma ServeStep(es: seq<Event>)
    requires es != []
    ensures ServeAll(Some([]), Flat(es)) ==
      ServeAll(ServeAll(Some([]), Flat(Front(es))), Concat(Writes(Run(Front(es)), Last(es))))
  {
    FlatStep(es);
    ServeSplit(Some([]), Flat(Front(es)), Concat(Writes(Run(Front(es)), Last(es))));
  }

  /**
   * For any interleaving of senders and reader: the server reads exactly the requests sent, numbered 1, 3, 5, …,
   * each with its whole body, unless a header block is too long for the one frame it gets.
   */
  lemma {:induction false} ServerReadsRequests(es: seq<Event>)
    ensures ServeAll(Some([]), Flat(es)) == if AllFit(Requests(es)) then Some(Requests(es)) else None
  {
    if es == [] {
      var fs := Init().wire[0];
      assert Concat([fs][1..]) == [] && Flat(es) == fs;
      ControlServed(Some([]), fs);
    } else {
      ServerReadsRequests(Front(es));
      ServeStep(es);
      var c, e, rs := Run(Front(es)), Last(es), Requests(Front(es));
      if !e.Request? {
        OthersWriteControl(c, e);
        ControlServed(ServeAll(Some([]), Flat(Front(es))), Concat(Writes(c, e)));
      } else if !c.closed {
        RequestsAreNumbered(Front(es));
        SentServed(rs, c.nextId, e.block, e.body);
        assert Concat(Writes(c, e)) == RequestFrames(c.nextId, e.block, e.body) by {
          assert Writes(c, e)[1..] == [];
        }
      }
    }
  }

  lemma SentServed(rs: seq<Asked>, sid: nat, block: Bytes, body: Bytes)
    requires Numbered(rs, sid)
    ensures var more := rs + [Asked(sid, block, body, true)];
      ServeAll(if AllFit(rs) then Some(rs) else None, RequestFrames(sid, block, body))
        == if AllFit(more) then Some(more) else None
  {
    var r := Asked(sid, block, body, true);
    if AllFit(rs) {
      RequestServed(rs, sid, block, body);
      assert (rs + [r])[|rs|] == r;
    } else {
      var k :| 0 <= k < |rs| && !BlockFits(rs[k]);
      assert (rs + [r])[k] == rs[k];
      ErrorStays(RequestFrames(sid, block, body));
    }
  }

  /** One header block above the server's frame limit, and the request is refused. */
  lemma OversizedBlockRefused(block: Bytes)
    requires |block| + 5 > SERVER_LIMIT
    ensures ServeAll(Some([]), Flat([Request(block, [], 0, false)])) == None
  {
    var es := [Request(block, [], 0, false)];
    assert Front(es) == [];
    assert Requests(es) == [Asked(1, block, [], true)];
    assert !BlockFits(Requests(es)[0]);
    ServerReadsRequests(es);
  }

  /** Every write is one whole request, or holds no part of any. */
  predicate Whole(unit: seq<Frame>, rs: seq<Asked>) {
    ControlOnly(unit) || exists k :: 0 <= k < |rs| && unit == RequestFrames(rs[k].sid, rs[k].block, rs[k].body)
  }

  lemma {:induction false} WritesAreWhole(es: seq<Event>)
    ensures forall k :: 0 <= k < |Run(es).wire| ==> Whole(Run(es).wire[k], Requests(es))
  {
    if es != [] {
      WritesAreWhole(Front(es));
      var c, e, rs, now := Run(Front(es)), Last(es), Requests(Front(es)), Requests(es);
      StepWritten(c, e);
      forall k | 0 <= k < |Run(es).wire| ensures Whole(Run(es).wire[k], now) {
        if k < |c.wire| {
          assert Whole(c.wire[k], rs) && rs <= now;
        } else if e.Request? {
          assert now[|rs|] == Asked(c.nextId, e.block, e.body, true);
        } else {
          OthersWriteControl(c, e);
        }
      }
    }
  }

  // ---- answers ----

  /** The payloads of the acknowledgements of one kind. */
  function Acks(fs: seq<Frame>, kind: Byte): seq<Bytes> {
    if fs == [] then []
    else (if fs[0].kind == kind && fs[0].flags % 2 == 1 then [fs[0].payload] else []) + Acks(fs[1..], kind)
  }

  lemma {:induction false} AcksSplit(a: seq<Frame>, b: seq<Frame>, kind: Byte)
    ensures Acks(a + b, kind) == Acks(a, kind) + Acks(b, kind)
  {
    if a == [] {
      assert a + b == b;
    } else {
      assert (a + b)[1..] == a[1..] + b;
      AcksSplit(a[1..], b, kind);
    }
  }

  lemma {:induction false} NoAcks(fs: seq<Frame>, kind: Byte)
    requires forall k :: 0 <= k < |fs| ==> fs[k].kind != kind
    ensures Acks(fs, kind) == []
  {
    if fs != [] { NoAcks(fs[1..], kind); }
  }

  lemma {:induction false} DataIsData(sid: nat, body: Bytes)
    ensures forall k :: 0 <= k < |DataFrames(sid, body)| ==> DataFrames(sid, body)[k].kind == 0
    decreases |body|
  {
    if |body| > MAX_FRAME { DataIsData(sid, body[MAX_FRAME..]); }
  }

  /** What an event asks to be acknowledged: a PING by its payload, SETTINGS read to their end by nothing. */
  function Asks(c: Conn, e: Event, kind: Byte): seq<Bytes> {
    if !e.Arrive? || c.gone || e.frame.kind != kind || e.frame.flags % 2 == 1 then []
    else if kind == 6 then [e.frame.payload]
    else if ReadSettings(e.frame.payload, 0, c.maxConcurrent).1 then [[]]
    else []
  }

  function AsksOf(es: seq<Event>, kind: Byte): seq<Bytes> {
    if es == [] then [] else AsksOf(Front(es), kind) + Asks(Run(Front(es)), Last(es), kind)
  }

  lemma EventAcks(c: Conn, e: Event, kind: Byte)
    requires kind == 4 || kind == 6
    ensures Acks(Concat(Writes(c, e)), kind) == Asks(c, e, kind)
  {
    var w := Writes(c, e);
    if e.Request? && !c.closed {
      DataIsData(c.nextId, e.body);
      NoAcks(w[0], kind);
      assert w[1..] == [] && Concat(w) == w[0];
    } else if w == [] {
    } else if |w| == 1 {
      assert w[1..] == [] && Concat(w) == w[0];
      OneAck(w[0], kind);
    } else {
      OthersWriteControl(c, e);
      assert w == [w[0], w[1]] && w[1..] == [w[1]] && Concat(w[1..][1..]) == [];
      assert Concat(w) == w[0] + w[1];
      NoAcks(Concat(w), kind);
    }
  }

  lemma OneAck(fs: seq<Frame>, kind: Byte)
    ensures |fs| == 1 ==> Acks(fs, kind) == if fs[0].kind == kind && fs[0].flags % 2 == 1 then [fs[0].payload] else []
    ensures (forall k :: 0 <= k < |fs| ==> fs[k].kind != kind) ==> Acks(fs, kind) == []
  {
    if |fs| == 1 { assert fs[1..] == []; }
    if forall k :: 0 <= k < |fs| ==> fs[k].kind != kind { NoAcks(fs, kind); }
  }

  /**
   * In every run the PINGs read are echoed, each once, in order and with its payload, and each SETTINGS frame read to
   * its end is acknowledged once; acknowledgements are not answered.
   */
  lemma {:induction false} AsksAreAnswered(es: seq<Event>, kind: Byte)
    requires kind == 4 || kind == 6
    ensures Acks(Flat(es), kind) == AsksOf(es, kind)
  {
    if es == [] {
      var fs := Init().wire[0];
      assert Concat([fs][1..]) == [] && Flat(es) == fs;
      assert fs == [fs[0]] + [fs[1]];
      AcksSplit([fs[0]], [fs[1]], kind);
      OneAck([fs[0]], kind);
      OneAck([fs[1]], kind);
    } else {
      AsksAreAnswered(Front(es), kind);
      FlatStep(es);
      AcksSplit(Flat(Front(es)), Concat(Writes(Run(Front(es)), Last(es))), kind);
      EventAcks(Run(Front(es)), Last(es), kind);
    }
  }

  // ---- bytes ----

  lemma Digits(n: nat)
    ensures BigEndian(n, 2) == [n / 256 % 256, n % 256]
    ensures BigEndian(n, 3) == [n / 65536 % 256, n / 256 % 256, n % 256]
    ensures BigEndian(n, 4) == [n / 16777216 % 256, n / 65536 % 256, n / 256 % 256, n % 256]
  {
    assert BigEndian(n, 1) == [n % 256];
    assert BigEndian(n / 256, 1) == [n / 256 % 256];
    assert BigEndian(n / 256 / 256, 1) == [n / 65536 % 256];
    assert BigEndian(n / 256 / 256 / 256, 1) == [n / 16777216 % 256];
    assert BigEndian(n / 256 / 256, 2) == [n / 16777216 % 256, n / 65536 % 256];
    assert BigEndian(n / 256, 2) == [n / 65536 % 256, n / 256 % 256];
    assert BigEndian(n / 256, 3) == [n / 16777216 % 256, n / 65536 % 256, n / 256 % 256];
  }

  function Entry(id: nat, value: nat): Bytes {
    [id / 256 % 256, id % 256, value / 16777216 % 256, value / 65536 % 256, value / 256 % 256, value % 256]
  }

  lemma FirstEntry(settings: seq<(nat, nat)>, id: nat, value: nat, rest: seq<(nat, nat)>)
    requires settings == [(id, value)] + rest
    ensures SettingsPayload(settings) == Entry(id, value) + SettingsPayload(rest)
  {
    Digits(id);
    Digits(value);
    assert settings[1..] == rest;
  }

  /** The SETTINGS of the browser this connection looks like: table size, push, window and frame size, in that order. */
  lemma OpeningSettings()
    ensures SettingsPayload(OPENING_SETTINGS) ==
      Entry(1, 0x1_0000) + (Entry(2, 0) + (Entry(4, 0x2_0000) + (Entry(5, 0x4000) + [])))
  {
    var frameSize := [(5, 0x4000)];
    var window := [(4, 0x2_0000)] + frameSize;
    var push := [(2, 0)] + window;
    FirstEntry(frameSize, 5, 0x4000, []);
    FirstEntry(window, 4, 0x2_0000, frameSize);
    FirstEntry(push, 2, 0, window);
    FirstEntry(OPENING_SETTINGS, 1, 0x1_0000, push);
  }

  lemma EncodeInFull(f: Frame, length: Bytes, sid: Bytes)
    requires length == BigEndian(|f.payload|, 3) && sid == BigEndian(f.sid, 4)
    ensures Encode(f) == length + [f.kind, f.flags] + sid + f.payload
  {
  }

  /** Every connection opens with these bytes after the preface: SETTINGS, then WINDOW_UPDATE by 0x00bf0001. */
  lemma OpeningBytes()
    ensures Run([]).wire == [[Frame(4, 0, 0, SettingsPayload(OPENING_SETTINGS)), Frame(8, 0, 0, [0, 0xbf, 0, 1])]]
    ensures Run([]).nextId == 1 && Run([]).maxConcurrent == 100 && Run([]).goawayLast == 0x8000_0000
    ensures Encode(Run([]).wire[0][0]) ==
      [0, 0, 24] + [4, 0] + [0, 0, 0, 0]
      + (Entry(1, 0x1_0000) + (Entry(2, 0) + (Entry(4, 0x2_0000) + (Entry(5, 0x4000) + []))))
    ensures Encode(Run([]).wire[0][1]) == [0, 0, 4] + [8, 0] + [0, 0, 0, 0] + [0, 0xbf, 0, 1]
  {
    var fs := Run([]).wire[0];
    OpeningSettings();
    Digits(24);
    Digits(4);
    Digits(0);
    Digits(CONN_WINDOW_INCREMENT);
    EncodeInFull(fs[0], [0, 0, 24], [0, 0, 0, 0]);
    EncodeInFull(fs[1], [0, 0, 4], [0, 0, 0, 0]);
  }

  /**
   * A request in numbers: HEADERS (1) with END_HEADERS (4), with END_STREAM (1) exactly when there is no body, and on
   * the first stream alone with PRIORITY (0x20) and its five bytes; then a body of up to 16384 bytes in one DATA frame.
   */
  lemma RequestInNumbers(sid: nat, block: Bytes, body: Bytes)
    ensures var flags := 4 + (if body == [] then 1 else 0) + (if sid == 1 then 0x20 else 0);
      var payload := if sid == 1 then [0, 0, 0, 0, 41] + block else block;
      && RequestFrames(sid, block, body)[0] == Frame(1, flags, sid, payload)
      && (body == [] ==> |RequestFrames(sid, block, body)| == 1)
      && (0 < |body| <= 16384 ==> RequestFrames(sid, block, body)[1..] == [Frame(0, 1, sid, body)])
      && (|body| > 16384 ==> RequestFrames(sid, block, body)[1] == Frame(0, 0, sid, body[..16384]))
  {
  }

  predicate AllFrames(fs: seq<Frame>) { forall k :: 0 <= k < |fs| ==> Fits(fs[k]) }

  /** Identifiers below 2^31, and header blocks that fit a frame's length field. */
  predicate Encodable(rs: seq<Asked>) {
    |rs| <= 0x4000_0000 && forall k :: 0 <= k < |rs| ==> |rs[k].block| + 5 < 0x100_0000
  }

  lemma {:induction false} DataFit(sid: nat, body: Bytes)
    requires sid < 0x8000_0000
    ensures AllFrames(DataFrames(sid, body))
    decreases |body|
  {
    if |body| > MAX_FRAME { DataFit(sid, body[MAX_FRAME..]); }
  }

  predicate Room(c: Conn, e: Event) {
    && c.nextId <= 0x8000_0001
    && (e.Request? ==> c.closed || (c.nextId < 0x8000_0000 && |e.block| + 5 < 0x100_0000))
  }

  lemma RoomToSend(es: seq<Event>)
    requires es != [] && Encodable(Requests(es))
    ensures Encodable(Requests(Front(es))) && Room(Run(Front(es)), Last(es))
  {
    var c, e, rs, now := Run(Front(es)), Last(es), Requests(Front(es)), Requests(es);
    RequestsAreNumbered(Front(es));
    assert forall k :: 0 <= k < |rs| ==> now[k] == rs[k];
    if e.Request? && !c.closed { assert now[|rs|].block == e.block; }
  }

  lemma WritesFit(c: Conn, e: Event)
    requires H2Life.Inv(c) && Room(c, e)
    ensures AllFrames(Concat(Writes(c, e)))
  {
    var w := Writes(c, e);
    if e.Request? && !c.closed {
      DataFit(c.nextId, e.body);
      assert w[1..] == [] && Concat(w) == w[0];
    } else if |w| == 1 { assert w == [w[0]] && Concat(w[1..]) == []; }
    else if |w| == 2 { assert w == [w[0], w[1]] && w[1..] == [w[1]] && Concat(w[1..][1..]) == []; }
  }

  lemma {:induction false} LogFits(es: seq<Event>)
    requires Encodable(Requests(es))
    ensures AllFrames(Flat(es))
  {
    if es == [] {
      var fs := Init().wire[0];
      assert Concat([fs][1..]) == [] && Flat(es) == fs;
    } else {
      RoomToSend(es);
      LogFits(Front(es));
      H2Life.RunKeepsInv(Front(es));
      WritesFit(Run(Front(es)), Last(es));
      FlatStep(es);
    }
  }

  /** From bytes: what the server parses after the preface is exactly the requests, or it refuses as it must. */
  lemma BytesCarryRequests(es: seq<Event>)
    requires Encodable(Requests(es))
    ensures ServeAll(Some([]), Frames(EncodeAll(Flat(es)))) == if AllFit(Requests(es)) then Some(Requests(es)) else None
  {
    LogFits(es);
    WholeFramesAreRead(Flat(es), []);
    assert EncodeAll(Flat(es)) + [] == EncodeAll(Flat(es));
    ServerReadsRequests(es);
  }
}
