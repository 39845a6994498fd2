/**
 * Each stream on its own: what one stream sees of a run of the connection, and that nothing else matters to it.
 */
module H2Streams {
  import opened Prelude
  import opened H2Frames
  import opened H2Conn

  /** What can happen to one stream. */
  datatype Signal =
    | Opened(maxBytes: nat, awaited: bool)
    | Own(frame: Frame)                  // HEADERS, CONTINUATION, DATA or RST_STREAM with this identifier
    | Away(last: nat, code: int)
    | Gone(why: Failure)
    | Popped
    | Settled
    | Dropped

  /** One stream with its header block under assembly; `live` while it is in the table. */
  datatype Solo = Solo(stream: Option<Stream>, live: bool, block: Option<Block>)

  function Touched(s: Solo, st: Stream): Solo { s.(stream := Some(st)) }

  function OwnBlock(s: Solo, b: Block, whole: bool): Solo {
    if !whole then s.(block := Some(b))
    else if s.live && s.stream.Some? then Touched(s, OnBlock(s.stream.value, b.bytes, b.end)).(block := None)
    else s.(block := None)
  }

  function OwnFrame(s: Solo, f: Frame): Solo {
    if f.kind == HEADERS then
      OwnBlock(s, Block(f.sid, f.payload, EndStream(f.flags)), EndHeaders(f.flags))
    else if f.kind == CONTINUATION then
      if s.block.None? then s
      else OwnBlock(s, s.block.value.(bytes := s.block.value.bytes + f.payload), EndHeaders(f.flags))
    else if s.stream.None? || !s.live then s
    else if f.kind == DATA then Touched(s, OnData(s.stream.value, f.payload, EndStream(f.flags)))
    else if f.kind == RST_STREAM then Touched(s, Fail(s.stream.value, Reset))
    else s
  }

  function SoloStep(sid: nat, s: Solo, sig: Signal): Solo {
    match sig
    case Opened(m, a) => s.(stream := Some(NewStream(m, a)), live := true)
    case Own(f) => OwnFrame(s, f)
    case Away(last, code) =>
      if s.live && s.stream.Some? && sid > last then Touched(s, Fail(s.stream.value, GoAway(code))) else s
    case Gone(why) => if s.live && s.stream.Some? then Touched(s, Fail(s.stream.value, why)) else s
    case Popped => s.(live := false)
    case Settled => if s.stream.Some? then Touched(s, Resolve(s.stream.value)) else s
    case Dropped => if s.stream.Some? then Touched(s, Abandon(s.stream.value)) else s
  }

  function SoloRun(sid: nat, sigs: seq<Signal>): Solo {
    if sigs == [] then Solo(None, false, None) else SoloStep(sid, SoloRun(sid, Front(sigs)), Last(sigs))
  }

  predicate PerStream(f: Frame) {
    f.kind == HEADERS || f.kind == CONTINUATION || f.kind == DATA || f.kind == RST_STREAM
  }

  /** What the stream sid sees of an event. */
  function Seen(c: Conn, e: Event, sid: nat): (sigs: seq<Signal>)
    ensures |sigs| <= 1
  {
    match e
    case Request(_, _, m, a) => if !c.closed && c.nextId == sid then [Opened(m, a)] else []
    case Arrive(f) =>
      if c.gone then []
      else if PerStream(f) then (if f.sid == sid then [Own(f)] else [])
      else if f.kind == GOAWAY then [Away(LastStream(f.payload), ErrorCode(f.payload))]
      else if Faulty(f) then [Gone(Broken)]
      else []
    case EndOfInput => if c.gone then [] else [Gone(PeerClosed)]
    case TimeOut(_) => []
    case Leave(s) => if s == sid then [Popped] else []
    case Callback(s) => if s == sid then [Settled] else []
    case Drop(s) => if s == sid then [Dropped] else []
    case CloseCall => if c.gone && !c.closing then [Gone(ClosedHere)] else []
  }

  function Signals(es: seq<Event>, sid: nat): seq<Signal> {
    if es == [] then [] else Signals(Front(es), sid) + Seen(Run(Front(es)), Last(es), sid)
  }

  /** The peer sends nothing between a HEADERS frame and the CONTINUATION frames that complete it. */
  predicate KeepsBlocks(c: Conn, e: Event) {
    e.Arrive? && !c.gone && c.block.Some? ==> e.frame.kind == CONTINUATION && e.frame.sid == c.block.value.sid
  }

  predicate Contiguous(es: seq<Event>) {
    es == [] || (Contiguous(Front(es)) && KeepsBlocks(Run(Front(es)), Last(es)))
  }

  /** The stream's part of the connection. */
  function View(c: Conn, sid: nat): Solo {
    var st := Held(c, sid);
    var block := if c.block.Some? && c.block.value.sid == sid then c.block else None;
    Solo(st, sid in c.streams, block)
  }

  function Advance(sid: nat, s: Solo, sigs: seq<Signal>): Solo
    requires |sigs| <= 1
  {
    if sigs == [] then s else SoloStep(sid, s, sigs[0])
  }

  // ---- one step ----

  lemma HeadersSeen(c: Conn, f: WireFrame, sid: nat)
    requires f.kind == HEADERS && !c.gone && c.block.None?
    ensures View(Dispatch(c, f), sid) == (if f.sid == sid then OwnFrame(View(c, sid), f) else View(c, sid))
  {
  }

  lemma ContinuationSeen(c: Conn, f: WireFrame, sid: nat)
    requires f.kind == CONTINUATION && !c.gone && (c.block.Some? ==> f.sid == c.block.value.sid)
    ensures View(Dispatch(c, f), sid) == (if f.sid == sid then OwnFrame(View(c, sid), f) else View(c, sid))
  {
  }

  lemma DataAccepted(c: Conn, f: WireFrame)
    requires f.kind == DATA && Accepts(c, f.sid)
    ensures var d := OnDataFrame(c, f);
      && d.popped == c.popped && d.block == c.block
      && d.streams == c.streams[f.sid := OnData(c.streams[f.sid], f.payload, EndStream(f.flags))]
  {
  }

  lemma DataSeen(c: Conn, f: WireFrame, sid: nat)
    requires f.kind == DATA
    ensures View(OnDataFrame(c, f), sid) == (if f.sid == sid then OwnFrame(View(c, sid), f) else View(c, sid))
  {
    if Accepts(c, f.sid) { DataAccepted(c, f); }
  }

  lemma ResetSeen(c: Conn, f: WireFrame, sid: nat)
    requires f.kind == RST_STREAM
    ensures View(OnReset(c, f), sid) == (if f.sid == sid then OwnFrame(View(c, sid), f) else View(c, sid))
  {
  }

  lemma PerStreamSeen(c: Conn, f: WireFrame, sid: nat)
    requires KeepsBlocks(c, Arrive(f)) && !c.gone && PerStream(f)
    ensures View(Dispatch(c, f), sid) == (if f.sid == sid then OwnFrame(View(c, sid), f) else View(c, sid))
  {
    if f.kind == HEADERS { HeadersSeen(c, f, sid); }
    else if f.kind == CONTINUATION { ContinuationSeen(c, f, sid); }
    else if f.kind == DATA { DataSeen(c, f, sid); }
    else { ResetSeen(c, f, sid); }
  }

  lemma GoAwaySeen(c: Conn, f: WireFrame, sid: nat)
    ensures View(OnGoAway(c, f), sid) == SoloStep(sid, View(c, sid), Away(LastStream(f.payload), ErrorCode(f.payload)))
  {
  }

  lemma ExitSeen(c: Conn, why: Failure, sid: nat)
    ensures View(ReaderExit(c, why), sid) == View(FailAll(c, why), sid) == SoloStep(sid, View(c, sid), Gone(why))
  {
  }

  lemma SettingsKeep(c: Conn, f: Frame)
    ensures var d := OnSettings(c, f);
      d.streams == c.streams && d.popped == c.popped && d.block == c.block && d.gone == c.gone
  {
  }

  lemma SettingsSeen(c: Conn, f: WireFrame, sid: nat)
    requires f.kind == SETTINGS && !c.gone
    ensures View(Read(c, f), sid) == if Faulty(f) then SoloStep(sid, View(c, sid), Gone(Broken)) else View(c, sid)
  {
    SettingsKeep(c, f);
    var d := Dispatch(c, f);
    assert d == OnSettings(c, f);
    assert View(d, sid) == View(c, sid);
    ExitSeen(d, Broken, sid);
  }

  lemma ArriveSeen(c: Conn, f: WireFrame, sid: nat)
    requires KeepsBlocks(c, Arrive(f))
    ensures View(Read(c, f), sid) == Advance(sid, View(c, sid), Seen(c, Arrive(f), sid))
  {
    if c.gone {
    } else if PerStream(f) {
      PerStreamSeen(c, f, sid);
    } else if f.kind == GOAWAY {
      GoAwaySeen(c, f, sid);
    } else if f.kind == SETTINGS {
      SettingsSeen(c, f, sid);
    } else {
      assert View(Dispatch(c, f), sid) == View(c, sid);
    }
  }

  lemma CallSeen(c: Conn, e: Event, sid: nat)
    requires e.Request? || e.TimeOut? || e.Leave?
    ensures View(Step(c, e), sid) == Advance(sid, View(c, sid), Seen(c, e, sid))
  {
  }

  lemma ReplaceSeen(c: Conn, at: nat, st: Stream, sid: nat)
    requires Held(c, at).Some?
    ensures View(Replace(c, at, st), sid) == if at == sid then Touched(View(c, sid), st) else View(c, sid)
  {
  }

  lemma CallbackSeen(c: Conn, at: nat, sid: nat)
    ensures View(Step(c, Callback(at)), sid) == Advance(sid, View(c, sid), Seen(c, Callback(at), sid))
  {
    if Held(c, at).Some? { ReplaceSeen(c, at, Resolve(Held(c, at).value), sid); }
  }

  lemma DropSeen(c: Conn, at: nat, sid: nat)
    ensures View(Step(c, Drop(at)), sid) == Advance(sid, View(c, sid), Seen(c, Drop(at), sid))
  {
    if Held(c, at).Some? { ReplaceSeen(c, at, Abandon(Held(c, at).value), sid); }
  }

  lemma StepSeen(c: Conn, e: Event, sid: nat)
    requires KeepsBlocks(c, e)
    ensures View(Step(c, e), sid) == Advance(sid, View(c, sid), Seen(c, e, sid))
  {
    match e
    case Arrive(f) => ArriveSeen(c, f, sid);
    case EndOfInput => ExitSeen(c, PeerClosed, sid);
    case CloseCall =>
      var d := c.(closing := true, closed := true);
      assert View(d, sid) == View(c, sid);
      ExitSeen(d, ClosedHere, sid);
    case Callback(at) => CallbackSeen(c, at, sid);
    case Drop(at) => DropSeen(c, at, sid);
    case _ => CallSeen(c, e, sid);
  }

  lemma SoloAppend(sid: nat, before: seq<Signal>, more: seq<Signal>)
    requires |more| <= 1
    ensures SoloRun(sid, before + more) == Advance(sid, SoloRun(sid, before), more)
  {
    if more == [] {
      assert before + more == before;
    } else {
      assert Front(before + more) == before && Last(before + more) == more[0];
    }
  }

  // ---- whole runs ----

  /** In every run a stream goes exactly the way it would go alone, on its own signals. */
  lemma {:induction false} RunsAlone(es: seq<Event>, sid: nat)
    requires Contiguous(es)
    ensures View(Run(es), sid) == SoloRun(sid, Signals(es, sid))
  {
    if es != [] {
      RunsAlone(Front(es), sid);
      var c, e := Run(Front(es)), Last(es);
      StepSeen(c, e, sid);
      SoloAppend(sid, Signals(Front(es), sid), Seen(c, e, sid));
    }
  }

  /** Non-interference: whatever the other streams do, equal signals give equal streams. */
  lemma NonInterference(es: seq<Event>, other: seq<Event>, sid: nat)
    requires Contiguous(es) && Contiguous(other) && Signals(es, sid) == Signals(other, sid)
    ensures View(Run(es), sid) == View(Run(other), sid)
  {
    RunsAlone(es, sid);
    RunsAlone(other, sid);
  }

  // ---- the body ----

  /** The payloads of the DATA frames since the stream was opened. */
  function Payloads(sigs: seq<Signal>): seq<Bytes> {
    if sigs == [] then []
    else
      match Last(sigs)
      case Opened(_, _) => []
      case Own(f) => if f.kind == DATA then Payloads(Front(sigs)) + [f.payload] else Payloads(Front(sigs))
      case _ => Payloads(Front(sigs))
  }

  /** The peer ends the stream: END_STREAM on DATA, or on the header block that this frame completes. */
  predicate Ends(s: Solo, sig: Signal) {
    sig.Own? &&
    var f := sig.frame;
    || (f.kind == DATA && EndStream(f.flags))
    || (f.kind == HEADERS && EndHeaders(f.flags) && EndStream(f.flags))
    || (f.kind == CONTINUATION && EndHeaders(f.flags) && s.block.Some? && s.block.value.end)
  }

  /** The first k signals account for the stream's body; while it is open, that is all of them. */
  predicate BodyUpTo(sid: nat, sigs: seq<Signal>, k: nat) {
    k <= |sigs| &&
    var s := SoloRun(sid, sigs);
    (s.stream.Some? ==>
      var st := s.stream.value;
      && st.chunks == Payloads(sigs[..k])
      && (s.live && !st.done ==> k == |sigs|)
      && (st.done && st.error.None? ==> k > 0 && Ends(SoloRun(sid, sigs[..k - 1]), sigs[k - 1])))
  }

  lemma BodyStep(sid: nat, sigs: seq<Signal>, k: nat) returns (k': nat)
    requires sigs != [] && BodyUpTo(sid, Front(sigs), k)
    ensures BodyUpTo(sid, sigs, k')
  {
    if TakesSignals(SoloRun(sid, Front(sigs)), Last(sigs)) {
      BodyGrows(sid, sigs, k);
      k' := |sigs|;
    } else {
      BodyStays(sid, sigs, k);
      k' := k;
    }
  }

  /** The stream is open, or opens now. */
  predicate TakesSignals(s: Solo, sig: Signal) {
    sig.Opened? || (s.live && s.stream.Some? && !s.stream.value.done)
  }

  lemma BodyGrows(sid: nat, sigs: seq<Signal>, k: nat)
    requires sigs != [] && BodyUpTo(sid, Front(sigs), k) && TakesSignals(SoloRun(sid, Front(sigs)), Last(sigs))
    ensures BodyUpTo(sid, sigs, |sigs|)
  {
    assert sigs[..|sigs|] == sigs && sigs[..|sigs| - 1] == Front(sigs);
    assert k == |Front(sigs)| ==> Front(sigs)[..k] == Front(sigs);
  }

  lemma BodyStays(sid: nat, sigs: seq<Signal>, k: nat)
    requires sigs != [] && BodyUpTo(sid, Front(sigs), k) && !TakesSignals(SoloRun(sid, Front(sigs)), Last(sigs))
    ensures BodyUpTo(sid, sigs, k)
  {
    assert sigs[..k] == Front(sigs)[..k];
    assert k > 0 ==> sigs[..k - 1] == Front(sigs)[..k - 1] && sigs[k - 1] == Front(sigs)[k - 1];
  }

  /** Every body is the in-order DATA payloads of its own stream, and an error-free one runs to END_STREAM. */
  lemma {:induction false} BodyIsPayloads(sid: nat, sigs: seq<Signal>) returns (k: nat)
    ensures BodyUpTo(sid, sigs, k)
  {
    if sigs == [] {
      k := 0;
    } else {
      k := BodyIsPayloads(sid, Front(sigs));
      k := BodyStep(sid, sigs, k);
    }
  }

  /** The same of the connection, whatever the other streams do. */
  lemma ErrorFreeBody(es: seq<Event>, sid: nat) returns (k: nat)
    requires Contiguous(es) && Held(Run(es), sid).Some?
    ensures var sigs, st := Signals(es, sid), Held(Run(es), sid).value;
      && k <= |sigs| && Concat(st.chunks) == Concat(Payloads(sigs[..k]))
      && (sid in Run(es).streams && !st.done ==> k == |sigs|)
      && (st.done && st.error.None? ==> k > 0 && Ends(SoloRun(sid, sigs[..k - 1]), sigs[k - 1]))
  {
    RunsAlone(es, sid);
    k := BodyIsPayloads(sid, Signals(es, sid));
  }

  // ---- header blocks ----

  /** A header block cut into CONTINUATION frames; the last one carries END_HEADERS. */
  function Continuations(sid: nat, parts: seq<Bytes>): seq<Frame> {
    if parts == [] then []
    else [Frame(CONTINUATION, if |parts| == 1 then END_HEADERS else 0, sid, parts[0])] + Continuations(sid, parts[1..])
  }

  function BlockFrames(sid: nat, parts: seq<Bytes>, end: bool): seq<Frame>
    requires parts != []
  {
    var flags := (if end then END_STREAM else 0) + (if |parts| == 1 then END_HEADERS else 0);
    [Frame(HEADERS, flags, sid, parts[0])] + Continuations(sid, parts[1..])
  }

  function OwnFrames(s: Solo, fs: seq<Frame>): Solo
    decreases |fs|
  {
    if fs == [] then s else OwnFrames(OwnFrame(s, fs[0]), fs[1..])
  }

  lemma {:induction false} ContinuationsAssemble(s: Solo, b: Block, parts: seq<Bytes>)
    requires s.live && s.stream.Some? && s.block == Some(b) && parts != []
    ensures OwnFrames(s, Continuations(b.sid, parts)) ==
      Touched(s, OnBlock(s.stream.value, b.bytes + Concat(parts), b.end)).(block := None)
    decreases |parts|
  {
    var fs := Continuations(b.sid, parts);
    assert fs[1..] == Continuations(b.sid, parts[1..]);
    if |parts| == 1 {
      assert Concat(parts[1..]) == [] && Concat(parts) == parts[0];
      assert fs[1..] == [];
    } else {
      var more := b.(bytes := b.bytes + parts[0]);
      assert OwnFrame(s, fs[0]) == s.(block := Some(more));
      ContinuationsAssemble(s.(block := Some(more)), more, parts[1..]);
      assert more.bytes + Concat(parts[1..]) == b.bytes + Concat(parts);
    }
  }

  /** However a peer cuts a header block, the stream receives it whole and once, and ends if it says so. */
  lemma BlockIsAssembled(s: Solo, sid: nat, parts: seq<Bytes>, end: bool)
    requires s.live && s.stream.Some? && parts != []
    ensures OwnFrames(s, BlockFrames(sid, parts, end)) ==
      Touched(s, OnBlock(s.stream.value, Concat(parts), end)).(block := None)
  {
    var fs := BlockFrames(sid, parts, end);
    assert fs[1..] == Continuations(sid, parts[1..]);
    var b := Block(sid, parts[0], end);
    if |parts| == 1 {
      assert Concat(parts[1..]) == [] && Concat(parts) == parts[0];
      assert fs[1..] == [];
    } else {
      assert OwnFrame(s, fs[0]) == s.(block := Some(b));
      ContinuationsAssemble(s.(block := Some(b)), b, parts[1..]);
    }
  }
}
