/**
 * How streams end: once, for good, and at the latest when the reader does. Holds for any peer, including one
 * that breaks up header blocks.
 */
module H2Life {
  import opened Prelude
  import opened H2Frames
  import opened H2Conn

  /** A body within its cap, or cancelled by the one chunk that broke it. */
  predicate Capped(st: Stream) {
    OverLimit(st) ==>
      && st.done && st.error == Some(OverCap)
      && st.chunks != [] && st.nbytes - |Last(st.chunks)| <= st.maxBytes
  }

  /** A settled future tells what the stream tells. */
  predicate FutureTells(st: Stream) {
    match st.future
    case None => true
    case Some(Cancelled) => true
    case Some(Failed(why)) => st.done && st.error == Some(why)
    case Some(Answer(blocks, body)) => st.done && st.error.None? && blocks <= st.blocks && body == Concat(st.chunks)
  }

  /** Among the rest: nobody waits in vain, a finished stream's future is settled or about to be. */
  predicate Sound(st: Stream) {
    && st.nbytes == |Concat(st.chunks)|
    && Capped(st) && FutureTells(st)
    && (st.error.Some? || st.scheduled > 0 ==> st.done)
    && (st.error == Some(OverCap) ==> OverLimit(st))
    && (st.awaited && st.done ==> st.scheduled > 0 || st.future.Some?)
  }

  /** What never changes again: body, count and error of a finished stream, and what a future was settled with. */
  predicate Later(st: Stream, now: Stream) {
    && now.maxBytes == st.maxBytes && st.chunks <= now.chunks && st.blocks <= now.blocks
    && (st.done ==> now.done && now.chunks == st.chunks && now.nbytes == st.nbytes && now.error == st.error)
    && (st.future.Some? ==> now.future == st.future)
  }

  // ---- per stream ----

  lemma DataKeeps(st: Stream, payload: Bytes, end: bool)
    requires Sound(st)
    ensures Sound(OnData(st, payload, end)) && Later(st, OnData(st, payload, end))
  {
    ConcatAppend(st.chunks, payload);
  }

  lemma BlockKeeps(st: Stream, bytes: Bytes, end: bool)
    requires Sound(st)
    ensures Sound(OnBlock(st, bytes, end)) && Later(st, OnBlock(st, bytes, end))
  {
  }

  lemma FailKeeps(st: Stream, why: Failure)
    requires Sound(st) && !why.OverCap?
    ensures Sound(Fail(st, why)) && Later(st, Fail(st, why)) && Fail(st, why).done
  {
  }

  lemma ResolveKeeps(st: Stream)
    requires Sound(st)
    ensures Sound(Resolve(st)) && Later(st, Resolve(st))
    ensures Sound(Abandon(st)) && Later(st, Abandon(st))
  {
  }

  // ---- the tables ----

  predicate AllSound(m: map<nat, Stream>, nextId: nat) { forall s :: s in m ==> s + 1 < nextId && Sound(m[s]) }

  predicate AllDone(m: map<nat, Stream>) { forall s :: s in m ==> m[s].done }

  predicate Inv(c: Conn) {
    && AllSound(c.streams, c.nextId) && AllSound(c.popped, c.nextId)
    && (forall s :: s in c.popped ==> s !in c.streams)
    && (c.gone ==> c.closed && AllDone(c.streams))
    && (c.closing ==> c.closed)
  }

  /** Every stream of m is still held, and only moved on. */
  ghost predicate MovesOn(c: Conn, d: Conn) {
    && c.nextId <= d.nextId && (c.closed ==> d.closed) && (c.gone ==> d.gone)
    && forall s :: Held(c, s).Some? ==> Held(d, s).Some? && Later(Held(c, s).value, Held(d, s).value)
  }

  lemma UpdateKeeps(c: Conn, d: Conn, sid: nat, st: Stream)
    requires Inv(c) && sid in c.streams && Sound(st) && Later(c.streams[sid], st)
    requires d.streams == c.streams[sid := st] && d.popped == c.popped && d.nextId == c.nextId
    requires d.closed == c.closed && d.closing == c.closing && d.gone == c.gone
    ensures Inv(d) && MovesOn(c, d)
  {
    OneMovesOn(c, d, sid, st);
  }

  lemma LaterItself(st: Stream)
    ensures Later(st, st)
  {
  }

  /** One stream moves on, the others are held as they were. */
  lemma OneMovesOn(c: Conn, d: Conn, sid: nat, st: Stream)
    requires c.nextId <= d.nextId && (c.closed ==> d.closed) && (c.gone ==> d.gone)
    requires Held(c, sid).Some? && Held(d, sid) == Some(st) && Later(Held(c, sid).value, st)
    requires forall s: nat :: s != sid ==> Held(d, s) == Held(c, s)
    ensures MovesOn(c, d)
  {
    forall s: nat | Held(c, s).Some? ensures Held(d, s).Some? && Later(Held(c, s).value, Held(d, s).value) {
      LaterItself(Held(c, s).value);
    }
  }

  lemma SameTablesKeep(c: Conn, d: Conn)
    requires Inv(c) && d.streams == c.streams && d.popped == c.popped && d.nextId == c.nextId
    requires (c.closed ==> d.closed) && (d.closing ==> d.closed) && d.gone == c.gone
    ensures Inv(d) && MovesOn(c, d)
  {
  }

  lemma BlockStep(c: Conn, b: Block)
    requires Inv(c)
    ensures Inv(FinishHeaders(c, b)) && MovesOn(c, FinishHeaders(c, b))
  {
    var d := FinishHeaders(c, b);
    if b.sid in c.streams {
      BlockKeeps(c.streams[b.sid], b.bytes, b.end);
      UpdateKeeps(c, d, b.sid, d.streams[b.sid]);
    } else {
      SameTablesKeep(c, d);
    }
  }

  lemma HeadersStep(c: Conn, f: Frame)
    requires Inv(c)
    ensures Inv(OnHeaders(c, f)) && MovesOn(c, OnHeaders(c, f))
  {
    if EndHeaders(f.flags) {
      BlockStep(c, Block(f.sid, f.payload, EndStream(f.flags)));
    } else {
      SameTablesKeep(c, OnHeaders(c, f));
    }
  }

  lemma ContinuationStep(c: Conn, f: Frame)
    requires Inv(c)
    ensures Inv(OnContinuation(c, f)) && MovesOn(c, OnContinuation(c, f))
  {
    if c.block.Some? && EndHeaders(f.flags) {
      BlockStep(c, c.block.value.(bytes := c.block.value.bytes + f.payload));
    } else {
      SameTablesKeep(c, OnContinuation(c, f));
    }
  }

  lemma DataStep(c: Conn, f: Frame)
    requires Inv(c)
    ensures Inv(OnDataFrame(c, f)) && MovesOn(c, OnDataFrame(c, f))
  {
    var d := OnDataFrame(c, f);
    if Accepts(c, f.sid) {
      DataKeeps(c.streams[f.sid], f.payload, EndStream(f.flags));
      UpdateKeeps(c, d, f.sid, OnData(c.streams[f.sid], f.payload, EndStream(f.flags)));
    } else {
      SameTablesKeep(c, d);
    }
  }

  lemma ResetStep(c: Conn, f: Frame)
    requires Inv(c)
    ensures Inv(OnReset(c, f)) && MovesOn(c, OnReset(c, f))
  {
    var d := OnReset(c, f);
    if Accepts(c, f.sid) {
      FailKeeps(c.streams[f.sid], Reset);
      UpdateKeeps(c, d, f.sid, Fail(c.streams[f.sid], Reset));
    } else {
      SameTablesKeep(c, d);
    }
  }

  lemma FailAboveKeeps(c: Conn, d: Conn, last: int, why: Failure)
    requires Inv(c) && d.streams == FailAbove(c.streams, last, why) && d.popped == c.popped && d.nextId == c.nextId
    requires d.closed && (c.gone ==> d.gone) && (d.gone ==> c.gone || last < 0) && !why.OverCap?
    ensures Inv(d) && MovesOn(c, d)
  {
    FailAboveSound(c, d, last, why);
    FailAboveMoves(c, d, last, why);
  }

  lemma FailLater(st: Stream, why: Failure)
    ensures Later(st, Fail(st, why))
  {
  }

  lemma FailAboveMoves(c: Conn, d: Conn, last: int, why: Failure)
    requires d.streams == FailAbove(c.streams, last, why) && d.popped == c.popped && d.nextId == c.nextId
    requires d.closed && (c.gone ==> d.gone)
    ensures MovesOn(c, d)
  {
    forall s: nat | Held(c, s).Some? ensures Held(d, s).Some? && Later(Held(c, s).value, Held(d, s).value) {
      LaterItself(Held(c, s).value);
      FailLater(Held(c, s).value, why);
    }
  }

  lemma FailAboveSound(c: Conn, d: Conn, last: int, why: Failure)
    requires Inv(c) && d.streams == FailAbove(c.streams, last, why) && d.popped == c.popped && d.nextId == c.nextId
    requires d.closed && (d.gone ==> c.gone || last < 0) && !why.OverCap?
    ensures Inv(d)
  {
    forall s | s in c.streams ensures Sound(d.streams[s]) && (d.gone ==> d.streams[s].done) {
      FailKeeps(c.streams[s], why);
    }
  }

  lemma DispatchStep(c: Conn, f: Frame)
    requires Inv(c)
    ensures Inv(Dispatch(c, f)) && MovesOn(c, Dispatch(c, f))
  {
    if f.kind == HEADERS { HeadersStep(c, f); }
    else if f.kind == CONTINUATION { ContinuationStep(c, f); }
    else if f.kind == DATA { DataStep(c, f); }
    else if f.kind == SETTINGS { SameTablesKeep(c, OnSettings(c, f)); }
    else if f.kind == PING { SameTablesKeep(c, OnPing(c, f)); }
    else if f.kind == GOAWAY { FailAboveKeeps(c, OnGoAway(c, f), LastStream(f.payload), GoAway(ErrorCode(f.payload))); }
    else if f.kind == RST_STREAM { ResetStep(c, f); }
    else { SameTablesKeep(c, c); }
  }

  lemma MovesOnTrans(a: Conn, b: Conn, c: Conn)
    requires MovesOn(a, b) && MovesOn(b, c)
    ensures MovesOn(a, c)
  {
    forall s | Held(a, s).Some? ensures Held(c, s).Some? && Later(Held(a, s).value, Held(c, s).value) {
      assert Held(b, s).Some?;
    }
  }

  lemma ReadStep(c: Conn, f: Frame)
    requires Inv(c)
    ensures Inv(Read(c, f)) && MovesOn(c, Read(c, f))
  {
    if c.gone {
      SameTablesKeep(c, c);
    } else {
      DispatchStep(c, f);
      var d := Dispatch(c, f);
      if Faulty(f) {
        FailAboveKeeps(d, ReaderExit(d, Broken), -1, Broken);
        MovesOnTrans(c, d, ReaderExit(d, Broken));
      }
    }
  }

  lemma PoppedUpdateKeeps(c: Conn, d: Conn, sid: nat, st: Stream)
    requires Inv(c) && sid in c.popped && Sound(st) && Later(c.popped[sid], st)
    requires d == c.(popped := c.popped[sid := st])
    ensures Inv(d) && MovesOn(c, d)
  {
    OneMovesOn(c, d, sid, st);
  }

  lemma FutureStep(c: Conn, sid: nat, st: Stream)
    requires Inv(c) && Held(c, sid).Some? && Sound(st) && Later(Held(c, sid).value, st)
    ensures Inv(Replace(c, sid, st)) && MovesOn(c, Replace(c, sid, st))
  {
    var d := Replace(c, sid, st);
    if sid in c.streams { UpdateKeeps(c, d, sid, st); } else { PoppedUpdateKeeps(c, d, sid, st); }
  }

  lemma SendStep(c: Conn, block: Bytes, body: Bytes, maxBytes: nat, awaited: bool)
    requires Inv(c)
    ensures var d := Send(c, block, body, maxBytes, awaited); Inv(d) && MovesOn(c, d)
  {
    if !c.closed {
      OpenKeeps(c, Send(c, block, body, maxBytes, awaited), NewStream(maxBytes, awaited));
    } else {
      SameTablesKeep(c, c);
    }
  }

  lemma OpenKeeps(c: Conn, d: Conn, st: Stream)
    requires Inv(c) && !c.closed && Sound(st)
    requires d.streams == c.streams[c.nextId := st] && d.popped == c.popped && d.nextId == c.nextId + 2
    requires d.closed == c.closed && d.closing == c.closing && d.gone == c.gone
    ensures Inv(d) && MovesOn(c, d)
  {
    assert forall s: nat :: Held(c, s).Some? ==> s < c.nextId && Held(d, s) == Held(c, s);
  }

  lemma PopStep(c: Conn, sid: nat)
    requires Inv(c)
    ensures Inv(Pop(c, sid)) && MovesOn(c, Pop(c, sid))
  {
    PopMovesOn(c, Pop(c, sid), sid);
  }

  lemma PopMovesOn(c: Conn, d: Conn, sid: nat)
    requires d == Pop(c, sid) && forall s :: s in c.popped ==> s !in c.streams
    ensures MovesOn(c, d)
  {
    forall s | Held(c, s).Some? ensures Held(d, s) == Held(c, s) {}
  }

  lemma StepKeeps(c: Conn, e: Event)
    requires Inv(c)
    ensures Inv(Step(c, e)) && MovesOn(c, Step(c, e))
  {
    match e
    case Arrive(f) => ReadStep(c, f);
    case EndOfInput =>
      if c.gone { SameTablesKeep(c, c); } else { FailAboveKeeps(c, ReaderExit(c, PeerClosed), -1, PeerClosed); }
    case CloseCall =>
      var d := Close(c);
      if c.closing || !c.gone { SameTablesKeep(c, d); } else { FailAboveKeeps(c, d, -1, ClosedHere); }
    case Callback(sid) =>
      if Held(c, sid).Some? {
        ResolveKeeps(Held(c, sid).value);
        FutureStep(c, sid, Resolve(Held(c, sid).value));
      } else { SameTablesKeep(c, c); }
    case Drop(sid) =>
      if Held(c, sid).Some? {
        ResolveKeeps(Held(c, sid).value);
        FutureStep(c, sid, Abandon(Held(c, sid).value));
      } else { SameTablesKeep(c, c); }
    case Request(block, body, m, a) => SendStep(c, block, body, m, a);
    case TimeOut(sid) => SameTablesKeep(c, SendReset(c, sid));
    case Leave(sid) => PopStep(c, sid);
  }

  // ---- whole runs ----

  lemma {:induction false} RunKeepsInv(es: seq<Event>)
    ensures Inv(Run(es))
  {
    if es != [] {
      RunKeepsInv(Front(es));
      StepKeeps(Run(Front(es)), Last(es));
    }
  }

  lemma MovesOnStep(c: Conn, d: Conn, e: Event)
    requires MovesOn(c, d) && Inv(d)
    ensures MovesOn(c, Step(d, e))
  {
    StepKeeps(d, e);
    MovesOnTrans(c, d, Step(d, e));
  }

  /** Nothing later changes body, count or error of a finished stream, nor what a future was settled with. */
  lemma {:induction false} ResultsAreFinal(es: seq<Event>, more: seq<Event>)
    ensures MovesOn(Run(es), Run(es + more))
  {
    RunKeepsInv(es);
    if more == [] {
      assert es + more == es;
      SameTablesKeep(Run(es), Run(es));
    } else {
      var before := es + Front(more);
      assert Front(es + more) == before && Last(es + more) == Last(more);
      ResultsAreFinal(es, Front(more));
      RunKeepsInv(before);
      MovesOnStep(Run(es), Run(before), Last(more));
    }
  }

  /** A caller that drops its future first has dropped it for good: nothing that arrives settles it otherwise. */
  lemma DroppedStaysDropped(es: seq<Event>, sid: nat, more: seq<Event>)
    requires Held(Run(es), sid).Some? && Held(Run(es), sid).value.future.None?
    ensures var c := Run(es + [Drop(sid)] + more);
      Held(c, sid).Some? && Held(c, sid).value.future == Some(Cancelled)
  {
    assert Front(es + [Drop(sid)]) == es;
    ResultsAreFinal(es + [Drop(sid)], more);
  }

  /** A capped stream that ends well holds at most its cap; any other passes it by part of one frame. */
  lemma CapHolds(es: seq<Event>, sid: nat)
    requires Held(Run(es), sid).Some? && Held(Run(es), sid).value.maxBytes > 0
    ensures var st := Held(Run(es), sid).value;
      && (st.error.None? ==> |Concat(st.chunks)| <= st.maxBytes)
      && (st.chunks != [] ==> |Concat(st.chunks)| <= st.maxBytes + |Last(st.chunks)|)
  {
    RunKeepsInv(es);
  }

  /** A capped stream fails for its size exactly when its body has passed the cap. */
  lemma CapFailsExactly(es: seq<Event>, sid: nat)
    requires Held(Run(es), sid).Some?
    ensures var st := Held(Run(es), sid).value;
      st.error == Some(OverCap) <==> st.maxBytes > 0 && |Concat(st.chunks)| > st.maxBytes
  {
    RunKeepsInv(es);
  }

  /** GOAWAY fails exactly the unfinished streams above the last one the peer will process. */
  lemma GoAwayFailsExactly(c: Conn, f: Frame, sid: nat)
    requires f.kind == GOAWAY && sid in c.streams
    ensures var st, now := c.streams[sid], Dispatch(c, f).streams[sid];
      && (now != st <==> !st.done && sid > LastStream(f.payload))
      && (now != st ==> now.done && now.error == Some(GoAway(ErrorCode(f.payload))))
      && (now.done <==> st.done || sid > LastStream(f.payload))
  {
  }

  /** A GOAWAY frame as a server writes it (section 6.8 of RFC 9113). */
  function GoAwayFrame(last: nat, code: nat, debug: Bytes): Frame {
    Frame(7, 0, 0, BigEndian(last, 4) + BigEndian(code, 4) + debug)
  }

  lemma GoAwayFields(last: nat, code: nat, debug: Bytes)
    requires last < 0x8000_0000 && code < 0x1_0000_0000
    ensures LastStream(GoAwayFrame(last, code, debug).payload) == last
    ensures ErrorCode(GoAwayFrame(last, code, debug).payload) == code
  {
    var a, b := BigEndian(last, 4), BigEndian(code, 4);
    var p := a + b + debug;
    assert p[..4] == a && p[4..8] == b;
    Pow256Values();
    BigEndianRoundTrip(last, 4);
    BigEndianRoundTrip(code, 4);
  }

  /** What a server says it will not process fails, with the code it gives, and nothing else does. */
  lemma GoAwayAsWritten(c: Conn, last: nat, code: nat, debug: Bytes, sid: nat)
    requires last < 0x8000_0000 && code < 0x1_0000_0000 && sid in c.streams
    ensures var d := Dispatch(c, GoAwayFrame(last, code, debug));
      && sid in d.streams && d.closed && d.goawayLast == last
      && (d.streams[sid] != c.streams[sid] <==> !c.streams[sid].done && sid > last)
      && (d.streams[sid] != c.streams[sid] ==>
            && d.streams[sid].done && d.streams[sid].error == Some(GoAway(code))
            && d.streams[sid].chunks == c.streams[sid].chunks)
  {
    GoAwayFields(last, code, debug);
    GoAwayFailsExactly(c, GoAwayFrame(last, code, debug), sid);
  }

  /** One too short to name a stream fails all that are unfinished, with no code. */
  lemma ShortGoAwayFailsAll(c: Conn, f: Frame, sid: nat)
    requires f.kind == 7 && |f.payload| < 4 && sid in c.streams && sid > 0 && !c.streams[sid].done
    ensures var d := Dispatch(c, f);
      sid in d.streams && d.closed && d.streams[sid].done && d.streams[sid].error == Some(GoAway(-1))
  {
    GoAwayFailsExactly(c, f, sid);
  }

  predicate NoneAdded(c: Conn, d: Conn) {
    d.closed && d.nextId == c.nextId && d.streams.Keys <= c.streams.Keys
  }

  lemma NoneAddedTrans(a: Conn, b: Conn, c: Conn)
    requires NoneAdded(a, b) && NoneAdded(b, c)
    ensures NoneAdded(a, c)
  {
  }

  lemma ClosedStep(c: Conn, e: Event)
    requires c.closed
    ensures NoneAdded(c, Step(c, e))
  {
  }

  /** A closed connection takes no stream, whatever comes. */
  lemma {:induction false} ClosedTakesNone(es: seq<Event>, more: seq<Event>)
    requires Run(es).closed
    ensures NoneAdded(Run(es), Run(es + more))
  {
    if more == [] {
      assert es + more == es;
    } else {
      var before := es + Front(more);
      ClosedTakesNone(es, Front(more));
      ClosedStep(Run(before), Last(more));
      assert Front(es + more) == before && Last(es + more) == Last(more);
      NoneAddedTrans(Run(es), Run(before), Run(es + more));
    }
  }

  /** Once the reader has gone, every registered stream is done, then and for ever, and none is added. */
  lemma ReaderExitFinishesAll(es: seq<Event>, more: seq<Event>)
    requires Run(es).gone
    ensures Run(es + more).gone && AllDone(Run(es + more).streams)
    ensures NoneAdded(Run(es), Run(es + more))
  {
    RunKeepsInv(es);
    RunKeepsInv(es + more);
    ResultsAreFinal(es, more);
    ClosedTakesNone(es, more);
  }

  // ---- headers ----

  /** The frame completes a header block for sid. */
  predicate CompletesBlock(c: Conn, f: Frame, sid: nat) {
    && EndHeaders(f.flags)
    && ((f.kind == HEADERS && f.sid == sid) || (f.kind == CONTINUATION && c.block.Some? && c.block.value.sid == sid))
  }

  function Headers(c: Conn, sid: nat): seq<Bytes> {
    match Held(c, sid) case None => [] case Some(st) => st.blocks
  }

  lemma BlockExtends(c: Conn, b: Block, sid: nat)
    ensures Headers(FinishHeaders(c, b), sid) ==
      if b.sid == sid && sid in c.streams then Headers(c, sid) + [b.bytes] else Headers(c, sid)
  {
  }

  lemma FrameExtends(c: Conn, f: Frame, sid: nat)
    ensures |Headers(Dispatch(c, f), sid)| ==
      |Headers(c, sid)| + if sid in c.streams && CompletesBlock(c, f, sid) then 1 else 0
    ensures Headers(c, sid) <= Headers(Dispatch(c, f), sid)
  {
    if f.kind == HEADERS {
      BlockExtends(c, Block(f.sid, f.payload, EndStream(f.flags)), sid);
    } else if f.kind == CONTINUATION && c.block.Some? {
      BlockExtends(c, c.block.value.(bytes := c.block.value.bytes + f.payload), sid);
    } else {
      OtherFrameKeepsHeaders(c, f, sid);
    }
  }

  lemma OtherFrameKeepsHeaders(c: Conn, f: Frame, sid: nat)
    requires f.kind != HEADERS && (f.kind == CONTINUATION ==> c.block.None?)
    ensures Headers(Dispatch(c, f), sid) == Headers(c, sid)
  {
    if f.kind == DATA { DataKeepsHeaders(c, f, sid); }
    else if f.kind == GOAWAY {
      FailKeepsHeaders(c, OnGoAway(c, f), LastStream(f.payload), GoAway(ErrorCode(f.payload)), sid);
    }
    else if f.kind == RST_STREAM { ResetKeepsHeaders(c, f, sid); }
    else if f.kind == SETTINGS { assert Dispatch(c, f) == OnSettings(c, f); }
  }

  lemma ResetKeepsHeaders(c: Conn, f: Frame, sid: nat)
    ensures Headers(OnReset(c, f), sid) == Headers(c, sid)
  {
  }

  lemma FailKeepsHeaders(c: Conn, d: Conn, last: int, why: Failure, sid: nat)
    requires d.streams == FailAbove(c.streams, last, why) && d.popped == c.popped
    ensures Headers(d, sid) == Headers(c, sid)
  {
  }

  lemma DataKeepsHeaders(c: Conn, f: Frame, sid: nat)
    ensures Headers(OnDataFrame(c, f), sid) == Headers(c, sid)
  {
  }

  lemma ExitKeepsHeaders(c: Conn, why: Failure, sid: nat)
    ensures Headers(FailAll(c, why), sid) == Headers(ReaderExit(c, why), sid) == Headers(c, sid)
  {
    FailKeepsHeaders(c, FailAll(c, why), -1, why, sid);
  }

  lemma ReadExtends(c: Conn, f: Frame, sid: nat)
    ensures |Headers(Read(c, f), sid)| ==
      |Headers(c, sid)| + if !c.gone && sid in c.streams && CompletesBlock(c, f, sid) then 1 else 0
  {
    if !c.gone {
      FrameExtends(c, f, sid);
      ExitKeepsHeaders(Dispatch(c, f), Broken, sid);
    }
  }

  /** The header list of a stream that a caller holds grows with an event. */
  predicate Extends(c: Conn, e: Event, sid: nat) {
    e.Arrive? && !c.gone && sid in c.streams && CompletesBlock(c, e.frame, sid)
  }

  /**
   * What is not final: the header list, which a settled answer shares with its stream. It changes exactly when a
   * frame completes a header block for a stream still in the table, finished or not.
   */
  lemma HeadersMoveExactly(es: seq<Event>, e: Event, sid: nat)
    requires Held(Run(es), sid).Some?
    ensures Headers(Step(Run(es), e), sid) != Headers(Run(es), sid) <==> Extends(Run(es), e, sid)
  {
    RunKeepsInv(es);
    var c := Run(es);
    if e.Arrive? { ReadExtends(c, e.frame, sid); ReadPrefix(c, e.frame, sid); } else { CallKeepsHeaders(c, e, sid); }
  }

  const ANSWERED := Stream([[7]], [], 0, 0, true, None, true, 0, Some(Answer([[7]], [])))

  /** A request, its whole answer in one HEADERS frame, and the callback that settles its future. */
  const SETTLED: seq<Event> :=
    [Request([], [], 0, true), Arrive(Frame(HEADERS, END_HEADERS + END_STREAM, 1, [7])), Callback(1)]

  const LATE: Event := Arrive(Frame(HEADERS, END_HEADERS, 1, [8]))

  lemma HeadersDispatched(c: Conn, st: Stream, payload: Bytes, end: bool)
    requires c.streams == map[1 := st] && !c.gone
    ensures var f := Frame(HEADERS, END_HEADERS + (if end then END_STREAM else 0), 1, payload);
      var d := Read(c, f); d.streams == map[1 := OnBlock(st, payload, end)] && !d.gone
  {
    var f := Frame(HEADERS, END_HEADERS + (if end then END_STREAM else 0), 1, payload);
    assert Dispatch(c, f) == FinishHeaders(c, Block(1, payload, end));
  }

  lemma FutureSettles(c: Conn)
    requires c.streams == map[1 := ANSWERED.(scheduled := 1, future := None)] && !c.gone
    ensures var d := Step(c, Callback(1)); d.streams == map[1 := ANSWERED] && !d.gone
  {
  }

  lemma RunThree(a: Event, b: Event, c: Event)
    ensures Run([a, b, c]) == Step(Step(Step(Init(), a), b), c)
  {
    assert Front([a, b, c]) == [a, b] && Front([a, b]) == [a] && Front([a]) == [];
    assert Run([a]) == Step(Init(), a);
    assert Run([a, b]) == Step(Run([a]), b);
  }

  lemma AnswerSettles()
    ensures Run(SETTLED).streams == map[1 := ANSWERED] && !Run(SETTLED).gone
  {
    RunThree(SETTLED[0], SETTLED[1], SETTLED[2]);
    var c := Step(Init(), SETTLED[0]);
    assert c.streams == map[1 := NewStream(0, true)] && !c.gone;
    HeadersDispatched(c, NewStream(0, true), [7], true);
    assert [] + [[7 as Byte]] == [[7]];
    FutureSettles(Step(c, SETTLED[1]));
  }

  /** A HEADERS frame after END_STREAM changes the headers of an answer already given. */
  lemma SettledHeadersMove()
    ensures Held(Run(SETTLED), 1) == Some(ANSWERED) && Headers(Run(SETTLED), 1) == [[7]]
    ensures Headers(Run(SETTLED + [LATE]), 1) == [[7], [8]]
  {
    AnswerSettles();
    assert Front(SETTLED + [LATE]) == SETTLED;
    HeadersDispatched(Run(SETTLED), ANSWERED, [8], false);
  }

  lemma ReadPrefix(c: Conn, f: Frame, sid: nat)
    ensures Headers(c, sid) <= Headers(Read(c, f), sid)
  {
    FrameExtends(c, f, sid);
    ExitKeepsHeaders(Dispatch(c, f), Broken, sid);
  }

  lemma CallKeepsHeaders(c: Conn, e: Event, sid: nat)
    requires Inv(c) && !e.Arrive? && Held(c, sid).Some?
    ensures Headers(Step(c, e), sid) == Headers(c, sid)
  {
    match e
    case EndOfInput => ExitKeepsHeaders(c, PeerClosed, sid);
    case CloseCall => ExitKeepsHeaders(c.(closing := true, closed := true), ClosedHere, sid);
    case Callback(at) => if Held(c, at).Some? { ReplaceKeepsHeaders(c, at, Resolve(Held(c, at).value), sid); }
    case Drop(at) => if Held(c, at).Some? { ReplaceKeepsHeaders(c, at, Abandon(Held(c, at).value), sid); }
    case _ => TableKeepsHeaders(c, e, sid);
  }

  lemma ReplaceKeepsHeaders(c: Conn, at: nat, st: Stream, sid: nat)
    requires Held(c, at).Some? && st.blocks == Held(c, at).value.blocks
    ensures Headers(Replace(c, at, st), sid) == Headers(c, sid)
  {
  }

  lemma TableKeepsHeaders(c: Conn, e: Event, sid: nat)
    requires Inv(c) && (e.Request? || e.TimeOut? || e.Leave?) && Held(c, sid).Some?
    ensures Headers(Step(c, e), sid) == Headers(c, sid)
  {
  }
}
