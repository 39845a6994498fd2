/** `H2Connection` as an object whose methods update its fields, each proved to take the machine's step. */
module H2Connection {
  import opened Prelude
  import opened Wire
  import opened H2Frames
  import opened H2Conn

  lemma {:induction false} WholenessIgnoresCurrent(p: Bytes, i: nat, a: nat, b: nat)
    ensures ReadSettings(p, i, a).1 == ReadSettings(p, i, b).1
    decreases |p| - i
  {
    if i + 1 < |p| && FromBigEndian(p[i..i + 2]) != 3 { WholenessIgnoresCurrent(p, i + 6, a, b); }
  }

  lemma NextRead(c: Conn, all: seq<Frame>, n: nat, f: Frame, rest: seq<Frame>)
    requires n <= |all| && all[n..] == [f] + rest
    ensures n < |all| && rest == all[n + 1..]
    ensures ReadEach(c, all[..n + 1]) == Read(ReadEach(c, all[..n]), f)
  {
    assert all[n] == all[n..][0] == f && all[n + 1..] == all[n..][1..];
    assert all[..n + 1] == all[..n] + [f];
    ReadAllSplits(c, all[..n], [f]);
    assert [f][1..] == [];
  }

  /** Where the input ends after some frames. */
  lemma EndsHere(c: Conn, fs: seq<Frame>)
    ensures ReadAll(c, fs) ==
      if ReadEach(c, fs).gone then ReadEach(c, fs) else ReaderExit(ReadEach(c, fs), PeerClosed)
  {
    assert fs + [] == fs;
    ReadAllSplits(c, fs, []);
  }

  /** Frames after the reader has gone change nothing. */
  lemma GoneAt(c: Conn, fs: seq<Frame>, n: nat)
    requires n <= |fs| && ReadEach(c, fs[..n]).gone
    ensures ReadAll(c, fs[..|fs|]) == ReadEach(c, fs[..n])
  {
    assert fs[..|fs|] == fs == fs[..n] + fs[n..];
    ReadAllSplits(c, fs[..n], fs[n..]);
    GoneReadsNothing(ReadEach(c, fs[..n]), fs[n..]);
  }

  /** The last value given for MAX_CONCURRENT_STREAMS. */
  function LastLimit(settings: seq<(nat, nat)>, current: nat): nat {
    if settings == [] then current
    else LastLimit(settings[1..], if settings[0].0 == 3 then settings[0].1 else current)
  }

  lemma EntryFields(id: nat, value: nat, before: Bytes, after: Bytes)
    requires id < 0x1_0000 && value < 0x1_0000_0000
    ensures var p, i := before + (BigEndian(id, 2) + BigEndian(value, 4) + after), |before|;
      FromBigEndian(p[i..i + 2]) == id && FromBigEndian(p[i + 2..i + 6]) == value
  {
    var p, i := before + (BigEndian(id, 2) + BigEndian(value, 4) + after), |before|;
    assert p[i..i + 2] == BigEndian(id, 2) && p[i + 2..i + 6] == BigEndian(value, 4);
    Pow256Values();
    assert Pow256(2) == 0x1_0000 by { assert Pow256(1) == 0x100; }
    BigEndianRoundTrip(id, 2);
    BigEndianRoundTrip(value, 4);
  }

  /** A well-formed SETTINGS payload is read to its end, and its last limit on streams counts. */
  lemma {:induction false} SettingsAreRead(settings: seq<(nat, nat)>, before: Bytes, current: nat)
    requires forall k :: 0 <= k < |settings| ==> settings[k].0 < 0x1_0000 && settings[k].1 < 0x1_0000_0000
    ensures ReadSettings(before + SettingsPayload(settings), |before|, current) == (LastLimit(settings, current), true)
    decreases |settings|
  {
    if settings != [] {
      var (id, value) := settings[0];
      var entry, rest := BigEndian(id, 2) + BigEndian(value, 4), SettingsPayload(settings[1..]);
      EntryFields(id, value, before, rest);
      assert before + SettingsPayload(settings) == (before + entry) + rest;
      SettingsAreRead(settings[1..], before + entry, if id == 3 then value else current);
    }
  }

  lemma {:induction false} GoneReadsNothing(c: Conn, fs: seq<Frame>)
    requires c.gone
    ensures ReadAll(c, fs) == c
  {
    if fs != [] { GoneReadsNothing(c, fs[1..]); }
  }

  function Tail(body: Bytes, i: nat): Bytes { if i < |body| then body[i..] else [] }

  lemma NextChunk(id: nat, body: Bytes, i: nat)
    requires i < |body|
    ensures var last := i + MAX_FRAME >= |body|;
      DataFrames(id, Tail(body, i)) ==
        [Frame(DATA, if last then END_STREAM else 0, id, if last then body[i..] else body[i..i + MAX_FRAME])]
        + DataFrames(id, Tail(body, i + MAX_FRAME))
  {
    if i + MAX_FRAME < |body| {
      assert body[i..][..MAX_FRAME] == body[i..i + MAX_FRAME];
      assert body[i..][MAX_FRAME..] == body[i + MAX_FRAME..];
    }
  }

  /** The streams still to do are as they were, the others as they shall be. */
  predicate Half(now: map<nat, Stream>, was: map<nat, Stream>, target: map<nat, Stream>, todo: set<nat>) {
    && now.Keys == was.Keys == target.Keys && todo <= now.Keys
    && forall s :: s in was ==> now[s] == if s in todo then was[s] else target[s]
  }

  lemma HalfDone(now: map<nat, Stream>, was: map<nat, Stream>, target: map<nat, Stream>)
    requires Half(now, was, target, {})
    ensures now == target
  {
  }

  lemma FailOne(now: map<nat, Stream>, was: map<nat, Stream>, todo: set<nat>, s: nat, last: int, why: Failure)
    requires Half(now, was, FailAbove(was, last, why), todo) && s in todo
    ensures s in now && var failed := Finish(now[s].(error := Some(why)));
      var next := if s > last && !now[s].done then now[s := failed] else now;
      Half(next, was, FailAbove(was, last, why), todo - {s})
  {
  }

  /** The frames of one request: the chunk loop of `_send`. */
  method PackRequest(id: nat, head: Bytes, body: Bytes) returns (out: seq<Frame>)
    ensures out == RequestFrames(id, head, body)
  {
    out := [HeadersFrame(id, head, body == [])];
    var i := 0;
    while i < |body|
      invariant 0 <= i && out + DataFrames(id, Tail(body, i)) == RequestFrames(id, head, body)
    {
      var last := i + MAX_FRAME >= |body|;
      var chunk := if last then body[i..] else body[i..i + MAX_FRAME];
      NextChunk(id, body, i);
      out := out + [Frame(DATA, if last then END_STREAM else 0, id, chunk)];
      i := i + MAX_FRAME;
    }
  }

  class Connection {
    var streams: map<nat, Stream>
    var popped: map<nat, Stream>
    var nextId: nat
    var closed: bool
    var closing: bool
    var maxConcurrent: nat
    var goawayLast: nat
    var block: Option<Block>
    var wire: seq<seq<Frame>>
    var gone: bool

    ghost function State(): Conn
      reads this
    {
      Conn(streams, popped, nextId, closed, closing, maxConcurrent, goawayLast, block, wire, gone)
    }

    constructor ()
      ensures State() == Init()
    {
      streams, popped, nextId, closed, closing := map[], map[], 1, false, false;
      maxConcurrent, goawayLast, block, gone := 100, 0x8000_0000, None, false;
      wire := [[Frame(SETTINGS, 0, 0, SettingsPayload(OPENING_SETTINGS)), WindowUpdate(0, CONN_WINDOW_INCREMENT)]];
    }

    method Write(unit: seq<Frame>)
      modifies this`wire
      ensures wire == old(wire) + [unit]
    {
      wire := wire + [unit];
    }

    method Send(head: Bytes, body: Bytes, maxBytes: nat, awaited: bool) returns (sid: Option<nat>)
      modifies this`streams, this`nextId, this`wire
      ensures State() == H2Conn.Send(old(State()), head, body, maxBytes, awaited)
      ensures sid == if closed then None else Some(old(nextId))
    {
      if closed { return None; }
      var id := nextId;
      nextId := nextId + 2;
      streams := streams[id := NewStream(maxBytes, awaited)];
      var out := PackRequest(id, head, body);
      Write(out);
      return Some(id);
    }

    method Cancel(sid: nat)
      modifies this`wire
      ensures State() == SendReset(old(State()), sid)
    {
      if closed || closing { return; }
      Write([Frame(RST_STREAM, 0, sid, BigEndian(E_CANCEL, 4))]);
    }

    method CompleteBlock(b: Block)
      modifies this`streams, this`block
      ensures State() == FinishHeaders(old(State()), b)
    {
      if b.sid in streams { streams := streams[b.sid := OnBlock(streams[b.sid], b.bytes, b.end)]; }
      block := None;
    }

    method TakeData(f: Frame)
      modifies this`streams, this`wire
      ensures State() == OnDataFrame(old(State()), f)
    {
      if f.sid !in streams || streams[f.sid].done { return; }
      var st, end := Received(streams[f.sid], f.payload), EndStream(f.flags);
      if f.payload != [] {
        var upd := [WindowUpdate(0, |f.payload|)];
        if !end { upd := upd + [WindowUpdate(f.sid, |f.payload|)]; }
        assert upd == Credits(f.sid, |f.payload|, end);
        Write(upd);
      }
      if st.maxBytes > 0 && st.nbytes > st.maxBytes {
        Cancel(f.sid);
        st := Finish(st.(error := Some(OverCap)));
      } else if end {
        st := Finish(st);
      }
      streams := streams[f.sid := st];
    }

    method TakeSettings(f: Frame) returns (whole: bool)
      requires f.kind == SETTINGS
      modifies this`maxConcurrent, this`wire
      ensures State() == OnSettings(old(State()), f)
      ensures whole <==> !Faulty(f)
    {
      if IsAck(f.flags) { return true; }
      var p, i := f.payload, 0;
      ghost var all := ReadSettings(p, 0, maxConcurrent);
      WholenessIgnoresCurrent(p, 0, maxConcurrent, 0);
      while i < |p|
        invariant 0 <= i && ReadSettings(p, i, maxConcurrent) == all && wire == old(wire)
      {
        if i + 1 >= |p| { return false; }
        if FromBigEndian(p[i..i + 2]) == 3 {
          if i + 6 > |p| { return false; }
          maxConcurrent := FromBigEndian(p[i + 2..i + 6]);
        }
        i := i + 6;
      }
      Write([Frame(SETTINGS, ACK, 0, [])]);
      return true;
    }

    /** Fail the unfinished streams above `last`, one by one. */
    method FailEach(last: int, why: Failure)
      modifies this`streams
      ensures streams == FailAbove(old(streams), last, why)
    {
      ghost var was, target := streams, FailAbove(streams, last, why);
      var todo := streams.Keys;
      while todo != {}
        invariant Half(streams, was, target, todo)
        decreases |todo|
      {
        var s :| s in todo;
        FailOne(streams, was, todo, s, last, why);
        if s > last && !streams[s].done {
          streams := streams[s := Finish(streams[s].(error := Some(why)))];
        }
        todo := todo - {s};
      }
      HalfDone(streams, was, target);
    }

    method FailAll(why: Failure)
      modifies this`closed, this`streams
      ensures State() == H2Conn.FailAll(old(State()), why)
    {
      closed := true;
      FailEach(-1, why);
    }

    method TakeBlockPart(f: Frame)
      requires f.kind == HEADERS || f.kind == CONTINUATION
      modifies this`streams, this`block
      ensures State() == H2Conn.Dispatch(old(State()), f)
    {
      if f.kind == HEADERS {
        block := Some(Block(f.sid, f.payload, EndStream(f.flags)));
      } else if block.Some? {
        block := Some(block.value.(bytes := block.value.bytes + f.payload));
      }
      if block.Some? && EndHeaders(f.flags) { CompleteBlock(block.value); }
    }

    /** False where the source raises. */
    method Dispatch(f: Frame) returns (ok: bool)
      modifies this
      ensures State() == H2Conn.Dispatch(old(State()), f)
      ensures ok <==> !Faulty(f)
    {
      ok := true;
      if f.kind == HEADERS || f.kind == CONTINUATION {
        TakeBlockPart(f);
      } else if f.kind == DATA {
        TakeData(f);
      } else if f.kind == SETTINGS {
        ok := TakeSettings(f);
      } else if f.kind == PING {
        if !IsAck(f.flags) { Write([Frame(PING, ACK, 0, f.payload)]); }
      } else if f.kind == GOAWAY {
        var last := LastStream(f.payload);
        goawayLast := last;
        closed := true;
        FailEach(last, GoAway(ErrorCode(f.payload)));
      } else if f.kind == RST_STREAM {
        if f.sid in streams && !streams[f.sid].done {
          streams := streams[f.sid := Finish(streams[f.sid].(error := Some(Reset)))];
        }
      }
    }

    /**
     * The reader thread: n whole frames are dispatched, then everything left is failed. Unless reads are stopped
     * those are all the whole frames.
     */
    method ReadLoop(tp: Transport) returns (ghost n: nat)
      requires !gone
      modifies this, tp`pending, tp`cuts, tp`peerEof
      ensures gone && n <= |Frames(old(tp.pending))|
      ensures State() == ReadAll(old(State()), Frames(old(tp.pending))[..n])
      ensures !tp.stop ==> n == |Frames(old(tp.pending))|
    {
      ghost var c0, all := State(), Frames(tp.pending);
      n := 0;
      while true
        invariant !gone && n <= |all| && Frames(tp.pending) == all[n..] && State() == ReadEach(c0, all[..n])
        decreases |tp.pending|
      {
        ghost var c := State();
        var frame := ReadFrame(tp);
        if frame.None? { break; }
        NextRead(c0, all, n, frame.value, Frames(tp.pending));
        n := n + 1;
        var ok := Dispatch(frame.value);
        if !ok {
          FailAll(Broken);
          gone := true;
          GoneAt(c0, all, n);
          n := |all|;
          return;
        }
      }
      EndsHere(c0, all[..n]);
      FailAll(PeerClosed);
      gone := true;
    }

    method Leave(sid: nat)
      modifies this`streams, this`popped
      ensures State() == Pop(old(State()), sid)
    {
      if sid in streams {
        popped := popped[sid := streams[sid]];
        streams := streams - {sid};
      }
    }

    method Close()
      modifies this`closing, this`closed, this`streams
      ensures State() == H2Conn.Close(old(State()))
    {
      if closing { return; }
      closing := true;
      closed := true;
      if gone { FailAll(ClosedHere); }
    }
  }
}
