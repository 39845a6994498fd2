/** Flow control (section 6.9 of RFC 9113): the credit the client grants against the data it takes. */
module H2Flow {
  import opened Prelude
  import opened H2Frames
  import opened H2Conn
  import opened H2Log
  import H2Life

  function Increment(f: Frame): nat { FromBigEndian(f.payload) }

  /** The credit granted on sid (0 is the connection). */
  function Credit(fs: seq<Frame>, sid: nat): nat {
    if fs == [] then 0
    else
      var f := Last(fs);
      Credit(Front(fs), sid) + if f.kind == WINDOW_UPDATE && f.sid == sid then Increment(f) else 0
  }

  lemma {:induction false} CreditSplit(a: seq<Frame>, b: seq<Frame>, sid: nat)
    ensures Credit(a + b, sid) == Credit(a, sid) + Credit(b, sid)
  {
    if b == [] {
      assert a + b == a;
    } else {
      assert Front(a + b) == a + Front(b) && Last(a + b) == Last(b);
      CreditSplit(a, Front(b), sid);
    }
  }

  lemma {:induction false} NoUpdateNoCredit(fs: seq<Frame>, sid: nat)
    requires forall k :: 0 <= k < |fs| ==> fs[k].kind != WINDOW_UPDATE
    ensures Credit(fs, sid) == 0
  {
    if fs != [] { NoUpdateNoCredit(Front(fs), sid); }
  }

  lemma {:induction false} DataIsNoUpdate(sid: nat, body: Bytes)
    ensures forall k :: 0 <= k < |DataFrames(sid, body)| ==> DataFrames(sid, body)[k].kind != WINDOW_UPDATE
    decreases |body|
  {
    if |body| > MAX_FRAME { DataIsNoUpdate(sid, body[MAX_FRAME..]); }
  }

  // ---- the data ----

  /** The payload of a DATA frame the reader dispatches. */
  function Arriving(c: Conn, e: Event): nat {
    if e.Arrive? && !c.gone && e.frame.kind == DATA then |e.frame.payload| else 0
  }

  /** The part of it that reaches a stream which is registered and unfinished. */
  function Taken(c: Conn, e: Event): nat { if e.Arrive? && Accepts(c, e.frame.sid) then Arriving(c, e) else 0 }

  function TakenOpen(c: Conn, e: Event, sid: nat): nat {
    if e.Arrive? && e.frame.sid == sid && !EndStream(e.frame.flags) then Taken(c, e) else 0
  }

  function Delivered(es: seq<Event>): nat {
    if es == [] then 0 else Delivered(Front(es)) + Arriving(Run(Front(es)), Last(es))
  }

  function Dropped(es: seq<Event>): nat {
    if es == [] then 0
    else
      var c, e := Run(Front(es)), Last(es);
      Dropped(Front(es)) + if Taken(c, e) == Arriving(c, e) then 0 else Arriving(c, e)
  }

  /** Data taken on sid in frames that left the stream open. */
  function TakenOn(es: seq<Event>, sid: nat): nat {
    if es == [] then 0 else TakenOn(Front(es), sid) + TakenOpen(Run(Front(es)), Last(es), sid)
  }

  // ---- one step ----

  lemma UpdateSays(sid: nat, n: nat)
    requires n < 0x100_0000
    ensures Increment(WindowUpdate(sid, n)) == n
  {
    Pow256Values();
    BigEndianRoundTrip(n, 4);
  }

  lemma CreditsSay(sid: nat, n: nat, end: bool, on: nat)
    requires n < 0x100_0000 && sid > 0
    ensures Credit(Credits(sid, n, end), on) == if on == 0 || (on == sid && !end) then n else 0
  {
    UpdateSays(0, n);
    UpdateSays(sid, n);
    var u := WindowUpdate(0, n);
    assert Front([u]) == [] && Credit([u], on) == if on == 0 then n else 0;
    if !end { assert Front([u, WindowUpdate(sid, n)]) == [u]; }
  }

  lemma ResetSaysNothing(c: Conn, sid: nat, on: nat)
    ensures Credit(Concat(ResetWrites(c, sid)), on) == 0
  {
    var w := ResetWrites(c, sid);
    if w != [] { assert w[1..] == [] && Concat(w) == w[0]; }
    NoUpdateNoCredit(Concat(w), on);
  }

  /** Streams have nonzero identifiers. */
  lemma {:induction false} NoStreamZero(es: seq<Event>)
    ensures Held(Run(es), 0).None?
  {
    if es != [] {
      NoStreamZero(Front(es));
      RequestsAreNumbered(Front(es));
      ZeroStaysOut(Run(Front(es)), Last(es));
    }
  }

  lemma ZeroStaysOut(c: Conn, e: Event)
    requires Held(c, 0).None? && c.nextId > 0
    ensures Held(Step(c, e), 0).None?
  {
  }

  lemma DataCredit(c: Conn, f: WireFrame, on: nat)
    requires f.kind == DATA && Held(c, 0).None?
    ensures Credit(Concat(DataWrites(c, f)), on) ==
      if Accepts(c, f.sid) && (on == 0 || (on == f.sid && !EndStream(f.flags))) then |f.payload| else 0
  {
    if Accepts(c, f.sid) {
      var n := |f.payload|;
      var a := if f.payload == [] then [] else [Credits(f.sid, n, EndStream(f.flags))];
      var b := if OverLimit(Received(c.streams[f.sid], f.payload)) then ResetWrites(c, f.sid) else [];
      assert DataWrites(c, f) == a + b;
      ConcatSplit(a, b);
      CreditSplit(Concat(a), Concat(b), on);
      ResetSaysNothing(c, f.sid, on);
      if n > 0 {
        assert a[1..] == [] && Concat(a) == a[0];
        CreditsSay(f.sid, n, EndStream(f.flags), on);
      }
    }
  }

  lemma OtherCredit(c: Conn, e: Event, on: nat)
    requires !(e.Arrive? && e.frame.kind == DATA)
    ensures Credit(Concat(Writes(c, e)), on) == 0
  {
    var w := Writes(c, e);
    if e.Request? { DataIsNoUpdate(c.nextId, e.body); }
    if w != [] { assert w[1..] == [] && Concat(w) == w[0]; }
    NoUpdateNoCredit(Concat(w), on);
  }

  /** One event grants the connection what it takes, and a stream what it takes without being ended. */
  lemma CreditStep(c: Conn, e: Event, on: nat)
    requires Held(c, 0).None?
    ensures Credit(Concat(Writes(c, e)), on) == if on == 0 then Taken(c, e) else TakenOpen(c, e, on)
  {
    if e.Arrive? && e.frame.kind == DATA {
      if !c.gone { DataCredit(c, e.frame, on); }
    } else {
      OtherCredit(c, e, on);
    }
  }

  lemma CreditGrows(es: seq<Event>, on: nat)
    requires es != []
    ensures var c, e := Run(Front(es)), Last(es);
      Credit(Flat(es), on) == Credit(Flat(Front(es)), on) + if on == 0 then Taken(c, e) else TakenOpen(c, e, on)
  {
    var c, e := Run(Front(es)), Last(es);
    FlatStep(es);
    NoStreamZero(Front(es));
    CreditStep(c, e, on);
    CreditSplit(Flat(Front(es)), Concat(Writes(c, e)), on);
  }

  lemma OpeningCredit(on: nat)
    ensures Credit(Flat([]), on) == if on == 0 then CONN_WINDOW_INCREMENT else 0
  {
    var settings, update := Init().wire[0][0], WindowUpdate(0, CONN_WINDOW_INCREMENT);
    var fs := [settings, update];
    assert Concat([fs][1..]) == [] && Flat([]) == fs;
    UpdateSays(0, CONN_WINDOW_INCREMENT);
    assert Front(fs) == [settings] && Last(fs) == update;
    assert Front([settings]) == [] && Credit([settings], on) == 0;
  }

  // ---- whole runs ----

  /** Credit granted on the connection, beyond the opening increment, is the data taken. */
  lemma {:induction false} ConnectionCredit(es: seq<Event>)
    ensures Credit(Flat(es), 0) + Dropped(es) == CONN_WINDOW_INCREMENT + Delivered(es)
  {
    if es == [] {
      OpeningCredit(0);
    } else {
      ConnectionCredit(Front(es));
      CreditGrows(es, 0);
    }
  }

  const DEFAULT_WINDOW := 65535

  /** What the peer may still send: the initial window, plus all credit, minus all it sent. */
  function PeerWindow(es: seq<Event>): int { DEFAULT_WINDOW + Credit(Flat(es), 0) - Delivered(es) }

  /** The peer's window only ever shrinks by data for streams that are unknown or finished. */
  lemma PeerWindowIsConserved(es: seq<Event>)
    ensures PeerWindow(es) == DEFAULT_WINDOW + CONN_WINDOW_INCREMENT - Dropped(es)
  {
    ConnectionCredit(es);
  }

  /** Credit granted on a stream is the data it took in frames that did not end it. */
  lemma {:induction false} StreamCredit(es: seq<Event>, sid: nat)
    requires sid > 0
    ensures Credit(Flat(es), sid) == TakenOn(es, sid)
  {
    if es == [] {
      OpeningCredit(sid);
    } else {
      StreamCredit(Front(es), sid);
      CreditGrows(es, sid);
    }
  }

  /** A finished stream gets no more credit. */
  lemma {:induction false} FinishedGetsNoCredit(es: seq<Event>, more: seq<Event>, sid: nat)
    requires sid > 0 && Held(Run(es), sid).Some? && Held(Run(es), sid).value.done
    ensures Credit(Flat(es + more), sid) == Credit(Flat(es), sid)
  {
    if more == [] {
      assert es + more == es;
    } else {
      var before := es + Front(more);
      assert Front(es + more) == before && Last(es + more) == Last(more);
      FinishedGetsNoCredit(es, Front(more), sid);
      H2Life.ResultsAreFinal(es, Front(more));
      assert Held(Run(before), sid).Some? && H2Life.Later(Held(Run(es), sid).value, Held(Run(before), sid).value);
      CreditGrows(es + more, sid);
    }
  }

  /** Neither the DATA frame that ends a stream nor anything after it brings the stream credit. */
  lemma NoCreditAfterEnd(es: seq<Event>, f: WireFrame, more: seq<Event>)
    requires f.kind == DATA && EndStream(f.flags) && f.sid in Run(es).streams && !Run(es).gone
    ensures Credit(Flat(es + [Arrive(f)] + more), f.sid) == Credit(Flat(es), f.sid)
  {
    var now := es + [Arrive(f)];
    assert Front(now) == es && Last(now) == Arrive(f);
    NoStreamZero(es);
    CreditGrows(now, f.sid);
    EndsNow(Run(es), f);
    FinishedGetsNoCredit(now, more, f.sid);
  }

  lemma EndsNow(c: Conn, f: WireFrame)
    requires f.kind == DATA && EndStream(f.flags) && f.sid in c.streams && !c.gone
    ensures Held(Step(c, Arrive(f)), f.sid).Some? && Held(Step(c, Arrive(f)), f.sid).value.done
  {
  }

  /** Every increment is legal: nonzero and below 2^31. */
  predicate LegalIncrements(fs: seq<Frame>) {
    forall k :: 0 <= k < |fs| && fs[k].kind == WINDOW_UPDATE ==> 0 < Increment(fs[k]) < 0x8000_0000
  }

  lemma DataIncrements(c: Conn, f: WireFrame)
    ensures LegalIncrements(Concat(DataWrites(c, f)))
  {
    var w := DataWrites(c, f);
    UpdateSays(0, |f.payload|);
    UpdateSays(f.sid, |f.payload|);
    if |w| == 1 { assert w == [w[0]] && Concat(w[1..]) == []; }
    else if |w| == 2 { assert w == [w[0], w[1]] && w[1..] == [w[1]] && Concat(w[1..][1..]) == []; }
  }

  lemma OtherIncrements(c: Conn, e: Event)
    requires !(e.Arrive? && e.frame.kind == DATA)
    ensures LegalIncrements(Concat(Writes(c, e)))
  {
    var w := Writes(c, e);
    if e.Request? { DataIsNoUpdate(c.nextId, e.body); }
    if w != [] { assert w[1..] == [] && Concat(w) == w[0]; }
  }

  lemma {:induction false} IncrementsAreLegal(es: seq<Event>)
    ensures LegalIncrements(Flat(es))
  {
    if es == [] {
      var fs := Init().wire[0];
      assert Concat([fs][1..]) == [] && Flat([]) == fs;
      UpdateSays(0, CONN_WINDOW_INCREMENT);
    } else {
      IncrementsAreLegal(Front(es));
      FlatStep(es);
      var c, e := Run(Front(es)), Last(es);
      if e.Arrive? && e.frame.kind == DATA {
        if !c.gone { DataIncrements(c, e.frame); }
      } else {
        OtherIncrements(c, e);
      }
    }
  }
}
