/**
 * The peer's limit on concurrent streams: senders reserve the connection with `acquire`, and register a stream only
 * later, under the send lock. A reservation counts the streams of the table, not the other reservations.
 */
module H2Slots {
  import opened Prelude
  import opened H2Frames
  import opened H2Conn
  import H2Life

  /** A connection and the senders that have acquired it and not sent yet. */
  datatype Slots = Slots(c: Conn, reserved: nat)

  datatype Event =
    | Reserve                     // a sender calls `acquire`
    | Forfeit                     // one gives its reservation back without sending
    | Act(e: H2Conn.Event)        // a request is sent by a sender with a reservation

  predicate Acquirable(c: Conn) {
    !c.closed && !c.closing && c.nextId <= c.goawayLast && |c.streams| < c.maxConcurrent
  }

  function Step(s: Slots, e: Event): Slots {
    match e
    case Reserve => if Acquirable(s.c) then s.(reserved := s.reserved + 1) else s
    case Forfeit => if s.reserved > 0 then s.(reserved := s.reserved - 1) else s
    case Act(e) =>
      if !e.Request? then s.(c := H2Conn.Step(s.c, e))
      else if s.reserved == 0 then s
      else Slots(H2Conn.Step(s.c, e), s.reserved - 1)
  }

  function Run(es: seq<Event>): Slots {
    if es == [] then Slots(Init(), 0) else Step(Run(Front(es)), Last(es))
  }

  /** Streams and reservations together are within the limit, so every reservation can be used. */
  predicate Covered(s: Slots) { |s.c.streams| + s.reserved <= s.c.maxConcurrent }

  /** The limit goes down, as only SETTINGS can make it. */
  predicate Lowers(s: Slots, e: Event) { Step(s, e).c.maxConcurrent < s.c.maxConcurrent }

  /** A reservation is granted for the last place although others have reserved it. */
  predicate Overcommits(s: Slots, e: Event) {
    e.Reserve? && Acquirable(s.c) && |s.c.streams| + s.reserved >= s.c.maxConcurrent
  }

  // ---- how the table grows ----

  lemma {:induction false} RunKeepsInv(es: seq<Event>)
    ensures H2Life.Inv(Run(es).c)
  {
    if es == [] {
      H2Life.RunKeepsInv([]);
    } else {
      RunKeepsInv(Front(es));
      if Last(es).Act? { H2Life.StepKeeps(Run(Front(es)).c, Last(es).e); }
    }
  }

  lemma AddedOne(m: map<nat, Stream>, k: nat, st: Stream)
    requires k !in m
    ensures |m[k := st]| == |m| + 1
  {
    assert m[k := st].Keys == m.Keys + {k};
  }

  lemma SendGrows(c: Conn, block: Bytes, body: Bytes, maxBytes: nat, awaited: bool)
    requires H2Life.Inv(c) && !c.closed
    ensures |Send(c, block, body, maxBytes, awaited).streams| == |c.streams| + 1
  {
    AddedOne(c.streams, c.nextId, NewStream(maxBytes, awaited));
  }

  lemma SubsetIsSmaller(a: set<nat>, b: set<nat>)
    requires a <= b
    ensures |a| <= |b|
  {
    assert b == a + (b - a);
  }

  lemma OthersDoNotGrow(c: Conn, e: H2Conn.Event)
    requires !e.Request?
    ensures |H2Conn.Step(c, e).streams| <= |c.streams|
  {
    assert H2Conn.Step(c, e).streams.Keys <= c.streams.Keys;
    SubsetIsSmaller(H2Conn.Step(c, e).streams.Keys, c.streams.Keys);
  }

  // ---- the limit ----

  /** Unless the peer lowers its limit, exactly an overcommitting reservation loses the cover. */
  lemma CoverLostExactly(s: Slots, e: Event)
    requires H2Life.Inv(s.c) && Covered(s) && !Lowers(s, e)
    ensures Covered(Step(s, e)) <==> !Overcommits(s, e)
  {
    if e.Act? {
      if !e.e.Request? { OthersDoNotGrow(s.c, e.e); }
      else if !s.c.closed { SendGrows(s.c, e.e.block, e.e.body, e.e.maxBytes, e.e.awaited); }
    }
  }

  ghost predicate Steady(es: seq<Event>) {
    forall n :: 0 <= n < |es| ==> !Lowers(Run(es[..n]), es[n])
  }

  ghost predicate Frugal(es: seq<Event>) {
    forall n :: 0 <= n < |es| ==> !Overcommits(Run(es[..n]), es[n])
  }

  ghost predicate AlwaysCovered(es: seq<Event>) {
    forall n :: 0 <= n <= |es| ==> Covered(Run(es[..n]))
  }

  lemma RunAt(es: seq<Event>, n: nat)
    requires n < |es|
    ensures Run(es[..n + 1]) == Step(Run(es[..n]), es[n])
  {
    assert Front(es[..n + 1]) == es[..n] && Last(es[..n + 1]) == es[n];
  }

  lemma {:induction false} FrugalIsCovered(es: seq<Event>, n: nat)
    requires Steady(es) && Frugal(es) && n <= |es|
    ensures Covered(Run(es[..n]))
  {
    if n > 0 {
      var m := n - 1;
      FrugalIsCovered(es, m);
      assert !Lowers(Run(es[..m]), es[m]) && !Overcommits(Run(es[..m]), es[m]);
      NextIsCovered(es, m);
    }
  }

  lemma NextIsCovered(es: seq<Event>, m: nat)
    requires m < |es| && Covered(Run(es[..m])) && !Lowers(Run(es[..m]), es[m])
    ensures Covered(Run(es[..m + 1])) <==> !Overcommits(Run(es[..m]), es[m])
  {
    RunAt(es, m);
    RunKeepsInv(es[..m]);
    CoverLostExactly(Run(es[..m]), es[m]);
  }

  /** In a run whose peer never lowers its limit, every state is covered exactly when nothing overcommits. */
  lemma CoveredExactly(es: seq<Event>)
    requires Steady(es)
    ensures AlwaysCovered(es) <==> Frugal(es)
  {
    if Frugal(es) {
      forall n | 0 <= n <= |es| ensures Covered(Run(es[..n])) { FrugalIsCovered(es, n); }
    }
    if AlwaysCovered(es) {
      forall n | 0 <= n < |es| ensures !Overcommits(Run(es[..n]), es[n]) {
        assert Covered(Run(es[..n])) && Covered(Run(es[..n + 1]));
        NextIsCovered(es, n);
      }
    }
  }

  // ---- what an uncovered state leads to ----

  const GET := Act(Request([], [], 0, false))

  /** Every sender that has reserved sends. */
  function Spend(s: Slots): Slots
    decreases s.reserved
  {
    if s.reserved == 0 then s else Spend(Step(s, GET))
  }

  lemma {:induction false} SpendGrows(s: Slots)
    requires H2Life.Inv(s.c) && !s.c.closed
    ensures |Spend(s).c.streams| == |s.c.streams| + s.reserved && Spend(s).c.maxConcurrent == s.c.maxConcurrent
    decreases s.reserved
  {
    if s.reserved > 0 {
      SendGrows(s.c, [], [], 0, false);
      H2Life.StepKeeps(s.c, GET.e);
      SpendGrows(Step(s, GET));
    }
  }

  /**
   * On an open connection, the senders that have reserved take the table past the peer's limit exactly when streams
   * and reservations together exceed it.
   */
  lemma LimitPassedExactly(es: seq<Event>)
    requires !Run(es).c.closed
    ensures |Spend(Run(es)).c.streams| > Spend(Run(es)).c.maxConcurrent <==> !Covered(Run(es))
  {
    RunKeepsInv(es);
    SpendGrows(Run(es));
  }

  /** A sender that acquires while no other has gets its stream exactly if limit, identifiers and state allow it. */
  lemma LoneSenderObeys(es: seq<Event>)
    requires Run(es).reserved == 0
    ensures var c, d := Run(es).c, Step(Step(Run(es), Reserve), GET).c;
      && (d != c <==> !c.closed && !c.closing && c.nextId <= c.goawayLast && |c.streams| < c.maxConcurrent)
      && (d != c ==> c.nextId in d.streams && |d.streams| == |c.streams| + 1 <= d.maxConcurrent)
  {
    RunKeepsInv(es);
    if Acquirable(Run(es).c) { SendGrows(Run(es).c, [], [], 0, false); }
  }

  /** The peer's SETTINGS with a limit of one stream. */
  const ONE_STREAM: WireFrame := Frame(4, 0, 0, [0, 3, 0, 0, 0, 1])

  /** Two senders acquire before either sends, and the peer's limit of one stream is passed. */
  lemma LimitIsPassed()
    ensures var s := Run([Act(Arrive(ONE_STREAM)), Reserve, Reserve, GET, GET]);
      s.c.maxConcurrent == 1 && |s.c.streams| == 2
  {
    var a, b := [Act(Arrive(ONE_STREAM))], [Act(Arrive(ONE_STREAM)), Reserve];
    var c, d := b + [Reserve], b + [Reserve, GET];
    var all := b + [Reserve, GET, GET];
    assert Front(a) == [] && Front(b) == a && Front(c) == b && Front(d) == c && Front(all) == d;
    assert all == [Act(Arrive(ONE_STREAM)), Reserve, Reserve, GET, GET];
    OneStreamRead(Init());
    assert Run(a) == Slots(H2Conn.Step(Init(), Arrive(ONE_STREAM)), 0);
    assert Run(c).reserved == 2 && Run(c).c == Run(a).c;
    RunKeepsInv(c);
    SendGrows(Run(c).c, [], [], 0, false);
    RunKeepsInv(d);
    SendGrows(Run(d).c, [], [], 0, false);
  }

  lemma OneStreamRead(c: Conn)
    requires !c.gone
    ensures var d := H2Conn.Step(c, Arrive(ONE_STREAM));
      d.maxConcurrent == 1 && d.streams == c.streams && d.nextId == c.nextId && d.goawayLast == c.goawayLast
      && d.closed == c.closed && d.closing == c.closing
  {
    var p := ONE_STREAM.payload;
    assert p[0..2] == [0, 3] && p[2..6] == [0, 0, 0, 1];
    assert FromBigEndian([0]) == 0 by { assert [0 as Byte][..0] == []; }
    assert FromBigEndian([0, 3]) == 3 by { assert [0 as Byte, 3][..1] == [0]; }
    assert FromBigEndian([0, 0]) == 0 by { assert [0 as Byte, 0][..1] == [0]; }
    assert FromBigEndian([0, 0, 0]) == 0 by { assert [0 as Byte, 0, 0][..2] == [0, 0]; }
    assert FromBigEndian([0, 0, 0, 1]) == 1 by { assert [0 as Byte, 0, 0, 1][..3] == [0, 0, 0]; }
    assert ReadSettings(p, 6, 1) == (1, true);
    assert ReadSettings(p, 0, c.maxConcurrent) == (1, true);
    assert ReadSettings(p, 0, 0) == (1, true);
  }
}
