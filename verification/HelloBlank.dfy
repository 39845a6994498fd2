/** What masking does to a message as written: the same message with blank random, session, keys and ECH payload. */
module HelloBlank {
  import opened Prelude
  import opened ClientHello
  import opened HelloSink
  import opened HelloWriter

  function Zeros(n: nat): (z: Bytes)
    ensures |z| == n && forall i :: 0 <= i < n ==> z[i] == 0
  {
    if n == 0 then [] else Zeros(n - 1) + [0]
  }

  function BlankEntries(entries: seq<(nat, Bytes)>): (r: seq<(nat, Bytes)>)
    ensures |r| == |entries|
  {
    if entries == [] then [] else [(entries[0].0, Zeros(|entries[0].1|))] + BlankEntries(entries[1..])
  }

  function BlankExt(e: Ext): Ext {
    match e
    case KeyShare(entries) => KeyShare(BlankEntries(entries))
    case EncryptedHello(payload) => EncryptedHello(Zeros(|payload|))
    case _ => e
  }

  function BlankExts(es: seq<Ext>): (r: seq<Ext>)
    ensures |r| == |es|
  {
    if es == [] then [] else [BlankExt(es[0])] + BlankExts(es[1..])
  }

  /** The same message with nothing in it that varies from connection to connection. */
  function Blank(w: Written): Written {
    w.(random := Zeros(|w.random|), session := Zeros(|w.session|), extensions := BlankExts(w.extensions))
  }

  // ---- blotting ----

  predicate BlotAt(p: Bytes, q: Bytes, o: nat, rs: seq<Region>, i: nat) {
    i < |p| && i < |q| && q[i] == if InAny(rs, o + i) then 0 else p[i]
  }

  /** q is p, which lies at o, with zeros in the regions. */
  predicate Blots(p: Bytes, q: Bytes, o: nat, rs: seq<Region>) {
    |q| == |p| && forall i: nat :: i < |p| ==> BlotAt(p, q, o, rs, i)
  }

  predicate Clear(rs: seq<Region>, from: nat, to: nat) { forall i: nat :: from <= i < to ==> !InAny(rs, i) }

  predicate Covered(rs: seq<Region>, from: nat, to: nat) { forall i: nat :: from <= i < to ==> InAny(rs, i) }

  lemma BlotsNothing(p: Bytes, o: nat, rs: seq<Region>)
    requires Clear(rs, o, o + |p|)
    ensures Blots(p, p, o, rs)
  {
    forall i: nat | i < |p| ensures BlotAt(p, p, o, rs, i) { assert !InAny(rs, o + i); }
  }

  lemma BlotsAll(p: Bytes, o: nat, rs: seq<Region>)
    requires Covered(rs, o, o + |p|)
    ensures Blots(p, Zeros(|p|), o, rs)
  {
    forall i: nat | i < |p| ensures BlotAt(p, Zeros(|p|), o, rs, i) { assert InAny(rs, o + i); }
  }

  lemma BlotsBoth(p: Bytes, q: Bytes, p': Bytes, q': Bytes, o: nat, rs: seq<Region>)
    requires Blots(p, q, o, rs) && Blots(p', q', o + |p|, rs)
    ensures Blots(p + p', q + q', o, rs)
  {
    forall i: nat | i < |p + p'| ensures BlotAt(p + p', q + q', o, rs, i) {
      if i < |p| {
        assert BlotAt(p, q, o, rs, i);
      } else {
        var k := i - |p|;
        assert BlotAt(p', q', o + |p|, rs, k);
      }
    }
  }

  predicate BlotPart(ps: seq<Bytes>, qs: seq<Bytes>, o: nat, rs: seq<Region>, k: nat) {
    k < |ps| && k < |qs| && Blots(ps[k], qs[k], o + Offset(ps, k), rs)
  }

  lemma {:induction false} BlotsConcat(ps: seq<Bytes>, qs: seq<Bytes>, o: nat, rs: seq<Region>)
    requires |ps| == |qs| && forall k: nat :: k < |ps| ==> BlotPart(ps, qs, o, rs, k)
    ensures Blots(Concat(ps), Concat(qs), o, rs)
    decreases |ps|
  {
    if ps != [] {
      var pt, qt, next := ps[1..], qs[1..], o + |ps[0]|;
      forall k: nat | k < |pt| ensures BlotPart(pt, qt, next, rs, k) {
        var m := k + 1;
        assert BlotPart(ps, qs, o, rs, m);
        OffsetShifts(ps, m);
      }
      BlotsConcat(pt, qt, next, rs);
      assert BlotPart(ps, qs, o, rs, 0);
      BlotsBoth(ps[0], qs[0], Concat(ps[1..]), Concat(qs[1..]), o, rs);
    }
  }

  // ---- key shares ----

  /** In the entries laid out from p on, position i is in a key. */
  predicate KeyAt(entries: seq<(nat, Bytes)>, p: nat, i: nat) {
    entries != [] &&
    (p + 4 <= i < p + 4 + |entries[0].1| || KeyAt(entries[1..], p + 4 + |entries[0].1|, i))
  }

  lemma {:induction false} KeysAreRegions(entries: seq<(nat, Bytes)>, p: nat, i: nat)
    ensures InAny(EntryRegions(entries, p), i) <==> KeyAt(entries, p, i)
    decreases |entries|
  {
    if entries != [] {
      var first, rest := Region(p + 4, |entries[0].1|), EntryRegions(entries[1..], p + 4 + |entries[0].1|);
      KeysAreRegions(entries[1..], p + 4 + |entries[0].1|, i);
      InAnyConcat([first], rest, i);
      assert InAny([first], i) <==> InRegion([first][0], i);
    }
  }

  lemma {:induction false} KeysWithin(entries: seq<(nat, Bytes)>, p: nat, i: nat)
    requires KeyAt(entries, p, i)
    ensures p + 4 <= i < p + |EntryBytes(entries)|
    decreases |entries|
  {
    if !(p + 4 <= i < p + 4 + |entries[0].1|) { KeysWithin(entries[1..], p + 4 + |entries[0].1|, i); }
  }

  /** Among the bytes of the entries the regions hold exactly the keys. */
  predicate KeysOnly(rs: seq<Region>, entries: seq<(nat, Bytes)>, p: nat) {
    forall i: nat :: p <= i < p + |EntryBytes(entries)| ==> (InAny(rs, i) <==> KeyAt(entries, p, i))
  }

  lemma FirstKeyOnly(rs: seq<Region>, entries: seq<(nat, Bytes)>, p: nat)
    requires entries != [] && KeysOnly(rs, entries, p)
    ensures var n := |entries[0].1|;
      Clear(rs, p, p + 4) && Covered(rs, p + 4, p + 4 + n) && KeysOnly(rs, entries[1..], p + 4 + n)
  {
    var n := |entries[0].1|;
    forall i: nat | p <= i < p + 4 ensures !InAny(rs, i) {
      if KeyAt(entries, p, i) { KeysWithin(entries, p, i); }
    }
  }

  lemma BlotsEntry(group: nat, key: Bytes, p: nat, rs: seq<Region>)
    requires Clear(rs, p, p + 4) && Covered(rs, p + 4, p + 4 + |key|)
    ensures Blots(Entry(group, key), Entry(group, Zeros(|key|)), p, rs)
  {
    var head := Two(group) + Two(|key|);
    BlotsNothing(head, p, rs);
    BlotsAll(key, p + 4, rs);
    BlotsBoth(head, head, key, Zeros(|key|), p, rs);
  }

  lemma {:induction false} BlotsEntries(entries: seq<(nat, Bytes)>, p: nat, rs: seq<Region>)
    requires KeysOnly(rs, entries, p)
    ensures Blots(EntryBytes(entries), EntryBytes(BlankEntries(entries)), p, rs)
    decreases |entries|
  {
    if entries != [] {
      var (group, key) := entries[0];
      FirstKeyOnly(rs, entries, p);
      BlotsEntry(group, key, p, rs);
      BlotsEntries(entries[1..], p + 4 + |key|, rs);
      BlotsBoth(Entry(group, key), Entry(group, Zeros(|key|)),
                EntryBytes(entries[1..]), EntryBytes(BlankEntries(entries[1..])), p, rs);
      assert BlankEntries(entries)[1..] == BlankEntries(entries[1..]);
    }
  }

  // ---- extensions ----

  /** The regions of an extension's body that vary from connection to connection. */
  function HiddenIn(e: Ext): seq<Region> {
    match e
    case KeyShare(entries) => EntryRegions(entries, 2)
    case EncryptedHello(payload) => [Region(0, |payload|)]
    case _ => []
  }

  /** An extension, its blank counterpart, and the regions of its body that are hidden. */
  datatype Cell = Cell(raw: Raw, blank: Raw, hidden: seq<Region>)

  function CellOf(e: Ext): Cell { Cell(RawOf(e), RawOf(BlankExt(e)), HiddenIn(e)) }

  ghost predicate Inside(rs: seq<Region>, n: nat) { forall i: nat :: i >= n ==> !InAny(rs, i) }

  ghost predicate CellOk(c: Cell) {
    c.blank.kind == c.raw.kind && Blots(c.raw.body, c.blank.body, 0, c.hidden) && Inside(c.hidden, |c.raw.body|)
  }

  lemma BlotsShares(entries: seq<(nat, Bytes)>, rs: seq<Region>)
    requires rs == EntryRegions(entries, 2)
    ensures Blots(Body(KeyShare(entries)), Body(KeyShare(BlankEntries(entries))), 0, rs)
    ensures Inside(rs, |Body(KeyShare(entries))|)
  {
    var length, keys := Two(|EntryBytes(entries)|), EntryBytes(entries);
    forall i: nat ensures InAny(rs, i) <==> KeyAt(entries, 2, i) { KeysAreRegions(entries, 2, i); }
    forall i: nat | i < 2 || i >= 2 + |keys| ensures !InAny(rs, i) {
      if KeyAt(entries, 2, i) { KeysWithin(entries, 2, i); }
    }
    BlotsNothing(length, 0, rs);
    BlotsEntries(entries, 2, rs);
    BlotsBoth(length, length, keys, EntryBytes(BlankEntries(entries)), 0, rs);
  }

  lemma BlotsPayload(payload: Bytes, rs: seq<Region>)
    requires rs == [Region(0, |payload|)]
    ensures Blots(payload, Zeros(|payload|), 0, rs) && Inside(rs, |payload|)
  {
    forall i: nat ensures InAny(rs, i) <==> i < |payload| { assert InAny(rs, i) <==> InRegion(rs[0], i); }
    BlotsAll(payload, 0, rs);
  }

  lemma CellIsOk(e: Ext)
    ensures CellOk(CellOf(e))
  {
    match e
    case KeyShare(entries) => BlotsShares(entries, HiddenIn(e));
    case EncryptedHello(payload) => BlotsPayload(payload, HiddenIn(e));
    case _ => BlotsNothing(Body(e), 0, []);
  }

  function CellsOf(es: seq<Ext>): seq<Cell> { if es == [] then [] else [CellOf(es[0])] + CellsOf(es[1..]) }

  ghost predicate CellsOk(cs: seq<Cell>) { cs == [] || (CellOk(cs[0]) && CellsOk(cs[1..])) }

  lemma {:induction false} CellsAreOk(es: seq<Ext>)
    ensures CellsOk(CellsOf(es))
  {
    if es != [] {
      CellIsOk(es[0]);
      CellsAreOk(es[1..]);
      assert CellsOf(es)[1..] == CellsOf(es[1..]);
    }
  }

  function RawList(cs: seq<Cell>): seq<Raw> { if cs == [] then [] else [cs[0].raw] + RawList(cs[1..]) }

  function BlankList(cs: seq<Cell>): seq<Raw> { if cs == [] then [] else [cs[0].blank] + BlankList(cs[1..]) }

  lemma {:induction false} CellsAreRaws(es: seq<Ext>)
    ensures RawList(CellsOf(es)) == Raws(es) && BlankList(CellsOf(es)) == Raws(BlankExts(es))
  {
    if es != [] {
      CellsAreRaws(es[1..]);
      assert CellsOf(es)[1..] == CellsOf(es[1..]) && BlankExts(es)[1..] == BlankExts(es[1..]);
    }
  }

  function Moved(rs: seq<Region>, dist: nat): seq<Region> {
    if rs == [] then [] else [Region(rs[0].at + dist, rs[0].len)] + Moved(rs[1..], dist)
  }

  /** The hidden regions of extensions laid out from `at` on. */
  function HiddenAt(cs: seq<Cell>, at: nat): seq<Region> {
    if cs == [] then [] else Moved(cs[0].hidden, at + 4) + HiddenAt(cs[1..], at + 4 + |cs[0].raw.body|)
  }

  lemma {:induction false} MovedIn(rs: seq<Region>, dist: nat, i: nat)
    ensures InAny(Moved(rs, dist), i) <==> i >= dist && InAny(rs, i - dist)
  {
    if rs != [] {
      var first := Region(rs[0].at + dist, rs[0].len);
      MovedIn(rs[1..], dist, i);
      InAnyConcat([first], Moved(rs[1..], dist), i);
      assert InAny([first], i) <==> InRegion([first][0], i);
      if i >= dist {
        InAnyConcat([rs[0]], rs[1..], i - dist);
        assert rs == [rs[0]] + rs[1..];
        assert InAny([rs[0]], i - dist) <==> InRegion([rs[0]][0], i - dist);
      }
    }
  }

  lemma {:induction false} HiddenWithin(cs: seq<Cell>, at: nat, i: nat)
    requires CellsOk(cs) && InAny(HiddenAt(cs, at), i)
    ensures at + 4 <= i < at + |RawsBytes(RawList(cs))|
    decreases |cs|
  {
    var next := at + 4 + |cs[0].raw.body|;
    InAnyConcat(Moved(cs[0].hidden, at + 4), HiddenAt(cs[1..], next), i);
    MovedIn(cs[0].hidden, at + 4, i);
    assert RawList(cs)[1..] == RawList(cs[1..]);
    if InAny(HiddenAt(cs[1..], next), i) { HiddenWithin(cs[1..], next, i); }
  }

  /** Regions elsewhere make no difference. */
  lemma BlotsAmong(p: Bytes, q: Bytes, o: nat, rs: seq<Region>, all: seq<Region>)
    requires Blots(p, q, o, rs) && forall i: nat :: o <= i < o + |p| ==> (InAny(all, i) <==> InAny(rs, i))
    ensures Blots(p, q, o, all)
  {
    forall i: nat | i < |p| ensures BlotAt(p, q, o, all, i) {
      assert BlotAt(p, q, o, rs, i);
      assert InAny(all, o + i) <==> InAny(rs, o + i);
    }
  }

  lemma BlotsMoved(p: Bytes, q: Bytes, o: nat, rs: seq<Region>)
    requires Blots(p, q, 0, rs)
    ensures Blots(p, q, o, Moved(rs, o))
  {
    forall i: nat | i < |p| ensures BlotAt(p, q, o, Moved(rs, o), i) {
      assert BlotAt(p, q, 0, rs, i);
      MovedIn(rs, o, o + i);
    }
  }

  lemma BlotsRaw(r: Raw, q: Raw, at: nat, rs: seq<Region>)
    requires Clear(rs, at, at + 4) && q.kind == r.kind && Blots(r.body, q.body, at + 4, rs)
    ensures Blots(RawBytes(r), RawBytes(q), at, rs)
  {
    var head := Two(r.kind) + Two(|r.body|);
    BlotsNothing(head, at, rs);
    BlotsBoth(head, head, r.body, q.body, at, rs);
  }

  /** The first of some extensions, and where the regions of the others cannot be. */
  lemma FirstCell(c: Cell, at: nat, rest: seq<Region>, all: seq<Region>)
    requires CellOk(c) && all == Moved(c.hidden, at + 4) + rest
    requires forall i: nat :: InAny(rest, i) ==> i >= at + 4 + |c.raw.body|
    ensures Blots(RawBytes(c.raw), RawBytes(c.blank), at, all)
    ensures forall i: nat :: i >= at + 4 + |c.raw.body| ==> (InAny(all, i) <==> InAny(rest, i))
  {
    var mine := Moved(c.hidden, at + 4);
    forall i: nat
      ensures InAny(all, i) <==> InAny(mine, i) || InAny(rest, i)
      ensures InAny(mine, i) ==> at + 4 <= i < at + 4 + |c.raw.body|
    {
      InAnyConcat(mine, rest, i);
      MovedIn(c.hidden, at + 4, i);
    }
    BlotsMoved(c.raw.body, c.blank.body, at + 4, c.hidden);
    BlotsAmong(c.raw.body, c.blank.body, at + 4, mine, all);
    BlotsRaw(c.raw, c.blank, at, all);
  }

  lemma {:induction false} BlotsCells(cs: seq<Cell>, at: nat, rs: seq<Region>)
    requires CellsOk(cs) && rs == HiddenAt(cs, at)
    ensures Blots(RawsBytes(RawList(cs)), RawsBytes(BlankList(cs)), at, rs)
    decreases |cs|
  {
    if cs != [] {
      var c, next := cs[0], at + 4 + |cs[0].raw.body|;
      var rest := HiddenAt(cs[1..], next);
      forall i: nat | InAny(rest, i) ensures i >= next { HiddenWithin(cs[1..], next, i); }
      FirstCell(c, at, rest, rs);
      BlotsCells(cs[1..], next, rest);
      CellThen(c, cs[1..], at, rest, rs);
      assert cs == [c] + cs[1..];
    }
  }

  lemma CellThen(c: Cell, cs: seq<Cell>, at: nat, rest: seq<Region>, rs: seq<Region>)
    requires Blots(RawBytes(c.raw), RawBytes(c.blank), at, rs)
    requires Blots(RawsBytes(RawList(cs)), RawsBytes(BlankList(cs)), at + 4 + |c.raw.body|, rest)
    requires forall i: nat :: i >= at + 4 + |c.raw.body| ==> (InAny(rs, i) <==> InAny(rest, i))
    ensures Blots(RawsBytes(RawList([c] + cs)), RawsBytes(BlankList([c] + cs)), at, rs)
  {
    var p, q := RawsBytes(RawList(cs)), RawsBytes(BlankList(cs));
    BlotsAmong(p, q, at + 4 + |c.raw.body|, rest, rs);
    BlotsBoth(RawBytes(c.raw), RawBytes(c.blank), p, q, at, rs);
    ListThen(c, cs);
  }

  lemma ListThen(c: Cell, cs: seq<Cell>)
    ensures RawsBytes(RawList([c] + cs)) == RawBytes(c.raw) + RawsBytes(RawList(cs))
    ensures RawsBytes(BlankList([c] + cs)) == RawBytes(c.blank) + RawsBytes(BlankList(cs))
  {
    assert ([c] + cs)[1..] == cs;
    assert ([c.raw] + RawList(cs))[1..] == RawList(cs) && ([c.blank] + BlankList(cs))[1..] == BlankList(cs);
  }

  // ---- what the report records ----

  predicate Recorded(s: Scan, i: nat) { InAny(s.keys, i) || InAny(s.ech, i) }

  lemma {:induction false} MovedEntries(entries: seq<(nat, Bytes)>, p: nat, dist: nat)
    ensures Moved(EntryRegions(entries, p), dist) == EntryRegions(entries, p + dist)
    decreases |entries|
  {
    if entries != [] {
      MovedEntries(entries[1..], p + 4 + |entries[0].1|, dist);
      assert EntryRegions(entries, p)[1..] == EntryRegions(entries[1..], p + 4 + |entries[0].1|);
    }
  }

  lemma MovedWhole(n: nat, dist: nat)
    ensures Moved([Region(0, n)], dist) == [Region(dist, n)]
  {
    assert [Region(0, n)][1..] == [];
  }

  lemma KeysNoted(s: Scan, e: Ext, body: Region, t: Scan)
    requires e.KeyShare? && t == Noted(s, e, body)
    ensures t.ech == s.ech && t.keys == s.keys + Moved(HiddenIn(e), body.at)
  {
    MovedEntries(e.entries, 2, body.at);
  }

  lemma PayloadNoted(s: Scan, e: Ext, body: Region, t: Scan)
    requires e.EncryptedHello? && body.len == |Body(e)| && t == Noted(s, e, body)
    ensures t.keys == s.keys && t.ech == s.ech + Moved(HiddenIn(e), body.at)
  {
    MovedWhole(body.len, body.at);
  }

  lemma NothingNoted(s: Scan, e: Ext, body: Region, t: Scan)
    requires !e.KeyShare? && !e.EncryptedHello? && t == Noted(s, e, body)
    ensures t.keys == s.keys && t.ech == s.ech && Moved(HiddenIn(e), body.at) == []
  {
  }

  lemma RecordsMore(s: Scan, t: Scan, more: seq<Region>, i: nat)
    requires (t.ech == s.ech && t.keys == s.keys + more) || (t.keys == s.keys && t.ech == s.ech + more)
    ensures Recorded(t, i) <==> Recorded(s, i) || InAny(more, i)
  {
    InAnyConcat(s.keys, more, i);
    InAnyConcat(s.ech, more, i);
  }

  lemma NotedRecords(s: Scan, e: Ext, body: Region, i: nat)
    requires body.len == |Body(e)|
    ensures Recorded(Noted(s, e, body), i) <==> Recorded(s, i) || InAny(Moved(HiddenIn(e), body.at), i)
  {
    var t, more := Noted(s, e, body), Moved(HiddenIn(e), body.at);
    if e.KeyShare? { KeysNoted(s, e, body, t); }
    else if e.EncryptedHello? { PayloadNoted(s, e, body, t); }
    else { NothingNoted(s, e, body, t); }
    RecordsMore(s, t, more, i);
  }

  lemma {:induction false} NotesRecord(s: Scan, es: seq<Ext>, at: nat, i: nat)
    ensures Recorded(Notes(s, es, Bodies(Raws(es), at)), i) <==> Recorded(s, i) || InAny(HiddenAt(CellsOf(es), at), i)
    decreases |es|
  {
    if es != [] {
      var rs, cs, next := Raws(es), CellsOf(es), at + 4 + |Body(es[0])|;
      var bodies := Bodies(rs, at);
      assert rs[1..] == Raws(es[1..]) && bodies[1..] == Bodies(rs[1..], next) && cs[1..] == CellsOf(es[1..]);
      NotedRecords(s, es[0], bodies[0], i);
      NotesRecord(Noted(s, es[0], bodies[0]), es[1..], next, i);
      InAnyConcat(Moved(HiddenIn(es[0]), at + 4), HiddenAt(cs[1..], next), i);
    }
  }

  // ---- the whole message ----

  /** The regions masked in a message as written. */
  function MaskOf(w: Written): seq<Region> {
    var scan := Expected(w).scan;
    [Region(6, 32), Region(39, |w.session|)] + (scan.keys + scan.ech)
  }

  lemma InMask(first: Region, second: Region, keys: seq<Region>, ech: seq<Region>, i: nat)
    ensures InAny([first, second] + (keys + ech), i) <==>
      InRegion(first, i) || InRegion(second, i) || InAny(keys, i) || InAny(ech, i)
  {
    var head := [first, second];
    InAnyConcat(head, keys + ech, i);
    InAnyConcat(keys, ech, i);
    assert InAny(head, i) <==> InRegion(head[0], i) || InRegion(head[1], i);
  }

  function HiddenOf(w: Written): seq<Region> { HiddenAt(CellsOf(w.extensions), ExtensionsAt(w)) }

  lemma HiddenLate(w: Written, i: nat)
    requires InAny(HiddenOf(w), i)
    ensures i >= ExtensionsAt(w)
  {
    CellsAreOk(w.extensions);
    HiddenWithin(CellsOf(w.extensions), ExtensionsAt(w), i);
  }

  lemma MaskIs(w: Written, rs: seq<Region>, i: nat)
    requires rs == MaskOf(w)
    ensures InAny(rs, i) <==> 6 <= i < 38 || 39 <= i < 39 + |w.session| || InAny(HiddenOf(w), i)
    ensures InAny(HiddenOf(w), i) ==> i >= ExtensionsAt(w)
  {
    var scan := Expected(w).scan;
    InMask(Region(6, 32), Region(39, |w.session|), scan.keys, scan.ech, i);
    NotesRecord(Scan([], NOTHING_SAID, [], [], []), w.extensions, ExtensionsAt(w), i);
    if InAny(HiddenOf(w), i) { HiddenLate(w, i); }
  }

  lemma MaskHead(w: Written, rs: seq<Region>)
    requires rs == MaskOf(w)
    ensures Clear(rs, 0, 6) && Covered(rs, 6, 38) && Clear(rs, 38, 39)
    ensures Covered(rs, 39, 39 + |w.session|) && Clear(rs, 39 + |w.session|, ExtensionsAt(w))
  {
    forall i: nat | i < ExtensionsAt(w)
      ensures InAny(rs, i) <==> 6 <= i < 38 || 39 <= i < 39 + |w.session|
    {
      MaskIs(w, rs, i);
    }
  }

  lemma BlotsExts(w: Written, rs: seq<Region>)
    requires rs == MaskOf(w)
    ensures Blots(ExtsBytes(w.extensions), ExtsBytes(BlankExts(w.extensions)), ExtensionsAt(w), rs)
  {
    var cs, at := CellsOf(w.extensions), ExtensionsAt(w);
    CellsAreOk(w.extensions);
    CellsAreRaws(w.extensions);
    BlotsCells(cs, at, HiddenOf(w));
    forall i: nat | at <= i < at + |ExtsBytes(w.extensions)| ensures InAny(rs, i) <==> InAny(HiddenOf(w), i) {
      MaskIs(w, rs, i);
    }
    BlotsAmong(ExtsBytes(w.extensions), ExtsBytes(BlankExts(w.extensions)), at, HiddenOf(w), rs);
  }

  /** A field that stays as it is, where nothing is masked. */
  lemma StaysClear(p: seq<Bytes>, q: seq<Bytes>, rs: seq<Region>, k: nat, from: nat, to: nat)
    requires k < |p| && k < |q| && q[k] == p[k] && Clear(rs, from, to)
    requires from <= Offset(p, k) && Offset(p, k) + |p[k]| <= to
    ensures BlotPart(p, q, 0, rs, k)
  {
    BlotsNothing(p[k], Offset(p, k), rs);
  }

  /** A field that is blanked, where everything is masked. */
  lemma GoesBlank(p: seq<Bytes>, q: seq<Bytes>, rs: seq<Region>, k: nat)
    requires k < |p| && k < |q| && q[k] == Zeros(|p[k]|) && Covered(rs, Offset(p, k), Offset(p, k) + |p[k]|)
    ensures BlotPart(p, q, 0, rs, k)
  {
    BlotsAll(p[k], Offset(p, k), rs);
  }

  predicate SameFields(p: seq<Bytes>, q: seq<Bytes>) {
    && |p| == |q| == 12 && q[0] == p[0] && q[1] == p[1] && q[2] == p[2] && q[4] == p[4] && q[6] == p[6]
    && q[7] == p[7] && q[8] == p[8] && q[9] == p[9] && q[10] == p[10]
    && q[3] == Zeros(|p[3]|) && q[5] == Zeros(|p[5]|)
  }

  lemma BlankFields(w: Written)
    requires |ExtsBytes(Blank(w).extensions)| == |ExtsBytes(w.extensions)|
    ensures SameFields(Fields(w), Fields(Blank(w)))
  {
  }

  lemma FrontBlots(p: seq<Bytes>, q: seq<Bytes>, rs: seq<Region>)
    requires SameFields(p, q) && |p[0]| == 1 && |p[1]| == 3 && |p[2]| == 2 && |p[3]| == 32 && |p[4]| == 1
    requires Clear(rs, 0, 6) && Covered(rs, 6, 38) && Clear(rs, 38, 39) && Covered(rs, 39, 39 + |p[5]|)
    ensures forall k: nat :: k < 6 ==> BlotPart(p, q, 0, rs, k)
  {
    assert Offset(p, 1) == 1 && Offset(p, 2) == 4 && Offset(p, 3) == 6 && Offset(p, 4) == 38 && Offset(p, 5) == 39;
    StaysClear(p, q, rs, 0, 0, 6);
    StaysClear(p, q, rs, 1, 0, 6);
    StaysClear(p, q, rs, 2, 0, 6);
    GoesBlank(p, q, rs, 3);
    StaysClear(p, q, rs, 4, 38, 39);
    GoesBlank(p, q, rs, 5);
  }

  lemma BackBlots(p: seq<Bytes>, q: seq<Bytes>, rs: seq<Region>)
    requires SameFields(p, q) && Clear(rs, Offset(p, 6), Offset(p, 11))
    ensures forall k: nat :: 6 <= k < 11 ==> BlotPart(p, q, 0, rs, k)
  {
    var from, to := Offset(p, 6), Offset(p, 11);
    assert from <= Offset(p, 7) <= Offset(p, 8) <= Offset(p, 9) <= Offset(p, 10) <= to;
    StaysClear(p, q, rs, 6, from, to);
    StaysClear(p, q, rs, 7, from, to);
    StaysClear(p, q, rs, 8, from, to);
    StaysClear(p, q, rs, 9, from, to);
    StaysClear(p, q, rs, 10, from, to);
  }

  lemma WriteBlots(w: Written, rs: seq<Region>)
    requires |w.random| == 32 && rs == MaskOf(w)
    ensures Blots(Write(w), Write(Blank(w)), 0, rs)
  {
    var p, q := Fields(w), Fields(Blank(w));
    BlotsExts(w, rs);
    FieldOffsets(w);
    MaskHead(w, rs);
    BlankFields(w);
    FrontBlots(p, q, rs);
    BackBlots(p, q, rs);
    assert BlotPart(p, q, 0, rs, 11);
    BlotsConcat(p, q, 0, rs);
  }

  /** Masking a message as written gives the message that is written with blank random, session, keys and payload. */
  lemma NormalIsBlank(w: Written)
    requires Writable(w)
    ensures Parse(Write(w)).Some? && Normal(Write(w)) == Write(Blank(w))
  {
    var hs, blank := Write(w), Write(Blank(w));
    WrittenIsReported(w);
    WriteBlots(w, MaskOf(w));
    var h := Parse(hs).value;
    forall i: nat | i < |hs| ensures Normal(hs)[i] == blank[i] {
      assert BlotAt(hs, blank, 0, MaskOf(w), i);
      ZeroedIsNormal(hs, h, i);
      MaskLists(w, h, i);
    }
  }

  lemma MaskLists(w: Written, h: Hello, i: nat)
    requires ReportOf(h) == Expected(w)
    ensures var found := ScanAll(h.extensions);
      InAny(MaskOf(w), i) <==>
        InAny([RANDOM, h.layout.session], i) || InAny(found.keys, i) || InAny(found.ech, i)
  {
    var scan, two := Expected(w).scan, [RANDOM, h.layout.session];
    InMask(Region(6, 32), Region(39, |w.session|), scan.keys, scan.ech, i);
    assert InAny(two, i) <==> InRegion(two[0], i) || InRegion(two[1], i);
  }

  /** So two messages that differ in nothing else have one normal form. */
  lemma OneNormalForm(w: Written, other: Written)
    requires Writable(w) && Writable(other) && Blank(w) == Blank(other)
    ensures Parse(Write(w)).Some? && Parse(Write(other)).Some? && Normal(Write(w)) == Normal(Write(other))
  {
    NormalIsBlank(w);
    NormalIsBlank(other);
  }

  // ---- by the loop ----

  lemma {:induction false} SharesWithin(entries: seq<(nat, Bytes)>, p: nat)
    ensures forall s :: s in SharesAt(entries, p) ==> s.key.at + s.key.len <= p + |EntryBytes(entries)|
    decreases |entries|
  {
    if entries != [] { SharesWithin(entries[1..], p + 4 + |entries[0].1|); }
  }

  lemma OneNested(e: Ext, body: Region, end: nat)
    requires body.len == |Body(e)| && body.at + body.len <= end
    ensures Nested(ParsedExt(e, body), end)
  {
    if e.KeyShare? { SharesWithin(e.entries, 2); }
  }

  lemma {:induction false} WrittenNested(es: seq<Ext>, at: nat, end: nat)
    requires at + |ExtsBytes(es)| <= end
    ensures AllNested(ParsedExts(es, Bodies(Raws(es), at)), end)
    decreases |es|
  {
    if es != [] {
      var rs, next := Raws(es), at + 4 + |Body(es[0])|;
      var bodies := Bodies(rs, at);
      assert rs[1..] == Raws(es[1..]) && bodies[1..] == Bodies(rs[1..], next);
      OneNested(es[0], bodies[0], end);
      WrittenNested(es[1..], next, end);
    }
  }

  /** Everything that fits its fields is well formed. */
  lemma WrittenIsWellFormed(w: Written)
    requires Writable(w)
    ensures WellFormed(Write(w))
  {
    var at := ExtensionsAt(w);
    WrittenIsParsed(w);
    ExtsHeld(Write(w), w);
    ParsedAlike(w.extensions, at);
    WrittenNested(w.extensions, at, at + |ExtsBytes(w.extensions)|);
  }

  /** The parser's report is all the masker needs to blank the message. */
  method MaskWritten(w: Written) returns (n: Bytes)
    requires Writable(w)
    ensures n == Write(Blank(w))
  {
    WrittenIsWellFormed(w);
    WrittenIsReported(w);
    NormalIsBlank(w);
    var r := ReportWritten(w);
    n := NormalizedHex(Write(w), r.value);
  }
}
