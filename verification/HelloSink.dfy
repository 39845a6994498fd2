/** The loops of the hello sink: parsing a ClientHello into a report, and masking its bytes. */
module HelloSink {
  import opened Prelude
  import opened ClientHello

  /** What the parser reports about extension bodies; a later extension overwrites an earlier one. */
  datatype Details = Details(
    groups: Option<seq<nat>>,
    pointFormats: Option<Bytes>,
    signatureAlgorithms: Option<seq<nat>>,
    alpn: Option<seq<Bytes>>,
    versions: Option<seq<nat>>,
    pskModes: Option<Bytes>,
    recordSizeLimit: Option<nat>,
    serverNamePresent: bool,
    sniHost: Option<Bytes>,
    keyShareGroups: Option<seq<nat>>,
    certCompression: Option<seq<nat>>)

  const NO_DETAILS := Details(None, None, None, None, None, None, None, false, None, None, None)

  /** The lists a scan of the extensions builds. */
  datatype Scan = Scan(kinds: seq<nat>, details: Details, shareGroups: seq<nat>, keys: seq<Region>, ech: seq<Region>)

  const EMPTY_SCAN := Scan([], NO_DETAILS, [], [], [])

  function ShareGroups(shares: seq<Share>): seq<nat> {
    seq(|shares|, k requires 0 <= k < |shares| => shares[k].group)
  }

  function Detail(d: Details, e: Extension, shareGroups: seq<nat>): Details {
    match e.info
    case Values(vs) =>
      if e.kind == SUPPORTED_GROUPS then d.(groups := Some(vs))
      else if e.kind == SIGNATURE_ALGORITHMS then d.(signatureAlgorithms := Some(vs))
      else if e.kind == SUPPORTED_VERSIONS then d.(versions := Some(vs))
      else d.(certCompression := Some(vs))
    case Octets(os) => if e.kind == EC_POINT_FORMATS then d.(pointFormats := Some(os)) else d.(pskModes := Some(os))
    case Names(ns) => d.(alpn := Some(ns))
    case Number(n) => d.(recordSizeLimit := Some(n))
    case Host(h) => d.(serverNamePresent := true, sniHost := if h.Some? then h else d.sniHost)
    case Shares(_) => d.(keyShareGroups := Some(shareGroups))
    case Opaque => d
  }

  /** One turn of the scan. */
  function ScanOne(s: Scan, e: Extension): Scan {
    var groups := if e.info.Shares? then s.shareGroups + ShareGroups(e.info.shares) else s.shareGroups;
    Scan(s.kinds + [e.kind],
         Detail(s.details, e, groups),
         groups,
         if e.info.Shares? && e.kind != ECH then s.keys + Volatile(e) else s.keys,
         if e.kind == ECH then s.ech + [e.body] else s.ech)
  }

  function ScanAll(exts: seq<Extension>): Scan {
    if exts == [] then EMPTY_SCAN
    else ScanOne(ScanAll(exts[..|exts| - 1]), exts[|exts| - 1])
  }

  datatype Report = Report(version: nat, session: Region, ciphers: seq<nat>, scan: Scan)

  function ReportOf(h: Hello): Report {
    Report(h.layout.version, h.layout.session, h.layout.ciphers, ScanAll(h.extensions))
  }

  // ---- extension bodies ----

  method ReadAlpn(ed: Bytes) returns (names: seq<Bytes>)
    ensures names == AlpnNames(ed, 2)
  {
    names := [];
    var p := 2;
    while p < |ed|
      invariant 2 <= p && AlpnNames(ed, 2) == names + AlpnNames(ed, p)
      decreases |ed| - p
    {
      var n := ed[p] as int;
      names := names + [Slice(ed, p + 1, p + 1 + n)];
      p := p + 1 + n;
    }
  }

  method ReadKeyShares(ed: Bytes) returns (shares: seq<Share>)
    ensures shares == KeyShares(ed, 2)
  {
    shares := [];
    var p := 2;
    while p + 4 <= |ed|
      invariant 2 <= p && KeyShares(ed, 2) == shares + KeyShares(ed, p)
      decreases |ed| - p
    {
      var len := Wide(ed[p + 2], ed[p + 3]);
      shares := shares + [Share(Wide(ed[p], ed[p + 1]), Region(p + 4, len))];
      p := p + 4 + len;
    }
  }

  method ReadBody(kind: nat, ed: Bytes) returns (info: Option<Info>)
    ensures info == ParseBody(kind, ed)
  {
    if kind == ALPN {
      var names := ReadAlpn(ed);
      info := Some(Names(names));
    } else if kind == KEY_SHARE {
      var shares := ReadKeyShares(ed);
      info := Some(Shares(shares));
    } else {
      info := ParseBody(kind, ed);
    }
  }

  // ---- parse_client_hello ----

  lemma ScanAppend(exts: seq<Extension>, e: Extension)
    ensures ScanAll(exts + [e]) == ScanOne(ScanAll(exts), e)
  {
    assert (exts + [e])[..|exts + [e]| - 1] == exts;
  }

  /** Some(done + more), or None. */
  function After(done: seq<Extension>, more: Option<seq<Extension>>): Option<seq<Extension>> {
    if more.None? then None else Some(done + more.value)
  }

  lemma AfterAfter(done: seq<Extension>, e: Extension, more: Option<seq<Extension>>)
    ensures After(done, After([e], more)) == After(done + [e], more)
  {
    if more.Some? { assert done + ([e] + more.value) == (done + [e]) + more.value; }
  }

  /** One extension of the source's loop, as the parser function sees it. */
  method ReadExtension(hs: Bytes, o: nat, ghost end: nat) returns (r: Option<Extension>)
    requires o < end
    ensures r.None? ==> ParseExtensions(hs, o, end).None?
    ensures r.Some? ==> r.value.body.at == o + 4
    ensures r.Some? ==>
      ParseExtensions(hs, o, end) == After([r.value], ParseExtensions(hs, r.value.body.at + r.value.body.len, end))
  {
    var kind, len := U16(hs, o), U16(hs, o + 2);
    if kind.None? || len.None? { return None; }
    var info := ReadBody(kind.value, Slice(hs, o + 4, o + 4 + len.value));
    if info.None? { return None; }
    return Some(Extension(kind.value, Region(o + 4, len.value), info.value));
  }

  method ScanExtensions(hs: Bytes, extAt: nat, extEnd: nat) returns (r: Option<Scan>)
    ensures r == match ParseExtensions(hs, extAt, extEnd) case None => None case Some(exts) => Some(ScanAll(exts))
  {
    var scan, o := EMPTY_SCAN, extAt;
    ghost var done: seq<Extension>, all := [], ParseExtensions(hs, extAt, extEnd);
    assert all.Some? ==> [] + all.value == all.value;
    while o < extEnd
      invariant scan == ScanAll(done)
      invariant all == After(done, ParseExtensions(hs, o, extEnd))
      decreases extEnd - o
    {
      var e := ReadExtension(hs, o, extEnd);
      if e.None? { return None; }
      o := e.value.body.at + e.value.body.len;
      AfterAfter(done, e.value, ParseExtensions(hs, o, extEnd));
      ScanAppend(done, e.value);
      scan := ScanOne(scan, e.value);
      done := done + [e.value];
    }
    assert done + [] == done;
    return Some(scan);
  }

  method ParseClientHello(hs: Bytes) returns (r: Option<Report>)
    ensures r == match Parse(hs) case None => None case Some(h) => Some(ReportOf(h))
  {
    var layout := ParseLayout(hs);
    if layout.None? { return None; }
    var l := layout.value;
    var scan := ScanExtensions(hs, l.extAt, l.extEnd);
    if scan.None? { return None; }
    return Some(Report(l.version, l.session, l.ciphers, scan.value));
  }

  // ---- normalized_hex ----

  predicate InAny(regions: seq<Region>, i: nat) {
    exists k :: 0 <= k < |regions| && InRegion(regions[k], i)
  }

  predicate AllInside(regions: seq<Region>, n: nat) {
    forall k :: 0 <= k < |regions| ==> regions[k].at + regions[k].len <= n
  }

  /** Overwrite each region with zeros. */
  method ZeroRegions(b: Bytes, regions: seq<Region>) returns (z: Bytes)
    requires AllInside(regions, |b|)
    ensures |z| == |b|
    ensures forall i: nat :: i < |b| ==> z[i] == if InAny(regions, i) then 0 else b[i]
  {
    z := b;
    var k := 0;
    while k < |regions|
      invariant 0 <= k <= |regions| && |z| == |b|
      invariant forall i: nat :: i < |b| ==> z[i] == if InAny(regions[..k], i) then 0 else b[i]
    {
      var r := regions[k];
      ghost var was := z;
      z := z[..r.at] + seq(r.len, _ => 0) + z[r.at + r.len..];
      forall i: nat | i < |b| ensures z[i] == if InAny(regions[..k + 1], i) then 0 else b[i] {
        assert z[i] == if InRegion(r, i) then 0 else was[i];
        InAnyLast(regions, k, i);
      }
      k := k + 1;
    }
    assert regions[..k] == regions;
  }

  lemma InAnyLast(regions: seq<Region>, k: nat, i: nat)
    requires k < |regions|
    ensures InAny(regions[..k + 1], i) <==> InAny(regions[..k], i) || InRegion(regions[k], i)
  {
    if InAny(regions[..k], i) {
      var m :| 0 <= m < k && InRegion(regions[..k][m], i);
      assert regions[..k + 1][m] == regions[m];
    }
    if InRegion(regions[k], i) { assert regions[..k + 1][k] == regions[k]; }
  }

  lemma InAnyConcat(a: seq<Region>, b: seq<Region>, i: nat)
    ensures InAny(a + b, i) <==> InAny(a, i) || InAny(b, i)
  {
    if InAny(a, i) {
      var m :| 0 <= m < |a| && InRegion(a[m], i);
      assert (a + b)[m] == a[m];
    }
    if InAny(b, i) {
      var m :| 0 <= m < |b| && InRegion(b[m], i);
      assert (a + b)[|a| + m] == b[m];
    }
  }

  /** The recorded regions are exactly what the extensions mask. */
  lemma {:induction false} ScanRecordsMask(exts: seq<Extension>, i: nat)
    ensures InAny(ScanAll(exts).keys, i) || InAny(ScanAll(exts).ech, i) <==> MaskedByAny(exts, i)
  {
    if exts != [] {
      var before, e := exts[..|exts| - 1], exts[|exts| - 1];
      ScanRecordsMask(before, i);
      InAnyConcat(ScanAll(before).keys, Volatile(e), i);
      InAnyConcat(ScanAll(before).ech, [e.body], i);
      assert MaskedBy(e, i) <==> InAny(Volatile(e), i);
      assert MaskedByAny(exts, i) <==> MaskedByAny(before, i) || MaskedBy(e, i) by {
        if MaskedByAny(before, i) {
          var k :| 0 <= k < |before| && MaskedBy(before[k], i);
          assert exts[k] == before[k];
        }
      }
    }
  }

  lemma {:induction false} ScanStaysInside(exts: seq<Extension>, end: nat)
    requires AllNested(exts, end)
    ensures AllInside(ScanAll(exts).keys, end) && AllInside(ScanAll(exts).ech, end)
  {
    if exts != [] {
      var before, e := exts[..|exts| - 1], exts[|exts| - 1];
      ScanStaysInside(before, end);
      assert Nested(e, end);
      if e.info.Shares? {
        forall k | 0 <= k < |Volatile(e)| && e.kind != ECH
          ensures Volatile(e)[k].at + Volatile(e)[k].len <= end
        {
          assert e.info.shares[k] in e.info.shares;
        }
      }
    }
  }

  /** Zeroing the recorded regions one list after another gives the normal form. */
  lemma ZeroedIsNormal(hs: Bytes, h: Hello, i: nat)
    requires i < |hs|
    ensures var scan := ScanAll(h.extensions);
      Normalize(hs, h)[i] ==
      if InAny([RANDOM, h.layout.session], i) || InAny(scan.keys, i) || InAny(scan.ech, i) then 0 else hs[i]
  {
    ScanRecordsMask(h.extensions, i);
    var two := [RANDOM, h.layout.session];
    assert two[0] == RANDOM && two[1] == h.layout.session;
  }

  /** The masker computes the normal form from the recorded offsets alone. */
  method NormalizedHex(hs: Bytes, r: Report) returns (n: Bytes)
    requires WellFormed(hs) && r == ReportOf(Parse(hs).value)
    ensures n == Normal(hs)
  {
    ghost var h := Parse(hs).value;
    LayoutBounds(hs);
    ScanStaysInside(h.extensions, h.layout.extEnd);
    n := MaskRegions(hs, r.session, r.scan.keys, r.scan.ech, h);
  }

  method MaskRegions(hs: Bytes, session: Region, keys: seq<Region>, ech: seq<Region>, ghost h: Hello) returns (n: Bytes)
    requires session == h.layout.session && keys == ScanAll(h.extensions).keys && ech == ScanAll(h.extensions).ech
    requires AllInside([RANDOM, session], |hs|) && AllInside(keys, |hs|) && AllInside(ech, |hs|)
    ensures n == Normalize(hs, h)
  {
    n := ZeroRegions(hs, [RANDOM, session]);
    n := ZeroRegions(n, keys);
    n := ZeroRegions(n, ech);
    forall i: nat | i < |hs| ensures n[i] == Normalize(hs, h)[i] { ZeroedIsNormal(hs, h, i); }
  }
}
