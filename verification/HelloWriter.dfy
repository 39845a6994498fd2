/**
 * The other side of the hello sink: a ClientHello as a client writes it (section 4.1.2 of RFC 8446), and that the
 * parser reports exactly what was written.
 */
module HelloWriter {
  import opened Prelude
  import opened ClientHello
  import opened HelloSink

  /** An extension and its contents. */
  datatype Ext =
    | Groups(groups: seq<nat>)
    | PointFormats(formats: Bytes)
    | SignatureAlgorithms(algorithms: seq<nat>)
    | Alpn(protocols: seq<Bytes>)
    | Versions(versions: seq<nat>)
    | PskModes(modes: Bytes)
    | RecordSizeLimit(limit: nat)
    | ServerName(name: Bytes)
    | BareServerName(rest: Bytes)      // too short to hold a name
    | KeyShare(entries: seq<(nat, Bytes)>)
    | CertCompression(methods: seq<nat>)
    | EncryptedHello(payload: Bytes)
    | Unknown(number: nat, contents: Bytes)

  datatype Written = Written(
    version: nat, random: Bytes, session: Bytes, ciphers: seq<nat>, compression: Bytes, extensions: seq<Ext>)

  // ---- writing ----

  function U16s(vs: seq<nat>): (b: Bytes)
    ensures |b| == 2 * |vs|
  {
    if vs == [] then [] else Two(vs[0]) + U16s(vs[1..])
  }

  function Octet(n: nat): (b: Bytes)
    ensures |b| == 1
  {
    [n % 256]
  }

  function Two(n: nat): (b: Bytes)
    ensures |b| == 2
  {
    [n / 256 % 256, n % 256]
  }

  function ProtocolBytes(names: seq<Bytes>): Bytes {
    if names == [] then [] else Octet(|names[0]|) + names[0] + ProtocolBytes(names[1..])
  }

  function EntryBytes(entries: seq<(nat, Bytes)>): Bytes {
    if entries == [] then [] else Entry(entries[0].0, entries[0].1) + EntryBytes(entries[1..])
  }

  /** One key share: the group, the length of the key, and the key. */
  function Entry(group: nat, key: Bytes): (b: Bytes)
    ensures |b| == 4 + |key|
  {
    Two(group) + Two(|key|) + key
  }

  function Number(e: Ext): nat {
    match e
    case Groups(_) => 0x000a
    case PointFormats(_) => 0x000b
    case SignatureAlgorithms(_) => 0x000d
    case Alpn(_) => 0x0010
    case Versions(_) => 0x002b
    case PskModes(_) => 0x002d
    case RecordSizeLimit(_) => 0x001c
    case ServerName(_) => 0x0000
    case BareServerName(_) => 0x0000
    case KeyShare(_) => 0x0033
    case CertCompression(_) => 0x001b
    case EncryptedHello(_) => 0xfe0d
    case Unknown(number, _) => number
  }

  function Body(e: Ext): Bytes {
    match e
    case Groups(vs) => Two(2 * |vs|) + U16s(vs)
    case PointFormats(os) => Octet(|os|) + os
    case SignatureAlgorithms(vs) => Two(2 * |vs|) + U16s(vs)
    case Alpn(names) => Two(|ProtocolBytes(names)|) + ProtocolBytes(names)
    case Versions(vs) => Octet(2 * |vs|) + U16s(vs)
    case PskModes(os) => Octet(|os|) + os
    case RecordSizeLimit(n) => Two(n)
    case ServerName(name) => Two(|name| + 3) + [0] + Two(|name|) + name
    case BareServerName(rest) => rest
    case KeyShare(entries) => Two(|EntryBytes(entries)|) + EntryBytes(entries)
    case CertCompression(vs) => Octet(2 * |vs|) + U16s(vs)
    case EncryptedHello(payload) => payload
    case Unknown(_, contents) => contents
  }

  /** An extension as it goes on the wire: number, length, body. */
  datatype Raw = Raw(kind: nat, body: Bytes)

  function RawBytes(r: Raw): (b: Bytes)
    ensures |b| == 4 + |r.body|
  {
    Two(r.kind) + Two(|r.body|) + r.body
  }

  function RawsBytes(rs: seq<Raw>): Bytes {
    if rs == [] then [] else RawBytes(rs[0]) + RawsBytes(rs[1..])
  }

  function Raws(es: seq<Ext>): (rs: seq<Raw>)
    ensures |rs| == |es|
  {
    if es == [] then [] else [RawOf(es[0])] + Raws(es[1..])
  }

  function RawOf(e: Ext): Raw { Raw(Number(e), Body(e)) }

  function ExtsBytes(es: seq<Ext>): Bytes { RawsBytes(Raws(es)) }

  /** The fields of the message, in order. */
  function Fields(w: Written): (parts: seq<Bytes>)
    ensures |parts| == 12
  {
    var exts := ExtsBytes(w.extensions);
    [[1], BigEndian(ExtensionsAt(w) - 4 + |exts|, 3), Two(w.version), w.random,
     Octet(|w.session|), w.session,
     Two(2 * |w.ciphers|), U16s(w.ciphers),
     Octet(|w.compression|), w.compression,
     Two(|exts|), exts]
  }

  function ExtensionsAt(w: Written): nat { 44 + |w.session| + 2 * |w.ciphers| + |w.compression| }

  function Write(w: Written): Bytes { Concat(Fields(w)) }

  // ---- what fits its field ----

  predicate AllU16(vs: seq<nat>) { forall i :: 0 <= i < |vs| ==> vs[i] < 0x1_0000 }

  predicate Sized(e: Ext) {
    |Body(e)| < 0x1_0000 && Number(e) < 0x1_0000 &&
    match e
    case Groups(vs) => AllU16(vs)
    case PointFormats(os) => |os| < 0x100
    case SignatureAlgorithms(vs) => AllU16(vs)
    case Alpn(names) => NamesSized(names)
    case Versions(vs) => AllU16(vs) && 2 * |vs| < 0x100
    case PskModes(os) => |os| < 0x100
    case RecordSizeLimit(n) => n < 0x1_0000
    case ServerName(_) => true
    case BareServerName(rest) => |rest| < 5
    case KeyShare(entries) => EntriesSized(entries)
    case CertCompression(vs) => AllU16(vs) && 2 * |vs| < 0x100
    case EncryptedHello(_) => true
    case Unknown(n, _) =>
      n !in {0x0000, 0x000a, 0x000b, 0x000d, 0x0010, 0x001b, 0x001c, 0x002b, 0x002d, 0x0033, 0xfe0d}
  }

  predicate NamesSized(names: seq<Bytes>) { names == [] || (|names[0]| < 0x100 && NamesSized(names[1..])) }

  predicate EntriesSized(entries: seq<(nat, Bytes)>) {
    entries == [] || (entries[0].0 < 0x1_0000 && |entries[0].1| < 0x1_0000 && EntriesSized(entries[1..]))
  }

  predicate AllSized(es: seq<Ext>) { forall i {:trigger Sized(es[i])} :: 0 <= i < |es| ==> Sized(es[i]) }

  lemma SizedRest(es: seq<Ext>)
    requires AllSized(es) && es != []
    ensures Sized(es[0]) && AllSized(es[1..])
  {
    forall i | 0 <= i < |es[1..]| ensures Sized(es[1..][i]) {
      var k := i + 1;
      assert Sized(es[k]) && es[1..][i] == es[k];
    }
  }

  predicate HeadSized(w: Written) {
    && w.version < 0x1_0000 && |w.random| == 32 && |w.session| < 0x100
    && AllU16(w.ciphers) && 2 * |w.ciphers| < 0x1_0000 && |w.compression| < 0x100
  }

  predicate Writable(w: Written) {
    HeadSized(w) && AllSized(w.extensions) && |ExtsBytes(w.extensions)| < 0x1_0000
  }

  // ---- what the report must say ----

  function EntryGroups(entries: seq<(nat, Bytes)>): (gs: seq<nat>)
    ensures |gs| == |entries|
  {
    seq(|entries|, i requires 0 <= i < |entries| => entries[i].0)
  }

  /** Where the keys of a key share lie, its first entry being at p. */
  function EntryRegions(entries: seq<(nat, Bytes)>, p: nat): seq<Region> {
    if entries == [] then []
    else [Region(p + 4, |entries[0].1|)] + EntryRegions(entries[1..], p + 4 + |entries[0].1|)
  }

  /** Each kind of extension fills its own field; `groups` are those of all key shares so far. */
  function Said(d: Details, e: Ext, groups: seq<nat>): Details {
    match e
    case Groups(vs) => d.(groups := Some(vs))
    case PointFormats(os) => d.(pointFormats := Some(os))
    case SignatureAlgorithms(vs) => d.(signatureAlgorithms := Some(vs))
    case Alpn(names) => d.(alpn := Some(names))
    case Versions(vs) => d.(versions := Some(vs))
    case PskModes(os) => d.(pskModes := Some(os))
    case RecordSizeLimit(n) => d.(recordSizeLimit := Some(n))
    case ServerName(name) => d.(serverNamePresent := true, sniHost := Some(name))
    case BareServerName(_) => d.(serverNamePresent := true)
    case KeyShare(_) => d.(keyShareGroups := Some(groups))
    case CertCompression(vs) => d.(certCompression := Some(vs))
    case EncryptedHello(_) => d
    case Unknown(_, _) => d
  }

  /** What one more extension, with its body at `body`, adds to the report. */
  function Noted(s: Scan, e: Ext, body: Region): Scan {
    var groups := if e.KeyShare? then s.shareGroups + EntryGroups(e.entries) else s.shareGroups;
    Scan(s.kinds + [Number(e)],
         Said(s.details, e, groups),
         groups,
         if e.KeyShare? then s.keys + EntryRegions(e.entries, body.at + 2) else s.keys,
         if e.EncryptedHello? then s.ech + [body] else s.ech)
  }

  /** The report on extensions with their bodies at `bodies`, after a report s on those before. */
  function Notes(s: Scan, es: seq<Ext>, bodies: seq<Region>): Scan
    requires |bodies| == |es|
    decreases |es|
  {
    if es == [] then s else Notes(Noted(s, es[0], bodies[0]), es[1..], bodies[1..])
  }

  /** Where the bodies lie when the extensions start at `at`. */
  function Bodies(rs: seq<Raw>, at: nat): (regions: seq<Region>)
    ensures |regions| == |rs|
  {
    if rs == [] then [] else [Region(at + 4, |rs[0].body|)] + Bodies(rs[1..], at + 4 + |rs[0].body|)
  }

  const NOTHING_SAID := Details(None, None, None, None, None, None, None, false, None, None, None)

  function Expected(w: Written): Report {
    Report(w.version, Region(39, |w.session|), w.ciphers,
           Notes(Scan([], NOTHING_SAID, [], [], []), w.extensions, BodiesOf(w)))
  }

  // ---- numbers ----

  lemma TwoBytes(v: nat)
    requires v < 0x1_0000
    ensures Wide(Two(v)[0], Two(v)[1]) == v
  {
  }

  lemma OneByte(v: nat)
    requires v < 0x100
    ensures Octet(v) == [v]
  {
  }

  predicate SameAt(b: Bytes, o: nat, s: Bytes, i: nat) { o + i < |b| && i < |s| && b[o + i] == s[i] }

  /** b holds the bytes of s at o. */
  predicate Holds(b: Bytes, o: nat, s: Bytes) {
    o + |s| <= |b| && forall i: nat :: i < |s| ==> SameAt(b, o, s, i)
  }

  lemma HoldsSplits(b: Bytes, o: nat, s: Bytes, t: Bytes)
    requires Holds(b, o, s + t)
    ensures Holds(b, o, s) && Holds(b, o + |s|, t)
  {
    forall i: nat | i < |s| ensures SameAt(b, o, s, i) { assert SameAt(b, o, s + t, i); }
    var p := o + |s|;
    forall i: nat | i < |t| ensures SameAt(b, p, t, i) {
      var k := |s| + i;
      assert SameAt(b, o, s + t, k);
    }
  }

  lemma HeldSlice(b: Bytes, o: nat, s: Bytes)
    requires Holds(b, o, s)
    ensures Slice(b, o, o + |s|) == s
  {
    forall i: nat | i < |s| ensures b[o + i] == s[i] { assert SameAt(b, o, s, i); }
  }

  lemma HeldU16(b: Bytes, o: nat, v: nat)
    requires v < 0x1_0000 && Holds(b, o, Two(v))
    ensures U16(b, o) == Some(v)
  {
    TwoBytes(v);
    assert SameAt(b, o, Two(v), 0) && SameAt(b, o, Two(v), 1);
  }

  lemma HeldOctet(b: Bytes, o: nat, v: nat)
    requires v < 0x100 && Holds(b, o, Octet(v))
    ensures o < |b| && b[o] == v
  {
    OneByte(v);
    assert SameAt(b, o, Octet(v), 0);
  }

  lemma {:induction false} HeldU16s(b: Bytes, o: nat, vs: seq<nat>)
    requires AllU16(vs) && Holds(b, o, U16s(vs))
    ensures U16List(b, o, 2 * |vs|) == Some(vs)
    decreases |vs|
  {
    if vs != [] {
      HoldsSplits(b, o, Two(vs[0]), U16s(vs[1..]));
      HeldU16(b, o, vs[0]);
      HeldU16s(b, o + 2, vs[1..]);
      assert vs == [vs[0]] + vs[1..];
    }
  }

  // ---- extension bodies ----

  lemma HeldProtocol(ed: Bytes, p: nat, n: Bytes, rest: Bytes)
    requires |n| < 0x100 && Holds(ed, p, Octet(|n|) + n + rest)
    ensures p < |ed| && ed[p] == |n| && Slice(ed, p + 1, p + 1 + |n|) == n && Holds(ed, p + 1 + |n|, rest)
  {
    assert Octet(|n|) + n + rest == Octet(|n|) + (n + rest);
    HoldsSplits(ed, p, Octet(|n|), n + rest);
    HeldOctet(ed, p, |n|);
    HoldsSplits(ed, p + 1, n, rest);
    HeldSlice(ed, p + 1, n);
  }

  lemma {:induction false} HeldProtocols(ed: Bytes, p: nat, names: seq<Bytes>)
    requires NamesSized(names) && Holds(ed, p, ProtocolBytes(names))
    requires p + |ProtocolBytes(names)| == |ed|
    ensures AlpnNames(ed, p) == names
    decreases |names|
  {
    if names != [] {
      var n := names[0];
      HeldProtocol(ed, p, n, ProtocolBytes(names[1..]));
      HeldProtocols(ed, p + 1 + |n|, names[1..]);
      assert names == [n] + names[1..];
    }
  }

  /** What the parser finds for the entries of a key share whose first is at p of the body. */
  function SharesAt(entries: seq<(nat, Bytes)>, p: nat): seq<Share> {
    if entries == [] then []
    else [Share(entries[0].0, Region(p + 4, |entries[0].1|))] + SharesAt(entries[1..], p + 4 + |entries[0].1|)
  }

  lemma HeldEntry(ed: Bytes, p: nat, group: nat, key: Bytes, rest: Bytes)
    requires group < 0x1_0000 && |key| < 0x1_0000
    requires Holds(ed, p, Entry(group, key) + rest)
    ensures p + 4 <= |ed| && Wide(ed[p], ed[p + 1]) == group && Wide(ed[p + 2], ed[p + 3]) == |key|
    ensures Holds(ed, p + 4 + |key|, rest)
  {
    var g, l := Two(group), Two(|key|);
    assert Entry(group, key) + rest == g + (l + (key + rest));
    HoldsSplits(ed, p, g, l + (key + rest));
    HoldsSplits(ed, p + 2, l, key + rest);
    HoldsSplits(ed, p + 4, key, rest);
    HeldU16(ed, p, group);
    HeldU16(ed, p + 2, |key|);
  }

  lemma ShareThen(ed: Bytes, p: nat, group: nat, key: Bytes, rest: Bytes, others: seq<Share>)
    requires group < 0x1_0000 && |key| < 0x1_0000 && Holds(ed, p, Entry(group, key) + rest)
    requires KeyShares(ed, p + 4 + |key|) == others
    ensures KeyShares(ed, p) == [Share(group, Region(p + 4, |key|))] + others
  {
    HeldEntry(ed, p, group, key, rest);
    var first, more := KeysUnfold(ed, p);
  }

  lemma EntryRest(ed: Bytes, p: nat, entries: seq<(nat, Bytes)>)
    requires entries != [] && EntriesSized(entries) && Holds(ed, p, EntryBytes(entries))
    requires p + |EntryBytes(entries)| == |ed|
    ensures var next := p + 4 + |entries[0].1|;
      Holds(ed, next, EntryBytes(entries[1..])) && next + |EntryBytes(entries[1..])| == |ed|
  {
    HeldEntry(ed, p, entries[0].0, entries[0].1, EntryBytes(entries[1..]));
  }

  lemma {:induction false} HeldEntries(ed: Bytes, p: nat, entries: seq<(nat, Bytes)>, shares: seq<Share>)
    requires EntriesSized(entries) && Holds(ed, p, EntryBytes(entries)) && p + |EntryBytes(entries)| == |ed|
    requires shares == SharesAt(entries, p)
    ensures KeyShares(ed, p) == shares
    decreases |entries|
  {
    if entries != [] {
      EntryRest(ed, p, entries);
      HeldEntries(ed, p + 4 + |entries[0].1|, entries[1..], shares[1..]);
      ShareThen(ed, p, entries[0].0, entries[0].1, EntryBytes(entries[1..]), shares[1..]);
    }
  }

  /** What the parser makes of a body. */
  function InfoOf(e: Ext): Info {
    match e
    case Groups(vs) => Values(vs)
    case PointFormats(os) => Octets(os)
    case SignatureAlgorithms(vs) => Values(vs)
    case Alpn(names) => Names(names)
    case Versions(vs) => Values(vs)
    case PskModes(os) => Octets(os)
    case RecordSizeLimit(n) => Info.Number(n)
    case ServerName(name) => Host(Some(name))
    case BareServerName(_) => Host(None)
    case KeyShare(entries) => Shares(SharesAt(entries, 2))
    case CertCompression(vs) => Values(vs)
    case EncryptedHello(_) => Opaque
    case Unknown(_, _) => Opaque
  }

  lemma Whole(b: Bytes)
    ensures Holds(b, 0, b)
  {
    forall i: nat | i < |b| ensures SameAt(b, 0, b, i) {}
  }

  lemma WideListRead(vs: seq<nat>, n: nat)
    requires AllU16(vs) && n == 2 * |vs| && n < 0x1_0000
    ensures WideList(Two(n) + U16s(vs)) == Some(Values(vs))
  {
    var length, values := Two(n), U16s(vs);
    var ed := length + values;
    Whole(ed);
    HoldsSplits(ed, 0, length, values);
    HeldU16(ed, 0, n);
    HeldU16s(ed, 2, vs);
  }

  lemma ShortListRead(vs: seq<nat>)
    requires AllU16(vs) && 2 * |vs| < 0x100
    ensures ShortList(Octet(2 * |vs|) + U16s(vs)) == Some(Values(vs))
  {
    var ed := Octet(2 * |vs|) + U16s(vs);
    Whole(ed);
    HoldsSplits(ed, 0, Octet(2 * |vs|), U16s(vs));
    HeldOctet(ed, 0, 2 * |vs|);
    HeldU16s(ed, 1, vs);
  }

  lemma OctetListRead(os: Bytes)
    requires |os| < 0x100
    ensures OctetList(Octet(|os|) + os) == Some(Octets(os))
  {
    var ed := Octet(|os|) + os;
    OneByte(|os|);
    assert ed[0] == |os| && ed[1..1 + |os|] == os;
  }

  lemma AlpnRead(names: seq<Bytes>)
    requires NamesSized(names)
    ensures AlpnNames(Two(|ProtocolBytes(names)|) + ProtocolBytes(names), 2) == names
  {
    var n, b := Two(|ProtocolBytes(names)|), ProtocolBytes(names);
    Whole(n + b);
    HoldsSplits(n + b, 0, n, b);
    HeldProtocols(n + b, 2, names);
  }

  lemma KeyShareRead(entries: seq<(nat, Bytes)>)
    requires EntriesSized(entries)
    ensures KeyShares(Two(|EntryBytes(entries)|) + EntryBytes(entries), 2) == SharesAt(entries, 2)
  {
    var n, b := Two(|EntryBytes(entries)|), EntryBytes(entries);
    Whole(n + b);
    HoldsSplits(n + b, 0, n, b);
    HeldEntries(n + b, 2, entries, SharesAt(entries, 2));
  }

  lemma LimitRead(n: nat)
    requires n < 0x1_0000
    ensures ClientHello.Limit(Two(n)) == Some(Info.Number(n))
  {
    Whole(Two(n));
    HeldU16(Two(n), 0, n);
  }

  /** Every body reads back as what was put into it. */
  lemma BodyRead(e: Ext)
    requires Sized(e)
    ensures ParseBody(Number(e), Body(e)) == Some(InfoOf(e))
  {
    match e
    case Groups(vs) => WideListRead(vs, 2 * |vs|);
    case PointFormats(os) => OctetListRead(os);
    case SignatureAlgorithms(vs) => WideListRead(vs, 2 * |vs|);
    case Alpn(names) => AlpnRead(names);
    case Versions(vs) => ShortListRead(vs);
    case PskModes(os) => OctetListRead(os);
    case RecordSizeLimit(n) => LimitRead(n);
    case ServerName(name) => assert Body(e)[5..] == name;
    case BareServerName(_) =>
    case KeyShare(entries) => KeyShareRead(entries);
    case CertCompression(vs) => ShortListRead(vs);
    case EncryptedHello(_) =>
    case Unknown(_, _) =>
  }

  // ---- the extensions ----

  // Over any parser of bodies: what the extension list does does not depend on what is in it.
  type BodyParser = (nat, Bytes) -> Option<Info>

  /** The parser finds `info` in the extension. */
  predicate Reads(pb: BodyParser, r: Raw, info: Info) {
    r.kind < 0x1_0000 && |r.body| < 0x1_0000 && pb(r.kind, r.body) == Some(info)
  }

  predicate AllRead(pb: BodyParser, rs: seq<Raw>, infos: seq<Info>) {
    |infos| == |rs| && (rs == [] || (Reads(pb, rs[0], infos[0]) && AllRead(pb, rs[1..], infos[1..])))
  }

  function ParsedAt(r: Raw, info: Info, o: nat): Extension { Extension(r.kind, Region(o + 4, |r.body|), info) }

  function Parsed(rs: seq<Raw>, infos: seq<Info>, o: nat): seq<Extension>
    requires |infos| == |rs|
  {
    if rs == [] then [] else [ParsedAt(rs[0], infos[0], o)] + Parsed(rs[1..], infos[1..], o + 4 + |rs[0].body|)
  }

  lemma RawFields(hs: Bytes, o: nat, r: Raw, rest: Bytes)
    requires r.kind < 0x1_0000 && |r.body| < 0x1_0000 && Holds(hs, o, RawBytes(r) + rest)
    ensures U16(hs, o) == Some(r.kind) && U16(hs, o + 2) == Some(|r.body|)
    ensures Slice(hs, o + 4, o + 4 + |r.body|) == r.body && Holds(hs, o + 4 + |r.body|, rest)
  {
    var n, l, b := Two(r.kind), Two(|r.body|), r.body;
    assert RawBytes(r) + rest == n + (l + (b + rest));
    HoldsSplits(hs, o, n, l + (b + rest));
    HoldsSplits(hs, o + 2, l, b + rest);
    HoldsSplits(hs, o + 4, b, rest);
    HeldU16(hs, o, r.kind);
    HeldU16(hs, o + 2, |b|);
    HeldSlice(hs, o + 4, b);
  }

  /** `ParseExtensions` over any parser of bodies. */
  function ParseWith(pb: BodyParser, hs: Bytes, o: nat, end: nat): Option<seq<Extension>>
    decreases end - o
  {
    if o >= end then Some([])
    else
      var kind, len := U16(hs, o), U16(hs, o + 2);
      if kind.None? || len.None? then None
      else
        var info := pb(kind.value, Slice(hs, o + 4, o + 4 + len.value));
        if info.None? then None
        else
          var rest := ParseWith(pb, hs, o + 4 + len.value, end);
          if rest.None? then None
          else Some([Extension(kind.value, Region(o + 4, len.value), info.value)] + rest.value)
  }

  lemma RestHeld(hs: Bytes, o: nat, rs: seq<Raw>, r: Raw, rest: Bytes)
    requires rs != [] && r == rs[0] && rest == RawsBytes(rs[1..]) && Holds(hs, o, RawsBytes(rs))
    ensures Holds(hs, o, RawBytes(r) + rest) && |RawsBytes(rs)| == 4 + |r.body| + |rest|
  {
    assert RawsBytes(rs) == RawBytes(r) + rest;
  }

  lemma {:induction false} RawsRead(pb: BodyParser, hs: Bytes, o: nat, end: nat, rs: seq<Raw>, infos: seq<Info>,
                                    xs: seq<Extension>)
    requires AllRead(pb, rs, infos) && Holds(hs, o, RawsBytes(rs)) && end == o + |RawsBytes(rs)|
    requires xs == Parsed(rs, infos, o)
    ensures ParseWith(pb, hs, o, end) == Some(xs)
    decreases |rs|
  {
    if rs != [] {
      var rest := RawsBytes(rs[1..]);
      RestHeld(hs, o, rs, rs[0], rest);
      RawFields(hs, o, rs[0], rest);
      RawsRead(pb, hs, o + 4 + |rs[0].body|, end, rs[1..], infos[1..], xs[1..]);
      RawThen(pb, hs, o, end, rs[0], infos[0], xs[1..]);
    }
  }

  lemma RawThen(pb: BodyParser, hs: Bytes, o: nat, end: nat, r: Raw, info: Info, xs: seq<Extension>)
    requires o < end && U16(hs, o) == Some(r.kind) && U16(hs, o + 2) == Some(|r.body|)
    requires Slice(hs, o + 4, o + 4 + |r.body|) == r.body && pb(r.kind, r.body) == Some(info)
    requires ParseWith(pb, hs, o + 4 + |r.body|, end) == Some(xs)
    ensures ParseWith(pb, hs, o, end) == Some([ParsedAt(r, info, o)] + xs)
  {
  }

  /** With the sink's own parser of bodies it is the sink's parser. */
  lemma {:induction false} ParseWithBodies(hs: Bytes, o: nat, end: nat)
    ensures ParseWith(ParseBody, hs, o, end) == ParseExtensions(hs, o, end)
    decreases end - o
  {
    if o < end && U16(hs, o + 2).Some? { ParseWithBodies(hs, o + 4 + U16(hs, o + 2).value, end); }
  }

  // ---- the scan ----

  lemma {:induction false} EntryAt(entries: seq<(nat, Bytes)>, p: nat, at: nat, k: nat)
    requires k < |entries|
    ensures |SharesAt(entries, p)| == |EntryRegions(entries, at + p)| == |entries|
    ensures SharesAt(entries, p)[k].group == entries[k].0
    ensures var key := SharesAt(entries, p)[k].key; EntryRegions(entries, at + p)[k] == Region(at + key.at, key.len)
    decreases |entries|
  {
    var rest, next := entries[1..], p + 4 + |entries[0].1|;
    if k > 0 { EntryAt(rest, next, at, k - 1); } else if rest != [] { EntryAt(rest, next, at, 0); }
  }

  lemma KeysRecorded(entries: seq<(nat, Bytes)>, x: Extension)
    requires x.info == Shares(SharesAt(entries, 2)) && x.kind == 0x0033
    ensures Volatile(x) == EntryRegions(entries, x.body.at + 2)
    ensures ShareGroups(x.info.shares) == EntryGroups(entries)
  {
    var shares, regions := SharesAt(entries, 2), EntryRegions(entries, x.body.at + 2);
    if entries != [] { EntryAt(entries, 2, x.body.at, 0); }
    assert |shares| == |regions| == |entries|;
    forall k | 0 <= k < |entries|
      ensures shares[k].group == entries[k].0 && regions[k] == Region(x.body.at + shares[k].key.at, shares[k].key.len)
    {
      EntryAt(entries, 2, x.body.at, k);
    }
    assert Volatile(x) == regions;
  }

  /** The parser's branches put each body where its kind belongs. */
  lemma SaidRight(d: Details, e: Ext, x: Extension, groups: seq<nat>)
    requires x.kind == Number(e) && x.info == InfoOf(e)
    ensures Detail(d, x, groups) == Said(d, e, groups)
    ensures x.info.Shares? <==> e.KeyShare?
  {
  }

  lemma OnlyEchIsEch(e: Ext)
    requires Sized(e)
    ensures Number(e) == ECH <==> e.EncryptedHello?
  {
  }

  lemma NotedRight(s: Scan, e: Ext, body: Region)
    requires Sized(e)
    ensures ScanOne(s, ParsedExt(e, body)) == Noted(s, e, body)
  {
    var x := ParsedExt(e, body);
    if e.KeyShare? { KeysRecorded(e.entries, x); }
    var groups := if e.KeyShare? then s.shareGroups + EntryGroups(e.entries) else s.shareGroups;
    SaidRight(s.details, e, x, groups);
    OnlyEchIsEch(e);
  }

  function ParsedExt(e: Ext, body: Region): Extension { Extension(Number(e), body, InfoOf(e)) }

  function ParsedExts(es: seq<Ext>, bodies: seq<Region>): seq<Extension>
    requires |bodies| == |es|
  {
    if es == [] then [] else [ParsedExt(es[0], bodies[0])] + ParsedExts(es[1..], bodies[1..])
  }

  /** The scan, from the first extension on. */
  function ScanFrom(s: Scan, xs: seq<Extension>): Scan
    decreases |xs|
  {
    if xs == [] then s else ScanFrom(ScanOne(s, xs[0]), xs[1..])
  }

  lemma {:induction false} ScanFromSplits(s: Scan, xs: seq<Extension>, x: Extension)
    ensures ScanFrom(s, xs + [x]) == ScanOne(ScanFrom(s, xs), x)
    decreases |xs|
  {
    if xs == [] {
      assert xs + [x] == [x] && [x][1..] == [];
    } else {
      assert (xs + [x])[1..] == xs[1..] + [x];
      ScanFromSplits(ScanOne(s, xs[0]), xs[1..], x);
    }
  }

  lemma {:induction false} ScanAllIsFrom(xs: seq<Extension>)
    ensures ScanAll(xs) == ScanFrom(EMPTY_SCAN, xs)
  {
    if xs != [] {
      var front, x := xs[..|xs| - 1], xs[|xs| - 1];
      assert xs == front + [x];
      ScanAllIsFrom(front);
      ScanFromSplits(EMPTY_SCAN, front, x);
    }
  }

  lemma {:induction false} ScanRead(s: Scan, es: seq<Ext>, bodies: seq<Region>)
    requires AllSized(es) && |bodies| == |es|
    ensures ScanFrom(s, ParsedExts(es, bodies)) == Notes(s, es, bodies)
    decreases |es|
  {
    if es != [] {
      SizedRest(es);
      NotedRight(s, es[0], bodies[0]);
      ScanRead(Noted(s, es[0], bodies[0]), es[1..], bodies[1..]);
      assert ParsedExts(es, bodies)[1..] == ParsedExts(es[1..], bodies[1..]);
    }
  }

  function Infos(es: seq<Ext>): (infos: seq<Info>)
    ensures |infos| == |es|
  {
    if es == [] then [] else [InfoOf(es[0])] + Infos(es[1..])
  }

  lemma {:induction false} AllBodiesRead(es: seq<Ext>)
    requires AllSized(es)
    ensures AllRead(ParseBody, Raws(es), Infos(es))
  {
    if es != [] {
      SizedRest(es);
      BodyRead(es[0]);
      AllBodiesRead(es[1..]);
      assert Raws(es)[1..] == Raws(es[1..]) && Infos(es)[1..] == Infos(es[1..]);
    }
  }

  lemma {:induction false} ParsedAlike(es: seq<Ext>, at: nat)
    ensures Parsed(Raws(es), Infos(es), at) == ParsedExts(es, Bodies(Raws(es), at))
  {
    if es != [] {
      var rs := Raws(es);
      assert rs[1..] == Raws(es[1..]) && Infos(es)[1..] == Infos(es[1..]);
      ParsedAlike(es[1..], at + 4 + |rs[0].body|);
      assert Bodies(rs, at)[1..] == Bodies(rs[1..], at + 4 + |rs[0].body|);
    }
  }

  // ---- the whole message ----

  function Offset(parts: seq<Bytes>, k: nat): nat
    requires k <= |parts|
  {
    if k == 0 then 0 else Offset(parts, k - 1) + |parts[k - 1]|
  }

  lemma {:induction false} OffsetShifts(parts: seq<Bytes>, k: nat)
    requires 0 < k <= |parts|
    ensures Offset(parts, k) == |parts[0]| + Offset(parts[1..], k - 1)
  {
    if k > 1 { OffsetShifts(parts, k - 1); }
  }

  /** Every part lies where those before it end. */
  lemma {:induction false} PartHeld(b: Bytes, o: nat, parts: seq<Bytes>, k: nat)
    requires k < |parts| && Holds(b, o, Concat(parts))
    ensures Holds(b, o + Offset(parts, k), parts[k])
    decreases k
  {
    HoldsSplits(b, o, parts[0], Concat(parts[1..]));
    if k > 0 {
      PartHeld(b, o + |parts[0]|, parts[1..], k - 1);
      OffsetShifts(parts, k);
    }
  }

  lemma PartOfWhole(b: Bytes, parts: seq<Bytes>, k: nat)
    requires k < |parts| && b == Concat(parts)
    ensures Holds(b, Offset(parts, k), parts[k])
  {
    Whole(b);
    PartHeld(b, 0, parts, k);
  }

  lemma FrontOffsets(p: seq<Bytes>)
    requires |p| == 12 && |p[0]| == 1 && |p[1]| == 3 && |p[2]| == 2 && |p[3]| == 32 && |p[4]| == 1
    ensures Offset(p, 2) == 4 && Offset(p, 4) == 38 && Offset(p, 6) == 39 + |p[5]|
  {
    assert Offset(p, 1) == 1 && Offset(p, 3) == 6 && Offset(p, 5) == 39;
  }

  lemma BackOffsets(p: seq<Bytes>)
    requires |p| == 12 && |p[6]| == 2 && |p[8]| == 1 && |p[10]| == 2
    ensures Offset(p, 7) == Offset(p, 6) + 2 && Offset(p, 8) == Offset(p, 6) + 2 + |p[7]|
    ensures Offset(p, 10) == Offset(p, 6) + 3 + |p[7]| + |p[9]| && Offset(p, 11) == Offset(p, 10) + 2
  {
    assert Offset(p, 9) == Offset(p, 8) + 1;
  }

  lemma FieldOffsets(w: Written)
    requires |w.random| == 32
    ensures var p := Fields(w);
      && Offset(p, 0) == 0 && Offset(p, 2) == 4 && Offset(p, 4) == 38
      && Offset(p, 6) == 39 + |w.session| && Offset(p, 7) == 41 + |w.session|
      && Offset(p, 8) == 41 + |w.session| + 2 * |w.ciphers|
      && Offset(p, 10) == ExtensionsAt(w) - 2 && Offset(p, 11) == ExtensionsAt(w)
  {
    FrontOffsets(Fields(w));
    BackOffsets(Fields(w));
  }

  lemma HeadFields(hs: Bytes, w: Written)
    requires |w.random| == 32 && hs == Write(w)
    ensures Holds(hs, 0, [1]) && Holds(hs, 4, Two(w.version)) && Holds(hs, 38, Octet(|w.session|))
    ensures Holds(hs, 39 + |w.session|, Two(2 * |w.ciphers|))
    ensures Holds(hs, 41 + |w.session|, U16s(w.ciphers))
    ensures Holds(hs, 41 + |w.session| + 2 * |w.ciphers|, Octet(|w.compression|))
    ensures Holds(hs, ExtensionsAt(w) - 2, Two(|ExtsBytes(w.extensions)|))
  {
    var p := Fields(w);
    FieldOffsets(w);
    PartOfWhole(hs, p, 0);
    PartOfWhole(hs, p, 2);
    PartOfWhole(hs, p, 4);
    PartOfWhole(hs, p, 6);
    PartOfWhole(hs, p, 7);
    PartOfWhole(hs, p, 8);
    PartOfWhole(hs, p, 10);
  }

  lemma ExtsHeld(hs: Bytes, w: Written)
    requires |w.random| == 32 && hs == Write(w)
    ensures Holds(hs, ExtensionsAt(w), ExtsBytes(w.extensions))
  {
    var p := Fields(w);
    FieldOffsets(w);
    PartOfWhole(hs, p, 11);
  }

  lemma LayoutFrom(hs: Bytes, o: nat, m: nat, ciphers: seq<nat>, p: nat, q: nat, total: nat)
    requires |hs| > 38 && hs[0] == 1 && o == 39 + hs[38] as int && U16(hs, o) == Some(m)
    requires U16List(hs, o + 2, m) == Some(ciphers) && p == o + 2 + m < |hs|
    requires q == p + 1 + hs[p] as int && U16(hs, q) == Some(total)
    ensures ParseLayout(hs) ==
      Some(Layout(Wide(hs[4], hs[5]), Region(39, hs[38]), ciphers, q + 2, q + 2 + total))
  {
  }

  lemma VersionRead(hs: Bytes, version: nat)
    requires version < 0x1_0000 && Holds(hs, 4, Two(version))
    ensures 5 < |hs| && Wide(hs[4], hs[5]) == version
  {
    HeldU16(hs, 4, version);
  }

  lemma LayoutRead(hs: Bytes, w: Written, total: nat)
    requires HeadSized(w) && total < 0x1_0000 && Holds(hs, 0, [1]) && Holds(hs, 4, Two(w.version))
    requires Holds(hs, 38, Octet(|w.session|)) && Holds(hs, 39 + |w.session|, Two(2 * |w.ciphers|))
    requires Holds(hs, 41 + |w.session|, U16s(w.ciphers))
    requires Holds(hs, 41 + |w.session| + 2 * |w.ciphers|, Octet(|w.compression|))
    requires Holds(hs, ExtensionsAt(w) - 2, Two(total))
    ensures ParseLayout(hs) == Some(LayoutOf(w, total))
  {
    assert SameAt(hs, 0, [1], 0);
    VersionRead(hs, w.version);
    HeldOctet(hs, 38, |w.session|);
    HeldU16(hs, 39 + |w.session|, 2 * |w.ciphers|);
    HeldU16s(hs, 41 + |w.session|, w.ciphers);
    HeldOctet(hs, 41 + |w.session| + 2 * |w.ciphers|, |w.compression|);
    HeldU16(hs, ExtensionsAt(w) - 2, total);
    var o := 39 + |w.session|;
    LayoutFrom(hs, o, 2 * |w.ciphers|, w.ciphers, o + 2 + 2 * |w.ciphers|, ExtensionsAt(w) - 2, total);
  }

  lemma ScanOfWritten(es: seq<Ext>, at: nat)
    requires AllSized(es)
    ensures ScanAll(Parsed(Raws(es), Infos(es), at)) ==
      Notes(Scan([], NOTHING_SAID, [], [], []), es, Bodies(Raws(es), at))
  {
    var bodies := Bodies(Raws(es), at);
    ParsedAlike(es, at);
    ScanAllIsFrom(ParsedExts(es, bodies));
    ScanRead(EMPTY_SCAN, es, bodies);
  }

  function LayoutOf(w: Written, total: nat): Layout {
    Layout(w.version, Region(39, |w.session|), w.ciphers, ExtensionsAt(w), ExtensionsAt(w) + total)
  }

  function BodiesOf(w: Written): (bodies: seq<Region>)
    ensures |bodies| == |w.extensions|
  {
    Bodies(Raws(w.extensions), ExtensionsAt(w))
  }

  lemma ParseOf(hs: Bytes, l: Layout, xs: seq<Extension>)
    requires ParseLayout(hs) == Some(l) && ParseWith(ParseBody, hs, l.extAt, l.extEnd) == Some(xs)
    ensures Parse(hs) == Some(Hello(l, xs))
  {
    ParseWithBodies(hs, l.extAt, l.extEnd);
  }

  lemma WrittenLayout(hs: Bytes, w: Written, l: Layout)
    requires hs == Write(w) && HeadSized(w) && |ExtsBytes(w.extensions)| < 0x1_0000
    requires l == LayoutOf(w, |ExtsBytes(w.extensions)|)
    ensures ParseLayout(hs) == Some(l)
  {
    HeadFields(hs, w);
    LayoutRead(hs, w, |ExtsBytes(w.extensions)|);
  }

  lemma WrittenExts(hs: Bytes, w: Written, l: Layout, rs: seq<Raw>, infos: seq<Info>)
    requires hs == Write(w) && |w.random| == 32 && rs == Raws(w.extensions) && AllRead(ParseBody, rs, infos)
    requires l == LayoutOf(w, |ExtsBytes(w.extensions)|)
    ensures ParseWith(ParseBody, hs, l.extAt, l.extEnd) == Some(Parsed(rs, infos, ExtensionsAt(w)))
  {
    ExtsHeld(hs, w);
    RawsRead(ParseBody, hs, l.extAt, l.extEnd, rs, infos, Parsed(rs, infos, l.extAt));
  }

  lemma ReportFrom(h: Hello, scan: Scan)
    requires ScanAll(h.extensions) == scan
    ensures ReportOf(h) == Report(h.layout.version, h.layout.session, h.layout.ciphers, scan)
  {
  }

  /** Where the parser finds the extensions that were written, and what in them. */
  function FoundIn(w: Written): Hello {
    var total, infos := |ExtsBytes(w.extensions)|, Infos(w.extensions);
    Hello(LayoutOf(w, total), Parsed(Raws(w.extensions), infos, ExtensionsAt(w)))
  }

  lemma WrittenIsParsed(w: Written)
    requires Writable(w)
    ensures Parse(Write(w)) == Some(FoundIn(w))
  {
    var l, rs, infos := LayoutOf(w, |ExtsBytes(w.extensions)|), Raws(w.extensions), Infos(w.extensions);
    var xs := Parsed(rs, infos, ExtensionsAt(w));
    WrittenLayout(Write(w), w, l);
    AllBodiesRead(w.extensions);
    WrittenExts(Write(w), w, l, rs, infos);
    ParseOf(Write(w), l, xs);
  }

  /** The parser reports exactly what was written, each value in its own field and each region in its place. */
  lemma WrittenIsReported(w: Written)
    requires Writable(w)
    ensures Parse(Write(w)).Some? && ReportOf(Parse(Write(w)).value) == Expected(w)
  {
    var h := FoundIn(w);
    WrittenIsParsed(w);
    ScanOfWritten(w.extensions, ExtensionsAt(w));
    ReportFrom(h, ScanAll(h.extensions));
  }

  // ---- cut short ----

  lemma {:induction false} ListPrefix(b: Bytes, c: Bytes, o: nat, n: nat)
    requires b <= c && U16List(b, o, n).Some?
    ensures U16List(c, o, n) == U16List(b, o, n)
    decreases n
  {
    if n > 0 { ListPrefix(b, c, o + 2, if n <= 2 then 0 else n - 2); }
  }

  /** What is found in part of a message is what is found in the whole. */
  lemma LayoutPrefix(b: Bytes, c: Bytes)
    requires b <= c && ParseLayout(b).Some?
    ensures ParseLayout(c) == ParseLayout(b)
  {
    var o := 39 + b[38] as int;
    var n := U16(b, o).value;
    ListPrefix(b, c, o + 2, n);
  }

  /** A message that ends before its extensions begin, or is of another type, is not parsed. */
  lemma CutHeadFails(w: Written, n: nat, hs: Bytes)
    requires Writable(w) && n < ExtensionsAt(w) && n <= |Write(w)|
    ensures Parse(Write(w)[..n]).None?
    ensures hs != [] && hs[0] != 1 ==> Parse(hs).None?
  {
    var part := Write(w)[..n];
    WrittenIsParsed(w);
    if ParseLayout(part).Some? {
      LayoutPrefix(part, Write(w));
      LayoutBounds(part);
    }
  }

  /** The offset loops report it too. */
  method ReportWritten(w: Written) returns (r: Option<Report>)
    requires Writable(w)
    ensures r == Some(Expected(w))
  {
    WrittenIsReported(w);
    r := ParseClientHello(Write(w));
  }
}
