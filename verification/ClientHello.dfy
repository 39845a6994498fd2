/**
 * The ClientHello parser and masker of the hello sink (section 4.1.2 of RFC 8446).
 *
 * An IndexError or failed assertion of the source is `None`; a slice is clamped to its sequence.
 */
module ClientHello {
  import opened Prelude

  function Wide(hi: int, lo: int): int { hi * 256 + lo }

  function U16(b: Bytes, o: nat): Option<nat> {
    if o + 1 < |b| then Some(Wide(b[o], b[o + 1])) else None
  }

  /** The 16-bit values at o, o+2, ... for n bytes. */
  function U16List(b: Bytes, o: nat, n: nat): Option<seq<nat>>
    decreases n
  {
    if n == 0 then Some([])
    else
      match U16(b, o)
      case None => None
      case Some(v) =>
        match U16List(b, o + 2, if n <= 2 then 0 else n - 2)
        case None => None
        case Some(vs) => Some([v] + vs)
  }

  /** b[lo:hi] with both bounds clamped. */
  function Slice(b: Bytes, lo: nat, hi: nat): Bytes {
    if lo >= |b| || hi <= lo then [] else b[lo..Min(hi, |b|)]
  }

  /** An offset and a length. */
  datatype Region = Region(at: nat, len: nat)

  predicate InRegion(r: Region, i: nat) { r.at <= i < r.at + r.len }

  const SERVER_NAME := 0x0000
  const SUPPORTED_GROUPS := 0x000a
  const EC_POINT_FORMATS := 0x000b
  const SIGNATURE_ALGORITHMS := 0x000d
  const ALPN := 0x0010
  const COMPRESS_CERTIFICATE := 0x001b
  const RECORD_SIZE_LIMIT := 0x001c
  const SUPPORTED_VERSIONS := 0x002b
  const PSK_MODES := 0x002d
  const KEY_SHARE := 0x0033
  const ECH := 0xfe0d

  // ---- extension bodies ----

  function AlpnNames(ed: Bytes, p: nat): seq<Bytes>
    decreases |ed| - p
  {
    if p >= |ed| then []
    else [Slice(ed, p + 1, p + 1 + ed[p])] + AlpnNames(ed, p + 1 + ed[p])
  }

  datatype Share = Share(group: nat, key: Region)

  /** The entries of a key_share extension; key regions are relative to its body. */
  function KeyShares(ed: Bytes, p: nat): seq<Share>
    decreases |ed| - p
  {
    if p + 4 > |ed| then []
    else
      var group, len := Wide(ed[p], ed[p + 1]), Wide(ed[p + 2], ed[p + 3]);
      [Share(group, Region(p + 4, len))] + KeyShares(ed, p + 4 + len)
  }

  datatype Info =
    | Opaque
    | Values(values: seq<nat>)
    | Octets(octets: Bytes)
    | Names(names: seq<Bytes>)
    | Number(number: nat)
    | Host(host: Option<Bytes>)
    | Shares(shares: seq<Share>)

  function Listed(values: Option<seq<nat>>): Option<Info> {
    if values.Some? then Some(Values(values.value)) else None
  }

  /** A list whose byte length is the 16-bit value before it. */
  function WideList(ed: Bytes): Option<Info> {
    var n := U16(ed, 0);
    if n.None? then None else Listed(U16List(ed, 2, n.value))
  }

  /** A list of 16-bit values whose byte length is the byte before it. */
  function ShortList(ed: Bytes): Option<Info> {
    if ed == [] then None else Listed(U16List(ed, 1, ed[0]))
  }

  function Limit(ed: Bytes): Option<Info> {
    var n := U16(ed, 0);
    if n.None? then None else Some(Number(n.value))
  }

  /** A list of bytes whose length is the byte before it. */
  function OctetList(ed: Bytes): Option<Info> {
    if ed == [] then None else Some(Octets(Slice(ed, 1, ed[0] as int + 1)))
  }

  function ParseBody(kind: nat, ed: Bytes): Option<Info> {
    if kind == SUPPORTED_GROUPS || kind == SIGNATURE_ALGORITHMS then WideList(ed)
    else if kind == EC_POINT_FORMATS || kind == PSK_MODES then OctetList(ed)
    else if kind == ALPN then Some(Names(AlpnNames(ed, 2)))
    else if kind == SUPPORTED_VERSIONS || kind == COMPRESS_CERTIFICATE then ShortList(ed)
    else if kind == RECORD_SIZE_LIMIT then Limit(ed)
    else if kind == SERVER_NAME then Some(Host(if |ed| >= 5 then Some(ed[5..]) else None))
    else if kind == KEY_SHARE then Some(Shares(KeyShares(ed, 2)))
    else Some(Opaque)
  }

  // ---- the whole message ----

  datatype Extension = Extension(kind: nat, body: Region, info: Info)

  function ParseExtensions(hs: Bytes, o: nat, end: nat): Option<seq<Extension>>
    decreases end - o
  {
    if o >= end then Some([])
    else
      var kind, len := U16(hs, o), U16(hs, o + 2);
      if kind.None? || len.None? then None
      else
        var info := ParseBody(kind.value, Slice(hs, o + 4, o + 4 + len.value));
        if info.None? then None
        else
          var rest := ParseExtensions(hs, o + 4 + len.value, end);
          if rest.None? then None
          else Some([Extension(kind.value, Region(o + 4, len.value), info.value)] + rest.value)
  }

  /** Where things are: the session id length fixes the cipher list, which fixes the extensions. */
  datatype Layout = Layout(version: nat, session: Region, ciphers: seq<nat>, extAt: nat, extEnd: nat)

  const RANDOM := Region(6, 32)

  function ParseLayout(hs: Bytes): Option<Layout> {
    if |hs| <= 38 || hs[0] != 1 then None
    else
      var version := Wide(hs[4], hs[5]);
      var session := Region(39, hs[38]);
      var o := 39 + session.len;
      var cs := U16(hs, o);
      if cs.None? then None
      else
        var ciphers := U16List(hs, o + 2, cs.value);
        var o := o + 2 + cs.value;
        if ciphers.None? || o >= |hs| then None
        else
          var o := o + 1 + hs[o];
          var total := U16(hs, o);
          if total.None? then None
          else Some(Layout(version, session, ciphers.value, o + 2, o + 2 + total.value))
  }

  datatype Hello = Hello(layout: Layout, extensions: seq<Extension>)

  function Parse(hs: Bytes): Option<Hello> {
    match ParseLayout(hs)
    case None => None
    case Some(layout) =>
      match ParseExtensions(hs, layout.extAt, layout.extEnd)
      case None => None
      case Some(exts) => Some(Hello(layout, exts))
  }

  // ---- masking ----

  /** The regions of one extension that vary from connection to connection. */
  function Volatile(e: Extension): seq<Region> {
    if e.kind == ECH then [e.body]
    else if e.info.Shares? then
      seq(|e.info.shares|, k requires 0 <= k < |e.info.shares| =>
        Region(e.body.at + e.info.shares[k].key.at, e.info.shares[k].key.len))
    else []
  }

  predicate Masked(h: Hello, i: nat) {
    || InRegion(RANDOM, i)
    || InRegion(h.layout.session, i)
    || MaskedByAny(h.extensions, i)
  }

  predicate MaskedByAny(exts: seq<Extension>, i: nat) {
    exists k :: 0 <= k < |exts| && MaskedBy(exts[k], i)
  }

  predicate MaskedBy(e: Extension, i: nat) {
    exists r :: r in Volatile(e) && InRegion(r, i)
  }

  function Normalize(hs: Bytes, h: Hello): (n: Bytes)
    ensures |n| == |hs|
    ensures forall i :: 0 <= i < |hs| ==> n[i] == if Masked(h, i) then 0 else hs[i]
  {
    seq(|hs|, i requires 0 <= i < |hs| => if Masked(h, i) then 0 else hs[i])
  }

  /** Lengths that nest: extensions inside the message, key shares inside their extension. */
  predicate Nested(e: Extension, end: nat) {
    && e.body.at + e.body.len <= end
    && (e.info.Shares? ==> forall s :: s in e.info.shares ==> s.key.at + s.key.len <= e.body.len)
  }

  predicate AllNested(exts: seq<Extension>, end: nat) {
    forall e :: e in exts ==> Nested(e, end)
  }

  predicate WellFormed(hs: Bytes) {
    && Parse(hs).Some?
    && Parse(hs).value.layout.extEnd <= |hs|
    && AllNested(Parse(hs).value.extensions, Parse(hs).value.layout.extEnd)
  }

  predicate Same(a: Bytes, b: Bytes, i: nat) { i < |a| && i < |b| && a[i] == b[i] }

  /** Two messages that differ only where the first is masked. */
  predicate AgreeOutside(hs: Bytes, other: Bytes, h: Hello) {
    |other| == |hs| && forall i: nat :: i < |hs| && !Masked(h, i) ==> Same(hs, other, i)
  }

  // ---- parsing looks only at what is not masked ----

  predicate KeysFrom(shares: seq<Share>, p: nat) {
    forall s :: s in shares ==> s.key.at >= p + 4
  }

  predicate InKeys(shares: seq<Share>, i: nat) {
    exists s :: s in shares && InRegion(s.key, i)
  }

  lemma KeysUnfold(ed: Bytes, p: nat) returns (first: Share, rest: seq<Share>)
    requires p + 4 <= |ed|
    ensures first == Share(Wide(ed[p], ed[p + 1]), Region(p + 4, Wide(ed[p + 2], ed[p + 3])))
    ensures rest == KeyShares(ed, p + 4 + first.key.len) && KeyShares(ed, p) == [first] + rest
  {
    first := KeyShares(ed, p)[0];
    rest := KeyShares(ed, p + 4 + first.key.len);
  }

  lemma {:induction false} KeysAfter(ed: Bytes, p: nat, shares: seq<Share>)
    requires KeyShares(ed, p) == shares
    ensures KeysFrom(shares, p)
    decreases |ed| - p
  {
    if p + 4 <= |ed| {
      var first, rest := KeysUnfold(ed, p);
      KeysAfter(ed, p + 4 + first.key.len, rest);
    }
  }

  /** Bytes that agree outside the keys of [first] + rest agree on the entry header and on what follows the key. */
  lemma KeyAgreementSplits(ed: Bytes, other: Bytes, p: nat, first: Share, rest: seq<Share>)
    requires p + 4 <= |ed| && first.key.at == p + 4 && KeysFrom(rest, p + 4 + first.key.len)
    requires forall i: nat :: p <= i < |ed| && !InKeys([first] + rest, i) ==> Same(ed, other, i)
    ensures Same(ed, other, p) && Same(ed, other, p + 1) && Same(ed, other, p + 2) && Same(ed, other, p + 3)
    ensures forall i: nat :: p + 4 + first.key.len <= i < |ed| && !InKeys(rest, i) ==> Same(ed, other, i)
  {
    forall i: nat | p <= i < |ed| && (i < p + 4 || (p + 4 + first.key.len <= i && !InKeys(rest, i)))
      ensures Same(ed, other, i)
    {
      assert !InKeys([first] + rest, i);
    }
  }

  lemma {:induction false} KeySharesAgree(ed: Bytes, other: Bytes, p: nat, shares: seq<Share>)
    requires |other| == |ed| && KeyShares(ed, p) == shares
    requires forall i: nat :: p <= i < |ed| && !InKeys(shares, i) ==> Same(ed, other, i)
    ensures KeyShares(other, p) == shares
    decreases |ed| - p
  {
    if p + 4 <= |ed| {
      var first, rest := KeysUnfold(ed, p);
      KeysAfter(ed, p + 4 + first.key.len, rest);
      KeyAgreementSplits(ed, other, p, first, rest);
      KeySharesAgree(ed, other, p + 4 + first.key.len, rest);
      var first', rest' := KeysUnfold(other, p);
    }
  }

  /** A nested extension parses alike from bodies that agree outside its own mask. */
  lemma BodyAgrees(hs: Bytes, other: Bytes, e: Extension)
    requires |other| == |hs| && Nested(e, |hs|)
    requires ParseBody(e.kind, hs[e.body.at..e.body.at + e.body.len]) == Some(e.info)
    requires forall i: nat :: e.body.at <= i < e.body.at + e.body.len && !MaskedBy(e, i) ==> Same(hs, other, i)
    ensures ParseBody(e.kind, other[e.body.at..e.body.at + e.body.len]) == Some(e.info)
  {
    var ed, od := hs[e.body.at..e.body.at + e.body.len], other[e.body.at..e.body.at + e.body.len];
    if e.kind == KEY_SHARE {
      forall i: nat | 2 <= i < |ed| && !InKeys(KeyShares(ed, 2), i) ensures Same(ed, od, i) {
        assert !MaskedBy(e, e.body.at + i);
        assert Same(hs, other, e.body.at + i);
      }
      KeySharesAgree(ed, od, 2, KeyShares(ed, 2));
    } else if e.kind != ECH {
      forall i | 0 <= i < |ed| ensures od[i] == ed[i] {
        assert !MaskedBy(e, e.body.at + i) by { assert Volatile(e) == []; }
        assert Same(hs, other, e.body.at + i);
      }
      assert od == ed;
    }
  }

  /** A nested extension masks only inside its own body. */
  lemma MaskInsideBody(e: Extension, end: nat, i: nat)
    requires Nested(e, end) && MaskedBy(e, i)
    ensures e.body.at <= i < e.body.at + e.body.len
  {
    var r :| r in Volatile(e) && InRegion(r, i);
    if e.kind != ECH {
      var k :| 0 <= k < |e.info.shares| && r == Volatile(e)[k];
      assert e.info.shares[k] in e.info.shares;
    }
  }

  predicate StartAfter(exts: seq<Extension>, o: nat) {
    forall e :: e in exts ==> e.body.at >= o + 4
  }

  lemma MaskAfter(exts: seq<Extension>, o: nat, end: nat, i: nat)
    requires StartAfter(exts, o) && AllNested(exts, end) && i < o + 4
    ensures !MaskedByAny(exts, i)
  {
    forall k | 0 <= k < |exts| ensures !MaskedBy(exts[k], i) {
      assert exts[k] in exts;
      if MaskedBy(exts[k], i) { MaskInsideBody(exts[k], end, i); }
    }
  }

  /** Bytes that agree outside the mask of [e] + rest agree on the header, on e's body and on what follows. */
  lemma AgreementSplits(hs: Bytes, other: Bytes, o: nat, end: nat, e: Extension, rest: seq<Extension>)
    requires e.body.at == o + 4 && StartAfter(rest, e.body.at + e.body.len)
    requires Nested(e, end) && AllNested(rest, end) && end <= |hs|
    requires forall i: nat :: o <= i < |hs| && !MaskedByAny([e] + rest, i) ==> Same(hs, other, i)
    ensures forall i: nat :: o <= i < o + 4 ==> Same(hs, other, i)
    ensures forall i: nat :: e.body.at <= i < e.body.at + e.body.len && !MaskedBy(e, i) ==> Same(hs, other, i)
    ensures forall i: nat :: e.body.at + e.body.len <= i < |hs| && !MaskedByAny(rest, i) ==> Same(hs, other, i)
  {
    forall i: nat | o <= i < |hs|
      ensures i < o + 4 ==> Same(hs, other, i)
      ensures o + 4 <= i < e.body.at + e.body.len && !MaskedBy(e, i) ==> Same(hs, other, i)
      ensures e.body.at + e.body.len <= i && !MaskedByAny(rest, i) ==> Same(hs, other, i)
    {
      MaskedByFirstOrRest(e, rest, i);
      if MaskedBy(e, i) { MaskInsideBody(e, end, i); }
      if i < e.body.at + e.body.len { MaskAfter(rest, e.body.at + e.body.len, end, i); }
    }
  }

  lemma MaskedByFirstOrRest(first: Extension, rest: seq<Extension>, i: nat)
    ensures MaskedByAny([first] + rest, i) <==> MaskedBy(first, i) || MaskedByAny(rest, i)
  {
    if MaskedBy(first, i) { assert ([first] + rest)[0] == first; }
    if MaskedByAny(rest, i) {
      var k :| 0 <= k < |rest| && MaskedBy(rest[k], i);
      assert ([first] + rest)[k + 1] == rest[k];
    }
  }

  /** The first extension at o, and the extensions after it. */
  predicate Leads(hs: Bytes, o: nat, e: Extension) {
    && e.body.at == o + 4
    && U16(hs, o) == Some(e.kind) && U16(hs, o + 2) == Some(e.body.len)
    && ParseBody(e.kind, Slice(hs, e.body.at, e.body.at + e.body.len)) == Some(e.info)
  }

  lemma Unfold(hs: Bytes, o: nat, end: nat) returns (e: Extension, rest: seq<Extension>)
    requires o < end && ParseExtensions(hs, o, end).Some?
    ensures Leads(hs, o, e) && ParseExtensions(hs, e.body.at + e.body.len, end) == Some(rest)
    ensures ParseExtensions(hs, o, end).value == [e] + rest
  {
    e := ParseExtensions(hs, o, end).value[0];
    rest := ParseExtensions(hs, e.body.at + e.body.len, end).value;
  }

  lemma Fold(hs: Bytes, o: nat, end: nat, e: Extension, rest: seq<Extension>)
    requires o < end && Leads(hs, o, e) && ParseExtensions(hs, e.body.at + e.body.len, end) == Some(rest)
    ensures ParseExtensions(hs, o, end) == Some([e] + rest)
  {
  }

  lemma {:induction false} ParsedStartAfter(hs: Bytes, o: nat, end: nat, exts: seq<Extension>)
    requires ParseExtensions(hs, o, end) == Some(exts)
    ensures StartAfter(exts, o)
    decreases end - o
  {
    if o < end {
      var e, rest := Unfold(hs, o, end);
      ParsedStartAfter(hs, e.body.at + e.body.len, end, rest);
    }
  }

  /** `exts` is what parsing finds from o on; bytes that agree outside what it masks parse alike. */
  lemma {:induction false} ExtensionsAgree(hs: Bytes, other: Bytes, o: nat, end: nat, exts: seq<Extension>)
    requires |other| == |hs| && end <= |hs| && ParseExtensions(hs, o, end) == Some(exts) && AllNested(exts, end)
    requires forall i: nat :: o <= i < |hs| && !MaskedByAny(exts, i) ==> Same(hs, other, i)
    ensures ParseExtensions(other, o, end) == Some(exts)
    decreases end - o
  {
    if o < end {
      var e, rest := Unfold(hs, o, end);
      var next := e.body.at + e.body.len;
      assert Nested(e, end) && AllNested(rest, end);
      ParsedStartAfter(hs, next, end, rest);
      AgreementSplits(hs, other, o, end, e, rest);
      LeadsAgree(hs, other, o, e);
      ExtensionsAgree(hs, other, next, end, rest);
      Fold(other, o, end, e, rest);
    }
  }

  lemma LeadsAgree(hs: Bytes, other: Bytes, o: nat, e: Extension)
    requires |other| == |hs| && Nested(e, |hs|) && Leads(hs, o, e)
    requires forall i: nat :: o <= i < o + 4 ==> Same(hs, other, i)
    requires forall i: nat :: e.body.at <= i < e.body.at + e.body.len && !MaskedBy(e, i) ==> Same(hs, other, i)
    ensures Leads(other, o, e)
  {
    assert Same(hs, other, o) && Same(hs, other, o + 1) && Same(hs, other, o + 2) && Same(hs, other, o + 3);
    FirstAgrees(hs, other, e);
  }

  lemma FirstAgrees(hs: Bytes, other: Bytes, e: Extension)
    requires |other| == |hs| && Nested(e, |hs|)
    requires ParseBody(e.kind, Slice(hs, e.body.at, e.body.at + e.body.len)) == Some(e.info)
    requires forall i: nat :: e.body.at <= i < e.body.at + e.body.len && !MaskedBy(e, i) ==> Same(hs, other, i)
    ensures ParseBody(e.kind, Slice(other, e.body.at, e.body.at + e.body.len)) == Some(e.info)
  {
    assert Slice(hs, e.body.at, e.body.at + e.body.len) == hs[e.body.at..e.body.at + e.body.len];
    assert Slice(other, e.body.at, e.body.at + e.body.len) == other[e.body.at..e.body.at + e.body.len];
    BodyAgrees(hs, other, e);
  }

  lemma {:induction false} U16ListAgrees(a: Bytes, b: Bytes, o: nat, n: nat, hi: nat)
    requires |a| == |b| && o + n < hi <= |a|
    requires forall i: nat :: o <= i < hi ==> Same(a, b, i)
    ensures U16List(a, o, n) == U16List(b, o, n)
    decreases n
  {
    if n > 0 {
      assert Same(a, b, o) && Same(a, b, o + 1);
      if n > 2 {
        U16ListAgrees(a, b, o + 2, n - 2, hi);
      }
    }
  }

  lemma LayoutAgrees(hs: Bytes, other: Bytes)
    requires |other| == |hs| && ParseLayout(hs).Some?
    requires Same(hs, other, 0) && Same(hs, other, 4) && Same(hs, other, 5) && Same(hs, other, 38)
    requires var l := ParseLayout(hs).value;
      forall i: nat :: l.session.at + l.session.len <= i < l.extAt ==> Same(hs, other, i)
    ensures ParseLayout(other) == ParseLayout(hs)
  {
    var l := ParseLayout(hs).value;
    var o := 39 + l.session.len;
    var n := U16(hs, o).value;
    assert Same(hs, other, o) && Same(hs, other, o + 1);
    U16ListAgrees(hs, other, o + 2, n, l.extAt - 2);
    assert Same(hs, other, o + 2 + n);
    assert Same(hs, other, l.extAt - 2) && Same(hs, other, l.extAt - 1);
  }

  lemma LayoutBounds(hs: Bytes)
    requires ParseLayout(hs).Some?
    ensures var l := ParseLayout(hs).value;
      l.session.at == 39 && l.session.at + l.session.len + 4 < l.extAt <= |hs| && |hs| > 38
  {
  }

  /** Parsing depends on nothing that masking hides. */
  lemma ParseIgnoresMasked(hs: Bytes, other: Bytes)
    requires WellFormed(hs) && AgreeOutside(hs, other, Parse(hs).value)
    ensures Parse(other) == Parse(hs) && WellFormed(other)
  {
    var h := Parse(hs).value;
    var l := h.layout;
    LayoutBounds(hs);
    ParsedStartAfter(hs, l.extAt, l.extEnd, h.extensions);
    forall i: nat | i < l.extAt && !InRegion(RANDOM, i) && !InRegion(l.session, i) ensures Same(hs, other, i) {
      MaskAfter(h.extensions, l.extAt, l.extEnd, i);
    }
    LayoutAgrees(hs, other);
    ExtensionsAgree(hs, other, l.extAt, l.extEnd, h.extensions);
  }

  lemma NormalAgrees(hs: Bytes, h: Hello)
    ensures AgreeOutside(hs, Normalize(hs, h), h)
  {
  }

  /** Masking preserves structure: the normalized bytes parse to the same fields at the same offsets. */
  lemma NormalizePreservesStructure(hs: Bytes)
    requires WellFormed(hs)
    ensures Parse(Normalize(hs, Parse(hs).value)) == Parse(hs)
    ensures WellFormed(Normalize(hs, Parse(hs).value))
  {
    NormalAgrees(hs, Parse(hs).value);
    ParseIgnoresMasked(hs, Normalize(hs, Parse(hs).value));
  }

  function Normal(hs: Bytes): Bytes
    requires Parse(hs).Some?
  {
    Normalize(hs, Parse(hs).value)
  }

  lemma NormalizeIsIdempotent(hs: Bytes)
    requires WellFormed(hs)
    ensures Parse(Normal(hs)).Some? && Normal(Normal(hs)) == Normal(hs)
  {
    NormalizePreservesStructure(hs);
  }

  /**
   * Two well-formed messages have one normal form exactly when they differ only in masked bytes; and then
   * every parsed field is the same.
   */
  lemma EqualNormalForms(hs: Bytes, other: Bytes)
    requires WellFormed(hs) && Parse(other).Some?
    ensures AgreeOutside(hs, other, Parse(hs).value) ==> Normal(other) == Normal(hs) && Parse(other) == Parse(hs)
    ensures WellFormed(other) && Normal(other) == Normal(hs) ==>
      Parse(other) == Parse(hs) && AgreeOutside(hs, other, Parse(hs).value)
  {
    var h := Parse(hs).value;
    if AgreeOutside(hs, other, h) {
      ParseIgnoresMasked(hs, other);
      forall i: nat | i < |hs| ensures Normal(other)[i] == Normal(hs)[i] {
        if !Masked(h, i) { assert Same(hs, other, i); }
      }
    }
    if WellFormed(other) && Normal(other) == Normal(hs) {
      NormalizePreservesStructure(hs);
      NormalizePreservesStructure(other);
      assert |other| == |Normal(other)| == |Normal(hs)| == |hs|;
      forall i: nat | i < |hs| && !Masked(h, i) ensures Same(hs, other, i) {
        assert Normal(other)[i] == Normal(hs)[i];
      }
    }
  }
}
