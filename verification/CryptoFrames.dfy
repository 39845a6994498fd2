/** CRYPTO frames: variable-length integers, `write_chunk`'s length estimate and `limit_chunks`. */
module CryptoFrames {
  import opened Prelude

  // ---- variable-length integers, section 16 of RFC 9000 ----

  const VARINT_LIMIT := 0x4000_0000_0000_0000

  function VarintLen(v: nat): (n: nat)
    requires v < VARINT_LIMIT
    ensures n == 1 || n == 2 || n == 4 || n == 8
  {
    if v < 0x40 then 1 else if v < 0x4000 then 2 else if v < 0x4000_0000 then 4 else 8
  }

  /** The two high bits of the first byte give the length: 00, 01, 10, 11 for 1, 2, 4, 8 bytes. */
  function LengthTag(n: nat): nat {
    if n == 1 then 0 else if n == 2 then 1 else if n == 4 then 2 else 3
  }

  function EncodeVarint(v: nat): (b: Bytes)
    requires v < VARINT_LIMIT
    ensures |b| == VarintLen(v)
  {
    var n := VarintLen(v);
    FirstByteFits(v);
    var b := BigEndian(v, n);
    [b[0] + 64 * LengthTag(n)] + b[1..]
  }

  lemma {:induction false} FirstByteBelow64(v: nat, n: nat)
    requires n > 0 && v < 64 * Pow256(n - 1)
    ensures BigEndian(v, n)[0] < 64
  {
    if n > 1 { FirstByteBelow64(v / 256, n - 1); }
  }

  lemma FirstByteFits(v: nat)
    requires v < VARINT_LIMIT
    ensures BigEndian(v, VarintLen(v))[0] < 64
    ensures v < Pow256(VarintLen(v))
  {
    assert Pow256(1) == 0x100 && Pow256(2) == 0x1_0000 && Pow256(3) == 0x100_0000 && Pow256(4) == 0x1_0000_0000;
    assert Pow256(7) == 0x100_0000_0000_0000 && Pow256(8) == 0x1_0000_0000_0000_0000;
    FirstByteBelow64(v, VarintLen(v));
  }

  /** Read one integer; None when the input ends inside it. */
  function DecodeVarint(b: Bytes): (r: Option<(nat, Bytes)>)
    ensures r.Some? ==> |r.value.1| < |b|
  {
    if b == [] then None
    else
      var n := [1, 2, 4, 8][b[0] / 64];
      if |b| < n then None
      else Some((FromBigEndian([b[0] % 64] + b[1..n]), b[n..]))
  }

  lemma TaggedByte(low: nat, tag: nat)
    requires low < 64
    ensures (low + 64 * tag) / 64 == tag && (low + 64 * tag) % 64 == low
  {
  }

  lemma DecodeTagged(b: Bytes, tag: nat, rest: Bytes)
    requires tag < 4 && |b| == [1, 2, 4, 8][tag] && b[0] < 64
    ensures DecodeVarint([b[0] + 64 * tag] + b[1..] + rest) == Some((FromBigEndian(b), rest))
  {
    TaggedByte(b[0], tag);
    var e := [b[0] + 64 * tag] + b[1..] + rest;
    assert [e[0] % 64] + e[1..|b|] == b;
    assert e[|b|..] == rest;
  }

  lemma EncodeTagged(v: nat, b: Bytes, rest: Bytes)
    requires v < VARINT_LIMIT && b == BigEndian(v, VarintLen(v)) && b[0] < 64
    ensures DecodeVarint(EncodeVarint(v) + rest) == Some((FromBigEndian(b), rest))
  {
    var tag := LengthTag(VarintLen(v));
    assert EncodeVarint(v) == [b[0] + 64 * tag] + b[1..];
    DecodeTagged(b, tag, rest);
  }

  lemma VarintRoundTrip(v: nat, rest: Bytes)
    requires v < VARINT_LIMIT
    ensures DecodeVarint(EncodeVarint(v) + rest) == Some((v, rest))
  {
    FirstByteFits(v);
    var n := VarintLen(v);
    BigEndianRoundTrip(v, n);
    EncodeTagged(v, BigEndian(v, n), rest);
  }

  lemma OneMore(v: nat, n: nat, b: Bytes, last: Byte)
    requires BigEndian(v, n) == b
    ensures BigEndian(256 * v + last, n + 1) == b + [last]
  {
    assert (256 * v + last) / 256 == v && (256 * v + last) % 256 == last;
  }

  lemma TwoMore(v: nat, n: nat, b: Bytes, x: Byte, y: Byte)
    requires BigEndian(v, n) == b
    ensures BigEndian(65536 * v + 256 * x + y, n + 2) == b + [x, y]
  {
    OneMore(v, n, b, x);
    OneMore(256 * v + x, n + 1, b + [x], y);
    assert b + [x] + [y] == b + [x, y];
  }

  lemma Tagged(v: nat, b: Bytes)
    requires v < VARINT_LIMIT && BigEndian(v, VarintLen(v)) == b
    ensures EncodeVarint(v) == [b[0] + 64 * LengthTag(|b|)] + b[1..]
  {
  }

  lemma ShortExamples()
    ensures EncodeVarint(37) == [0x25] && EncodeVarint(15293) == [0x7b, 0xbd]
  {
    OneMore(0, 0, [], 37);
    Tagged(37, [37]);
    TwoMore(0, 0, [], 0x3b, 0xbd);
    Tagged(0x3bbd, [0x3b, 0xbd]);
  }

  lemma MiddleExample()
    ensures EncodeVarint(494878333) == [0x9d, 0x7f, 0x3e, 0x7d]
  {
    TwoMore(0, 0, [], 0x1d, 0x7f);
    TwoMore(0x1d7f, 2, [0x1d, 0x7f], 0x3e, 0x7d);
    Tagged(0x1d7f3e7d, [0x1d, 0x7f, 0x3e, 0x7d]);
  }

  lemma LongExample()
    ensures EncodeVarint(151288809941952652) == [0xc2, 0x19, 0x7c, 0x5e, 0xff, 0x14, 0xe8, 0x8c]
  {
    LongBytes();
    Tagged(0x02197c5eff14e88c, [0x02, 0x19, 0x7c, 0x5e, 0xff, 0x14, 0xe8, 0x8c]);
  }

  lemma LongBytes()
    ensures BigEndian(0x02197c5eff14e88c, 8) == [0x02, 0x19, 0x7c, 0x5e, 0xff, 0x14, 0xe8, 0x8c]
  {
    FourBytes();
    TwoMore(0x02197c5e, 4, [0x02, 0x19, 0x7c, 0x5e], 0xff, 0x14);
    TwoMore(0x02197c5eff14, 6, [0x02, 0x19, 0x7c, 0x5e, 0xff, 0x14], 0xe8, 0x8c);
  }

  lemma FourBytes()
    ensures BigEndian(0x02197c5e, 4) == [0x02, 0x19, 0x7c, 0x5e]
  {
    TwoMore(0, 0, [], 0x02, 0x19);
    TwoMore(0x0219, 2, [0x02, 0x19], 0x7c, 0x5e);
  }

  /** The examples of appendix A.1 of RFC 9000, one for each length. */
  lemma StandardExamples()
    ensures EncodeVarint(37) == [0x25] && EncodeVarint(15293) == [0x7b, 0xbd]
    ensures EncodeVarint(494878333) == [0x9d, 0x7f, 0x3e, 0x7d]
    ensures EncodeVarint(151288809941952652) == [0xc2, 0x19, 0x7c, 0x5e, 0xff, 0x14, 0xe8, 0x8c]
  {
    ShortExamples();
    MiddleExample();
    LongExample();
  }

  /** No shorter bytes read as the same value. */
  lemma VarintIsShortest(v: nat, b: Bytes, rest: Bytes)
    requires v < VARINT_LIMIT && DecodeVarint(b) == Some((v, rest))
    ensures |EncodeVarint(v)| <= |b| - |rest|
  {
    var n := [1, 2, 4, 8][b[0] / 64];
    ValueBelow([b[0] % 64] + b[1..n]);
    assert Pow256(1) == 0x100 && Pow256(2) == 0x1_0000 && Pow256(3) == 0x100_0000;
  }

  lemma {:induction false} ValueBelow(b: Bytes)
    requires b != [] && b[0] < 64
    ensures FromBigEndian(b) < 64 * Pow256(|b| - 1)
  {
    if |b| == 1 {
      assert b[..0] == [] && FromBigEndian([]) == 0;
    } else {
      ValueBelow(b[..|b| - 1]);
    }
  }

  // ---- frames ----

  const CRYPTO := 0x06

  function EncodeCrypto(offset: nat, data: Bytes): (b: Bytes)
    requires offset < VARINT_LIMIT && |data| < VARINT_LIMIT
    ensures |b| == 1 + VarintLen(offset) + VarintLen(|data|) + |data|
  {
    [CRYPTO as Byte] + EncodeVarint(offset) + EncodeVarint(|data|) + data
  }

  /** The receiver's side: a CRYPTO frame, section 19.6 of RFC 9000. */
  function DecodeCrypto(b: Bytes): Option<(nat, Bytes, Bytes)> {
    if b == [] || b[0] != 0x06 then None
    else
      match DecodeVarint(b[1..])
      case None => None
      case Some((offset, b1)) =>
        match DecodeVarint(b1)
        case None => None
        case Some((n, b2)) => if |b2| < n then None else Some((offset, b2[..n], b2[n..]))
  }

  lemma CryptoRoundTrip(offset: nat, data: Bytes, rest: Bytes)
    requires offset < VARINT_LIMIT && |data| < VARINT_LIMIT
    ensures DecodeCrypto(EncodeCrypto(offset, data) + rest) == Some((offset, data, rest))
  {
    var b := EncodeCrypto(offset, data) + rest;
    var tail := EncodeVarint(|data|) + (data + rest);
    assert b[1..] == EncodeVarint(offset) + tail;
    VarintRoundTrip(offset, tail);
    VarintRoundTrip(|data|, data + rest);
    assert (data + rest)[..|data|] == data && (data + rest)[|data|..] == rest;
  }

  /** The fields in order: type 6, offset, length, data. */
  lemma FrameInBytes(offset: nat, data: Bytes)
    requires offset < 0x40 && |data| < 0x40
    ensures EncodeCrypto(offset, data) == [0x06, offset, |data|] + data
  {
    assert BigEndian(offset, 1) == [offset] && BigEndian(|data|, 1) == [|data|];
  }

  // ---- write_chunk ----

  /** How many of `available` bytes `write_chunk` sends at `offset` into `remaining` bytes of packet. */
  function ChunkLen(offset: nat, available: nat, remaining: nat): (r: Option<nat>)
    requires offset < VARINT_LIMIT && available < VARINT_LIMIT
  {
    var header := 1 + VarintLen(offset) + 1;
    if remaining < header + 1 then None
    else
      var estimate := Min(available, remaining - header);
      var header := header + VarintLen(estimate) - 1;
      Some(Min(available, remaining - header))
  }

  /** The frame fits, carries no more than is available, and carries something if there is anything. */
  lemma ChunkFits(offset: nat, available: nat, remaining: nat)
    requires offset < VARINT_LIMIT && available < VARINT_LIMIT
    requires ChunkLen(offset, available, remaining).Some?
    ensures var n := ChunkLen(offset, available, remaining).value;
      && n <= available
      && (available > 0 ==> n > 0)
      && 1 + VarintLen(offset) + VarintLen(n) + n <= remaining
  {
  }

  /** Nothing is written exactly when not even one byte of data would fit. */
  lemma ChunkRefusedOnlyWhenFull(offset: nat, available: nat, remaining: nat)
    requires offset < VARINT_LIMIT && available < VARINT_LIMIT
    ensures ChunkLen(offset, available, remaining).None? <==> remaining < 1 + VarintLen(offset) + VarintLen(1) + 1
  {
  }

  /** A frame with m of the available bytes fits the packet. */
  predicate CouldCarry(offset: nat, available: nat, remaining: nat, m: nat)
    requires offset < VARINT_LIMIT && available < VARINT_LIMIT
  {
    m <= available && 1 + VarintLen(offset) + VarintLen(m) + m <= remaining
  }

  /** The room for length field and data is one or two bytes above 2^14, or up to six above 2^30. */
  predicate AtLengthStep(available: nat, room: int) {
    || (available >= 0x4000 && 0x4000 < room <= 0x4002)
    || (available >= 0x4000_0000 && 0x4000_0000 < room <= 0x4000_0006)
  }

  /** The estimate is never more than four bytes short of the longest chunk that fits, and not at all below 2^14. */
  lemma ChunkIsMaximal(offset: nat, available: nat, remaining: nat, m: nat)
    requires offset < VARINT_LIMIT && available < VARINT_LIMIT
    requires ChunkLen(offset, available, remaining).Some? && CouldCarry(offset, available, remaining, m)
    ensures m <= ChunkLen(offset, available, remaining).value + 4
    ensures remaining < 0x4000 ==> m <= ChunkLen(offset, available, remaining).value
  {
  }

  /**
   * The two-pass estimate falls short of the longest chunk that fits exactly where the length field is about to
   * grow: the first pass counts the longer field, and the data then left does not need it.
   */
  lemma ChunkFallsShortExactly(offset: nat, available: nat, remaining: nat)
    requires offset < VARINT_LIMIT && available < VARINT_LIMIT
    requires ChunkLen(offset, available, remaining).Some?
    ensures var n := ChunkLen(offset, available, remaining).value;
      (exists m :: m > n && CouldCarry(offset, available, remaining, m))
      <==> AtLengthStep(available, remaining - 1 - VarintLen(offset))
  {
    var n, room := ChunkLen(offset, available, remaining).value, remaining - 1 - VarintLen(offset);
    if AtLengthStep(available, room) {
      assert CouldCarry(offset, available, remaining, n + 1);
    }
  }

  /** At 2^14, 16381 bytes although 16383 fit; at 2^30, 1073741817 although 1073741821 fit. */
  lemma ChunkFallsShort()
    ensures ChunkLen(0, 20000, 16387) == Some(16381) && CouldCarry(0, 20000, 16387, 16383)
    ensures ChunkLen(0, 0x8000_0000, 0x4000_0003) == Some(0x3fff_fff9)
    ensures CouldCarry(0, 0x8000_0000, 0x4000_0003, 0x3fff_fffd)
  {
  }

  // ---- limit_chunks ----

  datatype Chunk = Chunk(offset: nat, data: Bytes)

  function LimitChunks(left: Chunk, right: Chunk, limit: nat): (Chunk, Chunk) {
    var l, r := |left.data|, |right.data|;
    if l + r <= limit then (left, right)
    else if l <= limit then
      var dropped := r + l - limit;
      (left, Chunk(right.offset + dropped, right.data[dropped..]))
    else if r <= limit then (left.(data := left.data[..limit - r]), right)
    else (left.(data := left.data[..limit / 2]), right.(data := right.data[..limit / 2]))
  }

  /** A chunk carries the bytes of `stream` at its offset. */
  predicate CutFrom(c: Chunk, stream: Bytes) {
    c.offset + |c.data| <= |stream| && c.data == stream[c.offset..c.offset + |c.data|]
  }

  predicate Covers(c: Chunk, start: nat, end: nat) {
    c.offset <= start && end <= c.offset + |c.data|
  }

  /** The midpoint of the SNI, where the stream is cut. */
  function Mid(sni: (nat, nat)): nat
    requires sni.0 <= sni.1
  {
    sni.0 + (sni.1 - sni.0) / 2
  }

  /** Both chunks come from the stream, they are disjoint and in order, and they total at most the limit. */
  lemma LimitChunksCuts(stream: Bytes, mid: nat, limit: nat)
    requires mid <= |stream|
    ensures var (left, right) := LimitChunks(Chunk(0, stream[..mid]), Chunk(mid, stream[mid..]), limit);
      && CutFrom(left, stream) && CutFrom(right, stream)
      && left.offset == 0 && |left.data| <= mid <= right.offset
      && |left.data| + |right.data| <= limit
      && (|left.data| == mid || right.offset == mid)
  {
    var l, r := mid, |stream| - mid;
    if l + r <= limit {
    } else if l <= limit {
      var d := r + l - limit;
      assert stream[mid..][d..] == stream[mid + d..|stream|];
    } else if r <= limit {
      assert stream[..mid][..limit - r] == stream[0..limit - r];
    } else {
      assert stream[..mid][..limit / 2] == stream[0..limit / 2];
      assert stream[mid..][..limit / 2] == stream[mid..mid + limit / 2];
    }
  }

  /**
   * Which bytes go: everything if it fits; else the whole left half and the end of the right one, so that the byte at
   * the midpoint waits for another packet; else the beginning of the left half and the whole right one; else the
   * beginnings of both.
   */
  lemma LimitChunksExactly(stream: Bytes, mid: nat, limit: nat)
    requires mid <= |stream|
    ensures var (left, right) := LimitChunks(Chunk(0, stream[..mid]), Chunk(mid, stream[mid..]), limit);
      var n := |stream|;
      && (n <= limit ==> left.data == stream[..mid] && right == Chunk(mid, stream[mid..]))
      && (mid <= limit < n ==>
            && left.data == stream[..mid]
            && right.offset == n - (limit - mid) > mid && right.data == stream[right.offset..]
            && |left.data| + |right.data| == limit)
      && (n - mid <= limit < mid ==> left.data == stream[..limit - (n - mid)] && right == Chunk(mid, stream[mid..]))
      && (limit < mid && limit < n - mid ==>
            left.data == stream[..limit / 2] && right == Chunk(mid, stream[mid..mid + limit / 2]))
  {
    var l, r := mid, |stream| - mid;
    if l + r <= limit {
    } else if l <= limit {
      var d := r + l - limit;
      assert stream[mid..][d..] == stream[mid + d..];
    } else if r <= limit {
      assert stream[..mid][..limit - r] == stream[..limit - r];
    } else {
      assert stream[..mid][..limit / 2] == stream[..limit / 2];
      assert stream[mid..][..limit / 2] == stream[mid..mid + limit / 2];
    }
  }

  /** Chunks on either side of the midpoint hold the whole SNI only if it is a single byte or empty. */
  lemma NoHalfCovers(left: Chunk, right: Chunk, sni: (nat, nat))
    requires sni.0 <= sni.1 && left.offset == 0 && |left.data| <= Mid(sni) <= right.offset
    ensures sni.1 - sni.0 >= 2 ==> !Covers(left, sni.0, sni.1) && !Covers(right, sni.0, sni.1)
    ensures sni.1 - sni.0 < 2 && right.offset == Mid(sni) && sni.1 <= right.offset + |right.data| ==>
      Covers(right, sni.0, sni.1)
  {
  }
}
