/** The sending half of a CRYPTO stream and the loop that packs it into a packet. */
module CryptoStreamTx {
  import opened Prelude
  import opened CryptoFrames

  datatype ByteState = Unsent | InFlight | Acked

  /** What recovery needs to know about a frame. */
  datatype Token = Token(offset: nat, length: nat)

  predicate InToken(t: Token, i: nat) { t.offset <= i < t.offset + t.length }

  function MarkByte(s: ByteState): ByteState { if s.Unsent? then InFlight else s }

  function Mark(state: seq<ByteState>, t: Token): (r: seq<ByteState>)
    ensures |r| == |state|
    ensures forall i :: 0 <= i < |state| ==> r[i] == if InToken(t, i) then MarkByte(state[i]) else state[i]
  {
    seq(|state|, i requires 0 <= i < |state| => if InToken(t, i) then MarkByte(state[i]) else state[i])
  }

  function MarkAll(state: seq<ByteState>, tokens: seq<Token>): (r: seq<ByteState>)
    ensures |r| == |state|
  {
    if tokens == [] then state
    else Mark(MarkAll(state, tokens[..|tokens| - 1]), tokens[|tokens| - 1])
  }

  predicate Fits(t: Token, stream: Bytes) { t.offset + t.length <= |stream| < VARINT_LIMIT }

  /** The contents of the frame that a token stands for. */
  function ChunkOf(stream: Bytes, t: Token): Chunk
    requires Fits(t, stream)
  {
    Chunk(t.offset, stream[t.offset..t.offset + t.length])
  }

  /** Frame by frame, the tokens name exactly what the frames after the first n carry. */
  ghost predicate Matches(frames: seq<Chunk>, n: nat, tokens: seq<Token>, stream: Bytes) {
    && |frames| == n + |tokens|
    && forall k :: 0 <= k < |tokens| ==> Fits(tokens[k], stream) && frames[n + k] == ChunkOf(stream, tokens[k])
  }

  predicate Encodable(c: Chunk) { c.offset < VARINT_LIMIT && |c.data| < VARINT_LIMIT }

  /** The bytes of a sequence of CRYPTO frames. */
  function EncodeFrames(frames: seq<Chunk>): Bytes
    requires forall i :: 0 <= i < |frames| ==> Encodable(frames[i])
  {
    if frames == [] then []
    else
      var last := frames[|frames| - 1];
      assert Encodable(last);
      EncodeFrames(frames[..|frames| - 1]) + EncodeCrypto(last.offset, last.data)
  }

  lemma EncodeAppend(start: Bytes, frames: seq<Chunk>, c: Chunk)
    requires (forall i :: 0 <= i < |frames| ==> Encodable(frames[i])) && Encodable(c)
    ensures forall i :: 0 <= i < |frames + [c]| ==> Encodable((frames + [c])[i])
    ensures start + EncodeFrames(frames + [c]) == start + EncodeFrames(frames)
              + [CRYPTO as Byte] + EncodeVarint(c.offset) + EncodeVarint(|c.data|) + c.data
  {
    assert (frames + [c])[..|frames + [c]| - 1] == frames;
  }

  /** The receiver's side: split a payload of CRYPTO frames. */
  function DecodeFrames(b: Bytes): Option<seq<Chunk>>
    decreases |b|
  {
    if b == [] then Some([])
    else
      match DecodeCrypto(b)
      case None => None
      case Some((offset, data, rest)) =>
        if |rest| >= |b| then None
        else
          match DecodeFrames(rest)
          case None => None
          case Some(frames) => Some([Chunk(offset, data)] + frames)
  }

  lemma {:induction false} EncodeFirst(c: Chunk, frames: seq<Chunk>)
    requires forall i :: 0 <= i < |[c] + frames| ==> Encodable(([c] + frames)[i])
    requires forall i :: 0 <= i < |frames| ==> Encodable(frames[i])
    ensures Encodable(c) && EncodeFrames([c] + frames) == EncodeCrypto(c.offset, c.data) + EncodeFrames(frames)
  {
    assert ([c] + frames)[0] == c;
    if frames == [] {
      assert [c] + frames == [c];
      assert [c][..0] == [];
    } else {
      var before := frames[..|frames| - 1];
      assert ([c] + frames)[..|[c] + frames| - 1] == [c] + before;
      EncodeFirst(c, before);
    }
  }

  /** What the packet carries is what the receiver reads back. */
  lemma {:induction false} FramesRoundTrip(frames: seq<Chunk>)
    requires forall i :: 0 <= i < |frames| ==> Encodable(frames[i])
    ensures DecodeFrames(EncodeFrames(frames)) == Some(frames)
  {
    if frames != [] {
      var c, rest := frames[0], frames[1..];
      assert frames == [c] + rest;
      EncodeFirst(c, rest);
      CryptoRoundTrip(c.offset, c.data, EncodeFrames(rest));
      FramesRoundTrip(rest);
    }
  }

  /** The first unsent byte at or after `from`, or the end. */
  function SkipSent(state: seq<ByteState>, from: nat): (r: nat)
    requires from <= |state|
    ensures from <= r <= |state|
    ensures forall i :: from <= i < r ==> !state[i].Unsent?
    ensures r < |state| ==> state[r].Unsent?
    decreases |state| - from
  {
    if from < |state| && !state[from].Unsent? then SkipSent(state, from + 1) else from
  }

  function SkipUnsent(state: seq<ByteState>, from: nat): (r: nat)
    requires from <= |state|
    ensures from <= r <= |state|
    ensures forall i :: from <= i < r ==> state[i].Unsent?
    ensures from < |state| && state[from].Unsent? ==> from < r
    decreases |state| - from
  {
    if from < |state| && state[from].Unsent? then SkipUnsent(state, from + 1) else from
  }

  /** The first run of unsent bytes. */
  function NextRun(data: Bytes, state: seq<ByteState>): (r: Option<Chunk>)
    requires |state| == |data|
    ensures r.Some? ==> CutFrom(r.value, data) && r.value.data != []
    ensures r.Some? ==> forall i :: r.value.offset <= i < r.value.offset + |r.value.data| ==> state[i].Unsent?
    ensures r.None? <==> forall i :: 0 <= i < |state| ==> !state[i].Unsent?
  {
    var start := SkipSent(state, 0);
    if start == |state| then None
    else Some(Chunk(start, data[start..SkipUnsent(state, start)]))
  }

  predicate AllUnsent(state: seq<ByteState>, t: Token) {
    forall i :: 0 <= i < |state| && InToken(t, i) ==> state[i].Unsent?
  }

  /** Each token names bytes that were still unsent when it was made. */
  predicate Sendable(state: seq<ByteState>, tokens: seq<Token>) {
    tokens == [] ||
    (var before := tokens[..|tokens| - 1];
     Sendable(state, before) && AllUnsent(MarkAll(state, before), tokens[|tokens| - 1]))
  }

  lemma SendableAppend(state: seq<ByteState>, tokens: seq<Token>, t: Token)
    requires Sendable(state, tokens) && AllUnsent(MarkAll(state, tokens), t)
    ensures Sendable(state, tokens + [t])
    ensures MarkAll(state, tokens + [t]) == Mark(MarkAll(state, tokens), t)
  {
    assert (tokens + [t])[..|tokens + [t]| - 1] == tokens;
  }

  class TxBuffer {
    var data: Bytes
    var state: seq<ByteState>
    ghost var since: seq<ByteState>  // the state when this packet was begun
    ghost var marked: seq<Token>     // what has been marked since

    ghost predicate Valid()
      reads this
    {
      |state| == |data| < VARINT_LIMIT && state == MarkAll(since, marked) && Sendable(since, marked)
    }

    method NextBytes() returns (r: Option<Chunk>)
      requires Valid()
      ensures r == NextRun(data, state)
    {
      var start := 0;
      while start < |state| && !state[start].Unsent?
        invariant 0 <= start <= |state| && SkipSent(state, 0) == SkipSent(state, start)
      {
        start := start + 1;
      }
      if start == |state| { return None; }
      var end := start;
      while end < |state| && state[end].Unsent?
        invariant start <= end <= |state| && SkipUnsent(state, start) == SkipUnsent(state, end)
      {
        end := end + 1;
      }
      return Some(Chunk(start, data[start..end]));
    }

    method MarkAsSent(t: Token)
      requires Valid() && AllUnsent(state, t)
      modifies this`state, this`marked
      ensures Valid() && state == Mark(old(state), t) && marked == old(marked) + [t]
    {
      SendableAppend(since, marked, t);
      state := Mark(state, t);
      marked := marked + [t];
    }
  }

  class PacketBuilder {
    const limit: nat
    var bytes: Bytes
    ghost const start: Bytes
    ghost var frames: seq<Chunk>

    /** The packet is what it started with, followed by the encoding of its frames. */
    ghost predicate Valid()
      reads this
    {
      && |bytes| <= limit
      && (forall i :: 0 <= i < |frames| ==> Encodable(frames[i]))
      && bytes == start + EncodeFrames(frames)
    }

    constructor (limit: nat, start: Bytes)
      requires |start| <= limit
      ensures Valid() && this.limit == limit && this.start == start && frames == [] && bytes == start
    {
      this.limit, this.start, bytes, frames := limit, start, start, [];
    }

    function Remaining(): nat
      requires |bytes| <= limit
      reads this
    {
      limit - |bytes|
    }

    /** One CRYPTO frame with as much of `c` as fits, or nothing. */
    method WriteChunk(c: Chunk) returns (r: Option<Token>)
      requires Valid() && Encodable(c)
      modifies this`bytes, this`frames
      ensures Valid()
      ensures r.None? <==> ChunkLen(c.offset, |c.data|, old(Remaining())).None?
      ensures r.None? ==> bytes == old(bytes) && frames == old(frames)
      ensures r.Some? ==>
        && r.value == Token(c.offset, ChunkLen(c.offset, |c.data|, old(Remaining())).value)
        && r.value.length <= |c.data|
        && Remaining() + 1 + VarintLen(c.offset) + VarintLen(r.value.length) + r.value.length == old(Remaining())
        && frames == old(frames) + [Chunk(c.offset, c.data[..r.value.length])]
    {
      var header := 1 + VarintLen(c.offset) + 1;
      if Remaining() < header + 1 { return None; }
      var length := Min(|c.data|, Remaining() - header);
      header := header + VarintLen(length) - 1;
      length := Min(|c.data|, Remaining() - header);
      ChunkFits(c.offset, |c.data|, Remaining());
      EncodeAppend(start, frames, Chunk(c.offset, c.data[..length]));
      bytes := bytes + [CRYPTO as Byte] + EncodeVarint(c.offset) + EncodeVarint(length) + c.data[..length];
      frames := frames + [Chunk(c.offset, c.data[..length])];
      return Some(Token(c.offset, length));
    }
  }

  predicate RangeIn(r: Option<(nat, nat)>, d: Bytes) { r.Some? ==> r.value.0 <= r.value.1 <= |d| }

  ghost predicate LocatesSni(findSni: Bytes -> Option<(nat, nat)>) {
    forall d: Bytes :: RangeIn(findSni(d), d)
  }

  function Share(total: nat, limit: nat): nat
    requires total > 0 && limit > 0
  {
    ShareBounds(total, limit, (total + limit - 1) / limit);
    total / ((total + limit - 1) / limit)
  }

  /** The share of `total` bytes that goes into each of the packets of `limit` bytes they need. */
  method PacketShare(total: nat, limit: nat) returns (share: nat)
    requires total > 0 && limit > 0
    ensures 1 <= share <= limit && share <= total
    ensures share == Share(total, limit)
  {
    var packetsNeeded := (total + limit - 1) / limit;
    ShareBounds(total, limit, packetsNeeded);
    share := total / packetsNeeded;
  }

  lemma DivBounds(a: nat, b: nat)
    requires b > 0
    ensures a / b * b <= a < a / b * b + b
  {
  }

  lemma MulMonotone(a: nat, b: nat, c: nat)
    requires a <= b
    ensures a * c <= b * c
  {
  }

  lemma Cancel(a: nat, b: nat, c: nat)
    requires a * c < (b + 1) * c
    ensures a <= b
  {
    if a > b { MulMonotone(b + 1, a, c); }
  }

  lemma PacketsBounds(total: nat, limit: nat, packets: nat)
    requires total > 0 && limit > 0 && packets == (total + limit - 1) / limit
    ensures total <= packets * limit && 0 < packets <= total
  {
    DivBounds(total + limit - 1, limit);
    MulMonotone(1, limit, total);
    assert (total + 1) * limit == limit * total + limit;
    Cancel(packets, total, limit);
  }

  lemma ShareBounds(total: nat, limit: nat, packets: nat)
    requires total > 0 && limit > 0 && packets == (total + limit - 1) / limit
    ensures packets > 0 && 1 <= total / packets <= limit && total / packets <= total
  {
    PacketsBounds(total, limit, packets);
    var q := total / packets;
    DivBounds(total, packets);
    assert (limit + 1) * packets == packets * limit + packets;
    assert (q + 1) * packets == q * packets + packets;
    Cancel(q, limit, packets);
    Cancel(1, q, packets);
    MulMonotone(1, packets, total + 1);
    assert (total + 1) * packets == packets * (total + 1);
    Cancel(q, total, packets);
  }

  /** Only one number of packets just holds the total. */
  lemma PacketsUnique(total: nat, limit: nat, n: nat, m: nat)
    requires 0 < n && 0 < m && (n - 1) * limit < total <= n * limit && (m - 1) * limit < total <= m * limit
    ensures n == m
  {
    if n < m { MulMonotone(n, m - 1, limit); }
    if m < n { MulMonotone(m, n - 1, limit); }
  }

  /** The share fills the fewest packets that hold the total evenly: no larger one would leave each of them a share. */
  lemma ShareIsEven(total: nat, limit: nat, packets: nat)
    requires total > 0 && limit > 0 && packets > 0 && (packets - 1) * limit < total <= packets * limit
    ensures Share(total, limit) * packets <= total < (Share(total, limit) + 1) * packets
  {
    var m := (total + limit - 1) / limit;
    PacketsBounds(total, limit, m);
    DivBounds(total + limit - 1, limit);
    assert (m - 1) * limit == m * limit - limit;
    PacketsUnique(total, limit, packets, m);
    DivBounds(total, m);
    assert (total / m + 1) * m == total / m * m + m;
  }

  lemma PartOfChunk(c: Chunk, stream: Bytes, n: nat)
    requires CutFrom(c, stream) && n <= |c.data| && |stream| < VARINT_LIMIT
    ensures Chunk(c.offset, c.data[..n]) == ChunkOf(stream, Token(c.offset, n))
  {
  }

  /** A chunk cut from a chunk of the stream is cut from the stream. */
  lemma CutFromRun(c: Chunk, run: Chunk, stream: Bytes)
    requires CutFrom(run, stream) && run.offset == 0 && CutFrom(c, run.data)
    ensures CutFrom(c, stream)
  {
  }

  function Opt(t: Option<Token>): seq<Token> { if t.Some? then [t.value] else [] }

  predicate OptInRun(t: Option<Token>, run: Chunk, stream: Bytes) {
    t.Some? ==> run.offset <= t.value.offset && t.value.offset + t.value.length <= run.offset + |run.data|
                && Fits(t.value, stream)
  }

  function OptChunk(t: Option<Token>, stream: Bytes): seq<Chunk>
    requires t.Some? ==> Fits(t.value, stream)
  {
    if t.Some? then [ChunkOf(stream, t.value)] else []
  }

  /** A frame for the token fits into so much room. */
  predicate OptSmall(t: Option<Token>, room: nat) {
    t.Some? ==> t.value.offset < VARINT_LIMIT && 2 + VarintLen(t.value.offset) + t.value.length <= room
  }

  /**
   * What a packet that took only one of two chunks still has room for: nothing, or next to nothing after the
   * whole left chunk when the right one has an offset of 2^30 or more.
   */
  predicate HalfWritten(second: Option<Token>, leftLen: nat, rightOffset: nat, remaining: nat) {
    || remaining < 4
    || (remaining < 8 && rightOffset >= 0x4000_0000 && second.Some? && second.value.length == leftLen)
  }

  lemma HalfLeavesLittle(rightOffset: nat, rightLen: nat, leftLen: nat, space: nat, after: nat)
    requires rightOffset < VARINT_LIMIT && rightLen < VARINT_LIMIT && leftLen < VARINT_LIMIT
    requires ChunkLen(rightOffset, rightLen, space).None? ==> after == space
    ensures ChunkLen(0, leftLen, after).None? ==> after < 4
    ensures ChunkLen(rightOffset, rightLen, space).None? && ChunkLen(0, leftLen, after).Some? ==>
      var n := ChunkLen(0, leftLen, after).value;
      var left := after - 3 - n;
      && left >= 0 && VarintLen(n) == 1 && (left == 0 || n == leftLen)
      && (left < 4 || (left < 8 && rightOffset >= 0x4000_0000))
  {
  }

  /** Write two chunks, the later one first. */
  method WriteTwo(left: Chunk, right: Chunk, builder: PacketBuilder, ghost stream: Bytes)
    returns (first: Option<Token>, second: Option<Token>)
    requires builder.Valid() && |stream| < VARINT_LIMIT
    requires CutFrom(left, stream) && CutFrom(right, stream) && left.offset == 0
    modifies builder`bytes, builder`frames
    ensures builder.Valid()
    ensures first.Some? ==> first.value.offset == right.offset && first.value.length <= |right.data|
    ensures second.Some? ==> second.value.offset == 0 && second.value.length <= |left.data|
    ensures builder.frames == old(builder.frames) + OptChunk(first, stream) + OptChunk(second, stream)
    ensures builder.Remaining() <= old(builder.Remaining())
    ensures first.Some? || second.Some? ==> builder.Remaining() < old(builder.Remaining())
    ensures OptSmall(first, old(builder.Remaining())) && OptSmall(second, old(builder.Remaining()))
    ensures first.None? || second.None? ==> HalfWritten(second, |left.data|, right.offset, builder.Remaining())
    ensures second.None? ==> builder.Remaining() < 4
  {
    first := builder.WriteChunk(right);
    ghost var after := builder.Remaining();
    second := builder.WriteChunk(left);
    if first.Some? { PartOfChunk(right, stream, first.value.length); }
    if second.Some? { PartOfChunk(left, stream, second.value.length); }
    HalfLeavesLittle(right.offset, |right.data|, |left.data|, old(builder.Remaining()), after);
  }

  ghost predicate Sliced(sniSlicing: bool, findSni: Bytes -> Option<(nat, nat)>, run: Chunk) {
    sniSlicing && run.offset == 0 && findSni(run.data).Some?
  }

  predicate TokenCovers(t: Token, start: nat, end: nat) { t.offset <= start && end <= t.offset + t.length }

  predicate OptSplits(t: Option<Token>, sni: (nat, nat)) {
    t.Some? && sni.1 >= sni.0 + 2 ==> !TokenCovers(t.value, sni.0, sni.1)
  }

  /** The packet has no room for the whole SNI, which lies too far on or of which a byte has just been sent. */
  predicate SniOutOfReach(sni: (nat, nat), second: Option<Token>, remaining: nat) {
    sni.1 >= sni.0 + 2 ==>
      || remaining < 4
      || (remaining < 8 && (sni.1 > 0x4000_0000 || (second.Some? && InToken(second.value, sni.0))))
  }

  /** Cut the run at the midpoint of its SNI, limit the halves to this packet's share, and write both. */
  method WriteSlice(run: Chunk, sni: (nat, nat), builder: PacketBuilder, ghost stream: Bytes)
    returns (first: Option<Token>, second: Option<Token>)
    requires builder.Valid() && builder.limit > 0
    requires CutFrom(run, stream) && run.offset == 0 && run.data != [] && |stream| < VARINT_LIMIT
    requires sni.0 <= sni.1 <= |run.data|
    modifies builder`bytes, builder`frames
    ensures builder.Valid() && OptInRun(first, run, stream) && OptInRun(second, run, stream)
    ensures builder.frames == old(builder.frames) + OptChunk(first, stream) + OptChunk(second, stream)
    ensures first.Some? && second.Some? ==> second.value.offset + second.value.length <= first.value.offset
    ensures builder.Remaining() <= old(builder.Remaining())
    ensures first.Some? || second.Some? ==> builder.Remaining() < old(builder.Remaining())
    ensures OptSmall(first, old(builder.Remaining())) && OptSmall(second, old(builder.Remaining()))
    ensures first.None? || second.None? ==> SniOutOfReach(sni, second, builder.Remaining())
    ensures OptSplits(first, sni) && OptSplits(second, sni)
    ensures second.None? ==> builder.Remaining() < 4
    ensures second.Some? ==> second.value.offset == 0
    ensures Mid(sni) <= Share(|run.data|, builder.limit) < |run.data| ==>
      (first.Some? ==> !InToken(first.value, Mid(sni))) && (second.Some? ==> !InToken(second.value, Mid(sni)))
  {
    var mid := Mid(sni);
    var limit := PacketShare(|run.data|, builder.limit);
    var (left, right) := LimitChunks(Chunk(0, run.data[..mid]), Chunk(mid, run.data[mid..]), limit);
    LimitChunksCuts(run.data, mid, limit);
    LimitChunksExactly(run.data, mid, limit);
    NoHalfCovers(left, right, sni);
    CutFromRun(left, run, stream);
    CutFromRun(right, run, stream);
    first, second := WriteTwo(left, right, builder, stream);
  }

  predicate SlicedWell(sni: (nat, nat), first: Option<Token>, second: Option<Token>, remaining: nat) {
    && OptSplits(first, sni) && OptSplits(second, sni)
    && (first.None? || second.None? ==> SniOutOfReach(sni, second, remaining))
  }

  /** Not even one byte of the run fits. */
  predicate Full(run: Chunk, remaining: nat) {
    run.offset < VARINT_LIMIT && |run.data| < VARINT_LIMIT && ChunkLen(run.offset, |run.data|, remaining).None?
  }

  /** The frame starts the run and carries as much of it as `write_chunk` puts into so much room. */
  predicate Fills(t: Token, run: Chunk, room: nat) {
    && run.offset < VARINT_LIMIT && |run.data| < VARINT_LIMIT && t.offset == run.offset
    && ChunkLen(run.offset, |run.data|, room) == Some(t.length)
  }

  /** The frames of one turn of the loop. */
  method WriteRun(run: Chunk, sniSlicing: bool, findSni: Bytes -> Option<(nat, nat)>, builder: PacketBuilder,
                  ghost stream: Bytes)
    returns (first: Option<Token>, second: Option<Token>)
    requires builder.Valid() && builder.limit > 0 && LocatesSni(findSni)
    requires CutFrom(run, stream) && run.data != [] && |stream| < VARINT_LIMIT
    modifies builder`bytes, builder`frames
    ensures builder.Valid() && OptInRun(first, run, stream) && OptInRun(second, run, stream)
    ensures builder.frames == old(builder.frames) + OptChunk(first, stream) + OptChunk(second, stream)
    ensures first.Some? && second.Some? ==> second.value.offset + second.value.length <= first.value.offset
    ensures builder.Remaining() <= old(builder.Remaining())
    ensures first.Some? || second.Some? ==> builder.Remaining() < old(builder.Remaining())
    ensures OptSmall(first, old(builder.Remaining())) && OptSmall(second, old(builder.Remaining()))
    ensures Sliced(sniSlicing, findSni, run) ==>
      SlicedWell(findSni(run.data).value, first, second, builder.Remaining())
    ensures !Sliced(sniSlicing, findSni, run) ==> second.None?
    ensures first.None? && second.None? ==> Full(run, builder.Remaining())
    ensures second.Some? ==> sniSlicing && second.value.offset == 0
    ensures !Sliced(sniSlicing, findSni, run) && first.Some? ==> Fills(first.value, run, old(builder.Remaining()))
  {
    if sniSlicing && run.offset == 0 {
      var sni := findSni(run.data);
      if sni.Some? {
        first, second := WriteSlice(run, sni.value, builder, stream);
        return;
      }
    }
    first := builder.WriteChunk(run);
    second := None;
    if first.Some? { PartOfChunk(run, stream, first.value.length); }
  }

  // ---- the whole loop ----

  lemma {:induction false} UnmarkedWasUntouched(state: seq<ByteState>, tokens: seq<Token>, i: nat)
    requires i < |state| && MarkAll(state, tokens)[i].Unsent?
    ensures state[i].Unsent? && forall k :: 0 <= k < |tokens| ==> !InToken(tokens[k], i)
  {
    if tokens != [] {
      var before := tokens[..|tokens| - 1];
      UnmarkedWasUntouched(state, before, i);
      assert forall k :: 0 <= k < |before| ==> tokens[k] == before[k];
    }
  }

  /** So the tokens of one call name disjoint bytes, all of them unsent at the start. */
  lemma {:induction false} TokensAreDisjoint(state: seq<ByteState>, tokens: seq<Token>, k: nat, m: nat, i: nat)
    requires Sendable(state, tokens) && k < m < |tokens| && i < |state| && InToken(tokens[m], i)
    ensures state[i].Unsent? && !InToken(tokens[k], i)
  {
    var before := tokens[..|tokens| - 1];
    if m == |before| {
      UnmarkedWasUntouched(state, before, i);
      assert before[k] == tokens[k];
    } else {
      TokensAreDisjoint(state, before, k, m, i);
    }
  }

  lemma PartUnsent(state: seq<ByteState>, run: Chunk, t: Token)
    requires AllUnsent(state, Token(run.offset, |run.data|))
    requires run.offset <= t.offset && t.offset + t.length <= run.offset + |run.data|
    ensures AllUnsent(state, t)
  {
    forall i | 0 <= i < |state| && InToken(t, i) ensures state[i].Unsent? {
      assert InToken(Token(run.offset, |run.data|), i);
    }
  }

  lemma MarkLeavesUnsent(state: seq<ByteState>, t: Token, u: Token)
    requires AllUnsent(state, u) && u.offset + u.length <= t.offset
    ensures AllUnsent(Mark(state, t), u)
  {
  }

  lemma MatchesOpt(frames: seq<Chunk>, n: nat, tokens: seq<Token>, stream: Bytes, t: Option<Token>)
    requires Matches(frames, n, tokens, stream) && (t.Some? ==> Fits(t.value, stream))
    ensures Matches(frames + OptChunk(t, stream), n, tokens + Opt(t), stream)
  {
  }

  lemma MatchesTwo(frames: seq<Chunk>, n: nat, tokens: seq<Token>, stream: Bytes,
                   first: Option<Token>, second: Option<Token>)
    requires Matches(frames, n, tokens, stream)
    requires (first.Some? ==> Fits(first.value, stream)) && (second.Some? ==> Fits(second.value, stream))
    ensures var now := frames + OptChunk(first, stream) + OptChunk(second, stream);
      Matches(now, n, tokens + Opt(first) + Opt(second), stream) && now[..n] == frames[..n]
  {
    MatchesOpt(frames, n, tokens, stream, first);
    MatchesOpt(frames + OptChunk(first, stream), n, tokens + Opt(first), stream, second);
  }

  ghost predicate AllSplit(sni: (nat, nat), tokens: seq<Token>) {
    forall k :: 0 <= k < |tokens| ==> OptSplits(Some(tokens[k]), sni)
  }

  function MarkOpt(state: seq<ByteState>, t: Option<Token>): (r: seq<ByteState>)
    ensures |r| == |state|
  {
    if t.Some? then Mark(state, t.value) else state
  }

  /** A token for bytes that were unsent, in a frame that fits. */
  predicate OptSent(t: Option<Token>, state: seq<ByteState>, room: nat) {
    OptSmall(t, room) && (t.Some? ==> AllUnsent(state, t.value))
  }

  /** Nothing more can be written, or nothing that holds the whole SNI. */
  predicate Spent(sni: (nat, nat), state: seq<ByteState>, remaining: nat) {
    sni.1 >= sni.0 + 2 ==>
      || remaining < 4
      || (remaining < 8 && (sni.1 > 0x4000_0000 || (sni.0 < |state| && !state[sni.0].Unsent?)))
  }

  /** A slice that is under way: no frame holds the whole SNI, and once it has begun none will. */
  ghost predicate SliceKept(sni: (nat, nat), tokens: seq<Token>, state: seq<ByteState>, remaining: nat) {
    AllSplit(sni, tokens) && (tokens == [] || Spent(sni, state, remaining))
  }

  /** In a packet that is spent, what can still be written is short and new. */
  lemma SpentSplits(sni: (nat, nat), state: seq<ByteState>, remaining: nat, t: Option<Token>)
    requires Spent(sni, state, remaining) && sni.1 <= |state| && OptSent(t, state, remaining)
    ensures OptSplits(t, sni)
  {
    if t.Some? && TokenCovers(t.value, sni.0, sni.1) && sni.1 >= sni.0 + 2 {
      assert InToken(t.value, sni.0);
    }
  }

  lemma SpentStays(sni: (nat, nat), state: seq<ByteState>, remaining: nat, t: Option<Token>, now: nat)
    requires Spent(sni, state, remaining) && now <= remaining
    ensures Spent(sni, MarkOpt(state, t), now)
  {
  }

  lemma AllSplitOpt(sni: (nat, nat), tokens: seq<Token>, t: Option<Token>)
    requires AllSplit(sni, tokens) && OptSplits(t, sni)
    ensures AllSplit(sni, tokens + Opt(t))
  {
  }

  lemma SliceGoesOn(sni: (nat, nat), tokens: seq<Token>, state: seq<ByteState>, remaining: nat,
                    first: Option<Token>, second: Option<Token>, now: nat)
    requires SliceKept(sni, tokens, state, remaining) && tokens != [] && sni.1 <= |state| && now <= remaining
    requires OptSent(first, state, remaining) && OptSent(second, state, remaining)
    ensures SliceKept(sni, tokens + Opt(first) + Opt(second), MarkOpt(MarkOpt(state, first), second), now)
  {
    SpentSplits(sni, state, remaining, first);
    SpentSplits(sni, state, remaining, second);
    AllSplitOpt(sni, tokens, first);
    AllSplitOpt(sni, tokens + Opt(first), second);
    SpentStays(sni, state, remaining, first, now);
    SpentStays(sni, MarkOpt(state, first), now, second, now);
  }

  /** The turn that slices: either it is complete, or the packet is spent. */
  lemma SliceBegins(sni: (nat, nat), state: seq<ByteState>, first: Option<Token>, second: Option<Token>, now: nat)
    requires sni.1 <= |state| && SlicedWell(sni, first, second, now)
    ensures AllSplit(sni, [] + Opt(first) + Opt(second))
    ensures first.None? || second.None? ==>
      SliceKept(sni, [] + Opt(first) + Opt(second), MarkOpt(MarkOpt(state, first), second), now)
  {
    AllSplitOpt(sni, [], first);
    AllSplitOpt(sni, [] + Opt(first), second);
  }

  lemma SliceTurn(sni: (nat, nat), tokens: seq<Token>, state: seq<ByteState>, remaining: nat,
                  first: Option<Token>, second: Option<Token>, now: nat)
    requires SliceKept(sni, tokens, state, remaining) && sni.1 <= |state| && now <= remaining
    requires OptSent(first, state, remaining) && OptSent(second, state, remaining)
    requires tokens == [] ==> SlicedWell(sni, first, second, now)
    ensures AllSplit(sni, tokens + Opt(first) + Opt(second))
    ensures first.None? || second.None? ==>
      SliceKept(sni, tokens + Opt(first) + Opt(second), MarkOpt(MarkOpt(state, first), second), now)
  {
    if tokens == [] {
      SliceBegins(sni, state, first, second, now);
    } else {
      SliceGoesOn(sni, tokens, state, remaining, first, second, now);
    }
  }

  /** `mark_as_sent` for what a turn wrote: note the bytes as sent and push the recovery tokens. */
  method Book(tx: TxBuffer, run: Chunk, first: Option<Token>, second: Option<Token>, tokens: seq<Token>)
    returns (tokens': seq<Token>)
    requires tx.Valid() && AllUnsent(tx.state, Token(run.offset, |run.data|)) && tokens == tx.marked
    requires OptInRun(first, run, tx.data) && OptInRun(second, run, tx.data)
    requires first.Some? && second.Some? ==> second.value.offset + second.value.length <= first.value.offset
    modifies tx`state, tx`marked
    ensures tx.Valid() && tokens' == tx.marked == tokens + Opt(first) + Opt(second)
    ensures tx.state == MarkOpt(MarkOpt(old(tx.state), first), second)
  {
    tokens' := tokens;
    if first.Some? {
      PartUnsent(tx.state, run, first.value);
      if second.Some? {
        PartUnsent(tx.state, run, second.value);
        MarkLeavesUnsent(tx.state, first.value, second.value);
      }
      tx.MarkAsSent(first.value);
      tokens' := tokens' + [first.value];
    }
    if second.Some? {
      if first.None? { PartUnsent(tx.state, run, second.value); }
      tx.MarkAsSent(second.value);
      tokens' := tokens' + [second.value];
    }
  }

  /** One turn of the loop: write from the run, mark what was written and push its tokens. */
  method Turn(tx: TxBuffer, run: Chunk, sniSlicing: bool, findSni: Bytes -> Option<(nat, nat)>, builder: PacketBuilder,
              tokens: seq<Token>, ghost n: nat)
    returns (first: Option<Token>, second: Option<Token>, tokens': seq<Token>)
    requires tx.Valid() && builder.Valid() && builder.limit > 0 && LocatesSni(findSni)
    requires CutFrom(run, tx.data) && run.data != [] && AllUnsent(tx.state, Token(run.offset, |run.data|))
    requires tokens == tx.marked && Matches(builder.frames, n, tokens, tx.data)
    modifies tx`state, tx`marked, builder`bytes, builder`frames
    ensures tx.Valid() && builder.Valid()
    ensures n <= |builder.frames| && builder.frames[..n] == old(builder.frames[..n])
    ensures tokens' == tx.marked == tokens + Opt(first) + Opt(second) && Matches(builder.frames, n, tokens', tx.data)
    ensures builder.Remaining() <= old(builder.Remaining())
    ensures first.Some? || second.Some? ==> builder.Remaining() < old(builder.Remaining())
    ensures tx.state == MarkOpt(MarkOpt(old(tx.state), first), second)
    ensures OptSent(first, old(tx.state), old(builder.Remaining()))
    ensures OptSent(second, old(tx.state), old(builder.Remaining()))
    ensures Sliced(sniSlicing, findSni, run) ==>
      SlicedWell(findSni(run.data).value, first, second, builder.Remaining())
    ensures first.None? && second.None? ==> Full(run, builder.Remaining())
    ensures second.Some? ==> sniSlicing && second.value.offset == 0
    ensures !Sliced(sniSlicing, findSni, run) && first.Some? ==> Fills(first.value, run, old(builder.Remaining()))
  {
    ghost var frames := builder.frames;
    first, second := WriteRun(run, sniSlicing, findSni, builder, tx.data);
    if first.Some? { PartUnsent(tx.state, run, first.value); }
    if second.Some? { PartUnsent(tx.state, run, second.value); }
    tokens' := Book(tx, run, first, second, tokens);
    MatchesTwo(frames, n, tokens, tx.data, first, second);
  }

  /** What the loop knows of the slice that the packet's first turn makes, if it makes one. */
  ghost predicate Slicing(sni: Option<(nat, nat)>, tokens: seq<Token>, state: seq<ByteState>, remaining: nat) {
    sni.Some? ==> sni.value.1 <= |state| && SliceKept(sni.value, tokens, state, remaining)
  }

  ghost predicate SplitIfSliced(sni: Option<(nat, nat)>, tokens: seq<Token>) {
    sni.Some? ==> AllSplit(sni.value, tokens)
  }

  /** The SNI that the first turn slices. */
  function SlicedSni(sniSlicing: bool, findSni: Bytes -> Option<(nat, nat)>, run: Option<Chunk>): Option<(nat, nat)> {
    if sniSlicing && run.Some? && run.value.offset == 0 then findSni(run.value.data) else None
  }

  /** The packet ends with the two frames of a slice, the one from the start of the stream last. */
  predicate SliceComplete(sniSlicing: bool, tokens: seq<Token>) {
    sniSlicing && |tokens| >= 2 && tokens[|tokens| - 1].offset == 0
  }

  /** The loop has done what it can: everything is sent, a slice is complete, or the next run does not fit. */
  predicate WroteAll(run: Option<Chunk>, sniSlicing: bool, tokens: seq<Token>, remaining: nat) {
    run.Some? ==> SliceComplete(sniSlicing, tokens) || Full(run.value, remaining)
  }

  /** One turn, and what it leaves of the slice. */
  method SlicingTurn(tx: TxBuffer, run: Chunk, sniSlicing: bool, findSni: Bytes -> Option<(nat, nat)>,
                     builder: PacketBuilder, tokens: seq<Token>, ghost n: nat, ghost sni: Option<(nat, nat)>)
    returns (first: Option<Token>, second: Option<Token>, tokens': seq<Token>)
    requires tx.Valid() && builder.Valid() && builder.limit > 0 && LocatesSni(findSni)
    requires CutFrom(run, tx.data) && run.data != [] && AllUnsent(tx.state, Token(run.offset, |run.data|))
    requires tokens == tx.marked && Matches(builder.frames, n, tokens, tx.data)
    requires Slicing(sni, tokens, tx.state, builder.Remaining())
    requires tokens == [] ==> sni == SlicedSni(sniSlicing, findSni, Some(run))
    modifies tx`state, tx`marked, builder`bytes, builder`frames
    ensures tx.Valid() && builder.Valid() && n <= |builder.frames| && builder.frames[..n] == old(builder.frames[..n])
    ensures tokens' == tx.marked && Matches(builder.frames, n, tokens', tx.data)
    ensures first.Some? || second.Some? ==> builder.Remaining() < old(builder.Remaining()) && tokens' != []
    ensures SplitIfSliced(sni, tokens')
    ensures first.None? || second.None? ==> Slicing(sni, tokens', tx.state, builder.Remaining())
    ensures first.None? && second.None? ==> tx.state == old(tx.state) && Full(run, builder.Remaining())
    ensures first.Some? && second.Some? ==> SliceComplete(sniSlicing, tokens')
  {
    ghost var state, room := tx.state, builder.Remaining();
    first, second, tokens' := Turn(tx, run, sniSlicing, findSni, builder, tokens, n);
    if sni.Some? { SliceTurn(sni.value, tokens, state, room, first, second, builder.Remaining()); }
  }

  /**
   * The `write_frame` loop. It terminates; frame by frame the recovery tokens name exactly the bytes of the
   * stream that the packet now carries, none of them sent before; it stops only when nothing is left to send, a
   * slice is complete or not one more byte fits; and if the first unsent run starts the stream and holds an SNI of
   * two bytes or more, no frame of this packet contains the whole of it.
   */
  method WriteFrame(tx: TxBuffer, sniSlicing: bool, findSni: Bytes -> Option<(nat, nat)>, builder: PacketBuilder)
    returns (tokens: seq<Token>)
    requires tx.Valid() && builder.Valid() && builder.limit > 0 && LocatesSni(findSni)
    modifies tx`state, tx`since, tx`marked, builder`bytes, builder`frames
    ensures tx.Valid() && builder.Valid() && tx.since == old(tx.state) && tx.marked == tokens
    ensures Matches(builder.frames, |old(builder.frames)|, tokens, tx.data)
    ensures builder.frames[..|old(builder.frames)|] == old(builder.frames)
    ensures SplitIfSliced(SlicedSni(sniSlicing, findSni, NextRun(tx.data, old(tx.state))), tokens)
    ensures WroteAll(NextRun(tx.data, tx.state), sniSlicing, tokens, builder.Remaining())
  {
    tokens := [];
    tx.since, tx.marked := tx.state, [];
    ghost var n, sni := |builder.frames|, SlicedSni(sniSlicing, findSni, NextRun(tx.data, tx.state));
    assert sni.Some? ==> RangeIn(sni, NextRun(tx.data, tx.state).value.data);
    while true
      invariant tx.Valid() && builder.Valid() && tokens == tx.marked && (tokens == [] ==> tx.state == old(tx.state))
      invariant tx.since == old(tx.state) && n <= |builder.frames| && builder.frames[..n] == old(builder.frames)
      invariant Matches(builder.frames, n, tokens, tx.data)
      invariant Slicing(sni, tokens, tx.state, builder.Remaining())
      decreases builder.Remaining()
    {
      var run := tx.NextBytes();
      if run.None? { break; }
      assert AllUnsent(tx.state, Token(run.value.offset, |run.value.data|));
      var first, second;
      first, second, tokens := SlicingTurn(tx, run.value, sniSlicing, findSni, builder, tokens, n, sni);
      if first.Some? == second.Some? { break; }  // nothing fits any more, or a slice is complete
    }
  }
}
