/** HTTP/2 frames on the wire (section 4.1 of RFC 9113): `_frame` and the frame loop of the reader. */
module H2Frames {
  import opened Prelude
  import opened Wire

  const DATA := 0
  const HEADERS := 1
  const RST_STREAM := 3
  const SETTINGS := 4
  const PING := 6
  const GOAWAY := 7
  const WINDOW_UPDATE := 8
  const CONTINUATION := 9

  const END_STREAM := 0x1
  const ACK := 0x1
  const END_HEADERS := 0x4
  const PRIORITY := 0x20

  predicate EndStream(flags: Byte) { flags % 2 == 1 }
  predicate IsAck(flags: Byte) { flags % 2 == 1 }
  predicate EndHeaders(flags: Byte) { flags / 4 % 2 == 1 }

  datatype Frame = Frame(kind: Byte, flags: Byte, sid: nat, payload: Bytes)

  /** The three low-order bytes of the length, the type, the flags, the identifier and the payload. */
  function Encode(f: Frame): (b: Bytes)
    ensures |b| == 9 + |f.payload|
  {
    BigEndian(|f.payload|, 3) + [f.kind, f.flags] + BigEndian(f.sid, 4) + f.payload
  }

  /** The next frame and what follows it; None when the input ends before the frame does. */
  function Next(s: Bytes): (r: Option<(Frame, Bytes)>)
    ensures r.Some? ==> |r.value.1| < |s|
  {
    if |s| < 9 then None
    else
      var n := FromBigEndian(s[..3]);
      if |s| < 9 + n then None
      else Some((Frame(s[3], s[4], FromBigEndian(s[5..9]) % 0x8000_0000, s[9..9 + n]), s[9 + n..]))
  }

  /** The frames a reader dispatches: the maximal prefix of whole frames. */
  function Frames(s: Bytes): seq<Frame>
    decreases |s|
  {
    match Next(s)
    case None => []
    case Some((f, rest)) => [f] + Frames(rest)
  }

  function EncodeAll(fs: seq<Frame>): Bytes {
    if fs == [] then [] else Encode(fs[0]) + EncodeAll(fs[1..])
  }

  /** Lengths and identifiers that fit their fields. */
  predicate Fits(f: Frame) { |f.payload| < 0x100_0000 && f.sid < 0x8000_0000 }

  lemma Pow256Values()
    ensures Pow256(3) == 0x100_0000 && Pow256(4) == 0x1_0000_0000
  {
    assert Pow256(1) == 0x100 && Pow256(2) == 0x1_0000;
  }

  lemma {:induction false} BigEndianWraps(v: nat, n: nat)
    ensures FromBigEndian(BigEndian(v, n)) == v % Pow256(n)
  {
    if n > 0 {
      BigEndianWraps(v / 256, n - 1);
      assert BigEndian(v, n)[..n - 1] == BigEndian(v / 256, n - 1);
      WrapStep(v, Pow256(n - 1));
    }
  }

  lemma WrapStep(v: nat, p: nat)
    requires p > 0
    ensures 256 * (v / 256 % p) + v % 256 == v % (256 * p)
  {
    var q, r := v / 256 / p, v / 256 % p;
    assert v / 256 == q * p + r;
    assert v == (256 * p) * q + (256 * r + v % 256);
    assert 256 * r + v % 256 < 256 * p;
    ModUnique(v, 256 * p, q, 256 * r + v % 256);
  }

  lemma ModUnique(v: nat, m: nat, q: nat, r: nat)
    requires m > 0 && r < m && v == m * q + r
    ensures v % m == r
  {
    var d := q - v / m;
    assert m * d == m * q - m * (v / m) == v % m - r;
    SmallMultiple(m, d);
  }

  lemma SmallMultiple(m: int, d: int)
    requires -m < m * d && m * d < m
    ensures d == 0
  {
    AtLeastOnce(m, d);
    AtLeastOnce(m, -d);
    assert m * -d == -(m * d);
  }

  lemma {:induction false} AtLeastOnce(m: int, d: int)
    requires m >= 0
    ensures d > 0 ==> m * d >= m
    decreases d
  {
    if d > 1 {
      AtLeastOnce(m, d - 1);
      assert m * d == m * (d - 1) + m;
    }
  }

  lemma Fields(f: Frame, rest: Bytes)
    ensures var s := Encode(f) + rest;
      && s[..3] == BigEndian(|f.payload|, 3) && s[3] == f.kind && s[4] == f.flags
      && s[5..9] == BigEndian(f.sid, 4) && s[9..] == f.payload + rest
  {
  }

  lemma RoundTrip(f: Frame, rest: Bytes)
    requires Fits(f)
    ensures Next(Encode(f) + rest) == Some((f, rest))
  {
    Pow256Values();
    BigEndianRoundTrip(|f.payload|, 3);
    BigEndianRoundTrip(f.sid, 4);
    Fields(f, rest);
    var s, n := Encode(f) + rest, |f.payload|;
    assert s[9..9 + n] == s[9..][..n] == f.payload;
    assert s[9 + n..] == s[9..][n..] == rest;
  }

  /** Reading inverts writing exactly for frames whose length and identifier fit their fields. */
  lemma RoundTripIffFits(f: Frame)
    requires f.sid < 0x1_0000_0000
    ensures Fits(f) <==> Next(Encode(f)) == Some((f, []))
  {
    assert Encode(f) + [] == Encode(f);
    if Fits(f) {
      RoundTrip(f, []);
    } else {
      Pow256Values();
      BigEndianWraps(|f.payload|, 3);
      Fields(f, []);
    }
  }

  /** Whole frames followed by part of another: exactly the whole ones are read. */
  lemma {:induction false} WholeFramesAreRead(fs: seq<Frame>, part: Bytes)
    requires (forall k :: 0 <= k < |fs| ==> Fits(fs[k])) && Next(part).None?
    ensures Frames(EncodeAll(fs) + part) == fs
    decreases |fs|
  {
    if fs == [] {
      assert EncodeAll(fs) + part == part;
    } else {
      assert EncodeAll(fs) + part == Encode(fs[0]) + (EncodeAll(fs[1..]) + part);
      RoundTrip(fs[0], EncodeAll(fs[1..]) + part);
      WholeFramesAreRead(fs[1..], part);
    }
  }

  lemma {:induction false} FromBigEndianBound(b: Bytes)
    ensures FromBigEndian(b) < Pow256(|b|)
  {
    if b != [] { FromBigEndianBound(b[..|b| - 1]); }
  }

  /** Whatever arrives, every frame read has a length and an identifier within their fields. */
  lemma {:induction false} ReadFramesFit(s: Bytes)
    ensures forall k :: 0 <= k < |Frames(s)| ==> Fits(Frames(s)[k])
    decreases |s|
  {
    if Next(s).Some? {
      Pow256Values();
      FromBigEndianBound(s[..3]);
      ReadFramesFit(Next(s).value.1);
    }
  }

  /** A proper prefix of a frame is not yet a frame. */
  lemma PartIsNoFrame(f: Frame, n: nat)
    requires Fits(f) && n < |Encode(f)|
    ensures Next(Encode(f)[..n]).None?
  {
    if n >= 9 {
      Pow256Values();
      BigEndianRoundTrip(|f.payload|, 3);
      assert Encode(f)[..n][..3] == BigEndian(|f.payload|, 3);
    }
  }

  /** One frame of the reader loop; None where the loop breaks: at the end, or at a time-out once reads are stopped. */
  method ReadFrame(tp: Transport) returns (frame: Option<Frame>)
    modifies tp`pending, tp`cuts, tp`peerEof
    ensures frame.Some? ==> Next(old(tp.pending)) == Some((frame.value, tp.pending))
    ensures !tp.stop ==> (frame.None? <==> Next(old(tp.pending)).None?)
  {
    ghost var s := tp.pending;
    var hdr := tp.RecvN(9);
    if |hdr| < 9 { return None; }
    assert hdr == s[..9] && hdr[..3] == s[..3] && hdr[5..9] == s[5..9];
    var length := FromBigEndian(hdr[..3]);
    var sid := FromBigEndian(hdr[5..9]) % 0x8000_0000;
    var payload: Bytes := [];
    if length > 0 {
      payload := tp.RecvN(length);
      if |payload| < length { return None; }
    }
    assert payload == s[9..9 + length] && tp.pending == s[9 + length..];
    return Some(Frame(hdr[3], hdr[4], sid, payload));
  }

  /** The frame loop of the reader thread, over any fragmentation and any time-outs, stopped or not. */
  method ReadFrames(tp: Transport) returns (frames: seq<Frame>)
    modifies tp`pending, tp`cuts, tp`peerEof
    ensures frames <= Frames(old(tp.pending))
    ensures !tp.stop ==> frames == Frames(old(tp.pending))
  {
    frames := [];
    ghost var all := tp.pending;
    while true
      invariant Frames(all) == frames + Frames(tp.pending)
      decreases |tp.pending|
    {
      var frame := ReadFrame(tp);
      if frame.None? { break; }
      frames := frames + [frame.value];
    }
  }
}
