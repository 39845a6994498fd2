/** The HTTP/1.1 buffered reader and chunked transfer decoding (section 7.1 of RFC 9112). */
module Http1 {
  import opened Prelude
  import opened Wire

  const CR := 13
  const LF := 10
  const CRLF: Bytes := [13, 10]
  const SEMICOLON := 0x3b

  // ---- lines ----

  predicate BreakAt(s: Bytes, i: nat) { i + 1 < |s| && s[i] == CR && s[i + 1] == LF }

  /** The index of the first line break at or after i, or the length. */
  function FindBreak(s: Bytes, i: nat): (r: nat)
    requires i <= |s|
    ensures i <= r <= |s|
    ensures r < |s| ==> BreakAt(s, r)
    ensures forall k: nat :: i <= k < r ==> !BreakAt(s, k)
    decreases |s| - i
  {
    if i == |s| || BreakAt(s, i) then i else FindBreak(s, i + 1)
  }

  /** A line and what follows it; without a line break, everything is the line. */
  function Line(s: Bytes): (r: (Bytes, Bytes))
    ensures s != [] ==> |r.1| < |s|
    ensures s == [] ==> r == ([], [])
  {
    var i := FindBreak(s, 0);
    if i < |s| then (s[..i], s[i + 2..]) else (s, [])
  }

  predicate Unbroken(line: Bytes) { forall i: nat :: i < |line| ==> !BreakAt(line, i) }

  lemma FirstBreak(s: Bytes, i: nat)
    requires BreakAt(s, i) && forall k: nat :: k < i ==> !BreakAt(s, k)
    ensures FindBreak(s, 0) == i
  {
  }

  lemma LineOf(line: Bytes, rest: Bytes)
    requires Unbroken(line)
    ensures Line(line + CRLF + rest) == (line, rest)
  {
    var s := line + CRLF + rest;
    assert BreakAt(s, |line|);
    forall k: nat | k < |line| ensures !BreakAt(s, k) {
      assert !BreakAt(line, k) && s[k] == line[k] && s[k + 1] == if k + 1 < |line| then line[k + 1] else CR;
    }
    FirstBreak(s, |line|);
    assert s[..|line|] == line && s[|line| + 2..] == rest;
  }

  // ---- chunk sizes ----

  function HexDigit(c: int): Option<nat> {
    if 0x30 <= c <= 0x39 then Some(c - 0x30)
    else if 0x61 <= c <= 0x66 then Some(c - 0x61 + 10)
    else if 0x41 <= c <= 0x46 then Some(c - 0x41 + 10)
    else None
  }

  function FromHex(s: Bytes): Option<nat> {
    if s == [] then Some(0)
    else
      match (FromHex(s[..|s| - 1]), HexDigit(s[|s| - 1]))
      case (Some(v), Some(d)) => Some(16 * v + d)
      case _ => None
  }

  predicate Space(c: int) { c == 0x20 || 9 <= c <= 13 }

  function StripLeft(s: Bytes): Bytes {
    if s != [] && Space(s[0]) then StripLeft(s[1..]) else s
  }

  function StripRight(s: Bytes): Bytes {
    if s != [] && Space(s[|s| - 1]) then StripRight(s[..|s| - 1]) else s
  }

  function Strip(s: Bytes): Bytes { StripRight(StripLeft(s)) }

  /** The part before the first semicolon. */
  function BeforeSemicolon(s: Bytes): Bytes {
    if s == [] || s[0] == SEMICOLON then [] else [s[0]] + BeforeSemicolon(s[1..])
  }

  /** The size a chunk line announces: an empty size counts as zero, a malformed one is an error. */
  function ChunkSize(line: Bytes): Option<nat> {
    FromHex(Strip(BeforeSemicolon(line)))
  }

  // ---- the chunked body ----

  function SkipTrailers(s: Bytes): Bytes
    decreases |s|
  {
    var (line, rest) := Line(s);
    if line == [] then rest else SkipTrailers(rest)
  }

  /** What is left after a line: the rest if the line was blank. */
  function SkipRest(line: Bytes, rest: Bytes): Bytes { if line == [] then rest else SkipTrailers(rest) }

  lemma SkipLine(s: Bytes)
    ensures SkipTrailers(s) == SkipRest(Line(s).0, Line(s).1)
  {
  }

  /** The body and what follows it; None if a chunk size is malformed. */
  function DecodeChunked(s: Bytes): Option<(Bytes, Bytes)>
    decreases |s|
  {
    var (line, rest) := Line(s);
    match ChunkSize(line)
    case None => None
    case Some(n) =>
      if n == 0 then Some(([], SkipTrailers(rest)))
      else
        match DecodeChunked(Drop(Drop(rest, n), 2))
        case None => None
        case Some((body, after)) => Some((Take(rest, n) + body, after))
  }

  // ---- the sender's side ----

  /** A chunk as sent: its size in hexadecimal, possibly padded, an optional extension, and its data. */
  datatype Chunk = Chunk(size: Bytes, extension: Bytes, data: Bytes)

  predicate ChunkOk(c: Chunk) {
    && c.data != []
    && Unbroken(c.size + c.extension)
    && (forall i :: 0 <= i < |c.size| ==> c.size[i] != SEMICOLON)
    && (c.extension != [] ==> c.extension[0] == SEMICOLON)
    && FromHex(Strip(c.size)) == Some(|c.data|)
  }

  function EncodeChunk(c: Chunk): Bytes { c.size + c.extension + CRLF + c.data + CRLF }

  function EncodeTrailers(lines: seq<Bytes>): Bytes {
    if lines == [] then CRLF else lines[0] + CRLF + EncodeTrailers(lines[1..])
  }

  /** Chunks, then the last chunk of size zero, then trailer lines and a blank line. */
  function EncodeChunked(chunks: seq<Chunk>, trailers: seq<Bytes>): Bytes {
    if chunks == [] then [0x30] + CRLF + EncodeTrailers(trailers)
    else EncodeChunk(chunks[0]) + EncodeChunked(chunks[1..], trailers)
  }

  predicate TrailersOk(lines: seq<Bytes>) {
    forall k :: 0 <= k < |lines| ==> lines[k] != [] && Unbroken(lines[k])
  }

  function Payload(chunks: seq<Chunk>): Bytes {
    if chunks == [] then [] else chunks[0].data + Payload(chunks[1..])
  }

  lemma {:induction false} TrailersSkipped(lines: seq<Bytes>, rest: Bytes)
    requires TrailersOk(lines)
    ensures SkipTrailers(EncodeTrailers(lines) + rest) == rest
    decreases |lines|
  {
    var s := EncodeTrailers(lines) + rest;
    if lines == [] {
      assert s == [] + CRLF + rest;
      LineOf([], rest);
    } else {
      assert s == lines[0] + CRLF + (EncodeTrailers(lines[1..]) + rest);
      LineOf(lines[0], EncodeTrailers(lines[1..]) + rest);
      TrailersSkipped(lines[1..], rest);
    }
  }

  lemma {:induction false} SizeBeforeExtension(size: Bytes, extension: Bytes)
    requires forall i :: 0 <= i < |size| ==> size[i] != SEMICOLON
    requires extension != [] ==> extension[0] == SEMICOLON
    ensures BeforeSemicolon(size + extension) == size
  {
    if size == [] {
      assert size + extension == extension;
    } else {
      assert (size + extension)[1..] == size[1..] + extension;
      SizeBeforeExtension(size[1..], extension);
    }
  }

  lemma LastChunkSize()
    ensures ChunkSize([0x30]) == Some(0)
  {
    assert BeforeSemicolon([0x30]) == [0x30] by { assert [0x30 as Byte][1..] == []; }
    assert FromHex([0x30]) == Some(0) by { assert [0x30 as Byte][..0] == []; }
  }

  /** Chunked decoding inverts chunked encoding, whatever the cuts, extensions, padding and trailers. */
  lemma {:induction false} ChunkedRoundTrip(chunks: seq<Chunk>, trailers: seq<Bytes>, rest: Bytes)
    requires (forall k :: 0 <= k < |chunks| ==> ChunkOk(chunks[k])) && TrailersOk(trailers)
    ensures DecodeChunked(EncodeChunked(chunks, trailers) + rest) == Some((Payload(chunks), rest))
    decreases |chunks|
  {
    var s := EncodeChunked(chunks, trailers) + rest;
    if chunks == [] {
      assert s == [0x30] + CRLF + (EncodeTrailers(trailers) + rest);
      LineOf([0x30], EncodeTrailers(trailers) + rest);
      LastChunkSize();
      TrailersSkipped(trailers, rest);
    } else {
      var c, more := chunks[0], EncodeChunked(chunks[1..], trailers) + rest;
      assert s == c.size + c.extension + CRLF + (c.data + CRLF + more);
      ChunkedRoundTrip(chunks[1..], trailers, rest);
      DataThen(c, more, Payload(chunks[1..]), rest);
    }
  }

  // ---- a sender in plain bytes ----

  function DigitOf(d: nat, upper: bool): Byte
    requires d < 16
  {
    if d < 10 then 0x30 + d else if upper then 0x41 + d - 10 else 0x61 + d - 10
  }

  function Hex(n: nat, upper: bool): Bytes {
    if n < 16 then [DigitOf(n, upper)] else Hex(n / 16, upper) + [DigitOf(n % 16, upper)]
  }

  /** A hexadecimal digit: neither a space, nor part of a line break, nor a semicolon. */
  predicate Plain(c: int) { 0x30 <= c <= 0x39 || 0x41 <= c <= 0x46 || 0x61 <= c <= 0x66 }

  lemma {:induction false} HexRoundTrip(n: nat, upper: bool)
    ensures Hex(n, upper) != [] && FromHex(Hex(n, upper)) == Some(n)
    ensures forall i :: 0 <= i < |Hex(n, upper)| ==> Plain(Hex(n, upper)[i])
  {
    var h := Hex(n, upper);
    if n < 16 {
      assert h[..0] == [] && FromHex([]) == Some(0);
    } else {
      HexRoundTrip(n / 16, upper);
      assert h[..|h| - 1] == Hex(n / 16, upper);
    }
  }

  /** A size is read exactly when every byte of it is a hexadecimal digit; any other stops the body. */
  lemma {:induction false} DigitsExactly(s: Bytes)
    ensures FromHex(s).Some? <==> forall i :: 0 <= i < |s| ==> Plain(s[i])
  {
    if s != [] {
      var front := s[..|s| - 1];
      DigitsExactly(front);
      assert forall i :: 0 <= i < |front| ==> front[i] == s[i];
    }
  }

  /** What a sender may write of one chunk: its data, spaces around the size, the case of its digits, an extension. */
  datatype Piece = Piece(data: Bytes, before: nat, after: nat, upper: bool, note: Option<Bytes>)

  function Blanks(n: nat): Bytes { seq(n, _ => 0x20) }

  function SizeField(p: Piece): Bytes { Blanks(p.before) + Hex(|p.data|, p.upper) + Blanks(p.after) }

  function NoteField(p: Piece): Bytes { if p.note.None? then [] else [0x3b] + p.note.value }

  /** The bytes of a chunked body, with 13 and 10 for the line breaks and 0x3b before an extension. */
  function Written(pieces: seq<Piece>): Bytes {
    if pieces == [] then [0x30, 13, 10, 13, 10]
    else
      SizeField(pieces[0]) + NoteField(pieces[0]) + [13, 10] + pieces[0].data + [13, 10] + Written(pieces[1..])
  }

  predicate Sendable(p: Piece) {
    p.data != [] && (p.note.Some? ==> forall i :: 0 <= i < |p.note.value| ==> p.note.value[i] != 13)
  }

  lemma {:induction false} BlanksStripped(before: nat, s: Bytes, after: nat)
    requires s != [] && Plain(s[0]) && Plain(s[|s| - 1])
    ensures StripLeft(Blanks(before) + s + Blanks(after)) == s + Blanks(after)
    ensures StripRight(s + Blanks(after)) == s
  {
    BlanksLeft(before, s + Blanks(after));
    assert Blanks(before) + s + Blanks(after) == Blanks(before) + (s + Blanks(after));
    BlanksRight(s, after);
  }

  lemma {:induction false} BlanksLeft(n: nat, s: Bytes)
    requires s != [] && Plain(s[0])
    ensures StripLeft(Blanks(n) + s) == s
  {
    var t := Blanks(n) + s;
    if n == 0 {
      assert t == s;
    } else {
      assert t[1..] == Blanks(n - 1) + s && t[0] == 0x20;
      BlanksLeft(n - 1, s);
    }
  }

  lemma {:induction false} BlanksRight(s: Bytes, n: nat)
    requires s != [] && Plain(s[|s| - 1])
    ensures StripRight(s + Blanks(n)) == s
  {
    var t := s + Blanks(n);
    if n == 0 {
      assert t == s;
    } else {
      assert t[..|t| - 1] == s + Blanks(n - 1) && t[|t| - 1] == 0x20;
      BlanksRight(s, n - 1);
    }
  }

  function AsChunk(p: Piece): Chunk { Chunk(SizeField(p), NoteField(p), p.data) }

  lemma PieceIsOk(p: Piece)
    requires Sendable(p)
    ensures ChunkOk(AsChunk(p))
  {
    var h := Hex(|p.data|, p.upper);
    HexRoundTrip(|p.data|, p.upper);
    BlanksStripped(p.before, h, p.after);
    var size, note := SizeField(p), NoteField(p);
    forall i | 0 <= i < |size| ensures size[i] != 13 && size[i] != 0x3b {
      if p.before <= i < p.before + |h| { assert size[i] == h[i - p.before]; } else { assert size[i] == 0x20; }
    }
    forall i | 0 <= i < |note| ensures note[i] != 13 {
      if i > 0 { assert note[i] == p.note.value[i - 1]; }
    }
    NoReturn(size + note);
  }

  lemma NoReturn(line: Bytes)
    requires forall i :: 0 <= i < |line| ==> line[i] != 13
    ensures Unbroken(line)
  {
  }

  function Data(pieces: seq<Piece>): Bytes { if pieces == [] then [] else pieces[0].data + Data(pieces[1..]) }

  lemma FirstWritten(size: Bytes, note: Bytes, data: Bytes, more: Bytes, rest: Bytes)
    ensures size + note + [13, 10] + data + [13, 10] + more + rest
      == size + note + CRLF + (data + CRLF + (more + rest))
  {
  }

  lemma NoneWritten(rest: Bytes)
    ensures DecodeChunked([0x30, 13, 10, 13, 10] + rest) == Some(([], rest))
  {
    assert EncodeTrailers([]) == CRLF;
    assert [0x30, 13, 10, 13, 10] == EncodeChunked([], []);
    ChunkedRoundTrip([], [], rest);
  }

  /** Whatever a sender writes in this way is read back, and what follows it is left. */
  lemma {:induction false} WrittenIsRead(pieces: seq<Piece>, rest: Bytes)
    requires forall k :: 0 <= k < |pieces| ==> Sendable(pieces[k])
    ensures DecodeChunked(Written(pieces) + rest) == Some((Data(pieces), rest))
    decreases |pieces|
  {
    if pieces == [] {
      NoneWritten(rest);
    } else {
      var p, more := pieces[0], Written(pieces[1..]) + rest;
      PieceIsOk(p);
      WrittenIsRead(pieces[1..], rest);
      DataThen(AsChunk(p), more, Data(pieces[1..]), rest);
      FirstWritten(SizeField(p), NoteField(p), p.data, Written(pieces[1..]), rest);
    }
  }

  // ---- cut short ----

  /** Put bytes before a decoded body. */
  function Before(out: Bytes, r: Option<(Bytes, Bytes)>): Option<(Bytes, Bytes)> {
    if r.None? then None else Some((out + r.value.0, r.value.1))
  }

  lemma NothingBefore(r: Option<(Bytes, Bytes)>)
    ensures Before([], r) == r
  {
    if r.Some? { assert [] + r.value.0 == r.value.0; }
  }

  lemma BeforeBefore(a: Bytes, b: Bytes, r: Option<(Bytes, Bytes)>)
    ensures Before(a, Before(b, r)) == Before(a + b, r)
  {
    if r.Some? { assert a + (b + r.value.0) == (a + b) + r.value.0; }
  }

  /** A line that has not come to its break yet. */
  lemma NoBreakYet(line: Bytes, n: nat)
    requires Unbroken(line) && n <= |line| + 1
    ensures var s := (line + CRLF)[..n]; Line(s) == (s, [])
  {
    var s := (line + CRLF)[..n];
    forall k: nat | k < |s| ensures !BreakAt(s, k) {
      if k + 1 < |line| { assert !BreakAt(line, k) && s[k] == line[k]; }
    }
  }

  lemma NothingDecodes()
    ensures SkipTrailers([]) == [] && ChunkSize([]) == Some(0) && DecodeChunked([]) == Some(([], []))
  {
  }

  lemma {:induction false} TrailersCut(lines: seq<Bytes>, n: nat)
    requires TrailersOk(lines) && n <= |EncodeTrailers(lines)|
    ensures SkipTrailers(EncodeTrailers(lines)[..n]) == []
    decreases |lines|
  {
    var s, line := EncodeTrailers(lines)[..n], if lines == [] then [] else lines[0];
    NothingDecodes();
    if n <= |line| + 1 {
      assert s == (line + CRLF)[..n];
      NoBreakYet(line, n);
    } else if lines == [] {
      assert s == [] + CRLF + [];
      LineOf([], []);
    } else {
      var rest := EncodeTrailers(lines[1..])[..n - |line| - 2];
      assert s == line + CRLF + rest;
      LineOf(line, rest);
      TrailersCut(lines[1..], n - |line| - 2);
    }
  }

  lemma {:induction false} StripLeftLast(s: Bytes, x: Byte)
    ensures StripLeft(s + [x]) == if StripLeft(s) == [] then StripLeft([x]) else StripLeft(s) + [x]
  {
    if s == [] {
      assert s + [x] == [x];
    } else {
      assert (s + [x])[1..] == s[1..] + [x] && (s + [x])[0] == s[0];
      StripLeftLast(s[1..], x);
    }
  }

  lemma StripRightLast(s: Bytes, x: Byte)
    ensures StripRight(s + [x]) == if Space(x) then StripRight(s) else s + [x]
  {
    assert (s + [x])[..|s + [x]| - 1] == s;
  }

  /** Hexadecimal digits hold no space to strip. */
  lemma DigitsStay(s: Bytes)
    requires FromHex(s).Some?
    ensures StripRight(s) == s
  {
  }

  /** A size is still a size without its last byte, and with a carriage return after it. */
  lemma SizeShrinks(s: Bytes, x: Byte)
    requires FromHex(Strip(s + [x])).Some?
    ensures FromHex(Strip(s)).Some?
  {
    StripLeftLast(s, x);
    if StripLeft(s) != [] {
      StripRightLast(StripLeft(s), x);
      if !Space(x) {
        var t := StripLeft(s) + [x];
        assert t[..|t| - 1] == StripLeft(s);
        DigitsStay(StripLeft(s));
      }
    }
  }

  lemma SizeThenReturn(s: Bytes)
    requires FromHex(Strip(s)).Some?
    ensures FromHex(Strip(s + [CR as Byte])).Some?
  {
    StripLeftLast(s, CR as Byte);
    StripRightLast(StripLeft(s), CR as Byte);
    assert StripLeft([CR as Byte]) == StripLeft([]);
  }

  lemma {:induction false} PrefixOfSize(s: Bytes, n: nat)
    requires FromHex(Strip(s)).Some? && n <= |s|
    ensures FromHex(Strip(s[..n])).Some?
    decreases |s|
  {
    if n == |s| {
      assert s[..n] == s;
    } else {
      var front := s[..|s| - 1];
      assert s == front + [s[|s| - 1]] && front[..n] == s[..n];
      SizeShrinks(front, s[|s| - 1]);
      PrefixOfSize(front, n);
    }
  }

  /** Part of a size line announces some size: the digits so far. */
  lemma PartOfSizeLine(c: Chunk, n: nat)
    requires ChunkOk(c) && n <= |c.size + c.extension| + 1
    ensures ChunkSize((c.size + c.extension + CRLF)[..n]).Some?
  {
    var s := (c.size + c.extension + CRLF)[..n];
    if n <= |c.size| {
      assert s == c.size[..n] + [];
      SizeBeforeExtension(c.size[..n], []);
      PrefixOfSize(c.size, n);
    } else if c.extension == [] {
      assert s == (c.size + [CR as Byte]) + [];
      SizeBeforeExtension(c.size + [CR as Byte], []);
      SizeThenReturn(c.size);
    } else {
      var tail := s[|c.size|..];
      assert s == c.size + tail && tail[0] == c.extension[0];
      SizeBeforeExtension(c.size, tail);
    }
  }

  lemma DecodeLine(line: Bytes, t: Bytes, n: nat, body: Bytes, after: Bytes)
    requires Unbroken(line) && ChunkSize(line) == Some(n) && n > 0
    requires DecodeChunked(Drop(Drop(t, n), 2)) == Some((body, after))
    ensures DecodeChunked(line + CRLF + t) == Some((Take(t, n) + body, after))
  {
    LineOf(line, t);
  }

  lemma PartOfData(data: Bytes, t: Bytes)
    requires t <= data + CRLF
    ensures Take(t, |data|) == Take(data, |t|) && Drop(Drop(t, |data|), 2) == []
    ensures Take(t, |data|) + [] == Take(t, |data|)
  {
  }

  /** A chunk broken off somewhere after its size line. */
  lemma DataOnly(c: Chunk, t: Bytes)
    requires ChunkOk(c) && t <= c.data + CRLF
    ensures DecodeChunked(c.size + c.extension + CRLF + t) == Some((Take(c.data, |t|), []))
  {
    SizeBeforeExtension(c.size, c.extension);
    NothingDecodes();
    PartOfData(c.data, t);
    DecodeLine(c.size + c.extension, t, |c.data|, [], []);
  }

  /** A whole chunk, and what becomes of the rest. */
  lemma DataThen(c: Chunk, rest: Bytes, body: Bytes, after: Bytes)
    requires ChunkOk(c) && DecodeChunked(rest) == Some((body, after))
    ensures DecodeChunked(c.size + c.extension + CRLF + (c.data + CRLF + rest)) == Some((c.data + body, after))
  {
    var t := c.data + CRLF + rest;
    SizeBeforeExtension(c.size, c.extension);
    assert Take(t, |c.data|) == c.data;
    assert Drop(t, |c.data|) == CRLF + rest;
    assert Drop(CRLF + rest, 2) == rest;
    DecodeLine(c.size + c.extension, t, |c.data|, body, after);
  }

  /** Where the data of the last chunk ends. */
  function DataEnd(chunks: seq<Chunk>): nat {
    if chunks == [] then 0
    else if |chunks| == 1 then |EncodeChunk(chunks[0])| - 2
    else |EncodeChunk(chunks[0])| + DataEnd(chunks[1..])
  }

  /** The data that lies in the first n bytes of the encoding. */
  function Survives(chunks: seq<Chunk>, n: nat): Bytes {
    if chunks == [] then []
    else
      var c := chunks[0];
      var head := |c.size| + |c.extension| + 2;
      if n <= head then []
      else if n <= |EncodeChunk(c)| then Take(c.data, n - head)
      else c.data + Survives(chunks[1..], n - |EncodeChunk(c)|)
  }

  lemma CutInLastChunk(trailers: seq<Bytes>, n: nat)
    requires TrailersOk(trailers) && n <= |EncodeChunked([], trailers)|
    ensures DecodeChunked(EncodeChunked([], trailers)[..n]) == Some(([], []))
  {
    var s := EncodeChunked([], trailers)[..n];
    NothingDecodes();
    LastChunkSize();
    if n <= 2 {
      assert s == ([0x30] + CRLF)[..n];
      NoBreakYet([0x30], n);
      if n == 1 { assert s == [0x30]; }
      if n == 2 {
        assert s == [0x30] + [CR as Byte] && s + [] == s;
        SizeBeforeExtension(s, []);
        StripLeftLast([0x30], CR as Byte);
        StripRightLast([0x30], CR as Byte);
        assert FromHex([0x30]) == Some(0) by { assert [0x30 as Byte][..0] == []; }
      }
    } else {
      var rest := EncodeTrailers(trailers)[..n - 3];
      assert s == [0x30] + CRLF + rest;
      LineOf([0x30], rest);
      TrailersCut(trailers, n - 3);
    }
  }

  /** A last line without a break announces a size of which nothing follows. */
  lemma LineOnly(s: Bytes)
    requires Line(s) == (s, []) && ChunkSize(s).Some?
    ensures DecodeChunked(s) == Some(([], []))
  {
    NothingDecodes();
    var size := ChunkSize(s).value;
    assert Take([], size) == [] && Drop(Drop([], size), 2) == [];
  }

  /** The three places for a cut: in the size line, in the data and its line break, or after the chunk. */
  lemma CutShape(c: Chunk, more: Bytes, n: nat)
    requires n <= |EncodeChunk(c) + more|
    ensures var s, line, whole := (EncodeChunk(c) + more)[..n], c.size + c.extension, |EncodeChunk(c)|;
      && (n <= |line| + 1 ==> s == (line + CRLF)[..n])
      && (|line| + 2 <= n <= whole ==> s == line + CRLF + (c.data + CRLF)[..n - |line| - 2])
      && (n > whole ==> s == line + CRLF + (c.data + CRLF + more[..n - whole]))
  {
  }

  lemma CutInSizeLine(c: Chunk, n: nat)
    requires ChunkOk(c) && n <= |c.size + c.extension| + 1
    ensures DecodeChunked((c.size + c.extension + CRLF)[..n]) == Some(([], []))
  {
    NoBreakYet(c.size + c.extension, n);
    PartOfSizeLine(c, n);
    LineOnly((c.size + c.extension + CRLF)[..n]);
  }

  lemma {:induction false} SurvivalIsExact(chunks: seq<Chunk>, n: nat)
    requires forall k :: 0 <= k < |chunks| ==> ChunkOk(chunks[k])
    ensures Survives(chunks, n) <= Payload(chunks)
    ensures Survives(chunks, n) == Payload(chunks) <==> n >= DataEnd(chunks)
    decreases |chunks|
  {
    if chunks != [] {
      var c, rest := chunks[0], chunks[1..];
      assert |Payload(chunks)| == |c.data| + |Payload(rest)|;
      assert rest != [] ==> |Payload(rest)| >= |rest[0].data| > 0;
      if n > |EncodeChunk(c)| { SurvivalIsExact(rest, n - |EncodeChunk(c)|); }
    }
  }

  /** How the surviving data goes on after the first chunk. */
  lemma SurvivesFirst(c: Chunk, rest: seq<Chunk>, n: nat)
    ensures Survives([c] + rest, n) ==
      if n <= |c.size + c.extension| + 2 then []
      else if n <= |EncodeChunk(c)| then Take(c.data, n - |c.size + c.extension| - 2)
      else c.data + Survives(rest, n - |EncodeChunk(c)|)
  {
    assert ([c] + rest)[1..] == rest;
  }

  lemma CutFirst(c: Chunk, rest: seq<Chunk>, more: Bytes, n: nat)
    requires ChunkOk(c) && n <= |EncodeChunk(c) + more|
    requires n > |EncodeChunk(c)| ==>
      DecodeChunked(more[..n - |EncodeChunk(c)|]) == Some((Survives(rest, n - |EncodeChunk(c)|), []))
    ensures DecodeChunked((EncodeChunk(c) + more)[..n]) == Some((Survives([c] + rest, n), []))
  {
    var whole := |EncodeChunk(c)|;
    SurvivesFirst(c, rest, n);
    CutShape(c, more, n);
    if n < |c.size + c.extension| + 2 {
      CutInSizeLine(c, n);
    } else if n <= whole {
      DataOnly(c, (c.data + CRLF)[..n - |c.size + c.extension| - 2]);
    } else {
      DataThen(c, more[..n - whole], Survives(rest, n - whole), []);
    }
  }

  lemma {:induction false} CutDecodes(chunks: seq<Chunk>, trailers: seq<Bytes>, n: nat)
    requires (forall k :: 0 <= k < |chunks| ==> ChunkOk(chunks[k])) && TrailersOk(trailers)
    requires n <= |EncodeChunked(chunks, trailers)|
    ensures DecodeChunked(EncodeChunked(chunks, trailers)[..n]) == Some((Survives(chunks, n), []))
    decreases |chunks|
  {
    if chunks == [] {
      CutInLastChunk(trailers, n);
    } else {
      var c, rest := chunks[0], chunks[1..];
      assert chunks == [c] + rest;
      if n > |EncodeChunk(c)| { CutDecodes(rest, trailers, n - |EncodeChunk(c)|); }
      CutFirst(c, rest, EncodeChunked(rest, trailers), n);
    }
  }

  /**
   * Truncation is never noticed: wherever the encoding breaks off, decoding succeeds with the data so far. That is
   * the whole body exactly when the cut lies at or after the end of the last chunk's data.
   */
  lemma TruncationUnnoticed(chunks: seq<Chunk>, trailers: seq<Bytes>, n: nat)
    requires (forall k :: 0 <= k < |chunks| ==> ChunkOk(chunks[k])) && TrailersOk(trailers)
    requires n <= |EncodeChunked(chunks, trailers)|
    ensures DecodeChunked(EncodeChunked(chunks, trailers)[..n]) == Some((Survives(chunks, n), []))
    ensures Survives(chunks, n) <= Payload(chunks)
    ensures Survives(chunks, n) == Payload(chunks) <==> n >= DataEnd(chunks)
  {
    CutDecodes(chunks, trailers, n);
    SurvivalIsExact(chunks, n);
  }

  // ---- framing ----

  /** How the end of a response body is found. */
  datatype Framing = Chunked | Length(n: nat) | UntilClose

  /** The body and what follows it. */
  function BodyOf(framing: Framing, s: Bytes): Option<(Bytes, Bytes)> {
    match framing
    case Chunked => DecodeChunked(s)
    case Length(n) => Some((Take(s, n), Drop(s, n)))
    case UntilClose => Some((s, []))
  }

  /** A whole body is read back, and what follows a counted one is left. */
  lemma WholeBodyRead(body: Bytes, rest: Bytes)
    ensures BodyOf(Length(|body|), body + rest) == Some((body, rest))
    ensures BodyOf(UntilClose, body) == Some((body, []))
  {
    var s := body + rest;
    assert Take(s, |body|) == body && Drop(s, |body|) == rest;
  }

  /** A body with a Content-Length that breaks off passes as complete: it is, exactly if all n bytes arrived. */
  lemma ShortBodyUnnoticed(body: Bytes, k: nat)
    requires k <= |body|
    ensures BodyOf(Length(|body|), body[..k]) == Some((body[..k], []))
    ensures body[..k] == body <==> k == |body|
  {
    var s := body[..k];
    assert Take(s, |body|) == s && Drop(s, |body|) == [];
  }

  // ---- the buffered reader ----

  lemma BreakStays(buf: Bytes, pending: Bytes)
    requires FindBreak(buf, 0) < |buf|
    ensures FindBreak(buf + pending, 0) == FindBreak(buf, 0)
  {
    var i, s := FindBreak(buf, 0), buf + pending;
    forall k: nat | k <= i ensures BreakAt(s, k) == BreakAt(buf, k) {
      assert k + 1 < |buf| && s[k] == buf[k] && s[k + 1] == buf[k + 1];
    }
    FirstBreak(s, i);
  }

  lemma CutInBuffer(buf: Bytes, pending: Bytes, i: nat)
    requires i + 2 <= |buf|
    ensures (buf + pending)[..i] == buf[..i] && (buf + pending)[i + 2..] == buf[i + 2..] + pending
  {
  }

  /** A break inside the buffer is the first break of the stream. */
  lemma BreakInBuffer(buf: Bytes, pending: Bytes, i: nat)
    requires i == FindBreak(buf, 0) < |buf|
    ensures i + 2 <= |buf| && Line(buf + pending) == (buf[..i], buf[i + 2..] + pending)
  {
    BreakStays(buf, pending);
    assert BreakAt(buf, i);
    CutInBuffer(buf, pending, i);
  }

  class Reader {
    const tp: Transport
    var buf: Bytes

    ghost function Stream(): Bytes
      reads this, tp
    {
      buf + tp.pending
    }

    constructor (tp: Transport)
      ensures this.tp == tp && Stream() == tp.pending
    {
      this.tp, buf := tp, [];
    }

    method Fill() returns (more: bool)
      modifies this`buf, tp`pending, tp`cuts, tp`peerEof
      ensures Stream() == old(Stream()) && (more ==> |tp.pending| < |old(tp.pending)|)
      ensures !more ==> buf == old(buf)
      ensures Answers(old(tp.cuts), tp.stop) ==> Answers(tp.cuts, tp.stop) && (!more ==> tp.pending == [])
    {
      var d := tp.Recv(65536);
      if d == [] { return false; }
      buf := buf + d;
      return true;
    }

    /** However the bytes arrive, the next line of the stream. */
    method ReadLine() returns (line: Bytes)
      requires Answers(tp.cuts, tp.stop)
      modifies this`buf, tp`pending, tp`cuts, tp`peerEof
      ensures Answers(tp.cuts, tp.stop) && (line, Stream()) == Line(old(Stream()))
    {
      while FindBreak(buf, 0) == |buf|
        invariant Stream() == old(Stream()) && Answers(tp.cuts, tp.stop)
        decreases |tp.pending|
      {
        var more := Fill();
        if !more {
          assert old(Stream()) == buf && Line(buf) == (buf, []);
          line := buf;
          buf := [];
          assert Stream() == [];
          return;
        }
      }
      var i := FindBreak(buf, 0);
      BreakInBuffer(buf, tp.pending, i);
      line := buf[..i];
      buf := buf[i + 2..];
    }

    method ReadExact(n: nat) returns (d: Bytes)
      requires Answers(tp.cuts, tp.stop)
      modifies this`buf, tp`pending, tp`cuts, tp`peerEof
      ensures Answers(tp.cuts, tp.stop) && d == Take(old(Stream()), n) && Stream() == Drop(old(Stream()), n)
    {
      while |buf| < n
        invariant Stream() == old(Stream()) && Answers(tp.cuts, tp.stop)
        decreases |tp.pending|
      {
        var more := Fill();
        if !more { break; }
      }
      d := Take(buf, n);
      buf := Drop(buf, n);
    }

    method ReadAll() returns (d: Bytes)
      requires Answers(tp.cuts, tp.stop)
      modifies this`buf, tp`pending, tp`cuts, tp`peerEof
      ensures Answers(tp.cuts, tp.stop) && d == old(Stream()) && Stream() == []
    {
      var more := true;
      while more
        invariant Stream() == old(Stream()) && Answers(tp.cuts, tp.stop) && (!more ==> tp.pending == [])
        decreases more, |tp.pending|
      {
        more := Fill();
      }
      d := buf;
      buf := [];
    }

    /** Consume lines up to and including a blank one. */
    method ReadTrailers()
      requires Answers(tp.cuts, tp.stop)
      modifies this`buf, tp`pending, tp`cuts, tp`peerEof
      ensures Answers(tp.cuts, tp.stop) && Stream() == SkipTrailers(old(Stream()))
    {
      ghost var goal := SkipTrailers(Stream());
      var line := ReadLine();
      while line != []
        invariant Answers(tp.cuts, tp.stop)
        invariant goal == SkipRest(line, Stream())
        decreases |Stream()| + |line|
      {
        SkipLine(Stream());
        line := ReadLine();
      }
    }

    /** The body of a response, however it is framed. */
    method ReadBody(framing: Framing) returns (body: Option<Bytes>)
      requires Answers(tp.cuts, tp.stop)
      modifies this`buf, tp`pending, tp`cuts, tp`peerEof
      ensures body.Some? <==> BodyOf(framing, old(Stream())).Some?
      ensures body.Some? ==> (body.value, Stream()) == BodyOf(framing, old(Stream())).value
    {
      match framing
      case Chunked => body := ReadChunked();
      case Length(n) =>
        var d := ReadExact(n);
        body := Some(d);
      case UntilClose =>
        var d := ReadAll();
        body := Some(d);
    }

    /** The body of a chunked response. */
    method ReadChunked() returns (body: Option<Bytes>)
      requires Answers(tp.cuts, tp.stop)
      modifies this`buf, tp`pending, tp`cuts, tp`peerEof
      ensures body.Some? <==> DecodeChunked(old(Stream())).Some?
      ensures body.Some? ==> (body.value, Stream()) == DecodeChunked(old(Stream())).value
    {
      var out: Bytes := [];
      ghost var goal := DecodeChunked(Stream());
      NothingBefore(goal);
      while true
        invariant Answers(tp.cuts, tp.stop) && goal == Before(out, DecodeChunked(Stream()))
        decreases |Stream()|
      {
        ghost var was := Stream();
        var line := ReadLine();
        var n := ChunkSize(line);
        if n.None? { return None; }
        if n.value == 0 {
          ReadTrailers();
          assert out + [] == out;
          return Some(out);
        }
        var d := ReadExact(n.value);
        var _ := ReadExact(2);
        assert was != [];
        BeforeBefore(out, d, DecodeChunked(Stream()));
        out := out + d;
      }
    }
  }
}
