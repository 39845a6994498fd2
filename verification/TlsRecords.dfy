/** Receiving a ClientHello that spans TLS records (section 5.1 of RFC 8446). */
module TlsRecords {
  import opened Prelude
  import opened Wire

  const HANDSHAKE := 22

  function Len16(hi: int, lo: int): int { hi * 256 + lo }

  function Len24(b: Bytes): int
    requires |b| >= 4
  {
    (b[1] as int) * 65536 + (b[2] as int) * 256 + b[3] as int
  }

  /** Append records until the handshake message is complete, the input ends or another type appears. */
  function Gather(full: Bytes, need: nat, rest: Bytes): Bytes
    requires |full| >= 4
    decreases |rest|
  {
    if |full| - 4 >= need then full
    else if |rest| < 5 || rest[0] != HANDSHAKE then full
    else
      var n := Len16(rest[3], rest[4]);
      var rest := rest[5..];
      Gather(full + Take(rest, n), need, Drop(rest, n))
  }

  function RecvClientHello(stream: Bytes): Option<Bytes> {
    if |stream| < 5 || stream[0] != HANDSHAKE then None
    else
      var n := Len16(stream[3], stream[4]);
      var rest := stream[5..];
      var body := Take(rest, n);
      if |body| < 4 then None
      else
        var need := Len24(body);
        Some(Take(Gather(body, need, Drop(rest, n)), 4 + need))
  }

  // ---- the sender's side ----

  function EncodeRecord(fragment: Bytes): Bytes
    requires |fragment| < 0x1_0000
  {
    [22, 3, 1, |fragment| / 256, |fragment| % 256] + fragment
  }

  predicate Sized(fragments: seq<Bytes>) {
    forall k :: 0 <= k < |fragments| ==> |fragments[k]| < 0x1_0000
  }

  function EncodeRecords(fragments: seq<Bytes>): Bytes
    requires Sized(fragments)
  {
    if fragments == [] then [] else EncodeRecord(fragments[0]) + EncodeRecords(fragments[1..])
  }

  /** A handshake message: type, 24-bit length, body. */
  predicate IsMessage(m: Bytes) {
    |m| >= 4 && 65536 * m[1] as int + 256 * m[2] as int + m[3] as int == |m| - 4
  }

  lemma RecordSplits(f: Bytes, tail: Bytes)
    requires |f| < 0x1_0000
    ensures var s := EncodeRecord(f) + tail;
      && |s| >= 5 && s[0] == HANDSHAKE && Len16(s[3], s[4]) == |f|
      && Take(s[5..], |f|) == f && Drop(s[5..], |f|) == tail
  {
    var s := EncodeRecord(f) + tail;
    assert s[5..] == f + tail;
  }

  /** Gathering takes up whole fragments until there is enough. */
  lemma {:induction false} GatherPrefix(full: Bytes, need: nat, fragments: seq<Bytes>, tail: Bytes, m: Bytes)
    requires |full| >= 4 && Sized(fragments)
    requires m <= full + Concat(fragments) && |m| == 4 + need
    ensures m <= Gather(full, need, EncodeRecords(fragments) + tail)
    decreases |fragments|
  {
    if |full| - 4 < need {
      assert fragments != [];
      var f, more := fragments[0], fragments[1..];
      assert EncodeRecords(fragments) + tail == EncodeRecord(f) + (EncodeRecords(more) + tail);
      RecordSplits(f, EncodeRecords(more) + tail);
      assert full + Concat(fragments) == (full + f) + Concat(more);
      GatherPrefix(full + f, need, more, tail, m);
    } else {
      assert m == full[..|m|] by { assert (full + Concat(fragments))[..|m|] == full[..|m|]; }
    }
  }

  /**
   * A message cut into records in any way, whatever follows it, is received whole exactly when the first
   * record holds at least its four header bytes; otherwise nothing is received.
   */
  lemma ReassemblyIsExact(m: Bytes, fragments: seq<Bytes>, tail: Bytes)
    requires IsMessage(m) && fragments != [] && Sized(fragments) && m <= Concat(fragments)
    ensures RecvClientHello(EncodeRecords(fragments) + tail) == if |fragments[0]| >= 4 then Some(m) else None
  {
    var f, more := fragments[0], fragments[1..];
    var t := EncodeRecords(more) + tail;
    assert EncodeRecords(fragments) + tail == EncodeRecord(f) + t;
    FirstRecord(f, t);
    if |f| >= 4 {
      assert Concat(fragments) == f + Concat(more);
      GatheredWhole(m, f, more, tail);
    }
  }

  lemma GatheredWhole(m: Bytes, f: Bytes, more: seq<Bytes>, tail: Bytes)
    requires IsMessage(m) && |f| >= 4 && Sized(more) && m <= f + Concat(more)
    ensures Take(Gather(f, Len24(f), EncodeRecords(more) + tail), 4 + Len24(f)) == m
  {
    HeaderInFirst(m, f, Concat(more));
    assert 4 + Len24(f) == |m|;
    GatherPrefix(f, Len24(f), more, tail, m);
  }

  lemma FirstRecord(f: Bytes, t: Bytes)
    requires |f| < 0x1_0000
    ensures RecvClientHello(EncodeRecord(f) + t) ==
            if |f| < 4 then None else Some(Take(Gather(f, Len24(f), t), 4 + Len24(f)))
  {
    RecordSplits(f, t);
  }

  lemma HeaderInFirst(m: Bytes, f: Bytes, more: Bytes)
    requires |m| >= 4 && |f| >= 4 && m <= f + more
    ensures Len24(f) == Len24(m)
  {
    assert m[1] == (f + more)[1] && m[2] == (f + more)[2] && m[3] == (f + more)[3];
  }

  /** No handshake record begins here. */
  predicate Interrupts(tail: Bytes) { |tail| < 5 || tail[0] != 22 }

  lemma {:induction false} GatherAll(full: Bytes, need: nat, fragments: seq<Bytes>, tail: Bytes)
    requires |full| >= 4 && Sized(fragments) && Interrupts(tail) && |full| + |Concat(fragments)| < 4 + need
    ensures Gather(full, need, EncodeRecords(fragments) + tail) == full + Concat(fragments)
    decreases |fragments|
  {
    if fragments == [] {
      assert EncodeRecords(fragments) + tail == tail && full + [] == full;
    } else {
      var f, more := fragments[0], fragments[1..];
      assert EncodeRecords(fragments) + tail == EncodeRecord(f) + (EncodeRecords(more) + tail);
      RecordSplits(f, EncodeRecords(more) + tail);
      assert full + Concat(fragments) == (full + f) + Concat(more);
      GatherAll(full + f, need, more, tail);
    }
  }

  lemma PartHeader(m: Bytes, f: Bytes, more: Bytes)
    requires |m| >= 4 && |f| >= 4 && f + more <= m
    ensures Len24(f) == Len24(m)
  {
    assert m[1] == (f + more)[1] && m[2] == (f + more)[2] && m[3] == (f + more)[3];
  }

  /**
   * A message that breaks off, at the end of the input or at a record of another type, is not refused: what there is
   * of it is returned. Input that does not begin with a handshake record gives nothing.
   */
  lemma InterruptionUnnoticed(m: Bytes, fragments: seq<Bytes>, tail: Bytes)
    requires IsMessage(m) && Sized(fragments) && Interrupts(tail)
    requires Concat(fragments) <= m && |Concat(fragments)| < |m|
    ensures fragments != [] && |fragments[0]| >= 4 ==>
      RecvClientHello(EncodeRecords(fragments) + tail) == Some(Concat(fragments))
    ensures RecvClientHello(tail) == None
  {
    if fragments != [] && |fragments[0]| >= 4 {
      var f, more := fragments[0], fragments[1..];
      var t, all := EncodeRecords(more) + tail, Concat(fragments);
      assert EncodeRecords(fragments) + tail == EncodeRecord(f) + t;
      FirstRecord(f, t);
      assert all == f + Concat(more);
      PartHeader(m, f, Concat(more));
      GatherAll(f, Len24(f), more, tail);
      assert Take(all, |m|) == all;
    }
  }

  // ---- the receiver's loops ----

  /** Read n bytes, or up to the end or a time-out. */
  method ReadN(conn: Transport, n: nat) returns (d: Bytes)
    modifies conn`pending, conn`cuts
    ensures old(conn.pending) == d + conn.pending && |d| <= n
    ensures Steady(old(conn.cuts)) ==>
      Steady(conn.cuts) && d == Take(old(conn.pending), n) && conn.pending == Drop(old(conn.pending), n)
  {
    d := [];
    ghost var all := conn.pending;
    while |d| < n
      invariant all == d + conn.pending && |d| <= n
      invariant Steady(old(conn.cuts)) ==> Steady(conn.cuts)
    {
      var c := conn.NativeRead(n - |d|);
      if c.None? || c.value == [] { return; }
      d := d + c.value;
    }
  }

  /** However the bytes arrive, the loop returns what the function of the whole stream says. */
  method ReceiveClientHello(conn: Transport) returns (r: Option<Bytes>)
    modifies conn`pending, conn`cuts
    ensures Steady(old(conn.cuts)) ==> r == RecvClientHello(old(conn.pending))
  {
    ghost var stream, steady := conn.pending, Steady(conn.cuts);
    var rec := ReadN(conn, 5);
    if |rec| < 5 || rec[0] != HANDSHAKE { return None; }
    assert steady ==> conn.pending == stream[5..] && rec == stream[..5];
    var body := ReadN(conn, Len16(rec[3], rec[4]));
    if |body| < 4 { return None; }
    var need := Len24(body);
    var full := body;
    ghost var goal := Gather(body, need, conn.pending);
    while |full| - 4 < need
      invariant |full| >= 4
      invariant steady ==> Steady(conn.cuts) && Gather(full, need, conn.pending) == goal
      decreases |conn.pending|
    {
      ghost var rest := conn.pending;
      var r2 := ReadN(conn, 5);
      if |r2| < 5 || r2[0] != HANDSHAKE { break; }
      assert steady ==> conn.pending == rest[5..] && r2 == rest[..5];
      var more := ReadN(conn, Len16(r2[3], r2[4]));
      full := full + more;
    }
    return Some(Take(full, 4 + need));
  }
}
