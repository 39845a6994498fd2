/**
 * The byte stream under the protocol code, and the read and write loops of `Transport` over it.
 *
 * The peer's bytes arrive in pieces of any size, with time-outs in between: `cuts` fixes the size of each
 * coming piece (0 is a time-out); once it runs out every read gets what it asks for.
 */
module Wire {
  import opened Prelude

  function Take(s: Bytes, n: nat): (r: Bytes)
    ensures |r| == Min(n, |s|)
  {
    s[..Min(n, |s|)]
  }

  function Drop(s: Bytes, n: nat): Bytes { s[Min(n, |s|)..] }

  lemma ReadSoFar(all: Bytes, out: Bytes, pending: Bytes, n: nat)
    requires all == out + pending && |out| <= n && (|out| == n || pending == [])
    ensures out == Take(all, n) && pending == Drop(all, n)
  {
  }

  /** No time-outs ahead. */
  predicate Steady(cuts: seq<nat>) { forall i :: 0 <= i < |cuts| ==> cuts[i] > 0 }

  /** How many reads `recv` makes before a run of time-outs looks like the end. */
  const RETRIES := 480

  /** The time-outs right ahead. */
  function Idle(cuts: seq<nat>): nat { if cuts == [] || cuts[0] > 0 then 0 else 1 + Idle(cuts[1..]) }

  /** Never so many time-outs in a row that `recv` gives up. */
  predicate Patient(cuts: seq<nat>) { Idle(cuts) < 480 && (cuts == [] || Patient(cuts[1..])) }

  /** Reads are answered: few enough time-outs in a row, and none at all once reads are stopped. */
  predicate Answers(cuts: seq<nat>, stop: bool) { Patient(cuts) && (stop ==> Steady(cuts)) }

  class Transport {
    var pending: Bytes     // what the peer will still deliver before it closes
    var cuts: seq<nat>
    var room: seq<nat>     // how many bytes each coming native write accepts (0 fails)
    var sent: Bytes        // everything the native layer has accepted
    var stop: bool
    var peerEof: bool

    /** One native read of at most n bytes: None is a time-out, no bytes is the end. */
    method NativeRead(n: nat) returns (r: Option<Bytes>)
      requires n > 0
      modifies this`pending, this`cuts
      ensures cuts == if old(cuts) == [] then [] else old(cuts)[1..]
      ensures r.None? <==> old(cuts) != [] && old(cuts)[0] == 0
      ensures Steady(old(cuts)) ==> r.Some? && Steady(cuts)
      ensures r.None? ==> pending == old(pending) && |cuts| < |old(cuts)|
      ensures r.Some? ==>
        && |r.value| <= n && |cuts| <= |old(cuts)|
        && old(pending) == r.value + pending
        && (r.value == [] <==> old(pending) == [])
    {
      if cuts != [] && cuts[0] == 0 {
        cuts := cuts[1..];
        return None;
      }
      var k := Min(n, |pending|);
      if cuts != [] {
        k := Min(k, cuts[0]);
        cuts := cuts[1..];
      }
      r := Some(pending[..k]);
      pending := pending[k..];
    }

    /**
     * Read n bytes for the reader thread. Unless reads were stopped, the result is the next n bytes, or all
     * that are left, however they arrive; and no byte is ever lost, repeated or reordered.
     */
    method RecvN(n: nat) returns (out: Bytes)
      modifies this`pending, this`cuts, this`peerEof
      ensures old(pending) == out + pending && |out| <= n
      ensures !stop ==> out == Take(old(pending), n) && pending == Drop(old(pending), n)
      ensures !stop && |out| < n ==> peerEof
    {
      out := [];
      ghost var all := pending;
      while |out| < n
        invariant all == out + pending && |out| <= n
        decreases |cuts| + n - |out|
      {
        var d := NativeRead(n - |out|);
        if d.None? {
          if stop { return; }
        } else if d.value == [] {
          peerEof := true;
          ReadSoFar(all, out, pending, n);
          return;
        } else {
          out := out + d.value;
        }
      }
      ReadSoFar(all, out, pending, n);
    }

    /**
     * Read up to n bytes. Up to 479 time-outs in a row are ridden out, and then nothing is returned only at the
     * end; 480 in a row look like the end, and so does any time-out once reads are stopped.
     */
    method Recv(n: nat) returns (d: Bytes)
      requires n > 0
      modifies this`pending, this`cuts, this`peerEof
      ensures old(pending) == d + pending
      ensures Answers(old(cuts), stop) ==> Answers(cuts, stop) && (d == [] <==> old(pending) == [])
      ensures Idle(old(cuts)) >= 480 || (stop && Idle(old(cuts)) > 0) ==> d == []
    {
      var tries := 0;
      while tries < RETRIES
        invariant 0 <= tries <= RETRIES && pending == old(pending)
        invariant tries + Idle(cuts) == Idle(old(cuts)) && (stop ==> tries == 0)
        invariant Answers(old(cuts), stop) ==> Answers(cuts, stop)
      {
        var r := NativeRead(n);
        if r.Some? {
          if r.value == [] { peerEof := true; }
          return r.value;
        }
        if stop { return []; }
        tries := tries + 1;
      }
      return [];
    }

    /** Write everything, in as many native writes as it takes; on failure a prefix has been sent. */
    method Write(data: Bytes) returns (ok: bool)
      modifies this`sent, this`room
      ensures old(sent) <= sent <= old(sent) + data
      ensures ok <==> sent == old(sent) + data
      ensures (forall i :: 0 <= i < |old(room)| ==> old(room)[i] > 0) ==> ok
    {
      var total := 0;
      while total < |data|
        invariant 0 <= total <= |data| && sent == old(sent) + data[..total]
        invariant (forall i :: 0 <= i < |old(room)| ==> old(room)[i] > 0) ==>
          forall i :: 0 <= i < |room| ==> room[i] > 0
      {
        var k := |data| - total;
        if room != [] {
          k := Min(k, room[0]);
          room := room[1..];
        }
        if k == 0 { return false; }
        sent := sent + data[total..total + k];
        total := total + k;
      }
      assert data[..total] == data;
      return true;
    }
  }
}
