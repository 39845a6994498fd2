/**
 * One direction of packet protection: `CryptoDxState` of the patched neqo `crypto.rs`.
 *
 * The values and functions specify the operations; the class below performs them in place.
 * AEAD, HKDF and header-protection keys are opaque: a key is named by the secret it came
 * from and by its position on that secret's "quic ku" ladder.
 */
module CryptoDx {
  import opened Prelude

  datatype Direction = Read | Write

  datatype Cipher = Aes128Gcm | Aes256Gcm | ChaCha20Poly1305

  datatype Error =
    | KeysExhausted
    | PacketNumberOverlap
    | KeyUpdateBlocked
    | VersionNegotiation
    | Internal
    | Decrypt
    | Misuse  // a call that the callers of this code never make

  type Res<+T> = Result<T, Error>

  /** The AEAD key number `generation` on the ladder of the TLS secret `secret`. */
  datatype Key = Key(secret: nat, generation: nat, cipher: Cipher)

  /** A half-open range of packet numbers. */
  datatype Range = Range(start: nat, end: nat) {
    predicate Empty() { start >= end }
    predicate Contains(n: nat) { start <= n < end }
  }

  const ZERO_RTT := 1
  const HANDSHAKE := 2
  const APPLICATION := 3
  const U64_MAX := 0xFFFF_FFFF_FFFF_FFFF
  const INITIAL_LARGEST_PACKET_LEN := 2048
  const UPDATE_WRITE_KEYS_AT := 100

  datatype Dx = Dx(
    direction: Direction,
    epoch: nat,
    key: Key,
    used: Range,
    minPn: nat,
    invocations: nat,
    largest: nat)

  /** Confidentiality (write) and integrity (read) limits, section 6.6 of RFC 9001. */
  function Limit(direction: Direction, cipher: Cipher): nat {
    match direction
    case Read => (
      match cipher
      case Aes128Gcm => 0x10_0000_0000_0000
      case Aes256Gcm => U64_MAX
      case ChaCha20Poly1305 => 0x10_0000_0000)
    case Write => (
      match cipher
      case Aes128Gcm => 0x1000_0000
      case Aes256Gcm => 0x1000_0000
      case ChaCha20Poly1305 => U64_MAX)
  }

  function NewDx(direction: Direction, epoch: nat, key: Key, minPn: nat): Dx {
    Dx(direction, epoch, key, Range(minPn, minPn), minPn, Limit(direction, key.cipher), INITIAL_LARGEST_PACKET_LEN)
  }

  function NextPn(d: Dx): nat { d.used.end }

  function Invoked(d: Dx): Res<Dx> {
    if d.invocations == 0 then Err(KeysExhausted) else Ok(d.(invocations := d.invocations - 1))
  }

  predicate ShouldUpdate(d: Dx) { d.invocations <= UPDATE_WRITE_KEYS_AT }

  /** The key that follows d: write keys get a fresh budget, read keys share one. */
  function Next(d: Dx): Dx {
    var pn := NextPn(d);
    Dx(d.direction, d.epoch + 1, d.key.(generation := d.key.generation + 1), Range(pn, pn), pn,
       if d.direction.Read? then d.invocations else Limit(Write, d.key.cipher),
       INITIAL_LARGEST_PACKET_LEN)
  }

  predicate KeyPhase(d: Dx) { d.epoch % 2 == 0 }

  function Continuation(d: Dx, prev: Dx): Res<Dx> {
    var next := NextPn(prev);
    if d.used.Empty() then Ok(d.(minPn := next, used := Range(next, next)))
    else if prev.used.end > d.used.start then Err(PacketNumberOverlap)
    else Ok(d.(minPn := next, used := Range(next, d.used.end)))
  }

  function Used(d: Dx, pn: nat): Res<Dx> {
    if pn < d.minPn then Err(PacketNumberOverlap)
    else Ok(d.(used := Range(if d.used.start == d.used.end then pn else d.used.start, Max(pn + 1, d.used.end))))
  }

  predicate NeedsUpdate(d: Dx) {
    d.used.start + 1 == d.used.end && d.epoch > APPLICATION
  }

  predicate CanUpdate(d: Dx, largestAcknowledged: Option<nat>) {
    match largestAcknowledged
    case None => d.epoch == APPLICATION
    case Some(la) => d.used.Contains(la)
  }

  /** The budget adjustment for a body longer than any before it. */
  function Adjust(d: Dx, bodyLen: nat): Dx
    requires d.largest >= INITIAL_LARGEST_PACKET_LEN
  {
    if bodyLen > d.largest then
      BitLenMonotone(d.largest - 1, bodyLen - 1);
      var newBits := BitLen(bodyLen - 1) - BitLen(d.largest - 1);
      d.(invocations := ShiftRight(d.invocations, newBits), largest := bodyLen)
    else d
  }

  function Encrypt(d: Dx, pn: nat, bodyLen: nat): Res<Dx>
    requires d.largest >= INITIAL_LARGEST_PACKET_LEN
  {
    var d :- Invoked(Adjust(d, bodyLen));
    Used(d, pn)
  }

  function DecryptPacket(d: Dx, pn: nat): Res<Dx> {
    var d :- Invoked(d);
    Used(d, pn)
  }

  /** What every operation keeps of one state. */
  predicate WellFormed(d: Dx) {
    && d.used.start <= d.used.end
    && d.minPn <= d.used.end
    && d.largest >= INITIAL_LARGEST_PACKET_LEN
  }

  /** An unused state continues exactly where its predecessor ended, without error. */
  lemma UnusedContinues(d: Dx, prev: Dx)
    requires d.used.Empty()
    ensures Continuation(d, prev).Ok?
    ensures Continuation(d, prev).value.used == Range(NextPn(prev), NextPn(prev))
    ensures Continuation(d, prev).value.minPn == NextPn(prev)
  {
  }

  /** The in-place form. */
  class CryptoDxState {
    const direction: Direction
    const epoch: nat
    const key: Key
    var usedStart: nat
    var usedEnd: nat
    var minPn: nat
    var invocations: nat
    var largest: nat

    ghost function View(): Dx
      reads this
    {
      Dx(direction, epoch, key, Range(usedStart, usedEnd), minPn, invocations, largest)
    }

    constructor (direction: Direction, epoch: nat, key: Key, minPn: nat)
      ensures View() == NewDx(direction, epoch, key, minPn)
    {
      this.direction, this.epoch, this.key := direction, epoch, key;
      usedStart, usedEnd, this.minPn := minPn, minPn, minPn;
      invocations := Limit(direction, key.cipher);
      largest := INITIAL_LARGEST_PACKET_LEN;
    }

    constructor NextOf(prev: CryptoDxState)
      ensures View() == Next(prev.View())
    {
      direction, epoch := prev.direction, prev.epoch + 1;
      key := prev.key.(generation := prev.key.generation + 1);
      usedStart, usedEnd, minPn := prev.usedEnd, prev.usedEnd, prev.usedEnd;
      invocations := if prev.direction.Read? then prev.invocations else Limit(Write, prev.key.cipher);
      largest := INITIAL_LARGEST_PACKET_LEN;
    }

    method MarkInvoked() returns (r: Res<()>)
      modifies this`invocations
      ensures r.Ok? <==> Invoked(old(View())).Ok?
      ensures r.Ok? ==> View() == Invoked(old(View())).value
      ensures r.Err? ==> r.error == KeysExhausted && View() == old(View())
    {
      if invocations == 0 { return Err(KeysExhausted); }
      invocations := invocations - 1;
      return Ok(());
    }

    /** On overlap the minimum has already moved; the range has not. */
    method ContinueFrom(prev: CryptoDxState) returns (r: Res<()>)
      modifies this`minPn, this`usedStart, this`usedEnd
      ensures prev != this ==> (
        var spec := Continuation(old(View()), old(prev.View()));
        && (r.Ok? <==> spec.Ok?)
        && (r.Ok? ==> View() == spec.value)
        && (r.Err? ==> r.error == spec.error && View() == old(View()).(minPn := old(prev.usedEnd))))
    {
      var prevEnd := prev.usedEnd;
      minPn := prevEnd;
      if usedStart >= usedEnd {
        usedStart, usedEnd := prevEnd, prevEnd;
        return Ok(());
      } else if prevEnd > usedStart {
        return Err(PacketNumberOverlap);
      } else {
        usedStart := prevEnd;
        return Ok(());
      }
    }

    method MarkUsed(pn: nat) returns (r: Res<()>)
      modifies this`usedStart, this`usedEnd
      ensures r.Ok? <==> Used(old(View()), pn).Ok?
      ensures r.Ok? ==> View() == Used(old(View()), pn).value
      ensures r.Err? ==> r.error == PacketNumberOverlap && View() == old(View())
    {
      if pn < minPn { return Err(PacketNumberOverlap); }
      if usedStart == usedEnd { usedStart := pn; }
      usedEnd := Max(pn + 1, usedEnd);
      return Ok(());
    }

    method AdjustBudget(bodyLen: nat)
      requires largest >= INITIAL_LARGEST_PACKET_LEN
      modifies this`invocations, this`largest
      ensures View() == Adjust(old(View()), bodyLen)
    {
      if bodyLen > largest {
        BitLenMonotone(largest - 1, bodyLen - 1);
        var newBits := BitLen(bodyLen - 1) - BitLen(largest - 1);
        invocations := ShiftRight(invocations, newBits);
        largest := bodyLen;
      }
    }

    method EncryptPacket(pn: nat, bodyLen: nat) returns (r: Res<()>)
      requires largest >= INITIAL_LARGEST_PACKET_LEN
      modifies this
      ensures r.Ok? <==> Encrypt(old(View()), pn, bodyLen).Ok?
      ensures r.Ok? ==> View() == Encrypt(old(View()), pn, bodyLen).value
      ensures r.Err? ==> r.error == Encrypt(old(View()), pn, bodyLen).error
    {
      AdjustBudget(bodyLen);
      var _ :- MarkInvoked();
      r := MarkUsed(pn);
    }

    /** A packet whose tag does not verify still costs an invocation. */
    method DecryptInPlace(pn: nat, authentic: bool) returns (r: Res<()>)
      modifies this`invocations, this`usedStart, this`usedEnd
      ensures r.Ok? <==> authentic && DecryptPacket(old(View()), pn).Ok?
      ensures r.Ok? ==> View() == DecryptPacket(old(View()), pn).value
      ensures r.Err? ==> View() == (if old(invocations) == 0 then old(View()) else Invoked(old(View())).value)
    {
      var _ :- MarkInvoked();
      if !authentic { return Err(Decrypt); }
      r := MarkUsed(pn);
    }
  }
}
