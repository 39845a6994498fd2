/**
 * All packet protection keys of a connection: `CryptoStates` of the patched neqo `crypto.rs`.
 *
 * `States` is the value of the whole structure and the functions over it are its operations.
 * An `Err` is fatal to the caller, so a failed operation has no next state here.
 */
module CryptoStates {
  import opened Prelude
  import opened CryptoDx

  type Version = nat
  type Instant = nat

  /** Both directions of an Initial or Handshake key. */
  datatype Pair = Pair(tx: Dx, rx: Dx)

  datatype States = States(
    initials: map<Version, Pair>,
    handshake: Option<Pair>,
    zeroRtt: Option<Dx>,
    cipher: Cipher,
    appWrite: Option<Dx>,
    appRead: Option<Dx>,
    appReadNext: Option<Dx>,
    readUpdateTime: Option<Instant>)

  const NO_KEYS := States(map[], None, None, Aes128Gcm, None, None, None, None)

  datatype Space = InitialSpace | HandshakeSpace | ApplicationSpace

  // ---- selecting keys ----

  function SelectTx(s: States, version: Version, space: Space): Option<Dx> {
    match space
    case InitialSpace => if version in s.initials then Some(s.initials[version].tx) else None
    case HandshakeSpace => if s.handshake.Some? then Some(s.handshake.value.tx) else None
    case ApplicationSpace => if s.appWrite.Some? then s.appWrite else s.zeroRtt
  }

  function WithTx(s: States, version: Version, space: Space, d: Dx): States
    requires SelectTx(s, version, space).Some?
  {
    match space
    case InitialSpace => s.(initials := s.initials[version := s.initials[version].(tx := d)])
    case HandshakeSpace => s.(handshake := Some(s.handshake.value.(tx := d)))
    case ApplicationSpace => if s.appWrite.Some? then s.(appWrite := Some(d)) else s.(zeroRtt := Some(d))
  }

  datatype ReadKey = CurrentKey | NextKey

  function PhaseMatch(a: Option<Dx>, phase: bool): bool {
    a.Some? && KeyPhase(a.value) == phase
  }

  /** The exclusive-or lookup of the application read key for a key phase bit. */
  function SelectRx(s: States, phase: bool): Option<ReadKey> {
    if PhaseMatch(s.appRead, phase) && !PhaseMatch(s.appReadNext, phase) then Some(CurrentKey)
    else if PhaseMatch(s.appReadNext, phase) && !PhaseMatch(s.appRead, phase) then Some(NextKey)
    else None
  }

  predicate HasZeroRttRead(s: States) {
    s.zeroRtt.Some? && s.zeroRtt.value.direction.Read?
  }

  // ---- installing keys ----

  /** Install one Initial version, continuing the packet numbers of a state it replaces. */
  function InitVersion(s: States, v: Version, secret: nat, minPn: nat): Res<States> {
    var tx := NewDx(Write, 0, Key(secret, 0, Aes128Gcm), minPn);
    var rx := NewDx(Read, 0, Key(secret + 1, 0, Aes128Gcm), 0);
    if v in s.initials then
      var prev := s.initials[v];
      var rx :- Continuation(rx, prev.rx);
      var tx :- Continuation(tx, prev.tx);
      Ok(s.(initials := s.initials[v := Pair(tx, rx)]))
    else Ok(s.(initials := s.initials[v := Pair(tx, rx)]))
  }

  function Init(s: States, versions: seq<Version>, secret: nat, minPn: nat): Res<States>
    decreases |versions|
  {
    if versions == [] then Ok(s)
    else
      var s :- InitVersion(s, versions[0], secret, minPn);
      Init(s, versions[1..], secret + 2, minPn)
  }

  function ConfirmVersion(s: States, orig: Version, confirmed: Version): Res<States> {
    if orig == confirmed || orig !in s.initials then Ok(s)
    else if confirmed !in s.initials then Err(VersionNegotiation)
    else
      var prev := s.initials[orig];
      var next := s.initials[confirmed];
      var rx :- Continuation(next.rx, prev.rx);
      var tx :- Continuation(next.tx, prev.tx);
      Ok(s.(initials := s.initials[confirmed := Pair(tx, rx)]))
  }

  function SetZeroRttKeys(s: States, direction: Direction, secret: nat, cipher: Cipher): States {
    s.(zeroRtt := Some(NewDx(direction, ZERO_RTT, Key(secret, 0, cipher), 0)))
  }

  function SetHandshakeKeys(s: States, secret: nat, cipher: Cipher): States {
    s.(cipher := cipher,
    handshake := Some(Pair(NewDx(Write, HANDSHAKE, Key(secret, 0, cipher), 0),
                           NewDx(Read, HANDSHAKE, Key(secret + 1, 0, cipher), 0))))
  }

  function DiscardInitial(s: States): States { s.(initials := map[]) }

  function DiscardHandshake(s: States): States { s.(handshake := None) }

  function DiscardZeroRtt(s: States): States { s.(zeroRtt := None) }

  function SetApplicationWriteKey(s: States, secret: nat): Res<States> {
    var app := NewDx(Write, APPLICATION, Key(secret, 0, s.cipher), 0);
    var app :- if s.zeroRtt.Some? && s.zeroRtt.value.direction.Write?
               then Continuation(app, s.zeroRtt.value) else Ok(app);
    Ok(s.(zeroRtt := None, appWrite := Some(app)))
  }

  function SetApplicationReadKey(s: States, secret: nat, expireZeroRtt: Instant): Res<States> {
    var app := NewDx(Read, APPLICATION, Key(secret, 0, s.cipher), 0);
    var app :- if HasZeroRttRead(s) then Continuation(app, s.zeroRtt.value) else Ok(app);
    Ok(s.(readUpdateTime := if s.zeroRtt.Some? then Some(expireZeroRtt) else s.readUpdateTime,
    appReadNext := Some(Next(app)),
    appRead := Some(app)))
  }

  // ---- key update ----

  /** Advance the write key unless it is already ahead of the read key. */
  function MaybeUpdateWrite(s: States): Res<(States, bool)> {
    if s.appWrite.None? || s.appRead.None? then Err(Internal)
    else if s.appWrite.value.epoch == s.appRead.value.epoch
    then Ok((s.(appWrite := Some(Next(s.appWrite.value))), true))
    else Ok((s, false))
  }

  function InitiateKeyUpdate(s: States, largestAcknowledged: Option<nat>): Res<States> {
    if s.appWrite.None? then Err(Internal)
    else if CanUpdate(s.appWrite.value, largestAcknowledged) && s.readUpdateTime.None? then
      var (s, updated) :- MaybeUpdateWrite(s);
      if updated then Ok(s) else Err(KeyUpdateBlocked)
    else Err(KeyUpdateBlocked)
  }

  function AutoUpdate(s: States): Res<States> {
    if s.appWrite.Some? && ShouldUpdate(s.appWrite.value) then
      var (s, updated) :- MaybeUpdateWrite(s);
      if updated then Ok(s) else Err(KeysExhausted)
    else Ok(s)
  }

  function KeyUpdateReceived(s: States, expiration: Instant): Res<States> {
    var (s, _) :- MaybeUpdateWrite(s);
    Ok(s.(zeroRtt := if HasZeroRttRead(s) then None else s.zeroRtt, readUpdateTime := Some(expiration)))
  }

  function CheckKeyUpdate(s: States, now: Instant): Res<States> {
    if s.readUpdateTime.None? || now < s.readUpdateTime.value then Ok(s)
    else if HasZeroRttRead(s) then Ok(s.(zeroRtt := None, readUpdateTime := None))
    else if s.appReadNext.None? then Err(Internal)
    else Ok(s.(appRead := s.appReadNext, appReadNext := Some(Next(s.appReadNext.value)), readUpdateTime := None))
  }

  function CheckPnOverlap(s: States): Res<States> {
    if s.readUpdateTime.None? then Ok(s)
    else if s.appReadNext.None? || s.appRead.None? then Err(Internal)
    else
      var next :- Continuation(s.appReadNext.value, s.appRead.value);
      Ok(s.(appReadNext := Some(next)))
  }

  // ---- whole packets ----

  function WithRx(s: States, k: ReadKey, d: Dx): States {
    match k
    case CurrentKey => s.(appRead := Some(d))
    case NextKey => s.(appReadNext := Some(d))
  }

  function RxKey(s: States, k: ReadKey): Dx
    requires match k case CurrentKey => s.appRead.Some? case NextKey => s.appReadNext.Some?
  {
    match k
    case CurrentKey => s.appRead.value
    case NextKey => s.appReadNext.value
  }

  /** Remove protection from a short-header packet whose key `k` was selected. */
  function ReceiveWith(s: States, k: ReadKey, pn: nat, releaseAt: Instant): Res<States>
    requires match k case CurrentKey => s.appRead.Some? case NextKey => s.appReadNext.Some?
  {
    var d :- DecryptPacket(RxKey(s, k), pn);
    var s := WithRx(s, k, d);
    var s :- if NeedsUpdate(d) then KeyUpdateReceived(s, releaseAt) else Ok(s);
    CheckPnOverlap(s)
  }

  /** Remove protection from a 0-RTT packet; its epoch never triggers a key update. */
  function ReceiveZeroRtt(s: States, pn: nat): Res<States>
    requires HasZeroRttRead(s)
  {
    var d :- DecryptPacket(s.zeroRtt.value, pn);
    CheckPnOverlap(s.(zeroRtt := Some(d)))
  }

  /** A packet that fails authentication costs the selected key an invocation. */
  function RejectWith(s: States, k: ReadKey): Res<States>
    requires match k case CurrentKey => s.appRead.Some? case NextKey => s.appReadNext.Some?
  {
    var d :- Invoked(RxKey(s, k));
    Ok(WithRx(s, k, d))
  }

  /** Protect the next packet of a space: the packet number is always the next unused one. */
  function Send(s: States, version: Version, space: Space, bodyLen: nat): Res<States>
    requires SelectTx(s, version, space).Some?
    requires SelectTx(s, version, space).value.largest >= INITIAL_LARGEST_PACKET_LEN
  {
    var tx := SelectTx(s, version, space).value;
    var tx :- Encrypt(tx, NextPn(tx), bodyLen);
    Ok(WithTx(s, version, space, tx))
  }
}
