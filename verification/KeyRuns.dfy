/**
 * Whole runs of the key machine: every order of installations, sends, receipts, updates and
 * timer checks, with histories of what happened.
 *
 * A run ends at the first error. `Disciplined` is what the callers of `CryptoStates` respect
 * (the assertions and `debug_assert`s of the source): each application key is installed once,
 * the write key before the read key, and 0-RTT keys before the application key of their direction.
 */
module KeyRuns {
  import opened Prelude
  import opened CryptoDx
  import opened CryptoStates

  datatype Event =
    | Initials(versions: seq<Version>, minPn: nat)
    | Confirm(orig: Version, confirmed: Version)
    | DropInitials
    | Handshake(cipher: Cipher)
    | DropHandshake
    | ZeroRtt(direction: Direction, cipher: Cipher)
    | DropZeroRtt
    | WriteKey
    | ReadKeys(expireZeroRtt: Instant)
    | Initiate(acknowledged: Option<nat>)
    | Auto
    | Timer(now: Instant)
    | Receive(pn: nat, phase: bool, releaseAt: Instant)
    | Forged(phase: bool)
    | Early(pn: nat)   // a 0-RTT packet
    | Recheck          // the overlap check that follows a packet under an Initial or Handshake key
    | Transmit(version: Version, space: Space, bodyLen: nat)

  /** A packet that passed decryption and every check. */
  datatype Accepted = Accepted(epoch: nat, pn: nat)

  datatype Sending =
    | Sent(space: Space, key: Key, pn: nat, bodyLen: nat)
    | EarlyDataAbandoned  // 0-RTT write keys discarded: packet numbers restart

  datatype Turn =
    | Locally(acknowledged: Option<nat>, key: Key)  // initiate_key_update, away from this key
    | Exhausted(remaining: nat)                     // auto_update
    | ByPeer                                        // key_update_received
    | Rotated                                       // the read keys moved on

  /** `nextSecret` exceeds every secret handed out so far: TLS never exports a secret twice. */
  datatype World = World(
    st: States,
    accepted: seq<Accepted>,
    sent: seq<Sending>,
    turns: seq<Turn>,
    nextSecret: nat)

  const START := World(NO_KEYS, [], [], [], 0)

  predicate Disciplined(s: States, e: Event) {
    match e
    case ZeroRtt(d, _) => s.zeroRtt.None? && s.appRead.None? && (d.Write? ==> s.appWrite.None?)
    case DropZeroRtt => s.appRead.None?
    case WriteKey => s.appWrite.None? && s.appRead.None?
    case ReadKeys(_) => s.appWrite.Some? && s.appRead.None?
    case Transmit(v, sp, _) =>
      SelectTx(s, v, sp).Some? && SelectTx(s, v, sp).value.direction.Write?
    case _ => true
  }

  function Install(w: World, r: Res<States>, secrets: nat): Res<World> {
    match r
    case Ok(s) => Ok(w.(st := s, nextSecret := w.nextSecret + secrets))
    case Err(e) => Err(e)
  }

  /** Record a change of keys if the operation made one. */
  function Turning(w: World, r: Res<States>, turn: Turn): Res<World> {
    match r
    case Ok(s) =>
      var turned := s.appWrite != w.st.appWrite || s.appRead != w.st.appRead;
      Ok(w.(st := s, turns := if turned then w.turns + [turn] else w.turns))
    case Err(e) => Err(e)
  }

  function Step(w: World, e: Event): Res<World> {
    var s := w.st;
    if !Disciplined(s, e) then Err(Misuse) else
    match e
    case Initials(vs, minPn) => Install(w, Init(s, vs, w.nextSecret, minPn), 2 * |vs|)
    case Confirm(o, c) => Install(w, ConfirmVersion(s, o, c), 0)
    case DropInitials => Install(w, Ok(DiscardInitial(s)), 0)
    case Handshake(c) => Install(w, Ok(SetHandshakeKeys(s, w.nextSecret, c)), 2)
    case DropHandshake => Install(w, Ok(DiscardHandshake(s)), 0)
    case ZeroRtt(d, c) => Install(w, Ok(SetZeroRttKeys(s, d, w.nextSecret, c)), 1)
    case DropZeroRtt =>
      Ok(w.(st := DiscardZeroRtt(s),
         sent := if s.zeroRtt.Some? && s.zeroRtt.value.direction.Write? then w.sent + [EarlyDataAbandoned] else w.sent))
    case WriteKey => Install(w, SetApplicationWriteKey(s, w.nextSecret), 1)
    case ReadKeys(t) => Install(w, SetApplicationReadKey(s, w.nextSecret, t), 1)
    case Initiate(la) =>
      if s.appWrite.None? then Err(Internal) else
      Turning(w, InitiateKeyUpdate(s, la), Locally(la, s.appWrite.value.key))
    case Auto =>
      if s.appWrite.None? then Ok(w) else Turning(w, AutoUpdate(s), Exhausted(s.appWrite.value.invocations))
    case Timer(now) => Turning(w, CheckKeyUpdate(s, now), Rotated)
    case Receive(pn, phase, at) =>
      var k := SelectRx(s, phase);
      if k.None? then Ok(w) else
      var s' :- ReceiveWith(s, k.value, pn, at);
      Ok(w.(st := s',
         accepted := w.accepted + [Accepted(RxKey(s, k.value).epoch, pn)],
         turns := if s'.appWrite != s.appWrite then w.turns + [ByPeer] else w.turns))
    case Forged(phase) =>
      var k := SelectRx(s, phase);
      if k.None? then Ok(w) else Install(w, RejectWith(s, k.value), 0)
    case Early(pn) => if HasZeroRttRead(s) then Install(w, ReceiveZeroRtt(s, pn), 0) else Ok(w)
    case Recheck => Install(w, CheckPnOverlap(s), 0)
    case Transmit(v, sp, len) =>
      var tx := SelectTx(s, v, sp).value;
      if tx.largest < INITIAL_LARGEST_PACKET_LEN then Err(Internal) else
      var s' :- CryptoStates.Send(s, v, sp, len);
      Ok(w.(st := s', sent := w.sent + [Sent(sp, tx.key, NextPn(tx), len)]))
  }

  function Run(w: World, es: seq<Event>): Res<World> {
    if es == [] then Ok(w)
    else
      var w' :- Run(w, es[..|es| - 1]);
      Step(w', es[|es| - 1])
  }

  /** Reachable: the outcome of some error-free run from the beginning. */
  ghost predicate Reachable(w: World) {
    exists es :: Run(START, es) == Ok(w)
  }

  lemma ReachableStep(w: World, e: Event)
    requires Reachable(w) && Step(w, e).Ok?
    ensures Reachable(Step(w, e).value)
  {
    var es :| Run(START, es) == Ok(w);
    assert (es + [e])[..|es + [e]| - 1] == es;
    assert Run(START, es + [e]) == Step(w, e);
  }

  /** Installing Initial keys touches nothing else. */
  lemma {:induction false} InitOnlyInitials(s: States, vs: seq<Version>, secret: nat, minPn: nat)
    requires Init(s, vs, secret, minPn).Ok?
    ensures Init(s, vs, secret, minPn).value == s.(initials := Init(s, vs, secret, minPn).value.initials)
    decreases |vs|
  {
    if vs != [] {
      InitOnlyInitials(InitVersion(s, vs[0], secret, minPn).value, vs[1..], secret + 2, minPn);
    }
  }

  predicate Runtime(e: Event) {
    e.ReadKeys? || e.Initiate? || e.Auto? || e.Timer? || e.Receive? || e.Forged? || e.Early? || e.Recheck?
  }

  lemma ReceiveMoves(s: States, k: ReadKey, pn: nat, at: Instant)
    requires match k case CurrentKey => s.appRead.Some? case NextKey => s.appReadNext.Some?
    requires ReceiveWith(s, k, pn, at).Ok?
    ensures var s' := ReceiveWith(s, k, pn, at).value;
      && (s'.appWrite == s.appWrite || (s.appWrite.Some? && s'.appWrite == Some(Next(s.appWrite.value))))
      && s'.initials == s.initials && s'.handshake == s.handshake
      && (s'.zeroRtt == s.zeroRtt || (HasZeroRttRead(s) && s'.zeroRtt.None?))
  {
  }

  /** At run time the write key stays or moves to the next on its ladder; other write keys stay. */
  lemma WriteKeyMoves(w: World, e: Event)
    requires Runtime(e) && Step(w, e).Ok?
    ensures var s' := Step(w, e).value.st;
      || s'.appWrite == w.st.appWrite
      || (w.st.appWrite.Some? && s'.appWrite == Some(Next(w.st.appWrite.value)))
    ensures var s' := Step(w, e).value.st;
      && s'.initials == w.st.initials && s'.handshake == w.st.handshake
      && (s'.zeroRtt == w.st.zeroRtt || (HasZeroRttRead(w.st) && (s'.zeroRtt.Some? ==> HasZeroRttRead(s'))))
  {
    if e.Receive? {
      var k := SelectRx(w.st, e.phase);
      if k.Some? { ReceiveMoves(w.st, k.value, e.pn, e.releaseAt); }
    }
  }

  /** A packet sent changes one write key, which stays the same key, and adds one entry to the record. */
  lemma TransmitChanges(w: World, e: Event)
    requires e.Transmit? && Step(w, e).Ok?
    ensures SelectTx(w.st, e.version, e.space).Some?
    ensures var w', tx := Step(w, e).value, SelectTx(w.st, e.version, e.space).value;
      && tx.direction.Write? && tx.largest >= INITIAL_LARGEST_PACKET_LEN && Encrypt(tx, NextPn(tx), e.bodyLen).Ok?
      && w'.st == WithTx(w.st, e.version, e.space, Encrypt(tx, NextPn(tx), e.bodyLen).value)
      && w'.sent == w.sent + [Sent(e.space, tx.key, NextPn(tx), e.bodyLen)]
      && w'.accepted == w.accepted && w'.turns == w.turns && w'.nextSecret == w.nextSecret
  {
  }

  lemma EncryptKeepsKey(d: Dx, pn: nat, bodyLen: nat)
    requires d.largest >= INITIAL_LARGEST_PACKET_LEN && Encrypt(d, pn, bodyLen).Ok?
    ensures var d' := Encrypt(d, pn, bodyLen).value;
      d'.key == d.key && d'.epoch == d.epoch && d'.direction == d.direction
  {
  }
}
