/** The send side: no key protects two packets with one number, and numbers never skip. */
module SendSide {
  import opened Prelude
  import opened CryptoDx
  import opened CryptoStates
  import opened KeyRuns
  import ReadSide

  /** The places that hold a write key. */
  datatype Slot = AtInitial(version: Version) | AtHandshake | AtZeroRtt | AtApplication

  function Tx(s: States, slot: Slot): Option<Dx> {
    match slot
    case AtInitial(v) => if v in s.initials then Some(s.initials[v].tx) else None
    case AtHandshake => if s.handshake.Some? then Some(s.handshake.value.tx) else None
    case AtZeroRtt => if s.zeroRtt.Some? && s.zeroRtt.value.direction.Write? then s.zeroRtt else None
    case AtApplication => s.appWrite
  }

  /** Everything sent so far under the ladder of d came before what d can still send. */
  ghost predicate Ahead(d: Dx, sent: seq<Sending>) {
    forall m :: m in sent && m.Sent? && m.key.secret == d.key.secret ==>
      || m.key.generation < d.key.generation
      || (m.key == d.key && m.pn < d.used.end && !d.used.Empty())
  }

  ghost predicate TxOk(d: Dx, sent: seq<Sending>, bound: nat) {
    WellFormed(d) && d.direction.Write? && d.key.secret < bound && Ahead(d, sent)
  }

  ghost predicate LiveKeysOk(s: States, sent: seq<Sending>, bound: nat) {
    && (forall slot :: Tx(s, slot).Some? ==> TxOk(Tx(s, slot).value, sent, bound))
    && (forall a, b :: a != b && Tx(s, a).Some? && Tx(s, b).Some? ==>
          Tx(s, a).value.key.secret != Tx(s, b).value.key.secret)
  }

  ghost predicate SentBelow(sent: seq<Sending>, bound: nat) {
    forall m :: m in sent && m.Sent? ==> m.key.secret < bound
  }

  ghost predicate NoncesUnique(sent: seq<Sending>) {
    forall i, j :: 0 <= i < j < |sent| && sent[i].Sent? && sent[j].Sent? && sent[i].key == sent[j].key ==>
      sent[i].pn < sent[j].pn
  }

  ghost predicate Inv(s: States, sent: seq<Sending>, bound: nat) {
    SentBelow(sent, bound) && LiveKeysOk(s, sent, bound) && NoncesUnique(sent)
  }

  /** Replacing the key of one slot by a suitable one keeps the invariant. */
  lemma PutKeepsInv(s: States, s': States, slot: Slot, sent: seq<Sending>, bound: nat, bound': nat)
    requires Inv(s, sent, bound) && bound <= bound'
    requires forall other :: other != slot && Tx(s', other).Some? ==> Tx(s', other) == Tx(s, other)
    requires Tx(s', slot).Some? && Tx(s', slot) != Tx(s, slot) ==> TxOk(Tx(s', slot).value, sent, bound')
    requires Tx(s', slot).Some? && Tx(s', slot) != Tx(s, slot) ==>
      || (Tx(s, slot).Some? && Tx(s', slot).value.key.secret == Tx(s, slot).value.key.secret)
      || bound <= Tx(s', slot).value.key.secret
    ensures Inv(s', sent, bound')
  {
  }

  /** Moving the application write key along its ladder keeps the invariant. */
  lemma MoveKeepsInv(s: States, s': States, sent: seq<Sending>, bound: nat, bound': nat)
    requires Inv(s, sent, bound) && bound <= bound'
    requires s'.appWrite == s.appWrite || (s.appWrite.Some? && s'.appWrite == Some(Next(s.appWrite.value)))
    requires s'.initials == s.initials && s'.handshake == s.handshake
    requires s'.zeroRtt == s.zeroRtt || (HasZeroRttRead(s) && (s'.zeroRtt.Some? ==> HasZeroRttRead(s')))
    ensures Inv(s', sent, bound')
  {
    if s.appWrite.Some? {
      assert TxOk(Tx(s, AtApplication).value, sent, bound);
    }
    PutKeepsInv(s, s', AtApplication, sent, bound, bound');
  }

  /** Sending from one slot keeps the invariant. */
  lemma SendKeepsInv(s: States, s': States, slot: Slot, space: Space, bodyLen: nat, sent: seq<Sending>, bound: nat)
    requires Inv(s, sent, bound) && Tx(s, slot).Some? && Tx(s', slot).Some?
    requires Encrypt(Tx(s, slot).value, NextPn(Tx(s, slot).value), bodyLen) == Ok(Tx(s', slot).value)
    requires forall other :: other != slot ==> Tx(s', other) == Tx(s, other)
    ensures Inv(s', sent + [Sent(space, Tx(s, slot).value.key, NextPn(Tx(s, slot).value), bodyLen)], bound)
  {
    var d, d' := Tx(s, slot).value, Tx(s', slot).value;
    var m := Sent(space, d.key, NextPn(d), bodyLen);
    assert TxOk(d, sent, bound);
    assert TxOk(d', sent + [m], bound);
    forall other | other != slot && Tx(s', other).Some?
      ensures TxOk(Tx(s', other).value, sent + [m], bound)
    {
      assert TxOk(Tx(s, other).value, sent, bound);
    }
  }

  function SlotOf(s: States, version: Version, space: Space): Slot {
    match space
    case InitialSpace => AtInitial(version)
    case HandshakeSpace => AtHandshake
    case ApplicationSpace => if s.appWrite.Some? then AtApplication else AtZeroRtt
  }

  lemma {:induction false} InitKeepsInv(s: States, vs: seq<Version>, minPn: nat, sent: seq<Sending>, bound: nat)
    requires Inv(s, sent, bound) && Init(s, vs, bound, minPn).Ok?
    ensures Inv(Init(s, vs, bound, minPn).value, sent, bound + 2 * |vs|)
    decreases |vs|
  {
    if vs != [] {
      var s' := InitVersion(s, vs[0], bound, minPn).value;
      PutKeepsInv(s, s', AtInitial(vs[0]), sent, bound, bound + 2);
      InitKeepsInv(s', vs[1..], minPn, sent, bound + 2);
    }
  }

  lemma ConfirmKeepsInv(s: States, orig: Version, confirmed: Version, sent: seq<Sending>, bound: nat)
    requires Inv(s, sent, bound) && ConfirmVersion(s, orig, confirmed).Ok?
    ensures Inv(ConfirmVersion(s, orig, confirmed).value, sent, bound)
  {
    if orig in s.initials && confirmed in s.initials {
      assert TxOk(Tx(s, AtInitial(orig)).value, sent, bound);
      assert TxOk(Tx(s, AtInitial(confirmed)).value, sent, bound);
      PutKeepsInv(s, ConfirmVersion(s, orig, confirmed).value, AtInitial(confirmed), sent, bound, bound);
    }
  }

  lemma InstallKeepsInv(w: World, e: Event)
    requires e.Handshake? || e.ZeroRtt? || e.DropZeroRtt? || e.WriteKey? || e.DropInitials? || e.DropHandshake?
    requires Inv(w.st, w.sent, w.nextSecret) && Step(w, e).Ok?
    ensures var w' := Step(w, e).value; Inv(w'.st, w'.sent, w'.nextSecret)
  {
    var w' := Step(w, e).value;
    assert forall m :: m in w'.sent && m.Sent? ==> m in w.sent;
    assert Inv(w.st, w'.sent, w.nextSecret);
    var slot := if e.WriteKey? then AtApplication
                else if e.ZeroRtt? || e.DropZeroRtt? then AtZeroRtt else AtHandshake;
    PutKeepsInv(w.st, w'.st, slot, w'.sent, w.nextSecret, w'.nextSecret);
  }

  lemma TransmitKeepsInv(w: World, e: Event)
    requires e.Transmit? && Inv(w.st, w.sent, w.nextSecret) && Step(w, e).Ok?
    ensures var w' := Step(w, e).value; Inv(w'.st, w'.sent, w'.nextSecret)
  {
    TransmitChanges(w, e);
    SendKeepsInv(w.st, Step(w, e).value.st, SlotOf(w.st, e.version, e.space), e.space, e.bodyLen, w.sent, w.nextSecret);
  }

  lemma StepKeepsInv(w: World, e: Event)
    requires Inv(w.st, w.sent, w.nextSecret) && Step(w, e).Ok?
    ensures var w' := Step(w, e).value; Inv(w'.st, w'.sent, w'.nextSecret)
  {
    var w' := Step(w, e).value;
    match e {
      case Initials(vs, minPn) => InitKeepsInv(w.st, vs, minPn, w.sent, w.nextSecret);
      case Transmit(_, _, _) => TransmitKeepsInv(w, e);
      case Confirm(o, c) => ConfirmKeepsInv(w.st, o, c, w.sent, w.nextSecret);
      case Handshake(_) => InstallKeepsInv(w, e);
      case ZeroRtt(_, _) => InstallKeepsInv(w, e);
      case DropZeroRtt => InstallKeepsInv(w, e);
      case WriteKey => InstallKeepsInv(w, e);
      case DropInitials => InstallKeepsInv(w, e);
      case DropHandshake => InstallKeepsInv(w, e);
      case _ =>
        WriteKeyMoves(w, e);
        MoveKeepsInv(w.st, w'.st, w.sent, w.nextSecret, w'.nextSecret);
    }
  }

  lemma {:induction false} RunKeepsInv(w: World, es: seq<Event>)
    requires Inv(w.st, w.sent, w.nextSecret) && Run(w, es).Ok?
    ensures var w' := Run(w, es).value; Inv(w'.st, w'.sent, w'.nextSecret)
  {
    if es != [] {
      RunKeepsInv(w, es[..|es| - 1]);
      StepKeepsInv(Run(w, es[..|es| - 1]).value, es[|es| - 1]);
    }
  }

  lemma ReachableInv(w: World)
    requires Reachable(w)
    ensures Inv(w.st, w.sent, w.nextSecret)
  {
    var es :| Run(START, es) == Ok(w);
    RunKeepsInv(START, es);
  }

  /** In every run, over Initial, Handshake, 0-RTT and every 1-RTT key: no key meets one number twice. */
  lemma NoncesNeverRepeat(w: World, i: nat, j: nat)
    requires Reachable(w) && i < j < |w.sent| && w.sent[i].Sent? && w.sent[j].Sent?
    requires w.sent[i].key == w.sent[j].key
    ensures w.sent[i].pn < w.sent[j].pn
  {
    ReachableInv(w);
  }

  // ---- application packet numbers are consecutive across 0-RTT, 1-RTT and every update ----

  /** The numbers sent in the application space since early data was last abandoned. */
  function AppNumbers(sent: seq<Sending>): seq<nat> {
    if sent == [] then []
    else
      var last := sent[|sent| - 1];
      var before := AppNumbers(sent[..|sent| - 1]);
      if last.EarlyDataAbandoned? then []
      else if last.space.ApplicationSpace? then before + [last.pn]
      else before
  }

  function NextAppNumber(s: States): nat {
    if s.appWrite.Some? then s.appWrite.value.used.end
    else if s.zeroRtt.Some? && s.zeroRtt.value.direction.Write? then s.zeroRtt.value.used.end
    else 0
  }

  function Iota(n: nat): seq<nat> { seq(n, i => i) }

  ghost predicate SentUnder(sent: seq<Sending>, key: Key, pn: nat) {
    exists m :: m in sent && m.Sent? && m.space.ApplicationSpace? && m.key == key && m.pn == pn
  }

  /** A live application key has sent exactly the numbers of its used range. */
  ghost predicate RangeIsSent(d: Dx, sent: seq<Sending>) {
    forall pn: nat :: d.used.Contains(pn) <==> SentUnder(sent, d.key, pn)
  }

  ghost predicate Consecutive(w: World) {
    && AppNumbers(w.sent) == Iota(NextAppNumber(w.st))
    && (w.st.appWrite.Some? ==> RangeIsSent(w.st.appWrite.value, w.sent))
  }

  predicate IsSentUnder(m: Sending, key: Key, pn: nat) {
    m.Sent? && m.space.ApplicationSpace? && m.key == key && m.pn == pn
  }

  lemma SentUnderLast(sent: seq<Sending>, m: Sending, key: Key, pn: nat)
    ensures SentUnder(sent + [m], key, pn) <==> SentUnder(sent, key, pn) || IsSentUnder(m, key, pn)
  {
    if SentUnder(sent, key, pn) {
      var n :| n in sent && IsSentUnder(n, key, pn);
      assert n in sent + [m];
    }
    if IsSentUnder(m, key, pn) { assert m in sent + [m]; }
  }

  lemma RangeIgnores(d: Dx, sent: seq<Sending>, m: Sending)
    requires RangeIsSent(d, sent) && (m.Sent? ==> !m.space.ApplicationSpace?)
    ensures RangeIsSent(d, sent + [m])
  {
    forall pn: nat ensures d.used.Contains(pn) <==> SentUnder(sent + [m], d.key, pn) {
      SentUnderLast(sent, m, d.key, pn);
    }
  }

  /** One packet sent with the next number extends the range by that number. */
  lemma RangeExtends(d: Dx, d': Dx, sent: seq<Sending>, bodyLen: nat)
    requires RangeIsSent(d, sent) && d'.key == d.key && d'.used == Range(d.used.start, d.used.end + 1)
    requires d.used.start <= d.used.end
    ensures RangeIsSent(d', sent + [Sent(ApplicationSpace, d.key, NextPn(d), bodyLen)])
  {
    var m := Sent(ApplicationSpace, d.key, NextPn(d), bodyLen);
    forall pn: nat ensures d'.used.Contains(pn) <==> SentUnder(sent + [m], d'.key, pn) {
      SentUnderLast(sent, m, d.key, pn);
    }
  }

  lemma EncryptExtends(d: Dx, bodyLen: nat)
    requires WellFormed(d) && Encrypt(d, NextPn(d), bodyLen).Ok?
    ensures var d' := Encrypt(d, NextPn(d), bodyLen).value;
      d'.key == d.key && d'.used == Range(d.used.start, d.used.end + 1)
  {
  }

  lemma AppNumbersLast(sent: seq<Sending>, m: Sending)
    ensures AppNumbers(sent + [m]) ==
      if m.EarlyDataAbandoned? then []
      else if m.space.ApplicationSpace? then AppNumbers(sent) + [m.pn]
      else AppNumbers(sent)
  {
    assert (sent + [m])[..|sent + [m]| - 1] == sent;
  }

  lemma IotaNext(n: nat)
    ensures Iota(n) + [n] == Iota(n + 1)
  {
  }

  /** Sending in the application space. */
  lemma AppSendStaysConsecutive(w: World, s: States, d: Dx, bodyLen: nat)
    requires Consecutive(w) && WellFormed(d) && Encrypt(d, NextPn(d), bodyLen).Ok?
    requires (w.st.appWrite == Some(d) && s == w.st.(appWrite := Some(Encrypt(d, NextPn(d), bodyLen).value)))
          || (w.st.appWrite.None? && w.st.zeroRtt == Some(d) && d.direction.Write?
              && s == w.st.(zeroRtt := Some(Encrypt(d, NextPn(d), bodyLen).value)))
    ensures Consecutive(w.(st := s, sent := w.sent + [Sent(ApplicationSpace, d.key, NextPn(d), bodyLen)]))
  {
    EncryptExtends(d, bodyLen);
    AppNumbersLast(w.sent, Sent(ApplicationSpace, d.key, NextPn(d), bodyLen));
    IotaNext(NextPn(d));
    if w.st.appWrite.Some? { RangeExtends(d, s.appWrite.value, w.sent, bodyLen); }
  }

  /** Anything else that is recorded as sent, when the application keys stay. */
  lemma OtherSendStaysConsecutive(w: World, s: States, m: Sending)
    requires Consecutive(w) && m.Sent? && !m.space.ApplicationSpace?
    requires s.appWrite == w.st.appWrite && s.zeroRtt == w.st.zeroRtt
    ensures Consecutive(w.(st := s, sent := w.sent + [m]))
  {
    AppNumbersLast(w.sent, m);
    if s.appWrite.Some? { RangeIgnores(s.appWrite.value, w.sent, m); }
  }

  lemma SendStaysConsecutive(w: World, e: Event)
    requires e.Transmit? && Consecutive(w) && Inv(w.st, w.sent, w.nextSecret) && Step(w, e).Ok?
    ensures Consecutive(Step(w, e).value)
  {
    var d, s := SelectTx(w.st, e.version, e.space).value, Step(w, e).value.st;
    if e.space.ApplicationSpace? {
      assert TxOk(Tx(w.st, SlotOf(w.st, e.version, e.space)).value, w.sent, w.nextSecret);
      AppSendStaysConsecutive(w, s, d, e.bodyLen);
    } else {
      OtherSendStaysConsecutive(w, s, Sent(e.space, d.key, NextPn(d), e.bodyLen));
    }
  }

  /** A key nothing was sent under, with an empty range. */
  lemma FreshRange(d: Dx, sent: seq<Sending>)
    requires d.used.Empty() && forall m :: m in sent && m.Sent? ==> m.key != d.key
    ensures RangeIsSent(d, sent)
  {
  }

  /** Installing the application write key, after 0-RTT or without. */
  lemma InstallStaysConsecutive(w: World)
    requires Consecutive(w) && Inv(w.st, w.sent, w.nextSecret) && Step(w, WriteKey).Ok?
    ensures Consecutive(Step(w, WriteKey).value)
  {
    var app := NewDx(Write, APPLICATION, Key(w.nextSecret, 0, w.st.cipher), 0);
    if w.st.zeroRtt.Some? { UnusedContinues(app, w.st.zeroRtt.value); }
    FreshRange(Step(w, WriteKey).value.st.appWrite.value, w.sent);
  }

  /** At run time, where the write key stays or moves on. */
  lemma MoveStaysConsecutive(w: World, e: Event)
    requires Consecutive(w) && Inv(w.st, w.sent, w.nextSecret) && Runtime(e) && Step(w, e).Ok?
    ensures Consecutive(Step(w, e).value)
  {
    WriteKeyMoves(w, e);
    var s := Step(w, e).value.st;
    if s.appWrite != w.st.appWrite {
      assert TxOk(Tx(w.st, AtApplication).value, w.sent, w.nextSecret);
      FreshRange(s.appWrite.value, w.sent);
    }
    assert Step(w, e).value.sent == w.sent;
  }

  lemma StepStaysConsecutive(w: World, e: Event)
    requires Consecutive(w) && ReadSide.Inv(w) && Inv(w.st, w.sent, w.nextSecret) && Step(w, e).Ok?
    ensures Consecutive(Step(w, e).value)
  {
    if e.Transmit? {
      SendStaysConsecutive(w, e);
    } else if e.WriteKey? {
      InstallStaysConsecutive(w);
    } else if Runtime(e) {
      MoveStaysConsecutive(w, e);
    } else if e.DropZeroRtt? {
      AppNumbersLast(w.sent, EarlyDataAbandoned);
      if w.st.appWrite.Some? { RangeIgnores(w.st.appWrite.value, w.sent, EarlyDataAbandoned); }
    } else {
      OtherKeysStay(w, e);
    }
  }

  lemma OtherKeysStay(w: World, e: Event)
    requires Step(w, e).Ok? && !e.Transmit? && !e.WriteKey? && !Runtime(e) && !e.DropZeroRtt?
    ensures var w' := Step(w, e).value;
      w'.sent == w.sent && w'.st.appWrite == w.st.appWrite && NextAppNumber(w'.st) == NextAppNumber(w.st)
  {
    if e.Initials? { InitOnlyInitials(w.st, e.versions, w.nextSecret, e.minPn); }
  }

  lemma {:induction false} RunStaysConsecutive(es: seq<Event>)
    requires Run(START, es).Ok?
    ensures Consecutive(Run(START, es).value)
  {
    if es != [] {
      var before := es[..|es| - 1];
      RunStaysConsecutive(before);
      RunKeepsInv(START, before);
      ReadSide.RunKeepsInv(START, before);
      StepStaysConsecutive(Run(START, before).value, es[|es| - 1]);
    }
  }

  /**
   * The application packet numbers, in sending order, are 0, 1, 2, ... without gap or repeat across
   * 0-RTT, 1-RTT and every key update; only abandoning 0-RTT starts them again.
   */
  lemma AppNumbersAreConsecutive(w: World)
    requires Reachable(w)
    ensures AppNumbers(w.sent) == Iota(NextAppNumber(w.st))
    ensures w.st.appWrite.Some? ==> RangeIsSent(w.st.appWrite.value, w.sent)
  {
    var es :| Run(START, es) == Ok(w);
    RunStaysConsecutive(es);
  }

  /** An empty range, and the minimum, exactly where the other ended. */
  predicate Continues(d: Dx, prev: Dx) {
    d.used == Range(NextPn(prev), NextPn(prev)) && d.minPn == NextPn(prev)
  }

  predicate ContinuesPair(p: Pair, prev: Pair) { Continues(p.tx, prev.tx) && Continues(p.rx, prev.rx) }

  /** A new Initial state of Retry, or one not used yet at version confirmation, starts where the old one ended. */
  lemma InitialContinues(s: States, v: Version, secret: nat, minPn: nat, confirmed: Version)
    requires v in s.initials
    ensures var r := InitVersion(s, v, secret, minPn);
      r.Ok? && ContinuesPair(r.value.initials[v], s.initials[v])
    ensures (&& confirmed in s.initials && confirmed != v
             && s.initials[confirmed].tx.used.Empty() && s.initials[confirmed].rx.used.Empty()) ==>
      var r := ConfirmVersion(s, v, confirmed);
      r.Ok? && ContinuesPair(r.value.initials[confirmed], s.initials[v])
  {
    UnusedContinues(NewDx(Read, 0, Key(secret + 1, 0, Aes128Gcm), 0), s.initials[v].rx);
  }

  // ---- installed and discarded keys ----

  /** The cipher of the last handshake in a run. */
  function LastCipher(es: seq<Event>): Cipher {
    if es == [] then Aes128Gcm
    else if es[|es| - 1].Handshake? then es[|es| - 1].cipher
    else LastCipher(es[..|es| - 1])
  }

  lemma StepKeepsCipher(w: World, e: Event)
    requires Step(w, e).Ok?
    ensures Step(w, e).value.st.cipher == if e.Handshake? then e.cipher else w.st.cipher
  {
    if e.Initials? { InitOnlyInitials(w.st, e.versions, w.nextSecret, e.minPn); }
    else if e.Transmit? { TransmitChanges(w, e); }
    else if Runtime(e) { WriteKeyMoves(w, e); }
  }

  lemma {:induction false} RunKeepsCipher(es: seq<Event>)
    requires Run(START, es).Ok?
    ensures Run(START, es).value.st.cipher == LastCipher(es)
  {
    if es != [] {
      RunKeepsCipher(es[..|es| - 1]);
      StepKeepsCipher(Run(START, es[..|es| - 1]).value, es[|es| - 1]);
    }
  }

  /** Application keys of either direction use the cipher of the last handshake, and a secret of their own. */
  lemma ApplicationCipher(es: seq<Event>, expire: Instant)
    requires Run(START, es).Ok?
    ensures var w := Run(START, es).value;
      && (Step(w, WriteKey).Ok? ==>
            var d := Step(w, WriteKey).value.st.appWrite;
            d.Some? && d.value.key == Key(w.nextSecret, 0, LastCipher(es)))
      && (Step(w, ReadKeys(expire)).Ok? ==>
            var d := Step(w, ReadKeys(expire)).value.st.appRead;
            d.Some? && d.value.key == Key(w.nextSecret, 0, LastCipher(es)))
  {
    RunKeepsCipher(es);
  }

  /** Nothing can be sent with discarded keys. */
  lemma DiscardedKeysSendNothing(w: World, v: Version, bodyLen: nat)
    ensures Step(Step(w, DropInitials).value, Transmit(v, InitialSpace, bodyLen)).Err?
    ensures Step(Step(w, DropHandshake).value, Transmit(v, HandshakeSpace, bodyLen)).Err?
    ensures Step(w, DropZeroRtt).Ok? && w.st.appWrite.None? ==>
      Step(Step(w, DropZeroRtt).value, Transmit(v, ApplicationSpace, bodyLen)).Err?
  {
  }
}
