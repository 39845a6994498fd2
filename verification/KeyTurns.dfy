/** Key updates over whole runs, sections 6.1 to 6.3 of RFC 9001. */
module KeyTurns {
  import opened Prelude
  import opened CryptoDx
  import opened CryptoStates
  import opened KeyRuns
  import ReadSide
  import SendSide

  function Rotations(turns: seq<Turn>): nat {
    if turns == [] then 0
    else Rotations(turns[..|turns| - 1]) + if turns[|turns| - 1].Rotated? then 1 else 0
  }

  function WriteUpdates(turns: seq<Turn>): nat {
    if turns == [] then 0
    else WriteUpdates(turns[..|turns| - 1]) + if turns[|turns| - 1].Rotated? then 0 else 1
  }

  /** What justified each update, in terms of the packets really sent under the key it left. */
  ghost predicate Justified(t: Turn, sent: seq<Sending>) {
    match t
    case Locally(None, key) => key.generation == 0
    case Locally(Some(la), key) => SendSide.SentUnder(sent, key, la)
    case Exhausted(remaining) => remaining <= 100
    case ByPeer => true
    case Rotated => true
  }

  ghost predicate Inv(w: World) {
    && (w.st.appRead.None? ==> w.turns == [])
    && (w.st.appRead.Some? ==> w.st.appRead.value.epoch == APPLICATION + Rotations(w.turns))
    && (w.st.appWrite.Some? ==>
          && w.st.appWrite.value.epoch == APPLICATION + WriteUpdates(w.turns)
          && w.st.appWrite.value.key.generation == WriteUpdates(w.turns))
    && (forall t :: t in w.turns ==> Justified(t, w.sent))
  }

  lemma CountLast(turns: seq<Turn>, t: Turn)
    ensures Rotations(turns + [t]) == Rotations(turns) + if t.Rotated? then 1 else 0
    ensures WriteUpdates(turns + [t]) == WriteUpdates(turns) + if t.Rotated? then 0 else 1
  {
    assert (turns + [t])[..|turns + [t]| - 1] == turns;
  }

  lemma SentUnderGrows(sent: seq<Sending>, more: seq<Sending>, key: Key, pn: nat)
    requires SendSide.SentUnder(sent, key, pn)
    ensures SendSide.SentUnder(sent + more, key, pn)
  {
    var m :| m in sent && m.Sent? && m.space.ApplicationSpace? && m.key == key && m.pn == pn;
    assert m in sent + more;
  }

  lemma JustifiedGrows(turns: seq<Turn>, sent: seq<Sending>, more: seq<Sending>)
    requires forall t :: t in turns ==> Justified(t, sent)
    ensures forall t :: t in turns ==> Justified(t, sent + more)
  {
    forall t | t in turns ensures Justified(t, sent + more) {
      if t.Locally? && t.acknowledged.Some? { SentUnderGrows(sent, more, t.key, t.acknowledged.value); }
    }
  }

  lemma InitiateJustified(s: States, la: Option<nat>, sent: seq<Sending>)
    requires s.appWrite.Some? && InitiateKeyUpdate(s, la).Ok?
    requires s.appWrite.value.epoch == APPLICATION + s.appWrite.value.key.generation
    requires SendSide.RangeIsSent(s.appWrite.value, sent)
    ensures Justified(Locally(la, s.appWrite.value.key), sent)
  {
    if la.Some? { assert s.appWrite.value.used.Contains(la.value); }
  }

  /** A justified update of the write key keeps the count. */
  lemma UpdateKeepsInv(w: World, s: States, t: Turn)
    requires Inv(w) && w.st.appRead.Some? && w.st.appWrite.Some? && !t.Rotated? && Justified(t, w.sent)
    requires s.appWrite == Some(Next(w.st.appWrite.value))
    requires s.appRead.Some? && s.appRead.value.epoch == w.st.appRead.value.epoch
    ensures forall a :: Inv(w.(st := s, turns := w.turns + [t], accepted := a))
  {
    CountLast(w.turns, t);
    assert forall u :: u in w.turns + [t] ==> u in w.turns || u == t;
  }

  lemma InitiateUpdates(s: States, la: Option<nat>)
    requires InitiateKeyUpdate(s, la).Ok?
    ensures s.appRead.Some? && s.appWrite.Some?
    ensures InitiateKeyUpdate(s, la).value == s.(appWrite := Some(Next(s.appWrite.value)))
  {
  }

  lemma InitiateKeepsInv(w: World, la: Option<nat>)
    requires Inv(w) && Step(w, Initiate(la)).Ok?
    requires w.st.appWrite.Some? && Justified(Locally(la, w.st.appWrite.value.key), w.sent)
    ensures Inv(Step(w, Initiate(la)).value)
  {
    var t := Locally(la, w.st.appWrite.value.key);
    var r := InitiateKeyUpdate(w.st, la);
    assert Step(w, Initiate(la)) == Turning(w, r, t);
    InitiateUpdates(w.st, la);
    UpdateKeepsInv(w, r.value, t);
    assert r.value != w.st;
    var w' := Step(w, Initiate(la)).value;
    assert w' == w.(st := r.value, turns := w.turns + [t], accepted := w.accepted);
  }

  lemma AutoKeepsInv(w: World)
    requires Inv(w) && Step(w, Auto).Ok?
    ensures Inv(Step(w, Auto).value)
  {
    if w.st.appWrite.Some? { CountLast(w.turns, Exhausted(w.st.appWrite.value.invocations)); }
  }

  lemma ReceiveKeepsInv(w: World, e: Event)
    requires e.Receive? && ReadSide.Inv(w) && Inv(w) && Step(w, e).Ok?
    ensures Inv(Step(w, e).value)
  {
    var k := SelectRx(w.st, e.phase);
    if k.Some? {
      if k.value.CurrentKey? { ReadSide.ReceiveCurrent(w.st, e.pn, e.releaseAt); }
      else { ReadSide.ReceiveNext(w.st, e.pn, e.releaseAt); }
      ReceiveMoves(w.st, k.value, e.pn, e.releaseAt);
      var s := ReceiveWith(w.st, k.value, e.pn, e.releaseAt).value;
      if s.appWrite != w.st.appWrite { UpdateKeepsInv(w, s, ByPeer); } else { SameEpochsKeepInv(w, s); }
    }
  }

  lemma SameEpochsKeepInv(w: World, s: States)
    requires Inv(w) && s.appWrite == w.st.appWrite
    requires s.appRead.Some? == w.st.appRead.Some?
    requires s.appRead.Some? ==> s.appRead.value.epoch == w.st.appRead.value.epoch
    ensures forall a :: Inv(w.(st := s, accepted := a))
  {
  }

  /** A timer check drops 0-RTT keys, rotates, or does nothing. */
  lemma CheckChanges(s: States, now: Instant)
    requires CheckKeyUpdate(s, now).Ok?
    ensures var s' := CheckKeyUpdate(s, now).value;
      s'.appWrite == s.appWrite && (s'.appRead == s.appRead || s'.appRead == s.appReadNext)
  {
  }

  lemma RotatedKeepsInv(w: World, s: States)
    requires Inv(w) && w.st.appRead.Some? && s.appWrite == w.st.appWrite
    requires s.appRead.Some? && s.appRead.value.epoch == w.st.appRead.value.epoch + 1
    ensures Inv(w.(st := s, turns := w.turns + [Rotated]))
  {
    CountLast(w.turns, Rotated);
    assert forall u :: u in w.turns + [Rotated] ==> u in w.turns || u == Rotated;
  }

  lemma RotationKeepsInv(w: World, e: Event)
    requires e.Timer? && ReadSide.Inv(w) && Inv(w) && Step(w, e).Ok?
    ensures Inv(Step(w, e).value)
  {
    var r := CheckKeyUpdate(w.st, e.now);
    assert Step(w, e) == Turning(w, r, Rotated);
    CheckChanges(w.st, e.now);
    if r.value.appRead == w.st.appRead {
      SameEpochsKeepInv(w, r.value);
      assert Step(w, e).value == w.(st := r.value, accepted := w.accepted);
    } else {
      RotatedKeepsInv(w, r.value);
    }
  }

  lemma SendKeepsInv(w: World, e: Event)
    requires e.Transmit? || e.DropZeroRtt?
    requires Inv(w) && Step(w, e).Ok?
    ensures Inv(Step(w, e).value)
  {
    var w' := Step(w, e).value;
    JustifiedGrows(w.turns, w.sent, w'.sent[|w.sent|..]);
    assert w'.sent == w.sent + w'.sent[|w.sent|..];
  }

  lemma PacketKeepsInv(w: World, e: Event)
    requires e.Forged? || e.Early? || e.Recheck?
    requires ReadSide.Inv(w) && Inv(w) && Step(w, e).Ok?
    ensures Inv(Step(w, e).value)
  {
  }

  lemma OtherKeepsInv(w: World, e: Event)
    requires !e.Initiate? && !e.Auto? && !e.Receive? && !e.Timer? && !e.Transmit? && !e.DropZeroRtt?
    requires ReadSide.Inv(w) && Inv(w) && Step(w, e).Ok?
    ensures Inv(Step(w, e).value)
  {
    if e.Initials? { InitOnlyInitials(w.st, e.versions, w.nextSecret, e.minPn); }
    else if e.Forged? || e.Early? || e.Recheck? { PacketKeepsInv(w, e); }
  }

  lemma {:induction false} RunKeepsInv(es: seq<Event>)
    requires Run(START, es).Ok?
    ensures Inv(Run(START, es).value)
  {
    if es != [] {
      var before, e := es[..|es| - 1], es[|es| - 1];
      var w := Run(START, before).value;
      RunKeepsInv(before);
      ReadSide.RunKeepsInv(START, before);
      SendSide.RunStaysConsecutive(before);
      if e.Initiate? { InitiateJustified(w.st, e.acknowledged, w.sent); InitiateKeepsInv(w, e.acknowledged); }
      else if e.Auto? { AutoKeepsInv(w); }
      else if e.Receive? { ReceiveKeepsInv(w, e); }
      else if e.Timer? { RotationKeepsInv(w, e); }
      else if e.Transmit? || e.DropZeroRtt? { SendKeepsInv(w, e); }
      else { OtherKeepsInv(w, e); }
    }
  }

  /** Whatever triggers them, write updates outnumber read rotations by at most one. */
  lemma UpdatesWaitForRotation(w: World)
    requires Reachable(w)
    ensures WriteUpdates(w.turns) <= Rotations(w.turns) + 1
    ensures w.st.appRead.Some? ==> Rotations(w.turns) <= WriteUpdates(w.turns)
  {
    var es :| Run(START, es) == Ok(w);
    RunKeepsInv(es);
    ReadSide.ReachableInv(w);
  }

  /**
   * Every update that `initiate_key_update` made followed an acknowledgement of a packet really sent
   * under the key it left, or left the very first application key with nothing acknowledged.
   */
  lemma LocalUpdatesWereAcknowledged(w: World, t: Turn)
    requires Reachable(w) && t in w.turns && t.Locally?
    ensures t.acknowledged.None? ==> t.key.generation == 0
    ensures t.acknowledged.Some? ==> SendSide.SentUnder(w.sent, t.key, t.acknowledged.value)
  {
    var es :| Run(START, es) == Ok(w);
    RunKeepsInv(es);
  }

  /**
   * In every reachable state with read keys: the next read epoch is one above the read epoch, the write
   * epoch equals one of the two, and each phase bit selects exactly one read key, of that phase.
   */
  lemma EpochsStayInStep(w: World, phase: bool)
    requires Reachable(w) && w.st.appRead.Some?
    ensures w.st.appReadNext.Some? && w.st.appWrite.Some?
    ensures w.st.appReadNext.value.epoch == w.st.appRead.value.epoch + 1
    ensures w.st.appRead.value.epoch <= w.st.appWrite.value.epoch <= w.st.appReadNext.value.epoch
    ensures ReadSide.RotationPending(w.st) ==> w.st.appWrite.value.epoch == w.st.appReadNext.value.epoch
    ensures SelectRx(w.st, phase).Some?
    ensures KeyPhase(RxKey(w.st, SelectRx(w.st, phase).value)) == phase
    ensures SelectRx(w.st, !phase) != SelectRx(w.st, phase)
  {
    ReadSide.ReachableInv(w);
  }

  // ---- three places where the code is stricter or looser than its comments say ----

  /**
   * `auto_update` moves the write key exactly when its budget is nearly spent and it is not ahead of the
   * read key: neither an acknowledgement nor a pending read timer has a say.
   */
  lemma AutoUpdateCondition(w: World)
    requires Reachable(w) && w.st.appRead.Some?
    ensures w.st.appWrite.Some?
    ensures var s := w.st;
      (AutoUpdate(s).Ok? && AutoUpdate(s).value.appWrite != s.appWrite) <==>
      (s.appWrite.value.invocations <= 100 && s.appWrite.value.epoch == s.appRead.value.epoch)
    ensures var s := w.st;
      AutoUpdate(s) == Err(KeysExhausted) <==>
      (s.appWrite.value.invocations <= 100 && s.appWrite.value.epoch != s.appRead.value.epoch)
  {
    ReadSide.ReachableInv(w);
  }

  /**
   * Once the next key has been used, a delayed packet under the old key is accepted exactly when its number
   * is below the end of the old key's range at that moment: the old range is frozen until rotation.
   */
  lemma DelayedPacketAccepted(w: World, pn: nat, at: Instant)
    requires Reachable(w) && w.st.appRead.Some? && w.st.appReadNext.Some?
    requires !w.st.appReadNext.value.used.Empty()
    ensures var r := w.st.appRead.value;
      ReceiveWith(w.st, CurrentKey, pn, at).Ok? <==> (r.invocations > 0 && r.minPn <= pn < r.used.end)
    ensures ReceiveWith(w.st, CurrentKey, pn, at).Ok? ==>
      ReceiveWith(w.st, CurrentKey, pn, at).value.appRead.value.used.end == w.st.appRead.value.used.end
  {
    ReadSide.ReachableInv(w);
    if ReceiveWith(w.st, CurrentKey, pn, at).Ok? {
      ReadSide.ReceiveCurrent(w.st, pn, at);
    }
  }

  predicate FreshLadder(d: Dx) { d.direction.Write? && d.key.cipher == Aes128Gcm }

  lemma AfterInstall() returns (w: World)
    ensures Reachable(w) && w.accepted == []
    ensures ReadSide.KeysHeld(w.st) && w.st.zeroRtt.None? && w.st.readUpdateTime.None?
    ensures w.st.appRead.value == NewDx(Read, 3, w.st.appRead.value.key, 0) && w.st.appWrite.value.epoch == 3
    ensures w.st.appReadNext == Some(Next(w.st.appRead.value)) && w.st.appRead.value.key.cipher == Aes128Gcm
    ensures w.turns == [] && FreshLadder(w.st.appWrite.value)
  {
    assert Run(START, []) == Ok(START);
    var w1 := Step(START, Handshake(Aes128Gcm)).value;
    ReachableStep(START, Handshake(Aes128Gcm));
    var w2 := Step(w1, WriteKey).value;
    ReachableStep(w1, WriteKey);
    w := Step(w2, ReadKeys(0)).value;
    ReachableStep(w2, ReadKeys(0));
  }

  lemma AfterFirstPacket() returns (w: World)
    ensures Reachable(w) && w.accepted == [Accepted(3, 0)]
    ensures ReadSide.KeysHeld(w.st) && w.st.zeroRtt.None? && w.st.readUpdateTime.None?
    ensures var r := w.st.appRead.value; r.epoch == 3 && r.used == Range(0, 1) && r.minPn == 0 && r.invocations > 2
    ensures var n := w.st.appReadNext.value; n.epoch == 4 && n.used == Range(0, 0) && n.minPn == 0 && n.invocations > 2
    ensures w.st.appWrite.value.epoch == 3 && w.turns == [] && FreshLadder(w.st.appWrite.value)
  {
    var w1 := AfterInstall();
    w := Step(w1, Receive(0, false, 0)).value;
    ReachableStep(w1, Receive(0, false, 0));
  }

  /** The first packet under the next read key. */
  lemma FirstUpdate(s: States, pn: nat)
    requires pn >= 1 && ReadSide.KeysHeld(s) && s.zeroRtt.None? && s.readUpdateTime.None?
    requires var r := s.appRead.value; r.epoch == 3 && r.used == Range(0, 1) && r.minPn == 0 && r.invocations > 2
    requires var n := s.appReadNext.value; n.epoch == 4 && n.used == Range(0, 0) && n.minPn == 0 && n.invocations > 2
    requires s.appWrite.value.epoch == 3
    ensures SelectRx(s, true) == Some(NextKey) && ReceiveWith(s, NextKey, pn, 9).Ok?
    ensures var s' := ReceiveWith(s, NextKey, pn, 9).value;
      && s'.appRead == s.appRead && s'.appReadNext.Some? && s'.zeroRtt.None? && s'.readUpdateTime == Some(9)
      && s'.appWrite == Some(Next(s.appWrite.value))
      && s'.appReadNext.value == s.appReadNext.value.(
        used := Range(1, pn + 1), minPn := 1, invocations := s.appReadNext.value.invocations - 1)
  {
  }

  /** One packet under the first read key, then packet `pn` under the next one. */
  lemma AfterOneUpdate(pn: nat) returns (w: World)
    requires pn >= 1
    ensures Reachable(w) && w.accepted == [Accepted(3, 0), Accepted(4, pn)]
    ensures ReadSide.KeysHeld(w.st) && w.st.zeroRtt.None?
    ensures var r := w.st.appRead.value; r.epoch == 3 && r.used == Range(0, 1) && r.minPn == 0 && r.invocations > 1
    ensures var n := w.st.appReadNext.value;
      n.epoch == 4 && n.used == Range(1, pn + 1) && n.minPn == 1 && n.invocations > 1
    ensures w.st.appWrite.value.epoch == 4 && w.st.readUpdateTime == Some(9) && w.turns == [ByPeer]
    ensures w.st.appWrite.value.invocations == Limit(Write, Aes128Gcm)
  {
    var w1 := AfterFirstPacket();
    FirstUpdate(w1.st, pn);
    w := Step(w1, Receive(pn, true, 9)).value;
    ReachableStep(w1, Receive(pn, true, 9));
  }

  /** A delayed packet below every number of the new epoch can still be refused: number 3, after 0 and then 5. */
  lemma DelayedPacketRefused() returns (w: World)
    ensures Reachable(w) && SelectRx(w.st, false) == Some(CurrentKey)
    ensures forall a :: a in w.accepted && a.epoch == 4 ==> 3 < a.pn
    ensures ReceiveWith(w.st, CurrentKey, 3, 9) == Err(PacketNumberOverlap)
  {
    w := AfterOneUpdate(5);
  }

  /** The packet is the first in the key's range, or repeats or precedes the only one, past the first key. */
  predicate LooksLikeUpdate(d: Dx, pn: nat) {
    d.epoch > APPLICATION && (d.used.Empty() || (d.used.start + 1 == d.used.end && pn <= d.used.start))
  }

  /**
   * With no rotation pending, a packet under the current key starts one exactly when that key is past the
   * first and the packet is the first of its range, or repeats (or precedes) the only one.
   */
  lemma CurrentKeyStartsRotation(w: World, pn: nat, at: Instant)
    requires Reachable(w) && w.st.appRead.Some? && w.st.readUpdateTime.None?
    requires ReceiveWith(w.st, CurrentKey, pn, at).Ok?
    ensures var r := w.st.appRead.value;
      ReadSide.RotationPending(ReceiveWith(w.st, CurrentKey, pn, at).value) <==> LooksLikeUpdate(r, pn)
  {
    ReadSide.ReachableInv(w);
  }

  /**
   * Under either key, with or without a timer: an accepted packet sets the deadline of the rotation exactly when it
   * looks like the first of an update, which also ends 0-RTT; otherwise it leaves both alone.
   */
  lemma ReceiptSetsDeadline(w: World, k: ReadKey, pn: nat, at: Instant)
    requires Reachable(w) && w.st.appRead.Some? && w.st.appReadNext.Some? && ReceiveWith(w.st, k, pn, at).Ok?
    ensures ReceiveWith(w.st, k, pn, at).value.readUpdateTime ==
      if LooksLikeUpdate(RxKey(w.st, k), pn) then Some(at) else w.st.readUpdateTime
    ensures ReceiveWith(w.st, k, pn, at).value.zeroRtt ==
      if LooksLikeUpdate(RxKey(w.st, k), pn) then None else w.st.zeroRtt
  {
    ReadSide.ReachableInv(w);
  }

  /** While a rotation is pending, each repeat of the only packet under the next key puts it off. */
  lemma RepeatPostponesRotation(at: Instant) returns (w: World)
    ensures Reachable(w) && w.st.readUpdateTime == Some(9) && w.st.appReadNext.Some?
    ensures w.accepted == [Accepted(3, 0), Accepted(4, 1)] && SelectRx(w.st, true) == Some(NextKey)
    ensures var r := ReceiveWith(w.st, NextKey, 1, at);
      && r.Ok? && r.value.readUpdateTime == Some(at) && r.value.appReadNext.Some?
      && r.value.appReadNext.value.used == w.st.appReadNext.value.used
      && LooksLikeUpdate(r.value.appReadNext.value, 1)
  {
    w := AfterOneUpdate(1);
  }

  lemma AfterRotation() returns (w: World)
    ensures Reachable(w) && w.accepted == [Accepted(3, 0), Accepted(4, 1)]
    ensures ReadSide.KeysHeld(w.st) && w.st.zeroRtt.None? && w.st.readUpdateTime.None?
    ensures w.st.appRead.value.epoch == 4 && w.st.appRead.value.used == Range(1, 2)
    ensures w.st.appRead.value.minPn == 1 && w.st.appRead.value.invocations > 1
    ensures w.st.appWrite.value.epoch == 4 && w.st.appReadNext.value.used == Range(2, 2)
    ensures w.turns == [ByPeer, Rotated] && w.st.appWrite.value.invocations == Limit(Write, Aes128Gcm)
  {
    var w1 := AfterOneUpdate(1);
    w := Step(w1, Timer(9)).value;
    ReachableStep(w1, Timer(9));
  }

  /** Such a repeat moves the write key on although the peer changed keys once only. */
  lemma RepeatStartsRotation() returns (w: World)
    ensures Reachable(w) && w.accepted == [Accepted(3, 0), Accepted(4, 1)]
    ensures w.st.appRead.Some? && w.st.readUpdateTime.None?
    ensures var r := ReceiveWith(w.st, CurrentKey, 1, 20);
      r.Ok? && ReadSide.RotationPending(r.value) && r.value.appWrite.Some? && r.value.appWrite.value.epoch == 5
  {
    w := AfterRotation();
  }

  // ---- an update that nothing acknowledged ----

  /** One empty packet in the application space costs the write key one invocation. */
  lemma SendOne(w: World) returns (w': World)
    requires Reachable(w) && w.st.appWrite.Some? && w.st.appWrite.value.invocations > 0
    ensures Reachable(w') && w'.turns == w.turns && w'.st.appWrite.Some?
    ensures w'.st == w.st.(appWrite := w'.st.appWrite) && w'.st.appWrite.value.epoch == w.st.appWrite.value.epoch
    ensures w'.st.appWrite.value.invocations == w.st.appWrite.value.invocations - 1
  {
    SendSide.ReachableInv(w);
    var d := w.st.appWrite.value;
    assert SendSide.TxOk(SendSide.Tx(w.st, SendSide.AtApplication).value, w.sent, w.nextSecret);
    var e := Transmit(0, ApplicationSpace, 0);
    assert Encrypt(d, NextPn(d), 0).Ok?;
    w' := Step(w, e).value;
    ReachableStep(w, e);
  }

  /** Sending spends the budget down to where `auto_update` acts. */
  lemma {:induction false} SendDown(w: World) returns (w': World)
    requires Reachable(w) && w.st.appWrite.Some? && w.st.appWrite.value.invocations >= 100
    ensures Reachable(w') && w'.turns == w.turns && w'.st.appWrite.Some?
    ensures w'.st == w.st.(appWrite := w'.st.appWrite) && w'.st.appWrite.value.epoch == w.st.appWrite.value.epoch
    ensures w'.st.appWrite.value.invocations == 100
    decreases w.st.appWrite.value.invocations
  {
    if w.st.appWrite.value.invocations == 100 {
      w' := w;
    } else {
      var w1 := SendOne(w);
      w' := SendDown(w1);
    }
  }

  /**
   * `auto_update` leaves a key past the first although nothing was ever acknowledged: the same state in which an
   * update of one's own accord is refused for want of an acknowledgement.
   */
  lemma AutoUpdateUnacknowledged() returns (w: World)
    ensures Reachable(w) && w.turns == [ByPeer, Rotated] && w.st.appWrite.Some? && w.st.appWrite.value.epoch == 4
    ensures InitiateKeyUpdate(w.st, None) == Err(KeyUpdateBlocked)
    ensures AutoUpdate(w.st).Ok? && AutoUpdate(w.st).value.appWrite == Some(Next(w.st.appWrite.value))
    ensures Step(w, Auto).Ok? && Step(w, Auto).value.turns == [ByPeer, Rotated, Exhausted(100)]
  {
    var w1 := AfterRotation();
    w := SendDown(w1);
  }

  // ---- timers and updates, exactly ----

  /**
   * A timer check rotates the read keys exactly when a rotation is pending and its time has come, and then the next
   * key takes over; it drops lingering 0-RTT read keys exactly when their time has come; otherwise it changes nothing.
   */
  lemma TimerActsInTime(w: World, now: Instant)
    requires Reachable(w)
    ensures Step(w, Timer(now)).Ok?
    ensures var s, s' := w.st, Step(w, Timer(now)).value.st;
      var due := s.readUpdateTime.Some? && now >= s.readUpdateTime.value;
      && (s'.appRead != s.appRead <==> due && !HasZeroRttRead(s))
      && (s'.appRead != s.appRead ==>
            && s'.appRead == s.appReadNext && s.appReadNext.Some? && s'.readUpdateTime.None?
            && s'.appReadNext == Some(Next(s.appReadNext.value)))
      && (HasZeroRttRead(s) && !HasZeroRttRead(s') <==> due && HasZeroRttRead(s))
      && (HasZeroRttRead(s) && !HasZeroRttRead(s') ==> s' == s.(zeroRtt := None, readUpdateTime := None))
      && (!due ==> s' == s)
  {
    ReadSide.ReachableInv(w);
  }

  /**
   * An update of one's own accord succeeds exactly when no read timer runs, the write key is level with the read key,
   * and a packet sent under it was acknowledged, or it is the first and nothing was.
   */
  lemma InitiateSucceedsExactly(w: World, la: Option<nat>)
    requires Reachable(w) && w.st.appRead.Some?
    ensures w.st.appWrite.Some?
    ensures var d := w.st.appWrite.value;
      InitiateKeyUpdate(w.st, la).Ok? <==>
      && w.st.readUpdateTime.None? && d.epoch == w.st.appRead.value.epoch
      && (match la case None => d.key.generation == 0 case Some(pn) => SendSide.SentUnder(w.sent, d.key, pn))
  {
    ReadSide.ReachableInv(w);
    SendSide.AppNumbersAreConsecutive(w);
    var es :| Run(START, es) == Ok(w);
    RunKeepsInv(es);
    if la.Some? {
      var d := w.st.appWrite.value;
      assert d.used.Contains(la.value) <==> SendSide.SentUnder(w.sent, d.key, la.value);
    }
  }
}
