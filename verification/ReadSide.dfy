/** The read side: epochs stay in step and packet numbers follow them. */
module ReadSide {
  import opened Prelude
  import opened CryptoDx
  import opened CryptoStates
  import opened KeyRuns

  /** A read-key timer that will rotate keys, rather than expire 0-RTT. */
  predicate RotationPending(s: States) {
    s.readUpdateTime.Some? && !HasZeroRttRead(s)
  }

  predicate KeysHeld(s: States) {
    s.appRead.Some? && s.appReadNext.Some? && s.appWrite.Some?
  }

  predicate EpochsInStep(s: States)
    requires KeysHeld(s)
  {
    var w, r, n := s.appWrite.value, s.appRead.value, s.appReadNext.value;
    && r.epoch >= APPLICATION
    && n.epoch == r.epoch + 1
    && (w.epoch == r.epoch || w.epoch == r.epoch + 1)
    && (RotationPending(s) ==> w.epoch == r.epoch + 1)
  }

  /** The next key is used only while a rotation is pending, and then starts where the current one ended. */
  predicate RangesInStep(s: States)
    requires KeysHeld(s)
  {
    var r, n := s.appRead.value, s.appReadNext.value;
    && r.minPn <= r.used.end && r.used.start <= r.used.end
    && n.used.start <= n.used.end
    && (r.used.Empty() ==> r.minPn == r.used.start)
    && (n.used.Empty() ==> n.minPn == n.used.start)
    && (!n.used.Empty() ==> RotationPending(s))
    && (RotationPending(s) ==> n.minPn == r.used.end && n.used.start == r.used.end)
  }

  /** Where the accepted packets of each epoch lie. */
  predicate AcceptedInStep(s: States, accepted: seq<Accepted>)
    requires KeysHeld(s)
  {
    var r, n := s.appRead.value, s.appReadNext.value;
    forall a :: a in accepted ==>
      && (a.epoch < r.epoch ==> a.pn < r.minPn)
      && (a.epoch == r.epoch ==> r.minPn <= a.pn < r.used.end)
      && (a.epoch == r.epoch + 1 ==> n.used.start <= a.pn < n.used.end)
      && a.epoch <= r.epoch + 1
  }

  predicate EpochOrdered(accepted: seq<Accepted>) {
    forall a, b :: a in accepted && b in accepted && a.epoch < b.epoch ==> a.pn < b.pn
  }

  predicate BeforeReadKeys(s: States) {
    && s.appRead.None? && s.readUpdateTime.None? && s.appReadNext.None?
    && (s.appWrite.Some? ==> s.appWrite.value.epoch == APPLICATION)
    && (s.zeroRtt.Some? && s.appWrite.Some? ==> s.zeroRtt.value.direction.Read?)
  }

  predicate WithReadKeys(s: States) {
    && KeysHeld(s)
    && (s.zeroRtt.Some? ==> s.zeroRtt.value.direction.Read? && s.readUpdateTime.Some?)
    && EpochsInStep(s)
    && RangesInStep(s)
  }

  predicate Inv(w: World) {
    if w.st.appRead.None? then BeforeReadKeys(w.st) && w.accepted == []
    else WithReadKeys(w.st) && AcceptedInStep(w.st, w.accepted) && EpochOrdered(w.accepted)
  }

  /** The key-state part of a receipt under the current read key. */
  lemma ReceiveCurrent(s: States, pn: nat, at: Instant)
    requires WithReadKeys(s) && ReceiveWith(s, CurrentKey, pn, at).Ok?
    ensures var s' := ReceiveWith(s, CurrentKey, pn, at).value;
      && WithReadKeys(s')
      && s'.appRead.value.epoch == s.appRead.value.epoch
      && s'.appRead.value.minPn == s.appRead.value.minPn <= pn < s'.appRead.value.used.end
      && s.appRead.value.used.end <= s'.appRead.value.used.end
      && (!s.appReadNext.value.used.Empty() ==> s'.appReadNext == s.appReadNext)
  {
  }

  /** The key-state part of a receipt under the next read key. */
  lemma ReceiveNext(s: States, pn: nat, at: Instant)
    requires WithReadKeys(s) && ReceiveWith(s, NextKey, pn, at).Ok?
    ensures var s' := ReceiveWith(s, NextKey, pn, at).value;
      && WithReadKeys(s')
      && s'.appRead == s.appRead
      && s'.appReadNext.value.used.start <= pn < s'.appReadNext.value.used.end
      && s.appReadNext.value.used.end <= s'.appReadNext.value.used.end
      && (!s.appReadNext.value.used.Empty() ==> s'.appReadNext.value.used.start == s.appReadNext.value.used.start)
  {
  }

  /** A packet accepted under the current or the next key lands above every earlier epoch. */
  lemma AcceptKeepsOrder(s: States, s': States, acc: seq<Accepted>, a: Accepted)
    requires WithReadKeys(s) && WithReadKeys(s') && AcceptedInStep(s, acc) && EpochOrdered(acc)
    requires AcceptedInStep(s', acc + [a])
    requires s'.appRead.value.epoch == s.appRead.value.epoch <= a.epoch
    requires a.epoch == s'.appRead.value.epoch + 1 ==> RotationPending(s')
    ensures EpochOrdered(acc + [a])
  {
    forall b, c | b in acc + [a] && c in acc + [a] && b.epoch < c.epoch
      ensures b.pn < c.pn
    {
      assert b in acc || b == a;
      assert c in acc || c == a;
    }
  }

  lemma ReceiveKeepsInv(w: World, e: Event)
    requires e.Receive? && Inv(w) && Step(w, e).Ok?
    ensures Inv(Step(w, e).value)
  {
    var k := SelectRx(w.st, e.phase);
    if k.Some? {
      var w' := Step(w, e).value;
      var a := Accepted(RxKey(w.st, k.value).epoch, e.pn);
      if k.value.CurrentKey? {
        ReceiveCurrent(w.st, e.pn, e.releaseAt);
      } else {
        ReceiveNext(w.st, e.pn, e.releaseAt);
      }
      assert AcceptedInStep(w'.st, w.accepted);
      assert AcceptedInStep(w'.st, w.accepted + [a]);
      AcceptKeepsOrder(w.st, w'.st, w.accepted, a);
    }
  }

  /** Rotation turns the next key's range into the current one. */
  lemma RotationKeepsInv(w: World, e: Event)
    requires e.Timer? && Inv(w) && Step(w, e).Ok?
    ensures Inv(Step(w, e).value)
  {
  }

  lemma UpdateKeepsInv(w: World, e: Event)
    requires e.Initiate? || e.Auto?
    requires Inv(w) && Step(w, e).Ok?
    ensures Inv(Step(w, e).value)
  {
  }

  lemma SendKeepsInv(w: World, e: Event)
    requires e.Transmit?
    requires Inv(w) && Step(w, e).Ok?
    ensures Inv(Step(w, e).value)
  {
    TransmitChanges(w, e);
    var tx := SelectTx(w.st, e.version, e.space).value;
    EncryptKeepsKey(tx, NextPn(tx), e.bodyLen);
    ReencryptKeepsInv(w, Step(w, e).value, Encrypt(tx, NextPn(tx), e.bodyLen).value);
  }

  /** A write key that stays the same key, whatever its range and budget, concerns no read key. */
  lemma ReencryptKeepsInv(w: World, w': World, d: Dx)
    requires Inv(w) && w'.accepted == w.accepted
    requires w'.st == w.st.(appWrite := w'.st.appWrite, zeroRtt := w'.st.zeroRtt, initials := w'.st.initials,
                            handshake := w'.st.handshake)
    requires w'.st.appWrite == w.st.appWrite ||
      (w.st.appWrite.Some? && w'.st.appWrite == Some(d) && d.epoch == w.st.appWrite.value.epoch)
    requires w'.st.zeroRtt == w.st.zeroRtt ||
      (w.st.zeroRtt.Some? && w'.st.zeroRtt == Some(d) && d.direction == w.st.zeroRtt.value.direction)
    ensures Inv(w')
  {
  }

  lemma ForgedKeepsInv(w: World, e: Event)
    requires e.Forged? && Inv(w) && Step(w, e).Ok?
    ensures Inv(Step(w, e).value)
  {
  }

  lemma EarlyKeepsInv(w: World, e: Event)
    requires e.Early? && Inv(w) && Step(w, e).Ok?
    ensures Inv(Step(w, e).value)
  {
  }

  lemma RejectKeepsInv(w: World, e: Event)
    requires e.Forged? || e.Early? || e.Recheck?
    requires Inv(w) && Step(w, e).Ok?
    ensures Inv(Step(w, e).value)
  {
    if e.Forged? { ForgedKeepsInv(w, e); } else if e.Early? { EarlyKeepsInv(w, e); }
  }

  lemma InstallKeepsInv(w: World, e: Event)
    requires (e.ReadKeys? || !Runtime(e)) && !e.Transmit?
    requires Inv(w) && Step(w, e).Ok?
    ensures Inv(Step(w, e).value)
  {
    if e.Initials? { InitOnlyInitials(w.st, e.versions, w.nextSecret, e.minPn); }
  }

  lemma StepKeepsInv(w: World, e: Event)
    requires Inv(w) && Step(w, e).Ok?
    ensures Inv(Step(w, e).value)
  {
    if e.Receive? { ReceiveKeepsInv(w, e); }
    else if e.Timer? { RotationKeepsInv(w, e); }
    else if e.Initiate? || e.Auto? { UpdateKeepsInv(w, e); }
    else if e.Transmit? { SendKeepsInv(w, e); }
    else if e.Forged? || e.Early? || e.Recheck? { RejectKeepsInv(w, e); }
    else { InstallKeepsInv(w, e); }
  }

  lemma {:induction false} RunKeepsInv(w: World, es: seq<Event>)
    requires Inv(w) && Run(w, es).Ok?
    ensures Inv(Run(w, es).value)
  {
    if es != [] {
      RunKeepsInv(w, es[..|es| - 1]);
      StepKeepsInv(Run(w, es[..|es| - 1]).value, es[|es| - 1]);
    }
  }

  lemma ReachableInv(w: World)
    requires Reachable(w)
    ensures Inv(w)
  {
    var es :| Run(START, es) == Ok(w);
    RunKeepsInv(START, es);
  }

  /**
   * Section 6.4 of RFC 9001: in every error-free run, every packet number accepted under one read
   * epoch is below every packet number accepted under a later one, in whatever order they arrived.
   */
  lemma AcceptedNumbersFollowEpochs(w: World, a: Accepted, b: Accepted)
    requires Reachable(w) && a in w.accepted && b in w.accepted && a.epoch < b.epoch
    ensures a.pn < b.pn
  {
    ReachableInv(w);
  }

  // ---- early data comes first ----

  /** The numbers accepted under the 0-RTT read key that was held when the application read key came, or is held yet. */
  function EarlyNumbers(es: seq<Event>): seq<nat>
    requires Run(START, es).Ok?
  {
    if es == [] then []
    else
      var w, e, before := Run(START, es[..|es| - 1]).value, es[|es| - 1], EarlyNumbers(es[..|es| - 1]);
      if e.ZeroRtt? || e.DropZeroRtt? || e.WriteKey? then []
      else if e.Early? && HasZeroRttRead(w.st) && w.st.appRead.None? then before + [e.pn]
      else before
  }

  predicate AllBelow(ns: seq<nat>, n: nat) { forall k :: 0 <= k < |ns| ==> ns[k] < n }

  /** They lie below everything the application read keys accept. */
  predicate EarlyBelow(w: World, early: seq<nat>) {
    if w.st.appRead.None? then early == [] || (HasZeroRttRead(w.st) && AllBelow(early, w.st.zeroRtt.value.used.end))
    else AllBelow(early, w.st.appRead.value.minPn) && forall a :: a in w.accepted ==> AllBelow(early, a.pn)
  }

  lemma ReceiveKeepsEarly(w: World, e: Event, early: seq<nat>)
    requires e.Receive? && Inv(w) && Step(w, e).Ok? && EarlyBelow(w, early)
    ensures EarlyBelow(Step(w, e).value, early)
  {
    var k := SelectRx(w.st, e.phase);
    if k.Some? {
      if k.value.CurrentKey? { ReceiveCurrent(w.st, e.pn, e.releaseAt); } else { ReceiveNext(w.st, e.pn, e.releaseAt); }
    }
  }

  lemma RotationKeepsEarly(w: World, e: Event, early: seq<nat>)
    requires e.Timer? && Inv(w) && Step(w, e).Ok? && EarlyBelow(w, early)
    ensures EarlyBelow(Step(w, e).value, early)
  {
  }

  lemma PacketKeepsEarly(w: World, e: Event, early: seq<nat>)
    requires e.Forged? || e.Recheck? || (e.Early? && (w.st.appRead.Some? || !HasZeroRttRead(w.st)))
    requires Inv(w) && Step(w, e).Ok? && EarlyBelow(w, early)
    ensures EarlyBelow(Step(w, e).value, early)
  {
  }

  lemma EarlyGrows(w: World, e: Event, early: seq<nat>)
    requires e.Early? && HasZeroRttRead(w.st) && w.st.appRead.None?
    requires Inv(w) && Step(w, e).Ok? && EarlyBelow(w, early)
    ensures EarlyBelow(Step(w, e).value, early + [e.pn])
  {
  }

  lemma OthersKeepEarly(w: World, e: Event, early: seq<nat>)
    requires !e.Receive? && !e.Timer? && !e.Forged? && !e.Early? && !e.Recheck? && !e.WriteKey? && !e.ZeroRtt?
    requires !e.DropZeroRtt? && Inv(w) && Step(w, e).Ok? && EarlyBelow(w, early)
    ensures EarlyBelow(Step(w, e).value, early)
  {
    if e.Initials? {
      InitOnlyInitials(w.st, e.versions, w.nextSecret, e.minPn);
    } else if e.Transmit? {
      TransmitChanges(w, e);
      var tx := SelectTx(w.st, e.version, e.space).value;
      EncryptKeepsKey(tx, NextPn(tx), e.bodyLen);
    }
  }

  lemma StepKeepsEarly(w: World, e: Event, early: seq<nat>)
    requires Inv(w) && Step(w, e).Ok? && EarlyBelow(w, early)
    ensures EarlyBelow(Step(w, e).value,
                       if e.ZeroRtt? || e.DropZeroRtt? || e.WriteKey? then []
                       else if e.Early? && HasZeroRttRead(w.st) && w.st.appRead.None? then early + [e.pn]
                       else early)
  {
    if e.Receive? { ReceiveKeepsEarly(w, e, early); }
    else if e.Timer? { RotationKeepsEarly(w, e, early); }
    else if e.ZeroRtt? || e.DropZeroRtt? || e.WriteKey? {
    } else if e.Early? && HasZeroRttRead(w.st) && w.st.appRead.None? { EarlyGrows(w, e, early); }
    else if e.Forged? || e.Recheck? || e.Early? { PacketKeepsEarly(w, e, early); }
    else { OthersKeepEarly(w, e, early); }
  }

  lemma {:induction false} RunKeepsEarly(es: seq<Event>)
    requires Run(START, es).Ok?
    ensures EarlyBelow(Run(START, es).value, EarlyNumbers(es))
  {
    if es != [] {
      var before := es[..|es| - 1];
      RunKeepsEarly(before);
      RunKeepsInv(START, before);
      StepKeepsEarly(Run(START, before).value, es[|es| - 1], EarlyNumbers(before));
    }
  }

  /** In every run, 1-RTT numbers lie above every 0-RTT number accepted before the application read key came. */
  lemma EarlyNumbersComeFirst(es: seq<Event>, early: nat, a: Accepted)
    requires Run(START, es).Ok? && early in EarlyNumbers(es) && a in Run(START, es).value.accepted
    ensures early < a.pn
  {
    RunKeepsEarly(es);
    RunKeepsInv(START, es);
  }

  // ---- only application keys turn ----

  predicate EpochsOf(p: Pair, epoch: nat) { p.tx.epoch == epoch && p.rx.epoch == epoch }

  predicate LowEpochs(s: States) {
    && (forall v :: v in s.initials ==> EpochsOf(s.initials[v], 0))
    && (s.zeroRtt.Some? ==> s.zeroRtt.value.epoch == 1)
    && (s.handshake.Some? ==> EpochsOf(s.handshake.value, 2))
  }

  lemma {:induction false} InitKeepsEpochs(s: States, vs: seq<Version>, secret: nat, minPn: nat)
    requires LowEpochs(s) && Init(s, vs, secret, minPn).Ok?
    ensures LowEpochs(Init(s, vs, secret, minPn).value)
    decreases |vs|
  {
    if vs != [] { InitKeepsEpochs(InitVersion(s, vs[0], secret, minPn).value, vs[1..], secret + 2, minPn); }
  }

  lemma SendKeepsEpochs(w: World, e: Event)
    requires e.Transmit? && LowEpochs(w.st) && Step(w, e).Ok?
    ensures LowEpochs(Step(w, e).value.st)
  {
    TransmitChanges(w, e);
    var tx := SelectTx(w.st, e.version, e.space).value;
    EncryptKeepsKey(tx, NextPn(tx), e.bodyLen);
  }

  lemma RuntimeKeepsEpochs(w: World, e: Event)
    requires Runtime(e) && LowEpochs(w.st) && Step(w, e).Ok?
    ensures LowEpochs(Step(w, e).value.st)
  {
    WriteKeyMoves(w, e);
    if e.Receive? {
      var k := SelectRx(w.st, e.phase);
      if k.Some? { ReceiveMoves(w.st, k.value, e.pn, e.releaseAt); }
    }
  }

  lemma StepKeepsEpochs(w: World, e: Event)
    requires LowEpochs(w.st) && Step(w, e).Ok?
    ensures LowEpochs(Step(w, e).value.st)
  {
    if e.Initials? { InitKeepsEpochs(w.st, e.versions, w.nextSecret, e.minPn); }
    else if e.Transmit? { SendKeepsEpochs(w, e); }
    else if Runtime(e) { RuntimeKeepsEpochs(w, e); }
  }

  lemma {:induction false} RunKeepsEpochs(es: seq<Event>)
    requires Run(START, es).Ok?
    ensures LowEpochs(Run(START, es).value.st)
  {
    if es != [] {
      RunKeepsEpochs(es[..|es| - 1]);
      StepKeepsEpochs(Run(START, es[..|es| - 1]).value, es[|es| - 1]);
    }
  }

  /** No packet under an Initial, Handshake or 0-RTT key ever looks like a key update. */
  lemma OnlyApplicationKeysTurn(w: World)
    requires Reachable(w)
    ensures forall v :: v in w.st.initials ==> EpochsOf(w.st.initials[v], 0) && !NeedsUpdate(w.st.initials[v].rx)
    ensures w.st.zeroRtt.Some? ==> w.st.zeroRtt.value.epoch == 1 && !NeedsUpdate(w.st.zeroRtt.value)
    ensures w.st.handshake.Some? ==> EpochsOf(w.st.handshake.value, 2) && !NeedsUpdate(w.st.handshake.value.rx)
  {
    var es :| Run(START, es) == Ok(w);
    RunKeepsEpochs(es);
  }
}
