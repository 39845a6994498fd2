/** The read side's budget, section 6.6 of RFC 9001: how often one key is tried on packets, authentic or forged. */
module ReadBudget {
  import opened Prelude
  import opened CryptoDx
  import opened CryptoStates
  import opened KeyRuns

  /** The key an event tries on a packet. */
  function Tries(w: World, e: Event): seq<Key> {
    match e
    case Receive(_, phase, _) => TriesRx(w.st, phase)
    case Forged(phase) => TriesRx(w.st, phase)
    case Early(_) => if HasZeroRttRead(w.st) then [w.st.zeroRtt.value.key] else []
    case _ => []
  }

  function TriesRx(s: States, phase: bool): seq<Key> {
    var k := SelectRx(s, phase);
    if k.Some? then [RxKey(s, k.value).key] else []
  }

  function Tried(es: seq<Event>): seq<Key>
    requires Run(START, es).Ok?
  {
    if es == [] then []
    else Tried(es[..|es| - 1]) + Tries(Run(START, es[..|es| - 1]).value, es[|es| - 1])
  }

  function Count(tried: seq<Key>, key: Key): nat {
    if tried == [] then 0 else Count(tried[..|tried| - 1], key) + if tried[|tried| - 1] == key then 1 else 0
  }

  lemma CountMore(tried: seq<Key>, more: seq<Key>, key: Key)
    requires |more| <= 1
    ensures Count(tried + more, key) == Count(tried, key) + if more == [key] then 1 else 0
  {
    if more == [] {
      assert tried + more == tried;
    } else {
      assert (tried + more)[..|tried + more| - 1] == tried;
    }
  }

  lemma {:induction false} NeverTried(tried: seq<Key>, key: Key)
    requires key !in tried
    ensures Count(tried, key) == 0
  {
    if tried != [] { NeverTried(tried[..|tried| - 1], key); }
  }

  // ---- the live read keys ----

  datatype Slot = AtZeroRtt | AtCurrent | AtNext

  /** A read key and the invocations it has left. */
  datatype Purse = Purse(key: Key, left: nat)

  function PurseOf(d: Dx): Purse { Purse(d.key, d.invocations) }

  function Held(s: States, slot: Slot): Option<Purse> {
    match slot
    case AtZeroRtt => if HasZeroRttRead(s) then Some(PurseOf(s.zeroRtt.value)) else None
    case AtCurrent => if s.appRead.Some? then Some(PurseOf(s.appRead.value)) else None
    case AtNext => if s.appReadNext.Some? then Some(PurseOf(s.appReadNext.value)) else None
  }

  ghost predicate Funded(p: Purse, tried: seq<Key>, bound: nat) {
    && p.key.secret < bound
    && Count(tried, p.key) + p.left <= Limit(Read, p.key.cipher)
  }

  /** The two application keys are neighbours on one ladder, and nothing beyond them was tried. */
  ghost predicate Ladder(s: States, tried: seq<Key>) {
    var r, n := Held(s, AtCurrent), Held(s, AtNext);
    && (r.Some? <==> n.Some?)
    && (r.Some? ==>
          && n.value.key == r.value.key.(generation := r.value.key.generation + 1)
          && (Held(s, AtZeroRtt).Some? ==> Held(s, AtZeroRtt).value.key.secret != r.value.key.secret)
          && forall k :: k in tried && k.secret == r.value.key.secret ==> k.generation <= n.value.key.generation)
  }

  ghost predicate Inv(s: States, tried: seq<Key>, bound: nat) {
    && (forall slot :: Held(s, slot).Some? ==> Funded(Held(s, slot).value, tried, bound))
    && Ladder(s, tried)
    && (forall k :: k in tried ==> k.secret < bound)
    && (forall key :: Count(tried, key) <= Limit(Read, key.cipher))
  }

  // ---- steps ----

  /** Nothing is tried, and every read key stays as it is, or 0-RTT goes. */
  predicate Stays(s: States, s': States) {
    && (Held(s', AtZeroRtt) == Held(s, AtZeroRtt) || Held(s', AtZeroRtt).None?)
    && Held(s', AtCurrent) == Held(s, AtCurrent) && Held(s', AtNext) == Held(s, AtNext)
  }

  lemma StayKeepsInv(s: States, s': States, tried: seq<Key>, bound: nat, bound': nat)
    requires Inv(s, tried, bound) && bound <= bound' && Stays(s, s')
    ensures Inv(s', tried, bound')
  {
  }

  /** One key is tried once, the others stay, or 0-RTT goes. */
  predicate Spends(s: States, s': States, slot: Slot) {
    && Held(s, slot).Some? && Held(s, slot).value.left > 0
    && Held(s', slot) == Some(Held(s, slot).value.(left := Held(s, slot).value.left - 1))
    && (slot != AtZeroRtt ==> Held(s', AtZeroRtt) == Held(s, AtZeroRtt) || Held(s', AtZeroRtt).None?)
    && (slot != AtCurrent ==> Held(s', AtCurrent) == Held(s, AtCurrent))
    && (slot != AtNext ==> Held(s', AtNext) == Held(s, AtNext))
  }

  lemma SpendKeepsInv(s: States, s': States, slot: Slot, tried: seq<Key>, bound: nat)
    requires Inv(s, tried, bound) && Spends(s, s', slot)
    ensures Inv(s', tried + [Held(s, slot).value.key], bound)
  {
    var key := Held(s, slot).value.key;
    forall k ensures Count(tried + [key], k) == Count(tried, k) + if k == key then 1 else 0 {
      CountMore(tried, [key], k);
    }
    assert Funded(Held(s, slot).value, tried, bound);
    forall t | Held(s', t).Some? ensures Funded(Held(s', t).value, tried + [key], bound) {
      assert Funded(Held(s, t).value, tried, bound);
    }
  }

  /** The current key goes, the next takes its place, and the one after it is derived. */
  lemma RotateKeepsInv(s: States, s': States, tried: seq<Key>, bound: nat)
    requires Inv(s, tried, bound) && s.appReadNext.Some? && s.appReadNext.value.direction.Read?
    requires s'.appRead == s.appReadNext && s'.appReadNext == Some(Next(s.appReadNext.value)) && s'.zeroRtt == s.zeroRtt
    ensures Inv(s', tried, bound)
  {
    var n := Held(s, AtNext).value;
    assert Funded(n, tried, bound);
    NeverTried(tried, n.key.(generation := n.key.generation + 1));
  }

  lemma InstallKeepsInv(s: States, s': States, tried: seq<Key>, bound: nat, cipher: Cipher)
    requires Inv(s, tried, bound) && s.appRead.None? && s'.zeroRtt == s.zeroRtt
    requires s'.appRead.Some? && PurseOf(s'.appRead.value) == Purse(Key(bound, 0, cipher), Limit(Read, cipher))
    requires s'.appRead.value.direction.Read? && s'.appReadNext == Some(Next(s'.appRead.value))
    ensures Inv(s', tried, bound + 1)
  {
    NeverTried(tried, Key(bound, 0, cipher));
    NeverTried(tried, Key(bound, 1, cipher));
    if Held(s, AtZeroRtt).Some? { assert Funded(Held(s, AtZeroRtt).value, tried, bound); }
  }

  lemma EarlyKeysKeepInv(s: States, direction: Direction, tried: seq<Key>, bound: nat, cipher: Cipher)
    requires Inv(s, tried, bound) && s.zeroRtt.None? && s.appRead.None?
    ensures Inv(SetZeroRttKeys(s, direction, bound, cipher), tried, bound + 1)
  {
    NeverTried(tried, Key(bound, 0, cipher));
    assert Held(s, AtNext).None?;
  }

  // ---- events ----

  /** The application read keys are read keys. */
  predicate Directed(s: States) {
    && (s.appRead.Some? ==> s.appRead.value.direction.Read?)
    && (s.appReadNext.Some? ==> s.appReadNext.value.direction.Read?)
  }

  function SlotOf(k: ReadKey): Slot { match k case CurrentKey => AtCurrent case NextKey => AtNext }

  lemma OverlapKeepsPurses(s: States)
    requires CheckPnOverlap(s).Ok?
    ensures var s' := CheckPnOverlap(s).value;
      Stays(s, s') && s'.zeroRtt == s.zeroRtt && (Directed(s) ==> Directed(s')) && s'.appRead == s.appRead
  {
  }

  lemma UpdateKeepsPurses(s: States, at: Instant)
    requires KeyUpdateReceived(s, at).Ok?
    ensures Stays(s, KeyUpdateReceived(s, at).value) && (Directed(s) ==> Directed(KeyUpdateReceived(s, at).value))
  {
  }

  lemma DecryptSpends(d: Dx, pn: nat)
    requires DecryptPacket(d, pn).Ok?
    ensures d.invocations > 0
    ensures var d' := DecryptPacket(d, pn).value;
      PurseOf(d') == Purse(d.key, d.invocations - 1) && d'.direction == d.direction
  {
  }

  lemma ReceiptSpends(s: States, k: ReadKey, pn: nat, at: Instant)
    requires match k case CurrentKey => s.appRead.Some? case NextKey => s.appReadNext.Some?
    requires Directed(s) && ReceiveWith(s, k, pn, at).Ok?
    ensures Spends(s, ReceiveWith(s, k, pn, at).value, SlotOf(k)) && Directed(ReceiveWith(s, k, pn, at).value)
  {
    DecryptSpends(RxKey(s, k), pn);
    var d := DecryptPacket(RxKey(s, k), pn).value;
    var s1 := WithRx(s, k, d);
    if NeedsUpdate(d) {
      UpdateKeepsPurses(s1, at);
      OverlapKeepsPurses(KeyUpdateReceived(s1, at).value);
    } else {
      OverlapKeepsPurses(s1);
    }
  }

  lemma ForgerySpends(s: States, k: ReadKey)
    requires match k case CurrentKey => s.appRead.Some? case NextKey => s.appReadNext.Some?
    requires Directed(s) && RejectWith(s, k).Ok?
    ensures Spends(s, RejectWith(s, k).value, SlotOf(k)) && Directed(RejectWith(s, k).value)
  {
  }

  lemma EarlySpends(s: States, pn: nat)
    requires Directed(s) && HasZeroRttRead(s) && ReceiveZeroRtt(s, pn).Ok?
    ensures Spends(s, ReceiveZeroRtt(s, pn).value, AtZeroRtt) && Directed(ReceiveZeroRtt(s, pn).value)
  {
    DecryptSpends(s.zeroRtt.value, pn);
    OverlapKeepsPurses(s.(zeroRtt := Some(DecryptPacket(s.zeroRtt.value, pn).value)));
  }

  ghost predicate Good(w: World, tried: seq<Key>) { Inv(w.st, tried, w.nextSecret) && Directed(w.st) }

  lemma PacketKeepsGood(w: World, e: Event, tried: seq<Key>)
    requires Good(w, tried) && Step(w, e).Ok? && (e.Receive? || e.Forged? || e.Early?)
    ensures Good(Step(w, e).value, tried + Tries(w, e))
  {
    if Tries(w, e) == [] {
      assert tried + [] == tried;
    } else if e.Early? {
      EarlySpends(w.st, e.pn);
      SpendKeepsInv(w.st, Step(w, e).value.st, AtZeroRtt, tried, w.nextSecret);
    } else {
      var k := SelectRx(w.st, e.phase).value;
      if e.Receive? { ReceiptSpends(w.st, k, e.pn, e.releaseAt); } else { ForgerySpends(w.st, k); }
      SpendKeepsInv(w.st, Step(w, e).value.st, SlotOf(k), tried, w.nextSecret);
    }
  }

  lemma KeysKeepGood(w: World, e: Event, tried: seq<Key>)
    requires Good(w, tried) && Step(w, e).Ok? && (e.ReadKeys? || e.ZeroRtt? || e.Timer?)
    ensures Good(Step(w, e).value, tried)
  {
    var s' := Step(w, e).value.st;
    match e
    case ReadKeys(_) => InstallKeepsInv(w.st, s', tried, w.nextSecret, w.st.cipher);
    case ZeroRtt(d, c) => EarlyKeysKeepInv(w.st, d, tried, w.nextSecret, c);
    case Timer(now) =>
      if s'.appRead == w.st.appRead && s'.appReadNext == w.st.appReadNext {
        StayKeepsInv(w.st, s', tried, w.nextSecret, w.nextSecret);
      } else {
        RotateKeepsInv(w.st, s', tried, w.nextSecret);
      }
  }

  predicate ReadsNothing(e: Event) {
    !e.Receive? && !e.Forged? && !e.Early? && !e.ReadKeys? && !e.ZeroRtt? && !e.Timer?
  }

  lemma TransmitStays(w: World, e: Event)
    requires e.Transmit? && Step(w, e).Ok?
    ensures Stays(w.st, Step(w, e).value.st) && (Directed(w.st) ==> Directed(Step(w, e).value.st))
  {
    TransmitChanges(w, e);
    var tx := SelectTx(w.st, e.version, e.space).value;
    EncryptKeepsKey(tx, NextPn(tx), e.bodyLen);
  }

  lemma OtherStays(w: World, e: Event)
    requires ReadsNothing(e) && Step(w, e).Ok?
    ensures Stays(w.st, Step(w, e).value.st) && (Directed(w.st) ==> Directed(Step(w, e).value.st))
    ensures w.nextSecret <= Step(w, e).value.nextSecret
  {
    if e.Initials? { InitOnlyInitials(w.st, e.versions, w.nextSecret, e.minPn); }
    else if e.Transmit? { TransmitStays(w, e); TransmitChanges(w, e); }
    else if e.Recheck? { OverlapKeepsPurses(w.st); }
  }

  lemma StepKeepsGood(w: World, e: Event, tried: seq<Key>)
    requires Good(w, tried) && Step(w, e).Ok?
    ensures Good(Step(w, e).value, tried + Tries(w, e))
  {
    if e.Receive? || e.Forged? || e.Early? {
      PacketKeepsGood(w, e, tried);
    } else {
      assert tried + [] == tried;
      if ReadsNothing(e) {
        OtherStays(w, e);
        StayKeepsInv(w.st, Step(w, e).value.st, tried, w.nextSecret, Step(w, e).value.nextSecret);
      } else {
        KeysKeepGood(w, e, tried);
      }
    }
  }

  lemma {:induction false} RunKeepsGood(es: seq<Event>)
    requires Run(START, es).Ok?
    ensures Good(Run(START, es).value, Tried(es))
  {
    if es != [] {
      RunKeepsGood(es[..|es| - 1]);
      StepKeepsGood(Run(START, es[..|es| - 1]).value, es[|es| - 1], Tried(es[..|es| - 1]));
    }
  }

  /**
   * In every run, a read key is tried at most as often as its integrity limit allows, forged packets included; and
   * what a live key has left never exceeds what remains of that.
   */
  lemma ReadLimitHolds(es: seq<Event>, key: Key)
    requires Run(START, es).Ok?
    ensures Count(Tried(es), key) <= Limit(Read, key.cipher)
    ensures forall slot :: Held(Run(START, es).value.st, slot).Some? ==>
      Funded(Held(Run(START, es).value.st, slot).value, Tried(es), Run(START, es).value.nextSecret)
  {
    RunKeepsGood(es);
  }

  /**
   * In numbers: 2^52 tries for AES-128-GCM and 2^36 for ChaCha20-Poly1305 (section 6.6 of RFC 9001), and a full
   * 64-bit count for AES-256-GCM.
   */
  lemma ReadTriesAreBounded(es: seq<Event>, key: Key)
    requires Run(START, es).Ok?
    ensures key.cipher.Aes128Gcm? ==> Count(Tried(es), key) <= 0x10_0000_0000_0000
    ensures key.cipher.ChaCha20Poly1305? ==> Count(Tried(es), key) <= 0x10_0000_0000
    ensures key.cipher.Aes256Gcm? ==> Count(Tried(es), key) <= 0xffff_ffff_ffff_ffff
  {
    ReadLimitHolds(es, key);
  }

  /** And no fewer: a key just installed, 0-RTT, application or next, has exactly that many left. */
  lemma FreshKeysHaveAll(w: World, cipher: Cipher, expire: Instant)
    requires w.st.cipher == cipher
    ensures var n := if cipher.Aes128Gcm? then 0x10_0000_0000_0000
                     else if cipher.ChaCha20Poly1305? then 0x10_0000_0000 else 0xffff_ffff_ffff_ffff;
      && (Step(w, ReadKeys(expire)).Ok? ==>
            var s := Step(w, ReadKeys(expire)).value.st;
            && s.appRead.Some? && PurseOf(s.appRead.value) == Purse(Key(w.nextSecret, 0, cipher), n)
            && s.appReadNext.Some? && PurseOf(s.appReadNext.value) == Purse(Key(w.nextSecret, 1, cipher), n))
      && (Step(w, ZeroRtt(Read, cipher)).Ok? ==>
            var s := Step(w, ZeroRtt(Read, cipher)).value.st;
            s.zeroRtt.Some? && PurseOf(s.zeroRtt.value) == Purse(Key(w.nextSecret, 0, cipher), n))
  {
    var app := NewDx(Read, APPLICATION, Key(w.nextSecret, 0, cipher), 0);
    if w.st.zeroRtt.Some? { UnusedContinues(app, w.st.zeroRtt.value); }
  }

  // ---- one limit for all read keys of a ladder ----

  function Tally(w: World, e: Event, k: ReadKey): nat {
    if (e.Receive? || e.Forged?) && SelectRx(w.st, e.phase) == Some(k) then 1 else 0
  }

  /** How often a run tried whatever key was then the current one, or the next one. */
  function TimesTried(es: seq<Event>, k: ReadKey): nat
    requires Run(START, es).Ok?
  {
    if es == [] then 0
    else TimesTried(es[..|es| - 1], k) + Tally(Run(START, es[..|es| - 1]).value, es[|es| - 1], k)
  }

  /** The next key has what the tries with next keys have left of the limit. */
  predicate AheadCounted(s: States, ahead: nat) {
    match Held(s, AtNext)
    case None => ahead == 0
    case Some(p) => ahead + p.left == Limit(Read, p.key.cipher)
  }

  lemma StepCountsAhead(w: World, e: Event, tried: seq<Key>, ahead: nat)
    requires Good(w, tried) && Step(w, e).Ok? && AheadCounted(w.st, ahead)
    ensures AheadCounted(Step(w, e).value.st, ahead + Tally(w, e, NextKey))
  {
    if e.Early? {
      if HasZeroRttRead(w.st) { EarlySpends(w.st, e.pn); }
    } else if e.Receive? || e.Forged? {
      if SelectRx(w.st, e.phase).Some? {
        var k := SelectRx(w.st, e.phase).value;
        if e.Receive? { ReceiptSpends(w.st, k, e.pn, e.releaseAt); } else { ForgerySpends(w.st, k); }
      }
    } else if e.ReadKeys? {
      FreshKeysHaveAll(w, w.st.cipher, e.expireZeroRtt);
    } else if ReadsNothing(e) {
      OtherStays(w, e);
    }
  }

  lemma {:induction false} RunCountsAhead(es: seq<Event>)
    requires Run(START, es).Ok?
    ensures AheadCounted(Run(START, es).value.st, TimesTried(es, NextKey))
  {
    if es != [] {
      var before := es[..|es| - 1];
      RunKeepsGood(before);
      RunCountsAhead(before);
      StepCountsAhead(Run(START, before).value, es[|es| - 1], Tried(before), TimesTried(before, NextKey));
    }
  }

  /**
   * Read keys of one ladder are meant to share a single limit. What they share is the limit on tries with a key that
   * was still ahead; a rotation gives none back. All tries together stay within it exactly as long as those with
   * current keys are covered by what the next key has left.
   */
  lemma SingleLimitExactly(es: seq<Event>)
    requires Run(START, es).Ok? && Run(START, es).value.st.appReadNext.Some?
    ensures var next := Run(START, es).value.st.appReadNext.value;
      && TimesTried(es, NextKey) + next.invocations == Limit(Read, next.key.cipher)
      && (TimesTried(es, CurrentKey) + TimesTried(es, NextKey) <= Limit(Read, next.key.cipher)
          <==> TimesTried(es, CurrentKey) <= next.invocations)
  {
    RunCountsAhead(es);
  }

  lemma RunOnce(es: seq<Event>, e: Event)
    requires Run(START, es).Ok? && Step(Run(START, es).value, e).Ok?
    ensures Run(START, es + [e]) == Step(Run(START, es).value, e)
    ensures forall k :: TimesTried(es + [e], k) == TimesTried(es, k) + Tally(Run(START, es).value, e, k)
  {
    assert (es + [e])[..|es + [e]| - 1] == es;
  }

  /** Both application read keys as installed, but for n tries with the current one. */
  predicate TriedCurrent(es: seq<Event>, n: nat) {
    && Run(START, es).Ok? && TimesTried(es, CurrentKey) == n && TimesTried(es, NextKey) == 0
    && var s := Run(START, es).value.st;
    && s.appRead.Some? && s.appReadNext.Some? && s.appRead.value.epoch == 3 && s.appReadNext.value.epoch == 4
    && s.appReadNext.value.key.cipher == ChaCha20Poly1305
    && n + s.appRead.value.invocations == 0x10_0000_0000 == s.appReadNext.value.invocations
  }

  lemma Installed() returns (es: seq<Event>)
    ensures TriedCurrent(es, 0)
  {
    es := [];
    assert Run(START, es) == Ok(START);
    RunOnce(es, Handshake(ChaCha20Poly1305));
    es := es + [Handshake(ChaCha20Poly1305)];
    RunOnce(es, WriteKey);
    es := es + [WriteKey];
    RunOnce(es, ReadKeys(0));
    es := es + [ReadKeys(0)];
  }

  lemma {:induction false} ForgeCurrent(n: nat) returns (es: seq<Event>)
    requires n <= 0x10_0000_0000
    ensures TriedCurrent(es, n)
  {
    if n == 0 {
      es := Installed();
    } else {
      var before := ForgeCurrent(n - 1);
      RunOnce(before, Forged(false));
      es := before + [Forged(false)];
    }
  }

  /** The single limit does not hold: with ChaCha20-Poly1305 one ladder can be tried more than 2^36 times. */
  lemma SingleLimitBroken() returns (es: seq<Event>)
    ensures Run(START, es).Ok? && Run(START, es).value.st.appReadNext.Some?
    ensures Run(START, es).value.st.appReadNext.value.key.cipher == ChaCha20Poly1305
    ensures TimesTried(es, CurrentKey) + TimesTried(es, NextKey) == 0x10_0000_0001
  {
    var before := ForgeCurrent(0x10_0000_0000);
    RunOnce(before, Forged(true));
    es := before + [Forged(true)];
  }
}
