/** The AEAD budget of each write key, section 6.6 and appendix B.1 of RFC 9001. */
module AeadBudget {
  import opened Prelude
  import opened CryptoDx
  import opened CryptoStates
  import opened KeyRuns
  import SendSide

  // ---- what a key has protected, read off the history alone ----

  predicate Under(m: Sending, key: Key) { m.Sent? && m.key == key }

  /** The longest body protected with `key`, never taken below the initial 2^11. */
  function Largest(sent: seq<Sending>, key: Key): (n: nat)
    ensures n >= INITIAL_LARGEST_PACKET_LEN
  {
    if sent == [] then INITIAL_LARGEST_PACKET_LEN
    else
      var last, before := sent[|sent| - 1], Largest(sent[..|sent| - 1], key);
      if Under(last, key) && last.bodyLen > before then last.bodyLen else before
  }

  /** How many bits longer than 2^11 a body of this length is. */
  function Class(len: nat): nat
    requires len >= INITIAL_LARGEST_PACKET_LEN
  {
    BitLenAtLeast11(len);
    BitLen(len - 1) - 11
  }

  lemma BitLenAtLeast11(len: nat)
    requires len >= INITIAL_LARGEST_PACKET_LEN
    ensures BitLen(len - 1) >= 11
  {
    BitLenMonotone(2047, len - 1);
    BitLenBounds(2047);
    assert BitLen(2047) == 11;
  }

  /** Each packet weighs 2^k, with k the class of the longest body up to and including it. */
  function Weight(sent: seq<Sending>, key: Key): nat {
    if sent == [] then 0
    else Weight(sent[..|sent| - 1], key)
         + if Under(sent[|sent| - 1], key) then Pow2(Class(Largest(sent, key))) else 0
  }

  function Packets(sent: seq<Sending>, key: Key): nat {
    if sent == [] then 0
    else Packets(sent[..|sent| - 1], key) + if Under(sent[|sent| - 1], key) then 1 else 0
  }

  function BodyBytes(sent: seq<Sending>, key: Key): nat {
    if sent == [] then 0
    else BodyBytes(sent[..|sent| - 1], key)
         + if Under(sent[|sent| - 1], key) then sent[|sent| - 1].bodyLen else 0
  }

  lemma LengthWeighs(n: nat)
    requires n >= INITIAL_LARGEST_PACKET_LEN
    ensures n <= 2048 * Pow2(Class(n))
  {
    BitLenAtLeast11(n);
    BitLenBounds(n - 1);
    Pow2Add(Class(n), 11);
    assert Pow2(11) == 2048;
  }

  /** A packet weighs at least one, and 2^11 bytes of body per unit of weight. */
  lemma {:induction false} WeightBoundsUse(sent: seq<Sending>, key: Key)
    ensures Packets(sent, key) <= Weight(sent, key)
    ensures BodyBytes(sent, key) <= 2048 * Weight(sent, key)
  {
    if sent != [] {
      WeightBoundsUse(sent[..|sent| - 1], key);
      LengthWeighs(Largest(sent, key));
    }
  }

  lemma {:induction false} UnusedWeighsNothing(sent: seq<Sending>, key: Key)
    requires forall m :: m in sent ==> !Under(m, key)
    ensures Weight(sent, key) == 0 && Largest(sent, key) == INITIAL_LARGEST_PACKET_LEN
  {
    if sent != [] { UnusedWeighsNothing(sent[..|sent| - 1], key); }
  }

  // ---- the conserved budget ----

  /** The weight of n more packets while the longest body is `largest`. */
  function Worth(n: nat, largest: nat): nat
    requires largest >= INITIAL_LARGEST_PACKET_LEN
  {
    n * Pow2(Class(largest))
  }

  /**
   * Spent weight plus what is left, at the current weight per packet, never exceeds the limit; and equals it as long
   * as no body was longer than 2^11.
   */
  ghost predicate Funded(d: Dx, sent: seq<Sending>) {
    && d.largest == Largest(sent, d.key)
    && Weight(sent, d.key) + Worth(d.invocations, d.largest) <= Limit(Write, d.key.cipher)
    && (d.largest == INITIAL_LARGEST_PACKET_LEN ==>
          Weight(sent, d.key) + Worth(d.invocations, d.largest) == Limit(Write, d.key.cipher))
  }

  ghost predicate Inv(s: States, sent: seq<Sending>) {
    && (forall slot :: SendSide.Tx(s, slot).Some? ==> Funded(SendSide.Tx(s, slot).value, sent))
    && (forall key :: Weight(sent, key) <= Limit(Write, key.cipher))
  }

  lemma ScaleBelow(a: nat, b: nat, q: nat)
    requires a <= b
    ensures a * q <= b * q
  {
  }

  lemma Regroup(a: nat, p: nat, q: nat)
    ensures a * (q * p) == a * p * q
  {
  }

  lemma WorthShifts(inv: nat, bits: nat, largest: nat, bodyLen: nat)
    requires INITIAL_LARGEST_PACKET_LEN <= largest && INITIAL_LARGEST_PACKET_LEN <= bodyLen
    requires Class(bodyLen) == Class(largest) + bits
    ensures Worth(ShiftRight(inv, bits), bodyLen) <= Worth(inv, largest)
  {
    var left, k := ShiftRight(inv, bits), Class(largest);
    ShiftRounds(inv, bits);
    Pow2Add(k, bits);
    Rounded(left, inv, Pow2(bits), Pow2(k));
  }

  lemma Rounded(left: nat, inv: nat, p: nat, q: nat)
    requires left * p <= inv
    ensures left * (q * p) <= inv * q
  {
    ScaleBelow(left * p, inv, q);
    Regroup(left, p, q);
  }

  /** The right shift of the remaining invocations never creates budget. */
  lemma AdjustConserves(d: Dx, bodyLen: nat)
    requires d.largest >= INITIAL_LARGEST_PACKET_LEN
    ensures var d' := Adjust(d, bodyLen);
      d'.largest >= INITIAL_LARGEST_PACKET_LEN
      && Worth(d'.invocations, d'.largest) <= Worth(d.invocations, d.largest)
  {
    if bodyLen > d.largest {
      BitLenAtLeast11(d.largest);
      BitLenMonotone(d.largest - 1, bodyLen - 1);
      var bits := BitLen(bodyLen - 1) - BitLen(d.largest - 1);
      assert Class(bodyLen) == Class(d.largest) + bits;
      WorthShifts(d.invocations, bits, d.largest, bodyLen);
    }
  }

  lemma ScaleStrictly(a: nat, b: nat, q: nat)
    requires a < b && q > 0
    ensures a * q < b * q
  {
  }

  lemma WorthLost(inv: nat, bits: nat, largest: nat, bodyLen: nat)
    requires INITIAL_LARGEST_PACKET_LEN <= largest && INITIAL_LARGEST_PACKET_LEN <= bodyLen
    requires Class(bodyLen) == Class(largest) + bits
    ensures Worth(inv, largest) < Worth(ShiftRight(inv, bits) + 1, bodyLen)
    ensures bits == 0 ==> ShiftRight(inv, bits) == inv
  {
    var more, k := ShiftRight(inv, bits) + 1, Class(largest);
    ShiftRounds(inv, bits);
    Pow2Add(k, bits);
    RoundedUp(more, inv, Pow2(bits), Pow2(k));
  }

  lemma RoundedUp(more: nat, inv: nat, p: nat, q: nat)
    requires inv < more * p && q > 0
    ensures inv * q < more * (q * p)
  {
    ScaleStrictly(inv, more * p, q);
    Regroup(more, p, q);
  }

  /** Nor does it lose more than its rounding: less than one packet of the new size. */
  lemma AdjustLosesLessThanOne(d: Dx, bodyLen: nat)
    requires d.largest >= INITIAL_LARGEST_PACKET_LEN
    ensures var d' := Adjust(d, bodyLen);
      && d'.largest == Max(d.largest, bodyLen) >= INITIAL_LARGEST_PACKET_LEN
      && Worth(d.invocations, d.largest) < Worth(d'.invocations + 1, d'.largest)
      && (Class(d'.largest) == Class(d.largest) ==> d'.invocations == d.invocations)
  {
    if bodyLen > d.largest {
      BitLenAtLeast11(d.largest);
      BitLenMonotone(d.largest - 1, bodyLen - 1);
      var bits := BitLen(bodyLen - 1) - BitLen(d.largest - 1);
      assert Class(bodyLen) == Class(d.largest) + bits;
      WorthLost(d.invocations, bits, d.largest, bodyLen);
    } else {
      SpendOne(d.invocations + 1, d.largest);
    }
  }

  lemma SpendOne(n: nat, largest: nat)
    requires n > 0 && largest >= INITIAL_LARGEST_PACKET_LEN
    ensures Worth(n - 1, largest) + Pow2(Class(largest)) == Worth(n, largest)
  {
  }

  lemma WeightOfSend(sent: seq<Sending>, m: Sending)
    requires m.Sent?
    ensures Largest(sent + [m], m.key) == Max(Largest(sent, m.key), m.bodyLen)
    ensures Weight(sent + [m], m.key) == Weight(sent, m.key) + Pow2(Class(Max(Largest(sent, m.key), m.bodyLen)))
  {
    assert (sent + [m])[..|sent + [m]| - 1] == sent;
  }

  lemma EncryptConserves(d: Dx, sent: seq<Sending>, m: Sending)
    requires d.largest >= INITIAL_LARGEST_PACKET_LEN && Funded(d, sent)
    requires m.Sent? && m.key == d.key && Encrypt(d, NextPn(d), m.bodyLen).Ok?
    ensures Funded(Encrypt(d, NextPn(d), m.bodyLen).value, sent + [m])
  {
    AdjustConserves(d, m.bodyLen);
    var d1 := Adjust(d, m.bodyLen);
    SpendOne(d1.invocations, d1.largest);
    WeightOfSend(sent, m);
  }

  lemma OtherKeysUntouched(sent: seq<Sending>, m: Sending, key: Key)
    requires !Under(m, key)
    ensures Weight(sent + [m], key) == Weight(sent, key) && Largest(sent + [m], key) == Largest(sent, key)
  {
    assert (sent + [m])[..|sent + [m]| - 1] == sent;
  }

  lemma SendKeepsInv(s: States, s': States, slot: SendSide.Slot, m: Sending, sent: seq<Sending>, bound: nat)
    requires SendSide.Inv(s, sent, bound) && Inv(s, sent)
    requires SendSide.Tx(s, slot).Some? && SendSide.Tx(s', slot).Some? && m.Sent?
    requires var d := SendSide.Tx(s, slot).value;
      && d.largest >= INITIAL_LARGEST_PACKET_LEN
      && m == Sent(m.space, d.key, NextPn(d), m.bodyLen)
      && Encrypt(d, NextPn(d), m.bodyLen) == Ok(SendSide.Tx(s', slot).value)
    requires forall other :: other != slot ==> SendSide.Tx(s', other) == SendSide.Tx(s, other)
    ensures Inv(s', sent + [m])
  {
    var d := SendSide.Tx(s, slot).value;
    EncryptConserves(d, sent, m);
    forall other | other != slot && SendSide.Tx(s', other).Some?
      ensures Funded(SendSide.Tx(s', other).value, sent + [m])
    {
      assert Funded(SendSide.Tx(s, other).value, sent);
      OtherKeysUntouched(sent, m, SendSide.Tx(s, other).value.key);
    }
    forall key ensures Weight(sent + [m], key) <= Limit(Write, key.cipher) {
      if key != d.key { OtherKeysUntouched(sent, m, key); }
    }
  }

  /** A key that has protected nothing starts fully funded. */
  lemma FreshIsFunded(d: Dx, sent: seq<Sending>)
    requires forall m :: m in sent ==> !Under(m, d.key)
    requires d.largest == INITIAL_LARGEST_PACKET_LEN && d.invocations == Limit(Write, d.key.cipher)
    ensures Funded(d, sent)
  {
    UnusedWeighsNothing(sent, d.key);
    assert BitLen(2047) == 11 by { BitLenBounds(2047); }
  }

  /** Slots whose key is unchanged, only renumbered, or fresh keep the budget. */
  ghost predicate Refilled(d: Dx, d': Dx) {
    d' == d.(used := d'.used, minPn := d'.minPn)
  }

  ghost predicate Unspent(d: Dx, sent: seq<Sending>) {
    && (forall m :: m in sent ==> !Under(m, d.key))
    && d.largest == INITIAL_LARGEST_PACKET_LEN && d.invocations == Limit(Write, d.key.cipher)
  }

  lemma KeysKeepInv(s: States, s': States, sent: seq<Sending>)
    requires Inv(s, sent)
    requires forall slot :: SendSide.Tx(s', slot).Some? ==>
      || (SendSide.Tx(s, slot).Some? && Refilled(SendSide.Tx(s, slot).value, SendSide.Tx(s', slot).value))
      || Unspent(SendSide.Tx(s', slot).value, sent)
    ensures Inv(s', sent)
  {
    forall slot | SendSide.Tx(s', slot).Some?
      ensures Funded(SendSide.Tx(s', slot).value, sent)
    {
      var d' := SendSide.Tx(s', slot).value;
      if Unspent(d', sent) {
        FreshIsFunded(d', sent);
      } else {
        assert Funded(SendSide.Tx(s, slot).value, sent);
      }
    }
  }

  lemma InitVersionKeepsInv(s: States, v: Version, minPn: nat, sent: seq<Sending>, bound: nat)
    requires SendSide.SentBelow(sent, bound) && Inv(s, sent) && InitVersion(s, v, bound, minPn).Ok?
    ensures Inv(InitVersion(s, v, bound, minPn).value, sent)
  {
    var s' := InitVersion(s, v, bound, minPn).value;
    assert Unspent(SendSide.Tx(s', SendSide.AtInitial(v)).value, sent);
    KeysKeepInv(s, s', sent);
  }

  lemma {:induction false} InitKeepsInv(s: States, vs: seq<Version>, minPn: nat, sent: seq<Sending>, bound: nat)
    requires SendSide.SentBelow(sent, bound) && Inv(s, sent) && Init(s, vs, bound, minPn).Ok?
    ensures Inv(Init(s, vs, bound, minPn).value, sent)
    decreases |vs|
  {
    if vs != [] {
      InitVersionKeepsInv(s, vs[0], minPn, sent, bound);
      InitKeepsInv(InitVersion(s, vs[0], bound, minPn).value, vs[1..], minPn, sent, bound + 2);
    }
  }

  lemma AbandonKeepsInv(s: States, sent: seq<Sending>)
    requires Inv(s, sent)
    ensures Inv(s, sent + [EarlyDataAbandoned])
  {
    forall key ensures Weight(sent + [EarlyDataAbandoned], key) <= Limit(Write, key.cipher) {
      OtherKeysUntouched(sent, EarlyDataAbandoned, key);
    }
    forall slot | SendSide.Tx(s, slot).Some?
      ensures Funded(SendSide.Tx(s, slot).value, sent + [EarlyDataAbandoned])
    {
      assert Funded(SendSide.Tx(s, slot).value, sent);
      OtherKeysUntouched(sent, EarlyDataAbandoned, SendSide.Tx(s, slot).value.key);
    }
  }

  /** The first use of the key that follows a live application key finds nothing sent under it. */
  lemma NextIsUnspent(s: States, sent: seq<Sending>, bound: nat)
    requires SendSide.Inv(s, sent, bound) && s.appWrite.Some?
    ensures Unspent(Next(s.appWrite.value), sent)
  {
    assert SendSide.TxOk(SendSide.Tx(s, SendSide.AtApplication).value, sent, bound);
  }

  lemma InstallKeepsInv(w: World, e: Event)
    requires !Runtime(e) && !e.Initials? && !e.Transmit?
    requires SendSide.Inv(w.st, w.sent, w.nextSecret) && Inv(w.st, w.sent) && Step(w, e).Ok?
    ensures Inv(Step(w, e).value.st, Step(w, e).value.sent)
  {
    var w' := Step(w, e).value;
    KeysKeepInv(w.st, w'.st, w.sent);
    if e.DropZeroRtt? { AbandonKeepsInv(w'.st, w.sent); }
  }

  lemma RuntimeKeepsInv(w: World, e: Event)
    requires Runtime(e)
    requires SendSide.Inv(w.st, w.sent, w.nextSecret) && Inv(w.st, w.sent) && Step(w, e).Ok?
    ensures Inv(Step(w, e).value.st, w.sent)
  {
    WriteKeyMoves(w, e);
    if w.st.appWrite.Some? { NextIsUnspent(w.st, w.sent, w.nextSecret); }
    KeysKeepInv(w.st, Step(w, e).value.st, w.sent);
  }

  lemma TransmitKeepsInv(w: World, e: Event)
    requires e.Transmit? && SendSide.Inv(w.st, w.sent, w.nextSecret) && Inv(w.st, w.sent) && Step(w, e).Ok?
    ensures Inv(Step(w, e).value.st, Step(w, e).value.sent)
  {
    TransmitChanges(w, e);
    var w' := Step(w, e).value;
    SendKeepsInv(w.st, w'.st, SendSide.SlotOf(w.st, e.version, e.space), w'.sent[|w.sent|], w.sent, w.nextSecret);
  }

  lemma StepKeepsInv(w: World, e: Event)
    requires SendSide.Inv(w.st, w.sent, w.nextSecret) && Inv(w.st, w.sent) && Step(w, e).Ok?
    ensures Inv(Step(w, e).value.st, Step(w, e).value.sent)
  {
    if e.Initials? {
      InitKeepsInv(w.st, e.versions, e.minPn, w.sent, w.nextSecret);
    } else if e.Transmit? {
      TransmitKeepsInv(w, e);
    } else if Runtime(e) {
      RuntimeKeepsInv(w, e);
    } else {
      InstallKeepsInv(w, e);
    }
  }

  lemma {:induction false} RunKeepsInv(es: seq<Event>)
    requires Run(START, es).Ok?
    ensures Inv(Run(START, es).value.st, Run(START, es).value.sent)
  {
    if es != [] {
      var before := es[..|es| - 1];
      RunKeepsInv(before);
      SendSide.RunKeepsInv(START, before);
      StepKeepsInv(Run(START, before).value, es[|es| - 1]);
    }
  }

  /** Every key ever used, live or replaced, stays within its weighted limit. */
  lemma WeightedBudgetHolds(w: World, key: Key)
    requires Reachable(w)
    ensures Weight(w.sent, key) <= Limit(Write, key.cipher)
    ensures forall slot :: SendSide.Tx(w.st, slot).Some? ==> Funded(SendSide.Tx(w.st, slot).value, w.sent)
  {
    var es :| Run(START, es) == Ok(w);
    RunKeepsInv(es);
  }

  /** An AES-GCM write key protects at most 2^28 packets and 2^39 bytes of packet body. */
  lemma AesGcmUseIsBounded(w: World, key: Key)
    requires Reachable(w) && !key.cipher.ChaCha20Poly1305?
    ensures Packets(w.sent, key) <= 0x1000_0000
    ensures BodyBytes(w.sent, key) <= 0x80_0000_0000
  {
    WeightedBudgetHolds(w, key);
    WeightBoundsUse(w.sent, key);
  }

  lemma {:induction false} ShortPacketsWeighOne(sent: seq<Sending>, key: Key)
    requires Largest(sent, key) == INITIAL_LARGEST_PACKET_LEN
    ensures Weight(sent, key) == Packets(sent, key)
  {
    if sent != [] {
      ShortPacketsWeighOne(sent[..|sent| - 1], key);
      assert BitLen(2047) == 11 by { BitLenBounds(2047); }
    }
  }

  predicate AllShort(sent: seq<Sending>, key: Key) { forall m :: m in sent && Under(m, key) ==> m.bodyLen <= 2048 }

  lemma WorthOne(n: nat)
    ensures Worth(n, 2048) == n
  {
    assert BitLen(2047) == 11 by { BitLenBounds(2047); }
    assert Pow2(0) == 1;
  }

  lemma ShortIsExact(d: Dx, sent: seq<Sending>)
    requires Funded(d, sent) && AllShort(sent, d.key)
    ensures Packets(sent, d.key) + d.invocations == Limit(Write, d.key.cipher)
  {
    ShortBodiesStay(sent, d.key);
    ShortPacketsWeighOne(sent, d.key);
    WorthOne(d.invocations);
  }

  /** While no body is longer than 2^11 bytes, every packet under a live write key costs it exactly one invocation. */
  lemma ShortPacketsCostOne(w: World, slot: SendSide.Slot)
    requires Reachable(w) && SendSide.Tx(w.st, slot).Some? && AllShort(w.sent, SendSide.Tx(w.st, slot).value.key)
    ensures var d := SendSide.Tx(w.st, slot).value;
      Packets(w.sent, d.key) + d.invocations ==
        if d.key.cipher.ChaCha20Poly1305? then 0xffff_ffff_ffff_ffff else 0x1000_0000
  {
    var d := SendSide.Tx(w.st, slot).value;
    WeightedBudgetHolds(w, d.key);
    assert Funded(d, w.sent);
    ShortIsExact(d, w.sent);
  }

  lemma {:induction false} ShortBodiesStay(sent: seq<Sending>, key: Key)
    requires AllShort(sent, key)
    ensures Largest(sent, key) == 2048
  {
    if sent != [] { ShortBodiesStay(sent[..|sent| - 1], key); }
  }

  /** A write key just derived has its whole budget: 2^28 packets for AES-GCM, a full 64-bit count for ChaCha20. */
  lemma FreshKeysHaveAll(d: Dx, secret: nat, cipher: Cipher)
    ensures var n := if cipher.ChaCha20Poly1305? then 0xffff_ffff_ffff_ffff else 0x1000_0000;
      && NewDx(Write, APPLICATION, Key(secret, 0, cipher), 0).invocations == n
      && (d.direction.Write? && d.key.cipher == cipher ==> Next(d).invocations == n && Next(d).largest == 2048)
  {
  }
}
