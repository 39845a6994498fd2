/** Initial packet numbers over whole runs, across Retry and version confirmation (section 17.2.5.3 of RFC 9000). */
module InitialSide {
  import opened Prelude
  import opened CryptoDx
  import opened CryptoStates
  import opened KeyRuns
  import SendSide

  /** What matters to the numbers of Initial packets. */
  datatype Entry =
    | Packet(version: Version, pn: nat)
    | Dropped                    // the Initial keys were discarded
    | WentBack(version: Version) // confirming this version took its numbers back

  /** Confirming a version takes its numbers back. */
  predicate GoesBack(s: States, orig: Version, confirmed: Version) {
    && ConfirmVersion(s, orig, confirmed).Ok? && confirmed in s.initials
    && confirmed in ConfirmVersion(s, orig, confirmed).value.initials
    && NextPn(ConfirmVersion(s, orig, confirmed).value.initials[confirmed].tx) < NextPn(s.initials[confirmed].tx)
  }

  function Entries(w: World, e: Event): seq<Entry> {
    match e
    case Transmit(v, InitialSpace, _) => if v in w.st.initials then [Packet(v, NextPn(w.st.initials[v].tx))] else []
    case DropInitials => [Dropped]
    case Confirm(orig, confirmed) => if GoesBack(w.st, orig, confirmed) then [WentBack(confirmed)] else []
    case _ => []
  }

  function Log(es: seq<Event>): seq<Entry>
    requires Run(START, es).Ok?
  {
    if es == [] then []
    else Log(es[..|es| - 1]) + Entries(Run(START, es[..|es| - 1]).value, es[|es| - 1])
  }

  /** The numbers sent under a version since its keys were dropped or its numbers taken back. */
  function Recent(log: seq<Entry>, v: Version): seq<nat> {
    if log == [] then []
    else
      var before, last := Recent(log[..|log| - 1], v), log[|log| - 1];
      if last.Dropped? || last == WentBack(v) then []
      else if last.Packet? && last.version == v then before + [last.pn]
      else before
  }

  lemma RecentMore(log: seq<Entry>, entry: Entry, v: Version)
    ensures Recent(log + [entry], v) ==
      if entry.Dropped? || entry == WentBack(v) then []
      else if entry.Packet? && entry.version == v then Recent(log, v) + [entry.pn]
      else Recent(log, v)
  {
    assert (log + [entry])[..|log + [entry]| - 1] == log;
  }

  predicate Increasing(ns: seq<nat>) { forall i, j :: 0 <= i < j < |ns| ==> ns[i] < ns[j] }

  predicate AllBelow(ns: seq<nat>, n: nat) { forall i :: 0 <= i < |ns| ==> ns[i] < n }

  /** The numbers so far increase, and the version's key goes on after them. */
  predicate Ordered(s: States, log: seq<Entry>, v: Version) {
    && Increasing(Recent(log, v))
    && (Recent(log, v) != [] ==> v in s.initials)
    && (v in s.initials ==> AllBelow(Recent(log, v), NextPn(s.initials[v].tx)))
  }

  ghost predicate Inv(s: States, log: seq<Entry>) { forall v :: Ordered(s, log, v) }

  /** Keys stay or move forward, nothing is logged. */
  lemma ForwardKeepsOrder(s: States, s': States, log: seq<Entry>)
    requires Inv(s, log)
    requires forall v :: v in s.initials ==> v in s'.initials && NextPn(s.initials[v].tx) <= NextPn(s'.initials[v].tx)
    ensures Inv(s', log)
  {
    forall v ensures Ordered(s', log, v) {
      assert Ordered(s, log, v);
    }
  }

  lemma {:induction false} InitGoesForward(s: States, vs: seq<Version>, secret: nat, minPn: nat)
    requires Init(s, vs, secret, minPn).Ok?
    ensures var s' := Init(s, vs, secret, minPn).value;
      forall v :: v in s.initials ==> v in s'.initials && NextPn(s.initials[v].tx) <= NextPn(s'.initials[v].tx)
    decreases |vs|
  {
    if vs != [] {
      InitGoesForward(InitVersion(s, vs[0], secret, minPn).value, vs[1..], secret + 2, minPn);
    }
  }

  /** A version goes back exactly when nothing was sent under its present keys and the original is behind. */
  lemma GoesBackExactly(s: States, orig: Version, confirmed: Version)
    requires ConfirmVersion(s, orig, confirmed).Ok? && confirmed in s.initials
    requires forall v :: v in s.initials ==> WellFormed(s.initials[v].tx)
    ensures GoesBack(s, orig, confirmed) <==>
      && orig != confirmed && orig in s.initials
      && s.initials[confirmed].tx.used.Empty()
      && NextPn(s.initials[orig].tx) < NextPn(s.initials[confirmed].tx)
  {
  }

  lemma ConfirmKeepsOrder(s: States, orig: Version, confirmed: Version, log: seq<Entry>)
    requires Inv(s, log) && ConfirmVersion(s, orig, confirmed).Ok?
    ensures Inv(ConfirmVersion(s, orig, confirmed).value,
                if GoesBack(s, orig, confirmed) then log + [WentBack(confirmed)] else log)
  {
    var s' := ConfirmVersion(s, orig, confirmed).value;
    if GoesBack(s, orig, confirmed) {
      forall v ensures Ordered(s', log + [WentBack(confirmed)], v) {
        RecentMore(log, WentBack(confirmed), v);
        assert Ordered(s, log, v);
      }
    } else {
      ForwardKeepsOrder(s, s', log);
    }
  }

  lemma SendKeepsOrder(s: States, s': States, v: Version, log: seq<Entry>)
    requires Inv(s, log) && v in s.initials && v in s'.initials
    requires s'.initials == s.initials[v := s'.initials[v]]
    requires NextPn(s'.initials[v].tx) == NextPn(s.initials[v].tx) + 1
    ensures Inv(s', log + [Packet(v, NextPn(s.initials[v].tx))])
  {
    var p := Packet(v, NextPn(s.initials[v].tx));
    forall u ensures Ordered(s', log + [p], u) {
      RecentMore(log, p, u);
      assert Ordered(s, log, u);
    }
  }

  lemma TransmitKeepsOrder(w: World, e: Event, log: seq<Entry>)
    requires Inv(w.st, log) && e.Transmit? && Step(w, e).Ok? && SendSide.Inv(w.st, w.sent, w.nextSecret)
    ensures Inv(Step(w, e).value.st, log + Entries(w, e))
  {
    TransmitChanges(w, e);
    if e.space.InitialSpace? {
      var d := w.st.initials[e.version].tx;
      assert SendSide.TxOk(SendSide.Tx(w.st, SendSide.AtInitial(e.version)).value, w.sent, w.nextSecret);
      SendSide.EncryptExtends(d, e.bodyLen);
      SendKeepsOrder(w.st, Step(w, e).value.st, e.version, log);
    } else {
      assert log + [] == log;
      ForwardKeepsOrder(w.st, Step(w, e).value.st, log);
    }
  }

  lemma DropKeepsOrder(w: World, log: seq<Entry>)
    ensures Inv(DiscardInitial(w.st), log + [Dropped])
  {
    forall v ensures Ordered(DiscardInitial(w.st), log + [Dropped], v) { RecentMore(log, Dropped, v); }
  }

  lemma OthersKeepInitials(w: World, e: Event)
    requires Step(w, e).Ok? && !e.Transmit? && !e.DropInitials? && !e.Confirm? && !e.Initials?
    ensures Step(w, e).value.st.initials == w.st.initials
  {
    if Runtime(e) { WriteKeyMoves(w, e); }
  }

  lemma StepKeepsOrder(w: World, e: Event, log: seq<Entry>)
    requires Inv(w.st, log) && Step(w, e).Ok? && SendSide.Inv(w.st, w.sent, w.nextSecret)
    ensures Inv(Step(w, e).value.st, log + Entries(w, e))
  {
    assert log + [] == log;
    match e
    case Transmit(_, _, _) => TransmitKeepsOrder(w, e, log);
    case DropInitials => DropKeepsOrder(w, log);
    case Confirm(o, c) => ConfirmKeepsOrder(w.st, o, c, log);
    case Initials(vs, minPn) =>
      InitGoesForward(w.st, vs, w.nextSecret, minPn);
      ForwardKeepsOrder(w.st, Step(w, e).value.st, log);
    case _ =>
      OthersKeepInitials(w, e);
      ForwardKeepsOrder(w.st, Step(w, e).value.st, log);
  }

  lemma {:induction false} RunKeepsOrder(es: seq<Event>)
    requires Run(START, es).Ok?
    ensures Inv(Run(START, es).value.st, Log(es))
  {
    if es != [] {
      var before := es[..|es| - 1];
      RunKeepsOrder(before);
      SendSide.RunKeepsInv(START, before);
      StepKeepsOrder(Run(START, before).value, es[|es| - 1], Log(before));
    }
  }

  /**
   * In every run, the Initial packet numbers of a version strictly increase across every Retry, until the Initial
   * keys are dropped or confirming the version takes its numbers back.
   */
  lemma InitialNumbersIncrease(es: seq<Event>, v: Version)
    requires Run(START, es).Ok?
    ensures Increasing(Recent(Log(es), v))
    ensures v in Run(START, es).value.st.initials ==>
      AllBelow(Recent(Log(es), v), NextPn(Run(START, es).value.st.initials[v].tx))
  {
    RunKeepsOrder(es);
    assert Ordered(Run(START, es).value.st, Log(es), v);
  }

  // ---- what installing leaves ----

  /** Unused Initial keys at the given numbers: the cipher and the budgets are those of AES-128-GCM. */
  predicate NewPair(p: Pair, send: nat, receive: nat) {
    var tx, rx := Key(p.tx.key.secret, 0, Aes128Gcm), Key(p.rx.key.secret, 0, Aes128Gcm);
    && p.tx == Dx(Write, 0, tx, Range(send, send), send, 0x1000_0000, 2048)
    && p.rx == Dx(Read, 0, rx, Range(receive, receive), receive, 0x10_0000_0000_0000, 2048)
  }

  /**
   * Installing Initial keys gives every listed version new ones: a version that had keys goes on after their numbers
   * in both directions, another starts at the given minimum. Versions that are not listed keep theirs.
   */
  lemma {:induction false} InstallsExactly(s: States, vs: seq<Version>, secret: nat, minPn: nat, v: Version)
    ensures Init(s, vs, secret, minPn).Ok?
    ensures var was, now := s.initials, Init(s, vs, secret, minPn).value.initials;
      && (v in now <==> v in was || v in vs)
      && (v in was && v !in vs ==> now[v] == was[v])
      && (v in vs && v in was ==> NewPair(now[v], NextPn(was[v].tx), NextPn(was[v].rx)))
      && (v in vs && v !in was ==> NewPair(now[v], minPn, 0))
    decreases |vs|
  {
    if vs != [] {
      assert InitVersion(s, vs[0], secret, minPn).Ok?;
      InstallsExactly(InitVersion(s, vs[0], secret, minPn).value, vs[1..], secret + 2, minPn, v);
    }
  }

  // ---- numbers taken back ----

  /** Fresh keys at a number, both directions unused. */
  predicate FreshAt(p: Pair, n: nat) {
    p.tx.used == Range(n, n) && p.tx.invocations == Limit(Write, Aes128Gcm) && p.rx.used.Empty()
  }

  lemma InstallOne(w: World, v: Version)
    requires Reachable(w)
    ensures Step(w, Initials([v], 0)).Ok? && Reachable(Step(w, Initials([v], 0)).value)
    ensures var s, s' := w.st.initials, Step(w, Initials([v], 0)).value.st.initials;
      v in s' && s' == s[v := s'[v]] && FreshAt(s'[v], if v in s then NextPn(s[v].tx) else 0)
  {
    InstallVersion(w.st, v, w.nextSecret);
    InstallSingle(w.st, v, w.nextSecret);
    ReachableStep(w, Initials([v], 0));
  }

  lemma InstallSingle(s: States, v: Version, secret: nat)
    requires InitVersion(s, v, secret, 0).Ok?
    ensures Init(s, [v], secret, 0) == InitVersion(s, v, secret, 0)
  {
    assert [v][1..] == [];
    assert Init(InitVersion(s, v, secret, 0).value, [], secret + 2, 0) == InitVersion(s, v, secret, 0);
  }

  lemma InstallVersion(s: States, v: Version, secret: nat)
    ensures InitVersion(s, v, secret, 0).Ok?
    ensures var s' := InitVersion(s, v, secret, 0).value.initials;
      v in s' && s' == s.initials[v := s'[v]] && FreshAt(s'[v], if v in s.initials then NextPn(s.initials[v].tx) else 0)
  {
  }

  lemma SendOne(w: World, v: Version)
    requires Reachable(w) && v in w.st.initials && w.st.initials[v].tx.invocations > 0
    ensures var e := Transmit(v, InitialSpace, 0);
      && Step(w, e).Ok? && Reachable(Step(w, e).value)
      && var s, s' := w.st.initials, Step(w, e).value.st.initials;
      v in s' && s' == s[v := s'[v]] && NextPn(s'[v].tx) == NextPn(s[v].tx) + 1
  {
    SendSide.ReachableInv(w);
    var d, e := w.st.initials[v].tx, Transmit(v, InitialSpace, 0);
    assert SendSide.TxOk(SendSide.Tx(w.st, SendSide.AtInitial(v)).value, w.sent, w.nextSecret);
    assert Encrypt(d, NextPn(d), 0).Ok?;
    SendSide.EncryptExtends(d, 0);
    ReachableStep(w, e);
  }

  /** A version used before a Retry and confirmed after it starts again below its earlier numbers. */
  lemma ConfirmTakesNumbersBack() returns (w: World)
    ensures Reachable(w) && GoesBack(w.st, 1, 2) && NextPn(w.st.initials[2].tx) == 1
    ensures ConfirmVersion(w.st, 1, 2).value.initials[2].tx.used == Range(0, 0)
  {
    assert Run(START, []) == Ok(START);
    InstallOne(START, 1);
    var w1 := Step(START, Initials([1], 0)).value;
    InstallOne(w1, 2);
    var w2 := Step(w1, Initials([2], 0)).value;
    SendOne(w2, 2);
    var w3 := Step(w2, Transmit(2, InitialSpace, 0)).value;
    InstallOne(w3, 2);
    w := Step(w3, Initials([2], 0)).value;
    UnusedConfirms(w.st);
  }

  lemma UnusedConfirms(s: States)
    requires 1 in s.initials && 2 in s.initials && FreshAt(s.initials[1], 0) && FreshAt(s.initials[2], 1)
    ensures GoesBack(s, 1, 2) && ConfirmVersion(s, 1, 2).value.initials[2].tx.used == Range(0, 0)
  {
  }
}
