/**
 * `CryptoStates` as the object it is: application key states held by reference, updated, swapped and
 * replaced in place; Initial and Handshake keys in a map and an option that methods reassign. Each
 * method is proved against the function of the same name over `States`.
 */
module KeyStore {
  import opened Prelude
  import opened CryptoDx
  import S = CryptoStates

  ghost function Seen(d: CryptoDxState?): Option<Dx>
    reads d
  {
    if d == null then None else Some(d.View())
  }

  class CryptoStates {
    var initials: map<S.Version, S.Pair>
    var handshake: Option<S.Pair>
    var cipher: Cipher
    var zeroRtt: CryptoDxState?
    var appWrite: CryptoDxState?
    var appRead: CryptoDxState?
    var appReadNext: CryptoDxState?
    var readUpdateTime: Option<S.Instant>

    /** No key state is held in two places. */
    ghost predicate Valid()
      reads this
    {
      && (zeroRtt != null ==> zeroRtt != appWrite && zeroRtt != appRead && zeroRtt != appReadNext)
      && (appWrite != null ==> appWrite != appRead && appWrite != appReadNext)
      && (appRead != null ==> appRead != appReadNext)
    }

    ghost function View(): S.States
      reads this, zeroRtt, appWrite, appRead, appReadNext
    {
      S.States(initials, handshake, Seen(zeroRtt), cipher, Seen(appWrite), Seen(appRead), Seen(appReadNext),
               readUpdateTime)
    }

    constructor ()
      ensures Valid() && View() == S.NO_KEYS
    {
      initials, handshake, cipher := map[], None, Aes128Gcm;
      zeroRtt, appWrite, appRead, appReadNext := null, null, null, null;
      readUpdateTime := None;
    }

    /** Continuing from 0-RTT cannot fail: the new key has not been used. */
    method SetApplicationWriteKey(secret: nat)
      requires Valid()
      modifies this`zeroRtt, this`appWrite
      ensures Valid() && S.SetApplicationWriteKey(old(View()), secret) == Ok(View())
    {
      var app := new CryptoDxState(Write, APPLICATION, Key(secret, 0, cipher), 0);
      if zeroRtt != null && zeroRtt.direction == Write {
        var continued := app.ContinueFrom(zeroRtt);
        assert continued.Ok?;
      }
      zeroRtt := null;
      appWrite := app;
    }

    method SetApplicationReadKey(secret: nat, expireZeroRtt: S.Instant)
      requires Valid()
      modifies this`appRead, this`appReadNext, this`readUpdateTime
      ensures Valid() && S.SetApplicationReadKey(old(View()), secret, expireZeroRtt) == Ok(View())
    {
      var app := new CryptoDxState(Read, APPLICATION, Key(secret, 0, cipher), 0);
      if zeroRtt != null {
        if zeroRtt.direction == Read {
          var continued := app.ContinueFrom(zeroRtt);
          assert continued.Ok?;
        }
        readUpdateTime := Some(expireZeroRtt);
      }
      appReadNext := new CryptoDxState.NextOf(app);
      appRead := app;
    }

    method MaybeUpdateWrite() returns (r: Res<bool>)
      requires Valid()
      modifies this`appWrite
      ensures Valid() && r.Ok? == S.MaybeUpdateWrite(old(View())).Ok?
      ensures r.Ok? ==> (View(), r.value) == S.MaybeUpdateWrite(old(View())).value
      ensures r.Err? ==> r.error == Internal && View() == old(View())
    {
      if appWrite == null || appRead == null { return Err(Internal); }
      if appWrite.epoch != appRead.epoch { return Ok(false); }
      appWrite := new CryptoDxState.NextOf(appWrite);
      return Ok(true);
    }

    method InitiateKeyUpdate(largestAcknowledged: Option<nat>) returns (r: Res<()>)
      requires Valid()
      modifies this`appWrite
      ensures Valid() && r.Ok? == S.InitiateKeyUpdate(old(View()), largestAcknowledged).Ok?
      ensures r.Ok? ==> View() == S.InitiateKeyUpdate(old(View()), largestAcknowledged).value
      ensures r.Err? ==> r.error == S.InitiateKeyUpdate(old(View()), largestAcknowledged).error
    {
      if appWrite == null { return Err(Internal); }
      var can := match largestAcknowledged
        case None => appWrite.epoch == APPLICATION
        case Some(la) => appWrite.usedStart <= la < appWrite.usedEnd;
      if can && readUpdateTime.None? {
        var updated :- MaybeUpdateWrite();
        return if updated then Ok(()) else Err(KeyUpdateBlocked);
      }
      return Err(KeyUpdateBlocked);
    }

    method AutoUpdate() returns (r: Res<()>)
      requires Valid()
      modifies this`appWrite
      ensures Valid() && r.Ok? == S.AutoUpdate(old(View())).Ok?
      ensures r.Ok? ==> View() == S.AutoUpdate(old(View())).value
      ensures r.Err? ==> r.error == S.AutoUpdate(old(View())).error
    {
      if appWrite != null && appWrite.invocations <= UPDATE_WRITE_KEYS_AT {
        var updated :- MaybeUpdateWrite();
        if !updated { return Err(KeysExhausted); }
      }
      return Ok(());
    }

    method KeyUpdateReceived(expiration: S.Instant) returns (r: Res<()>)
      requires Valid()
      modifies this`appWrite, this`zeroRtt, this`readUpdateTime
      ensures Valid() && r.Ok? == S.KeyUpdateReceived(old(View()), expiration).Ok?
      ensures r.Ok? ==> View() == S.KeyUpdateReceived(old(View()), expiration).value
    {
      var _ :- MaybeUpdateWrite();
      if zeroRtt != null && zeroRtt.direction == Read { zeroRtt := null; }
      readUpdateTime := Some(expiration);
      return Ok(());
    }

    /** Rotation swaps the two read keys and then replaces the old one. */
    method CheckKeyUpdate(now: S.Instant) returns (r: Res<()>)
      requires Valid()
      modifies this`zeroRtt, this`appRead, this`appReadNext, this`readUpdateTime
      ensures Valid() && r.Ok? == S.CheckKeyUpdate(old(View()), now).Ok?
      ensures r.Ok? ==> View() == S.CheckKeyUpdate(old(View()), now).value
    {
      if readUpdateTime.Some? && now >= readUpdateTime.value {
        if zeroRtt != null && zeroRtt.direction == Read {
          zeroRtt := null;
        } else {
          appRead, appReadNext := appReadNext, appRead;
          if appRead == null { return Err(Internal); }
          appReadNext := new CryptoDxState.NextOf(appRead);
        }
        readUpdateTime := None;
      }
      return Ok(());
    }

    method CheckPnOverlap() returns (r: Res<()>)
      requires Valid()
      modifies appReadNext
      ensures Valid() && r.Ok? == S.CheckPnOverlap(old(View())).Ok?
      ensures r.Ok? ==> View() == S.CheckPnOverlap(old(View())).value
    {
      if readUpdateTime.Some? {
        if appReadNext == null || appRead == null { return Err(Internal); }
        r := appReadNext.ContinueFrom(appRead);
        return;
      }
      return Ok(());
    }

    /** The key of the given phase, when exactly one of the two read keys has it. */
    method SelectRx(phase: bool) returns (d: CryptoDxState?)
      requires Valid()
      ensures d == match S.SelectRx(View(), phase)
        case None => null case Some(CurrentKey) => appRead case Some(NextKey) => appReadNext
    {
      var current := if appRead != null && (appRead.epoch % 2 == 0) == phase then appRead else null;
      var next := if appReadNext != null && (appReadNext.epoch % 2 == 0) == phase then appReadNext else null;
      d := if current != null && next == null then current else if current == null then next else null;
    }

    /** Decrypt, note a key update, check for overlap: an application packet whose key phase is `phase`. */
    method Receive(pn: nat, phase: bool, releaseAt: S.Instant) returns (r: Res<bool>)
      requires Valid()
      modifies this`appWrite, this`zeroRtt, this`readUpdateTime, appRead, appReadNext
      ensures Valid()
      ensures S.SelectRx(old(View()), phase).None? ==> r == Ok(false) && View() == old(View())
      ensures S.SelectRx(old(View()), phase).Some? ==>
        var spec := S.ReceiveWith(old(View()), S.SelectRx(old(View()), phase).value, pn, releaseAt);
        && r.Ok? == spec.Ok?
        && (r.Ok? ==> r.value && View() == spec.value)
    {
      var d := SelectRx(phase);
      if d == null { return Ok(false); }
      r := ReceiveUnder(d, S.SelectRx(View(), phase).value, pn, releaseAt);
    }

    /** Decrypt with the selected key, then make every check. */
    method ReceiveUnder(d: CryptoDxState, ghost k: S.ReadKey, pn: nat, releaseAt: S.Instant) returns (r: Res<bool>)
      requires Valid() && d == match k case CurrentKey => appRead case NextKey => appReadNext
      modifies this`appWrite, this`zeroRtt, this`readUpdateTime, appRead, appReadNext
      ensures Valid()
      ensures var spec := S.ReceiveWith(old(View()), k, pn, releaseAt);
        r.Ok? == spec.Ok? && (r.Ok? ==> r.value && View() == spec.value)
    {
      var _ :- d.DecryptInPlace(pn, true);
      assert View() == S.WithRx(old(View()), k, d.View());
      r := AfterDecryption(d, k, releaseAt);
    }

    /** What follows every decryption with the application read key `d`. */
    method AfterDecryption(d: CryptoDxState, ghost k: S.ReadKey, releaseAt: S.Instant) returns (r: Res<bool>)
      requires Valid() && d == match k case CurrentKey => appRead case NextKey => appReadNext
      modifies this`appWrite, this`zeroRtt, this`readUpdateTime, appReadNext
      ensures Valid()
      ensures var was := old(View());
        var updated := if NeedsUpdate(old(d.View())) then S.KeyUpdateReceived(was, releaseAt) else Ok(was);
        && (updated.Err? ==> r.Err?)
        && (updated.Ok? ==> r.Ok? == S.CheckPnOverlap(updated.value).Ok?)
        && (r.Ok? ==> r.value && View() == S.CheckPnOverlap(updated.value).value)
    {
      if d.usedStart + 1 == d.usedEnd && d.epoch > APPLICATION {
        var _ :- KeyUpdateReceived(releaseAt);
      }
      var _ :- CheckPnOverlap();
      return Ok(true);
    }

    /** Protect one packet of the application space with the next packet number. */
    method SendApplication(bodyLen: nat) returns (r: Res<nat>)
      requires Valid() && S.SelectTx(View(), 0, S.ApplicationSpace).Some?
      requires S.SelectTx(View(), 0, S.ApplicationSpace).value.largest >= INITIAL_LARGEST_PACKET_LEN
      modifies appWrite, zeroRtt
      ensures Valid() && r.Ok? == S.Send(old(View()), 0, S.ApplicationSpace, bodyLen).Ok?
      ensures r.Ok? ==>
        && r.value == old(S.SelectTx(View(), 0, S.ApplicationSpace).value.used.end)
        && View() == S.Send(old(View()), 0, S.ApplicationSpace, bodyLen).value
    {
      var d := if appWrite != null then appWrite else zeroRtt;
      var pn := d.usedEnd;
      var _ :- d.EncryptPacket(pn, bodyLen);
      return Ok(pn);
    }

    /** Install Initial keys for each version, continuing the numbers of any state they replace. */
    method Init(versions: seq<S.Version>, secret: nat, minPn: nat) returns (r: Res<()>)
      requires Valid()
      modifies this`initials
      ensures Valid() && r.Ok? && S.Init(old(View()), versions, secret, minPn) == Ok(View())
    {
      var i := 0;
      while i < |versions|
        invariant 0 <= i <= |versions|
        invariant S.Init(View(), versions[i..], secret + 2 * i, minPn) == S.Init(old(View()), versions, secret, minPn)
        invariant View() == old(View()).(initials := initials)
      {
        var v := versions[i];
        var tx := NewDx(Write, 0, Key(secret + 2 * i, 0, Aes128Gcm), minPn);
        var rx := NewDx(Read, 0, Key(secret + 2 * i + 1, 0, Aes128Gcm), 0);
        assert versions[i..][1..] == versions[i + 1..];
        if v in initials {
          rx := Continuation(rx, initials[v].rx).value;
          tx := Continuation(tx, initials[v].tx).value;
        }
        initials := initials[v := S.Pair(tx, rx)];
        i := i + 1;
      }
      return Ok(());
    }

    method ConfirmVersion(orig: S.Version, confirmed: S.Version) returns (r: Res<()>)
      requires Valid()
      modifies this`initials
      ensures Valid() && r.Ok? == S.ConfirmVersion(old(View()), orig, confirmed).Ok?
      ensures r.Ok? ==> View() == S.ConfirmVersion(old(View()), orig, confirmed).value
    {
      if orig != confirmed && orig in initials {
        if confirmed !in initials { return Err(VersionNegotiation); }
        var prev, next := initials[orig], initials[confirmed];
        var rx :- Continuation(next.rx, prev.rx);
        next := next.(rx := rx);
        var tx :- Continuation(next.tx, prev.tx);
        next := next.(tx := tx);
        initials := initials[confirmed := next];
      }
      return Ok(());
    }
  }
}
