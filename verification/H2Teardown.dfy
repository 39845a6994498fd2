/**
 * Teardown of a connection under concurrency: senders, the reader thread and a closing thread, one step for each
 * lock section or unlocked read or write of shared state, in any interleaving.
 */
module H2Teardown {
  import opened Prelude

  /** Where a sender is in `acquire`, `_send` and `release`. */
  datatype Phase = Idle | Reserved | Cleared | Writing | Releasing

  /** Where a thread is in `_fail_all` followed by `_teardown_transport`. */
  datatype Tear = MarkClosed | FailStreams | Poll(left: nat) | FreeNative | ForgetContext

  datatype Reader = Reading | Nested(at: Tear) | Leaving(at: Tear) | Dead

  /** The first thread to call `close`; every later call returns at once. */
  datatype Closer = NotCalled | Claimed | Marked | Tearing(at: Tear) | Returned(swept: bool)

  datatype Sys = Sys(
    senders: map<nat, Phase>, refs: nat,
    owners: set<nat>,          // the senders whose acquire took a reference they have not given back
    sendLock: Option<nat>, closed: bool, closing: bool,
    unfinished: set<nat>,      // registered streams, by sender, that are not done
    reader: Reader, closer: Closer,
    ctx: bool, freed: nat,     // the native context, and how often it was freed
    drained: bool,             // some drain loop saw no references
    timedOut: bool)            // some drain loop gave up

  const POLLS := 400

  function Init(): Sys {
    Sys(map[], 0, {}, None, false, false, {}, Reading, NotCalled, true, 0, false, false)
  }

  datatype Event =
    | Acquire(t: nat, room: bool)      // room: the stream count and identifiers leave room
    | Create(t: nat, room: bool)       // the thread that made the connection, before it is published: it goes on
                                       // to send whether or not its acquire succeeds
    | Check(t: nat) | Lock(t: nat) | Unlock(t: nat) | Release(t: nat)
    | Respond(t: nat)                  // the reader sees the end of t's response
    | ReaderLeaves | ReaderCloses | ReaderMoves
    | CallClose | CloserMoves

  function PhaseOf(s: Sys, t: nat): Phase { if t in s.senders then s.senders[t] else Idle }

  function Move(s: Sys, t: nat, p: Phase): Sys { s.(senders := s.senders[t := p]) }

  /** What a sender leaves alone. */
  predicate SameThreads(s: Sys, d: Sys) {
    && d.reader == s.reader && d.closer == s.closer && d.closed == s.closed && d.closing == s.closing
    && d.ctx == s.ctx && d.freed == s.freed && d.drained == s.drained && d.timedOut == s.timedOut
  }

  predicate Acquirable(s: Sys, room: bool) { !s.closed && !s.closing && room }

  function DoAcquire(s: Sys, t: nat, room: bool): (d: Sys)
    ensures SameThreads(s, d) && d.unfinished == s.unfinished
  {
    if PhaseOf(s, t) == Idle && Acquirable(s, room) then
      Move(s, t, Reserved).(refs := s.refs + 1, owners := s.owners + {t})
    else s
  }

  /** Nobody else has seen the connection; the result of acquire is ignored. */
  function DoCreate(s: Sys, t: nat, room: bool): (d: Sys)
    ensures SameThreads(s, d) && d.unfinished == s.unfinished
  {
    if s.senders != map[] then s
    else if Acquirable(s, room) then DoAcquire(s, t, room)
    else Move(s, t, Reserved)
  }

  function DoCheck(s: Sys, t: nat): (d: Sys)
    ensures SameThreads(s, d) && d.unfinished == s.unfinished
  {
    if PhaseOf(s, t) == Reserved then Move(s, t, if s.closed then Releasing else Cleared) else s
  }

  function DoLock(s: Sys, t: nat): (d: Sys)
    ensures SameThreads(s, d)
  {
    if PhaseOf(s, t) == Cleared && s.sendLock.None? then
      Move(s, t, Writing).(sendLock := Some(t), unfinished := s.unfinished + {t})
    else s
  }

  function DoUnlock(s: Sys, t: nat): (d: Sys)
    ensures SameThreads(s, d) && d.unfinished == s.unfinished
  {
    if PhaseOf(s, t) == Writing then Move(s, t, Releasing).(sendLock := None) else s
  }

  function DoRelease(s: Sys, t: nat): (d: Sys)
    ensures SameThreads(s, d) && d.unfinished == s.unfinished
  {
    if PhaseOf(s, t) == Releasing then
      Move(s, t, Idle).(refs := if s.refs > 0 then s.refs - 1 else 0, owners := s.owners - {t})
    else s
  }

  function DoRespond(s: Sys, t: nat): (d: Sys)
    ensures SameThreads(s, d) && d.senders == s.senders && d.refs == s.refs && d.owners == s.owners
  {
    if s.reader.Reading? then s.(unfinished := s.unfinished - {t}) else s
  }

  /** What a thread that reads or tears down leaves alone. */
  predicate SendersAlone(s: Sys, d: Sys) {
    d.senders == s.senders && d.owners == s.owners && d.refs == s.refs && (s.closed ==> d.closed)
  }

  /** One step of a tearing thread, and where it goes next; None is the end. */
  function TearStep(s: Sys, at: Tear): (r: (Sys, Option<Tear>))
    ensures s.drained ==> r.0.drained
    ensures s.timedOut ==> r.0.timedOut
    ensures r.0.unfinished == if at.FailStreams? then {} else s.unfinished
    ensures r.0.reader == s.reader && r.0.closer == s.closer && SendersAlone(s, r.0)
  {
    match at
    case MarkClosed => (s.(closed := true), Some(FailStreams))
    case FailStreams => (s.(unfinished := {}), Some(Poll(POLLS)))
    case Poll(left) =>
      if left == 0 then (s.(timedOut := true), Some(FreeNative))
      else if s.refs == 0 then (s.(drained := true), Some(FreeNative))
      else (s, Some(Poll(left - 1)))
    case FreeNative => if s.ctx then (s.(freed := s.freed + 1), Some(ForgetContext)) else (s, None)
    case ForgetContext => (s.(ctx := false), None)
  }

  /** The step at which a tearing thread fails every stream it finds. */
  predicate Sweeps(s: Sys, e: Event) {
    || (e.ReaderMoves? && (s.reader == Leaving(FailStreams) || s.reader == Nested(FailStreams)))
    || (e.CloserMoves? && s.closer == Tearing(FailStreams))
  }

  function ReaderStep(s: Sys): (d: Sys)
    ensures SendersAlone(s, d)
    ensures !Sweeps(s, ReaderMoves) ==> d.unfinished == s.unfinished
  {
    match s.reader
    case Nested(at) =>
      var (d, next) := TearStep(s, at);
      d.(reader := if next.Some? then Nested(next.value) else Reading)
    case Leaving(at) =>
      var (d, next) := TearStep(s, at);
      d.(reader := if next.Some? then Leaving(next.value) else Dead)
    case _ => s
  }

  function CloserStep(s: Sys): (d: Sys)
    ensures SendersAlone(s, d)
    ensures !Sweeps(s, CloserMoves) ==> d.unfinished == s.unfinished
  {
    match s.closer
    case Claimed => s.(closed := true, closer := Marked)
    case Marked => if s.reader.Dead? then s.(closer := Tearing(MarkClosed)) else s.(closer := Returned(false))
    case Tearing(at) =>
      var (d, next) := TearStep(s, at);
      d.(closer := if next.Some? then Tearing(next.value) else Returned(true))
    case _ => s
  }

  function Step(s: Sys, e: Event): Sys {
    match e
    case ReaderLeaves => if s.reader.Reading? then s.(reader := Leaving(MarkClosed)) else s
    case ReaderCloses =>
      if s.reader.Reading? && !s.closing then s.(closing := true, closed := true, reader := Nested(MarkClosed)) else s
    case ReaderMoves => ReaderStep(s)
    case CallClose => if s.closing then s else s.(closing := true, closer := Claimed)
    case CloserMoves => CloserStep(s)
    case Acquire(t, room) => DoAcquire(s, t, room)
    case Create(t, room) => DoCreate(s, t, room)
    case Check(t) => DoCheck(s, t)
    case Lock(t) => DoLock(s, t)
    case Unlock(t) => DoUnlock(s, t)
    case Release(t) => DoRelease(s, t)
    case Respond(t) => DoRespond(s, t)
  }

  function Run(s: Sys, es: seq<Event>): Sys
    decreases |es|
  {
    if es == [] then s else Run(Step(s, es[0]), es[1..])
  }

  /** A release by a sender that holds no reference, while there are some: it gives back another's. */
  predicate Steals(s: Sys, e: Event) {
    e.Release? && PhaseOf(s, e.t) == Releasing && e.t !in s.owners && s.refs > 0
  }

  predicate Honest(s: Sys, es: seq<Event>)
    decreases |es|
  {
    es == [] || (!Steals(s, es[0]) && Honest(Step(s, es[0]), es[1..]))
  }

  /** The maker of the connection goes on without a reference: it is closed already, or has no room. */
  predicate Barges(s: Sys, e: Event) { e.Create? && s.senders == map[] && !Acquirable(s, e.room) }

  /** Nobody sends whose acquire failed. */
  predicate Reserving(s: Sys, es: seq<Event>)
    decreases |es|
  {
    es == [] || (!Barges(s, es[0]) && Reserving(Step(s, es[0]), es[1..]))
  }

  lemma {:induction false} OthersReserve(s: Sys, es: seq<Event>)
    requires forall k :: 0 <= k < |es| ==> !es[k].Create?
    ensures Reserving(s, es)
    decreases |es|
  {
    if es != [] { OthersReserve(Step(s, es[0]), es[1..]); }
  }

  lemma {:induction false} OthersAreHonest(s: Sys, es: seq<Event>)
    requires forall k :: 0 <= k < |es| ==> !es[k].Release?
    ensures Honest(s, es)
    decreases |es|
  {
    if es != [] { OthersAreHonest(Step(s, es[0]), es[1..]); }
  }

  // ---- the invariant ----

  predicate Counted(s: Sys) {
    && s.refs == |s.owners|
    && (forall t :: t in s.owners ==> PhaseOf(s, t) != Idle)
    && (s.drained ==> s.closed && s.owners == {})
  }

  /** Past the first step of teardown the connection is closed, and past the drain it has drained or given up. */
  predicate At(s: Sys, at: Tear) {
    && (!at.MarkClosed? ==> s.closed)
    && (at.FreeNative? || at.ForgetContext? ==> s.drained || s.timedOut)
  }

  predicate ThreadsOk(s: Sys) {
    && (s.reader.Leaving? || s.reader.Nested? ==> At(s, s.reader.at))
    && (s.closer.Tearing? ==> At(s, s.closer.at) && s.reader.Dead?)
    && (s.reader.Nested? || !s.closer.NotCalled? ==> s.closing)
    && (s.reader.Nested? ==> s.closer.NotCalled?)
    && (s.reader.Dead? ==> s.closed && !s.ctx && (s.drained || s.timedOut))
  }

  predicate Forgetting(s: Sys) { (s.reader.Leaving? || s.reader.Nested?) && s.reader.at.ForgetContext? }

  predicate FreedOnce(s: Sys) {
    && !(s.closer.Tearing? && s.closer.at.ForgetContext?)
    && (Forgetting(s) ==> s.ctx)
    && s.freed == (if !s.ctx || Forgetting(s) then 1 else 0)
    && (s.freed > 0 ==> s.closed && (s.drained || s.timedOut))
  }

  predicate Exclusive(s: Sys) { forall t :: t in s.senders && s.senders[t] == Writing ==> s.sendLock == Some(t) }

  predicate Inv(s: Sys) { Counted(s) && ThreadsOk(s) && FreedOnce(s) && Exclusive(s) }

  /** The count survives a release exactly when the sender holds a reference or there is none to take. */
  lemma ReleaseCountsExactly(s: Sys, t: nat)
    requires s.refs == |s.owners| && PhaseOf(s, t) == Releasing
    ensures var d := DoRelease(s, t); d.refs == |d.owners| <==> t in s.owners || s.refs == 0
  {
    if t !in s.owners { assert s.owners - {t} == s.owners; }
  }

  lemma ReservationCounts(s: Sys, t: nat, room: bool)
    requires Counted(s)
    ensures Counted(DoAcquire(s, t, room))
    ensures !Steals(s, Release(t)) ==> Counted(DoRelease(s, t))
  {
    if PhaseOf(s, t) == Releasing { ReleaseCountsExactly(s, t); }
  }

  lemma MoveCounts(s: Sys, d: Sys, t: nat, p: Phase)
    requires Counted(s) && d.senders == s.senders[t := p] && p != Idle
    requires d.owners == s.owners && d.refs == s.refs && d.drained == s.drained && d.closed == s.closed
    ensures Counted(d)
  {
  }

  lemma CreateCounts(s: Sys, t: nat, room: bool)
    requires Counted(s)
    ensures Counted(DoCreate(s, t, room))
  {
    ReservationCounts(s, t, room);
    if Barges(s, Create(t, room)) { MoveCounts(s, DoCreate(s, t, room), t, Reserved); }
  }

  lemma SendCounts(s: Sys, t: nat)
    requires Counted(s)
    ensures Counted(DoCheck(s, t)) && Counted(DoLock(s, t)) && Counted(DoUnlock(s, t))
  {
    if PhaseOf(s, t) == Reserved { MoveCounts(s, DoCheck(s, t), t, if s.closed then Releasing else Cleared); }
    if PhaseOf(s, t) == Cleared && s.sendLock.None? { MoveCounts(s, DoLock(s, t), t, Writing); }
    if PhaseOf(s, t) == Writing { MoveCounts(s, DoUnlock(s, t), t, Releasing); }
  }

  lemma ReservationExcludes(s: Sys, t: nat, room: bool)
    requires Exclusive(s)
    ensures Exclusive(DoAcquire(s, t, room)) && Exclusive(DoRelease(s, t)) && Exclusive(DoCreate(s, t, room))
  {
  }

  lemma SendExcludes(s: Sys, t: nat)
    requires Exclusive(s)
    ensures Exclusive(DoCheck(s, t)) && Exclusive(DoLock(s, t)) && Exclusive(DoUnlock(s, t))
  {
  }

  lemma SameThreadsKeep(s: Sys, d: Sys)
    requires ThreadsOk(s) && FreedOnce(s) && SameThreads(s, d)
    ensures ThreadsOk(d) && FreedOnce(d)
  {
  }

  lemma CallThreads(s: Sys, e: Event)
    requires ThreadsOk(s) && FreedOnce(s) && (e.ReaderLeaves? || e.ReaderCloses? || e.CallClose?)
    ensures ThreadsOk(Step(s, e)) && FreedOnce(Step(s, e))
  {
  }

  /** Every event keeps the order of teardown, whoever sends. */
  lemma StepThreads(s: Sys, e: Event)
    requires ThreadsOk(s) && FreedOnce(s)
    ensures ThreadsOk(Step(s, e)) && FreedOnce(Step(s, e))
  {
    match e
    case ReaderMoves => ReaderThreads(s);
    case CloserMoves => CloserThreads(s);
    case ReaderLeaves => CallThreads(s, e);
    case ReaderCloses => CallThreads(s, e);
    case CallClose => CallThreads(s, e);
    case _ => SameThreadsKeep(s, Step(s, e));
  }

  lemma StepCounts(s: Sys, e: Event)
    requires Inv(s) && !Steals(s, e)
    ensures Counted(Step(s, e)) && Exclusive(Step(s, e))
  {
    match e
    case ReaderMoves => ReaderCounts(s);
    case CloserMoves => CloserCounts(s);
    case ReaderLeaves => SameSendersKeep(s, Step(s, e));
    case ReaderCloses => SameSendersKeep(s, Step(s, e));
    case CallClose => SameSendersKeep(s, Step(s, e));
    case Respond(t) => SameSendersKeep(s, Step(s, e));
    case Acquire(t, room) => ReservationCounts(s, t, room); ReservationExcludes(s, t, room);
    case Release(t) => ReservationCounts(s, t, true); ReservationExcludes(s, t, true);
    case Create(t, room) => CreateCounts(s, t, room); ReservationExcludes(s, t, room);
    case _ => SendCounts(s, e.t); SendExcludes(s, e.t);
  }

  lemma StepKeeps(s: Sys, e: Event)
    requires Inv(s) && !Steals(s, e)
    ensures Inv(Step(s, e))
  {
    StepThreads(s, e);
    StepCounts(s, e);
  }

  lemma SameSendersKeep(s: Sys, d: Sys)
    requires Counted(s) && Exclusive(s) && d.senders == s.senders && d.refs == s.refs
    requires d.owners == s.owners && d.sendLock == s.sendLock
    requires (s.closed ==> d.closed) && (d.drained ==> s.drained || (s.closed && s.refs == 0))
    ensures Counted(d) && Exclusive(d)
  {
  }

  lemma TearKeepsSenders(s: Sys, at: Tear)
    requires At(s, at)
    ensures var d := TearStep(s, at).0;
      && d.senders == s.senders && d.refs == s.refs && d.owners == s.owners && d.sendLock == s.sendLock
      && (s.closed ==> d.closed) && (d.drained ==> s.drained || (s.closed && s.refs == 0))
  {
  }

  lemma ReaderCounts(s: Sys)
    requires Inv(s)
    ensures Counted(ReaderStep(s)) && Exclusive(ReaderStep(s))
  {
    if s.reader.Nested? || s.reader.Leaving? {
      TearKeepsSenders(s, s.reader.at);
      SameSendersKeep(s, ReaderStep(s));
    }
  }

  lemma ReaderThreads(s: Sys)
    requires ThreadsOk(s) && FreedOnce(s)
    ensures ThreadsOk(ReaderStep(s)) && FreedOnce(ReaderStep(s))
  {
    if s.reader.Leaving? || s.reader.Nested? { TearKeepsThreads(s, s.reader.at); }
  }

  /** One step of the reader's teardown, up to where the reader goes next. */
  lemma TearKeepsThreads(s: Sys, at: Tear)
    requires ThreadsOk(s) && FreedOnce(s) && (s.reader == Leaving(at) || s.reader == Nested(at))
    ensures var (d, next) := TearStep(s, at);
      && d.reader == s.reader && d.closer == s.closer && d.closing == s.closing && (s.closed ==> d.closed)
      && (next.Some? ==> At(d, next.value) && (next.value.ForgetContext? ==> d.ctx))
      && (next.None? ==> d.closed && !d.ctx && (d.drained || d.timedOut))
      && d.freed == (if !d.ctx || next == Some(ForgetContext) then 1 else 0)
      && (d.freed > 0 ==> d.closed && (d.drained || d.timedOut))
  {
  }

  lemma CloserCounts(s: Sys)
    requires Inv(s)
    ensures Counted(CloserStep(s)) && Exclusive(CloserStep(s))
  {
    if s.closer.Tearing? { TearKeepsSenders(s, s.closer.at); }
    SameSendersKeep(s, CloserStep(s));
  }

  lemma CloserThreads(s: Sys)
    requires ThreadsOk(s) && FreedOnce(s)
    ensures ThreadsOk(CloserStep(s)) && FreedOnce(CloserStep(s))
  {
  }

  lemma {:induction false} RunKeeps(s: Sys, es: seq<Event>)
    requires Inv(s) && Honest(s, es)
    ensures Inv(Run(s, es))
    decreases |es|
  {
    if es != [] {
      StepKeeps(s, es[0]);
      RunKeeps(Step(s, es[0]), es[1..]);
    }
  }

  // ---- what holds in every run ----

  lemma {:induction false} RunSplit(s: Sys, a: seq<Event>, b: seq<Event>)
    ensures Run(s, a + b) == Run(Run(s, a), b)
    decreases |a|
  {
    if a == [] {
      assert a + b == b;
    } else {
      assert (a + b)[1..] == a[1..] + b;
      RunSplit(Step(s, a[0]), a[1..], b);
    }
  }

  lemma {:induction false} DrainedStays(s: Sys, es: seq<Event>)
    requires s.drained
    ensures Run(s, es).drained
    decreases |es|
  {
    if es != [] {
      DrainedStep(s, es[0]);
      DrainedStays(Step(s, es[0]), es[1..]);
    }
  }

  lemma DrainedStep(s: Sys, e: Event)
    requires s.drained
    ensures Step(s, e).drained
  {
  }

  /** Everyone between acquire and release holds a reference. */
  predicate AllOwn(s: Sys) { forall t :: t in s.senders && s.senders[t] != Idle ==> t in s.owners }

  lemma SendersOwn(s: Sys, t: nat, room: bool)
    requires AllOwn(s)
    ensures AllOwn(DoAcquire(s, t, room)) && AllOwn(DoRelease(s, t))
    ensures AllOwn(DoCheck(s, t)) && AllOwn(DoLock(s, t)) && AllOwn(DoUnlock(s, t))
  {
  }

  lemma StepOwns(s: Sys, e: Event)
    requires AllOwn(s) && !Barges(s, e)
    ensures AllOwn(Step(s, e)) && !Steals(s, e)
  {
    match e
    case Acquire(t, room) => SendersOwn(s, t, room);
    case Create(t, room) => SendersOwn(s, t, room);
    case Check(t) => SendersOwn(s, t, true);
    case Lock(t) => SendersOwn(s, t, true);
    case Unlock(t) => SendersOwn(s, t, true);
    case Release(t) => SendersOwn(s, t, true);
    case _ =>
  }

  lemma {:induction false} ReservingIsHonest(s: Sys, es: seq<Event>)
    requires AllOwn(s) && Reserving(s, es)
    ensures Honest(s, es) && AllOwn(Run(s, es))
    decreases |es|
  {
    if es != [] {
      StepOwns(s, es[0]);
      ReservingIsHonest(Step(s, es[0]), es[1..]);
    }
  }

  /** Once a drain loop has seen no references, nobody who took one holds the connection, then or ever after. */
  lemma DrainedHasNoOwners(es: seq<Event>, more: seq<Event>)
    requires Honest(Init(), es + more) && Run(Init(), es).drained
    ensures Run(Init(), es + more).owners == {}
  {
    RunSplit(Init(), es, more);
    DrainedStays(Run(Init(), es), more);
    RunKeeps(Init(), es + more);
  }

  /** So if nobody sends without one, no sender is or ever will be writing. */
  lemma DrainedIsQuiet(es: seq<Event>, more: seq<Event>, t: nat)
    requires Reserving(Init(), es + more) && Run(Init(), es).drained
    ensures PhaseOf(Run(Init(), es + more), t) == Idle
  {
    ReservingIsHonest(Init(), es + more);
    DrainedHasNoOwners(es, more);
  }

  /** The count of references is right at every moment of a run exactly when nobody steals one. */
  lemma {:induction false} HonestIsCounted(s: Sys, es: seq<Event>)
    requires Inv(s)
    ensures Honest(s, es) <==> forall k :: 0 <= k <= |es| ==> CountRight(Run(s, es[..k]))
    decreases |es|
  {
    if es == [] {
      assert es[..0] == [];
    } else {
      var d := Step(s, es[0]);
      forall k | 1 <= k <= |es| ensures Run(s, es[..k]) == Run(d, es[1..][..k - 1]) {
        assert es[..k][0] == es[0] && es[..k][1..] == es[1..][..k - 1];
      }
      assert Run(s, es[..1]) == d by { assert es[1..][..0] == []; }
      if Steals(s, es[0]) {
        ReleaseCountsExactly(s, es[0].t);
        assert !CountRight(Run(s, es[..1]));
      } else {
        StepKeeps(s, es[0]);
        HonestIsCounted(d, es[1..]);
        CountShifts(s, es);
      }
    }
  }

  predicate CountRight(s: Sys) { s.refs == |s.owners| }

  lemma CountShifts(s: Sys, es: seq<Event>)
    requires es != [] && CountRight(s)
    requires forall k :: 1 <= k <= |es| ==> Run(s, es[..k]) == Run(Step(s, es[0]), es[1..][..k - 1])
    ensures (forall k :: 0 <= k <= |es| ==> CountRight(Run(s, es[..k])))
      <==> forall k :: 0 <= k <= |es[1..]| ==> CountRight(Run(Step(s, es[0]), es[1..][..k]))
  {
    assert es[..0] == [];
    if forall k :: 0 <= k <= |es| ==> CountRight(Run(s, es[..k])) {
      forall k | 0 <= k <= |es[1..]| ensures CountRight(Run(Step(s, es[0]), es[1..][..k])) {
        assert CountRight(Run(s, es[..k + 1]));
      }
    }
  }

  /** A writer under whom the context is freed, nothing stolen and no wait having given up, holds no reference. */
  lemma FreedWriterHasNoReference(es: seq<Event>, t: nat)
    requires Honest(Init(), es) && PhaseOf(Run(Init(), es), t) == Writing
    requires Run(Init(), es).freed > 0 && !Run(Init(), es).timedOut
    ensures t !in Run(Init(), es).owners
  {
    if t in Run(Init(), es).owners { FreeWaitsForOwners(es, t); }
  }

  /** While a sender holds a reference the context is freed only where the bounded wait gave up. */
  lemma FreeWaitsForOwners(es: seq<Event>, t: nat)
    requires Honest(Init(), es) && t in Run(Init(), es).owners
    ensures var s := Run(Init(), es); (s.freed > 0 ==> s.timedOut) && !s.drained
  {
    RunKeeps(Init(), es);
  }

  /** A context freed under a sender with a reference, no wait having given up, needs a stolen reference. */
  lemma FreeUnderOwnerNeedsTheft(es: seq<Event>, t: nat)
    requires var s := Run(Init(), es); t in s.owners && s.freed > 0 && !s.timedOut
    ensures !Honest(Init(), es)
  {
    if Honest(Init(), es) { FreeWaitsForOwners(es, t); }
  }

  /** The context is freed during a write only where the bounded wait gave up; and at most one sender writes. */
  lemma FreeWaitsForWriters(es: seq<Event>, t: nat)
    requires Reserving(Init(), es) && PhaseOf(Run(Init(), es), t) == Writing
    ensures var s := Run(Init(), es);
      (s.freed > 0 ==> s.timedOut) && !s.drained && s.sendLock == Some(t)
  {
    ReservingIsHonest(Init(), es);
    RunKeeps(Init(), es);
    FreeWaitsForOwners(es, t);
  }

  lemma {:induction false} RunThreads(s: Sys, es: seq<Event>)
    requires ThreadsOk(s) && FreedOnce(s)
    ensures ThreadsOk(Run(s, es)) && FreedOnce(Run(s, es))
    decreases |es|
  {
    if es != [] {
      StepThreads(s, es[0]);
      RunThreads(Step(s, es[0]), es[1..]);
    }
  }

  /** Whoever sends, the context is freed at most once, and exactly once by the time the reader is dead. */
  lemma FreedExactlyOnce(es: seq<Event>)
    ensures var s := Run(Init(), es);
      s.freed <= 1 && (!s.ctx ==> s.freed == 1) && (s.reader.Dead? ==> !s.ctx) && (s.freed == 1 ==> s.closed)
  {
    RunThreads(Init(), es);
  }

  // ---- streams registered late ----

  /** Nobody fails the streams, and no response finishes one. */
  predicate Unswept(s: Sys, es: seq<Event>)
    decreases |es|
  {
    es == [] ||
    (!Sweeps(s, es[0]) && !(es[0].Respond? && s.reader.Reading?) && Unswept(Step(s, es[0]), es[1..]))
  }

  /** The senders that have found the connection open and not yet registered. */
  function ClearedIn(s: Sys): set<nat> { set t | t in s.senders && s.senders[t] == Cleared }

  lemma ClearedMoves(s: Sys, d: Sys, t: nat, p: Phase)
    requires d.senders == s.senders[t := p]
    ensures ClearedIn(d) == if p == Cleared then ClearedIn(s) + {t} else ClearedIn(s) - {t}
    ensures t in ClearedIn(s) <==> PhaseOf(s, t) == Cleared
  {
  }

  predicate PassedOn(s: Sys, d: Sys) { d.unfinished + ClearedIn(d) == s.unfinished + ClearedIn(s) }

  lemma MovePassesOn(s: Sys, d: Sys, t: nat, p: Phase)
    requires d.senders == s.senders[t := p] && d.unfinished == s.unfinished && p != Cleared && PhaseOf(s, t) != Cleared
    ensures PassedOn(s, d)
  {
    ClearedMoves(s, d, t, p);
    assert ClearedIn(s) - {t} == ClearedIn(s);
  }

  lemma SendersPassOn(s: Sys, t: nat, room: bool)
    requires s.closed
    ensures PassedOn(s, DoCreate(s, t, room)) && PassedOn(s, DoCheck(s, t)) && PassedOn(s, DoLock(s, t))
    ensures PassedOn(s, DoAcquire(s, t, room)) && PassedOn(s, DoUnlock(s, t)) && PassedOn(s, DoRelease(s, t))
  {
    match PhaseOf(s, t)
    case Idle => if s.senders == map[] { MovePassesOn(s, DoCreate(s, t, room), t, Reserved); }
    case Reserved => MovePassesOn(s, DoCheck(s, t), t, Releasing);
    case Cleared => LockPassesOn(s, t);
    case Writing => MovePassesOn(s, DoUnlock(s, t), t, Releasing);
    case Releasing => MovePassesOn(s, DoRelease(s, t), t, Idle);
  }

  lemma LockPassesOn(s: Sys, t: nat)
    requires PhaseOf(s, t) == Cleared
    ensures PassedOn(s, DoLock(s, t))
  {
    if s.sendLock.None? { ClearedMoves(s, DoLock(s, t), t, Writing); }
  }

  lemma StepPassesOn(s: Sys, e: Event)
    requires s.closed && !Sweeps(s, e) && !(e.Respond? && s.reader.Reading?)
    ensures Step(s, e).closed && PassedOn(s, Step(s, e))
  {
    match e
    case Acquire(t, room) => SendersPassOn(s, t, room);
    case Create(t, room) => SendersPassOn(s, t, room);
    case Check(t) => SendersPassOn(s, t, true);
    case Lock(t) => SendersPassOn(s, t, true);
    case Unlock(t) => SendersPassOn(s, t, true);
    case Release(t) => SendersPassOn(s, t, true);
    case _ => assert ClearedIn(Step(s, e)) == ClearedIn(s);
  }

  /** On a closed connection streams not done plus senders about to register are conserved until someone sweeps. */
  lemma {:induction false} UnfinishedIsConserved(s: Sys, es: seq<Event>)
    requires s.closed && Unswept(s, es)
    ensures PassedOn(s, Run(s, es))
    decreases |es|
  {
    if es != [] {
      StepPassesOn(s, es[0]);
      UnfinishedIsConserved(Step(s, es[0]), es[1..]);
    }
  }

  /**
   * What a sweep leaves behind, in any run: once nobody is about to register any more, the streams not done are
   * exactly those of the senders past their check of `closed` when the streams were failed.
   */
  lemma StragglersAreTheCleared(s: Sys, e: Event, es: seq<Event>)
    requires s.closed && Sweeps(s, e) && Unswept(Step(s, e), es) && ClearedIn(Run(Step(s, e), es)) == {}
    ensures Run(Step(s, e), es).unfinished == ClearedIn(s)
    ensures Run(Step(s, e), es).unfinished == {} <==> forall t :: PhaseOf(s, t) != Cleared
  {
    var d := Step(s, e);
    assert d.closed && d.unfinished == {} && d.senders == s.senders;
    assert ClearedIn(d) == ClearedIn(s);
    UnfinishedIsConserved(d, es);
    assert forall t :: t in ClearedIn(s) <==> PhaseOf(s, t) == Cleared;
  }

  /** In particular when the reader has died after a clean drain: what is not done is what was past the check. */
  lemma DeadReaderLeaves(before: seq<Event>, after: seq<Event>)
    requires Reserving(Init(), before + [ReaderMoves] + after)
    requires Run(Init(), before).reader == Leaving(FailStreams)
    requires Unswept(Run(Init(), before + [ReaderMoves]), after)
    requires var d := Run(Init(), before + [ReaderMoves] + after); d.reader.Dead? && !d.timedOut
    ensures Run(Init(), before + [ReaderMoves] + after).unfinished == ClearedIn(Run(Init(), before))
  {
    var s, all := Run(Init(), before), before + [ReaderMoves] + after;
    RunThreads(Init(), before);
    RunOne(s, ReaderMoves);
    RunSplit(Init(), before, [ReaderMoves]);
    RunSplit(Init(), before + [ReaderMoves], after);
    var d := Run(Init(), all);
    RunThreads(Init(), all);
    assert all + [] == all;
    forall t ensures PhaseOf(d, t) == Idle { DrainedIsQuiet(all, [], t); }
    assert forall t :: t in ClearedIn(d) ==> PhaseOf(d, t) == Cleared;
    StragglersAreTheCleared(s, ReaderMoves, after);
  }

  lemma RunOne(s: Sys, e: Event)
    ensures Run(s, [e]) == Step(s, e)
  {
    assert [e][1..] == [];
  }

  predicate Swept(s: Sys) {
    (s.closer.Tearing? && !s.closer.at.MarkClosed? && !s.closer.at.FailStreams?) || s.closer == Returned(true)
  }

  predicate SweepInv(s: Sys) { Swept(s) ==> s.reader.Dead? && (s.timedOut || s.unfinished == {}) }

  lemma SweepSender(s: Sys, t: nat)
    requires Inv(s) && AllOwn(s) && SweepInv(s)
    ensures SweepInv(DoLock(s, t)) && SweepInv(DoRespond(s, t))
  {
    assert PhaseOf(s, t) == Idle || t in s.owners;
  }

  lemma SweepThreads(s: Sys)
    requires Inv(s) && SweepInv(s)
    ensures SweepInv(ReaderStep(s)) && SweepInv(CloserStep(s))
  {
  }

  lemma SweepStep(s: Sys, e: Event)
    requires Inv(s) && AllOwn(s) && SweepInv(s) && !Barges(s, e)
    ensures SweepInv(Step(s, e))
  {
    if e.Lock? || e.Respond? { SweepSender(s, e.t); }
    else if e.ReaderMoves? || e.CloserMoves? { SweepThreads(s); }
  }

  lemma {:induction false} SweepRun(s: Sys, es: seq<Event>)
    requires Inv(s) && AllOwn(s) && SweepInv(s) && Reserving(s, es)
    ensures SweepInv(Run(s, es))
    decreases |es|
  {
    if es != [] {
      StepOwns(s, es[0]);
      StepKeeps(s, es[0]);
      SweepStep(s, es[0]);
      SweepRun(Step(s, es[0]), es[1..]);
    }
  }

  /** A close() that finds the reader dead finishes every stream, also one registered behind the reader's back. */
  lemma CloseSweepsStragglers(es: seq<Event>)
    requires Reserving(Init(), es) && Run(Init(), es).closer == Returned(true) && !Run(Init(), es).timedOut
    ensures Run(Init(), es).unfinished == {}
  {
    SweepRun(Init(), es);
  }

  // ---- what ends and what lasts ----

  /** Where a tearing thread is after it has failed the streams and then taken one step in each of these states. */
  function TearAt(states: seq<Sys>): Option<Tear> {
    if states == [] then TearStep(Init(), FailStreams).1
    else
      match TearAt(states[..|states| - 1])
      case None => None
      case Some(at) => TearStep(states[|states| - 1], at).1
  }

  lemma {:induction false} StillPolling(states: seq<Sys>)
    requires |states| <= 400 && forall i :: 0 <= i < |states| ==> states[i].refs > 0
    ensures TearAt(states) == Some(Poll(400 - |states|))
  {
    if states != [] { StillPolling(states[..|states| - 1]); }
  }

  /** The drain ends at the first of 400 looks that sees no reference, and gives up exactly when none of them does. */
  lemma DrainEndsExactly(states: seq<Sys>, s: Sys)
    requires |states| <= 400 && forall i :: 0 <= i < |states| ==> states[i].refs > 0
    ensures TearAt(states).Some?
    ensures var (d, next) := TearStep(s, TearAt(states).value);
      && (|states| < 400 && s.refs == 0 ==> next == Some(FreeNative) && d == s.(drained := true))
      && (|states| < 400 && s.refs > 0 ==> next == Some(Poll(399 - |states|)) && d == s)
      && (|states| == 400 ==> next == Some(FreeNative) && d == s.(timedOut := true))
  {
    StillPolling(states);
  }

  /** Once a connection is closed or closing, nobody takes a reference any more; references are only given back. */
  lemma {:induction false} ClosedGainsNoOwners(s: Sys, es: seq<Event>)
    requires s.closed || s.closing
    ensures Run(s, es).owners <= s.owners && Run(s, es).refs <= s.refs
    ensures Run(s, es).closed || Run(s, es).closing
    decreases |es|
  {
    if es != [] {
      StepGainsNoOwners(s, es[0]);
      ClosedGainsNoOwners(Step(s, es[0]), es[1..]);
    }
  }

  lemma StepGainsNoOwners(s: Sys, e: Event)
    requires s.closed || s.closing
    ensures var d := Step(s, e); d.owners <= s.owners && d.refs <= s.refs && (d.closed || d.closing)
  {
    if e.ReaderMoves? { ReaderKeepsClosing(s); }
    if e.CloserMoves? { CloserKeepsClosing(s); }
  }

  lemma TearKeepsClosing(s: Sys, at: Tear)
    ensures TearStep(s, at).0.closing == s.closing
  {
  }

  lemma ReaderKeepsClosing(s: Sys)
    ensures ReaderStep(s).closing == s.closing
  {
    if s.reader.Nested? || s.reader.Leaving? { TearKeepsClosing(s, s.reader.at); }
  }

  lemma CloserKeepsClosing(s: Sys)
    ensures CloserStep(s).closing == s.closing
  {
    if s.closer.Tearing? { TearKeepsClosing(s, s.closer.at); }
  }

  /** A close past its first step, of the closing thread or re-entrant in the reader, has closed the connection. */
  predicate CloseHasClosed(s: Sys) {
    s.closer.Marked? || s.closer.Tearing? || s.closer.Returned? || s.reader.Nested? ==> s.closed
  }

  lemma StepHasClosed(s: Sys, e: Event)
    requires CloseHasClosed(s)
    ensures CloseHasClosed(Step(s, e))
  {
    match e
    case ReaderMoves => ReaderHasClosed(s);
    case CloserMoves => CloserHasClosed(s);
    case _ =>
  }

  lemma ReaderHasClosed(s: Sys)
    requires CloseHasClosed(s)
    ensures CloseHasClosed(ReaderStep(s))
  {
    if s.reader.Nested? || s.reader.Leaving? { assert s.closed ==> TearStep(s, s.reader.at).0.closed; }
  }

  lemma CloserHasClosed(s: Sys)
    requires CloseHasClosed(s)
    ensures CloseHasClosed(CloserStep(s))
  {
    if s.closer.Tearing? { assert TearStep(s, s.closer.at).0.closed; }
  }

  lemma {:induction false} RunHasClosed(s: Sys, es: seq<Event>)
    requires CloseHasClosed(s)
    ensures CloseHasClosed(Run(s, es))
    decreases |es|
  {
    if es != [] {
      StepHasClosed(s, es[0]);
      RunHasClosed(Step(s, es[0]), es[1..]);
    }
  }

  /** While the reader reads, a stream is unfinished from the lock section that registers it to its response. */
  lemma StreamLasts(s: Sys, t: nat, u: nat)
    requires s.reader.Reading? && PhaseOf(s, t) == Cleared && s.sendLock.None?
    ensures var registered := Step(s, Lock(t));
      var sent := Step(registered, Unlock(t));
      && t in registered.unfinished && t in sent.unfinished
      && t !in Step(sent, Respond(t)).unfinished
      && (u != t ==> (u in Step(sent, Respond(t)).unfinished <==> u in s.unfinished))
  {
  }

  /** On an open connection with room every idle thread can take one, and then holds it until it gives it back. */
  lemma OpenGivesReference(s: Sys, t: nat)
    requires !s.closed && !s.closing && PhaseOf(s, t) == Idle && t !in s.owners
    ensures var d := Step(s, Acquire(t, true)); d.owners == s.owners + {t} && d.refs == s.refs + 1
    ensures Step(s, Acquire(t, false)) == s
  {
  }

  const FIVE_MOVES: seq<Event> := [CloserMoves, CloserMoves, CloserMoves] + [CloserMoves, CloserMoves]

  /** A close that finds the reader alive leaves the teardown to it; one that finds it dead does it, and finishes. */
  lemma CloseTearsDown(s: Sys)
    requires s.closer == Marked
    ensures !s.reader.Dead? ==> CloserStep(s) == s.(closer := Returned(false))
    ensures s.reader.Dead? && s.refs == 0 && !s.ctx ==>
      Run(s, FIVE_MOVES) == s.(closer := Returned(true), closed := true, unfinished := {}, drained := true)
  {
    if s.reader.Dead? && s.refs == 0 && !s.ctx {
      var a, b := [CloserMoves, CloserMoves, CloserMoves], [CloserMoves, CloserMoves];
      var d := s.(closer := Tearing(Poll(POLLS)), closed := true, unfinished := {});
      RunThree(s, CloserMoves, CloserMoves, CloserMoves);
      assert Run(s, a) == d;
      assert b[1..] == [CloserMoves] && [CloserMoves][1..] == [];
      var e := d.(closer := Tearing(FreeNative), drained := true);
      assert Step(d, CloserMoves) == e;
      assert Run(d, b) == Run(e, [CloserMoves]);
      RunOne(e, CloserMoves);
      RunSplit(s, a, b);
    }
  }

  // ---- two runs that go wrong ----

  lemma RunThree(s: Sys, a: Event, b: Event, c: Event)
    ensures Run(s, [a, b, c]) == Step(Step(Step(s, a), b), c)
  {
    var es := [a, b, c];
    assert es[1..] == [b, c] && [b, c][1..] == [c] && [c][1..] == [];
    assert Run(s, es) == Run(Step(s, a), [b, c]) == Run(Step(Step(s, a), b), [c]);
  }

  const THREE_MOVES: seq<Event> := [ReaderMoves, ReaderMoves, ReaderMoves]

  /** A reservation, a passed check, and a reader that fails every stream it knows before the sender registers. */
  const CHECKED: seq<Event> := [Acquire(1, true), Check(1), ReaderLeaves] + [ReaderMoves, ReaderMoves, Lock(1)]

  const STRAGGLER: seq<Event> := CHECKED + [Unlock(1), Release(1), ReaderMoves] + THREE_MOVES

  /** After CHECKED: sender 1 is writing and holds the one reference, its stream is not done, the reader drains. */
  const LATE_WRITER := Init().(
    senders := map[1 := Writing], refs := 1, owners := {1}, sendLock := Some(1), closed := true, unfinished := {1},
    reader := Leaving(Poll(POLLS)))

  lemma CheckedBeforeExit()
    ensures Run(Init(), CHECKED) == LATE_WRITER
  {
    var s := Init().(senders := map[1 := Cleared], refs := 1, owners := {1}, reader := Leaving(MarkClosed));
    RunThree(Init(), Acquire(1, true), Check(1), ReaderLeaves);
    assert Step(Init(), Acquire(1, true)) == Init().(senders := map[1 := Reserved], refs := 1, owners := {1});
    assert map[1 := Reserved][1 := Cleared] == map[1 := Cleared];
    assert Run(Init(), [Acquire(1, true), Check(1), ReaderLeaves]) == s;
    RunThree(s, ReaderMoves, ReaderMoves, Lock(1));
    assert map[1 := Cleared][1 := Writing] == map[1 := Writing];
    RunSplit(Init(), [Acquire(1, true), Check(1), ReaderLeaves], [ReaderMoves, ReaderMoves, Lock(1)]);
  }

  lemma ReaderFinishes(s: Sys)
    requires s.reader == Leaving(FreeNative) && s.ctx
    ensures Run(s, THREE_MOVES) == s.(reader := Dead, ctx := false, freed := s.freed + 1)
  {
    RunThree(s, ReaderMoves, ReaderMoves, ReaderMoves);
  }

  lemma LastSenderReleases()
    ensures Run(LATE_WRITER, [Unlock(1), Release(1), ReaderMoves]) == LATE_WRITER.(
      senders := map[1 := Idle], refs := 0, owners := {}, sendLock := None, reader := Leaving(FreeNative),
      drained := true)
  {
    RunThree(LATE_WRITER, Unlock(1), Release(1), ReaderMoves);
    assert map[1 := Writing][1 := Releasing][1 := Idle] == map[1 := Idle];
  }

  /** A sender past its check of `closed` registers a stream behind the leaving reader's back: nobody finishes it. */
  lemma StragglerIsLeft()
    ensures Reserving(Init(), STRAGGLER)
    ensures var s := Run(Init(), STRAGGLER); s.reader.Dead? && s.drained && !s.timedOut && s.unfinished == {1}
  {
    var more := [Unlock(1), Release(1), ReaderMoves];
    CheckedBeforeExit();
    LastSenderReleases();
    ReaderFinishes(Run(LATE_WRITER, more));
    RunSplit(Init(), CHECKED, more);
    RunSplit(Init(), CHECKED + more, THREE_MOVES);
    OthersReserve(Init(), STRAGGLER);
  }

  lemma ReaderDrains(s: Sys)
    requires s.reader == Leaving(Poll(POLLS)) && s.refs == 0 && s.ctx
    ensures Run(s, THREE_MOVES) == s.(reader := Dead, drained := true, ctx := false, freed := s.freed + 1)
  {
    RunThree(s, ReaderMoves, ReaderMoves, ReaderMoves);
  }

  /** The maker finds no room, another sender acquires and writes, the reader leaves, and the maker gives up. */
  const STOLEN: seq<Event> :=
    [Create(2, false), Acquire(1, true), Check(1)] + [ReaderLeaves, ReaderMoves, ReaderMoves]
    + [Lock(1), Check(2), Release(2)]

  /** Sender 1 writes with a reference that the count has lost. */
  const ROBBED := LATE_WRITER.(senders := map[1 := Writing, 2 := Idle], refs := 0)

  lemma MakerSteals()
    ensures Run(Init(), STOLEN) == ROBBED
  {
    var a, b, c := [Create(2, false), Acquire(1, true), Check(1)], [ReaderLeaves, ReaderMoves, ReaderMoves],
      [Lock(1), Check(2), Release(2)];
    var s := Init().(senders := map[1 := Cleared, 2 := Reserved], refs := 1, owners := {1});
    RunThree(Init(), a[0], a[1], a[2]);
    assert map[2 := Reserved][1 := Reserved][1 := Cleared] == map[1 := Cleared, 2 := Reserved];
    assert Run(Init(), a) == s;
    var d := s.(closed := true, reader := Leaving(Poll(POLLS)));
    RunThree(s, b[0], b[1], b[2]);
    assert Run(s, b) == d;
    RunThree(d, c[0], c[1], c[2]);
    assert map[1 := Cleared, 2 := Reserved][1 := Writing][2 := Releasing][2 := Idle] == map[1 := Writing, 2 := Idle];
    RunSplit(Init(), a, b);
    RunSplit(Init(), a + b, c);
  }

  /** A maker that ignores a failed acquire gives back another's reference: the context goes while that one writes. */
  lemma BargingBreaksTheDrain()
    ensures var s := Run(Init(), STOLEN + THREE_MOVES);
      PhaseOf(s, 1) == Writing && 1 in s.owners && s.drained && s.freed == 1 && !s.timedOut
    ensures !Honest(Init(), STOLEN + THREE_MOVES)
  {
    MakerSteals();
    ReaderDrains(ROBBED);
    RunSplit(Init(), STOLEN, THREE_MOVES);
    FreeUnderOwnerNeedsTheft(STOLEN + THREE_MOVES, 1);
  }

  /** The maker finds no room, writes all the same, and the reader leaves. */
  const UNPROTECTED: seq<Event> := [Create(1, false), Check(1), Lock(1)] + [ReaderLeaves, ReaderMoves, ReaderMoves]

  /** And it is not protected itself: the context goes while it writes, with nothing stolen and no wait given up. */
  lemma BargerIsUnprotected()
    ensures var s := Run(Init(), UNPROTECTED + THREE_MOVES);
      PhaseOf(s, 1) == Writing && s.drained && s.freed == 1 && !s.timedOut
    ensures Honest(Init(), UNPROTECTED + THREE_MOVES)
  {
    var a, b := [Create(1, false), Check(1), Lock(1)], [ReaderLeaves, ReaderMoves, ReaderMoves];
    var s := Init().(senders := map[1 := Writing], sendLock := Some(1), unfinished := {1});
    RunThree(Init(), a[0], a[1], a[2]);
    assert map[1 := Reserved][1 := Cleared][1 := Writing] == map[1 := Writing];
    assert Run(Init(), a) == s;
    RunThree(s, b[0], b[1], b[2]);
    var d := s.(closed := true, unfinished := {}, reader := Leaving(Poll(POLLS)));
    assert Run(s, b) == d;
    ReaderDrains(d);
    RunSplit(Init(), a, b);
    RunSplit(Init(), UNPROTECTED, THREE_MOVES);
    OthersAreHonest(Init(), UNPROTECTED + THREE_MOVES);
  }
}
