/**
 * The session's pool of HTTP/2 connections: the sections under the session lock as atomic steps of many threads.
 */
module Pool {
  type Key = nat       // host, port and proxy
  type Conn = nat      // one HTTP/2 connection object
  type Thread = nat

  /** A thread past the point where it added its key to `_creating`. */
  datatype Maker = Connecting(key: Key) | Made(key: Key, conn: Conn) | Leaving(key: Key)

  datatype State = State(
    table: map<Key, seq<Conn>>, draining: seq<Conn>, creating: set<Key>,
    makers: map<Thread, Maker>,
    taken: seq<Conn>,            // handed to `close`, outside the lock
    made: nat,                   // connections 0, 1, … exist
    closed: set<Conn>, dead: set<Conn>)

  function Init(): State { State(map[], [], {}, map[], [], 0, {}, {}) }

  /** The elements of s inside (or outside) a set, in order. */
  function Among(s: seq<Conn>, which: set<Conn>, inside: bool): seq<Conn> {
    if s == [] then []
    else
      var rest := Among(s[..|s| - 1], which, inside);
      if (s[|s| - 1] in which) == inside then rest + [s[|s| - 1]] else rest
  }

  function Conns(p: State, k: Key): seq<Conn> { if k in p.table then p.table[k] else [] }

  /** `_evict_closed` on one list. */
  function Evict(p: State, k: Key): State {
    p.(table := p.table[k := Among(Conns(p, k), p.closed, false)],
       draining := p.draining + Among(Conns(p, k), p.closed, true))
  }

  /** The section of `_get_conn`: reuse (an acquire succeeded), wait, or become the one that connects. */
  function Ask(p: State, t: Thread, k: Key, reused: bool): State {
    var p := Evict(p, k);
    if reused || k in p.creating then p
    else p.(creating := p.creating + {k}, makers := p.makers[t := Connecting(k)])
  }

  function Connected(p: State, t: Thread, h2: bool): State {
    if t !in p.makers || !p.makers[t].Connecting? then p
    else
      var k := p.makers[t].key;
      if h2 then p.(makers := p.makers[t := Made(k, p.made)], made := p.made + 1)
      else p.(makers := p.makers[t := Leaving(k)])
  }

  function Publish(p: State, t: Thread): State {
    if t !in p.makers || !p.makers[t].Made? then p
    else
      var Made(k, c) := p.makers[t];
      p.(table := p.table[k := Conns(p, k) + [c]], makers := p.makers[t := Leaving(k)])
  }

  function Discard(p: State, t: Thread): State {
    if t !in p.makers || !p.makers[t].Leaving? then p
    else p.(creating := p.creating - {p.makers[t].key}, makers := p.makers - {t})
  }

  function Reap(p: State): State { p.(draining := [], taken := p.taken + p.draining) }

  /** Hand the draining connections in a set to `close`. */
  function Collect(p: State, which: set<Conn>): State {
    p.(draining := Among(p.draining, which, false), taken := p.taken + Among(p.draining, which, true))
  }

  /** The section of `_existing_conn`: sweep the dead, then evict in a list that is not empty. */
  function Sweep(p: State, k: Key): State {
    var p := Collect(p, p.dead);
    if Conns(p, k) == [] then p else Evict(p, k)
  }

  function Gather(table: map<Key, seq<Conn>>, keys: seq<Key>): seq<Conn>
    requires forall i :: 0 <= i < |keys| ==> keys[i] in table
  {
    if keys == [] then [] else Gather(table, keys[..|keys| - 1]) + table[keys[|keys| - 1]]
  }

  function Clear(p: State, keys: seq<Key>): State
    requires Lists(keys, p.table)
  {
    p.(table := map[], taken := p.taken + Gather(p.table, keys))
  }

  datatype Event =
    | AskFor(t: Thread, key: Key, reused: bool)
    | Connect(t: Thread, h2: bool)        // not h2: HTTP/1.1 was chosen, or connecting failed
    | Append(t: Thread)
    | LeaveSection(t: Thread)
    | ReapAll
    | Look(key: Key)
    | CloseAll(keys: seq<Key>)            // the order in which the table is walked
    | Closes(c: Conn)                     // the peer goes away
    | Dies(c: Conn)                       // the connection's reader exits

  predicate Lists(keys: seq<Key>, table: map<Key, seq<Conn>>) {
    && (forall i :: 0 <= i < |keys| ==> keys[i] in table)
    && (forall k :: k in table ==> k in keys)
    && (forall i, j :: 0 <= i < j < |keys| ==> keys[i] != keys[j])
  }

  /** Only an idle thread asks, only an open connection is reused, and a dictionary is walked once over each key. */
  predicate Possible(p: State, e: Event) {
    && (e.AskFor? ==> e.t !in p.makers && (e.reused ==> Among(Conns(p, e.key), p.closed, false) != []))
    && (e.CloseAll? ==> Lists(e.keys, p.table))
  }

  function Step(p: State, e: Event): State {
    if !Possible(p, e) then p
    else
      match e
      case AskFor(t, k, reused) => Ask(p, t, k, reused)
      case Connect(t, h2) => Connected(p, t, h2)
      case Append(t) => Publish(p, t)
      case LeaveSection(t) => Discard(p, t)
      case ReapAll => Reap(p)
      case Look(k) => Sweep(p, k)
      case CloseAll(keys) => Clear(p, keys)
      case Closes(c) => p.(closed := p.closed + {c})
      case Dies(c) => p.(dead := p.dead + {c}, closed := p.closed + {c})
  }

  function Run(es: seq<Event>): State {
    if es == [] then Init() else Step(Run(es[..|es| - 1]), es[|es| - 1])
  }

  // ---- single flight ----

  /** A key is in `_creating` exactly when a thread is connecting for it, and never two. */
  ghost predicate SingleFlight(p: State) {
    && (forall k :: k in p.creating <==> exists t :: t in p.makers && p.makers[t].key == k)
    && (forall t, u :: t in p.makers && u in p.makers && p.makers[t].key == p.makers[u].key ==> t == u)
  }

  lemma SingleFlightStep(p: State, e: Event)
    requires SingleFlight(p)
    ensures SingleFlight(Step(p, e))
  {
    var d := Step(p, e);
    if !Possible(p, e) { return; }
    match e
    case AskFor(t, k, reused) => if d.makers != p.makers { FlightBegins(p, d, t, k); }
    case Connect(t, _) => SameKeys(p, d);
    case Append(t) => SameKeys(p, d);
    case LeaveSection(t) => if d.makers != p.makers { FlightEnds(p, d, t); }
    case _ => assert d.makers == p.makers && d.creating == p.creating;
  }

  lemma FlightBegins(p: State, d: State, t: Thread, k: Key)
    requires SingleFlight(p) && t !in p.makers && k !in p.creating
    requires d.makers == p.makers[t := Connecting(k)] && d.creating == p.creating + {k}
    ensures SingleFlight(d)
  {
    assert d.makers[t].key == k;
    forall k' | k' in p.creating ensures exists u :: u in d.makers && d.makers[u].key == k' {
      var u :| u in p.makers && p.makers[u].key == k';
      assert d.makers[u].key == k';
    }
  }

  lemma FlightEnds(p: State, d: State, t: Thread)
    requires SingleFlight(p) && t in p.makers
    requires d.makers == p.makers - {t} && d.creating == p.creating - {p.makers[t].key}
    ensures SingleFlight(d)
  {
    forall k | k in d.creating ensures exists u :: u in d.makers && d.makers[u].key == k {
      var u :| u in p.makers && p.makers[u].key == k;
      assert d.makers[u].key == k;
    }
  }

  lemma SameKeys(p: State, d: State)
    requires SingleFlight(p) && d.creating == p.creating && d.makers.Keys == p.makers.Keys
    requires forall t :: t in p.makers ==> d.makers[t].key == p.makers[t].key
    ensures SingleFlight(d)
  {
    forall k | k in d.creating ensures exists u :: u in d.makers && d.makers[u].key == k {
      var u :| u in p.makers && p.makers[u].key == k;
      assert d.makers[u].key == k;
    }
  }

  // ---- conservation ----

  datatype Home = Maker(t: Thread) | Listed(k: Key) | Draining | Taken

  predicate At(p: State, c: Conn, h: Home) {
    match h
    case Maker(t) => t in p.makers && p.makers[t].Made? && p.makers[t].conn == c
    case Listed(k) => c in Conns(p, k)
    case Draining => c in p.draining
    case Taken => c in p.taken
  }

  predicate NoDup(s: seq<Conn>) { forall i, j :: 0 <= i < j < |s| ==> s[i] != s[j] }

  ghost predicate Somewhere(p: State, c: Conn) { exists h :: At(p, c, h) }

  /** Every connection that exists is in exactly one place. */
  ghost predicate Homes(p: State) {
    && (forall c: Conn :: c < p.made ==> Somewhere(p, c))
    && (forall c: Conn, h :: At(p, c, h) ==> c < p.made)
    && (forall c: Conn, h, g :: At(p, c, h) && At(p, c, g) ==> h == g)
  }

  /** And once there. */
  predicate Distinct(p: State) {
    (forall k :: k in p.table ==> NoDup(p.table[k])) && NoDup(p.draining) && NoDup(p.taken)
  }

  ghost predicate Conserved(p: State) { Homes(p) && Distinct(p) }

  lemma {:induction false} AmongSplits(s: seq<Conn>, which: set<Conn>, inside: bool)
    ensures forall c :: c in Among(s, which, inside) <==> c in s && (c in which) == inside
    ensures NoDup(s) ==> NoDup(Among(s, which, inside))
  {
    if s != [] {
      var front, c := s[..|s| - 1], s[|s| - 1];
      assert s == front + [c];
      AmongSplits(front, which, inside);
    }
  }

  lemma NoDupAppend(a: seq<Conn>, b: seq<Conn>)
    requires NoDup(a) && NoDup(b) && forall c :: c in a ==> c !in b
    ensures NoDup(a + b)
  {
    var s := a + b;
    forall i, j | 0 <= i < j < |s| ensures s[i] != s[j] {
      if i < |a| <= j { assert a[i] in a && b[j - |a|] in b; }
    }
  }

  ghost predicate Only(d: State, c: Conn, to: Home) { At(d, c, to) && forall h :: At(d, c, h) ==> h == to }

  ghost predicate OnePlace(d: State, c: Conn) { exists to :: Only(d, c, to) }

  lemma HomesFromPlaces(d: State)
    requires forall c: Conn :: c < d.made ==> OnePlace(d, c)
    requires forall c: Conn, h :: At(d, c, h) ==> c < d.made
    ensures Homes(d)
  {
    forall c: Conn | c < d.made ensures Somewhere(d, c) {
      assert OnePlace(d, c);
      var to :| Only(d, c, to);
      assert At(d, c, to);
    }
    forall c: Conn, h, g | At(d, c, h) && At(d, c, g) ensures h == g {
      assert OnePlace(d, c);
    }
  }

  /** After a turn of `_get_conn` no closed connection is listed under the key: each that was is draining. */
  lemma AskEvicts(p: State, t: Thread, k: Key, reused: bool, c: Conn)
    ensures var d := Ask(p, t, k, reused);
      && (c in Conns(d, k) <==> c in Conns(p, k) && c !in p.closed)
      && (c in d.draining <==> c in p.draining || (c in Conns(p, k) && c in p.closed))
      && (forall other :: other != k ==> Conns(d, other) == Conns(p, other))
  {
    AmongSplits(Conns(p, k), p.closed, true);
    AmongSplits(Conns(p, k), p.closed, false);
  }

  lemma {:induction false} DeadAreClosed(es: seq<Event>)
    ensures Run(es).dead <= Run(es).closed
  {
    if es != [] { DeadAreClosed(es[..|es| - 1]); }
  }

  /** In every run no connection whose reader has gone is listed after a turn of `_get_conn`: none can be reused. */
  lemma DeadAreNotReused(es: seq<Event>, t: Thread, k: Key, reused: bool, c: Conn)
    requires c in Conns(Ask(Run(es), t, k, reused), k)
    ensures c !in Run(es).dead
  {
    DeadAreClosed(es);
    AskEvicts(Run(es), t, k, reused, c);
  }

  /**
   * A flight for a key nobody is connecting for: the asker becomes the maker and stays it until it leaves; then the
   * new connection is the last of the key's list, if there is one, and another thread may make the next.
   */
  lemma FlightCompletes(p: State, t: Thread, k: Key, h2: bool)
    requires t !in p.makers && k !in p.creating
    ensures var asked := Step(p, AskFor(t, k, false));
      var made := Step(asked, Connect(t, h2));
      var listed := Step(made, Append(t));
      var left := Step(listed, LeaveSection(t));
      && k in asked.creating && k in made.creating && k in listed.creating
      && left.creating == p.creating && left.makers == p.makers
      && Conns(left, k) == Among(Conns(p, k), p.closed, false) + (if h2 then [p.made] else [])
      && left.made == p.made + (if h2 then 1 else 0) && left.taken == p.taken
  {
    assert p.makers[t := Leaving(k)] - {t} == p.makers;
    assert p.creating + {k} - {k} == p.creating;
    var asked := Step(p, AskFor(t, k, false));
    var made := Step(asked, Connect(t, h2));
    var listed := Step(made, Append(t));
    assert listed.makers == p.makers[t := Leaving(k)];
  }

  /** Whoever reuses a connection, or finds its key being connected for, makes nothing. */
  lemma OthersMakeNothing(p: State, t: Thread, k: Key, reused: bool)
    requires Possible(p, AskFor(t, k, reused)) && (reused || k in p.creating)
    ensures var d := Step(p, AskFor(t, k, reused)); d.makers == p.makers && d.creating == p.creating && d.made == p.made
  {
  }

  /** `_existing_conn` takes exactly the dead of the draining ones, then evicts in the same way. */
  lemma SweepTakesDead(p: State, k: Key, c: Conn)
    ensures var d := Sweep(p, k);
      && (c in d.taken <==> c in p.taken || (c in p.draining && c in p.dead))
      && (c in Conns(d, k) <==> c in Conns(p, k) && c !in p.closed)
      && (c in d.draining <==> (c in p.draining && c !in p.dead) || (c in Conns(p, k) && c in p.closed))
  {
    AmongSplits(p.draining, p.dead, true);
    AmongSplits(p.draining, p.dead, false);
    AmongSplits(Conns(p, k), p.closed, true);
    AmongSplits(Conns(p, k), p.closed, false);
  }

  /** Reaping empties the draining list into those to close, and a closed session lists nothing. */
  lemma NothingIsLeft(p: State, keys: seq<Key>, c: Conn)
    requires Conserved(p) && Lists(keys, p.table)
    ensures Reap(p).draining == [] && (c in Reap(p).taken <==> c in p.taken || c in p.draining)
    ensures Clear(p, keys).table == map[]
    ensures c in Clear(p, keys).taken <==> c in p.taken || exists k :: k in p.table && c in p.table[k]
  {
    GatherHolds(p, keys);
    if k :| k in p.table && c in p.table[k] {
      var i :| 0 <= i < |keys| && keys[i] == k;
      assert c in p.table[keys[i]];
    }
  }

  lemma EvictHomes(p: State, k: Key)
    requires Homes(p)
    ensures Homes(Evict(p, k))
  {
    var d, s := Evict(p, k), Conns(p, k);
    AmongSplits(s, p.closed, true);
    AmongSplits(s, p.closed, false);
    forall c: Conn | c < p.made ensures OnePlace(d, c) {
      assert Somewhere(p, c);
      var h :| At(p, c, h);
      var to := if h == Listed(k) && c in p.closed then Draining else h;
      forall g | At(d, c, g) ensures g == to {
        assert At(p, c, g) || (g == Draining && At(p, c, Listed(k)) && c in p.closed);
      }
      assert Only(d, c, to);
    }
    forall c: Conn, h | At(d, c, h) ensures c < d.made {
      assert At(p, c, h) || (h == Draining && At(p, c, Listed(k)) && c in p.closed);
    }
    HomesFromPlaces(d);
  }

  lemma EvictConserves(p: State, k: Key)
    requires Conserved(p)
    ensures Conserved(Evict(p, k))
  {
    var s := Conns(p, k);
    AmongSplits(s, p.closed, true);
    AmongSplits(s, p.closed, false);
    EvictHomes(p, k);
    forall c: Conn | c in p.draining ensures c !in s {
      assert At(p, c, Draining) && (c in s ==> At(p, c, Listed(k)));
    }
    NoDupAppend(p.draining, Among(s, p.closed, true));
  }

  lemma ReapConserves(p: State, which: set<Conn>)
    requires Conserved(p)
    ensures Conserved(Collect(p, which))
  {
    var d := Collect(p, which);
    AmongSplits(p.draining, which, true);
    AmongSplits(p.draining, which, false);
    forall c: Conn | c < p.made ensures OnePlace(d, c) {
      assert Somewhere(p, c);
      var h :| At(p, c, h);
      var to := if h == Draining && c in which then Taken else h;
      forall g | At(d, c, g) ensures g == to {
        assert At(p, c, g) || (g == Taken && At(p, c, Draining) && c in which);
      }
      assert Only(d, c, to);
    }
    forall c: Conn, h | At(d, c, h) ensures c < d.made {
      assert At(p, c, h) || (h == Taken && At(p, c, Draining) && c in which);
    }
    HomesFromPlaces(d);
    forall c: Conn | c in p.taken ensures c !in p.draining {
      assert At(p, c, Taken) && (c in p.draining ==> At(p, c, Draining));
    }
    NoDupAppend(p.taken, Among(p.draining, which, true));
  }

  lemma {:induction false} AmongAll(s: seq<Conn>, which: set<Conn>)
    requires forall c :: c in s ==> c in which
    ensures Among(s, which, true) == s && Among(s, which, false) == []
  {
    if s != [] { AmongAll(s[..|s| - 1], which); }
  }

  lemma MakeConserves(p: State, t: Thread, h2: bool)
    requires Conserved(p)
    ensures Conserved(Connected(p, t, h2))
  {
    var d := Connected(p, t, h2);
    if d != p {
      forall c: Conn | c < d.made ensures Somewhere(d, c) {
        if c == p.made {
          assert At(d, c, Maker(t));
        } else {
          assert Somewhere(p, c);
          var h :| At(p, c, h);
          assert At(d, c, h);
        }
      }
      forall c: Conn, h | At(d, c, h) ensures At(p, c, h) || (h2 && c == p.made && h == Maker(t)) {
      }
    }
  }

  lemma PublishConserves(p: State, t: Thread)
    requires Conserved(p)
    ensures Conserved(Publish(p, t))
  {
    var d := Publish(p, t);
    if d != p {
      var Made(k, n) := p.makers[t];
      assert At(p, n, Maker(t));
      forall c: Conn | c < p.made ensures OnePlace(d, c) {
        assert Somewhere(p, c);
        var h :| At(p, c, h);
        var to := if c == n then Listed(k) else h;
        forall g | At(d, c, g) ensures g == to {
          assert At(p, c, g) || (g == Listed(k) && c == n);
        }
        assert Only(d, c, to);
      }
      forall c: Conn, h | At(d, c, h) ensures c < d.made {
        assert At(p, c, h) || c == n;
      }
      HomesFromPlaces(d);
      assert n in Conns(p, k) ==> At(p, n, Listed(k));
      NoDupAppend(Conns(p, k), [n]);
    }
  }

  lemma {:induction false} GatherHolds(p: State, keys: seq<Key>)
    requires Conserved(p) && forall i :: 0 <= i < |keys| ==> keys[i] in p.table
    requires forall i, j :: 0 <= i < j < |keys| ==> keys[i] != keys[j]
    ensures forall c :: c in Gather(p.table, keys) <==> exists i :: 0 <= i < |keys| && c in p.table[keys[i]]
    ensures NoDup(Gather(p.table, keys))
  {
    if keys != [] {
      var front, k := keys[..|keys| - 1], keys[|keys| - 1];
      GatherHolds(p, front);
      assert keys == front + [k];
      forall c: Conn | c in Gather(p.table, front) ensures c !in p.table[k] {
        var i :| 0 <= i < |front| && c in p.table[front[i]];
        assert At(p, c, Listed(front[i])) && (c in p.table[k] ==> At(p, c, Listed(k)));
      }
      NoDupAppend(Gather(p.table, front), p.table[k]);
      forall c ensures c in Gather(p.table, keys) <==> exists i :: 0 <= i < |keys| && c in p.table[keys[i]] {
        if c in p.table[k] { assert c in p.table[keys[|keys| - 1]]; }
        if i :| 0 <= i < |front| && c in p.table[front[i]] { assert c in p.table[keys[i]]; }
      }
    }
  }

  lemma ClearConserves(p: State, keys: seq<Key>)
    requires Conserved(p) && Lists(keys, p.table)
    ensures Conserved(Clear(p, keys))
  {
    var d, all := Clear(p, keys), Gather(p.table, keys);
    GatherHolds(p, keys);
    forall c: Conn, k | c in Conns(p, k) ensures c in all {
      var i :| 0 <= i < |keys| && keys[i] == k;
      assert c in p.table[keys[i]];
    }
    forall c: Conn | c in all ensures exists k :: At(p, c, Listed(k)) {
      var i :| 0 <= i < |keys| && c in p.table[keys[i]];
      assert At(p, c, Listed(keys[i]));
    }
    forall c: Conn | c < p.made ensures OnePlace(d, c) {
      assert Somewhere(p, c);
      var h :| At(p, c, h);
      var to := if h.Listed? then Taken else h;
      forall g | At(d, c, g) ensures g == to {
        assert At(p, c, g) || (g == Taken && c in all);
      }
      assert Only(d, c, to);
    }
    forall c: Conn, h | At(d, c, h) ensures c < d.made {
      assert At(p, c, h) || c in all;
    }
    HomesFromPlaces(d);
    forall c: Conn | c in p.taken ensures c !in all {
      assert At(p, c, Taken);
    }
    NoDupAppend(p.taken, all);
  }

  lemma SamePlaces(p: State, d: State)
    requires Conserved(p) && d.table == p.table && d.draining == p.draining && d.taken == p.taken && d.made == p.made
    requires forall c: Conn, t :: At(d, c, Maker(t)) <==> At(p, c, Maker(t))
    ensures Conserved(d)
  {
    forall c: Conn, h ensures At(d, c, h) <==> At(p, c, h) {
      if h.Maker? { assert At(d, c, Maker(h.t)) <==> At(p, c, Maker(h.t)); }
    }
    forall c: Conn | c < d.made ensures Somewhere(d, c) {
      assert Somewhere(p, c);
      var h :| At(p, c, h);
      assert At(d, c, h);
    }
  }

  lemma StepConserves(p: State, e: Event)
    requires Conserved(p)
    ensures Conserved(Step(p, e))
  {
    if !Possible(p, e) { return; }
    var d := Step(p, e);
    match e
    case AskFor(t, k, _) =>
      EvictConserves(p, k);
      SamePlaces(Evict(p, k), d);
    case Connect(t, h2) => MakeConserves(p, t, h2);
    case Append(t) => PublishConserves(p, t);
    case LeaveSection(t) => SamePlaces(p, d);
    case ReapAll =>
      var all := set c | c in p.draining;
      AmongAll(p.draining, all);
      ReapConserves(p, all);
    case Look(k) =>
      ReapConserves(p, p.dead);
      EvictConserves(Collect(p, p.dead), k);
    case CloseAll(keys) => ClearConserves(p, keys);
    case _ => SamePlaces(p, d);
  }

  /** Only closed connections are drained. */
  predicate DrainsClosed(p: State) { forall c :: c in p.draining ==> c in p.closed }

  lemma StepDrainsClosed(p: State, e: Event)
    requires DrainsClosed(p)
    ensures DrainsClosed(Step(p, e))
  {
    AmongSplits(p.draining, p.dead, false);
    if e.AskFor? || e.Look? { AmongSplits(Conns(p, e.key), p.closed, true); }
  }

  /**
   * In every reachable state a key is being created iff exactly one thread connects for it, no connection is lost or
   * doubled, and only closed ones drain.
   */
  lemma {:induction false} PoolIsSound(es: seq<Event>)
    ensures SingleFlight(Run(es)) && Conserved(Run(es)) && DrainsClosed(Run(es))
  {
    if es != [] {
      var front, e := es[..|es| - 1], es[|es| - 1];
      PoolIsSound(front);
      SingleFlightStep(Run(front), e);
      StepConserves(Run(front), e);
      StepDrainsClosed(Run(front), e);
    }
  }
}
