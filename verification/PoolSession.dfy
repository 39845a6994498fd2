/** The pool's methods on the session's own fields, each proved to take the machine's step. */
module PoolSession {
  import opened Prelude
  import opened Pool

  /** What one turn of the loop in `_get_conn` comes to. */
  datatype Turn = Reuse(conn: Conn) | Wait | Create

  function LoadOf(load: map<Conn, nat>, c: Conn): nat { if c in load then load[c] else 0 }

  /** Insertion after every element that is not heavier: a stable sort by load. */
  function Insert(s: seq<Conn>, c: Conn, load: map<Conn, nat>): seq<Conn> {
    if s == [] || LoadOf(load, s[|s| - 1]) <= LoadOf(load, c) then s + [c]
    else Insert(s[..|s| - 1], c, load) + [s[|s| - 1]]
  }

  function ByLoad(s: seq<Conn>, load: map<Conn, nat>): seq<Conn> {
    if s == [] then [] else Insert(ByLoad(s[..|s| - 1], load), s[|s| - 1], load)
  }

  predicate Ordered(s: seq<Conn>, load: map<Conn, nat>) {
    forall i, j :: 0 <= i < j < |s| ==> LoadOf(load, s[i]) <= LoadOf(load, s[j])
  }

  lemma HeaviestLast(s: seq<Conn>, c: Conn, load: map<Conn, nat>)
    requires Ordered(s, load) && forall x :: x in s ==> LoadOf(load, x) <= LoadOf(load, c)
    ensures Ordered(s + [c], load)
  {
    forall i, j | 0 <= i < j < |s + [c]| ensures LoadOf(load, (s + [c])[i]) <= LoadOf(load, (s + [c])[j]) {
      if j == |s| { assert s[i] in s; }
    }
  }

  lemma LastIsHeaviest(s: seq<Conn>, x: Conn, load: map<Conn, nat>)
    requires Ordered(s, load) && x in s
    ensures LoadOf(load, x) <= LoadOf(load, s[|s| - 1])
  {
    var i :| 0 <= i < |s| && s[i] == x;
  }

  lemma {:induction false} InsertOrders(s: seq<Conn>, c: Conn, load: map<Conn, nat>)
    requires Ordered(s, load)
    ensures Ordered(Insert(s, c, load), load) && forall x :: x in Insert(s, c, load) <==> x in s || x == c
  {
    forall x | x in s ensures LoadOf(load, x) <= LoadOf(load, s[|s| - 1]) { LastIsHeaviest(s, x, load); }
    if s == [] || LoadOf(load, s[|s| - 1]) <= LoadOf(load, c) {
      HeaviestLast(s, c, load);
    } else {
      var front, last := s[..|s| - 1], s[|s| - 1];
      assert s == front + [last];
      InsertOrders(front, c, load);
      HeaviestLast(Insert(front, c, load), last, load);
    }
  }

  lemma {:induction false} ByLoadSorts(s: seq<Conn>, load: map<Conn, nat>)
    ensures Ordered(ByLoad(s, load), load) && forall x :: x in ByLoad(s, load) <==> x in s
  {
    if s != [] {
      assert s == s[..|s| - 1] + [s[|s| - 1]];
      ByLoadSorts(s[..|s| - 1], load);
      InsertOrders(ByLoad(s[..|s| - 1], load), s[|s| - 1], load);
    }
  }

  /** One of the usable connections, with the least load among them. */
  predicate Lightest(c: Conn, conns: seq<Conn>, load: map<Conn, nat>, usable: set<Conn>) {
    c in conns && c in usable && forall d :: d in conns && d in usable ==> LoadOf(load, c) <= LoadOf(load, d)
  }

  /** Least-loaded first: the connection acquired is a lightest of those that can be, and one is whenever one can. */
  method Pick(conns: seq<Conn>, load: map<Conn, nat>, usable: set<Conn>) returns (r: Option<Conn>)
    ensures r.None? <==> forall c :: c in conns ==> c !in usable
    ensures r.Some? ==> Lightest(r.value, conns, load, usable)
  {
    var s := ByLoad(conns, load);
    ByLoadSorts(conns, load);
    var i := 0;
    while i < |s|
      invariant 0 <= i <= |s| && forall j :: 0 <= j < i ==> s[j] !in usable
    {
      if s[i] in usable { return Some(s[i]); }
      i := i + 1;
    }
    return None;
  }

  class Session {
    var table: map<Key, seq<Conn>>
    var draining: seq<Conn>
    var creating: set<Key>

    predicate Is(p: State)
      reads this
    {
      table == p.table && draining == p.draining && creating == p.creating
    }

    constructor ()
      ensures Is(Init())
    {
      table, draining, creating := map[], [], {};
    }

    /** `closed` holds the connections whose flag reads true. */
    method EvictClosed(k: Key, closed: set<Conn>, ghost p: State)
      requires Is(p) && p.closed == closed
      modifies this`table, this`draining
      ensures Is(Evict(p, k))
    {
      var conns := if k in table then table[k] else [];
      var keep, i := [], 0;
      while i < |conns|
        invariant 0 <= i <= |conns| && table == p.table && keep == Among(conns[..i], closed, false)
        invariant draining == p.draining + Among(conns[..i], closed, true)
      {
        var c := conns[i];
        assert conns[..i + 1][..i] == conns[..i];
        if c in closed { draining := draining + [c]; } else { keep := keep + [c]; }
        i := i + 1;
      }
      assert conns[..i] == conns;
      table := table[k := keep];
    }

    method TakeDraining(ghost p: State) returns (d: seq<Conn>)
      requires Is(p)
      modifies this`draining
      ensures Is(Reap(p)) && p.taken + d == Reap(p).taken
    {
      d := draining;
      draining := [];
    }

    method Existing(k: Key, closed: set<Conn>, dead: set<Conn>, load: map<Conn, nat>, usable: set<Conn>, ghost p: State)
      returns (gone: seq<Conn>, r: Option<Conn>)
      requires Is(p) && p.closed == closed && p.dead == dead
      modifies this`table, this`draining
      ensures Is(Sweep(p, k)) && p.taken + gone == Sweep(p, k).taken
      ensures r.None? <==> forall c :: c in Conns(Sweep(p, k), k) ==> c !in usable
      ensures r.Some? ==> Lightest(r.value, Conns(Sweep(p, k), k), load, usable)
    {
      var live, i := [], 0;
      gone := [];
      while i < |draining|
        invariant 0 <= i <= |draining|
        invariant live == Among(draining[..i], dead, false) && gone == Among(draining[..i], dead, true)
      {
        var c := draining[i];
        assert draining[..i + 1][..i] == draining[..i];
        if c in dead { gone := gone + [c]; } else { live := live + [c]; }
        i := i + 1;
      }
      assert draining[..i] == draining;
      draining := live;
      ghost var q := Collect(p, dead);
      if k in table && table[k] != [] {
        EvictClosed(k, closed, q);
        r := Pick(table[k], load, usable);
      } else {
        r := None;
      }
    }

    method GetTurn(t: Thread, k: Key, closed: set<Conn>, load: map<Conn, nat>, usable: set<Conn>, ghost p: State)
      returns (r: Turn)
      requires Is(p) && p.closed == closed
      modifies this
      ensures Is(Ask(p, t, k, r.Reuse?))
      ensures r.Reuse? ==> Lightest(r.conn, Conns(Evict(p, k), k), load, usable)
      ensures r.Create? <==> (k !in p.creating && forall c :: c in Conns(Evict(p, k), k) ==> c !in usable)
    {
      EvictClosed(k, closed, p);
      var c := Pick(table[k], load, usable);
      if c.Some? { return Reuse(c.value); }
      if k in creating { return Wait; }
      creating := creating + {k};
      return Create;
    }

    method Add(k: Key, c: Conn, ghost p: State, ghost t: Thread)
      requires Is(p) && t in p.makers && p.makers[t] == Made(k, c)
      modifies this`table
      ensures Is(Publish(p, t))
    {
      table := table[k := (if k in table then table[k] else []) + [c]];
    }

    method Done(k: Key, ghost p: State, ghost t: Thread)
      requires Is(p) && t in p.makers && p.makers[t] == Leaving(k)
      modifies this`creating
      ensures Is(Discard(p, t))
    {
      creating := creating - {k};
    }
  }
}
