/** Per-host pacing: reservations one interval apart, releases jittered around them. */
module RateLimit {

  type Host = nat

  /** One call of `delay`: the clock under the lock, and the jitter drawn after it. */
  datatype Call = Call(host: Host, now: real, jitter: real)

  predicate Drawn(c: Call) { c.now >= 0.0 && -0.15 <= c.jitter <= 0.15 }

  function Later(a: real, b: real): (r: real)
    ensures r >= a && r >= b && (r == a || r == b)
  {
    if a >= b then a else b
  }

  function Reserved(next: map<Host, real>, c: Call): real {
    Later(c.now, if c.host in next then next[c.host] else 0.0)
  }

  function Wait(interval: real, start: real, c: Call): real { Later(0.0, start - c.now + interval * c.jitter) }

  // ---- sequences of calls ----

  function Next(interval: real, calls: seq<Call>): map<Host, real> {
    if calls == [] then map[]
    else
      var before, c := Next(interval, calls[..|calls| - 1]), calls[|calls| - 1];
      before[c.host := Reserved(before, c) + interval]
  }

  /** The slot call k reserves, and when the caller goes on if it sleeps exactly as long as it is told. */
  function Start(interval: real, calls: seq<Call>, k: nat): real
    requires k < |calls|
  {
    Reserved(Next(interval, calls[..k]), calls[k])
  }

  function Release(interval: real, calls: seq<Call>, k: nat): real
    requires k < |calls|
  {
    calls[k].now + Wait(interval, Start(interval, calls, k), calls[k])
  }

  // ---- the limiter ----

  class RateLimiter {
    var interval: real
    var next: map<Host, real>
    ghost var calls: seq<Call>     // every call that reserved a slot

    ghost predicate Valid()
      reads this
    {
      next == Next(interval, calls)
    }

    constructor (rate: real)
      ensures Valid() && calls == []
      ensures rate > 0.0 ==> interval > 0.0 && interval * rate == 1.0
      ensures rate <= 0.0 ==> interval == 0.0
    {
      interval := if rate > 0.0 then 1.0 / rate else 0.0;
      next, calls := map[], [];
    }

    /** Unlimited, or the caller goes on at the release time of this call after all calls before it. */
    method Delay(c: Call) returns (wait: real)
      requires Valid()
      modifies this`next, this`calls
      ensures Valid()
      ensures interval == 0.0 ==> wait == 0.0 && next == old(next) && calls == old(calls)
      ensures interval != 0.0 ==> calls == old(calls) + [c] && c.now + wait == Release(interval, calls, |calls| - 1)
    {
      if interval == 0.0 { return 0.0; }
      var start := Later(c.now, if c.host in next then next[c.host] else 0.0);
      next := next[c.host := start + interval];
      wait := Later(0.0, start - c.now + interval * c.jitter);
      ghost var before := calls;
      calls := calls + [c];
      assert calls[..|calls| - 1] == before;
    }
  }

  // ---- spacing ----

  /** How many of the calls after i, up to j, are for the host. */
  function Since(calls: seq<Call>, host: Host, i: nat, j: nat): nat
    requires i <= j < |calls|
    decreases j
  {
    if i == j then 0 else Since(calls, host, i, j - 1) + if calls[j].host == host then 1 else 0
  }

  lemma NextAt(interval: real, calls: seq<Call>, k: nat)
    requires k < |calls|
    ensures Next(interval, calls[..k + 1])
      == Next(interval, calls[..k])[calls[k].host := Start(interval, calls, k) + interval]
  {
    assert calls[..k + 1][..k] == calls[..k];
  }

  function Times(n: nat, x: real): real { if n == 0 then 0.0 else Times(n - 1, x) + x }

  lemma {:induction false} TimesIsProduct(n: nat, x: real)
    ensures Times(n, x) == n as real * x
  {
    if n > 0 {
      TimesIsProduct(n - 1, x);
      Distribute((n - 1) as real, 1.0, x);
    }
  }

  lemma Distribute(a: real, b: real, x: real)
    ensures (a + b) * x == a * x + b * x
  {
  }

  lemma MulMonotone(x: real, a: real, b: real)
    requires a <= b && x > 0.0
    ensures x * a <= x * b
  {
  }

  /** After call j the host's next slot is an interval after the last, for each of its calls since i. */
  lemma {:induction false} SlotsAdvance(interval: real, calls: seq<Call>, i: nat, j: nat)
    requires i <= j < |calls| && interval > 0.0
    ensures var host, next := calls[i].host, Next(interval, calls[..j + 1]);
      && host in next
      && next[host] >= Start(interval, calls, i) + Times(Since(calls, host, i, j) + 1, interval)
    decreases j
  {
    NextAt(interval, calls, j);
    if i < j { SlotsAdvance(interval, calls, i, j - 1); }
  }

  lemma StartsAreSpaced(interval: real, calls: seq<Call>, i: nat, j: nat)
    requires i <= j < |calls| && calls[i].host == calls[j].host && interval > 0.0
    ensures Start(interval, calls, j) >= Start(interval, calls, i) + Times(Since(calls, calls[i].host, i, j), interval)
  {
    if i < j { SlotsAdvance(interval, calls, i, j - 1); }
  }

  function Slack(interval: real): real { interval * 0.15 }

  lemma WaitNearStart(now: real, start: real, shift: real, slack: real)
    requires start >= now && -slack <= shift <= slack
    ensures start - slack <= now + Later(0.0, start - now + shift) <= start + slack
  {
  }

  /** The jitter moves a release by at most 15% of an interval, and never before the call. */
  lemma ReleaseNearStart(interval: real, calls: seq<Call>, k: nat)
    requires k < |calls| && Drawn(calls[k]) && interval > 0.0
    ensures var s, r := Start(interval, calls, k), Release(interval, calls, k);
      s - Slack(interval) <= r <= s + Slack(interval) && r >= calls[k].now
  {
    var c := calls[k];
    ShiftIsSmall(interval, c.jitter);
    WaitNearStart(c.now, Start(interval, calls, k), interval * c.jitter, Slack(interval));
  }

  /** A release is its slot moved by the jitter, unless that would be before the call. */
  lemma ReleaseIsJittered(interval: real, calls: seq<Call>, k: nat)
    requires k < |calls|
    ensures var moved := Start(interval, calls, k) + interval * calls[k].jitter;
      Release(interval, calls, k) == if moved >= calls[k].now then moved else calls[k].now
  {
  }

  lemma ShiftIsSmall(interval: real, jitter: real)
    requires interval > 0.0 && -0.15 <= jitter <= 0.15
    ensures -Slack(interval) <= interval * jitter <= Slack(interval)
  {
    MulMonotone(interval, jitter, 0.15);
    assert interval * jitter <= interval * 0.15;
    assert Slack(interval) == interval * 0.15;
    MulMonotone(interval, -0.15, jitter);
  }

  /**
   * Jitter never accumulates: whatever other hosts do, n consecutive releases of a host span at least n − 1.3
   * intervals, whichever calls i and j the span begins and ends with.
   */
  lemma ReleasesAreSpaced(interval: real, calls: seq<Call>, i: nat, j: nat)
    requires i < j < |calls| && calls[i].host == calls[j].host && interval > 0.0
    requires Drawn(calls[i]) && Drawn(calls[j])
    ensures var n := Since(calls, calls[i].host, i, j) + 1;
      Release(interval, calls, j) - Release(interval, calls, i) >= (n as real - 1.3) * interval
  {
    var m := Since(calls, calls[i].host, i, j);
    ReleasesApart(interval, calls, i, j);
    SpanIs(m, interval);
  }

  lemma ReleasesApart(interval: real, calls: seq<Call>, i: nat, j: nat)
    requires i < j < |calls| && calls[i].host == calls[j].host && interval > 0.0
    requires Drawn(calls[i]) && Drawn(calls[j])
    ensures Release(interval, calls, j) - Release(interval, calls, i) >=
      Times(Since(calls, calls[i].host, i, j), interval) - Slack(interval) - Slack(interval)
  {
    StartsAreSpaced(interval, calls, i, j);
    ReleaseNearStart(interval, calls, i);
    ReleaseNearStart(interval, calls, j);
  }

  lemma SpanIs(m: nat, x: real)
    ensures Times(m, x) - Slack(x) - Slack(x) == ((m + 1) as real - 1.3) * x
  {
    TimesIsProduct(m, x);
    Distribute(m as real, -0.3, x);
    assert (m + 1) as real - 1.3 == m as real + -0.3;
  }

  /** Nor does pacing drift: a slot is exactly as late as a backlog that began with some earlier call makes it. */
  lemma {:induction false} StartIsEarliest(interval: real, calls: seq<Call>, j: nat) returns (i: nat)
    requires j < |calls| && interval > 0.0 && forall k :: 0 <= k < |calls| ==> Drawn(calls[k])
    ensures i <= j && calls[i].host == calls[j].host
    ensures Start(interval, calls, j) == calls[i].now + Times(Since(calls, calls[i].host, i, j), interval)
    decreases j
  {
    var host, next := calls[j].host, Next(interval, calls[..j]);
    if host !in next || next[host] <= calls[j].now {
      i := j;
    } else {
      var k := LastCall(interval, calls, host, j);
      i := StartIsEarliest(interval, calls, k);
      SinceSplits(calls, host, i, k, j);
    }
  }

  /** The call that set a host's next slot. */
  lemma {:induction false} LastCall(interval: real, calls: seq<Call>, host: Host, j: nat) returns (k: nat)
    requires j <= |calls| && host in Next(interval, calls[..j])
    ensures k < j && calls[k].host == host && Next(interval, calls[..j])[host] == Start(interval, calls, k) + interval
    ensures forall m :: k < m < j ==> calls[m].host != host
  {
    assert j > 0;
    NextAt(interval, calls, j - 1);
    if calls[j - 1].host == host { k := j - 1; } else { k := LastCall(interval, calls, host, j - 1); }
  }

  lemma {:induction false} SinceSplits(calls: seq<Call>, host: Host, i: nat, k: nat, j: nat)
    requires i <= k < j < |calls| && calls[j].host == host && forall m :: k < m < j ==> calls[m].host != host
    ensures Since(calls, host, i, j) == Since(calls, host, i, k) + 1
  {
    NoneBetween(calls, host, i, k, j - 1);
  }

  lemma {:induction false} NoneBetween(calls: seq<Call>, host: Host, i: nat, k: nat, j: nat)
    requires i <= k <= j < |calls| && forall m :: k < m <= j ==> calls[m].host != host
    ensures Since(calls, host, i, j) == Since(calls, host, i, k)
  {
    if k < j { NoneBetween(calls, host, i, k, j - 1); }
  }
}
