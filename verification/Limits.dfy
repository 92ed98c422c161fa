/** How fast and how many: the limiter every outbound request of a scan goes through. Times are seconds. */
module Limits {
  import opened Options

  type Host(==, !new)

  const BACKOFF_SECONDS: real := 2.0
  const MAX_BACKOFF_SECONDS: real := 60.0

  datatype Caps = Caps(rateLimit: Option<real>, maxRequests: Option<int>, maxDuration: Option<real>)
  {
    predicate Valid() {
      && (rateLimit.Some? ==> rateLimit.value > 0.0)
      && (maxRequests.Some? ==> maxRequests.value > 0)
      && (maxDuration.Some? ==> maxDuration.value > 0.0)
    }

    function Interval(): (seconds: real)
      requires Valid()
      ensures seconds >= 0.0
    {
      if rateLimit.Some? then 1.0 / rateLimit.value else 0.0
    }
  }

  datatype Cap = MaxRequests | MaxDuration
  datatype Grant = Slot(start: real) | Refused(cap: Cap)

  datatype State = State(requests: nat, slowdowns: nat, stoppedBy: Option<Cap>, nextGlobal: real,
                         nextByHost: map<Host, real>)

  function Initial(): State { State(0, 0, None, 0.0, map[]) }

  function Later(a: real, b: real): real { if a >= b then a else b }
  function Sooner(a: real, b: real): real { if a <= b then a else b }

  function HostSlot(st: State, host: Host): real {
    if host in st.nextByHost then st.nextByHost[host] else 0.0
  }

  function Start(st: State, host: Host, now: real): real {
    Later(Later(now, st.nextGlobal), HostSlot(st, host))
  }

  function Taken(st: State, host: Host, start: real, interval: real): State {
    var counted := st.(requests := st.requests + 1);
    if interval == 0.0 then counted
    else counted.(nextGlobal := start + interval, nextByHost := st.nextByHost[host := start + interval])
  }

  /** One request asked for at time `now`. */
  function Acquired(caps: Caps, deadline: Option<real>, st: State, host: Host, now: real): (State, Grant)
    requires caps.Valid()
  {
    if caps.maxRequests.Some? && st.requests >= caps.maxRequests.value then
      (st.(stoppedBy := Some(MaxRequests)), Refused(MaxRequests))
    else if deadline.Some? && (now >= deadline.value || Start(st, host, now) >= deadline.value) then
      (st.(stoppedBy := Some(MaxDuration)), Refused(MaxDuration))
    else
      (Taken(st, host, Start(st, host, now), caps.Interval()), Slot(Start(st, host, now)))
  }

  function Power(n: nat): real { if n == 0 then 1.0 else 2.0 * Power(n - 1) }

  /** A Retry-After header that is a plain positive number, at most a minute. */
  function ParsedRetryAfter(seconds: Option<real>): Option<real> {
    if seconds.Some? && seconds.value > 0.0 then Some(Sooner(seconds.value, MAX_BACKOFF_SECONDS)) else None
  }

  /** How long the `slowdowns`-th push-back holds requests back. */
  function Penalty(slowdowns: nat, retryAfter: Option<real>): real
    requires slowdowns > 0
  {
    match ParsedRetryAfter(retryAfter)
    case Some(seconds) => seconds
    case None => Sooner(BACKOFF_SECONDS * Power(slowdowns - 1), MAX_BACKOFF_SECONDS)
  }

  predicate SlowsDown(status: int) { status == 429 || status == 503 }

  function Noted(st: State, host: Host, status: int, retryAfter: Option<real>, now: real): State {
    if !SlowsDown(status) then st
    else
      var resume := now + Penalty(st.slowdowns + 1, retryAfter);
      st.(slowdowns := st.slowdowns + 1, nextGlobal := Later(st.nextGlobal, resume),
          nextByHost := st.nextByHost[host := Later(HostSlot(st, host), resume)])
  }

  /** The limiter as an object; each call holds its lock, so each call is one step. */
  class ScanLimiter {
    const caps: Caps
    const deadline: Option<real>
    var requests: nat
    var slowdowns: nat
    var stoppedBy: Option<Cap>
    var nextGlobal: real
    var nextByHost: map<Host, real>

    ghost function Now(): State
      reads this
    {
      State(requests, slowdowns, stoppedBy, nextGlobal, nextByHost)
    }

    constructor (caps: Caps, clock: real)
      requires caps.Valid()
      ensures this.caps == caps && Now() == Initial()
      ensures deadline == if caps.maxDuration.Some? then Some(clock + caps.maxDuration.value) else None
    {
      this.caps := caps;
      deadline := if caps.maxDuration.Some? then Some(clock + caps.maxDuration.value) else None;
      requests, slowdowns, stoppedBy, nextGlobal, nextByHost := 0, 0, None, 0.0, map[];
    }

    method Stop(reason: Cap) returns (grant: Grant)
      modifies this`stoppedBy
      ensures stoppedBy == Some(reason) && grant == Refused(reason)
    {
      stoppedBy := Some(reason);
      grant := Refused(reason);
    }

    /** Count one outbound request; its slot, or the cap that ends the scan. */
    method Acquire(host: Host, now: real) returns (grant: Grant)
      requires caps.Valid()
      modifies this
      ensures (Now(), grant) == Acquired(caps, deadline, old(Now()), host, now)
    {
      if caps.maxRequests.Some? && requests >= caps.maxRequests.value {
        grant := Stop(MaxRequests);
        return;
      }
      if deadline.Some? && now >= deadline.value {
        grant := Stop(MaxDuration);
        return;
      }
      var start := now;
      if nextGlobal > start {
        start := nextGlobal;
      }
      var hostSlot := if host in nextByHost then nextByHost[host] else 0.0;
      if hostSlot > start {
        start := hostSlot;
      }
      if deadline.Some? && start >= deadline.value {
        grant := Stop(MaxDuration);
        return;
      }
      var interval := caps.Interval();
      if interval != 0.0 {
        nextGlobal := start + interval;
        nextByHost := nextByHost[host := start + interval];
      }
      requests := requests + 1;
      grant := Slot(start);
    }

    /** Hold back when the target says it is overloaded. */
    method NoteResponse(host: Host, status: int, retryAfter: Option<real>, now: real)
      modifies this
      ensures Now() == Noted(old(Now()), host, status, retryAfter, now)
    {
      if status != 429 && status != 503 {
        return;
      }
      slowdowns := slowdowns + 1;
      var penalty := ParsedRetryAfter(retryAfter);
      if penalty.None? {
        penalty := Some(Sooner(BACKOFF_SECONDS * Power(slowdowns - 1), MAX_BACKOFF_SECONDS));
      }
      var resume := now + penalty.value;
      nextGlobal := Later(nextGlobal, resume);
      nextByHost := nextByHost[host := Later(if host in nextByHost then nextByHost[host] else 0.0, resume)];
    }
  }
}

/** What the limiter guarantees over a whole scan, for any sequence of calls on a clock that does not go back. */
module LimiterRuns {
  import opened Options
  import opened Limits

  datatype Call = Acquire(host: Host, now: real) | Note(host: Host, now: real, status: int, retryAfter: Option<real>)

  datatype Setup = Setup(caps: Caps, started: real)
  {
    predicate Valid() { caps.Valid() }

    function Deadline(): Option<real> {
      if caps.maxDuration.Some? then Some(started + caps.maxDuration.value) else None
    }
  }

  ghost predicate Monotone(setup: Setup, calls: seq<Call>) {
    && (forall k :: 0 <= k < |calls| ==> calls[k].now >= setup.started)
    && forall i, j :: 0 <= i < j < |calls| ==> calls[i].now <= calls[j].now
  }

  function Last(calls: seq<Call>): Call
    requires calls != []
  {
    calls[|calls| - 1]
  }

  function Front(calls: seq<Call>): seq<Call>
    requires calls != []
  {
    calls[..|calls| - 1]
  }

  /** The limiter after these calls. */
  function After(setup: Setup, calls: seq<Call>): State
    requires setup.Valid()
  {
    if calls == [] then Initial()
    else
      var st := After(setup, Front(calls));
      match Last(calls)
      case Acquire(host, now) => Acquired(setup.caps, setup.Deadline(), st, host, now).0
      case Note(host, now, status, retryAfter) => Noted(st, host, status, retryAfter, now)
  }

  /** What call `k` was granted. */
  function GrantOf(setup: Setup, calls: seq<Call>, k: nat): Grant
    requires setup.Valid() && k < |calls| && calls[k].Acquire?
  {
    Acquired(setup.caps, setup.Deadline(), After(setup, calls[..k]), calls[k].host, calls[k].now).1
  }

  predicate Granted(setup: Setup, calls: seq<Call>, k: nat)
    requires setup.Valid() && k < |calls|
  {
    calls[k].Acquire? && GrantOf(setup, calls, k).Slot?
  }

  function SlotOf(setup: Setup, calls: seq<Call>, k: nat): real
    requires setup.Valid() && k < |calls| && Granted(setup, calls, k)
  {
    GrantOf(setup, calls, k).start
  }

  /** How many requests were granted among the calls before `k`. */
  function Grants(setup: Setup, calls: seq<Call>, k: nat): nat
    requires setup.Valid() && k <= |calls|
  {
    if k == 0 then 0 else Grants(setup, calls, k - 1) + if Granted(setup, calls, k - 1) then 1 else 0
  }

  // --- one call ---------------------------------------------------------------------------------------------------

  /** A host's own slot is never later than the common one, so hosts never wait for themselves alone. */
  ghost predicate HostsBehind(st: State) {
    st.nextGlobal >= 0.0 && forall host :: host in st.nextByHost ==> st.nextByHost[host] <= st.nextGlobal
  }

  function Step(setup: Setup, st: State, call: Call): State
    requires setup.Valid()
  {
    match call
    case Acquire(host, now) => Acquired(setup.caps, setup.Deadline(), st, host, now).0
    case Note(host, now, status, retryAfter) => Noted(st, host, status, retryAfter, now)
  }

  lemma StepKeepsHosts(setup: Setup, st: State, call: Call)
    requires setup.Valid() && HostsBehind(st)
    ensures HostsBehind(Step(setup, st, call)) && Step(setup, st, call).nextGlobal >= st.nextGlobal
  {
  }

  lemma StartIsGlobal(st: State, host: Host, now: real)
    requires HostsBehind(st)
    ensures Start(st, host, now) == Later(now, st.nextGlobal)
  {
  }

  lemma {:induction false} HostsAlwaysBehind(setup: Setup, calls: seq<Call>)
    requires setup.Valid()
    ensures HostsBehind(After(setup, calls))
  {
    if calls != [] {
      HostsAlwaysBehind(setup, Front(calls));
      StepKeepsHosts(setup, After(setup, Front(calls)), Last(calls));
    }
  }

  lemma {:induction false} GlobalNeverFalls(setup: Setup, calls: seq<Call>, k: nat)
    requires setup.Valid() && k <= |calls|
    ensures After(setup, calls[..k]).nextGlobal <= After(setup, calls).nextGlobal
  {
    if k == |calls| {
      assert calls[..k] == calls;
    } else {
      GlobalNeverFalls(setup, Front(calls), k);
      assert Front(calls)[..k] == calls[..k];
      HostsAlwaysBehind(setup, Front(calls));
      StepKeepsHosts(setup, After(setup, Front(calls)), Last(calls));
    }
  }

  lemma AfterNext(setup: Setup, calls: seq<Call>, k: nat)
    requires setup.Valid() && k < |calls|
    ensures After(setup, calls[..k + 1]) == Step(setup, After(setup, calls[..k]), calls[k])
  {
    assert Front(calls[..k + 1]) == calls[..k] && Last(calls[..k + 1]) == calls[k];
  }

  // --- whole scans -------------------------------------------------------------------------------------------------

  /** Per-host waiting never adds anything: each slot is the clock or the common slot, whichever is later. */
  lemma SlotIsGlobal(setup: Setup, calls: seq<Call>, k: nat)
    requires setup.Valid() && k < |calls| && Granted(setup, calls, k)
    ensures SlotOf(setup, calls, k) == Later(calls[k].now, After(setup, calls[..k]).nextGlobal)
  {
    HostsAlwaysBehind(setup, calls[..k]);
    StartIsGlobal(After(setup, calls[..k]), calls[k].host, calls[k].now);
  }

  lemma LaterState(setup: Setup, calls: seq<Call>, i: nat, j: nat)
    requires setup.Valid() && i <= j <= |calls|
    ensures After(setup, calls[..i]).nextGlobal <= After(setup, calls[..j]).nextGlobal
  {
    GlobalNeverFalls(setup, calls[..j], i);
    assert calls[..j][..i] == calls[..i];
  }

  /** Two grants are an interval apart, whatever was called in between. */
  lemma SlotsAreApart(setup: Setup, calls: seq<Call>, i: nat, j: nat)
    requires setup.Valid() && Monotone(setup, calls) && i < j < |calls|
    requires Granted(setup, calls, i) && Granted(setup, calls, j)
    ensures SlotOf(setup, calls, j) >= SlotOf(setup, calls, i) + setup.caps.Interval()
  {
    AfterNext(setup, calls, i);
    LaterState(setup, calls, i + 1, j);
    LaterState(setup, calls, i, j);
    SlotIsGlobal(setup, calls, i);
    SlotIsGlobal(setup, calls, j);
    hide After, Start, HostSlot;
  }

  /** The `n` grants from call `i` to call `j` take `n - 1` intervals, and all of them are before the deadline. */
  lemma {:induction false} SlotsSpread(setup: Setup, calls: seq<Call>, i: nat, j: nat)
    requires setup.Valid() && Monotone(setup, calls) && i <= j < |calls|
    requires Granted(setup, calls, i) && Granted(setup, calls, j)
    ensures var n := Grants(setup, calls, j + 1) - Grants(setup, calls, i);
      && n >= 1 && SlotOf(setup, calls, j) >= SlotOf(setup, calls, i) + (n - 1) as real * setup.caps.Interval()
    decreases j - i
  {
    hide Granted, SlotOf;
    if i < j {
      var k := PreviousGrant(setup, calls, i, j);
      SlotsSpread(setup, calls, i, k);
      SlotsAreApart(setup, calls, k, j);
      var n := Grants(setup, calls, k + 1) - Grants(setup, calls, i);
      assert n as real * setup.caps.Interval() == (n - 1) as real * setup.caps.Interval() + setup.caps.Interval();
    }
  }

  /** The last grant before `j`. */
  lemma {:induction false} PreviousGrant(setup: Setup, calls: seq<Call>, i: nat, j: nat) returns (k: nat)
    requires setup.Valid() && i < j < |calls| && Granted(setup, calls, i)
    ensures i <= k < j && Granted(setup, calls, k) && Grants(setup, calls, j) == Grants(setup, calls, k + 1)
    decreases j
  {
    hide Granted;
    if Granted(setup, calls, j - 1) {
      k := j - 1;
    } else {
      k := PreviousGrant(setup, calls, i, j - 1);
    }
  }

  /** The rate limit: grants whose slots lie within a window are too few to fill it. */
  lemma RateIsKept(setup: Setup, calls: seq<Call>, i: nat, j: nat, window: real)
    requires setup.Valid() && Monotone(setup, calls) && i <= j < |calls|
    requires Granted(setup, calls, i) && Granted(setup, calls, j)
    requires SlotOf(setup, calls, j) < SlotOf(setup, calls, i) + window
    ensures (Grants(setup, calls, j + 1) - Grants(setup, calls, i) - 1) as real * setup.caps.Interval() < window
  {
    SlotsSpread(setup, calls, i, j);
  }

  /** Every slot is before the deadline, and not before the request was asked for. */
  lemma SlotsAreInTime(setup: Setup, calls: seq<Call>, k: nat)
    requires setup.Valid() && k < |calls| && Granted(setup, calls, k)
    ensures SlotOf(setup, calls, k) >= calls[k].now
    ensures setup.Deadline().Some? ==> SlotOf(setup, calls, k) < setup.Deadline().value
  {
    hide After;
  }

  lemma {:induction false} RequestsAreGrants(setup: Setup, calls: seq<Call>, k: nat)
    requires setup.Valid() && k <= |calls|
    ensures After(setup, calls[..k]).requests == Grants(setup, calls, k)
    ensures setup.caps.maxRequests.Some? ==> Grants(setup, calls, k) <= setup.caps.maxRequests.value
  {
    if k > 0 {
      RequestsAreGrants(setup, calls, k - 1);
      AfterNext(setup, calls, k - 1);
    }
  }

  /** The request limit. */
  lemma RequestsAreCapped(setup: Setup, calls: seq<Call>)
    requires setup.Valid() && setup.caps.maxRequests.Some?
    ensures Grants(setup, calls, |calls|) <= setup.caps.maxRequests.value
  {
    RequestsAreGrants(setup, calls, |calls|);
  }

  lemma {:induction false} PowerGrows(n: nat)
    ensures Power(n) >= 1.0
  {
    if n > 0 { PowerGrows(n - 1); }
  }

  /** Without a usable Retry-After each further push-back waits twice as long as the one before, up to a minute. */
  lemma BackOffDoubles(n: nat, unusable: Option<real>)
    requires n > 0 && ParsedRetryAfter(unusable).None?
    ensures Penalty(1, unusable) == 2.0
    ensures Penalty(n + 1, unusable) == Sooner(2.0 * Penalty(n, unusable), MAX_BACKOFF_SECONDS)
  {
    assert Power(0) == 1.0 && Power(n) == 2.0 * Power(n - 1);
    PowerGrows(n - 1);
  }

  /** When the push-back of call `i` lets requests go out again. */
  function ResumeAt(setup: Setup, calls: seq<Call>, i: nat): real
    requires setup.Valid() && i < |calls| && calls[i].Note?
  {
    calls[i].now + Penalty(After(setup, calls[..i]).slowdowns + 1, calls[i].retryAfter)
  }

  /** After a push-back nothing is granted before its time is over, on whatever host; the time is at most a minute. */
  lemma PushBackIsHonoured(setup: Setup, calls: seq<Call>, i: nat, j: nat)
    requires setup.Valid() && i < j < |calls|
    requires calls[i].Note? && SlowsDown(calls[i].status) && Granted(setup, calls, j)
    ensures SlotOf(setup, calls, j) >= ResumeAt(setup, calls, i)
    ensures calls[i].now < ResumeAt(setup, calls, i) <= calls[i].now + MAX_BACKOFF_SECONDS
  {
    AfterNext(setup, calls, i);
    LaterState(setup, calls, i + 1, j);
    SlotIsGlobal(setup, calls, j);
    PowerGrows(After(setup, calls[..i]).slowdowns);
    hide After, Power;
  }

  // --- a stop is final ---------------------------------------------------------------------------------------------

  /** Why every later request will be refused. */
  ghost predicate Stopped(setup: Setup, st: State, now: real, cap: Cap) {
    && HostsBehind(st) && st.stoppedBy == Some(cap)
    && var full := setup.caps.maxRequests.Some? && st.requests >= setup.caps.maxRequests.value;
       match cap
       case MaxRequests => full
       case MaxDuration =>
         !full && setup.Deadline().Some? && Later(now, st.nextGlobal) >= setup.Deadline().value
  }

  lemma RefusalStops(setup: Setup, st: State, host: Host, now: real)
    requires setup.Valid() && HostsBehind(st)
    requires Acquired(setup.caps, setup.Deadline(), st, host, now).1.Refused?
    ensures var (after, grant) := Acquired(setup.caps, setup.Deadline(), st, host, now);
      Stopped(setup, after, now, grant.cap)
  {
    StartIsGlobal(st, host, now);
    hide Start, HostSlot;
  }

  lemma StopStays(setup: Setup, st: State, before: real, call: Call, cap: Cap)
    requires setup.Valid() && Stopped(setup, st, before, cap) && before <= call.now
    ensures Stopped(setup, Step(setup, st, call), call.now, cap)
    ensures call.Acquire? ==>
      Acquired(setup.caps, setup.Deadline(), st, call.host, call.now).1 == Refused(cap)
  {
    StepKeepsHosts(setup, st, call);
    if call.Acquire? {
      StartIsGlobal(st, call.host, call.now);
    }
    hide Start, HostSlot, HostsBehind;
  }

  lemma {:induction false} StoppedFrom(setup: Setup, calls: seq<Call>, i: nat, j: nat, cap: Cap)
    requires setup.Valid() && Monotone(setup, calls) && i < j <= |calls|
    requires calls[i].Acquire? && GrantOf(setup, calls, i) == Refused(cap)
    ensures Stopped(setup, After(setup, calls[..j]), calls[j - 1].now, cap)
  {
    AfterNext(setup, calls, j - 1);
    hide Stopped, After, Step;
    if j == i + 1 {
      HostsAlwaysBehind(setup, calls[..i]);
      StopFirst(setup, calls, i, cap);
    } else {
      StoppedFrom(setup, calls, i, j - 1, cap);
      StopStays(setup, After(setup, calls[..j - 1]), calls[j - 2].now, calls[j - 1], cap);
    }
  }

  lemma StopFirst(setup: Setup, calls: seq<Call>, i: nat, cap: Cap)
    requires setup.Valid() && i < |calls| && HostsBehind(After(setup, calls[..i]))
    requires calls[i].Acquire? && GrantOf(setup, calls, i) == Refused(cap)
    ensures Stopped(setup, Step(setup, After(setup, calls[..i]), calls[i]), calls[i].now, cap)
  {
    RefusalStops(setup, After(setup, calls[..i]), calls[i].host, calls[i].now);
    hide After, Stopped;
  }

  /** Once a request was refused every later one is, for the same cap, which is the one reported. */
  lemma StopIsFinal(setup: Setup, calls: seq<Call>, i: nat, j: nat, cap: Cap)
    requires setup.Valid() && Monotone(setup, calls) && i < j < |calls|
    requires calls[i].Acquire? && GrantOf(setup, calls, i) == Refused(cap)
    ensures After(setup, calls[..j]).stoppedBy == Some(cap)
    ensures calls[j].Acquire? ==> GrantOf(setup, calls, j) == Refused(cap)
  {
    StoppedFrom(setup, calls, i, j, cap);
    StopStays(setup, After(setup, calls[..j]), calls[j - 1].now, calls[j], cap);
    hide After;
  }
}
