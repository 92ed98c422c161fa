/** The limiter exactly: when each slot is, and when a request is refused, from the calls alone. */
module LimiterLaws {
  import opened Options
  import opened Limits
  import opened LimiterRuns

  // --- how long a push-back lasts ----------------------------------------------------------------------------------

  /** The back-off of the `n`-th push-back: two seconds, doubled each time, at most a minute. */
  function BackOff(n: nat): real
    requires n > 0
  {
    if n == 1 then 2.0 else if 2.0 * BackOff(n - 1) <= 60.0 then 2.0 * BackOff(n - 1) else 60.0
  }

  /** What the answer asks for when it says so in seconds, at most a minute; else the back-off. */
  function Wait(n: nat, retryAfter: Option<real>): real
    requires n > 0
  {
    if retryAfter == None || retryAfter.value <= 0.0 then BackOff(n)
    else if retryAfter.value <= 60.0 then retryAfter.value
    else 60.0
  }

  lemma {:induction false} BackOffIs(n: nat)
    requires n > 0
    ensures BackOff(n) == Sooner(BACKOFF_SECONDS * Power(n - 1), MAX_BACKOFF_SECONDS)
  {
    if n == 1 {
      assert Power(0) == 1.0;
    } else {
      BackOffIs(n - 1);
      assert Power(n - 1) == 2.0 * Power(n - 2);
      PowerGrows(n - 2);
    }
  }

  lemma PenaltyIs(n: nat, retryAfter: Option<real>)
    requires n > 0
    ensures Penalty(n, retryAfter) == Wait(n, retryAfter)
  {
    BackOffIs(n);
    hide BackOff, Power;
  }

  predicate PushBack(call: Call) { call.Note? && (call.status == 429 || call.status == 503) }

  function PushBacks(calls: seq<Call>, k: nat): nat
    requires k <= |calls|
  {
    if k == 0 then 0 else PushBacks(calls, k - 1) + if PushBack(calls[k - 1]) then 1 else 0
  }

  lemma {:induction false} SlowdownsArePushBacks(setup: Setup, calls: seq<Call>, k: nat)
    requires setup.Valid() && k <= |calls|
    ensures After(setup, calls[..k]).slowdowns == PushBacks(calls, k)
  {
    if k > 0 {
      SlowdownsArePushBacks(setup, calls, k - 1);
      AfterNext(setup, calls, k - 1);
    }
  }

  /** When the push-back of call `i` is over. */
  function OverAt(calls: seq<Call>, i: nat): real
    requires i < |calls| && PushBack(calls[i])
  {
    calls[i].now + Wait(PushBacks(calls, i) + 1, calls[i].retryAfter)
  }

  // --- when a request may start ------------------------------------------------------------------------------------

  /** What keeps requests from starting before `x`: a slot taken before, a push-back, or the beginning of time. */
  ghost predicate Floor(setup: Setup, calls: seq<Call>, k: nat, x: real)
    requires setup.Valid() && k <= |calls|
  {
    || x == 0.0
    || (setup.caps.Interval() > 0.0 && exists i :: 0 <= i < k && Granted(setup, calls, i)
                                                 && x == SlotOf(setup, calls, i) + setup.caps.Interval())
    || (exists i :: 0 <= i < k && PushBack(calls[i]) && x == OverAt(calls, i))
  }

  /** The common slot is the latest of the floors. */
  ghost predicate IsLastFloor(setup: Setup, calls: seq<Call>, k: nat, last: real)
    requires setup.Valid() && k <= |calls|
  {
    Floor(setup, calls, k, last) && forall x :: Floor(setup, calls, k, x) ==> x <= last
  }

  lemma {:induction false} GlobalIsTheLastFloor(setup: Setup, calls: seq<Call>, k: nat)
    requires setup.Valid() && k <= |calls|
    ensures IsLastFloor(setup, calls, k, After(setup, calls[..k]).nextGlobal)
  {
    if k > 0 {
      GlobalIsTheLastFloor(setup, calls, k - 1);
      LastFloorMoves(setup, calls, k - 1, k);
    }
  }

  lemma LastFloorMoves(setup: Setup, calls: seq<Call>, k: nat, next: nat)
    requires setup.Valid() && next == k + 1 <= |calls| && IsLastFloor(setup, calls, k, After(setup, calls[..k]).nextGlobal)
    ensures IsLastFloor(setup, calls, next, After(setup, calls[..next]).nextGlobal)
  {
    hide Floor, After, Granted, SlotOf, PushBack, OverAt;
    if Granted(setup, calls, k) && setup.caps.Interval() > 0.0 {
      GlobalAfterGrant(setup, calls, k);
      GrantedFloor(setup, calls, k, next);
    } else if PushBack(calls[k]) {
      GlobalAfterPush(setup, calls, k);
      PushedFloor(setup, calls, k, next);
    } else {
      GlobalStays(setup, calls, k);
      SameFloor(setup, calls, k, next);
    }
  }

  lemma GlobalAfterGrant(setup: Setup, calls: seq<Call>, k: nat)
    requires setup.Valid() && k < |calls| && Granted(setup, calls, k) && setup.caps.Interval() > 0.0
    ensures After(setup, calls[..k + 1]).nextGlobal == SlotOf(setup, calls, k) + setup.caps.Interval()
    ensures After(setup, calls[..k + 1]).nextGlobal >= After(setup, calls[..k]).nextGlobal
  {
    AfterNext(setup, calls, k);
    SlotIsGlobal(setup, calls, k);
    hide After, Start;
  }

  lemma GlobalAfterPush(setup: Setup, calls: seq<Call>, k: nat)
    requires setup.Valid() && k < |calls| && PushBack(calls[k])
    ensures After(setup, calls[..k + 1]).nextGlobal == Later(After(setup, calls[..k]).nextGlobal, OverAt(calls, k))
  {
    AfterNext(setup, calls, k);
    SlowdownsArePushBacks(setup, calls, k);
    PenaltyIs(PushBacks(calls, k) + 1, calls[k].retryAfter);
    hide After, PushBacks, Wait, Penalty;
  }

  lemma GlobalStays(setup: Setup, calls: seq<Call>, k: nat)
    requires setup.Valid() && k < |calls| && !PushBack(calls[k])
    requires Granted(setup, calls, k) ==> setup.caps.Interval() <= 0.0
    ensures After(setup, calls[..k + 1]).nextGlobal == After(setup, calls[..k]).nextGlobal
  {
    AfterNext(setup, calls, k);
    hide After, Start;
  }

  lemma GrantedFloor(setup: Setup, calls: seq<Call>, k: nat, next: nat)
    requires setup.Valid() && next == k + 1 <= |calls| && Granted(setup, calls, k) && setup.caps.Interval() > 0.0
    ensures forall x :: Floor(setup, calls, next, x)
                   <==> Floor(setup, calls, k, x) || x == SlotOf(setup, calls, k) + setup.caps.Interval()
  {
    hide Granted, SlotOf, PushBack, OverAt;
    assert calls[k].Acquire? by { GrantsAreAcquires(setup, calls, k); }
    assert !PushBack(calls[k]) by { OnlyNotesPush(calls[k]); }
  }

  lemma GrantsAreAcquires(setup: Setup, calls: seq<Call>, k: nat)
    requires setup.Valid() && k < |calls|
    ensures Granted(setup, calls, k) ==> calls[k].Acquire?
  {
  }

  lemma OnlyNotesPush(call: Call)
    ensures PushBack(call) ==> call.Note?
  {
  }

  lemma PushedFloor(setup: Setup, calls: seq<Call>, k: nat, next: nat)
    requires setup.Valid() && next == k + 1 <= |calls| && PushBack(calls[k])
    ensures forall x :: Floor(setup, calls, next, x) <==> Floor(setup, calls, k, x) || x == OverAt(calls, k)
  {
    GrantsAreAcquires(setup, calls, k);
    OnlyNotesPush(calls[k]);
    hide Granted, SlotOf, PushBack, OverAt;
  }

  lemma SameFloor(setup: Setup, calls: seq<Call>, k: nat, next: nat)
    requires setup.Valid() && next == k + 1 <= |calls| && !PushBack(calls[k])
    requires Granted(setup, calls, k) ==> setup.caps.Interval() <= 0.0
    ensures forall x :: Floor(setup, calls, next, x) <==> Floor(setup, calls, k, x)
  {
    hide Granted, SlotOf, PushBack, OverAt;
  }

  /** `x` is a time that request `k` has to wait for: when it is asked for, or a floor. */
  ghost predicate HasToWaitFor(setup: Setup, calls: seq<Call>, k: nat, x: real)
    requires setup.Valid() && k < |calls|
  {
    x == calls[k].now || Floor(setup, calls, k, x)
  }

  /** No request waits longer than it has to: its slot is the latest of the times it has to wait for. */
  lemma SlotIsEarliest(setup: Setup, calls: seq<Call>, k: nat)
    requires setup.Valid() && k < |calls| && Granted(setup, calls, k)
    ensures HasToWaitFor(setup, calls, k, SlotOf(setup, calls, k))
    ensures forall x :: HasToWaitFor(setup, calls, k, x) ==> x <= SlotOf(setup, calls, k)
  {
    SlotIsGlobal(setup, calls, k);
    GlobalIsTheLastFloor(setup, calls, k);
    hide Floor, SlotOf, After;
  }

  /**
   * A request is refused only when a cap is reached: the number of requests when that many were granted, else the
   * duration when something it has to wait for is not before the deadline. Otherwise it gets a slot.
   */
  lemma RefusedIff(setup: Setup, calls: seq<Call>, k: nat)
    requires setup.Valid() && k < |calls| && calls[k].Acquire?
    ensures var full := setup.caps.maxRequests.Some? && Grants(setup, calls, k) == setup.caps.maxRequests.value;
      var late := setup.Deadline().Some?
                  && exists x :: HasToWaitFor(setup, calls, k, x) && x >= setup.Deadline().value;
      && (GrantOf(setup, calls, k) == Refused(MaxRequests) <==> full)
      && (GrantOf(setup, calls, k) == Refused(MaxDuration) <==> !full && late)
  {
    var st := After(setup, calls[..k]);
    RequestsAreGrants(setup, calls, k);
    HostsAlwaysBehind(setup, calls[..k]);
    StartIsGlobal(st, calls[k].host, calls[k].now);
    GlobalIsTheLastFloor(setup, calls, k);
    hide Floor, After, Start, Grants;
    assert HasToWaitFor(setup, calls, k, calls[k].now) && HasToWaitFor(setup, calls, k, st.nextGlobal);
  }
}
