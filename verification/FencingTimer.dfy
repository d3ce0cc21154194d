/** The fencing watch: a timer that starts when the leader is lost, is cancelled when a leader is seen, and calls back
    once if five seconds pass in between.  Proved equal to what a trace of observations says about leaderless
    windows. */
module FencingTimer {
  import opened Option

  /** A leader observation as the watch receives it, and when; `lost` if it names no leader. */
  datatype Event = Event(lost: bool, at: int)

  /** How long the quorum may be lost, in milliseconds. */
  const GRACE: int := 5000

  ghost predicate Ordered(events: seq<Event>, end: int) {
    (forall i, j :: 0 <= i < j < |events| ==> events[i].at <= events[j].at) &&
    forall i :: 0 <= i < |events| ==> events[i].at <= end
  }

  // ---- the trace ----------------------------------------------------------------------------------

  /** A leaderless window opens at a loss that no other loss directly precedes. */
  predicate Opens(events: seq<Event>, i: nat)
    requires i < |events|
  {
    events[i].lost && (i == 0 || !events[i - 1].lost)
  }

  /** It lasts until a leader is seen, or is still open when the trace ends. */
  function ClosedAt(events: seq<Event>, i: nat, end: int): int
    requires i <= |events|
    decreases |events| - i
  {
    if i == |events| then end else if !events[i].lost then events[i].at else ClosedAt(events, i + 1, end)
  }

  predicate Isolated(events: seq<Event>, i: nat, end: int)
    requires i < |events|
  {
    Opens(events, i) && events[i].at + GRACE <= ClosedAt(events, i, end)
  }

  /** One callback for every window that lasts at least the grace period, when the period is over. */
  function Callbacks(events: seq<Event>, n: nat, end: int): seq<int>
    requires n <= |events|
  {
    if n == 0 then []
    else Callbacks(events, n - 1, end) + if Isolated(events, n - 1, end) then [events[n - 1].at + GRACE] else []
  }

  /** The callbacks come one per isolating window: strictly one after the other, and at no other times. */
  lemma {:induction false} CallbacksMatchWindows(events: seq<Event>, n: nat, end: int)
    requires n <= |events| && Ordered(events, end)
    ensures forall t :: t in Callbacks(events, n, end) <==>
      exists i :: 0 <= i < n && Isolated(events, i, end) && t == events[i].at + GRACE
    ensures forall a, b :: 0 <= a < b < |Callbacks(events, n, end)| ==>
      Callbacks(events, n, end)[a] < Callbacks(events, n, end)[b]
  {
    if n > 0 {
      CallbacksMatchWindows(events, n - 1, end);
      if Isolated(events, n - 1, end) {
        forall i | 0 <= i < n - 1 && Isolated(events, i, end) ensures events[i].at + GRACE < events[n - 1].at + GRACE {
          ClosedBeforeNext(events, i, n - 1, end);
        }
        var earlier := Callbacks(events, n - 1, end);
        assert forall a :: 0 <= a < |earlier| ==> earlier[a] in earlier;
      }
    }
  }

  /** A leader is first seen no earlier than this after the loss at `i`, and the trace is not over before. */
  ghost predicate LeaderlessUntil(events: seq<Event>, i: nat, t: int, end: int) {
    t <= end && forall j :: i <= j < |events| && !events[j].lost ==> t <= events[j].at
  }

  /** At this time the leader was lost, for the first time or after a leader had been seen. */
  ghost predicate LostAt(events: seq<Event>, i: nat, at: int) {
    i < |events| && events[i].at == at && events[i].lost && (i == 0 || !events[i - 1].lost)
  }

  lemma {:induction false} ClosedLater(events: seq<Event>, i: nat, end: int, t: int)
    requires i <= |events| && Ordered(events, end)
    ensures t <= ClosedAt(events, i, end) <==> LeaderlessUntil(events, i, t, end)
    decreases |events| - i
  {
    if i < |events| { ClosedLater(events, i + 1, end, t); }
  }

  /** The watch calls back at a time exactly if five seconds earlier the leader was lost, by the first observation or
      right after a leader had been seen, and no leader was seen before that time. */
  lemma CallsBackExactlyWhen(events: seq<Event>, end: int, t: int)
    requires Ordered(events, end)
    ensures t in Callbacks(events, |events|, end) <==>
      exists i: nat :: LostAt(events, i, t - 5000) && LeaderlessUntil(events, i, t, end)
  {
    CallbacksMatchWindows(events, |events|, end);
    forall i: nat | i < |events| ensures Isolated(events, i, end) <==>
      LostAt(events, i, events[i].at) && LeaderlessUntil(events, i, events[i].at + 5000, end)
    {
      ClosedLater(events, i, end, events[i].at + 5000);
    }
    hide Callbacks, LeaderlessUntil, ClosedAt, Isolated;
    if i: nat :| LostAt(events, i, t - 5000) && LeaderlessUntil(events, i, t, end) {
      assert Isolated(events, i, end);
    }
  }

  /** A window is over before the next one opens. */
  lemma {:induction false} ClosedBeforeNext(events: seq<Event>, i: nat, j: nat, end: int)
    requires i < j < |events| && Ordered(events, end) && Opens(events, j)
    ensures ClosedAt(events, i, end) <= events[j].at
    decreases j - i
  {
    if events[i].lost { ClosedBeforeNext(events, i + 1, j, end); }
  }

  // ---- how callbacks come about as time passes and events arrive -----------------------------------

  /** Where the losses begin that the first `n` events end with. */
  function LossStart(events: seq<Event>, n: nat): (start: nat)
    requires n <= |events|
    ensures start <= n && (forall i :: start <= i < n ==> events[i].lost) &&
      (0 < start ==> start == n || !events[start - 1].lost)
    ensures start == n <==> n == 0 || !events[n - 1].lost
  {
    if n == 0 || !events[n - 1].lost then n else
      var start := LossStart(events, n - 1);
      start
  }

  lemma {:induction false} OpenToTheEnd(events: seq<Event>, i: nat, end: int)
    requires i <= |events| && forall k :: i <= k < |events| ==> events[k].lost
    ensures ClosedAt(events, i, end) == end
    decreases |events| - i
  {
    if i < |events| { OpenToTheEnd(events, i + 1, end); }
  }

  lemma {:induction false} ClosedForGood(events: seq<Event>, i: nat, j: nat, end: int, later: int)
    requires i <= j < |events| && !events[j].lost
    ensures ClosedAt(events, i, end) == ClosedAt(events, i, later)
    decreases j - i
  {
    if events[i].lost { ClosedForGood(events, i + 1, j, end, later); }
  }

  /** Windows that a seen leader has closed keep their callbacks. */
  lemma {:induction false} ClosedWindows(events: seq<Event>, n: nat, j: nat, end: int, later: int)
    requires n <= j < |events| && !events[j].lost
    ensures Callbacks(events, n, end) == Callbacks(events, n, later)
  {
    if n > 0 {
      ClosedWindows(events, n - 1, j, end, later);
      ClosedForGood(events, n - 1, j, end, later);
    }
  }

  /** Losses after the first of a run open no window. */
  lemma {:induction false} NoneAfterStart(events: seq<Event>, n: nat, end: int)
    requires n <= |events| && LossStart(events, n) < n
    ensures Callbacks(events, n, end) == Callbacks(events, LossStart(events, n) + 1, end)
  {
    if LossStart(events, n) < n - 1 { NoneAfterStart(events, n - 1, end); }
  }

  /** The callbacks up to any time: those of closed windows, and that of the open one if its grace period is over. */
  lemma AsTimePasses(events: seq<Event>, now: int, later: int)
    ensures var n := |events|; var start := LossStart(events, n);
      && Callbacks(events, start, now) == Callbacks(events, start, later)
      && Callbacks(events, n, later) == Callbacks(events, start, later) +
           if start < n && events[start].at + GRACE <= later then [events[start].at + GRACE] else []
  {
    var n := |events|;
    var start := LossStart(events, n);
    if start > 0 {
      assert !events[start - 1].lost;
      ClosedWindows(events, start - 1, start - 1, now, later);
    }
    if start < n {
      NoneAfterStart(events, n, later);
      OpenToTheEnd(events, start, later);
    }
  }

  lemma {:induction false} ClosedAtExtended(events: seq<Event>, e: Event, i: nat)
    requires i <= |events|
    ensures ClosedAt(events + [e], i, e.at) == ClosedAt(events, i, e.at)
    decreases |events| - i
  {
    if i < |events| { ClosedAtExtended(events, e, i + 1); }
  }

  lemma {:induction false} CallbacksExtended(events: seq<Event>, e: Event, n: nat)
    requires n <= |events|
    ensures Callbacks(events + [e], n, e.at) == Callbacks(events, n, e.at)
  {
    if n > 0 {
      CallbacksExtended(events, e, n - 1);
      ClosedAtExtended(events, e, n - 1);
    }
  }

  lemma {:induction false} LossStartExtended(events: seq<Event>, e: Event, n: nat)
    requires n <= |events|
    ensures LossStart(events + [e], n) == LossStart(events, n)
  {
    if n > 0 { LossStartExtended(events, e, n - 1); }
  }

  /** An event adds no callback at the time it arrives. */
  lemma AsEventArrives(events: seq<Event>, e: Event)
    ensures Callbacks(events + [e], |events| + 1, e.at) == Callbacks(events, |events|, e.at)
    ensures LossStart(events + [e], |events| + 1) == if e.lost then LossStart(events, |events|) else |events| + 1
  {
    CallbacksExtended(events, e, |events|);
    ClosedAtExtended(events, e, |events|);
    LossStartExtended(events, e, |events|);
  }

  // ---- the watch ----------------------------------------------------------------------------------

  /** `timer` is the deadline in the watch's variable; `armed` says whether the runtime still has to fire it.
      A timer that has fired stays in the variable until a leader is seen. */
  class Watch {
    const onFence: bool
    var timer: Option<int>
    var armed: bool
    var callbacks: seq<int>

    constructor (onFence: bool)
      ensures this.onFence == onFence && timer == None && !armed && callbacks == []
    {
      this.onFence, timer, armed, callbacks := onFence, None, false, [];
    }

    /** The runtime fires an armed timer once its deadline is reached. */
    method Elapse(to: int)
      modifies this`armed, this`callbacks
      ensures var due := old(armed) && timer.Some? && timer.value <= to;
        && armed == (old(armed) && !due)
        && callbacks == old(callbacks) + if due && onFence then [timer.value] else []
    {
      if armed && timer.Some? && timer.value <= to {
        armed := false;
        if onFence {
          callbacks := callbacks + [timer.value];
        }
      }
    }

    method Observe(e: Event)
      modifies this`timer, this`armed
      ensures e.lost && old(timer).None? ==> timer == Some(e.at + GRACE) && armed
      ensures e.lost && old(timer).Some? ==> timer == old(timer) && armed == old(armed)
      ensures !e.lost ==> timer == None && armed == (old(armed) && old(timer).None?)
    {
      if e.lost {
        if timer.None? {
          timer, armed := Some(e.at + GRACE), true;
        }
      } else {
        if timer.Some? {
          armed := false;
          timer := None;
        }
      }
    }

    /** One turn of the event loop; timers due by the time of the event have fired before it. */
    method Turn(e: Event, ghost before: seq<Event>, ghost now: int)
      requires InStep(before, now) && (before == [] || now <= e.at)
      modifies this
      ensures InStep(before + [e], e.at)
    {
      AsTimePasses(before, now, e.at);
      AsTimePasses(before, e.at, now);
      AsEventArrives(before, e);
      Elapse(e.at);
      Observe(e);
      assert LossStart(before + [e], |before| + 1) < |before| ==>
        (before + [e])[LossStart(before, |before|)] == before[LossStart(before, |before|)];
    }

    /** The event loop over a whole trace: the callback runs exactly once in each leaderless window that lasts at least
        the grace period, counted from its first loss, and never otherwise. */
    method Run(events: seq<Event>, end: int)
      requires timer == None && !armed && callbacks == []
      requires Ordered(events, end)
      modifies this
      ensures callbacks == if onFence then Callbacks(events, |events|, end) else []
    {
      hide Callbacks, LossStart, InStep;
      FreshWatch(end);
      ghost var now, done := end, [];
      for i := 0 to |events|
        invariant done == events[..i] && InStep(done, now) && now <= end && (i > 0 ==> now == events[i - 1].at)
      {
        Turn(events[i], done, now);
        done, now := done + [events[i]], events[i].at;
      }
      Finish(done, now, end);
      assert done == events;
      Called(events, end);
    }

    lemma FreshWatch(now: int)
      requires timer == None && !armed && callbacks == []
      ensures InStep([], now)
    {
    }

    lemma Called(events: seq<Event>, now: int)
      requires InStep(events, now)
      ensures callbacks == if onFence then Callbacks(events, |events|, now) else []
    {
    }

    /** Time passing after the last event. */
    method Finish(ghost events: seq<Event>, ghost now: int, end: int)
      requires InStep(events, now) && now <= end
      modifies this`armed, this`callbacks
      ensures InStep(events, end)
    {
      AsTimePasses(events, now, end);
      AsTimePasses(events, end, now);
      Elapse(end);
    }

    /** After handling a trace up to time `now`: what has been called, and what the timer stands for. */
    ghost predicate InStep(events: seq<Event>, now: int)
      reads this
    {
      var start := LossStart(events, |events|);
      && callbacks == (if onFence then Callbacks(events, |events|, now) else [])
      && timer == (if start < |events| then Some(events[start].at + GRACE) else None)
      && armed == (start < |events| && now < events[start].at + GRACE)
    }
  }
}
