/** The limit on subscription events of one socket: 120 in each fixed window of a minute. */
module EventWindow {
  /** Milliseconds. */
  type Time = int

  const WINDOW_MS := 60000
  const MAX_SUBSCRIPTION_EVENTS_PER_MINUTE := 120

  datatype Window = Window(startedAt: Time, count: nat)

  function Consume(w: Window, now: Time): (Window, bool) {
    var current := if now - w.startedAt >= WINDOW_MS then Window(now, 0) else w;
    (current.(count := current.count + 1), current.count + 1 <= MAX_SUBSCRIPTION_EVENTS_PER_MINUTE)
  }

  predicate Nondecreasing(times: seq<Time>) { forall i, j | 0 <= i < j < |times| :: times[i] <= times[j] }

  predicate Within(t: Time, a: Time) { a <= t < a + WINDOW_MS }

  /** How many of the events that fall in the minute from `a` on are accepted. */
  function AcceptedWithin(w: Window, times: seq<Time>, a: Time): nat
    decreases |times|
  {
    if times == [] then 0
    else
      var (next, accepted) := Consume(w, times[0]);
      (if accepted && Within(times[0], a) then 1 else 0) + AcceptedWithin(next, times[1..], a)
  }

  /** What the current window still accepts. */
  function Left(w: Window): nat {
    if w.count < MAX_SUBSCRIPTION_EVENTS_PER_MINUTE then MAX_SUBSCRIPTION_EVENTS_PER_MINUTE - w.count else 0
  }

  lemma {:induction false} NoneAfter(w: Window, times: seq<Time>, a: Time)
    requires forall i | 0 <= i < |times| :: a + WINDOW_MS <= times[i]
    ensures AcceptedWithin(w, times, a) == 0
    decreases |times|
  {
    if times != [] { NoneAfter(Consume(w, times[0]).0, times[1..], a); }
  }

  /** A window that starts in the minute is not reset before the minute is over. */
  lemma {:induction false} StartedWithin(w: Window, times: seq<Time>, a: Time)
    requires Nondecreasing(times) && a <= w.startedAt
    ensures AcceptedWithin(w, times, a) <= Left(w)
    decreases |times|
  {
    if times != [] {
      if times[0] < a + WINDOW_MS {
        StartedWithin(Consume(w, times[0]).0, times[1..], a);
      } else {
        NoneAfter(w, times, a);
      }
    }
  }

  lemma {:induction false} StartedBefore(w: Window, times: seq<Time>, a: Time)
    requires Nondecreasing(times) && (times != [] ==> a <= times[0])
    ensures AcceptedWithin(w, times, a) <= Left(w) + MAX_SUBSCRIPTION_EVENTS_PER_MINUTE
    decreases |times|
  {
    if times != [] {
      var next := Consume(w, times[0]).0;
      if times[0] - w.startedAt >= WINDOW_MS {
        StartedWithin(next, times[1..], a);
      } else {
        StartedBefore(next, times[1..], a);
      }
    }
  }

  /** Whatever the clock readings and the window they meet: at most twice the limit in any
      half-open minute, because at most one reset falls in it. */
  lemma {:induction false} AtMostTwiceTheLimit(w: Window, times: seq<Time>, a: Time)
    requires Nondecreasing(times)
    ensures AcceptedWithin(w, times, a) <= 2 * MAX_SUBSCRIPTION_EVENTS_PER_MINUTE
    decreases |times|
  {
    if times != [] && times[0] < a {
      AtMostTwiceTheLimit(Consume(w, times[0]).0, times[1..], a);
    } else {
      StartedBefore(w, times, a);
    }
  }

  function Burst(n: nat, t: Time): seq<Time> { seq(n, _ => t) }

  lemma {:induction false} BurstAccepted(w: Window, n: nat, t: Time, rest: seq<Time>, a: Time)
    requires t - w.startedAt < WINDOW_MS && w.count + n <= MAX_SUBSCRIPTION_EVENTS_PER_MINUTE && Within(t, a)
    ensures AcceptedWithin(w, Burst(n, t) + rest, a) == n + AcceptedWithin(w.(count := w.count + n), rest, a)
    decreases n
  {
    var times := Burst(n, t) + rest;
    if n == 0 {
      assert times == rest;
    } else {
      assert times[1..] == Burst(n - 1, t) + rest;
      BurstAccepted(w.(count := w.count + 1), n - 1, t, rest, a);
    }
  }

  /** The bound is reached: a full burst just before a reset and another right at it. */
  lemma TwiceTheLimitIsReached(start: Time)
    ensures var times := Burst(MAX_SUBSCRIPTION_EVENTS_PER_MINUTE, start + WINDOW_MS - 1)
                         + Burst(MAX_SUBSCRIPTION_EVENTS_PER_MINUTE, start + WINDOW_MS);
            && Nondecreasing(times)
            && AcceptedWithin(Window(start, 0), times, start + WINDOW_MS - 1) == 2 * MAX_SUBSCRIPTION_EVENTS_PER_MINUTE
  {
    var a, limit := start + WINDOW_MS - 1, MAX_SUBSCRIPTION_EVENTS_PER_MINUTE;
    var second := Burst(limit, a + 1);
    BurstAccepted(Window(start, 0), limit, a, second, a);
    assert second[1..] == Burst(limit - 1, a + 1) + [];
    BurstAccepted(Window(a + 1, 1), limit - 1, a + 1, [], a);
    assert AcceptedWithin(Window(start, limit), second, a) == 1 + AcceptedWithin(Window(a + 1, 1), second[1..], a);
  }

  /** One window alone never accepts more than the limit. */
  lemma {:induction false} OneWindow(w: Window, times: seq<Time>, a: Time)
    requires forall i | 0 <= i < |times| :: times[i] - w.startedAt < WINDOW_MS
    ensures AcceptedWithin(w, times, a) <= Left(w)
    decreases |times|
  {
    if times != [] { OneWindow(Consume(w, times[0]).0, times[1..], a); }
  }

  /** Before the minute is over the window accepts events until 120 are counted, and no more. */
  lemma {:induction false} RestOfTheWindow(w: Window, times: seq<Time>, a: Time)
    requires forall i | 0 <= i < |times| :: times[i] < w.startedAt + 60000 && a <= times[i] < a + 60000
    ensures AcceptedWithin(w, times, a)
            == if w.count + |times| <= 120 then |times| else if w.count <= 120 then 120 - w.count else 0
    decreases |times|
  {
    if times != [] { RestOfTheWindow(w.(count := w.count + 1), times[1..], a); }
  }

  /** Once it is over, the next event starts a new one: it and 119 more in its minute are accepted,
      whatever was counted before. */
  lemma FreshWindow(w: Window, times: seq<Time>)
    requires times != [] && w.startedAt + 60000 <= times[0]
    requires forall i | 0 <= i < |times| :: times[0] <= times[i] < times[0] + 60000
    ensures AcceptedWithin(w, times, times[0]) == if |times| <= 120 then |times| else 120
  {
    RestOfTheWindow(Window(times[0], 1), times[1..], times[0]);
  }
}
