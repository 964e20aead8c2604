/**
 * The ingest rate limiter (internal/ingest/ratelimit.go): one fixed 60-second window per
 * app. Calls are serialised by the limiter's mutex; times are in nanoseconds.
 */
module RateLimit {
  import opened Common

  const WINDOW := 60_000_000_000

  datatype Window = Window(count: nat, start: int)

  /** A limit that is not positive means the default of 100. */
  function Effective(limit: int): nat { if limit <= 0 then 100 else limit }

  /** The app's window after a call at `now`. */
  function After(w: Option<Window>, now: int): Window {
    if w.None? || now - w.value.start >= WINDOW then Window(1, now) else w.value.(count := w.value.count + 1)
  }

  predicate Allowed(w: Option<Window>, limit: int, now: int) {
    After(w, now).count <= Effective(limit)
  }

  class RateLimiter {
    var windows: map<string, Window>

    constructor ()
      ensures windows == map[]
    {
      windows := map[];
    }

    method Allow(app: string, limit: int, now: int) returns (ok: bool)
      modifies this
      ensures windows == old(windows)[app := After(Find(old(windows), app), now)]
      ensures ok == Allowed(Find(old(windows), app), limit, now)
      ensures var open := app in old(windows) && now - old(windows)[app].start < 60 * 1_000_000_000;
              && ok == (!open || old(windows)[app].count + 1 <= if limit <= 0 then 100 else limit)
              && windows == old(windows)[app := if open then Window(old(windows)[app].count + 1, old(windows)[app].start)
                                                else Window(1, now)]
    {
      var bound := Effective(limit);
      if app !in windows || now - windows[app].start >= WINDOW {
        windows := windows[app := Window(1, now)];
        return true;
      }
      var w := windows[app];
      windows := windows[app := w.(count := w.count + 1)];
      ok := windows[app].count <= bound;
    }
  }

  // ---- Runs -----------------------------------------------------------------

  datatype Call = Call(app: string, now: int)

  /** The limiter's answers to a sequence of calls with a fixed limit. */
  function Answers(windows: map<string, Window>, calls: seq<Call>, limit: int): (answers: seq<bool>)
    ensures |answers| == |calls|
    decreases |calls|
  {
    if calls == [] then []
    else
      var c := calls[0];
      var w := Find(windows, c.app);
      [Allowed(w, limit, c.now)] + Answers(windows[c.app := After(w, c.now)], calls[1..], limit)
  }

  /** The answers to one app's calls, from its own window. */
  function AppAnswers(w: Option<Window>, times: seq<int>, limit: int): (answers: seq<bool>)
    ensures |answers| == |times|
    decreases |times|
  {
    if times == [] then []
    else [Allowed(w, limit, times[0])] + AppAnswers(Some(After(w, times[0])), times[1..], limit)
  }

  function TimesOf(calls: seq<Call>, app: string): seq<int> {
    if calls == [] then []
    else (if calls[0].app == app then [calls[0].now] else []) + TimesOf(calls[1..], app)
  }

  function AnswersTo(calls: seq<Call>, answers: seq<bool>, app: string): (own: seq<bool>)
    requires |calls| == |answers|
    ensures |own| == |TimesOf(calls, app)|
  {
    if calls == [] then []
    else (if calls[0].app == app then [answers[0]] else []) + AnswersTo(calls[1..], answers[1..], app)
  }

  /** What one app is answered depends on its own calls only. */
  lemma {:induction false} AppsAreIndependent(windows: map<string, Window>, calls: seq<Call>, limit: int, app: string)
    ensures AnswersTo(calls, Answers(windows, calls, limit), app)
            == AppAnswers(Find(windows, app), TimesOf(calls, app), limit)
    decreases |calls|
  {
    if calls != [] {
      var c := calls[0];
      var w := Find(windows, c.app);
      var next := windows[c.app := After(w, c.now)];
      AppsAreIndependent(next, calls[1..], limit, app);
      assert Answers(windows, calls, limit)[1..] == Answers(next, calls[1..], limit);
      if c.app == app {
        assert TimesOf(calls, app)[1..] == TimesOf(calls[1..], app);
      } else {
        assert TimesOf(calls, app) == TimesOf(calls[1..], app);
        assert Find(next, app) == Find(windows, app);
      }
    }
  }

  // ---- One window -------------------------------------------------------------

  function Left(count: nat, limit: int): nat {
    if count < Effective(limit) then Effective(limit) - count else 0
  }

  /** Of the calls that fall into an open window, the first ones that fit are admitted. */
  lemma {:induction false} OpenWindowAdmits(w: Window, times: seq<int>, limit: int, i: nat)
    requires forall k :: 0 <= k < |times| ==> times[k] - w.start < WINDOW
    requires i < |times|
    ensures AppAnswers(Some(w), times, limit)[i] <==> i < Left(w.count, limit)
    decreases i
  {
    if i > 0 {
      OpenWindowAdmits(After(Some(w), times[0]), times[1..], limit, i - 1);
    }
  }

  /** A window opened by its first call admits exactly as many calls as the limit allows, the first ones. */
  lemma WindowAdmitsTheFirst(w: Option<Window>, times: seq<int>, limit: int, i: nat)
    requires i < |times|
    requires w.Some? ==> times[0] - w.value.start >= WINDOW
    requires forall k :: 0 <= k < |times| ==> times[k] - times[0] < WINDOW
    ensures AppAnswers(w, times, limit)[i] <==> i < Effective(limit)
  {
    if i > 0 {
      OpenWindowAdmits(Window(1, times[0]), times[1..], limit, i - 1);
    }
  }

  // ---- Any interval of one window's length ----------------------------------------

  /**
   * The clock is read before the mutex is taken, so a call can be served after one with a
   * later reading, by at most `lag`.
   */
  predicate NearOrder(times: seq<int>, lag: nat) { forall i, j :: 0 <= i < j < |times| ==> times[i] - lag <= times[j] }

  predicate NotBefore(times: seq<int>, bound: int) { forall i :: 0 <= i < |times| ==> bound <= times[i] }

  /** How many calls of the half-open interval [from, from + WINDOW) are answered with true. */
  function CountIn(times: seq<int>, answers: seq<bool>, from: int): nat
    requires |times| == |answers|
  {
    if times == [] then 0
    else (if answers[0] && from <= times[0] < from + WINDOW then 1 else 0) + CountIn(times[1..], answers[1..], from)
  }

  function Admitted(w: Option<Window>, times: seq<int>, limit: int, from: int): nat {
    CountIn(times, AppAnswers(w, times, limit), from)
  }

  lemma AdmittedStep(w: Option<Window>, times: seq<int>, limit: int, from: int)
    ensures Admitted(w, times, limit, from) ==
            if times == [] then 0
            else (if Allowed(w, limit, times[0]) && from <= times[0] < from + WINDOW then 1 else 0)
                 + Admitted(Some(After(w, times[0])), times[1..], limit, from)
  {
  }

  /** How many windows can open one after another within a gap. */
  function Openings(gap: int): nat {
    if gap <= 0 then 0 else 1 + Openings(gap - WINDOW)
  }

  lemma {:induction false} OpeningsGrow(a: int, b: int)
    requires a <= b
    ensures Openings(a) <= Openings(b)
    decreases b
  {
    if a > 0 {
      OpeningsGrow(a - WINDOW, b - WINDOW);
    }
  }

  /** What `n` windows admit that are opened too late for the interval, by calls served before ones that are in it. */
  function LateWindows(limit: int, n: nat): nat { (Effective(limit) - 1) * n }

  lemma LateWindowsGrow(limit: int, a: nat, b: nat)
    requires a <= b
    ensures LateWindows(limit, a) <= LateWindows(limit, b)
    ensures LateWindows(limit, a + 1) == LateWindows(limit, a) + Effective(limit) - 1
  {
    var l := Effective(limit) - 1;
    assert l * a <= l * b;
  }

  /** The bound: two windows and, if calls overtake each other by more than a tick, the late ones. */
  function Most(limit: int, lag: nat): (most: nat)
    ensures lag <= 1 ==> most == 2 * Effective(limit) - 1
    ensures 2 <= lag <= WINDOW + 1 ==> most == 3 * Effective(limit) - 2
  {
    assert 2 <= lag <= WINDOW + 1 ==> Openings(lag - 1) == 1 + Openings(lag - 1 - WINDOW) == 1;
    assert LateWindows(limit, 1) == Effective(limit) - 1;
    2 * Effective(limit) - 1 + LateWindows(limit, Openings(lag - 1))
  }

  /** What can still be admitted while `w` is open, by where it was opened. */
  function Room(w: Window, limit: int, from: int, lag: nat): nat {
    if w.start < from then
      Left(w.count, limit) + Effective(limit) + LateWindows(limit, Openings(from + lag - w.start - WINDOW))
    else if w.start < from + WINDOW then
      Left(w.count, limit) + LateWindows(limit, Openings(from + lag - w.start))
    else if w.start < from + WINDOW + lag then
      Left(w.count, limit) + LateWindows(limit, Openings(from + lag - w.start))
    else 0
  }

  lemma {:induction false} FromOpenWindow(w: Window, times: seq<int>, limit: int, from: int, lag: nat)
    requires NearOrder(times, lag) && NotBefore(times, w.start - lag) && w.start > from - WINDOW
    ensures Admitted(Some(w), times, limit, from) <= Room(w, limit, from, lag)
    decreases |times|
  {
    hide LateWindows, Admitted, Openings;
    AdmittedStep(Some(w), times, limit, from);
    if times != [] {
      FromOpenWindow(After(Some(w), times[0]), times[1..], limit, from, lag);
      if times[0] - w.start >= WINDOW {
        NextWindow(w, times[0], limit, from, lag);
      }
    }
  }

  lemma NextWindow(w: Window, t: int, limit: int, from: int, lag: nat)
    requires from < w.start + WINDOW <= t
    ensures (if t < from + WINDOW then 1 else 0) + Room(Window(1, t), limit, from, lag) <= Room(w, limit, from, lag)
  {
    hide LateWindows;
    var end := from + lag;
    var gap := end - w.start - (if w.start < from then WINDOW else 0);
    OpeningsGrow(end - t, gap);
    LateWindowsGrow(limit, Openings(end - t), Openings(gap));
    if from + WINDOW <= t < end + WINDOW && w.start >= from {
      OpeningsGrow(end - t, gap - WINDOW);
      LateWindowsGrow(limit, Openings(end - t) + 1, Openings(gap));
    }
  }

  /** From a window that has closed before the interval, or none. */
  lemma {:induction false} FromOldWindow(w: Option<Window>, times: seq<int>, limit: int, from: int, lag: nat)
    requires NearOrder(times, lag)
    requires w.Some? ==> w.value.start <= from - WINDOW
    ensures Admitted(w, times, limit, from) <= Most(limit, lag)
    decreases |times|
  {
    hide LateWindows, Admitted;
    AdmittedStep(w, times, limit, from);
    if times != [] {
      var next := After(w, times[0]);
      if next.start <= from - WINDOW {
        FromOldWindow(Some(next), times[1..], limit, from, lag);
      } else {
        FromOpenWindow(next, times[1..], limit, from, lag);
        FirstWindow(times[0], limit, from, lag);
      }
    }
  }

  lemma FirstWindow(t: int, limit: int, from: int, lag: nat)
    requires t > from - WINDOW
    ensures (if from <= t < from + WINDOW then 1 else 0) + Room(Window(1, t), limit, from, lag) <= Most(limit, lag)
  {
    hide LateWindows;
    var gap := from + lag - t - (if t < from then WINDOW else 0);
    if gap <= lag - 1 {
      OpeningsGrow(gap, lag - 1);
      LateWindowsGrow(limit, Openings(gap), Openings(lag - 1));
    } else {
      OpeningsGrow(gap - WINDOW, lag - 1);
      LateWindowsGrow(limit, Openings(gap - WINDOW), Openings(lag - 1));
    }
  }

  /**
   * The real bound, for calls that overtake each other by at most `lag`: what any half-open
   * interval of one window's length admits of an app, whatever other apps do.
   */
  lemma LaggingBound(calls: seq<Call>, limit: int, app: string, from: int, lag: nat)
    requires NearOrder(TimesOf(calls, app), lag)
    ensures CountIn(TimesOf(calls, app), AnswersTo(calls, Answers(map[], calls, limit), app), from) <= Most(limit, lag)
  {
    AppsAreIndependent(map[], calls, limit, app);
    FromOldWindow(None, TimesOf(calls, app), limit, from, lag);
  }

  /** For calls served in the order of their clock readings: at most twice the limit minus one. */
  lemma SlidingBound(calls: seq<Call>, limit: int, app: string, from: int)
    requires NearOrder(TimesOf(calls, app), 0)
    ensures CountIn(TimesOf(calls, app), AnswersTo(calls, Answers(map[], calls, limit), app), from)
            <= 2 * Effective(limit) - 1
  {
    LaggingBound(calls, limit, app, from, 0);
  }

  // ---- The bound is attained ----------------------------------------------------

  /** n calls at one time, then the rest. */
  function Burst(t: int, n: nat, rest: seq<int>): seq<int> {
    if n == 0 then rest else [t] + Burst(t, n - 1, rest)
  }

  /** A call that opens a window, then n calls at `t`. */
  function Opened(start: int, t: int, n: nat, rest: seq<int>): seq<int> { [start] + Burst(t, n, rest) }

  /** k windows in a row, each opened too late and followed by n calls of the last tick of the interval. */
  function Overtaken(start: int, last: int, n: nat, k: nat): seq<int>
    decreases k
  {
    if k == 0 then [] else Opened(start, last, n, Overtaken(start + WINDOW, last, n, k - 1))
  }

  /** A full window from before the interval, one inside, and as many late ones as the lag allows. */
  function Crowd(from: int, n: nat, lag: nat): seq<int> {
    Opened(from - WINDOW + 1, from, n,
           Opened(from + 1, from + 1, n, Overtaken(from + 1 + WINDOW, from + WINDOW - 1, n, Openings(lag - 1))))
  }

  lemma {:induction false} BurstNear(t: int, n: nat, rest: seq<int>, lag: nat, bound: int)
    requires NearOrder(rest, lag) && NotBefore(rest, bound) && t - lag <= bound <= t
    ensures NearOrder(Burst(t, n, rest), lag) && NotBefore(Burst(t, n, rest), bound)
  {
    if n > 0 {
      BurstNear(t, n - 1, rest, lag, bound);
    }
  }

  lemma {:induction false} OvertakenNear(start: int, last: int, n: nat, gap: int, lag: nat)
    requires last <= start && start + gap <= last + lag + 1
    ensures NearOrder(Overtaken(start, last, n, Openings(gap)), lag)
    ensures NotBefore(Overtaken(start, last, n, Openings(gap)), last)
    decreases gap
  {
    if gap > 0 {
      OvertakenNear(start + WINDOW, last, n, gap - WINDOW, lag);
      BurstNear(last, n, Overtaken(start + WINDOW, last, n, Openings(gap) - 1), lag, last);
    }
  }

  lemma CrowdNear(from: int, n: nat, lag: nat)
    ensures NearOrder(Crowd(from, n, lag), lag)
  {
    hide Overtaken;
    var late := Overtaken(from + 1 + WINDOW, from + WINDOW - 1, n, Openings(lag - 1));
    OvertakenNear(from + 1 + WINDOW, from + WINDOW - 1, n, lag - 1, lag);
    BurstNear(from + 1, n, late, lag, from + 1);
    BurstNear(from, n, Opened(from + 1, from + 1, n, late), lag, from);
  }

  /** A burst that fits into the open window is admitted. */
  lemma {:induction false} BurstAdmitted(w: Window, t: int, n: nat, rest: seq<int>, limit: int, from: int)
    requires t - w.start < WINDOW && from <= t < from + WINDOW && w.count + n <= Effective(limit)
    ensures Admitted(Some(w), Burst(t, n, rest), limit, from)
            == n + Admitted(Some(Window(w.count + n, w.start)), rest, limit, from)
    decreases n
  {
    if n > 0 {
      BurstAdmitted(Window(w.count + 1, w.start), t, n - 1, rest, limit, from);
    }
  }

  /** A window opened by a call and filled by n more. */
  lemma OpenedAdmitted(w: Option<Window>, start: int, t: int, n: nat, rest: seq<int>, limit: int, from: int)
    requires w.Some? ==> start - w.value.start >= WINDOW
    requires t - start < WINDOW && from <= t < from + WINDOW && n + 1 == Effective(limit)
    ensures Admitted(w, Opened(start, t, n, rest), limit, from)
            == (if from <= start < from + WINDOW then 1 else 0) + n + Admitted(Some(Window(n + 1, start)), rest, limit, from)
  {
    AdmittedStep(w, Opened(start, t, n, rest), limit, from);
    BurstAdmitted(Window(1, start), t, n, rest, limit, from);
  }

  lemma {:induction false} OvertakenAdmitted(w: Window, start: int, n: nat, k: nat, limit: int, from: int)
    requires start - w.start >= WINDOW && start >= from + WINDOW && n + 1 == Effective(limit)
    ensures Admitted(Some(w), Overtaken(start, from + WINDOW - 1, n, k), limit, from) == LateWindows(limit, k)
    decreases k
  {
    if k > 0 {
      OpenedAdmitted(Some(w), start, from + WINDOW - 1, n, Overtaken(start + WINDOW, from + WINDOW - 1, n, k - 1), limit, from);
      OvertakenAdmitted(Window(n + 1, start), start + WINDOW, n, k - 1, limit, from);
      LateWindowsGrow(limit, k - 1, k);
    }
  }

  /** For every limit, every lag and every interval the bound is reached. */
  lemma BoundIsAttained(limit: int, lag: nat, from: int) returns (times: seq<int>)
    ensures NearOrder(times, lag)
    ensures Admitted(None, times, limit, from) == Most(limit, lag)
  {
    hide Admitted, Overtaken, LateWindows;
    var n := Effective(limit) - 1;
    times := Crowd(from, n, lag);
    CrowdNear(from, n, lag);
    var late := Overtaken(from + 1 + WINDOW, from + WINDOW - 1, n, Openings(lag - 1));
    OpenedAdmitted(None, from - WINDOW + 1, from, n, Opened(from + 1, from + 1, n, late), limit, from);
    OpenedAdmitted(Some(Window(n + 1, from - WINDOW + 1)), from + 1, from + 1, n, late, limit, from);
    OvertakenAdmitted(Window(n + 1, from + 1), from + 1 + WINDOW, n, Openings(lag - 1), limit, from);
  }
}
