/** The fixed-window rate limiter. */
module RateLimiter {
  import opened Common

  datatype Window = Window(start: Timestamp, count: nat)

  datatype Settings = Settings(max: nat, window: Timestamp)

  /** A maximum of zero still lets the first event of a window through. */
  function Most(cfg: Settings): nat { if cfg.max == 0 then 1 else cfg.max }

  /** One event at time `now`: the window afterwards, and whether the event is allowed. */
  function Decide(cfg: Settings, w: Window, now: Timestamp): (Window, bool) {
    if w.count == 0 || now - w.start >= cfg.window then (Window(now, 1), true)
    else if w.count >= cfg.max then (w, false)
    else (Window(w.start, w.count + 1), true)
  }

  const FRESH: Window := Window(0, 0)

  function WindowOf(m: map<string, Window>, key: string): Window { if key in m then m[key] else FRESH }

  class Limiter {
    const cfg: Settings
    var byKey: map<string, Window>

    constructor (cfg: Settings)
      ensures this.cfg == cfg && byKey == map[]
    {
      this.cfg, byKey := cfg, map[];
    }

    method Allow(key: string, now: Timestamp) returns (allowed: bool)
      modifies this
      ensures var (w, ok) := Decide(cfg, WindowOf(old(byKey), key), now);
              byKey == old(byKey)[key := w] && allowed == ok
    {
      var w := if key in byKey then byKey[key] else FRESH;
      if w.count == 0 {
        byKey := byKey[key := Window(now, 1)];
        return true;
      }
      if now - w.start >= cfg.window {
        byKey := byKey[key := Window(now, 1)];
        return true;
      }
      if w.count >= cfg.max {
        byKey := byKey[key := w];
        return false;
      }
      byKey := byKey[key := w.(count := w.count + 1)];
      allowed := true;
    }
  }

  // ---- Runs -----------------------------------------------------------------------------------

  datatype Event = Event(key: string, now: Timestamp)

  function State(cfg: Settings, events: seq<Event>): map<string, Window> {
    if events == [] then map[]
    else
      var before, e := State(cfg, events[..|events| - 1]), events[|events| - 1];
      before[e.key := Decide(cfg, WindowOf(before, e.key), e.now).0]
  }

  /** The times at which events of one key were allowed. */
  function Allowed(cfg: Settings, events: seq<Event>, key: string): seq<Timestamp> {
    if events == [] then []
    else
      var front, e := events[..|events| - 1], events[|events| - 1];
      var before := Allowed(cfg, front, key);
      if e.key == key && Decide(cfg, WindowOf(State(cfg, front), key), e.now).1 then before + [e.now] else before
  }

  /** One key alone: its window, and the times allowed so far. */
  datatype Solo = Solo(w: Window, done: seq<Timestamp>)

  function Next(cfg: Settings, s: Solo, now: Timestamp): Solo {
    var (w, ok) := Decide(cfg, s.w, now);
    Solo(w, if ok then s.done + [now] else s.done)
  }

  function Alone(cfg: Settings, times: seq<Timestamp>): Solo {
    if times == [] then Solo(FRESH, []) else Next(cfg, Alone(cfg, times[..|times| - 1]), times[|times| - 1])
  }

  lemma AloneMore(cfg: Settings, times: seq<Timestamp>, now: Timestamp)
    ensures Alone(cfg, times + [now]) == Next(cfg, Alone(cfg, times), now)
  {}

  function TimesOf(events: seq<Event>, key: string): seq<Timestamp> {
    if events == [] then []
    else
      var before, e := TimesOf(events[..|events| - 1], key), events[|events| - 1];
      if e.key == key then before + [e.now] else before
  }

  /** One key's decisions depend only on that key's events. */
  lemma {:induction false} KeysIndependent(cfg: Settings, events: seq<Event>, key: string)
    ensures Alone(cfg, TimesOf(events, key)) == Solo(WindowOf(State(cfg, events), key), Allowed(cfg, events, key))
  {
    if events != [] {
      var front, e := events[..|events| - 1], events[|events| - 1];
      KeysIndependent(cfg, front, key);
      if e.key == key {
        AloneMore(cfg, TimesOf(front, key), e.now);
      }
    }
  }

  // ---- The bound ------------------------------------------------------------------------------

  ghost predicate Rising(a: seq<Timestamp>) { forall i, j :: 0 <= i < j < |a| ==> a[i] <= a[j] }

  /** Allowed events 2m - 1 or more apart in number are a window or more apart in time. */
  ghost predicate Spread(a: seq<Timestamp>, m: nat, window: Timestamp)
    requires m >= 1
  {
    forall i, j :: 0 <= i && i + 2 * m - 1 <= j < |a| ==> a[i] + window <= a[j]
  }

  /** The current window begins with allowed event number p, and the events m or more before it are over. */
  ghost predicate Current(w: Window, a: seq<Timestamp>, m: nat, window: Timestamp) {
    if a == [] then w == FRESH
    else
      && 1 <= w.count <= m && w.count <= |a|
      && a[|a| - w.count] == w.start
      && (forall i :: |a| - w.count <= i < |a| ==> a[i] < w.start + window)
      && forall i :: 0 <= i <= |a| - w.count - m ==> a[i] + window <= w.start
  }

  lemma OpenKeeps(w: Window, a: seq<Timestamp>, m: nat, window: Timestamp, now: Timestamp)
    requires m >= 1 && window > 0 && Rising(a) && Spread(a, m, window) && Current(w, a, m, window)
    requires a != [] ==> a[|a| - 1] <= now && now - w.start >= window
    ensures Spread(a + [now], m, window) && Current(Window(now, 1), a + [now], m, window)
  {}

  ghost predicate Ok(cfg: Settings, s: Solo) {
    Rising(s.done) && Spread(s.done, Most(cfg), cfg.window) && Current(s.w, s.done, Most(cfg), cfg.window)
  }

  lemma RisingMore(a: seq<Timestamp>, now: Timestamp)
    requires Rising(a) && (a != [] ==> a[|a| - 1] <= now)
    ensures Rising(a + [now])
  {}

  lemma OpenOk(cfg: Settings, s: Solo, now: Timestamp)
    requires cfg.window > 0 && Ok(cfg, s) && (s.done != [] ==> s.done[|s.done| - 1] <= now)
    requires s.w.count == 0 || now - s.w.start >= cfg.window
    ensures Ok(cfg, Solo(Window(now, 1), s.done + [now]))
  {
    RisingMore(s.done, now);
    OpenKeeps(s.w, s.done, Most(cfg), cfg.window, now);
  }

  lemma ContinueOk(cfg: Settings, s: Solo, now: Timestamp)
    requires Ok(cfg, s) && s.done != [] && s.done[|s.done| - 1] <= now < s.w.start + cfg.window && s.w.count < cfg.max
    ensures Ok(cfg, Solo(Window(s.w.start, s.w.count + 1), s.done + [now]))
  {}

  lemma NextKeeps(cfg: Settings, s: Solo, now: Timestamp)
    requires cfg.window > 0 && Ok(cfg, s) && (s.done != [] ==> s.done[|s.done| - 1] <= now)
    ensures Ok(cfg, Next(cfg, s, now))
  {
    if s.w.count == 0 || now - s.w.start >= cfg.window {
      OpenOk(cfg, s, now);
    } else if s.w.count < cfg.max {
      ContinueOk(cfg, s, now);
    }
  }

  lemma {:induction false} AloneKeeps(cfg: Settings, times: seq<Timestamp>)
    requires cfg.window > 0 && Rising(times)
    ensures Ok(cfg, Alone(cfg, times))
    ensures var a := Alone(cfg, times).done; a != [] ==> times != [] && a[|a| - 1] <= times[|times| - 1]
  {
    if times != [] {
      var front := times[..|times| - 1];
      AloneKeeps(cfg, front);
      NextKeeps(cfg, Alone(cfg, front), times[|times| - 1]);
    }
  }

  /** How many of the times lie in [from, from + window). */
  function Within(a: seq<Timestamp>, from: Timestamp, window: Timestamp): nat {
    if a == [] then 0 else Within(a[..|a| - 1], from, window) + if from <= a[|a| - 1] < from + window then 1 else 0
  }

  lemma {:induction false} WithinSome(a: seq<Timestamp>, from: Timestamp, window: Timestamp, k: nat)
    requires k <= |a| && forall i :: 0 <= i < k ==> a[i] < from
    ensures Within(a, from, window) <= |a| - k
  {
    if |a| > 0 { WithinSome(a[..|a| - 1], from, window, if k == |a| then k - 1 else k); }
  }

  lemma {:induction false} SpreadWithin(a: seq<Timestamp>, m: nat, from: Timestamp, window: Timestamp)
    requires m >= 1 && Spread(a, m, window)
    ensures Within(a, from, window) <= 2 * m - 1
  {
    if a != [] {
      var last := a[|a| - 1];
      if from <= last < from + window {
        WithinSome(a, from, window, if |a| >= 2 * m then |a| - 2 * m + 1 else 0);
      } else {
        SpreadWithin(a[..|a| - 1], m, from, window);
      }
    }
  }

  ghost predicate InTimeOrder(events: seq<Event>) {
    forall i, j :: 0 <= i < j < |events| ==> events[i].now <= events[j].now
  }

  lemma {:induction false} TimesRise(events: seq<Event>, key: string)
    requires InTimeOrder(events)
    ensures Rising(TimesOf(events, key))
    ensures forall t :: t in TimesOf(events, key) ==> events != [] && t <= events[|events| - 1].now
  {
    if events != [] {
      var front := events[..|events| - 1];
      TimesRise(front, key);
      var before := TimesOf(front, key);
      assert forall i :: 0 <= i < |before| ==> before[i] in before;
    }
  }

  /** Any half-open interval one window long holds at most 2 * max - 1 allowed events of a key. */
  lemma AtMostTwice(cfg: Settings, events: seq<Event>, key: string, from: Timestamp)
    requires cfg.window > 0 && InTimeOrder(events)
    ensures Within(Allowed(cfg, events, key), from, cfg.window) <= 2 * Most(cfg) - 1
  {
    TimesRise(events, key);
    KeysIndependent(cfg, events, key);
    AloneKeeps(cfg, TimesOf(events, key));
    SpreadWithin(Allowed(cfg, events, key), Most(cfg), from, cfg.window);
  }

  lemma RefusalMeans(cfg: Settings, s: Solo, now: Timestamp)
    requires Ok(cfg, s) && (s.done != [] ==> s.done[|s.done| - 1] <= now) && !Decide(cfg, s.w, now).1
    ensures var a := s.done;
            Most(cfg) <= |a| && forall i :: |a| - Most(cfg) <= i < |a| ==> now - cfg.window < a[i] <= now
  {}

  /** A refusal at time t means that the maximum was used up in (t - window, t]. */
  lemma RefusedWhenFull(cfg: Settings, events: seq<Event>, key: string, now: Timestamp)
    requires cfg.window > 0 && InTimeOrder(events) && (events != [] ==> events[|events| - 1].now <= now)
    requires !Decide(cfg, WindowOf(State(cfg, events), key), now).1
    ensures var a := Allowed(cfg, events, key);
            Most(cfg) <= |a| && forall i :: |a| - Most(cfg) <= i < |a| ==> now - cfg.window < a[i] <= now
  {
    TimesRise(events, key);
    KeysIndependent(cfg, events, key);
    var times := TimesOf(events, key);
    AloneKeeps(cfg, times);
    assert times != [] ==> times[|times| - 1] in times;
    RefusalMeans(cfg, Alone(cfg, times), now);
  }

  // ---- The bound is reached -------------------------------------------------------------------

  function Repeat(t: Timestamp, n: nat): seq<Timestamp> { seq(n, i => t) }

  lemma RepeatMore(a: seq<Timestamp>, t: Timestamp, n: nat)
    ensures a + Repeat(t, n + 1) == (a + Repeat(t, n)) + [t]
  {}

  /** `n` events at one time inside a window with room for them are all allowed. */
  lemma {:induction false} BurstAllowed(cfg: Settings, times: seq<Timestamp>, t: Timestamp, n: nat)
    requires var w := Alone(cfg, times).w; w.count >= 1 && t - w.start < cfg.window && w.count + n <= cfg.max
    ensures var s := Alone(cfg, times);
            Alone(cfg, times + Repeat(t, n)) == Solo(Window(s.w.start, s.w.count + n), s.done + Repeat(t, n))
    decreases n
  {
    var s := Alone(cfg, times);
    if n == 0 {
      assert times + Repeat(t, 0) == times && s.done + Repeat(t, 0) == s.done;
    } else {
      BurstAllowed(cfg, times, t, n - 1);
      AloneMore(cfg, times + Repeat(t, n - 1), t);
      RepeatMore(times, t, n - 1);
      RepeatMore(s.done, t, n - 1);
    }
  }

  /** One event, the rest of its window just before the end, then a full window. */
  function Bursts(cfg: Settings): seq<Timestamp>
    requires cfg.max >= 1
  {
    [0] + Repeat(cfg.window - 1, cfg.max - 1) + [cfg.window] + Repeat(cfg.window, cfg.max - 1)
  }

  lemma FirstEvent(cfg: Settings)
    ensures Alone(cfg, [0]) == Solo(Window(0, 1), [0])
  {}

  lemma FirstBurst(cfg: Settings)
    requires cfg.max >= 1 && cfg.window >= 1
    ensures var first := [0] + Repeat(cfg.window - 1, cfg.max - 1);
            Alone(cfg, first) == Solo(Window(0, cfg.max), first)
  {
    FirstEvent(cfg);
    BurstAllowed(cfg, [0], cfg.window - 1, cfg.max - 1);
  }

  lemma NextWindow(cfg: Settings)
    requires cfg.max >= 1 && cfg.window >= 1
    ensures var second := [0] + Repeat(cfg.window - 1, cfg.max - 1) + [cfg.window];
            Alone(cfg, second) == Solo(Window(cfg.window, 1), second)
  {
    FirstBurst(cfg);
    AloneMore(cfg, [0] + Repeat(cfg.window - 1, cfg.max - 1), cfg.window);
  }

  lemma BurstsAllowed(cfg: Settings)
    requires cfg.max >= 1 && cfg.window >= 1
    ensures Alone(cfg, Bursts(cfg)).done == Bursts(cfg)
  {
    NextWindow(cfg);
    BurstAllowed(cfg, [0] + Repeat(cfg.window - 1, cfg.max - 1) + [cfg.window], cfg.window, cfg.max - 1);
  }

  /** All of them are allowed, and all but the first, 2 * max - 1 of them, lie within one window's length. */
  lemma TwiceReached(cfg: Settings)
    requires cfg.max >= 1 && cfg.window >= 2
    ensures Alone(cfg, Bursts(cfg)).done == Bursts(cfg)
    ensures |Bursts(cfg)| == 2 * cfg.max
    ensures forall i :: 1 <= i < |Bursts(cfg)| ==> cfg.window - 1 <= Bursts(cfg)[i] < (cfg.window - 1) + cfg.window
  {
    BurstsAllowed(cfg);
  }
}
