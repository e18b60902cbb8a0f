/** src/peer_watch.py: bounded recovery of listeners, persisted before every spawn. */
module Watch {
  import opened Common

  const BASE_DELAY: nat := 10
  const MAX_DELAY: nat := 300
  const MAX_ATTEMPTS: nat := 6
  const WINDOW: real := 3600.0
  const STABLE: real := 30.0

  datatype Result =
    | NoResult | Recovered | Signalled | Attempting | AttemptingEndpoint | Started | EndpointKept
    | Failed | Paused | Skipped

  /** The stored watch record of one bridge. */
  datatype State = State(windowStart: Option<real>, attempts: nat, nextAt: real, pausedUntil: Option<real>,
                         recoveredAt: Option<real>, lastAttempt: Option<real>, lastResult: Result)

  const FRESH := State(None, 0, 0.0, None, None, None, NoResult)

  function Power2(n: nat): nat {
    if n == 0 then 1 else 2 * Power2(n - 1)
  }

  /** `_backoff_delay` */
  function Backoff(attempts: nat): nat {
    Min(MAX_DELAY, BASE_DELAY * Power2(if attempts == 0 then 0 else attempts - 1))
  }

  /** `_watch_state`: the record as of now, with a fresh window if the stored one is over. It is
      stored only if something else is. */
  function Viewed(s: State, now: real): State {
    if s.windowStart.None? || now - s.windowStart.value >= WINDOW
    then s.(windowStart := Some(now), attempts := 0, pausedUntil := None) else s
  }

  function WindowEnd(s: State): real {
    if s.windowStart.Some? then s.windowStart.value + WINDOW else WINDOW
  }

  /** A stored number counts as false when it is zero. */
  predicate Set(t: Option<real>) {
    t.Some? && t.value != 0.0
  }

  predicate Exhausted(s: State) {
    s.attempts + 1 > MAX_ATTEMPTS && WindowEnd(s) != 0.0
  }

  /** How an attempt ends; a watchdog may crash before or after it spawns. */
  datatype Outcome = Succeeds | Fails | Crashes

  /** What one pass finds outside the record. */
  datatype Seen = Seen(live: bool, ownerLive: bool, replacement: bool, signalled: bool,
                       ownerStillLive: bool, outcome: Outcome)

  /** The record stored before an attempt. */
  function Persisted(s: State, now: real, r: Result): State {
    var k := s.attempts + 1;
    s.(attempts := k, nextAt := now + Backoff(k) as real, lastAttempt := Some(now), lastResult := r,
       pausedUntil := if k >= MAX_ATTEMPTS then Some(WindowEnd(s)) else None)
  }

  function Refused(s: State): State {
    s.(pausedUntil := Some(WindowEnd(s)), nextAt := WindowEnd(s), lastResult := Paused)
  }

  /** `_recover`: the stored record and whether an attempt was made. */
  function Recovery(s: State, seen: Seen, now: real): (State, bool) {
    if Exhausted(s) then (Refused(s), false)
    else if !seen.ownerStillLive then (s.(lastAttempt := Some(now), lastResult := Skipped), false)
    else
      var p := Persisted(s, now, Attempting);
      match seen.outcome
      case Crashes => (p, true)
      case Succeeds => (p.(lastResult := Started, recoveredAt := Some(now)), true)
      case Fails =>
        (p.(lastResult := Failed, nextAt := if p.attempts >= MAX_ATTEMPTS then WindowEnd(s) else p.nextAt), true)
  }

  /** `_keep_endpoint` */
  function Keeping(s: State, seen: Seen, now: real): (State, bool) {
    if Exhausted(s) then (Refused(s), false)
    else
      var p := Persisted(s, now, AttemptingEndpoint);
      match seen.outcome
      case Crashes => (p, true)
      case Succeeds => (p.(lastResult := EndpointKept, recoveredAt := Some(now)), true)
      case Fails => (p.(lastResult := Failed), true)
  }

  predicate Stable(s: State, now: real) {
    s.recoveredAt.None? || now - s.recoveredAt.value >= STABLE
  }

  predicate StableReset(s: State, seen: Seen, now: real) {
    && seen.live && !(seen.replacement && !seen.ownerLive)
    && Viewed(s, now).attempts > 0 && Stable(s, now) && s.lastResult != Recovered
  }

  /** What one pass writes to one bridge: nothing, or a record, with or without an attempt. */
  datatype Pass = Untouched | Wrote(state: State, attempted: bool)

  function Writing(r: (State, bool)): Pass {
    Wrote(r.0, r.1)
  }

  /** One pass over one supervised bridge. */
  function Passed(stored: State, seen: Seen, now: real): Pass {
    var s := Viewed(stored, now);
    var replacement := seen.replacement && !seen.ownerLive;
    if seen.live && replacement then
      if seen.signalled then Wrote(s.(lastResult := Signalled, lastAttempt := Some(now)), false) else Untouched
    else if seen.live then
      if StableReset(stored, seen, now)
      then Wrote(s.(attempts := 0, nextAt := 0.0, lastResult := Recovered, pausedUntil := None), false) else Untouched
    else if (Set(s.pausedUntil) && now < s.pausedUntil.value) || now < s.nextAt then Untouched
    else if replacement || seen.ownerLive then Writing(Recovery(s, seen, now))
    else Writing(Keeping(s, seen, now))
  }

  function After(stored: State, p: Pass): State {
    if p.Wrote? then p.state else stored
  }

  function RecordOf(states: map<string, State>, b: string): State {
    if b in states then states[b] else FRESH
  }

  /** One pass over all supervised bridges in order; a crash ends it. */
  function PassedAll(states: map<string, State>, bridges: seq<string>, seen: map<string, Seen>, now: real)
    : map<string, State>
    requires forall b :: b in bridges ==> b in seen
    decreases |bridges|
  {
    if bridges == [] then states
    else
      var b := bridges[0];
      var p := Passed(RecordOf(states, b), seen[b], now);
      var next := if p.Wrote? then states[b := p.state] else states;
      if p.Wrote? && p.attempted && seen[b].outcome.Crashes? then next else PassedAll(next, bridges[1..], seen, now)
  }

  /** The watchdog over the stored records of all bridges. */
  class Watchdog {
    var states: map<string, State>

    constructor ()
      ensures states == map[]
    {
      states := map[];
    }

    /** `_recover`; `crashed` says that the process ended inside the attempt. */
    method Recover(b: string, s: State, seen: Seen, now: real) returns (crashed: bool)
      modifies this
      ensures var (r, attempted) := Recovery(s, seen, now);
              states == old(states)[b := r] && crashed == (attempted && seen.outcome.Crashes?)
    {
      if s.attempts + 1 > MAX_ATTEMPTS && WindowEnd(s) != 0.0 {
        states := states[b := s.(pausedUntil := Some(WindowEnd(s)), nextAt := WindowEnd(s), lastResult := Paused)];
        return false;
      }
      if !seen.ownerStillLive {
        states := states[b := s.(lastAttempt := Some(now), lastResult := Skipped)];
        return false;
      }
      // The attempt is stored before anything is spawned.
      var k := s.attempts + 1;
      var p := s.(attempts := k, nextAt := now + Backoff(k) as real, lastAttempt := Some(now), lastResult := Attempting,
                  pausedUntil := if k >= MAX_ATTEMPTS then Some(WindowEnd(s)) else None);
      states := states[b := p];
      match seen.outcome {
        case Crashes => return true;
        case Succeeds => states := states[b := p.(lastResult := Started, recoveredAt := Some(now))];
        case Fails =>
          if k >= MAX_ATTEMPTS { p := p.(nextAt := WindowEnd(s)); }
          states := states[b := p.(lastResult := Failed)];
      }
      return false;
    }

    /** `_keep_endpoint` */
    method KeepEndpoint(b: string, s: State, seen: Seen, now: real) returns (crashed: bool)
      modifies this
      ensures var (r, attempted) := Keeping(s, seen, now);
              states == old(states)[b := r] && crashed == (attempted && seen.outcome.Crashes?)
    {
      if s.attempts + 1 > MAX_ATTEMPTS && WindowEnd(s) != 0.0 {
        states := states[b := s.(pausedUntil := Some(WindowEnd(s)), nextAt := WindowEnd(s), lastResult := Paused)];
        return false;
      }
      var k := s.attempts + 1;
      var p := s.(attempts := k, nextAt := now + Backoff(k) as real, lastAttempt := Some(now),
                  lastResult := AttemptingEndpoint,
                  pausedUntil := if k >= MAX_ATTEMPTS then Some(WindowEnd(s)) else None);
      states := states[b := p];
      match seen.outcome {
        case Crashes => return true;
        case Succeeds => states := states[b := p.(lastResult := EndpointKept, recoveredAt := Some(now))];
        case Fails => states := states[b := p.(lastResult := Failed)];
      }
      return false;
    }

    /** `tick` */
    method Tick(bridges: seq<string>, seen: map<string, Seen>, now: real)
      requires forall b :: b in bridges ==> b in seen
      modifies this
      ensures states == PassedAll(old(states), bridges, seen, now)
    {
      for i := 0 to |bridges|
        invariant PassedAll(old(states), bridges, seen, now) == PassedAll(states, bridges[i..], seen, now)
      {
        var b := bridges[i];
        assert bridges[i..][1..] == bridges[i + 1..];
        var s := Viewed(RecordOf(states, b), now);
        var replacement := seen[b].replacement && !seen[b].ownerLive;
        if seen[b].live && replacement {
          if seen[b].signalled {
            states := states[b := s.(lastResult := Signalled, lastAttempt := Some(now))];
          }
          continue;
        }
        if seen[b].live {
          if s.attempts > 0 && Stable(s, now) && s.lastResult != Recovered {
            states := states[b := s.(attempts := 0, nextAt := 0.0, lastResult := Recovered, pausedUntil := None)];
          }
          continue;
        }
        if Set(s.pausedUntil) && now < s.pausedUntil.value { continue; }
        if now < s.nextAt { continue; }
        var crashed;
        if replacement || seen[b].ownerLive {
          crashed := Recover(b, s, seen[b], now);
        } else {
          crashed := KeepEndpoint(b, s, seen[b], now);
        }
        if crashed { return; }
      }
    }
  }

  // ---- runs of one bridge --------------------------------------------------------------

  /** The last attempt since the last stable reset: when, the how-manieth, in which window. */
  datatype Attempt = Attempt(at: real, k: nat, windowStart: real)

  datatype History = History(attempts: nat, rolls: nat, resets: nat, firstWindow: real, last: Option<Attempt>)

  datatype World = World(s: State, h: History, clock: real)

  datatype Event = Event(seen: Seen, now: real)

  const NO_HISTORY := History(0, 0, 0, 0.0, None)

  /** One pass and what it adds to the history; `rolls` counts the windows ever stored. */
  function Next(w: World, e: Event): World {
    var p := Passed(w.s, e.seen, e.now);
    if p.Untouched? then w.(clock := e.now)
    else
      var rolled := p.state.windowStart != w.s.windowStart;
      var h := w.h.(rolls := w.h.rolls + (if rolled then 1 else 0),
                    firstWindow := if w.h.rolls == 0 && rolled then e.now else w.h.firstWindow);
      var h' :=
        if p.attempted
        then h.(attempts := h.attempts + 1,
                last := Some(Attempt(e.now, p.state.attempts, WindowEnd(p.state) - WINDOW)))
        else if StableReset(w.s, e.seen, e.now) then h.(resets := h.resets + 1, last := None)
        else h;
      World(p.state, h', e.now)
  }

  /** The time of the last event of a run that began at `clock`. */
  function EndOf(clock: real, run: seq<Event>): real {
    if run == [] then clock else run[|run| - 1].now
  }

  /** Time never runs back. */
  predicate Timely(clock: real, run: seq<Event>) {
    run == [] || (Timely(clock, run[..|run| - 1]) && EndOf(clock, run[..|run| - 1]) <= run[|run| - 1].now)
  }

  function Run(w: World, run: seq<Event>): World {
    if run == [] then w else Next(Run(w, run[..|run| - 1]), run[|run| - 1])
  }

  /** What every pass keeps. */
  predicate Counted(w: World) {
    && w.clock >= 0.0
    && w.s.attempts <= MAX_ATTEMPTS
    && w.s.pausedUntil == (if w.s.attempts == MAX_ATTEMPTS then Some(WindowEnd(w.s)) else None)
    && (w.s.windowStart.None? <==> w.h.rolls == 0)
    && (w.s.windowStart.None? ==> w.s.attempts == 0 && w.h.attempts == 0 && w.h.resets == 0)
    && (w.s.windowStart.Some? ==>
          && 0.0 <= w.h.firstWindow <= w.s.windowStart.value <= w.clock
          && w.s.windowStart.value >= w.h.firstWindow + WINDOW * (w.h.rolls - 1) as real
          && w.h.attempts <= MAX_ATTEMPTS * (w.h.rolls - 1 + w.h.resets) + w.s.attempts)
  }

  /** What the last attempt since the last reset still demands. */
  predicate Spaced(w: World) {
    w.h.last.Some? ==>
      var a := w.h.last.value;
      && 1 <= a.k <= MAX_ATTEMPTS
      && (a.k < MAX_ATTEMPTS ==> w.s.nextAt >= a.at + Backoff(a.k) as real)
      && (a.k == MAX_ATTEMPTS ==>
            || w.clock >= a.windowStart + WINDOW
            || (w.s.windowStart == Some(a.windowStart) && w.s.attempts == MAX_ATTEMPTS))
  }

  lemma CountedNext(w: World, e: Event)
    requires Counted(w) && e.now >= w.clock
    ensures Counted(Next(w, e))
  {
    hide Backoff;
  }

  lemma SpacedNext(w: World, e: Event)
    requires Counted(w) && Spaced(w) && e.now >= w.clock
    ensures Spaced(Next(w, e))
    ensures Next(w, e).h.attempts > w.h.attempts && w.h.last.Some? ==>
              e.now >= EarliestNext(w.h.last.value)
  {
    hide Backoff;
  }

  /** When the next attempt may come at the earliest. */
  function EarliestNext(a: Attempt): real {
    if a.k < MAX_ATTEMPTS then a.at + Backoff(a.k) as real else a.windowStart + WINDOW
  }

  lemma {:induction false} RunKeeps(w: World, run: seq<Event>)
    requires Counted(w) && Spaced(w) && Timely(w.clock, run)
    ensures Counted(Run(w, run)) && Spaced(Run(w, run))
    ensures Run(w, run).clock == EndOf(w.clock, run)
  {
    hide Counted, Spaced, Passed;
    if run != [] {
      var m := |run| - 1;
      RunKeeps(w, run[..m]);
      var u := Run(w, run[..m]);
      CountedNext(u, run[m]);
      SpacedNext(u, run[m]);
    }
  }

  function Start(t: real): World {
    World(FRESH, NO_HISTORY, t)
  }

  lemma StartKeeps(t: real)
    requires t >= 0.0
    ensures Counted(Start(t)) && Spaced(Start(t))
  {
  }

  /** From a fresh bridge, attempts never outnumber six for each stored window and each stable
      reset, wherever the watchdog crashes between storing and spawning. */
  lemma AttemptsAreBounded(t: real, run: seq<Event>)
    requires t >= 0.0 && Timely(t, run)
    ensures var u := Run(Start(t), run);
            u.h.attempts <= MAX_ATTEMPTS * (u.h.rolls + u.h.resets)
  {
    StartKeeps(t);
    RunKeeps(Start(t), run);
  }

  /** As many whole windows as fit into a duration. */
  lemma WholeWindows(n: nat, duration: real)
    requires n as real * WINDOW <= duration
    ensures n <= (duration / WINDOW).Floor
  {
    assert n as real <= duration / WINDOW;
  }

  /** The windows of a run without a stable reset, against the time they need. */
  lemma WindowsNeedTime(u: World, t: real, duration: real)
    requires Counted(u) && u.h.rolls > 0 && u.h.firstWindow >= t && u.clock <= t + duration && u.h.resets == 0
    ensures (u.h.rolls - 1) as real * WINDOW <= duration
    ensures u.h.attempts <= MAX_ATTEMPTS * u.h.rolls
  {
  }

  /** Without a stable reset there are at most six attempts for every begun hour. */
  lemma AttemptsPerHour(t: real, run: seq<Event>, duration: real)
    requires t >= 0.0 && duration >= 0.0 && Timely(t, run)
    requires EndOf(t, run) <= t + duration
    requires Run(Start(t), run).h.resets == 0
    ensures Run(Start(t), run).h.attempts <= MAX_ATTEMPTS * ((duration / WINDOW).Floor + 1)
  {
    StartKeeps(t);
    RunKeeps(Start(t), run);
    WindowsStartAfter(t, run);
    hide Run, Timely, EndOf, Spaced;
    var u := Run(Start(t), run);
    if u.h.rolls > 0 {
      WindowsNeedTime(u, t, duration);
      WholeWindows(u.h.rolls - 1, duration);
    } else {
      WholeWindows(0, duration);
      assert u.h.attempts == 0;
    }
  }

  /** The first window starts no earlier than the run. */
  lemma {:induction false} WindowsStartAfter(t: real, run: seq<Event>)
    requires t >= 0.0 && Timely(t, run)
    ensures Run(Start(t), run).h.rolls > 0 ==> Run(Start(t), run).h.firstWindow >= t
    ensures Run(Start(t), run).clock >= t
  {
    hide Passed;
    if run != [] {
      var m := |run| - 1;
      WindowsStartAfter(t, run[..m]);
      StartKeeps(t);
      RunKeeps(Start(t), run[..m]);
    }
  }

  /** Attempts keep their distance: after the k-th of a window none comes before its backoff is
      over, also across windows, and after the sixth none before the window ends, whether attempts
      succeed, fail or crash. */
  lemma AttemptsAreSpaced(t: real, run: seq<Event>, e: Event)
    requires t >= 0.0 && Timely(t, run + [e])
    requires Run(Start(t), run + [e]).h.attempts > Run(Start(t), run).h.attempts
    ensures Run(Start(t), run).h.last.Some? ==> e.now >= EarliestNext(Run(Start(t), run).h.last.value)
  {
    hide Counted, Spaced, Passed;
    var all := run + [e];
    assert all[..|all| - 1] == run;
    StartKeeps(t);
    RunKeeps(Start(t), run);
    SpacedNext(Run(Start(t), run), e);
  }

  /** In any reachable record the pause is stored together with the sixth attempt, so the branch
      that would store it later is never taken. */
  lemma PauseIsStoredWithTheSixth(w: World, e: Event)
    requires Counted(w) && e.now >= w.clock
    ensures Passed(w.s, e.seen, e.now).Wrote? ==> Passed(w.s, e.seen, e.now).state.lastResult != Paused
  {
    hide Backoff;
  }

  // ---- many bridges ----------------------------------------------------------------------------

  predicate NoRepeats(bridges: seq<string>) {
    forall i, j | 0 <= i < j < |bridges| :: bridges[i] != bridges[j]
  }

  /** One pass over all bridges is one pass over each, in which the others play no part; a bridge is
      left out only if the watchdog dies before it gets there. */
  lemma {:induction false} BridgesAreIndependent(states: map<string, State>, bridges: seq<string>,
                                                 seen: map<string, Seen>, now: real, b: string)
    requires NoRepeats(bridges) && forall x :: x in bridges ==> x in seen
    ensures var before, after := RecordOf(states, b), RecordOf(PassedAll(states, bridges, seen, now), b);
            && (b !in bridges ==> after == before)
            && (b in bridges ==> after == before || after == After(before, Passed(before, seen[b], now)))
            && (b in bridges && (forall x | x in bridges :: !seen[x].outcome.Crashes?) ==>
                  after == After(before, Passed(before, seen[b], now)))
    decreases |bridges|
  {
    hide Passed;
    if bridges != [] {
      var x := bridges[0];
      var p := Passed(RecordOf(states, x), seen[x], now);
      var next := if p.Wrote? then states[x := p.state] else states;
      assert bridges == [x] + bridges[1..];
      assert b in bridges <==> b == x || b in bridges[1..];
      assert x !in bridges[1..];
      BridgesAreIndependent(next, bridges[1..], seen, now, b);
    }
  }
}
