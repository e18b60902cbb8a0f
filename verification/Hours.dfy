/** src/peer_watch.py: how many attempts any hour sees, whether or not a window ends in it. */
module Hours {
  import opened Common
  import opened Watch

  predicate Rolls(w: World, e: Event) {
    Next(w, e).h.rolls > w.h.rolls
  }

  /** The attempts forgotten by the windows that rolled during a run. */
  function Forgotten(w: World, run: seq<Event>): nat {
    if run == [] then 0
    else
      var m := |run| - 1;
      Forgotten(w, run[..m]) + (if Rolls(Run(w, run[..m]), run[m]) then Run(w, run[..m]).s.attempts else 0)
  }

  lemma BalanceNext(w: World, e: Event)
    requires Counted(w) && e.now >= w.clock
    ensures Next(w, e).h.resets >= w.h.resets
    ensures Next(w, e).h.resets == w.h.resets ==>
              Next(w, e).h.attempts + w.s.attempts
              == w.h.attempts + Next(w, e).s.attempts + (if Rolls(w, e) then w.s.attempts else 0)
    ensures w.h.rolls <= Next(w, e).h.rolls <= w.h.rolls + 1
    ensures Rolls(w, e) ==> Next(w, e).s.windowStart == Some(e.now)
                            && (w.s.windowStart.Some? ==> e.now >= w.s.windowStart.value + WINDOW)
    ensures !Rolls(w, e) ==> Next(w, e).s.windowStart == w.s.windowStart
  {
    hide Backoff;
  }

  /** Attempts are conserved: those made since `w` are those now on record, with those forgotten by
      rolling windows, less those that were on record before. */
  lemma {:induction false} AttemptsBalance(w: World, run: seq<Event>)
    requires Counted(w) && Spaced(w) && Timely(w.clock, run)
    ensures Run(w, run).h.resets >= w.h.resets
    ensures Run(w, run).h.resets == w.h.resets ==>
              Run(w, run).h.attempts - w.h.attempts == Run(w, run).s.attempts + Forgotten(w, run) - w.s.attempts
  {
    hide Counted, Spaced, Next, Rolls;
    if run != [] {
      var m := |run| - 1;
      AttemptsBalance(w, run[..m]);
      RunKeeps(w, run[..m]);
      BalanceNext(Run(w, run[..m]), run[m]);
    }
  }

  /** Less than an hour sees at most one window roll. */
  lemma {:induction false} OneRollAnHour(w: World, run: seq<Event>)
    requires Counted(w) && Spaced(w) && Timely(w.clock, run) && EndOf(w.clock, run) < w.clock + WINDOW
    ensures EndOf(w.clock, run) >= w.clock
    ensures w.h.rolls <= Run(w, run).h.rolls <= w.h.rolls + 1
    ensures Run(w, run).h.rolls > w.h.rolls ==>
              Run(w, run).s.windowStart.Some? && Run(w, run).s.windowStart.value >= w.clock
    ensures Forgotten(w, run) <= MAX_ATTEMPTS * (Run(w, run).h.rolls - w.h.rolls)
  {
    if run != [] {
      var m := |run| - 1;
      OneRollAnHour(w, run[..m]);
      RunKeeps(w, run[..m]);
      var u := Run(w, run[..m]);
      BalanceNext(u, run[m]);
      assert u.s.attempts <= MAX_ATTEMPTS;
      hide Counted, Spaced, Next;
    }
  }

  /** In any stretch of less than an hour without a stable reset there are at most twelve attempts,
      and no more than the record still allows as long as no window rolls in it, in particular if
      the stretch ends before the stored window does. */
  lemma AttemptsInAnyHour(w: World, run: seq<Event>)
    requires Counted(w) && Spaced(w) && Timely(w.clock, run) && EndOf(w.clock, run) < w.clock + WINDOW
    requires Run(w, run).h.resets == w.h.resets
    ensures Run(w, run).h.attempts - w.h.attempts <= 2 * MAX_ATTEMPTS
    ensures Run(w, run).h.rolls == w.h.rolls ==> Run(w, run).h.attempts - w.h.attempts <= MAX_ATTEMPTS - w.s.attempts
    ensures w.s.windowStart.Some? && EndOf(w.clock, run) < WindowEnd(w.s) ==>
              Run(w, run).h.attempts - w.h.attempts <= MAX_ATTEMPTS - w.s.attempts
  {
    AttemptsBalance(w, run);
    OneRollAnHour(w, run);
    RunKeeps(w, run);
    NoRollBeforeItsTime(w, run);
    hide Run, Forgotten, Timely, Spaced;
  }

  lemma {:induction false} NoRollBeforeItsTime(w: World, run: seq<Event>)
    requires Counted(w) && Spaced(w) && Timely(w.clock, run)
    ensures w.s.windowStart.Some? && EndOf(w.clock, run) < WindowEnd(w.s) ==>
              Run(w, run).h.rolls == w.h.rolls && Run(w, run).s.windowStart == w.s.windowStart
  {
    if run != [] {
      var m := |run| - 1;
      NoRollBeforeItsTime(w, run[..m]);
      RunKeeps(w, run[..m]);
      BalanceNext(Run(w, run[..m]), run[m]);
      hide Counted, Spaced, Next;
    }
  }

  /** A pass at which the listener is gone, its owner lives, and the watchdog dies in the attempt. */
  function CrashAt(now: real): Event {
    Event(Seen(false, true, false, false, true, Crashes), now)
  }

  /** The record and the count after such a pass, when nothing forbids it. */
  lemma CrashCounts(w: World, now: real, start: real, k: nat)
    requires Viewed(w.s, now).windowStart == Some(start) && Viewed(w.s, now).attempts + 1 == k < MAX_ATTEMPTS
    requires Viewed(w.s, now).pausedUntil.None? && now >= w.s.nextAt
    ensures var u := Next(w, CrashAt(now));
            && u.s.windowStart == Some(start) && u.s.attempts == k && u.s.nextAt == now + Backoff(k) as real
            && u.s.pausedUntil.None? && u.h.attempts == w.h.attempts + 1 && u.h.resets == w.h.resets
  {
    hide Backoff;
  }

  lemma RunMore(w: World, run: seq<Event>, e: Event)
    ensures Run(w, run + [e]) == Next(Run(w, run), e)
    ensures EndOf(w.clock, run + [e]) == e.now
    ensures Timely(w.clock, run) && EndOf(w.clock, run) <= e.now ==> Timely(w.clock, run + [e])
  {
    assert (run + [e])[..|run|] == run;
  }

  lemma Backoffs()
    ensures Backoff(1) == 10 && Backoff(2) == 20 && Backoff(3) == 40 && Backoff(4) == 80 && Backoff(5) == 160
  {
    assert Power2(4) == 2 * Power2(3) == 4 * Power2(2) == 16;
  }

  /** Windows are fixed, not rolling: this bridge, fresh at time 0, is tried seven times within six
      minutes, four times at the end of one window and three at the start of the next. */
  lemma SevenInSixMinutes() returns (first: Event, rest: seq<Event>)
    ensures var begun := Run(Start(0.0), [first]);
            && Timely(0.0, [first] + rest) && |rest| == 7 && rest[6].now <= rest[0].now + 360.0
            && Run(Start(0.0), [first] + rest).h.resets == 0
            && Run(Start(0.0), [first] + rest).h.attempts == begun.h.attempts + 7
  {
    hide Next, Timely, EndOf, Run, Backoff;
    Backoffs();
    var w := Start(0.0);
    first, rest := CrashAt(0.0), [];
    CrashCounts(w, 0.0, 0.0, 1);
    RunNothing(w);
    RunMore(w, [], first);
    assert [] + [first] == [first] && [first] + rest == [first];
    var times := [3300.0, 3320.0, 3360.0, 3440.0, 3600.0, 3610.0, 3630.0];
    for i := 0 to 7
      invariant |rest| == i && (forall j | 0 <= j < i :: rest[j] == CrashAt(times[j]))
      invariant Timely(0.0, [first] + rest)
      invariant EndOf(0.0, [first] + rest) == (if i == 0 then 0.0 else times[i - 1])
      invariant var u := Run(w, [first] + rest);
                && u.h.resets == 0 && u.h.attempts == Run(w, [first]).h.attempts + i && u.s.pausedUntil.None?
                && u.s.windowStart == Some(if i <= 4 then 0.0 else 3600.0)
                && u.s.attempts == (if i <= 4 then i + 1 else i - 4)
                && (i < 7 ==> u.s.nextAt <= times[i])
    {
      var e := CrashAt(times[i]);
      CrashCounts(Run(w, [first] + rest), times[i], if i < 4 then 0.0 else 3600.0, if i < 4 then i + 2 else i - 3);
      RunMore(w, [first] + rest, e);
      assert [first] + (rest + [e]) == [first] + rest + [e];
      rest := rest + [e];
    }
  }

  lemma RunNothing(w: World)
    ensures Run(w, []) == w && Timely(w.clock, []) && EndOf(w.clock, []) == w.clock
  {
  }

  // ---- exactly when an hour sees more than six -------------------------------------------------

  /** The time between the first and the `k`-th of some attempts, when `a` went before in their
      window and each comes as early as its backoff allows. */
  function Waits(a: nat, k: nat): nat {
    if k <= 1 then 0 else Waits(a, k - 1) + Backoff(a + k - 1)
  }

  /** The earliest time of the `m`-th further attempt in the stored window. */
  function EarliestOf(s: State, clock: real, m: nat): real {
    MaxReal(clock, s.nextAt) + Waits(s.attempts, m) as real
  }

  /** The earliest time of the first attempt in the next window after that one: the sixth of a
      window leaves nothing to wait for but the end of the window. */
  function Reopens(s: State, clock: real, m: nat): real {
    if s.attempts + m >= MAX_ATTEMPTS then WindowEnd(s)
    else MaxReal(WindowEnd(s), EarliestOf(s, clock, m) + Backoff(s.attempts + m) as real)
  }

  /** Does `m` further attempts in the stored window leave time within the hour for as many in the
      next as make seven? */
  predicate FitsSeven(s: State, clock: real, m: nat)
    requires m <= MAX_ATTEMPTS
  {
    && EarliestOf(s, clock, m) < WindowEnd(s)
    && Reopens(s, clock, m) + Waits(0, MAX_ATTEMPTS + 1 - m) as real < clock + WINDOW
  }

  /** What the stored record and the clock say about the coming hour. */
  predicate CanExceed(s: State, clock: real)
    requires s.attempts <= MAX_ATTEMPTS
  {
    s.windowStart.Some? && exists m: nat :: 1 <= m <= MAX_ATTEMPTS - s.attempts && FitsSeven(s, clock, m)
  }

  /** A run of the coming hour with more than six attempts and no stable reset. */
  predicate Exceeds(w: World, run: seq<Event>) {
    && Timely(w.clock, run) && EndOf(w.clock, run) < w.clock + WINDOW
    && Run(w, run).h.resets == w.h.resets
    && Run(w, run).h.attempts > w.h.attempts + MAX_ATTEMPTS
  }

  /** How far a run from `w` to `u` has come: `m` attempts in the window stored at `w`, the others in
      the next one, none earlier than its backoff allows. */
  predicate Progress(w: World, u: World, m: nat) {
    var a := w.s.attempts;
    && a + m <= MAX_ATTEMPTS && u.clock >= w.clock
    && (m > 0 ==> w.s.windowStart.Some? && EarliestOf(w.s, w.clock, m) < WindowEnd(w.s))
    && if u.s.windowStart == w.s.windowStart then
         && u.s.attempts == a + m && u.h.attempts == w.h.attempts + m
         && (m == 0 ==> u.s.nextAt >= w.s.nextAt)
         && (m > 0 && a + m < MAX_ATTEMPTS ==> u.s.nextAt >= EarliestOf(w.s, w.clock, m) + Backoff(a + m) as real)
       else
         && u.s.windowStart.Some? && u.s.windowStart.value >= w.clock
         && u.h.attempts == w.h.attempts + m + u.s.attempts
         && (m > 0 ==> AfterRoll(w, u, m))
  }

  predicate AfterRoll(w: World, u: World, m: nat) {
    var p := u.s.attempts;
    && u.clock >= WindowEnd(w.s)
    && (p == 0 && w.s.attempts + m < MAX_ATTEMPTS ==>
          u.s.nextAt >= EarliestOf(w.s, w.clock, m) + Backoff(w.s.attempts + m) as real)
    && (p > 0 ==> u.clock >= Reopens(w.s, w.clock, m) + Waits(0, p) as real)
    && (0 < p < MAX_ATTEMPTS ==> u.s.nextAt >= Reopens(w.s, w.clock, m) + Waits(0, p + 1) as real)
  }

  /** What one pass without a stable reset may do to count, window and next time. */
  predicate Steps(u: World, v: World) {
    var made, rolled := v.h.attempts - u.h.attempts, v.s.windowStart != u.s.windowStart;
    && 0 <= made <= 1
    && v.s.attempts == (if rolled then 0 else u.s.attempts) + made <= MAX_ATTEMPTS
    && (made == 0 ==> v.s.nextAt == u.s.nextAt)
    && (made == 1 ==>
          && v.clock >= u.s.nextAt && v.s.windowStart.Some? && v.clock < WindowEnd(v.s)
          && (v.s.attempts < MAX_ATTEMPTS ==> v.s.nextAt >= v.clock + Backoff(v.s.attempts) as real))
    && (rolled ==> v.s.windowStart == Some(v.clock) && (u.s.windowStart.Some? ==> v.clock >= WindowEnd(u.s)))
  }

  lemma NextSteps(u: World, e: Event)
    requires Counted(u) && u.clock <= e.now && Next(u, e).h.resets == u.h.resets
    ensures Steps(u, Next(u, e)) && Next(u, e).clock == e.now
  {
    hide Backoff;
  }

  lemma ProgressBefore(w: World, u: World, v: World, m: nat) returns (n: nat)
    requires Progress(w, u, m) && Steps(u, v) && u.clock <= v.clock
    requires v.s.windowStart == u.s.windowStart == w.s.windowStart
    ensures Progress(w, v, n)
  {
    hide Backoff;
    n := m + (v.h.attempts - u.h.attempts);
  }

  lemma ProgressRolls(w: World, u: World, v: World, m: nat)
    requires Progress(w, u, m) && Steps(u, v) && u.clock <= v.clock
    requires v.s.windowStart != u.s.windowStart == w.s.windowStart
    ensures Progress(w, v, m)
  {
    hide Backoff, EarliestOf;
    assert Waits(0, 1) == 0 && Waits(0, 2) == Waits(0, 1) + Backoff(1);
  }

  lemma ProgressAfter(w: World, u: World, v: World, m: nat)
    requires Progress(w, u, m) && Steps(u, v) && u.clock <= v.clock < w.clock + WINDOW
    requires u.s.windowStart != w.s.windowStart
    ensures Progress(w, v, m)
  {
    hide Backoff;
  }

  lemma ProgressNext(w: World, u: World, e: Event, m: nat) returns (n: nat)
    requires Counted(u) && Progress(w, u, m)
    requires u.clock <= e.now < w.clock + WINDOW && Next(u, e).h.resets == u.h.resets
    ensures Progress(w, Next(u, e), n)
  {
    hide Next, Progress, Steps, Counted;
    NextSteps(u, e);
    var v := Next(u, e);
    n := m;
    if u.s.windowStart != w.s.windowStart {
      ProgressAfter(w, u, v, m);
    } else if v.s.windowStart != u.s.windowStart {
      ProgressRolls(w, u, v, m);
    } else {
      n := ProgressBefore(w, u, v, m);
    }
  }

  lemma {:induction false} ProgressRun(w: World, run: seq<Event>) returns (m: nat)
    requires Counted(w) && Spaced(w) && Timely(w.clock, run) && EndOf(w.clock, run) < w.clock + WINDOW
    requires Run(w, run).h.resets == w.h.resets
    ensures Progress(w, Run(w, run), m)
  {
    if run == [] {
      m := 0;
    } else {
      hide Counted, Spaced, Progress, Next;
      var i := |run| - 1;
      RunKeeps(w, run[..i]);
      AttemptsBalance(w, run[..i]);
      BalanceNext(Run(w, run[..i]), run[i]);
      m := ProgressRun(w, run[..i]);
      m := ProgressNext(w, Run(w, run[..i]), run[i], m);
    }
  }

  lemma {:induction false} WaitsGrow(a: nat, j: nat, k: nat)
    requires j <= k
    ensures Waits(a, j) <= Waits(a, k)
    decreases k
  {
    hide Backoff;
    if j < k {
      WaitsGrow(a, j, k - 1);
    }
  }

  lemma SevenFit(w: World, u: World, m: nat)
    requires Progress(w, u, m) && u.clock < w.clock + WINDOW && u.s.attempts <= MAX_ATTEMPTS
    requires u.h.attempts > w.h.attempts + MAX_ATTEMPTS
    ensures m >= 1 && w.s.windowStart.Some? && FitsSeven(w.s, w.clock, m)
  {
    hide Backoff, Waits, Reopens, EarliestOf;
    WaitsGrow(0, MAX_ATTEMPTS + 1 - m, u.s.attempts);
  }

  /** More than six attempts in an hour need a record that leaves room for them. */
  lemma ExceedingNeedsRoom(w: World, run: seq<Event>)
    requires Counted(w) && Spaced(w) && Exceeds(w, run)
    ensures CanExceed(w.s, w.clock)
  {
    hide Progress, Run, Timely, EndOf, Spaced, FitsSeven;
    var m := ProgressRun(w, run);
    RunKeeps(w, run);
    SevenFit(w, Run(w, run), m);
    ProgressIsSmall(w, Run(w, run), m);
  }

  lemma ProgressIsSmall(w: World, u: World, m: nat)
    requires Progress(w, u, m)
    ensures w.s.attempts + m <= MAX_ATTEMPTS
  {
  }

  // ---- and the record that leaves room is used -----------------------------------------------------

  /** A pass at which the listener is gone, its owner lives, and the recovery command fails. */
  function FailAt(now: real): Event {
    Event(Seen(false, true, false, false, true, Fails), now)
  }

  /** Such a pass makes an attempt as soon as the next time is reached. */
  lemma FailCounts(w: World, now: real)
    requires Counted(w) && w.clock <= now && now >= w.s.nextAt && Viewed(w.s, now).attempts < MAX_ATTEMPTS
    ensures var u, k := Next(w, FailAt(now)), Viewed(w.s, now).attempts + 1;
            && u.clock == now && u.h.attempts == w.h.attempts + 1 && u.h.resets == w.h.resets
            && u.s.windowStart == Viewed(w.s, now).windowStart && u.s.attempts == k
            && u.s.nextAt == if k == MAX_ATTEMPTS then WindowEnd(u.s) else now + Backoff(k) as real
  {
    hide Backoff;
  }

  /** What a run of early failures has come to: all attempts so far at their earliest times. */
  predicate Tried(w: World, run: seq<Event>, made: nat, at: real) {
    var u := Run(w, run);
    && Timely(w.clock, run) && EndOf(w.clock, run) == u.clock == at
    && u.h.resets == w.h.resets && u.h.attempts == w.h.attempts + made
  }

  lemma OneMoreTry(w: World, run: seq<Event>, made: nat, at: real, now: real) returns (more: seq<Event>)
    requires Counted(w) && Spaced(w) && Tried(w, run, made, at)
    requires at <= now && now >= Run(w, run).s.nextAt && Viewed(Run(w, run).s, now).attempts < MAX_ATTEMPTS
    ensures more == run + [FailAt(now)] && Tried(w, more, made + 1, now)
    ensures Run(w, more) == Next(Run(w, run), FailAt(now))
  {
    hide Next, Counted, Spaced, Viewed;
    RunKeeps(w, run);
    FailCounts(Run(w, run), now);
    RunMore(w, run, FailAt(now));
    more := run + [FailAt(now)];
  }

  /** `m` attempts in the stored window. */
  lemma {:induction false} TryBefore(w: World, m: nat) returns (run: seq<Event>)
    requires Counted(w) && Spaced(w) && w.s.windowStart.Some?
    requires 1 <= m <= MAX_ATTEMPTS - w.s.attempts && EarliestOf(w.s, w.clock, m) < WindowEnd(w.s)
    ensures Tried(w, run, m, EarliestOf(w.s, w.clock, m))
    ensures var u := Run(w, run).s;
            && u.windowStart == w.s.windowStart && u.attempts == w.s.attempts + m
            && u.nextAt == if u.attempts == MAX_ATTEMPTS then WindowEnd(w.s)
                           else EarliestOf(w.s, w.clock, m) + Backoff(u.attempts) as real
    decreases m
  {
    hide Run, Timely, EndOf, Spaced, Backoff, Next;
    var now := EarliestOf(w.s, w.clock, m);
    if m == 1 {
      RunNothing(w);
      run := OneMoreTry(w, [], 0, w.clock, now);
      FailCounts(w, now);
    } else {
      WaitsGrow(w.s.attempts, m - 1, m);
      var before := TryBefore(w, m - 1);
      RunKeeps(w, before);
      run := OneMoreTry(w, before, m - 1, EarliestOf(w.s, w.clock, m - 1), now);
      FailCounts(Run(w, before), now);
    }
  }

  /** And `p` more from the first possible moment of the next. */
  lemma {:induction false} TryAfter(w: World, m: nat, p: nat) returns (run: seq<Event>)
    requires Counted(w) && Spaced(w) && w.s.windowStart.Some?
    requires 1 <= m <= MAX_ATTEMPTS - w.s.attempts && EarliestOf(w.s, w.clock, m) < WindowEnd(w.s)
    requires 1 <= p <= MAX_ATTEMPTS
    ensures Tried(w, run, m + p, Reopens(w.s, w.clock, m) + Waits(0, p) as real)
    ensures var u, first := Run(w, run).s, Reopens(w.s, w.clock, m);
            && u.windowStart == Some(first) && u.attempts == p
            && u.nextAt == if p == MAX_ATTEMPTS then first + WINDOW else first + Waits(0, p + 1) as real
    decreases p
  {
    hide Run, Timely, EndOf, Spaced, Backoff, Next;
    var first := Reopens(w.s, w.clock, m);
    if p == 1 {
      var before := TryBefore(w, m);
      RunKeeps(w, before);
      run := OneMoreTry(w, before, m, EarliestOf(w.s, w.clock, m), first);
      FailCounts(Run(w, before), first);
    } else {
      var before := TryAfter(w, m, p - 1);
      RunKeeps(w, before);
      FewMinutes(p);
      var now := first + Waits(0, p) as real;
      WaitsGrow(0, p - 1, p);
      run := OneMoreTry(w, before, m + p - 1, first + Waits(0, p - 1) as real, now);
      FailCounts(Run(w, before), now);
    }
  }

  lemma FewMinutes(k: nat)
    requires k <= MAX_ATTEMPTS
    ensures Waits(0, k) <= 310
  {
    Backoffs();
    hide Backoff;
    assert Waits(0, 6) == Waits(0, 5) + 160 && Waits(0, 5) == Waits(0, 4) + 80;
    assert Waits(0, 4) == Waits(0, 3) + 40 && Waits(0, 3) == Waits(0, 2) + 20 && Waits(0, 2) == Waits(0, 1) + 10;
    WaitsGrow(0, k, 6);
  }

  lemma RoomIsUsed(w: World, m: nat)
    requires Counted(w) && Spaced(w) && w.s.windowStart.Some?
    requires 1 <= m <= MAX_ATTEMPTS - w.s.attempts && FitsSeven(w.s, w.clock, m)
    ensures exists run :: Exceeds(w, run)
  {
    var run := TryAfter(w, m, MAX_ATTEMPTS + 1 - m);
    hide Run, Timely, EndOf, Spaced, Backoff, Waits, Reopens, EarliestOf;
    assert Exceeds(w, run);
  }

  /** The coming hour can see more than six attempts exactly when the stored record and the clock
      say so: some attempts still fit into the stored window, and enough of the next ones follow in
      the window after it before the hour is over. */
  lemma MoreThanSixExactly(w: World)
    requires Counted(w) && Spaced(w)
    ensures (exists run :: Exceeds(w, run)) <==> CanExceed(w.s, w.clock)
  {
    hide Exceeds, FitsSeven, Spaced;
    if exists run :: Exceeds(w, run) {
      var run :| Exceeds(w, run);
      ExceedingNeedsRoom(w, run);
    }
    if CanExceed(w.s, w.clock) {
      var m: nat :| 1 <= m <= MAX_ATTEMPTS - w.s.attempts && FitsSeven(w.s, w.clock, m);
      RoomIsUsed(w, m);
    }
  }

  /** So never with six on record, with no window stored, or with the stored one over. */
  lemma NoRoomLeft(s: State, clock: real)
    requires s.attempts <= MAX_ATTEMPTS
    requires s.attempts == MAX_ATTEMPTS || s.windowStart.None? || clock >= WindowEnd(s)
    ensures !CanExceed(s, clock)
  {
    hide Backoff, Waits;
  }
}
