/** src/peer_watch.py: exactly when one pass makes an attempt, when it forgets attempts, and how long a
    listener must have lived for that. */
module Resets {
  import opened Common
  import opened Watch

  /** A live listener that no live replacement of a dead owner wants gone. */
  predicate Serves(seen: Seen) {
    seen.live && !(seen.replacement && !seen.ownerLive)
  }

  /** Its last recovery, if any, is at least half a minute back. */
  predicate Settled(s: State, now: real) {
    s.recoveredAt.None? || now - s.recoveredAt.value >= 30.0
  }

  /** The stored window is still open. */
  predicate WindowOpen(s: State, now: real) {
    s.windowStart.Some? && now - s.windowStart.value < 3600.0
  }

  /** A pass forgets attempts of an open window exactly when it finds a serving listener whose last
      recovery is at least thirty seconds back and has not forgotten them before; then it forgets all
      of them, and the wait and the pause with them. */
  lemma WhenAttemptsAreForgotten(w: World, e: Event)
    requires WindowOpen(w.s, e.now) && w.s.attempts > 0
    ensures Next(w, e).s.attempts < w.s.attempts <==>
              Serves(e.seen) && Settled(w.s, e.now) && w.s.lastResult != Recovered
    ensures Next(w, e).s.attempts < w.s.attempts ==>
              Next(w, e).s == w.s.(attempts := 0, nextAt := 0.0, pausedUntil := None, lastResult := Recovered)
  {
    hide Backoff;
  }

  /** Otherwise only a new window forgets attempts: the count falls without one in no other case. */
  lemma OnlyThenOrInANewWindow(w: World, e: Event)
    requires Next(w, e).s.attempts < w.s.attempts && Next(w, e).s.windowStart == w.s.windowStart
    ensures Serves(e.seen) && Settled(w.s, e.now)
  {
    hide Backoff;
  }

  /** The waits between attempts. */
  lemma BackoffIs()
    ensures Backoff(1) == 10 && Backoff(2) == 20 && Backoff(3) == 40 && Backoff(4) == 80 && Backoff(5) == 160
    ensures forall k: nat | k >= 6 :: Backoff(k) == 300
  {
    assert Power2(5) == 2 * Power2(4) == 4 * Power2(3) == 8 * Power2(2) == 16 * Power2(1) == 32;
    forall k: nat | k >= 6 ensures Backoff(k) == 300 {
      PowersGrow(5, k - 1);
    }
  }

  lemma {:induction false} PowersGrow(j: nat, k: nat)
    requires j <= k
    ensures Power2(j) <= Power2(k)
  {
    if j < k {
      PowersGrow(j, k - 1);
    }
  }

  /** Nobody to recover for: neither the owner nor a live replacement. */
  predicate OwnerGone(seen: Seen) {
    !seen.ownerLive && !seen.replacement
  }

  /** A pass makes an attempt exactly when the listener is gone, no pause and no wait is running, fewer
      than six attempts are on record for the open window, and whoever it would recover for is still
      alive at that instant; it then counts one, before and whatever the attempt brings. */
  lemma WhenAnAttemptIsMade(w: World, e: Event)
    requires Counted(w) && e.now >= w.clock
    ensures var made := if WindowOpen(w.s, e.now) then w.s.attempts else 0;
            var t := Next(w, e);
            && (t.h.attempts == w.h.attempts + 1 <==>
                  && !e.seen.live && made < 6 && e.now >= w.s.nextAt
                  && (OwnerGone(e.seen) || e.seen.ownerStillLive))
            && (t.h.attempts != w.h.attempts ==>
                  && t.h.attempts == w.h.attempts + 1 && t.s.attempts == made + 1
                  && t.s.lastAttempt == Some(e.now)
                  && (e.seen.outcome.Succeeds? <==> t.s.lastResult == Started || t.s.lastResult == EndpointKept)
                  && (e.seen.outcome.Succeeds? ==> t.s.recoveredAt == Some(e.now))
                  && (!e.seen.outcome.Succeeds? ==> t.s.recoveredAt == w.s.recoveredAt)
                  && t.s.nextAt == (if made == 5 && e.seen.outcome.Fails? && !OwnerGone(e.seen) then WindowEnd(t.s)
                                    else e.now + Backoff(made + 1) as real)
                  && t.s.pausedUntil == (if made == 5 then Some(WindowEnd(t.s)) else None)
                  && (t.s.lastResult == AttemptingEndpoint || t.s.lastResult == EndpointKept ==> OwnerGone(e.seen)))
  {
    hide Backoff;
  }

  /** A listener that a live replacement of its dead owner wants gone is asked to exit, and nothing else:
      no attempt is made or forgotten in its open window. */
  lemma WhenAListenerIsSignalled(w: World, e: Event)
    requires WindowOpen(w.s, e.now) && e.seen.live && !Serves(e.seen)
    ensures Next(w, e).s == if e.seen.signalled then w.s.(lastResult := Signalled, lastAttempt := Some(e.now)) else w.s
    ensures Next(w, e).h == w.h
  {
    hide Backoff;
  }

  // ---- after a success, with resets --------------------------------------------------------------

  /** When the attempt now on record lets the next one come. */
  function Demanded(s: State, at: real): real {
    if s.attempts < 6 then at + Backoff(s.attempts) as real else WindowEnd(s)
  }

  /** Since a success at `t` with this demand: it still stands, or half a minute has passed. */
  predicate Stands(w: World, t: real, demand: real) {
    || w.clock >= t + 30.0
    || (w.s.recoveredAt == Some(t) && w.h.last.Some? && EarliestNext(w.h.last.value) == demand)
  }

  lemma StandsNext(w: World, e: Event, t: real, demand: real)
    requires Counted(w) && Spaced(w) && e.now >= w.clock && Stands(w, t, demand)
    ensures Next(w, e).h.attempts == w.h.attempts ==> Stands(Next(w, e), t, demand)
    ensures Next(w, e).h.attempts != w.h.attempts ==> e.now >= demand || e.now >= t + 30.0
    ensures Next(w, e).clock == e.now && Next(w, e).h.attempts >= w.h.attempts
  {
    hide Backoff;
    SpacedNext(w, e);
  }

  lemma SuccessStands(w: World, e: Event)
    requires Counted(w) && Spaced(w) && e.now >= w.clock && e.seen.outcome.Succeeds?
    requires Next(w, e).h.attempts != w.h.attempts
    ensures Stands(Next(w, e), e.now, Demanded(Next(w, e).s, e.now))
  {
    hide Backoff;
  }

  lemma {:induction false} StandsAlong(w: World, run: seq<Event>, t: real, demand: real)
    requires Counted(w) && Spaced(w) && Timely(w.clock, run) && Stands(w, t, demand)
    ensures Run(w, run).h.attempts >= w.h.attempts
    ensures Run(w, run).h.attempts == w.h.attempts ==> Stands(Run(w, run), t, demand)
    ensures Run(w, run).h.attempts != w.h.attempts ==>
              EndOf(w.clock, run) >= demand || EndOf(w.clock, run) >= t + 30.0
  {
    hide Counted, Spaced, Next, Stands;
    if run != [] {
      var m := |run| - 1;
      StandsAlong(w, run[..m], t, demand);
      RunKeeps(w, run[..m]);
      var u := Run(w, run[..m]);
      if u.h.attempts == w.h.attempts {
        StandsNext(u, run[m], t, demand);
      } else {
        GrowsOnly(u, run[m]);
      }
    }
  }

  lemma GrowsOnly(w: World, e: Event)
    ensures Next(w, e).h.attempts >= w.h.attempts
  {
    hide Backoff;
  }

  /** With any resets in between: after a successful attempt no other is made before the earlier of the
      time it demands and thirty seconds. */
  lemma SuccessIsTrusted(w: World, e: Event, run: seq<Event>)
    requires Counted(w) && Spaced(w) && e.now >= w.clock && Timely(e.now, run)
    requires Next(w, e).h.attempts != w.h.attempts && e.seen.outcome.Succeeds?
    ensures Run(Next(w, e), run).h.attempts != Next(w, e).h.attempts ==>
              || EndOf(e.now, run) >= Demanded(Next(w, e).s, e.now)
              || EndOf(e.now, run) >= e.now + 30.0
  {
    SuccessStands(w, e);
    CountedNext(w, e);
    SpacedNext(w, e);
    ClockIs(w, e);
    StandsAlong(Next(w, e), run, e.now, Demanded(Next(w, e).s, e.now));
  }

  lemma ClockIs(w: World, e: Event)
    ensures Next(w, e).clock == e.now
  {
    hide Passed;
  }

  /** An attempt that was not seen to succeed, because the watchdog died in it or the command failed or
      timed out, leaves no recovery time on record: if its listener lives nevertheless, the next pass
      forgets all attempts at once, unless an earlier recovery is less than thirty seconds back. */
  lemma UnseenSuccessIsForgottenAtOnce(w: World, e: Event, next: Event)
    requires Counted(w) && e.now >= w.clock && next.now >= e.now
    requires Next(w, e).h.attempts != w.h.attempts && !e.seen.outcome.Succeeds?
    requires Serves(next.seen) && WindowOpen(Next(w, e).s, next.now)
    ensures var t := Next(Next(w, e), next);
            t.s.attempts == 0 && t.s.nextAt == 0.0 <==> Settled(w.s, next.now)
  {
    hide Backoff, Next;
    WhenAnAttemptIsMade(w, e);
    AttemptLeavesAResult(w, e);
    WhenAttemptsAreForgotten(Next(w, e), next);
    NeverBelow(Next(w, e), next);
  }

  lemma AttemptLeavesAResult(w: World, e: Event)
    requires Next(w, e).h.attempts != w.h.attempts
    ensures Next(w, e).s.lastResult != Recovered && Next(w, e).s.attempts > 0
  {
    hide Backoff;
  }

  lemma NeverBelow(w: World, e: Event)
    requires WindowOpen(w.s, e.now) && w.s.attempts > 0
    ensures Next(w, e).s.attempts == 0 ==> Next(w, e).s.attempts < w.s.attempts
  {
  }
}
