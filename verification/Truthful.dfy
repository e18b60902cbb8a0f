/** The reported delivery state (src/peer_budget.py, delivery_state) against what the dispatcher
    and the hooks then do. */
module Truthful {
  import opened Common
  import opened Budget
  import opened Messages
  import opened Offers
  import opened Bridge
  import opened Invariants
  import opened AtMostOnce
  import opened WakeRuns
  import opened Drain

  /** A claim transaction succeeds exactly when a wake is allowed and some received message can be
      delivered. */
  lemma ClaimExactly(s: Store, v: View, now: real)
    requires Distinct(s.rows)
    ensures WakeClaimed(s, v, now).1.Some? <==> WakeAllowed(s) && Chosen(s.rows, v).Some?
    ensures WakeAllowed(s) && Chosen(s.rows, v).Some? ==> WakeClaimed(s, v, now).1.value == Chosen(s.rows, v).value.id
  {
    hide Settled;
    ScannedExact(ReceivedRows(s.rows), s.rows, v);
  }

  /** `idle_wake_enabled` is a promise kept: with a deliverable message, no marker and nothing to
      send, the dispatcher's next two steps claim a wake for the oldest such message. */
  lemma IdleWakeEnabledWakes(w: World, e: Env)
    requires Inv(w) && w.d.Ready? && FirstPending(w.s.out).None?
    requires Reported(w.s) == IdleWakeEnabled && w.s.wake.pending.None?
    requires Chosen(w.s.rows, e.view).Some?
    ensures var u := Next(w, Dispatch(e));
            ClaimsWake(u, Dispatch(e)) && Next(u, Dispatch(e)).d == Claimed(Chosen(w.s.rows, e.view).value.id)
  {
    hide TablesOk, Chosen, WakeClaimed, ReceivedRows;
    InvDistinctRows(w);
    ClaimExactly(w.s, e.view, e.now);
  }

  lemma InvDistinctRows(w: World)
    requires Inv(w)
    ensures Distinct(w.s.rows)
  {
  }

  /** A paused bridge claims no wake, even if its dispatcher had already decided to try. */
  lemma PausedNeverWakes(w: World, a: Action)
    requires Inv(w)
    requires Reported(w.s) == PausedBudget || Reported(w.s) == PausedWakeBudget || Reported(w.s) == PausedInterrupted
    ensures !ClaimsWake(w, a)
    ensures Next(w, a).h.claims == w.h.claims
  {
    hide TablesOk, Chosen, ReceivedRows, Offered, Updated, SetTo, Acknowledged, Restarted;
    InvDistinctRows(w);
    if a.Dispatch? {
      ClaimExactly(w.s, a.env.view, a.env.now);
      LookClaimsNothing(w, a.env);
    }
  }

  lemma LookClaimsNothing(w: World, e: Env)
    ensures Look(w, e).h == w.h
  {
  }

  /** In automatic mode the state predicts exactly when a wake may be claimed, except that the
      dispatcher does not wait for lifecycle evidence: with an idle phase on record it also claims
      while the state still reads `awaiting_lifecycle_hook`. */
  lemma WhenAWakeIsAllowed(s: Store)
    requires s.mode == Auto && s.wake.pending.None?
    ensures WakeAllowed(s) <==>
            Reported(s) == IdleWakeEnabled
            || (Reported(s) == AwaitingLifecycleHook && !s.observed && s.phase == Idle && Available(WakesLeft(s)))
  {
  }

  /** `active_hooks` means that the next hook's offer is open: with a received message and no
      stored notice at least one message leaves the received list. */
  lemma ActiveHooksOffer(s: Store, v: View)
    requires TablesOk(s) && ShortReferences(v)
    requires Reported(s) == ActiveHooks && ReceivedRows(s.rows) != []
    ensures (s.mode == Live || s.mode == Auto) && Available(s.remaining)
    ensures |ReceivedRows(Offered(s, v, "").0.rows)| < |ReceivedRows(s.rows)|
  {
    hide Settled, Updated, ReceivedRows, Reach, Offering, Moved;
    BatchExact(s.rows, s.remaining, [], v);
    ReceivedAreRows(s.rows);
    assert ReceivedRows(s.rows)[0] in s.rows;
    var todo := FirstFew(ReceivedRows(s.rows));
    assert todo[0] == ReceivedRows(s.rows)[0];
    var n := Reach(todo, s.remaining, TotalLength([]), v);
    if n == 0 {
      assert ReceivedRows(s.rows)[..0] == [];
      assert Offering(todo, Batch(s.rows, s.remaining, [], []), v).offered == [];
    }
  }
}
