/** Counting wakes over whole runs: at most one is outstanding, and decided outcomes never
    outnumber claims. */
module WakeAccounts {
  import opened Common
  import opened Budget
  import opened Messages
  import opened Bridge
  import opened Invariants
  import opened AtMostOnce
  import opened WakeRuns
  import W = Wake

  /** The three things that may take the marker of wake `id` away. */
  predicate Releases(w: World, a: Action, id: string) {
    && w.s.wake.pending.Some? && w.s.wake.pending.value.id == id
    && Next(w, a).s.wake.pending.None?
    && ( || (a.DecideWake? && W.ActiveEvent(a.payload.event) && W.DecidedFor(Next(w, a).s.wake.last, id))
         || ((a.AckAll? || a.AckOne?) && ConsumedId(Next(w, a).s.rows, id))
         || a.OwnerChange? || a.Restore?)
  }

  lemma DispatchKeepsMarker(w: World, e: Env)
    requires Inv(w) && WakeOk(w) && w.s.wake.pending.Some?
    ensures var p := Dispatched(w, e).s.wake.pending;
            p.Some? && p.value.id == w.s.wake.pending.value.id
    ensures !ClaimsWake(w, Dispatch(e))
  {
    hide TablesOk, IsUuid, FirstPending, ReceivedKey, SetReceivedTo, ReceivedRows, W.Climbs, W.MarkerAgrees, Scanned;
    match w.d {
      case WantWake =>
      case Claimed(id) => ProducedKeeps(w.s.wake, id, W.Writing, None, e.now);
      case Returned(id, k, q) => ProducedKeeps(w.s.wake, id, k, q, e.now);
      case _ =>
    }
  }

  lemma MarkerStays(w: World, a: Action)
    requires Ok(w) && w.s.wake.pending.Some?
    ensures var id := w.s.wake.pending.value.id;
            var p := Next(w, a).s.wake.pending;
            (p.Some? && p.value.id == id) || Releases(w, a, id)
    ensures !ClaimsWake(w, a)
  {
    hide Inv, IsUuid, W.HookDecided, Dispatched, Offered, W.MarkerAgrees, WakeClaimed;
    if a.Dispatch? {
      DispatchKeepsMarker(w, a.env);
    } else if a.DecideWake? {
      HookKeeps(w.s.wake, a.payload, a.at);
      if !W.ActiveEvent(a.payload.event) {
        HookIdles(w.s.wake, a.payload, a.at);
      }
    } else {
      WakeFrame(w, a);
    }
  }

  lemma HookIdles(s: W.WakeState, p: Payload, now: real)
    requires !W.ActiveEvent(p.event)
    ensures W.HookDecided(s, p, now) == s
  {
  }

  /** From a stored marker to an absent one, the run passes a release of that very wake. */
  lemma {:induction false} ReleasedBetween(w: World, run: seq<Action>, i: nat, j: nat, id: string) returns (k: nat)
    requires Ok(w) && i <= j <= |run|
    requires Step(w, run, i).s.wake.pending.Some? && Step(w, run, i).s.wake.pending.value.id == id
    requires Step(w, run, j).s.wake.pending.None?
    ensures i <= k < j && Releases(Step(w, run, k), run[k], id)
    decreases j - i
  {
    hide Next, Ok, Releases;
    assert i != j;
    OkStep(w, run, i);
    StepNext(w, run, i);
    MarkerStays(Step(w, run, i), run[i]);
    if Releases(Step(w, run, i), run[i], id) {
      k := i;
    } else {
      k := ReleasedBetween(w, run, i + 1, j, id);
    }
  }

  /** What holds right after a claim. */
  lemma ClaimStores(w: World, a: Action)
    requires Ok(w) && ClaimsWake(w, a)
    ensures w.s.wake.pending.None?
    ensures Next(w, a).d.Claimed? && Next(w, a).s.wake.pending.Some?
    ensures Next(w, a).s.wake.pending.value.id == Next(w, a).d.id
    ensures Next(w, a).h.claims == w.h.claims + 1
  {
    hide WakeClaimed, IsUuid, TablesOk, WakeOk;
    ClaimIs(w.s, a.env.view, a.env.now);
  }

  /** At most one wake is outstanding, even with unlimited allowances and a dispatcher that
      crashes anywhere: between two claims the first one's marker is released by a hook's decision
      on it, an acknowledgement that consumed its message, or a change of owner. */
  lemma OneWakeOutstanding(w: World, run: seq<Action>, i: nat, j: nat) returns (k: nat)
    requires Ok(w) && i < j < |run|
    requires ClaimsWake(Step(w, run, i), run[i]) && ClaimsWake(Step(w, run, j), run[j])
    ensures Step(w, run, i + 1).d.Claimed?
    ensures i < k < j && Releases(Step(w, run, k), run[k], Step(w, run, i + 1).d.id)
  {
    hide Next, Ok, Releases, ClaimsWake;
    OkStep(w, run, i);
    OkStep(w, run, j);
    StepNext(w, run, i);
    ClaimStores(Step(w, run, i), run[i]);
    ClaimStores(Step(w, run, j), run[j]);
    k := ReleasedBetween(w, run, i + 1, j, Step(w, run, i + 1).d.id);
  }

  predicate MayNotify(d: Dispatcher) {
    d.Claimed? || d.Calling?
  }

  lemma NotifyNeedsClaim(w: World, a: Action)
    ensures !MayNotify(w.d) && MayNotify(Next(w, a).d) ==> ClaimsWake(w, a)
  {
    hide WakeClaimed, Offered, ForwardClaimed, Look, TablesOk, Updated, Acknowledged, SetTo, Restarted;
    if a.Dispatch? && w.d.Ready? {
      LookNeverNotifies(w, a.env);
    }
  }

  lemma LookNeverNotifies(w: World, e: Env)
    ensures !MayNotify(Look(w, e).d) || MayNotify(w.d)
    ensures Look(w, e).h == w.h
  {
  }

  lemma {:induction false} ClaimBetweenStates(w: World, run: seq<Action>, i: nat, j: nat) returns (k: nat)
    requires i <= j < |run| && !MayNotify(Step(w, run, i).d) && MayNotify(Step(w, run, j).d)
    ensures i <= k < j && ClaimsWake(Step(w, run, k), run[k])
    decreases j - i
  {
    hide Next, ClaimsWake;
    StepNext(w, run, i);
    NotifyNeedsClaim(Step(w, run, i), run[i]);
    if MayNotify(Step(w, run, i + 1).d) {
      k := i;
    } else {
      k := ClaimBetweenStates(w, run, i + 1, j);
    }
  }

  /** A step that gives a wake notice to the queue command. */
  predicate GivesNotice(w: World, a: Action) {
    Next(w, a).h.notices > w.h.notices
  }

  lemma NoticeIs(w: World, a: Action)
    ensures Next(w, a).h.notices == w.h.notices + (if GivesNotice(w, a) then 1 else 0)
    ensures GivesNotice(w, a) ==> MayNotify(w.d) && !MayNotify(Next(w, a).d) && Next(w, a).h.claims == w.h.claims
    ensures Next(w, a).h.claims == w.h.claims + (if ClaimsWake(w, a) then 1 else 0)
  {
    hide WakeClaimed, Offered, ForwardClaimed, Look, TablesOk, Updated, Acknowledged, SetTo, Restarted;
    if a.Dispatch? && w.d.Ready? {
      LookNeverNotifies(w, a.env);
    }
  }

  /** Between two wake notices given to the queue command there is a claim. */
  lemma ClaimBetweenNotices(w: World, run: seq<Action>, i: nat, j: nat) returns (k: nat)
    requires i < j < |run| && GivesNotice(Step(w, run, i), run[i]) && GivesNotice(Step(w, run, j), run[j])
    ensures i < k < j && ClaimsWake(Step(w, run, k), run[k])
  {
    hide Next, ClaimsWake, GivesNotice, MayNotify;
    StepNext(w, run, i);
    NoticeIs(Step(w, run, i), run[i]);
    NoticeIs(Step(w, run, j), run[j]);
    k := ClaimBetweenStates(w, run, i + 1, j);
  }

  /** Every notice given, and the one about to be, was claimed. */
  predicate NoticesClaimed(w: World) {
    w.h.notices + (if MayNotify(w.d) then 1 else 0) <= w.h.claims
  }

  /** In every run the queue command is given at most as many wake notices as wakes were claimed. */
  lemma {:induction false} NoticesAreClaimed(w: World, run: seq<Action>)
    requires NoticesClaimed(w)
    ensures NoticesClaimed(Exec(w, run)) && Exec(w, run).h.notices <= Exec(w, run).h.claims
  {
    hide Next, ClaimsWake, GivesNotice, MayNotify;
    if run != [] {
      var u := Exec(w, run[..|run| - 1]);
      NoticesAreClaimed(w, run[..|run| - 1]);
      NoticeIs(u, run[|run| - 1]);
      NotifyNeedsClaim(u, run[|run| - 1]);
    }
  }

  // ---- a decided wake claimed again ------------------------------------------------------------

  /** The marked id already carries a decided outcome: the message was claimed a second time. */
  predicate Wedged(w: World) {
    w.s.wake.pending.Some? && W.DecidedFor(w.s.wake.last, w.s.wake.pending.value.id)
  }

  /** Such a marker survives every hook and every record: it blocks all wakes until an
      acknowledgement of that message or a change of owner. */
  lemma WedgedUntilAcknowledged(w: World, a: Action)
    requires Ok(w) && Wedged(w)
    ensures var t := Next(w, a);
            || (Wedged(t) && t.s.wake.pending.value.id == w.s.wake.pending.value.id && t.h.claims == w.h.claims)
            || ((a.AckAll? || a.AckOne?) && ConsumedId(t.s.rows, w.s.wake.pending.value.id))
            || a.OwnerChange? || a.Restore?
  {
    hide Inv, IsUuid, W.HookDecided, Dispatched, Offered, W.MarkerAgrees, WakeClaimed;
    MarkerStays(w, a);
    if a.Dispatch? {
      WedgedThroughDispatch(w, a.env);
    } else if a.DecideWake? {
      HookKeeps(w.s.wake, a.payload, a.at);
      HookKeepsDecided(w.s.wake, a.payload, a.at);
      HookOnWedge(w.s.wake, a.payload, a.at);
    } else {
      WakeFrame(w, a);
    }
  }

  lemma HookOnWedge(s: W.WakeState, p: Payload, now: real)
    requires s.pending.Some? && W.DecidedFor(s.last, s.pending.value.id)
    ensures W.HookDecided(s, p, now).pending == s.pending
  {
  }

  lemma WedgedThroughDispatch(w: World, e: Env)
    requires Ok(w) && Wedged(w)
    ensures W.DecidedFor(Dispatched(w, e).s.wake.last, w.s.wake.pending.value.id)
    ensures Dispatched(w, e).h.claims == w.h.claims
  {
    hide TablesOk, IsUuid, FirstPending, ReceivedKey, SetReceivedTo, ReceivedRows, W.Climbs, W.MarkerAgrees,
         Scanned, W.Produced;
    match w.d {
      case WantWake =>
      case Claimed(id) => ProducedKeeps(w.s.wake, id, W.Writing, None, e.now);
      case Returned(id, k, q) => ProducedKeeps(w.s.wake, id, k, q, e.now);
      case _ =>
    }
  }

  // ---- accounting -----------------------------------------------------------------------------

  /** May the current wake still come to a decided outcome? */
  function Credit(w: World): nat {
    var s := w.s.wake;
    if (s.pending.Some? && !W.DecidedFor(s.last, s.pending.value.id))
       || (InFlight(w.d).Some? && !W.DecidedFor(s.last, InFlight(w.d).value)) then 1 else 0
  }

  predicate Accounted(w: World) {
    w.s.wake.counts.Decided() + Credit(w) <= w.h.claims
  }

  lemma ClaimAccounted(w: World, e: Env)
    requires Ok(w) && Accounted(w) && w.d.WantWake?
    ensures Accounted(Claim(w, e))
  {
    hide WakeClaimed, IsUuid, TablesOk;
    ClaimIs(w.s, e.view, e.now);
  }

  lemma DispatchAccounted(w: World, e: Env)
    requires Ok(w) && Accounted(w)
    ensures Accounted(Dispatched(w, e))
  {
    hide TablesOk, IsUuid, FirstPending, ReceivedKey, SetReceivedTo, ReceivedRows, W.Climbs, W.MarkerAgrees, Claim,
         W.Produced, W.Counts.Decided;
    match w.d {
      case WantWake => ClaimAccounted(w, e);
      case Claimed(id) => ProducedKeeps(w.s.wake, id, W.Writing, None, e.now);
      case Returned(id, k, q) => ProducedKeeps(w.s.wake, id, k, q, e.now);
      case _ =>
    }
  }

  lemma AccountedNext(w: World, a: Action)
    requires Ok(w) && Accounted(w)
    ensures Accounted(Next(w, a))
  {
    hide Inv, IsUuid, W.HookDecided, Dispatched, Offered, W.MarkerAgrees, WakeClaimed, W.Counts.Decided;
    if a.Dispatch? {
      DispatchAccounted(w, a.env);
    } else if a.DecideWake? {
      HookKeeps(w.s.wake, a.payload, a.at);
      HookKeepsDecided(w.s.wake, a.payload, a.at);
    } else {
      WakeFrame(w, a);
    }
  }

  lemma HookKeepsDecided(s: W.WakeState, p: Payload, now: real)
    ensures s.pending.None? ==> W.HookDecided(s, p, now) == s
    ensures s.pending.Some? && W.DecidedFor(s.last, s.pending.value.id) ==>
              W.DecidedFor(W.HookDecided(s, p, now).last, s.pending.value.id)
    ensures s.pending.Some? && W.HookDecided(s, p, now).counts.Decided() != s.counts.Decided() ==>
              W.DecidedFor(W.HookDecided(s, p, now).last, s.pending.value.id)
  {
  }

  /** Decided outcomes never outnumber claims; a run adds at most one more than it claims. */
  lemma {:induction false} DecidedAtMostClaimed(w: World, run: seq<Action>)
    requires Ok(w) && Accounted(w)
    ensures Accounted(Exec(w, run))
    ensures Exec(w, run).s.wake.counts.Decided() <= Exec(w, run).h.claims
  {
    hide Ok, Next;
    if run != [] {
      var m := |run| - 1;
      DecidedAtMostClaimed(w, run[..m]);
      OkStep(w, run, m);
      AccountedNext(Exec(w, run[..m]), run[m]);
    }
  }

  /** In particular from a store without a wake. */
  lemma FreshIsAccounted(w: World)
    requires w.d.Ready? && w.s.wake.pending.None? && w.s.wake.counts.Decided() == 0
    ensures Accounted(w)
  {
  }
}
