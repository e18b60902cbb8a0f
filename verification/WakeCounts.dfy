/** What the wake counters mean over whole runs: each counts exactly the steps of its own kind. */
module WakeCounts {
  import opened Common
  import opened Messages
  import opened Bridge
  import opened WakeRuns
  import W = Wake

  /** The completion the dispatcher is about to record, if this step records one. */
  predicate Completing(w: World, a: Action) {
    a.Dispatch? && w.d.Returned?
  }

  /** Which counter a step moves, said of the step alone. */
  function Cause(w: World, a: Action): Option<W.WakeKind> {
    var s := w.s.wake;
    if a.DecideWake? && W.Undecided(s, a.payload) then
      Some(if W.ShowsNotice(s, a.payload) then W.Activated
           else if s.pending.value.status == W.Writing then W.Raced else W.Cancelled)
    else if Completing(w, a) && W.Withdrawn(s, w.d.id, w.d.kind) then Some(W.Cancelled)
    else if Completing(w, a) && W.Completes(s, w.d.id) && (w.d.kind == W.Failed || w.d.kind == W.Uncertain) then
      Some(w.d.kind)
    else None
  }

  /** The number of steps of a run with this cause. */
  function Tally(w: World, run: seq<Action>, k: W.WakeKind): nat {
    if run == [] then 0
    else
      var init := run[..|run| - 1];
      Tally(w, init, k) + W.One(Cause(Exec(w, init), run[|run| - 1]) == Some(k))
  }

  function CountOf(c: W.Counts, k: W.WakeKind): nat {
    match k
    case Activated => c.activated
    case Raced => c.raced
    case Cancelled => c.cancelled
    case Failed => c.failed
    case Uncertain => c.uncertain
    case Writing | Queued => 0
  }

  lemma CountsElsewhere(w: World, a: Action)
    requires !a.DecideWake? && !(a.Dispatch? && (w.d.Claimed? || w.d.Returned?))
    ensures Next(w, a).s.wake.counts == w.s.wake.counts
  {
    hide Updated, ReceivedRows, Offering, Acknowledged, SetTo, Restarted, Accepted, IsUuid, W.HookDecided, Scanned,
         FirstPending, Deliverable;
  }

  lemma CountNext(w: World, a: Action, k: W.WakeKind)
    requires w.d.Returned? ==> w.d.kind == W.Queued || w.d.kind == W.Failed || w.d.kind == W.Uncertain
    ensures CountOf(Next(w, a).s.wake.counts, k) == CountOf(w.s.wake.counts, k) + W.One(Cause(w, a) == Some(k))
  {
    hide W.HookDecided, W.Produced, W.Undecided, W.ValidWakeId, IsUuid;
    if a.DecideWake? {
      W.WhatAHookCounts(w.s.wake, a.payload, a.at);
    } else if a.Dispatch? && w.d.Claimed? {
      W.WhatAProducerCounts(w.s.wake, w.d.id, W.Writing, None, a.env.now);
    } else if a.Dispatch? && w.d.Returned? {
      W.WhatAProducerCounts(w.s.wake, w.d.id, w.d.kind, w.d.queueId, a.env.now);
    } else {
      hide Next;
      CountsElsewhere(w, a);
    }
  }

  /** In every run each of the five counters has grown by exactly the number of its own steps: notices
      that became the prompt, activity that met a `writing` marker, activity that met a later one and
      completions after the marker was taken away, and first completions that failed or were
      uncertain. */
  lemma {:induction false} CountersCount(w: World, run: seq<Action>, k: W.WakeKind)
    requires Ok(w)
    ensures CountOf(Exec(w, run).s.wake.counts, k) == CountOf(w.s.wake.counts, k) + Tally(w, run, k)
  {
    hide Next, Cause, CountOf, Ok;
    if run != [] {
      var m := |run| - 1;
      CountersCount(w, run[..m], k);
      OkStep(w, run, m);
      Results(Exec(w, run[..m]));
      CountNext(Exec(w, run[..m]), run[m], k);
    }
  }

  lemma Results(w: World)
    requires Ok(w)
    ensures w.d.Returned? ==> w.d.kind == W.Queued || w.d.kind == W.Failed || w.d.kind == W.Uncertain
  {
  }
}
