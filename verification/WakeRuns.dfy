/** The idle-wake protocol over whole runs: one dispatcher interleaved with any number of hooks,
    acknowledgements, owner changes and listener crashes. */
module WakeRuns {
  import opened Common
  import opened Budget
  import opened Messages
  import opened Offers
  import opened Bridge
  import opened Invariants
  import opened AtMostOnce
  import W = Wake

  /** The wake the dispatcher is in the middle of. */
  function InFlight(d: Dispatcher): Option<string> {
    match d
    case Claimed(id) => Some(id)
    case Calling(id) => Some(id)
    case Returned(id, _, _) => Some(id)
    case _ => None
  }

  predicate WakeOk(w: World) {
    && W.MarkerAgrees(w.s.wake)
    && (w.s.wake.pending.Some? ==> IsUuid(w.s.wake.pending.value.id) && W.ProducerKind(w.s.wake.pending.value.status))
    && (InFlight(w.d).Some? ==> IsUuid(InFlight(w.d).value))
    && (InFlight(w.d).Some? && w.s.wake.pending.Some? ==> w.s.wake.pending.value.id == InFlight(w.d).value)
    && (w.d.Calling? || w.d.Returned? ==> w.s.wake.last.Some?)
    && (w.d.Returned? ==> w.d.kind == W.Queued || w.d.kind == W.Failed || w.d.kind == W.Uncertain)
  }

  /** A step in which the dispatcher claims a wake. */
  predicate ClaimsWake(w: World, a: Action) {
    a.Dispatch? && w.d.WantWake? && WakeClaimed(w.s, a.env.view, a.env.now).1.Some?
  }

  /** What a claim does to the wake state: it needs an absent marker and stores one. */
  lemma ClaimIs(s: Store, v: View, now: real)
    requires TablesOk(s)
    ensures var (t, id) := WakeClaimed(s, v, now);
            if id.None? then t.wake == s.wake
            else s.wake.pending.None? && IsUuid(id.value)
                 && t.wake == s.wake.(pending := Some(W.Marker(id.value, W.Writing, now, None)))
  {
    if WakeAllowed(s) {
      ScannedExact(ReceivedRows(s.rows), s.rows, v);
      ReceivedAreRows(s.rows);
      var n := Blocked(ReceivedRows(s.rows), v);
      if n < |ReceivedRows(s.rows)| {
        assert ReceivedRows(s.rows)[n] in s.rows;
      }
    }
  }

  lemma DispatchWakeOk(w: World, e: Env)
    requires TablesOk(w.s) && WakeOk(w)
    ensures WakeOk(Dispatched(w, e))
    ensures W.Climbs(w.s.wake.last, Dispatched(w, e).s.wake.last)
  {
    hide TablesOk, WakeClaimed, IsUuid, FirstPending, ReceivedKey, SetReceivedTo, ReceivedRows, W.Climbs,
         W.MarkerAgrees;
    RecordedReflects(w.s.wake);
    match w.d {
      case WantWake => ClaimIs(w.s, e.view, e.now); ClaimWakeOk(w, e);
      case Claimed(id) => ProducedKeeps(w.s.wake, id, W.Writing, None, e.now);
      case Returned(id, k, q) => ProducedKeeps(w.s.wake, id, k, q, e.now);
      case _ =>
    }
  }

  lemma RecordedReflects(s: W.WakeState)
    ensures W.Climbs(s.last, s.last)
  {
  }

  lemma ClaimWakeOk(w: World, e: Env)
    requires TablesOk(w.s) && WakeOk(w) && w.d.WantWake?
    ensures WakeOk(Claim(w, e))
    ensures Claim(w, e).s.wake.last == w.s.wake.last
  {
    hide TablesOk, WakeClaimed, IsUuid;
    ClaimIs(w.s, e.view, e.now);
  }

  /** The producer's side of one wake. */
  lemma ProducedKeeps(s: W.WakeState, id: string, k: W.WakeKind, q: Option<string>, now: real)
    requires W.MarkerAgrees(s) && IsUuid(id) && W.ProducerKind(k)
    requires k != W.Writing ==> s.last.Some?
    requires s.pending.Some? ==> s.pending.value.id == id && W.ProducerKind(s.pending.value.status)
    ensures var t := W.Produced(s, id, k, q, now);
            && W.MarkerAgrees(t) && W.Climbs(s.last, t.last) && t.last.Some?
            && (t.pending.Some? ==> t.pending.value.id == id && W.ProducerKind(t.pending.value.status))
            && (k != W.Writing && s.pending.None? ==> t.pending.None?)
            && (s.pending.Some? ==> t.pending.Some?)
            && (W.DecidedFor(s.last, id) ==> W.DecidedFor(t.last, id))
            && t.counts.Decided() == s.counts.Decided()
               + (if k != W.Writing && s.pending.None? && s.last.value.id == id && !W.DecidedFor(s.last, id)
                  then 1 else 0)
  {
    hide W.Recorded, IsUuid, W.MarkerAgrees;
    W.RecordedKeeps(s, id, k, q, None, None, now);
    W.RecordedKeeps(s, id, W.Cancelled, q, None, None, now);
    RecordedMarker(s, id, k, q, None, None, now);
    RecordedMarker(s, id, W.Cancelled, q, None, None, now);
  }

  lemma RecordedMarker(s: W.WakeState, id: string, k: W.WakeKind, q: Option<string>,
                       event: Option<HookEvent>, turn: Option<string>, now: real)
    ensures var t := W.Recorded(s, id, k, q, event, turn, now);
            && t.last.Some? && t.last.value.id == id
            && t.last.value.state == (if W.Refused(s.last, id, k) then s.last.value.state else k)
            && if W.Refused(s.last, id, k) then t.pending == s.pending
            else if W.Rank(k) == 2 then t.pending.None?
            else t.pending.Some? && t.pending.value.id == id && t.pending.value.status == k
  {
  }

  lemma HookKeeps(s: W.WakeState, p: Payload, now: real)
    requires W.MarkerAgrees(s) && (s.pending.Some? ==> W.ProducerKind(s.pending.value.status))
    ensures var t := W.HookDecided(s, p, now);
            && W.MarkerAgrees(t) && W.Climbs(s.last, t.last)
            && (s.last.Some? ==> t.last.Some?)
            && (t.pending.Some? ==> t.pending == s.pending)
            && (s.pending.Some? && t.pending.None? ==> W.DecidedFor(t.last, s.pending.value.id))
            && t.counts.Decided() <= s.counts.Decided()
               + (if s.pending.Some? && !W.DecidedFor(s.last, s.pending.value.id) then 1 else 0)
  {
    hide W.Recorded, IsUuid, W.MarkerAgrees;
    if s.pending.Some? {
      var id := s.pending.value.id;
      var k := W.Verdict(s.pending.value, p);
      W.RecordedKeeps(s, id, k, None, Some(p.event), p.turn, now);
      RecordedMarker(s, id, k, None, Some(p.event), p.turn, now);
    }
  }

  /** Which actions touch the wake state at all. */
  lemma WakeFrame(w: World, a: Action)
    requires !a.Dispatch? && !a.DecideWake?
    ensures var t := Next(w, a);
            && (t.d == w.d || (a.ListenerStart? && t.d == Ready))
            && t.s.wake.last == w.s.wake.last && t.s.wake.counts == w.s.wake.counts
            && (t.s.wake.pending == w.s.wake.pending || t.s.wake.pending.None?)
            && (t.s.wake.pending != w.s.wake.pending ==> a.AckAll? || a.AckOne? || a.OwnerChange? || a.Restore?)
            && ((a.AckAll? || a.AckOne?) && t.s.wake.pending != w.s.wake.pending ==>
                  ConsumedId(t.s.rows, w.s.wake.pending.value.id))
            && (a.OwnerChange? || a.Restore? ==> t.s.wake.pending.None?)
            && t.h.claims == w.h.claims && t.h.notices == w.h.notices
  {
    hide Updated, ReceivedRows, Offering, Acknowledged, SetTo, Restarted, Accepted, IsUuid;
  }

  lemma WakeOkNext(w: World, a: Action)
    requires TablesOk(w.s) && WakeOk(w)
    ensures WakeOk(Next(w, a))
    ensures W.Climbs(w.s.wake.last, Next(w, a).s.wake.last)
  {
    hide TablesOk, IsUuid, W.HookDecided, Dispatched, Offered, W.MarkerAgrees;
    if a.Dispatch? {
      DispatchWakeOk(w, a.env);
    } else if a.DecideWake? {
      HookKeeps(w.s.wake, a.payload, a.at);
    } else {
      hide Next;
      WakeFrame(w, a);
      MarkerMayGo(w.s.wake, Next(w, a).s.wake);
    }
  }

  lemma MarkerMayGo(s: W.WakeState, t: W.WakeState)
    requires W.MarkerAgrees(s) && t.last == s.last && (t.pending == s.pending || t.pending.None?)
    ensures W.MarkerAgrees(t)
  {
  }

  predicate Ok(w: World) {
    Inv(w) && WakeOk(w)
  }

  lemma OkNext(w: World, a: Action)
    requires Ok(w)
    ensures Ok(Next(w, a))
  {
    hide WakeOk, TablesOk, Next;
    InvNext(w, a);
    WakeOkNext(w, a);
  }

  lemma {:induction false} OkStep(w: World, run: seq<Action>, i: nat)
    requires Ok(w) && i <= |run|
    ensures Ok(Step(w, run, i))
  {
    hide Ok, Next;
    if i == 0 {
      StepEnds(w, run);
    } else {
      OkStep(w, run, i - 1);
      StepNext(w, run, i - 1);
      OkNext(Step(w, run, i - 1), run[i - 1]);
    }
  }

  function LastAt(w: World, run: seq<Action>, i: nat): Option<W.Last>
    requires i <= |run|
  {
    Step(w, run, i).s.wake.last
  }

  /** While the newest record names one id, its rank never falls, a decided outcome never changes,
      its time never runs back and a known queue id stays. */
  lemma {:induction false} RankNeverFalls(w: World, run: seq<Action>, i: nat, j: nat, id: string)
    requires Ok(w) && i <= j <= |run|
    requires forall m | i <= m <= j :: LastAt(w, run, m).Some? && LastAt(w, run, m).value.id == id
    ensures W.Climbs(LastAt(w, run, i), LastAt(w, run, j))
    decreases j - i
  {
    hide Next, Ok;
    if i < j {
      RankNeverFalls(w, run, i, j - 1, id);
      OkStep(w, run, j - 1);
      StepNext(w, run, j - 1);
      ClimbsIn(Step(w, run, j - 1), run[j - 1]);
      assert LastAt(w, run, j - 1).value.id == id;
    }
  }

  lemma ClimbsIn(w: World, a: Action)
    requires Ok(w)
    ensures W.Climbs(w.s.wake.last, Next(w, a).s.wake.last)
  {
    WakeOkNext(w, a);
  }

  /** A completion never makes an absent marker present: the dispatcher recorded the wake before. */
  lemma CompletionsNeverRecreate(w: World, run: seq<Action>, i: nat)
    requires Ok(w) && i < |run|
    requires Step(w, run, i).d.Returned? && run[i].Dispatch?
    requires Step(w, run, i).s.wake.pending.None?
    ensures Step(w, run, i + 1).s.wake.pending.None?
  {
    hide IsUuid, TablesOk, W.Produced, W.MarkerAgrees;
    OkStep(w, run, i);
    StepNext(w, run, i);
    var u := Step(w, run, i);
    ProducedKeeps(u.s.wake, u.d.id, u.d.kind, u.d.queueId, run[i].env.now);
  }

  /** In every reachable state a marker past `writing` is a copy of the newest record. */
  lemma MarkersAgree(w: World, run: seq<Action>)
    requires Ok(w)
    ensures W.MarkerAgrees(Exec(w, run).s.wake)
  {
    OkStep(w, run, |run|);
    StepEnds(w, run);
  }
}
