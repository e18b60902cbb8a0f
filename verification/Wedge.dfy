/** A wake claimed again after its outcome was decided: when it happens, and that it does. */
module Wedge {
  import opened Common
  import opened Budget
  import opened Messages
  import opened Offers
  import opened Bridge
  import opened Invariants
  import opened WakeRuns
  import opened WakeAccounts
  import opened Drain
  import W = Wake

  /** A claim wedges the marker exactly when the newest record already decided that very message. */
  lemma WhenAClaimWedges(w: World, e: Env)
    requires Ok(w) && ClaimsWake(w, Dispatch(e))
    ensures Wedged(Next(w, Dispatch(e))) <==>
            W.DecidedFor(w.s.wake.last, WakeClaimed(w.s, e.view, e.now).1.value)
  {
    hide WakeClaimed, IsUuid, TablesOk, WakeOk;
    ClaimIs(w.s, e.view, e.now);
  }

  /** A hook at a tool boundary that dies between its decision and its offer, and the end of that
      turn. */
  function CutHook(p: Payload, at: real): seq<Action> {
    [HookSeen, Renew(p), WritePhase(p.event), DecideWake(p, at), HookSeen, WritePhase(Stop)]
  }

  lemma CutHookEnds(u: World, p: Payload, at: real)
    requires p.event == PostToolUse
    ensures Exec(u, CutHook(p, at)) == u.(s := Decided(u.s, p, at).(observed := true, phase := Idle))
  {
    hide Next, W.HookDecided;
    var run := CutHook(p, at);
    var v := View({}, (r: Row) => "", (r: Row) => "");
    var u1 := u.(s := u.s.(observed := true));
    HookActions(u, Stop, p, v, at);
    NextIs(u, run, u1);
    HookActions(u1, p.event, p, v, at);
    NextIs(u1, run[1..], u1);
    var u2 := u1.(s := u1.s.(phase := Active));
    NextIs(u1, run[2..], u2);
    HookActions(u2, Stop, p, v, at);
    var u3 := u2.(s := Decided(u2.s, p, at));
    NextIs(u2, run[3..], u3);
    HookActions(u3, Stop, p, v, at);
    NextIs(u3, run[4..], u3);
    NextIs(u3, run[5..], u3.(s := u3.s.(phase := Idle)));
    assert run[5..][1..] == [];
  }

  lemma OtherActivityCancels(s: W.WakeState, id: string, p: Payload, at: real)
    requires Notified(s, id) && IsUuid(id) && p.event == PostToolUse
    ensures var t := W.HookDecided(s, p, at);
            t.pending.None? && W.DecidedFor(t.last, id)
  {
    hide IsUuid;
  }

  /** The chosen message stays the chosen one once those ahead of it are held. */
  lemma StillChosen(w: World, e: Env, u: Store)
    requires Waking(w) && Chosen(w.s.rows, e.view).Some?
    requires u.rows == Settled(w.s.rows, ReceivedRows(w.s.rows)[..Blocked(ReceivedRows(w.s.rows), e.view)], e.view)
    ensures Distinct(u.rows) && Chosen(u.rows, e.view) == Chosen(w.s.rows, e.view)
  {
    hide Settled, TablesOk, UniqueIds, ReceivedId, Moved, Deliverable, WakeClaimed;
    ClaimChosen(w, e);
  }

  lemma ClaimAgain(u: World, e: Env, c: Row)
    requires u.d.Ready? && FirstPending(u.s.out).None? && u.s.mode == Auto && WakeAllowed(u.s)
    requires Distinct(u.s.rows) && Chosen(u.s.rows, e.view) == Some(c)
    requires W.DecidedFor(u.s.wake.last, c.id)
    ensures var t := Exec(u, [Dispatch(e), Dispatch(e)]);
            Wedged(t) && t.s.wake.pending.value.id == c.id && t.h.claims == u.h.claims + 1
  {
    hide Settled, ReceivedRows, Blocked, Deliverable;
    ScannedExact(ReceivedRows(u.s.rows), u.s.rows, e.view);
    var run := [Dispatch(e), Dispatch(e)];
    assert Next(u, Dispatch(e)) == u.(d := WantWake);
    NextIs(u, run, u.(d := WantWake));
    var t := Claim(u.(d := WantWake), e);
    assert Next(u.(d := WantWake), Dispatch(e)) == t;
    NextIs(u.(d := WantWake), run[1..], t);
    assert run[1..][1..] == [];
  }

  /** From every world in which a wake is allowed, one more is left after it, nothing waits to be
      sent and the first deliverable message is undecided: wake, a hook that decides the wake but
      dies before it offers, end of turn, next claim; then the marker is wedged on that message. */
  lemma AWedgeIsReachable(w: World, e: Env, p: Payload, at: real)
    requires Waking(w) && Chosen(w.s.rows, e.view).Some? && p.event == PostToolUse
    requires Available(Spend(WakesLeft(w.s)))
    requires !W.DecidedFor(w.s.wake.last, Chosen(w.s.rows, e.view).value.id)
    ensures var run := WakePart(e) + (CutHook(p, at) + [Dispatch(e), Dispatch(e)]);
            && Wedged(Exec(w, run))
            && Exec(w, run).s.wake.pending.value.id == Chosen(w.s.rows, e.view).value.id
  {
    hide Settled, TablesOk, UniqueIds, ReceivedId, ReceivedRows, Blocked, Next, Moved, Deliverable, WakeClaimed,
         IsUuid,
         Wedged, WakePart, CutHook, Chosen, W.HookDecided;
    var c := Chosen(w.s.rows, e.view).value;
    var last := [Dispatch(e), Dispatch(e)];
    ExecAppend(w, WakePart(e), CutHook(p, at) + last);
    var u := Exec(w, WakePart(e));
    WakePartEnds(w, e);
    ExecAppend(u, CutHook(p, at), last);
    CutHookEnds(u, p, at);
    ClaimLeads(w, e, c);
    OtherActivityCancels(u.s.wake, c.id, p, at);
    StillChosen(w, e, u.s);
    ClaimAgain(Exec(u, CutHook(p, at)), e, c);
  }
}
