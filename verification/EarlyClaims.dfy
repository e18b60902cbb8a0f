/** Two runs the descriptions of the wake protocol do not lead one to expect: a marker that comes back
    after its acknowledgement, and a claim before any lifecycle hook. */
module EarlyClaims {
  import opened Common
  import opened Budget
  import opened Messages
  import opened Offers
  import opened Bridge
  import opened Invariants
  import opened WakeRuns
  import opened Drain
  import W = Wake

  // ---- a marker put back after its acknowledgement ------------------------------------------------

  /** Claim, acknowledgement of the claimed message, `writing` record. */
  function AcknowledgedEarly(e: Env, c: Row, later: Env): seq<Action> {
    [Dispatch(e), Dispatch(e), AckOne(Some(c.Ref())), Dispatch(later)]
  }

  lemma AcknowledgementClears(s: Store, c: Row)
    requires HasKey(s.rows, c.Ref()) && s.wake.pending.Some? && s.wake.pending.value.id == c.id
    ensures var t := OneAcknowledged(s, Some(c.Ref()));
            t.wake == s.wake.(pending := None) && ConsumedId(t.rows, c.id)
  {
    var rows := SetTo(s.rows, c.Ref(), Consumed);
    var i :| 0 <= i < |s.rows| && s.rows[i].Ref() == c.Ref();
    assert rows[i].id == c.id && rows[i].status == Consumed;
  }

  lemma ClaimedIsStored(w: World, e: Env, c: Row)
    requires Waking(w) && Chosen(w.s.rows, e.view) == Some(c)
    ensures HasKey(Claim(w.(d := WantWake), e).s.rows, c.Ref())
  {
    hide Settled, TablesOk, ReceivedRows, Blocked, Deliverable, WakeClaimed, IsUuid;
    ClaimChosen(w, e);
    var rows := Claim(w.(d := WantWake), e).s.rows;
    var i :| 0 <= i < |w.s.rows| && w.s.rows[i] == c;
    assert rows[i].Ref() == c.Ref();
  }

  /** If a message is acknowledged between the claim of its wake and the `writing` record, that
      record puts its marker back, although the message is consumed, exactly unless the newest record
      is already about that message and past `writing`. */
  lemma WhenAnAcknowledgedMarkerReturns(w: World, e: Env, c: Row, later: Env)
    requires Waking(w) && Chosen(w.s.rows, e.view) == Some(c)
    ensures var u := Exec(w, AcknowledgedEarly(e, c, later));
            var last := w.s.wake.last;
            && ConsumedId(u.s.rows, c.id)
            && (u.s.wake.pending.Some? <==> !(last.Some? && last.value.id == c.id && W.Rank(last.value.state) > 0))
            && (u.s.wake.pending.Some? ==> u.s.wake.pending.value.id == c.id)
  {
    hide Settled, TablesOk, ReceivedRows, Blocked, Deliverable, WakeClaimed, IsUuid, Next, OneAcknowledged, W.Produced,
         Chosen, Waking;
    var run := AcknowledgedEarly(e, c, later);
    var rest := [AckOne(Some(c.Ref())), Dispatch(later)];
    LookAndClaim(w, e, rest);
    assert run == [Dispatch(e), Dispatch(e)] + rest;
    ClaimLeads(w, e, c);
    ClaimedIsStored(w, e, c);
    var u := Claim(w.(d := WantWake), e);
    AcknowledgementClears(u.s, c);
    var v := u.(s := OneAcknowledged(u.s, Some(c.Ref())));
    AcknowledgeIs(u, c);
    NextIs(u, rest, v);
    DispatchIs(v, later);
    NextIs(v, rest[1..], Dispatched(v, later));
    assert rest[1..][1..] == [];
    W.WhenAMarkerReappears(v.s.wake, c.id, W.Writing, None, later.now);
    RecordNames(v.s.wake, c.id, later.now);
  }

  lemma AcknowledgeIs(u: World, c: Row)
    ensures Next(u, AckOne(Some(c.Ref()))) == u.(s := OneAcknowledged(u.s, Some(c.Ref())))
  {
    hide OneAcknowledged;
  }

  lemma RecordNames(s: W.WakeState, id: string, now: real)
    requires IsUuid(id) && s.pending.None?
    ensures W.Produced(s, id, W.Writing, None, now).pending.Some? ==>
              W.Produced(s, id, W.Writing, None, now).pending.value.id == id
  {
    hide IsUuid;
  }

  // ---- a claim while the state awaits a hook ----------------------------------------------------------

  /** A new bridge in automatic mode. */
  function NewBridge(budget: Allowance): World {
    World(NewStore(Auto, Some(budget)), Ready, NO_HISTORY)
  }

  /** A message arrives, and a startup hook that is not matched to the session writes its phase. */
  function StartedUnmatched(r: Row): seq<Action> {
    [Arrive(r), WritePhase(SessionStart)]
  }

  lemma UnmatchedStart(budget: Allowance, r: Row)
    requires IsUuid(r.id)
    ensures var w := NewBridge(budget);
            Exec(w, StartedUnmatched(r)) == w.(s := w.s.(rows := [r.(status := Received)], phase := Idle))
  {
    hide IsUuid;
    var w := NewBridge(budget);
    var run := StartedUnmatched(r);
    var u := w.(s := w.s.(rows := [r.(status := Received)]));
    assert [] + [r.(status := Received)] == [r.(status := Received)];
    assert Next(w, Arrive(r)) == u;
    NextIs(w, run, u);
    assert Next(u, WritePhase(SessionStart)) == u.(s := u.s.(phase := Idle));
    NextIs(u, run[1..], u.(s := u.s.(phase := Idle)));
    assert run[1..][1..] == [];
  }

  lemma OneReceived(c: Row, v: View)
    requires c.status == Received && Deliverable(v, c)
    ensures Chosen([c], v) == Some(c)
  {
    hide Deliverable;
    assert [c][1..] == [];
    assert ReceivedRows([]) == [] && [c] + [] == [c];
    assert ReceivedRows([c]) == [c];
  }

  lemma StartedWakes(budget: Allowance, r: Row)
    requires IsUuid(r.id) && Available(budget)
    ensures var w := NewBridge(budget);
            var u := w.(s := w.s.(rows := [r.(status := Received)], phase := Idle));
            Ok(u) && Waking(u) && Reported(u.s) == AwaitingLifecycleHook
  {
    hide IsUuid;
  }

  /** From a new bridge: with no lifecycle hook on record the state reads `awaiting_lifecycle_hook`,
      and the dispatcher claims a wake all the same. */
  lemma ClaimsWhileAwaiting(budget: Allowance, r: Row, e: Env)
    requires IsUuid(r.id) && Deliverable(e.view, r) && Available(budget)
    ensures var w := Exec(NewBridge(budget), StartedUnmatched(r));
            var u := Next(w, Dispatch(e));
            && Ok(w) && Waking(w) && Chosen(w.s.rows, e.view) == Some(r.(status := Received))
            && Reported(w.s) == AwaitingLifecycleHook && Reported(u.s) == AwaitingLifecycleHook
            && ClaimsWake(u, Dispatch(e)) && Next(u, Dispatch(e)).d == Claimed(r.id)
  {
    UnmatchedStart(budget, r);
    StartedWakes(budget, r);
    var w := Exec(NewBridge(budget), StartedUnmatched(r));
    OneReceived(r.(status := Received), e.view);
    hide IsUuid, Exec, StartedUnmatched, Deliverable, Ok, Chosen, Reported, TablesOk, WakeClaimed;
    ClaimLeads(w, e, r.(status := Received));
    assert Next(w, Dispatch(e)) == w.(d := WantWake);
  }

  /** And on that bridge the marker of an acknowledged message comes back. */
  lemma AnAcknowledgedMarkerReturns(budget: Allowance, r: Row, e: Env, later: Env)
    requires IsUuid(r.id) && Deliverable(e.view, r) && Available(budget)
    ensures var w := Exec(NewBridge(budget), StartedUnmatched(r));
            var u := Exec(w, AcknowledgedEarly(e, r.(status := Received), later));
            && ConsumedId(u.s.rows, r.id)
            && u.s.wake.pending.Some? && u.s.wake.pending.value.id == r.id
  {
    hide IsUuid, Deliverable, Chosen, Waking, Ok, AcknowledgedEarly, ConsumedId;
    UnmatchedStart(budget, r);
    ClaimsWhileAwaiting(budget, r, e);
    var w := Exec(NewBridge(budget), StartedUnmatched(r));
    hide Exec;
    WhenAnAcknowledgedMarkerReturns(w, e, r.(status := Received), later);
  }
}
