/** What the remaining transactions answer exactly: arrivals and receipts (src/peer_chat.py), the
    command line's acknowledgements, windows and their renewal (src/peer_budget.py), a new owner, a
    restarted listener, and the modes. */
module Transactions {
  import opened Common
  import opened Budget
  import opened Messages
  import opened Bridge
  import opened WakeRuns
  import opened Ticks
  import W = Wake

  // ---- a new bridge -----------------------------------------------------------------------------------

  /** A new bridge has nothing to deliver or send, is in the mode asked for, and has the windows asked for
      or none; whatever arrives, it claims no wake and reports no session before a phase is written. */
  lemma NewBridgesWait(mode: Mode, budget: Option<Allowance>, r: Row, e: Env)
    ensures var w := World(NewStore(mode, budget), WantWake, NO_HISTORY);
            var t := Next(w, Arrive(r));
            && Ok(w) && w.s.rows == [] && w.s.out == [] && w.s.mode == mode
            && (budget.None? ==> w.s.remaining.Unlimited? && WakesLeft(w.s).Unlimited?)
            && (budget.Some? ==> w.s.remaining == WakesLeft(w.s) == budget.value && w.s.limit == budget)
            && !ClaimsWake(t, Dispatch(e))
            && Reported(t.s) != ActiveHooks && Reported(t.s) != IdleLiveOnly && Reported(t.s) != IdleWakeEnabled
            && Reported(t.s) != PausedInterrupted
  {
    hide IsUuid;
  }

  // ---- what arrives ---------------------------------------------------------------------------------

  /** A message under a valid id is stored at the end of the table exactly if its peer and id are new;
      nothing else changes. */
  lemma ArrivalsExactly(w: World, r: Row)
    ensures var rows := w.s.rows;
            var isNew := IsUuid(r.id) && forall i | 0 <= i < |rows| :: rows[i].peer != r.peer || rows[i].id != r.id;
            Next(w, Arrive(r)) == if isNew then w.(s := w.s.(rows := w.s.rows + [r.(status := Received)])) else w
  {
    hide IsUuid;
    var rows := w.s.rows;
    assert HasKey(rows, r.Ref()) <==> exists i :: 0 <= i < |rows| && rows[i].peer == r.peer && rows[i].id == r.id;
  }

  /** May this peer's receipt answer the row? */
  predicate Answerable(o: OutRow, k: Key, legacy: bool) {
    o.id == k.id && (o.peer == Some(k.peer) || (o.peer.None? && legacy))
  }

  /** A receipt answers exactly the outgoing rows of its id that are bound to its peer, or to none when
      the peer is the original one; the same receipt again answers nothing. */
  lemma ReceiptsExactly(w: World, k: Key, body: string, legacy: bool)
    ensures var t := Next(w, Receipt(k, body, legacy));
            && t.d == w.d && t.h == w.h && t.s == w.s.(receipts := t.s.receipts, out := t.s.out)
            && |t.s.out| == |w.s.out|
            && (k in w.s.receipts && w.s.receipts[k] == body ==> t == w)
            && (!(k in w.s.receipts && w.s.receipts[k] == body) ==>
                  forall i | 0 <= i < |w.s.out| ::
                    t.s.out[i] == if Answerable(w.s.out[i], k, legacy) then w.s.out[i].(status := PeerReply(body))
                                  else w.s.out[i])
            && Next(t, Receipt(k, body, legacy)) == t
  {
  }

  /** A message to send is stored at the end, pending and bound to its peer, exactly if its id is new. */
  lemma SendsExactly(w: World, id: string, peer: string)
    ensures var out := w.s.out;
            Next(w, NewOutgoing(id, peer)) ==
              if forall i | 0 <= i < |out| :: out[i].id != id
              then w.(s := w.s.(out := out + [OutRow(id, Some(peer), Pending)])) else w
  {
  }

  // ---- acknowledgements -----------------------------------------------------------------------------

  /** Acknowledging everything consumes exactly the received, queued and offered messages of the peers
      meant; held, forwarding and failed ones stay, and so does everything of other peers. */
  lemma AcknowledgedExactly(w: World, peer: Option<string>)
    ensures var t := Next(w, AckAll(peer)).s.rows;
            && |t| == |w.s.rows|
            && forall i | 0 <= i < |t| ::
                 var r := w.s.rows[i];
                 t[i] == if (peer.None? || r.peer == peer.value)
                            && (r.status == Received || r.status == Queued || r.status == HookOffered)
                         then r.(status := Consumed) else r
  {
  }

  /** Acknowledging one message consumes exactly that one, whatever its status. */
  lemma OneAcknowledgedExactly(w: World, k: Key)
    ensures var t := Next(w, AckOne(Some(k))).s.rows;
            && |t| == |w.s.rows|
            && forall i | 0 <= i < |t| ::
                 t[i] == if w.s.rows[i].peer == k.peer && w.s.rows[i].id == k.id
                         then w.s.rows[i].(status := Consumed) else w.s.rows[i]
  {
  }

  // ---- windows ----------------------------------------------------------------------------------------

  /** The owner typed something in a named turn that has not renewed yet, and a window is declared. */
  predicate Renewing(s: Store, p: Payload) {
    && p.event == UserPromptSubmit && p.prompt == Owner && p.turn.Some? && p.turn.value != ""
    && s.limit.Some? && s.limit.value.Finite? && s.limit.value.left <= 50
    && s.ownerTurn != p.turn
  }

  /** Then, and only then, a prompt sets both windows back to the declared one. */
  lemma RenewalsExactly(w: World, p: Payload)
    ensures !Renewing(w.s, p) ==> Next(w, Renew(p)) == w
    ensures Renewing(w.s, p) ==>
              && Next(w, Renew(p)).d == w.d
              && Next(w, Renew(p)).s ==
                 w.s.(remaining := w.s.limit.value, wakeRemaining := w.s.limit, ownerTurn := p.turn)
  {
  }

  /** The step renews for a turn. */
  predicate RenewsFor(w: World, a: Action, turn: Option<string>) {
    a.Renew? && Renewing(w.s, a.payload) && a.payload.turn == turn
  }

  lemma OwnerTurnStep(w: World, a: Action)
    ensures Next(w, a).s.ownerTurn != w.s.ownerTurn ==> RenewsFor(w, a, Next(w, a).s.ownerTurn)
  {
    hide Settled, ReceivedRows, Offering, Scanned, Updated, SetTo, Acknowledged, Restarted, IsUuid, W.Produced,
         W.HookDecided, FirstPending, Deliverable;
  }

  /** No turn renews twice in a row: between two renewals of a run for one turn there is one for
      another, however much was spent in between. */
  lemma {:induction false} OneRenewalPerTurn(w: World, run: seq<Action>, i: nat, j: nat, turn: Option<string>)
    returns (k: nat)
    requires i <= j < |run| && Step(w, run, i).s.ownerTurn == turn && RenewsFor(Step(w, run, j), run[j], turn)
    ensures i <= k < j && run[k].Renew? && run[k].payload.turn != turn && Renewing(Step(w, run, k).s, run[k].payload)
    decreases j - i
  {
    hide Next, Renewing;
    if Step(w, run, i).s.ownerTurn == turn && i == j {
      NotTwice(Step(w, run, i).s, run[i].payload);
    }
    StepNext(w, run, i);
    OwnerTurnStep(Step(w, run, i), run[i]);
    if Step(w, run, i + 1).s.ownerTurn == turn {
      k := OneRenewalPerTurn(w, run, i + 1, j, turn);
    } else {
      NotTwice(Step(w, run, i).s, if run[i].Renew? then run[i].payload else Payload(Stop, Absent, None));
      k := i;
    }
  }

  lemma NotTwice(s: Store, p: Payload)
    ensures Renewing(s, p) ==> p.turn != s.ownerTurn
  {
  }

  /** A declared window is what both windows hold at once, and again after the owner's next turn. */
  lemma WindowsAreAsDeclared(w: World, mode: Mode, n: nat, p: Payload)
    requires n <= 50
    ensures var t := Next(w, Configure(mode, Some(Finite(n))));
            && t.s == w.s.(mode := mode, remaining := Finite(n), wakeRemaining := Some(Finite(n)),
                           limit := Some(Finite(n)))
            && (Renewing(t.s, p) <==> p.event == UserPromptSubmit && p.prompt == Owner
                                      && p.turn.Some? && p.turn.value != "" && w.s.ownerTurn != p.turn)
    ensures Next(w, Configure(mode, None)).s == w.s.(mode := mode)
    ensures Next(w, Configure(mode, Some(Unlimited))).s.limit == Some(Unlimited)
            && !Renewing(Next(w, Configure(mode, Some(Unlimited))).s, p)
  {
  }

  // ---- owners and restarts ----------------------------------------------------------------------------

  /** Another owner takes the marker away, and the old owner's phase and hook unless a hook of the new
      one came first; then no wake is claimed before some phase is written. */
  lemma NewOwnersStartAfresh(w: World, known: bool, e: Env)
    ensures var t := Next(w, OwnerChange(known));
            && t.s.wake == w.s.wake.(pending := None)
            && t.s == (if known then w.s else w.s.(phase := Unknown, observed := false)).(wake := t.s.wake)
            && (!known ==> !ClaimsWake(t, Dispatch(e)))
    ensures Next(w, Restore).s == w.s.(wake := w.s.wake.(pending := None))
  {
  }

  /** A starting listener makes exactly the forwards and socket writes under way uncertain, and begins
      with no step half done. */
  lemma RestartsExactly(w: World)
    ensures var t := Next(w, ListenerStart);
            && t.d.Ready? && t.h == w.h && t.s == w.s.(rows := t.s.rows, out := t.s.out)
            && |t.s.rows| == |w.s.rows| && |t.s.out| == |w.s.out|
            && (forall i | 0 <= i < |w.s.rows| ::
                  t.s.rows[i] == if w.s.rows[i].status == Forwarding then w.s.rows[i].(status := QueueUncertain)
                                 else w.s.rows[i])
            && (forall i | 0 <= i < |w.s.out| ::
                  t.s.out[i] == if w.s.out[i].status == Writing then w.s.out[i].(status := Doubtful) else w.s.out[i])
  {
  }

  /** A reconciled ending interrupts the session exactly if the turn was aborted and otherwise makes it
      idle, and only a session known active or idle; an interrupted one is then reported so in every mode
      but inbox, and no tick with nothing to send does anything for it. */
  lemma ReconcilesExactly(w: World, aborted: bool, e: Env)
    ensures var t := Next(w, Reconcile(aborted));
            && t == (if w.s.phase == Unknown || w.s.phase == Interrupted then w
                     else if aborted then w.(s := w.s.(phase := Interrupted)) else w.(s := w.s.(phase := Idle)))
            && (t.s.phase == Interrupted ==> t.s.mode == Inbox || Reported(t.s) == PausedInterrupted)
            && (t.s.phase == Interrupted && t.d.Ready? && NothingToSend(t.s) ==> Next(t, Dispatch(e)) == t)
  {
    var t := Next(w, Reconcile(aborted));
    if t.d.Ready? && NothingToSend(t.s) {
      WhenATickIsIdle(t, e);
    }
  }

  // ---- modes --------------------------------------------------------------------------------------------

  /** In inbox and queue mode a hook offers nothing and changes nothing but what it returns: the stored
      notices. */
  lemma HooksOfferInTwoModes(w: World, v: View, notice: string)
    requires w.s.mode == Inbox || w.s.mode == Queue
    ensures Next(w, Offer(v, notice)) == w
    ensures Offered(w.s, v, notice).1.pieces == if notice == "" then [] else [notice]
  {
    assert w.h.handed + multiset{} == w.h.handed;
    assert multiset(Offered(w.s, v, notice).1.offered) == multiset{};
  }

  /** A declared or remaining window that still has something. */
  predicate Has(a: Allowance) {
    a != Finite(0)
  }

  /** When each state is reported, in any order of asking. */
  lemma StatesExactly(s: Store)
    ensures var wakes := if s.wakeRemaining.Some? then s.wakeRemaining.value else s.remaining;
            var open := s.mode != Inbox && s.phase != Interrupted && Has(s.remaining);
            var hooked := open && s.mode != Queue && s.observed && s.phase != Unknown;
            && (Reported(s) == ManualInbox <==> s.mode == Inbox)
            && (Reported(s) == PausedInterrupted <==> s.mode != Inbox && s.phase == Interrupted)
            && (Reported(s) == PausedBudget <==> s.mode != Inbox && s.phase != Interrupted && !Has(s.remaining))
            && (Reported(s) == AfterTurnQueue <==> open && s.mode == Queue)
            && (Reported(s) == AwaitingLifecycleHook <==>
                  open && s.mode != Queue && (!s.observed || s.phase == Unknown))
            && (Reported(s) == PausedWakeBudget <==> hooked && s.mode == Auto && s.phase == Idle && !Has(wakes))
            && (Reported(s) == ActiveHooks <==> hooked && s.phase == Active)
            && (Reported(s) == IdleLiveOnly <==> hooked && s.mode == Live && s.phase == Idle)
            && (Reported(s) == IdleWakeEnabled <==> hooked && s.mode == Auto && s.phase == Idle && Has(wakes))
  {
  }

  /** `manual_inbox` means that neither a hook nor a tick with nothing to send does anything. */
  lemma ManualMeansManual(w: World, v: View, notice: string, e: Env)
    requires Reported(w.s) == ManualInbox && w.d.Ready? && NothingToSend(w.s)
    ensures Next(w, Offer(v, notice)) == w && Next(w, Dispatch(e)) == w
  {
    hide Next;
    HooksOfferInTwoModes(w, v, notice);
    WhenATickIsIdle(w, e);
  }

  /** `after_turn_queue` is reported exactly when a tick with nothing to send chooses among the received
      messages. */
  lemma QueueStateQueues(w: World)
    requires w.d.Ready? && NothingToSend(w.s)
    ensures Reported(w.s) == AfterTurnQueue <==> Queueing(w)
  {
  }

  /** `idle_live_only` is reported exactly in live mode with evidence of hooks, an allowance and no
      active turn; then no tick does anything. */
  lemma LiveOnlyWaits(w: World, e: Env)
    requires w.d.Ready? && NothingToSend(w.s)
    ensures Reported(w.s) == IdleLiveOnly <==>
              w.s.mode == Live && w.s.observed && w.s.phase == Idle && w.s.remaining != Finite(0)
    ensures Reported(w.s) == IdleLiveOnly ==> Next(w, Dispatch(e)) == w
  {
    hide Next;
    WhenATickIsIdle(w, e);
  }
}
