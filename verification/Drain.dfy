/** With unlimited allowances the protocol empties the inbox: each cycle of idle wake, notice
    prompt and stop hands over at least one message. */
module Drain {
  import opened Common
  import opened Budget
  import opened Messages
  import opened Offers
  import opened Bridge
  import opened Invariants
  import W = Wake

  /** Ids are unique across peers. */
  predicate UniqueIds(rows: seq<Row>) {
    forall i, j | 0 <= i < j < |rows| :: rows[i].id != rows[j].id
  }

  predicate ReceivedId(rows: seq<Row>, id: string) {
    exists i | 0 <= i < |rows| :: rows[i].id == id && rows[i].status == Received
  }

  /** Idle, unlimited, nothing else to do, and no received message whose wake was already decided. */
  predicate Draining(w: World) {
    && TablesOk(w.s) && UniqueIds(w.s.rows)
    && w.d.Ready? && FirstPending(w.s.out).None?
    && w.s.mode == Auto && w.s.phase == Idle
    && w.s.remaining.Unlimited? && WakesLeft(w.s).Unlimited?
    && w.s.wake.pending.None?
    && (w.s.wake.last.Some? && W.Rank(w.s.wake.last.value.state) == 2 ==>
          !ReceivedId(w.s.rows, w.s.wake.last.value.id))
  }

  /** In automatic mode, with nothing to send and a wake allowed. */
  predicate Waking(w: World) {
    && TablesOk(w.s)
    && w.d.Ready? && FirstPending(w.s.out).None?
    && w.s.mode == Auto && WakeAllowed(w.s)
  }

  lemma DrainingWakes(w: World)
    requires Draining(w)
    ensures Waking(w)
  {
  }

  /** A reference to an over-long message is itself short enough. */
  ghost predicate ShortReferences(v: View) {
    forall r: Row | IsUuid(r.id) :: |v.reference(r)| <= MAX_CONTEXT
  }

  /** The message the next wake is for, if any. */
  function Chosen(rows: seq<Row>, v: View): Option<Row> {
    var received := ReceivedRows(rows);
    var n := Blocked(received, v);
    if n < |received| then Some(received[n]) else None
  }

  /** The dispatcher's part of a cycle: look, claim, record, call, record. */
  function WakePart(e: Env): seq<Action> {
    [Dispatch(e), Dispatch(e), Dispatch(e), Dispatch(e), Dispatch(e)]
  }

  /** One hook process at a prompt, with no stored notices, and the hook at the end of the turn. */
  function HookPart(p: Payload, v: View, at: real): seq<Action> {
    [HookSeen, Renew(p), WritePhase(p.event), DecideWake(p, at), Offer(v, ""), HookSeen, WritePhase(Stop)]
  }

  /** One cycle: the wake is queued, its notice becomes the prompt, the turn ends. With nothing
      deliverable the dispatcher only looks and holds. */
  function Cycle(w: World, e: Env, turn: Option<string>): seq<Action> {
    var c := Chosen(w.s.rows, e.view);
    if c.None? then [Dispatch(e), Dispatch(e)]
    else WakePart(e) + HookPart(Payload(UserPromptSubmit, NoticeOf(c.value.id), turn), e.view, e.now)
  }

  lemma {:induction false} ExecAppend(w: World, a: seq<Action>, b: seq<Action>)
    ensures Exec(w, a + b) == Exec(Exec(w, a), b)
  {
    hide Next;
    if b == [] {
      assert a + b == a;
    } else {
      var m := |b| - 1;
      ExecAppend(w, a, b[..m]);
      assert (a + b)[..|a + b| - 1] == a + b[..m];
    }
  }

  lemma ExecCons(w: World, a: Action, rest: seq<Action>)
    ensures Exec(w, [a] + rest) == Exec(Next(w, a), rest)
  {
    hide Next;
    ExecAppend(w, [a], rest);
    assert [a][..0] == [];
    assert Exec(w, [a]) == Next(w, a);
  }

  lemma {:induction false} NextIs(w: World, run: seq<Action>, u: World)
    requires run != [] && Next(w, run[0]) == u
    ensures Exec(w, run) == Exec(u, run[1..])
  {
    hide Next;
    ExecCons(w, run[0], run[1..]);
    assert run == [run[0]] + run[1..];
  }

  /** The claim of a waking world. */
  lemma ClaimChosen(w: World, e: Env)
    requires Waking(w)
    ensures var rows := Settled(w.s.rows, ReceivedRows(w.s.rows)[..Blocked(ReceivedRows(w.s.rows), e.view)], e.view);
            var c := Chosen(w.s.rows, e.view);
            var (s, id) := WakeClaimed(w.s, e.view, e.now);
            && ReceivedRows(rows) == ReceivedRows(w.s.rows)[Blocked(ReceivedRows(w.s.rows), e.view)..]
            && Moved(w.s.rows, rows) && Distinct(rows)
            && if c.None? then id.None? && s == w.s.(rows := rows)
               else id == Some(c.value.id) && IsUuid(c.value.id) && c.value in w.s.rows && c.value.status == Received
                    && ReceivedRows(rows) != [] && ReceivedRows(rows)[0] == c.value && Deliverable(e.view, c.value)
                    && s == w.s.(rows := rows, wakeRemaining := Some(Spend(WakesLeft(w.s))),
                                 wake := w.s.wake.(pending := Some(W.Marker(c.value.id, W.Writing, e.now, None))))
  {
    hide Settled, Updated;
    ScannedExact(ReceivedRows(w.s.rows), w.s.rows, e.view);
    ClaimMoves(w.s, e.view, e.now);
    SettledMoves(w.s.rows, Blocked(ReceivedRows(w.s.rows), e.view), e.view);
    ReceivedAreRows(w.s.rows);
    var n := Blocked(ReceivedRows(w.s.rows), e.view);
    if n < |ReceivedRows(w.s.rows)| {
      assert ReceivedRows(w.s.rows)[n] in w.s.rows;
    }
  }

  /** An unlimited offer always gets to the head of the received list. */
  lemma OfferTakesTheHead(s: Store, v: View)
    requires TablesOk(s) && ShortReferences(v)
    requires (s.mode == Auto || s.mode == Live) && s.remaining.Unlimited?
    ensures var n := Reach(FirstFew(ReceivedRows(s.rows)), s.remaining, 0, v);
            var (t, b) := Offered(s, v, "");
            && n <= |ReceivedRows(s.rows)| && (ReceivedRows(s.rows) != [] ==> n > 0)
            && t == s.(rows := b.rows)
            && Moved(s.rows, t.rows) && Distinct(t.rows)
            && ReceivedRows(t.rows) == ReceivedRows(s.rows)[n..]
  {
    hide Settled, Updated, ReceivedRows, Moved, Reach, Offering;
    BatchExact(s.rows, s.remaining, [], v);
    OfferMoves(s, v, "");
    if ReceivedRows(s.rows) != [] {
      ReceivedAreRows(s.rows);
      assert ReceivedRows(s.rows)[0] in s.rows;
      assert FirstFew(ReceivedRows(s.rows))[0] == ReceivedRows(s.rows)[0];
    }
  }

  /** What the wake of message `id` looks like when its queue command has returned. */
  predicate Notified(s: W.WakeState, id: string) {
    && s.last.Some? && s.last.value.id == id && W.Rank(s.last.value.state) < 2
    && s.pending.Some? && s.pending.value.id == id
  }

  lemma RecordsNotify(s: W.WakeState, id: string, k: W.WakeKind, q: Option<string>, t0: real, t1: real)
    requires IsUuid(id) && W.ProducerKind(k) && s.pending.Some? && s.pending.value.id == id && !W.DecidedFor(s.last, id)
    ensures Notified(W.Produced(W.Produced(s, id, W.Writing, None, t0), id, k, q, t1), id)
  {
    hide IsUuid;
    RecordNotifies(s, id, W.Writing, None, t0);
    RecordNotifies(W.Produced(s, id, W.Writing, None, t0), id, k, q, t1);
  }

  lemma RecordNotifies(s: W.WakeState, id: string, k: W.WakeKind, q: Option<string>, now: real)
    requires IsUuid(id) && W.ProducerKind(k) && s.pending.Some? && s.pending.value.id == id && !W.DecidedFor(s.last, id)
    requires k == W.Writing || Notified(s, id)
    ensures Notified(W.Produced(s, id, k, q, now), id)
  {
    hide IsUuid;
  }

  lemma ChosenIsUndecided(w: World, v: View)
    requires Draining(w) && Chosen(w.s.rows, v).Some?
    ensures !W.DecidedFor(w.s.wake.last, Chosen(w.s.rows, v).value.id)
  {
    ReceivedAreRows(w.s.rows);
    var c := Chosen(w.s.rows, v).value;
    assert c in ReceivedRows(w.s.rows);
    var i :| 0 <= i < |w.s.rows| && w.s.rows[i] == c;
    assert w.s.rows[i].id == c.id && w.s.rows[i].status == Received;
  }

  /** The first two dispatcher steps of any cycle. */
  lemma LookAndClaim(w: World, e: Env, rest: seq<Action>)
    requires Waking(w)
    ensures Exec(w, [Dispatch(e), Dispatch(e)] + rest) == Exec(Claim(w.(d := WantWake), e), rest)
  {
    hide Claim, TablesOk, UniqueIds, ReceivedId;
    var run := [Dispatch(e), Dispatch(e)] + rest;
    assert Next(w, Dispatch(e)) == w.(d := WantWake);
    NextIs(w, run, w.(d := WantWake));
    assert Next(w.(d := WantWake), Dispatch(e)) == Claim(w.(d := WantWake), e);
    NextIs(w.(d := WantWake), run[1..], Claim(w.(d := WantWake), e));
    assert run[1..][1..] == rest;
  }

  /** The dispatcher's part of a cycle. */
  lemma WakePartEnds(w: World, e: Env)
    requires Waking(w) && Chosen(w.s.rows, e.view).Some?
    requires !W.DecidedFor(w.s.wake.last, Chosen(w.s.rows, e.view).value.id)
    ensures var c := Chosen(w.s.rows, e.view).value;
            var rows := Settled(w.s.rows, ReceivedRows(w.s.rows)[..Blocked(ReceivedRows(w.s.rows), e.view)], e.view);
            var u := Exec(w, WakePart(e));
            && u.d.Ready? && Notified(u.s.wake, c.id)
            && u.s == w.s.(rows := rows, wakeRemaining := Some(Spend(WakesLeft(w.s))), wake := u.s.wake)
  {
    hide Settled, TablesOk, UniqueIds, ReceivedId, ReceivedRows, Blocked, Next, W.Produced, Moved, Deliverable,
         WakeClaimed, IsUuid;
    var c := Chosen(w.s.rows, e.view).value;
    ClaimChosen(w, e);
    var rest := [Dispatch(e), Dispatch(e), Dispatch(e)];
    LookAndClaim(w, e, rest);
    assert WakePart(e) == [Dispatch(e), Dispatch(e)] + rest;
    var u0 := Claim(w.(d := WantWake), e);
    assert u0.d == Claimed(c.id) by { ClaimLeads(w, e, c); }
    var u1 := u0.(s := WakeRecorded(u0.s, c.id, W.Writing, None, e.now), d := Calling(c.id));
    DispatchIs(u0, e);
    NextIs(u0, rest, u1);
    var u2 := Dispatched(u1, e);
    DispatchIs(u1, e);
    NextIs(u1, rest[1..], u2);
    var u3 := Dispatched(u2, e);
    DispatchIs(u2, e);
    NextIs(u2, rest[2..], u3);
    assert rest[2..][1..] == [];
    ClaimLeads(w, e, c);
    RecordsNotify(u0.s.wake, c.id, WakeResult(e.reply), e.queueId, e.now, e.now);
  }

  lemma DispatchIs(w: World, e: Env)
    ensures Next(w, Dispatch(e)) == Dispatched(w, e)
  {
    hide Dispatched;
  }

  lemma ClaimLeads(w: World, e: Env, c: Row)
    requires Waking(w) && Chosen(w.s.rows, e.view) == Some(c)
    ensures var u := Claim(w.(d := WantWake), e);
            && u.d == Claimed(c.id) && IsUuid(c.id)
            && u.s.wake.last == w.s.wake.last && u.s.wake.pending.Some? && u.s.wake.pending.value.id == c.id
            && u.s == WakeClaimed(w.s, e.view, e.now).0
  {
    hide Settled, TablesOk, UniqueIds, ReceivedId, ReceivedRows, Blocked, Moved, Deliverable, WakeClaimed, IsUuid;
    ClaimChosen(w, e);
  }

  /** What the single actions of a hook do. */
  lemma HookActions(w: World, e: HookEvent, p: Payload, v: View, at: real)
    ensures Next(w, HookSeen) == w.(s := w.s.(observed := true))
    ensures Next(w, WritePhase(e)) == w.(s := w.s.(phase := PhaseOf(e)))
    ensures Next(w, DecideWake(p, at)) == w.(s := Decided(w.s, p, at))
    ensures Next(w, Offer(v, "")).s == Offered(w.s, v, "").0 && Next(w, Offer(v, "")).d == w.d
    ensures !OwnerPrompt(p) ==> Next(w, Renew(p)) == w
  {
    hide Offered, Decided;
  }

  /** A hook at a prompt up to the moment it offers. */
  lemma PromptDecides(u: World, p: Payload, v: View, at: real)
    requires !OwnerPrompt(p) && p.event == UserPromptSubmit
    ensures Exec(u, HookPart(p, v, at)) ==
            Exec(u.(s := Decided(u.s.(observed := true, phase := Active), p, at)), HookPart(p, v, at)[4..])
  {
    hide Next, Decided;
    var run := HookPart(p, v, at);
    var u1 := u.(s := u.s.(observed := true));
    HookActions(u, p.event, p, v, at);
    NextIs(u, run, u1);
    HookActions(u1, p.event, p, v, at);
    NextIs(u1, run[1..], u1);
    var u2 := u1.(s := u1.s.(phase := Active));
    NextIs(u1, run[2..], u2);
    HookActions(u2, p.event, p, v, at);
    NextIs(u2, run[3..], u2.(s := Decided(u2.s, p, at)));
    assert run[3..][1..] == run[4..];
  }

  /** The rest of it: the offer, and the hook that ends the turn. */
  lemma OfferAndStop(u: World, p: Payload, v: View, at: real)
    ensures var t := Exec(u, HookPart(p, v, at)[4..]);
            t.d == u.d && t.s == Offered(u.s, v, "").0.(phase := Idle, observed := true)
  {
    hide Next, Offered;
    var run := HookPart(p, v, at)[4..];
    var u1 := Next(u, Offer(v, ""));
    HookActions(u, Stop, p, v, at);
    NextIs(u, run, u1);
    HookActions(u1, Stop, p, v, at);
    NextIs(u1, run[1..], u1.(s := u1.s.(observed := true)));
    var u2 := u1.(s := u1.s.(observed := true));
    HookActions(u2, Stop, p, v, at);
    NextIs(u2, run[2..], u2.(s := u2.s.(phase := Idle)));
    assert run[2..][1..] == [];
  }

  /** The hooks' part of a cycle. */
  lemma HookPartEnds(u: World, id: string, v: View, turn: Option<string>, at: real)
    requires Notified(u.s.wake, id) && IsUuid(id)
    ensures var p := Payload(UserPromptSubmit, NoticeOf(id), turn);
            var t := Exec(u, HookPart(p, v, at));
            && t.d == u.d
            && t.s == Offered(u.s, v, "").0.(phase := Idle, observed := true, wake := t.s.wake)
            && t.s.wake.pending.None? && t.s.wake.last.Some? && t.s.wake.last.value.id == id
            && t.s.wake.last.value.state == W.Activated
  {
    hide Offering, ReceivedRows, IsUuid, W.HookDecided, Next, HookPart;
    var p := Payload(UserPromptSubmit, NoticeOf(id), turn);
    PromptDecides(u, p, v, at);
    OfferAndStop(u.(s := Decided(u.s.(observed := true, phase := Active), p, at)), p, v, at);
    NoticeActivates(u.s.wake, id, turn, at);
  }

  lemma NoticeActivates(s: W.WakeState, id: string, turn: Option<string>, at: real)
    requires Notified(s, id) && IsUuid(id)
    ensures var t := W.HookDecided(s, Payload(UserPromptSubmit, NoticeOf(id), turn), at);
            t.pending.None? && t.last.Some? && t.last.value.id == id && t.last.value.state == W.Activated
  {
    hide IsUuid;
  }

  /** Each cycle leaves the world draining again and takes a non-empty prefix off the received
      list, if there is one. */
  lemma CycleDrains(w: World, e: Env, turn: Option<string>)
    requires Draining(w) && ShortReferences(e.view)
    ensures var t := Exec(w, Cycle(w, e, turn));
            && Draining(t)
            && |ReceivedRows(t.s.rows)| <= |ReceivedRows(w.s.rows)|
            && ReceivedRows(t.s.rows) == ReceivedRows(w.s.rows)[|ReceivedRows(w.s.rows)| - |ReceivedRows(t.s.rows)|..]
            && (ReceivedRows(w.s.rows) != [] ==> |ReceivedRows(t.s.rows)| < |ReceivedRows(w.s.rows)|)
  {
    hide Settled, TablesOk, UniqueIds, ReceivedId, ReceivedRows, Blocked, Next, Moved, Deliverable, Offered,
         WakeClaimed, IsUuid;
    var c := Chosen(w.s.rows, e.view);
    DrainingWakes(w);
    ClaimChosen(w, e);
    var rows := Settled(w.s.rows, ReceivedRows(w.s.rows)[..Blocked(ReceivedRows(w.s.rows), e.view)], e.view);
    MovedKeepsIds(w.s.rows, rows);
    if c.None? {
      LookAndClaim(w, e, []);
      assert [Dispatch(e), Dispatch(e)] + [] == Cycle(w, e, turn);
      NothingLeft(w, e);
    } else {
      ChosenIsUndecided(w, e.view);
      WakePartEnds(w, e);
      var u := Exec(w, WakePart(e));
      ExecAppend(w, WakePart(e), HookPart(Payload(UserPromptSubmit, NoticeOf(c.value.id), turn), e.view, e.now));
      HookPartEnds(u, c.value.id, e.view, turn, e.now);
      StillTables(w.s, u.s);
      OfferTakesTheHead(u.s, e.view);
      var t := Exec(w, Cycle(w, e, turn));
      MovedKeepsIds(rows, t.s.rows);
      HeadIsGone(rows, t.s.rows, c.value);
      StillTables(w.s, t.s);
    }
  }

  lemma StillTables(s: Store, t: Store)
    requires TablesOk(s) && t.out == s.out && Distinct(t.rows)
    requires |t.rows| == |s.rows| && forall i | 0 <= i < |s.rows| :: t.rows[i].id == s.rows[i].id
    ensures TablesOk(t)
  {
    forall i | 0 <= i < |t.rows| ensures IsUuid(t.rows[i].id) {
      assert IsUuid(s.rows[i].id);
    }
  }

  lemma MovedKeepsIds(a: seq<Row>, b: seq<Row>)
    requires Moved(a, b)
    ensures |a| == |b| && forall i | 0 <= i < |a| :: b[i].id == a[i].id
    ensures UniqueIds(a) ==> UniqueIds(b)
    ensures forall id :: ReceivedId(b, id) ==> ReceivedId(a, id)
  {
    forall id | ReceivedId(b, id) ensures ReceivedId(a, id) {
      var i :| 0 <= i < |b| && b[i].id == id && b[i].status == Received;
      assert a[i].id == id && a[i].status == Received;
    }
    if UniqueIds(a) {
      forall i, j | 0 <= i < j < |b| ensures b[i].id != b[j].id {
        assert a[i].id != a[j].id;
      }
    }
  }

  lemma SameId(rows: seq<Row>, i: nat, j: nat)
    requires UniqueIds(rows) && i < |rows| && j < |rows| && rows[i].id == rows[j].id
    ensures i == j
  {
  }

  lemma HeadNotBehind(received: seq<Row>, n: nat)
    requires Distinct(received) && 0 < n <= |received|
    ensures forall r :: r in received[n..] ==> r.Ref() != received[0].Ref()
  {
    forall r | r in received[n..] ensures r.Ref() != received[0].Ref() {
      var j :| 0 <= j < |received[n..]| && received[n..][j] == r;
      assert received[n + j] == r;
    }
  }

  /** Once the head has left the received list no received row carries its id. */
  lemma HeadIsGone(a: seq<Row>, b: seq<Row>, head: Row)
    requires Distinct(a) && UniqueIds(a) && Moved(a, b)
    requires ReceivedRows(a) != [] && ReceivedRows(a)[0] == head
    requires exists n :: 0 < n <= |ReceivedRows(a)| && ReceivedRows(b) == ReceivedRows(a)[n..]
    ensures !ReceivedId(b, head.id)
  {
    var n :| 0 < n <= |ReceivedRows(a)| && ReceivedRows(b) == ReceivedRows(a)[n..];
    ReceivedAreRows(a);
    ReceivedAreRows(b);
    ReceivedDistinct(a);
    HeadNotBehind(ReceivedRows(a), n);
    hide ReceivedRows, Distinct, UniqueIds;
    assert head in a;
    var h :| 0 <= h < |a| && a[h] == head;
    forall i | 0 <= i < |b| && b[i].id == head.id ensures b[i].status != Received {
      assert a[i].id == head.id;
      SameId(a, i, h);
      assert b[i].Ref() == head.Ref();
      assert b[i] in b;
    }
  }

  lemma NothingLeft(w: World, e: Env)
    requires Draining(w) && Chosen(w.s.rows, e.view).None?
    ensures var t := Claim(w.(d := WantWake), e);
            Draining(t) && ReceivedRows(t.s.rows) == []
  {
    hide Settled, UniqueIds, ReceivedId, ReceivedRows, Moved, Deliverable, WakeClaimed, IsUuid, Distinct;
    DrainingWakes(w);
    ClaimChosen(w, e);
    var t := Claim(w.(d := WantWake), e);
    MovedKeepsIds(w.s.rows, t.s.rows);
    StillTables(w.s, t.s);
  }

  /** The surroundings of one cycle: how the queue command answers, the clock, who is enrolled and
      how messages print; and the turn the notice opens. */
  datatype Round = Round(env: Env, turn: Option<string>)

  /** One cycle after another, each in its own surroundings. */
  function Cycles(w: World, rounds: seq<Round>): seq<Action>
    decreases |rounds|
  {
    if rounds == [] then []
    else
      var c := Cycle(w, rounds[0].env, rounds[0].turn);
      c + Cycles(Exec(w, c), rounds[1..])
  }

  /** Without new arrivals, as many cycles as there are received messages empty the inbox. */
  lemma {:induction false} InboxDrains(w: World, rounds: seq<Round>)
    requires Draining(w) && |ReceivedRows(w.s.rows)| <= |rounds|
    requires forall i | 0 <= i < |rounds| :: ShortReferences(rounds[i].env.view)
    ensures ReceivedRows(Exec(w, Cycles(w, rounds)).s.rows) == []
    decreases |rounds|
  {
    hide Draining, Cycle, ShortReferences, Next, ReceivedRows;
    if rounds != [] {
      var c := Cycle(w, rounds[0].env, rounds[0].turn);
      CycleDrains(w, rounds[0].env, rounds[0].turn);
      InboxDrains(Exec(w, c), rounds[1..]);
      ExecAppend(w, c, Cycles(Exec(w, c), rounds[1..]));
    }
  }
}
