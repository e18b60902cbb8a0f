/** What one tick of the dispatcher answers (src/peer_chat.py, dispatch): which outgoing row goes to
    the socket, which received message is forwarded or held in queue mode, and what is stored of the
    outcome. */
module Ticks {
  import opened Common
  import opened Budget
  import opened Messages
  import opened Offers
  import opened Bridge
  import opened Invariants
  import opened AtMostOnce
  import W = Wake

  /** Nothing waits to be sent. */
  predicate NothingToSend(s: Store) {
    forall i | 0 <= i < |s.out| :: s.out[i].status != Pending
  }

  /** The row at `i` is the oldest received one. */
  predicate OldestReceived(rows: seq<Row>, i: nat) {
    && i < |rows| && rows[i].status == Received
    && forall j | 0 <= j < i :: rows[j].status != Received
  }

  predicate OldestPending(out: seq<OutRow>, i: nat) {
    && i < |out| && out[i].status == Pending
    && forall j | 0 <= j < i :: out[j].status != Pending
  }

  lemma {:induction false} NoneIsFirst(out: seq<OutRow>)
    ensures FirstPending(out).None? <==> forall i | 0 <= i < |out| :: out[i].status != Pending
  {
    if out != [] && out[0].status != Pending {
      NoneIsFirst(out[1..]);
      assert forall i | 0 < i < |out| :: out[i] == out[1..][i - 1];
    }
  }

  lemma {:induction false} FirstIsOldest(out: seq<OutRow>, i: nat)
    requires OldestPending(out, i)
    ensures FirstPending(out) == Some(out[i].id)
  {
    if i > 0 {
      assert forall j | 0 < j < |out| :: out[j] == out[1..][j - 1];
      FirstIsOldest(out[1..], i - 1);
    }
  }

  lemma {:induction false} HeadIsOldest(rows: seq<Row>, i: nat)
    requires OldestReceived(rows, i)
    ensures ReceivedRows(rows) != [] && ReceivedRows(rows)[0] == rows[i]
  {
    if i > 0 {
      assert forall j | 0 < j < |rows| :: rows[j] == rows[1..][j - 1];
      HeadIsOldest(rows[1..], i - 1);
    }
  }

  // ---- sending ------------------------------------------------------------------------------------

  lemma OnlyThatRow(out: seq<OutRow>, i: nat, st: OutStatus)
    requires DistinctOut(out) && i < |out|
    ensures OutSet(out, out[i].id, st) == out[i := out[i].(status := st)]
  {
    forall j | 0 <= j < |out| && j != i ensures out[j].id != out[i].id {
    }
  }

  lemma MarkedRow(w: World, e: Env, i: nat)
    requires DistinctOut(w.s.out) && w.d.Ready? && OldestPending(w.s.out, i)
    ensures var out := w.s.out;
            Next(w, Dispatch(e)) ==
              World(w.s.(out := out[i := out[i].(status := Writing)]), OutMarked(out[i].id), w.h)
  {
    FirstIsOldest(w.s.out, i);
    OnlyThatRow(w.s.out, i, Writing);
  }

  lemma StoredResult(w: World, e: Env, i: nat, ok: bool)
    requires DistinctOut(w.s.out) && i < |w.s.out| && w.d == OutTried(w.s.out[i].id, ok)
    ensures var out := w.s.out;
            Next(w, Dispatch(e)) ==
              World(w.s.(out := out[i := out[i].(status := if ok then Written else Doubtful)]), Ready, w.h)
  {
    OnlyThatRow(w.s.out, i, if ok then Written else Doubtful);
  }

  /** Whatever the mode and phase, three steps of an undisturbed dispatcher take the oldest pending
      row and no other: it is written to the socket once and recorded as written exactly if that
      succeeded, as doubtful otherwise. */
  lemma OldestIsSent(w: World, mark: Env, try: Env, store: Env, i: nat)
    requires DistinctOut(w.s.out) && w.d.Ready? && OldestPending(w.s.out, i)
    ensures var out := w.s.out;
            Next(Next(Next(w, Dispatch(mark)), Dispatch(try)), Dispatch(store)) ==
              World(w.s.(out := out[i := out[i].(status := if try.written then Written else Doubtful)]), Ready,
                    w.h.(written := w.h.written + multiset{out[i].id}))
  {
    MarkedRow(w, mark, i);
    var u := Next(w, Dispatch(mark));
    var v := u.(d := OutTried(w.s.out[i].id, try.written), h := w.h.(written := w.h.written + multiset{w.s.out[i].id}));
    assert Next(u, Dispatch(try)) == v;
    assert DistinctOut(v.s.out) by {
      forall a, b | 0 <= a < b < |v.s.out| ensures v.s.out[a].id != v.s.out[b].id {
        assert w.s.out[a].id != w.s.out[b].id;
      }
    }
    StoredResult(v, store, i, try.written);
    hide Next;
    assert v.s.out[i := v.s.out[i].(status := if try.written then Written else Doubtful)]
        == w.s.out[i := w.s.out[i].(status := if try.written then Written else Doubtful)];
  }

  // ---- doing nothing ----------------------------------------------------------------------------

  /** With nothing to send a tick changes nothing exactly when the session was interrupted, the mode is
      inbox or live, or in queue mode the allowance or the received list is empty. */
  lemma WhenATickIsIdle(w: World, e: Env)
    requires w.d.Ready? && NothingToSend(w.s)
    ensures Next(w, Dispatch(e)) == w <==>
            || w.s.phase == Interrupted || w.s.mode == Inbox || w.s.mode == Live
            || (w.s.mode == Queue && (w.s.remaining == Finite(0) || forall r | r in w.s.rows :: r.status != Received))
  {
    NoneIsFirst(w.s.out);
    ReceivedAreRows(w.s.rows);
    if ReceivedRows(w.s.rows) != [] {
      assert ReceivedRows(w.s.rows)[0] in ReceivedRows(w.s.rows);
    }
  }

  // ---- queue mode -----------------------------------------------------------------------------------

  /** May the queue part of a tick choose a message at all? */
  predicate Queueing(w: World) {
    && w.d.Ready? && NothingToSend(w.s)
    && w.s.mode == Queue && w.s.phase != Interrupted && w.s.remaining != Finite(0)
  }

  lemma ChoosesOldest(w: World, e: Env, i: nat)
    requires Queueing(w) && OldestReceived(w.s.rows, i)
    ensures var r := w.s.rows[i];
            Next(w, Dispatch(e)) == w.(d := if r.peer in e.view.enrolled && |r.hops| < 8
                                            then WantForward(r.Ref()) else WantHold(r.Ref()))
  {
    NoneIsFirst(w.s.out);
    HeadIsOldest(w.s.rows, i);
  }

  lemma OnlyThatMessage(rows: seq<Row>, i: nat)
    requires Distinct(rows) && i < |rows| && rows[i].status == Received
    ensures SetStatus(rows, rows[i].Ref(), Held) == rows[i := rows[i].(status := Held)]
    ensures SetReceivedTo(rows, rows[i].Ref(), Forwarding) == rows[i := rows[i].(status := Forwarding)]
    ensures ReceivedKey(rows, rows[i].Ref())
  {
    forall j | 0 <= j < |rows| && j != i ensures rows[j].Ref() != rows[i].Ref() {
    }
  }

  function OneLess(a: Allowance): Allowance {
    if a.Finite? && a.left > 0 then Finite(a.left - 1) else a
  }

  /** In queue mode two undisturbed steps decide the oldest received message and touch no other: it
      is claimed for forwarding, and paid for, exactly if its peer is enrolled and it carries fewer
      than eight hops, and is held for nothing otherwise. */
  lemma OldestIsDecided(w: World, choose: Env, claim: Env, i: nat)
    requires Distinct(w.s.rows) && Queueing(w) && OldestReceived(w.s.rows, i)
    ensures var r := w.s.rows[i];
            Next(Next(w, Dispatch(choose)), Dispatch(claim)) ==
              if r.peer in choose.view.enrolled && |r.hops| < 8
              then World(w.s.(rows := w.s.rows[i := r.(status := Forwarding)], remaining := OneLess(w.s.remaining)),
                         Forwards(r.Ref()), w.h.(debits := w.h.debits + 1))
              else w.(s := w.s.(rows := w.s.rows[i := r.(status := Held)]))
  {
    hide SetStatus, SetReceivedTo, ReceivedKey, NothingToSend, Look;
    ChoosesOldest(w, choose, i);
    OnlyThatMessage(w.s.rows, i);
  }

  /** What is stored of a forwarded message: what the queue command answered, once. */
  function Answer(r: Reply): Status {
    match r
    case Accepts => Messages.Queued
    case Refuses => QueueFailed
    case NoAnswer => QueueUncertain
  }

  /** Two further steps run the queue command with it and store how that ended, unless the message
      was acknowledged before the result is stored. */
  lemma ForwardIsStored(w: World, call: Env, acked: bool, store: Env, i: nat)
    requires Distinct(w.s.rows) && i < |w.s.rows| && w.s.rows[i].status == Forwarding
    requires w.d == Forwards(w.s.rows[i].Ref())
    ensures var r := w.s.rows[i];
            var u := Next(w, Dispatch(call));
            var v := if acked then Next(u, AckOne(Some(r.Ref()))) else u;
            && u.s == w.s && u.h == w.h.(handed := w.h.handed + multiset{r.Ref()})
            && Next(v, Dispatch(store)).s.rows ==
               w.s.rows[i := r.(status := if acked then Consumed else Answer(call.reply))]
            && Next(v, Dispatch(store)).d.Ready?
  {
    var r := w.s.rows[i];
    forall j | 0 <= j < |w.s.rows| && j != i ensures w.s.rows[j].Ref() != r.Ref() {
    }
    var u := Next(w, Dispatch(call));
    var v := if acked then Next(u, AckOne(Some(r.Ref()))) else u;
    assert v.d == Forwarded(r.Ref(), Answer(call.reply));
    assert v.s.rows == if acked then w.s.rows[i := r.(status := Consumed)] else w.s.rows;
    assert Next(v, Dispatch(store)).s.rows == SetStatus(v.s.rows, r.Ref(), Answer(call.reply));
    hide ConsumedWakeCleared, ConsumedId;
  }

  // ---- what a wake leaves ---------------------------------------------------------------------------

  function WakeAnswer(r: Reply): W.WakeKind {
    match r
    case Accepts => W.Queued
    case Refuses => W.Failed
    case NoAnswer => W.Uncertain
  }

  /** A wake whose marker nobody took away and nobody decided meanwhile: the notice is given to the
      queue command once, and record and marker say how that ended and under which queue id. */
  lemma WakeIsStored(w: World, call: Env, store: Env, id: string)
    requires w.d == Calling(id) && IsUuid(id)
    requires w.s.wake.pending.Some? && w.s.wake.pending.value.id == id
    requires w.s.wake.last.Some? && w.s.wake.last.value.id == id && w.s.wake.last.value.state == W.Writing
    ensures var t := Next(Next(w, Dispatch(call)), Dispatch(store));
            && t.d.Ready? && t.h == w.h.(notices := w.h.notices + 1)
            && t.s == w.s.(wake := t.s.wake)
            && t.s.wake.last.value.id == id && t.s.wake.last.value.state == WakeAnswer(call.reply)
            && t.s.wake.pending.Some? && t.s.wake.pending.value.id == id
            && t.s.wake.pending.value.status == WakeAnswer(call.reply)
            && (Truthy(call.queueId) && !Truthy(w.s.wake.last.value.queueId) ==>
                  t.s.wake.last.value.queueId == call.queueId && t.s.wake.pending.value.queueId == call.queueId)
  {
    hide IsUuid;
  }

  // ---- whatever is handed over was deliverable ------------------------------------------------------

  /** A received message of an enrolled peer with fewer than eight hops. */
  predicate MayBeHanded(rows: seq<Row>, k: Key, enrolled: set<string>) {
    exists i :: 0 <= i < |rows| && rows[i].Ref() == k && rows[i].status == Received
                && rows[i].peer in enrolled && |rows[i].hops| < 8
  }

  /** The step chooses this message for the queue. */
  predicate Chooses(w: World, a: Action, k: Key) {
    && a.Dispatch? && w.d.Ready? && w.s.mode == Queue && w.s.phase != Interrupted
    && MayBeHanded(w.s.rows, k, a.env.view.enrolled)
  }

  predicate UnderWay(d: Dispatcher, k: Key) {
    d == WantForward(k) || d == Forwards(k)
  }

  lemma ForwardBegins(w: World, a: Action, k: Key)
    requires !UnderWay(w.d, k) && UnderWay(Next(w, a).d, k)
    ensures Chooses(w, a, k)
  {
    hide Settled, ReceivedRows, Offering, Scanned, Offered, Updated, SetTo, Acknowledged, Restarted, IsUuid, Distinct,
         W.Produced, W.HookDecided, WakeClaimed, ForwardClaimed, FirstPending, ReceiptStored, ConsumedWakeCleared;
    assert a.Dispatch? && w.d.Ready?;
    ReceivedAreRows(w.s.rows);
    var r := ReceivedRows(w.s.rows)[0];
    assert r in ReceivedRows(w.s.rows);
    var i :| 0 <= i < |w.s.rows| && w.s.rows[i] == r;
    assert w.s.rows[i].Ref() == k;
  }

  lemma {:induction false} WasChosen(w: World, run: seq<Action>, i: nat, k: Key) returns (c: nat)
    requires w.d.Ready? && i <= |run| && UnderWay(Step(w, run, i).d, k)
    ensures c < i && Chooses(Step(w, run, c), run[c], k)
  {
    hide Next, Chooses;
    StepEnds(w, run);
    assert i > 0;
    StepNext(w, run, i - 1);
    if UnderWay(Step(w, run, i - 1).d, k) {
      c := WasChosen(w, run, i - 1, k);
    } else {
      ForwardBegins(Step(w, run, i - 1), run[i - 1], k);
      c := i - 1;
    }
  }

  lemma OfferedIsDeliverable(s: Store, v: View, notice: string, k: Key)
    requires Distinct(s.rows) && k in Offered(s, v, notice).1.offered
    ensures (s.mode == Live || s.mode == Auto) && MayBeHanded(s.rows, k, v.enrolled)
  {
    hide Offering, Reach, Stops, TotalLength, ReceivedRows, OfferedKeys, OfferedPieces, Settled;
    var pieces, received := NoticePieces(notice), ReceivedRows(s.rows);
    BatchExact(s.rows, s.remaining, pieces, v);
    var done := received[..Reach(FirstFew(received), s.remaining, TotalLength(pieces), v)];
    OfferedKeysAre(done, v);
    var j :| 0 <= j < |done| && Messages.Deliverable(v, done[j]) && done[j].Ref() == k;
    ReceivedAreRows(s.rows);
    assert done[j] == received[j] && received[j] in received;
    var i :| 0 <= i < |s.rows| && s.rows[i] == done[j];
    assert s.rows[i].Ref() == k;
  }

  lemma WhoHands(w: World, a: Action, k: Key)
    requires Next(w, a).h.handed[k] > w.h.handed[k]
    ensures a.Offer? ==> k in Offered(w.s, a.view, a.notice).1.offered
    ensures !a.Offer? ==> a.Dispatch? && w.d == Forwards(k)
  {
    hide Settled, ReceivedRows, Offering, Scanned, Offered, Updated, SetTo, Acknowledged, Restarted, IsUuid, Distinct,
         W.Produced, W.HookDecided, WakeClaimed, ForwardClaimed, FirstPending, ReceiptStored;
    if a.Dispatch? && w.d.Ready? {
      LookInert(w, w, a.env);
    }
  }

  /** In every run, whenever a message is handed to the model it was, when it was chosen, a received
      one of a peer enrolled then, with fewer than eight hops: at that very step and in live or
      automatic mode if a hook offers it, at an earlier one in queue mode and not interrupted if the
      queue command gets it. */
  lemma OnlyDeliverableIsHanded(w: World, run: seq<Action>, i: nat, k: Key) returns (c: nat)
    requires Inv(w) && w.d.Ready? && i < |run|
    requires Step(w, run, i + 1).h.handed[k] > Step(w, run, i).h.handed[k]
    ensures c <= i
    ensures if run[i].Offer? then
              && c == i && MayBeHanded(Step(w, run, i).s.rows, k, run[i].view.enrolled)
              && (Step(w, run, i).s.mode == Live || Step(w, run, i).s.mode == Auto)
            else c < i && Chooses(Step(w, run, c), run[c], k)
  {
    hide Next, Chooses, TablesOk, MayBeHanded, Offered;
    InvStep(w, run, i);
    StepNext(w, run, i);
    var u := Step(w, run, i);
    WhoHands(u, run[i], k);
    if run[i].Offer? {
      c := i;
      DistinctIn(u);
      OfferedIsDeliverable(u.s, run[i].view, run[i].notice, k);
    } else {
      c := WasChosen(w, run, i, k);
    }
  }

  lemma DistinctIn(w: World)
    requires Inv(w)
    ensures Distinct(w.s.rows)
  {
  }
}
