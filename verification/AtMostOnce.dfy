/** Over every run: statuses only climb, a message is handed to the model at most once, and an
    outgoing row reaches a socket at most once. */
module AtMostOnce {
  import opened Common
  import opened Messages
  import opened Offers
  import opened Bridge
  import opened Invariants
  import W = Wake

  predicate Inv(w: World) {
    TablesOk(w.s) && ResultOk(w.d)
  }

  lemma GrewKeeps(a: seq<Row>, b: seq<Row>)
    requires GrewFrom(a, b) && |a| == |b| && Distinct(a)
    ensures Distinct(b)
    ensures (forall i | 0 <= i < |a| :: IsUuid(a[i].id)) ==> forall i | 0 <= i < |b| :: IsUuid(b[i].id)
  {
    assert b[..|a|] == b;
    MovedKeeps(a, b);
  }

  /** `b` extends `a`; no row of `a` turned pending. */
  predicate OutGrew(a: seq<OutRow>, b: seq<OutRow>) {
    && |a| <= |b| <= |a| + 1
    && (forall i | 0 <= i < |a| :: b[i].id == a[i].id && (b[i].status == Pending ==> a[i].status == Pending))
    && (forall i | |a| <= i < |b| :: !HasOut(a, b[i].id))
  }

  lemma DispatchOutGrows(w: World, e: Env)
    ensures OutGrew(w.s.out, Dispatched(w, e).s.out)
  {
    hide Settled, ReceivedRows, Scanned, Updated, IsUuid, W.Produced, Deliverable;
  }

  lemma OutGrows(w: World, a: Action)
    ensures OutGrew(w.s.out, Next(w, a).s.out)
  {
    hide Settled, ReceivedRows, Offering, Scanned, Updated, SetTo, Acknowledged, Restarted, IsUuid, W.Produced,
         W.HookDecided, Dispatched;
    if a.Dispatch? {
      DispatchOutGrows(w, a.env);
    }
  }

  lemma OutKept(w: World, a: Action)
    requires DistinctOut(w.s.out)
    ensures DistinctOut(Next(w, a).s.out)
  {
    hide Next;
    OutGrows(w, a);
    var before, out := w.s.out, Next(w, a).s.out;
    forall i, j | 0 <= i < j < |out| ensures out[i].id != out[j].id {
      if j < |before| {
        assert before[i].id != before[j].id;
      } else {
        assert before[i].id == out[i].id;
      }
    }
  }

  lemma InvNext(w: World, a: Action)
    requires Inv(w)
    ensures Inv(Next(w, a))
  {
    RowsGrow(w, a);
    OutKept(w, a);
    var rows := Next(w, a).s.rows;
    if a.Arrive? {
      if rows != w.s.rows {
        assert !HasKey(w.s.rows, a.row.Ref()) && IsUuid(a.row.id);
      }
    } else {
      GrewKeeps(w.s.rows, rows);
    }
  }

  lemma {:induction false} InvStep(w: World, run: seq<Action>, i: nat)
    requires Inv(w) && i <= |run|
    ensures Inv(Step(w, run, i))
  {
    hide Inv, Next;
    if i == 0 {
      StepEnds(w, run);
    } else {
      InvStep(w, run, i - 1);
      StepNext(w, run, i - 1);
      InvNext(Step(w, run, i - 1), run[i - 1]);
    }
  }

  /** In every run, under duplicate frames, restarts, mode changes and late writes of the
      dispatcher: a stored message stays stored, its status only climbs
      received, forwarding, outcome, consumed, and consumed is final. */
  lemma {:induction false} StatusOnlyClimbs(w: World, run: seq<Action>, i: nat, j: nat)
    requires Inv(w) && i <= j <= |run|
    ensures GrewFrom(Step(w, run, i).s.rows, Step(w, run, j).s.rows)
    decreases j - i
  {
    hide Next, Inv;
    if i == j {
      MovedRefl(Step(w, run, i).s.rows);
    } else {
      StatusOnlyClimbs(w, run, i, j - 1);
      InvStep(w, run, j - 1);
      StepNext(w, run, j - 1);
      RowsGrowIn(Step(w, run, j - 1), run[j - 1]);
      GrewTrans(Step(w, run, i).s.rows, Step(w, run, j - 1).s.rows, Step(w, run, j).s.rows);
    }
  }

  lemma RowsGrowIn(w: World, a: Action)
    requires Inv(w)
    ensures GrewFrom(w.s.rows, Next(w, a).s.rows)
  {
    RowsGrow(w, a);
  }

  // ---- messages handed to the model ------------------------------------------------------

  /** How often a message may still be handed over. */
  function Chances(w: World, k: Key): nat {
    if !HasKey(w.s.rows, k) || ReceivedKey(w.s.rows, k) || w.d == Forwards(k) then 1 else 0
  }

  predicate ForwardIsGone(w: World) {
    w.d.Forwards? ==> HasKey(w.s.rows, w.d.key) && !ReceivedKey(w.s.rows, w.d.key)
  }

  ghost predicate HandedOk(w: World) {
    && Inv(w) && ForwardIsGone(w)
    && forall k: Key :: w.h.handed[k] + Chances(w, k) <= 1
  }

  lemma KeysGrow(a: seq<Row>, b: seq<Row>, k: Key)
    requires GrewFrom(a, b)
    ensures HasKey(a, k) ==> HasKey(b, k)
    ensures HasKey(a, k) && |a| == |b| && ReceivedKey(b, k) ==> ReceivedKey(a, k)
    ensures |a| == |b| && HasKey(b, k) ==> HasKey(a, k)
  {
    if HasKey(a, k) {
      var i :| 0 <= i < |a| && a[i].Ref() == k;
      assert b[i].Ref() == b[..|a|][i].Ref() == k;
    }
    if |a| == |b| && ReceivedKey(b, k) {
      var i :| 0 <= i < |b| && b[i].Ref() == k && b[i].status == Received;
      assert b[i] == b[..|a|][i];
      assert a[i].Ref() == k;
    }
    if |a| == |b| && HasKey(b, k) {
      var i :| 0 <= i < |b| && b[i].Ref() == k;
      assert b[i] == b[..|a|][i];
      assert a[i].Ref() == k;
    }
  }

  /** Without a new arrival a message never becomes received again. */
  lemma ReceivedShrinks(w: World, a: Action, k: Key)
    requires Inv(w)
    ensures HasKey(w.s.rows, k) ==> HasKey(Next(w, a).s.rows, k)
    ensures HasKey(w.s.rows, k) && ReceivedKey(Next(w, a).s.rows, k) ==> ReceivedKey(w.s.rows, k)
  {
    hide Settled, ReceivedRows, Offering, Scanned, Dispatched, Offered, Updated, SetTo, Acknowledged, Restarted,
         IsUuid;
    RowsGrow(w, a);
    KeysGrow(w.s.rows, Next(w, a).s.rows, k);
    if a.Arrive? && HasKey(w.s.rows, k) && ReceivedKey(Next(w, a).s.rows, k) {
      var rows := Next(w, a).s.rows;
      var i :| 0 <= i < |rows| && rows[i].Ref() == k && rows[i].status == Received;
      assert i < |w.s.rows|;
    }
  }

  /** A message of the received list, seen from the table. */
  lemma ReceivedIsKnown(rows: seq<Row>, r: Row)
    requires r in ReceivedRows(rows)
    ensures HasKey(rows, r.Ref()) && ReceivedKey(rows, r.Ref())
  {
    ReceivedAreRows(rows);
    var i :| 0 <= i < |rows| && rows[i] == r;
    assert rows[i].Ref() == r.Ref() && rows[i].status == Received;
  }

  lemma SettledIsNotReceived(rows: seq<Row>, done: seq<Row>, v: View, k: Key)
    requires Among(k, done)
    ensures !ReceivedKey(Settled(rows, done, v), k)
  {
    var t := Settled(rows, done, v);
    forall m | 0 <= m < |t| && t[m].Ref() == k ensures t[m].status != Received {
      assert rows[m].Ref() == k;
    }
  }

  lemma OfferHands(s: Store, v: View, notice: string, k: Key)
    requires Distinct(s.rows)
    ensures var (t, b) := Offered(s, v, notice);
            && multiset(b.offered)[k] <= 1
            && (k in b.offered ==> HasKey(s.rows, k) && ReceivedKey(s.rows, k) && !ReceivedKey(t.rows, k))
  {
    hide Offering, Reach, Stops, TotalLength, ReceivedRows, OfferedKeys, OfferedPieces, Settled, HasKey,
         ReceivedKey, Deliverable;
    var pieces := NoticePieces(notice);
    var received := ReceivedRows(s.rows);
    var (t, b) := Offered(s, v, notice);
    if k in b.offered {
      BatchExact(s.rows, s.remaining, pieces, v);
      var n := Reach(FirstFew(received), s.remaining, TotalLength(pieces), v);
      var done := received[..n];
      ReceivedDistinct(s.rows);
      OfferedOnce(done, v);
      OfferedKeysAre(done, v);
      var j :| 0 <= j < |done| && Deliverable(v, done[j]) && done[j].Ref() == k;
      assert done[j] == received[j];
      ReceivedIsKnown(s.rows, done[j]);
      SettledIsNotReceived(s.rows, done, v, k);
    }
  }

  /** What one action adds to the handed messages. */
  lemma HandsOver(w: World, a: Action, k: Key)
    requires HandedOk(w)
    ensures var n := Next(w, a).h.handed[k];
            n == w.h.handed[k] || (n == w.h.handed[k] + 1 && HasKey(w.s.rows, k)
              && (if a.Offer? then ReceivedKey(w.s.rows, k) && !ReceivedKey(Next(w, a).s.rows, k)
                  else w.d == Forwards(k) && Next(w, a).d.Forwarded? && Next(w, a).s == w.s))
  {
    hide Settled, ReceivedRows, Offering, Scanned, Offered, Updated, SetTo, Acknowledged, Restarted, IsUuid, Distinct;
    if a.Offer? {
      OfferHands(w.s, a.view, a.notice, k);
    }
  }

  lemma ForwardClaimIs(w: World, a: Action)
    requires Next(w, a).d.Forwards? && w.d != Next(w, a).d
    ensures ReceivedKey(w.s.rows, Next(w, a).d.key) && HasKey(w.s.rows, Next(w, a).d.key)
    ensures !ReceivedKey(Next(w, a).s.rows, Next(w, a).d.key)
    ensures Next(w, a).h.handed == w.h.handed
  {
    hide Settled, ReceivedRows, Offering, Scanned, Offered, SetTo, Acknowledged, Restarted, IsUuid, Distinct;
    assert a.Dispatch? && w.d.WantForward?;
  }

  lemma HandedNext(w: World, a: Action)
    requires HandedOk(w)
    ensures HandedOk(Next(w, a))
  {
    hide Next, ReceivedKey, HasKey, Inv;
    var t := Next(w, a);
    InvNext(w, a);
    if t.d.Forwards? {
      if t.d == w.d {
        ReceivedShrinks(w, a, t.d.key);
      } else {
        ForwardClaimIs(w, a);
        ReceivedShrinks(w, a, t.d.key);
      }
    }
    forall k: Key ensures t.h.handed[k] + Chances(t, k) <= 1 {
      HandsOver(w, a, k);
      ReceivedShrinks(w, a, k);
      if t.d.Forwards? && t.d != w.d {
        ForwardClaimIs(w, a);
      }
    }
  }

  lemma {:induction false} HandedStep(w: World, run: seq<Action>, i: nat)
    requires HandedOk(w) && i <= |run|
    ensures HandedOk(Step(w, run, i))
  {
    hide HandedOk, Next;
    if i == 0 {
      StepEnds(w, run);
    } else {
      HandedStep(w, run, i - 1);
      StepNext(w, run, i - 1);
      HandedNext(Step(w, run, i - 1), run[i - 1]);
    }
  }

  /** Each stored message is handed to the model automatically at most once in any run, by a hook
      or by the queue, and never once it had left `received` before the run. */
  lemma HandedAtMostOnce(w: World, run: seq<Action>, k: Key)
    requires Inv(w) && w.d.Ready? && w.h == NO_HISTORY
    ensures Exec(w, run).h.handed[k] <= 1
    ensures HasKey(w.s.rows, k) && !ReceivedKey(w.s.rows, k) ==> Exec(w, run).h.handed[k] == 0
  {
    hide Next, ReceivedKey, HasKey, TablesOk;
    HandedStep(w, run, |run|);
    StepEnds(w, run);
    if HasKey(w.s.rows, k) && !ReceivedKey(w.s.rows, k) {
      var spent := w.(h := w.h.(handed := multiset{k}));
      assert HandedOk(spent) by {
        forall j: Key ensures spent.h.handed[j] + Chances(spent, j) <= 1 {
        }
      }
      HistoryIsInert(w, spent, run, k);
      HandedStep(spent, run, |run|);
      StepEnds(spent, run);
    }
  }

  /** The history only records: two worlds that differ in it run alike. */
  lemma {:induction false} HistoryIsInert(w: World, u: World, run: seq<Action>, k: Key)
    requires u.s == w.s && u.d == w.d && u.h.handed == w.h.handed + multiset{k}
    ensures Exec(u, run).s == Exec(w, run).s && Exec(u, run).d == Exec(w, run).d
    ensures Exec(u, run).h.handed == Exec(w, run).h.handed + multiset{k}
  {
    if run != [] {
      HistoryIsInert(w, u, run[..|run| - 1], k);
      InertStep(Exec(w, run[..|run| - 1]), Exec(u, run[..|run| - 1]), run[|run| - 1], k);
    }
  }

  lemma InertStep(w: World, u: World, a: Action, k: Key)
    requires u.s == w.s && u.d == w.d && u.h.handed == w.h.handed + multiset{k}
    ensures Next(u, a).s == Next(w, a).s && Next(u, a).d == Next(w, a).d
    ensures Next(u, a).h.handed == Next(w, a).h.handed + multiset{k}
  {
    hide Settled, ReceivedRows, Offering, Scanned, Offered, Updated, SetTo, Acknowledged, Restarted, IsUuid,
         WakeClaimed, ForwardClaimed, Look;
    if a.Dispatch? && w.d.Ready? {
      LookInert(w, u, a.env);
    }
  }

  lemma LookInert(w: World, u: World, e: Env)
    requires u.s == w.s && u.d == w.d
    ensures Look(u, e).s == Look(w, e).s && Look(u, e).d == Look(w, e).d
    ensures Look(u, e).h == u.h && Look(w, e).h == w.h
  {
  }

  // ---- outgoing rows written to a socket -----------------------------------------------------

  predicate PendingOut(out: seq<OutRow>, id: string) {
    exists i | 0 <= i < |out| :: out[i].id == id && out[i].status == Pending
  }

  /** How often an outgoing id may still be written to a socket. */
  function WritesLeft(w: World, id: string): nat {
    if !HasOut(w.s.out, id) || PendingOut(w.s.out, id) || w.d == OutMarked(id) then 1 else 0
  }

  predicate MarkIsStored(w: World) {
    w.d.OutMarked? ==> HasOut(w.s.out, w.d.oid) && !PendingOut(w.s.out, w.d.oid)
  }

  ghost predicate WrittenOk(w: World) {
    && MarkIsStored(w)
    && forall id: string :: w.h.written[id] + WritesLeft(w, id) <= 1
  }

  lemma {:induction false} FirstPendingIs(out: seq<OutRow>)
    ensures FirstPending(out).Some? ==> HasOut(out, FirstPending(out).value) && PendingOut(out, FirstPending(out).value)
  {
    if out != [] && out[0].status != Pending {
      FirstPendingIs(out[1..]);
      if FirstPending(out).Some? {
        var id := FirstPending(out).value;
        var i :| 0 <= i < |out[1..]| && out[1..][i].id == id && out[1..][i].status == Pending;
        assert out[i + 1].id == id && out[i + 1].status == Pending;
      }
    }
  }

  lemma OutGrewMeans(a: seq<OutRow>, b: seq<OutRow>, id: string)
    requires OutGrew(a, b)
    ensures HasOut(a, id) ==> HasOut(b, id)
    ensures HasOut(a, id) && PendingOut(b, id) ==> PendingOut(a, id)
  {
    if HasOut(a, id) {
      var i :| 0 <= i < |a| && a[i].id == id;
      assert b[i].id == id;
      if PendingOut(b, id) {
        var j :| 0 <= j < |b| && b[j].id == id && b[j].status == Pending;
        assert j < |a|;
        assert a[j].id == id && a[j].status == Pending;
      }
    }
  }

  /** The only ways the dispatcher comes to, and leaves, a marked row. */
  lemma MarkStep(w: World, a: Action)
    ensures var t := Next(w, a);
            && (t.d.OutMarked? && t.d != w.d ==>
                  HasOut(w.s.out, t.d.oid) && PendingOut(w.s.out, t.d.oid) && !PendingOut(t.s.out, t.d.oid))
            && (t.h.written == w.h.written ||
                (w.d.OutMarked? && t.h.written == w.h.written + multiset{w.d.oid} && t.d.OutTried? && t.s == w.s))
  {
    hide Settled, ReceivedRows, Offering, Scanned, Offered, Updated, SetTo, Acknowledged, Restarted, IsUuid,
         W.Produced, W.HookDecided, WakeClaimed, ForwardClaimed, FirstPending;
    FirstPendingIs(w.s.out);
  }

  lemma WrittenNext(w: World, a: Action)
    requires WrittenOk(w)
    ensures WrittenOk(Next(w, a))
  {
    hide Next, HasOut, PendingOut, OutGrew;
    var t := Next(w, a);
    OutGrows(w, a);
    MarkStep(w, a);
    if t.d.OutMarked? {
      OutGrewMeans(w.s.out, t.s.out, t.d.oid);
    }
    forall id: string ensures t.h.written[id] + WritesLeft(t, id) <= 1 {
      OutGrewMeans(w.s.out, t.s.out, id);
      assert w.h.written[id] + WritesLeft(w, id) <= 1;
    }
  }

  /** Every outgoing row is written to a socket at most once in any run with listener crashes and
      restarts at any point: the mark is stored before the write and never taken back. */
  lemma {:induction false} WrittenAtMostOnce(w: World, run: seq<Action>)
    requires w.d.Ready? && w.h.written == multiset{}
    ensures WrittenOk(Exec(w, run))
    ensures forall id: string :: Exec(w, run).h.written[id] <= 1
  {
    hide Next;
    if run != [] {
      WrittenAtMostOnce(w, run[..|run| - 1]);
      WrittenNext(Exec(w, run[..|run| - 1]), run[|run| - 1]);
    }
    var t := Exec(w, run);
    forall id: string ensures t.h.written[id] <= 1 {
      assert t.h.written[id] + WritesLeft(t, id) <= 1;
    }
  }
}
