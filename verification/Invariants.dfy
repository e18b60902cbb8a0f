/** What every step keeps of the tables: rows never disappear, change only their status, and a
    status only climbs. */
module Invariants {
  import opened Common
  import opened Budget
  import opened Messages
  import opened Offers
  import opened Bridge

  /** `b` is `a` with some statuses moved up. */
  predicate Moved(a: seq<Row>, b: seq<Row>) {
    && |a| == |b|
    && forall i | 0 <= i < |a| ::
         && b[i] == a[i].(status := b[i].status)
         && Level(a[i].status) <= Level(b[i].status)
  }

  predicate GrewFrom(a: seq<Row>, b: seq<Row>) {
    |a| <= |b| && Moved(a, b[..|a|])
  }

  predicate DistinctOut(out: seq<OutRow>) {
    forall i, j | 0 <= i < j < |out| :: out[i].id != out[j].id
  }

  predicate TablesOk(s: Store) {
    && Distinct(s.rows)
    && (forall i | 0 <= i < |s.rows| :: IsUuid(s.rows[i].id))
    && DistinctOut(s.out)
  }

  lemma MovedRefl(a: seq<Row>)
    ensures Moved(a, a) && GrewFrom(a, a)
  {
    assert a[..|a|] == a;
  }

  lemma GrewTrans(a: seq<Row>, b: seq<Row>, c: seq<Row>)
    requires GrewFrom(a, b) && GrewFrom(b, c)
    ensures GrewFrom(a, c)
  {
    forall i | 0 <= i < |a|
      ensures c[..|a|][i] == a[i].(status := c[i].status) && Level(a[i].status) <= Level(c[i].status)
    {
      assert b[..|a|][i] == b[i];
      assert c[..|b|][i] == c[i];
    }
  }

  /** Messages from the received list only move up when they are settled. */
  lemma SettledMoves(rows: seq<Row>, n: nat, v: View)
    requires Distinct(rows) && n <= |ReceivedRows(rows)|
    ensures Moved(rows, Settled(rows, ReceivedRows(rows)[..n], v))
  {
    hide ReceivedRows, Deliverable;
    ReceivedAreRows(rows);
    var done := ReceivedRows(rows)[..n];
    forall i | 0 <= i < |rows| && Among(rows[i].Ref(), done) ensures rows[i].status == Received {
      var j :| 0 <= j < |done| && done[j].Ref() == rows[i].Ref();
      assert done[j] == ReceivedRows(rows)[j];
      KeyIsReceived(rows, i, done[j]);
    }
  }

  lemma KeyIsReceived(rows: seq<Row>, i: nat, r: Row)
    requires Distinct(rows) && i < |rows| && r in rows && r.status == Received && r.Ref() == rows[i].Ref()
    ensures rows[i].status == Received
  {
    var m :| 0 <= m < |rows| && rows[m] == r;
    assert m == i;
  }

  lemma MovedKeeps(a: seq<Row>, b: seq<Row>)
    requires Moved(a, b)
    ensures Distinct(a) ==> Distinct(b)
    ensures (forall i | 0 <= i < |a| :: IsUuid(a[i].id)) ==> forall i | 0 <= i < |b| :: IsUuid(b[i].id)
  {
    forall i | 0 <= i < |a| ensures b[i].Ref() == a[i].Ref() && b[i].id == a[i].id {
    }
  }

  lemma OfferMoves(s: Store, v: View, notice: string)
    requires Distinct(s.rows)
    ensures Moved(s.rows, Offered(s, v, notice).0.rows)
  {
    MovedRefl(s.rows);
    BatchExact(s.rows, s.remaining, NoticePieces(notice), v);
    SettledMoves(s.rows, Reach(FirstFew(ReceivedRows(s.rows)), s.remaining, TotalLength(NoticePieces(notice)), v), v);
  }

  lemma ClaimMoves(s: Store, v: View, now: real)
    requires Distinct(s.rows)
    ensures Moved(s.rows, WakeClaimed(s, v, now).0.rows)
  {
    MovedRefl(s.rows);
    ScannedExact(ReceivedRows(s.rows), s.rows, v);
    SettledMoves(s.rows, Blocked(ReceivedRows(s.rows), v), v);
  }

  lemma DispatchMoves(w: World, e: Env)
    requires Distinct(w.s.rows)
    requires w.d.Forwarded? ==> Level(w.d.result) == 2
    ensures Moved(w.s.rows, Dispatched(w, e).s.rows)
  {
    hide Settled, ReceivedRows, Offering, Scanned, WakeClaimed, Moved, Distinct, ReceivedKey, FirstPending;
    MovedRefl(w.s.rows);
    match w.d {
      case WantWake => ClaimMoves(w.s, e.view, e.now);
      case WantHold(k) => StatusMoves(w.s.rows, k, Held);
      case WantForward(k) => ForwardMoves(w.s.rows, k);
      case Forwarded(k, st) => StatusMoves(w.s.rows, k, st);
      case _ =>
    }
  }

  lemma StatusMoves(rows: seq<Row>, k: Key, st: Status)
    requires Level(st) == 2
    ensures Moved(rows, SetStatus(rows, k, st))
  {
  }

  lemma ForwardMoves(rows: seq<Row>, k: Key)
    ensures Moved(rows, SetReceivedTo(rows, k, Forwarding))
  {
  }

  lemma CliMoves(rows: seq<Row>, peer: Option<string>, k: Key)
    ensures Moved(rows, Acknowledged(rows, peer))
    ensures Moved(rows, SetTo(rows, k, Consumed))
    ensures Moved(rows, Restarted(rows))
  {
  }

  /** A stored result of a forward is one of the four the dispatcher writes. */
  predicate ResultOk(d: Dispatcher) {
    d.Forwarded? ==> Level(d.result) == 2
  }

  lemma RowsGrow(w: World, a: Action)
    requires Distinct(w.s.rows) && ResultOk(w.d)
    ensures GrewFrom(w.s.rows, Next(w, a).s.rows)
    ensures !a.Arrive? ==> |Next(w, a).s.rows| == |w.s.rows|
    ensures a.Arrive? ==> Next(w, a).s.rows == w.s.rows || Next(w, a).s.rows == w.s.rows + [a.row.(status := Received)]
  {
    hide Settled, ReceivedRows, Offering, Scanned, Dispatched, Distinct, Offered, Updated, SetTo, Acknowledged,
         Restarted;
    var rows := w.s.rows;
    MovedRefl(rows);
    var after := Next(w, a).s.rows;
    match a {
      case Arrive(r) =>
        if IsUuid(r.id) && !HasKey(rows, r.Ref()) {
          assert after[..|rows|] == rows;
        }
      case Dispatch(e) => DispatchMoves(w, e); assert after[..|rows|] == after;
      case Offer(v, notice) => OfferMoves(w.s, v, notice); assert after[..|rows|] == after;
      case AckAll(peer) => CliMoves(rows, peer, Key("", "")); assert after[..|rows|] == after;
      case AckOne(k) =>
        if k.Some? {
          CliMoves(rows, None, k.value);
        }
        assert after[..|rows|] == after;
      case ListenerStart => CliMoves(rows, None, Key("", "")); assert after[..|rows|] == after;
      case _ =>
    }
  }

  /** No message overtakes another: what leaves `received` in a hook's offer or in the search for a
      wake is a prefix of the received list, in arrival order. */
  lemma NoOvertaking(s: Store, v: View, notice: string, now: real) returns (n: nat, m: nat)
    requires Distinct(s.rows)
    ensures n <= |ReceivedRows(s.rows)| && m <= |ReceivedRows(s.rows)|
    ensures ReceivedRows(Offered(s, v, notice).0.rows) == ReceivedRows(s.rows)[n..]
    ensures ReceivedRows(WakeClaimed(s, v, now).0.rows) == ReceivedRows(s.rows)[m..]
  {
    hide Settled, ReceivedRows, Distinct, Stops, OfferedKeys, OfferedPieces;
    var received := ReceivedRows(s.rows);
    n, m := 0, 0;
    if s.mode == Live || s.mode == Auto {
      BatchExact(s.rows, s.remaining, NoticePieces(notice), v);
      n := Reach(FirstFew(received), s.remaining, TotalLength(NoticePieces(notice)), v);
    }
    if WakeAllowed(s) {
      ScannedExact(received, s.rows, v);
      m := Blocked(received, v);
    }
  }
}
