/** What one hook offer and one wake search do to the message table, exactly: they take a prefix
    of the received list, in arrival order, and nothing else. */
module Offers {
  import opened Common
  import opened Budget
  import opened Messages

  /** One row leaves the head of the received list. */
  lemma StepSettles(rows: seq<Row>, sel: Row -> bool, v: View, rest: seq<Row>)
    requires Distinct(rows) && ReceivedRows(rows) != []
    requires rest <= ReceivedRows(rows)[1..]
    requires forall r :: r in rows ==> (sel(r) <==> r.Ref() == ReceivedRows(rows)[0].Ref())
    ensures var head := ReceivedRows(rows)[0];
            var next := Updated(rows, sel, Outcome(v, head));
            && Distinct(next)
            && ReceivedRows(next) == ReceivedRows(rows)[1..]
            && Settled(rows, [head] + rest, v) == Settled(next, rest, v)
  {
    var head := ReceivedRows(rows)[0];
    var next := Updated(rows, sel, Outcome(v, head));
    SetToKeepsKeys(rows, sel, Outcome(v, head));
    HeadLeaves(rows, sel, Outcome(v, head));
    ReceivedAreRows(rows);
    ReceivedDistinct(rows);
    assert head in rows;
    var all := ReceivedRows(rows);
    forall i | 0 <= i < |rows| ensures Settled(rows, [head] + rest, v)[i] == Settled(next, rest, v)[i] {
      assert rows[i] in rows;
      AmongCons(rows[i].Ref(), head, rest);
      assert next[i].Ref() == rows[i].Ref();
      if rows[i].Ref() == head.Ref() {
        assert rows[i] == head;
        forall j | 0 <= j < |rest| ensures rest[j].Ref() != head.Ref() {
          assert all[1 + j] == rest[j];
        }
      }
    }
  }

  lemma AmongCons(k: Key, head: Row, rest: seq<Row>)
    ensures Among(k, [head] + rest) <==> k == head.Ref() || Among(k, rest)
  {
    var all := [head] + rest;
    if k == head.Ref() {
      assert all[0].Ref() == k;
    }
    if Among(k, rest) {
      var j :| 0 <= j < |rest| && rest[j].Ref() == k;
      assert all[1 + j].Ref() == k;
    }
  }

  lemma SettlesNothing(rows: seq<Row>, v: View)
    ensures Settled(rows, [], v) == rows
  {
  }

  lemma TotalLengthAppend(pieces: seq<string>, p: string)
    ensures TotalLength(pieces + [p]) == TotalLength(pieces) + |p|
  {
    assert (pieces + [p])[..|pieces|] == pieces;
  }

  /** How many messages an offer gets to before the allowance or the context runs out. */
  function Reach(todo: seq<Row>, remaining: Allowance, used: nat, v: View): (n: nat)
    ensures n <= |todo|
  {
    if todo == [] || !Available(remaining) then 0
    else if !Deliverable(v, todo[0]) then 1 + Reach(todo[1..], remaining, used, v)
    else if used + |Piece(v, todo[0])| > MAX_CONTEXT then 0
    else 1 + Reach(todo[1..], Spend(remaining), used + |Piece(v, todo[0])|, v)
  }

  /** The accumulator after one more message. */
  function Taken(b: Batch, r: Row, v: View): Batch {
    if Deliverable(v, r)
    then Batch(SetTo(b.rows, r.Ref(), HookOffered), Spend(b.remaining), b.pieces + [Piece(v, r)], b.offered + [r.Ref()])
    else b.(rows := SetTo(b.rows, r.Ref(), Held))
  }

  lemma OneMoreReached(todo: seq<Row>, b: Batch, v: View)
    requires todo != []
    ensures var n := Reach(todo, b.remaining, TotalLength(b.pieces), v);
            var next := Taken(b, todo[0], v);
            n != 0 ==> n == 1 + Reach(todo[1..], next.remaining, TotalLength(next.pieces), v)
  {
    hide SetTo, Deliverable, Piece, TotalLength, Spend, Available;
    TotalLengthAppend(b.pieces, Piece(v, todo[0]));
  }

  lemma OneMoreTaken(todo: seq<Row>, b: Batch, v: View)
    requires todo != []
    ensures Offering(todo, b, v) == if Reach(todo, b.remaining, TotalLength(b.pieces), v) == 0 then b
                                    else Offering(todo[1..], Taken(b, todo[0], v), v)
  {
    hide SetTo, Deliverable, Piece, TotalLength, Spend, Available;
  }

  lemma OneMore(todo: seq<Row>, b: Batch, v: View)
    ensures var n := Reach(todo, b.remaining, TotalLength(b.pieces), v);
            if n == 0 then Offering(todo, b, v) == b
            else
              && Offering(todo, b, v) == Offering(todo[1..], Taken(b, todo[0], v), v)
              && n == 1 + Reach(todo[1..], Taken(b, todo[0], v).remaining, TotalLength(Taken(b, todo[0], v).pieces), v)
              && todo[..n] == [todo[0]] + todo[1..][..n - 1]
  {
    if todo != [] {
      hide Offering, Reach, Taken, TotalLength;
      OneMoreReached(todo, b, v);
      OneMoreTaken(todo, b, v);
      var n := Reach(todo, b.remaining, TotalLength(b.pieces), v);
      if n > 0 {
        PrefixCons(todo, n);
      }
    }
  }

  lemma PrefixCons<T>(s: seq<T>, n: nat)
    requires 0 < n <= |s|
    ensures s[..n] == [s[0]] + s[1..][..n - 1]
  {
  }

  lemma TakenSettles(b: Batch, rest: seq<Row>, v: View)
    requires Distinct(b.rows) && ReceivedRows(b.rows) != [] && rest <= ReceivedRows(b.rows)[1..]
    ensures var head := ReceivedRows(b.rows)[0];
            var next := Taken(b, head, v).rows;
            && Distinct(next)
            && ReceivedRows(next) == ReceivedRows(b.rows)[1..]
            && Settled(b.rows, [head] + rest, v) == Settled(next, rest, v)
  {
    hide Settled, Distinct, ReceivedRows, Deliverable;
    var head := ReceivedRows(b.rows)[0];
    var sel := (x: Row) => x.Ref() == head.Ref();
    StepSettles(b.rows, sel, v, rest);
    assert Taken(b, head, v).rows == Updated(b.rows, sel, Outcome(v, head));
  }

  /** An offer settles exactly a prefix of what it was given. */
  lemma {:induction false} OfferingTable(todo: seq<Row>, b: Batch, v: View)
    requires Distinct(b.rows) && todo <= ReceivedRows(b.rows)
    ensures var n := Reach(todo, b.remaining, TotalLength(b.pieces), v);
            var out := Offering(todo, b, v);
            && Distinct(out.rows)
            && out.rows == Settled(b.rows, todo[..n], v)
            && ReceivedRows(out.rows) == ReceivedRows(b.rows)[n..]
  {
    OneMore(todo, b, v);
    var n := Reach(todo, b.remaining, TotalLength(b.pieces), v);
    if n == 0 {
      SettlesNothing(b.rows, v);
      assert todo[..0] == [];
    } else {
      hide Offering, Reach, Taken, TotalLength, Settled, Distinct, ReceivedRows;
      assert todo[0] == ReceivedRows(b.rows)[0];
      TakenSettles(b, todo[1..][..n - 1], v);
      OfferingTable(todo[1..], Taken(b, todo[0], v), v);
      assert ReceivedRows(b.rows)[1..][n - 1..] == ReceivedRows(b.rows)[n..];
    }
  }

  lemma OfferedCons(r: Row, rest: seq<Row>, v: View)
    ensures OfferedKeys([r] + rest, v) == (if Deliverable(v, r) then [r.Ref()] else []) + OfferedKeys(rest, v)
    ensures OfferedPieces([r] + rest, v) == (if Deliverable(v, r) then [Piece(v, r)] else []) + OfferedPieces(rest, v)
  {
    assert ([r] + rest)[1..] == rest;
  }

  /** What it hands over. */
  lemma {:induction false} OfferingHands(todo: seq<Row>, b: Batch, v: View)
    ensures var n := Reach(todo, b.remaining, TotalLength(b.pieces), v);
            var out := Offering(todo, b, v);
            && out.offered == b.offered + OfferedKeys(todo[..n], v)
            && out.pieces == b.pieces + OfferedPieces(todo[..n], v)
  {
    hide SetTo, Deliverable, Piece, Reach, TotalLength, Offering;
    OneMore(todo, b, v);
    var n := Reach(todo, b.remaining, TotalLength(b.pieces), v);
    if n == 0 {
      assert todo[..0] == [];
    } else {
      OfferingHands(todo[1..], Taken(b, todo[0], v), v);
      OfferedCons(todo[0], todo[1..][..n - 1], v);
    }
  }

  /** What that costs. */
  lemma {:induction false} OfferingPays(todo: seq<Row>, b: Batch, v: View)
    ensures var out := Offering(todo, b, v);
            && out.remaining.Finite? == b.remaining.Finite?
            && (b.remaining.Finite? ==> out.remaining.left + |out.offered| == b.remaining.left + |b.offered|)
            && TotalLength(out.pieces) <= Max(TotalLength(b.pieces), MAX_CONTEXT)
  {
    OneMore(todo, b, v);
    if Reach(todo, b.remaining, TotalLength(b.pieces), v) > 0 {
      TotalLengthAppend(b.pieces, Piece(v, todo[0]));
      OfferingPays(todo[1..], Taken(b, todo[0], v), v);
    }
  }

  /** Where an offer stops, and why. */
  ghost predicate Stops(todo: seq<Row>, n: nat, out: Batch, v: View) {
    || n == |todo|
    || !Available(out.remaining)
    || (n < |todo| && Deliverable(v, todo[n])
        && TotalLength(out.pieces) + |Piece(v, todo[n])| > MAX_CONTEXT)
  }

  lemma {:induction false} OfferingStops(todo: seq<Row>, b: Batch, v: View)
    ensures Stops(todo, Reach(todo, b.remaining, TotalLength(b.pieces), v), Offering(todo, b, v), v)
  {
    OneMore(todo, b, v);
    var n := Reach(todo, b.remaining, TotalLength(b.pieces), v);
    if n > 0 {
      OfferingStops(todo[1..], Taken(b, todo[0], v), v);
    }
  }

  lemma {:induction false} OfferedKeysAre(done: seq<Row>, v: View)
    ensures |OfferedKeys(done, v)| == |OfferedPieces(done, v)| <= |done|
    ensures forall k :: k in OfferedKeys(done, v) <==>
              exists i :: 0 <= i < |done| && Deliverable(v, done[i]) && done[i].Ref() == k
  {
    if done != [] {
      OfferedKeysAre(done[1..], v);
      forall k | k in OfferedKeys(done, v)
        ensures exists i :: 0 <= i < |done| && Deliverable(v, done[i]) && done[i].Ref() == k
      {
        if k in OfferedKeys(done[1..], v) {
          var j :| 0 <= j < |done[1..]| && Deliverable(v, done[1..][j]) && done[1..][j].Ref() == k;
          assert done[j + 1].Ref() == k;
        } else {
          assert done[0].Ref() == k;
        }
      }
      forall i | 0 <= i < |done| && Deliverable(v, done[i]) ensures done[i].Ref() in OfferedKeys(done, v) {
        if i > 0 {
          assert done[1..][i - 1] == done[i];
        }
      }
    }
  }

  lemma {:induction false} OfferedOnce(done: seq<Row>, v: View)
    requires Distinct(done)
    ensures forall k :: multiset(OfferedKeys(done, v))[k] <= 1
  {
    if done != [] {
      DistinctTail(done);
      OfferedOnce(done[1..], v);
      OfferedKeysAre(done[1..], v);
      var rest := OfferedKeys(done[1..], v);
      if Deliverable(v, done[0]) {
        assert done[0].Ref() !in rest;
        assert multiset([done[0].Ref()] + rest) == multiset{done[0].Ref()} + multiset(rest);
      } else {
        assert [] + rest == rest;
      }
    }
  }

  /** How many undeliverable messages stand ahead of the first deliverable one. */
  function Blocked(candidates: seq<Row>, v: View): (n: nat)
    ensures n <= |candidates|
    ensures forall i :: 0 <= i < n ==> !Deliverable(v, candidates[i])
    ensures n < |candidates| ==> Deliverable(v, candidates[n])
  {
    if candidates == [] || Deliverable(v, candidates[0]) then 0 else 1 + Blocked(candidates[1..], v)
  }

  /** The search holds exactly the undeliverable messages ahead of the first deliverable one. */
  lemma {:induction false} ScannedExact(candidates: seq<Row>, rows: seq<Row>, v: View)
    requires Distinct(rows) && candidates == ReceivedRows(rows)
    ensures var (out, found) := Scanned(candidates, rows, v);
            var n := Blocked(candidates, v);
            && found == (if n < |candidates| then Some(candidates[n]) else None)
            && Distinct(out)
            && out == Settled(rows, candidates[..n], v)
            && ReceivedRows(out) == candidates[n..]
  {
    hide Settled, SetReceivedTo, ReceivedRows, Distinct;
    var n := Blocked(candidates, v);
    if n == 0 {
      SettlesNothing(rows, v);
      assert candidates[..0] == [];
    } else {
      var r := candidates[0];
      var next := SetReceivedTo(rows, r.Ref(), Held);
      HoldSettles(rows, v, candidates[1..][..n - 1]);
      ScannedExact(candidates[1..], next, v);
      assert candidates[..n] == [r] + candidates[1..][..n - 1];
    }
  }

  lemma HoldSettles(rows: seq<Row>, v: View, rest: seq<Row>)
    requires Distinct(rows) && ReceivedRows(rows) != [] && !Deliverable(v, ReceivedRows(rows)[0])
    requires rest <= ReceivedRows(rows)[1..]
    ensures var head := ReceivedRows(rows)[0];
            var next := SetReceivedTo(rows, head.Ref(), Held);
            && Distinct(next)
            && ReceivedRows(next) == ReceivedRows(rows)[1..]
            && Settled(rows, [head] + rest, v) == Settled(next, rest, v)
  {
    var k := ReceivedRows(rows)[0].Ref();
    var sel := (x: Row) => x.Ref() == k && x.status == Received;
    OnlyTheHead(rows);
    assert SetReceivedTo(rows, k, Held) == Updated(rows, sel, Held);
    StepSettles(rows, sel, v, rest);
  }

  /** A received key names one row, so the extra status test of the hold changes nothing. */
  lemma OnlyTheHead(rows: seq<Row>)
    requires Distinct(rows) && ReceivedRows(rows) != []
    ensures forall r :: r in rows && r.Ref() == ReceivedRows(rows)[0].Ref() ==> r.status == Received
  {
    ReceivedAreRows(rows);
    assert ReceivedRows(rows)[0] in rows;
  }

  /** One hook batch: at most four messages, the oldest first, each paid for exactly when it is
      offered, held ones free, and text up to the size bound. */
  lemma BatchExact(rows: seq<Row>, remaining: Allowance, notice: seq<string>, v: View)
    requires Distinct(rows)
    ensures var received := ReceivedRows(rows);
            var out := Offering(FirstFew(received), Batch(rows, remaining, notice, []), v);
            var n := Reach(FirstFew(received), remaining, TotalLength(notice), v);
            && n <= |received| && n <= MAX_BATCH
            && Stops(FirstFew(received), n, out, v)
            && Distinct(out.rows)
            && out.rows == Settled(rows, received[..n], v)
            && ReceivedRows(out.rows) == received[n..]
            && out.offered == OfferedKeys(received[..n], v) && |out.offered| <= n
            && out.pieces == notice + OfferedPieces(received[..n], v)
            && out.remaining.Finite? == remaining.Finite?
            && (remaining.Finite? ==> out.remaining.left + |out.offered| == remaining.left)
            && TotalLength(out.pieces) <= Max(TotalLength(notice), MAX_CONTEXT)
  {
    var received := ReceivedRows(rows);
    var todo := FirstFew(received);
    var b := Batch(rows, remaining, notice, []);
    OfferingTable(todo, b, v);
    OfferingHands(todo, b, v);
    OfferingPays(todo, b, v);
    OfferingStops(todo, b, v);
    var n := Reach(todo, remaining, TotalLength(notice), v);
    assert todo[..n] == received[..n];
    OfferedKeysAre(received[..n], v);
  }
}
