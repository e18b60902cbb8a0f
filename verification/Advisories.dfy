/** Exactly which blocked messages a pass names to their sender, and which received advisories reach the
    model (src/peer_delivery.py). */
module Advisories {
  import opened Messages
  import opened Delivery

  // ---- naming -----------------------------------------------------------------------------------------

  /** The message is blocked for its sender: held, or still received while the bridge cannot reach its
      session and, if only a first hook is awaited, for at least twenty seconds. */
  predicate Waits(t: Tick, r: Row) {
    || r.status == Held
    || (r.status == Received && !t.reachable && (t.startup ==> t.now - t.created(r.Ref()) >= 20.0))
  }

  predicate Names(t: Tick, rows: seq<Row>, peer: string, warned: set<string>, id: string) {
    exists i :: 0 <= i < |rows| && rows[i].id == id && rows[i].peer == peer && Waits(t, rows[i])
                && MarkKey(peer, id) !in warned
  }

  lemma {:induction false} ListedExactly(rows: seq<Row>, peer: string, r: Row)
    ensures r in ListedRows(rows, peer) <==> r in rows && r.peer == peer && (r.status == Received || r.status == Held)
  {
    if rows != [] {
      ListedExactly(rows[..|rows| - 1], peer, r);
      assert rows == rows[..|rows| - 1] + [rows[|rows| - 1]];
    }
  }

  lemma {:induction false} EligibleIdsExactly(rows: seq<Row>, t: Tick, peer: string, warned: set<string>, id: string)
    ensures id in EligibleIds(rows, t, peer, warned) <==> Names(t, rows, peer, warned, id)
  {
    hide MarkKey;
    if rows != [] {
      var m := |rows| - 1;
      EligibleIdsExactly(rows[..m], t, peer, warned, id);
      if Names(t, rows[..m], peer, warned, id) {
        var i :| 0 <= i < m && rows[..m][i].id == id && rows[..m][i].peer == peer && Waits(t, rows[..m][i])
                 && MarkKey(peer, id) !in warned;
        assert rows[i].id == id;
      }
      if Names(t, rows, peer, warned, id) {
        var i :| 0 <= i < |rows| && rows[i].id == id && rows[i].peer == peer && Waits(t, rows[i])
                 && MarkKey(peer, id) !in warned;
        if i < m {
          assert rows[..m][i].id == id;
        }
      }
    }
  }

  /** What a peer's turn finds to name, up to its limits of a thousand rows and twenty ids, are exactly
      the unmarked messages of that peer that wait. */
  lemma NamedExactly(t: Tick, peer: string, warned: set<string>, id: string)
    requires |ListedRows(t.rows, peer)| <= 1000 && |EligibleIds(ListedRows(t.rows, peer), t, peer, warned)| <= 20
    ensures id in Unseen(t, peer, warned) <==> Names(t, t.rows, peer, warned, id)
  {
    hide MarkKey, ListedRows, EligibleIds, Waits;
    var listed := ListedRows(t.rows, peer);
    assert FirstOf(listed, MAX_ROWS) == listed;
    assert FirstOf(EligibleIds(listed, t, peer, warned), MAX_NAMED) == EligibleIds(listed, t, peer, warned);
    EligibleIdsExactly(listed, t, peer, warned, id);
    SameNames(t, peer, warned, id);
  }

  lemma WaitsIsListed(t: Tick, r: Row)
    ensures Waits(t, r) ==> r.status == Received || r.status == Held
  {
  }

  lemma SameNames(t: Tick, peer: string, warned: set<string>, id: string)
    ensures Names(t, ListedRows(t.rows, peer), peer, warned, id) <==> Names(t, t.rows, peer, warned, id)
  {
    hide MarkKey, ListedRows, Waits;
    var rows, listed := t.rows, ListedRows(t.rows, peer);
    if Names(t, listed, peer, warned, id) {
      var i :| 0 <= i < |listed| && listed[i].id == id && listed[i].peer == peer && Waits(t, listed[i])
               && MarkKey(peer, id) !in warned;
      ListedExactly(rows, peer, listed[i]);
      var j :| 0 <= j < |rows| && rows[j] == listed[i];
      assert rows[j].id == id;
    }
    if Names(t, rows, peer, warned, id) {
      var i :| 0 <= i < |rows| && rows[i].id == id && rows[i].peer == peer && Waits(t, rows[i])
               && MarkKey(peer, id) !in warned;
      WaitsIsListed(t, rows[i]);
      ListedExactly(rows, peer, rows[i]);
      var j :| 0 <= j < |listed| && listed[j] == rows[i];
      assert listed[j].id == id;
    }
  }

  /** In general a turn names the oldest of them: the first twenty among the first thousand rows. */
  lemma OldestAreNamed(t: Tick, peer: string, warned: set<string>)
    ensures var first := if |ListedRows(t.rows, peer)| <= 1000 then ListedRows(t.rows, peer)
                         else ListedRows(t.rows, peer)[..1000];
            var all := EligibleIds(first, t, peer, warned);
            Unseen(t, peer, warned) == if |all| <= 20 then all else all[..20]
  {
    hide MarkKey, ListedRows, EligibleIds;
    var listed := ListedRows(t.rows, peer);
    if |listed| <= 1000 {
      assert listed[..|listed|] == listed;
    }
    var all := EligibleIds(FirstOf(listed, 1000), t, peer, warned);
    if |all| <= 20 {
      assert all[..|all|] == all;
    }
  }

  // ---- advisories received ------------------------------------------------------------------------------

  /** How many advisories some actions bring. */
  function Arrivals(run: seq<BoxAction>): nat {
    if run == [] then 0 else Arrivals(run[..|run| - 1]) + (if run[|run| - 1].Store? then 1 else 0)
  }

  /** The advisory stored at `i` is its peer's newest, and nobody took the box since. */
  predicate NewestOf(run: seq<BoxAction>, i: nat, peer: string) {
    && i < |run| && run[i] == Store(peer)
    && forall j | i < j < |run| :: run[j] != Take && run[j] != Store(peer)
  }

  const EMPTY_BOX := Box(map[], 0, multiset{})

  lemma NewestBefore(run: seq<BoxAction>, peer: string)
    requires run != []
    ensures var m := |run| - 1;
            forall i: nat :: NewestOf(run, i, peer) <==>
              if run[m] == Store(peer) then i == m
              else run[m] != Take && NewestOf(run[..m], i, peer)
  {
    var m := |run| - 1;
    forall i: nat ensures NewestOf(run, i, peer) <==>
                            if run[m] == Store(peer) then i == m else run[m] != Take && NewestOf(run[..m], i, peer)
    {
      if i < m {
        assert run[..m][i] == run[i];
        assert forall j | i < j < m :: run[..m][j] == run[j];
      }
    }
  }

  /** The box holds for each peer exactly the newest advisory that came since it was last taken. */
  lemma {:induction false} BoxHoldsTheNewest(run: seq<BoxAction>, peer: string)
    ensures var b := BoxRun(EMPTY_BOX, run);
            && b.arrived == Arrivals(run)
            && (peer in b.stored <==> exists i: nat :: NewestOf(run, i, peer))
            && forall i: nat | NewestOf(run, i, peer) ::
                 i < |run| && peer in b.stored && b.stored[peer] == Arrivals(run[..i])
  {
    if run != [] {
      hide NewestOf;
      var m := |run| - 1;
      BoxHoldsTheNewest(run[..m], peer);
      NewestBefore(run, peer);
      forall i: nat | NewestOf(run[..m], i, peer) ensures run[..m][..i] == run[..i] {
      }
      if run[m] == Store(peer) {
        assert NewestOf(run, m, peer);
      } else if run[m].Store? && exists i: nat :: NewestOf(run[..m], i, peer) {
        var i: nat :| NewestOf(run[..m], i, peer);
        assert NewestOf(run, i, peer);
      }
    }
  }

  /** Taking the box shows the model exactly what it holds. */
  lemma TakingShowsTheBox(b: Box, peer: string)
    requires peer in b.stored
    ensures var t := BoxNext(b, Take);
            t.stored == map[] && t.arrived == b.arrived && t.taken == b.taken + multiset(b.stored.Values)
            && b.stored[peer] in t.taken
  {
    assert b.stored[peer] in b.stored.Values;
  }
}
