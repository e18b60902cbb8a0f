/** src/peer_delivery.py: advisories to senders of blocked messages, marked before they are
    written, and the box of advisories received from peers. */
module Delivery {
  import opened Common
  import opened Messages

  const MAX_NAMED: nat := 20
  const MAX_ROWS: nat := 1000
  const STARTUP_GRACE: real := 20.0

  /** What one pass reads: the table, who is enrolled, the bridge's own state and the clock. */
  datatype Tick = Tick(rows: seq<Row>, peers: seq<string>, reachable: bool, startup: bool,
                       created: Key -> real, now: real, crash: Option<Crash>)

  /** Where the process dies: at which peer, after how many marks. */
  datatype Crash = Crash(peer: nat, marks: nat)

  /** The metadata key that records an attempt for one message. */
  function MarkKey(peer: string, id: string): string {
    "notice_message:" + peer + ":" + id
  }

  /** Ids have one length, so the key tells peer and id apart whatever they contain. */
  lemma MarkKeysDiffer(p: string, i: string, q: string, j: string)
    requires |i| == |j| && MarkKey(p, i) == MarkKey(q, j)
    ensures p == q && i == j
  {
    var h := "notice_message:";
    var a, b := MarkKey(p, i), MarkKey(q, j);
    assert |h| == 15;
    assert a[15..15 + |p|] == p && b[15..15 + |q|] == q;
    assert a[|a| - |i|..] == i && b[|b| - |j|..] == j;
  }

  predicate Blocked(t: Tick, peer: string, r: Row) {
    r.peer == peer && (r.status == Held || (r.status == Received && !t.reachable))
  }

  predicate Listed(peer: string, r: Row) {
    r.peer == peer && (r.status == Received || r.status == Held)
  }

  /** SELECT ... WHERE peer AND status IN ('received','held') ORDER BY created */
  function ListedRows(rows: seq<Row>, peer: string): seq<Row> {
    if rows == [] then []
    else ListedRows(rows[..|rows| - 1], peer)
         + (if Listed(peer, rows[|rows| - 1]) then [rows[|rows| - 1]] else [])
  }

  /** May the message be named in an advisory now? */
  predicate Eligible(t: Tick, peer: string, warned: set<string>, r: Row) {
    && Blocked(t, peer, r)
    && MarkKey(peer, r.id) !in warned
    && (r.status == Held || !t.startup || t.now - t.created(r.Ref()) >= STARTUP_GRACE)
  }

  function EligibleIds(rows: seq<Row>, t: Tick, peer: string, warned: set<string>): seq<string> {
    if rows == [] then []
    else EligibleIds(rows[..|rows| - 1], t, peer, warned)
         + (if Eligible(t, peer, warned, rows[|rows| - 1]) then [rows[|rows| - 1].id] else [])
  }

  function FirstOf<T>(s: seq<T>, n: nat): seq<T> {
    s[..Min(|s|, n)]
  }

  /** The messages one advisory names. */
  function Unseen(t: Tick, peer: string, warned: set<string>): seq<string> {
    FirstOf(EligibleIds(FirstOf(ListedRows(t.rows, peer), MAX_ROWS), t, peer, warned), MAX_NAMED)
  }

  function Marked(warned: set<string>, peer: string, ids: seq<string>): set<string> {
    if ids == [] then warned else Marked(warned, peer, ids[..|ids| - 1]) + {MarkKey(peer, ids[|ids| - 1])}
  }

  function Keys(peer: string, ids: seq<string>): seq<Key> {
    seq(|ids|, i requires 0 <= i < |ids| => Key(peer, ids[i]))
  }

  /** The stored marks, and (history only) the messages named in advisories written or tried. */
  datatype World = World(warned: set<string>, named: multiset<Key>)

  predicate CrashesAt(t: Tick, i: nat) {
    t.crash.Some? && t.crash.value.peer == i
  }

  /** One peer's turn: first every mark, then the advisory. */
  function Advised(w: World, t: Tick, i: nat): World
    requires i < |t.peers|
  {
    var ids := Unseen(t, t.peers[i], w.warned);
    if ids == [] then w
    else if CrashesAt(t, i) then World(Marked(w.warned, t.peers[i], FirstOf(ids, t.crash.value.marks)), w.named)
    else World(Marked(w.warned, t.peers[i], ids), w.named + multiset(Keys(t.peers[i], ids)))
  }

  function AdvisedFrom(w: World, t: Tick, i: nat): World
    requires i <= |t.peers|
    decreases |t.peers| - i
  {
    if i == |t.peers| then w
    else if CrashesAt(t, i) then Advised(w, t, i)
    else AdvisedFrom(Advised(w, t, i), t, i + 1)
  }

  /** The notifier over the stored marks. */
  class Notifier {
    var warned: set<string>
    ghost var named: multiset<Key>

    ghost function View(): World
      reads this
    {
      World(warned, named)
    }

    constructor ()
      ensures View() == World({}, multiset{})
    {
      warned, named := {}, multiset{};
    }

    /** `notify` */
    method Notify(t: Tick)
      modifies this
      ensures View() == AdvisedFrom(old(View()), t, 0)
    {
      for i := 0 to |t.peers|
        invariant AdvisedFrom(View(), t, i) == AdvisedFrom(old(View()), t, 0)
      {
        ghost var before := View();
        var peer := t.peers[i];
        var ids := Unseen(t, peer, warned);
        if ids == [] {
          if CrashesAt(t, i) { return; }
          continue;
        }
        for j := 0 to |ids|
          invariant warned == Marked(before.warned, peer, ids[..j]) && named == before.named
          invariant CrashesAt(t, i) ==> j <= t.crash.value.marks
        {
          if CrashesAt(t, i) && t.crash.value.marks == j { return; }
          assert ids[..j + 1][..j] == ids[..j];
          warned := warned + {MarkKey(peer, ids[j])};
        }
        assert ids[..|ids|] == ids;
        if CrashesAt(t, i) { return; }
        named := named + multiset(Keys(peer, ids));
      }
    }
  }

  // ---- at most once ----------------------------------------------------------------------------

  predicate TableOk(rows: seq<Row>) {
    Distinct(rows) && forall i | 0 <= i < |rows| :: IsUuid(rows[i].id)
  }

  /** Whatever was named is marked, and nothing was named twice. */
  ghost predicate Once(w: World) {
    forall k: Key :: w.named[k] <= 1 && (w.named[k] == 1 ==> |k.id| == 36 && MarkKey(k.peer, k.id) in w.warned)
  }

  lemma {:induction false} MarkedHas(warned: set<string>, peer: string, ids: seq<string>)
    ensures warned <= Marked(warned, peer, ids)
    ensures forall i | 0 <= i < |ids| :: MarkKey(peer, ids[i]) in Marked(warned, peer, ids)
  {
    if ids != [] {
      MarkedHas(warned, peer, ids[..|ids| - 1]);
      assert forall i | 0 <= i < |ids| - 1 :: ids[i] == ids[..|ids| - 1][i];
    }
  }

  lemma {:induction false} ListedAreRows(rows: seq<Row>, peer: string)
    requires TableOk(rows)
    ensures TableOk(ListedRows(rows, peer))
    ensures forall i | 0 <= i < |ListedRows(rows, peer)| ::
              ListedRows(rows, peer)[i].peer == peer && ListedRows(rows, peer)[i] in rows
  {
    if rows != [] {
      var init, last := rows[..|rows| - 1], rows[|rows| - 1];
      assert TableOk(init) by {
        forall i | 0 <= i < |init| ensures init[i] == rows[i] {
        }
      }
      ListedAreRows(init, peer);
      var l := ListedRows(init, peer);
      forall i | 0 <= i < |l| ensures l[i].Ref() != last.Ref() && l[i] in rows {
        var j :| 0 <= j < |init| && init[j] == l[i];
        assert rows[j].Ref() != last.Ref();
      }
    }
  }

  predicate HasId(rows: seq<Row>, id: string) {
    exists j :: 0 <= j < |rows| && rows[j].id == id
  }

  predicate DistinctIds(ids: seq<string>) {
    forall i, j | 0 <= i < j < |ids| :: ids[i] != ids[j]
  }

  /** Ids of one length without a mark. */
  predicate Fresh(ids: seq<string>, peer: string, warned: set<string>) {
    forall i | 0 <= i < |ids| :: |ids[i]| == 36 && MarkKey(peer, ids[i]) !in warned
  }

  lemma {:induction false} EligibleAreRows(rows: seq<Row>, t: Tick, peer: string, warned: set<string>)
    ensures forall i | 0 <= i < |EligibleIds(rows, t, peer, warned)| ::
              HasId(rows, EligibleIds(rows, t, peer, warned)[i])
  {
    if rows != [] {
      var init, last := rows[..|rows| - 1], rows[|rows| - 1];
      EligibleAreRows(init, t, peer, warned);
      var all, ids := EligibleIds(rows, t, peer, warned), EligibleIds(init, t, peer, warned);
      forall i | 0 <= i < |all| ensures HasId(rows, all[i]) {
        if i < |ids| {
          assert HasId(init, ids[i]) && all[i] == ids[i];
          var j :| 0 <= j < |init| && init[j].id == ids[i];
          assert rows[j].id == ids[i];
        } else {
          assert rows[|rows| - 1].id == all[i];
        }
      }
    }
  }

  /** The eligible ids of one peer are distinct, unmarked and of one length. */
  lemma {:induction false} EligibleAreFresh(rows: seq<Row>, t: Tick, peer: string, warned: set<string>)
    requires TableOk(rows) && forall i | 0 <= i < |rows| :: rows[i].peer == peer
    ensures DistinctIds(EligibleIds(rows, t, peer, warned)) && Fresh(EligibleIds(rows, t, peer, warned), peer, warned)
  {
    hide MarkKey;
    if rows != [] {
      var init, last := rows[..|rows| - 1], rows[|rows| - 1];
      assert forall i | 0 <= i < |init| :: init[i] == rows[i];
      EligibleAreFresh(init, t, peer, warned);
      EligibleAreRows(init, t, peer, warned);
      var ids := EligibleIds(init, t, peer, warned);
      forall i | 0 <= i < |ids| ensures ids[i] != last.id {
        assert HasId(init, ids[i]);
        var j :| 0 <= j < |init| && init[j].id == ids[i];
        assert rows[j].Ref() != last.Ref();
      }
    }
  }

  lemma {:induction false} CountKeys(peer: string, ids: seq<string>, k: Key)
    requires DistinctIds(ids)
    ensures multiset(Keys(peer, ids))[k] <= 1
    ensures multiset(Keys(peer, ids))[k] == 1 ==> k.peer == peer && exists i :: 0 <= i < |ids| && ids[i] == k.id
  {
    if ids != [] {
      var init := ids[..|ids| - 1];
      CountKeys(peer, init, k);
      var last := Key(peer, ids[|ids| - 1]);
      assert Keys(peer, ids) == Keys(peer, init) + [last];
      if multiset(Keys(peer, init))[k] == 1 {
        var i :| 0 <= i < |init| && init[i] == k.id;
        assert ids[i] == k.id;
      }
    }
  }

  lemma UnseenIsFresh(t: Tick, peer: string, warned: set<string>)
    requires TableOk(t.rows)
    ensures DistinctIds(Unseen(t, peer, warned)) && Fresh(Unseen(t, peer, warned), peer, warned)
  {
    hide MarkKey;
    ListedAreRows(t.rows, peer);
    var listed := ListedRows(t.rows, peer);
    var rows := FirstOf(listed, MAX_ROWS);
    assert forall i | 0 <= i < |rows| :: rows[i] == listed[i];
    EligibleAreFresh(rows, t, peer, warned);
    var all, ids := EligibleIds(rows, t, peer, warned), Unseen(t, peer, warned);
    assert forall i | 0 <= i < |ids| :: ids[i] == all[i];
  }

  lemma AdvisedOnce(w: World, t: Tick, i: nat)
    requires Once(w) && TableOk(t.rows) && i < |t.peers|
    ensures Once(Advised(w, t, i))
  {
    hide MarkKey, Unseen, Marked, TableOk;
    var peer := t.peers[i];
    var ids := Unseen(t, peer, w.warned);
    UnseenIsFresh(t, peer, w.warned);
    MarkedHas(w.warned, peer, ids);
    var u := Advised(w, t, i);
    if ids != [] {
      if CrashesAt(t, i) {
        MarkedHas(w.warned, peer, FirstOf(ids, t.crash.value.marks));
      } else {
        forall k: Key
          ensures u.named[k] <= 1 && (u.named[k] == 1 ==> |k.id| == 36 && MarkKey(k.peer, k.id) in u.warned)
        {
          CountKeys(peer, ids, k);
        }
      }
    }
  }

  lemma {:induction false} TickOnce(w: World, t: Tick, i: nat)
    requires Once(w) && TableOk(t.rows) && i <= |t.peers|
    ensures Once(AdvisedFrom(w, t, i))
    decreases |t.peers| - i
  {
    hide Once, Advised, TableOk;
    if i < |t.peers| {
      AdvisedOnce(w, t, i);
      if !CrashesAt(t, i) {
        TickOnce(Advised(w, t, i), t, i + 1);
      }
    }
  }

  function Run(w: World, ticks: seq<Tick>): World {
    if ticks == [] then w else AdvisedFrom(Run(w, ticks[..|ticks| - 1]), ticks[|ticks| - 1], 0)
  }

  /** Over any sequence of passes, state flaps, table changes and crashes, every message is named in
      at most one advisory. */
  lemma {:induction false} NamedAtMostOnce(ticks: seq<Tick>)
    requires forall i | 0 <= i < |ticks| :: TableOk(ticks[i].rows)
    ensures Once(Run(World({}, multiset{}), ticks))
  {
    hide TableOk, AdvisedFrom;
    if ticks != [] {
      var m := |ticks| - 1;
      NamedAtMostOnce(ticks[..m]);
      TickOnce(Run(World({}, multiset{}), ticks[..m]), ticks[m], 0);
    }
  }

  lemma AdvisedGrows(w: World, t: Tick, i: nat)
    requires i < |t.peers|
    ensures w.warned <= Advised(w, t, i).warned && w.named <= Advised(w, t, i).named
  {
    hide Unseen;
    var ids := Unseen(t, t.peers[i], w.warned);
    MarkedHas(w.warned, t.peers[i], ids);
    if CrashesAt(t, i) {
      MarkedHas(w.warned, t.peers[i], FirstOf(ids, t.crash.value.marks));
    }
  }

  lemma {:induction false} PassGrows(w: World, t: Tick, i: nat)
    requires i <= |t.peers|
    ensures w.warned <= AdvisedFrom(w, t, i).warned && w.named <= AdvisedFrom(w, t, i).named
    decreases |t.peers| - i
  {
    hide Advised;
    if i < |t.peers| {
      AdvisedGrows(w, t, i);
      PassGrows(Advised(w, t, i), t, i + 1);
    }
  }

  /** Marks and attempts are never taken back. */
  lemma {:induction false} RunGrows(w: World, ticks: seq<Tick>)
    ensures w.warned <= Run(w, ticks).warned && w.named <= Run(w, ticks).named
  {
    hide AdvisedFrom;
    if ticks != [] {
      RunGrows(w, ticks[..|ticks| - 1]);
      PassGrows(Run(w, ticks[..|ticks| - 1]), ticks[|ticks| - 1], 0);
    }
  }

  lemma TurnNames(w: World, t: Tick, i: nat, id: string)
    requires i < |t.peers| && !CrashesAt(t, i) && id in Unseen(t, t.peers[i], w.warned)
    ensures Key(t.peers[i], id) in Advised(w, t, i).named && MarkKey(t.peers[i], id) in Advised(w, t, i).warned
  {
    hide MarkKey, Unseen, Marked;
    var ids := Unseen(t, t.peers[i], w.warned);
    MarkedHas(w.warned, t.peers[i], ids);
    var j :| 0 <= j < |ids| && ids[j] == id;
    assert Keys(t.peers[i], ids)[j] == Key(t.peers[i], id);
  }

  /** What a peer's turn finds unseen (the first twenty) it names unless the process dies there; and
      after the rest of that pass and any further passes no pass ever finds those messages unseen
      again. */
  lemma NothingIsNamedAgain(w: World, t: Tick, i: nat, id: string, rest: seq<Tick>, later: Tick)
    requires i < |t.peers| && !CrashesAt(t, i) && id in Unseen(t, t.peers[i], w.warned)
    requires TableOk(later.rows)
    ensures var u := Run(AdvisedFrom(w, t, i), rest);
            && Key(t.peers[i], id) in u.named
            && id !in Unseen(later, t.peers[i], u.warned)
            && forall r: Row :: r.id == id ==> !Eligible(later, t.peers[i], u.warned, r)
  {
    hide MarkKey, Unseen, Advised, TableOk, Run;
    var v := Advised(w, t, i);
    TurnNames(w, t, i, id);
    PassGrows(v, t, i + 1);
    RunGrows(AdvisedFrom(w, t, i), rest);
    UnseenIsFresh(later, t.peers[i], Run(AdvisedFrom(w, t, i), rest).warned);
  }

  // ---- advisories received from peers -----------------------------------------------------------

  /** `peer_notices`: the newest advisory of each peer, numbered by arrival. */
  datatype Box = Box(stored: map<string, nat>, arrived: nat, taken: multiset<nat>)

  datatype BoxAction = Store(peer: string) | Take

  function BoxNext(b: Box, a: BoxAction): Box {
    match a
    case Store(peer) => b.(stored := b.stored[peer := b.arrived], arrived := b.arrived + 1)
    case Take => b.(stored := map[], taken := b.taken + multiset(b.stored.Values))
  }

  function BoxRun(b: Box, run: seq<BoxAction>): Box {
    if run == [] then b else BoxNext(BoxRun(b, run[..|run| - 1]), run[|run| - 1])
  }

  predicate BoxOk(b: Box) {
    && (forall p | p in b.stored :: b.stored[p] < b.arrived && b.stored[p] !in b.taken)
    && (forall n | n in b.taken :: n < b.arrived && b.taken[n] == 1)
    && (forall p, q | p in b.stored && q in b.stored && p != q :: b.stored[p] != b.stored[q])
  }

  /** Every advisory received is shown to the model at most once. */
  lemma {:induction false} ShownAtMostOnce(run: seq<BoxAction>)
    ensures BoxOk(BoxRun(Box(map[], 0, multiset{}), run))
  {
    if run != [] {
      ShownAtMostOnce(run[..|run| - 1]);
    }
  }
}
