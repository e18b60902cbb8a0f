/** The message table of one bridge (src/peer_chat.py, class Store) and the two loops that take
    received messages out of it: a hook's offer (src/peer_hooks.py) and the search for a message
    worth a wake (src/peer_chat.py, wake_idle). */
module Messages {
  import opened Common
  import opened Budget

  datatype Status = Received | Forwarding | HookOffered | Queued | Held | QueueFailed | QueueUncertain | Consumed

  /** How far along its life a message is. */
  function Level(s: Status): nat {
    match s
    case Received => 0
    case Forwarding => 1
    case HookOffered | Queued | Held | QueueFailed | QueueUncertain => 2
    case Consumed => 3
  }

  datatype Key = Key(peer: string, id: string)

  datatype Row = Row(peer: string, id: string, body: string, mode: string, hops: seq<string>, status: Status) {
    function Ref(): Key { Key(peer, id) }
  }

  const MAX_HOPS: nat := 8
  const MAX_CONTEXT: nat := 18000
  const MAX_BATCH: nat := 4

  predicate HasKey(rows: seq<Row>, k: Key) {
    exists i | 0 <= i < |rows| :: rows[i].Ref() == k
  }

  predicate Distinct(rows: seq<Row>) {
    forall i, j | 0 <= i < j < |rows| :: rows[i].Ref() != rows[j].Ref()
  }

  /** INSERT OR IGNORE on the primary key; arrival order is the order of `created`. */
  function Accepted(rows: seq<Row>, r: Row): seq<Row> {
    if HasKey(rows, r.Ref()) then rows else rows + [r.(status := Received)]
  }

  /** UPDATE messages SET status = st WHERE sel */
  function Updated(rows: seq<Row>, sel: Row -> bool, st: Status): (u: seq<Row>)
    ensures |u| == |rows|
    ensures forall i :: 0 <= i < |rows| ==> u[i] == if sel(rows[i]) then rows[i].(status := st) else rows[i]
  {
    seq(|rows|, i requires 0 <= i < |rows| => if sel(rows[i]) then rows[i].(status := st) else rows[i])
  }

  function SetTo(rows: seq<Row>, k: Key, st: Status): seq<Row> {
    Updated(rows, (r: Row) => r.Ref() == k, st)
  }

  /** `Store.set_status`: a consumed message stays consumed. */
  function SetStatus(rows: seq<Row>, k: Key, st: Status): seq<Row> {
    Updated(rows, (r: Row) => r.Ref() == k && (r.status != Consumed || st == Consumed), st)
  }

  /** The bulk acknowledgement of `read --ack`, of one peer or of all. */
  function Acknowledged(rows: seq<Row>, peer: Option<string>): seq<Row> {
    Updated(rows, (r: Row) => (peer.None? || r.peer == peer.value)
                              && (r.status == Received || r.status == Queued || r.status == HookOffered), Consumed)
  }

  /** UPDATE ... WHERE peer, id AND status='received' */
  function SetReceivedTo(rows: seq<Row>, k: Key, st: Status): seq<Row> {
    Updated(rows, (r: Row) => r.Ref() == k && r.status == Received, st)
  }

  /** What a restarted listener does to forwards that were under way. */
  function Restarted(rows: seq<Row>): seq<Row> {
    Updated(rows, (r: Row) => r.status == Forwarding, QueueUncertain)
  }

  predicate ConsumedId(rows: seq<Row>, id: string) {
    exists i | 0 <= i < |rows| :: rows[i].id == id && rows[i].status == Consumed
  }

  /** SELECT ... WHERE status='received' ORDER BY created */
  function ReceivedRows(rows: seq<Row>): seq<Row> {
    if rows == [] then []
    else (if rows[0].status == Received then [rows[0]] else []) + ReceivedRows(rows[1..])
  }

  /** What one process read from the configuration: who is enrolled and how a message of theirs
      is printed, in full or as a short reference. */
  datatype View = View(enrolled: set<string>, inline: Row -> string, reference: Row -> string)

  predicate Deliverable(v: View, r: Row) {
    r.peer in v.enrolled && |r.hops| < MAX_HOPS
  }

  /** What becomes of a received message a hook gets to. */
  function Outcome(v: View, r: Row): Status {
    if Deliverable(v, r) then HookOffered else Held
  }

  function Piece(v: View, r: Row): string {
    if |v.inline(r)| > MAX_CONTEXT then v.reference(r) else v.inline(r)
  }

  datatype Batch = Batch(rows: seq<Row>, remaining: Allowance, pieces: seq<string>, offered: seq<Key>)

  /** The body of the offer loop, over the rows still to look at. */
  function Offering(todo: seq<Row>, b: Batch, v: View): Batch {
    if todo == [] || !Available(b.remaining) then b
    else
      var r := todo[0];
      if !Deliverable(v, r) then
        Offering(todo[1..], b.(rows := SetTo(b.rows, r.Ref(), Held)), v)
      else if TotalLength(b.pieces) + |Piece(v, r)| > MAX_CONTEXT then b
      else
        Offering(todo[1..], Batch(SetTo(b.rows, r.Ref(), HookOffered), Spend(b.remaining),
                                  b.pieces + [Piece(v, r)], b.offered + [r.Ref()]), v)
  }

  function FirstFew(rows: seq<Row>): seq<Row> {
    rows[..Min(|rows|, MAX_BATCH)]
  }

  /** The search of `wake_idle`: hold what cannot be delivered, stop at the first that can. */
  function Scanned(candidates: seq<Row>, rows: seq<Row>, v: View): (seq<Row>, Option<Row>) {
    if candidates == [] then (rows, None)
    else if !Deliverable(v, candidates[0]) then
      Scanned(candidates[1..], SetReceivedTo(rows, candidates[0].Ref(), Held), v)
    else (rows, Some(candidates[0]))
  }

  // ---- reference definitions ------------------------------------------------

  predicate Among(k: Key, done: seq<Row>) {
    exists i | 0 <= i < |done| :: done[i].Ref() == k
  }

  /** The table after exactly the messages `done` were dealt with. */
  function Settled(rows: seq<Row>, done: seq<Row>, v: View): (s: seq<Row>)
    ensures |s| == |rows|
    ensures forall i :: 0 <= i < |rows| ==>
      s[i] == if Among(rows[i].Ref(), done) then rows[i].(status := Outcome(v, rows[i])) else rows[i]
  {
    seq(|rows|, i requires 0 <= i < |rows| =>
      if Among(rows[i].Ref(), done) then rows[i].(status := Outcome(v, rows[i])) else rows[i])
  }

  /** The keys and the printed pieces of the deliverable messages of a list. */
  function OfferedKeys(done: seq<Row>, v: View): seq<Key> {
    if done == [] then []
    else (if Deliverable(v, done[0]) then [done[0].Ref()] else []) + OfferedKeys(done[1..], v)
  }

  function OfferedPieces(done: seq<Row>, v: View): seq<string> {
    if done == [] then []
    else (if Deliverable(v, done[0]) then [Piece(v, done[0])] else []) + OfferedPieces(done[1..], v)
  }

  function Left(a: Allowance): nat {
    if a.Finite? then a.left else 0
  }

  // ---- lemmas on the table ----------------------------------------------------

  lemma {:induction false} ReceivedAreRows(rows: seq<Row>)
    ensures |ReceivedRows(rows)| <= |rows|
    ensures forall r :: r in ReceivedRows(rows) <==> r in rows && r.status == Received
  {
    if rows != [] {
      ReceivedAreRows(rows[1..]);
      assert rows == [rows[0]] + rows[1..];
    }
  }

  lemma DistinctTail(rows: seq<Row>)
    requires Distinct(rows) && rows != []
    ensures Distinct(rows[1..]) && !HasKey(rows[1..], rows[0].Ref())
  {
  }

  lemma {:induction false} ReceivedDistinct(rows: seq<Row>)
    requires Distinct(rows)
    ensures Distinct(ReceivedRows(rows))
  {
    if rows != [] {
      DistinctTail(rows);
      ReceivedDistinct(rows[1..]);
      ReceivedAreRows(rows[1..]);
    }
  }

  lemma UpdatedTail(rows: seq<Row>, sel: Row -> bool, st: Status)
    requires rows != []
    ensures Updated(rows, sel, st)[1..] == Updated(rows[1..], sel, st)
  {
  }

  /** Moving rows none of which is received leaves the received list alone. */
  lemma {:induction false} ReceivedUntouched(rows: seq<Row>, sel: Row -> bool, st: Status)
    requires st != Received
    requires forall r :: r in rows && sel(r) ==> r.status != Received
    ensures ReceivedRows(Updated(rows, sel, st)) == ReceivedRows(rows)
  {
    if rows != [] {
      UpdatedTail(rows, sel, st);
      ReceivedUntouched(rows[1..], sel, st);
    }
  }

  /** Moving the oldest received row, and no other received row, drops the head of the list. */
  lemma {:induction false} HeadLeaves(rows: seq<Row>, sel: Row -> bool, st: Status)
    requires Distinct(rows) && ReceivedRows(rows) != [] && st != Received
    requires forall r :: r in rows && r.status == Received ==> (sel(r) <==> r.Ref() == ReceivedRows(rows)[0].Ref())
    ensures ReceivedRows(Updated(rows, sel, st)) == ReceivedRows(rows)[1..]
  {
    DistinctTail(rows);
    UpdatedTail(rows, sel, st);
    if rows[0].status == Received {
      forall r | r in rows[1..] && sel(r) ensures r.status != Received {
        assert r in rows;
      }
      ReceivedUntouched(rows[1..], sel, st);
    } else {
      HeadLeaves(rows[1..], sel, st);
    }
  }

  lemma SetToKeepsKeys(rows: seq<Row>, sel: Row -> bool, st: Status)
    requires Distinct(rows)
    ensures Distinct(Updated(rows, sel, st))
  {
    var u := Updated(rows, sel, st);
    forall i, j | 0 <= i < j < |u| ensures u[i].Ref() != u[j].Ref() {
      assert rows[i].Ref() != rows[j].Ref();
    }
  }
}
