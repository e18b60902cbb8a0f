/** One bridge as a state machine whose steps are the transactions of src/peer_chat.py,
    src/peer_hooks.py, src/peer_wake.py and src/peer_budget.py. Any list of actions is a run:
    an action that cannot happen at its moment changes nothing. */
module Bridge {
  import opened Common
  import opened Budget
  import opened Messages
  import W = Wake

  // ---- the stored state --------------------------------------------------------

  datatype OutStatus = Pending | Writing | Written | Doubtful | PeerReply(body: string)

  /** A message to send; rows older than the routing column have no peer. */
  datatype OutRow = OutRow(id: string, peer: Option<string>, status: OutStatus)

  datatype Store = Store(
    rows: seq<Row>,
    out: seq<OutRow>,
    receipts: map<Key, string>,
    wake: W.WakeState,
    mode: Mode,
    phase: Phase,
    remaining: Allowance,
    wakeRemaining: Option<Allowance>, // absent in a store older than the separate wake window
    limit: Option<Allowance>,
    ownerTurn: Option<string>,
    observed: bool                    // a matched lifecycle hook is on record
  )

  /** The store of a new bridge: continuous delivery unless a window is asked for. */
  function NewStore(mode: Mode, budget: Option<Allowance>): Store {
    var b := if budget.Some? then budget.value else Unlimited;
    Store([], [], map[], W.NO_WAKE, mode, Unknown, b, Some(b), Some(b), None, false)
  }

  function WakesLeft(s: Store): Allowance {
    if s.wakeRemaining.Some? then s.wakeRemaining.value else s.remaining
  }

  function Reported(s: Store): DeliveryState {
    DeliveryStateOf(s.mode, s.phase, s.remaining, WakesLeft(s), s.observed)
  }

  // ---- transactions of the listener's socket side ------------------------------

  function Arrived(s: Store, r: Row): Store {
    s.(rows := Accepted(s.rows, r))
  }

  function Answered(out: seq<OutRow>, k: Key, body: string, legacy: bool): (u: seq<OutRow>)
    ensures |u| == |out|
    ensures forall i :: 0 <= i < |out| ==>
      u[i] == if out[i].id == k.id && (out[i].peer == Some(k.peer) || (out[i].peer.None? && legacy))
              then out[i].(status := PeerReply(body)) else out[i]
  {
    seq(|out|, i requires 0 <= i < |out| =>
      if out[i].id == k.id && (out[i].peer == Some(k.peer) || (out[i].peer.None? && legacy))
      then out[i].(status := PeerReply(body)) else out[i])
  }

  /** A receipt of a peer; `legacy` says that the peer may answer rows without one. */
  function ReceiptStored(s: Store, k: Key, body: string, legacy: bool): Store {
    if k in s.receipts && s.receipts[k] == body then s
    else s.(receipts := s.receipts[k := body], out := Answered(s.out, k, body, legacy))
  }

  // ---- transactions of the command line -----------------------------------------

  function ConsumedWakeCleared(s: Store): Store {
    if s.wake.pending.Some? && ConsumedId(s.rows, s.wake.pending.value.id)
    then s.(wake := s.wake.(pending := None)) else s
  }

  /** read --ack, for one peer or for all */
  function AllAcknowledged(s: Store, peer: Option<string>): Store {
    ConsumedWakeCleared(s.(rows := Acknowledged(s.rows, peer)))
  }

  /** ack ID; `None` when no row of that id was selected */
  function OneAcknowledged(s: Store, k: Option<Key>): Store {
    ConsumedWakeCleared(if k.Some? then s.(rows := SetTo(s.rows, k.value, Consumed)) else s)
  }

  predicate HasOut(out: seq<OutRow>, id: string) {
    exists i | 0 <= i < |out| :: out[i].id == id
  }

  /** send; the id is a primary key */
  function Sent(s: Store, id: string, peer: string): Store {
    if HasOut(s.out, id) then s else s.(out := s.out + [OutRow(id, Some(peer), Pending)])
  }

  /** delivery MODE --budget N */
  function Configured(s: Store, mode: Mode, budget: Option<Allowance>): Store {
    if budget.None? then s.(mode := mode)
    else s.(mode := mode, remaining := budget.value, wakeRemaining := budget, limit := budget)
  }

  /** start under another owner: the old owner's lifecycle evidence goes unless a hook of the new
      owner already replaced it, and so does the marker. */
  function OwnerChanged(s: Store, hookOfNewOwner: bool): Store {
    var t := if hookOfNewOwner then s else s.(phase := Unknown, observed := false);
    t.(wake := t.wake.(pending := None))
  }

  /** _restore writes null over the marker */
  function Restored(s: Store): Store {
    s.(wake := s.wake.(pending := None))
  }

  // ---- transactions of a hook ------------------------------------------------------

  function Renewed(s: Store, p: Payload): Store {
    if Renews(s.limit, s.ownerTurn, p)
    then s.(remaining := s.limit.value, wakeRemaining := s.limit, ownerTurn := p.turn) else s
  }

  function PhaseOf(e: HookEvent): Phase {
    if e == SessionStart || e == Stop then Idle else Active
  }

  function Decided(s: Store, p: Payload, now: real): Store {
    s.(wake := W.HookDecided(s.wake, p, now))
  }

  function NoticePieces(notice: string): seq<string> {
    if notice == "" then [] else [notice]
  }

  /** The offer transaction, with the text it returns and what it handed over. */
  function Offered(s: Store, v: View, notice: string): (Store, Batch) {
    if s.mode != Live && s.mode != Auto then (s, Batch(s.rows, s.remaining, NoticePieces(notice), []))
    else
      var b := Offering(FirstFew(ReceivedRows(s.rows)), Batch(s.rows, s.remaining, NoticePieces(notice), []), v);
      (s.(rows := b.rows, remaining := b.remaining), b)
  }

  // ---- transactions of the dispatcher --------------------------------------------------

  function OutSet(out: seq<OutRow>, id: string, st: OutStatus): (u: seq<OutRow>)
    ensures |u| == |out|
    ensures forall i :: 0 <= i < |out| ==> u[i] == if out[i].id == id then out[i].(status := st) else out[i]
  {
    seq(|out|, i requires 0 <= i < |out| => if out[i].id == id then out[i].(status := st) else out[i])
  }

  function FirstPending(out: seq<OutRow>): Option<string> {
    if out == [] then None
    else if out[0].status == Pending then Some(out[0].id)
    else FirstPending(out[1..])
  }

  /** May a wake be claimed, leaving aside whether there is a message for it? */
  predicate WakeAllowed(s: Store) {
    s.phase == Idle && Available(s.remaining) && Available(WakesLeft(s)) && s.wake.pending.None?
  }

  /** The claim transaction of `wake_idle`. */
  function WakeClaimed(s: Store, v: View, now: real): (Store, Option<string>) {
    if !WakeAllowed(s) then (s, None)
    else
      var (rows, found) := Scanned(ReceivedRows(s.rows), s.rows, v);
      if found.None? then (s.(rows := rows), None)
      else
        var id := found.value.id;
        (s.(rows := rows,
            wake := s.wake.(pending := Some(W.Marker(id, W.Writing, now, None))),
            wakeRemaining := Some(Spend(WakesLeft(s)))), Some(id))
  }

  function WakeRecorded(s: Store, id: string, k: W.WakeKind, queueId: Option<string>, now: real): Store {
    s.(wake := W.Produced(s.wake, id, k, queueId, now))
  }

  predicate ReceivedKey(rows: seq<Row>, k: Key) {
    exists i | 0 <= i < |rows| :: rows[i].Ref() == k && rows[i].status == Received
  }

  /** The claim-and-debit transaction of queue mode. */
  function ForwardClaimed(s: Store, k: Key): (Store, bool) {
    if s.mode != Queue || !Available(s.remaining) || !ReceivedKey(s.rows, k) then (s, false)
    else (s.(rows := SetReceivedTo(s.rows, k, Forwarding), remaining := Spend(s.remaining)), true)
  }

  /** What a starting listener does before it serves. */
  function ListenerStarted(s: Store): Store {
    s.(rows := Restarted(s.rows), out := seq(|s.out|, i requires 0 <= i < |s.out| =>
      if s.out[i].status == Writing then s.out[i].(status := Doubtful) else s.out[i]))
  }

  // ---- the world: store, dispatcher and history -------------------------------------------

  /** Where the one dispatcher stands between two transactions. */
  datatype Dispatcher =
    | Ready
    | OutMarked(oid: string)                     // row marked `writing`; socket not yet written
    | OutTried(oid: string, ok: bool)            // socket written or refused; result not yet stored
    | WantWake                                   // read mode auto; claim transaction to come
    | Claimed(id: string)                        // marker stored; `writing` record to come
    | Calling(id: string)                        // recorded; queue command to run
    | Returned(id: string, kind: W.WakeKind, queueId: Option<string>) // outcome to record
    | WantHold(key: Key)                         // chose a message only to hold it
    | WantForward(key: Key)                      // chose a message to forward whole
    | Forwards(key: Key)                         // claimed and debited; queue command to run
    | Forwarded(key: Key, result: Status)        // result to store

  /** How a call of the native queue command ends. */
  datatype Reply = Accepts | Refuses | NoAnswer

  function WakeResult(r: Reply): W.WakeKind {
    match r case Accepts => W.Queued case Refuses => W.Failed case NoAnswer => W.Uncertain
  }

  function ForwardResult(r: Reply): Status {
    match r case Accepts => Messages.Queued case Refuses => QueueFailed case NoAnswer => QueueUncertain
  }

  /** What the dispatcher finds outside the store during one step. */
  datatype Env = Env(view: View, now: real, written: bool, reply: Reply, queueId: Option<string>)

  /** What a run has done so far to the outside world. */
  datatype History = History(
    handed: multiset<Key>,      // hook offers and queue attempts of whole messages
    debits: nat,                // units taken from the message window
    claims: nat,                // wakes claimed
    notices: nat,               // wake notices given to the queue command
    written: multiset<string>,  // socket writes, by outgoing id
    granted: int,               // net change of the message window by renewal or configuration
    wakeGranted: int)           // the same of the wake window

  const NO_HISTORY := History(multiset{}, 0, 0, 0, multiset{}, 0, 0)

  datatype World = World(s: Store, d: Dispatcher, h: History)

  datatype Action =
    | Arrive(row: Row)
    | Receipt(key: Key, body: string, legacy: bool)
    | NewOutgoing(id: string, peer: string)
    | AckAll(from: Option<string>)
    | AckOne(which: Option<Key>)
    | HookSeen
    | Renew(payload: Payload)
    | WritePhase(event: HookEvent)
    | DecideWake(payload: Payload, at: real)
    | Offer(view: View, notice: string)
    | Dispatch(env: Env)
    | ListenerStart
    | OwnerChange(hookOfNewOwner: bool)
    | Restore
    | Configure(mode: Mode, budget: Option<Allowance>)
    | Reconcile(aborted: bool)

  function Look(w: World, e: Env): World {
    var s := w.s;
    if FirstPending(s.out).Some? then
      var id := FirstPending(s.out).value;
      w.(s := s.(out := OutSet(s.out, id, Writing)), d := OutMarked(id))
    else if s.phase == Interrupted then w
    else if s.mode == Auto then w.(d := WantWake)
    else if s.mode != Queue || !Available(s.remaining) || ReceivedRows(s.rows) == [] then w
    else
      var r := ReceivedRows(s.rows)[0];
      w.(d := if Deliverable(e.view, r) then WantForward(r.Ref()) else WantHold(r.Ref()))
  }

  function Claim(w: World, e: Env): World {
    var (s, id) := WakeClaimed(w.s, e.view, e.now);
    if id.None? then w.(s := s, d := Ready)
    else w.(s := s, d := Claimed(id.value), h := w.h.(claims := w.h.claims + 1))
  }

  function ClaimForward(w: World, k: Key): World {
    var (s, ok) := ForwardClaimed(w.s, k);
    if ok then World(s, Forwards(k), w.h.(debits := w.h.debits + 1)) else w.(s := s, d := Ready)
  }

  /** The dispatcher's next transaction or outside call. */
  function Dispatched(w: World, e: Env): World {
    match w.d
    case Ready => Look(w, e)
    case OutMarked(id) => w.(d := OutTried(id, e.written), h := w.h.(written := w.h.written + multiset{id}))
    case OutTried(id, ok) => w.(s := w.s.(out := OutSet(w.s.out, id, if ok then Written else Doubtful)), d := Ready)
    case WantWake => Claim(w, e)
    case Claimed(id) => w.(s := WakeRecorded(w.s, id, W.Writing, None, e.now), d := Calling(id))
    case Calling(id) => w.(d := Returned(id, WakeResult(e.reply), e.queueId), h := w.h.(notices := w.h.notices + 1))
    case Returned(id, k, q) => w.(s := WakeRecorded(w.s, id, k, q, e.now), d := Ready)
    case WantHold(k) => w.(s := w.s.(rows := SetStatus(w.s.rows, k, Held)), d := Ready)
    case WantForward(k) => ClaimForward(w, k)
    case Forwards(k) => w.(d := Forwarded(k, ForwardResult(e.reply)), h := w.h.(handed := w.h.handed + multiset{k}))
    case Forwarded(k, st) => w.(s := w.s.(rows := SetStatus(w.s.rows, k, st)), d := Ready)
  }

  /** Bookkeeping of what renewal and configuration grant. */
  function Granting(w: World, s: Store): World {
    w.(s := s, h := w.h.(granted := w.h.granted + Left(s.remaining) - Left(w.s.remaining),
                         wakeGranted := w.h.wakeGranted + Left(WakesLeft(s)) - Left(WakesLeft(w.s))))
  }

  function Next(w: World, a: Action): World {
    match a
    case Arrive(r) => if IsUuid(r.id) then w.(s := Arrived(w.s, r)) else w
    case Receipt(k, body, legacy) => w.(s := ReceiptStored(w.s, k, body, legacy))
    case NewOutgoing(id, peer) => w.(s := Sent(w.s, id, peer))
    case AckAll(peer) => w.(s := AllAcknowledged(w.s, peer))
    case AckOne(k) => w.(s := OneAcknowledged(w.s, k))
    case HookSeen => w.(s := w.s.(observed := true))
    case Renew(p) => Granting(w, Renewed(w.s, p))
    case WritePhase(e) => w.(s := w.s.(phase := PhaseOf(e)))
    case DecideWake(p, at) => w.(s := Decided(w.s, p, at))
    case Offer(v, notice) =>
      var (s, b) := Offered(w.s, v, notice);
      w.(s := s, h := w.h.(handed := w.h.handed + multiset(b.offered), debits := w.h.debits + |b.offered|))
    case Dispatch(e) => Dispatched(w, e)
    case ListenerStart => w.(s := ListenerStarted(w.s), d := Ready)
    case OwnerChange(known) => w.(s := OwnerChanged(w.s, known))
    case Restore => w.(s := Restored(w.s))
    case Configure(mode, budget) => Granting(w, Configured(w.s, mode, budget))
    case Reconcile(aborted) =>
      if w.s.phase == Active || w.s.phase == Idle
      then w.(s := w.s.(phase := if aborted then Interrupted else Idle)) else w
  }

  /** The world after a run. */
  function Exec(w: World, run: seq<Action>): World {
    if run == [] then w else Next(Exec(w, run[..|run| - 1]), run[|run| - 1])
  }

  /** The world after the first `i` actions of a run. */
  function Step(w: World, run: seq<Action>, i: nat): World
    requires i <= |run|
  {
    Exec(w, run[..i])
  }

  lemma StepNext(w: World, run: seq<Action>, i: nat)
    requires i < |run|
    ensures Step(w, run, i + 1) == Next(Step(w, run, i), run[i])
  {
    assert run[..i + 1][..i] == run[..i];
  }

  lemma StepEnds(w: World, run: seq<Action>)
    ensures Step(w, run, 0) == w && Step(w, run, |run|) == Exec(w, run)
  {
    assert run[..|run|] == run;
  }
}
