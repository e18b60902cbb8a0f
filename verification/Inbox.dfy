/** The store of one bridge as the source keeps it: one object whose transactions overwrite its
    fields. Each method is a transaction (or a tick made of several) and is proved against the
    state machine of module Bridge. */
module Inbox {
  import opened Common
  import opened Budget
  import opened Messages
  import opened Bridge
  import Prompts
  import Texts
  import W = Wake

  /** What a hook of this configuration prints; `names` are the enrolled peers. */
  function HookView(names: map<string, string>): View {
    View(names.Keys,
         (r: Row) => if r.peer in names then Prompts.QueuedText(names[r.peer], r.mode, r.id, r.body) else "",
         (r: Row) => Prompts.ReferenceText(r.id))
  }

  /** The real references are short, so nothing a peer writes can block the inbox by its size. */
  lemma RealReferencesAreShort(names: map<string, string>)
    ensures forall r: Row | IsUuid(r.id) :: |HookView(names).reference(r)| <= MAX_CONTEXT
  {
    hide Prompts.ReferenceText, Prompts.QueuedText;
    forall r: Row | IsUuid(r.id) ensures |HookView(names).reference(r)| <= MAX_CONTEXT {
      Prompts.ReferenceFits(r.id);
    }
  }

  /** What a hook prints of a message in full is the message of that very row: its body, quoted, behind
      the name its peer is enrolled under, its class and its id. */
  lemma HooksPrintTheRow(names: map<string, string>, r: Row) returns (head: string)
    requires r.peer in names
    ensures HookView(names).enrolled == names.Keys
    ensures Texts.Quotes(HookView(names).inline(r), head, r.body)
    ensures Contains(head, names[r.peer] + Prompts.ClassLabel() + r.mode + Prompts.IdLabel() + r.id)
    ensures HookView(names).reference(r) == Prompts.ReferenceText(r.id)
  {
    hide Prompts.QueuedText, Prompts.ReferenceText, Prompts.ClassLabel, Prompts.IdLabel, Prompts.AgentMessage,
         Texts.Quotes, Contains;
    head := Texts.MessagesAreQuoted(names[r.peer], r.mode, r.id, r.body);
  }

  class InboxStore {
    const wake: W.WakeKeys
    var rows: seq<Row>
    var out: seq<OutRow>
    var receipts: map<Key, string>
    var mode: Mode
    var phase: Phase
    var remaining: Allowance
    var wakeRemaining: Option<Allowance>
    var limit: Option<Allowance>
    var ownerTurn: Option<string>
    var observed: bool

    function View(): Store
      reads this, wake
    {
      Store(rows, out, receipts, wake.View(), mode, phase, remaining, wakeRemaining, limit, ownerTurn, observed)
    }

    /** A new bridge: continuous delivery unless a window is asked for. */
    constructor (mode: Mode, budget: Option<Allowance>)
      ensures fresh(wake)
      ensures View() == NewStore(mode, budget)
    {
      wake := new W.WakeKeys();
      var b := if budget.Some? then budget.value else Unlimited;
      rows, out, receipts := [], [], map[];
      this.mode, phase := mode, Unknown;
      remaining, wakeRemaining, limit := b, Some(b), Some(b);
      ownerTurn, observed := None, false;
    }

    /** `accept` of a message frame */
    method Accept(r: Row) returns (stored: bool)
      modifies this`rows
      ensures View() == Arrived(old(View()), r)
      ensures stored <==> !HasKey(old(rows), r.Ref())
    {
      stored := true;
      for i := 0 to |rows|
        invariant rows == old(rows)
        invariant stored <==> forall j | 0 <= j < i :: rows[j].Ref() != r.Ref()
      {
        if rows[i].Ref() == r.Ref() { stored := false; }
      }
      if stored { rows := rows + [r.(status := Received)]; }
    }

    /** `accept` of a receipt frame */
    method AcceptReceipt(k: Key, body: string, legacy: bool) returns (stored: bool)
      modifies this`receipts, this`out
      ensures View() == ReceiptStored(old(View()), k, body, legacy)
      ensures stored <==> !(k in old(receipts) && old(receipts)[k] == body)
    {
      if k in receipts && receipts[k] == body { return false; }
      receipts := receipts[k := body];
      out := Answered(out, k, body, legacy);
      return true;
    }

    /** `clear_consumed_wake` */
    method ClearConsumedWake()
      modifies wake`pending
      ensures View() == ConsumedWakeCleared(old(View()))
      ensures wake.pending.Some? ==> !ConsumedId(rows, wake.pending.value.id)
    {
      if wake.pending.Some? && ConsumedId(rows, wake.pending.value.id) {
        wake.pending := None;
      }
    }

    /** `read --ack` */
    method AcknowledgeAll(peer: Option<string>)
      modifies this`rows, wake`pending
      ensures View() == AllAcknowledged(old(View()), peer)
      ensures wake.pending.Some? ==> !ConsumedId(rows, wake.pending.value.id)
      ensures peer.None? ==> forall i | 0 <= i < |rows| :: rows[i].status != Received
    {
      rows := Acknowledged(rows, peer);
      ClearConsumedWake();
    }

    /** `ack ID` */
    method AcknowledgeOne(k: Option<Key>)
      modifies this`rows, wake`pending
      ensures View() == OneAcknowledged(old(View()), k)
      ensures wake.pending.Some? ==> !ConsumedId(rows, wake.pending.value.id)
    {
      if k.Some? { rows := SetTo(rows, k.value, Consumed); }
      ClearConsumedWake();
    }

    /** `configure_delivery` */
    method Configure(mode: Mode, budget: Option<Allowance>)
      modifies this`mode, this`remaining, this`wakeRemaining, this`limit
      ensures View() == Configured(old(View()), mode, budget)
    {
      this.mode := mode;
      if budget.Some? {
        remaining, wakeRemaining, limit := budget.value, budget, budget;
      }
    }

    /** `renew_for_owner_prompt` */
    method RenewForOwnerPrompt(p: Payload) returns (renewed: bool)
      modifies this`remaining, this`wakeRemaining, this`ownerTurn
      ensures View() == Renewed(old(View()), p)
      ensures renewed <==> Renews(limit, old(ownerTurn), p)
    {
      if p.event != UserPromptSubmit { return false; }
      if !p.prompt.Owner? || !Truthy(p.turn) { return false; }
      if limit.None? || limit.value.Unlimited? || limit.value.left > MAX_WINDOW || ownerTurn == p.turn { return false; }
      remaining, wakeRemaining, ownerTurn := limit.value, limit, p.turn;
      return true;
    }

    /** The offer transaction of `deliver`. */
    method OfferBatch(v: View, notice: string) returns (pieces: seq<string>, ghost offered: seq<Key>)
      modifies this`rows, this`remaining
      ensures View() == Offered(old(View()), v, notice).0
      ensures pieces == Offered(old(View()), v, notice).1.pieces
      ensures offered == Offered(old(View()), v, notice).1.offered
    {
      hide ReceivedRows, Updated, SetTo, TotalLength;
      pieces := if notice != "" then [notice] else [];
      offered := [];
      if mode != Live && mode != Auto { return; }
      var left := remaining;
      var todo := FirstFew(ReceivedRows(rows));
      var i := 0;
      while i < |todo|
        invariant 0 <= i <= |todo|
        invariant remaining == old(remaining)
        invariant Offering(todo[i..], Batch(rows, left, pieces, offered), v)
                  == Offering(todo, Batch(old(rows), old(remaining), NoticePieces(notice), []), v)
      {
        var r := todo[i];
        assert todo[i..][1..] == todo[i + 1..];
        if !Available(left) { break; }
        if r.peer !in v.enrolled || |r.hops| >= MAX_HOPS {
          rows := SetTo(rows, r.Ref(), Held);
          i := i + 1;
          continue;
        }
        var text := v.inline(r);
        if |text| > MAX_CONTEXT { text := v.reference(r); }
        if TotalLength(pieces) + |text| > MAX_CONTEXT { break; }
        pieces := pieces + [text];
        rows := SetTo(rows, r.Ref(), HookOffered);
        left := Spend(left);
        offered := offered + [r.Ref()];
        i := i + 1;
      }
      remaining := left;
    }

    /** A matched hook process: evidence, renewal, phase, wake decision and offer. */
    method Deliver(p: Payload, v: View, notice: string, now: real) returns (pieces: seq<string>)
      modifies this, wake
      ensures View() == HookRun(old(View()), p, v, notice, now).0
      ensures pieces == HookRun(old(View()), p, v, notice, now).1
    {
      observed := true;
      var _ := RenewForOwnerPrompt(p);
      phase := if p.event == SessionStart || p.event == Stop then Idle else Active;
      if phase == Active {
        var _ := wake.ActiveHook(p, now);
      }
      if p.event == SessionStart || p.event == Stop { return []; }
      ghost var offered;
      pieces, offered := OfferBatch(v, notice);
    }

    /** The claim transaction of `wake_idle`. */
    method ClaimWake(v: View, now: real) returns (claimed: Option<string>)
      modifies this`rows, this`wakeRemaining, wake`pending
      ensures (View(), claimed) == WakeClaimed(old(View()), v, now)
    {
      hide Updated, SetReceivedTo, ReceivedRows;
      var wakes := if wakeRemaining.Some? then wakeRemaining.value else remaining;
      if phase != Idle || !Available(remaining) || !Available(wakes) || wake.pending.Some? { return None; }
      var candidates := ReceivedRows(rows);
      var i := 0;
      var found: Option<Row> := None;
      while i < |candidates|
        invariant 0 <= i <= |candidates| && found.None?
        invariant wakeRemaining == old(wakeRemaining) && wake.pending == old(wake.pending)
        invariant Scanned(candidates[i..], rows, v) == Scanned(candidates, old(rows), v)
      {
        var r := candidates[i];
        assert candidates[i..][1..] == candidates[i + 1..];
        if r.peer !in v.enrolled || |r.hops| >= MAX_HOPS {
          rows := SetReceivedTo(rows, r.Ref(), Held);
          i := i + 1;
          continue;
        }
        found := Some(r);
        break;
      }
      if found.None? {
        assert candidates[i..] == [];
        return None;
      }
      wake.pending := Some(W.Marker(found.value.id, W.Writing, now, None));
      wakeRemaining := Some(Spend(wakes));
      return Some(found.value.id);
    }

    /** `wake_idle` without interruption; `reply` is how the queue command ended. */
    method WakeIdle(v: View, now: real, reply: Reply, queueId: Option<string>) returns (claimed: Option<string>)
      modifies this`rows, this`wakeRemaining, wake
      ensures claimed == WakeClaimed(old(View()), v, now).1
      ensures View() == var (s, id) := WakeClaimed(old(View()), v, now);
                        if id.None? then s
                        else WakeRecorded(WakeRecorded(s, id.value, W.Writing, None, now),
                                          id.value, WakeResult(reply), queueId, now)
    {
      claimed := ClaimWake(v, now);
      if claimed.None? { return; }
      var _ := wake.RecordWake(claimed.value, W.Writing, None, now);
      var kind := W.Uncertain;
      match reply {
        case Accepts => kind := W.Queued;
        case Refuses => kind := W.Failed;
        case NoAnswer =>
      }
      var _ := wake.RecordWake(claimed.value, kind, queueId, now);
    }

    /** The claim-and-debit transaction of queue mode. */
    method ClaimForward(k: Key) returns (claimed: bool)
      modifies this`rows, this`remaining
      ensures (View(), claimed) == ForwardClaimed(old(View()), k)
      ensures claimed ==> ReceivedKey(old(rows), k) && !ReceivedKey(rows, k)
    {
      if mode != Queue || !Available(remaining) { return false; }
      claimed := ReceivedKey(rows, k);
      if !claimed { return; }
      rows := SetReceivedTo(rows, k, Forwarding);
      remaining := Spend(remaining);
    }

    /** What `serve` does before it listens. */
    method StartListener()
      modifies this`rows, this`out
      ensures View() == ListenerStarted(old(View()))
    {
      rows := Restarted(rows);
      var i := 0;
      while i < |out|
        invariant 0 <= i <= |out| == |old(out)| && rows == Restarted(old(rows))
        invariant forall j :: 0 <= j < |out| ==>
          out[j] == if j < i && old(out)[j].status == Writing then old(out)[j].(status := Doubtful) else old(out)[j]
      {
        if out[i].status == Writing { out := out[i := out[i].(status := Doubtful)]; }
        i := i + 1;
      }
      assert out == ListenerStarted(old(View())).out;
    }
  }

  /** The transactions of one uninterrupted hook, in order. */
  function HookRun(s: Store, p: Payload, v: View, notice: string, now: real): (Store, seq<string>) {
    var t := Renewed(s.(observed := true), p).(phase := PhaseOf(p.event));
    if PhaseOf(p.event) == Idle then (t, [])
    else
      var (u, b) := Offered(Decided(t, p, now), v, notice);
      (u, b.pieces)
  }

  /** An uninterrupted hook is a run of the state machine. */
  lemma HookRunIsARun(w: World, p: Payload, v: View, notice: string, now: real)
    ensures var w1 := Next(Next(Next(w, HookSeen), Renew(p)), WritePhase(p.event));
            HookRun(w.s, p, v, notice, now).0 ==
              if PhaseOf(p.event) == Idle then w1.s
              else Next(Next(w1, DecideWake(p, now)), Offer(v, notice)).s
  {
    hide Offered, Decided, Renewed;
  }

  /** An uninterrupted wake is a run of the state machine. */
  lemma WakeIdleIsARun(w: World, e: Env)
    requires w.d.WantWake?
    ensures var w1 := Dispatched(w, e);
            var (s, id) := WakeClaimed(w.s, e.view, e.now);
            && w1.s == s
            && if id.None? then w1.d.Ready?
               else Dispatched(Dispatched(Dispatched(w1, e), e), e).s
                    == WakeRecorded(WakeRecorded(s, id.value, W.Writing, None, e.now),
                                    id.value, WakeResult(e.reply), e.queueId, e.now)
  {
    hide WakeClaimed, WakeRecorded;
  }
}
