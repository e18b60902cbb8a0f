/** src/peer_wake.py: the ranked idle-wake lifecycle and its counters. */
module Wake {
  import opened Common
  import opened Budget

  datatype WakeKind = Writing | Queued | Failed | Uncertain | Activated | Raced | Cancelled

  function Rank(k: WakeKind): nat {
    match k
    case Writing => 0
    case Queued | Failed | Uncertain => 1
    case Activated | Raced | Cancelled => 2
  }

  /** `last_wake`: the record of the newest wake. */
  datatype Last = Last(id: string, queueId: Option<string>, state: WakeKind, at: real,
                       event: Option<HookEvent>, turn: Option<string>)

  /** `wake_pending`: the marker that blocks a second wake. */
  datatype Marker = Marker(id: string, status: WakeKind, at: real, queueId: Option<string>)

  /** `wake_counts` */
  datatype Counts = Counts(activated: nat, raced: nat, cancelled: nat, failed: nat, uncertain: nat) {
    function Decided(): nat { activated + raced + cancelled }
  }

  datatype WakeState = WakeState(last: Option<Last>, pending: Option<Marker>, counts: Counts)

  const NO_WAKE := WakeState(None, None, Counts(0, 0, 0, 0, 0))

  /** A canonical id; the source's pattern also lets one trailing newline through. */
  predicate ValidWakeId(id: string) {
    IsUuid(id) || (|id| == 37 && id[36] == '\n' && IsUuid(id[..36]))
  }

  function Bumped(c: Counts, k: WakeKind): Counts {
    match k
    case Activated => c.(activated := c.activated + 1)
    case Raced => c.(raced := c.raced + 1)
    case Cancelled => c.(cancelled := c.cancelled + 1)
    case Failed => c.(failed := c.failed + 1)
    case Uncertain => c.(uncertain := c.uncertain + 1)
    case Writing | Queued => c
  }

  /** Does `last` already carry a decided outcome for `id`? */
  predicate DecidedFor(last: Option<Last>, id: string) {
    last.Some? && last.value.id == id && Rank(last.value.state) == 2
  }

  /** The transition `_record` refuses. */
  predicate Refused(last: Option<Last>, id: string, k: WakeKind) {
    && last.Some? && last.value.id == id
    && (Rank(k) < Rank(last.value.state) || DecidedFor(last, id))
  }

  function Known(known: Option<string>, offered: Option<string>): Option<string> {
    if Truthy(offered) && !Truthy(known) then offered else known
  }

  /** The marker that goes with a stored record: none once the outcome is decided. */
  function MarkerOf(r: Last): Option<Marker> {
    if Rank(r.state) == 2 then None
    else Some(Marker(r.id, r.state, r.at, if Truthy(r.queueId) then r.queueId else None))
  }

  /** One transition of the lifecycle under the monotonic rule. */
  function Recorded(s: WakeState, id: string, k: WakeKind, queueId: Option<string>,
                    event: Option<HookEvent>, turn: Option<string>, now: real): WakeState
  {
    if Refused(s.last, id, k) then
      s.(last := Some(s.last.value.(queueId := Known(s.last.value.queueId, queueId))))
    else if s.last.Some? && s.last.value.id == id then
      var prior := s.last.value;
      var r := Last(id, Known(prior.queueId, queueId), k, MaxReal(prior.at, now),
                    if event.Some? then event else prior.event,
                    if turn.Some? then turn else prior.turn);
      WakeState(Some(r), MarkerOf(r), if Rank(k) > Rank(prior.state) then Bumped(s.counts, k) else s.counts)
    else
      var r := Last(id, queueId, k, now, event, turn);
      WakeState(Some(r), MarkerOf(r), Bumped(s.counts, k))
  }

  predicate ProducerKind(k: WakeKind) {
    Rank(k) < 2
  }

  /** `record_wake`: what the producer of a wake may persist. */
  function Produced(s: WakeState, id: string, k: WakeKind, queueId: Option<string>, now: real): WakeState {
    if !ValidWakeId(id) || !ProducerKind(k) then s
    else if k != Writing && s.last.Some? && s.last.value.id != id then s
    else if k != Writing && s.last.Some? && Rank(s.last.value.state) < 2 && s.pending.None? then
      Recorded(s, id, Cancelled, queueId, None, None, now)
    else Recorded(s, id, k, queueId, None, None, now)
  }

  predicate ActiveEvent(e: HookEvent) {
    e == UserPromptSubmit || e == PostToolUse
  }

  /** The hook's prompt is exactly the queued notice for `id`. */
  predicate IsNoticePrompt(p: Payload, id: string) {
    p.event == UserPromptSubmit && p.prompt == NoticeOf(id)
  }

  /** The outcome a hook decides for a marker. */
  function Verdict(m: Marker, p: Payload): WakeKind {
    if IsNoticePrompt(p, m.id) then Activated
    else if m.status == Writing then Raced
    else Cancelled
  }

  /** `active_hook`: an active-turn hook decides the pending wake. */
  function HookDecided(s: WakeState, p: Payload, now: real): WakeState {
    if !ActiveEvent(p.event) || s.pending.None? || !ValidWakeId(s.pending.value.id) then s
    else
      var k := Verdict(s.pending.value, p);
      Recorded(s, s.pending.value.id, k, None, Some(p.event), p.turn, now)
  }

  // ---- the wake keys of the store, overwritten in place -------------------

  /** The three metadata keys of the store this component owns. */
  class WakeKeys {
    var last: Option<Last>
    var pending: Option<Marker>
    var counts: Counts

    function View(): WakeState
      reads this
    {
      WakeState(last, pending, counts)
    }

    constructor ()
      ensures View() == NO_WAKE
    {
      last, pending, counts := None, None, Counts(0, 0, 0, 0, 0);
    }

    /** `_bump` */
    method Bump(k: WakeKind)
      modifies this`counts
      ensures counts == Bumped(old(counts), k)
    {
      match k {
        case Activated => counts := counts.(activated := counts.activated + 1);
        case Raced => counts := counts.(raced := counts.raced + 1);
        case Cancelled => counts := counts.(cancelled := counts.cancelled + 1);
        case Failed => counts := counts.(failed := counts.failed + 1);
        case Uncertain => counts := counts.(uncertain := counts.uncertain + 1);
        case _ =>
      }
    }

    /** `_record` */
    method Record(id: string, k: WakeKind, queueId: Option<string>, event: Option<HookEvent>,
                  turn: Option<string>, now: real)
      returns (r: Last)
      modifies this
      ensures View() == Recorded(old(View()), id, k, queueId, event, turn, now)
      ensures last == Some(r)
    {
      if last.Some? && last.value.id == id {
        r := last.value;
        if Rank(k) < Rank(r.state) || (Rank(k) == Rank(r.state) && Rank(r.state) == 2) {
          // Never regress; a late completion may only fill in an unknown queue id.
          if Truthy(queueId) && !Truthy(r.queueId) {
            r := r.(queueId := queueId);
            last := Some(r);
          }
          return;
        }
        if Rank(k) > Rank(r.state) { Bump(k); }
        r := Last(id, Known(r.queueId, queueId), k, MaxReal(r.at, now),
                  if event.Some? then event else r.event, if turn.Some? then turn else r.turn);
      } else {
        r := Last(id, queueId, k, now, event, turn);
        Bump(k);
      }
      last := Some(r);
      if Rank(k) < 2 {
        pending := Some(Marker(id, k, r.at, if Truthy(r.queueId) then r.queueId else None));
      } else {
        pending := None;
      }
    }

    /** `record_wake` */
    method RecordWake(id: string, k: WakeKind, queueId: Option<string>, now: real) returns (r: Option<Last>)
      modifies this
      ensures View() == Produced(old(View()), id, k, queueId, now)
      ensures r == if ValidWakeId(id) && ProducerKind(k) then last else None
    {
      if !ValidWakeId(id) || !ProducerKind(k) {
        return None;
      }
      if k != Writing && last.Some? && last.value.id != id {
        return last;
      }
      var record: Last;
      if k != Writing && last.Some? && last.value.id == id && Rank(last.value.state) < 2 && pending.None? {
        record := Record(id, Cancelled, queueId, None, None, now);
      } else {
        record := Record(id, k, queueId, None, None, now);
      }
      return Some(record);
    }

    /** `active_hook` */
    method ActiveHook(p: Payload, now: real) returns (r: Option<Last>)
      modifies this
      ensures View() == HookDecided(old(View()), p, now)
      ensures r.Some? ==> last == r && old(pending).Some? && r.value.id == old(pending).value.id
    {
      if !ActiveEvent(p.event) || pending.None? || !ValidWakeId(pending.value.id) {
        return None;
      }
      var id := pending.value.id;
      var k := Cancelled;
      if p.event == UserPromptSubmit && p.prompt == NoticeOf(id) {
        k := Activated;
      } else if pending.value.status == Writing {
        k := Raced;
      }
      var record := Record(id, k, None, Some(p.event), p.turn, now);
      return Some(record);
    }
  }

  // ---- what one transition keeps ------------------------------------------

  /** While `last` names one id, rank never falls, a decided outcome stays, time does not run back
      and a known queue id is kept. */
  predicate Climbs(a: Option<Last>, b: Option<Last>) {
    a.Some? && b.Some? && a.value.id == b.value.id ==>
      && Rank(a.value.state) <= Rank(b.value.state)
      && (Rank(a.value.state) == 2 ==> b.value.state == a.value.state)
      && a.value.at <= b.value.at
      && (Truthy(a.value.queueId) ==> b.value.queueId == a.value.queueId)
  }

  /** A marker past `writing` is a copy of the newest record. */
  predicate MarkerAgrees(s: WakeState) {
    s.pending.Some? && s.pending.value.status != Writing ==>
      s.last.Some? && s.last.value.id == s.pending.value.id && s.last.value.state == s.pending.value.status
  }

  lemma RecordedKeeps(s: WakeState, id: string, k: WakeKind, queueId: Option<string>,
                      event: Option<HookEvent>, turn: Option<string>, now: real)
    requires MarkerAgrees(s)
    ensures var t := Recorded(s, id, k, queueId, event, turn, now);
            && Climbs(s.last, t.last) && MarkerAgrees(t)
            && t.last.Some? && t.last.value.id == id
            && t.counts.Decided() == s.counts.Decided()
               + (if Rank(k) == 2 && !DecidedFor(s.last, id) then 1 else 0)
  {
  }

  /** A producer record makes an absent marker present exactly when it is not about a known
      wake: a completion does so only on a store that has no record at all, and the `writing`
      record does so unless that id already moved past `writing`. */
  lemma WhenAMarkerReappears(s: WakeState, id: string, k: WakeKind, queueId: Option<string>, now: real)
    requires s.pending.None? && ValidWakeId(id) && ProducerKind(k)
    ensures Produced(s, id, k, queueId, now).pending.Some? <==>
            if k == Writing then !(s.last.Some? && s.last.value.id == id && Rank(s.last.value.state) > 0)
            else s.last.None?
  {
  }

  /** An active hook clears the marker exactly when the marked id is not already decided. */
  lemma WhenAHookClears(s: WakeState, p: Payload, now: real)
    requires ActiveEvent(p.event) && s.pending.Some? && ValidWakeId(s.pending.value.id)
    ensures HookDecided(s, p, now).pending.None? <==> !DecidedFor(s.last, s.pending.value.id)
    ensures HookDecided(s, p, now).pending.Some? ==> HookDecided(s, p, now).pending == s.pending
  {
  }

  /** Only the exact notice, alone in the prompt of a submitted turn, counts as activation. */
  lemma OnlyTheNoticeActivates(s: WakeState, p: Payload, now: real)
    requires s.pending.Some? && ValidWakeId(s.pending.value.id) && !DecidedFor(s.last, s.pending.value.id)
    requires ActiveEvent(p.event)
    ensures var t := HookDecided(s, p, now);
            && t.last.Some? && t.last.value.id == s.pending.value.id
            && (t.last.value.state == Activated <==>
                  p.event == UserPromptSubmit && p.prompt == NoticeOf(s.pending.value.id))
            && (t.last.value.state == Raced ==> s.pending.value.status == Writing)
            && (t.last.value.state == Cancelled ==> s.pending.value.status != Writing)
            && Rank(t.last.value.state) == 2
  {
  }

  // ---- what one transition counts and keeps on record ------------------------------------------

  /** A hook in an active turn finds a marker whose wake is not decided yet. */
  predicate Undecided(s: WakeState, p: Payload) {
    && (p.event == UserPromptSubmit || p.event == PostToolUse)
    && s.pending.Some? && ValidWakeId(s.pending.value.id)
    && !(s.last.Some? && s.last.value.id == s.pending.value.id
         && (s.last.value.state == Activated || s.last.value.state == Raced || s.last.value.state == Cancelled))
  }

  predicate ShowsNotice(s: WakeState, p: Payload) {
    s.pending.Some? && p.event == UserPromptSubmit && p.prompt == NoticeOf(s.pending.value.id)
  }

  function One(b: bool): nat {
    if b then 1 else 0
  }

  /** Each counter moves in its own case and in no other: `activated` when the prompt is the notice of
      the undecided marked message, `raced` when other activity meets an undecided `writing` marker,
      `cancelled` when it meets an undecided later one. */
  lemma WhatAHookCounts(s: WakeState, p: Payload, now: real)
    ensures var before, after := s.counts, HookDecided(s, p, now).counts;
            && after.activated == before.activated + One(Undecided(s, p) && ShowsNotice(s, p))
            && after.raced == before.raced
               + One(Undecided(s, p) && !ShowsNotice(s, p) && s.pending.value.status == Writing)
            && after.cancelled == before.cancelled
               + One(Undecided(s, p) && !ShowsNotice(s, p) && s.pending.value.status != Writing)
            && after.failed == before.failed && after.uncertain == before.uncertain
  {
  }

  predicate About(last: Option<Last>, id: string) {
    last.Some? && last.value.id == id
  }

  /** The producer completes a wake of its own that is undecided and whose marker was taken away. */
  predicate Withdrawn(s: WakeState, id: string, k: WakeKind) {
    && ValidWakeId(id) && (k == Queued || k == Failed || k == Uncertain)
    && About(s.last, id) && s.pending.None?
    && (s.last.value.state == Writing || s.last.value.state == Queued
        || s.last.value.state == Failed || s.last.value.state == Uncertain)
  }

  /** The producer completes, for the first time, the newest wake or one before any record. */
  predicate Completes(s: WakeState, id: string) {
    && ValidWakeId(id)
    && (s.last.None? || (s.last.value.id == id && s.last.value.state == Writing && s.pending.Some?))
  }

  /** The producer's records count a wake as cancelled exactly if its marker was taken away, as failed
      or uncertain exactly if its first completion says so, and never as activated or raced; `writing`
      and `queued` records count nothing else. */
  lemma WhatAProducerCounts(s: WakeState, id: string, k: WakeKind, q: Option<string>, now: real)
    ensures var before, after := s.counts, Produced(s, id, k, q, now).counts;
            && after.activated == before.activated && after.raced == before.raced
            && after.cancelled == before.cancelled + One(Withdrawn(s, id, k))
            && after.failed == before.failed + One(k == Failed && Completes(s, id))
            && after.uncertain == before.uncertain + One(k == Uncertain && Completes(s, id))
  {
  }

  /** A deciding hook clears the marker and puts its event and turn on record. */
  lemma AHookSigns(s: WakeState, p: Payload, now: real)
    requires Undecided(s, p)
    ensures var t := HookDecided(s, p, now);
            && t.pending.None? && t.last.Some? && t.last.value.id == s.pending.value.id
            && t.last.value.event == Some(p.event)
            && (p.turn.Some? ==> t.last.value.turn == p.turn)
            && t.last.value.at >= now
  {
  }

  /** A completion for an older wake leaves everything of a newer one as it is; one for the newest wake
      leaves its queue id on record if none was known, decided or not. */
  lemma CompletionsKnowTheirWake(s: WakeState, id: string, k: WakeKind, q: Option<string>, now: real)
    requires ValidWakeId(id) && (k == Queued || k == Failed || k == Uncertain) && s.last.Some?
    ensures var t := Produced(s, id, k, q, now);
            && (s.last.value.id != id ==> t == s)
            && (s.last.value.id == id ==>
                  && t.last.Some? && t.last.value.id == id
                  && t.last.value.queueId == (if Truthy(q) && !Truthy(s.last.value.queueId) then q
                                              else s.last.value.queueId))
  {
  }
}
