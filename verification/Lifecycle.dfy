/** src/peer_lifecycle.py: correcting a missed end of turn from the native log. */
module Lifecycle {
  import opened Common
  import opened Budget
  import opened Framing

  // ---- the bounded tail of the log ---------------------------------------------------------

  /** What the scan looks at in one record of the log. */
  datatype Kind = TaskComplete | TurnAborted | TokenCount | OtherEvent | NoEvent

  datatype Record = Record(kind: Kind, turn: Option<string>, at: Option<real>)

  predicate Terminal(r: Record) {
    r.kind == TaskComplete || r.kind == TurnAborted
  }

  /** One step of the fold: a later event invalidates an earlier ending, token counts do not. */
  function Update(latest: Option<Record>, r: Record): Option<Record> {
    if Terminal(r) then Some(r) else if r.kind == TokenCount then latest else None
  }

  function Latest(records: seq<Record>): Option<Record> {
    if records == [] then None else Update(Latest(records[..|records| - 1]), records[|records| - 1])
  }

  /** A log is read line by line; `None` is a line that is no record. */
  type Parser = Line -> Option<Record>

  predicate AllParse(lines: seq<Line>, parse: Parser) {
    forall i | 0 <= i < |lines| :: parse(lines[i]).Some?
  }

  function Records(lines: seq<Line>, parse: Parser): seq<Record>
    requires AllParse(lines, parse)
  {
    seq(|lines|, i requires 0 <= i < |lines| => parse(lines[i]).value)
  }

  /** The last ending in some lines; `None` also when a line is no record. */
  function Scan(lines: seq<Line>, parse: Parser): Option<Record> {
    if AllParse(lines, parse) then Latest(Records(lines, parse)) else None
  }

  /** The loop over the lines. */
  method ScanLines(lines: seq<Line>, parse: Parser) returns (latest: Option<Record>)
    ensures latest == Scan(lines, parse)
  {
    latest := None;
    for i := 0 to |lines|
      invariant AllParse(lines[..i], parse) && latest == Latest(Records(lines[..i], parse))
    {
      var record := parse(lines[i]);
      if record.None? {
        return None;
      }
      assert lines[..i + 1][..i] == lines[..i];
      assert Records(lines[..i + 1], parse)[..i] == Records(lines[..i], parse);
      if record.value.kind == TaskComplete || record.value.kind == TurnAborted {
        latest := record;
      } else if record.value.kind != TokenCount {
        latest := None;
      }
    }
    assert lines[..|lines|] == lines;
  }

  /** Everything after the first newline: `partition(b"\n")[2]`. */
  function AfterBreak(raw: seq<Byte>): seq<Byte> {
    if raw == [] then [] else if raw[0] == NEWLINE then raw[1..] else AfterBreak(raw[1..])
  }

  predicate Finished(raw: seq<Byte>) {
    raw != [] && raw[|raw| - 1] == NEWLINE
  }

  /** The last `size` bytes, without the record they cut in two. */
  function Tail(log: seq<Byte>, size: nat): seq<Byte> {
    if |log| <= size then log else AfterBreak(log[|log| - size..])
  }

  function TailScan(log: seq<Byte>, size: nat, parse: Parser): Option<Record> {
    if !Finished(log) || size == 0 then None else Scan(Cuts(Tail(log, size)).done, parse)
  }

  lemma {:induction false} AfterBreakIs(raw: seq<Byte>) returns (cut: seq<Byte>)
    requires Finished(raw)
    ensures raw == cut + AfterBreak(raw) && Finished(cut)
  {
    if raw[0] == NEWLINE {
      cut := raw[..1];
    } else {
      var rest := AfterBreakIs(raw[1..]);
      cut := [raw[0]] + rest;
      assert raw == [raw[0]] + raw[1..];
    }
  }

  /** The tail is what follows some whole lines. */
  lemma TailIsSuffix(log: seq<Byte>, size: nat) returns (before: seq<Byte>)
    requires Finished(log) && size > 0
    ensures log == before + Tail(log, size) && (before == [] || Finished(before))
  {
    hide AfterBreak;
    if |log| <= size {
      before := [];
      assert [] + log == log;
    } else {
      var offset := |log| - size;
      var cut := AfterBreakIs(log[offset..]);
      before := log[..offset] + cut;
      assert log[..offset] + log[offset..] == log;
      Assoc(log[..offset], cut, Tail(log, size));
    }
  }

  lemma WholeLinesAdd(before: seq<Byte>, tail: seq<Byte>)
    requires before == [] || Finished(before)
    ensures Cuts(before + tail).done == Cuts(before).done + Cuts(tail).done
  {
    CutsAppend(before, tail);
    assert Cuts(before).rest == [];
    hide Cuts;
    assert [] + tail == tail;
  }

  /** The tail holds the last lines of the log. */
  lemma TailHoldsLastLines(log: seq<Byte>, size: nat) returns (n: nat)
    requires Finished(log) && size > 0
    ensures n <= |Cuts(log).done|
    ensures Cuts(Tail(log, size)).done == Cuts(log).done[n..]
  {
    hide Cuts, Tail, Finished;
    var before := TailIsSuffix(log, size);
    WholeLinesAdd(before, Tail(log, size));
    n := |Cuts(before).done|;
  }

  lemma {:induction false} LatestOfSuffix(x: seq<Record>, y: seq<Record>)
    ensures Latest(y).Some? ==> Latest(x + y) == Latest(y)
  {
    if y != [] {
      LatestOfSuffix(x, y[..|y| - 1]);
      assert (x + y)[..|x + y| - 1] == x + y[..|y| - 1];
    }
  }

  /** The ending at `k` is the last thing that happened, but for token counts. */
  predicate EndsAt(records: seq<Record>, k: nat) {
    && k < |records| && Terminal(records[k])
    && forall j | k < j < |records| :: records[j].kind == TokenCount
  }

  /** The fold yields a record exactly when the log ends with it, but for token counts. */
  lemma {:induction false} LatestIsTheEnd(records: seq<Record>, r: Record)
    ensures Latest(records) == Some(r) <==> exists k :: 0 <= k < |records| && EndsAt(records, k) && records[k] == r
  {
    if records != [] {
      var m := |records| - 1;
      var init := records[..m];
      LatestIsTheEnd(init, r);
      if Terminal(records[m]) {
        assert EndsAt(records, m);
      }
      if exists k :: 0 <= k < |init| && EndsAt(init, k) && init[k] == r {
        var k :| 0 <= k < |init| && EndsAt(init, k) && init[k] == r;
        if records[m].kind == TokenCount {
          assert EndsAt(records, k);
        }
      }
      if exists k :: 0 <= k < |records| && EndsAt(records, k) && records[k] == r {
        var k :| 0 <= k < |records| && EndsAt(records, k) && records[k] == r;
        if k < m {
          assert EndsAt(init, k);
        }
      }
    }
  }

  /** Some record from the `n`-th on is that ending. */
  predicate EndsFrom(records: seq<Record>, n: nat, r: Record) {
    exists k :: n <= k < |records| && EndsAt(records, k) && records[k] == r
  }

  /** For a finished log of well-formed records and any tail size: what the bounded tail yields is
      what the whole log yields, and it is followed by token counts only; and the tail yields it
      exactly when its line is one of the tail's, which are all but the first `n` lines of the log. */
  lemma TailScanIsFullScan(log: seq<Byte>, size: nat, parse: Parser) returns (n: nat)
    requires Finished(log) && size > 0 && AllParse(Cuts(log).done, parse)
    ensures n <= |Cuts(log).done| && Cuts(Tail(log, size)).done == Cuts(log).done[n..]
    ensures TailScan(log, size, parse).Some? ==> Scan(Cuts(log).done, parse) == TailScan(log, size, parse)
    ensures forall r :: TailScan(log, size, parse) == Some(r) <==> EndsFrom(Records(Cuts(log).done, parse), n, r)
  {
    n := TailHoldsLastLines(log, size);
    hide Cuts, Tail, AllParse, Records, EndsFrom, Latest;
    RecordsOfSuffix(Cuts(log).done, n, parse);
    var records := Records(Cuts(log).done, parse);
    LatestOfSuffix(records[..n], records[n..]);
    forall r ensures TailScan(log, size, parse) == Some(r) <==> EndsFrom(records, n, r) {
      LatestOfTail(records, n, r);
    }
  }

  lemma LatestOfTail(records: seq<Record>, n: nat, r: Record)
    requires n <= |records|
    ensures Latest(records[n..]) == Some(r) <==> EndsFrom(records, n, r)
  {
    hide EndsAt, Latest;
    LatestIsTheEnd(records[n..], r);
    EndsAtShift(records, n, r);
  }

  lemma RecordsOfSuffix(lines: seq<Line>, n: nat, parse: Parser)
    requires AllParse(lines, parse) && n <= |lines|
    ensures AllParse(lines[n..], parse)
    ensures Records(lines[n..], parse) == Records(lines, parse)[n..]
    ensures Records(lines, parse) == Records(lines, parse)[..n] + Records(lines, parse)[n..]
  {
    var last := lines[n..];
    assert forall i | 0 <= i < |last| :: last[i] == lines[n + i];
  }

  lemma EndsAtShift(records: seq<Record>, n: nat, r: Record)
    requires n <= |records|
    ensures (exists k :: n <= k < |records| && EndsAt(records, k) && records[k] == r) <==>
            (exists k :: 0 <= k < |records[n..]| && EndsAt(records[n..], k) && records[n..][k] == r)
  {
    var last := records[n..];
    forall k | n <= k < |records| ensures EndsAt(records, k) <==> EndsAt(last, k - n) {
      assert forall j | k < j < |records| :: records[j] == last[j - n];
      assert forall j | k - n < j < |last| :: last[j] == records[j + n];
    }
    if exists k :: 0 <= k < |last| && EndsAt(last, k) && last[k] == r {
      var k :| 0 <= k < |last| && EndsAt(last, k) && last[k] == r;
      assert EndsAt(records, k + n) && records[k + n] == r;
    }
  }

  // ---- evidence --------------------------------------------------------------------------------

  /** `hook_seen` of a matched hook; `owner` stands for the owning process's identity, `seeded` for
      the mark of a record carried in at connect. */
  datatype HookRecord = HookRecord(at: real, event: HookEvent, turn: Option<string>, owner: nat, seeded: bool)

  datatype Evidence = Evidence(aborted: bool, turn: string, at: real, owner: nat, hookAt: real)

  /** What the fold yields is an ending (`LatestIsTheEnd`). */
  type Ending = r: Record | Terminal(r) witness Record(TaskComplete, None, None)

  /** What one look at the native log finds: the last ending of its tail, and whether owner, path
      and file could be verified throughout. */
  datatype Native = Native(latest: Option<Ending>, verified: bool, now: real)

  /** `turn_end_evidence` */
  function EvidenceOf(seen: HookRecord, owner: nat, n: Native): Option<Evidence> {
    if seen.event != UserPromptSubmit && seen.event != PostToolUse then None
    else if !Truthy(seen.turn) || seen.owner != owner then None
    else if !n.verified || n.latest.None? || n.latest.value.turn != seen.turn || n.latest.value.at.None? then None
    else if !(seen.at <= n.latest.value.at.value <= n.now) then None
    else Some(Evidence(n.latest.value.kind == TurnAborted, seen.turn.value, n.latest.value.at.value, owner, seen.at))
  }

  // ---- reconciling against hooks -------------------------------------------------------------------

  /** The store as far as reconciling reads and writes it. */
  datatype Store = Store(phase: Phase, seen: Option<HookRecord>, reconciled: Option<Evidence>, owner: nat,
                         stopped: bool)

  /** What a reconcile observed and is about to commit. */
  datatype Observation = Observation(phase: Phase, seen: HookRecord, owner: nat, evidence: Evidence)

  function PhaseFor(e: Evidence): Phase {
    if e.aborted then Interrupted else Idle
  }

  function Observed(s: Store, n: Native): Option<Observation> {
    if (s.phase != Active && s.phase != Idle) || s.stopped || s.seen.None? then None
    else
      var e := EvidenceOf(s.seen.value, s.owner, n);
      if e.None? || (s.phase == PhaseFor(e.value) && s.reconciled == e) then None
      else Some(Observation(s.phase, s.seen.value, s.owner, e.value))
  }

  /** The guard of the commit transaction; `sameConfig` covers the configuration besides the owner. */
  predicate StillTrue(s: Store, o: Observation, n: Native, sameConfig: bool) {
    && !s.stopped && s.phase == o.phase && s.owner == o.owner && sameConfig
    && s.seen == Some(o.seen) && EvidenceOf(o.seen, o.owner, n) == Some(o.evidence)
  }

  function Committed(s: Store, o: Observation, n: Native, sameConfig: bool): Store {
    if StillTrue(s, o, n, sameConfig) then s.(phase := PhaseFor(o.evidence), reconciled := Some(o.evidence)) else s
  }

  /** The fields reconcile overwrites. */
  class PhaseKeeper {
    var phase: Phase
    var seen: Option<HookRecord>
    var reconciled: Option<Evidence>
    var owner: nat
    var stopped: bool

    function View(): Store
      reads this
    {
      Store(phase, seen, reconciled, owner, stopped)
    }

    constructor (owner: nat)
      ensures View() == Store(Unknown, None, None, owner, false)
    {
      phase, seen, reconciled, this.owner, stopped := Unknown, None, None, owner, false;
    }

    /** The first half of `reconcile`: it only reads. */
    method Observe(n: Native) returns (o: Option<Observation>)
      ensures o == Observed(View(), n)
      ensures o.Some? ==> EvidenceWas(o.value)
    {
      if (phase != Active && phase != Idle) || stopped || seen.None? { return None; }
      var e := EvidenceOf(seen.value, owner, n);
      if e.None? { return None; }
      var target := if e.value.aborted then Interrupted else Idle;
      if phase == target && reconciled == e { return None; }
      return Some(Observation(phase, seen.value, owner, e.value));
    }

    /** The second half: re-check and overwrite in one transaction. */
    method Commit(o: Observation, n: Native, sameConfig: bool) returns (changed: bool)
      modifies this`phase, this`reconciled
      ensures View() == Committed(old(View()), o, n, sameConfig)
      ensures changed == StillTrue(old(View()), o, n, sameConfig)
      ensures EvidenceWas(o) && Justified(old(View())) ==> Justified(View())
    {
      if stopped || phase != o.phase || owner != o.owner || !sameConfig || seen != Some(o.seen)
         || EvidenceOf(o.seen, o.owner, n) != Some(o.evidence) {
        return false;
      }
      phase := if o.evidence.aborted then Interrupted else Idle;
      reconciled := Some(o.evidence);
      return true;
    }
  }

  /** The store, the hooks standing between their two writes, the reconcile under way, and (history
      only) whether a hook died between its two writes and no phase was written since. */
  datatype World = World(s: Store, standing: nat, pending: Option<Observation>, torn: bool)

  datatype Action =
    | HookSeen(record: HookRecord)       // first write of a hook
    | HookPhase(event: HookEvent)        // its second write
    | HookDies                           // or none: the hook dies or fails before it
    | StartupPhase                       // a startup hook of a thread not yet on record
    | Seed(record: HookRecord)           // evidence of an earlier hook, carried in at connect
    | OwnerChange(owner: nat)
    | SetStopped(stopped: bool)
    | Look(native: Native)
    | Commit(native: Native, sameConfig: bool)

  function PhaseOfEvent(e: HookEvent): Phase {
    if e == SessionStart || e == Stop then Idle else Active
  }

  /** Hooks race freely: their records may land in any order of their times. */
  function Next(w: World, a: Action): World {
    var s := w.s;
    match a
    case HookSeen(r) => w.(s := s.(seen := Some(r.(seeded := false))), standing := w.standing + 1)
    case HookPhase(e) =>
      if w.standing == 0 then w
      else w.(s := s.(phase := PhaseOfEvent(e)), standing := w.standing - 1, torn := false)
    case HookDies => if w.standing == 0 then w else w.(standing := w.standing - 1, torn := true)
    case StartupPhase => w.(s := s.(phase := Idle), torn := false)
    case Seed(r) =>
      if r.owner != s.owner || (s.seen.Some? && (s.seen.value.owner != s.owner || s.seen.value.at >= r.at)) then w
      else w.(s := s.(seen := Some(r.(seeded := true)), phase := PhaseOfEvent(r.event)), torn := false)
    case OwnerChange(owner) =>
      if owner == s.owner then w
      else if s.seen.Some? && s.seen.value.owner == owner then w.(s := s.(owner := owner))
      else w.(s := s.(owner := owner, phase := Unknown, seen := None), torn := false)
    case SetStopped(b) => w.(s := s.(stopped := b))
    case Look(n) => w.(pending := Observed(s, n))
    case Commit(n, same) =>
      if w.pending.None? then w
      else
        var o := w.pending.value;
        w.(s := Committed(s, o, n, same), pending := None, torn := w.torn && !StillTrue(s, o, n, same))
  }

  function Run(w: World, run: seq<Action>): World {
    if run == [] then w else Next(Run(w, run[..|run| - 1]), run[|run| - 1])
  }

  /** An interruption on record is an aborted end of exactly the turn of the last hook. */
  predicate Justified(s: Store) {
    s.phase == Interrupted ==>
      && s.reconciled.Some? && s.reconciled.value.aborted
      && s.seen.Some?
      && s.seen.value.turn == Some(s.reconciled.value.turn)
      && s.seen.value.at == s.reconciled.value.hookAt
      && s.seen.value.at <= s.reconciled.value.at
  }

  /** The observation's evidence is about the observed hook. */
  predicate EvidenceWas(o: Observation) {
    o.seen.turn == Some(o.evidence.turn) && o.seen.at == o.evidence.hookAt && o.seen.at <= o.evidence.at
  }

  predicate Ok(w: World) {
    && (w.standing == 0 && !w.torn ==> Justified(w.s))
    && (w.pending.Some? ==> EvidenceWas(w.pending.value))
  }

  lemma OkNext(w: World, a: Action)
    requires Ok(w)
    ensures Ok(Next(w, a))
  {
  }

  /** In every interleaving of hooks, dying hooks, reconciles, owner changes and stops: whenever no
      hook stands between its two writes, and none died there since the phase was last written, a
      recorded interruption is backed by an aborted end of exactly the turn and time of the last
      hook. */
  lemma {:induction false} InterruptionsAreJustified(w: World, run: seq<Action>)
    requires Ok(w)
    ensures Ok(Run(w, run))
    ensures Run(w, run).standing == 0 && !Run(w, run).torn ==> Justified(Run(w, run).s)
  {
    hide Next, Justified, EvidenceWas;
    if run != [] {
      InterruptionsAreJustified(w, run[..|run| - 1]);
      OkNext(Run(w, run[..|run| - 1]), run[|run| - 1]);
    }
  }

  /** What a hook's death between its two writes leaves of a justified interruption: it stays
      justified exactly when the dead hook was of the same turn and time; and whatever it left, the
      next hook that completes mends it. */
  lemma WhatADeadHookLeaves(w: World, r: HookRecord, next: HookRecord, e: HookEvent)
    requires Ok(w) && w.standing == 0 && !w.torn && w.s.phase == Interrupted
    ensures var dead := Run(w, [HookSeen(r), HookDies]);
            && dead.standing == 0 && dead.s.phase == Interrupted
            && (Justified(dead.s) <==> w.s.seen.Some? && r.turn == w.s.seen.value.turn && r.at == w.s.seen.value.at)
            && var mended := Run(w, [HookSeen(r), HookDies, HookSeen(next), HookPhase(e)]);
               mended.standing == 0 && !mended.torn && Justified(mended.s)
  {
    var all := [HookSeen(r), HookDies, HookSeen(next), HookPhase(e)];
    assert all[..3][..2] == [HookSeen(r), HookDies] && [HookSeen(r), HookDies][..1] == [HookSeen(r)];
    assert all[..3][2] == HookSeen(next) && [HookSeen(r)][..0] == [];
    hide Justified;
    var one := Next(w, HookSeen(r));
    assert Run(w, [HookSeen(r)]) == one;
    assert Run(w, [HookSeen(r), HookDies]) == Next(one, HookDies);
    assert Run(w, all[..3]) == Next(Next(one, HookDies), HookSeen(next));
    DeadHook(w.s, r.(seeded := false));
    OkNext(w, HookSeen(r));
    OkNext(one, HookDies);
    OkNext(Next(one, HookDies), HookSeen(next));
    OkNext(Next(Next(one, HookDies), HookSeen(next)), HookPhase(e));
  }

  lemma DeadHook(s: Store, r: HookRecord)
    requires Justified(s) && s.phase == Interrupted
    ensures Justified(s.(seen := Some(r))) <==> s.seen.Some? && r.turn == s.seen.value.turn && r.at == s.seen.value.at
  {
  }

  lemma RunSnoc(w: World, run: seq<Action>, a: Action)
    ensures Run(w, run + [a]) == Next(Run(w, run), a)
  {
    assert (run + [a])[..|run|] == run;
  }

  /** Such a state is reached from a new store: a turn begins, its abort is found in the log and
      recorded, and the hook of another turn dies after its first write. */
  lemma TornIsReachable(owner: nat, r: HookRecord, n: Native, next: HookRecord)
    requires r.event == UserPromptSubmit && EvidenceOf(r, owner, n).Some? && EvidenceOf(r, owner, n).value.aborted
    requires next.turn != r.turn
    ensures var run := [HookSeen(r), HookPhase(UserPromptSubmit), Look(n), Commit(n, true), HookSeen(next), HookDies];
            var t := Run(World(Store(Unknown, None, None, owner, false), 0, None, false), run);
            t.standing == 0 && t.torn && t.s.phase == Interrupted && !Justified(t.s)
  {
    var w := World(Store(Unknown, None, None, owner, false), 0, None, false);
    var turn := [HookSeen(r), HookPhase(UserPromptSubmit)];
    RunSnoc(w, [], HookSeen(r));
    RunSnoc(w, [HookSeen(r)], HookPhase(UserPromptSubmit));
    RunSnoc(w, turn, Look(n));
    RunSnoc(w, turn + [Look(n)], Commit(n, true));
    RunSnoc(w, turn + [Look(n), Commit(n, true)], HookSeen(next));
    RunSnoc(w, turn + [Look(n), Commit(n, true), HookSeen(next)], HookDies);
    assert [] + [HookSeen(r)] == [HookSeen(r)] && [HookSeen(r)] + [HookPhase(UserPromptSubmit)] == turn;
    assert turn + [Look(n)] + [Commit(n, true)] == turn + [Look(n), Commit(n, true)];
    assert turn + [Look(n), Commit(n, true)] + [HookSeen(next)] == turn + [Look(n), Commit(n, true), HookSeen(next)];
    assert turn + [Look(n), Commit(n, true), HookSeen(next)] + [HookDies]
        == [HookSeen(r), HookPhase(UserPromptSubmit), Look(n), Commit(n, true), HookSeen(next), HookDies];
    hide Run;
  }

  /** Does the action store this record as the last hook's? */
  predicate Writes(a: Action, r: HookRecord) {
    (a.HookSeen? && a.record.(seeded := false) == r) || (a.Seed? && a.record.(seeded := true) == r)
  }

  /** The observed record is no longer the stored one. */
  predicate Replaced(w: World, o: Observation) {
    w.s.seen != Some(o.seen)
  }

  /** Once replaced, an observed record comes back only if the very same record is written again. */
  lemma {:induction false} StaysReplaced(w: World, run: seq<Action>, o: Observation, i: nat)
    requires i < |run| && run[i].HookSeen?
    requires forall j | 0 <= j < |run| :: !Writes(run[j], o.seen)
    ensures Replaced(Run(w, run), o)
  {
    var m := |run| - 1;
    if i < m {
      assert forall j | 0 <= j < m :: run[..m][j] == run[j];
      StaysReplaced(w, run[..m], o, i);
      hide Run;
      ReplacedNext(Run(w, run[..m]), run[m], o);
    }
  }

  lemma ReplacedNext(w: World, a: Action, o: Observation)
    requires Replaced(w, o) && !Writes(a, o.seen)
    ensures Replaced(Next(w, a), o)
  {
  }

  lemma {:induction false} PendingStays(w: World, run: seq<Action>)
    requires forall j | 0 <= j < |run| :: !run[j].Look?
    ensures Run(w, run).pending.None? || Run(w, run).pending == w.pending
  {
    hide Committed, StillTrue;
    if run != [] {
      var m := |run| - 1;
      assert forall j | 0 <= j < m :: run[..m][j] == run[j];
      PendingStays(w, run[..m]);
    }
  }

  /** A hook whose record lands between observation and commit always defeats that commit, whatever
      else happens meanwhile, unless the observed record itself is written once more. Records carry
      the time of their hook. */
  lemma OvertakenCommitsFail(w: World, look: Native, after: seq<Action>, i: nat, n: Native, same: bool)
    requires i < |after| && after[i].HookSeen?
    requires forall j | 0 <= j < |after| :: !after[j].Look?
    requires Observed(w.s, look).Some? ==>
               forall j | 0 <= j < |after| :: !Writes(after[j], Observed(w.s, look).value.seen)
    ensures var u := Run(Next(w, Look(look)), after);
            Next(u, Commit(n, same)).s == u.s
  {
    hide Observed;
    var begun := Next(w, Look(look));
    PendingStays(begun, after);
    if begun.pending.Some? {
      StaysReplaced(begun, after, begun.pending.value, i);
    }
  }

  /** No commit is refused for nothing: with nothing changed since the look it goes through. */
  lemma UndisturbedCommitsPass(w: World, look: Native)
    requires Observed(w.s, look).Some?
    ensures var t := Next(Next(w, Look(look)), Commit(look, true)).s;
            var evidence := Observed(w.s, look).value.evidence;
            t.phase == PhaseFor(evidence) && t.reconciled == Some(evidence)
  {
  }
}
