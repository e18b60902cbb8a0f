/** What reconciling makes of the record it finds in the native log (src/peer_lifecycle.py): which
    endings interrupt a session, which make it idle, and which do nothing. */
module Endings {
  import opened Common
  import opened Budget
  import opened Lifecycle

  /** The look found, verified, an ending of this kind for a hook's turn, not before the hook and not
      after the look. */
  predicate Found(n: Native, kind: Kind, turn: string, hookAt: real, at: real) {
    && n.verified && n.latest.Some? && n.latest.value == Record(kind, Some(turn), Some(at))
    && hookAt <= at <= n.now
  }

  /** The evidence says of a log record what that record says. */
  predicate Tells(n: Native, e: Evidence) {
    Found(n, if e.aborted then TurnAborted else TaskComplete, e.turn, e.hookAt, e.at)
  }

  lemma EvidenceTells(seen: HookRecord, owner: nat, n: Native)
    requires EvidenceOf(seen, owner, n).Some?
    ensures Tells(n, EvidenceOf(seen, owner, n).value)
  {
  }

  /** The action at `i` is a look that found this evidence. */
  predicate Backed(run: seq<Action>, i: nat, e: Evidence) {
    i < |run| && run[i].Look? && Tells(run[i].native, e)
  }

  lemma BackedLonger(run: seq<Action>, i: nat, e: Evidence)
    requires run != [] && Backed(run[..|run| - 1], i, e)
    ensures Backed(run, i, e)
  {
  }

  /** A new store, or any that is not interrupted and has nothing observed. */
  predicate Begins(w: World) {
    w.pending.None? && w.s.phase != Interrupted
  }

  /** The phase is interrupted only by a commit, which stores its evidence with it. */
  lemma PhaseStep(w: World, a: Action)
    ensures Next(w, a).s.phase == Interrupted ==>
              || (w.s.phase == Interrupted && Next(w, a).s.reconciled == w.s.reconciled)
              || (a.Commit? && w.pending.Some? && w.pending.value.evidence.aborted
                  && Next(w, a).s.reconciled == Some(w.pending.value.evidence)
                  && EvidenceOf(w.pending.value.seen, w.pending.value.owner, a.native)
                     == Some(w.pending.value.evidence))
    ensures a.Commit? && w.pending.Some? && Next(w, a).s.phase != w.s.phase ==>
              Next(w, a).s.reconciled == Some(w.pending.value.evidence)
    ensures Next(w, a).s.reconciled != w.s.reconciled ==> a.Commit?
  {
    hide EvidenceOf;
  }

  /** Whatever is pending was found by a look of the run. */
  lemma {:induction false} PendingWasFound(w: World, run: seq<Action>) returns (i: nat)
    requires Begins(w)
    ensures Run(w, run).pending.Some? ==> Backed(run, i, Run(w, run).pending.value.evidence)
  {
    hide Tells, EvidenceOf;
    i := 0;
    if run != [] {
      var m := |run| - 1;
      i := PendingWasFound(w, run[..m]);
      if run[m].Look? {
        i := m;
        var s := Run(w, run[..m]).s;
        if Observed(s, run[m].native).Some? {
          EvidenceTells(s.seen.value, s.owner, run[m].native);
        }
      } else if Run(w, run).pending.Some? {
        BackedLonger(run, i, Run(w, run).pending.value.evidence);
      }
    }
  }

  /** Whatever interrupted the session was found by a look and found again by a later commit. */
  lemma {:induction false} InterruptionWasFound(w: World, run: seq<Action>) returns (i: nat, j: nat)
    requires Begins(w)
    ensures Run(w, run).s.phase == Interrupted ==>
              && Run(w, run).s.reconciled.Some? && Run(w, run).s.reconciled.value.aborted
              && Backed(run, i, Run(w, run).s.reconciled.value)
              && i < j < |run| && run[j].Commit? && Tells(run[j].native, Run(w, run).s.reconciled.value)
  {
    hide Tells, EvidenceOf, Next;
    i, j := 0, 0;
    if run != [] && Run(w, run).s.phase == Interrupted {
      var m := |run| - 1;
      var u := Run(w, run[..m]);
      PhaseStep(u, run[m]);
      if run[m].Commit? && u.pending.Some? && Run(w, run).s.reconciled == Some(u.pending.value.evidence)
         && u.pending.value.evidence.aborted
         && EvidenceOf(u.pending.value.seen, u.pending.value.owner, run[m].native) == Some(u.pending.value.evidence) {
        i := PendingWasFound(w, run[..m]);
        j := m;
        BackedLonger(run, i, u.pending.value.evidence);
        EvidenceTells(u.pending.value.seen, u.pending.value.owner, run[m].native);
      } else {
        i, j := InterruptionWasFound(w, run[..m]);
        BackedLonger(run, i, u.s.reconciled.value);
      }
    }
  }

  /** In every run from a new store, with no hook between its two writes and none dead there since the
      last phase write: if the session reads interrupted, a look and a later commit of that run both
      found, verified, that the log ends with a `turn_aborted` of exactly the last hook's turn, not
      before that hook and not after they looked. */
  lemma InterruptedByAnAbort(w: World, run: seq<Action>) returns (i: nat, j: nat, at: real)
    requires Begins(w) && Ok(w)
    requires Run(w, run).standing == 0 && !Run(w, run).torn && Run(w, run).s.phase == Interrupted
    ensures i < j < |run| && run[i].Look? && run[j].Commit?
    ensures var seen := Run(w, run).s.seen;
            && seen.Some? && seen.value.turn.Some?
            && Found(run[i].native, TurnAborted, seen.value.turn.value, seen.value.at, at)
            && Found(run[j].native, TurnAborted, seen.value.turn.value, seen.value.at, at)
  {
    i, j := InterruptionWasFound(w, run);
    InterruptionsAreJustified(w, run);
    hide Run, Found;
    at := Run(w, run).s.reconciled.value.at;
  }

  // ---- seeds -------------------------------------------------------------------------------------------

  /** Evidence carried in at connect is stored, with the phase its event means, exactly if it is of the
      current owner and nothing of that owner as new is on record; a record of another owner blocks it. */
  lemma SeedsExactly(w: World, r: HookRecord)
    ensures var s, t := w.s, Next(w, Seed(r)).s;
            if r.owner == s.owner && (s.seen.None? || (s.seen.value.owner == s.owner && s.seen.value.at < r.at))
            then t == s.(seen := Some(r.(seeded := true)),
                         phase := if r.event == SessionStart || r.event == Stop then Idle else Active)
            else t == s
  {
  }

  /** Another owner keeps phase and hook only if the hook on record is its own. */
  lemma OwnersExactly(w: World, owner: nat)
    ensures var s, t := w.s, Next(w, OwnerChange(owner)).s;
            t == if owner == s.owner || (s.seen.Some? && s.seen.value.owner == owner) then s.(owner := owner)
                 else s.(owner := owner, phase := Unknown, seen := None)
  {
  }

  // ---- look and commit with nothing in between ------------------------------------------------------

  /** What one undisturbed reconcile does, with the log looked at twice. */
  function Reconciled(w: World, look: Native, again: Native): Store {
    Next(Next(w, Look(look)), Commit(again, true)).s
  }

  /** The last hook on record was in an active turn of this owner, and the bridge runs. */
  predicate Expects(s: Store, turn: string, hookAt: real) {
    && (s.phase == Active || s.phase == Idle) && !s.stopped
    && s.seen.Some? && s.seen.value.turn == Some(turn) && turn != "" && s.seen.value.at == hookAt
    && (s.seen.value.event == UserPromptSubmit || s.seen.value.event == PostToolUse)
    && s.seen.value.owner == s.owner
  }

  /** A completed turn makes the session idle, an aborted one interrupts it. */
  lemma EndingsDecideThePhase(w: World, look: Native, again: Native, kind: Kind, turn: string, at: real)
    requires w.s.seen.Some? && Expects(w.s, turn, w.s.seen.value.at)
    requires kind == TaskComplete || kind == TurnAborted
    requires Found(look, kind, turn, w.s.seen.value.at, at) && Found(again, kind, turn, w.s.seen.value.at, at)
    ensures Reconciled(w, look, again).phase == if kind == TaskComplete then Idle else Interrupted
    ensures Reconciled(w, look, again).reconciled
            == Some(Evidence(kind == TurnAborted, turn, at, w.s.owner, w.s.seen.value.at))
  {
  }

  /** And nothing else does anything: without such an ending at both looks, verified, of that turn and
      of that time, the store stays as it is. */
  lemma OtherEndingsChangeNothing(w: World, look: Native, again: Native)
    requires forall kind, turn, hookAt, at ::
               Expects(w.s, turn, hookAt) && Found(look, kind, turn, hookAt, at) ==>
               !Found(again, kind, turn, hookAt, at)
    ensures Reconciled(w, look, again) == w.s
  {
    var o := Observed(w.s, look);
    if o.Some? {
      var r := w.s.seen.value;
      var kind, at := look.latest.value.kind, look.latest.value.at.value;
      assert Expects(w.s, r.turn.value, r.at) && Found(look, kind, r.turn.value, r.at, at);
      assert !Found(again, kind, r.turn.value, r.at, at);
    }
  }
}
