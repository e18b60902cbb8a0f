/** The two receiving windows over whole runs of one bridge and of a mesh of bridges. */
module Allowances {
  import opened Common
  import opened Budget
  import opened Messages
  import opened Offers
  import opened Bridge
  import opened Invariants
  import opened AtMostOnce
  import Prompts
  import W = Wake

  // ---- one step ---------------------------------------------------------------------------------

  lemma OfferPays(s: Store, v: View, notice: string)
    requires Distinct(s.rows)
    ensures var (t, b) := Offered(s, v, notice);
            && t.remaining.Finite? == s.remaining.Finite?
            && (s.remaining.Finite? ==> t.remaining.left + |b.offered| == s.remaining.left)
            && t.wakeRemaining == s.wakeRemaining
  {
    BatchExact(s.rows, s.remaining, NoticePieces(notice), v);
  }

  /** The dispatcher pays for what it claims and grants nothing. */
  lemma DispatchPays(w: World, e: Env)
    ensures var t := Dispatched(w, e);
            && t.h.granted == w.h.granted && t.h.wakeGranted == w.h.wakeGranted
            && t.s.remaining.Finite? == w.s.remaining.Finite?
            && (w.s.remaining.Finite? ==> Left(t.s.remaining) + t.h.debits == Left(w.s.remaining) + w.h.debits)
            && (w.s.wakeRemaining.Some? && w.s.wakeRemaining.value.Finite? ==>
                  && t.s.wakeRemaining.Some? && t.s.wakeRemaining.value.Finite?
                  && Left(WakesLeft(t.s)) + t.h.claims == Left(WakesLeft(w.s)) + w.h.claims)
            && (WakesLeft(w.s).Finite? ==>
                  WakesLeft(t.s).Finite? && Left(WakesLeft(t.s)) + t.h.claims <= Left(WakesLeft(w.s)) + w.h.claims)
  {
    hide IsUuid, FirstPending, ReceivedKey, SetReceivedTo, ReceivedRows, Scanned, W.Produced, Deliverable, OutSet;
  }

  /** A finite message window drops by exactly what was debited, net of what was granted. */
  lemma WindowStep(w: World, a: Action)
    requires Inv(w) && w.s.remaining.Finite? && Next(w, a).s.remaining.Finite?
    ensures var t := Next(w, a);
            Left(t.s.remaining) + t.h.debits - t.h.granted == Left(w.s.remaining) + w.h.debits - w.h.granted
  {
    hide TablesOk, IsUuid, Offered, Dispatched, W.HookDecided, Updated, SetTo, Acknowledged, Restarted, Renews;
    if a.Dispatch? {
      DispatchPays(w, a.env);
    } else if a.Offer? {
      InvDistinct(w);
      OfferPays(w.s, a.view, a.notice);
    }
  }

  lemma InvDistinct(w: World)
    requires Inv(w)
    ensures Distinct(w.s.rows)
  {
  }

  /** The same of a finite wake window that is stored on its own: only claims take from it. */
  lemma WakeWindowStep(w: World, a: Action)
    requires Inv(w) && w.s.wakeRemaining.Some? && w.s.wakeRemaining.value.Finite?
    requires Next(w, a).s.wakeRemaining.Some? && Next(w, a).s.wakeRemaining.value.Finite?
    ensures var t := Next(w, a);
            Left(WakesLeft(t.s)) + t.h.claims - t.h.wakeGranted == Left(WakesLeft(w.s)) + w.h.claims - w.h.wakeGranted
  {
    hide TablesOk, IsUuid, Offered, Dispatched, W.HookDecided, Updated, SetTo, Acknowledged, Restarted, Renews;
    if a.Dispatch? {
      DispatchPays(w, a.env);
    } else if a.Offer? {
      InvDistinct(w);
      OfferPays(w.s, a.view, a.notice);
    }
  }

  ghost predicate FiniteAlong(w: World, run: seq<Action>) {
    forall i | 0 <= i <= |run| :: Step(w, run, i).s.remaining.Finite?
  }

  ghost predicate FiniteWakesAlong(w: World, run: seq<Action>) {
    forall i | 0 <= i <= |run| ::
      Step(w, run, i).s.wakeRemaining.Some? && Step(w, run, i).s.wakeRemaining.value.Finite?
  }

  /** While the wake allowance is finite, the wakes claimed are exactly what was spent of it, net
      of renewals and reconfigurations. */
  lemma {:induction false} ClaimsAreSpent(w: World, run: seq<Action>)
    requires Inv(w) && w.h == NO_HISTORY && FiniteWakesAlong(w, run)
    ensures var t := Exec(w, run);
            t.h.claims == Left(WakesLeft(w.s)) + t.h.wakeGranted - Left(WakesLeft(t.s))
  {
    hide Next, Inv, WakesLeft;
    StepEnds(w, run);
    if run != [] {
      var m := |run| - 1;
      Prefix(w, run, m);
      assert FiniteWakesAlong(w, run[..m]) by {
        forall i | 0 <= i <= m ensures Step(w, run[..m], i) == Step(w, run, i) {
          assert run[..m][..i] == run[..i];
        }
      }
      ClaimsAreSpent(w, run[..m]);
      InvStep(w, run, m);
      StepNext(w, run, m);
      WakeWindowStep(Step(w, run, m), run[m]);
    }
  }

  /** The same of the message window and what was debited from it. */
  lemma {:induction false} DebitsAreSpent(w: World, run: seq<Action>)
    requires Inv(w) && w.h == NO_HISTORY && FiniteAlong(w, run)
    ensures var t := Exec(w, run);
            t.h.debits == Left(w.s.remaining) + t.h.granted - Left(t.s.remaining)
  {
    hide Next, Inv;
    StepEnds(w, run);
    if run != [] {
      var m := |run| - 1;
      Prefix(w, run, m);
      assert FiniteAlong(w, run[..m]) by {
        forall i | 0 <= i <= m ensures Step(w, run[..m], i) == Step(w, run, i) {
          assert run[..m][..i] == run[..i];
        }
      }
      DebitsAreSpent(w, run[..m]);
      InvStep(w, run, m);
      StepNext(w, run, m);
      WindowStep(Step(w, run, m), run[m]);
    }
  }

  lemma Prefix(w: World, run: seq<Action>, m: nat)
    requires m <= |run|
    ensures Exec(w, run[..m]) == Step(w, run, m)
  {
  }

  // ---- hand-overs are paid for ---------------------------------------------------------------------

  /** Every hook offer and every queue attempt of a message was debited first. */
  predicate Paid(w: World) {
    |w.h.handed| + (if w.d.Forwards? then 1 else 0) <= w.h.debits
  }

  lemma PaidNext(w: World, a: Action)
    requires Paid(w)
    ensures Paid(Next(w, a))
  {
    hide IsUuid, Offered, ReceivedKey, SetReceivedTo, ReceivedRows, WakeClaimed, W.Produced, W.HookDecided,
         Updated, SetTo, Acknowledged, Restarted, Renews, Look;
    if a.Dispatch? && w.d.Ready? {
      LookOnlyMarks(w, a.env);
    }
  }

  lemma LookOnlyMarks(w: World, e: Env)
    requires w.d.Ready?
    ensures Look(w, e).h == w.h && !Look(w, e).d.Forwards?
  {
  }

  // ---- runs without an owner ------------------------------------------------------------------------

  /** Nobody reconfigures the windows and no prompt is the owner's. */
  predicate Quiet(a: Action) {
    !a.Configure? && (a.Renew? ==> !OwnerPrompt(a.payload))
  }

  /** A prompt made of the bridge's own text, with anything around it, is quiet. */
  lemma OwnTextIsQuiet(before: string, t: Prompts.OwnText, after: string, e: HookEvent, turn: Option<string>)
    ensures Quiet(Renew(Payload(e, Prompts.Reading(Some(before + Prompts.Print(t) + after)), turn)))
  {
    hide Prompts.Reading, Prompts.Print;
    Prompts.OwnTextIsNotTheOwner(before, t, after);
  }

  /** What is left of both finite windows covers what was taken since `w0`. */
  ghost predicate Within(w0: World, w: World) {
    && Inv(w) && Paid(w)
    && w.s.remaining.Finite? && WakesLeft(w.s).Finite?
    && w.h.debits + Left(w.s.remaining) == w0.h.debits + Left(w0.s.remaining)
    && w.h.claims + Left(WakesLeft(w.s)) <= w0.h.claims + Left(WakesLeft(w0.s))
  }

  lemma QuietGrantsNothing(w: World, a: Action)
    requires Inv(w) && Quiet(a) && w.s.remaining.Finite? && WakesLeft(w.s).Finite?
    ensures var t := Next(w, a);
            && t.s.remaining.Finite? && WakesLeft(t.s).Finite? && t.h.granted == w.h.granted
            && t.h.claims + Left(WakesLeft(t.s)) <= w.h.claims + Left(WakesLeft(w.s))
  {
    hide TablesOk, IsUuid, Offered, Dispatched, W.HookDecided, Updated, SetTo, Acknowledged, Restarted;
    if a.Dispatch? {
      DispatchPays(w, a.env);
    } else if a.Offer? {
      InvDistinct(w);
      OfferPays(w.s, a.view, a.notice);
    }
  }

  lemma WithinNext(w0: World, w: World, a: Action)
    requires Within(w0, w) && Quiet(a)
    ensures Within(w0, Next(w, a))
  {
    hide Next, Inv, Paid, Quiet;
    QuietGrantsNothing(w, a);
    WindowStep(w, a);
    InvNext(w, a);
    PaidNext(w, a);
  }

  // ---- a mesh ---------------------------------------------------------------------------------------

  /** One action at one bridge of a mesh; what travels between bridges is an arrival there. */
  datatype Event = Event(at: nat, action: Action)

  function MeshNext(ws: seq<World>, e: Event): (us: seq<World>)
    ensures |us| == |ws|
  {
    if e.at < |ws| then ws[e.at := Next(ws[e.at], e.action)] else ws
  }

  function MeshExec(ws: seq<World>, run: seq<Event>): (us: seq<World>)
    ensures |us| == |ws|
  {
    if run == [] then ws else MeshNext(MeshExec(ws, run[..|run| - 1]), run[|run| - 1])
  }

  function TotalHanded(ws: seq<World>): nat {
    if ws == [] then 0 else |ws[0].h.handed| + TotalHanded(ws[1..])
  }

  function TotalClaims(ws: seq<World>): nat {
    if ws == [] then 0 else ws[0].h.claims + TotalClaims(ws[1..])
  }

  function TotalWindow(ws: seq<World>): nat {
    if ws == [] then 0 else Left(ws[0].s.remaining) + TotalWindow(ws[1..])
  }

  function TotalWakeWindow(ws: seq<World>): nat {
    if ws == [] then 0 else Left(WakesLeft(ws[0].s)) + TotalWakeWindow(ws[1..])
  }

  ghost predicate AllWithin(ws0: seq<World>, ws: seq<World>) {
    |ws| == |ws0| && forall i | 0 <= i < |ws| :: Within(ws0[i], ws[i])
  }

  predicate Fresh(ws: seq<World>) {
    forall i | 0 <= i < |ws| ::
      Inv(ws[i]) && ws[i].d.Ready? && ws[i].h == NO_HISTORY && ws[i].s.remaining.Finite? && WakesLeft(ws[i].s).Finite?
  }

  lemma {:induction false} AllWithinRun(ws: seq<World>, run: seq<Event>)
    requires Fresh(ws)
    requires forall i | 0 <= i < |run| :: Quiet(run[i].action)
    ensures AllWithin(ws, MeshExec(ws, run))
  {
    hide Next, Inv, Quiet, Within;
    if run == [] {
      forall i | 0 <= i < |ws| ensures Within(ws[i], ws[i]) {
        FreshWithin(ws[i]);
      }
    } else {
      var m := |run| - 1;
      AllWithinRun(ws, run[..m]);
      var e := run[m];
      if e.at < |ws| {
        WithinNext(ws[e.at], MeshExec(ws, run[..m])[e.at], e.action);
      }
    }
  }

  lemma FreshWithin(w: World)
    requires Inv(w) && w.d.Ready? && w.h == NO_HISTORY && w.s.remaining.Finite? && WakesLeft(w.s).Finite?
    ensures Within(w, w)
  {
  }

  lemma {:induction false} TotalsBound(ws0: seq<World>, ws: seq<World>)
    requires AllWithin(ws0, ws) && Fresh(ws0)
    ensures TotalHanded(ws) <= TotalWindow(ws0)
    ensures TotalClaims(ws) <= TotalWakeWindow(ws0)
  {
    hide Inv;
    if ws != [] {
      assert Within(ws0[0], ws[0]);
      assert Fresh(ws0[1..]) && AllWithin(ws0[1..], ws[1..]) by {
        forall i | 0 <= i < |ws| - 1 ensures ws0[1..][i] == ws0[i + 1] && ws[1..][i] == ws[i + 1] {
        }
      }
      TotalsBound(ws0[1..], ws[1..]);
    }
  }

  /** Over every run of a mesh with finite allowances, without an owner prompt or a
      reconfiguration, everything handed to any model is covered by the initial message windows
      and every wake by the initial wake windows, whatever the bridges send each other. */
  lemma {:induction false} MeshIsBounded(ws: seq<World>, run: seq<Event>)
    requires Fresh(ws)
    requires forall i | 0 <= i < |run| :: Quiet(run[i].action)
    ensures TotalHanded(MeshExec(ws, run)) <= TotalWindow(ws)
    ensures TotalClaims(MeshExec(ws, run)) <= TotalWakeWindow(ws)
  {
    hide Fresh, AllWithin, Quiet;
    AllWithinRun(ws, run);
    TotalsBound(ws, MeshExec(ws, run));
  }
}
