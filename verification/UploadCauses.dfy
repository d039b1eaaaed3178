/** Why an Upload shows the phase it shows: in every interleaving each phase that ends or interrupts an upload has a
    cause, and the history that records the causes says what happened. */
module UploadCauses {
  import opened Common
  import opened Json
  import opened UploadResource
  import opened UploadProtocol

  /** What must have happened before an Upload of snapshot `id` may show phase `p`. */
  predicate Caused(h: History, c: Cancels, id: string, p: Phase)
  {
    match p
    case FailedAfterRetry => h.exhausted
    case Completed => h.copied || h.exhausted
    case CleanupFailed => h.copied || h.exhausted
    case UploadError => h.failedCopies > 0 || ':' !in id
    case Canceled => c.cancelled != {}
    case _ => true
  }

  /** What brought a run to the point where it is. */
  predicate RunCaused(h: History, c: Cancels, id: string, run: Run)
  {
    run.Getting? ||
    (&& run.req.spec.snapshotID == id
     && Caused(h, c, id, run.req.status.phase)
     && (run.Patching? ==> Caused(h, c, id, run.to))
     && (run.CopyDone? ==> h.copied)
     && (run.Deleting? ==> match run.why
                           case AfterCopy => h.copied
                           case Exhausted => h.exhausted
                           case Leftover => h.copied || h.exhausted))
  }

  predicate ShownCaused(h: History, c: Cancels, id: string, u: Upload)
  {
    u.spec.snapshotID == id && Caused(h, c, id, u.status.phase)
  }

  ghost predicate CauseInv(s: State, id: string)
  {
    && (s.server.Some? ==> ShownCaused(s.hist, s.cancels, id, s.server.value))
    && (forall v :: v in s.views ==> ShownCaused(s.hist, s.cancels, id, v))
    && (forall n :: n in s.runs ==> RunCaused(s.hist, s.cancels, id, s.runs[n]))
    && (forall t :: t in s.triggers ==> ShownCaused(s.hist, s.cancels, id, s.triggers[t].req))
    && (forall d :: d in s.deletes ==> ShownCaused(s.hist, s.cancels, id, s.deletes[d]))
  }

  /** Causes are not taken back. */
  predicate MoreCauses(h: History, c: Cancels, h': History, c': Cancels)
  {
    && (h.copied ==> h'.copied) && (h.exhausted ==> h'.exhausted) && h.failedCopies <= h'.failedCopies
    && c.cancelled <= c'.cancelled
  }

  lemma CausesStay(s: State, id: string, h: History, c: Cancels)
    requires CauseInv(s, id) && MoreCauses(s.hist, s.cancels, h, c)
    ensures CauseInv(s.(hist := h, cancels := c), id)
  {
    var r := s.(hist := h, cancels := c);
    forall v | v in s.views ensures ShownCaused(h, c, id, v) { assert ShownCaused(s.hist, s.cancels, id, v); }
    forall n | n in s.runs ensures RunCaused(h, c, id, s.runs[n]) {
      assert RunCaused(s.hist, s.cancels, id, s.runs[n]);
    }
  }

  /** A patch can only show the stored phase or the new one. */
  lemma PatchedCaused(h: History, c: Cancels, id: string, before: Upload, after: Upload, stored: Upload)
    requires ShownCaused(h, c, id, stored) && Caused(h, c, id, after.status.phase)
    requires before.spec.snapshotID == after.spec.snapshotID
    ensures ShownCaused(h, c, id, Patched(before, after, stored))
  {}

  lemma ProceedCaused(h: History, c: Cancels, id: string, u: Upload)
    requires ShownCaused(h, c, id, u)
    ensures RunCaused(h, c, id, Proceed(u))
  {}

  lemma NextRunCausedPatch(s: State, n: Node, e: Event, id: string)
    requires CauseInv(s, id) && n in s.runs && RunEnabled(s, s.runs[n], e) && e.PatchAttempt?
    ensures var r := DoRun(s, n, e);
            && MoreCauses(s.hist, s.cancels, r.hist, r.cancels)
            && (n in r.runs ==> RunCaused(r.hist, r.cancels, id, r.runs[n]))
            && (r.server.Some? ==> ShownCaused(r.hist, r.cancels, id, r.server.value))
  {
    var run, r := s.runs[n], DoRun(s, n, e);
    assert RunCaused(s.hist, s.cancels, id, run);
    var after := Mutated(run.req, run.to, e.now, n, e.msg);
    assert after.status.phase == run.to && after.spec == run.req.spec;
    if Reaches(s, e.d) {
      var u := Patched(run.req, after, s.server.value);
      PatchedCaused(r.hist, r.cancels, id, run.req, after, s.server.value);
      ProceedCaused(r.hist, r.cancels, id, u);
      assert r.server == Some(u);
    }
  }

  /** What a run does next is caused, with what this step adds to the history. */
  lemma NextRunCaused(s: State, n: Node, e: Event, id: string)
    requires CauseInv(s, id) && n in s.runs && RunEnabled(s, s.runs[n], e)
    ensures var r := DoRun(s, n, e);
            && MoreCauses(s.hist, s.cancels, r.hist, r.cancels)
            && (n in r.runs ==> RunCaused(r.hist, r.cancels, id, r.runs[n]))
            && (r.server.Some? ==> ShownCaused(r.hist, r.cancels, id, r.server.value))
  {
    if e.PatchAttempt? {
      NextRunCausedPatch(s, n, e, id);
    } else {
      assert RunCaused(s.hist, s.cancels, id, s.runs[n]);
    }
  }

  lemma CauseInvRun(s: State, n: Node, e: Event, id: string)
    requires CauseInv(s, id) && n in s.runs && RunEnabled(s, s.runs[n], e)
    ensures CauseInv(DoRun(s, n, e), id)
  {
    var r := DoRun(s, n, e);
    NextRunCaused(s, n, e, id);
    CausesStay(s, id, r.hist, r.cancels);
  }

  lemma StoreCaused(s: State, u: Upload, id: string)
    requires CauseInv(s, id) && ShownCaused(s.hist, s.cancels, id, u)
    ensures CauseInv(Store(s, u), id)
  {
    CausesStay(s, id, Store(s, u).hist, s.cancels);
  }

  lemma CauseInvTrigger(s: State, t: Id, now: Time, d: Delivery, id: string)
    requires CauseInv(s, id) && t in s.triggers
    ensures CauseInv(DoTriggerPatch(s, t, now, d), id)
  {
    var tr := s.triggers[t];
    assert ShownCaused(s.hist, s.cancels, id, tr.req);
    var req' := Mutated(tr.req, Canceling, now, tr.node, "Canceling on-going upload to repository.");
    var t' := Trigger(tr.node, req', Reaches(s, d) && d == Accepted);
    var seen := s.(views := s.views + {req'}, triggers := s.triggers[t := t']);
    assert CauseInv(seen, id);
    if Reaches(s, d) {
      PatchedCaused(s.hist, s.cancels, id, tr.req, req', s.server.value);
      StoreCaused(seen, Patched(tr.req, req', s.server.value), id);
    }
  }

  lemma CauseInvDelete(s: State, d: Id, now: Time, del: Delivery, id: string)
    requires CauseInv(s, id) && d in s.deletes
    ensures CauseInv(DoDeletePatch(s, d, now, del), id)
  {
    var req := s.deletes[d];
    assert ShownCaused(s.hist, s.cancels, id, req);
    if Reaches(s, del) {
      PatchedCaused(s.hist, s.cancels, id, req, CancelRequested(req, now), s.server.value);
      StoreCaused(s.(deletes := s.deletes - {d}), Patched(req, CancelRequested(req, now), s.server.value), id);
    }
  }

  lemma CauseInvOther(s: State, a: Action, id: string)
    requires CauseInv(s, id) && Enabled(s, a) && !a.OfRun? && !a.TriggerPatch? && !a.DeletePatch?
    ensures CauseInv(Do(s, a), id)
  {
    var r := Do(s, a);
    CausesStay(s, id, r.hist, r.cancels);
  }

  lemma CauseInvStep(s: State, a: Action, id: string)
    requires CauseInv(s, id) && Enabled(s, a)
    ensures CauseInv(Do(s, a), id)
  {
    match a
    case OfRun(n, e) => CauseInvRun(s, n, e, id);
    case TriggerPatch(t, now, d) => CauseInvTrigger(s, t, now, d, id);
    case DeletePatch(d, now, del) => CauseInvDelete(s, d, now, del, id);
    case _ => CauseInvOther(s, a, id);
  }

  lemma {:induction false} CauseInvReached(states: seq<State>, acts: seq<Action>, i: nat)
    requires Execution(states, acts) && i < |states|
    ensures CauseInv(states[i], states[0].server.value.spec.snapshotID)
  {
    if i == 0 {
    } else {
      CauseInvReached(states, acts, i - 1);
      CauseInvStep(states[i - 1], acts[i - 1], states[0].server.value.spec.snapshotID);
    }
  }

  // ---------------------------------------------------------------------------------------------
  // Cancelling phases go back to a delete request
  // ---------------------------------------------------------------------------------------------

  predicate Requested(s: State) { s.server.None? || s.server.value.spec.uploadCancel }

  /** Where a cancel shows, a delete has asked for it. */
  ghost predicate RequestInv(s: State)
  {
    && (s.server.Some? && ShowsCancel(s.server.value) ==> Requested(s))
    && (forall v :: v in s.views && ShowsCancel(v) ==> Requested(s))
    && (forall t :: t in s.triggers ==> s.triggers[t].req.spec.uploadCancel)
    && (s.triggers != map[] || s.cancels.cancelled != {} ==> Requested(s))
    && (forall n :: n in s.runs && RunCancels(s.runs[n]) ==> Requested(s))
    && (forall d :: d in s.deletes && s.deletes[d].spec.uploadCancel ==> Requested(s))
  }

  predicate ShowsCancel(u: Upload)
  {
    u.spec.uploadCancel || u.status.phase == Canceling || u.status.phase == Canceled
  }

  predicate RunCancels(run: Run)
  {
    !run.Getting? && (ShowsCancel(run.req) || (run.Patching? && (run.to == Canceling || run.to == Canceled)))
  }

  lemma RequestInvPatch(s: State, n: Node, e: Event)
    requires RequestInv(s) && n in s.runs && RunEnabled(s, s.runs[n], e) && e.PatchAttempt?
    ensures RequestInv(DoRun(s, n, e))
  {
    var run, r := s.runs[n], DoRun(s, n, e);
    var after := Mutated(run.req, run.to, e.now, n, e.msg);
    assert after.status.phase == run.to && after.spec == run.req.spec;
    if Reaches(s, e.d) {
      assert r.server.value.spec == s.server.value.spec;
      assert r.server.value.status.phase == run.to || r.server.value.status.phase == s.server.value.status.phase;
    }
    assert Requested(r) <==> Requested(s);
  }

  lemma RequestInvRun(s: State, n: Node, e: Event)
    requires RequestInv(s) && n in s.runs && RunEnabled(s, s.runs[n], e)
    ensures RequestInv(DoRun(s, n, e))
  {
    if e.PatchAttempt? { RequestInvPatch(s, n, e); }
  }

  lemma RequestInvTrigger(s: State, t: Id, now: Time, d: Delivery)
    requires RequestInv(s) && t in s.triggers
    ensures RequestInv(DoTriggerPatch(s, t, now, d))
  {}

  lemma RequestInvDelete(s: State, d: Id, now: Time, del: Delivery)
    requires RequestInv(s) && d in s.deletes
    ensures RequestInv(DoDeletePatch(s, d, now, del))
  {
    CancelRequestKeepsProgress(s.deletes[d], now, if s.server.Some? then s.server.value else s.deletes[d]);
  }

  lemma RequestInvOther(s: State, a: Action)
    requires RequestInv(s) && Enabled(s, a) && !a.OfRun? && !a.TriggerPatch? && !a.DeletePatch?
    ensures RequestInv(Do(s, a))
  {}

  lemma RequestInvStep(s: State, a: Action)
    requires RequestInv(s) && Enabled(s, a)
    ensures RequestInv(Do(s, a))
  {
    match a
    case OfRun(n, e) => RequestInvRun(s, n, e);
    case TriggerPatch(t, now, d) => RequestInvTrigger(s, t, now, d);
    case DeletePatch(d, now, del) => RequestInvDelete(s, d, now, del);
    case _ => RequestInvOther(s, a);
  }

  lemma {:induction false} RequestInvReached(states: seq<State>, acts: seq<Action>, i: nat)
    requires Execution(states, acts) && i < |states|
    ensures RequestInv(states[i])
  {
    if i == 0 {
    } else {
      RequestInvReached(states, acts, i - 1);
      RequestInvStep(states[i - 1], acts[i - 1]);
    }
  }

  /** In every execution, overlapping runs, stale caches and crashes included: a stored UploadFailedAfterRetry means the
      retries were used up, Completed and CleanupFailed that the data was copied or the retries used up, UploadError
      that a copy failed or the ID does not parse, Canceling and Canceled that a delete asked for a cancel, and Canceled
      also that a copy was told to stop. */
  lemma PhaseHasCause(states: seq<State>, acts: seq<Action>, i: nat)
    requires Execution(states, acts) && i < |states| && states[i].server.Some?
    ensures var s, u := states[i], states[i].server.value;
            && (u.status.phase == FailedAfterRetry ==> s.hist.exhausted)
            && (u.status.phase == Completed ==> s.hist.copied || s.hist.exhausted)
            && (u.status.phase == CleanupFailed ==> s.hist.copied || s.hist.exhausted)
            && (u.status.phase == UploadError ==> s.hist.failedCopies > 0 || ':' !in u.spec.snapshotID)
            && (u.status.phase == Canceling || u.status.phase == Canceled ==> u.spec.uploadCancel)
            && (u.status.phase == Canceled ==> s.cancels.cancelled != {})
  {
    CauseInvReached(states, acts, i);
    RequestInvReached(states, acts, i);
  }

  // ---------------------------------------------------------------------------------------------
  // The history is what happened
  // ---------------------------------------------------------------------------------------------

  predicate Succeeds(a: Action) { a.OfRun? && a.e.CopySucceeds? }

  /** A copy fails in a run that shows the retry count at or above the maximum. */
  predicate Exhausts(s: State, a: Action)
  {
    && a.OfRun? && (a.e.CopyFails? || a.e.CopyFailsEarly?)
    && a.n in s.runs && !s.runs[a.n].Getting? && s.runs[a.n].req.status.retryCount >= a.e.max
  }

  lemma {:induction false} CopiedIsTheTrace(states: seq<State>, acts: seq<Action>, i: nat)
    requires Execution(states, acts) && i < |states|
    ensures states[i].hist.copied <==> exists j :: 0 <= j < i && Succeeds(acts[j])
  {
    if i == 0 {
    } else {
      CopiedIsTheTrace(states, acts, i - 1);
      HistoryStep(states[i - 1], acts[i - 1]);
      assert 0 <= i - 1 < i;
    }
  }

  lemma {:induction false} ExhaustedIsTheTrace(states: seq<State>, acts: seq<Action>, i: nat)
    requires Execution(states, acts) && i < |states|
    ensures states[i].hist.exhausted <==> exists j :: 0 <= j < i && Exhausts(states[j], acts[j])
  {
    if i == 0 {
    } else {
      ExhaustedIsTheTrace(states, acts, i - 1);
      HistoryStep(states[i - 1], acts[i - 1]);
      assert 0 <= i - 1 < i;
    }
  }

  predicate ShowsTerminal(s: State) { s.server.Some? && Terminal(s.server.value.status.phase) }

  lemma {:induction false} TerminalIsTheTrace(states: seq<State>, acts: seq<Action>, i: nat)
    requires Execution(states, acts) && i < |states|
    ensures states[i].hist.everTerminal <==> exists j :: 0 <= j <= i && ShowsTerminal(states[j])
  {
    if i == 0 {
    } else {
      TerminalIsTheTrace(states, acts, i - 1);
      HistoryStep(states[i - 1], acts[i - 1]);
      assert ShowsTerminal(states[i - 1]) ==> states[i - 1].hist.everTerminal;
    }
  }

  /** What the history records is what the actions did: a copy succeeded, a copy failed with the count at the maximum, a
      terminal phase was stored. */
  lemma HistoryIsTheTrace(states: seq<State>, acts: seq<Action>, i: nat)
    requires Execution(states, acts) && i < |states|
    ensures states[i].hist.copied <==> exists j :: 0 <= j < i && Succeeds(acts[j])
    ensures states[i].hist.exhausted <==> exists j :: 0 <= j < i && Exhausts(states[j], acts[j])
    ensures states[i].hist.everTerminal <==> exists j :: 0 <= j <= i && ShowsTerminal(states[j])
  {
    CopiedIsTheTrace(states, acts, i);
    ExhaustedIsTheTrace(states, acts, i);
    TerminalIsTheTrace(states, acts, i);
  }

  lemma {:induction false} ExhaustedMeansFailed(states: seq<State>, acts: seq<Action>, i: nat)
    requires Execution(states, acts) && i < |states| && states[i].hist.exhausted
    ensures states[i].hist.failedCopies > 0
  {
    if i == 0 {
    } else {
      var s, a := states[i - 1], acts[i - 1];
      HistoryStep(s, a);
      if s.hist.exhausted { ExhaustedMeansFailed(states, acts, i - 1); }
    }
  }

  predicate HistoryAdds(s: State, a: Action, r: State)
  {
    && (r.hist.copied <==> s.hist.copied || Succeeds(a))
    && (r.hist.exhausted <==> s.hist.exhausted || Exhausts(s, a))
    && s.hist.failedCopies <= r.hist.failedCopies && (Exhausts(s, a) ==> r.hist.failedCopies > 0)
    && (s.hist.everTerminal ==> r.hist.everTerminal)
    && (r.hist.everTerminal && !s.hist.everTerminal ==> ShowsTerminal(r))
    && (ShowsTerminal(r) && r.server != s.server ==> r.hist.everTerminal)
  }

  lemma HistoryStepRun(s: State, n: Node, e: Event)
    requires Enabled(s, OfRun(n, e))
    ensures HistoryAdds(s, OfRun(n, e), DoRun(s, n, e))
  {}

  lemma HistoryStep(s: State, a: Action)
    requires Enabled(s, a)
    ensures HistoryAdds(s, a, Do(s, a))
  {
    if a.OfRun? { HistoryStepRun(s, a.n, a.e); }
  }
}
