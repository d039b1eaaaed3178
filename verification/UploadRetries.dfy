/** The retry maximum ends the copying: how many copies of an upload can fail, and which crashes can add to that. */
module UploadRetries {
  import opened Common
  import opened Json
  import opened UploadResource
  import opened UploadProtocol
  import opened UploadLease
  import opened UploadAccounting

  // ---------------------------------------------------------------------------------------------
  // Stored failures stay within the maximum until a terminal phase is stored
  // ---------------------------------------------------------------------------------------------

  ghost predicate WritesOk(s: State, max: Int32)
  {
    && s.server.Some? && Parses(s.server.value) && s.hist.failureWrites <= Max(max, 0)
    && forall n :: n in s.runs && s.runs[n].Patching? && s.runs[n].to == UploadError ==> s.hist.failureWrites < max
  }

  ghost predicate WritesInv(s: State, max: Int32) { !s.hist.everTerminal ==> WritesOk(s, max) }

  lemma OnlyRun(s: State, n: Node)
    requires LeaseInv(s) && n in s.runs
    ensures s.runs - {n} == map[] && s.runs == map[n := s.runs[n]]
  {}

  lemma WritesInvPatch(s: State, n: Node, e: Event, max: Int32)
    requires LeaseInv(s) && AccountInv(s) && WritesInv(s, max) && n in s.runs && RunEnabled(s, s.runs[n], e)
    requires e.PatchAttempt? && e.d == Accepted
    ensures WritesInv(DoRun(s, n, e), max)
  {
    OnlyRun(s, n);
  }

  lemma WritesInvRun(s: State, n: Node, e: Event, max: Int32)
    requires LeaseInv(s) && AccountInv(s) && WritesInv(s, max) && n in s.runs && RunEnabled(s, s.runs[n], e)
    requires !e.PatchAttempt? && ReadsMaximum(OfRun(n, e), max)
    ensures WritesInv(DoRun(s, n, e), max)
  {
    OnlyRun(s, n);
  }

  lemma WritesInvOther(s: State, a: Action, max: Int32)
    requires LeaseInv(s) && WritesInv(s, max) && Enabled(s, a) && !a.OfRun?
    ensures WritesInv(Do(s, a), max)
  {}

  lemma WritesInvStep(s: State, a: Action, max: Int32)
    requires LeaseInv(s) && AccountInv(s) && WritesInv(s, max) && OrderlyStep(s, a, max)
    ensures WritesInv(Do(s, a), max)
  {
    match a
    case OfRun(n, e) => if e.PatchAttempt? { WritesInvPatch(s, n, e, max); } else { WritesInvRun(s, n, e, max); }
    case _ => WritesInvOther(s, a, max);
  }

  /** All that is known of a state of an orderly execution. */
  ghost predicate Known(s: State, max: Int32) { LeaseInv(s) && AccountInv(s) && WritesInv(s, max) }

  lemma {:induction false} KnownReached(states: seq<State>, acts: seq<Action>, i: nat, max: Int32)
    requires Orderly(states, acts, max) && Parses(states[0].server.value) && i < |states|
    ensures Known(states[i], max)
  {
    LeaseInvReached(states, acts, i);
    AccountInvReached(states, acts, i);
    if i == 0 {
    } else {
      KnownReached(states, acts, i - 1, max);
      StepIsOrderly(states, acts, i - 1, max);
      WritesInvStep(states[i - 1], acts[i - 1], max);
    }
  }

  lemma StepIsOrderly(states: seq<State>, acts: seq<Action>, i: nat, max: Int32)
    requires Orderly(states, acts, max) && i < |acts|
    ensures OrderlyStep(states[i], acts[i], max) && states[i + 1] == Do(states[i], acts[i])
  {
    assert OneRun(states[i], acts[i]) && PatchesOnce(states[i], acts[i]) && ReadsMaximum(acts[i], max);
  }

  // ---------------------------------------------------------------------------------------------
  // Failed copies
  // ---------------------------------------------------------------------------------------------

  /** A failed copy of this run may not be stored yet. */
  predicate InWindow(run: Run)
  {
    || (run.Patching? && (run.to == UploadError || run.to == CleanupFailed || run.to == FailedAfterRetry))
    || (run.Deleting? && run.why == Exhausted)
  }

  /** Every failed copy is stored, except perhaps that of the active run. */
  ghost predicate AllCounted(s: State)
  {
    && s.hist.failedCopies <= s.hist.failureWrites + 1
    && (s.runs == map[] ==> s.hist.failedCopies <= s.hist.failureWrites)
    && forall n :: n in s.runs && !InWindow(s.runs[n]) ==> s.hist.failedCopies <= s.hist.failureWrites
  }

  /** The upload is being cancelled and no run is past its first read: no run will copy again. */
  ghost predicate Stopped(s: State)
  {
    s.server.Some? && s.server.value.status.phase == Canceling && forall n :: n in s.runs ==> s.runs[n].Getting?
  }

  ghost predicate FailuresInv(s: State, max: Int32)
  {
    && s.hist.failedCopies <= Max(max, 0) + 1
    && (!s.hist.everTerminal ==> AllCounted(s) || Stopped(s))
  }

  /** A crash takes away a run whose failed copy is not stored, while the stored phase lets another run copy. */
  predicate LosesAFailure(s: State, a: Action)
  {
    && a.Crash? && a.n in s.runs
    && s.server.Some? && Resumable(s.server.value) && s.hist.failedCopies > s.hist.failureWrites
  }

  lemma FailuresInvPatch(s: State, n: Node, e: Event, max: Int32)
    requires Known(s, max) && FailuresInv(s, max) && n in s.runs && RunEnabled(s, s.runs[n], e)
    requires e.PatchAttempt? && e.d == Accepted
    ensures FailuresInv(DoRun(s, n, e), max)
  {
    OnlyRun(s, n);
  }

  lemma FailuresInvRun(s: State, n: Node, e: Event, max: Int32)
    requires Known(s, max) && FailuresInv(s, max) && n in s.runs && RunEnabled(s, s.runs[n], e)
    requires !e.PatchAttempt? && PatchesOnce(s, OfRun(n, e)) && ReadsMaximum(OfRun(n, e), max)
    ensures FailuresInv(DoRun(s, n, e), max)
  {
    OnlyRun(s, n);
  }

  lemma FailuresInvCrash(s: State, n: Node, max: Int32)
    requires Known(s, max) && FailuresInv(s, max) && !LosesAFailure(s, Crash(n))
    ensures FailuresInv(Do(s, Crash(n)), max)
  {
    if n in s.runs { OnlyRun(s, n); } else { assert s.runs - {n} == s.runs; }
  }

  /** What other writers leave alone. */
  predicate StoreOnly(s: State, r: State)
  {
    && r.runs == s.runs && r.hist == s.hist.(everTerminal := r.hist.everTerminal)
    && (s.hist.everTerminal ==> r.hist.everTerminal)
    && (s.server.Some? && s.server.value.status.phase == Canceling ==>
          r.server.Some? && r.server.value.status.phase == Canceling)
  }

  lemma TriggerStores(s: State, id: Id, now: Time, d: Delivery)
    requires id in s.triggers
    ensures StoreOnly(s, DoTriggerPatch(s, id, now, d))
  {}

  lemma DeleteStores(s: State, id: Id, now: Time, d: Delivery)
    requires id in s.deletes
    ensures StoreOnly(s, DoDeletePatch(s, id, now, d))
  {}

  lemma FailuresInvOther(s: State, a: Action, max: Int32)
    requires Known(s, max) && FailuresInv(s, max) && Enabled(s, a) && OneRun(s, a) && !a.OfRun? && !a.Crash?
    ensures FailuresInv(Do(s, a), max)
  {
    match a
    case TriggerPatch(id, now, d) => TriggerStores(s, id, now, d);
    case DeletePatch(id, now, d) => DeleteStores(s, id, now, d);
    case _ =>
  }

  lemma FailuresInvStep(s: State, a: Action, max: Int32)
    requires Known(s, max) && FailuresInv(s, max) && OrderlyStep(s, a, max) && !LosesAFailure(s, a)
    ensures FailuresInv(Do(s, a), max)
  {
    match a
    case OfRun(n, e) => if e.PatchAttempt? { FailuresInvPatch(s, n, e, max); } else { FailuresInvRun(s, n, e, max); }
    case Crash(n) => FailuresInvCrash(s, n, max);
    case _ => FailuresInvOther(s, a, max);
  }

  /** From step `from` on, no crash loses a failure. */
  ghost predicate LosesNone(states: seq<State>, acts: seq<Action>, from: nat)
    requires |states| == |acts| + 1
  {
    forall i :: from <= i < |acts| ==> !LosesAFailure(states[i], acts[i])
  }

  lemma FailuresInvInit(s: State, max: Int32)
    requires Init(s)
    ensures FailuresInv(s, max)
  {}

  lemma FailuresInvNext(states: seq<State>, acts: seq<Action>, i: nat, max: Int32)
    requires Orderly(states, acts, max) && Parses(states[0].server.value) && i < |acts| && LosesNone(states, acts, 0)
    requires FailuresInv(states[i], max)
    ensures FailuresInv(states[i + 1], max)
  {
    KnownReached(states, acts, i, max);
    StepIsOrderly(states, acts, i, max);
    assert !LosesAFailure(states[i], acts[i]);
    FailuresInvStep(states[i], acts[i], max);
  }

  lemma {:induction false} FailuresInvReached(states: seq<State>, acts: seq<Action>, i: nat, max: Int32)
    requires Orderly(states, acts, max) && Parses(states[0].server.value) && i < |states| && LosesNone(states, acts, 0)
    ensures FailuresInv(states[i], max)
  {
    if i == 0 {
      FailuresInvInit(states[0], max);
    } else {
      FailuresInvReached(states, acts, i - 1, max);
      FailuresInvNext(states, acts, i - 1, max);
    }
  }

  /** With maximum M at most M+1 copies fail, and when M+1 have failed no run can copy any more. Crashes may come at
      any point, except where they lose a failure. */
  lemma FailedCopiesBounded(states: seq<State>, acts: seq<Action>, i: nat, max: Int32)
    requires Orderly(states, acts, max) && Parses(states[0].server.value) && i < |states| && LosesNone(states, acts, 0)
    ensures states[i].hist.failedCopies <= Max(max, 0) + 1
    ensures states[i].hist.failedCopies == Max(max, 0) + 1 ==>
              forall n :: n in states[i].runs ==> !CopyPossible(states[i].runs[n])
  {
    FailuresInvReached(states, acts, i, max);
    KnownReached(states, acts, i, max);
  }

  lemma CopiesStep(s: State, a: Action)
    requires Enabled(s, a) && (forall n :: n in s.runs ==> !CopyPossible(s.runs[n]))
    ensures Do(s, a).hist.copies == s.hist.copies && Do(s, a).hist.failedCopies == s.hist.failedCopies
  {}

  lemma CopiesStepAt(states: seq<State>, acts: seq<Action>, i: nat, max: Int32)
    requires Orderly(states, acts, max) && Parses(states[0].server.value) && LosesNone(states, acts, 0)
    requires i < |acts| && states[i].hist.failedCopies == Max(max, 0) + 1
    ensures states[i + 1].hist.copies == states[i].hist.copies
    ensures states[i + 1].hist.failedCopies == states[i].hist.failedCopies
  {
    FailedCopiesBounded(states, acts, i, max);
    CopiesStep(states[i], acts[i]);
  }

  /** The (M+1)-th failed copy is the last copy ever made. */
  lemma {:induction false} LastCopy(states: seq<State>, acts: seq<Action>, i: nat, j: nat, max: Int32)
    requires Orderly(states, acts, max) && Parses(states[0].server.value) && LosesNone(states, acts, 0)
    requires i <= j < |states| && states[i].hist.failedCopies == Max(max, 0) + 1
    ensures states[j].hist.copies == states[i].hist.copies
    ensures states[j].hist.failedCopies == states[i].hist.failedCopies
    decreases j
  {
    if i == j {
    } else {
      LastCopy(states, acts, i, j - 1, max);
      CopiesStepAt(states, acts, j - 1, max);
    }
  }

  // ---------------------------------------------------------------------------------------------
  // A lost failure is one copy more
  // ---------------------------------------------------------------------------------------------

  lemma {:induction false} FirstViewStays(states: seq<State>, acts: seq<Action>, i: nat)
    requires Execution(states, acts) && i < |states|
    ensures states[0].server.value in states[i].views
  {
    if i == 0 {
    } else {
      FirstViewStays(states, acts, i - 1);
      assert Enabled(states[i - 1], acts[i - 1]) && states[i] == Do(states[i - 1], acts[i - 1]);
    }
  }

  /** The copy fails; below the maximum the failure is stored and the next run may start. */
  lemma CopyFailsOnce(s: State, n: Node, view: Upload, max: Int32)
    requires AtCopy(s, n, view)
    ensures var a := OfRun(n, CopyFailsEarly(max));
            && OrderlyStep(s, a, max)
            && Do(s, a).hist.failedCopies == s.hist.failedCopies + 1
            && Do(s, a).hist.failureWrites == s.hist.failureWrites
            && Do(s, a).server == s.server && view in Do(s, a).views
            && Do(s, a).runs == map[n := AfterFailure(s.server.value, max)]
  {}

  lemma FailureIsStored(s: State, n: Node, view: Upload, max: Int32)
    requires s.server.Some? && Parses(s.server.value) && s.server.value.status.phase == InProgress && view in s.views
    requires Startable(view.status.phase) && !view.spec.uploadCancel
    requires s.runs == map[n := Patching(s.server.value, UploadError, false)]
    ensures var a := OfRun(n, PatchAttempt(0, "", Accepted));
            && OrderlyStep(s, a, max) && Idle(Do(s, a), view)
            && Do(s, a).hist.failedCopies == s.hist.failedCopies
            && Do(s, a).hist.failureWrites == s.hist.failureWrites + 1
  {
    var u, u' := s.server.value, Mutated(s.server.value, UploadError, 0, n, "");
    PatchOfStored(u, u');
    var r := DoRun(s, n, PatchAttempt(0, "", Accepted));
    assert r.server == Some(u') && r.runs == map[];
  }

  /** The stored count decides as the number of stored failures does. */
  lemma CountDecides(s: State, max: Int32)
    requires Known(s, max) && s.server.Some? && Resumable(s.server.value)
    ensures s.server.value.status.retryCount == s.hist.failureWrites <= Max(max, 0)
  {}

  /** One more run whose copy fails. */
  lemma AnotherFailure(states: seq<State>, acts: seq<Action>, max: Int32, view: Upload)
    returns (states': seq<State>, acts': seq<Action>, u: Upload)
    requires Orderly(states, acts, max) && Parses(states[0].server.value) && Idle(states[|acts|], view)
    ensures Orderly(states', acts', max) && states <= states' && acts <= acts'
    ensures forall i :: |acts| <= i < |acts'| ==> !acts'[i].Crash?
    ensures states'[|acts'|].hist.failedCopies == states[|acts|].hist.failedCopies + 1
    ensures states'[|acts'|].hist.failureWrites == states[|acts|].hist.failureWrites
    ensures states'[|acts'|].server == Some(u) && Parses(u) && u.status.phase == InProgress
    ensures view in states'[|acts'|].views
    ensures u.status.retryCount == states'[|acts'|].hist.failureWrites <= Max(max, 0)
    ensures states'[|acts'|].runs == map["node" := AfterFailure(u, max)]
  {
    states', acts' := ReachesCopy(states, acts, max, "node", view);
    var s := states'[|acts'|];
    u := s.server.value;
    KnownReached(states', acts', |acts'|, max);
    CountDecides(s, max);
    CopyFailsOnce(s, "node", view, max);
    states', acts' := OrderlyExtended(states', acts', OfRun("node", CopyFailsEarly(max)), max);
  }

  /** From an idle state with one failure not stored, let copies fail until the maximum is passed. */
  lemma {:induction false} FailsOnceTooOften(states: seq<State>, acts: seq<Action>, max: Int32, view: Upload)
    returns (states': seq<State>, acts': seq<Action>)
    requires Orderly(states, acts, max) && Parses(states[0].server.value) && Idle(states[|acts|], view)
    requires states[|acts|].hist.failedCopies > states[|acts|].hist.failureWrites
    ensures Orderly(states', acts', max) && states <= states' && acts <= acts'
    ensures forall i :: |acts| <= i < |acts'| ==> !acts'[i].Crash?
    ensures states'[|acts'|].hist.failedCopies > Max(max, 0) + 1
    decreases Max(max, 0) + 1 - states[|acts|].hist.failureWrites
  {
    var u;
    states', acts', u := AnotherFailure(states, acts, max, view);
    if u.status.retryCount >= max {
    } else {
      FailureIsStored(states'[|acts'|], "node", view, max);
      states', acts' := OrderlyExtended(states', acts', OfRun("node", PatchAttempt(0, "", Accepted)), max);
      states', acts' := FailsOnceTooOften(states', acts', max, view);
    }
  }

  /** Whatever happens after this execution, short of another lost failure, at most M+1 copies fail. */
  ghost predicate BoundedBeyond(states: seq<State>, acts: seq<Action>, max: Int32)
  {
    forall states': seq<State>, acts': seq<Action> ::
      Orderly(states', acts', max) && states <= states' && acts <= acts' && LosesNone(states', acts', |acts|) ==>
        states'[|acts'|].hist.failedCopies <= Max(max, 0) + 1
  }

  /** The bound survives a step exactly if the step does not lose a failure. */
  lemma FailedCopiesBoundedIff(states: seq<State>, acts: seq<Action>, a: Action, max: Int32)
    requires Orderly(states, acts, max) && Parses(states[0].server.value) && LosesNone(states, acts, 0)
    requires OrderlyStep(states[|acts|], a, max)
    ensures BoundedBeyond(states + [Do(states[|acts|], a)], acts + [a], max) <==> !LosesAFailure(states[|acts|], a)
  {
    var states1, acts1 := OrderlyExtended(states, acts, a, max);
    if LosesAFailure(states[|acts|], a) {
      var states2, acts2 := LostFailureExceeds(states, acts, a, max);
      assert !BoundedBeyond(states1, acts1, max);
    } else {
      forall states': seq<State>, acts': seq<Action>
        | Orderly(states', acts', max) && states1 <= states' && acts1 <= acts' && LosesNone(states', acts', |acts1|)
        ensures states'[|acts'|].hist.failedCopies <= Max(max, 0) + 1
      {
        forall i | 0 <= i < |acts'| ensures !LosesAFailure(states'[i], acts'[i]) {
          if i < |acts| {
            assert states'[i] == states[i] && acts'[i] == acts[i];
          } else if i == |acts| {
            assert states'[i] == states1[i] && acts'[i] == acts1[i];
          }
        }
        FailedCopiesBounded(states', acts', |acts'|, max);
      }
    }
  }

  lemma LostFailureExceeds(states: seq<State>, acts: seq<Action>, a: Action, max: Int32)
    returns (states': seq<State>, acts': seq<Action>)
    requires Orderly(states, acts, max) && Parses(states[0].server.value)
    requires OrderlyStep(states[|acts|], a, max) && LosesAFailure(states[|acts|], a)
    ensures Orderly(states', acts', max) && LosesNone(states', acts', |acts| + 1)
    ensures states + [Do(states[|acts|], a)] <= states' && acts + [a] <= acts'
    ensures states'[|acts'|].hist.failedCopies > Max(max, 0) + 1
  {
    var s, view := states[|acts|], states[0].server.value;
    KnownReached(states, acts, |acts|, max);
    FirstViewStays(states, acts, |acts|);
    OnlyRun(s, a.n);
    states', acts' := OrderlyExtended(states, acts, a, max);
    states', acts' := FailsOnceTooOften(states', acts', max, view);
  }

  /** Such a step is reachable whatever the maximum: a crash right after a first failed copy. */
  lemma LostFailureReachable(max: Int32) returns (states: seq<State>, acts: seq<Action>)
    ensures Orderly(states, acts, max) && Parses(states[0].server.value) && LosesNone(states, acts, 0)
    ensures LosesAFailure(states[|acts|], Crash("node"))
  {
    var u := Example();
    states, acts := ReachesCopy([Fresh(u)], [], max, "node", u);
    CopyFailsOnce(states[|acts|], "node", u, max);
    states, acts := OrderlyExtended(states, acts, OfRun("node", CopyFailsEarly(max)), max);
  }

  // ---------------------------------------------------------------------------------------------
  // All copies, when nothing crashes
  // ---------------------------------------------------------------------------------------------

  /** The run has made its call of CopyToRepo. */
  predicate PastCopy(run: Run)
  {
    run.Copying? || run.CopyDone? || run.Deleting? || (run.Patching? && run.to != InProgress)
  }

  /** Copies made so far, while no terminal phase was stored: one per counted failure, and the one of the
      active run once it has been made. */
  ghost predicate Budget(s: State)
  {
    && (s.runs == map[] ==> s.hist.copies == s.hist.failureWrites)
    && forall n :: n in s.runs ==> s.hist.copies == s.hist.failureWrites + (if PastCopy(s.runs[n]) then 1 else 0)
  }

  ghost predicate BudgetInv(s: State, max: Int32)
  {
    && (!s.hist.everTerminal ==> Budget(s))
    && s.hist.copies <= Max(max, 0) + 1
    && (s.hist.exhausted ==> s.hist.copies == Max(max, 0) + 1)
  }

  lemma BudgetInvPatch(s: State, n: Node, e: Event, max: Int32)
    requires Known(s, max) && BudgetInv(s, max) && n in s.runs && RunEnabled(s, s.runs[n], e)
    requires e.PatchAttempt? && e.d == Accepted
    ensures BudgetInv(DoRun(s, n, e), max)
  {
    OnlyRun(s, n);
  }

  lemma BudgetInvRun(s: State, n: Node, e: Event, max: Int32)
    requires Known(s, max) && BudgetInv(s, max) && n in s.runs && RunEnabled(s, s.runs[n], e)
    requires !e.PatchAttempt? && ReadsMaximum(OfRun(n, e), max) && PatchesOnce(s, OfRun(n, e))
    ensures BudgetInv(DoRun(s, n, e), max)
  {
    OnlyRun(s, n);
  }

  lemma BudgetInvOther(s: State, a: Action, max: Int32)
    requires Known(s, max) && BudgetInv(s, max) && Enabled(s, a) && OneRun(s, a) && !a.OfRun? && !a.Crash?
    ensures BudgetInv(Do(s, a), max)
  {}

  lemma BudgetInvStep(s: State, a: Action, max: Int32)
    requires Known(s, max) && BudgetInv(s, max) && OrderlyStep(s, a, max) && !a.Crash?
    ensures BudgetInv(Do(s, a), max)
  {
    match a
    case OfRun(n, e) => if e.PatchAttempt? { BudgetInvPatch(s, n, e, max); } else { BudgetInvRun(s, n, e, max); }
    case _ => BudgetInvOther(s, a, max);
  }

  lemma {:induction false} BudgetInvReached(states: seq<State>, acts: seq<Action>, i: nat, max: Int32)
    requires Orderly(states, acts, max) && Parses(states[0].server.value) && CrashFree(acts) && i < |states|
    ensures BudgetInv(states[i], max)
  {
    if i == 0 {
    } else {
      BudgetInvReached(states, acts, i - 1, max);
      KnownReached(states, acts, i - 1, max);
      StepIsOrderly(states, acts, i - 1, max);
      BudgetInvStep(states[i - 1], acts[i - 1], max);
    }
  }

  /** Without crashes at most M+1 copies are made at all, failed or not, and the controller gives up only after it has
      made all of them. */
  lemma CopiesAreBounded(states: seq<State>, acts: seq<Action>, i: nat, max: Int32)
    requires Orderly(states, acts, max) && Parses(states[0].server.value) && CrashFree(acts) && i < |states|
    ensures states[i].hist.copies <= Max(max, 0) + 1
    ensures states[i].hist.exhausted ==> states[i].hist.copies == Max(max, 0) + 1
    ensures !states[i].hist.everTerminal ==>
              states[i].server.Some? && states[i].server.value.status.retryCount <= Max(max, 0)
  {
    BudgetInvReached(states, acts, i, max);
    KnownReached(states, acts, i, max);
  }
}
