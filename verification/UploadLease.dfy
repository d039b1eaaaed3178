/** What the lease buys: with one run at a time, but with crashes, stale caches, lost replies and cancel
    triggers at any point, the deletes of the backup driver do not meet a copy. */
module UploadLease {
  import opened Common
  import opened Json
  import opened UploadResource
  import opened UploadProtocol

  // ---------------------------------------------------------------------------------------------
  // After a terminal phase: no copy in flight, none to come
  // ---------------------------------------------------------------------------------------------

  /** Nothing of this run leads to a copy. */
  predicate Quiet(run: Run)
  {
    run.Getting? || (run.Patching? && Terminal(run.to)) || (run.Deleting? && run.why == Leftover)
  }

  predicate RunOk(s: State, run: Run)
  {
    && (run.Patching? ==> Writable(run.to) && run.to != Canceling && (run.proceed <==> run.to == InProgress))
    && (!run.Getting? && !(run.Patching? && !Terminal(run.to)) ==> Parses(run.req))
    && (!run.Getting? && s.server.Some? ==> run.req.spec.snapshotID == s.server.value.spec.snapshotID)
  }

  predicate Settled(u: Upload)
  {
    Parses(u) && (Terminal(u.status.phase) || u.status.phase == Canceling)
  }

  ghost predicate LeaseInv(s: State)
  {
    && (forall n, m :: n in s.runs && m in s.runs ==> n == m)
    && (forall n :: n in s.runs ==> RunOk(s, s.runs[n]))
    && (forall v :: v in s.views && Terminal(v.status.phase) ==> s.hist.everTerminal)
    && (s.server.Some? && Terminal(s.server.value.status.phase) ==> s.hist.everTerminal)
    && (s.server.None? ==> s.hist.everTerminal)
    && (s.hist.everTerminal && s.server.Some? ==> Settled(s.server.value))
    && (s.hist.everTerminal ==> forall n :: n in s.runs ==> Quiet(s.runs[n]))
  }

  lemma LeaseInvRefused(s: State, n: Node, e: Event)
    requires LeaseInv(s) && n in s.runs && RunEnabled(s, s.runs[n], e) && e.PatchAttempt? && !Reaches(s, e.d)
    ensures LeaseInv(DoRun(s, n, e))
  {}

  lemma LeaseInvReplyLost(s: State, n: Node, e: Event)
    requires LeaseInv(s) && n in s.runs && RunEnabled(s, s.runs[n], e) && e.PatchAttempt?
    requires Reaches(s, e.d) && e.d == ReplyLost
    ensures LeaseInv(DoRun(s, n, e))
  {}

  lemma LeaseInvAccepted(s: State, n: Node, e: Event)
    requires LeaseInv(s) && n in s.runs && RunEnabled(s, s.runs[n], e) && e.PatchAttempt?
    requires Reaches(s, e.d) && e.d == Accepted
    ensures LeaseInv(DoRun(s, n, e))
  {}

  lemma LeaseInvPatch(s: State, n: Node, e: Event)
    requires LeaseInv(s) && n in s.runs && RunEnabled(s, s.runs[n], e) && e.PatchAttempt?
    ensures LeaseInv(DoRun(s, n, e))
  {
    if !Reaches(s, e.d) {
      LeaseInvRefused(s, n, e);
    } else if e.d == ReplyLost {
      LeaseInvReplyLost(s, n, e);
    } else {
      LeaseInvAccepted(s, n, e);
    }
  }

  lemma LeaseInvGet(s: State, n: Node)
    requires LeaseInv(s) && n in s.runs && RunEnabled(s, s.runs[n], GetOk)
    ensures LeaseInv(DoRun(s, n, GetOk))
  {}

  lemma LeaseInvRun(s: State, n: Node, e: Event)
    requires LeaseInv(s) && n in s.runs && RunEnabled(s, s.runs[n], e) && !e.PatchAttempt?
    ensures LeaseInv(DoRun(s, n, e))
  {
    if e.GetOk? { LeaseInvGet(s, n); }
  }

  lemma LeaseInvTrigger(s: State, id: Id, now: Time, d: Delivery)
    requires LeaseInv(s) && id in s.triggers
    ensures LeaseInv(DoTriggerPatch(s, id, now, d))
  {
  }

  lemma LeaseInvDelete(s: State, id: Id, now: Time, d: Delivery)
    requires LeaseInv(s) && id in s.deletes
    ensures LeaseInv(DoDeletePatch(s, id, now, d))
  {
  }

  lemma LeaseInvStep(s: State, a: Action)
    requires LeaseInv(s) && Enabled(s, a) && OneRun(s, a)
    ensures LeaseInv(Do(s, a))
  {
    match a
    case OfRun(n, e) => if e.PatchAttempt? { LeaseInvPatch(s, n, e); } else { LeaseInvRun(s, n, e); }
    case TriggerPatch(id, now, d) => LeaseInvTrigger(s, id, now, d);
    case DeletePatch(id, now, d) => LeaseInvDelete(s, id, now, d);
    case _ =>
  }

  lemma {:induction false} LeaseInvReached(states: seq<State>, acts: seq<Action>, i: nat)
    requires Execution(states, acts) && LeaseHolds(states, acts) && i < |states|
    ensures LeaseInv(states[i])
  {
    if i == 0 {
    } else {
      LeaseInvReached(states, acts, i - 1);
      assert OneRun(states[i - 1], acts[i - 1]);
      LeaseInvStep(states[i - 1], acts[i - 1]);
    }
  }

  lemma SettledStep(s: State, a: Action)
    requires LeaseInv(s) && Enabled(s, a) && s.hist.everTerminal
    ensures Do(s, a).hist.everTerminal && Do(s, a).hist.copies == s.hist.copies
  {
  }

  lemma {:induction false} SettledForGood(states: seq<State>, acts: seq<Action>, i: nat, j: nat)
    requires Execution(states, acts) && LeaseHolds(states, acts) && i <= j < |states| && states[i].hist.everTerminal
    ensures states[j].hist.everTerminal && states[j].hist.copies == states[i].hist.copies
    decreases j
  {
    if i == j {
    } else {
      SettledForGood(states, acts, i, j - 1);
      LeaseInvReached(states, acts, j - 1);
      SettledStep(states[j - 1], acts[j - 1]);
    }
  }

  predicate CopyPossible(run: Run) { run.ReadyToCopy? || run.Copying? }

  /** Once the stored phase has been one that isTerminalState accepts, no copy of this upload is in flight
      and none ever starts again. */
  lemma NoCopyAfterTerminal(states: seq<State>, acts: seq<Action>, i: nat, j: nat)
    requires Execution(states, acts) && LeaseHolds(states, acts) && i <= j < |states| && states[i].hist.everTerminal
    ensures forall n :: n in states[j].runs ==> !CopyPossible(states[j].runs[n])
    ensures states[j].hist.copies == states[i].hist.copies
  {
    SettledForGood(states, acts, i, j);
    LeaseInvReached(states, acts, j);
  }

  // ---------------------------------------------------------------------------------------------
  // deleteSnapshot against copies
  // ---------------------------------------------------------------------------------------------

  /** No copy is in flight in state i, nor in any later state. */
  ghost predicate FreeOfCopiesFrom(states: seq<State>, i: nat)
    requires i < |states|
  {
    forall j, n :: i <= j < |states| && n in states[j].runs ==> !states[j].runs[n].Copying?
  }

  /** In every execution under the lease, a delete that goes ahead at any state is free of copies from then on. */
  ghost predicate DeleteIsSafe(answered: bool)
  {
    forall states: seq<State>, acts: seq<Action>, i: nat ::
      Execution(states, acts) && LeaseHolds(states, acts) && i < |states| && DeleteProceeds(states[i], answered) ==>
        FreeOfCopiesFrom(states, i)
  }

  /** deleteSnapshot never pulls a snapshot from under a copy exactly if its read of the Upload was answered:
      a failed read counts as terminal too, and then a copy may be running. */
  lemma DeleteIsSafeIffAnswered(answered: bool)
    ensures DeleteIsSafe(answered) <==> answered
  {
    if answered {
      forall states: seq<State>, acts: seq<Action>, i: nat
        | Execution(states, acts) && LeaseHolds(states, acts) && i < |states| && DeleteProceeds(states[i], true)
        ensures FreeOfCopiesFrom(states, i)
      {
        LeaseInvReached(states, acts, i);
        forall j, n | i <= j < |states| && n in states[j].runs ensures !states[j].runs[n].Copying? {
          NoCopyAfterTerminal(states, acts, i, j);
          assert !CopyPossible(states[j].runs[n]);
        }
      }
    } else {
      var states, acts := UnansweredDelete();
      assert !FreeOfCopiesFrom(states, |acts|);
    }
  }

  function Example(): (u: Upload)
    ensures Created(u) && Parses(u)
  {
    Upload(Spec("ivd:volume:snapshot", false, "", "ns/snap"), Status(New, "", None, None, "", 0, Some(0), 0))
  }

  // ---------------------------------------------------------------------------------------------
  // A run reaches its copy whenever the stored phase lets it
  // ---------------------------------------------------------------------------------------------

  /** The stored phase neither ends a run at its first read nor asks for a clean-up. */
  predicate Resumable(u: Upload) { !Skipped(u.status.phase) && u.status.phase != CleanupFailed }

  /** No run is active, and a cached value starts one. */
  predicate Idle(s: State, view: Upload)
  {
    && s.runs == map[] && s.server.Some? && Resumable(s.server.value) && Parses(s.server.value)
    && view in s.views && Startable(view.status.phase) && !view.spec.uploadCancel
  }

  /** The only run is about to copy what is stored. */
  predicate AtCopy(s: State, n: Node, view: Upload)
  {
    && s.server.Some? && s.runs == map[n := ReadyToCopy(s.server.value)] && view in s.views
    && Parses(s.server.value) && s.server.value.status.phase == InProgress
  }

  lemma PatchOfStored(a: Upload, b: Upload)
    ensures Patched(a, b, a) == b
  {}

  lemma MarksInProgress(s: State, n: Node, view: Upload)
    requires s.server.Some? && Parses(s.server.value) && view in s.views
    requires s.runs == map[n := Patching(s.server.value, InProgress, true)]
    ensures var a := OfRun(n, PatchAttempt(0, "", Accepted));
            && Enabled(s, a) && AtCopy(Do(s, a), n, view)
            && Do(s, a).cancels == s.cancels && Do(s, a).hist == s.hist
  {
    var u, u' := s.server.value, Mutated(s.server.value, InProgress, 0, n, "");
    PatchOfStored(u, u');
    var r := DoRun(s, n, PatchAttempt(0, "", Accepted));
    assert r.server == Some(u') && r.runs == map[n := ReadyToCopy(u')];
  }

  lemma ReachesCopy(states: seq<State>, acts: seq<Action>, max: Int32, n: Node, view: Upload)
    returns (states': seq<State>, acts': seq<Action>)
    requires Orderly(states, acts, max) && Idle(states[|acts|], view)
    ensures Orderly(states', acts', max) && states <= states' && acts <= acts'
    ensures forall i :: |acts| <= i < |acts'| ==> !acts'[i].Crash?
    ensures AtCopy(states'[|acts'|], n, view)
    ensures states'[|acts'|].hist == states[|acts|].hist && states'[|acts'|].cancels == states[|acts|].cancels
  {
    var s, u := states[|acts|], states[|acts|].server.value;
    states', acts' := OrderlyExtended(states, acts, StartRun(n, view), max);
    assert states'[|acts'|] == s.(runs := map[n := Getting]);
    states', acts' := OrderlyExtended(states', acts', OfRun(n, GetOk), max);
    var got := states'[|acts'|];
    assert got.server == s.server && got.hist == s.hist && got.cancels == s.cancels && view in got.views;
    if u.status.phase == InProgress {
      assert got.runs == map[n := ReadyToCopy(u)];
    } else {
      assert got.runs == map[n := Patching(u, InProgress, true)];
      MarksInProgress(got, n, view);
      states', acts' := OrderlyExtended(states', acts', OfRun(n, PatchAttempt(0, "", Accepted)), max);
    }
  }

  /** A run reaches its copy; a delete whose read failed goes ahead then. */
  lemma UnansweredDelete() returns (states: seq<State>, acts: seq<Action>)
    ensures Execution(states, acts) && LeaseHolds(states, acts)
    ensures DeleteProceeds(states[|acts|], false)
    ensures "node" in states[|acts|].runs && states[|acts|].runs["node"].Copying?
  {
    var u := Example();
    assert Idle(Fresh(u), u);
    states, acts := ReachesCopy([Fresh(u)], [], 0, "node", u);
    states, acts := OrderlyExtended(states, acts, OfRun("node", CopyRegister(Token("node", 0))), 0);
  }
}
