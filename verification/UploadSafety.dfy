/** What holds in every interleaving of the Upload protocol: overlapping runs, stale caches, lost
    replies and crashes included. */
module UploadSafety {
  import opened Common
  import opened UploadResource
  import opened UploadProtocol

  // ---------------------------------------------------------------------------------------------
  // The local snapshot is deleted only after a copy succeeded or the retry budget ran out
  // ---------------------------------------------------------------------------------------------

  predicate Justified(s: State) { s.hist.copied || s.hist.exhausted }

  predicate NeedsReason(run: Run)
  {
    && !run.Getting?
    && (|| run.req.status.phase == CleanupFailed || run.Deleting? || run.CopyDone?
        || (run.Patching? && run.to == CleanupFailed))
  }

  ghost predicate CleanupInv(s: State)
  {
    && (s.server.Some? && s.server.value.status.phase == CleanupFailed ==> Justified(s))
    && forall n :: n in s.runs && NeedsReason(s.runs[n]) ==> Justified(s)
  }

  /** One step of a run: what it needs a reason for next, it had a reason for already or just got. */
  lemma CleanupInvRun(s: State, n: Node, e: Event)
    requires CleanupInv(s) && n in s.runs && RunEnabled(s, s.runs[n], e)
    ensures CleanupInv(DoRun(s, n, e))
  {
  }

  lemma CleanupInvStep(s: State, a: Action)
    requires CleanupInv(s) && Enabled(s, a)
    ensures CleanupInv(Do(s, a))
  {
    if a.OfRun? { CleanupInvRun(s, a.n, a.e); }
  }

  lemma {:induction false} CleanupInvReached(states: seq<State>, acts: seq<Action>, i: nat)
    requires Execution(states, acts) && i < |states|
    ensures CleanupInv(states[i])
  {
    if i == 0 {
    } else {
      CleanupInvReached(states, acts, i - 1);
      CleanupInvStep(states[i - 1], acts[i - 1]);
    }
  }

  /** Whenever the controller deletes the local snapshot, a copy has reached the repository or a run has
      seen the retry count at its maximum; a stored CleanupFailed carries the same guarantee to later runs. */
  lemma LocalSnapshotSafety(states: seq<State>, acts: seq<Action>, i: nat)
    requires Execution(states, acts) && i < |acts|
    ensures acts[i].OfRun? && acts[i].e.DeleteLocal? ==> Justified(states[i])
    ensures states[i].server.Some? && states[i].server.value.status.phase == CleanupFailed ==> Justified(states[i])
  {
    CleanupInvReached(states, acts, i);
  }

  // ---------------------------------------------------------------------------------------------
  // Cancel requests are never lost
  // ---------------------------------------------------------------------------------------------

  /** What no writer may do to the stored object. */
  predicate Kept(before: Upload, after: Upload)
  {
    && (before.spec.uploadCancel ==> after.spec.uploadCancel)
    && after.spec.snapshotID == before.spec.snapshotID
    && after.spec.snapshotReference == before.spec.snapshotReference
    && after.spec.backupRepository == before.spec.backupRepository
    && (before.status.completion.Some? ==> after.status.completion.Some?)
    && (after.status.phase != New || before.status.phase == New)
  }

  lemma KeptByRun(s: State, n: Node, e: Event)
    requires n in s.runs && RunEnabled(s, s.runs[n], e) && s.server.Some?
    ensures DoRun(s, n, e).server.Some? && Kept(s.server.value, DoRun(s, n, e).server.value)
    ensures DoRun(s, n, e).server.value.spec == s.server.value.spec
  {
  }

  lemma KeptByTrigger(s: State, id: Id, now: Time, d: Delivery)
    requires id in s.triggers && s.server.Some?
    ensures var r := DoTriggerPatch(s, id, now, d);
            r.server.Some? && Kept(s.server.value, r.server.value)
  {
  }

  /** A delete request adds the cancel flag and touches neither the phase nor the retry accounting. */
  lemma KeptByDelete(s: State, id: Id, now: Time, d: Delivery)
    requires id in s.deletes && s.server.Some?
    ensures DoDeletePatch(s, id, now, d).server.Some?
    ensures var before, after := s.server.value, DoDeletePatch(s, id, now, d).server.value;
            && Kept(before, after)
            && after.status.phase == before.status.phase && after.status.retryCount == before.status.retryCount
            && after.status.backOff == before.status.backOff && after.status.nextRetry == before.status.nextRetry
            && (Reaches(s, d) && !s.deletes[id].spec.uploadCancel ==> after.spec.uploadCancel)
  {
    CancelRequestKeepsProgress(s.deletes[id], now, s.server.value);
  }

  lemma KeptByStep(s: State, a: Action)
    requires Enabled(s, a) && s.server.Some? && !a.RemoveResource?
    ensures Do(s, a).server.Some? && Kept(s.server.value, Do(s, a).server.value)
  {
    match a
    case OfRun(n, e) => KeptByRun(s, n, e);
    case TriggerPatch(id, now, d) => KeptByTrigger(s, id, now, d);
    case DeletePatch(id, now, d) => KeptByDelete(s, id, now, d);
    case _ =>
  }

  lemma GoneStaysGone(s: State, a: Action)
    requires Enabled(s, a) && s.server.None?
    ensures Do(s, a).server.None?
  {
  }

  lemma KeptTransitive(a: Upload, b: Upload, c: Upload)
    requires Kept(a, b) && Kept(b, c)
    ensures Kept(a, c)
  {
  }

  lemma KeptAt(states: seq<State>, acts: seq<Action>, i: nat)
    requires Execution(states, acts) && i < |acts| && states[i + 1].server.Some?
    ensures states[i].server.Some? && Kept(states[i].server.value, states[i + 1].server.value)
  {
    if states[i].server.None? { GoneStaysGone(states[i], acts[i]); } else { KeptByStep(states[i], acts[i]); }
  }

  /** Over any interleaving of status patches, cancel triggers and delete requests the stored cancel request
      is never withdrawn, the snapshot meant never changes, a completion time stays, and New never returns. */
  lemma {:induction false} NoLostUpdates(states: seq<State>, acts: seq<Action>, i: nat, j: nat)
    requires Execution(states, acts) && i <= j < |states| && states[j].server.Some?
    ensures states[i].server.Some? && Kept(states[i].server.value, states[j].server.value)
    decreases j
  {
    if i == j {
    } else {
      KeptAt(states, acts, j - 1);
      NoLostUpdates(states, acts, i, j - 1);
      KeptTransitive(states[i].server.value, states[j - 1].server.value, states[j].server.value);
    }
  }

  // ---------------------------------------------------------------------------------------------
  // The cancel map agrees with the running copies
  // ---------------------------------------------------------------------------------------------

  predicate Owned(c: Cancels, n: Node, token: Token)
  {
    token in c.issued && ((n in c.entry && c.entry[n] == token) || token in c.cancelled)
  }

  /** A registered copy owns its node's entry or is already cancelled; no other node can reach it. */
  ghost predicate CancelInv(s: State)
  {
    && (forall n :: n in s.runs && s.runs[n].Copying? ==>
          Owned(s.cancels, n, s.runs[n].token) && s.runs[n].token.node == n)
    && (forall n :: n in s.cancels.entry ==> s.cancels.entry[n] in s.cancels.issued && s.cancels.entry[n].node == n)
    && s.cancels.cancelled <= s.cancels.issued
  }

  lemma CancelInvRun(s: State, n: Node, e: Event)
    requires CancelInv(s) && n in s.runs && RunEnabled(s, s.runs[n], e) && OwnToken(n, e)
    ensures CancelInv(DoRun(s, n, e))
  {
    var r := DoRun(s, n, e);
    if !e.CopyRegister? {
      assert r.cancels.cancelled == s.cancels.cancelled && r.cancels.issued == s.cancels.issued;
      assert forall m :: m in r.runs && r.runs[m].Copying? ==> m != n && m in s.runs && r.runs[m] == s.runs[m];
    }
  }

  lemma CancelInvOther(s: State, a: Action)
    requires CancelInv(s) && Enabled(s, a) && (a.StartRun? || a.Crash? || a.TriggerCancel?)
    ensures CancelInv(Do(s, a))
  {
  }

  lemma RunsUntouched(s: State, a: Action)
    requires Enabled(s, a) && !a.OfRun? && !a.StartRun? && !a.Crash? && !a.TriggerCancel?
    ensures Do(s, a).runs == s.runs && Do(s, a).cancels == s.cancels
  {
  }

  lemma CancelInvStep(s: State, a: Action, r: State)
    requires CancelInv(s) && Enabled(s, a) && r == Do(s, a)
    ensures CancelInv(r)
  {
    if a.OfRun? {
      CancelInvRun(s, a.n, a.e);
    } else if a.StartRun? || a.Crash? || a.TriggerCancel? {
      CancelInvOther(s, a);
    } else {
      RunsUntouched(s, a);
    }
  }

  lemma {:induction false} CancelInvReached(states: seq<State>, acts: seq<Action>, i: nat)
    requires Execution(states, acts) && i < |states|
    ensures CancelInv(states[i])
  {
    if i == 0 {
    } else {
      CancelInvReached(states, acts, i - 1);
      CancelInvStep(states[i - 1], acts[i - 1], states[i]);
    }
  }

  /** A CancelUpload on a node with a registered copy leaves that copy cancelled, whatever entries failed
      copies left behind, and cancels no copy of another node. */
  lemma CancelReachesTheCopy(states: seq<State>, acts: seq<Action>, i: nat)
    requires Execution(states, acts) && i < |acts| && acts[i].TriggerCancel?
    ensures var n := states[i].triggers[acts[i].id].node;
            && (n in states[i].runs && states[i].runs[n].Copying? ==>
                  states[i].runs[n].token in states[i + 1].cancels.cancelled)
            && (forall m :: m in states[i].runs && m != n && states[i].runs[m].Copying? ==>
                  var token := states[i].runs[m].token;
                  token in states[i + 1].cancels.cancelled <==> token in states[i].cancels.cancelled)
  {
    CancelInvReached(states, acts, i);
  }

  // ---------------------------------------------------------------------------------------------
  // All copies of the resource name the same snapshot
  // ---------------------------------------------------------------------------------------------

  /** Everything that can be read, patched or copied names the snapshot `id`. */
  ghost predicate NamesOnly(s: State, id: string)
  {
    && (s.server.Some? ==> s.server.value.spec.snapshotID == id)
    && (forall v :: v in s.views ==> v.spec.snapshotID == id)
    && (forall n :: n in s.runs && !s.runs[n].Getting? ==> s.runs[n].req.spec.snapshotID == id)
    && (forall t :: t in s.triggers ==> s.triggers[t].req.spec.snapshotID == id)
  }

  lemma NamesOnlyRun(s: State, n: Node, e: Event, id: string)
    requires NamesOnly(s, id) && n in s.runs && RunEnabled(s, s.runs[n], e)
    ensures NamesOnly(DoRun(s, n, e), id)
  {}

  lemma NamesOnlyOther(s: State, a: Action, id: string)
    requires NamesOnly(s, id) && Enabled(s, a) && !a.OfRun?
    ensures NamesOnly(Do(s, a), id)
  {}

  lemma NamesOnlyStep(s: State, a: Action, id: string)
    requires NamesOnly(s, id) && Enabled(s, a)
    ensures NamesOnly(Do(s, a), id)
  {
    if a.OfRun? { NamesOnlyRun(s, a.n, a.e, id); } else { NamesOnlyOther(s, a, id); }
  }

  /** The entity an upload copies never changes, so its cancel map entries are all under one key. */
  lemma {:induction false} OneSnapshotId(states: seq<State>, acts: seq<Action>, i: nat)
    requires Execution(states, acts) && i < |states|
    ensures NamesOnly(states[i], states[0].server.value.spec.snapshotID)
  {
    if i == 0 {
    } else {
      OneSnapshotId(states, acts, i - 1);
      NamesOnlyStep(states[i - 1], acts[i - 1], states[0].server.value.spec.snapshotID);
    }
  }

  // ---------------------------------------------------------------------------------------------
  // A completed upload carries the time the clean-up window is counted from
  // ---------------------------------------------------------------------------------------------

  predicate Stamped(u: Upload) { u.status.phase == Completed ==> u.status.completion.Some? }

  /** The copy of a run shows a completion time only if the server has one, until its own mutation. */
  predicate StampedCopy(s: State, run: Run)
  {
    run.Getting? || s.server.None? || (run.Patching? && run.req.status.phase == run.to)
    || (run.req.status.completion.Some? ==> s.server.value.status.completion.Some?)
  }

  ghost predicate StampInv(s: State)
  {
    && (s.server.Some? ==> Stamped(s.server.value))
    && (forall v :: v in s.views ==> Stamped(v))
    && (forall n :: n in s.runs ==> StampedCopy(s, s.runs[n]))
  }

  lemma StampInvRun(s: State, n: Node, e: Event)
    requires StampInv(s) && n in s.runs && RunEnabled(s, s.runs[n], e)
    ensures StampInv(DoRun(s, n, e))
  {
    if s.server.Some? { KeptByRun(s, n, e); }
  }

  lemma StampInvStep(s: State, a: Action)
    requires StampInv(s) && Enabled(s, a)
    ensures StampInv(Do(s, a))
  {
    if a.OfRun? { StampInvRun(s, a.n, a.e); }
  }

  /** Every cached upload in phase Completed has its completion time, so the handler that dereferences it
      for the clean-up window never meets nil. */
  lemma {:induction false} CompletedIsStamped(states: seq<State>, acts: seq<Action>, i: nat)
    requires Execution(states, acts) && i < |states|
    ensures StampInv(states[i])
    ensures forall v :: v in states[i].views && v.status.phase == Completed ==> v.status.completion.Some?
  {
    if i == 0 {
    } else {
      CompletedIsStamped(states, acts, i - 1);
      StampInvStep(states[i - 1], acts[i - 1]);
    }
    forall v | v in states[i].views && v.status.phase == Completed ensures v.status.completion.Some? {
      assert Stamped(v);
    }
  }
}
