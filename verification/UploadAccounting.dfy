/** Retry accounting of uploads, with one run at a time and status patches accepted at the first attempt. */
module UploadAccounting {
  import opened Common
  import opened UploadResource
  import opened UploadProtocol
  import opened UploadLease

  // ---------------------------------------------------------------------------------------------
  // RetryCount counts the failure writes, CurrentBackOff follows it
  // ---------------------------------------------------------------------------------------------

  predicate Counted(u: Upload, writes: nat)
  {
    && u.status.retryCount == Wrap32(writes)
    && (writes > 0 ==> u.status.backOff == BackOff(u.status.retryCount))
    && (u.status.phase == New ==> writes == 0)
  }

  /** The copy of a run agrees with the server on what is counted, and shows no terminal phase of its own. */
  predicate Current(s: State, run: Run)
  {
    run.Getting? || s.server.None? ||
    (&& run.req.status.retryCount == s.server.value.status.retryCount
     && run.req.status.backOff == s.server.value.status.backOff
     && (run.req.status.phase == New ==> s.hist.failureWrites == 0)
     && (s.server.value.status.phase == New ==> run.req.status.phase == New)
     && (Terminal(run.req.status.phase) ==> s.hist.everTerminal))
  }

  ghost predicate AccountInv(s: State)
  {
    && (s.server.Some? ==> Counted(s.server.value, s.hist.failureWrites))
    && (forall n :: n in s.runs ==> Current(s, s.runs[n]))
  }

  /** The failure write adds one to both counts. */
  lemma FailureWriteCounts(run: Run, n: Node, now: Time, msg: string, stored: Upload, writes: nat)
    requires run.Patching? && (run.to == UploadError || run.to == CleanupFailed) && Counted(stored, writes)
    requires run.req.status.retryCount == stored.status.retryCount && run.req.status.backOff == stored.status.backOff
    ensures PatchWrites(run, n, now, msg, stored).status.retryCount == Wrap32(writes + 1)
    ensures PatchWrites(run, n, now, msg, stored).status.backOff == BackOff(Wrap32(writes + 1))
    ensures PatchWrites(run, n, now, msg, stored).status.phase == New ==> stored.status.phase == New
    ensures run.req.status.phase != run.to ==> PatchWrites(run, n, now, msg, stored).status.phase == run.to
  {
    Wrap32Step(writes);
  }

  lemma OtherWriteKeepsCount(run: Run, n: Node, now: Time, msg: string, stored: Upload, writes: nat)
    requires run.Patching? && Writable(run.to) && run.to != UploadError && run.to != CleanupFailed
    requires Counted(stored, writes)
    requires run.req.status.retryCount == stored.status.retryCount && run.req.status.backOff == stored.status.backOff
    requires run.req.status.phase == New ==> writes == 0
    ensures Counted(PatchWrites(run, n, now, msg, stored), writes)
  {
    assert writes == 0 ==> stored.status.retryCount == 0;
  }

  lemma AccountInvFailure(s: State, n: Node, e: Event)
    requires LeaseInv(s) && AccountInv(s) && n in s.runs && RunEnabled(s, s.runs[n], e)
    requires e.PatchAttempt? && e.d == Accepted && s.server.Some?
    requires s.runs[n].to == UploadError || s.runs[n].to == CleanupFailed
    ensures AccountInv(DoRun(s, n, e))
  {
    assert RunOk(s, s.runs[n]) && Current(s, s.runs[n]);
    FailureWriteCounts(s.runs[n], n, e.now, e.msg, s.server.value, s.hist.failureWrites);
    var r := DoRun(s, n, e);
    assert r.runs == s.runs - {n} && r.hist.failureWrites == s.hist.failureWrites + 1;
  }

  lemma AccountInvOtherWrite(s: State, n: Node, e: Event)
    requires LeaseInv(s) && AccountInv(s) && n in s.runs && RunEnabled(s, s.runs[n], e)
    requires e.PatchAttempt? && e.d == Accepted && s.server.Some?
    requires s.runs[n].to != UploadError && s.runs[n].to != CleanupFailed
    ensures AccountInv(DoRun(s, n, e))
  {
    assert RunOk(s, s.runs[n]) && Current(s, s.runs[n]);
    OtherWriteKeepsCount(s.runs[n], n, e.now, e.msg, s.server.value, s.hist.failureWrites);
    var r := DoRun(s, n, e);
    assert r.hist.failureWrites == s.hist.failureWrites;
    assert forall m :: m in r.runs ==> m == n && r.runs[n] == Proceed(r.server.value);
  }

  lemma AccountInvPatch(s: State, n: Node, e: Event)
    requires LeaseInv(s) && AccountInv(s) && n in s.runs && RunEnabled(s, s.runs[n], e)
    requires e.PatchAttempt? && e.d == Accepted
    ensures AccountInv(DoRun(s, n, e))
  {
    if s.server.Some? {
      if s.runs[n].to == UploadError || s.runs[n].to == CleanupFailed {
        AccountInvFailure(s, n, e);
      } else {
        AccountInvOtherWrite(s, n, e);
      }
    }
  }

  lemma AccountInvRun(s: State, n: Node, e: Event)
    requires LeaseInv(s) && AccountInv(s) && n in s.runs && RunEnabled(s, s.runs[n], e) && !e.PatchAttempt?
    ensures AccountInv(DoRun(s, n, e))
  {
  }

  lemma AccountInvTrigger(s: State, id: Id, now: Time, d: Delivery)
    requires LeaseInv(s) && AccountInv(s) && id in s.triggers
    ensures AccountInv(DoTriggerPatch(s, id, now, d))
  {
  }

  lemma AccountInvDelete(s: State, id: Id, now: Time, d: Delivery)
    requires LeaseInv(s) && AccountInv(s) && id in s.deletes
    ensures AccountInv(DoDeletePatch(s, id, now, d))
  {
  }

  lemma AccountInvStep(s: State, a: Action)
    requires LeaseInv(s) && AccountInv(s) && Enabled(s, a) && OneRun(s, a) && PatchesOnce(s, a)
    ensures AccountInv(Do(s, a))
  {
    match a
    case OfRun(n, e) => if e.PatchAttempt? { AccountInvPatch(s, n, e); } else { AccountInvRun(s, n, e); }
    case TriggerPatch(id, now, d) => AccountInvTrigger(s, id, now, d);
    case DeletePatch(id, now, d) => AccountInvDelete(s, id, now, d);
    case _ =>
  }

  lemma {:induction false} AccountInvReached(states: seq<State>, acts: seq<Action>, i: nat)
    requires Execution(states, acts) && LeaseHolds(states, acts) && FirstAttemptAccepted(states, acts) && i < |states|
    ensures AccountInv(states[i])
  {
    if i == 0 {
    } else {
      AccountInvReached(states, acts, i - 1);
      LeaseInvReached(states, acts, i - 1);
      assert OneRun(states[i - 1], acts[i - 1]) && PatchesOnce(states[i - 1], acts[i - 1]);
      AccountInvStep(states[i - 1], acts[i - 1]);
    }
  }

  lemma BackOffIsCapped(retry: Int32)
    requires retry > 0
    ensures BackOff(retry) == Min(Pow2(retry - 1), 60)
  {
    assert Wrap32(retry - 1) == retry - 1;
  }

  /** The stored RetryCount is the number of UploadError and CleanupFailed writes as an int32, and while it is
      positive the stored back-off is 2^(RetryCount-1) minutes, at most 60. */
  lemma RetryAccounting(states: seq<State>, acts: seq<Action>, i: nat)
    requires Execution(states, acts) && LeaseHolds(states, acts) && FirstAttemptAccepted(states, acts) && i < |states|
    requires states[i].server.Some?
    ensures var st := states[i].server.value.status;
            && st.retryCount == Wrap32(states[i].hist.failureWrites)
            && (st.retryCount > 0 ==> st.backOff == Min(Pow2(st.retryCount - 1), 60))
  {
    AccountInvReached(states, acts, i);
    var u, writes := states[i].server.value, states[i].hist.failureWrites;
    assert Counted(u, writes);
    if u.status.retryCount > 0 {
      assert writes != 0;
      BackOffIsCapped(u.status.retryCount);
    }
  }
}
