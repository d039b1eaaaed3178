/** The upload controller's code on one node, call by call, against the protocol it takes part in: whatever the other
    nodes, the informers, the backup driver and the copies of other entities do between two of its calls, every
    behaviour of the code is an execution of the protocol, and so inherits what is proved of all executions. */
module UploadController {
  import opened Common
  import opened Json
  import opened UploadResource
  import opened StatusPatch
  import opened UploadProtocol
  import opened UploadSafety
  import opened UploadLease
  import opened UploadCauses
  import D = DataMover

  /** Whose next step it is; everything else may move in between. */
  datatype Actor = TheRun(n: Node) | TheTrigger(id: Id, n: Node) | TheDelete(id: Id)

  /** A step that the actor's own control flow does not take. */
  predicate Foreign(a: Action, who: Actor)
  {
    match a
    case StartRun(n, _) => who != TheRun(n)
    case OfRun(n, _) => who != TheRun(n)
    case Crash(n) => who.TheDelete? || n != who.n
    case TriggerPatch(id, _, _) => !who.TheTrigger? || id != who.id
    case TriggerCancel(id) => !who.TheTrigger? || id != who.id
    case TriggerGivesUp(id) => !who.TheTrigger? || id != who.id
    case DeletePatch(id, _, _) => !who.TheDelete? || id != who.id
    case _ => true
  }

  lemma ForeignKeepsRun(s: State, a: Action, n: Node)
    requires Enabled(s, a) && Foreign(a, TheRun(n))
    ensures n in Do(s, a).runs <==> n in s.runs
    ensures n in s.runs ==> Do(s, a).runs[n] == s.runs[n]
  {}

  lemma ForeignKeepsTrigger(s: State, a: Action, id: Id, n: Node)
    requires Enabled(s, a) && Foreign(a, TheTrigger(id, n)) && id in s.triggers && s.triggers[id].node == n
    ensures id in Do(s, a).triggers && Do(s, a).triggers[id] == s.triggers[id]
  {}

  lemma ForeignKeepsDelete(s: State, a: Action, id: Id)
    requires Enabled(s, a) && Foreign(a, TheDelete(id)) && id in s.deletes
    ensures id in Do(s, a).deletes && Do(s, a).deletes[id] == s.deletes[id]
  {}

  /** What no step takes back. */
  predicate Grown(before: State, after: State)
  {
    && before.views <= after.views
    && MoreCauses(before.hist, before.cancels, after.hist, after.cancels)
  }

  lemma StepGrows(s: State, a: Action)
    requires Enabled(s, a)
    ensures Grown(s, Do(s, a))
  {}

  datatype CopyOutcome = Copied | WasCanceled | CopyError(max: Int32)

  datatype CopyAnswer = Succeeds | Stops | Breaks

  /** What the calls of one run answer: the reads, the copy (stopped by its context, if that was cancelled, or broken
      off), the retry maximum read after a failure, and the delete of the local snapshot. */
  datatype Answers = Answers(
    read: bool, repositoryFound: bool, entityFound: bool, copy: CopyAnswer, max: Int32, deleted: bool)

  /** How a run ended; `req` is the copy of the resource it worked on. */
  datatype Ending =
    | Unread
    | Skipping(phase: Phase)
    | Unmarked
    | BadId(req: Upload, report: Report)
    | CleanedLeftover(req: Upload, report: Report)
    | NoRepository(req: Upload)
    | Cancelled(req: Upload, report: Report)
    | Retrying(req: Upload, report: Report)
    | GaveUp(req: Upload, report: Report)
    | Uploaded(req: Upload, report: Report)

  /** A report accepted at its first attempt shows on the server, unless the copy already showed that phase. */
  predicate Shown(r: Report, req: Upload, to: Phase, s: State)
  {
    r == Reported(1) && req.status.phase != to ==> s.server.Some? && s.server.value.status.phase == to
  }

  predicate NamesRepository(req: Upload)
  {
    req.spec.backupRepository != "" && req.spec.backupRepository != "without-backup-repository"
  }

  /** The run had something to copy and a place to copy it to. */
  predicate CouldCopy(env: Answers, req: Upload)
  {
    && ':' in req.spec.snapshotID && req.status.phase != CleanupFailed
    && (NamesRepository(req) ==> env.repositoryFound)
  }

  /** The copy was called and failed without being stopped. */
  predicate CopyFailed(env: Answers, s: State) { (!env.entityFound || env.copy != Succeeds) && s.hist.failedCopies > 0 }

  /** What each ending means: which answers lead to it, which phase it records, what it returns to the queue, and what
      has happened by then. */
  predicate Ends(env: Answers, e: Ending, v: Verdict, s: State)
  {
    match e
    case Unread => v == Error
    case Skipping(p) =>
      v == NoError && env.read && (p == Canceled || p == Canceling || p == Completed || p == FailedAfterRetry)
    case Unmarked => v == Error && env.read
    case BadId(req, report) =>
      v == Error && ':' !in req.spec.snapshotID && Shown(report, req, UploadError, s)
    case CleanedLeftover(req, report) =>
      && ':' in req.spec.snapshotID && req.status.phase == CleanupFailed
      && (env.deleted ==> v == NoError && Shown(report, req, Completed, s))
      && (!env.deleted ==> v == Error && Shown(report, req, CleanupFailed, s))
      && (s.hist.copied || s.hist.exhausted)
    case NoRepository(req) => v == Error && NamesRepository(req) && !env.repositoryFound
    case Cancelled(req, report) =>
      && CouldCopy(env, req) && env.entityFound && env.copy == Stops && s.cancels.cancelled != {}
      && (v == NoError <==> report.Reported?) && Shown(report, req, Canceled, s)
    case Retrying(req, report) =>
      && CouldCopy(env, req) && CopyFailed(env, s) && req.status.retryCount < env.max
      && v == Error && Shown(report, req, UploadError, s)
    case GaveUp(req, report) =>
      && CouldCopy(env, req) && CopyFailed(env, s) && req.status.retryCount >= env.max && s.hist.exhausted
      && (env.deleted ==> v == NoError && Shown(report, req, FailedAfterRetry, s))
      && (!env.deleted ==> v == Error && Shown(report, req, CleanupFailed, s))
    case Uploaded(req, report) =>
      && CouldCopy(env, req) && env.entityFound && env.copy == Succeeds && s.hist.copied
      && (env.deleted ==> (v == NoError <==> report.Reported?) && Shown(report, req, Completed, s))
      && (!env.deleted ==> v == Error && Shown(report, req, CleanupFailed, s))
  }

  /** The step changes this node's cancel map. */
  predicate TouchesMap(s: State, a: Action, n: Node)
    requires Enabled(s, a)
  {
    match a
    case OfRun(m, e) => m == n && (e.CopyRegister? || e.Unregister?)
    case Crash(m) => m == n
    case TriggerCancel(id) => s.triggers[id].node == n
    case _ => false
  }

  /** All other steps leave alone what this node's data mover shows. */
  lemma ElsewhereKeeps(s: State, a: Action, n: Node)
    requires CancelInv(s) && Enabled(s, a) && !TouchesMap(s, a, n)
    ensures D.SameHere(n, s.cancels, Do(s, a).cancels)
  {}

  /** The cluster as the code on one node sees it through its calls, with that node's data mover and the execution so
      far. `pe` is the entity the upload copies. */
  class Cluster {
    const node: Node
    const mover: D.DataMover
    const pe: string
    var s: State
    ghost var states: seq<State>
    ghost var acts: seq<Action>

    ghost predicate Traced()
      reads this
    {
      && Execution(states, acts) && s == states[|acts|]
      && states[0].server.value.spec.snapshotID == pe && mover.node == node
    }

    /** The history is an execution, and the data mover shows the cancel map that the protocol sees. */
    ghost predicate Valid()
      reads this, mover
    {
      Traced() && mover.Valid() && mover.Shows(s.cancels, pe)
    }

    predicate At(run: Run)
      reads this
    {
      node in s.runs && s.runs[node] == run
    }

    predicate Over()
      reads this
    {
      node !in s.runs
    }

    /** This node's run is where `next` says, or over. */
    predicate Reached(next: Option<Run>)
      reads this
    {
      match next
      case Some(run) => At(run)
      case None => Over()
    }

    function Running(): (r: Option<Run>)
      reads this
      ensures Reached(r)
    {
      if node in s.runs then Some(s.runs[node]) else None
    }

    constructor (u: Upload, n: Node)
      requires Created(u)
      ensures Valid() && node == n && acts == [] && s.server == Some(u) && s.runs == map[]
    {
      node, pe := n, u.spec.snapshotID;
      mover := new D.DataMover(n);
      s := Fresh(u);
      new;
      states, acts := [s], [];
    }

    /** The protocol follows what the data mover has already done. */
    method Advance(a: Action)
      requires Traced() && mover.Valid() && Enabled(s, a) && mover.Shows(Do(s, a).cancels, pe)
      modifies this
      ensures Valid() && s == Do(old(s), a) && acts == old(acts) + [a] && states == old(states) + [s]
    {
      states, acts := Extended(states, acts, a);
      s := Do(s, a);
    }

    /** A registration on this node uses the token its data mover makes next. */
    predicate Fits(a: Action)
      reads this, mover
    {
      a.OfRun? && a.n == node && a.e.CopyRegister? ==> a.e.token == Token(node, mover.nextSerial)
    }

    /** One step of the cluster, with its effect on this node's data mover. */
    method Step(a: Action)
      requires Valid() && Enabled(s, a) && Fits(a)
      modifies this, mover
      ensures Valid() && s == Do(old(s), a) && acts == old(acts) + [a] && states == old(states) + [s]
    {
      if a.OfRun? && a.n == node && a.e.CopyRegister? {
        var _ := mover.RegisterOngoingUpload(pe);
      } else if a.OfRun? && a.n == node && a.e.Unregister? {
        mover.UnregisterOngoingUpload(pe);
      } else if a.TriggerCancel? && s.triggers[a.id].node == node {
        var _ := mover.CancelUpload(pe);
      } else if a == Crash(node) {
        mover.Restart();
      } else {
        ShownAfter(a);
      }
      Advance(a);
    }

    lemma ShownAfter(a: Action)
      requires Valid() && Enabled(s, a) && !TouchesMap(s, a, node)
      ensures mover.Shows(Do(s, a).cancels, pe)
    {
      CancelInvReached(states, acts, |acts|);
      ElsewhereKeeps(s, a, node);
      CancelInvStep(s, a, Do(s, a));
      mover.OtherNodesKeep(s.cancels, Do(s, a).cancels, pe);
    }

    /** Any number of steps of everybody but this node's run, and of copies of other entities. */
    method Others()
      requires Valid()
      modifies this, mover
      ensures Valid() && old(acts) <= acts && old(states) <= states
      ensures Reached(old(Running()))
      ensures Grown(old(s), s)
    {
      var k: nat := *;
      while k > 0
        invariant Valid() && old(acts) <= acts && old(states) <= states
        invariant Reached(old(Running()))
        invariant Grown(old(s), s)
      {
        mover.OtherEntities(pe);
        var a: Action := *;
        if Enabled(s, a) && Foreign(a, TheRun(node)) && Fits(a) {
          ForeignKeepsRun(s, a, node);
          StepGrows(s, a);
          Step(a);
        }
        k := k - 1;
      }
    }

    /** Any number of steps of everybody but this trigger. */
    method OthersThanTrigger(id: Id, t: Trigger)
      requires Valid() && id in s.triggers && s.triggers[id] == t
      modifies this, mover
      ensures Valid() && old(acts) <= acts && old(states) <= states
      ensures id in s.triggers && s.triggers[id] == t
    {
      var k: nat := *;
      while k > 0
        invariant Valid() && old(acts) <= acts && old(states) <= states
        invariant id in s.triggers && s.triggers[id] == t
      {
        mover.OtherEntities(pe);
        var a: Action := *;
        if Enabled(s, a) && Foreign(a, TheTrigger(id, t.node)) && Fits(a) {
          ForeignKeepsTrigger(s, a, id, t.node);
          Step(a);
        }
        k := k - 1;
      }
    }

    /** Any number of steps of everybody but this delete request. */
    method OthersThanDelete(id: Id)
      requires Valid() && id in s.deletes
      modifies this, mover
      ensures Valid() && old(acts) <= acts && old(states) <= states
      ensures id in s.deletes && s.deletes[id] == old(s.deletes[id])
    {
      var k: nat := *;
      while k > 0
        invariant Valid() && old(acts) <= acts && old(states) <= states
        invariant id in s.deletes && s.deletes[id] == old(s.deletes[id])
      {
        mover.OtherEntities(pe);
        var a: Action := *;
        if Enabled(s, a) && Foreign(a, TheDelete(id)) && Fits(a) {
          ForeignKeepsDelete(s, a, id);
          Step(a);
        }
        k := k - 1;
      }
    }

    /** One step of this run that does not concern the data mover. */
    method RunStep(e: Event)
      requires Valid() && node in s.runs && RunEnabled(s, s.runs[node], e) && !e.CopyRegister? && !e.Unregister?
      modifies this
      ensures Valid() && old(acts) <= acts && old(states) <= states
      ensures Reached(NextRun(old(s), node, old(s).runs[node], e))
      ensures s.server == NextServer(old(s), node, old(s).runs[node], e)
      ensures Grown(old(s), s)
    {
      StepGrows(s, OfRun(node, e));
      ShownAfter(OfRun(node, e));
      Advance(OfRun(node, e));
    }

    // -------------------------------------------------------------------------------------------
    // The calls processUpload makes
    // -------------------------------------------------------------------------------------------

    method GetUpload(answered: bool) returns (u: Option<Upload>)
      requires Valid() && At(Getting)
      modifies this, mover
      ensures Valid() && old(acts) <= acts && old(states) <= states && Grown(old(s), s)
      ensures Reached(if u.None? then None else AfterGet(u.value))
      ensures u == if answered then s.server else None
    {
      Others();
      u := if answered then s.server else None;
      RunStep(if u.None? then Fails else GetOk);
    }

    /** Poll the status patch; each attempt goes over the wire as a merge patch of the copy's change. What the first
        attempt stores shows the phase asked for, unless the copy already did. */
    method PatchUploadByStatusWithRetry(req: UploadObject, to: Phase, proceed: bool, msg: string)
      returns (updated: Option<Upload>, made: nat)
      requires Valid() && At(Patching(req.value, to, proceed)) && Writable(to)
      modifies this, mover, req
      ensures Valid() && old(acts) <= acts && old(states) <= states && Grown(old(s), s)
      ensures Reached(if updated.Some? && proceed then Some(Proceed(updated.value)) else None)
      ensures updated.Some? ==> s.server == updated && made > 0
      ensures updated.Some? && made == 1 && old(req.value.status.phase) != to ==> updated.value.status.phase == to
    {
      var budget: nat := *;
      made := 0;
      while made < budget
        invariant Valid() && old(acts) <= acts && old(states) <= states && Grown(old(s), s)
        invariant At(Patching(req.value, to, proceed))
        invariant made == 0 ==> req.value == old(req.value)
      {
        updated := PatchAttempted(req, to, proceed, msg);
        made := made + 1;
        if updated.Some? { return; }
      }
      Others();
      RunStep(Fails);
      updated := None;
    }

    /** One attempt; a lost reply counts as a failed one. */
    method PatchAttempted(req: UploadObject, to: Phase, proceed: bool, msg: string) returns (updated: Option<Upload>)
      requires Valid() && At(Patching(req.value, to, proceed)) && Writable(to)
      modifies this, mover, req
      ensures Valid() && old(acts) <= acts && old(states) <= states && Grown(old(s), s)
      ensures updated.None? ==> At(Patching(req.value, to, proceed))
      ensures updated.Some? ==> Reached(if proceed then Some(Proceed(updated.value)) else None) && s.server == updated
      ensures updated.Some? && old(req.value.status.phase) != to ==> updated.value.status.phase == to
    {
      Others();
      var now: Time, d: Delivery := *, *;
      var answer := PatchOnce(req, to, node, msg, Attempt(now, s.server, d != Refused));
      RunStep(PatchAttempt(now, msg, d));
      updated := if d == Accepted then answer else None;
    }

    method GetBackupRepository(req: Upload, found: bool)
      requires Valid() && At(ReadyToCopy(req))
      modifies this, mover
      ensures Valid() && old(acts) <= acts && old(states) <= states && Grown(old(s), s)
      ensures Reached(if found then Some(ReadyToCopy(req)) else None)
    {
      Others();
      if !found { RunStep(Fails); }
    }

    /** copyToRepo with its registration in the data mover, and the retry maximum read when the copy has failed. */
    method CopyToRepo(req: Upload, env: Answers) returns (r: CopyOutcome)
      requires Valid() && At(ReadyToCopy(req))
      modifies this, mover
      ensures Valid() && old(acts) <= acts && old(states) <= states && Grown(old(s), s)
      ensures r.Copied? <==> env.entityFound && env.copy == Succeeds
      ensures r.Copied? ==> At(CopyDone(req))
      ensures r.WasCanceled? ==> env.entityFound && env.copy == Stops && At(Patching(req, Canceled, false))
      ensures r.CopyError? ==> r.max == env.max
      ensures r.CopyError? && req.status.retryCount < env.max ==> At(Patching(req, UploadError, false))
      ensures r.CopyError? && req.status.retryCount >= env.max ==> At(Deleting(req, Exhausted))
    {
      Others();
      if !env.entityFound {
        RunStep(CopyFailsEarly(env.max));
        return CopyError(env.max);
      }
      var token := Register(req);
      r := Copy(req, token, env);
    }

    /** The copy proper; a cancellation is reported only to a copy whose cancel function was called. */
    method Copy(req: Upload, token: Token, env: Answers) returns (r: CopyOutcome)
      requires Valid() && At(Copying(req, token))
      modifies this, mover
      ensures Valid() && old(acts) <= acts && old(states) <= states && Grown(old(s), s)
      ensures r.Copied? <==> env.copy == Succeeds
      ensures r.Copied? ==> At(CopyDone(req))
      ensures r.WasCanceled? <==> env.copy == Stops && token in mover.cancelled
      ensures r.WasCanceled? ==> At(Patching(req, Canceled, false))
      ensures r.CopyError? ==> r.max == env.max
      ensures r.CopyError? && req.status.retryCount < env.max ==> At(Patching(req, UploadError, false))
      ensures r.CopyError? && req.status.retryCount >= env.max ==> At(Deleting(req, Exhausted))
    {
      Others();
      CopyHasToken(req, token);
      if env.copy == Succeeds {
        RunStep(CopySucceeds);
        return Copied;
      } else if env.copy == Stops && token in mover.cancelled {
        RunStep(CopyIsCanceled);
        return WasCanceled;
      } else {
        RunStep(CopyFails(env.max));
        return CopyError(env.max);
      }
    }

    method Register(req: Upload) returns (token: Token)
      requires Valid() && At(ReadyToCopy(req))
      modifies this, mover
      ensures Valid() && old(acts) <= acts && old(states) <= states && Grown(old(s), s)
      ensures At(Copying(req, token))
    {
      CopiesThisEntity(req);
      token := mover.RegisterOngoingUpload(req.spec.snapshotID);
      StepGrows(s, OfRun(node, CopyRegister(token)));
      Advance(OfRun(node, CopyRegister(token)));
    }

    /** What the data mover knows of a registered copy is what the protocol knows. */
    lemma CopyHasToken(req: Upload, token: Token)
      requires Valid() && At(Copying(req, token))
      ensures token in mover.cancelled <==> token in s.cancels.cancelled
    {
      CancelInvReached(states, acts, |acts|);
      assert Owned(s.cancels, node, s.runs[node].token);
    }

    lemma CopiesThisEntity(req: Upload)
      requires Valid()
      requires (node in s.runs && !s.runs[node].Getting? && s.runs[node].req == req) || req in s.views
      ensures req.spec.snapshotID == pe
    {
      OneSnapshotId(states, acts, |acts|);
    }

    method UnregisterOngoingUpload(req: Upload)
      requires Valid() && At(CopyDone(req))
      modifies this, mover
      ensures Valid() && old(acts) <= acts && old(states) <= states && Grown(old(s), s)
      ensures At(Deleting(req, AfterCopy))
    {
      Others();
      CopiesThisEntity(req);
      mover.UnregisterOngoingUpload(req.spec.snapshotID);
      StepGrows(s, OfRun(node, Unregister));
      Advance(OfRun(node, Unregister));
    }

    /** Reached only with the data in the repository or the retries used up. */
    method DeleteLocalSnapshot(req: Upload, why: Why, ok: bool)
      requires Valid() && At(Deleting(req, why))
      modifies this, mover
      ensures Valid() && old(acts) <= acts && old(states) <= states && Grown(old(s), s)
      ensures !ok ==> At(Patching(req, CleanupFailed, false))
      ensures ok && why == Exhausted ==> At(Patching(req, FailedAfterRetry, false))
      ensures ok && why != Exhausted ==> At(Patching(req, Completed, false))
      ensures match why
              case AfterCopy => s.hist.copied
              case Exhausted => s.hist.exhausted
              case Leftover => s.hist.copied || s.hist.exhausted
    {
      Others();
      CauseInvReached(states, acts, |acts|);
      assert RunCaused(s.hist, s.cancels, pe, s.runs[node]);
      RunStep(DeleteLocal(ok));
    }

    // -------------------------------------------------------------------------------------------
    // processUpload
    // -------------------------------------------------------------------------------------------

    /** Filter out finished and cancelled uploads, mark the others in progress; None when the run ends here. */
    method BeginUpload(env: Answers) returns (e: Ending, req: Option<Upload>)
      requires Valid() && At(Getting)
      modifies this, mover
      ensures Valid() && old(acts) <= acts && old(states) <= states
      ensures Reached(if req.Some? then Some(Proceed(req.value)) else None)
      ensures req.Some? ==> env.read
      ensures req.None? ==>
                || e == Unread
                || (env.read && e == Unmarked)
                || (&& env.read && e.Skipping?
                    && (|| e.phase == Canceled || e.phase == Canceling
                        || e.phase == Completed || e.phase == FailedAfterRetry))
    {
      req := GetUpload(env.read);
      if req.None? { return Unread, None; }
      var phase := req.value.status.phase;
      if phase == Canceled || phase == Canceling || phase == Completed || phase == FailedAfterRetry {
        return Skipping(phase), None;
      }
      if phase != InProgress && phase != CleanupFailed {
        var copy := new UploadObject(req.value);
        var answer, _ := PatchUploadByStatusWithRetry(copy, InProgress, true, "");
        req := answer;
      }
      e := Unmarked;
    }

    /** Every behaviour is an execution of the protocol that ends this node's run as `Ends` says. */
    method ProcessUpload(env: Answers) returns (v: Verdict, e: Ending)
      requires Valid() && At(Getting)
      modifies this, mover
      ensures Valid() && old(acts) <= acts && old(states) <= states && Over()
      ensures Ends(env, e, v, s)
    {
      var begun, answer := BeginUpload(env);
      if answer.None? {
        return (if begun.Skipping? then NoError else Error), begun;
      }
      var req := answer.value;
      if ':' !in req.spec.snapshotID {
        var report := ReportPhase(req, UploadError, "Failed to get PEID from SnapshotID");
        return Error, BadId(req, report);
      }
      if req.status.phase == CleanupFailed {
        v, e := CleanUpLeftover(req, env);
      } else {
        v, e := CopyAndCleanUp(req, env);
      }
    }

    /** An earlier run could not delete the local snapshot: try again, and record how that went. */
    method CleanUpLeftover(req: Upload, env: Answers) returns (v: Verdict, e: Ending)
      requires Valid() && At(Deleting(req, Leftover))
      requires ':' in req.spec.snapshotID && req.status.phase == CleanupFailed
      modifies this, mover
      ensures Valid() && old(acts) <= acts && old(states) <= states && Over()
      ensures Ends(env, e, v, s) && e.CleanedLeftover? && e.req == req
    {
      DeleteLocalSnapshot(req, Leftover, env.deleted);
      if !env.deleted {
        var report := ReportPhase(req, CleanupFailed, "Failed to clean up local snapshot");
        return Error, CleanedLeftover(req, report);
      }
      var report := ReportPhase(req, Completed, "Successfully deleted local snapshot");
      return NoError, CleanedLeftover(req, report);
    }

    /** processUpload from the repository lookup on. */
    method CopyAndCleanUp(req: Upload, env: Answers) returns (v: Verdict, e: Ending)
      requires Valid() && At(ReadyToCopy(req))
      requires ':' in req.spec.snapshotID && req.status.phase != CleanupFailed
      modifies this, mover
      ensures Valid() && old(acts) <= acts && old(states) <= states && Over()
      ensures Ends(env, e, v, s) && (e.NoRepository? || e.Cancelled? || e.Retrying? || e.GaveUp? || e.Uploaded?)
      ensures e.req == req
    {
      if req.spec.backupRepository != "" && req.spec.backupRepository != WITHOUT_BACKUP_REPOSITORY {
        GetBackupRepository(req, env.repositoryFound);
        if !env.repositoryFound { return Error, NoRepository(req); }
      }
      v, e := CopyAndReport(req, env);
    }

    /** processUpload from the call of the data mover on. */
    method CopyAndReport(req: Upload, env: Answers) returns (v: Verdict, e: Ending)
      requires Valid() && At(ReadyToCopy(req)) && CouldCopy(env, req)
      modifies this, mover
      ensures Valid() && old(acts) <= acts && old(states) <= states && Over()
      ensures Ends(env, e, v, s) && (e.Cancelled? || e.Retrying? || e.GaveUp? || e.Uploaded?)
      ensures e.req == req
    {
      var outcome := CopyToRepo(req, env);
      match outcome {
        case WasCanceled =>
          v, e := ReportCanceled(req, env);
        case CopyError(max) =>
          v, e := RetryOrGiveUp(req, env);
        case Copied =>
          UnregisterOngoingUpload(req);
          v, e := CleanUpCopied(req, env);
      }
    }

    /** The copy was stopped: record that. */
    method ReportCanceled(req: Upload, env: Answers) returns (v: Verdict, e: Ending)
      requires Valid() && At(Patching(req, Canceled, false))
      requires CouldCopy(env, req) && env.entityFound && env.copy == Stops
      modifies this, mover
      ensures Valid() && old(acts) <= acts && old(states) <= states && Over()
      ensures Ends(env, e, v, s) && e.Cancelled? && e.req == req
    {
      var report := ReportPhase(req, Canceled, "The upload was canceled.");
      return (if report.Reported? then NoError else Error), Cancelled(req, report);
    }

    /** The copy is in the repository: delete the local snapshot and record how that went. */
    method CleanUpCopied(req: Upload, env: Answers) returns (v: Verdict, e: Ending)
      requires Valid() && At(Deleting(req, AfterCopy))
      requires CouldCopy(env, req) && env.entityFound && env.copy == Succeeds
      modifies this, mover
      ensures Valid() && old(acts) <= acts && old(states) <= states && Over()
      ensures Ends(env, e, v, s) && e.Uploaded? && e.req == req
    {
      DeleteLocalSnapshot(req, AfterCopy, env.deleted);
      if !env.deleted {
        var report := ReportPhase(req, CleanupFailed, "Failed to clean up local snapshot after uploading snapshot");
        return Error, Uploaded(req, report);
      }
      var report := ReportPhase(req, Completed, "Upload completed");
      return (if report.Reported? then NoError else Error), Uploaded(req, report);
    }

    /** The copy failed: below the maximum ask for a retry, else delete the local snapshot and give up. */
    method RetryOrGiveUp(req: Upload, env: Answers) returns (v: Verdict, e: Ending)
      requires Valid() && CouldCopy(env, req) && (!env.entityFound || env.copy != Succeeds)
      requires req.status.retryCount < env.max ==> At(Patching(req, UploadError, false))
      requires req.status.retryCount >= env.max ==> At(Deleting(req, Exhausted))
      modifies this, mover
      ensures Valid() && old(acts) <= acts && old(states) <= states && Over()
      ensures Ends(env, e, v, s)
      ensures if req.status.retryCount < env.max then e.Retrying? else e.GaveUp?
      ensures e.req == req
    {
      if req.status.retryCount < env.max {
        var report := ReportPhase(req, UploadError, "Failed to upload snapshot");
        return Error, Retrying(req, report);
      }
      FailureHappened(req);
      DeleteLocalSnapshot(req, Exhausted, env.deleted);
      if !env.deleted {
        var report := ReportPhase(req, CleanupFailed, "Failed to clean up local snapshot");
        return Error, GaveUp(req, report);
      }
      var report := ReportPhase(req, FailedAfterRetry, "Successfully deleted local snapshot");
      return NoError, GaveUp(req, report);
    }

    /** A run that gives up has a failed copy behind it. */
    lemma FailureHappened(req: Upload)
      requires Valid() && At(Deleting(req, Exhausted))
      ensures s.hist.failedCopies > 0
    {
      CauseInvReached(states, acts, |acts|);
      assert RunCaused(s.hist, s.cancels, pe, s.runs[node]);
      ExhaustedMeansFailed(states, acts, |acts|);
    }

    /** The status write that ends a run. */
    method ReportPhase(req: Upload, to: Phase, msg: string) returns (report: Report)
      requires Valid() && At(Patching(req, to, false)) && Writable(to)
      modifies this, mover
      ensures Valid() && old(acts) <= acts && old(states) <= states && Grown(old(s), s)
      ensures Over() && Shown(report, req, to, s)
      ensures to == Canceled ==> s.cancels.cancelled != {}
      ensures to == UploadError && ':' in req.spec.snapshotID ==> s.hist.failedCopies > 0
    {
      CauseInvReached(states, acts, |acts|);
      assert RunCaused(s.hist, s.cancels, pe, s.runs[node]);
      var copy := new UploadObject(req);
      var answer, made := PatchUploadByStatusWithRetry(copy, to, false, msg);
      report := if answer.Some? then Reported(made) else Unreported;
    }

    // -------------------------------------------------------------------------------------------
    // triggerUploadCancellation and processUploadItem
    // -------------------------------------------------------------------------------------------

    method PatchTrigger(id: Id, req: UploadObject) returns (patched: bool)
      requires Valid() && id in s.triggers && s.triggers[id] == Trigger(node, req.value, false)
      modifies this, mover, req
      ensures Valid() && old(acts) <= acts && old(states) <= states
      ensures id in s.triggers && s.triggers[id] == Trigger(node, req.value, patched)
    {
      patched := false;
      var budget: nat := *;
      while budget > 0 && !patched
        invariant Valid() && old(acts) <= acts && old(states) <= states
        invariant id in s.triggers && s.triggers[id] == Trigger(node, req.value, patched)
      {
        OthersThanTrigger(id, Trigger(node, req.value, false));
        var now: Time, d: Delivery := *, *;
        var msg := "Canceling on-going upload to repository.";
        var answer := PatchOnce(req, Canceling, node, msg, Attempt(now, s.server, d != Refused));
        Step(TriggerPatch(id, now, d));
        patched := answer.Some? && d == Accepted;
        budget := budget - 1;
      }
      OthersThanTrigger(id, Trigger(node, req.value, patched));
    }

    /** `req` is the informer's own object. When the trigger succeeds, a copy running on this node at that
        moment has been told to stop. */
    method TriggerUploadCancellation(req: UploadObject) returns (v: Verdict, canceled: bool)
      requires Valid() && req.value in s.views && req.value.spec.uploadCancel && Startable(req.value.status.phase)
      modifies this, mover, req
      ensures Valid() && old(acts) <= acts && old(states) <= states
      ensures ':' !in old(req.value).spec.snapshotID ==> v == Error && acts == old(acts)
      ensures canceled ==> v == NoError && node !in s.cancels.entry
      ensures v == NoError && !canceled ==> acts == old(acts) && pe !in old(mover.inProgressCancelMap)
      ensures canceled && node in s.runs && s.runs[node].Copying? ==> s.runs[node].token in s.cancels.cancelled
    {
      if ':' !in req.value.spec.snapshotID { return Error, false; }
      CopiesThisEntity(req.value);
      var uploading := mover.IsUploading(req.value.spec.snapshotID);
      if !uploading { return NoError, false; }
      UnusedId(s.triggers.Keys);
      var id: Id :| id !in s.triggers;
      Step(TriggerStart(id, node, req.value));
      v, canceled := PatchAndCancel(id, req);
    }

    method PatchAndCancel(id: Id, req: UploadObject) returns (v: Verdict, canceled: bool)
      requires Valid() && id in s.triggers && s.triggers[id] == Trigger(node, req.value, false)
      modifies this, mover, req
      ensures Valid() && old(acts) <= acts && old(states) <= states
      ensures canceled <==> v == NoError
      ensures canceled ==> node !in s.cancels.entry
      ensures canceled && node in s.runs && s.runs[node].Copying? ==> s.runs[node].token in s.cancels.cancelled
    {
      var patched := PatchTrigger(id, req);
      if !patched {
        Step(TriggerGivesUp(id));
        return Error, false;
      }
      canceled := CancelTriggered(id);
      v := if canceled then NoError else Error;
    }

    /** CancelUpload of the data mover, as the trigger's last step. */
    method CancelTriggered(id: Id) returns (canceled: bool)
      requires Valid() && id in s.triggers && s.triggers[id].node == node && s.triggers[id].patched
      modifies this, mover
      ensures Valid() && old(acts) <= acts && old(states) <= states
      ensures node !in s.cancels.entry && pe !in mover.inProgressCancelMap
      ensures canceled <==> pe in old(mover.inProgressCancelMap)
      ensures node in s.runs && s.runs[node].Copying? ==> s.runs[node].token in s.cancels.cancelled
    {
      canceled := mover.CancelUpload(pe);
      Advance(TriggerCancel(id));
      assert acts[|acts| - 1] == TriggerCancel(id);
      CancelReachesTheCopy(states, acts, |acts| - 1);
    }

    /** `item` is what the lister returns, `acquired` whether this node gets the lease. Finished, cancelled and unknown
        phases are left alone, a requested cancel is triggered, and anything else is processed under the lease. */
    method ProcessUploadItem(item: Option<UploadObject>, acquired: bool, env: Answers)
      returns (v: Verdict, e: Option<Ending>)
      requires Valid() && Over()
      requires item.Some? ==> item.value.value in s.views
      modifies this, mover, if item.Some? then {item.value} else {}
      ensures Valid() && old(acts) <= acts && old(states) <= states
      ensures e.Some? <==>
                && acquired && item.Some? && !old(item.value.value).spec.uploadCancel
                && var p := old(item.value.value).status.phase;
                   p != Canceled && p != Completed && p != FailedAfterRetry
      ensures e.Some? ==> Over() && Ends(env, e.value, v, s)
      ensures e.None? ==> v == NoError
      ensures e.None? && (item.None? || !old(item.value.value).spec.uploadCancel) ==> acts == old(acts)
    {
      if item.None? { return NoError, None; }
      var view := item.value.value;
      match view.status.phase {
        case Unset | New | InProgress | UploadError | CleanupFailed =>
        case Canceling =>
        case Canceled => return NoError, None;
        case Completed | FailedAfterRetry => return NoError, None;
      }
      if view.spec.uploadCancel {
        var _, _ := TriggerUploadCancellation(item.value);
        return NoError, None;
      }
      if !acquired { return NoError, None; }
      Others();
      Step(StartRun(node, view));
      var verdict, ending := ProcessUpload(env);
      return verdict, Some(ending);
    }

    // -------------------------------------------------------------------------------------------
    // deleteSnapshot
    // -------------------------------------------------------------------------------------------

    /** Step 0 of deleteSnapshot, given whether its read is answered and what becomes of its patch. It goes ahead to the
        deletes exactly if the read fails, finds nothing or finds one of the four phases, changing nothing; there is
        then no copy running if the read was answered and the lease held. Otherwise it asks for a cancel, and unless the
        patch fails the stored object shows that. */
    method CancelOngoingUpload(id: Id, answered: bool, d: Delivery) returns (proceeds: bool, failed: bool)
      requires Valid() && id !in s.deletes
      modifies this, mover
      ensures Valid() && old(acts) <= acts && old(states) <= states
      ensures proceeds <==>
                || !answered || old(s.server).None?
                || old(s.server).value.status.phase == Completed || old(s.server).value.status.phase == CleanupFailed
                || old(s.server).value.status.phase == Canceled
                || old(s.server).value.status.phase == FailedAfterRetry
      ensures proceeds ==> s == old(s) && !failed
      ensures proceeds && answered && LeaseHolds(states, acts) ==> forall n :: n in s.runs ==> !s.runs[n].Copying?
      ensures !proceeds && !failed ==> s.server.Some? && s.server.value.spec.uploadCancel
      ensures !proceeds && d != Accepted ==> failed
    {
      failed := false;
      var read := if answered then s.server else None;
      match read {
        case None => proceeds := true;
        case Some(u) =>
          var p := u.status.phase;
          proceeds := p == Completed || p == CleanupFailed || p == Canceled || p == FailedAfterRetry;
      }
      if proceeds {
        SafeNow(answered);
        SafeAfter(DeleteBegin(id, answered));
        Step(DeleteBegin(id, answered));
      } else {
        failed := RequestCancel(id, d);
      }
    }

    /** The delete request's patch on what its read returned. */
    method RequestCancel(id: Id, d: Delivery) returns (failed: bool)
      requires Valid() && id !in s.deletes && s.server.Some? && !DeleteProceeds(s, true)
      modifies this, mover
      ensures Valid() && old(acts) <= acts && old(states) <= states
      ensures !failed ==> s.server.Some? && s.server.value.spec.uploadCancel
      ensures d != Accepted ==> failed
    {
      ghost var i := |acts|;
      Step(DeleteBegin(id, true));
      OthersThanDelete(id);
      var now: Time := *;
      failed := s.server.None? || d != Accepted;
      if !failed { CancelRequestStored(states, acts, i, |acts|, id, now, d); }
      Step(DeletePatch(id, now, d));
    }

    /** A longer history in which the lease held has held it before. */
    lemma SafeAfter(a: Action)
      requires Valid()
      ensures forall r :: LeaseHolds(states + [r], acts + [a]) ==> LeaseHolds(states, acts)
    {
      forall r | LeaseHolds(states + [r], acts + [a]) ensures LeaseHolds(states, acts) {
        forall i | 0 <= i < |acts| ensures OneRun(states[i], acts[i]) {
          assert OneRun((states + [r])[i], (acts + [a])[i]);
        }
      }
    }

    lemma SafeNow(answered: bool)
      requires Valid() && DeleteProceeds(s, answered)
      ensures answered && LeaseHolds(states, acts) ==> forall n :: n in s.runs ==> !s.runs[n].Copying?
    {
      if answered && LeaseHolds(states, acts) {
        DeleteIsSafeIffAnswered(true);
        assert FreeOfCopiesFrom(states, |acts|);
      }
    }
  }

  /** The stored cancel request right after a delete request's patch has been stored. */
  lemma CancelRequestStored(states: seq<State>, acts: seq<Action>, i: nat, j: nat, id: Id, now: Time, d: Delivery)
    requires Execution(states, acts) && i <= j < |states| && states[i].server.Some?
    requires id in states[j].deletes && states[j].deletes[id] == states[i].server.value && Reaches(states[j], d)
    ensures var r := DoDeletePatch(states[j], id, now, d);
            r.server.Some? && r.server.value.spec.uploadCancel
  {
    NoLostUpdates(states, acts, i, j);
    KeptByDelete(states[j], id, now, d);
  }

  lemma {:induction false} UnusedId(ids: set<Id>)
    ensures exists id: Id :: id !in ids
  {
    var id := IdAbove(ids);
    assert id !in ids;
  }

  lemma {:induction false} IdAbove(ids: set<Id>) returns (bound: Id)
    ensures forall id :: id in ids ==> id < bound
    decreases |ids|
  {
    if ids == {} {
      bound := 0;
    } else {
      var one :| one in ids;
      var rest := IdAbove(ids - {one});
      bound := if one < rest then rest else one + 1;
      assert forall id :: id in ids ==> id == one || id in ids - {one};
    }
  }
}
