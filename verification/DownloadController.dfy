/** The download controller's code, call by call: every behaviour of it, whatever happens between two of its
    calls, is an execution of the download protocol. */
module DownloadController {
  import opened Common
  import opened Json
  import opened SnapshotIds
  import opened DownloadResource
  import opened DownloadProtocol

  /** The in-memory copy that every patch attempt mutates in place. */
  class DownloadObject {
    var value: Download

    constructor (d: Download)
      ensures value == d
    {
      value := d;
    }
  }

  predicate Foreign(a: Action, n: Node)
  {
    match a
    case StartRun(m) => m != n
    case OfRun(m, _) => m != n
    case Crash(m) => m != n
    case RemoveResource => true
  }

  predicate Grown(before: State, after: State)
  {
    before.hist.returned <= after.hist.returned && (before.hist.everCompleted ==> after.hist.everCompleted)
  }

  lemma ForeignKeepsRun(s: State, a: Action, n: Node)
    requires Enabled(s, a) && Foreign(a, n)
    ensures n in Do(s, a).runs <==> n in s.runs
    ensures n in s.runs ==> Do(s, a).runs[n] == s.runs[n]
    ensures Grown(s, Do(s, a))
  {}

  /** What the calls of one run answer; `newId` is the entity a copy without a target allocates. */
  datatype Answers = Answers(read: bool, repositoryFound: bool, copied: bool, newId: PeId)

  /** How a run ended; `req` is the copy of the resource it worked on. */
  datatype Ending =
    | Unread
    | AlreadyCompleted
    | Unmarked
    | BadId(req: Download, report: Report)
    | BadTarget(req: Download)
    | NoRepository(req: Download)
    | CopyFailed(req: Download, report: Report)
    | Restored(req: Download, id: PeId, report: Report)

  /** A failure accepted at its first attempt: one retry more, or Failed once there were six. */
  predicate FailureShown(report: Report, req: Download, s: State)
  {
    report == Reported(1) ==>
      && s.server.Some?
      && (req.status.retryCount <= 5 ==>
            && s.server.value.status.retryCount == req.status.retryCount + 1
            && (req.status.phase != Retry ==> s.server.value.status.phase == Retry))
      && (req.status.retryCount > 5 && req.status.phase != Failed ==> s.server.value.status.phase == Failed)
  }

  /** A completion accepted at its first attempt. */
  predicate CompletionShown(report: Report, req: Download, id: PeId, s: State)
  {
    report == Reported(1) ==>
      && s.server.Some?
      && (req.status.phase != Completed ==> s.server.value.status.phase == Completed)
      && (req.status.volumeID != Print(id) ==> s.server.value.status.volumeID == Print(id))
  }

  predicate NamesRepository(req: Download)
  {
    req.spec.backupRepository != "" && req.spec.backupRepository != "without-backup-repository"
  }

  predicate CouldCopy(env: Answers, req: Download)
  {
    && ':' in req.spec.snapshotID && (req.spec.protectedEntityID == "" || ':' in req.spec.protectedEntityID)
    && (NamesRepository(req) ==> env.repositoryFound)
  }

  /** What each ending means: which answers lead to it, what it records and what it returns to the queue. */
  predicate Ends(env: Answers, e: Ending, v: Verdict, s: State)
  {
    match e
    case Unread => v == Error
    case AlreadyCompleted => v == NoError && env.read
    case Unmarked => v == Error && env.read
    case BadId(req, report) => v == Error && ':' !in req.spec.snapshotID && FailureShown(report, req, s)
    case BadTarget(req) => v == Error && req.spec.protectedEntityID != "" && ':' !in req.spec.protectedEntityID
    case NoRepository(req) => v == Error && NamesRepository(req) && !env.repositoryFound
    case CopyFailed(req, report) =>
      && CouldCopy(env, req) && v == Error && FailureShown(report, req, s)
      && (!env.copied || (req.spec.protectedEntityID == "" && !env.newId.WellFormed()))
    case Restored(req, id, report) =>
      && CouldCopy(env, req) && env.copied && id in s.hist.returned
      && (if req.spec.protectedEntityID == "" then id == env.newId else Parse(req.spec.protectedEntityID) == Ok(id))
      && (v == NoError <==> report.Reported?) && CompletionShown(report, req, id, s)
  }

  class Cluster {
    var s: State
    ghost var states: seq<State>
    ghost var acts: seq<Action>

    ghost predicate Valid()
      reads this
    {
      Execution(states, acts) && s == states[|acts|]
    }

    predicate At(n: Node, run: Run)
      reads this
    {
      n in s.runs && s.runs[n] == run
    }

    /** The run is where `next` says, or over. */
    predicate Reached(n: Node, next: Option<Run>)
      reads this
    {
      match next
      case Some(run) => At(n, run)
      case None => n !in s.runs
    }

    function Running(n: Node): (r: Option<Run>)
      reads this
      ensures Reached(n, r)
    {
      if n in s.runs then Some(s.runs[n]) else None
    }

    constructor (d: Download)
      requires d.status.phase == New && d.status.retryCount == 0 && d.status.volumeID == ""
      ensures Valid() && acts == [] && s.server == Some(d) && s.runs == map[]
    {
      s := State(Some(d), map[], History({}, false, 0, 0));
      new;
      states, acts := [s], [];
    }

    method Step(a: Action)
      requires Valid() && Enabled(s, a)
      modifies this
      ensures Valid() && s == Do(old(s), a) && acts == old(acts) + [a] && states == old(states) + [s]
    {
      states, acts := Extended(states, acts, a);
      s := Do(s, a);
    }

    /** Any number of steps of everybody but this run. */
    method Others(n: Node)
      requires Valid()
      modifies this
      ensures Valid() && old(acts) <= acts && old(states) <= states
      ensures Reached(n, old(Running(n))) && Grown(old(s), s)
    {
      var k: nat := *;
      while k > 0
        invariant Valid() && old(acts) <= acts && old(states) <= states
        invariant Reached(n, old(Running(n))) && Grown(old(s), s)
      {
        var a: Action := *;
        if Enabled(s, a) && Foreign(a, n) {
          ForeignKeepsRun(s, a, n);
          Step(a);
        }
        k := k - 1;
      }
    }

    method RunStep(n: Node, e: Event)
      requires Valid() && n in s.runs && RunEnabled(s, s.runs[n], e)
      modifies this
      ensures Valid() && old(acts) <= acts && old(states) <= states
      ensures Reached(n, NextRun(old(s), n, old(s).runs[n], e))
      ensures s.server == NextServer(old(s), n, old(s).runs[n], e)
      ensures s.hist.returned == old(s).hist.returned + (if e.CopyOk? then {e.id} else {})
      ensures Grown(old(s), s)
    {
      Step(OfRun(n, e));
    }

    /** patchDownload: marshal, mutate the copy in place, marshal again, send the difference. */
    method PatchDownload(n: Node, req: DownloadObject, w: Write, now: Time, msg: string, d: Delivery)
      returns (patch: Json, updated: Option<Download>)
      requires Valid() && At(n, Patching(req.value, w))
      modifies this, req
      ensures Valid() && old(acts) <= acts && old(states) <= states && Grown(old(s), s)
      ensures req.value == old(req.value).(status := Mutated(old(req.value).status, w, now, n, msg))
      ensures patch == Diff(DownloadJson(old(req.value)), DownloadJson(req.value))
      ensures updated.Some? <==> old(s.server).Some? && d == Accepted
      ensures updated.Some? ==>
                s.server == updated && DownloadJson(updated.value) == Apply(patch, DownloadJson(old(s.server).value))
      ensures updated.Some? ==>
                var stored := old(s.server).value;
                updated.value == stored.(status := Patched(old(req.value).status, req.value.status, stored.status))
      ensures Reached(n, if updated.None? then Some(Patching(req.value, w))
                         else if w.ToInProgress? then Some(Proceed(updated.value)) else None)
    {
      var before, stored := req.value, s.server;
      var oldData := DownloadJson(req.value);
      req.value := req.value.(status := Mutated(req.value.status, w, now, n, msg));
      patch := Diff(oldData, DownloadJson(req.value));
      RunStep(n, PatchAttempt(now, msg, d));
      updated := if stored.Some? && d == Accepted then s.server else None;
      if updated.Some? { MergePatchIsFieldwise(before, req.value, stored.value); }
    }

    /** One attempt, after whatever the others do. */
    method PatchAttempted(n: Node, req: DownloadObject, w: Write, msg: string) returns (updated: Option<Download>)
      requires Valid() && At(n, Patching(req.value, w))
      modifies this, req
      ensures Valid() && old(acts) <= acts && old(states) <= states && Grown(old(s), s)
      ensures Reached(n, if updated.None? then Some(Patching(req.value, w))
                         else if w.ToInProgress? then Some(Proceed(updated.value)) else None)
      ensures updated.Some? ==> s.server == updated
      ensures updated.Some? && w.ToRetry? ==> FailureShown(Reported(1), old(req.value), s)
      ensures updated.Some? && w.ToCompleted? ==>
                forall id :: Print(id) == w.volume ==> CompletionShown(Reported(1), old(req.value), id, s)
      ensures updated.Some? && w.ToInProgress? && old(req.value).status.phase != InProgress ==>
                updated.value.status.phase == InProgress
    {
      Others(n);
      var now: Time, d: Delivery := *, *;
      var _, answer := PatchDownload(n, req, w, now, msg, d);
      updated := answer;
    }

    method PatchDownloadByStatusWithRetry(n: Node, req: DownloadObject, w: Write, msg: string)
      returns (updated: Option<Download>, report: Report)
      requires Valid() && At(n, Patching(req.value, w))
      modifies this, req
      ensures Valid() && old(acts) <= acts && old(states) <= states && Grown(old(s), s)
      ensures Reached(n, if updated.Some? && w.ToInProgress? then Some(Proceed(updated.value)) else None)
      ensures updated.Some? <==> report.Reported?
      ensures w.ToRetry? ==> FailureShown(report, old(req.value), s)
      ensures w.ToCompleted? ==>
                forall id :: Print(id) == w.volume ==> CompletionShown(report, old(req.value), id, s)
      ensures w.ToInProgress? && report == Reported(1) && old(req.value).status.phase != InProgress ==>
                updated.value.status.phase == InProgress
    {
      var budget: nat := *;
      var made := 0;
      while made < budget
        invariant Valid() && old(acts) <= acts && old(states) <= states && Grown(old(s), s)
        invariant At(n, Patching(req.value, w)) && (made == 0 ==> req.value == old(req.value))
      {
        updated := PatchAttempted(n, req, w, msg);
        made := made + 1;
        if updated.Some? { return updated, Reported(made); }
      }
      Others(n);
      RunStep(n, Fails);
      return None, Unreported;
    }

    method GetDownload(n: Node, answered: bool) returns (d: Option<Download>)
      requires Valid() && At(n, Getting)
      modifies this
      ensures Valid() && old(acts) <= acts && old(states) <= states && Grown(old(s), s)
      ensures Reached(n, if d.None? then None else AfterGet(d.value))
      ensures d == if answered then s.server else None
    {
      Others(n);
      d := if answered then s.server else None;
      RunStep(n, if d.None? then Fails else GetOk);
    }

    /** copyFromRepo: overwrite the target entity if there is one, else allocate a new one. */
    method CopyFromRepo(n: Node, req: Download, target: Option<PeId>, env: Answers) returns (id: Option<PeId>)
      requires Valid() && At(n, Copying(req))
      requires req.spec.protectedEntityID == "" <==> target.None?
      requires target.Some? ==> Parse(req.spec.protectedEntityID) == Ok(target.value)
      modifies this
      ensures Valid() && old(acts) <= acts && old(states) <= states && Grown(old(s), s)
      ensures id.Some? <==> env.copied && (target.Some? || env.newId.WellFormed())
      ensures id.Some? ==> At(n, Patching(req, ToCompleted(Print(id.value)))) && id.value in s.hist.returned
      ensures id.Some? ==> id.value == if target.Some? then target.value else env.newId
      ensures id.None? ==> At(n, Patching(req, ToRetry))
    {
      Others(n);
      if !env.copied {
        id := None;
      } else if target.Some? {
        id := target;
      } else {
        id := if env.newId.WellFormed() then Some(env.newId) else None;
      }
      RunStep(n, if id.Some? then CopyOk(id.value) else CopyFails);
    }

    /** Every behaviour is an execution of the protocol that ends this node's run as `Ends` says. */
    method ProcessDownload(n: Node, env: Answers) returns (v: Verdict, e: Ending)
      requires Valid() && At(n, Getting)
      modifies this
      ensures Valid() && old(acts) <= acts && old(states) <= states && n !in s.runs
      ensures Ends(env, e, v, s)
    {
      var answer := GetDownload(n, env.read);
      if answer.None? { return Error, Unread; }
      var req := answer.value;
      if req.status.phase == Completed { return NoError, AlreadyCompleted; }
      if req.status.phase != InProgress {
        var copy := new DownloadObject(req);
        var marked, _ := PatchDownloadByStatusWithRetry(n, copy, ToInProgress, "");
        if marked.None? { return Error, Unmarked; }
        req := marked.value;
      }
      if Parse(req.spec.snapshotID).Err? {
        var report := ReportFailure(n, req, "Failed to get PEID from SnapshotID");
        return Error, BadId(req, report);
      }
      v, e := CopyAndReport(n, req, env);
    }

    method ReportFailure(n: Node, req: Download, msg: string) returns (report: Report)
      requires Valid() && At(n, Patching(req, ToRetry))
      modifies this
      ensures Valid() && old(acts) <= acts && old(states) <= states && n !in s.runs && Grown(old(s), s)
      ensures FailureShown(report, req, s)
    {
      var copy := new DownloadObject(req);
      var _, r := PatchDownloadByStatusWithRetry(n, copy, ToRetry, msg);
      report := r;
    }

    method ReportCompletion(n: Node, req: Download, id: PeId) returns (report: Report)
      requires Valid() && At(n, Patching(req, ToCompleted(Print(id))))
      modifies this
      ensures Valid() && old(acts) <= acts && old(states) <= states && n !in s.runs && Grown(old(s), s)
      ensures CompletionShown(report, req, id, s)
    {
      var copy := new DownloadObject(req);
      var _, r := PatchDownloadByStatusWithRetry(n, copy, ToCompleted(Print(id)), "");
      report := r;
    }

    /** processDownload from the choice of the target on. */
    method CopyAndReport(n: Node, req: Download, env: Answers) returns (v: Verdict, e: Ending)
      requires Valid() && At(n, Copying(req)) && ':' in req.spec.snapshotID
      modifies this
      ensures Valid() && old(acts) <= acts && old(states) <= states && n !in s.runs
      ensures Ends(env, e, v, s) && (e.BadTarget? || e.NoRepository? || e.CopyFailed? || e.Restored?)
      ensures e.req == req
    {
      var target: Option<PeId> := None;
      if req.spec.protectedEntityID != "" {
        var parsed := Parse(req.spec.protectedEntityID);
        if parsed.Err? {
          RunStep(n, Fails);
          return Error, BadTarget(req);
        }
        target := Some(parsed.value);
      }
      if req.spec.backupRepository != "" && req.spec.backupRepository != WITHOUT_BACKUP_REPOSITORY {
        Others(n);
        if !env.repositoryFound {
          RunStep(n, Fails);
          return Error, NoRepository(req);
        }
      }
      var copied := CopyFromRepo(n, req, target, env);
      if copied.None? {
        var report := ReportFailure(n, req, "Failed to download snapshot");
        return Error, CopyFailed(req, report);
      }
      var report := ReportCompletion(n, req, copied.value);
      return (if report.Reported? then NoError else Error), Ending.Restored(req, copied.value, report);
    }
  }
}
